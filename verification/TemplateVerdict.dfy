/** What the verdict of the specification validator is worth: when an exception, which counts as a
    pass, occurs, which templates and values rule it out, and when the reported template is the right one. */
module TemplateVerdict {
  import Sequences
  import opened Wrappers
  import opened TemplateValidator

  // ------------------------------------------------------- the sites of a traversal

  /** What every step of the complete traversal finds, in order, were it not ended by a failure:
      the own checks of each node, required fields that are missing, and fields without a type. */
  ghost function Sites(tm: Templates, v: Visit): seq<Outcome>
    decreases v.data, 4
  {
    [CheckHere(tm, v)] +
    if CheckHere(tm, v) != Accept then []
    else if v.dtype == "array" then
      ElementSites(tm, v.data.items, v.key, v.template.elementType.value, ElementTemplate(v.template))
    else if v.dtype == "object" then FieldsSites(tm, v.data, v.template.fields.entries)
    else if v.dtype == "templateReference" then Sites(tm, Inside(tm, v.data))
    else []
  }

  /** The call a template reference makes for its values. */
  ghost function Inside(tm: Templates, d: Json): Visit
    requires Readable(tm, d)
  {
    Visit("object", d.fields["values"], "spec", tm[d.fields["@templateType"].s].spec)
  }

  ghost function ElementSites(tm: Templates, items: seq<Json>, key: string, dtype: string, t: Tmpl): seq<Outcome>
    decreases items, 1
  {
    if items == [] then []
    else ElementSites(tm, items[..|items| - 1], key, dtype, t) + Sites(tm, Visit(dtype, items[|items| - 1], key, t))
  }

  ghost function FieldSites(tm: Templates, d: Json, name: string, sub: Tmpl): seq<Outcome>
    requires d.JObj?
    decreases d, 0
  {
    if name == "@templateMetadata" then []
    else if name !in d.fields then if sub.required then [Reject(true)] else []
    else if sub.dtype.None? then [Raise]
    else Sites(tm, Visit(sub.dtype.value, d.fields[name], name, sub))
  }

  ghost function FieldsSites(tm: Templates, d: Json, fs: seq<(string, Tmpl)>): seq<Outcome>
    requires d.JObj?
    decreases d, 1, |fs|
  {
    if fs == [] then [] else FieldsSites(tm, d, fs[..|fs| - 1]) + FieldSites(tm, d, fs[|fs| - 1].0, fs[|fs| - 1].1)
  }

  /** The first outcome that is not an acceptance. */
  ghost function First(s: seq<Outcome>): Outcome {
    if s == [] then Accept else if s[0] != Accept then s[0] else First(s[1..])
  }

  lemma {:induction false} FirstConcat(a: seq<Outcome>, b: seq<Outcome>)
    ensures First(a + b) == if First(a) == Accept then First(b) else First(a)
  {
    if a == [] {
      assert a + b == b;
    } else {
      assert (a + b)[1..] == a[1..] + b;
      FirstConcat(a[1..], b);
    }
  }

  lemma {:induction false} FirstIs(s: seq<Outcome>, o: Outcome)
    requires o != Accept
    ensures First(s) == o <==> exists i :: 0 <= i < |s| && s[i] == o && forall j :: 0 <= j < i ==> s[j] == Accept
  {
    if s != [] {
      FirstIs(s[1..], o);
      if First(s) == o && s[0] == Accept {
        var i :| 0 <= i < |s[1..]| && s[1..][i] == o && forall j :: 0 <= j < i ==> s[1..][j] == Accept;
        assert s[i + 1] == o && forall j :: 0 <= j < i + 1 ==> s[j] == if j == 0 then Accept else s[1..][j - 1];
      }
      if i :| 0 <= i < |s| && s[i] == o && forall j :: 0 <= j < i ==> s[j] == Accept {
        if i > 0 {
          assert s[1..][i - 1] == o && forall j :: 0 <= j < i - 1 ==> s[1..][j] == s[j + 1];
        }
      }
    }
  }

  /** The validator's run, which stops at the first failure, ends as the first failing site does. */
  lemma {:induction false} OutcomeIsFirst(tm: Templates, v: Visit)
    ensures Dispatch(tm, v).outcome == First(Sites(tm, v))
    decreases v.data, 4
  {
    var here := CheckHere(tm, v);
    assert Sites(tm, v)[1..] == Sites(tm, v)[1..] + [] && First([]) == Accept;
    if here == Accept {
      if v.dtype == "array" {
        ElementsFirst(tm, v.data.items, v.key, v.template.elementType.value, ElementTemplate(v.template));
      } else if v.dtype == "object" {
        FieldsFirst(tm, v.data, v.template.fields.entries);
      } else if v.dtype == "templateReference" {
        OutcomeIsFirst(tm, Inside(tm, v.data));
        assert Body(tm, v) == TemplateRun(tm, v.data, v.template);
      }
    }
  }

  lemma {:induction false} ElementsFirst(tm: Templates, items: seq<Json>, key: string, dtype: string, t: Tmpl)
    ensures ElementsRun(tm, items, key, dtype, t).outcome == First(ElementSites(tm, items, key, dtype, t))
    decreases items, 1
  {
    if items != [] {
      var v := Visit(dtype, items[|items| - 1], key, t);
      ElementsFirst(tm, items[..|items| - 1], key, dtype, t);
      OutcomeIsFirst(tm, v);
      FirstConcat(ElementSites(tm, items[..|items| - 1], key, dtype, t), Sites(tm, v));
    }
  }

  lemma {:induction false} FieldsFirst(tm: Templates, d: Json, fs: seq<(string, Tmpl)>)
    requires d.JObj?
    ensures FieldsRun(tm, d, fs).outcome == First(FieldsSites(tm, d, fs))
    decreases d, 1, |fs|
  {
    if fs != [] {
      var name, sub := fs[|fs| - 1].0, fs[|fs| - 1].1;
      FieldsFirst(tm, d, fs[..|fs| - 1]);
      if name != "@templateMetadata" && name in d.fields && sub.dtype.Some? {
        OutcomeIsFirst(tm, Visit(sub.dtype.value, d.fields[name], name, sub));
      }
      FirstConcat(FieldsSites(tm, d, fs[..|fs| - 1]), FieldSites(tm, d, name, sub));
    }
  }

  /** A readable specification is passed, with or without an exception. */
  ghost predicate Passes(tm: Templates, spec: Json)
    requires Readable(tm, spec)
  {
    !Body(tm, RootVisit(tm, spec)).outcome.Reject?
  }

  /** A specification passes by an exception exactly when the first failing site of its traversal,
      however much of the traversal the validator leaves undone, is one that raises. */
  lemma RaisesIffFirstFailureRaises(tm: Templates, spec: Json)
    requires Readable(tm, spec)
    ensures var s := Sites(tm, RootVisit(tm, spec));
            Body(tm, RootVisit(tm, spec)).outcome == Raise <==>
            exists i :: 0 <= i < |s| && s[i] == Raise && forall j :: 0 <= j < i ==> s[j] == Accept
    ensures Passes(tm, spec) <==>
              Conforms(tm, "object", spec.fields["values"], RootVisit(tm, spec).template) ||
              First(Sites(tm, RootVisit(tm, spec))) == Raise
  {
    PassesIffConforms(tm, spec);
    OutcomeIsFirst(tm, RootVisit(tm, spec));
    FirstIs(Sites(tm, RootVisit(tm, spec)), Raise);
  }

  // ------------------------------------------------------------- complete templates

  /** Everything the checks of this type look up is there. The elements of an array are checked with
      a template that has nothing but the fields, so only some element types can be complete. */
  predicate Complete(dtype: string, t: Tmpl)
    decreases t
  {
    if dtype == "number" then t.range.Some? ==> t.range.value.minimum.Some? && t.range.value.maximum.Some?
    else if dtype == "reference" || dtype == "templateReference" then t.prefixes.Some?
    else if dtype == "object" then CompleteFields(t)
    else if dtype == "array" then
      t.elementType.Some? && t.elementType.value !in {"reference", "templateReference", "array"} &&
      (t.elementType.value == "object" ==> CompleteFields(t))
    else true
  }

  predicate CompleteFields(t: Tmpl)
    decreases t, 0
  {
    t.fields.Entries? &&
    forall e :: e in t.fields.entries && e.0 != "@templateMetadata" ==>
        e.1.dtype.Some? && Complete(e.1.dtype.value, e.1)
  }

  predicate AllComplete(tm: Templates) {
    forall name :: name in tm && tm[name].topType == "object" ==> CompleteFields(tm[name].spec)
  }

  /** Wherever the template asks for a template reference and an object is given, the object names its
      template by a text and has values. */
  ghost predicate Tagged(tm: Templates, dtype: string, d: Json, t: Tmpl)
    decreases d, 1
  {
    if dtype == "array" then
      d.JList? && t.elementType.Some? ==>
        forall i :: 0 <= i < |d.items| ==> Tagged(tm, t.elementType.value, d.items[i], ElementTemplate(t))
    else if dtype == "object" then
      d.JObj? && t.fields.Entries? ==>
        forall i :: 0 <= i < |t.fields.entries| ==> FieldTagged(tm, d, t.fields.entries[i].0, t.fields.entries[i].1)
    else if dtype == "templateReference" then
      d.JObj? ==>
        Named(d).Some? && Named(d).value.JStr? && "values" in d.fields &&
        (Readable(tm, d) ==> Tagged(tm, "object", d.fields["values"], Inside(tm, d).template))
    else true
  }

  ghost predicate FieldTagged(tm: Templates, d: Json, name: string, sub: Tmpl)
    requires d.JObj?
    decreases d, 0
  {
    name in d.fields && sub.dtype.Some? ==> Tagged(tm, sub.dtype.value, d.fields[name], sub)
  }

  /** With complete templates, values whose template references are tagged never cause an exception. */
  lemma {:induction false} NeverRaises(tm: Templates, v: Visit)
    requires AllComplete(tm) && Complete(v.dtype, v.template) && Tagged(tm, v.dtype, v.data, v.template)
    ensures Dispatch(tm, v).outcome != Raise
    decreases v.data, 4
  {
    assert CheckHere(tm, v) != Raise;
    if CheckHere(tm, v) == Accept {
      if v.dtype == "array" {
        ElementsNeverRaise(tm, v.data.items, v.key, v.template.elementType.value, ElementTemplate(v.template));
      } else if v.dtype == "object" {
        FieldsNeverRaise(tm, v.data, v.template.fields.entries);
      } else if v.dtype == "templateReference" {
        NeverRaises(tm, Inside(tm, v.data));
        assert Body(tm, v) == TemplateRun(tm, v.data, v.template);
      }
    }
  }

  lemma {:induction false} ElementsNeverRaise(tm: Templates, items: seq<Json>, key: string, dtype: string, t: Tmpl)
    requires AllComplete(tm) && Complete(dtype, t)
    requires forall i :: 0 <= i < |items| ==> Tagged(tm, dtype, items[i], t)
    ensures ElementsRun(tm, items, key, dtype, t).outcome != Raise
    decreases items, 1
  {
    if items != [] {
      ElementsNeverRaise(tm, items[..|items| - 1], key, dtype, t);
      NeverRaises(tm, Visit(dtype, items[|items| - 1], key, t));
    }
  }

  lemma {:induction false} FieldsNeverRaise(tm: Templates, d: Json, fs: seq<(string, Tmpl)>)
    requires d.JObj? && AllComplete(tm)
    requires forall e :: e in fs && e.0 != "@templateMetadata" ==> e.1.dtype.Some? && Complete(e.1.dtype.value, e.1)
    requires forall i :: 0 <= i < |fs| ==> FieldTagged(tm, d, fs[i].0, fs[i].1)
    ensures FieldsRun(tm, d, fs).outcome != Raise
    decreases d, 1, |fs|
  {
    if fs != [] {
      var e := fs[|fs| - 1];
      FieldsNeverRaise(tm, d, fs[..|fs| - 1]);
      if e.0 != "@templateMetadata" && e.0 in d.fields {
        NeverRaises(tm, Visit(e.1.dtype.value, d.fields[e.0], e.0, e.1));
      }
    }
  }

  /** With complete templates and tagged values, passing is conforming. */
  lemma CompletePassesIffConforms(tm: Templates, spec: Json)
    requires Readable(tm, spec) && AllComplete(tm) &&
             Tagged(tm, "object", spec.fields["values"], RootVisit(tm, spec).template)
    ensures Passes(tm, spec) <==> Conforms(tm, "object", spec.fields["values"], RootVisit(tm, spec).template)
  {
    NeverRaises(tm, RootVisit(tm, spec));
    PassesIffConforms(tm, spec);
  }

  /** A template whose field has no type: any value given for it passes, and none conforms. */
  lemma UntypedFieldPasses(data: Json)
    ensures var field := Tmpl(None, Absent, false, None, None, None, None);
            var top := Tmpl(None, Entries([("f", field)]), false, None, None, None, None);
            var tm := map["T" := Template("object", top)];
            var spec := JObj(map["@templateType" := JStr("T"), "values" := JObj(map["f" := data])]);
            Readable(tm, spec) && Passes(tm, spec) &&
            !Conforms(tm, "object", spec.fields["values"], RootVisit(tm, spec).template)
  {
    var field := Tmpl(None, Absent, false, None, None, None, None);
    var entries := [("f", field)];
    var tm := map["T" := Template("object", Tmpl(None, Entries(entries), false, None, None, None, None))];
    var spec := JObj(map["@templateType" := JStr("T"), "values" := JObj(map["f" := data])]);
    var v := RootVisit(tm, spec);
    assert entries[..0] == [];
    assert FieldRun(tm, v.data, "f", field).outcome == Raise;
    assert FieldsRun(tm, v.data, entries).outcome == Raise;
    PassesIffConforms(tm, spec);
  }

  // ---------------------------------------------------------- the reported template

  /** The templates entered and not left, the outermost first. */
  ghost function Open(open: seq<string>, log: seq<Event>): seq<string> {
    if log == [] then open else Opened(Open(open, log[..|log| - 1]), log[|log| - 1])
  }

  ghost function Opened(open: seq<string>, e: Event): seq<string> {
    match e
    case Visited(_) => open
    case Entered(name) => open + [name]
    case Left => if open == [] then [] else open[..|open| - 1]
  }

  /** All templates entered, in order. */
  ghost function AllEntered(names: seq<string>, log: seq<Event>): seq<string> {
    if log == [] then names
    else AllEntered(names, log[..|log| - 1]) + if log[|log| - 1].Entered? then [log[|log| - 1].name] else []
  }

  /** The template entered last has not been left. */
  ghost predicate StillIn(log: seq<Event>) {
    log == [] || log[|log| - 1].Entered? || (log[|log| - 1].Visited? && StillIn(log[..|log| - 1]))
  }

  lemma {:induction false} OpenConcat(open: seq<string>, a: seq<Event>, b: seq<Event>)
    ensures Open(open, a + b) == Open(Open(open, a), b)
  {
    if b == [] {
      assert a + b == a;
    } else {
      assert (a + b)[..|a + b| - 1] == a + b[..|b| - 1];
      OpenConcat(open, a, b[..|b| - 1]);
    }
  }

  /** The templates around the node or the field at which a run fails, the outermost first. */
  ghost function Around(tm: Templates, v: Visit): seq<string>
    decreases v.data, 4
  {
    if CheckHere(tm, v) != Accept then []
    else if v.dtype == "array" then
      AroundElement(tm, v.data.items, v.key, v.template.elementType.value, ElementTemplate(v.template))
    else if v.dtype == "object" then AroundField(tm, v.data, v.template.fields.entries)
    else if v.dtype == "templateReference" then [v.data.fields["@templateType"].s] + Around(tm, Inside(tm, v.data))
    else []
  }

  ghost function AroundElement(tm: Templates, items: seq<Json>, key: string, dtype: string, t: Tmpl): seq<string>
    decreases items, 1
  {
    if items == [] then []
    else if ElementsRun(tm, items[..|items| - 1], key, dtype, t).outcome != Accept then
      AroundElement(tm, items[..|items| - 1], key, dtype, t)
    else Around(tm, Visit(dtype, items[|items| - 1], key, t))
  }

  ghost function AroundField(tm: Templates, d: Json, fs: seq<(string, Tmpl)>): seq<string>
    requires d.JObj?
    decreases d, 1, |fs|
  {
    if fs == [] then []
    else if FieldsRun(tm, d, fs[..|fs| - 1]).outcome != Accept then AroundField(tm, d, fs[..|fs| - 1])
    else
      var (name, sub) := fs[|fs| - 1];
      if name == "@templateMetadata" || name !in d.fields || sub.dtype.None? then []
      else Around(tm, Visit(sub.dtype.value, d.fields[name], name, sub))
  }

  /** What a run does to the open templates: a part that passes leaves them as they were, and one that
      fails leaves open those around the failure as well. */
  ghost predicate Nests(r: Result, open: seq<string>, around: seq<string>) {
    Open(open, r.log) == open + if r.outcome == Accept then [] else around
  }

  lemma NestsAfter(a: seq<Event>, r: Result, open: seq<string>, around: seq<string>)
    requires Open(open, a) == open && Nests(r, open, around)
    ensures Nests(Result(r.outcome, a + r.log), open, around)
  {
    OpenConcat(open, a, r.log);
  }

  lemma {:induction false} BodyNests(tm: Templates, v: Visit, open: seq<string>)
    ensures Nests(Body(tm, v), open, Around(tm, v))
    decreases v.data, 3
  {
    assert open + [] == open;
    if CheckHere(tm, v) == Accept {
      if v.dtype == "array" {
        ElementsNest(tm, v.data.items, v.key, v.template.elementType.value, ElementTemplate(v.template), open);
      } else if v.dtype == "object" {
        FieldsNest(tm, v.data, v.template.fields.entries, open);
      } else if v.dtype == "templateReference" {
        TemplateNests(tm, v.data, v.template, open);
        assert Body(tm, v) == TemplateRun(tm, v.data, v.template);
      }
    }
  }

  lemma {:induction false} DispatchNests(tm: Templates, v: Visit, open: seq<string>)
    ensures Nests(Dispatch(tm, v), open, Around(tm, v))
    decreases v.data, 4
  {
    BodyNests(tm, v, open);
    assert [Visited(v)][..0] == [];
    NestsAfter([Visited(v)], Body(tm, v), open, Around(tm, v));
  }

  lemma {:induction false} TemplateNests(tm: Templates, d: Json, t: Tmpl, open: seq<string>)
    requires CheckTemplate(tm, d, t) == Accept
    ensures Nests(TemplateRun(tm, d, t), open, [d.fields["@templateType"].s] + Around(tm, Inside(tm, d)))
    decreases d, 2
  {
    var name := d.fields["@templateType"].s;
    var r := Dispatch(tm, Inside(tm, d));
    var log := [Entered(name)] + r.log;
    DispatchNests(tm, Inside(tm, d), open + [name]);
    assert [Entered(name)][..0] == [];
    OpenConcat(open, [Entered(name)], r.log);
    assert (log + [Left])[..|log|] == log && log + [] == log;
    assert open + [] == open && open + [name] + [] == open + [name];
    assert open + [name] + Around(tm, Inside(tm, d)) == open + ([name] + Around(tm, Inside(tm, d)));
  }

  lemma {:induction false} ElementsNest(tm: Templates, items: seq<Json>, key: string, dtype: string, t: Tmpl,
      open: seq<string>)
    ensures Nests(ElementsRun(tm, items, key, dtype, t), open, AroundElement(tm, items, key, dtype, t))
    decreases items, 1
  {
    assert open + [] == open;
    if items != [] {
      var before, v := ElementsRun(tm, items[..|items| - 1], key, dtype, t), Visit(dtype, items[|items| - 1], key, t);
      ElementsNest(tm, items[..|items| - 1], key, dtype, t, open);
      if before.outcome == Accept {
        DispatchNests(tm, v, open);
        NestsAfter(before.log, Dispatch(tm, v), open, Around(tm, v));
      }
    }
  }

  lemma {:induction false} FieldsNest(tm: Templates, d: Json, fs: seq<(string, Tmpl)>, open: seq<string>)
    requires d.JObj?
    ensures Nests(FieldsRun(tm, d, fs), open, AroundField(tm, d, fs))
    decreases d, 1, |fs|
  {
    assert open + [] == open;
    if fs != [] {
      var before := FieldsRun(tm, d, fs[..|fs| - 1]);
      FieldsNest(tm, d, fs[..|fs| - 1], open);
      if before.outcome == Accept {
        var name, sub := fs[|fs| - 1].0, fs[|fs| - 1].1;
        if name != "@templateMetadata" && name in d.fields && sub.dtype.Some? {
          DispatchNests(tm, Visit(sub.dtype.value, d.fields[name], name, sub), open);
        }
        NestsAfter(before.log, FieldRun(tm, d, name, sub), open, AroundField(tm, d, fs));
      }
    }
  }

  function Front(s: seq<string>): seq<string>
    requires s != []
  {
    s[..|s| - 1]
  }

  ghost predicate Among(a: seq<string>, b: seq<string>) {
    forall x :: x in a ==> x in b
  }

  /** Those open are among those entered, and once the last one has been left, among the ones entered
      before it. */
  ghost predicate Placed(open: seq<string>, names: seq<string>, still: bool) {
    names != [] &&
    if still then open != [] && open[|open| - 1] == names[|names| - 1] && Among(Front(open), Front(names))
    else Among(open, Front(names))
  }

  lemma PlacedByEntering(open: seq<string>, names: seq<string>, still: bool, name: string)
    requires Placed(open, names, still)
    ensures Placed(open + [name], names + [name], true)
  {
    assert Front(open + [name]) == open && Front(names + [name]) == names;
    assert names == Front(names) + [names[|names| - 1]];
    assert still ==> open == Front(open) + [open[|open| - 1]];
  }

  /** The trace names the template entered last. */
  lemma {:induction false} NamesEntered(tr: Trace, log: seq<Event>)
    ensures Placed(Open([tr.templateName], log), AllEntered([tr.templateName], log), StillIn(log))
    ensures var names := AllEntered([tr.templateName], log);
            names[|names| - 1] == Replay(tr, log).templateName
  {
    if log != [] {
      var before := log[..|log| - 1];
      NamesEntered(tr, before);
      if log[|log| - 1].Entered? {
        var open, names := Open([tr.templateName], before), AllEntered([tr.templateName], before);
        PlacedByEntering(open, names, StillIn(before), log[|log| - 1].name);
      } else {
        assert AllEntered([tr.templateName], log) == AllEntered([tr.templateName], before);
      }
    }
  }

  /** When the template named in the trace of a rejection is the innermost one around the failure:
      always if the template entered last has not been left, and, when no template is entered twice,
      only then. */
  lemma NameIsRightIff(tm: Templates, spec: Json)
    requires Readable(tm, spec) && Body(tm, RootVisit(tm, spec)).outcome.Reject?
    ensures var log, tr := Body(tm, RootVisit(tm, spec)).log, InitialTrace(tm, spec);
            var around := [tr.templateName] + Around(tm, RootVisit(tm, spec));
            var innermost, reported := around[|around| - 1], Replay(tr, log).templateName;
            (StillIn(log) ==> reported == innermost) &&
            (Sequences.NoDup(AllEntered([tr.templateName], log)) ==> (reported == innermost <==> StillIn(log)))
  {
    var log, tr := Body(tm, RootVisit(tm, spec)).log, InitialTrace(tm, spec);
    BodyNests(tm, RootVisit(tm, spec), [tr.templateName]);
    NamesEntered(tr, log);
    var names, open := AllEntered([tr.templateName], log), Open([tr.templateName], log);
    if !StillIn(log) {
      assert open[|open| - 1] in Front(names);
    }
  }

  const NO_FIELDS := Tmpl(None, Entries([]), false, None, None, None, None)
  const PART := Tmpl(Some("templateReference"), Absent, false, None, None, Some(["A"]), None)
  const FLAG := Tmpl(Some("boolean"), Absent, false, None, None, None, None)
  const PART_AND_FLAG := Tmpl(None, Entries([("part", PART), ("flag", FLAG)]), false, None, None, None, None)
  const TWO_TEMPLATES: Templates := map["A" := Template("object", NO_FIELDS), "T" := Template("object", PART_AND_FLAG)]
  const USED := JObj(map["@templateType" := JStr("A"), "values" := JObj(map[])])
  const VALUES := JObj(map["part" := USED, "flag" := JInt(1)])
  const SPEC := JObj(map["@templateType" := JStr("T"), "values" := VALUES])

  lemma Snoc(tr: Trace, log: seq<Event>, e: Event)
    ensures Replay(tr, log + [e]) == Note(Replay(tr, log), e)
    ensures Open(["T"], log + [e]) == Opened(Open(["T"], log), e)
  {
    assert (log + [e])[..|log|] == log;
  }

  lemma NamePasses()
    ensures CheckTemplate(TWO_TEMPLATES, USED, PART) == Accept
  {
    assert "A"[1..] == "" && WithoutStars("A") == "A";
    assert "A" <= "A"[0..];
    assert Contains("A", WithoutStars("A"));
    assert ["A"][0] == "A" && MatchesPrefix("A", ["A"]);
  }

  lemma NotedAfterPart(tr: Trace, v: Visit, a: Visit, w: Visit)
    ensures var log := [Visited(v), Entered("A"), Visited(a), Left] + [Visited(w)];
            Open(["T"], log) == ["T"] && Replay(tr, log).templateName == "A"
  {
    var two := [Visited(v)] + [Entered("A")];
    var four := two + [Visited(a)] + [Left];
    assert four == [Visited(v), Entered("A"), Visited(a), Left];
    assert [Visited(v)] == [] + [Visited(v)];
    Snoc(tr, [], Visited(v));
    Snoc(tr, [Visited(v)], Entered("A"));
    Snoc(tr, two, Visited(a));
    Snoc(tr, two + [Visited(a)], Left);
    Snoc(tr, four, Visited(w));
    assert (["T"] + ["A"])[..1] == ["T"];
  }

  lemma PartPasses(v: Visit, a: Visit)
    requires v == Visit("templateReference", USED, "part", PART) && a == Visit("object", JObj(map[]), "spec", NO_FIELDS)
    ensures Dispatch(TWO_TEMPLATES, v) == Result(Accept, [Visited(v), Entered("A"), Visited(a), Left])
  {
    NamePasses();
    assert Body(TWO_TEMPLATES, a) == Result(Accept, []);
    assert Dispatch(TWO_TEMPLATES, a) == Result(Accept, [Visited(a)]);
    assert TemplateRun(TWO_TEMPLATES, USED, PART).log == [Entered("A"), Visited(a), Left];
  }

  lemma FlagFails(v: Visit, w: Visit, a: Visit, b: Visit)
    requires v == Visit("templateReference", USED, "part", PART) && w == Visit("boolean", JInt(1), "flag", FLAG)
    requires a == Visit("object", JObj(map[]), "spec", NO_FIELDS) && b == RootVisit(TWO_TEMPLATES, SPEC)
    ensures Body(TWO_TEMPLATES, b) == Result(Reject(false), [Visited(v), Entered("A"), Visited(a), Left] + [Visited(w)])
  {
    var entries := [("part", PART), ("flag", FLAG)];
    PartPasses(v, a);
    assert Dispatch(TWO_TEMPLATES, w) == Result(Reject(false), [Visited(w)]);
    assert entries[..1] == [entries[0]] && entries[..1][..0] == [];
    assert FieldsRun(TWO_TEMPLATES, VALUES, []) == Result(Accept, []);
    assert [] + Dispatch(TWO_TEMPLATES, v).log == Dispatch(TWO_TEMPLATES, v).log;
    assert FieldRun(TWO_TEMPLATES, VALUES, "part", PART) == Dispatch(TWO_TEMPLATES, v);
    assert FieldsRun(TWO_TEMPLATES, VALUES, entries[..1]) == Dispatch(TWO_TEMPLATES, v);
    assert FieldRun(TWO_TEMPLATES, VALUES, "flag", FLAG) == Dispatch(TWO_TEMPLATES, w);
  }

  /** A value refused after a sibling template reference has passed: the trace names the sibling's
      template "A", while the value was refused in "T". */
  lemma NamesAnotherTemplate()
    ensures Readable(TWO_TEMPLATES, SPEC)
    ensures var r, tr := Body(TWO_TEMPLATES, RootVisit(TWO_TEMPLATES, SPEC)), InitialTrace(TWO_TEMPLATES, SPEC);
            r.outcome == Reject(false) && Replay(tr, r.log).templateName == "A" != tr.templateName
    ensures Around(TWO_TEMPLATES, RootVisit(TWO_TEMPLATES, SPEC)) == []
  {
    var v, w := Visit("templateReference", USED, "part", PART), Visit("boolean", JInt(1), "flag", FLAG);
    var a, tr := Visit("object", JObj(map[]), "spec", NO_FIELDS), InitialTrace(TWO_TEMPLATES, SPEC);
    FlagFails(v, w, a, RootVisit(TWO_TEMPLATES, SPEC));
    NotedAfterPart(tr, v, a, w);
    BodyNests(TWO_TEMPLATES, RootVisit(TWO_TEMPLATES, SPEC), ["T"]);
  }
}
