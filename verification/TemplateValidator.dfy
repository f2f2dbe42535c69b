/** The specification validator: values are checked against templates that may refer to one
    another, cyclically, by name. The dispatcher records the node it last visited. */
module TemplateValidator {
  import opened Wrappers

  datatype Json =
    | JNull
    | JBool(b: bool)
    | JInt(i: int)
    | JFloat(r: real)
    | JStr(s: string)
    | JList(items: seq<Json>)
    | JObj(fields: map<string, Json>)

  datatype Range = Range(minimum: Option<real>, maximum: Option<real>)

  /** The `objectFields` entry: missing, null, or an ordered dictionary. */
  datatype Fields = Absent | NullFields | Entries(entries: seq<(string, Tmpl)>)

  datatype Tmpl = Tmpl(
    dtype: Option<string>,
    fields: Fields,
    required: bool,
    range: Option<Range>,
    choices: Option<seq<Json>>,
    prefixes: Option<seq<string>>,
    elementType: Option<string>)

  datatype Template = Template(topType: string, spec: Tmpl)

  type Templates = map<string, Template>

  /** Accepted; rejected, because a required field is missing or for another reason; or an exception. */
  datatype Outcome = Accept | Reject(missingField: bool) | Raise

  /** One call of the dispatcher. */
  datatype Visit = Visit(dtype: string, data: Json, key: string, template: Tmpl)

  /** What a run does: visit a node, enter a referenced template, and leave it when it has passed. */
  datatype Event = Visited(visit: Visit) | Entered(name: string) | Left

  datatype Result = Result(outcome: Outcome, log: seq<Event>)

  // ------------------------------------------------------------------ simple checks

  function NumberOf(d: Json): Option<real> {
    match d
    case JInt(i) => Some(i as real)
    case JFloat(r) => Some(r)
    case JBool(b) => Some(if b then 1.0 else 0.0)
    case _ => None
  }

  function CheckNumber(d: Json, t: Tmpl): Outcome {
    if !d.JInt? && !d.JFloat? then Reject(false)
    else
      var n := NumberOf(d).value;
      if t.range.Some? && t.range.value.minimum.None? then Raise
      else if t.range.Some? && t.range.value.minimum != Some(-1.0) && n < t.range.value.minimum.value then Reject(false)
      else if t.range.Some? && t.range.value.maximum.None? then Raise
      else if t.range.Some? && t.range.value.maximum != Some(-1.0) && n > t.range.value.maximum.value then Reject(false)
      else if t.choices.Some? && !exists c :: c in t.choices.value && NumberOf(c) == Some(n) then Reject(false)
      else Accept
  }

  function CheckString(d: Json, t: Tmpl): Outcome {
    if !d.JStr? || (t.choices.Some? && d !in t.choices.value) then Reject(false) else Accept
  }

  function WithoutStars(s: string): string {
    if s == [] then [] else (if s[0] == '*' then [] else [s[0]]) + WithoutStars(s[1..])
  }

  predicate Contains(s: string, part: string) {
    exists i :: 0 <= i <= |s| && part <= s[i..]
  }

  predicate MatchesPrefix(s: string, prefixes: seq<string>) {
    exists p :: p in prefixes && Contains(s, WithoutStars(p))
  }

  function CheckReference(d: Json, t: Tmpl): Outcome {
    if !d.JStr? then Reject(false)
    else if t.prefixes.None? then Raise
    else if MatchesPrefix(d.s, t.prefixes.value) then Accept else Reject(false)
  }

  /** The checks of a template reference before its values are looked at. A type that is not text
      cannot be looked up; a list or a dictionary survives the membership test first. */
  function CheckTemplate(tm: Templates, d: Json, t: Tmpl): Outcome {
    if !d.JObj? then Reject(false)
    else if "@templateType" !in d.fields || t.prefixes.None? then Raise
    else if t.prefixes.value == [] then Reject(false)
    else match d.fields["@templateType"]
      case JStr(s) =>
        if !MatchesPrefix(s, t.prefixes.value) || s !in tm || tm[s].topType != "object" then Reject(false)
        else if "values" !in d.fields then Raise else Accept
      case JList(items) =>
        if exists p :: p in t.prefixes.value && JStr(WithoutStars(p)) in items then Raise else Reject(false)
      case JObj(fields) =>
        if exists p :: p in t.prefixes.value && WithoutStars(p) in fields then Raise else Reject(false)
      case _ => Raise
  }

  function CheckArray(d: Json, t: Tmpl): Outcome {
    if !d.JList? then Reject(false) else if t.elementType.None? then Raise else Accept
  }

  function CheckObject(d: Json, t: Tmpl): Outcome {
    if !d.JObj? then Reject(false) else if !t.fields.Entries? then Raise else Accept
  }

  /** What is checked at the node itself, before any of its parts. */
  function CheckHere(tm: Templates, v: Visit): Outcome {
    if v.dtype == "number" then CheckNumber(v.data, v.template)
    else if v.dtype == "boolean" then if v.data.JBool? then Accept else Reject(false)
    else if v.dtype == "choice" || v.dtype == "any" then Accept
    else if v.dtype == "reference" then CheckReference(v.data, v.template)
    else if v.dtype == "array" then CheckArray(v.data, v.template)
    else if v.dtype == "object" then CheckObject(v.data, v.template)
    else if v.dtype == "templateReference" then CheckTemplate(tm, v.data, v.template)
    else if v.dtype == "string" then CheckString(v.data, v.template)
    else Reject(false)
  }

  /** The template handed to the elements of an array. */
  function ElementTemplate(t: Tmpl): Tmpl
    requires t.elementType.Some?
  {
    Tmpl(t.elementType, if t.fields.Absent? then NullFields else t.fields, false, None, None, None, None)
  }

  // ----------------------------------------------------------- the validator's run

  /** A dispatcher call: the outcome, and the events in order. Terminates because every nested
      call looks at a part of the data, whatever the templates refer to. */
  function Dispatch(tm: Templates, v: Visit): Result
    decreases v.data, 4
  {
    Result(Body(tm, v).outcome, [Visited(v)] + Body(tm, v).log)
  }

  /** The validator the dispatcher chose: the node's own checks, then its parts. */
  function Body(tm: Templates, v: Visit): Result
    decreases v.data, 3
  {
    if CheckHere(tm, v) != Accept then Result(CheckHere(tm, v), [])
    else if v.dtype == "array" then
      ElementsRun(tm, v.data.items, v.key, v.template.elementType.value, ElementTemplate(v.template))
    else if v.dtype == "object" then FieldsRun(tm, v.data, v.template.fields.entries)
    else if v.dtype == "templateReference" then TemplateRun(tm, v.data, v.template)
    else Result(Accept, [])
  }

  function TemplateRun(tm: Templates, d: Json, t: Tmpl): Result
    requires CheckTemplate(tm, d, t) == Accept
    decreases d, 2
  {
    var name := d.fields["@templateType"].s;
    var r := Dispatch(tm, Visit("object", d.fields["values"], "spec", tm[name].spec));
    Result(r.outcome, [Entered(name)] + r.log + if r.outcome == Accept then [Left] else [])
  }

  function ElementsRun(tm: Templates, items: seq<Json>, key: string, dtype: string, t: Tmpl): Result
    decreases items, 1
  {
    if items == [] then Result(Accept, [])
    else
      var before := ElementsRun(tm, items[..|items| - 1], key, dtype, t);
      if before.outcome != Accept then before
      else
        var r := Dispatch(tm, Visit(dtype, items[|items| - 1], key, t));
        Result(r.outcome, before.log + r.log)
  }

  function FieldRun(tm: Templates, d: Json, name: string, sub: Tmpl): Result
    requires d.JObj?
    decreases d, 0
  {
    if name == "@templateMetadata" then Result(Accept, [])
    else if name !in d.fields then Result(if sub.required then Reject(true) else Accept, [])
    else if sub.dtype.None? then Result(Raise, [])
    else Dispatch(tm, Visit(sub.dtype.value, d.fields[name], name, sub))
  }

  function FieldsRun(tm: Templates, d: Json, fs: seq<(string, Tmpl)>): Result
    requires d.JObj?
    decreases d, 1, |fs|
  {
    if fs == [] then Result(Accept, [])
    else
      var before := FieldsRun(tm, d, fs[..|fs| - 1]);
      if before.outcome != Accept then before
      else
        var r := FieldRun(tm, d, fs[|fs| - 1].0, fs[|fs| - 1].1);
        Result(r.outcome, before.log + r.log)
  }

  // ----------------------------------------------------- naming a template

  /** The template a specification names, if it names one. */
  ghost function Named(spec: Json): Option<Json> {
    if spec.JObj? && "@templateType" in spec.fields then Some(spec.fields["@templateType"]) else None
  }

  ghost predicate Registered(tm: Templates, name: Json) {
    name.JStr? && name.s in tm
  }

  /** The name and values of a specification, when both can be read and the name can be looked up. */
  ghost predicate Readable(tm: Templates, spec: Json) {
    Named(spec).Some? && Registered(tm, Named(spec).value) && tm[Named(spec).value.s].topType == "object" &&
    "values" in spec.fields
  }

  // ------------------------------------------------------------------- conformance

  predicate IsNumber(d: Json, n: real) {
    match d
    case JInt(i) => i as real == n
    case JFloat(r) => r == n
    case _ => false
  }

  /** Equality with a choice, where true and false also count as one and zero. */
  predicate EqualsChoice(c: Json, n: real) {
    IsNumber(c, n) || (c == JBool(true) && n == 1.0) || (c == JBool(false) && n == 0.0)
  }

  /** A range needs both bounds; minus one stands for an absent one. */
  predicate InRange(n: real, range: Range) {
    && range.minimum.Some? && (range.minimum.value == -1.0 || range.minimum.value <= n)
    && range.maximum.Some? && (range.maximum.value == -1.0 || n <= range.maximum.value)
  }

  /** A bound that is looked at is not there; the maximum is not looked at for a number below the minimum. */
  predicate BoundMissing(n: real, range: Range) {
    range.minimum.None? || (range.maximum.None? && (range.minimum.value == -1.0 || range.minimum.value <= n))
  }

  ghost predicate Occurs(part: string, s: string) {
    exists a, b :: s == a + part + b
  }

  /** One of the prefixes, with its stars removed, occurs anywhere in the text. */
  ghost predicate HasPrefix(s: string, prefixes: seq<string>) {
    exists p :: p in prefixes && Occurs(WithoutStars(p), s)
  }

  /** What a value itself must be, apart from its parts. */
  ghost predicate HoldsHere(tm: Templates, dtype: string, d: Json, t: Tmpl) {
    match dtype
    case "number" =>
      exists n :: IsNumber(d, n) && (t.range.Some? ==> InRange(n, t.range.value)) &&
        (t.choices.Some? ==> exists c :: c in t.choices.value && EqualsChoice(c, n))
    case "string" => d.JStr? && (t.choices.Some? ==> d in t.choices.value)
    case "boolean" => d.JBool?
    case "choice" => true
    case "any" => true
    case "reference" => d.JStr? && t.prefixes.Some? && HasPrefix(d.s, t.prefixes.value)
    case "array" => d.JList? && t.elementType.Some?
    case "object" => d.JObj? && t.fields.Entries?
    case "templateReference" =>
      Readable(tm, d) && t.prefixes.Some? && HasPrefix(Named(d).value.s, t.prefixes.value)
    case _ => false
  }

  /** When looking at the value itself raises an exception. */
  ghost predicate RaisesHere(tm: Templates, dtype: string, d: Json, t: Tmpl) {
    match dtype
    case "number" =>
      t.range.Some? && exists n :: IsNumber(d, n) && BoundMissing(n, t.range.value)
    case "reference" => d.JStr? && t.prefixes.None?
    case "array" => d.JList? && t.elementType.None?
    case "object" => d.JObj? && !t.fields.Entries?
    case "templateReference" =>
      d.JObj? &&
      (Named(d).None? || t.prefixes.None? ||
       (t.prefixes.value != [] &&
        match Named(d).value
        case JStr(s) =>
          HasPrefix(s, t.prefixes.value) && s in tm && tm[s].topType == "object" && "values" !in d.fields
        case JList(items) => exists p :: p in t.prefixes.value && JStr(WithoutStars(p)) in items
        case JObj(fields) => exists p :: p in t.prefixes.value && WithoutStars(p) in fields
        case _ => true))
    case _ => false
  }

  /** Removing stars leaves texts without stars alone, drops a star, and works piece by piece. */
  lemma {:induction false} StarsRemoved(a: string, b: string)
    ensures '*' !in WithoutStars(a) && ('*' !in a ==> WithoutStars(a) == a) && WithoutStars("*") == ""
    ensures WithoutStars(a + b) == WithoutStars(a) + WithoutStars(b)
  {
    assert "*"[1..] == "";
    if a == [] {
      assert a + b == b;
    } else {
      assert (a + b)[1..] == a[1..] + b && a == [a[0]] + a[1..];
      StarsRemoved(a[1..], b);
    }
  }

  lemma ContainsIsOccurs(s: string, part: string)
    ensures Contains(s, part) <==> Occurs(part, s)
  {
    if i :| 0 <= i <= |s| && part <= s[i..] {
      assert s == s[..i] + part + s[i + |part|..];
    }
    if a, b :| s == a + part + b {
      assert s[|a|..] == part + b;
    }
  }

  lemma MatchesIsHasPrefix(s: string, prefixes: seq<string>)
    ensures MatchesPrefix(s, prefixes) <==> HasPrefix(s, prefixes)
  {
    forall p ensures Contains(s, WithoutStars(p)) <==> Occurs(WithoutStars(p), s) {
      ContainsIsOccurs(s, WithoutStars(p));
    }
  }

  lemma NumberChecked(d: Json, t: Tmpl, tm: Templates)
    ensures CheckNumber(d, t) == Accept <==> HoldsHere(tm, "number", d, t)
    ensures CheckNumber(d, t) == Raise <==> RaisesHere(tm, "number", d, t)
  {
    if d.JInt? || d.JFloat? {
      var n := NumberOf(d).value;
      assert IsNumber(d, n) && forall m :: IsNumber(d, m) ==> m == n;
      assert forall c :: NumberOf(c) == Some(n) <==> EqualsChoice(c, n);
    }
  }

  lemma ReferenceChecked(d: Json, t: Tmpl, tm: Templates)
    ensures CheckReference(d, t) == Accept <==> HoldsHere(tm, "reference", d, t)
    ensures CheckReference(d, t) == Raise <==> RaisesHere(tm, "reference", d, t)
  {
    if d.JStr? && t.prefixes.Some? { MatchesIsHasPrefix(d.s, t.prefixes.value); }
  }

  lemma TemplateChecked(tm: Templates, d: Json, t: Tmpl)
    ensures CheckTemplate(tm, d, t) == Accept <==> HoldsHere(tm, "templateReference", d, t)
    ensures CheckTemplate(tm, d, t) == Raise <==> RaisesHere(tm, "templateReference", d, t)
  {
    if Named(d).Some? && Named(d).value.JStr? && t.prefixes.Some? {
      MatchesIsHasPrefix(Named(d).value.s, t.prefixes.value);
    }
  }

  /** The checks of a node accept, reject and raise as they should. */
  lemma CheckHereExact(tm: Templates, v: Visit)
    ensures CheckHere(tm, v) == Accept <==> HoldsHere(tm, v.dtype, v.data, v.template)
    ensures CheckHere(tm, v) == Raise <==> RaisesHere(tm, v.dtype, v.data, v.template)
    ensures CheckHere(tm, v) in {Accept, Raise, Reject(false)}
  {
    NumberChecked(v.data, v.template, tm);
    ReferenceChecked(v.data, v.template, tm);
    TemplateChecked(tm, v.data, v.template);
  }

  /** The declarative relation: a value conforms to a type and template. */
  ghost predicate Conforms(tm: Templates, dtype: string, d: Json, t: Tmpl)
    decreases d, 1
  {
    HoldsHere(tm, dtype, d, t) &&
    if dtype == "array" then
      forall i :: 0 <= i < |d.items| ==> Conforms(tm, t.elementType.value, d.items[i], ElementTemplate(t))
    else if dtype == "object" then
      forall i :: 0 <= i < |t.fields.entries| ==> FieldConforms(tm, d, t.fields.entries[i].0, t.fields.entries[i].1)
    else if dtype == "templateReference" then
      Conforms(tm, "object", d.fields["values"], tm[d.fields["@templateType"].s].spec)
    else true
  }

  /** A field that is present has a type and conforms to it; an absent one is not required. */
  ghost predicate FieldConforms(tm: Templates, d: Json, name: string, sub: Tmpl)
    requires d.JObj?
    decreases d, 0
  {
    name == "@templateMetadata" ||
    if name in d.fields then sub.dtype.Some? && Conforms(tm, sub.dtype.value, d.fields[name], sub) else !sub.required
  }

  /** The validator accepts exactly the conforming values. */
  lemma {:induction false} AcceptsIffConforms(tm: Templates, v: Visit)
    ensures Dispatch(tm, v).outcome == Accept <==> Conforms(tm, v.dtype, v.data, v.template)
    decreases v.data, 4
  {
    CheckHereExact(tm, v);
    if CheckHere(tm, v) == Accept {
      if v.dtype == "array" {
        ElementsConform(tm, v.data.items, v.key, v.template.elementType.value, ElementTemplate(v.template));
      } else if v.dtype == "object" {
        FieldsConform(tm, v.data, v.template.fields.entries);
      } else if v.dtype == "templateReference" {
        var name := v.data.fields["@templateType"].s;
        AcceptsIffConforms(tm, Visit("object", v.data.fields["values"], "spec", tm[name].spec));
        assert Body(tm, v) == TemplateRun(tm, v.data, v.template);
      }
    }
  }

  lemma {:induction false} ElementsConform(tm: Templates, items: seq<Json>, key: string, dtype: string, t: Tmpl)
    ensures ElementsRun(tm, items, key, dtype, t).outcome == Accept <==>
            forall i :: 0 <= i < |items| ==> Conforms(tm, dtype, items[i], t)
    decreases items, 1
  {
    if items != [] {
      var front := items[..|items| - 1];
      ElementsConform(tm, front, key, dtype, t);
      assert forall i :: 0 <= i < |front| ==> front[i] == items[i];
      AcceptsIffConforms(tm, Visit(dtype, items[|items| - 1], key, t));
    }
  }

  lemma {:induction false} FieldsConform(tm: Templates, d: Json, fs: seq<(string, Tmpl)>)
    requires d.JObj?
    ensures FieldsRun(tm, d, fs).outcome == Accept <==>
            forall i :: 0 <= i < |fs| ==> FieldConforms(tm, d, fs[i].0, fs[i].1)
    decreases d, 1, |fs|
  {
    if fs != [] {
      FieldsConform(tm, d, fs[..|fs| - 1]);
      var name, sub := fs[|fs| - 1].0, fs[|fs| - 1].1;
      if name in d.fields && sub.dtype.Some? {
        AcceptsIffConforms(tm, Visit(sub.dtype.value, d.fields[name], name, sub));
      }
    }
  }

  /** With both bounds given and no choices, the numbers accepted are those from one to the other if and only
      if neither bound is minus one. */
  lemma RangeHoldsIffNoMinusOne(tm: Templates, t: Tmpl, min: real, max: real)
    requires t.range == Some(Range(Some(min), Some(max))) && t.choices == None
    ensures (forall d, n :: IsNumber(d, n) ==> (Conforms(tm, "number", d, t) <==> min <= n <= max)) <==>
            min != -1.0 && max != -1.0
  {
    if min == -1.0 {
      var n := if max < -2.0 then max else -2.0;
      assert IsNumber(JFloat(n), n);
      assert Conforms(tm, "number", JFloat(n), t);
    } else if max == -1.0 {
      var n := if min > 0.0 then min else 0.0;
      assert IsNumber(JFloat(n), n);
      assert Conforms(tm, "number", JFloat(n), t);
    }
  }

  /** The elements of an array are checked by their type alone, and objects by the fields given with the
      array: no range, choice or prefix applies to them, and references and arrays never conform. */
  lemma ElementsUnrestricted(tm: Templates, t: Tmpl, d: Json)
    requires t.elementType.Some?
    ensures Conforms(tm, t.elementType.value, d, ElementTemplate(t)) <==>
            match t.elementType.value
            case "number" => d.JInt? || d.JFloat?
            case "string" => d.JStr?
            case "boolean" => d.JBool?
            case "choice" => true
            case "any" => true
            case "object" =>
              d.JObj? && t.fields.Entries? &&
              var fs := t.fields.entries; forall i :: 0 <= i < |fs| ==> FieldConforms(tm, d, fs[i].0, fs[i].1)
            case _ => false
  {
    if d.JInt? { assert IsNumber(d, d.i as real); }
    if d.JFloat? { assert IsNumber(d, d.r); }
  }

  // ------------------------------------------------------------------ who is blamed

  ghost function Visits(log: seq<Event>): seq<Visit> {
    if log == [] then []
    else Visits(log[..|log| - 1]) + if log[|log| - 1].Visited? then [log[|log| - 1].visit] else []
  }

  lemma {:induction false} VisitsConcat(a: seq<Event>, b: seq<Event>)
    ensures Visits(a + b) == Visits(a) + Visits(b)
  {
    if b == [] {
      assert a + b == a;
    } else {
      assert (a + b)[..|a + b| - 1] == a + b[..|b| - 1];
      VisitsConcat(a, b[..|b| - 1]);
    }
  }

  /** A run that passes has visited every element of an array, and every field given. */
  lemma {:induction false} ElementsVisited(tm: Templates, items: seq<Json>, key: string, dtype: string, t: Tmpl, i: nat)
    requires ElementsRun(tm, items, key, dtype, t).outcome == Accept && i < |items|
    ensures Visited(Visit(dtype, items[i], key, t)) in ElementsRun(tm, items, key, dtype, t).log
    decreases |items|
  {
    if i < |items| - 1 { ElementsVisited(tm, items[..|items| - 1], key, dtype, t, i); }
  }

  lemma {:induction false} FieldsVisited(tm: Templates, d: Json, fs: seq<(string, Tmpl)>, i: nat)
    requires d.JObj? && FieldsRun(tm, d, fs).outcome == Accept && i < |fs|
    requires fs[i].0 in d.fields && fs[i].0 != "@templateMetadata"
    ensures fs[i].1.dtype.Some?
    ensures Visited(Visit(fs[i].1.dtype.value, d.fields[fs[i].0], fs[i].0, fs[i].1)) in FieldsRun(tm, d, fs).log
    decreases |fs|
  {
    var before, last := FieldsRun(tm, d, fs[..|fs| - 1]), FieldRun(tm, d, fs[|fs| - 1].0, fs[|fs| - 1].1);
    assert FieldsRun(tm, d, fs).log == before.log + last.log;
    if i < |fs| - 1 {
      FieldsVisited(tm, d, fs[..|fs| - 1], i);
    } else {
      var v := Visit(fs[i].1.dtype.value, d.fields[fs[i].0], fs[i].0, fs[i].1);
      assert last == Dispatch(tm, v) && last.log == [Visited(v)] + Body(tm, v).log;
    }
  }

  ghost predicate AllPass(tm: Templates, vs: seq<Visit>) {
    forall i :: 0 <= i < |vs| ==> CheckHere(tm, vs[i]) == Accept
  }

  /** A rejection of a value is the rejection of the last node visited, all earlier ones having
      passed their own checks; a missing required field is found with all visited nodes passed. */
  ghost predicate Blamed(tm: Templates, outcome: Outcome, vs: seq<Visit>) {
    match outcome
    case Accept => AllPass(tm, vs)
    case Reject(missing) =>
      if missing then AllPass(tm, vs)
      else vs != [] && AllPass(tm, vs[..|vs| - 1]) && CheckHere(tm, vs[|vs| - 1]) == Reject(false)
    case Raise => vs == [] || AllPass(tm, vs[..|vs| - 1])
  }

  lemma BlamedAfter(tm: Templates, outcome: Outcome, a: seq<Visit>, b: seq<Visit>)
    requires AllPass(tm, a) && Blamed(tm, outcome, b)
    ensures Blamed(tm, outcome, a + b)
  {
    if b != [] {
      assert (a + b)[..|a + b| - 1] == a + b[..|b| - 1];
    } else {
      assert a + b == a;
    }
  }

  lemma OneVisit(v: Visit, log: seq<Event>)
    ensures Visits([Visited(v)] + log) == [v] + Visits(log)
  {
    assert [Visited(v)][..0] == [];
    VisitsConcat([Visited(v)], log);
  }

  lemma EntryIsNoVisit(name: string, log: seq<Event>)
    ensures Visits([Entered(name)] + log + [Left]) == Visits([Entered(name)] + log + []) == Visits(log)
  {
    assert [Entered(name)][..0] == [];
    VisitsConcat([Entered(name)], log);
    assert ([Entered(name)] + log + [Left])[..|log| + 1] == [Entered(name)] + log == [Entered(name)] + log + [];
  }

  lemma {:induction false} DispatchBlames(tm: Templates, v: Visit)
    ensures Blamed(tm, Dispatch(tm, v).outcome, Visits(Dispatch(tm, v).log))
    ensures Visits(Dispatch(tm, v).log) != []
    decreases v.data, 4
  {
    OneVisit(v, Body(tm, v).log);
    if CheckHere(tm, v) == Accept {
      if v.dtype == "array" {
        ElementsBlame(tm, v.data.items, v.key, v.template.elementType.value, ElementTemplate(v.template));
      } else if v.dtype == "object" {
        FieldsBlame(tm, v.data, v.template.fields.entries);
      } else if v.dtype == "templateReference" {
        TemplateBlames(tm, v.data, v.template);
        assert Body(tm, v) == TemplateRun(tm, v.data, v.template);
      }
      BlamedAfter(tm, Body(tm, v).outcome, [v], Visits(Body(tm, v).log));
    }
  }

  lemma {:induction false} TemplateBlames(tm: Templates, d: Json, t: Tmpl)
    requires CheckTemplate(tm, d, t) == Accept
    ensures Blamed(tm, TemplateRun(tm, d, t).outcome, Visits(TemplateRun(tm, d, t).log))
    decreases d, 3
  {
    var name := d.fields["@templateType"].s;
    var w := Visit("object", d.fields["values"], "spec", tm[name].spec);
    DispatchBlames(tm, w);
    var r := Dispatch(tm, w);
    EntryIsNoVisit(name, r.log);
  }

  lemma {:induction false} ElementsBlame(tm: Templates, items: seq<Json>, key: string, dtype: string, t: Tmpl)
    ensures Blamed(tm, ElementsRun(tm, items, key, dtype, t).outcome, Visits(ElementsRun(tm, items, key, dtype, t).log))
    decreases items, 1
  {
    if items != [] {
      var before := ElementsRun(tm, items[..|items| - 1], key, dtype, t);
      ElementsBlame(tm, items[..|items| - 1], key, dtype, t);
      if before.outcome == Accept {
        var r := Dispatch(tm, Visit(dtype, items[|items| - 1], key, t));
        DispatchBlames(tm, Visit(dtype, items[|items| - 1], key, t));
        VisitsConcat(before.log, r.log);
        BlamedAfter(tm, r.outcome, Visits(before.log), Visits(r.log));
      }
    }
  }

  lemma {:induction false} FieldsBlame(tm: Templates, d: Json, fs: seq<(string, Tmpl)>)
    requires d.JObj?
    ensures Blamed(tm, FieldsRun(tm, d, fs).outcome, Visits(FieldsRun(tm, d, fs).log))
    decreases d, 1, |fs|
  {
    if fs != [] {
      var before := FieldsRun(tm, d, fs[..|fs| - 1]);
      FieldsBlame(tm, d, fs[..|fs| - 1]);
      if before.outcome == Accept {
        var r := FieldRun(tm, d, fs[|fs| - 1].0, fs[|fs| - 1].1);
        FieldBlames(tm, d, fs[|fs| - 1].0, fs[|fs| - 1].1);
        VisitsConcat(before.log, r.log);
        BlamedAfter(tm, r.outcome, Visits(before.log), Visits(r.log));
      }
    }
  }

  lemma {:induction false} FieldBlames(tm: Templates, d: Json, name: string, sub: Tmpl)
    requires d.JObj?
    ensures Blamed(tm, FieldRun(tm, d, name, sub).outcome, Visits(FieldRun(tm, d, name, sub).log))
    decreases d, 0
  {
    if name != "@templateMetadata" && name in d.fields && sub.dtype.Some? {
      DispatchBlames(tm, Visit(sub.dtype.value, d.fields[name], name, sub));
    }
  }

  // ----------------------------------------------------------------- the trace fields

  /** The fields the dispatcher overwrites. The initial data and type are one-element tuples. */
  datatype Trace = Trace(template: Tmpl, field: string, data: Json, dtype: Json, templateName: string)

  function Note(tr: Trace, e: Event): Trace {
    match e
    case Visited(v) => tr.(template := v.template, field := v.key, data := v.data, dtype := JStr(v.dtype))
    case Entered(name) => tr.(templateName := name)
    case Left => tr
  }

  function Replay(tr: Trace, log: seq<Event>): Trace {
    if log == [] then tr else Note(Replay(tr, log[..|log| - 1]), log[|log| - 1])
  }

  lemma {:induction false} ReplayConcat(tr: Trace, a: seq<Event>, b: seq<Event>)
    ensures Replay(tr, a + b) == Replay(Replay(tr, a), b)
  {
    if b == [] {
      assert a + b == a;
    } else {
      assert (a + b)[..|a + b| - 1] == a + b[..|b| - 1];
      ReplayConcat(tr, a, b[..|b| - 1]);
    }
  }

  lemma ReplayLeft(tr: Trace, log: seq<Event>)
    ensures Replay(tr, log + [Left]) == Replay(tr, log + []) == Replay(tr, log)
  {
    assert (log + [Left])[..|log|] == log && log + [] == log;
  }

  ghost predicate Shows(tr: Trace, v: Visit) {
    tr.template == v.template && tr.field == v.key && tr.data == v.data && tr.dtype == JStr(v.dtype)
  }

  lemma {:induction false} ReplayShowsLast(tr: Trace, log: seq<Event>)
    ensures if Visits(log) == [] then Replay(tr, log) == tr.(templateName := Replay(tr, log).templateName)
            else Shows(Replay(tr, log), Visits(log)[|Visits(log)| - 1])
  {
    if log != [] { ReplayShowsLast(tr, log[..|log| - 1]); }
  }

  /** The validator object. Its methods are the recursive validators; they overwrite the trace. */
  class Validators {
    const tm: Templates
    var template: Tmpl
    var field: string
    var data: Json
    var dtype: Json
    var templateName: string

    ghost function Abs(): Trace
      reads this
    {
      Trace(template, field, data, dtype, templateName)
    }

    constructor (tm: Templates, tr: Trace)
      ensures this.tm == tm && Abs() == tr
    {
      this.tm := tm;
      template, field, data, dtype, templateName := tr.template, tr.field, tr.data, tr.dtype, tr.templateName;
    }

    method CallValidator(v: Visit) returns (outcome: Outcome)
      modifies this
      ensures outcome == Dispatch(tm, v).outcome && Abs() == Replay(old(Abs()), Dispatch(tm, v).log)
      decreases v.data, 4
    {
      template, field, data, dtype := v.template, v.key, v.data, JStr(v.dtype);
      assert [Visited(v)][..0] == [];
      assert Abs() == Replay(old(Abs()), [Visited(v)]);
      ReplayConcat(old(Abs()), [Visited(v)], Body(tm, v).log);
      outcome := RunBody(v);
    }

    method RunBody(v: Visit) returns (outcome: Outcome)
      modifies this
      ensures outcome == Body(tm, v).outcome && Abs() == Replay(old(Abs()), Body(tm, v).log)
      decreases v.data, 3
    {
      outcome := CheckHere(tm, v);
      if outcome == Accept {
        if v.dtype == "array" {
          outcome := ValidateElements(v.data.items, v.key, v.template.elementType.value, ElementTemplate(v.template));
        } else if v.dtype == "object" {
          outcome := ValidateFields(v.data, v.template.fields.entries);
        } else if v.dtype == "templateReference" {
          outcome := ValidateTemplate(v.data, v.template);
        }
      }
    }

    method ValidateTemplate(d: Json, t: Tmpl) returns (outcome: Outcome)
      requires CheckTemplate(tm, d, t) == Accept
      modifies this
      ensures outcome == TemplateRun(tm, d, t).outcome && Abs() == Replay(old(Abs()), TemplateRun(tm, d, t).log)
      decreases d, 2
    {
      templateName := d.fields["@templateType"].s;
      assert [Entered(templateName)][..0] == [];
      assert Abs() == Replay(old(Abs()), [Entered(templateName)]);
      var w := Visit("object", d.fields["values"], "spec", tm[templateName].spec);
      ReplayConcat(old(Abs()), [Entered(templateName)], Dispatch(tm, w).log);
      ReplayLeft(old(Abs()), [Entered(templateName)] + Dispatch(tm, w).log);
      outcome := CallValidator(w);
    }

    method ValidateElements(items: seq<Json>, key: string, dtype: string, t: Tmpl) returns (outcome: Outcome)
      modifies this
      ensures outcome == ElementsRun(tm, items, key, dtype, t).outcome
      ensures Abs() == Replay(old(Abs()), ElementsRun(tm, items, key, dtype, t).log)
      decreases items, 1
    {
      for i := 0 to |items|
        invariant ElementsRun(tm, items[..i], key, dtype, t).outcome == Accept
        invariant Abs() == Replay(old(Abs()), ElementsRun(tm, items[..i], key, dtype, t).log)
      {
        assert items[..i + 1][..i] == items[..i];
        var v := Visit(dtype, items[i], key, t);
        ReplayConcat(old(Abs()), ElementsRun(tm, items[..i], key, dtype, t).log, Dispatch(tm, v).log);
        outcome := CallValidator(v);
        if outcome != Accept {
          ElementsStop(tm, items, key, dtype, t, i + 1);
          return;
        }
      }
      assert items[..|items|] == items;
      outcome := Accept;
    }

    method ValidateFields(d: Json, fs: seq<(string, Tmpl)>) returns (outcome: Outcome)
      requires d.JObj?
      modifies this
      ensures outcome == FieldsRun(tm, d, fs).outcome && Abs() == Replay(old(Abs()), FieldsRun(tm, d, fs).log)
      decreases d, 1
    {
      for i := 0 to |fs|
        invariant FieldsRun(tm, d, fs[..i]).outcome == Accept
        invariant Abs() == Replay(old(Abs()), FieldsRun(tm, d, fs[..i]).log)
      {
        assert fs[..i + 1][..i] == fs[..i];
        var name, sub := fs[i].0, fs[i].1;
        ReplayConcat(old(Abs()), FieldsRun(tm, d, fs[..i]).log, FieldRun(tm, d, name, sub).log);
        outcome := ValidateField(d, name, sub);
        if outcome != Accept {
          FieldsStop(tm, d, fs, i + 1);
          return;
        }
      }
      assert fs[..|fs|] == fs;
      outcome := Accept;
    }

    method ValidateField(d: Json, name: string, sub: Tmpl) returns (outcome: Outcome)
      requires d.JObj?
      modifies this
      ensures outcome == FieldRun(tm, d, name, sub).outcome &&
              Abs() == Replay(old(Abs()), FieldRun(tm, d, name, sub).log)
      decreases d, 0
    {
      if name == "@templateMetadata" {
        return Accept;
      }
      if name !in d.fields {
        return if sub.required then Reject(true) else Accept;
      }
      if sub.dtype.None? {
        return Raise;
      }
      outcome := CallValidator(Visit(sub.dtype.value, d.fields[name], name, sub));
    }
  }

  lemma {:induction false} ElementsStop(tm: Templates, items: seq<Json>, key: string, dtype: string, t: Tmpl, n: nat)
    requires n <= |items| && ElementsRun(tm, items[..n], key, dtype, t).outcome != Accept
    ensures ElementsRun(tm, items, key, dtype, t) == ElementsRun(tm, items[..n], key, dtype, t)
    decreases |items| - n
  {
    if n == |items| {
      assert items[..n] == items;
    } else {
      assert items[..n + 1][..n] == items[..n];
      ElementsStop(tm, items, key, dtype, t, n + 1);
    }
  }

  lemma {:induction false} FieldsStop(tm: Templates, d: Json, fs: seq<(string, Tmpl)>, n: nat)
    requires d.JObj? && n <= |fs| && FieldsRun(tm, d, fs[..n]).outcome != Accept
    ensures FieldsRun(tm, d, fs) == FieldsRun(tm, d, fs[..n])
    decreases |fs| - n
  {
    if n == |fs| {
      assert fs[..n] == fs;
    } else {
      assert fs[..n + 1][..n] == fs[..n];
      FieldsStop(tm, d, fs, n + 1);
    }
  }

  // -------------------------------------------------------------------- the whole check

  datatype Verdict =
    | Passed
    | PassedByException
    | Failed(trace: Trace)
    | NotFound
    | NotAnObjectTemplate

  ghost function RootVisit(tm: Templates, spec: Json): Visit
    requires Readable(tm, spec)
  {
    Visit("object", spec.fields["values"], "spec", tm[spec.fields["@templateType"].s].spec)
  }

  ghost function InitialTrace(tm: Templates, spec: Json): Trace
    requires Readable(tm, spec)
  {
    var v := RootVisit(tm, spec);
    Trace(v.template, "spec", JList([v.data]), JList([JStr("object")]), spec.fields["@templateType"].s)
  }

  /** `create_validator_and_validate`: any exception counts as a pass. */
  method Validate(tm: Templates, spec: Json) returns (verdict: Verdict)
    ensures Readable(tm, spec) ==>
              var r := Body(tm, RootVisit(tm, spec));
              verdict == match r.outcome
                case Accept => Passed
                case Raise => PassedByException
                case Reject(_) => Failed(Replay(InitialTrace(tm, spec), r.log))
    ensures verdict == NotFound <==>
              Named(spec).Some? && !Registered(tm, Named(spec).value) &&
              !Named(spec).value.JList? && !Named(spec).value.JObj?
    ensures verdict == NotAnObjectTemplate <==>
              Named(spec).Some? && Registered(tm, Named(spec).value) && tm[Named(spec).value.s].topType != "object"
    ensures !Readable(tm, spec) ==> verdict in {PassedByException, NotFound, NotAnObjectTemplate}
  {
    if !spec.JObj? || "@templateType" !in spec.fields {
      return PassedByException;
    }
    var top := spec.fields["@templateType"];
    if top.JList? || top.JObj? {
      return PassedByException;
    }
    if !top.JStr? || top.s !in tm {
      return NotFound;
    }
    if tm[top.s].topType != "object" {
      return NotAnObjectTemplate;
    }
    if "values" !in spec.fields {
      return PassedByException;
    }
    var t, values := tm[top.s].spec, spec.fields["values"];
    var validators := new Validators(tm, Trace(t, "spec", JList([values]), JList([JStr("object")]), top.s));
    var outcome := validators.RunBody(Visit("object", values, "spec", t));
    match outcome
    case Accept => verdict := Passed;
    case Raise => verdict := PassedByException;
    case Reject(_) =>
      verdict := Failed(Trace(validators.template, validators.field, validators.data,
                              validators.dtype, validators.templateName));
  }

  /** A readable specification passes without an exception exactly when its values conform to its
      template. */
  lemma PassesIffConforms(tm: Templates, spec: Json)
    requires Readable(tm, spec)
    ensures Body(tm, RootVisit(tm, spec)).outcome == Accept <==>
            Conforms(tm, "object", spec.fields["values"], RootVisit(tm, spec).template)
  {
    AcceptsIffConforms(tm, RootVisit(tm, spec));
  }

  /** The reported trace of a rejection that is not due to a missing field: if the root value is
      itself refused it still shows the initial setting, otherwise it shows the first node, in
      traversal order, that fails its own checks. */
  lemma TraceNamesFirstFailure(tm: Templates, spec: Json)
    requires Readable(tm, spec) && Body(tm, RootVisit(tm, spec)).outcome == Reject(false)
    ensures var r, tr := Body(tm, RootVisit(tm, spec)), InitialTrace(tm, spec);
            var vs := Visits(r.log);
            if CheckHere(tm, RootVisit(tm, spec)) == Reject(false) then
              var name, values := spec.fields["@templateType"].s, spec.fields["values"];
              Replay(tr, r.log) == Trace(tm[name].spec, "spec", JList([values]), JList([JStr("object")]), name)
            else vs != [] && Shows(Replay(tr, r.log), vs[|vs| - 1]) && CheckHere(tm, vs[|vs| - 1]) == Reject(false) &&
                 AllPass(tm, vs[..|vs| - 1])
  {
    var v := RootVisit(tm, spec);
    if CheckHere(tm, v) == Accept {
      FieldsBlame(tm, v.data, v.template.fields.entries);
      ReplayShowsLast(InitialTrace(tm, spec), Body(tm, v).log);
    }
  }
}
