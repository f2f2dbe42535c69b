/** Entity search: the plain filter translator, and the rewriting that pushes the ids found by
    a sub-query down into the entity query as an IN condition. */
module QueryRewrite {
  import opened SearchQuery
  import opened Wrappers

  datatype Filter =
    | Field(variable: string, test: FieldTest)
    | AllOf(filters: seq<Filter>)
    | AnyOf(filters: seq<Filter>)

  // ---------------------------------------------------------------- the translator

  /** `query_translator_old`. A translated field whose name equals the logical operator is taken
      for a nested operator and its operand spliced in; that is kept apart as an error. */
  function TranslateOld(q: Query): Result<Filter>
    decreases q, 1
  {
    match q
    case Leaf(variable, op, value) =>
      (match TranslateSimple(op, value)
       case Ok(t) => Ok(Field(variable, t))
       case Err(e) => Err(e))
    case Logic(op, qs) =>
      (match TranslateEach(op, qs)
       case Err(e) => Err(e)
       case Ok(fs) =>
         if op == "AND" then Ok(AllOf(fs)) else if op == "OR" then Ok(AnyOf(fs)) else Err(UnsupportedLogical(op)))
    case _ => Err(MissingKey)
  }

  function TranslateEach(op: string, qs: seq<Query>): Result<seq<Filter>>
    decreases qs, 0
  {
    if qs == [] then Ok([])
    else match TranslateEach(op, qs[..|qs| - 1])
      case Err(e) => Err(e)
      case Ok(fs) =>
        match TranslateOld(qs[|qs| - 1])
        case Err(e) => Err(e)
        case Ok(f) => if f.Field? && f.variable == op then Err(SplicedOperand) else Ok(fs + [f])
  }

  method Translate(q: Query) returns (r: Result<Filter>)
    ensures r == TranslateOld(q)
    decreases q
  {
    match q
    case Leaf(variable, op, value) =>
      match TranslateSimple(op, value) {
        case Ok(t) => r := Ok(Field(variable, t));
        case Err(e) => r := Err(e);
      }
    case Logic(op, qs) =>
      var translated: seq<Filter> := [];
      for i := 0 to |qs|
        invariant TranslateEach(op, qs[..i]) == Ok(translated)
      {
        assert qs[..i + 1][..i] == qs[..i];
        var result := Translate(qs[i]);
        if result.Err? {
          TranslateEachError(op, qs, i + 1, result.error);
          return Err(result.error);
        }
        if result.value.Field? && result.value.variable == op {
          TranslateEachError(op, qs, i + 1, SplicedOperand);
          return Err(SplicedOperand);
        }
        translated := translated + [result.value];
      }
      assert qs[..|qs|] == qs;
      if op == "AND" {
        r := Ok(AllOf(translated));
      } else if op == "OR" {
        r := Ok(AnyOf(translated));
      } else {
        r := Err(UnsupportedLogical(op));
      }
    case _ =>
      r := Err(MissingKey);
  }

  lemma {:induction false} TranslateEachError(op: string, qs: seq<Query>, n: nat, e: Error)
    requires n <= |qs| && TranslateEach(op, qs[..n]) == Err(e)
    ensures TranslateEach(op, qs) == Err(e)
    decreases |qs| - n
  {
    if n == |qs| {
      assert qs[..n] == qs;
    } else {
      assert qs[..n + 1][..n] == qs[..n];
      TranslateEachError(op, qs, n + 1, e);
    }
  }

  // ------------------------------------------------------ the translation's meaning

  ghost predicate FilterHolds(f: Filter, doc: Document)
    decreases f, 1
  {
    match f
    case Field(variable, test) => TestHolds(test, Reached(doc, variable))
    case AllOf(fs) => forall i :: 0 <= i < |fs| ==> FilterHolds(fs[i], doc)
    case AnyOf(fs) => exists i :: 0 <= i < |fs| && FilterHolds(fs[i], doc)
  }

  /** The database refuses a filter with an empty conjunction or disjunction. */
  ghost predicate Accepted(f: Filter) {
    match f
    case Field(_, _) => true
    case AllOf(fs) => fs != [] && forall i :: 0 <= i < |fs| ==> Accepted(fs[i])
    case AnyOf(fs) => fs != [] && forall i :: 0 <= i < |fs| ==> Accepted(fs[i])
  }

  /** The queries that translate: conditions with known operators, joined by AND and OR, no
      condition directly beneath an operator naming that operator as its field. */
  ghost predicate Translatable(q: Query) {
    match q
    case Leaf(_, op, value) => op in OPERATORS && (op == "LIKE" ==> value.Str?)
    case Logic(op, qs) =>
      op in {"AND", "OR"} && forall i :: 0 <= i < |qs| ==> Translatable(qs[i]) && !(qs[i].Leaf? && qs[i].variable == op)
    case _ => false
  }

  ghost predicate LikesArePlain(q: Query) {
    match q
    case Leaf(_, op, value) => PlainLike(op, value)
    case Logic(_, qs) => forall i :: 0 <= i < |qs| ==> LikesArePlain(qs[i])
    case _ => true
  }

  ghost predicate NoEmptyLogic(q: Query) {
    q.Logic? ==> q.conditions != [] && forall i :: 0 <= i < |q.conditions| ==> NoEmptyLogic(q.conditions[i])
  }

  lemma {:induction false} EachTranslated(op: string, qs: seq<Query>)
    ensures TranslateEach(op, qs).Ok? <==>
            forall i :: 0 <= i < |qs| ==> TranslateOld(qs[i]).Ok? && !(qs[i].Leaf? && qs[i].variable == op)
    ensures TranslateEach(op, qs).Ok? ==>
              var fs := TranslateEach(op, qs).value;
              |fs| == |qs| && forall i :: 0 <= i < |qs| ==> TranslateOld(qs[i]) == Ok(fs[i])
  {
    if qs != [] {
      EachTranslated(op, qs[..|qs| - 1]);
    }
  }

  lemma {:induction false} TranslatesIffTranslatable(q: Query)
    ensures TranslateOld(q).Ok? <==> Translatable(q)
  {
    match q
    case Leaf(_, op, value) => SimpleTranslationExact(op, value, {});
    case Logic(op, qs) =>
      EachTranslated(op, qs);
      forall i | 0 <= i < |qs| ensures TranslateOld(qs[i]).Ok? <==> Translatable(qs[i]) {
        TranslatesIffTranslatable(qs[i]);
      }
    case _ =>
  }

  /** The translated filter selects exactly the documents the query asks for, and the database
      accepts it exactly when no AND or OR of the query is empty. */
  lemma {:induction false} TranslationPreservesMeaning(q: Query, f: Filter, doc: Document)
    requires TranslateOld(q) == Ok(f) && LikesArePlain(q)
    ensures FilterHolds(f, doc) <==> Sat(q, doc)
    ensures Accepted(f) <==> NoEmptyLogic(q)
  {
    match q
    case Leaf(variable, op, value) => SimpleTranslationExact(op, value, Reached(doc, variable));
    case Logic(op, qs) =>
      EachTranslated(op, qs);
      var fs := TranslateEach(op, qs).value;
      forall i | 0 <= i < |qs|
        ensures (FilterHolds(fs[i], doc) <==> Sat(qs[i], doc)) && (Accepted(fs[i]) <==> NoEmptyLogic(qs[i]))
      {
        TranslationPreservesMeaning(qs[i], fs[i], doc);
      }
      SatAllMeaning(qs, doc, AsMeant);
      SatSomeMeaning(qs, doc, AsMeant);
  }

  // ------------------------------------------------------------------ the rewriting

  function InCondition(variable: string, ids: seq<Value>): Query {
    Leaf(variable, "IN", Arr(ids))
  }

  /** The query after restricting it to `ids`: an absent or empty query is replaced, a query with a
      condition list gets one more condition, a single condition is joined with AND. */
  function Restricted(q: Option<Query>, variable: string, ids: seq<Value>): Option<Query> {
    match q
    case None => Some(InCondition(variable, ids))
    case Some(Blank) => Some(InCondition(variable, ids))
    case Some(Logic(op, qs)) => Some(Logic(op, qs + [InCondition(variable, ids)]))
    case Some(Leaf(v, op, value)) => Some(Logic("AND", [Leaf(v, op, value), InCondition(variable, ids)]))
    case Some(Agg(_, _, _, _)) => q
  }

  ghost predicate HasIdIn(doc: Document, variable: string, ids: seq<Value>) {
    exists c, w :: c in Reached(doc, variable) && w in ids && Same(c, w)
  }

  /** What the original query asks for; an absent or empty one asks for everything. */
  ghost predicate Asked(q: Option<Query>, doc: Document) {
    q.None? || q.value.Blank? || Sat(q.value, doc)
  }

  /** The restricted query asks for the intersection, except that an OR is widened instead. */
  lemma RestrictedMeaning(q: Option<Query>, variable: string, ids: seq<Value>, doc: Document)
    requires q.None? || q.value.Blank? || q.value.Leaf? || (q.value.Logic? && q.value.logical in {"AND", "OR"})
    ensures Restricted(q, variable, ids).Some?
    ensures Sat(Restricted(q, variable, ids).value, doc) <==>
            if q.Some? && q.value.Logic? && q.value.logical == "OR"
            then Asked(q, doc) || HasIdIn(doc, variable, ids)
            else Asked(q, doc) && HasIdIn(doc, variable, ids)
  {
    var isIn := InCondition(variable, ids);
    assert Sat(isIn, doc) <==> HasIdIn(doc, variable, ids);
    if q.Some? && q.value.Logic? {
      var qs := q.value.conditions;
      SatAllMeaning(qs, doc, AsMeant);
      SatAllMeaning(qs + [isIn], doc, AsMeant);
      SatSomeMeaning(qs, doc, AsMeant);
      SatSomeMeaning(qs + [isIn], doc, AsMeant);
      assert (qs + [isIn])[|qs|] == isIn;
      assert forall i :: 0 <= i < |qs| ==> (qs + [isIn])[i] == qs[i];
    } else if q.Some? && q.value.Leaf? {
      SatAllMeaning([q.value, isIn], doc, AsMeant);
    }
  }

  /** The restricted query asks, of every document, for what the original asks for and one of the ids. */
  ghost predicate RestrictsExactly(q: Option<Query>, variable: string, ids: seq<Value>) {
    Restricted(q, variable, ids).Some? &&
    forall doc :: Sat(Restricted(q, variable, ids).value, doc) <==> Asked(q, doc) && HasIdIn(doc, variable, ids)
  }

  lemma SoundRestrictsExactly(q: Option<Query>, variable: string, ids: seq<Value>)
    requires RestrictionSound(q)
    ensures RestrictsExactly(q, variable, ids)
  {
    RestrictedMeaning(q, variable, ids, map[]);
    forall doc ensures Sat(Restricted(q, variable, ids).value, doc) <==> Asked(q, doc) && HasIdIn(doc, variable, ids) {
      RestrictedMeaning(q, variable, ids, doc);
    }
  }

  /** An OR is never restricted exactly when it is satisfied by a document without a listed id, or left
      unsatisfied by one with a listed id; so it is restricted exactly only when restricting is pointless. */
  lemma OrRestrictsExactlyIffPointless(qs: seq<Query>, variable: string, ids: seq<Value>)
    ensures RestrictsExactly(Some(Logic("OR", qs)), variable, ids) <==>
            forall doc :: Sat(Logic("OR", qs), doc) <==> HasIdIn(doc, variable, ids)
  {
    var q := Some(Logic("OR", qs));
    forall doc
      ensures (Sat(Restricted(q, variable, ids).value, doc) <==> Asked(q, doc) && HasIdIn(doc, variable, ids)) <==>
              (Sat(Logic("OR", qs), doc) <==> HasIdIn(doc, variable, ids))
    {
      RestrictedMeaning(q, variable, ids, doc);
    }
  }

  /** In particular an OR with an equality on any other top-level field is never restricted exactly: the
      document that has just that field is still selected, without a listed id. */
  lemma OrOnAnotherFieldIsWidened(qs: seq<Query>, i: nat, variable: string, ids: seq<Value>) returns (doc: Document)
    requires i < |qs| && qs[i].Leaf? && qs[i].operator == "=="
    requires '.' !in qs[i].variable && qs[i].variable != Split(variable)[0] && Null !in ids
    ensures var q := Some(Logic("OR", qs));
            && Restricted(q, variable, ids).Some? && Sat(Restricted(q, variable, ids).value, doc)
            && !HasIdIn(doc, variable, ids) && !RestrictsExactly(q, variable, ids)
  {
    var w, v := qs[i].variable, qs[i].value;
    doc := map[w := v];
    SplitPlain(w);
    assert Some(v) in Candidates(Obj(doc), [w]) by {
      assert [w][1..] == [];
    }
    assert Sat(qs[i], doc);
    SatSomeMeaning(qs, doc, AsMeant);
    assert Reached(doc, variable) == {None};
    RestrictedMeaning(Some(Logic("OR", qs)), variable, ids, doc);
  }

  /** For example: a document of region "x" whose id is not listed is still found. */
  lemma OrStillFinds()
    ensures var q, ids := Some(Logic("OR", [Leaf("r", "==", Str("x"))])), [Str("a")];
            var doc := map["id" := Str("b"), "r" := Str("x")];
            && Sat(Restricted(q, "id", ids).value, doc) && !HasIdIn(doc, "id", ids)
  {
    var qs, ids := [Leaf("r", "==", Str("x"))], [Str("a")];
    var doc := map["id" := Str("b"), "r" := Str("x")];
    SplitPlain("r");
    SplitPlain("id");
    assert ["r"][1..] == [] && ["id"][1..] == [];
    assert Reached(doc, "r") == {Some(Str("x"))} && Reached(doc, "id") == {Some(Str("b"))};
    assert Sat(qs[0], doc);
    SatSomeMeaning(qs, doc, AsMeant);
    RestrictedMeaning(Some(Logic("OR", qs)), "id", ids, doc);
  }

  ghost predicate RestrictionSound(q: Option<Query>) {
    q.None? || q.value.Blank? || q.value.Leaf? || (q.value.Logic? && q.value.logical == "AND")
  }

  /** How a search ends: a filter for the entity collection, nothing to search for, or an error. */
  datatype Search = Send(filter: Filter) | NoMatch | Raised(error: Error)

  /** The filter selects exactly the documents asked for by `q` whose ids are in the sub-results. */
  ghost predicate SelectsExactly(f: Filter, q: Option<Query>, v1: string, ids1: Option<seq<Value>>, v2: string,
      ids2: Option<seq<Value>>) {
    forall doc :: FilterHolds(f, doc) <==>
      Asked(q, doc) && (ids1.Some? ==> HasIdIn(doc, v1, ids1.value)) && (ids2.Some? ==> HasIdIn(doc, v2, ids2.value))
  }

  function RestrictedBy(q: Option<Query>, variable: string, ids: Option<seq<Value>>): Option<Query> {
    if ids.Some? then Restricted(q, variable, ids.value) else q
  }

  lemma RestrictionStep(q: Option<Query>, variable: string, ids: Option<seq<Value>>, doc: Document)
    requires RestrictionSound(q)
    ensures RestrictionSound(RestrictedBy(q, variable, ids))
    ensures Asked(RestrictedBy(q, variable, ids), doc) <==>
            Asked(q, doc) && (ids.Some? ==> HasIdIn(doc, variable, ids.value))
    ensures (q.Some? ==> LikesArePlain(q.value)) && RestrictedBy(q, variable, ids).Some? ==>
              LikesArePlain(RestrictedBy(q, variable, ids).value)
  {
    if ids.Some? { RestrictedMeaning(q, variable, ids.value, doc); }
  }

  /** Two successive rewritings followed by the translation: the whole search is exact when the
      original query is absent, empty, one condition or an AND. */
  lemma SearchExact(q: Option<Query>, v1: string, ids1: Option<seq<Value>>, v2: string, ids2: Option<seq<Value>>,
      f: Filter)
    requires RestrictionSound(q) && (q.Some? ==> LikesArePlain(q.value))
    requires var q' := RestrictedBy(RestrictedBy(q, v1, ids1), v2, ids2); q'.Some? && TranslateOld(q'.value) == Ok(f)
    ensures SelectsExactly(f, q, v1, ids1, v2, ids2)
  {
    var q1 := RestrictedBy(q, v1, ids1);
    var q2 := RestrictedBy(q1, v2, ids2);
    forall doc ensures FilterHolds(f, doc) <==>
      Asked(q, doc) && (ids1.Some? ==> HasIdIn(doc, v1, ids1.value)) && (ids2.Some? ==> HasIdIn(doc, v2, ids2.value))
    {
      RestrictionStep(q, v1, ids1, doc);
      RestrictionStep(q1, v2, ids2, doc);
      TranslationPreservesMeaning(q2.value, f, doc);
    }
  }

  /** A search request; the entity query is rewritten in place. */
  class Request {
    var entityQuery: Option<Query>

    constructor (q: Option<Query>)
      ensures entityQuery == q
    {
      entityQuery := q;
    }

    method Restrict(variable: string, ids: seq<Value>)
      modifies this
      ensures entityQuery == Restricted(old(entityQuery), variable, ids)
    {
      if entityQuery.None? || entityQuery.value.Blank? {
        entityQuery := Some(InCondition(variable, ids));
      } else if entityQuery.value.Logic? {
        var q := entityQuery.value;
        entityQuery := Some(q.(conditions := q.conditions + [InCondition(variable, ids)]));
      } else if entityQuery.value.Leaf? {
        entityQuery := Some(Logic("AND", [entityQuery.value, InCondition(variable, ids)]));
      }
    }

    /** Translate the entity query as it now stands. */
    method EntitySearch() returns (r: Search)
      ensures r == if entityQuery.None? then Raised(MissingKey)
                   else match TranslateOld(entityQuery.value) case Ok(f) => Send(f) case Err(e) => Raised(e)
    {
      if entityQuery.None? {
        return Raised(MissingKey);
      }
      var t := Translate(entityQuery.value);
      r := match t case Ok(f) => Send(f) case Err(e) => Raised(e);
    }

    /** The block case of `execute_filter`: `clusterIds` and `metricIds` are the ids found by the
        two sub-queries, when the request has them; no cluster found ends the search at once. */
    method BlockSearch(clusterIds: Option<seq<Value>>, metricIds: Option<seq<Value>>) returns (r: Search)
      modifies this
      ensures clusterIds == Some([]) ==> r == NoMatch && entityQuery == old(entityQuery)
      ensures clusterIds != Some([]) ==> r != NoMatch
      ensures clusterIds != Some([]) ==>
                entityQuery == RestrictedBy(RestrictedBy(old(entityQuery), "cluster.id", clusterIds), "id", metricIds)
      ensures r.Send? && RestrictionSound(old(entityQuery)) &&
              (old(entityQuery).Some? ==> LikesArePlain(old(entityQuery).value)) ==>
                SelectsExactly(r.filter, old(entityQuery), "cluster.id", clusterIds, "id", metricIds)
    {
      ghost var q := entityQuery;
      if clusterIds.Some? {
        if clusterIds.value == [] {
          return NoMatch;
        }
        Restrict("cluster.id", clusterIds.value);
      }
      if metricIds.Some? {
        Restrict("id", metricIds.value);
      }
      r := EntitySearch();
      if r.Send? && RestrictionSound(q) && (q.Some? ==> LikesArePlain(q.value)) {
        SearchExact(q, "cluster.id", clusterIds, "id", metricIds, r.filter);
      }
    }

    /** The cluster case: an empty metrics result ends the search at once. */
    method ClusterSearch(metricIds: Option<seq<Value>>) returns (r: Search)
      modifies this
      ensures metricIds == Some([]) ==> r == NoMatch && entityQuery == old(entityQuery)
      ensures metricIds != Some([]) ==> r != NoMatch && entityQuery == RestrictedBy(old(entityQuery), "id", metricIds)
      ensures r.Send? && RestrictionSound(old(entityQuery)) &&
              (old(entityQuery).Some? ==> LikesArePlain(old(entityQuery).value)) ==>
                SelectsExactly(r.filter, old(entityQuery), "id", metricIds, "", None)
    {
      ghost var q := entityQuery;
      if metricIds.Some? {
        if metricIds.value == [] {
          return NoMatch;
        }
        Restrict("id", metricIds.value);
      }
      r := EntitySearch();
      if r.Send? && RestrictionSound(q) && (q.Some? ==> LikesArePlain(q.value)) {
        SearchExact(q, "id", metricIds, "", None, r.filter);
      }
    }
  }
}
