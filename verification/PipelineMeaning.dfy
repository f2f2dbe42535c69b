/** What a metrics pipeline does to a document, and how that relates to the query it came from. */
module PipelineMeaning {
  import opened SearchQuery
  import opened QueryCompiler
  import Sequences
  import opened Wrappers

  // ------------------------------------------------------------- running a pipeline

  /** A field path in an expression: an array on the way is mapped over, dropping missing fields. */
  function Resolve(v: Value, path: Path): Option<Value>
    decreases |path|, v
  {
    if path == [] then Some(v)
    else match v
      case Obj(fields) => if path[0] in fields then Resolve(fields[path[0]], path[1..]) else None
      case Arr(items) => Some(Arr(ResolveAll(items, path)))
      case _ => None
  }

  function ResolveAll(items: seq<Value>, path: Path): seq<Value>
    decreases |path|, items
  {
    if items == [] then []
    else (match Resolve(items[0], path) case Some(x) => [x] case None => []) + ResolveAll(items[1..], path)
  }

  function OrNull(v: Option<Value>): Value {
    match v case Some(x) => x case None => Null
  }

  /** Concatenation of the arrays under `key`; a missing one makes the whole null, whatever comes after
      it, and anything else than an array is an error (None). */
  function Concatenation(items: seq<Value>, key: string): Option<Value> {
    if items == [] then Some(Arr([]))
    else match Concatenation(items[..|items| - 1], key)
      case Some(Arr(before)) =>
        (match OrNull(Resolve(items[|items| - 1], [key]))
         case Null => Some(Null)
         case Arr(more) => Some(Arr(before + more))
         case _ => None)
      case other => other
  }

  function SourceValue(source: Source, doc: Document): Option<Value> {
    match source
    case FieldArray(path) => Some(OrNull(Resolve(Obj(doc), path)))
    case Concatenated(path, key) =>
      match OrNull(Resolve(Obj(doc), path))
      case Null => Some(Null)
      case Arr(items) => Concatenation(items, key)
      case _ => None
  }

  function MapField(items: seq<Value>, field: string): seq<Value> {
    if items == [] then [] else [OrNull(Resolve(items[0], [field]))] + MapField(items[1..], field)
  }

  /** The value a `$set` stage computes; None when the database refuses it. */
  function Computed(c: Computation, doc: Document): Option<Value> {
    match c
    case Size(path) =>
      (match OrNull(Resolve(Obj(doc), path))
       case Null => Some(Num(0.0))
       case Arr(items) => Some(Num(|items| as real))
       case _ => None)
    case Fold(agg, source, field) =>
      if agg !in AGGREGATES then None
      else match SourceValue(source, doc)
        case Some(Null) => Some(Aggregate(agg, [Null]))
        case Some(Arr(items)) => Some(Aggregate(agg, MapField(items, field)))
        case _ => None
  }

  /** A literal in an expression: a text that starts with a dollar names a field. */
  function Operand(v: Value, doc: Document): Option<Value> {
    if v.Str? && v.s != [] && v.s[0] == '$' then Resolve(Obj(doc), Split(v.s[1..])) else Some(v)
  }

  predicate BeforeOperand(a: Option<Value>, b: Option<Value>) {
    b.Some? && (a.None? || Before(a.value, b.value))
  }

  function Comparison(op: string, a: Option<Value>, b: Option<Value>): Option<bool> {
    if op == "$eq" then Some(a == b)
    else if op == "$ne" then Some(a != b)
    else if op == "$gt" then Some(BeforeOperand(b, a))
    else if op == "$gte" then Some(BeforeOperand(b, a) || a == b)
    else if op == "$lt" then Some(BeforeOperand(a, b))
    else if op == "$lte" then Some(BeforeOperand(a, b) || a == b)
    else None
  }

  /** The value of an expression; None when the database refuses it, as it does an operator object
      in the place of a literal. */
  function ExprValue(e: Expr, doc: Document): Option<bool>
    decreases e, 1
  {
    match e
    case CompareField(Some(op), field, literal) =>
      Comparison(op, if field in doc then Some(doc[field]) else None, Operand(literal, doc))
    case CompareField(None, _, _) => None
    case EqField(variable, Equals(v)) => Some(Resolve(Obj(doc), Split(variable)) == Operand(v, doc))
    case EqField(_, _) => None
    case Or(es) => SomeTrue(es, doc)
  }

  function SomeTrue(es: seq<Expr>, doc: Document): Option<bool>
    decreases es, 0
  {
    if es == [] then Some(false)
    else match (SomeTrue(es[..|es| - 1], doc), ExprValue(es[|es| - 1], doc))
      case (Some(a), Some(b)) => Some(a || b)
      case _ => None
  }

  datatype Verdict = Kept(doc: Document) | Dropped | Refused

  ghost function RunStage(stage: Stage, doc: Document): Verdict {
    match stage
    case Set(field, c) =>
      (match Computed(c, doc) case Some(v) => Kept(doc[field := v]) case None => Refused)
    case MatchStage(FieldMatch(variable, test)) =>
      if TestHolds(test, Reached(doc, variable)) then Kept(doc) else Dropped
    case MatchStage(ExprMatch(e)) =>
      (match ExprValue(e, doc) case Some(b) => if b then Kept(doc) else Dropped case None => Refused)
  }

  ghost function Run(stages: seq<Stage>, doc: Document): Verdict {
    if stages == [] then Kept(doc)
    else match Run(stages[..|stages| - 1], doc)
      case Kept(d) => RunStage(stages[|stages| - 1], d)
      case v => v
  }

  lemma {:induction false} RunConcat(a: seq<Stage>, b: seq<Stage>, doc: Document)
    ensures Run(a + b, doc) == match Run(a, doc) case Kept(d) => Run(b, d) case v => v
  {
    if b == [] {
      assert a + b == a;
    } else {
      assert (a + b)[..|a + b| - 1] == a + b[..|b| - 1];
      RunConcat(a, b[..|b| - 1], doc);
    }
  }

  // ------------------------------------------------- queries and documents in scope

  predicate Reserved(name: string) {
    PREFIX <= Split(name)[0]
  }

  /** Equal on every field the pipeline does not compute. */
  ghost predicate Agrees(d: Document, doc: Document) {
    forall k :: !(PREFIX <= k) ==> (k in d <==> k in doc) && (k in d ==> d[k] == doc[k])
  }

  ghost predicate ThroughObjects(v: Value, path: Path)
    decreases |path|
  {
    path == [] || (!v.Arr? && (v.Obj? && path[0] in v.fields ==> ThroughObjects(v.fields[path[0]], path[1..])))
  }

  /** The field is reached through objects and does not hold an array. */
  ghost predicate ScalarField(doc: Document, variable: string) {
    ThroughObjects(Obj(doc), Split(variable)) &&
    match FieldAt(Obj(doc), Split(variable)) case Some(Arr(_)) => false case _ => true
  }

  /** A literal that an expression takes for itself. */
  predicate Constant(v: Value) {
    match v
    case Arr(_) => false
    case Obj(_) => false
    case Str(s) => s == [] || s[0] != '$'
    case _ => true
  }

  ghost predicate NoNestedArray(items: seq<Value>) {
    forall i :: 0 <= i < |items| ==> !items[i].Arr?
  }

  /** The array of the target's last level but one: absent, null, or an array of non-arrays; with
      three or more levels an array of objects that each hold such an array, or one in which an element
      without an inner array comes before any that holds something else there. */
  ghost predicate Shaped(agg: string, target: string, doc: Document) {
    var parts := Split(target);
    if agg == "count" then
      ThroughObjects(Obj(doc), parts) &&
      (match OrNull(FieldAt(Obj(doc), parts)) case Null => true case Arr(_) => true case _ => false)
    else
      |parts| >= 2 &&
      var prefix := if |parts| >= 3 then parts[..|parts| - 2] else parts[..1];
      ThroughObjects(Obj(doc), prefix) &&
      match OrNull(FieldAt(Obj(doc), prefix))
      case Null => true
      case Arr(items) =>
        if |parts| == 2 then NoNestedArray(items) else InnerArrays(items, parts[|parts| - 2]) || Lossy(agg, target, doc)
      case _ => false
  }

  ghost predicate InnerArrays(items: seq<Value>, key: string) {
    forall i :: 0 <= i < |items| ==>
      items[i].Obj? && key in items[i].fields && items[i].fields[key].Arr? && NoNestedArray(items[i].fields[key].items)
  }

  ghost predicate SupportedAgg(agg: string, target: string, doc: Document) {
    (agg == "count" || agg in AGGREGATES) && !Reserved(target) && Shaped(agg, target, doc) &&
    (agg in {"min", "max"} && !Lossy(agg, target, doc) ==> Scalars(Collect(Obj(doc), Split(target))))
  }

  /** Queries in scope for a document: no condition or target reads a computed field, aggregates
      meet arrays where they expect them, extremes no objects or arrays, and beneath an OR a condition
      is an equality of a scalar field with a non-null constant. */
  ghost predicate Supported(q: Query, underOr: bool, doc: Document) {
    match q
    case Leaf(variable, op, value) =>
      !Reserved(variable) && PlainLike(op, value) &&
      (underOr ==> op == "==" && Constant(value) && value != Null && ScalarField(doc, variable))
    case Agg(agg, target, op, value) => op in COMPARISONS && Constant(value) && SupportedAgg(agg, target, doc)
    case Logic(op, qs) => forall i :: 0 <= i < |qs| ==> Supported(qs[i], underOr || op == "OR", doc)
    case Blank => true
  }

  ghost predicate AllSupported(qs: seq<Query>, underOr: bool, doc: Document) {
    forall i :: 0 <= i < |qs| ==> Supported(qs[i], underOr, doc)
  }

  /** The aggregates of a query, in the order of their `$set` stages. */
  ghost function AggregatesIn(q: Query): seq<(string, string)>
    decreases q, 1
  {
    match q
    case Agg(agg, target, _, _) => [(agg, target)]
    case Logic(_, qs) => AggregatesInAll(qs)
    case _ => []
  }

  ghost function AggregatesInAll(qs: seq<Query>): seq<(string, string)>
    decreases qs, 0
  {
    if qs == [] then [] else AggregatesInAll(qs[..|qs| - 1]) + AggregatesIn(qs[|qs| - 1])
  }

  ghost predicate DistinctNames(aggs: seq<(string, string)>) {
    forall x, y :: x in aggs && y in aggs && ComputedName(x.0, x.1) == ComputedName(y.0, y.1) ==> x == y
  }

  /** Within each outermost OR, different aggregates have different computed names. */
  ghost predicate OrNamesDistinct(q: Query) {
    match q
    case Logic(op, qs) =>
      if op == "OR" then DistinctNames(AggregatesIn(q))
      else forall i :: 0 <= i < |qs| ==> OrNamesDistinct(qs[i])
    case _ => true
  }

  // ----------------------------------------------------- computed fields are right

  lemma {:induction false} ResolveThroughObjects(v: Value, path: Path)
    requires ThroughObjects(v, path)
    ensures Resolve(v, path) == FieldAt(v, path)
    decreases |path|
  {
    if path != [] && v.Obj? && path[0] in v.fields { ResolveThroughObjects(v.fields[path[0]], path[1..]); }
  }

  lemma ResolveAgrees(d: Document, doc: Document, path: Path)
    requires Agrees(d, doc) && path != [] && !(PREFIX <= path[0])
    ensures Resolve(Obj(d), path) == Resolve(Obj(doc), path)
  {}

  lemma ReachedAgrees(d: Document, doc: Document, variable: string)
    requires Agrees(d, doc) && !Reserved(variable)
    ensures Reached(d, variable) == Reached(doc, variable)
  {}

  lemma {:induction false} ReachedScalar(v: Value, path: Path)
    requires ThroughObjects(v, path)
    requires match FieldAt(v, path) case Some(Arr(_)) => false case _ => true
    ensures Candidates(v, path) == {FieldAt(v, path)}
    decreases |path|
  {
    if path != [] && v.Obj? && path[0] in v.fields { ReachedScalar(v.fields[path[0]], path[1..]); }
  }

  lemma {:induction false} CollectPrefix(v: Value, prefix: Path, rest: Path)
    requires ThroughObjects(v, prefix)
    ensures Collect(v, prefix + rest) == match FieldAt(v, prefix) case Some(x) => Collect(x, rest) case None => []
    decreases |prefix|
  {
    if prefix == [] {
      assert prefix + rest == rest;
    } else {
      assert (prefix + rest)[1..] == prefix[1..] + rest;
      if v.Obj? && prefix[0] in v.fields { CollectPrefix(v.fields[prefix[0]], prefix[1..], rest); }
    }
  }

  lemma {:induction false} PresentConcat(a: seq<Value>, b: seq<Value>)
    ensures Present(a + b) == Present(a) + Present(b)
  {
    if a == [] {
      assert a + b == b;
    } else {
      PresentConcat(a[1..], b);
      assert (a + b)[1..] == a[1..] + b && (a + b)[0] == a[0];
      Sequences.Regroup(if a[0] == Null then [] else [a[0]], Present(a[1..]), Present(b));
    }
  }

  lemma OneStep(v: Value, field: string)
    requires !v.Arr?
    ensures Resolve(v, [field]) == if v.Obj? && field in v.fields then Some(v.fields[field]) else None
    ensures Collect(v, [field]) == if v.Obj? && field in v.fields then [v.fields[field]] else []
  {
    assert [field][0] == field && [field][1..] == [];
  }

  /** Mapping a field over flat elements finds the values that collecting it finds, and nulls. */
  lemma {:induction false} MapFieldCollects(items: seq<Value>, field: string)
    requires NoNestedArray(items)
    ensures Present(MapField(items, field)) == Present(CollectAll(items, [field]))
  {
    if items != [] {
      MapFieldCollects(items[1..], field);
      assert MapField(items, field)[1..] == MapField(items[1..], field);
      var here := Collect(items[0], [field]);
      PresentConcat(here, CollectAll(items[1..], [field]));
      OneStep(items[0], field);
      assert here[..] == here && (here != [] ==> here[1..] == []);
    }
  }

  lemma {:induction false} CollectAllConcat(a: seq<Value>, b: seq<Value>, path: Path)
    ensures CollectAll(a + b, path) == CollectAll(a, path) + CollectAll(b, path)
  {
    if a == [] {
      assert a + b == b;
    } else {
      assert (a + b)[1..] == a[1..] + b;
      CollectAllConcat(a[1..], b, path);
    }
  }

  /** Concatenating the inner arrays and then collecting a field is collecting through both levels. */
  lemma {:induction false} ConcatenationCollects(items: seq<Value>, key: string, field: string)
    requires InnerArrays(items, key)
    ensures Concatenation(items, key).Some? && Concatenation(items, key).value.Arr?
    ensures NoNestedArray(Concatenation(items, key).value.items)
    ensures CollectAll(Concatenation(items, key).value.items, [field]) == CollectAll(items, [key, field])
  {
    if items != [] {
      var front, last := items[..|items| - 1], items[|items| - 1];
      assert InnerArrays(front, key) by { assert forall i :: 0 <= i < |front| ==> front[i] == items[i]; }
      ConcatenationCollects(front, key, field);
      var before := Concatenation(front, key).value.items;
      ConcatenationSnoc(items, key, before);
      FlatConcat(before, last.fields[key].items);
      CollectOneMore(front, last, key, field, before);
      assert items == front + [last];
    }
  }

  lemma ConcatenationSnoc(items: seq<Value>, key: string, before: seq<Value>)
    requires items != [] && Concatenation(items[..|items| - 1], key) == Some(Arr(before))
    requires var last := items[|items| - 1]; last.Obj? && key in last.fields && last.fields[key].Arr?
    ensures Concatenation(items, key) == Some(Arr(before + items[|items| - 1].fields[key].items))
  {
    OneStep(items[|items| - 1], key);
  }

  lemma FlatConcat(a: seq<Value>, b: seq<Value>)
    requires NoNestedArray(a) && NoNestedArray(b)
    ensures NoNestedArray(a + b)
  {
  }

  lemma CollectOneMore(front: seq<Value>, last: Value, key: string, field: string, before: seq<Value>)
    requires last.Obj? && key in last.fields && last.fields[key].Arr?
    requires CollectAll(before, [field]) == CollectAll(front, [key, field])
    ensures CollectAll(before + last.fields[key].items, [field]) == CollectAll(front + [last], [key, field])
  {
    CollectAllConcat(before, last.fields[key].items, [field]);
    CollectAllConcat(front, [last], [key, field]);
    CollectInner(last, key, field);
  }

  lemma CollectInner(v: Value, key: string, field: string)
    requires v.Obj? && key in v.fields && v.fields[key].Arr?
    ensures CollectAll([v], [key, field]) == CollectAll(v.fields[key].items, [field])
  {
    var path := [key, field];
    assert path[0] == key && path[1..] == [field] && [v][1..] == [];
    assert CollectAll([v], path) == Collect(v, path) + CollectAll([], path);
    assert Collect(v, path) == Collect(v.fields[key], [field]);
  }

  lemma TwoLevels(agg: string, items: seq<Value>, field: string)
    requires NoNestedArray(items)
    ensures Aggregate(agg, MapField(items, field)) == Aggregate(agg, CollectAll(items, [field]))
  {
    MapFieldCollects(items, field);
  }

  lemma ThreeLevels(agg: string, items: seq<Value>, key: string, field: string)
    requires InnerArrays(items, key)
    ensures var flat := Concatenation(items, key);
            flat.Some? && flat.value.Arr? &&
            Aggregate(agg, MapField(flat.value.items, field)) == Aggregate(agg, CollectAll(items, [key, field]))
  {
    ConcatenationCollects(items, key, field);
    TwoLevels(agg, Concatenation(items, key).value.items, field);
  }

  lemma CollectFromPrefix(doc: Document, prefix: Path, rest: Path)
    requires rest != [] && ThroughObjects(Obj(doc), prefix)
    ensures Collect(Obj(doc), prefix + rest) ==
            Collect(OrNull(FieldAt(Obj(doc), prefix)), rest)
  {
    CollectPrefix(Obj(doc), prefix, rest);
  }

  lemma InnerResolved(v: Value, key: string)
    ensures NoInnerArray(v, key) ==> OrNull(Resolve(v, [key])) == Null
    ensures HasInnerArray(v, key) ==> OrNull(Resolve(v, [key])).Arr?
  {
    if !v.Arr? { OneStep(v, key); }
  }

  /** One element without an inner array makes the concatenation null. */
  lemma {:induction false} MissingMakesNull(items: seq<Value>, key: string, n: nat)
    requires n < |items| && NoInnerArray(items[n], key) && forall i :: 0 <= i < n ==> HasInnerArray(items[i], key)
    ensures Concatenation(items, key) == Some(Null)
  {
    var front := items[..|items| - 1];
    if n == |front| {
      AllConcatenate(front, key);
      InnerResolved(items[n], key);
    } else {
      MissingMakesNull(front, key, n);
    }
  }

  lemma {:induction false} AllConcatenate(items: seq<Value>, key: string)
    requires forall i :: 0 <= i < |items| ==> HasInnerArray(items[i], key)
    ensures Concatenation(items, key).Some? && Concatenation(items, key).value.Arr?
  {
    if items != [] {
      AllConcatenate(items[..|items| - 1], key);
      InnerResolved(items[|items| - 1], key);
    }
  }

  lemma LossyComputesNothing(agg: string, target: string, d: Document, doc: Document)
    requires SupportedAgg(agg, target, doc) && Agrees(d, doc) && Lossy(agg, target, doc)
    ensures Computed(ComputationOf(agg, target), d) == Some(Aggregate(agg, []))
  {
    var n :| LacksInnerArray(target, doc, n);
    var parts := Split(target);
    var prefix, key := parts[..|parts| - 2], parts[|parts| - 2];
    ResolveAgrees(d, doc, prefix);
    ResolveThroughObjects(Obj(doc), prefix);
    NullMakesNothing(agg, prefix, key, parts[|parts| - 1], d, FieldAt(Obj(doc), prefix).value.items, n);
  }

  lemma NullMakesNothing(agg: string, prefix: Path, key: string, field: string, d: Document, items: seq<Value>, n: nat)
    requires agg in AGGREGATES && Resolve(Obj(d), prefix) == Some(Arr(items)) && n < |items|
    requires NoInnerArray(items[n], key) && forall i :: 0 <= i < n ==> HasInnerArray(items[i], key)
    ensures Computed(Fold(agg, Concatenated(prefix, key), field), d) == Some(Aggregate(agg, []))
  {
    MissingMakesNull(items, key, n);
    NullIsNothing(agg);
  }

  /** Each computed field holds the aggregate the query asks about, or that of nothing if an element
      lacks the inner array. */
  lemma ComputationExact(agg: string, target: string, d: Document, doc: Document)
    requires SupportedAgg(agg, target, doc) && Agrees(d, doc)
    ensures Computed(ComputationOf(agg, target), d) == Some(ValueOf(agg, target, doc, AsPiped))
  {
    if Lossy(agg, target, doc) {
      LossyComputesNothing(agg, target, d, doc);
    } else {
      WholeComputed(agg, target, d, doc);
    }
  }

  lemma WholeComputed(agg: string, target: string, d: Document, doc: Document)
    requires SupportedAgg(agg, target, doc) && Agrees(d, doc) && !Lossy(agg, target, doc)
    ensures Computed(ComputationOf(agg, target), d) == Some(AggregateOf(agg, target, doc))
  {
    var parts := Split(target);
    if agg == "count" {
      ResolveAgrees(d, doc, parts);
      ResolveThroughObjects(Obj(doc), parts);
    } else if |parts| == 2 {
      TwoLevelExact(agg, parts, d, doc);
    } else {
      var n := |parts|;
      assert parts == parts[..n - 2] + [parts[n - 2], parts[n - 1]];
      ThreeLevelExact(agg, parts[..n - 2], parts[n - 2], parts[n - 1], d, doc);
    }
  }

  lemma NullIsNothing(agg: string)
    ensures Aggregate(agg, [Null]) == Aggregate(agg, [])
  {
    assert [Null][1..] == [];
    assert Present([Null]) == [];
  }

  lemma TwoLevelExact(agg: string, parts: Path, d: Document, doc: Document)
    requires agg in AGGREGATES && |parts| == 2 && !(PREFIX <= parts[0]) && Agrees(d, doc)
    requires ThroughObjects(Obj(doc), parts[..1])
    requires match OrNull(FieldAt(Obj(doc), parts[..1]))
             case Null => true
             case Arr(items) => NoNestedArray(items)
             case _ => false
    ensures Computed(Fold(agg, FieldArray(parts[..1]), parts[1]), d) == Some(Aggregate(agg, Collect(Obj(doc), parts)))
  {
    ResolveAgrees(d, doc, parts[..1]);
    ResolveThroughObjects(Obj(doc), parts[..1]);
    assert parts == parts[..1] + [parts[1]];
    CollectFromPrefix(doc, parts[..1], [parts[1]]);
    match OrNull(FieldAt(Obj(doc), parts[..1]))
    case Null => NullIsNothing(agg);
    case Arr(items) => TwoLevels(agg, items, parts[1]);
  }

  lemma FoldOfConcatenation(agg: string, path: Path, key: string, field: string, d: Document)
    requires agg in AGGREGATES
    requires match OrNull(Resolve(Obj(d), path))
             case Null => true
             case Arr(items) => InnerArrays(items, key)
             case _ => false
    ensures Computed(Fold(agg, Concatenated(path, key), field), d) ==
            Some(Aggregate(agg, Collect(OrNull(Resolve(Obj(d), path)), [key, field])))
  {
    match OrNull(Resolve(Obj(d), path))
    case Null => NullIsNothing(agg);
    case Arr(items) => ThreeLevels(agg, items, key, field);
  }

  lemma ThreeLevelExact(agg: string, prefix: Path, key: string, field: string, d: Document, doc: Document)
    requires agg in AGGREGATES && prefix != [] && !(PREFIX <= prefix[0]) && Agrees(d, doc)
    requires ThroughObjects(Obj(doc), prefix)
    requires match OrNull(FieldAt(Obj(doc), prefix))
             case Null => true
             case Arr(items) => InnerArrays(items, key)
             case _ => false
    ensures Computed(Fold(agg, Concatenated(prefix, key), field), d) ==
            Some(Aggregate(agg, Collect(Obj(doc), prefix + [key, field])))
  {
    ResolveAgrees(d, doc, prefix);
    ResolveThroughObjects(Obj(doc), prefix);
    FoldOfConcatenation(agg, prefix, key, field, d);
    CollectFromPrefix(doc, prefix, [key, field]);
  }
}
