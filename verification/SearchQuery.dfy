/** Documents, the search language of the search server, and what its queries mean. */
module SearchQuery {
  import opened LikePattern
  import opened Wrappers

  datatype Value =
    | Null
    | Bool(b: bool)
    | Num(n: real)
    | Str(s: string)
    | Arr(items: seq<Value>)
    | Obj(fields: map<string, Value>)

  type Document = map<string, Value>

  type Path = seq<string>

  /** Splitting a dotted name; there is always at least one part. */
  function Split(name: string): (parts: Path)
    ensures |parts| >= 1
  {
    if name == [] then [""]
    else
      var rest := Split(name[1..]);
      if name[0] == '.' then [""] + rest else [[name[0]] + rest[0]] + rest[1..]
  }

  lemma {:induction false} SplitPlain(name: string)
    requires '.' !in name
    ensures Split(name) == [name]
  {
    if name != [] {
      SplitPlain(name[1..]);
      assert [name[0]] + name[1..] == name;
    }
  }

  /** Splitting undoes joining with a dot. */
  lemma {:induction false} SplitUndoesJoin(first: string, rest: string)
    requires '.' !in first
    ensures Split(first) == [first] && Split(first + "." + rest) == [first] + Split(rest)
  {
    SplitPlain(first);
    var name := first + "." + rest;
    if first == [] {
      assert name == "." + rest && name[1..] == rest;
    } else {
      SplitUndoesJoin(first[1..], rest);
      assert name[1..] == first[1..] + "." + rest;
      assert [first[0]] + first[1..] == first;
    }
  }

  // ------------------------------------------------------------------ conditions

  /** The values a dotted field name reaches for a condition: through objects, into the objects of
      an array, and for a final array both the array and its elements. None is a missing field. */
  ghost function Candidates(v: Value, path: Path): set<Option<Value>>
    decreases |path|, v
  {
    if path == [] then
      {Some(v)} + if v.Arr? then set x | x in v.items :: Some(x) else {}
    else if v.Obj? then
      if path[0] in v.fields then Candidates(v.fields[path[0]], path[1..]) else {None}
    else if v.Arr? then
      set i: int, c | 0 <= i < |v.items| && v.items[i].Obj? && c in Candidates(v.items[i], path) :: c
    else {None}
  }

  ghost function Reached(doc: Document, variable: string): set<Option<Value>> {
    Candidates(Obj(doc), Split(variable))
  }

  /** A condition on an array asks about the array and about each of its elements. */
  lemma ArrayAndElementsReached(doc: Document, name: string, c: Option<Value>)
    requires '.' !in name && name in doc && doc[name].Arr?
    ensures c in Reached(doc, name) <==> c == Some(doc[name]) || (c.Some? && c.value in doc[name].items)
  {
    SplitPlain(name);
    assert [name][1..] == [] && [name][0] == name;
    assert Candidates(Obj(doc), [name]) == Candidates(doc[name], [name][1..]);
  }

  /** Equality of a condition: null also stands for a missing field. */
  predicate Same(c: Option<Value>, v: Value) {
    c == Some(v) || (c == None && v == Null)
  }

  predicate TextBefore(a: string, b: string) {
    b != [] && (a == [] || a[0] < b[0] || (a[0] == b[0] && TextBefore(a[1..], b[1..])))
  }

  ghost predicate DifferAt(a: string, b: string, k: nat) {
    k < |a| && k < |b| && a[..k] == b[..k] && a[k] < b[k]
  }

  /** Texts are ordered by the first character in which they differ, and a text comes after its beginnings. */
  lemma {:induction false} TextOrder(a: string, b: string)
    ensures TextBefore(a, b) <==> a < b || exists k: nat :: DifferAt(a, b, k)
  {
    if a != [] && b != [] && a[0] == b[0] {
      TextOrder(a[1..], b[1..]);
      assert a < b <==> a[1..] < b[1..] by {
        assert a == [a[0]] + a[1..] && b == [a[0]] + b[1..];
      }
      if k: nat :| DifferAt(a, b, k) {
        assert DifferAt(a[1..], b[1..], k - 1) by { assert a[1..][..k - 1] == a[..k][1..] == b[..k][1..]; }
      }
      if k: nat :| DifferAt(a[1..], b[1..], k) {
        assert DifferAt(a, b, k + 1) by { assert a[..k + 1] == [a[0]] + a[1..][..k] == [b[0]] + b[1..][..k]; }
      }
    } else if a != [] && b != [] && a[0] < b[0] {
      assert a[..0] == b[..0] && DifferAt(a, b, 0);
    }
  }

  /** Order within one kind of value; values of different kinds are not ordered. */
  predicate Less(a: Value, b: Value) {
    match (a, b)
    case (Num(x), Num(y)) => x < y
    case (Str(x), Str(y)) => TextBefore(x, y)
    case (Bool(x), Bool(y)) => !x && y
    case _ => false
  }

  predicate AtMost(a: Value, b: Value) {
    Less(a, b) || (a == b && !a.Arr? && !a.Obj?)
  }

  const OPERATORS := {"LIKE", "==", "!=", "IN", "<", "<=", ">", ">="}

  /** What a condition `variable operator value` says of the values the variable reaches. */
  ghost predicate ConditionHolds(op: string, value: Value, cs: set<Option<Value>>) {
    if op == "LIKE" then exists c :: c in cs && c.Some? && c.value.Str? && value.Str? && Like(value.s, c.value.s)
    else if op == "==" then exists c :: c in cs && Same(c, value)
    else if op == "!=" then forall c :: c in cs ==> !Same(c, value)
    else if op == "IN" then value.Arr? && exists c, w :: c in cs && w in value.items && Same(c, w)
    else if op == "<" then exists c :: c in cs && c.Some? && Less(c.value, value)
    else if op == "<=" then exists c :: c in cs && c.Some? && AtMost(c.value, value)
    else if op == ">" then exists c :: c in cs && c.Some? && Less(value, c.value)
    else if op == ">=" then exists c :: c in cs && c.Some? && AtMost(value, c.value)
    else false
  }

  /** Conditions on a field that reaches one value or is missing: a missing field equals null, numbers and
      texts are compared in their order, and arrays and objects are never in order. */
  lemma ConditionsOnOne(c: Option<Value>, v: Value)
    ensures ConditionHolds("==", v, {c}) <==> c == Some(v) || (c == None && v == Null)
    ensures ConditionHolds("!=", v, {c}) <==> !ConditionHolds("==", v, {c})
    ensures v.Num? ==> (ConditionHolds("<=", v, {c}) <==> c.Some? && c.value.Num? && c.value.n <= v.n)
    ensures v.Num? ==> (ConditionHolds(">=", v, {c}) <==> c.Some? && c.value.Num? && c.value.n >= v.n)
    ensures v.Str? ==> (ConditionHolds("<=", v, {c}) <==>
              c.Some? && c.value.Str? && (TextBefore(c.value.s, v.s) || c.value.s == v.s))
    ensures v.Arr? || v.Obj? ==> !ConditionHolds("<=", v, {c}) && !ConditionHolds(">=", v, {c})
  {
    assert c in {c};
  }

  // ------------------------------------------------------------------ aggregates

  /** All values found along a path, descending into every array on the way. */
  function Collect(v: Value, path: Path): seq<Value>
    decreases |path|, v
  {
    if path == [] then [v]
    else match v
      case Obj(fields) => if path[0] in fields then Collect(fields[path[0]], path[1..]) else []
      case Arr(items) => CollectAll(items, path)
      case _ => []
  }

  function CollectAll(items: seq<Value>, path: Path): seq<Value>
    decreases |path|, items
  {
    if items == [] then [] else Collect(items[0], path) + CollectAll(items[1..], path)
  }

  function Numbers(vs: seq<Value>): seq<real> {
    if vs == [] then [] else (if vs[0].Num? then [vs[0].n] else []) + Numbers(vs[1..])
  }

  function Sum(ns: seq<real>): real {
    if ns == [] then 0.0 else ns[0] + Sum(ns[1..])
  }

  /** The order of values of any kinds: null comes before numbers, numbers before texts, texts before
      booleans. */
  function Kind(v: Value): nat {
    match v
    case Null => 0
    case Num(_) => 1
    case Str(_) => 2
    case Obj(_) => 3
    case Arr(_) => 4
    case Bool(_) => 5
  }

  predicate Before(a: Value, b: Value) {
    Kind(a) < Kind(b) || Less(a, b)
  }

  /** The values that are not null. */
  function Present(vs: seq<Value>): seq<Value> {
    if vs == [] then [] else (if vs[0] == Null then [] else [vs[0]]) + Present(vs[1..])
  }

  function Least(vs: seq<Value>): Value
    requires vs != []
  {
    if |vs| == 1 then vs[0]
    else var m := Least(vs[1..]); if Before(m, vs[0]) then m else vs[0]
  }

  function Greatest(vs: seq<Value>): Value
    requires vs != []
  {
    if |vs| == 1 then vs[0]
    else var m := Greatest(vs[1..]); if Before(vs[0], m) then m else vs[0]
  }

  const AGGREGATES := {"avg", "sum", "min", "max"}

  /** Sums and averages are taken over numbers only, the extremes over all values but null; an
      aggregate of nothing is null, except a sum. */
  function Aggregate(agg: string, vs: seq<Value>): Value {
    var present := Present(vs);
    var ns := Numbers(present);
    if agg == "sum" then Num(Sum(ns))
    else if agg == "avg" then if ns == [] then Null else Num(Sum(ns) / |ns| as real)
    else if present == [] then Null
    else if agg == "min" then Least(present)
    else Greatest(present)
  }

  /** No objects or arrays, which have an order of their own. */
  predicate Scalars(vs: seq<Value>) {
    forall i :: 0 <= i < |vs| ==> !vs[i].Obj? && !vs[i].Arr?
  }

  lemma {:induction false} TextNotBefore(a: string, b: string, c: string)
    requires !TextBefore(a, b) && !TextBefore(b, c)
    ensures !TextBefore(a, c)
  {
    if a != [] && b != [] && c != [] && a[0] == c[0] { TextNotBefore(a[1..], b[1..], c[1..]); }
  }

  lemma NotBefore(a: Value, b: Value, c: Value)
    requires !Before(a, b) && !Before(b, c)
    ensures !Before(a, c)
  {
    if a.Str? && b.Str? && c.Str? { TextNotBefore(a.s, b.s, c.s); }
  }

  lemma {:induction false} TextBothWays(a: string, b: string)
    ensures !(TextBefore(a, b) && TextBefore(b, a))
  {
    if a != [] && b != [] { TextBothWays(a[1..], b[1..]); }
  }

  /** The least value is one of the values, and none comes before it. */
  lemma {:induction false} LeastIsFirst(vs: seq<Value>)
    requires vs != [] && Scalars(vs)
    ensures Least(vs) in vs && forall v :: v in vs ==> !Before(v, Least(vs))
  {
    if vs[0].Str? { TextBothWays(vs[0].s, vs[0].s); }
    if |vs| > 1 {
      LeastIsFirst(vs[1..]);
      var m := Least(vs[1..]);
      if m.Str? && vs[0].Str? { TextBothWays(m.s, vs[0].s); }
      forall v | v in vs ensures !Before(v, Least(vs)) {
        if v != vs[0] {
          assert v in vs[1..];
          if !Before(m, vs[0]) { NotBefore(v, m, vs[0]); }
        }
      }
    }
  }

  /** The greatest value is one of the values, and it comes before none. */
  lemma {:induction false} GreatestIsLast(vs: seq<Value>)
    requires vs != [] && Scalars(vs)
    ensures Greatest(vs) in vs && forall v :: v in vs ==> !Before(Greatest(vs), v)
  {
    if vs[0].Str? { TextBothWays(vs[0].s, vs[0].s); }
    if |vs| > 1 {
      GreatestIsLast(vs[1..]);
      var m := Greatest(vs[1..]);
      if m.Str? && vs[0].Str? { TextBothWays(m.s, vs[0].s); }
      forall v | v in vs ensures !Before(Greatest(vs), v) {
        if v != vs[0] {
          assert v in vs[1..];
          if !Before(vs[0], m) { NotBefore(vs[0], m, v); }
        }
      }
    }
  }

  lemma {:induction false} SumConcat(a: seq<real>, b: seq<real>)
    ensures Sum(a + b) == Sum(a) + Sum(b)
  {
    if a == [] {
      assert a + b == b;
    } else {
      assert (a + b)[1..] == a[1..] + b;
      SumConcat(a[1..], b);
    }
  }

  lemma {:induction false} NumbersConcat(a: seq<Value>, b: seq<Value>)
    ensures Numbers(a + b) == Numbers(a) + Numbers(b)
  {
    if a == [] {
      assert a + b == b;
    } else {
      assert (a + b)[1..] == a[1..] + b && (a + b)[0] == a[0];
      NumbersConcat(a[1..], b);
    }
  }

  /** Every number is summed up once, wherever it stands, and nothing else. */
  lemma SumPieceByPiece(a: seq<Value>, v: Value, b: seq<Value>)
    ensures Sum(Numbers(a + [v] + b)) == Sum(Numbers(a + b)) + if v.Num? then v.n else 0.0
  {
    TakenOne(v);
    NumbersConcat(a + [v], b);
    NumbersConcat(a, [v]);
    NumbersConcat(a, b);
    SumConcat(Numbers(a) + Numbers([v]), Numbers(b));
    SumConcat(Numbers(a), Numbers([v]));
    SumConcat(Numbers(a), Numbers(b));
  }

  lemma TakenOne(v: Value)
    ensures Numbers([v]) == if v.Num? then [v.n] else []
    ensures Sum(Numbers([v])) == if v.Num? then v.n else 0.0
  {
    assert [v][1..] == [];
    if v.Num? { assert Numbers([v]) == [v.n] + [] && [v.n][1..] == []; }
  }

  lemma {:induction false} NullsAreNoNumbers(vs: seq<Value>)
    ensures Numbers(Present(vs)) == Numbers(vs)
  {
    if vs != [] {
      NullsAreNoNumbers(vs[1..]);
      var first: seq<Value> := if vs[0] == Null then [] else [vs[0]];
      NumbersConcat(first, Present(vs[1..]));
      TakenOne(vs[0]);
      assert vs[0] == Null ==> Numbers(first) == [];
    }
  }

  lemma {:induction false} PresentMeaning(vs: seq<Value>)
    ensures forall v :: v in Present(vs) <==> v in vs && v != Null
  {
    if vs != [] {
      PresentMeaning(vs[1..]);
      assert vs == [vs[0]] + vs[1..];
    }
  }

  ghost predicate Extreme(vs: seq<Value>, v: Value) {
    v in vs && v != Null
  }

  lemma ExtremesOfPresent(vs: seq<Value>)
    requires Scalars(vs) && Present(vs) != []
    ensures var (min, max) := (Least(Present(vs)), Greatest(Present(vs)));
            && Extreme(vs, min) && Extreme(vs, max)
            && forall v :: v in vs && v != Null ==> !Before(v, min) && !Before(max, v)
  {
    PresentMeaning(vs);
    var present := Present(vs);
    forall i | 0 <= i < |present| ensures !present[i].Obj? && !present[i].Arr? { assert present[i] in vs; }
    LeastIsFirst(present);
    GreatestIsLast(present);
  }

  lemma QuotientTimes(sum: real, n: real)
    requires n != 0.0
    ensures sum / n * n == sum
  {
  }

  /** A sum and a mean are those of the numbers; a mean of nothing is null. */
  lemma SumAndMean(vs: seq<Value>) returns (mean: real)
    ensures Aggregate("sum", vs) == Num(Sum(Numbers(vs)))
    ensures Aggregate("avg", vs) == if Numbers(vs) == [] then Null else Num(mean)
    ensures Numbers(vs) != [] ==> mean * |Numbers(vs)| as real == Sum(Numbers(vs))
  {
    NullsAreNoNumbers(vs);
    var ns := Numbers(vs);
    mean := 0.0;
    if ns != [] {
      mean := Sum(ns) / |ns| as real;
      QuotientTimes(Sum(ns), |ns| as real);
    }
  }

  /** The extremes are the first and the last, in their order, of the values that are not null; of
      nothing they are null. */
  lemma ExtremesMeaning(vs: seq<Value>)
    requires Scalars(vs)
    ensures var (min, max) := (Aggregate("min", vs), Aggregate("max", vs));
            if forall v :: v in vs ==> v == Null then min == max == Null
            else
              && Extreme(vs, min) && Extreme(vs, max)
              && forall v :: v in vs && v != Null ==> !Before(v, min) && !Before(max, v)
  {
    PresentMeaning(vs);
    if Present(vs) != [] {
      assert Present(vs)[0] in vs;
      ExtremesOfPresent(vs);
    }
  }

  /** A field reached through objects only. */
  function FieldAt(v: Value, path: Path): Option<Value>
    decreases |path|
  {
    if path == [] then Some(v)
    else if v.Obj? && path[0] in v.fields then FieldAt(v.fields[path[0]], path[1..])
    else None
  }

  function AggregateOf(agg: string, target: string, doc: Document): Value {
    if agg == "count" then
      match FieldAt(Obj(doc), Split(target))
      case Some(Arr(items)) => Num(|items| as real)
      case _ => Num(0.0)
    else Aggregate(agg, Collect(Obj(doc), Split(target)))
  }

  const COMPARISONS := {"==", "!=", ">", ">=", "<", "<="}

  predicate CompareHolds(op: string, a: Value, b: Value)
    requires op in COMPARISONS
  {
    if op == "==" then a == b
    else if op == "!=" then a != b
    else if op == ">" then Before(b, a)
    else if op == ">=" then Before(b, a) || a == b
    else if op == "<" then Before(a, b)
    else Before(a, b) || a == b
  }

  /** An element without an array under a name, or with null there. An element that is itself an array
      is searched instead. */
  predicate NoInnerArray(v: Value, key: string) {
    !v.Arr? && (v.Obj? && key in v.fields ==> v.fields[key] == Null)
  }

  predicate HasInnerArray(v: Value, key: string) {
    v.Arr? || (v.Obj? && key in v.fields && v.fields[key].Arr?)
  }

  /** In the array a target of three or more levels goes through, element n is the first without an
      inner array. */
  ghost predicate LacksInnerArray(target: string, doc: Document, n: nat) {
    var parts := Split(target);
    |parts| >= 3 &&
    match FieldAt(Obj(doc), parts[..|parts| - 2])
    case Some(Arr(items)) =>
      n < |items| && NoInnerArray(items[n], parts[|parts| - 2]) &&
      forall i :: 0 <= i < n ==> HasInnerArray(items[i], parts[|parts| - 2])
    case _ => false
  }

  ghost predicate Lossy(agg: string, target: string, doc: Document) {
    agg != "count" && exists n :: LacksInnerArray(target, doc, n)
  }

  /** Aggregates as a query means them, or as a pipeline takes them: there an element without the inner
      array makes the aggregate that of nothing. */
  datatype Reading = AsMeant | AsPiped

  ghost function ValueOf(agg: string, target: string, doc: Document, reading: Reading): Value {
    if reading.AsPiped? && Lossy(agg, target, doc) then Aggregate(agg, []) else AggregateOf(agg, target, doc)
  }

  // --------------------------------------------------------------------- queries

  datatype Query =
    | Leaf(variable: string, operator: string, value: Value)
    | Agg(agg: string, target: string, operator: string, value: Value)
    | Logic(logical: string, conditions: seq<Query>)
    | Blank

  /** The documents a query asks for. */
  ghost predicate Sat(q: Query, doc: Document, reading: Reading := AsMeant)
    decreases q, 1
  {
    match q
    case Leaf(variable, op, value) => ConditionHolds(op, value, Reached(doc, variable))
    case Agg(agg, target, op, value) => op in COMPARISONS && CompareHolds(op, ValueOf(agg, target, doc, reading), value)
    case Logic(op, qs) => if op == "AND" then SatAll(qs, doc, reading) else op == "OR" && SatSome(qs, doc, reading)
    case Blank => false
  }

  ghost predicate SatAll(qs: seq<Query>, doc: Document, reading: Reading := AsMeant)
    decreases qs, 0
  {
    qs == [] || (Sat(qs[0], doc, reading) && SatAll(qs[1..], doc, reading))
  }

  ghost predicate SatSome(qs: seq<Query>, doc: Document, reading: Reading := AsMeant)
    decreases qs, 0
  {
    qs != [] && (Sat(qs[0], doc, reading) || SatSome(qs[1..], doc, reading))
  }

  lemma {:induction false} SatAllMeaning(qs: seq<Query>, doc: Document, reading: Reading)
    ensures SatAll(qs, doc, reading) <==> forall i :: 0 <= i < |qs| ==> Sat(qs[i], doc, reading)
  {
    if qs != [] { SatAllMeaning(qs[1..], doc, reading); }
  }

  lemma {:induction false} SatSomeMeaning(qs: seq<Query>, doc: Document, reading: Reading)
    ensures SatSome(qs, doc, reading) <==> exists i :: 0 <= i < |qs| && Sat(qs[i], doc, reading)
  {
    if qs != [] {
      SatSomeMeaning(qs[1..], doc, reading);
      if i :| 0 <= i < |qs[1..]| && Sat(qs[1..][i], doc, reading) { assert Sat(qs[i + 1], doc, reading); }
      if i :| 0 <= i < |qs| && Sat(qs[i], doc, reading) { assert i > 0 ==> Sat(qs[1..][i - 1], doc, reading); }
    }
  }

  // --------------------------------------------------- translation of one condition

  datatype Error =
    | UnsupportedOperator(name: string)
    | UnsupportedLogical(name: string)
    | NotText
    | ShallowTarget
    | MissingKey
    | SplicedOperand

  datatype Result<+T> = Ok(value: T) | Err(error: Error)

  datatype FieldTest = Equals(v: Value) | Operator(name: string, v: Value) | Regex(pattern: string)

  /** `translate_simple_condition`, identical in both translators. */
  function TranslateSimple(op: string, value: Value): Result<FieldTest> {
    if op == "LIKE" then if value.Str? then Ok(Regex(LikeToRegex(value.s))) else Err(NotText)
    else if op == "==" then Ok(Equals(value))
    else if op == "!=" then Ok(Operator("$ne", value))
    else if op == "IN" then Ok(Operator("$in", value))
    else if op == "<" then Ok(Operator("$lt", value))
    else if op == "<=" then Ok(Operator("$lte", value))
    else if op == ">" then Ok(Operator("$gt", value))
    else if op == ">=" then Ok(Operator("$gte", value))
    else Err(UnsupportedOperator(op))
  }

  /** What the database makes of a field test. */
  ghost predicate TestHolds(t: FieldTest, cs: set<Option<Value>>) {
    match t
    case Equals(v) => exists c :: c in cs && Same(c, v)
    case Regex(p) => exists c :: c in cs && c.Some? && c.value.Str? && RegexSearch(p, c.value.s)
    case Operator(name, v) =>
      if name == "$ne" then !exists c :: c in cs && Same(c, v)
      else if name == "$in" then v.Arr? && exists c, w :: c in cs && w in v.items && Same(c, w)
      else if name == "$lt" then exists c :: c in cs && c.Some? && Less(c.value, v)
      else if name == "$lte" then exists c :: c in cs && c.Some? && AtMost(c.value, v)
      else if name == "$gt" then exists c :: c in cs && c.Some? && Less(v, c.value)
      else if name == "$gte" then exists c :: c in cs && c.Some? && AtMost(v, c.value)
      else false
  }

  /** LIKE patterns carry no other regular-expression metacharacter. */
  predicate PlainLike(op: string, value: Value) {
    op == "LIKE" && value.Str? ==> Plain(value.s)
  }

  /** A condition translates exactly when its operator is known (and LIKE has a text), and its
      translation then selects what the condition asks for. */
  lemma SimpleTranslationExact(op: string, value: Value, cs: set<Option<Value>>)
    ensures TranslateSimple(op, value).Ok? <==> op in OPERATORS && (op == "LIKE" ==> value.Str?)
    ensures TranslateSimple(op, value).Ok? && PlainLike(op, value) ==>
              (TestHolds(TranslateSimple(op, value).value, cs) <==> ConditionHolds(op, value, cs))
  {
    if op == "LIKE" && value.Str? && Plain(value.s) {
      forall c: string ensures RegexSearch(LikeToRegex(value.s), c) <==> Like(value.s, c) {
        LikeIsUnanchoredGlob(value.s, c);
      }
    }
  }
}
