/** The metrics search: queries with aggregates compiled to a database pipeline of `$set` and
    `$match` stages, and what running the pipeline on a document does. */
module QueryCompiler {
  import opened SearchQuery
  import opened Wrappers

  // ------------------------------------------------------------- the target language

  /** Where the elements of an aggregate come from: an array field, or the concatenation of the
      arrays `key` of the elements of an array field. */
  datatype Source = FieldArray(path: Path) | Concatenated(path: Path, key: string)

  datatype Computation = Size(path: Path) | Fold(agg: string, source: Source, field: string)

  /** Boolean expressions. `EqField` is the strict equality a plain match becomes beneath an OR;
      a comparison without an operator comes from an unknown one. */
  datatype Expr =
    | CompareField(op: Option<string>, field: string, literal: Value)
    | EqField(variable: string, test: FieldTest)
    | Or(exprs: seq<Expr>)

  datatype Match = FieldMatch(variable: string, test: FieldTest) | ExprMatch(expr: Expr)

  datatype Stage = Set(field: string, computation: Computation) | MatchStage(m: Match)

  // ------------------------------------------------------------------- the translator

  function DotToUnderscore(s: string): string {
    if s == [] then [] else [if s[0] == '.' then '_' else s[0]] + DotToUnderscore(s[1..])
  }

  const PREFIX := "_computed_"

  function ComputedName(agg: string, target: string): string {
    PREFIX + agg + "_" + DotToUnderscore(target)
  }

  // ------------------------------------------------------------ when names are equal

  const AGG_OPERATORS := AGGREGATES + {"count"}

  /** Texts that agree once dots are read as underscores. */
  predicate SameButDots(t: string, u: string) {
    |t| == |u| && forall i :: 0 <= i < |t| ==> t[i] == u[i] || (t[i] in "._" && u[i] in "._")
  }

  lemma {:induction false} DotAt(s: string, i: nat)
    requires i < |s|
    ensures |DotToUnderscore(s)| == |s| && DotToUnderscore(s)[i] == if s[i] == '.' then '_' else s[i]
  {
    if |s| > 1 { DotAt(s[1..], if i == 0 then 0 else i - 1); }
  }

  lemma DotsReadAlike(t: string, u: string)
    ensures DotToUnderscore(t) == DotToUnderscore(u) <==> SameButDots(t, u)
  {
    if |t| > 0 { DotAt(t, 0); }
    if |u| > 0 { DotAt(u, 0); }
    forall i | 0 <= i < |t| && |t| == |u|
      ensures DotToUnderscore(t)[i] == DotToUnderscore(u)[i] <==> t[i] == u[i] || (t[i] in "._" && u[i] in "._")
    {
      DotAt(t, i);
      DotAt(u, i);
    }
  }

  lemma SameOperator(a: string, x: string, b: string, y: string)
    requires a in AGG_OPERATORS && b in AGG_OPERATORS
    ensures PREFIX + a + "_" + x == PREFIX + b + "_" + y <==> a == b && x == y
  {
    var n, s, t := |PREFIX|, PREFIX + a + "_" + x, PREFIX + b + "_" + y;
    assert s[n..n + |a|] == a && s[n + |a|] == '_' && s[n + |a| + 1..] == x;
    assert t[n..n + |b|] == b && t[n + |b|] == '_' && t[n + |b| + 1..] == y;
  }

  /** Two aggregates get one computed field exactly if they have one operator and their targets agree
      once dots are read as underscores; with targets free of underscores, only if they are the same. */
  lemma NamesEqualIff(a: string, t: string, b: string, u: string)
    requires a in AGG_OPERATORS && b in AGG_OPERATORS
    ensures ComputedName(a, t) == ComputedName(b, u) <==> a == b && SameButDots(t, u)
    ensures '_' !in t && '_' !in u ==> (ComputedName(a, t) == ComputedName(b, u) <==> a == b && t == u)
  {
    SameOperator(a, DotToUnderscore(t), b, DotToUnderscore(u));
    DotsReadAlike(t, u);
    if '_' !in t && '_' !in u && SameButDots(t, u) {
      assert forall i :: 0 <= i < |t| ==> t[i] in t && u[i] in u && t[i] == u[i];
    }
  }

  // ------------------------------------------------------------------- stages

  function MongoOperator(op: string): Option<string> {
    if op == "==" then Some("$eq") else if op == "!=" then Some("$ne")
    else if op == ">" then Some("$gt") else if op == ">=" then Some("$gte")
    else if op == "<" then Some("$lt") else if op == "<=" then Some("$lte")
    else None
  }

  function ComputationOf(agg: string, target: string): Computation {
    var parts := Split(target);
    if agg == "count" || |parts| < 2 then Size(parts)
    else if |parts| >= 3 then
      Fold(agg, Concatenated(parts[..|parts| - 2], parts[|parts| - 2]), parts[|parts| - 1])
    else Fold(agg, FieldArray(parts[..1]), parts[1])
  }

  function AggregateStages(agg: string, target: string, op: string, value: Value): seq<Stage> {
    [Set(ComputedName(agg, target), ComputationOf(agg, target)),
     MatchStage(ExprMatch(CompareField(MongoOperator(op), ComputedName(agg, target), value)))]
  }

  function AsExpr(m: Match): Expr {
    match m
    case ExprMatch(e) => e
    case FieldMatch(variable, test) => EqField(variable, test)
  }

  function SetsOf(stages: seq<Stage>): seq<Stage> {
    if stages == [] then []
    else SetsOf(stages[..|stages| - 1]) + if stages[|stages| - 1].Set? then [stages[|stages| - 1]] else []
  }

  /** The expression of the last match of a branch, the only one an OR keeps. */
  function LastExpr(stages: seq<Stage>): Option<Expr> {
    if stages == [] then None
    else if stages[|stages| - 1].MatchStage? then Some(AsExpr(stages[|stages| - 1].m))
    else LastExpr(stages[..|stages| - 1])
  }

  /** The first error met by the translation, if any. */
  function TranslationError(q: Query): Option<Error>
    decreases q, 1
  {
    match q
    case Leaf(_, op, value) => (match TranslateSimple(op, value) case Ok(_) => None case Err(e) => Some(e))
    case Agg(agg, target, _, _) => if agg != "count" && |Split(target)| < 2 then Some(ShallowTarget) else None
    case Logic(op, qs) => if op in {"AND", "OR"} then FirstError(qs) else Some(UnsupportedLogical(op))
    case Blank => Some(MissingKey)
  }

  function FirstError(qs: seq<Query>): Option<Error>
    decreases qs, 0
  {
    if qs == [] then None
    else match FirstError(qs[..|qs| - 1])
      case Some(e) => Some(e)
      case None => TranslationError(qs[|qs| - 1])
  }

  /** The pipeline of a query that translates without error. */
  function Stages(q: Query): seq<Stage>
    requires TranslationError(q) == None
    decreases q, 1
  {
    match q
    case Leaf(variable, op, value) => [MatchStage(FieldMatch(variable, TranslateSimple(op, value).value))]
    case Agg(agg, target, op, value) => AggregateStages(agg, target, op, value)
    case Logic(op, qs) =>
      if op == "AND" then AllStages(qs)
      else AllSets(qs) + [MatchStage(ExprMatch(Or(AllExprs(qs))))]
  }

  function AllStages(qs: seq<Query>): seq<Stage>
    requires FirstError(qs) == None
    decreases qs, 0
  {
    if qs == [] then [] else AllStages(qs[..|qs| - 1]) + Stages(qs[|qs| - 1])
  }

  function AllSets(qs: seq<Query>): seq<Stage>
    requires FirstError(qs) == None
    decreases qs, 0
  {
    if qs == [] then [] else AllSets(qs[..|qs| - 1]) + SetsOf(Stages(qs[|qs| - 1]))
  }

  function AllExprs(qs: seq<Query>): seq<Expr>
    requires FirstError(qs) == None
    decreases qs, 0
  {
    if qs == [] then []
    else
      AllExprs(qs[..|qs| - 1]) +
      match LastExpr(Stages(qs[|qs| - 1])) case Some(e) => [e] case None => []
  }

  lemma {:induction false} ErrorOfPrefix(qs: seq<Query>, n: nat)
    requires n <= |qs|
    ensures FirstError(qs[..n]).Some? ==> FirstError(qs) == FirstError(qs[..n])
    decreases |qs| - n
  {
    if n == |qs| {
      assert qs[..n] == qs;
    } else {
      assert qs[..n + 1][..n] == qs[..n];
      ErrorOfPrefix(qs, n + 1);
    }
  }

  /** The inner loop of the OR case: sets are collected, and each match overwrites the branch's
      expression. */
  method SplitBranch(stages: seq<Stage>) returns (sets: seq<Stage>, expr: Option<Expr>)
    ensures sets == SetsOf(stages) && expr == LastExpr(stages)
  {
    sets, expr := [], None;
    for i := 0 to |stages|
      invariant sets == SetsOf(stages[..i]) && expr == LastExpr(stages[..i])
    {
      assert stages[..i + 1][..i] == stages[..i];
      match stages[i]
      case Set(_, _) => sets := sets + [stages[i]];
      case MatchStage(m) => expr := Some(AsExpr(m));
    }
    assert stages[..|stages|] == stages;
  }

  /** `query_translator`. */
  method Translate(q: Query) returns (r: Result<seq<Stage>>)
    ensures r == match TranslationError(q) case Some(e) => Err(e) case None => Ok(Stages(q))
    decreases q
  {
    match q
    case Leaf(variable, op, value) =>
      match TranslateSimple(op, value) {
        case Ok(t) => r := Ok([MatchStage(FieldMatch(variable, t))]);
        case Err(e) => r := Err(e);
      }
    case Agg(agg, target, op, value) =>
      if agg != "count" && |Split(target)| < 2 {
        r := Err(ShallowTarget);
      } else {
        r := Ok(AggregateStages(agg, target, op, value));
      }
    case Logic(op, qs) =>
      if op == "AND" {
        r := TranslateAnd(qs);
      } else if op == "OR" {
        r := TranslateOr(qs);
      } else {
        r := Err(UnsupportedLogical(op));
      }
    case Blank =>
      r := Err(MissingKey);
  }

  method TranslateAnd(qs: seq<Query>) returns (r: Result<seq<Stage>>)
    ensures r == match FirstError(qs) case Some(e) => Err(e) case None => Ok(AllStages(qs))
    decreases qs
  {
    var combined: seq<Stage> := [];
    for i := 0 to |qs|
      invariant FirstError(qs[..i]) == None && combined == AllStages(qs[..i])
    {
      assert qs[..i + 1][..i] == qs[..i];
      var translated := Translate(qs[i]);
      if translated.Err? {
        ErrorOfPrefix(qs, i + 1);
        return Err(translated.error);
      }
      combined := combined + translated.value;
    }
    assert qs[..|qs|] == qs;
    r := Ok(combined);
  }

  method TranslateOr(qs: seq<Query>) returns (r: Result<seq<Stage>>)
    ensures r == match FirstError(qs) case Some(e) => Err(e)
                 case None => Ok(AllSets(qs) + [MatchStage(ExprMatch(Or(AllExprs(qs))))])
    decreases qs
  {
    var allSets: seq<Stage>, orExprs: seq<Expr> := [], [];
    for i := 0 to |qs|
      invariant FirstError(qs[..i]) == None && allSets == AllSets(qs[..i]) && orExprs == AllExprs(qs[..i])
    {
      assert qs[..i + 1][..i] == qs[..i];
      var translated := Translate(qs[i]);
      if translated.Err? {
        ErrorOfPrefix(qs, i + 1);
        return Err(translated.error);
      }
      var sets, expr := SplitBranch(translated.value);
      allSets := allSets + sets;
      if expr.Some? {
        orExprs := orExprs + [expr.value];
      }
    }
    assert qs[..|qs|] == qs;
    r := Ok(allSets + [MatchStage(ExprMatch(Or(orExprs)))]);
  }
}
