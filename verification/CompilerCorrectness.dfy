/** Correctness of the metrics query compiler: which documents a compiled pipeline keeps. */
module CompilerCorrectness {
  import opened SearchQuery
  import opened QueryCompiler
  import opened PipelineMeaning
  import opened Wrappers

  // --------------------------------------------- the query a pipeline really decides

  /** An OR keeps only the last match of each branch: beneath an OR, a conjunction is relaxed to
      its last conjunct, and a branch without a match disappears. */
  function Relaxed(q: Query): Query
    decreases q, 1
  {
    match q
    case Logic(op, qs) => Logic(op, if op == "AND" then RelaxedAll(qs) else Branches(qs))
    case _ => q
  }

  function RelaxedAll(qs: seq<Query>): seq<Query>
    decreases qs, 0
  {
    if qs == [] then [] else RelaxedAll(qs[..|qs| - 1]) + [Relaxed(qs[|qs| - 1])]
  }

  function Branches(qs: seq<Query>): seq<Query>
    decreases qs, 0
  {
    if qs == [] then []
    else Branches(qs[..|qs| - 1]) + match LastMatch(qs[|qs| - 1]) case Some(b) => [b] case None => []
  }

  /** What the last match of a branch decides. */
  function LastMatch(q: Query): Option<Query>
    decreases q, 2
  {
    match q
    case Logic(op, qs) => if op == "AND" then LastOfAll(qs) else Some(Relaxed(q))
    case Blank => None
    case _ => Some(q)
  }

  function LastOfAll(qs: seq<Query>): Option<Query>
    decreases qs, 0
  {
    if qs == [] then None
    else match LastMatch(qs[|qs| - 1]) case Some(b) => Some(b) case None => LastOfAll(qs[..|qs| - 1])
  }

  // ------------------------------------------------------- shape of compiled stages

  ghost function SetStages(aggs: seq<(string, string)>): seq<Stage> {
    seq(|aggs|, i requires 0 <= i < |aggs| =>
        Set(ComputedName(aggs[i].0, aggs[i].1), ComputationOf(aggs[i].0, aggs[i].1)))
  }

  lemma {:induction false} SetsConcat(a: seq<Stage>, b: seq<Stage>)
    ensures SetsOf(a + b) == SetsOf(a) + SetsOf(b)
    ensures LastExpr(a + b) == if LastExpr(b).Some? then LastExpr(b) else LastExpr(a)
  {
    if b == [] {
      assert a + b == a;
    } else {
      assert (a + b)[..|a + b| - 1] == a + b[..|b| - 1];
      SetsConcat(a, b[..|b| - 1]);
    }
  }

  lemma SetStagesConcat(a: seq<(string, string)>, b: seq<(string, string)>)
    ensures SetStages(a + b) == SetStages(a) + SetStages(b)
  {}

  lemma {:induction false} SetsOfSets(sets: seq<Stage>)
    requires forall i :: 0 <= i < |sets| ==> sets[i].Set?
    ensures SetsOf(sets) == sets && LastExpr(sets) == None
  {
    if sets != [] { SetsOfSets(sets[..|sets| - 1]); }
  }

  lemma {:induction false} OneMatch(m: Match)
    ensures SetsOf([MatchStage(m)]) == [] && LastExpr([MatchStage(m)]) == Some(AsExpr(m))
  {
    assert [MatchStage(m)][..0] == [];
  }

  lemma SetOfAggregate(agg: string, target: string, op: string, value: Value)
    ensures SetsOf(AggregateStages(agg, target, op, value)) == SetStages([(agg, target)])
  {
    var stages := AggregateStages(agg, target, op, value);
    assert stages == [stages[0]] + [stages[1]];
    SetsConcat([stages[0]], [stages[1]]);
    SetsOfSets([stages[0]]);
    OneMatch(stages[1].m);
    assert SetStages([(agg, target)]) == [stages[0]];
  }

  /** The `$set` stages of a compiled query are those of its aggregates, in order. */
  lemma {:induction false} SetsAreAggregates(q: Query)
    requires TranslationError(q) == None
    ensures SetsOf(Stages(q)) == SetStages(AggregatesIn(q))
    decreases q, 1
  {
    match q
    case Leaf(variable, op, value) => OneMatch(FieldMatch(variable, TranslateSimple(op, value).value));
    case Agg(agg, target, op, value) => SetOfAggregate(agg, target, op, value);
    case Logic(op, qs) =>
      SetsAreAggregatesAll(qs);
      if op == "OR" {
        OneMatch(ExprMatch(Or(AllExprs(qs))));
        SetsConcat(AllSets(qs), [MatchStage(ExprMatch(Or(AllExprs(qs))))]);
        SetsOfSets(AllSets(qs));
      }
  }

  lemma {:induction false} SetsAreAggregatesAll(qs: seq<Query>)
    requires FirstError(qs) == None
    ensures AllSets(qs) == SetStages(AggregatesInAll(qs)) == SetsOf(AllStages(qs))
    decreases qs, 0
  {
    if qs != [] {
      var front, last := qs[..|qs| - 1], qs[|qs| - 1];
      SetsAreAggregatesAll(front);
      SetsAreAggregates(last);
      SetStagesConcat(AggregatesInAll(front), AggregatesIn(last));
      SetsConcat(AllStages(front), Stages(last));
    }
  }

  // ----------------------------------------------------- computed fields in a document

  ghost predicate HasComputed(d: Document, aggs: seq<(string, string)>, doc: Document) {
    forall x :: x in aggs ==>
      ComputedName(x.0, x.1) in d && d[ComputedName(x.0, x.1)] == ValueOf(x.0, x.1, doc, AsPiped)
  }

  ghost predicate SupportedAggs(aggs: seq<(string, string)>, doc: Document) {
    forall x :: x in aggs ==> SupportedAgg(x.0, x.1, doc)
  }

  lemma {:induction false} SupportedAggregates(q: Query, underOr: bool, doc: Document)
    requires Supported(q, underOr, doc)
    ensures SupportedAggs(AggregatesIn(q), doc)
    decreases q, 1
  {
    if q.Logic? {
      SupportedAggregatesAll(q.conditions, underOr || q.logical == "OR", doc);
    }
  }

  lemma {:induction false} SupportedAggregatesAll(qs: seq<Query>, underOr: bool, doc: Document)
    requires AllSupported(qs, underOr, doc)
    ensures SupportedAggs(AggregatesInAll(qs), doc)
    decreases qs, 0
  {
    if qs != [] {
      SupportedAggregatesAll(qs[..|qs| - 1], underOr, doc);
      SupportedAggregates(qs[|qs| - 1], underOr, doc);
    }
  }

  lemma NameIsComputed(agg: string, target: string)
    ensures PREFIX <= ComputedName(agg, target)
  {}

  lemma SetAgrees(d: Document, doc: Document, agg: string, target: string, v: Value)
    requires Agrees(d, doc)
    ensures Agrees(d[ComputedName(agg, target) := v], doc)
  {
    NameIsComputed(agg, target);
  }

  /** The last aggregate of a list with the computed name of x: the one whose value its field keeps. */
  ghost function Winner(aggs: seq<(string, string)>, x: (string, string)): (string, string) {
    if aggs == [] then x
    else
      var last := aggs[|aggs| - 1];
      if ComputedName(last.0, last.1) == ComputedName(x.0, x.1) then last else Winner(aggs[..|aggs| - 1], x)
  }

  lemma {:induction false} WinnerIsListed(aggs: seq<(string, string)>, x: (string, string))
    requires x in aggs
    ensures Winner(aggs, x) in aggs
    ensures ComputedName(Winner(aggs, x).0, Winner(aggs, x).1) == ComputedName(x.0, x.1)
    ensures Winner(aggs, Winner(aggs, x)) == Winner(aggs, x)
  {
    var last := aggs[|aggs| - 1];
    if ComputedName(last.0, last.1) != ComputedName(x.0, x.1) { WinnerIsListed(aggs[..|aggs| - 1], x); }
  }

  lemma DistinctIsWinner(aggs: seq<(string, string)>, x: (string, string))
    requires x in aggs && DistinctNames(aggs)
    ensures Winner(aggs, x) == x
  {
    WinnerIsListed(aggs, x);
  }

  /** Every field of the listed aggregates holds the value of the last one that has its name. */
  ghost predicate HoldsWinners(d: Document, aggs: seq<(string, string)>, doc: Document) {
    forall x :: x in aggs ==>
      ComputedName(x.0, x.1) in d &&
      d[ComputedName(x.0, x.1)] == ValueOf(Winner(aggs, x).0, Winner(aggs, x).1, doc, AsPiped)
  }

  lemma OneMoreSet(aggs: seq<(string, string)>, d: Document, doc: Document)
    requires aggs != [] && HoldsWinners(d, aggs[..|aggs| - 1], doc)
    ensures var last := aggs[|aggs| - 1];
            HoldsWinners(d[ComputedName(last.0, last.1) := ValueOf(last.0, last.1, doc, AsPiped)], aggs, doc)
  {
    var front, last := aggs[..|aggs| - 1], aggs[|aggs| - 1];
    assert forall x :: x in aggs ==> x in front || x == last;
  }

  /** Running the hoisted sets of an OR computes every aggregate, later ones overwriting earlier ones
      of the same name, and touches nothing else. */
  lemma {:induction false} RunSets(aggs: seq<(string, string)>, d: Document, doc: Document)
    requires Agrees(d, doc) && SupportedAggs(aggs, doc)
    ensures Run(SetStages(aggs), d).Kept?
    ensures Agrees(Run(SetStages(aggs), d).doc, doc) && HoldsWinners(Run(SetStages(aggs), d).doc, aggs, doc)
  {
    if aggs != [] {
      var front, last := aggs[..|aggs| - 1], aggs[|aggs| - 1];
      RunSets(front, d, doc);
      assert SetStages(aggs)[..|aggs| - 1] == SetStages(front);
      var d' := Run(SetStages(front), d).doc;
      ComputationExact(last.0, last.1, d', doc);
      SetAgrees(d', doc, last.0, last.1, ValueOf(last.0, last.1, doc, AsPiped));
      OneMoreSet(aggs, d', doc);
    }
  }

  // ----------------------------------------------------- what colliding names make of a query

  /** Every aggregate replaced by the one that overwrites its computed field. */
  ghost function Overwritten(q: Query, aggs: seq<(string, string)>): Query
    decreases q, 1
  {
    match q
    case Agg(agg, target, op, value) => Agg(Winner(aggs, (agg, target)).0, Winner(aggs, (agg, target)).1, op, value)
    case Logic(op, qs) => Logic(op, OverwrittenAll(qs, aggs))
    case _ => q
  }

  ghost function OverwrittenAll(qs: seq<Query>, aggs: seq<(string, string)>): seq<Query>
    decreases qs, 0
  {
    if qs == [] then [] else OverwrittenAll(qs[..|qs| - 1], aggs) + [Overwritten(qs[|qs| - 1], aggs)]
  }

  /** The query with the aggregates of each outermost OR overwritten by one another. */
  ghost function Shadowed(q: Query): Query
    decreases q, 1
  {
    match q
    case Logic(op, qs) =>
      Logic(op, if op == "OR" then OverwrittenAll(qs, AggregatesInAll(qs)) else ShadowedAll(qs))
    case _ => q
  }

  ghost function ShadowedAll(qs: seq<Query>): seq<Query>
    decreases qs, 0
  {
    if qs == [] then [] else ShadowedAll(qs[..|qs| - 1]) + [Shadowed(qs[|qs| - 1])]
  }

  ghost predicate Listed(some: seq<(string, string)>, aggs: seq<(string, string)>) {
    forall x :: x in some ==> x in aggs
  }

  ghost predicate Deep(aggs: seq<(string, string)>) {
    forall x :: x in aggs ==> x.0 == "count" || |Split(x.1)| >= 2
  }

  lemma {:induction false} AggregatesAreDeep(q: Query)
    requires TranslationError(q) == None
    ensures Deep(AggregatesIn(q))
    decreases q, 1
  {
    if q.Logic? { AllAggregatesAreDeep(q.conditions); }
  }

  lemma {:induction false} AllAggregatesAreDeep(qs: seq<Query>)
    requires FirstError(qs) == None
    ensures Deep(AggregatesInAll(qs))
    decreases qs, 0
  {
    if qs != [] {
      AllAggregatesAreDeep(qs[..|qs| - 1]);
      AggregatesAreDeep(qs[|qs| - 1]);
    }
  }

  lemma AggregateLast(agg: string, target: string, op: string, value: Value)
    requires agg == "count" || |Split(target)| >= 2
    ensures var q := Agg(agg, target, op, value);
            && TranslationError(q) == None
            && LastExpr(Stages(q)) == Some(CompareField(MongoOperator(op), ComputedName(agg, target), value))
  {
    var stages := AggregateStages(agg, target, op, value);
    var compared := CompareField(MongoOperator(op), ComputedName(agg, target), value);
    assert stages[|stages| - 1] == MatchStage(ExprMatch(compared));
  }

  /** Overwriting changes neither whether a query translates nor the expressions it contributes. */
  lemma {:induction false} SameExpressions(q: Query, aggs: seq<(string, string)>)
    requires TranslationError(q) == None && Listed(AggregatesIn(q), aggs) && Deep(aggs)
    ensures TranslationError(Overwritten(q, aggs)) == None
    ensures LastExpr(Stages(Overwritten(q, aggs))) == LastExpr(Stages(q))
    decreases q, 1
  {
    match q
    case Agg(agg, target, op, value) =>
      assert (agg, target) in AggregatesIn(q);
      WinnerIsListed(aggs, (agg, target));
      AggregateLast(agg, target, op, value);
      var w := Winner(aggs, (agg, target));
      AggregateLast(w.0, w.1, op, value);
    case Logic(op, qs) =>
      SameExpressionsAll(qs, aggs);
      if op == "OR" {
        OrLast(qs);
        OrLast(OverwrittenAll(qs, aggs));
      }
    case _ =>
  }

  lemma OrLast(qs: seq<Query>)
    requires FirstError(qs) == None
    ensures LastExpr(Stages(Logic("OR", qs))) == Some(Or(AllExprs(qs)))
  {
    var m := ExprMatch(Or(AllExprs(qs)));
    OneMatch(m);
    SetsConcat(AllSets(qs), [MatchStage(m)]);
  }

  lemma {:induction false} SameExpressionsAll(qs: seq<Query>, aggs: seq<(string, string)>)
    requires FirstError(qs) == None && Listed(AggregatesInAll(qs), aggs) && Deep(aggs)
    ensures FirstError(OverwrittenAll(qs, aggs)) == None
    ensures LastExpr(AllStages(OverwrittenAll(qs, aggs))) == LastExpr(AllStages(qs))
    ensures AllExprs(OverwrittenAll(qs, aggs)) == AllExprs(qs)
    decreases qs, 0
  {
    if qs != [] {
      var front, last := qs[..|qs| - 1], qs[|qs| - 1];
      SameExpressionsAll(front, aggs);
      SameExpressions(last, aggs);
      var front', last' := OverwrittenAll(front, aggs), Overwritten(last, aggs);
      assert OverwrittenAll(qs, aggs)[..|front'|] == front';
      SetsConcat(AllStages(front), Stages(last));
      SetsConcat(AllStages(front'), Stages(last'));
    }
  }

  lemma {:induction false} OverwrittenAt(qs: seq<Query>, aggs: seq<(string, string)>)
    ensures |OverwrittenAll(qs, aggs)| == |qs|
    ensures forall i :: 0 <= i < |qs| ==> OverwrittenAll(qs, aggs)[i] == Overwritten(qs[i], aggs)
  {
    if qs != [] { OverwrittenAt(qs[..|qs| - 1], aggs); }
  }

  lemma {:induction false} ListedAt(qs: seq<Query>, i: nat)
    requires i < |qs|
    ensures Listed(AggregatesIn(qs[i]), AggregatesInAll(qs))
  {
    if i < |qs| - 1 { ListedAt(qs[..|qs| - 1], i); }
  }

  lemma {:induction false} OverwrittenSupported(q: Query, underOr: bool, aggs: seq<(string, string)>, doc: Document)
    requires Supported(q, underOr, doc) && Listed(AggregatesIn(q), aggs) && SupportedAggs(aggs, doc)
    ensures Supported(Overwritten(q, aggs), underOr, doc)
  {
    match q
    case Agg(agg, target, op, value) =>
      assert (agg, target) in AggregatesIn(q);
      WinnerIsListed(aggs, (agg, target));
    case Logic(op, qs) =>
      OverwrittenAt(qs, aggs);
      forall i | 0 <= i < |qs| ensures Supported(Overwritten(qs[i], aggs), underOr || op == "OR", doc) {
        ListedAt(qs, i);
        OverwrittenSupported(qs[i], underOr || op == "OR", aggs, doc);
      }
    case _ =>
  }

  ghost predicate Winners(some: seq<(string, string)>, aggs: seq<(string, string)>) {
    forall x :: x in some ==> x in aggs && Winner(aggs, x) == x
  }

  lemma {:induction false} OverwrittenAggregates(q: Query, aggs: seq<(string, string)>)
    requires Listed(AggregatesIn(q), aggs)
    ensures Winners(AggregatesIn(Overwritten(q, aggs)), aggs)
    decreases q, 1
  {
    match q
    case Agg(agg, target, op, value) =>
      assert (agg, target) in AggregatesIn(q);
      WinnerIsListed(aggs, (agg, target));
    case Logic(op, qs) => OverwrittenAllAggregates(qs, aggs);
    case _ =>
  }

  lemma {:induction false} OverwrittenAllAggregates(qs: seq<Query>, aggs: seq<(string, string)>)
    requires Listed(AggregatesInAll(qs), aggs)
    ensures Winners(AggregatesInAll(OverwrittenAll(qs, aggs)), aggs)
    decreases qs, 0
  {
    if qs != [] {
      var front', last' := OverwrittenAll(qs[..|qs| - 1], aggs), Overwritten(qs[|qs| - 1], aggs);
      OverwrittenAllAggregates(qs[..|qs| - 1], aggs);
      OverwrittenAggregates(qs[|qs| - 1], aggs);
      assert OverwrittenAll(qs, aggs)[..|front'|] == front';
      assert AggregatesInAll(OverwrittenAll(qs, aggs)) == AggregatesInAll(front') + AggregatesIn(last');
    }
  }

  /** With distinct names nothing is overwritten. */
  lemma {:induction false} NothingOverwritten(q: Query, aggs: seq<(string, string)>)
    requires Listed(AggregatesIn(q), aggs) && DistinctNames(aggs)
    ensures Overwritten(q, aggs) == q
    decreases q, 1
  {
    match q
    case Agg(agg, target, op, value) =>
      assert (agg, target) in AggregatesIn(q);
      DistinctIsWinner(aggs, (agg, target));
    case Logic(op, qs) => NothingOverwrittenAll(qs, aggs);
    case _ =>
  }

  lemma {:induction false} NothingOverwrittenAll(qs: seq<Query>, aggs: seq<(string, string)>)
    requires Listed(AggregatesInAll(qs), aggs) && DistinctNames(aggs)
    ensures OverwrittenAll(qs, aggs) == qs
    decreases qs, 0
  {
    if qs != [] {
      NothingOverwrittenAll(qs[..|qs| - 1], aggs);
      NothingOverwritten(qs[|qs| - 1], aggs);
    }
  }

  lemma {:induction false} NothingShadowed(q: Query)
    requires OrNamesDistinct(q)
    ensures Shadowed(q) == q
    decreases q, 1
  {
    if q.Logic? {
      if q.logical == "OR" {
        NothingOverwrittenAll(q.conditions, AggregatesInAll(q.conditions));
      } else {
        NothingShadowedAll(q.conditions);
      }
    }
  }

  lemma {:induction false} NothingShadowedAll(qs: seq<Query>)
    requires forall i :: 0 <= i < |qs| ==> OrNamesDistinct(qs[i])
    ensures ShadowedAll(qs) == qs
    decreases qs, 0
  {
    if qs != [] {
      var front, last := qs[..|qs| - 1], qs[|qs| - 1];
      assert forall i :: 0 <= i < |front| ==> front[i] == qs[i];
      NothingShadowedAll(front);
      NothingShadowed(last);
      assert qs == front + [last];
    }
  }

  // ----------------------------------------------------------- the match of a branch

  lemma AggregateCompared(op: string, a: Value, literal: Value, field: string, d: Document)
    requires op in COMPARISONS && Constant(literal) && field in d && d[field] == a
    ensures ExprValue(CompareField(MongoOperator(op), field, literal), d) == Some(CompareHolds(op, a, literal))
  {}

  lemma EqualityStrict(variable: string, v: Value, d: Document, doc: Document)
    requires Agrees(d, doc) && !Reserved(variable) && Constant(v) && v != Null && ScalarField(doc, variable)
    ensures ExprValue(EqField(variable, Equals(v)), d) == Some(ConditionHolds("==", v, Reached(doc, variable)))
  {
    var path := Split(variable);
    ResolveAgrees(d, doc, path);
    ResolveThroughObjects(Obj(doc), path);
    ReachedScalar(Obj(doc), path);
    assert Operand(v, d) == Some(v);
    assert FieldAt(Obj(doc), path) in Reached(doc, variable);
  }

  ghost predicate Decides(e: Option<Expr>, q: Option<Query>, d: Document, doc: Document) {
    match (e, q)
    case (None, None) => true
    case (Some(e'), Some(q')) => ExprValue(e', d) == Some(Sat(q', doc, AsPiped))
    case _ => false
  }

  /** Beneath an OR, the last match of a branch decides the branch's relaxed query. */
  lemma {:induction false} BranchDecides(q: Query, d: Document, doc: Document)
    requires TranslationError(q) == None && Supported(q, true, doc)
    requires Agrees(d, doc) && HasComputed(d, AggregatesIn(q), doc)
    ensures Decides(LastExpr(Stages(q)), LastMatch(q), d, doc)
    decreases q, 1
  {
    match q
    case Leaf(variable, op, value) =>
      OneMatch(FieldMatch(variable, TranslateSimple(op, value).value));
      EqualityStrict(variable, value, d, doc);
    case Agg(agg, target, op, value) =>
      assert (agg, target) in AggregatesIn(q);
      AggregateCompared(op, ValueOf(agg, target, doc, AsPiped), value, ComputedName(agg, target), d);
    case Logic(op, qs) =>
      if op == "AND" {
        LastDecides(qs, d, doc);
      } else {
        BranchesDecide(qs, d, doc);
        OneMatch(ExprMatch(Or(AllExprs(qs))));
        SetsConcat(AllSets(qs), [MatchStage(ExprMatch(Or(AllExprs(qs))))]);
      }
  }

  lemma HasComputedParts(d: Document, qs: seq<Query>, doc: Document)
    requires qs != [] && HasComputed(d, AggregatesInAll(qs), doc)
    ensures HasComputed(d, AggregatesInAll(qs[..|qs| - 1]), doc) && HasComputed(d, AggregatesIn(qs[|qs| - 1]), doc)
  {}

  lemma {:induction false} LastDecides(qs: seq<Query>, d: Document, doc: Document)
    requires FirstError(qs) == None && AllSupported(qs, true, doc)
    requires Agrees(d, doc) && HasComputed(d, AggregatesInAll(qs), doc)
    ensures Decides(LastExpr(AllStages(qs)), LastOfAll(qs), d, doc)
    decreases qs, 0
  {
    if qs != [] {
      var front, last := qs[..|qs| - 1], qs[|qs| - 1];
      HasComputedParts(d, qs, doc);
      LastDecides(front, d, doc);
      BranchDecides(last, d, doc);
      SetsConcat(AllStages(front), Stages(last));
    }
  }

  lemma SatSomeSnoc(qs: seq<Query>, q: Query, doc: Document, reading: Reading)
    ensures SatSome(qs + [q], doc, reading) <==> SatSome(qs, doc, reading) || Sat(q, doc, reading)
  {
    SatSomeMeaning(qs, doc, reading);
    SatSomeMeaning(qs + [q], doc, reading);
    assert (qs + [q])[|qs|] == q;
    assert forall i :: 0 <= i < |qs| ==> (qs + [q])[i] == qs[i];
  }

  lemma SatAllSnoc(qs: seq<Query>, q: Query, doc: Document, reading: Reading)
    ensures SatAll(qs + [q], doc, reading) <==> SatAll(qs, doc, reading) && Sat(q, doc, reading)
  {
    SatAllMeaning(qs, doc, reading);
    SatAllMeaning(qs + [q], doc, reading);
    assert (qs + [q])[|qs|] == q;
    assert forall i :: 0 <= i < |qs| ==> (qs + [q])[i] == qs[i];
  }

  lemma SomeTrueSnoc(es: seq<Expr>, e: Expr, d: Document)
    ensures SomeTrue(es + [e], d) ==
            match (SomeTrue(es, d), ExprValue(e, d))
            case (Some(a), Some(b)) => Some(a || b)
            case _ => None
  {
    assert (es + [e])[..|es + [e]| - 1] == es;
  }

  lemma {:induction false} BranchesDecide(qs: seq<Query>, d: Document, doc: Document)
    requires FirstError(qs) == None && AllSupported(qs, true, doc)
    requires Agrees(d, doc) && HasComputed(d, AggregatesInAll(qs), doc)
    ensures SomeTrue(AllExprs(qs), d) == Some(SatSome(Branches(qs), doc, AsPiped))
    decreases qs, 0
  {
    if qs != [] {
      var front, last := qs[..|qs| - 1], qs[|qs| - 1];
      HasComputedParts(d, qs, doc);
      BranchesDecide(front, d, doc);
      BranchDecides(last, d, doc);
      if LastMatch(last).Some? {
        SatSomeSnoc(Branches(front), LastMatch(last).value, doc, AsPiped);
        SomeTrueSnoc(AllExprs(front), LastExpr(Stages(last)).value, d);
      } else {
        assert AllExprs(qs) == AllExprs(front) && Branches(qs) == Branches(front);
      }
    }
  }

  // -------------------------------------------------------------- the main theorem

  /** Keeps the document, original fields intact, if `holds`, and drops it otherwise. */
  ghost predicate Verdicts(v: Verdict, holds: bool, doc: Document) {
    match v
    case Kept(d) => holds && Agrees(d, doc)
    case Dropped => !holds
    case Refused => false
  }

  lemma RunOne(stage: Stage, d: Document)
    ensures Run([stage], d) == RunStage(stage, d)
  {
    assert [stage][..0] == [];
  }

  lemma AggregateDecides(agg: string, target: string, op: string, value: Value, d: Document, doc: Document)
    requires op in COMPARISONS && Constant(value) && SupportedAgg(agg, target, doc) && Agrees(d, doc)
    ensures Verdicts(Run(AggregateStages(agg, target, op, value), d),
                     CompareHolds(op, ValueOf(agg, target, doc, AsPiped), value), doc)
  {
    var stages := AggregateStages(agg, target, op, value);
    var v := ValueOf(agg, target, doc, AsPiped);
    var d' := d[ComputedName(agg, target) := v];
    ComputationExact(agg, target, d, doc);
    SetAgrees(d, doc, agg, target, v);
    AggregateCompared(op, v, value, ComputedName(agg, target), d');
    assert stages == [stages[0]] + [stages[1]];
    RunConcat([stages[0]], [stages[1]], d);
    RunOne(stages[0], d);
    RunOne(stages[1], d');
  }

  /** The compiled pipeline never fails, never changes an original field, and keeps exactly the
      documents that satisfy the relaxed form of the query with its colliding aggregates overwritten. */
  lemma {:induction false} PipelineDecides(q: Query, d: Document, doc: Document)
    requires TranslationError(q) == None && Supported(q, false, doc) && Agrees(d, doc)
    ensures Verdicts(Run(Stages(q), d), Sat(Relaxed(Shadowed(q)), doc, AsPiped), doc)
    decreases q, 1
  {
    match q
    case Leaf(variable, op, value) =>
      ReachedAgrees(d, doc, variable);
      SimpleTranslationExact(op, value, Reached(doc, variable));
      RunOne(Stages(q)[0], d);
    case Agg(agg, target, op, value) =>
      AggregateDecides(agg, target, op, value, d, doc);
    case Logic(op, qs) =>
      if op == "AND" {
        AndDecides(qs, d, doc);
      } else {
        OrDecides(qs, d, doc);
      }
  }

  lemma {:induction false} AndDecides(qs: seq<Query>, d: Document, doc: Document)
    requires FirstError(qs) == None && AllSupported(qs, false, doc)
    requires Agrees(d, doc)
    ensures Verdicts(Run(AllStages(qs), d), SatAll(RelaxedAll(ShadowedAll(qs)), doc, AsPiped), doc)
    decreases qs, 0
  {
    if qs != [] {
      var front, last := qs[..|qs| - 1], qs[|qs| - 1];
      AndDecides(front, d, doc);
      RunConcat(AllStages(front), Stages(last), d);
      RelaxedAllSnoc(ShadowedAll(front), Shadowed(last));
      SatAllSnoc(RelaxedAll(ShadowedAll(front)), Relaxed(Shadowed(last)), doc, AsPiped);
      match Run(AllStages(front), d)
      case Kept(d') => PipelineDecides(last, d', doc);
      case _ =>
    }
  }

  lemma RelaxedAllSnoc(qs: seq<Query>, q: Query)
    ensures RelaxedAll(qs + [q]) == RelaxedAll(qs) + [Relaxed(q)]
  {
    assert (qs + [q])[..|qs|] == qs;
  }

  lemma SetsRun(qs: seq<Query>, d: Document, doc: Document)
    requires FirstError(qs) == None && AllSupported(qs, true, doc)
    requires Agrees(d, doc)
    ensures Run(AllSets(qs), d).Kept?
    ensures Agrees(Run(AllSets(qs), d).doc, doc)
    ensures HasComputed(Run(AllSets(qs), d).doc, AggregatesInAll(OverwrittenAll(qs, AggregatesInAll(qs))), doc)
  {
    SetsAreAggregatesAll(qs);
    SupportedAggregatesAll(qs, true, doc);
    RunSets(AggregatesInAll(qs), d, doc);
    OverwrittenAllAggregates(qs, AggregatesInAll(qs));
  }

  /** The branches of an OR, with the aggregates that overwrite one another replaced, are decided on a
      document that holds the last value of every computed field. */
  lemma OverwrittenBranchesDecide(qs: seq<Query>, d: Document, doc: Document)
    requires FirstError(qs) == None && AllSupported(qs, true, doc)
    requires Agrees(d, doc) && HasComputed(d, AggregatesInAll(OverwrittenAll(qs, AggregatesInAll(qs))), doc)
    ensures SomeTrue(AllExprs(qs), d) == Some(SatSome(Branches(OverwrittenAll(qs, AggregatesInAll(qs))), doc, AsPiped))
  {
    var aggs := AggregatesInAll(qs);
    AllAggregatesAreDeep(qs);
    SupportedAggregatesAll(qs, true, doc);
    SameExpressionsAll(qs, aggs);
    OverwrittenAt(qs, aggs);
    forall i | 0 <= i < |qs| ensures Supported(OverwrittenAll(qs, aggs)[i], true, doc) {
      ListedAt(qs, i);
      OverwrittenSupported(qs[i], true, aggs, doc);
    }
    BranchesDecide(OverwrittenAll(qs, aggs), d, doc);
  }

  lemma OrDecides(qs: seq<Query>, d: Document, doc: Document)
    requires FirstError(qs) == None && AllSupported(qs, true, doc)
    requires Agrees(d, doc)
    ensures Verdicts(Run(AllSets(qs) + [MatchStage(ExprMatch(Or(AllExprs(qs))))], d),
                     SatSome(Branches(OverwrittenAll(qs, AggregatesInAll(qs))), doc, AsPiped), doc)
  {
    var m := MatchStage(ExprMatch(Or(AllExprs(qs))));
    SetsRun(qs, d, doc);
    var d' := Run(AllSets(qs), d).doc;
    RunConcat(AllSets(qs), [m], d);
    OverwrittenBranchesDecide(qs, d', doc);
    RunOne(m, d');
    assert ExprValue(Or(AllExprs(qs)), d') == SomeTrue(AllExprs(qs), d');
  }

  /** With distinct names within each OR the relaxed query alone decides. */
  lemma PipelineDecidesRelaxed(q: Query, d: Document, doc: Document)
    requires TranslationError(q) == None && Supported(q, false, doc) && OrNamesDistinct(q)
    requires Agrees(d, doc)
    ensures Verdicts(Run(Stages(q), d), Sat(Relaxed(q), doc, AsPiped), doc)
  {
    PipelineDecides(q, d, doc);
    NothingShadowed(q);
  }

  // --------------------------------------------- how the relaxed query compares

  /** Every AND and OR has a condition. */
  ghost predicate NonEmpty(q: Query) {
    match q
    case Logic(op, qs) => qs != [] && op in {"AND", "OR"} && forall i :: 0 <= i < |qs| ==> NonEmpty(qs[i])
    case Blank => false
    case _ => true
  }

  /** No AND with two or more conditions beneath an OR. */
  ghost predicate NarrowUnderOr(q: Query, underOr: bool) {
    match q
    case Logic(op, qs) =>
      (underOr && op == "AND" ==> |qs| == 1) &&
      forall i :: 0 <= i < |qs| ==> NarrowUnderOr(qs[i], underOr || op == "OR")
    case _ => true
  }

  lemma {:induction false} BranchesAt(qs: seq<Query>)
    requires forall i :: 0 <= i < |qs| ==> LastMatch(qs[i]).Some?
    ensures |Branches(qs)| == |qs| && forall i :: 0 <= i < |qs| ==> Branches(qs)[i] == LastMatch(qs[i]).value
  {
    if qs != [] { BranchesAt(qs[..|qs| - 1]); }
  }

  lemma BranchesMeaning(qs: seq<Query>, doc: Document, reading: Reading)
    requires forall i :: 0 <= i < |qs| ==> LastMatch(qs[i]).Some?
    ensures SatSome(Branches(qs), doc, reading) <==>
            exists i :: 0 <= i < |qs| && Sat(LastMatch(qs[i]).value, doc, reading)
  {
    BranchesAt(qs);
    SatSomeMeaning(Branches(qs), doc, reading);
  }

  lemma {:induction false} RelaxedAllAt(qs: seq<Query>)
    ensures |RelaxedAll(qs)| == |qs| && forall i :: 0 <= i < |qs| ==> RelaxedAll(qs)[i] == Relaxed(qs[i])
  {
    if qs != [] { RelaxedAllAt(qs[..|qs| - 1]); }
  }

  lemma RelaxedAllMeaning(qs: seq<Query>, doc: Document, reading: Reading)
    ensures SatAll(RelaxedAll(qs), doc, reading) <==> forall i :: 0 <= i < |qs| ==> Sat(Relaxed(qs[i]), doc, reading)
  {
    RelaxedAllAt(qs);
    SatAllMeaning(RelaxedAll(qs), doc, reading);
  }

  /** In a non-empty query every branch has a last match, and it is implied by the branch. */
  lemma {:induction false} LastMatchWeaker(q: Query, doc: Document, reading: Reading)
    requires NonEmpty(q)
    ensures LastMatch(q).Some? && (Sat(q, doc, reading) ==> Sat(LastMatch(q).value, doc, reading))
    decreases q, 1
  {
    if q.Logic? {
      if q.logical == "AND" {
        LastMatchWeaker(q.conditions[|q.conditions| - 1], doc, reading);
        SatAllMeaning(q.conditions, doc, reading);
      } else {
        RelaxedWeaker(q, doc, reading);
      }
    }
  }

  /** Every document satisfying a non-empty query satisfies its relaxation. */
  lemma {:induction false} RelaxedWeaker(q: Query, doc: Document, reading: Reading)
    requires NonEmpty(q)
    ensures Sat(q, doc, reading) ==> Sat(Relaxed(q), doc, reading)
    decreases q, 0
  {
    if q.Logic? {
      var qs := q.conditions;
      SatAllMeaning(qs, doc, reading);
      SatSomeMeaning(qs, doc, reading);
      if q.logical == "AND" {
        RelaxedAllMeaning(qs, doc, reading);
        forall i | 0 <= i < |qs| ensures Sat(qs[i], doc, reading) ==> Sat(Relaxed(qs[i]), doc, reading) {
          RelaxedWeaker(qs[i], doc, reading);
        }
      } else {
        forall i | 0 <= i < |qs|
          ensures LastMatch(qs[i]).Some? && (Sat(qs[i], doc, reading) ==> Sat(LastMatch(qs[i]).value, doc, reading))
        {
          LastMatchWeaker(qs[i], doc, reading);
        }
        BranchesMeaning(qs, doc, reading);
      }
    }
  }

  lemma {:induction false} LastMatchExact(q: Query, doc: Document, reading: Reading)
    requires NonEmpty(q) && NarrowUnderOr(q, true)
    ensures LastMatch(q).Some? && (Sat(LastMatch(q).value, doc, reading) <==> Sat(q, doc, reading))
    decreases q, 1
  {
    if q.Logic? {
      if q.logical == "AND" {
        LastMatchExact(q.conditions[0], doc, reading);
        SatAllMeaning(q.conditions, doc, reading);
      } else {
        RelaxedExact(q, true, doc, reading);
      }
    }
  }

  /** Without a wide AND beneath an OR, relaxing changes nothing. */
  lemma {:induction false} RelaxedExact(q: Query, underOr: bool, doc: Document, reading: Reading)
    requires NonEmpty(q) && NarrowUnderOr(q, underOr)
    ensures Sat(Relaxed(q), doc, reading) <==> Sat(q, doc, reading)
    decreases q, 0
  {
    if q.Logic? {
      var qs := q.conditions;
      SatAllMeaning(qs, doc, reading);
      SatSomeMeaning(qs, doc, reading);
      if q.logical == "AND" {
        RelaxedAllMeaning(qs, doc, reading);
        forall i | 0 <= i < |qs| ensures Sat(Relaxed(qs[i]), doc, reading) <==> Sat(qs[i], doc, reading) {
          RelaxedExact(qs[i], underOr, doc, reading);
        }
      } else {
        forall i | 0 <= i < |qs|
          ensures LastMatch(qs[i]).Some? && (Sat(LastMatch(qs[i]).value, doc, reading) <==> Sat(qs[i], doc, reading))
        {
          LastMatchExact(qs[i], doc, reading);
        }
        BranchesMeaning(qs, doc, reading);
      }
    }
  }

  /** Every aggregate of the query meets an inner array in every element. */
  ghost predicate Whole(q: Query, doc: Document) {
    match q
    case Agg(agg, target, _, _) => !Lossy(agg, target, doc)
    case Logic(_, qs) => forall i :: 0 <= i < |qs| ==> Whole(qs[i], doc)
    case _ => true
  }

  lemma {:induction false} WholeIsAsMeant(q: Query, doc: Document)
    requires Whole(q, doc)
    ensures Sat(q, doc, AsPiped) <==> Sat(q, doc)
  {
    if q.Logic? {
      var qs := q.conditions;
      forall i | 0 <= i < |qs| ensures Sat(qs[i], doc, AsPiped) <==> Sat(qs[i], doc) { WholeIsAsMeant(qs[i], doc); }
      SatAllMeaning(qs, doc, AsPiped);
      SatAllMeaning(qs, doc, AsMeant);
      SatSomeMeaning(qs, doc, AsPiped);
      SatSomeMeaning(qs, doc, AsMeant);
    }
  }

  /** A pipeline never drops a document that satisfies its query with the aggregates as it takes them,
      nor one that satisfies it when no element lacks an inner array. */
  lemma PipelineNeverDrops(q: Query, doc: Document)
    requires TranslationError(q) == None && Supported(q, false, doc) && OrNamesDistinct(q) && NonEmpty(q)
    requires Sat(q, doc, AsPiped) || (Whole(q, doc) && Sat(q, doc))
    ensures Run(Stages(q), doc).Kept? && Agrees(Run(Stages(q), doc).doc, doc)
  {
    if Whole(q, doc) { WholeIsAsMeant(q, doc); }
    PipelineDecidesRelaxed(q, doc, doc);
    RelaxedWeaker(q, doc, AsPiped);
  }

  /** It keeps exactly these documents when no AND beneath an OR has two conditions. */
  lemma PipelineExact(q: Query, doc: Document)
    requires TranslationError(q) == None && Supported(q, false, doc) && OrNamesDistinct(q) && NonEmpty(q)
    requires NarrowUnderOr(q, false)
    ensures Verdicts(Run(Stages(q), doc), Sat(q, doc, AsPiped), doc)
    ensures Whole(q, doc) ==> Verdicts(Run(Stages(q), doc), Sat(q, doc), doc)
  {
    if Whole(q, doc) { WholeIsAsMeant(q, doc); }
    PipelineDecidesRelaxed(q, doc, doc);
    RelaxedExact(q, false, doc, AsPiped);
  }

  /** Every aggregate has a known operator and a target without underscores. */
  ghost predicate PlainTargets(q: Query) {
    match q
    case Agg(agg, target, _, _) => agg in AGG_OPERATORS && '_' !in target
    case Logic(_, qs) => forall i :: 0 <= i < |qs| ==> PlainTargets(qs[i])
    case _ => true
  }

  ghost predicate AllPlain(aggs: seq<(string, string)>) {
    forall x :: x in aggs ==> x.0 in AGG_OPERATORS && '_' !in x.1
  }

  lemma {:induction false} PlainAggregates(q: Query)
    requires PlainTargets(q)
    ensures AllPlain(AggregatesIn(q))
    decreases q, 1
  {
    if q.Logic? { AllPlainAggregates(q.conditions); }
  }

  lemma {:induction false} AllPlainAggregates(qs: seq<Query>)
    requires forall i :: 0 <= i < |qs| ==> PlainTargets(qs[i])
    ensures AllPlain(AggregatesInAll(qs))
    decreases qs, 0
  {
    if qs != [] {
      AllPlainAggregates(qs[..|qs| - 1]);
      PlainAggregates(qs[|qs| - 1]);
    }
  }

  /** Plain targets keep computed fields apart. */
  lemma {:induction false} PlainTargetsAreDistinct(q: Query)
    requires PlainTargets(q)
    ensures OrNamesDistinct(q)
  {
    match q
    case Logic(op, qs) =>
      if op == "OR" {
        PlainAggregates(q);
        var aggs := AggregatesIn(q);
        forall x, y | x in aggs && y in aggs && ComputedName(x.0, x.1) == ComputedName(y.0, y.1) ensures x == y {
          NamesEqualIff(x.0, x.1, y.0, y.1);
        }
      } else {
        forall i | 0 <= i < |qs| ensures OrNamesDistinct(qs[i]) { PlainTargetsAreDistinct(qs[i]); }
      }
    case _ =>
  }

  /** So on queries with plain targets and no AND of two conditions beneath an OR the pipeline keeps exactly
      the satisfying documents, and on others with plain targets none of them is dropped, as long as no
      element lacks an inner array. */
  lemma PlainQueriesExact(q: Query, doc: Document)
    requires TranslationError(q) == None && Supported(q, false, doc) && NonEmpty(q)
    requires PlainTargets(q) && Whole(q, doc)
    ensures Sat(q, doc) ==> Run(Stages(q), doc).Kept?
    ensures NarrowUnderOr(q, false) ==> Verdicts(Run(Stages(q), doc), Sat(q, doc), doc)
  {
    PlainTargetsAreDistinct(q);
    if Sat(q, doc) { PipelineNeverDrops(q, doc); }
    if NarrowUnderOr(q, false) { PipelineExact(q, doc); }
  }

  // ------------------------------------------------------------------ where it fails

  lemma PairOfLeaves(a: Query, b: Query)
    requires a.Leaf? && b.Leaf? && TranslationError(a) == None && TranslationError(b) == None
    ensures FirstError([a, b]) == None && LastOfAll([a, b]) == Some(b)
  {
    assert [a, b][..1] == [a] && [a][..0] == [];
    assert FirstError([a]) == None;
  }

  lemma WideAndShape(a: Query, b: Query)
    requires a.Leaf? && b.Leaf? && TranslationError(a) == None && TranslationError(b) == None
    ensures var both := Logic("AND", [a, b]);
            && TranslationError(Logic("OR", [both])) == None
            && AggregatesInAll([both]) == [] && Branches([both]) == [b]
  {
    var both := Logic("AND", [a, b]);
    assert [a, b][..1] == [a] && [a][..0] == [] && [both][..0] == [];
    PairOfLeaves(a, b);
    assert TranslationError(both) == FirstError([a, b]) && LastMatch(both) == LastOfAll([a, b]);
    assert FirstError([both]) == None;
    NoAggregates(a, b);
  }

  lemma NoAggregates(a: Query, b: Query)
    requires a.Leaf? && b.Leaf?
    ensures AggregatesInAll([Logic("AND", [a, b])]) == []
  {
    var both := Logic("AND", [a, b]);
    assert AggregatesIn(a) == [] && AggregatesIn(b) == [];
    assert [a, b][..1] == [a] && [a][..0] == [] && [both][..0] == [];
    assert AggregatesInAll([a]) == AggregatesInAll([]) + AggregatesIn(a) == [];
    assert AggregatesInAll([a, b]) == AggregatesInAll([a]) + AggregatesIn(b) == [];
    assert AggregatesInAll([both]) == AggregatesInAll([]) + AggregatesIn(both);
  }

  /** A conjunction beneath an OR is decided by its last condition alone: on every document where
      that one holds and another does not, the pipeline keeps what the query does not ask for. */
  lemma WideAndKeepsTooMuch(a: Query, b: Query, doc: Document)
    requires a.Leaf? && b.Leaf? && TranslationError(a) == None && TranslationError(b) == None
    requires Supported(a, true, doc) && Supported(b, true, doc)
    ensures var q := Logic("OR", [Logic("AND", [a, b])]);
            TranslationError(q) == None && (Run(Stages(q), doc).Kept? <==> Sat(b, doc)) &&
            (Sat(q, doc) <==> Sat(a, doc) && Sat(b, doc))
  {
    var both := Logic("AND", [a, b]);
    WideAndShape(a, b);
    PipelineDecidesRelaxed(Logic("OR", [both]), doc, doc);
    SatSomeMeaning([b], doc, AsPiped);
    SatSomeMeaning([both], doc, AsMeant);
    SatAllMeaning([a, b], doc, AsMeant);
  }

  /** "x is one and y is two" beneath an OR: a document whose x is zero is kept. */
  lemma WideAndKeepsUnasked()
    ensures var q := Logic("OR", [Logic("AND", [Leaf("x", "==", Num(1.0)), Leaf("y", "==", Num(2.0))])]);
            var doc: Document := map["x" := Num(0.0), "y" := Num(2.0)];
            TranslationError(q) == None && !Sat(q, doc) && Run(Stages(q), doc).Kept?
  {
    var doc: Document := map["x" := Num(0.0), "y" := Num(2.0)];
    assert AllReached(doc, "x", Num(0.0)) && AllReached(doc, "y", Num(2.0)) by {
      PlainReached(doc, "x");
      PlainReached(doc, "y");
    }
    WideAndKeepsTooMuch(Leaf("x", "==", Num(1.0)), Leaf("y", "==", Num(2.0)), doc);
  }

  ghost predicate AllReached(doc: Document, name: string, v: Value) {
    Split(name) == [name] && ScalarField(doc, name) && Reached(doc, name) == {Some(v)}
  }

  lemma PlainReached(doc: Document, name: string)
    requires '.' !in name && name in doc && !doc[name].Arr?
    ensures AllReached(doc, name, doc[name])
  {
    SplitPlain(name);
    assert [name][1..] == [] && [name][0] == name;
    assert FieldAt(Obj(doc), [name]) == Some(doc[name]);
    ReachedScalar(Obj(doc), [name]);
  }

  /** A pair would be read as the two operands of the operator, which is not modelled. */
  predicate NotAPair(v: Value) {
    v.Arr? ==> |v.items| != 2
  }

  /** What the database refuses as the last match of a branch: a condition other than an equality, an
      aggregate with an unknown comparison, or an OR with such a branch. */
  ghost predicate Refuses(q: Query) {
    match q
    case Leaf(_, op, value) => op != "==" && NotAPair(value)
    case Agg(_, _, op, _) => op !in COMPARISONS
    case Logic(_, qs) => exists i :: 0 <= i < |qs| && Refuses(qs[i])
    case Blank => false
  }

  /** A condition other than an equality that ends a branch of an OR, at any depth of ANDs and of ORs
      beneath it: no document is ever kept. */
  lemma NonEqualityBeneathOrFails(qs: seq<Query>, i: nat, d: Document)
    requires FirstError(qs) == None && i < |qs|
    requires LastMatch(qs[i]).Some? && Refuses(LastMatch(qs[i]).value)
    ensures !Run(Stages(Logic("OR", qs)), d).Kept?
  {
    var k := InBranches(qs, i);
    assert Refuses(Branches(qs)[k]);
    OrNeverKeeps(qs, d);
  }

  /** The query has an OR, beneath nothing but ANDs, with a branch that ends so. */
  ghost predicate RefusesSomewhere(q: Query) {
    q.Logic? &&
    if q.logical == "OR" then Refuses(Relaxed(q))
    else exists i :: 0 <= i < |q.conditions| && RefusesSomewhere(q.conditions[i])
  }

  /** Beside such an OR nothing else matters. */
  lemma {:induction false} RefusingOrFails(q: Query, d: Document)
    requires TranslationError(q) == None && RefusesSomewhere(q)
    ensures !Run(Stages(q), d).Kept?
    decreases q, 1
  {
    if q.logical == "OR" {
      assert Relaxed(q) == Logic("OR", Branches(q.conditions));
      OrNeverKeeps(q.conditions, d);
    } else {
      var i :| 0 <= i < |q.conditions| && RefusesSomewhere(q.conditions[i]);
      RefusingAndFails(q.conditions, i, d);
    }
  }

  lemma {:induction false} RefusingAndFails(qs: seq<Query>, i: nat, d: Document)
    requires FirstError(qs) == None && i < |qs| && RefusesSomewhere(qs[i])
    ensures !Run(AllStages(qs), d).Kept?
    decreases qs, 0
  {
    var front, last := qs[..|qs| - 1], qs[|qs| - 1];
    if i < |front| {
      assert front[i] == qs[i];
      RefusingAndFails(front, i, d);
    } else {
      forall d' ensures !Run(Stages(last), d').Kept? { RefusingOrFails(last, d'); }
    }
    NotKeptAfter(AllStages(front), Stages(last), d);
  }

  lemma NotKeptAfter(a: seq<Stage>, b: seq<Stage>, d: Document)
    requires !Run(a, d).Kept? || forall d' :: !Run(b, d').Kept?
    ensures !Run(a + b, d).Kept?
  {
    RunConcat(a, b, d);
  }

  lemma {:induction false} InBranches(qs: seq<Query>, i: nat) returns (k: nat)
    requires i < |qs| && LastMatch(qs[i]).Some?
    ensures k < |Branches(qs)| && Branches(qs)[k] == LastMatch(qs[i]).value
  {
    if i < |qs| - 1 {
      k := InBranches(qs[..|qs| - 1], i);
    } else {
      k := |Branches(qs)| - 1;
    }
  }

  lemma OrNeverKeeps(qs: seq<Query>, d: Document)
    requires FirstError(qs) == None && Refuses(Logic("OR", Branches(qs)))
    ensures !Run(Stages(Logic("OR", qs)), d).Kept?
  {
    var m := MatchStage(ExprMatch(Or(AllExprs(qs))));
    forall d' ensures !Run([m], d').Kept? {
      BranchesRefused(qs, d');
      RunOne(m, d');
    }
    NotKeptAfter(AllSets(qs), [m], d);
  }

  lemma LeafExpr(q: Query)
    requires TranslationError(q) == None && q.Leaf?
    ensures LastExpr(Stages(q)) == Some(EqField(q.variable, TranslateSimple(q.operator, q.value).value))
    ensures q.operator != "==" ==> !TranslateSimple(q.operator, q.value).value.Equals?
  {
    OneMatch(FieldMatch(q.variable, TranslateSimple(q.operator, q.value).value));
  }

  /** A name that a field path takes as it is. */
  predicate PlainName(name: string) {
    name != "" && '.' !in name && '$' !in name
  }

  /** Beneath an OR a text that starts with a dollar is read as the name of a field: the pipeline keeps
      the documents whose two fields are equal, or are both missing, whatever texts they hold. */
  lemma DollarTextReadsField(x: string, y: string, d: Document)
    requires PlainName(x) && PlainName(y)
    ensures var q := Logic("OR", [Leaf(x, "==", Str("$" + y))]);
            TranslationError(q) == None &&
            (Run(Stages(q), d).Kept? <==>
              (x in d <==> y in d) && (x in d ==> d[x] == d[y]))
  {
    var leaf, literal := Leaf(x, "==", Str("$" + y)), "$" + y;
    var e := EqField(x, Equals(Str(literal)));
    OrOfOneLeaf(leaf);
    RunOne(MatchStage(ExprMatch(Or([e]))), d);
    OrOfOneExpr(e, d);
    assert literal[0] == '$' && literal[1..] == y;
    assert ExprValue(e, d) == Some(Resolve(Obj(d), Split(x)) == Resolve(Obj(d), Split(y)));
    ResolvePlain(x, d);
    ResolvePlain(y, d);
  }

  /** Beneath an OR a field of the elements of an array is compared as the array of its values: a document
      that satisfies an equality there through one of the elements is dropped all the same. */
  lemma ArrayBeneathOrIsDropped(a: string, b: string, v: Value, d: Document, i: nat)
    requires PlainName(a) && PlainName(b) && Constant(v) && a in d && d[a].Arr? && i < |d[a].items|
    requires d[a].items[i].Obj? && b in d[a].items[i].fields && d[a].items[i].fields[b] == v
    ensures var q := Logic("OR", [Leaf(a + "." + b, "==", v)]);
            TranslationError(q) == None && Sat(q, d) && Run(Stages(q), d) == Dropped
  {
    var leaf := Leaf(a + "." + b, "==", v);
    OrOfOneLeaf(leaf);
    RunOne(MatchStage(ExprMatch(Or([EqField(leaf.variable, Equals(v))]))), d);
    OrOfOneExpr(EqField(leaf.variable, Equals(v)), d);
    ArrayDiffers(a, b, v, d);
    SplitUndoesJoin(a, b);
    SplitPlain(b);
    ElementReached(d, a, b, i);
    SatSomeMeaning([leaf], d, AsMeant);
  }

  lemma ArrayDiffers(a: string, b: string, v: Value, d: Document)
    requires PlainName(a) && PlainName(b) && Constant(v) && a in d && d[a].Arr?
    ensures ExprValue(EqField(a + "." + b, Equals(v)), d) == Some(false)
  {
    SplitUndoesJoin(a, b);
    SplitPlain(b);
    assert [a] + [b] == [a, b] && [a, b][1..] == [b];
    assert Resolve(Obj(d), [a, b]) == Resolve(d[a], [b]) && Resolve(d[a], [b]).value.Arr?;
  }

  lemma ElementReached(d: Document, a: string, b: string, i: nat)
    requires a in d && d[a].Arr? && i < |d[a].items| && d[a].items[i].Obj? && b in d[a].items[i].fields
    ensures Some(d[a].items[i].fields[b]) in Candidates(Obj(d), [a, b])
  {
    var element := d[a].items[i];
    assert [a, b][1..] == [b] && [b][1..] == [];
    assert Some(element.fields[b]) in Candidates(element.fields[b], []);
    assert Candidates(element, [b]) == Candidates(element.fields[b], [b][1..]);
    assert Some(element.fields[b]) in Candidates(d[a], [b]);
    assert Candidates(Obj(d), [a, b]) == Candidates(d[a], [a, b][1..]);
  }

  lemma ResolvePlain(name: string, d: Document)
    requires '.' !in name
    ensures Resolve(Obj(d), Split(name)) == if name in d then Some(d[name]) else None
  {
    SplitPlain(name);
    assert [name][1..] == [] && [name][0] == name;
  }

  lemma OrOfOneExpr(e: Expr, d: Document)
    ensures ExprValue(Or([e]), d) == ExprValue(e, d)
  {
    assert [e][..0] == [] && [e][0] == e && SomeTrue([e][..0], d) == Some(false);
    assert SomeTrue([e], d) == ExprValue(e, d);
  }

  lemma OrOfOneLeaf(leaf: Query)
    requires leaf.Leaf? && TranslationError(leaf) == None
    ensures TranslationError(Logic("OR", [leaf])) == None
    ensures Stages(Logic("OR", [leaf])) ==
            [MatchStage(ExprMatch(Or([EqField(leaf.variable, TranslateSimple(leaf.operator, leaf.value).value)])))]
  {
    var e := EqField(leaf.variable, TranslateSimple(leaf.operator, leaf.value).value);
    assert [leaf][..0] == [] && [leaf][0] == leaf && FirstError([leaf][..0]) == None;
    assert FirstError([leaf]) == TranslationError(leaf);
    LeafExpr(leaf);
    OneMatch(FieldMatch(leaf.variable, TranslateSimple(leaf.operator, leaf.value).value));
    assert AllExprs([leaf]) == AllExprs([]) + [e] == [e];
    assert AllSets([leaf]) == AllSets([]) + SetsOf(Stages(leaf));
  }

  /** An unknown aggregate is translated and then refused by the database. */
  lemma UnknownAggregateRefused(agg: string, target: string, op: string, value: Value, d: Document)
    requires agg !in AGGREGATES && agg != "count" && |Split(target)| >= 2
    ensures var q := Agg(agg, target, op, value);
            TranslationError(q) == None && Run(Stages(q), d) == Refused
  {
    var set_ := Set(ComputedName(agg, target), ComputationOf(agg, target));
    var match_ := MatchStage(ExprMatch(CompareField(MongoOperator(op), ComputedName(agg, target), value)));
    RunOne(set_, d);
    assert [set_] + [match_] == AggregateStages(agg, target, op, value);
    RunConcat([set_], [match_], d);
  }

  /** The last expression is there exactly if the last match is, and is refused if that one refuses. */
  ghost predicate RefusedAlike(e: Option<Expr>, b: Option<Query>, d: Document) {
    (e.Some? <==> b.Some?) && (b.Some? && Refuses(b.value) ==> ExprValue(e.value, d) == None)
  }

  lemma {:induction false} BranchRefused(q: Query, d: Document)
    requires TranslationError(q) == None
    ensures RefusedAlike(LastExpr(Stages(q)), LastMatch(q), d)
    decreases q, 1
  {
    match q
    case Leaf(variable, op, value) => LeafExpr(q);
    case Agg(agg, target, op, value) => AggregateLast(agg, target, op, value);
    case Logic(op, qs) =>
      if op == "AND" {
        LastRefused(qs, d);
      } else {
        OrLast(qs);
        assert LastMatch(q) == Some(Logic("OR", Branches(qs)));
        if Refuses(Logic("OR", Branches(qs))) { BranchesRefused(qs, d); }
      }
  }

  lemma {:induction false} LastRefused(qs: seq<Query>, d: Document)
    requires FirstError(qs) == None
    ensures RefusedAlike(LastExpr(AllStages(qs)), LastOfAll(qs), d)
    decreases qs, 0
  {
    if qs != [] {
      var front, last := qs[..|qs| - 1], qs[|qs| - 1];
      LastRefused(front, d);
      BranchRefused(last, d);
      SetsConcat(AllStages(front), Stages(last));
    }
  }

  lemma AllExprsSnoc(qs: seq<Query>, d: Document)
    requires qs != [] && FirstError(qs) == None
    ensures var front, e := qs[..|qs| - 1], LastExpr(Stages(qs[|qs| - 1]));
            SomeTrue(AllExprs(front), d) == None || (e.Some? && ExprValue(e.value, d) == None) ==>
              SomeTrue(AllExprs(qs), d) == None
  {
    var front, e := qs[..|qs| - 1], LastExpr(Stages(qs[|qs| - 1]));
    if e.Some? {
      SomeTrueSnoc(AllExprs(front), e.value, d);
    } else {
      assert AllExprs(qs) == AllExprs(front);
    }
  }

  lemma {:induction false} BranchesRefused(qs: seq<Query>, d: Document)
    requires FirstError(qs) == None && Refuses(Logic("OR", Branches(qs)))
    ensures SomeTrue(AllExprs(qs), d) == None
    decreases qs, 0
  {
    var front, last := qs[..|qs| - 1], qs[|qs| - 1];
    var i :| 0 <= i < |Branches(qs)| && Refuses(Branches(qs)[i]);
    AllExprsSnoc(qs, d);
    BranchRefused(last, d);
    if i < |Branches(front)| {
      assert Refuses(Branches(front)[i]);
      BranchesRefused(front, d);
    }
  }

  lemma PairOfAggregates(a: Query, b: Query)
    requires a.Agg? && b.Agg?
    ensures AggregatesInAll([a, b]) == [(a.agg, a.target), (b.agg, b.target)]
    ensures TranslationError(a) == None && TranslationError(b) == None ==> FirstError([a, b]) == None
    ensures Branches([a, b]) == [a, b]
  {
    assert [a, b][..1] == [a] && [a][..0] == [];
    BranchesAt([a, b]);
    assert AggregatesInAll([a]) == [(a.agg, a.target)];
    assert FirstError([a]) == TranslationError(a);
  }

  lemma OverwrittenPair(a: Query, b: Query, aggs: seq<(string, string)>)
    ensures OverwrittenAll([a, b], aggs) == [Overwritten(a, aggs), Overwritten(b, aggs)]
  {
    assert [a, b][..1] == [a] && [a][..0] == [];
    assert OverwrittenAll([a], aggs) == [Overwritten(a, aggs)];
  }

  lemma CollidingShape(a: Query, b: Query)
    requires a.Agg? && b.Agg? && TranslationError(a) == None && TranslationError(b) == None
    requires ComputedName(a.agg, a.target) == ComputedName(b.agg, b.target)
    ensures var a' := Agg(b.agg, b.target, a.operator, a.value);
            && TranslationError(Logic("OR", [a, b])) == None
            && Relaxed(Shadowed(Logic("OR", [a, b]))) == Logic("OR", [a', b])
  {
    var x, y := (a.agg, a.target), (b.agg, b.target);
    var a' := Agg(b.agg, b.target, a.operator, a.value);
    PairOfAggregates(a, b);
    OverwrittenPair(a, b, [x, y]);
    assert Winner([x, y], x) == y == Winner([x, y], y);
    PairOfAggregates(a', b);
  }

  /** Two aggregates with one computed name beneath an OR: both comparisons are made with the value of
      the second. */
  lemma CollidingNamesCompareTheLast(a: Query, b: Query, doc: Document)
    requires a.Agg? && b.Agg? && TranslationError(a) == None && TranslationError(b) == None
    requires ComputedName(a.agg, a.target) == ComputedName(b.agg, b.target)
    requires Supported(a, true, doc) && Supported(b, true, doc)
    ensures var q, second := Logic("OR", [a, b]), ValueOf(b.agg, b.target, doc, AsPiped);
            TranslationError(q) == None &&
            Verdicts(Run(Stages(q), doc),
                     CompareHolds(a.operator, second, a.value) || CompareHolds(b.operator, second, b.value), doc)
  {
    CollidingShape(a, b);
    PipelineDecides(Logic("OR", [a, b]), doc, doc);
    SatSomeMeaning([Agg(b.agg, b.target, a.operator, a.value), b], doc, AsPiped);
  }

  /** Different targets can share a computed field. */
  lemma NamesCollide()
    ensures ComputedName("avg", "a.b_c") == ComputedName("avg", "a_b.c")
  {
    assert DotToUnderscore("a.b_c") == "a_b_c";
    assert DotToUnderscore("a_b.c") == "a_b_c";
  }

  // ------------------------------------------------- an element without the inner array

  /** The documents that satisfy a query and are dropped, with no AND of two conditions beneath an OR, are
      those that do not satisfy it when every aggregate over an array with an element that lacks the
      inner array is that of nothing: zero for a sum, otherwise null. */
  lemma DropsWhatOnlyWholeSatisfies(q: Query, doc: Document)
    requires TranslationError(q) == None && Supported(q, false, doc) && OrNamesDistinct(q) && NonEmpty(q)
    requires NarrowUnderOr(q, false) && Sat(q, doc)
    ensures Run(Stages(q), doc) == Dropped <==> !Sat(q, doc, AsPiped)
    ensures forall agg :: agg in AGGREGATES ==> Aggregate(agg, []) == if agg == "sum" then Num(0.0) else Null
  {
    PipelineExact(q, doc);
  }

  /** A document whose one inner number is five is not found by "the sum is at least five", because of an
      empty element beside it. */
  lemma MissingInnerArrayDropsSatisfying()
    ensures var q := Agg("sum", "a.b.c", ">=", Num(5.0));
            var doc: Document := map["a" := Arr([Obj(map["b" := Arr([Obj(map["c" := Num(5.0)])])]), Obj(map[])])];
            TranslationError(q) == None && Sat(q, doc) && Run(Stages(q), doc) == Dropped
  {
    var full, empty := Obj(map["b" := Arr([Obj(map["c" := Num(5.0)])])]), Obj(map[]);
    var doc: Document := map["a" := Arr([full, empty])];
    SecondLacksInnerArray(full, empty, doc);
    CollectsFive(full, empty, doc);
    LossySumDrops("a.b.c", 5.0, doc);
  }

  lemma LossySumDrops(target: string, least: real, doc: Document)
    requires |Split(target)| >= 2 && SupportedAgg("sum", target, doc) && Lossy("sum", target, doc) && least > 0.0
    requires Sat(Agg("sum", target, ">=", Num(least)), doc)
    ensures var q := Agg("sum", target, ">=", Num(least));
            TranslationError(q) == None && Run(Stages(q), doc) == Dropped
  {
    assert ValueOf("sum", target, doc, AsPiped) == Num(0.0);
    DropsWhatOnlyWholeSatisfies(Agg("sum", target, ">=", Num(least)), doc);
  }

  lemma SecondLacksInnerArray(full: Value, empty: Value, doc: Document)
    requires full == Obj(map["b" := Arr([Obj(map["c" := Num(5.0)])])]) && empty == Obj(map[])
    requires doc == map["a" := Arr([full, empty])]
    ensures |Split("a.b.c")| >= 2 && SupportedAgg("sum", "a.b.c", doc) && Lossy("sum", "a.b.c", doc)
  {
    SplitABC();
    assert ["a", "b", "c"][..1] == ["a"] && ["a"][1..] == [];
    assert FieldAt(Obj(doc), ["a"]) == Some(Arr([full, empty]));
    assert LacksInnerArray("a.b.c", doc, 1);
    assert ThroughObjects(Obj(doc), ["a"]);
  }

  lemma SplitABC()
    ensures Split("a.b.c") == ["a", "b", "c"]
  {
    assert "a.b.c"[1..] == ".b.c" && ".b.c"[1..] == "b.c" && "b.c"[1..] == ".c" && ".c"[1..] == "c" && "c"[1..] == "";
    SplitPlain("c");
    assert Split(".c") == [""] + ["c"];
    assert Split("b.c") == [['b'] + ""] + ["c"] && ['b'] + "" == "b";
    assert Split(".b.c") == [""] + ["b", "c"];
    assert ['a'] + "" == "a";
  }

  lemma CollectsFive(full: Value, empty: Value, doc: Document)
    requires full == Obj(map["b" := Arr([Obj(map["c" := Num(5.0)])])]) && empty == Obj(map[])
    requires doc == map["a" := Arr([full, empty])]
    ensures Sat(Agg("sum", "a.b.c", ">=", Num(5.0)), doc)
  {
    assert AggregateOf("sum", "a.b.c", doc) == Num(5.0) by { SumsToFive(full, empty, doc); }
  }

  lemma SumsToFive(full: Value, empty: Value, doc: Document)
    requires full == Obj(map["b" := Arr([Obj(map["c" := Num(5.0)])])]) && empty == Obj(map[])
    requires doc == map["a" := Arr([full, empty])]
    ensures AggregateOf("sum", "a.b.c", doc) == Num(5.0)
  {
    SplitABC();
    InnerFive(full);
    assert ["a", "b", "c"][1..] == ["b", "c"] && [empty][1..] == [] && [full, empty][1..] == [empty];
    assert CollectAll([empty], ["b", "c"]) == [];
    assert Collect(Obj(doc), ["a", "b", "c"]) == Collect(Arr([full, empty]), ["b", "c"]) == [Num(5.0)] + [];
    SumOfFive();
  }

  lemma InnerFive(full: Value)
    requires full == Obj(map["b" := Arr([Obj(map["c" := Num(5.0)])])])
    ensures Collect(full, ["b", "c"]) == [Num(5.0)]
  {
    var inner := Obj(map["c" := Num(5.0)]);
    assert ["b", "c"][1..] == ["c"] && [inner][1..] == [];
    OneStep(inner, "c");
    assert CollectAll([inner], ["c"]) == [Num(5.0)] + [];
  }

  lemma SumOfFive()
    ensures Aggregate("sum", [Num(5.0)] + []) == Num(5.0)
  {
    assert [Num(5.0)] + [] == [Num(5.0)] && [Num(5.0)][1..] == [] && [5.0][1..] == [];
    assert Present([Num(5.0)]) == [Num(5.0)] && Numbers([Num(5.0)]) == [5.0] && Sum([5.0]) == 5.0;
  }
}
