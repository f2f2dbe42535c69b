/** The component settings validator: values are checked against rules, and an object is rewritten
    with defaults and validated values as it is checked. */
module ControlsValidator {
  import opened Wrappers

  datatype Val =
    | Undefined
    | Null
    | Bool(b: bool)
    | Num(n: real)
    | Str(s: string)
    | Arr(items: seq<Val>)
    | Obj(fields: map<string, Val>)

  /** A rule; absent bounds, sizes and defaults are zero or undefined, which is how they are tested. */
  datatype Rule = Rule(
    name: string,
    kind: string,
    required: bool,
    default: Val,
    options: Option<seq<Val>>,
    min: real,
    max: real,
    size: nat,
    element: Option<Rule>,
    rules: Rules)

  datatype Rules = NoRules | RuleList(list: seq<Rule>)

  /** A validated value, an error report, an exception, or a value whose properties are not those
      of a plain object (an array where an object is described). */
  datatype Outcome = Good(v: Val) | Bad | Raised | Exotic

  predicate Truthy(v: Val) {
    match v
    case Undefined => false
    case Null => false
    case Bool(b) => b
    case Num(n) => n != 0.0
    case Str(s) => s != ""
    case _ => true
  }

  function Get(m: map<string, Val>, k: string): Val {
    if k in m then m[k] else Undefined
  }

  // ------------------------------------------------------------------ the validator

  /** `valueValidator`. */
  function Value(r: Rule, v: Val): Outcome
    decreases r, 2
  {
    if r.kind == "string" then
      if v.Str? && (r.options.Some? ==> v in r.options.value) then Good(v) else Bad
    else if r.kind == "int" || r.kind == "float" then
      if v.Num? && !(r.min != 0.0 && v.n < r.min) && !(r.max != 0.0 && v.n > r.max) then Good(v) else Bad
    else if r.kind == "bool" then if v.Bool? then Good(v) else Bad
    else if r.kind == "any" then Good(v)
    else if r.kind == "array" then
      if !v.Arr? || (r.size != 0 && |v.items| != r.size) then Bad
      else if r.element.None? then Good(v)
      else Elements(r.element.value, v.items)
    else if r.kind == "object" then
      if !v.Obj? && !v.Arr? && !v.Null? then Bad
      else if r.rules.NoRules? || r.rules.list == [] then Good(v)
      else if v.Null? then Raised
      else if v.Arr? then Exotic
      else Values(r.rules.list, v.fields)
    else Good(v)
  }

  function Elements(r: Rule, items: seq<Val>): Outcome
    decreases r, 3, |items|
  {
    if items == [] then Good(Arr([]))
    else match Elements(r, items[..|items| - 1])
      case Good(Arr(vs)) =>
        (match Value(r, items[|items| - 1])
         case Good(v) => Good(Arr(vs + [v]))
         case o => o)
      case o => o
  }

  /** One rule applied to an object. */
  function OneRule(r: Rule, m: map<string, Val>): Outcome
    decreases r, 4
  {
    if !Truthy(Get(m, r.name)) then
      if Truthy(r.default) then Good(Obj(m[r.name := r.default]))
      else if r.required then Bad
      else Good(Obj(m))
    else match Value(r, Get(m, r.name))
      case Good(v) => Good(Obj(m[r.name := v]))
      case o => o
  }

  /** `valuesValidator`: the rules in order, each on the object as left by the one before. */
  function Values(rs: seq<Rule>, m: map<string, Val>): Outcome
    decreases rs, 0
  {
    if rs == [] then Good(Obj(m))
    else match Values(rs[..|rs| - 1], m)
      case Good(Obj(m')) => OneRule(rs[|rs| - 1], m')
      case o => o
  }

  /** The object as left by the validator, also when it stops with an error. */
  function Left(rs: seq<Rule>, m: map<string, Val>): map<string, Val> {
    if rs == [] then m
    else match Values(rs, m)
      case Good(Obj(m')) => m'
      case _ => Left(rs[..|rs| - 1], m)
  }

  lemma {:induction false} ValuesShape(rs: seq<Rule>, m: map<string, Val>)
    ensures Values(rs, m).Good? ==> Values(rs, m).v.Obj?
  {
    if rs != [] { ValuesShape(rs[..|rs| - 1], m); }
  }

  lemma {:induction false} ElementsShape(r: Rule, items: seq<Val>)
    ensures Elements(r, items).Good? ==>
              var o := Elements(r, items).v;
              o.Arr? && |o.items| == |items| && forall i :: 0 <= i < |items| ==> Value(r, items[i]) == Good(o.items[i])
  {
    if items != [] { ElementsShape(r, items[..|items| - 1]); }
  }

  lemma {:induction false} ElementsFrom(r: Rule, items: seq<Val>, vs: seq<Val>)
    requires |vs| == |items| && forall i :: 0 <= i < |items| ==> Value(r, items[i]) == Good(vs[i])
    ensures Elements(r, items) == Good(Arr(vs))
  {
    if items != [] {
      ElementsFrom(r, items[..|items| - 1], vs[..|vs| - 1]);
      assert vs == vs[..|vs| - 1] + [vs[|vs| - 1]];
    }
  }

  // ------------------------------------------------------------ zeros and falsy values

  function Given(bound: Option<real>): real {
    match bound case Some(b) => b case None => 0.0
  }

  predicate Within(min: Option<real>, max: Option<real>, n: real) {
    (min.Some? ==> min.value <= n) && (max.Some? ==> n <= max.value)
  }

  /** What has no parts is accepted as it is, or not at all: a text if no options are given or it is one of
      them, a number by its bounds, a boolean where one is asked for, anything where nothing is known. */
  lemma PlainValueAccepted(r: Rule, v: Val)
    requires r.kind !in {"array", "object"}
    ensures Value(r, v).Good? ==> Value(r, v).v == v
    ensures r.kind == "string" ==> (Value(r, v).Good? <==> v.Str? && (r.options == None || v in r.options.value))
    ensures r.kind in {"int", "float"} ==>
              (Value(r, v).Good? <==> v.Num? && (r.min == 0.0 || r.min <= v.n) && (r.max == 0.0 || v.n <= r.max))
    ensures r.kind == "bool" ==> (Value(r, v).Good? <==> v.Bool?)
    ensures r.kind !in {"string", "int", "float", "bool"} ==> Value(r, v).Good?
    ensures Value(r, v).Good? || Value(r, v) == Bad
  {
  }

  /** An array is accepted if it has the size asked for, if one is, and each of its elements is accepted; the
      elements of the result are what they are validated to. */
  lemma ArrayAccepted(r: Rule, v: Val)
    requires r.kind == "array"
    ensures Value(r, v).Good? <==>
            v.Arr? && (r.size == 0 || |v.items| == r.size) &&
            (r.element.Some? ==> forall i :: 0 <= i < |v.items| ==> Value(r.element.value, v.items[i]).Good?)
    ensures Value(r, v).Good? && r.element == None ==> Value(r, v).v == v
    ensures Value(r, v).Good? && r.element.Some? ==>
              Value(r, v).v.Arr? && |Value(r, v).v.items| == |v.items| &&
              forall i :: 0 <= i < |v.items| ==> Value(r.element.value, v.items[i]) == Good(Value(r, v).v.items[i])
  {
    if v.Arr? && r.element.Some? {
      ElementsShape(r.element.value, v.items);
      ElementsAccepted(r.element.value, v.items);
    }
  }

  lemma {:induction false} ElementsAccepted(r: Rule, items: seq<Val>)
    ensures Elements(r, items).Good? <==> forall i :: 0 <= i < |items| ==> Value(r, items[i]).Good?
  {
    if items != [] {
      var front := items[..|items| - 1];
      ElementsAccepted(r, front);
      ElementsShape(r, front);
      assert forall i :: 0 <= i < |front| ==> front[i] == items[i];
    }
  }

  /** An object is accepted if it has no rules or they accept it, and becomes what they make of it; null is
      accepted only without rules, and raises an exception otherwise. */
  lemma ObjectAccepted(r: Rule, v: Val)
    requires r.kind == "object"
    ensures var free := r.rules.NoRules? || r.rules.list == [];
            && (free ==> Value(r, v) == if v.Obj? || v.Arr? || v.Null? then Good(v) else Bad)
            && (!free && v.Obj? ==> Value(r, v) == Values(r.rules.list, v.fields))
            && (!free && v.Null? ==> Value(r, v) == Raised)
            && (!free && !v.Obj? ==> !Value(r, v).Good?)
  {
  }

  /** The numbers accepted are those within the bounds if and only if neither bound is zero. */
  lemma BoundsHoldIffNonZero(r: Rule, min: Option<real>, max: Option<real>)
    requires r.kind in {"int", "float"} && r.min == Given(min) && r.max == Given(max)
    ensures (forall n :: Value(r, Num(n)).Good? <==> Within(min, max, n)) <==> min != Some(0.0) && max != Some(0.0)
  {
    if min == Some(0.0) {
      var n := if max.Some? && max.value < -1.0 then max.value else -1.0;
      assert Value(r, Num(n)).Good? && !Within(min, max, n);
    } else if max == Some(0.0) {
      var n := if min.Some? && min.value > 1.0 then min.value else 1.0;
      assert Value(r, Num(n)).Good? && !Within(min, max, n);
    }
  }

  /** The arrays accepted are those of the size asked for if and only if it is not zero. */
  lemma SizeHoldsIffNonZero(r: Rule, size: nat)
    requires r.kind == "array" && r.size == size && r.element == None
    ensures (forall v :: Value(r, v).Good? <==> v.Arr? && |v.items| == size) <==> size != 0
  {
    if size == 0 { assert Value(r, Arr([Null])).Good? && |[Null]| == 1; }
  }

  /** The rule refuses null, false, zero and the empty text if a missing value is refused, and accepts
      all four if it is not. */
  predicate FalsyLikeMissing(r: Rule) {
    if Truthy(r.default) || !r.required then r.kind !in {"string", "int", "float", "bool", "array", "object"}
    else match r.kind
      case "string" => r.options.Some? && Str("") !in r.options.value
      case "int" => r.min > 0.0 || r.max < 0.0
      case "float" => r.min > 0.0 || r.max < 0.0
      case "array" => true
      case "object" => r.rules.RuleList? && r.rules.list != []
      case _ => false
  }

  /** Falsy values are not checked, so a value given is accepted exactly when its rule accepts it only for
      rules that treat the falsy values as they treat a missing one. */
  lemma CheckedIffFalsyLikeMissing(r: Rule)
    ensures (forall v :: v != Undefined ==> (OneRule(r, map[r.name := v]).Good? <==> Value(r, v).Good?)) <==>
            FalsyLikeMissing(r)
  {
    if forall v :: v != Undefined ==> (OneRule(r, map[r.name := v]).Good? <==> Value(r, v).Good?) {
      assert !OneRule(r, map[r.name := Null]).Good? <==> !Value(r, Null).Good?;
      assert !OneRule(r, map[r.name := Bool(false)]).Good? <==> !Value(r, Bool(false)).Good?;
      assert !OneRule(r, map[r.name := Num(0.0)]).Good? <==> !Value(r, Num(0.0)).Good?;
      assert !OneRule(r, map[r.name := Str("")]).Good? <==> !Value(r, Str("")).Good?;
    }
  }

  /** A required flag cannot be given as false, a default of true overrides it, and an optional number
      that must be at least one can be given as zero. */
  lemma FalsyGoesWrong()
    ensures var flag := Rule("on", "bool", true, Undefined, None, 0.0, 0.0, 0, None, NoRules);
            && Value(flag, Bool(false)).Good? && OneRule(flag, map["on" := Bool(false)]) == Bad
            && OneRule(flag.(default := Bool(true)), map["on" := Bool(false)]) == Good(Obj(map["on" := Bool(true)]))
    ensures var count := Rule("n", "int", false, Undefined, None, 1.0, 0.0, 0, None, NoRules);
            Value(count, Num(0.0)) == Bad && OneRule(count, map["n" := Num(0.0)]).Good?
  {
    var m := map["on" := Bool(false)];
    assert m["on" := Bool(true)] == map["on" := Bool(true)];
  }

  // -------------------------------------------------------------------- idempotence

  ghost predicate DistinctNames(rs: seq<Rule>) {
    forall i, j :: 0 <= i < j < |rs| ==> rs[i].name != rs[j].name
  }

  /** A default that takes effect is a fixed point of its own rule. */
  ghost predicate FixedDefault(r: Rule) {
    Truthy(r.default) ==> Value(r, r.default) == Good(r.default)
  }

  /** Within a rule, at any depth: names are distinct and defaults are fixed points. */
  ghost predicate StableInside(r: Rule) {
    && (r.element.Some? ==> StableInside(r.element.value))
    && (r.rules.RuleList? ==> StableRules(r.rules.list))
  }

  ghost predicate StableRules(rs: seq<Rule>) {
    DistinctNames(rs) && forall i :: 0 <= i < |rs| ==> StableInside(rs[i]) && FixedDefault(rs[i])
  }

  /** What a rule makes of the value under its name. */
  ghost predicate Settles(r: Rule, before: Val, after: Val) {
    if !Truthy(before) then
      if Truthy(r.default) then after == r.default else !r.required && after == before
    else Value(r, before) == Good(after)
  }

  lemma OneRuleSettles(r: Rule, m: map<string, Val>)
    requires OneRule(r, m).Good?
    ensures OneRule(r, m).v.Obj? && Settles(r, Get(m, r.name), Get(OneRule(r, m).v.fields, r.name))
    ensures forall k :: k != r.name ==>
              (k in OneRule(r, m).v.fields <==> k in m) && Get(OneRule(r, m).v.fields, k) == Get(m, k)
  {
  }

  /** With distinct names every rule settles its own key and no other key changes. */
  lemma {:induction false} RulesSettle(rs: seq<Rule>, m: map<string, Val>)
    requires DistinctNames(rs) && Values(rs, m).Good?
    ensures Values(rs, m).v.Obj?
    ensures forall i :: 0 <= i < |rs| ==> Settles(rs[i], Get(m, rs[i].name), Get(Values(rs, m).v.fields, rs[i].name))
    ensures forall k :: (forall i :: 0 <= i < |rs| ==> rs[i].name != k) ==>
              (k in Values(rs, m).v.fields <==> k in m) && Get(Values(rs, m).v.fields, k) == Get(m, k)
  {
    ValuesShape(rs, m);
    if rs != [] {
      var front, r := rs[..|rs| - 1], rs[|rs| - 1];
      ValuesShape(front, m);
      RulesSettle(front, m);
      var m1, m2 := Values(front, m).v.fields, Values(rs, m).v.fields;
      assert Get(m1, r.name) == Get(m, r.name);
      OneRuleSettles(r, m1);
      forall i | 0 <= i < |rs| ensures Settles(rs[i], Get(m, rs[i].name), Get(m2, rs[i].name)) {
        if i < |front| { assert front[i] == rs[i] && rs[i].name != r.name; }
      }
    }
  }

  /** The value under a rule's name allows it to settle. */
  predicate CanSettle(r: Rule, before: Val) {
    if Truthy(before) then Value(r, before).Good? else Truthy(r.default) || !r.required
  }

  /** With distinct names an object is accepted if and only if every rule can settle its own key of it. */
  lemma {:induction false} AcceptedIffEachSettles(rs: seq<Rule>, m: map<string, Val>)
    requires DistinctNames(rs)
    ensures Values(rs, m).Good? <==> forall i :: 0 <= i < |rs| ==> CanSettle(rs[i], Get(m, rs[i].name))
  {
    if rs != [] {
      var front, r := rs[..|rs| - 1], rs[|rs| - 1];
      AcceptedIffEachSettles(front, m);
      assert forall i :: 0 <= i < |rs| ==> rs[i] == if i < |front| then front[i] else r;
      if Values(front, m).Good? { LastSettlesFromOriginal(front, r, m); }
    }
  }

  lemma LastSettlesFromOriginal(front: seq<Rule>, r: Rule, m: map<string, Val>)
    requires DistinctNames(front) && Values(front, m).Good? && forall i :: 0 <= i < |front| ==> front[i].name != r.name
    ensures Values(front, m).v.Obj?
    ensures OneRule(r, Values(front, m).v.fields).Good? <==> CanSettle(r, Get(m, r.name))
  {
    RulesSettle(front, m);
    assert Get(Values(front, m).v.fields, r.name) == Get(m, r.name);
  }

  lemma {:induction false} UnchangedByAll(rs: seq<Rule>, m: map<string, Val>)
    requires forall i :: 0 <= i < |rs| ==> OneRule(rs[i], m) == Good(Obj(m))
    ensures Values(rs, m) == Good(Obj(m))
  {
    if rs != [] { UnchangedByAll(rs[..|rs| - 1], m); }
  }

  lemma SettledIsUnchanged(r: Rule, m: map<string, Val>)
    requires Settles(r, Get(m, r.name), Get(m, r.name)) && (Truthy(r.default) ==> Truthy(Get(m, r.name)))
    ensures OneRule(r, m) == Good(Obj(m))
  {
    if Truthy(Get(m, r.name)) { assert m[r.name := m[r.name]] == m; }
  }

  lemma TruthyStaysTruthy(r: Rule, v: Val)
    requires Value(r, v).Good? && Truthy(v)
    ensures Truthy(Value(r, v).v)
  {
    if r.kind == "array" && r.element.Some? {
      ElementsShape(r.element.value, v.items);
    } else if r.kind == "object" && r.rules.RuleList? && r.rules.list != [] {
      ValuesShape(r.rules.list, v.fields);
    }
  }

  /** Validating a validated value succeeds and changes nothing. */
  lemma {:induction false} ValueIdempotent(r: Rule, v: Val)
    requires StableInside(r) && Value(r, v).Good?
    ensures Value(r, Value(r, v).v) == Value(r, v)
    decreases r, 1
  {
    if r.kind == "array" && r.element.Some? {
      var e, items := r.element.value, v.items;
      ElementsShape(e, items);
      var vs := Value(r, v).v.items;
      forall i | 0 <= i < |items| ensures Value(e, vs[i]) == Good(vs[i]) { ValueIdempotent(e, items[i]); }
      ElementsFrom(e, vs, vs);
    } else if r.kind == "object" && r.rules.RuleList? && r.rules.list != [] {
      ValuesShape(r.rules.list, v.fields);
      ValuesIdempotent(r.rules.list, v.fields);
    }
  }

  /** The whole validator is idempotent, at any nesting of arrays and objects. */
  lemma {:induction false} ValuesIdempotent(rs: seq<Rule>, m: map<string, Val>)
    requires StableRules(rs) && Values(rs, m).Good?
    ensures Values(rs, m).v.Obj? && Values(rs, Values(rs, m).v.fields) == Values(rs, m)
    decreases rs, 0
  {
    RulesSettle(rs, m);
    var m' := Values(rs, m).v.fields;
    forall i | 0 <= i < |rs| ensures OneRule(rs[i], m') == Good(Obj(m')) {
      var r := rs[i];
      assert Settles(r, Get(m, r.name), Get(m', r.name)) && FixedDefault(r);
      if Truthy(Get(m, r.name)) {
        ValueIdempotent(r, Get(m, r.name));
        TruthyStaysTruthy(r, Get(m, r.name));
      }
      SettledIsUnchanged(r, m');
    }
    UnchangedByAll(rs, m');
  }

  /** After a successful validation every required key is truthy, and a key without a rule is as
      it was. */
  lemma ValidatedObject(rs: seq<Rule>, m: map<string, Val>)
    requires DistinctNames(rs) && Values(rs, m).Good?
    ensures Values(rs, m).v.Obj?
    ensures forall i :: 0 <= i < |rs| && rs[i].required ==> Truthy(Get(Values(rs, m).v.fields, rs[i].name))
    ensures forall k :: (forall i :: 0 <= i < |rs| ==> rs[i].name != k) ==>
              (k in Values(rs, m).v.fields <==> k in m) && Get(Values(rs, m).v.fields, k) == Get(m, k)
  {
    RulesSettle(rs, m);
    forall i | 0 <= i < |rs| && rs[i].required ensures Truthy(Get(Values(rs, m).v.fields, rs[i].name)) {
      assert Settles(rs[i], Get(m, rs[i].name), Get(Values(rs, m).v.fields, rs[i].name));
      if Truthy(Get(m, rs[i].name)) { TruthyStaysTruthy(rs[i], Get(m, rs[i].name)); }
    }
  }

  /** The defaults written by a validation are fixed points of their rules. */
  ghost predicate UsedDefaultsFixed(rs: seq<Rule>, m: map<string, Val>) {
    forall i :: 0 <= i < |rs| && !Truthy(Get(m, rs[i].name)) ==> FixedDefault(rs[i])
  }

  /** For rules with distinct names whose inner rules are stable, a second validation agrees with
      the first if and only if the defaults the first one wrote are fixed points. */
  lemma IdempotentIffDefaultsFixed(rs: seq<Rule>, m: map<string, Val>)
    requires DistinctNames(rs) && (forall i :: 0 <= i < |rs| ==> StableInside(rs[i])) && Values(rs, m).Good?
    ensures Values(rs, m).v.Obj?
    ensures Values(rs, Values(rs, m).v.fields) == Values(rs, m) <==> UsedDefaultsFixed(rs, m)
  {
    RulesSettle(rs, m);
    var m' := Values(rs, m).v.fields;
    if Values(rs, m') == Good(Obj(m')) {
      RulesSettle(rs, m');
      forall i | 0 <= i < |rs| && !Truthy(Get(m, rs[i].name)) ensures FixedDefault(rs[i]) {
        assert Settles(rs[i], Get(m, rs[i].name), Get(m', rs[i].name));
        assert Settles(rs[i], Get(m', rs[i].name), Get(m', rs[i].name));
      }
    }
    if UsedDefaultsFixed(rs, m) {
      forall i | 0 <= i < |rs| ensures OneRule(rs[i], m') == Good(Obj(m')) {
        var r := rs[i];
        assert Settles(r, Get(m, r.name), Get(m', r.name));
        if Truthy(Get(m, r.name)) {
          ValueIdempotent(r, Get(m, r.name));
          TruthyStaysTruthy(r, Get(m, r.name));
        }
        SettledIsUnchanged(r, m');
      }
      UnchangedByAll(rs, m');
    }
  }

  /** An object is left as the rules before the one that stopped the validation have written it, and
      with the outcome that rule gave. */
  lemma {:induction false} LeftAtTheStop(rs: seq<Rule>, m: map<string, Val>) returns (n: nat)
    ensures n <= |rs| && Values(rs[..n], m) == Good(Obj(Left(rs, m)))
    ensures Values(rs, m).Good? <==> n == |rs|
    ensures n < |rs| ==> OneRule(rs[n], Left(rs, m)) == Values(rs, m)
  {
    ValuesShape(rs, m);
    n := |rs|;
    if Values(rs, m).Good? {
      assert rs[..n] == rs;
    } else {
      var front := rs[..n - 1];
      ValuesShape(front, m);
      n := LeftAtTheStop(front, m);
      assert rs[..n] == front[..n];
    }
  }

  // ------------------------------------------------------------------------ in place

  /** A supplied object, overwritten key by key. */
  class Supplied {
    var fields: map<string, Val>

    constructor (fields: map<string, Val>)
      ensures this.fields == fields
    {
      this.fields := fields;
    }
  }

  method ValidateValue(r: Rule, v: Val) returns (o: Outcome)
    ensures o == Value(r, v)
    decreases r, 2
  {
    if r.kind == "array" && v.Arr? && r.element.Some? && !(r.size != 0 && |v.items| != r.size) {
      o := ValidateElements(r.element.value, v.items);
    } else if r.kind == "object" && v.Obj? && r.rules.RuleList? && r.rules.list != [] {
      var nested := new Supplied(v.fields);
      o := ValidateValues(r.rules.list, nested);
    } else {
      o := Value(r, v);
    }
  }

  method ValidateElements(r: Rule, items: seq<Val>) returns (o: Outcome)
    ensures o == Elements(r, items)
    decreases r, 3
  {
    var vs: seq<Val> := [];
    for x := 0 to |items|
      invariant Elements(r, items[..x]) == Good(Arr(vs))
    {
      assert items[..x + 1][..x] == items[..x];
      o := ValidateValue(r, items[x]);
      if !o.Good? {
        ElementsStop(r, items, x + 1);
        return;
      }
      vs := vs + [o.v];
    }
    assert items[..|items|] == items;
    o := Good(Arr(vs));
  }

  /** `valuesValidator` on an object that it rewrites, also when it ends with an error. */
  method ValidateValues(rs: seq<Rule>, supplied: Supplied) returns (o: Outcome)
    modifies supplied
    ensures o == Values(rs, old(supplied.fields))
    ensures supplied.fields == Left(rs, old(supplied.fields))
    decreases rs, 0
  {
    ghost var m := supplied.fields;
    for i := 0 to |rs|
      invariant Values(rs[..i], m) == Good(Obj(supplied.fields)) && supplied.fields == Left(rs[..i], m)
    {
      assert rs[..i + 1][..i] == rs[..i];
      var r := rs[i];
      if !Truthy(Get(supplied.fields, r.name)) {
        if r.required && !Truthy(r.default) {
          ValuesStop(rs, m, i + 1);
          return Bad;
        }
        if Truthy(r.default) {
          supplied.fields := supplied.fields[r.name := r.default];
        }
      } else {
        o := ValidateValue(r, Get(supplied.fields, r.name));
        if !o.Good? {
          ValuesStop(rs, m, i + 1);
          return;
        }
        supplied.fields := supplied.fields[r.name := o.v];
      }
    }
    assert rs[..|rs|] == rs;
    o := Good(Obj(supplied.fields));
  }

  lemma {:induction false} ElementsStop(r: Rule, items: seq<Val>, n: nat)
    requires n <= |items| && !Elements(r, items[..n]).Good?
    ensures Elements(r, items) == Elements(r, items[..n])
    decreases |items| - n
  {
    if n == |items| {
      assert items[..n] == items;
    } else {
      assert items[..n + 1][..n] == items[..n];
      ElementsStop(r, items, n + 1);
    }
  }

  lemma {:induction false} ValuesStop(rs: seq<Rule>, m: map<string, Val>, n: nat)
    requires n <= |rs| && !Values(rs[..n], m).Good?
    ensures Values(rs, m) == Values(rs[..n], m) && Left(rs, m) == Left(rs[..n], m)
    decreases |rs| - n
  {
    if n == |rs| {
      assert rs[..n] == rs;
    } else {
      assert rs[..n + 1][..n] == rs[..n];
      ValuesStop(rs, m, n + 1);
    }
  }
}
