/** A dictionary kept in Redis under a namespace: each key has a value entry and a type entry. */
module StateDict {
  import opened Wrappers

  type Data = map<string, string>

  /** `NoValue` stands for the null read when a basic key has no value entry, `Unpickling` for the exception
      that reading a pickled entry as text raises. */
  datatype Result = Ok(value: string) | NoValue | Done | KeyError | ValueError | Unpickling

  datatype Op =
    | Set(key: string, text: string)
    | Get(key: string, otherwise: Option<string>)
    | Delete(key: string)
    | Pop(key: string, otherwise: Option<string>)
    | SetDefault(key: string, text: string)
    | Clear

  function EntryKey(ns: string, key: string): string {
    ns + ":" + key
  }

  function TypeKey(ns: string, key: string): string {
    ns + ":type:" + key
  }

  /** Redis patterns without bracket classes and escapes. */
  predicate GlobMatch(pattern: string, s: string)
    decreases |pattern| + |s|
  {
    if pattern == "" then s == ""
    else if pattern[0] == '*' then GlobMatch(pattern[1..], s) || (s != "" && GlobMatch(pattern, s[1..]))
    else s != "" && (pattern[0] == '?' || pattern[0] == s[0]) && GlobMatch(pattern[1..], s[1..])
  }

  function Scan(data: Data, pattern: string): set<string> {
    set raw | raw in data && GlobMatch(pattern, raw)
  }

  /** The value entries of a namespace as the iterating operations find them. */
  function ValueEntries(data: Data, ns: string): set<string> {
    Scan(data, ns + ":*") - Scan(data, ns + ":type:*")
  }

  function Keys(data: Data, ns: string): set<string> {
    set raw | raw in ValueEntries(data, ns) :: Suffix(ns, raw)
  }

  function Lookup(data: Data, ns: string, key: string): Result {
    if TypeKey(ns, key) !in data then KeyError
    else if data[TypeKey(ns, key)] == "basic" then
      if EntryKey(ns, key) in data then Ok(data[EntryKey(ns, key)]) else NoValue
    else if data[TypeKey(ns, key)] == "pickle" then Unpickling
    else ValueError
  }

  function Put(data: Data, ns: string, key: string, text: string): Data {
    data[EntryKey(ns, key) := text][TypeKey(ns, key) := "basic"]
  }

  function Remove(data: Data, ns: string, key: string): (Data, Result) {
    if EntryKey(ns, key) in data then (data - {EntryKey(ns, key)} - {TypeKey(ns, key)}, Done) else (data, KeyError)
  }

  function Apply(data: Data, ns: string, op: Op): (Data, Result) {
    match op
    case Set(key, text) => (Put(data, ns, key, text), Done)
    case Get(key, otherwise) =>
      var r := Lookup(data, ns, key);
      (data, if r == KeyError && otherwise.Some? then Ok(otherwise.value) else r)
    case Delete(key) => Remove(data, ns, key)
    case Pop(key, otherwise) =>
      var r := Lookup(data, ns, key);
      var (left, removed) := Remove(data, ns, key);
      if r.ValueError? || r.Unpickling? then (data, r)
      else if r.KeyError? || removed.KeyError? then (data, if otherwise.Some? then Ok(otherwise.value) else KeyError)
      else (left, r)
    case SetDefault(key, text) =>
      var r := Lookup(data, ns, key);
      if r.KeyError? then (Put(data, ns, key, text), Ok(text)) else (data, r)
    case Clear => (data - Scan(data, ns + ":*") - Scan(data, ns + ":type:*"), Done)
  }

  // ------------------------------------------------------------------- the dictionary class

  /** The store shared by all dictionaries. */
  class Redis {
    var data: Data

    constructor ()
      ensures data == map[]
    {
      data := map[];
    }
  }

  class StateDictV2 {
    const namespace: string
    const client: Redis

    constructor (namespace: string, client: Redis)
      ensures this.namespace == namespace && this.client == client
    {
      this.namespace := namespace;
      this.client := client;
    }

    method GetItem(key: string) returns (r: Result)
      ensures r == Lookup(client.data, namespace, key)
    {
      var typeKey := TypeKey(namespace, key);
      if typeKey !in client.data {
        return KeyError;
      }
      if client.data[typeKey] == "basic" {
        var entry := EntryKey(namespace, key);
        return if entry in client.data then Ok(client.data[entry]) else NoValue;
      }
      r := if client.data[typeKey] == "pickle" then Unpickling else ValueError;
    }

    method SetItem(key: string, text: string)
      modifies client
      ensures client.data == Put(old(client.data), namespace, key, text)
    {
      client.data := client.data[EntryKey(namespace, key) := text];
      client.data := client.data[TypeKey(namespace, key) := "basic"];
    }

    method DelItem(key: string) returns (r: Result)
      modifies client
      ensures (client.data, r) == Remove(old(client.data), namespace, key)
    {
      var entry := EntryKey(namespace, key);
      if entry !in client.data {
        return KeyError;
      }
      client.data := client.data - {entry};
      client.data := client.data - {TypeKey(namespace, key)};
      r := Done;
    }

    method GetOr(key: string, otherwise: Option<string>) returns (r: Result)
      ensures r == Apply(client.data, namespace, Get(key, otherwise)).1
    {
      r := GetItem(key);
      if r == KeyError && otherwise.Some? {
        r := Ok(otherwise.value);
      }
    }

    method PopItem(key: string, otherwise: Option<string>) returns (r: Result)
      modifies client
      ensures (client.data, r) == Apply(old(client.data), namespace, Pop(key, otherwise))
    {
      r := GetItem(key);
      if r.ValueError? || r.Unpickling? {
        return;
      }
      if !r.KeyError? {
        var removed := DelItem(key);
        if !removed.KeyError? {
          return;
        }
      }
      r := if otherwise.Some? then Ok(otherwise.value) else KeyError;
    }

    method SetDefaultItem(key: string, text: string) returns (r: Result)
      modifies client
      ensures (client.data, r) == Apply(old(client.data), namespace, SetDefault(key, text))
    {
      r := GetItem(key);
      if r.KeyError? {
        SetItem(key, text);
        r := Ok(text);
      }
    }

    method ClearAll()
      modifies client
      ensures client.data == Apply(old(client.data), namespace, Clear).0
    {
      var entries := Scan(client.data, namespace + ":*");
      var types := Scan(client.data, namespace + ":type:*");
      if entries != {} {
        client.data := client.data - entries;
      }
      if types != {} {
        client.data := client.data - types;
      }
    }

    /** Membership agrees with the dictionary, except that a type entry read as a value counts too. */
    method Contains(key: string) returns (found: bool)
      ensures GlobFree(namespace) ==>
                (found <==> key in View(client.data, namespace) ||
                            (Reserved(key) && EntryKey(namespace, key) in client.data))
      ensures found <==> EntryKey(namespace, key) in client.data
    {
      found := EntryKey(namespace, key) in client.data;
      if GlobFree(namespace) { ReadsAgree(client.data, namespace, key); }
    }

    method Length() returns (n: nat)
      ensures GlobFree(namespace) ==> n == |View(client.data, namespace)|
      ensures n == |ValueEntries(client.data, namespace)|
    {
      n := |ValueEntries(client.data, namespace)|;
      if GlobFree(namespace) { ReadsAgree(client.data, namespace, ""); }
    }
  }

  // ------------------------------------------------------------------- patterns are prefixes

  predicate GlobFree(ns: string) {
    forall i :: 0 <= i < |ns| ==> ns[i] !in "*?[\\"
  }

  lemma {:induction false} StarMatchesAll(s: string)
    ensures GlobMatch("*", s)
  {
    if s == "" {
      assert "*"[1..] == "";
    } else {
      StarMatchesAll(s[1..]);
    }
  }

  /** A literal followed by a star matches exactly the strings that begin with the literal. */
  lemma {:induction false} PrefixPattern(literal: string, s: string)
    requires GlobFree(literal)
    ensures GlobMatch(literal + "*", s) <==> literal <= s
  {
    if literal == "" {
      assert literal + "*" == "*";
      StarMatchesAll(s);
    } else {
      assert (literal + "*")[1..] == literal[1..] + "*";
      if s != "" && literal[0] == s[0] {
        PrefixPattern(literal[1..], s[1..]);
        assert literal == [literal[0]] + literal[1..] && s == [s[0]] + s[1..];
      }
    }
  }

  /** Keys that collide with the type entries. */
  predicate Reserved(key: string) {
    "type:" <= key
  }

  lemma EntryIsType(ns: string, key: string)
    ensures TypeKey(ns, key) == EntryKey(ns, "type:" + key)
    ensures (ns + ":type:" <= EntryKey(ns, key)) <==> Reserved(key)
    ensures ns + ":" <= EntryKey(ns, key) && EntryKey(ns, key)[|ns| + 1..] == key
  {
    assert ns + ":type:" == (ns + ":") + "type:";
    assert EntryKey(ns, key) == (ns + ":") + key;
    if Reserved(key) {
      assert EntryKey(ns, key) == (ns + ":type:") + key[5..];
    }
    if ns + ":type:" <= EntryKey(ns, key) {
      assert EntryKey(ns, key)[..|ns| + 6] == ns + ":type:";
      assert key[..5] == EntryKey(ns, key)[|ns| + 1..|ns| + 6] == (ns + ":type:")[|ns| + 1..];
    }
  }

  lemma RawIsEntry(ns: string, raw: string)
    requires ns + ":" <= raw
    ensures raw == EntryKey(ns, raw[|ns| + 1..])
  {
  }

  lemma ScannedEntries(data: Data, ns: string, raw: string)
    requires GlobFree(ns)
    ensures raw in Scan(data, ns + ":*") <==> raw in data && ns + ":" <= raw
    ensures raw in Scan(data, ns + ":type:*") <==> raw in data && ns + ":type:" <= raw
  {
    assert ns + ":*" == (ns + ":") + "*" && ns + ":type:*" == (ns + ":type:") + "*";
    PrefixPattern(ns + ":", raw);
    PrefixPattern(ns + ":type:", raw);
  }

  /** Iteration finds exactly the keys with a value entry, except the reserved ones. */
  lemma KeysMeaning(data: Data, ns: string, key: string)
    requires GlobFree(ns)
    ensures key in Keys(data, ns) <==> EntryKey(ns, key) in data && !Reserved(key)
  {
    EntryIsType(ns, key);
    ScannedEntries(data, ns, EntryKey(ns, key));
    if EntryKey(ns, key) in ValueEntries(data, ns) {
      assert key in Keys(data, ns);
    }
    if key in Keys(data, ns) {
      var raw :| raw in ValueEntries(data, ns) && key == Suffix(ns, raw);
      ScannedEntries(data, ns, raw);
      RawIsEntry(ns, raw);
    }
  }

  // ------------------------------------------------------------------- refinement of a map

  predicate Under(ns: string, raw: string) {
    ns + ":" <= raw
  }

  function Suffix(ns: string, raw: string): string {
    if |raw| > |ns| then raw[|ns| + 1..] else ""
  }

  /** The keys of all entries under a namespace, those of the type entries included. */
  function Suffixes(data: Data, ns: string): set<string> {
    set raw | raw in data && Under(ns, raw) :: Suffix(ns, raw)
  }

  /** The dictionary a namespace represents: a key has a value if it has a value entry and is not reserved. */
  function View(data: Data, ns: string): map<string, string> {
    map key | key in Suffixes(data, ns) && EntryKey(ns, key) in data && !Reserved(key) :: data[EntryKey(ns, key)]
  }

  /** A type entry exists exactly when the value entry does, and says the value is basic. */
  ghost predicate Paired(data: Data, ns: string) {
    && (forall key {:trigger TypeKey(ns, key)} :: !Reserved(key) ==>
          (TypeKey(ns, key) in data <==> EntryKey(ns, key) in data) &&
          (TypeKey(ns, key) in data ==> data[TypeKey(ns, key)] == "basic"))
  }

  lemma ViewMeaning(data: Data, ns: string, key: string)
    ensures key in View(data, ns) <==> EntryKey(ns, key) in data && !Reserved(key)
    ensures key in View(data, ns) ==> View(data, ns)[key] == data[EntryKey(ns, key)]
  {
    EntryIsType(ns, key);
    if EntryKey(ns, key) in data { assert Suffix(ns, EntryKey(ns, key)) in Suffixes(data, ns); }
  }

  lemma ViewIs(data: Data, ns: string, m: map<string, string>)
    requires forall key :: key in m <==> EntryKey(ns, key) in data && !Reserved(key)
    requires forall key :: key in m ==> m[key] == data[EntryKey(ns, key)]
    ensures View(data, ns) == m
  {
    forall key ensures (key in View(data, ns) <==> key in m) && (key in m ==> View(data, ns)[key] == m[key]) {
      ViewMeaning(data, ns, key);
    }
  }

  /** The same operations on an ordinary map. */
  function Act(m: map<string, string>, op: Op): (map<string, string>, Result) {
    match op
    case Set(key, text) => (m[key := text], Done)
    case Get(key, otherwise) =>
      (m, if key in m then Ok(m[key]) else if otherwise.Some? then Ok(otherwise.value) else KeyError)
    case Delete(key) => if key in m then (m - {key}, Done) else (m, KeyError)
    case Pop(key, otherwise) =>
      if key in m then (m - {key}, Ok(m[key])) else (m, if otherwise.Some? then Ok(otherwise.value) else KeyError)
    case SetDefault(key, text) => if key in m then (m, Ok(m[key])) else (m[key := text], Ok(text))
    case Clear => (map[], Done)
  }

  predicate Ordinary(op: Op) {
    op.Clear? || !Reserved(op.key)
  }

  lemma DistinctEntries(ns: string, a: string, b: string)
    ensures EntryKey(ns, a) == EntryKey(ns, b) <==> a == b
    ensures TypeKey(ns, a) == TypeKey(ns, b) <==> a == b
    ensures !Reserved(a) ==> EntryKey(ns, a) != TypeKey(ns, b)
  {
    EntryIsType(ns, a);
    EntryIsType(ns, b);
    EntryIsType(ns, "type:" + b);
    EntryIsType(ns, "type:" + a);
    assert ("type:" + a)[5..] == a && ("type:" + b)[5..] == b;
  }

  lemma PutRefines(data: Data, ns: string, key: string, text: string)
    requires Paired(data, ns) && !Reserved(key)
    ensures Paired(Put(data, ns, key, text), ns)
    ensures View(Put(data, ns, key, text), ns) == View(data, ns)[key := text]
  {
    var after, m := Put(data, ns, key, text), View(data, ns)[key := text];
    forall k | !Reserved(k)
      ensures EntryKey(ns, k) in after <==> k == key || EntryKey(ns, k) in data
      ensures EntryKey(ns, k) in after ==> after[EntryKey(ns, k)] == if k == key then text else data[EntryKey(ns, k)]
      ensures TypeKey(ns, k) in after <==> k == key || TypeKey(ns, k) in data
      ensures TypeKey(ns, k) in after ==> after[TypeKey(ns, k)] == if k == key then "basic" else data[TypeKey(ns, k)]
    {
      DistinctEntries(ns, k, key);
      DistinctEntries(ns, key, k);
    }
    forall k
      ensures k in m <==> EntryKey(ns, k) in after && !Reserved(k)
      ensures k in m ==> m[k] == after[EntryKey(ns, k)]
    {
      ViewMeaning(data, ns, k);
    }
    ViewIs(after, ns, m);
  }

  lemma RemoveRefines(data: Data, ns: string, key: string)
    requires Paired(data, ns) && !Reserved(key)
    ensures var (after, r) := Remove(data, ns, key);
            Paired(after, ns) && (View(after, ns), r) == Act(View(data, ns), Delete(key))
  {
    var after, m := Remove(data, ns, key).0, View(data, ns) - {key};
    ViewMeaning(data, ns, key);
    if EntryKey(ns, key) in data {
      forall k | !Reserved(k)
        ensures EntryKey(ns, k) in after <==> k != key && EntryKey(ns, k) in data
        ensures TypeKey(ns, k) in after <==> k != key && TypeKey(ns, k) in data
      {
        DistinctEntries(ns, k, key);
        DistinctEntries(ns, key, k);
      }
      forall k
        ensures k in m <==> EntryKey(ns, k) in after && !Reserved(k)
        ensures k in m ==> m[k] == after[EntryKey(ns, k)]
      {
        ViewMeaning(data, ns, k);
      }
      ViewIs(after, ns, m);
    }
  }

  lemma ClearRefines(data: Data, ns: string)
    requires GlobFree(ns)
    ensures var after := Apply(data, ns, Clear).0;
            Paired(after, ns) && View(after, ns) == map[]
  {
    var after := Apply(data, ns, Clear).0;
    forall k
      ensures EntryKey(ns, k) !in after
      ensures TypeKey(ns, k) !in after
    {
      EntryIsType(ns, k);
      EntryIsType(ns, "type:" + k);
      ScannedEntries(data, ns, EntryKey(ns, k));
      ScannedEntries(data, ns, TypeKey(ns, k));
    }
    ViewIs(after, ns, map[]);
  }

  lemma LookupRefines(data: Data, ns: string, key: string)
    requires Paired(data, ns) && !Reserved(key)
    ensures var m := View(data, ns); Lookup(data, ns, key) == if key in m then Ok(m[key]) else KeyError
  {
    ViewMeaning(data, ns, key);
    assert TypeKey(ns, key) in data <==> EntryKey(ns, key) in data;
  }

  /** Every operation on keys that are not reserved does to the dictionary, and returns, what it would
      on an ordinary map, and keeps value and type entries paired. */
  lemma OperationRefines(data: Data, ns: string, op: Op)
    requires GlobFree(ns) && Paired(data, ns) && Ordinary(op)
    ensures Paired(Apply(data, ns, op).0, ns)
    ensures (View(Apply(data, ns, op).0, ns), Apply(data, ns, op).1) == Act(View(data, ns), op)
  {
    match op
    case Set(key, text) => PutRefines(data, ns, key, text);
    case Get(key, otherwise) => LookupRefines(data, ns, key);
    case Delete(key) => RemoveRefines(data, ns, key);
    case Pop(key, otherwise) =>
      LookupRefines(data, ns, key);
      RemoveRefines(data, ns, key);
    case SetDefault(key, text) =>
      LookupRefines(data, ns, key);
      PutRefines(data, ns, key, text);
    case Clear => ClearRefines(data, ns);
  }

  /** Membership, iteration and length agree with the dictionary. */
  lemma ReadsAgree(data: Data, ns: string, key: string)
    requires GlobFree(ns)
    ensures Keys(data, ns) == View(data, ns).Keys
    ensures |ValueEntries(data, ns)| == |View(data, ns)|
    ensures (EntryKey(ns, key) in data <==> key in View(data, ns)) <==> !(Reserved(key) && EntryKey(ns, key) in data)
  {
    forall k ensures k in Keys(data, ns) <==> k in View(data, ns) {
      KeysMeaning(data, ns, k);
      ViewMeaning(data, ns, k);
    }
    ViewMeaning(data, ns, key);
    forall raw | raw in ValueEntries(data, ns) ensures ns + ":" <= raw {
      ScannedEntries(data, ns, raw);
    }
    StrippingKeepsSize(ValueEntries(data, ns), ns);
    assert Keys(data, ns) == Stripped(ValueEntries(data, ns), ns);
    assert |View(data, ns)| == |View(data, ns).Keys|;
  }

  function Stripped(raws: set<string>, ns: string): set<string> {
    set raw | raw in raws :: Suffix(ns, raw)
  }

  lemma {:induction false} StrippingKeepsSize(raws: set<string>, ns: string)
    requires forall raw :: raw in raws ==> ns + ":" <= raw
    ensures |Stripped(raws, ns)| == |raws|
    decreases |raws|
  {
    if raw :| raw in raws {
      var rest, key := raws - {raw}, raw[|ns| + 1..];
      StrippingKeepsSize(rest, ns);
      RawIsEntry(ns, raw);
      forall other | other in rest ensures other[|ns| + 1..] != key {
        RawIsEntry(ns, other);
      }
      assert Stripped(raws, ns) == Stripped(rest, ns) + {key};
    } else {
      assert Stripped(raws, ns) == {};
    }
  }

  // ------------------------------------------------------------------- several namespaces

  predicate Separate(a: string, b: string) {
    !(a + ":" <= b + ":") && !(b + ":" <= a + ":")
  }

  /** Two namespaces share no entry exactly when neither, with its colon, begins the other. */
  lemma SeparateIffDisjoint(a: string, b: string)
    ensures Separate(a, b) <==> forall raw :: !(Under(a, raw) && Under(b, raw))
  {
    forall raw: string ensures Under(a, raw) && Under(b, raw) ==> !Separate(a, b) {
      if Under(a, raw) && Under(b, raw) {
        if |a| <= |b| {
          assert a + ":" == raw[..|a| + 1] == (b + ":")[..|a| + 1];
        } else {
          assert b + ":" == raw[..|b| + 1] == (a + ":")[..|b| + 1];
        }
      }
    }
    assert Under(b, b + ":") && Under(a, a + ":");
  }

  ghost predicate SameIn(before: Data, after: Data, ns: string) {
    forall raw :: Under(ns, raw) ==> (raw in before <==> raw in after) && (raw in before ==> before[raw] == after[raw])
  }

  lemma OwnEntries(ns: string, key: string)
    ensures Under(ns, EntryKey(ns, key)) && Under(ns, TypeKey(ns, key))
  {
    EntryIsType(ns, key);
    EntryIsType(ns, "type:" + key);
  }

  lemma ClearOnlyOwn(data: Data, ns: string, raw: string)
    requires GlobFree(ns) && !Under(ns, raw)
    ensures raw !in Scan(data, ns + ":*") && raw !in Scan(data, ns + ":type:*")
  {
    ScannedEntries(data, ns, raw);
    assert ns + ":" <= ns + ":type:";
  }

  lemma OtherNamespaceUntouched(data: Data, ns: string, op: Op, other: string)
    requires GlobFree(ns) && Separate(ns, other)
    ensures SameIn(data, Apply(data, ns, op).0, other)
  {
    SeparateIffDisjoint(ns, other);
    if op.Clear? {
      forall raw | Under(other, raw) ensures raw !in Scan(data, ns + ":*") && raw !in Scan(data, ns + ":type:*") {
        ClearOnlyOwn(data, ns, raw);
      }
    } else {
      OwnEntries(ns, op.key);
    }
  }

  lemma SameView(before: Data, after: Data, ns: string)
    requires SameIn(before, after, ns) && Paired(before, ns)
    ensures View(after, ns) == View(before, ns) && Paired(after, ns)
  {
    forall key
      ensures key in View(before, ns) <==> EntryKey(ns, key) in after && !Reserved(key)
      ensures key in View(before, ns) ==> View(before, ns)[key] == after[EntryKey(ns, key)]
      ensures TypeKey(ns, key) in before <==> TypeKey(ns, key) in after
      ensures TypeKey(ns, key) in before ==> before[TypeKey(ns, key)] == after[TypeKey(ns, key)]
      ensures EntryKey(ns, key) in before <==> EntryKey(ns, key) in after
    {
      EntryIsType(ns, key);
      EntryIsType(ns, "type:" + key);
      ViewMeaning(before, ns, key);
    }
    ViewIs(after, ns, View(before, ns));
  }

  datatype Step = Step(ns: string, op: Op)

  /** The store after dictionaries in several namespaces have been used in any order. */
  function RunAll(steps: seq<Step>): Data {
    if steps == [] then map[]
    else Apply(RunAll(steps[..|steps| - 1]), steps[|steps| - 1].ns, steps[|steps| - 1].op).0
  }

  function ActAll(steps: seq<Step>, ns: string): map<string, string> {
    if steps == [] then map[]
    else
      var m := ActAll(steps[..|steps| - 1], ns);
      if steps[|steps| - 1].ns == ns then Act(m, steps[|steps| - 1].op).0 else m
  }

  /** However operations in separate namespaces interleave, each dictionary is the map its own
      operations alone would have built. */
  lemma {:induction false} NamespacesAreIndependentMaps(steps: seq<Step>, ns: string)
    requires GlobFree(ns)
    requires forall i :: 0 <= i < |steps| ==>
               GlobFree(steps[i].ns) && Ordinary(steps[i].op) && (steps[i].ns == ns || Separate(steps[i].ns, ns))
    ensures Paired(RunAll(steps), ns) && View(RunAll(steps), ns) == ActAll(steps, ns)
  {
    if steps == [] {
      ViewIs(map[], ns, map[]);
    } else {
      var front, last := steps[..|steps| - 1], steps[|steps| - 1];
      assert last == steps[|steps| - 1];
      NamespacesAreIndependentMaps(front, ns);
      if last.ns == ns {
        OperationRefines(RunAll(front), ns, last.op);
      } else {
        OtherNamespaceUntouched(RunAll(front), last.ns, last.op, ns);
        SameView(RunAll(front), RunAll(steps), ns);
      }
    }
  }

  // ------------------------------------------------------------------- where it is not a map

  /** Writing a key that begins with `type:` overwrites another key's type entry: reading that key
      fails unless the text happens to name a known type. */
  lemma ReservedKeyBreaksAnother(data: Data, ns: string, key: string, text: string)
    requires EntryKey(ns, key) in data
    ensures Lookup(Put(data, ns, "type:" + key, text), ns, key) ==
            if text == "basic" then Ok(data[EntryKey(ns, key)]) else if text == "pickle" then Unpickling else ValueError
  {
    var after := Put(data, ns, "type:" + key, text);
    EntryIsType(ns, key);
    EntryIsType(ns, "type:" + key);
    LongerEntries(ns, key);
    assert after[TypeKey(ns, key)] == text;
    assert after[EntryKey(ns, key)] == data[EntryKey(ns, key)];
  }

  /** A type entry that is not basic makes every read raise, with or without a default, and nothing
      is then written or deleted. */
  lemma BadTypeIsRaised(data: Data, ns: string, key: string, otherwise: Option<string>, text: string)
    requires TypeKey(ns, key) in data && data[TypeKey(ns, key)] != "basic"
    ensures var failed := (data, if data[TypeKey(ns, key)] == "pickle" then Unpickling else ValueError);
            && Apply(data, ns, Get(key, otherwise)) == failed
            && Apply(data, ns, Pop(key, otherwise)) == failed
            && Apply(data, ns, SetDefault(key, text)) == failed
  {
  }

  /** A type entry without its value entry reads as null, which no default replaces, but popping it
      counts as a missing key. */
  lemma TypeWithoutValue(data: Data, ns: string, key: string, otherwise: Option<string>, text: string)
    requires TypeKey(ns, key) in data && data[TypeKey(ns, key)] == "basic" && EntryKey(ns, key) !in data
    ensures Apply(data, ns, Get(key, otherwise)) == (data, NoValue)
    ensures Apply(data, ns, SetDefault(key, text)) == (data, NoValue)
    ensures Apply(data, ns, Pop(key, otherwise)) ==
            (data, if otherwise.Some? then Ok(otherwise.value) else KeyError)
  {
  }

  lemma LongerEntries(ns: string, key: string)
    ensures |EntryKey(ns, key)| < |TypeKey(ns, key)| < |TypeKey(ns, "type:" + key)|
  {
  }

  /** A namespace that continues another one after a colon shows its entries there. */
  lemma NestedNamespaceShows(data: Data, ns: string, inner: string, key: string, text: string)
    requires GlobFree(ns) && !Reserved(inner + ":" + key)
    ensures inner + ":" + key in Keys(Put(data, ns + ":" + inner, key, text), ns)
  {
    var after := Put(data, ns + ":" + inner, key, text);
    assert EntryKey(ns + ":" + inner, key) == EntryKey(ns, inner + ":" + key);
    KeysMeaning(after, ns, inner + ":" + key);
  }

  /** Namespaces whose patterns are modelled: no bracket class and no escape. */
  predicate Modelled(ns: string) {
    forall i :: 0 <= i < |ns| ==> ns[i] !in "[\\"
  }

  /** A pattern matches what differs from it at its stars and question marks only. */
  /** A star stands for any stretch of characters. */
  lemma {:induction false} StarIsAnyStretch(p: string, s: string)
    ensures GlobMatch("*" + p, s) <==> exists k :: 0 <= k <= |s| && GlobMatch(p, s[k..])
    decreases |s|
  {
    assert ("*" + p)[1..] == p && s[0..] == s;
    if s != "" {
      StarIsAnyStretch(p, s[1..]);
      if k :| 0 < k <= |s| && GlobMatch(p, s[k..]) {
        assert s[1..][k - 1..] == s[k..];
      }
      if k :| 0 <= k <= |s[1..]| && GlobMatch(p, s[1..][k..]) {
        assert s[1..][k..] == s[k + 1..];
      }
    }
  }

  lemma {:induction false} LooseMatch(p: string, s: string)
    requires |p| == |s| && forall i :: 0 <= i < |p| ==> p[i] in "*?" || p[i] == s[i]
    ensures GlobMatch(p + "*", s)
  {
    if p == "" {
      assert p + "*" == "*";
      StarMatchesAll(s);
    } else {
      assert (p + "*")[1..] == p[1..] + "*";
      LooseMatch(p[1..], s[1..]);
      if p[0] == '*' { assert GlobMatch(p + "*", s[1..]); }
    }
  }

  /** A key outside a namespace that iterating and clearing that namespace nevertheless find. */
  ghost predicate Strays(ns: string, raw: string) {
    GlobMatch(ns + ":*", raw) && !Under(ns, raw)
  }

  lemma PatternStrays(ns: string, i: nat) returns (raw: string)
    requires i < |ns| && ns[i] in "*?"
    ensures Strays(ns, raw)
  {
    raw := ns[i := 'x'] + ":";
    assert ns + ":*" == (ns + ":") + "*";
    LooseMatch(ns + ":", raw);
    assert raw[i] == 'x' && (ns + ":")[i] == ns[i];
  }

  /** A namespace finds and clears only its own keys if and only if it has no pattern character; with one
      it always deletes some key of a store that holds nothing else. */
  lemma OwnKeysOnlyIffGlobFree(ns: string)
    requires Modelled(ns)
    ensures (forall raw :: !Strays(ns, raw)) <==> GlobFree(ns)
    ensures !GlobFree(ns) ==> exists raw :: !Under(ns, raw) && Apply(map[raw := ""], ns, Clear).0 == map[]
  {
    if GlobFree(ns) {
      forall raw ensures !Strays(ns, raw) { ScannedEntries(map[raw := ""], ns, raw); }
    } else {
      var i :| 0 <= i < |ns| && ns[i] in "*?[\\";
      var raw := PatternStrays(ns, i);
      assert raw in Scan(map[raw := ""], ns + ":*");
      assert Apply(map[raw := ""], ns, Clear).0 == map[];
    }
  }

  /** For example, clearing the namespace "?" empties the namespace "a". */
  lemma PatternNamespaceClearsAnother(key: string, text: string)
    ensures Apply(Put(map[], "a", key, text), "?", Clear).0 == map[]
  {
    var data := Put(map[], "a", key, text);
    forall raw | raw in data ensures GlobMatch("?:*", raw) {
      var literal := "a:";
      assert raw[0] == 'a' && raw[1] == ':';
      assert "?:*"[1..] == ":*" && ":*"[1..] == "*";
      StarMatchesAll(raw[1..][1..]);
      assert GlobMatch(":*", raw[1..]);
    }
  }
}
