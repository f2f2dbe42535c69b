/** The cluster-group hierarchy: groups linked to parents and children under creation,
    soft removal and deletion, with inherited policies and recursive traversals. */
module ClusterGroups {
  import opened Digraph
  import opened Sequences
  import opened Wrappers

  type Id = nat

  type Policies = map<string, string>

  datatype Group = Group(name: string, policies: Policies, parents: seq<Id>, children: set<Id>)

  /** Stored groups, the next document id, and (history) the groups soft-removed so far. */
  datatype Store = Store(groups: map<Id, Group>, next: Id, removed: set<Id>)

  // -------------------------------------------------------------------- policies

  /** Later policies override earlier ones. */
  function MergePolicies(ps: seq<Policies>): Policies {
    if ps == [] then map[] else MergePolicies(ps[..|ps| - 1]) + ps[|ps| - 1]
  }

  lemma {:induction false} MergedKeys(ps: seq<Policies>, k: string)
    ensures k in MergePolicies(ps) <==> exists i :: 0 <= i < |ps| && k in ps[i]
  {
    if ps != [] { MergedKeys(ps[..|ps| - 1], k); }
  }

  /** A merged policy has the value given last. */
  lemma {:induction false} MergedValue(ps: seq<Policies>, i: nat, k: string)
    requires i < |ps| && k in ps[i] && forall j :: i < j < |ps| ==> k !in ps[j]
    ensures k in MergePolicies(ps) && MergePolicies(ps)[k] == ps[i][k]
  {
    if i < |ps| - 1 {
      assert k !in ps[|ps| - 1];
      MergedValue(ps[..|ps| - 1], i, k);
    }
  }

  /** The policies of the groups found, in the order found. */
  function PoliciesOf(groups: map<Id, Group>, found: seq<Id>): seq<Policies>
    requires forall id :: id in found ==> id in groups
  {
    seq(|found|, i requires 0 <= i < |found| => groups[found[i]].policies)
  }

  // ------------------------------------------------------------------- the steps

  /** An answer of the database to "all groups with an id in `ids`": each such group once, in any order. */
  ghost predicate IsFound(groups: map<Id, Group>, ids: set<Id>, found: seq<Id>) {
    NoDup(found) && SetOf(found) == ids * groups.Keys
  }

  function IdSet(ids: seq<Id>): set<Id> {
    set p | p in ids
  }

  /** `updateMany` on the groups with an id in `ids`: add or pull one child id. */
  function AddChild(groups: map<Id, Group>, ids: set<Id>, child: Id): map<Id, Group> {
    map id | id in groups :: if id in ids then groups[id].(children := groups[id].children + {child}) else groups[id]
  }

  function PullChild(groups: map<Id, Group>, ids: set<Id>, child: Id): map<Id, Group> {
    map id | id in groups :: if id in ids then groups[id].(children := groups[id].children - {child}) else groups[id]
  }

  function Created(s: Store, name: string, own: Policies, parents: seq<Id>, found: seq<Id>): Store
    requires forall id :: id in found ==> id in s.groups
  {
    var policies := MergePolicies([MergePolicies(PoliciesOf(s.groups, found)), own]);
    var groups := s.groups[s.next := Group(name, policies, parents, {})];
    s.(groups := AddChild(groups, IdSet(parents), s.next), next := s.next + 1)
  }

  function SoftRemoved(s: Store, id: Id): Store
    requires id in s.groups
  {
    s.(groups := PullChild(s.groups, IdSet(s.groups[id].parents), id), removed := s.removed + {id})
  }

  function Deleted(s: Store, id: Id): Store
    requires id in s.groups
  {
    s.(groups := PullChild(s.groups - {id}, IdSet(s.groups[id].parents), id))
  }

  // ------------------------------------------------------------------- invariant

  /** The children of a group are exactly the existing groups that list it as a parent and were
      not soft-removed; parents are older than their children; names are unique. */
  ghost predicate Linked(s: Store) {
    && (forall id :: id in s.groups ==> id < s.next)
    && (forall id :: id in s.removed ==> id < s.next)
    && (forall id, p :: id in s.groups && p in s.groups[id].parents ==> p < id)
    && (forall id, c :: id in s.groups ==> ChildrenExact(s, id, c))
  }

  ghost predicate ChildrenExact(s: Store, id: Id, c: Id)
    requires id in s.groups
  {
    c in s.groups[id].children <==> c in s.groups && id in s.groups[c].parents && c !in s.removed
  }

  ghost predicate UniqueNames(s: Store) {
    forall id1, id2 :: id1 in s.groups && id2 in s.groups && s.groups[id1].name == s.groups[id2].name ==> id1 == id2
  }

  /** A group has at least the policy keys of each parent that still exists. */
  ghost predicate Inherits(s: Store) {
    forall id, p :: id in s.groups && p in s.groups[id].parents && p in s.groups ==>
      s.groups[p].policies.Keys <= s.groups[id].policies.Keys
  }

  ghost predicate Valid(s: Store) {
    Linked(s) && UniqueNames(s) && Inherits(s)
  }

  /** The i-th group found is the last of them that has the policy. */
  ghost predicate LastWith(s: Store, found: seq<Id>, i: nat, k: string)
    requires forall id :: id in found ==> id in s.groups
  {
    i < |found| && k in s.groups[found[i]].policies && forall j :: i < j < |found| ==> k !in s.groups[found[j]].policies
  }

  /** A group created has its own policies, and every other policy of a parent found, with the value it
      has at the last of them. */
  lemma CreatedPolicies(s: Store, own: Policies, found: seq<Id>)
    requires forall id :: id in found ==> id in s.groups
    ensures var policies := MergePolicies([MergePolicies(PoliciesOf(s.groups, found)), own]);
            && policies == MergePolicies(PoliciesOf(s.groups, found)) + own
            && (forall k :: k in policies <==> k in own || exists p :: p in found && k in s.groups[p].policies)
            && (forall k :: k in own ==> policies[k] == own[k])
            && forall i, k :: 0 <= i < |found| && LastWith(s, found, i, k) && k !in own ==>
                 k in policies && policies[k] == s.groups[found[i]].policies[k]
  {
    var inherited := MergePolicies(PoliciesOf(s.groups, found));
    assert [inherited, own][..1] == [inherited] && [inherited][..0] == [];
    assert MergePolicies([inherited]) == inherited;
    forall p, k | p in found && k in s.groups[p].policies ensures k in inherited {
      var i :| 0 <= i < |found| && found[i] == p;
      assert PoliciesOf(s.groups, found)[i] == s.groups[p].policies;
      MergedKeys(PoliciesOf(s.groups, found), k);
    }
    forall k | k in inherited ensures exists p :: p in found && k in s.groups[p].policies {
      MergedKeys(PoliciesOf(s.groups, found), k);
      var i :| 0 <= i < |found| && k in PoliciesOf(s.groups, found)[i];
      assert found[i] in found;
    }
    forall i, k | 0 <= i < |found| && LastWith(s, found, i, k)
      ensures k in inherited && inherited[k] == s.groups[found[i]].policies[k]
    {
      MergedValue(PoliciesOf(s.groups, found), i, k);
    }
  }

  lemma CreateKeepsLinks(s: Store, name: string, own: Policies, parents: seq<Id>, found: seq<Id>)
    requires Linked(s) && (forall p :: p in parents ==> p < s.next) && forall id :: id in found ==> id in s.groups
    ensures Linked(Created(s, name, own, parents, found))
  {
    var s' := Created(s, name, own, parents, found);
    forall id, c | id in s'.groups ensures ChildrenExact(s', id, c) {
      if id in s.groups { assert ChildrenExact(s, id, c); }
    }
  }

  lemma CreateKeepsPolicies(s: Store, name: string, own: Policies, parents: seq<Id>, found: seq<Id>)
    requires Linked(s) && Inherits(s) && (forall p :: p in parents ==> p < s.next)
    requires IsFound(s.groups, IdSet(parents), found) && forall id :: id in found ==> id in s.groups
    ensures Inherits(Created(s, name, own, parents, found))
  {
    CreatedPolicies(s, own, found);
    var s' := Created(s, name, own, parents, found);
    forall id, p | id in s'.groups && p in s'.groups[id].parents && p in s'.groups
      ensures s'.groups[p].policies.Keys <= s'.groups[id].policies.Keys
    {
      if id == s.next { assert p in SetOf(found); }
    }
  }

  lemma RemoveKeepsValid(s: Store, id: Id)
    requires Valid(s) && id in s.groups
    ensures Valid(SoftRemoved(s, id))
  {
    var s' := SoftRemoved(s, id);
    forall id1, c | id1 in s'.groups ensures ChildrenExact(s', id1, c) { assert ChildrenExact(s, id1, c); }
  }

  lemma DeleteKeepsValid(s: Store, id: Id)
    requires Valid(s) && id in s.groups
    ensures Valid(Deleted(s, id))
  {
    var s' := Deleted(s, id);
    forall id1, c | id1 in s'.groups ensures ChildrenExact(s', id1, c) { assert ChildrenExact(s, id1, c); }
  }

  // ------------------------------------------------------------- shape of the links

  ghost function ChildEdges(s: Store): set<(Id, Id)> {
    set id, c | id in s.groups && c in s.groups[id].children :: (id, c)
  }

  ghost function ParentEdges(s: Store): set<(Id, Id)> {
    set id, p | id in s.groups && p in s.groups[id].parents && p in s.groups :: (id, p)
  }

  lemma {:induction false} WalkGrows(e: set<(Id, Id)>, p: seq<Id>, up: bool)
    requires forall x, y :: (x, y) in e ==> if up then x < y else y < x
    requires IsWalk(e, p) && |p| >= 2
    ensures if up then p[0] < p[|p| - 1] else p[|p| - 1] < p[0]
  {
    assert (p[0], p[0 + 1]) in e;
    if |p| > 2 {
      var q := p[1..];
      forall i | 0 <= i < |q| - 1 ensures (q[i], q[i + 1]) in e { assert (p[i + 1], p[i + 1 + 1]) in e; }
      WalkGrows(e, q, up);
    }
  }

  /** Every listed child exists and lists the group as a parent; neither link relation has a cycle. */
  lemma LinksSoundAndAcyclic(s: Store)
    requires Linked(s)
    ensures forall id, c :: (id, c) in ChildEdges(s) ==> c in s.groups && id in s.groups[c].parents
    ensures Acyclic(ChildEdges(s)) && Acyclic(ParentEdges(s))
  {
    forall id, c | (id, c) in ChildEdges(s) ensures c in s.groups && id in s.groups[c].parents && id < c {
      assert ChildrenExact(s, id, c);
    }
    forall p: seq<Id> ensures !IsCycle(ChildEdges(s), p) && !IsCycle(ParentEdges(s), p) {
      if IsCycle(ChildEdges(s), p) { WalkGrows(ChildEdges(s), p, true); }
      if IsCycle(ParentEdges(s), p) { WalkGrows(ParentEdges(s), p, false); }
    }
  }

  // ------------------------------------------------------------------- traversals

  /** A hierarchy as returned to the caller. */
  datatype Tree = Tree(id: Id, kids: seq<Tree>)

  ghost function Next(e: set<(Id, Id)>, id: Id): set<Id> {
    set x | x in e && x.0 == id :: x.1
  }

  lemma NextMember(e: set<(Id, Id)>, id: Id, c: Id)
    ensures c in Next(e, id) <==> (id, c) in e
  {
    if (id, c) in e { assert (id, c).0 == id && (id, c).1 == c; }
  }

  ghost function Roots(kids: seq<Tree>): seq<Id> {
    seq(|kids|, i requires 0 <= i < |kids| => kids[i].id)
  }

  /** The tree unfolds the relation: below each node its successors, each once. */
  ghost predicate Unfolds(t: Tree, e: set<(Id, Id)>) {
    && NoDup(Roots(t.kids)) && SetOf(Roots(t.kids)) == Next(e, t.id)
    && forall i :: 0 <= i < |t.kids| ==> Unfolds(t.kids[i], e)
  }

  /** The node sequences from the root to each node of the tree. */
  ghost function Paths(t: Tree): seq<seq<Id>>
    decreases t, 1
  {
    [[t.id]] + PathsBelow(t.id, t.kids)
  }

  ghost function PathsBelow(id: Id, kids: seq<Tree>): seq<seq<Id>>
    decreases kids, 0
  {
    if kids == [] then [] else Prefixed(id, Paths(kids[0])) + PathsBelow(id, kids[1..])
  }

  ghost function Prefixed(id: Id, ps: seq<seq<Id>>): seq<seq<Id>> {
    seq(|ps|, i requires 0 <= i < |ps| => [id] + ps[i])
  }

  lemma InPrefixed(id: Id, ps: seq<seq<Id>>, w: seq<Id>)
    ensures w in Prefixed(id, ps) <==> |w| >= 1 && w[0] == id && w[1..] in ps
    ensures NoDup(ps) ==> NoDup(Prefixed(id, ps))
  {
    if |w| >= 1 && w[0] == id && w[1..] in ps {
      var i :| 0 <= i < |ps| && ps[i] == w[1..];
      assert Prefixed(id, ps)[i] == w;
    }
    forall i, j | NoDup(ps) && 0 <= i < j < |ps| ensures Prefixed(id, ps)[i] != Prefixed(id, ps)[j] {
      assert ([id] + ps[i])[1..] == ps[i] && ([id] + ps[j])[1..] == ps[j];
    }
  }

  ghost predicate KidsUnfold(kids: seq<Tree>, e: set<(Id, Id)>) {
    NoDup(Roots(kids)) && forall i :: 0 <= i < |kids| ==> Unfolds(kids[i], e)
  }

  /** The paths below are one step followed by a walk from a kid, each once. */
  lemma {:induction false} PathsBelowAreWalks(id: Id, kids: seq<Tree>, e: set<(Id, Id)>)
    requires KidsUnfold(kids, e)
    ensures forall w :: w in PathsBelow(id, kids) <==>
              |w| >= 2 && w[0] == id && w[1] in Roots(kids) && IsWalk(e, w[1..])
    ensures NoDup(PathsBelow(id, kids))
    decreases kids, 0
  {
    if kids != [] {
      var first, rest := kids[0], kids[1..];
      assert Roots(kids) == [first.id] + Roots(rest);
      Concatenation([first.id], Roots(rest));
      assert KidsUnfold(rest, e);
      PathsAreWalks(first, e);
      PathsBelowAreWalks(id, rest, e);
      var here, there := Prefixed(id, Paths(first)), PathsBelow(id, rest);
      assert PathsBelow(id, kids) == here + there;
      forall w ensures w in here <==> |w| >= 2 && w[0] == id && w[1] == first.id && IsWalk(e, w[1..]) {
        InPrefixed(id, Paths(first), w);
      }
      InPrefixed(id, Paths(first), []);
      assert first.id in SetOf([first.id]) && first.id !in SetOf(Roots(rest));
      forall w | w in here ensures w !in there {
        assert w[1] !in Roots(rest);
      }
      Concatenation(here, there);
      assert forall x :: x in Roots(kids) <==> x == first.id || x in Roots(rest);
    }
  }

  /** A tree that unfolds a relation contains every walk from its root, once, and nothing else. */
  lemma {:induction false} PathsAreWalks(t: Tree, e: set<(Id, Id)>)
    requires Unfolds(t, e)
    ensures forall w :: w in Paths(t) <==> WalkFrom(e, t.id, w)
    ensures NoDup(Paths(t))
    decreases t, 1
  {
    PathsBelowAreWalks(t.id, t.kids, e);
    var below := PathsBelow(t.id, t.kids);
    forall w ensures w in Paths(t) <==> WalkFrom(e, t.id, w) {
      assert Paths(t) == [[t.id]] + below;
      if |w| >= 2 {
        StepOfWalk(e, t, w);
      } else {
        assert w in Paths(t) <==> w == [t.id];
      }
    }
    assert forall w :: w in below ==> |w| >= 2;
    Concatenation([[t.id]], below);
  }

  lemma StepOfWalk(e: set<(Id, Id)>, t: Tree, w: seq<Id>)
    requires |w| >= 2 && SetOf(Roots(t.kids)) == Next(e, t.id)
    ensures WalkFrom(e, t.id, w) <==> w[0] == t.id && w[1] in Roots(t.kids) && IsWalk(e, w[1..])
  {
    assert w[1] in Roots(t.kids) <==> w[1] in SetOf(Roots(t.kids));
    if WalkFrom(e, t.id, w) {
      assert (w[0], w[0 + 1]) in e;
      forall i | 0 <= i < |w[1..]| - 1 ensures (w[1..][i], w[1..][i + 1]) in e { assert (w[i + 1], w[i + 1 + 1]) in e; }
    }
    if w[0] == t.id && w[1] in Roots(t.kids) && IsWalk(e, w[1..]) {
      forall i | 0 <= i < |w| - 1 ensures (w[i], w[i + 1]) in e {
        if i > 0 { assert (w[1..][i - 1], w[1..][i - 1 + 1]) in e; }
      }
    }
  }

  // ------------------------------------------------------------------ every history

  /** One request; `found` is the order in which the database returns the parents. */
  datatype Request =
    | Create(name: string, own: Policies, parents: seq<Id>, found: seq<Id>)
    | Remove(name: string)
    | Delete(name: string)

  ghost predicate NameTaken(s: Store, name: string) {
    exists id :: id in s.groups && s.groups[id].name == name
  }

  /** Document ids are fresh: a request names only ids that were already given out. */
  ghost predicate Possible(s: Store, r: Request) {
    r.Create? ==>
      && (forall p :: p in r.parents ==> p < s.next)
      && IsFound(s.groups, IdSet(r.parents), r.found) && forall id :: id in r.found ==> id in s.groups
  }

  /** A name in use makes a creation fail, an unknown one a removal or deletion; both change nothing. */
  ghost function After(s: Store, r: Request): Store
    requires Possible(s, r)
  {
    if r.Create? then
      if NameTaken(s, r.name) then s else Created(s, r.name, r.own, r.parents, r.found)
    else if !NameTaken(s, r.name) then s
    else
      var id :| id in s.groups && s.groups[id].name == r.name;
      if r.Remove? then SoftRemoved(s, id) else Deleted(s, id)
  }

  ghost predicate PossibleHistory(history: seq<Request>)
    decreases |history|, 0
  {
    history == [] || (PossibleHistory(history[..|history| - 1]) &&
                      Possible(StateAfter(history[..|history| - 1]), history[|history| - 1]))
  }

  ghost function StateAfter(history: seq<Request>): Store
    requires PossibleHistory(history)
    decreases |history|, 1
  {
    if history == [] then Store(map[], 0, {})
    else After(StateAfter(history[..|history| - 1]), history[|history| - 1])
  }

  lemma StepKeepsValid(s: Store, r: Request)
    requires Valid(s) && Possible(s, r)
    ensures Valid(After(s, r))
  {
    if r.Create? {
      if !NameTaken(s, r.name) {
        CreateKeepsLinks(s, r.name, r.own, r.parents, r.found);
        CreateKeepsPolicies(s, r.name, r.own, r.parents, r.found);
      }
    } else if NameTaken(s, r.name) {
      var id :| id in s.groups && s.groups[id].name == r.name &&
                After(s, r) == if r.Remove? then SoftRemoved(s, id) else Deleted(s, id);
      if r.Remove? { RemoveKeepsValid(s, id); } else { DeleteKeepsValid(s, id); }
    }
  }

  /** In every reachable state the links are sound and acyclic and policies are inherited. */
  lemma {:induction false} EveryStateValid(history: seq<Request>)
    requires PossibleHistory(history)
    ensures Valid(StateAfter(history))
    ensures Acyclic(ChildEdges(StateAfter(history))) && Acyclic(ParentEdges(StateAfter(history)))
  {
    if history != [] {
      EveryStateValid(history[..|history| - 1]);
      StepKeepsValid(StateAfter(history[..|history| - 1]), history[|history| - 1]);
    }
    LinksSoundAndAcyclic(StateAfter(history));
  }

  lemma NameAfterCreate(s: Store, r: Request, name: string)
    requires Valid(s) && Possible(s, r) && r.Create? && !NameTaken(s, r.name)
    ensures NameTaken(After(s, r), name) <==> name == r.name || NameTaken(s, name)
  {
    var t := After(s, r);
    assert s.next in t.groups && t.groups[s.next].name == r.name;
    forall id | id in s.groups ensures id in t.groups && t.groups[id].name == s.groups[id].name {}
  }

  lemma NameAfterDelete(s: Store, id: Id, name: string)
    requires Valid(s) && id in s.groups
    ensures NameTaken(Deleted(s, id), name) <==> name != s.groups[id].name && NameTaken(s, name)
    ensures NameTaken(SoftRemoved(s, id), name) <==> NameTaken(s, name)
  {
    forall other | other in s.groups ensures other != id ==> s.groups[other].name != s.groups[id].name {}
    forall other | other in s.groups ensures other in SoftRemoved(s, id).groups {}
    forall other | other in s.groups && other != id ensures other in Deleted(s, id).groups {}
  }

  lemma NameAfter(s: Store, r: Request, name: string)
    requires Valid(s) && Possible(s, r)
    ensures NameTaken(After(s, r), name) <==>
            (r.Create? && r.name == name) || (NameTaken(s, name) && !(r.Delete? && r.name == name))
  {
    if r.Create? {
      if !NameTaken(s, r.name) { NameAfterCreate(s, r, name); }
    } else if NameTaken(s, r.name) {
      var id :| id in s.groups && s.groups[id].name == r.name &&
                After(s, r) == if r.Remove? then SoftRemoved(s, id) else Deleted(s, id);
      NameAfterDelete(s, id, name);
    }
  }

  /** The creation at index i, if it is one of the name, has not been followed by a deletion. */
  ghost predicate CreatedAndKept(history: seq<Request>, name: string, i: nat) {
    && i < |history| && history[i].Create? && history[i].name == name
    && forall j :: i < j < |history| ==> !(history[j].Delete? && history[j].name == name)
  }

  lemma KeptAfter(front: seq<Request>, last: Request, name: string)
    ensures (exists i: nat :: CreatedAndKept(front + [last], name, i)) <==>
            (last.Create? && last.name == name) ||
            ((exists i: nat :: CreatedAndKept(front, name, i)) && !(last.Delete? && last.name == name))
  {
    var history := front + [last];
    assert history[|front|] == last;
    if last.Create? && last.name == name { assert CreatedAndKept(history, name, |front|); }
    if i: nat :| CreatedAndKept(front, name, i) {
      if !(last.Delete? && last.name == name) { assert CreatedAndKept(history, name, i); }
    }
    if i: nat :| CreatedAndKept(history, name, i) {
      if i < |front| {
        forall j | i < j < |front| ensures !(front[j].Delete? && front[j].name == name) { assert front[j] == history[j]; }
        assert CreatedAndKept(front, name, i);
      }
    }
  }

  /** After any history a name is taken if and only if a creation asked for it and no deletion has since;
      a soft removal does not free it. */
  lemma {:induction false} NamesTaken(history: seq<Request>, name: string)
    requires PossibleHistory(history)
    ensures NameTaken(StateAfter(history), name) <==> exists i: nat :: CreatedAndKept(history, name, i)
  {
    if history != [] {
      var front, last := history[..|history| - 1], history[|history| - 1];
      EveryStateValid(front);
      NamesTaken(front, name);
      NameAfter(StateAfter(front), last, name);
      KeptAfter(front, last, name);
      assert front + [last] == history;
    }
  }

  // ----------------------------------------------------------------------- the store

  class GroupStore {
    var groups: map<Id, Group>
    var next: Id
    ghost var removed: set<Id>

    ghost function Abs(): Store
      reads this
    {
      Store(groups, next, removed)
    }

    constructor ()
      ensures Abs() == Store(map[], 0, {}) && Valid(Abs())
    {
      groups, next, removed := map[], 0, {};
    }

    method FindAll(ids: set<Id>) returns (found: seq<Id>)
      ensures IsFound(groups, ids, found) && forall id :: id in found ==> id in groups
    {
      found := [];
      var rest := ids * groups.Keys;
      while rest != {}
        invariant rest <= ids * groups.Keys
        invariant NoDup(found) && SetOf(found) == ids * groups.Keys - rest
      {
        var id :| id in rest;
        assert id in found ==> id in SetOf(found);
        AppendOne(found, id);
        found, rest := found + [id], rest - {id};
      }
      assert forall id :: id in found ==> id in SetOf(found);
    }

    method FindByName(name: string) returns (found: Option<Id>)
      ensures found.Some? ==> found.value in groups && groups[found.value].name == name
      ensures found.None? ==> !NameTaken(Abs(), name)
    {
      var rest := groups.Keys;
      while rest != {}
        invariant rest <= groups.Keys
        invariant forall id :: id in groups && id !in rest ==> groups[id].name != name
      {
        var id :| id in rest;
        if groups[id].name == name {
          return Some(id);
        }
        rest := rest - {id};
      }
      found := None;
    }

    /** `createGroup`; None when the name is taken. */
    method CreateGroup(name: string, own: Policies, parents: seq<Id>) returns (created: Option<Id>)
      requires Valid(Abs()) && forall p :: p in parents ==> p < next
      modifies this
      ensures Valid(Abs())
      ensures old(NameTaken(Abs(), name)) ==> created == None && Abs() == old(Abs())
      ensures !old(NameTaken(Abs(), name)) ==> created == Some(old(next))
      ensures !old(NameTaken(Abs(), name)) ==>
                exists found :: old(Possible(Abs(), Create(name, own, parents, found))) &&
                                Abs() == old(After(Abs(), Create(name, own, parents, found)))
      ensures created.Some? ==>
                var group := groups[created.value];
                && group.name == name && group.parents == parents && group.children == {}
                && forall k :: k in own ==> k in group.policies && group.policies[k] == own[k]
    {
      var found := FindAll(IdSet(parents));
      var merged := MergePolicies(PoliciesOf(groups, found));
      var final := MergePolicies([merged, own]);
      CreatedPolicies(Abs(), own, found);
      var clash := FindByName(name);
      if clash.Some? {
        return None;
      }
      assert Possible(Abs(), Create(name, own, parents, found));
      StepKeepsValid(Abs(), Create(name, own, parents, found));
      ghost var before := Abs();
      groups := groups[next := Group(name, final, parents, {})];
      groups := AddChild(groups, IdSet(parents), next);
      created := Some(next);
      next := next + 1;
      assert Abs() == After(before, Create(name, own, parents, found));
    }

    lemma NamedIsUnique(name: string, id: Id)
      requires Valid(Abs()) && id in groups && groups[id].name == name
      ensures NameTaken(Abs(), name)
      ensures After(Abs(), Remove(name)) == SoftRemoved(Abs(), id) && After(Abs(), Delete(name)) == Deleted(Abs(), id)
    {}

    /** `removeGroup`: pulled from its parents' children, itself kept. */
    method RemoveGroup(name: string) returns (ok: bool)
      requires Valid(Abs())
      modifies this
      ensures Valid(Abs()) && ok == old(NameTaken(Abs(), name))
      ensures Abs() == old(After(Abs(), Remove(name)))
    {
      var id := FindByName(name);
      if id.None? {
        return false;
      }
      NamedIsUnique(name, id.value);
      RemoveKeepsValid(Abs(), id.value);
      groups := PullChild(groups, IdSet(groups[id.value].parents), id.value);
      removed := removed + {id.value};
      ok := true;
    }

    /** `deleteGroup`. */
    method DeleteGroup(name: string) returns (ok: bool)
      requires Valid(Abs())
      modifies this
      ensures Valid(Abs()) && ok == old(NameTaken(Abs(), name))
      ensures Abs() == old(After(Abs(), Delete(name)))
    {
      var id := FindByName(name);
      if id.None? {
        return false;
      }
      NamedIsUnique(name, id.value);
      DeleteKeepsValid(Abs(), id.value);
      var parents := groups[id.value].parents;
      groups := groups - {id.value};
      groups := PullChild(groups, IdSet(parents), id.value);
      ok := true;
    }

    /** `getChildrenGraph`; None when the group does not exist. */
    method ChildrenGraph(id: Id) returns (t: Option<Tree>)
      requires Valid(Abs())
      ensures t.Some? <==> id in groups
      ensures t.Some? ==> t.value.id == id && Unfolds(t.value, ChildEdges(Abs()))
    {
      if id !in groups {
        return None;
      }
      var tree := ChildrenOf(id);
      t := Some(tree);
    }

    /** `getParentGraph`; None when the group does not exist. */
    method ParentGraph(id: Id) returns (t: Option<Tree>)
      requires Valid(Abs())
      ensures t.Some? <==> id in groups
      ensures t.Some? ==> t.value.id == id && Unfolds(t.value, ParentEdges(Abs()))
    {
      if id !in groups {
        return None;
      }
      var tree := ParentsOf(id);
      t := Some(tree);
    }

    /** The recursion into the children. */
    method ChildrenOf(id: Id) returns (t: Tree)
      requires Valid(Abs()) && id in groups
      ensures t.id == id && Unfolds(t, ChildEdges(Abs()))
      decreases next - id
    {
      var found := FindAll(groups[id].children);
      var kids: seq<Tree> := [];
      assert forall c :: c in groups[id].children ==> ChildrenExact(Abs(), id, c);
      for i := 0 to |found|
        invariant Roots(kids) == found[..i]
        invariant forall k :: 0 <= k < |kids| ==> Unfolds(kids[k], ChildEdges(Abs()))
      {
        assert found[i] in SetOf(found);
        var kid := ChildrenOf(found[i]);
        kids := kids + [kid];
      }
      assert found[..|found|] == found;
      forall c ensures c in Next(ChildEdges(Abs()), id) <==> c in groups[id].children {
        NextMember(ChildEdges(Abs()), id, c);
      }
      t := Tree(id, kids);
    }

    /** The recursion into the parents that still exist. */
    method ParentsOf(id: Id) returns (t: Tree)
      requires Valid(Abs()) && id in groups
      ensures t.id == id && Unfolds(t, ParentEdges(Abs()))
      decreases id
    {
      var found := FindAll(IdSet(groups[id].parents));
      var parents: seq<Tree> := [];
      for i := 0 to |found|
        invariant Roots(parents) == found[..i]
        invariant forall k :: 0 <= k < |parents| ==> Unfolds(parents[k], ParentEdges(Abs()))
      {
        assert found[i] in SetOf(found);
        var parent := ParentsOf(found[i]);
        parents := parents + [parent];
      }
      assert found[..|found|] == found;
      forall p ensures p in Next(ParentEdges(Abs()), id) <==> p in IdSet(groups[id].parents) * groups.Keys {
        NextMember(ParentEdges(Abs()), id, p);
      }
      t := Tree(id, parents);
    }
  }
}
