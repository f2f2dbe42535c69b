/** Finite directed graphs given by their edge set: walks, cycles and topological
    orders. Shared by the components whose correctness rests on acyclicity. */
module Digraph {
  import opened Sequences

  ghost predicate IsWalk<T>(e: set<(T, T)>, p: seq<T>) {
    forall i :: 0 <= i < |p| - 1 ==> (p[i], p[i + 1]) in e
  }

  ghost predicate WalkFrom<T>(e: set<(T, T)>, start: T, p: seq<T>) {
    p != [] && p[0] == start && IsWalk(e, p)
  }

  ghost predicate IsCycle<T>(e: set<(T, T)>, p: seq<T>) {
    |p| >= 2 && IsWalk(e, p) && p[0] == p[|p| - 1]
  }

  ghost predicate Acyclic<T(!new)>(e: set<(T, T)>) {
    forall p: seq<T> :: !IsCycle(e, p)
  }

  ghost predicate Within<T(!new)>(e: set<(T, T)>, nodes: set<T>) {
    forall x, y :: (x, y) in e ==> x in nodes && y in nodes
  }

  /** Every predecessor of a listed node is listed before it. */
  ghost predicate PredecessorsFirst<T(!new)>(e: set<(T, T)>, order: seq<T>) {
    forall x, j :: 0 <= j < |order| && (x, order[j]) in e ==> x in order[..j]
  }

  /** Every predecessor among `nodes` of a listed node is listed before it. */
  ghost predicate ReadyWithin<T(!new)>(e: set<(T, T)>, nodes: set<T>, order: seq<T>) {
    forall x, j :: 0 <= j < |order| && (x, order[j]) in e && x in nodes ==> x in order[..j]
  }

  ghost predicate HasPredecessor<T>(e: set<(T, T)>, nodes: set<T>, y: T) {
    exists x :: x in nodes && (x, y) in e
  }

  lemma {:induction false} BackwardWalk<T>(e: set<(T, T)>, nodes: set<T>, n: nat) returns (p: seq<T>)
    requires nodes != {} && forall y :: y in nodes ==> HasPredecessor(e, nodes, y)
    ensures |p| == n && IsWalk(e, p) && SetOf(p) <= nodes
  {
    if n == 0 {
      p := [];
    } else {
      var tail := BackwardWalk(e, nodes, n - 1);
      if tail == [] {
        var x :| x in nodes;
        p := [x];
      } else {
        assert tail[0] in SetOf(tail);
        assert HasPredecessor(e, nodes, tail[0]);
        var x :| x in nodes && (x, tail[0]) in e;
        p := [x] + tail;
      }
    }
  }

  /** If every node of a non-empty finite set has a predecessor in the set, the graph has a cycle. */
  lemma NoSourceMeansCycle<T>(e: set<(T, T)>, nodes: set<T>) returns (c: seq<T>)
    requires nodes != {} && forall y :: y in nodes ==> HasPredecessor(e, nodes, y)
    ensures IsCycle(e, c)
  {
    var p := BackwardWalk(e, nodes, |nodes| + 1);
    if NoDup(p) {
      Pigeonhole(p, nodes);
      assert false;
    }
    var i, j :| 0 <= i < j < |p| && p[i] == p[j];
    c := p[i..j + 1];
  }

  /** Along a walk, positions in a predecessors-first order strictly increase. */
  lemma {:induction false} WalkAdvances<T(!new)>(e: set<(T, T)>, order: seq<T>, p: seq<T>, k: nat)
    returns (i: nat, j: nat)
    requires NoDup(order) && PredecessorsFirst(e, order)
    requires IsWalk(e, p) && 1 <= k < |p| && SetOf(p) <= SetOf(order)
    ensures i < j < |order| && order[i] == p[0] && order[j] == p[k]
  {
    assert p[k] in SetOf(p);
    j :| 0 <= j < |order| && order[j] == p[k];
    assert (p[k - 1], p[k - 1 + 1]) in e;
    if k == 1 {
      i :| 0 <= i < j && order[i] == p[0];
    } else {
      var m;
      i, m := WalkAdvances(e, order, p, k - 1);
      var m' :| 0 <= m' < j && order[m'] == p[k - 1];
    }
  }

  lemma TopologicalMeansAcyclic<T(!new)>(e: set<(T, T)>, order: seq<T>)
    requires NoDup(order) && PredecessorsFirst(e, order) && Within(e, SetOf(order))
    ensures Acyclic(e)
  {
    forall p: seq<T> ensures !IsCycle(e, p) {
      if IsCycle(e, p) {
        forall x | x in p ensures x in order {
          var i :| 0 <= i < |p| && p[i] == x;
          if i < |p| - 1 { assert (p[i], p[i + 1]) in e; } else { assert (p[i - 1], p[i - 1 + 1]) in e; }
        }
        var i, j := WalkAdvances(e, order, p, |p| - 1);
        assert false;
      }
    }
  }

  lemma SourceExists<T(!new)>(e: set<(T, T)>, nodes: set<T>) returns (v: T)
    requires Acyclic(e) && nodes != {}
    ensures v in nodes && !HasPredecessor(e, nodes, v)
  {
    if forall y :: y in nodes ==> HasPredecessor(e, nodes, y) {
      var c := NoSourceMeansCycle(e, nodes);
      assert false;
    }
    v :| v in nodes && !HasPredecessor(e, nodes, v);
  }

  lemma PrependSource<T(!new)>(e: set<(T, T)>, nodes: set<T>, v: T, rest: seq<T>)
    requires v in nodes && !HasPredecessor(e, nodes, v)
    requires NoDup(rest) && SetOf(rest) == nodes - {v} && ReadyWithin(e, nodes - {v}, rest)
    ensures NoDup([v] + rest) && SetOf([v] + rest) == nodes && ReadyWithin(e, nodes, [v] + rest)
  {
    var order := [v] + rest;
    Concatenation([v], rest);
    assert SetOf([v]) == {v};
    forall x, j | 0 <= j < |order| && (x, order[j]) in e && x in nodes ensures x in order[..j] {
      assert j > 0;
      assert order[j] == rest[j - 1] && order[..j] == [v] + rest[..j - 1];
      if x == v {
        assert order[..j][0] == v;
      } else {
        assert (x, rest[j - 1]) in e && x in nodes - {v};
        assert x in rest[..j - 1];
      }
    }
  }

  /** An acyclic finite graph has a topological order. */
  lemma {:induction false} TopologicalOrderExists<T(!new)>(e: set<(T, T)>, nodes: set<T>) returns (order: seq<T>)
    requires Acyclic(e)
    ensures NoDup(order) && SetOf(order) == nodes
    ensures ReadyWithin(e, nodes, order)
    decreases |nodes|
  {
    if nodes == {} {
      order := [];
    } else {
      var v := SourceExists(e, nodes);
      var rest := TopologicalOrderExists(e, nodes - {v});
      order := [v] + rest;
      PrependSource(e, nodes, v, rest);
    }
  }
}
