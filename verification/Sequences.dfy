/** Facts about sequences that several components need. */
module Sequences {

  ghost predicate NoDup<T>(s: seq<T>) {
    forall i, j :: 0 <= i < j < |s| ==> s[i] != s[j]
  }

  ghost function SetOf<T>(s: seq<T>): set<T> {
    set x | x in s
  }

  lemma AppendOne<T>(s: seq<T>, x: T)
    ensures SetOf(s + [x]) == SetOf(s) + {x}
    ensures NoDup(s) && x !in s ==> NoDup(s + [x])
  {
    assert (s + [x])[|s|] == x;
    forall y | y in SetOf(s) ensures y in s + [x] {
      var i :| 0 <= i < |s| && s[i] == y;
      assert (s + [x])[i] == y;
    }
  }

  lemma Concatenation<T>(a: seq<T>, b: seq<T>)
    ensures SetOf(a + b) == SetOf(a) + SetOf(b)
    ensures NoDup(a + b) <==> NoDup(a) && NoDup(b) && SetOf(a) !! SetOf(b)
  {
    assert forall i :: 0 <= i < |a| ==> (a + b)[i] == a[i];
    assert forall i :: 0 <= i < |b| ==> (a + b)[|a| + i] == b[i];
    if NoDup(a + b) {
      forall i, j | 0 <= i < j < |b| ensures b[i] != b[j] { assert (a + b)[|a| + i] != (a + b)[|a| + j]; }
    }
    if NoDup(a) && NoDup(b) && SetOf(a) !! SetOf(b) {
      forall i, j | 0 <= i < j < |a + b| ensures (a + b)[i] != (a + b)[j] {
        if i < |a| <= j { assert a[i] in SetOf(a) && b[j - |a|] in SetOf(b); }
      }
    }
  }

  lemma NoDupSize<T>(s: seq<T>)
    requires NoDup(s)
    ensures |SetOf(s)| == |s|
  {
    if s != [] {
      var front, last := s[..|s| - 1], s[|s| - 1];
      NoDupSize(front);
      assert s == front + [last];
      assert SetOf(s) == SetOf(front) + {last};
      assert last !in front;
    }
  }

  lemma Pigeonhole<T>(s: seq<T>, nodes: set<T>)
    requires NoDup(s) && SetOf(s) <= nodes
    ensures |s| <= |nodes|
    ensures |s| == |nodes| ==> SetOf(s) == nodes
  {
    NoDupSize(s);
    SubsetSize(SetOf(s), nodes);
  }

  lemma SubsetSize<T>(a: set<T>, b: set<T>)
    requires a <= b
    ensures |a| <= |b|
    ensures |a| == |b| ==> a == b
  {
    assert b == a + (b - a);
    if a != b {
      var x :| x in b - a;
      assert |b - a| > 0;
    }
  }

  lemma Regroup<T>(a: seq<T>, b: seq<T>, c: seq<T>)
    ensures a + b + c == a + (b + c)
  {
  }
}
