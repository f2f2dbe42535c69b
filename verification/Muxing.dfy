/** Merging N packets with one session and sequence number into one, and collecting packets into batches. */
module Muxing {
  import opened Sequences
  import opened Wrappers

  datatype Packet = Packet(session: string, seqNo: nat, data: string, files: seq<string>)

  datatype Key = Key(session: string, seqNo: nat)

  /** A merged packet: a copy of the first one with the parsed inputs and all files in place of its own. */
  datatype Merged<J> = Merged(first: Packet, inputs: seq<J>, files: seq<string>)

  datatype Outcome<J> = PassedOn(packet: Packet) | Waits | Emits(merged: Merged<J>) | Raised

  datatype State = State(store: map<Key, seq<Packet>>, counts: map<Key, int>)

  function KeyOf(p: Packet): Key {
    Key(p.session, p.seqNo)
  }

  function Stored(s: State, key: Key): seq<Packet> {
    if key in s.store then s.store[key] else []
  }

  function Counted(s: State, key: Key): int {
    if key in s.counts then s.counts[key] else 0
  }

  /** The parsed data of all packets, if every one of them parses. */
  function Inputs<J>(parse: string -> Option<J>, packets: seq<Packet>): Option<seq<J>> {
    if packets == [] then Some([])
    else
      var front, last := Inputs(parse, packets[..|packets| - 1]), parse(packets[|packets| - 1].data);
      if front.Some? && last.Some? then Some(front.value + [last.value]) else None
  }

  function Files(packets: seq<Packet>): seq<string> {
    if packets == [] then [] else Files(packets[..|packets| - 1]) + packets[|packets| - 1].files
  }

  /** What merging a group yields, or nothing if some packet's data does not parse. */
  function MergeOf<J>(parse: string -> Option<J>, packets: seq<Packet>): Option<Merged<J>> {
    if packets == [] || Inputs(parse, packets).None? then None
    else Some(Merged(packets[0], Inputs(parse, packets).value, Files(packets)))
  }

  /** One arrival at a muxer with N != 1. */
  function Arrive<J>(parse: string -> Option<J>, N: int, s: State, p: Packet): (State, Outcome<J>) {
    var key := KeyOf(p);
    var t := State(s.store[key := Stored(s, key) + [p]], s.counts[key := Counted(s, key) + 1]);
    if t.counts[key] != N then (t, Waits)
    else match MergeOf(parse, t.store[key])
      case None => (t, Raised)
      case Some(merged) => (State(t.store - {key}, t.counts - {key}), Emits(merged))
  }

  class Muxer<J> {
    const N: int
    const parse: string -> Option<J>
    var store: map<Key, seq<Packet>>
    var counts: map<Key, int>

    constructor (N: int, parse: string -> Option<J>)
      ensures this.N == N && this.parse == parse && store == map[] && counts == map[]
    {
      this.N := N;
      this.parse := parse;
      store, counts := map[], map[];
    }

    method ProcessPacket(p: Packet) returns (outcome: Outcome<J>)
      modifies this
      ensures N == 1 ==> outcome == PassedOn(p) && store == old(store) && counts == old(counts)
      ensures N != 1 ==> (State(store, counts), outcome) == Arrive(parse, N, State(old(store), old(counts)), p)
    {
      if N == 1 {
        return PassedOn(p);
      }
      var key := KeyOf(p);
      store := store[key := (if key in store then store[key] else []) + [p]];
      counts := counts[key := (if key in counts then counts[key] else 0) + 1];
      if counts[key] == N {
        var merged := MergePackets(store[key]);
        if merged.None? {
          return Raised;
        }
        store := store - {key};
        counts := counts - {key};
        return Emits(merged.value);
      }
      outcome := Waits;
    }

    method MergePackets(packets: seq<Packet>) returns (merged: Option<Merged<J>>)
      requires packets != []
      ensures merged == MergeOf(parse, packets)
      ensures merged.Some? <==> Parses(parse, packets)
      ensures merged.Some? ==> Combines(parse, merged.value, packets)
    {
      var inputs := [];
      for i := 0 to |packets|
        invariant Inputs(parse, packets[..i]) == Some(inputs)
      {
        assert packets[..i + 1][..i] == packets[..i];
        var parsed := parse(packets[i].data);
        if parsed.None? {
          UnparsableStays(parse, packets, i);
          MergeCombines(parse, packets);
          return None;
        }
        inputs := inputs + [parsed.value];
      }
      assert packets[..|packets|] == packets;
      var files := [];
      for i := 0 to |packets|
        invariant files == Files(packets[..i])
      {
        assert packets[..i + 1][..i] == packets[..i];
        files := files + packets[i].files;
      }
      merged := Some(Merged(packets[0], inputs, files));
      MergeCombines(parse, packets);
    }
  }

  lemma {:induction false} UnparsableStays<J>(parse: string -> Option<J>, packets: seq<Packet>, i: nat)
    requires i < |packets| && parse(packets[i].data).None?
    ensures Inputs(parse, packets).None?
  {
    if i < |packets| - 1 { UnparsableStays(parse, packets[..|packets| - 1], i); }
  }

  // ------------------------------------------------------------------- every run

  function Run<J>(parse: string -> Option<J>, N: int, arrivals: seq<Packet>): State {
    if arrivals == [] then State(map[], map[])
    else Arrive(parse, N, Run(parse, N, arrivals[..|arrivals| - 1]), arrivals[|arrivals| - 1]).0
  }

  /** The merged packets returned for one key, in order. */
  function Returned<J>(parse: string -> Option<J>, N: int, arrivals: seq<Packet>, key: Key): seq<Merged<J>> {
    if arrivals == [] then []
    else
      var front, p := arrivals[..|arrivals| - 1], arrivals[|arrivals| - 1];
      var outcome := Arrive(parse, N, Run(parse, N, front), p).1;
      Returned(parse, N, front, key) + if KeyOf(p) == key && outcome.Emits? then [outcome.merged] else []
  }

  /** The packets of one key, in order of arrival. */
  function Of(arrivals: seq<Packet>, key: Key): seq<Packet> {
    if arrivals == [] then []
    else
      var p := arrivals[|arrivals| - 1];
      Of(arrivals[..|arrivals| - 1], key) + OneOf(p, key)
  }

  function OneOf(p: Packet, key: Key): seq<Packet> {
    if KeyOf(p) == key then [p] else []
  }

  /** Cutting a key's packets into groups of N from the front, up to the first group that cannot be merged. */
  function Groups<J>(parse: string -> Option<J>, N: nat, packets: seq<Packet>): seq<seq<Packet>>
    requires N >= 2
  {
    if |packets| < N || MergeOf(parse, packets[..N]).None? then []
    else [packets[..N]] + Groups(parse, N, packets[N..])
  }

  /** What is left over once the groups have been cut off. */
  function Rest<J>(parse: string -> Option<J>, N: nat, packets: seq<Packet>): seq<Packet>
    requires N >= 2
  {
    if |packets| < N || MergeOf(parse, packets[..N]).None? then packets else Rest(parse, N, packets[N..])
  }

  function MergeAll<J>(parse: string -> Option<J>, groups: seq<seq<Packet>>): seq<Merged<J>> {
    if groups == [] then []
    else
      var last := MergeOf(parse, groups[|groups| - 1]);
      MergeAll(parse, groups[..|groups| - 1]) + if last.Some? then [last.value] else []
  }

  lemma {:induction false} GroupsAfterOneMore<J>(parse: string -> Option<J>, N: nat, packets: seq<Packet>, p: Packet)
    requires N >= 2
    ensures var waiting := Rest(parse, N, packets) + [p];
            var complete := |waiting| == N && MergeOf(parse, waiting).Some?;
            && Groups(parse, N, packets + [p]) == Groups(parse, N, packets) + (if complete then [waiting] else [])
            && Rest(parse, N, packets + [p]) == if complete then [] else waiting
    decreases |packets|
  {
    var longer := packets + [p];
    if |packets| < N {
      if |longer| == N {
        assert longer[..N] == longer;
        assert longer[N..] == [];
        assert Groups(parse, N, longer[N..]) == [];
      }
    } else {
      assert longer[..N] == packets[..N];
      if MergeOf(parse, packets[..N]).Some? {
        assert longer[N..] == packets[N..] + [p];
        GroupsAfterOneMore(parse, N, packets[N..], p);
        var waiting := Rest(parse, N, packets) + [p];
        var extra := if |waiting| == N && MergeOf(parse, waiting).Some? then [waiting] else [];
        assert Groups(parse, N, longer) == [packets[..N]] + (Groups(parse, N, packets[N..]) + extra);
      }
    }
  }

  ghost predicate PerKey<J(!new)>(parse: string -> Option<J>, N: nat, arrivals: seq<Packet>, key: Key)
    requires N >= 2
  {
    var s, packets := Run(parse, N, arrivals), Of(arrivals, key);
    && Stored(s, key) == Rest(parse, N, packets)
    && Counted(s, key) == |Stored(s, key)|
    && Returned(parse, N, arrivals, key) == MergeAll(parse, Groups(parse, N, packets))
  }

  /** However the packets of different keys interleave: each key's merged packets are exactly those of
      its own arrivals cut into groups of N in order, and what is stored is what is left over. */
  lemma {:induction false} KeysAreIndependent<J(!new)>(parse: string -> Option<J>, N: nat, arrivals: seq<Packet>,
      key: Key)
    requires N >= 2
    ensures PerKey(parse, N, arrivals, key)
  {
    if arrivals != [] {
      KeysAreIndependent(parse, N, arrivals[..|arrivals| - 1], key);
      if KeyOf(arrivals[|arrivals| - 1]) == key {
        OwnArrival(parse, N, arrivals, key);
      } else {
        OtherArrival(parse, N, arrivals, key);
      }
    }
  }

  lemma OwnArrival<J(!new)>(parse: string -> Option<J>, N: nat, arrivals: seq<Packet>, key: Key)
    requires N >= 2 && arrivals != [] && KeyOf(arrivals[|arrivals| - 1]) == key
    requires PerKey(parse, N, arrivals[..|arrivals| - 1], key)
    ensures PerKey(parse, N, arrivals, key)
  {
    var front, p := arrivals[..|arrivals| - 1], arrivals[|arrivals| - 1];
    var packets := Of(front, key);
    var groups, waiting := Groups(parse, N, packets), Rest(parse, N, packets) + [p];
    GroupsAfterOneMore(parse, N, packets, p);
    assert Of(arrivals, key) == packets + [p];
    if |waiting| == N && MergeOf(parse, waiting).Some? {
      assert (groups + [waiting])[..|groups|] == groups;
    } else {
      assert groups + [] == groups;
      assert Returned(parse, N, arrivals, key) == Returned(parse, N, front, key);
    }
  }

  lemma OtherArrival<J(!new)>(parse: string -> Option<J>, N: nat, arrivals: seq<Packet>, key: Key)
    requires N >= 2 && arrivals != [] && KeyOf(arrivals[|arrivals| - 1]) != key
    requires PerKey(parse, N, arrivals[..|arrivals| - 1], key)
    ensures PerKey(parse, N, arrivals, key)
  {
    var front, p := arrivals[..|arrivals| - 1], arrivals[|arrivals| - 1];
    OtherKeyUntouched(parse, N, Run(parse, N, front), p, key);
    assert Of(front, key) + [] == Of(front, key);
    assert Returned(parse, N, front, key) + [] == Returned(parse, N, front, key);
  }

  lemma OtherKeyUntouched<J>(parse: string -> Option<J>, N: nat, s: State, p: Packet, key: Key)
    requires KeyOf(p) != key
    ensures var t := Arrive(parse, N, s, p).0; Stored(t, key) == Stored(s, key) && Counted(t, key) == Counted(s, key)
  {
    var own := KeyOf(p);
    var t := State(s.store[own := Stored(s, own) + [p]], s.counts[own := Counted(s, own) + 1]);
    assert Stored(t, key) == Stored(s, key) && Counted(t, key) == Counted(s, key);
  }

  predicate Parses<J>(parse: string -> Option<J>, packets: seq<Packet>) {
    forall i :: 0 <= i < |packets| ==> parse(packets[i].data).Some?
  }

  lemma {:induction false} MergesIffParses<J>(parse: string -> Option<J>, packets: seq<Packet>)
    requires packets != []
    ensures MergeOf(parse, packets).Some? <==> Parses(parse, packets)
  {
    InputsOfEach(parse, packets);
  }

  lemma {:induction false} InputsOfEach<J>(parse: string -> Option<J>, packets: seq<Packet>)
    ensures Inputs(parse, packets).Some? <==> Parses(parse, packets)
    ensures Parses(parse, packets) ==>
              |Inputs(parse, packets).value| == |packets| &&
              forall i :: 0 <= i < |packets| ==> parse(packets[i].data) == Some(Inputs(parse, packets).value[i])
  {
    if packets != [] {
      var front := packets[..|packets| - 1];
      InputsOfEach(parse, front);
      assert forall i :: 0 <= i < |front| ==> front[i] == packets[i];
    }
  }

  /** Groups and rest together hold N packets per group and the rest, and the rest is short. */
  lemma {:induction false} RestIsShort<J>(parse: string -> Option<J>, N: nat, packets: seq<Packet>)
    requires N >= 2 && Parses(parse, packets)
    ensures |packets| == |Groups(parse, N, packets)| * N + |Rest(parse, N, packets)|
    ensures |Rest(parse, N, packets)| < N
    decreases |packets|
  {
    if |packets| >= N {
      MergesIffParses(parse, packets[..N]);
      RestIsShort(parse, N, packets[N..]);
      var groups := |Groups(parse, N, packets[N..])|;
      assert |Groups(parse, N, packets)| == groups + 1;
      assert (groups + 1) * N == groups * N + N;
    }
  }

  lemma NumberOfGroups<J>(parse: string -> Option<J>, N: nat, packets: seq<Packet>)
    requires N >= 2 && Parses(parse, packets)
    ensures |Groups(parse, N, packets)| == |packets| / N
    ensures |Rest(parse, N, packets)| == |packets| % N
  {
    RestIsShort(parse, N, packets);
    QuotientIs(|packets|, N, |Groups(parse, N, packets)|);
  }

  lemma {:induction false} KthGroup<J>(parse: string -> Option<J>, N: nat, packets: seq<Packet>, k: nat)
    requires N >= 2 && Parses(parse, packets) && k < |Groups(parse, N, packets)|
    ensures k * N <= k * N + N <= |packets|
    ensures Groups(parse, N, packets)[k] == packets[k * N..k * N + N]
    decreases k
  {
    if k > 0 {
      KthGroup(parse, N, packets[N..], k - 1);
      assert (k - 1) * N + N == k * N;
      assert packets[N..][(k - 1) * N..(k - 1) * N + N] == packets[k * N..k * N + N];
    }
  }

  lemma QuotientIs(length: nat, N: nat, q: nat)
    requires 0 < N && q * N <= length < q * N + N
    ensures length / N == q
  {
    var d := length / N;
    if d < q {
      TimesMonotone(d + 1, q, N);
    } else if d > q {
      TimesMonotone(q + 1, d, N);
    }
  }

  lemma TimesMonotone(a: nat, b: nat, N: nat)
    requires a <= b
    ensures a * N <= b * N
  {
  }

  lemma {:induction false} FilesConcat(a: seq<Packet>, b: seq<Packet>)
    ensures Files(a + b) == Files(a) + Files(b)
  {
    if b == [] {
      assert a + b == a;
    } else {
      assert (a + b)[..|a + b| - 1] == a + b[..|b| - 1];
      FilesConcat(a, b[..|b| - 1]);
      Regroup(Files(a), Files(b[..|b| - 1]), b[|b| - 1].files);
    }
  }

  /** Where the files of packet i stand among those of all packets: behind those of the packets before it. */
  function Offset(packets: seq<Packet>, i: nat): nat
    requires i <= |packets|
  {
    if i == 0 then 0 else Offset(packets, i - 1) + |packets[i - 1].files|
  }

  lemma {:induction false} FilesLength(packets: seq<Packet>, i: nat)
    requires i <= |packets|
    ensures |Files(packets[..i])| == Offset(packets, i)
  {
    if i > 0 {
      assert packets[..i][..i - 1] == packets[..i - 1];
      FilesLength(packets, i - 1);
    }
  }

  /** All files are there, each packet's in order and at its place, and no others. */
  ghost predicate HasFiles(files: seq<string>, packets: seq<Packet>) {
    && |files| == Offset(packets, |packets|)
    && forall i :: 0 <= i < |packets| ==> FilesAt(files, packets, i)
  }

  ghost predicate FilesAt(files: seq<string>, packets: seq<Packet>, i: nat)
    requires i < |packets|
  {
    var n := Offset(packets, i);
    n + |packets[i].files| <= |files| && files[n..n + |packets[i].files|] == packets[i].files
  }

  lemma FilesStand(packets: seq<Packet>)
    ensures HasFiles(Files(packets), packets)
  {
    assert packets[..|packets|] == packets;
    FilesLength(packets, |packets|);
    forall i | 0 <= i < |packets| ensures FilesAt(Files(packets), packets, i) {
      var before, rest := packets[..i], packets[i + 1..];
      assert packets == before + [packets[i]] + rest;
      FilesLength(packets, i);
      FilesConcat(before + [packets[i]], rest);
      assert (before + [packets[i]])[..i] == before;
      assert Files(before + [packets[i]]) == Files(before) + packets[i].files;
    }
  }

  /** What a merged packet is made of: the first packet, what each one's data parse to, and all files. */
  ghost predicate Combines<J>(parse: string -> Option<J>, m: Merged<J>, packets: seq<Packet>) {
    && packets != [] && m.first == packets[0]
    && |m.inputs| == |packets| && (forall i :: 0 <= i < |packets| ==> parse(packets[i].data) == Some(m.inputs[i]))
    && HasFiles(m.files, packets)
  }

  lemma MergeCombines<J>(parse: string -> Option<J>, packets: seq<Packet>)
    ensures MergeOf(parse, packets).Some? ==> Combines(parse, MergeOf(parse, packets).value, packets)
    ensures MergeOf(parse, packets).Some? <==> packets != [] && Parses(parse, packets)
  {
    InputsOfEach(parse, packets);
    FilesStand(packets);
  }

  /** When all data parse: the k-th merged packet of a key combines exactly its arrivals kN to
      kN + N - 1, in order, and fewer than N packets wait. */
  lemma KthMergedPacket<J(!new)>(parse: string -> Option<J>, N: nat, arrivals: seq<Packet>, key: Key, k: nat)
    requires N >= 2 && Parses(parse, Of(arrivals, key))
    ensures |Returned(parse, N, arrivals, key)| == |Of(arrivals, key)| / N
    ensures k < |Of(arrivals, key)| / N ==>
              var packets := Of(arrivals, key);
              && k * N <= k * N + N <= |packets|
              && Combines(parse, Returned(parse, N, arrivals, key)[k], packets[k * N..k * N + N])
    ensures var s := Run(parse, N, arrivals);
            Counted(s, key) == |Stored(s, key)| == |Of(arrivals, key)| % N
  {
    var packets := Of(arrivals, key);
    assert PerKey(parse, N, arrivals, key) by { KeysAreIndependent(parse, N, arrivals, key); }
    NumberOfGroups(parse, N, packets);
    if k < |packets| / N { KthMerge(parse, N, packets, k); }
    MergesAll(parse, N, packets);
  }

  lemma MergesAll<J>(parse: string -> Option<J>, N: nat, packets: seq<Packet>)
    requires N >= 2 && Parses(parse, packets)
    ensures var groups := Groups(parse, N, packets);
            && |MergeAll(parse, groups)| == |groups|
            && forall j :: 0 <= j < |groups| ==> MergeOf(parse, groups[j]) == Some(MergeAll(parse, groups)[j])
  {
    GroupsParse(parse, N, packets);
    MergeAllOfEach(parse, Groups(parse, N, packets));
  }

  lemma KthMerge<J>(parse: string -> Option<J>, N: nat, packets: seq<Packet>, k: nat)
    requires N >= 2 && Parses(parse, packets) && k < |Groups(parse, N, packets)|
    ensures k * N <= k * N + N <= |packets|
    ensures k < |MergeAll(parse, Groups(parse, N, packets))|
    ensures Combines(parse, MergeAll(parse, Groups(parse, N, packets))[k], packets[k * N..k * N + N])
  {
    KthGroup(parse, N, packets, k);
    MergesAll(parse, N, packets);
    MergeCombines(parse, Groups(parse, N, packets)[k]);
  }

  ghost predicate AllParse<J>(parse: string -> Option<J>, groups: seq<seq<Packet>>) {
    forall j :: 0 <= j < |groups| ==> groups[j] != [] && Parses(parse, groups[j])
  }

  lemma GroupsParse<J>(parse: string -> Option<J>, N: nat, packets: seq<Packet>)
    requires N >= 2 && Parses(parse, packets)
    ensures AllParse(parse, Groups(parse, N, packets))
  {
    var groups := Groups(parse, N, packets);
    forall j | 0 <= j < |groups| ensures groups[j] != [] && Parses(parse, groups[j]) {
      KthGroup(parse, N, packets, j);
    }
  }

  lemma {:induction false} MergeAllOfEach<J>(parse: string -> Option<J>, groups: seq<seq<Packet>>)
    requires AllParse(parse, groups)
    ensures |MergeAll(parse, groups)| == |groups|
    ensures forall j :: 0 <= j < |groups| ==> MergeOf(parse, groups[j]) == Some(MergeAll(parse, groups)[j])
  {
    if groups != [] {
      var front := groups[..|groups| - 1];
      assert forall j :: 0 <= j < |front| ==> front[j] == groups[j];
      MergeAllOfEach(parse, front);
      MergesIffParses(parse, groups[|groups| - 1]);
      var merged := MergeAll(parse, groups);
      assert merged == MergeAll(parse, front) + [MergeOf(parse, groups[|groups| - 1]).value];
      forall j | 0 <= j < |groups| ensures MergeOf(parse, groups[j]) == Some(merged[j]) {
        if j < |front| { assert front[j] == groups[j] && merged[j] == MergeAll(parse, front)[j]; }
      }
    }
  }

  /** The packets in groups of N that are complete. */
  function CompleteGroups(packets: seq<Packet>, N: nat): seq<Packet>
    requires N > 0
  {
    packets[..|packets| - |packets| % N]
  }

  /** A group that does not parse blocks its key: a key holds N or more packets exactly when one of
      its arrivals in a complete group does not parse. From then on, whatever arrives, nothing is
      returned for it and its packets are only stored. */
  lemma UnparsableGroupBlocks<J(!new)>(parse: string -> Option<J>, N: nat, arrivals: seq<Packet>, later: seq<Packet>,
      key: Key)
    requires N >= 2
    ensures |Stored(Run(parse, N, arrivals), key)| >= N <==> !Parses(parse, CompleteGroups(Of(arrivals, key), N))
    ensures |Stored(Run(parse, N, arrivals), key)| >= N ==>
              && Returned(parse, N, arrivals + later, key) == Returned(parse, N, arrivals, key)
              && Stored(Run(parse, N, arrivals + later), key) == Stored(Run(parse, N, arrivals), key) + Of(later, key)
  {
    KeysAreIndependent(parse, N, arrivals, key);
    RestIsLong(parse, N, Of(arrivals, key));
    if |Stored(Run(parse, N, arrivals), key)| >= N {
      KeysAreIndependent(parse, N, arrivals + later, key);
      OfConcat(arrivals, later, key);
      BlockedStaysBlocked(parse, N, Of(arrivals, key), Of(later, key));
    }
  }

  lemma {:induction false} OfConcat(a: seq<Packet>, b: seq<Packet>, key: Key)
    ensures Of(a + b, key) == Of(a, key) + Of(b, key)
  {
    if b == [] {
      assert a + b == a;
    } else {
      assert (a + b)[..|a + b| - 1] == a + b[..|b| - 1];
      OfConcat(a, b[..|b| - 1], key);
    }
  }

  /** Behind a group that cannot be merged no group is ever cut off. */
  lemma {:induction false} BlockedStaysBlocked<J>(parse: string -> Option<J>, N: nat, packets: seq<Packet>,
                                                  more: seq<Packet>)
    requires N >= 2 && |Rest(parse, N, packets)| >= N
    ensures Groups(parse, N, packets + more) == Groups(parse, N, packets)
    ensures Rest(parse, N, packets + more) == Rest(parse, N, packets) + more
    decreases |packets|
  {
    assert |packets| >= N && (packets + more)[..N] == packets[..N];
    if MergeOf(parse, packets[..N]).Some? {
      assert (packets + more)[N..] == packets[N..] + more;
      BlockedStaysBlocked(parse, N, packets[N..], more);
    }
  }

  lemma {:induction false} RestIsLong<J>(parse: string -> Option<J>, N: nat, packets: seq<Packet>)
    requires N >= 2
    ensures |Rest(parse, N, packets)| >= N <==> !Parses(parse, CompleteGroups(packets, N))
    decreases |packets|
  {
    if |packets| >= N {
      var first, others := packets[..N], packets[N..];
      MergesIffParses(parse, first);
      RestIsLong(parse, N, others);
      assert CompleteGroups(packets, N) == first + CompleteGroups(others, N) by { FirstComplete(packets, N); }
      ParsesTogether(parse, first, CompleteGroups(others, N));
    } else {
      NoneComplete(packets, N);
    }
  }

  lemma NoneComplete(packets: seq<Packet>, N: nat)
    requires |packets| < N
    ensures CompleteGroups(packets, N) == []
  {
  }

  lemma FirstComplete(packets: seq<Packet>, N: nat)
    requires 0 < N <= |packets|
    ensures CompleteGroups(packets, N) == packets[..N] + CompleteGroups(packets[N..], N)
  {
    RemainderUnchanged(|packets|, N);
  }

  lemma RemainderUnchanged(length: nat, N: nat)
    requires 0 < N <= length
    ensures length % N == (length - N) % N <= length - N
  {
    var q := (length - N) / N;
    assert length - N == q * N + (length - N) % N;
    assert (q + 1) * N == q * N + N;
    QuotientIs(length, N, q + 1);
  }

  lemma ParsesTogether<J>(parse: string -> Option<J>, a: seq<Packet>, b: seq<Packet>)
    ensures Parses(parse, a + b) <==> Parses(parse, a) && Parses(parse, b)
  {
    if Parses(parse, a + b) {
      forall i | 0 <= i < |a| ensures parse(a[i].data).Some? { assert (a + b)[i] == a[i]; }
      forall i | 0 <= i < |b| ensures parse(b[i].data).Some? { assert (a + b)[|a| + i] == b[i]; }
    }
  }

  /** With N below one nothing is ever merged. */
  lemma {:induction false} NeverMerges<J>(parse: string -> Option<J>, N: int, arrivals: seq<Packet>, key: Key)
    requires N <= 0
    ensures Returned(parse, N, arrivals, key) == []
    ensures var s := Run(parse, N, arrivals);
            Stored(s, key) == Of(arrivals, key) && Counted(s, key) == |Of(arrivals, key)|
  {
    if arrivals != [] {
      NeverMerges(parse, N, arrivals[..|arrivals| - 1], key);
      NeverMerges(parse, N, arrivals[..|arrivals| - 1], KeyOf(arrivals[|arrivals| - 1]));
    }
  }

  // ------------------------------------------------------------------- batches

  class Batcher {
    const N: int
    var batch: seq<Packet>

    constructor (N: int)
      ensures this.N == N && batch == []
    {
      this.N := N;
      batch := [];
    }

    method AddToBatch(p: Packet) returns (full: Option<seq<Packet>>)
      modifies this
      ensures (batch, full) == Collect(N, old(batch), p)
    {
      batch := batch + [p];
      if |batch| >= N {
        var copy := batch;
        batch := [];
        return Some(copy);
      }
      full := None;
    }
  }

  function Collect(N: int, batch: seq<Packet>, p: Packet): (seq<Packet>, Option<seq<Packet>>) {
    if |batch| + 1 >= N then ([], Some(batch + [p])) else (batch + [p], None)
  }

  function Collected(N: int, arrivals: seq<Packet>): (seq<seq<Packet>>, seq<Packet>) {
    if arrivals == [] then ([], [])
    else
      var (batches, batch) := Collected(N, arrivals[..|arrivals| - 1]);
      var (left, full) := Collect(N, batch, arrivals[|arrivals| - 1]);
      (if full.Some? then batches + [full.value] else batches, left)
  }

  function Concatenated(batches: seq<seq<Packet>>): seq<Packet> {
    if batches == [] then [] else Concatenated(batches[..|batches| - 1]) + batches[|batches| - 1]
  }

  /** Every batch has exactly N packets (one if N is below one), and batches followed by what is
      still being collected are the arrivals. */
  ghost predicate Partition(N: int, batches: seq<seq<Packet>>, batch: seq<Packet>, arrivals: seq<Packet>) {
    var size := if N < 1 then 1 else N;
    && |batch| < size && (forall i :: 0 <= i < |batches| ==> |batches[i]| == size)
    && Concatenated(batches) + batch == arrivals
  }

  lemma CollectKeeps(N: int, batches: seq<seq<Packet>>, batch: seq<Packet>, arrivals: seq<Packet>, p: Packet)
    requires Partition(N, batches, batch, arrivals)
    ensures var (left, full) := Collect(N, batch, p);
            Partition(N, if full.Some? then batches + [full.value] else batches, left, arrivals + [p])
  {
    Regroup(Concatenated(batches), batch, [p]);
    OneMoreBatch(batches, batch + [p]);
  }

  lemma {:induction false} BatchesPartitionArrivals(N: int, arrivals: seq<Packet>)
    ensures Partition(N, Collected(N, arrivals).0, Collected(N, arrivals).1, arrivals)
  {
    if arrivals != [] {
      var front, p := arrivals[..|arrivals| - 1], arrivals[|arrivals| - 1];
      BatchesPartitionArrivals(N, front);
      CollectKeeps(N, Collected(N, front).0, Collected(N, front).1, front, p);
      assert arrivals == front + [p];
    }
  }

  /** The batcher with a timer. `stuck` records that a thread which holds the lock waits for it: the
      flush of a full batch asks again for the lock its caller holds. */
  datatype Timed = Timed(batch: seq<Packet>, timer: bool, stuck: bool, flushed: seq<seq<Packet>>)

  datatype TimedEvent = Add(packet: Packet) | TimerFires

  function ApplyTimed(N: int, s: Timed, e: TimedEvent): Timed {
    if s.stuck then s
    else match e
      case Add(p) =>
        var batch := s.batch + [p];
        var timer := s.timer || |batch| == 1;
        Timed(batch, timer, |batch| >= N, s.flushed)
      case TimerFires =>
        if !s.timer || s.batch == [] then s else Timed([], false, false, s.flushed + [s.batch])
  }

  function RunTimed(N: int, events: seq<TimedEvent>): Timed {
    if events == [] then Timed([], false, false, [])
    else ApplyTimed(N, RunTimed(N, events[..|events| - 1]), events[|events| - 1])
  }

  /** The packets added before the lock was lost, including the one that lost it. */
  function Accepted(N: int, events: seq<TimedEvent>): seq<Packet> {
    if events == [] then []
    else
      var front, e := events[..|events| - 1], events[|events| - 1];
      Accepted(N, front) + if e.Add? && !RunTimed(N, front).stuck then [e.packet] else []
  }

  ghost predicate SafelyTimed(N: int, s: Timed, accepted: seq<Packet>) {
    && Concatenated(s.flushed) + s.batch == accepted
    && (s.timer <==> s.batch != [])
    && (s.stuck <==> s.batch != [] && |s.batch| >= N)
    && (forall i :: 0 <= i < |s.flushed| ==> 0 < |s.flushed[i]| < N)
  }

  lemma TimedStep(N: int, s: Timed, e: TimedEvent, accepted: seq<Packet>)
    requires SafelyTimed(N, s, accepted)
    ensures SafelyTimed(N, ApplyTimed(N, s, e), accepted + if e.Add? && !s.stuck then [e.packet] else [])
  {
    if s.stuck || e.TimerFires? {
      assert accepted + [] == accepted;
    }
    if e.Add? {
      Regroup(Concatenated(s.flushed), s.batch, [e.packet]);
    } else {
      OneMoreBatch(s.flushed, s.batch);
    }
  }

  lemma OneMoreBatch(batches: seq<seq<Packet>>, batch: seq<Packet>)
    ensures Concatenated(batches + [batch]) == Concatenated(batches) + batch
    ensures Concatenated(batches + [batch]) + [] == Concatenated(batches) + batch
  {
    assert (batches + [batch])[..|batches|] == batches;
  }

  /** Safety of the timed batcher: flushed batches followed by the current one are the accepted packets,
      a timer runs exactly while packets wait, and the lock is lost exactly when a batch fills up;
      so no flushed batch ever reaches N packets. */
  lemma {:induction false} TimedBatcherIsSafe(N: int, events: seq<TimedEvent>)
    ensures SafelyTimed(N, RunTimed(N, events), Accepted(N, events))
  {
    if events != [] {
      var front, e := events[..|events| - 1], events[|events| - 1];
      TimedBatcherIsSafe(N, front);
      var s := RunTimed(N, front);
      TimedStep(N, s, e, Accepted(N, front));
    }
  }

  /** While the lock is not lost, the timer flushes whatever waits, as one batch: then every packet
      accepted so far has been flushed. */
  lemma TimerFlushes(N: int, events: seq<TimedEvent>)
    requires !RunTimed(N, events).stuck
    ensures var s, t := RunTimed(N, events), RunTimed(N, events + [TimerFires]);
            && t.batch == [] && !t.stuck && Concatenated(t.flushed) == Accepted(N, events)
            && t.flushed == s.flushed + if s.batch == [] then [] else [s.batch]
  {
    var s, t := RunTimed(N, events), RunTimed(N, events + [TimerFires]);
    assert (events + [TimerFires])[..|events|] == events;
    TimedBatcherIsSafe(N, events);
    TimedBatcherIsSafe(N, events + [TimerFires]);
    assert s.flushed + [] == s.flushed;
    assert Accepted(N, events) + [] == Accepted(N, events);
    assert Concatenated(t.flushed) + [] == Concatenated(t.flushed);
  }

  /** A batch that has filled up is never flushed, whatever happens afterwards. */
  lemma {:induction false} FullBatchIsNeverFlushed(N: int, events: seq<TimedEvent>, later: seq<TimedEvent>)
    requires RunTimed(N, events).stuck
    ensures RunTimed(N, events + later) == RunTimed(N, events)
  {
    if later == [] {
      assert events + later == events;
    } else {
      FullBatchIsNeverFlushed(N, events, later[..|later| - 1]);
      assert (events + later)[..|events + later| - 1] == events + later[..|later| - 1];
    }
  }
}
