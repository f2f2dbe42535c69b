/** Distributed generation: N ranks run the same script of barriers, broadcasts from rank 0, and
    MIN-reductions that agree on whether a guarded call failed anywhere. Modelled as
    interleaved steps in which each rank issues its next collective and later completes it.
    Collectives pair up by the order in which a rank issues them: the k-th of one rank with the
    k-th of every other. */
module BroadcastProtocol {

  /** A guarded call works, raises before it has joined its collective, or raises afterwards. */
  datatype Fault = Works | RaisesBefore | RaisesAfter

  /** Rank 0's encoded configuration, token ids and mask, and how guarded calls go: a
      broadcast is named by its place in the script, `model.generate` by the place of its reduction. */
  datatype Job = Job(ranks: nat, config: seq<int>, ids: seq<int>, mask: seq<int>, fault: (nat, nat) -> Fault)

  datatype Kind = Barrier | Broadcast | Reduce

  /** A collective as issued by one rank: buffer length, contents at the source, success flag. */
  datatype Issued = Issued(kind: Kind, length: int, data: seq<int>, ok: bool)

  datatype Status = Running | Aborting | Raised | Done

  datatype Rank = Rank(
    log: seq<Issued>,     // collectives issued
    completed: nat,       // how many of them have completed
    skipped: bool,        // whether a broadcast was left out because it raised before joining
    status: Status,
    size: int,
    config: seq<int>,
    length: int,
    ids: seq<int>,
    mask: seq<int>)

  datatype Action = Issue(r: nat) | Complete(r: nat)

  /** The script has sixteen collectives when nothing fails. */
  const LAST := 16

  function KindAt(p: nat): Kind {
    if p in {0, 3, 6, 9, 12} then Barrier
    else if p in {1, 4, 7, 10, 13} then Broadcast
    else Reduce
  }

  /** The guarded call a reduction reports on. */
  function GuardedBy(p: nat): nat {
    if p == 15 || p == 0 then p else p - 1
  }

  /** What rank 0 sends in each broadcast. */
  function Payload(job: Job, p: nat): seq<int> {
    if p == 1 then [|job.config|]
    else if p == 4 then job.config
    else if p == 7 then [|job.ids|]
    else if p == 10 then job.ids
    else job.mask
  }

  /** The receiving buffer a rank allocates, from the sizes it has received. */
  function BufferLength(st: Rank, p: nat): int {
    if p == 1 || p == 7 then 1
    else if p == 4 then st.size
    else st.length
  }

  /** Where in the script a rank is. */
  function Place(st: Rank): nat {
    st.completed + if st.skipped then 1 else 0
  }

  function Joining(st: Rank, c: Issued): Rank {
    st.(log := st.log + [c])
  }

  /** A rank goes on, from its own state only. A broadcast that raises before joining is left out: the
      rank goes straight to the reduction that reports it. */
  function Issuing(job: Job, r: nat, st: Rank): Rank {
    var p := Place(st);
    if st.status == Aborting then Joining(st, Issued(Barrier, 0, [], true))
    else match KindAt(p)
      case Barrier => Joining(st, Issued(Barrier, 0, [], true))
      case Reduce => Joining(st, Issued(Reduce, 1, [], job.fault(r, GuardedBy(p)) == Works))
      case Broadcast =>
        if job.fault(r, p) == RaisesBefore then Joining(st.(skipped := true), Issued(Reduce, 1, [], false))
        else if r == 0 then Joining(st, Issued(Broadcast, |Payload(job, p)|, Payload(job, p), true))
        else Joining(st, Issued(Broadcast, BufferLength(st, p), [], true))
  }

  /** A rank's memory after receiving a broadcast; rank 0 keeps its own tensors. */
  function Receive(st: Rank, p: nat, data: seq<int>): Rank {
    if p == 1 then st.(size := if data == [] then 0 else data[0])
    else if p == 4 then st.(config := data)
    else if p == 7 then st.(length := if data == [] then 0 else data[0])
    else if p == 10 then st.(ids := data)
    else st.(mask := data)
  }

  predicate CanIssue(job: Job, s: seq<Rank>, r: nat) {
    r < |s| && s[r].completed == |s[r].log| && s[r].status in {Running, Aborting}
  }

  predicate HasIssued(s: seq<Rank>, q: nat, k: nat, kind: Kind) {
    q < |s| && k < |s[q].log| && s[q].log[k].kind == kind
  }

  /** A broadcast needs its source in the same broadcast; a barrier or a reduction needs everyone in it. */
  predicate CanComplete(job: Job, s: seq<Rank>, r: nat) {
    r < |s| && s[r].completed < |s[r].log| &&
    var k := s[r].completed;
    var kind := s[r].log[k].kind;
    if kind == Broadcast then HasIssued(s, 0, k, kind)
    else forall q :: 0 <= q < |s| ==> HasIssued(s, q, k, kind)
  }

  predicate SomeFlagDown(s: seq<Rank>, k: nat) {
    exists q :: 0 <= q < |s| && k < |s[q].log| && !s[q].log[k].ok
  }

  function Completed(job: Job, s: seq<Rank>, r: nat): Rank
    requires CanComplete(job, s, r)
  {
    var st, k := s[r], s[r].completed;
    var next := st.(completed := k + 1);
    match st.log[k].kind
    case Barrier => if st.status == Aborting then next.(status := Raised) else next
    case Broadcast => if job.fault(r, Place(st)) == Works then Receive(next, Place(st), s[0].log[k].data) else next
    case Reduce =>
      if SomeFlagDown(s, k) then next.(status := Aborting)
      else if Place(st) + 1 == LAST then next.(status := Done)
      else next
  }

  function Apply(job: Job, s: seq<Rank>, a: Action): seq<Rank> {
    match a
    case Issue(r) => if CanIssue(job, s, r) then s[r := Issuing(job, r, s[r])] else s
    case Complete(r) => if CanComplete(job, s, r) then s[r := Completed(job, s, r)] else s
  }

  const START := Rank([], 0, false, Running, 0, [], 0, [], [])

  /** The ranks after any interleaving of their steps. */
  ghost function Exec(job: Job, actions: seq<Action>): (s: seq<Rank>)
    ensures |s| == job.ranks
  {
    if actions == [] then seq(job.ranks, _ => START)
    else Apply(job, Exec(job, actions[..|actions| - 1]), actions[|actions| - 1])
  }

  // ------------------------------------------------------------ the common schedule

  ghost predicate AnyFails(job: Job, p: nat) {
    exists q :: 0 <= q < job.ranks && job.fault(q, GuardedBy(p)) != Works
  }

  /** Rank q fails the guarded call whose outcome the reduction at place p reports. */
  ghost predicate ReportedBy(job: Job, q: nat, p: nat) {
    p < LAST && KindAt(p) == Reduce && job.fault(q, GuardedBy(p)) != Works
  }

  /** The first reduction that reports a failure, or the end of the script. */
  ghost function FirstFailure(job: Job, p: nat): nat
    requires p <= LAST
    ensures p <= FirstFailure(job, p) <= LAST
    ensures FirstFailure(job, p) < LAST ==>
            KindAt(FirstFailure(job, p)) == Reduce && AnyFails(job, FirstFailure(job, p))
    ensures forall j :: p <= j < FirstFailure(job, p) && KindAt(j) == Reduce ==> !AnyFails(job, j)
    decreases LAST - p
  {
    if p == LAST || (KindAt(p) == Reduce && AnyFails(job, p)) then p else FirstFailure(job, p + 1)
  }

  ghost function Stop(job: Job): nat {
    FirstFailure(job, 0)
  }

  /** The number of places every rank goes through: an aborting rank joins one more barrier. */
  ghost function Total(job: Job): nat {
    if Stop(job) == LAST then LAST else Stop(job) + 2
  }

  /** Rank r raises before joining the broadcast that is the first guarded call to fail anywhere. */
  ghost predicate Skips(job: Job, r: nat) {
    Stop(job) < LAST && KindAt(GuardedBy(Stop(job))) == Broadcast && job.fault(r, GuardedBy(Stop(job))) == RaisesBefore
  }

  /** Either no rank raises before joining that broadcast, or every rank does. */
  ghost predicate Uniform(job: Job) {
    forall r, q :: 0 <= r < job.ranks && 0 <= q < job.ranks ==> (Skips(job, r) <==> Skips(job, q))
  }

  /** The place of the k-th collective a rank issues. */
  ghost function PlaceOf(job: Job, r: nat, k: nat): nat {
    if Skips(job, r) && k + 1 >= Stop(job) then k + 1 else k
  }

  /** What a rank issues at a place of the script. */
  ghost function Scheduled(job: Job, r: nat, p: nat): Issued {
    if p > Stop(job) || KindAt(p) == Barrier then Issued(Barrier, 0, [], true)
    else if KindAt(p) == Reduce then Issued(Reduce, 1, [], job.fault(r, GuardedBy(p)) == Works)
    else if r == 0 then Issued(Broadcast, |Payload(job, p)|, Payload(job, p), true)
    else Issued(Broadcast, if p in {1, 7} then 1 else if p == 4 then |job.config| else |job.ids|, [], true)
  }

  ghost function StatusAt(job: Job, p: nat): Status {
    if p <= Stop(job) && p < LAST then Running
    else if p == Stop(job) == LAST then Done
    else if p == Stop(job) + 1 then Aborting
    else Raised
  }

  /** What a rank holds once the reductions after the broadcasts have passed. */
  ghost predicate Holds(job: Job, st: Rank) {
    && (Place(st) > 2 && Stop(job) > 2 ==> st.size == |job.config|)
    && (Place(st) > 5 && Stop(job) > 5 ==> st.config == job.config)
    && (Place(st) > 8 && Stop(job) > 8 ==> st.length == |job.ids|)
    && (Place(st) > 11 && Stop(job) > 11 ==> st.ids == job.ids)
    && (Place(st) > 14 && Stop(job) > 14 ==> st.mask == job.mask)
  }

  /** Between a broadcast and its reduction only the ranks without a failure hold the data. */
  ghost predicate HoldsFresh(job: Job, r: nat, st: Rank) {
    && (Place(st) == 2 && job.fault(r, 1) == Works ==> st.size == |job.config|)
    && (Place(st) == 5 && job.fault(r, 4) == Works ==> st.config == job.config)
    && (Place(st) == 8 && job.fault(r, 7) == Works ==> st.length == |job.ids|)
    && (Place(st) == 11 && job.fault(r, 10) == Works ==> st.ids == job.ids)
    && (Place(st) == 14 && job.fault(r, 13) == Works ==> st.mask == job.mask)
  }

  ghost predicate Logged(job: Job, r: nat, log: seq<Issued>) {
    forall k :: 0 <= k < |log| ==> log[k] == Scheduled(job, r, PlaceOf(job, r, k))
  }

  /** When the ranks disagree about joining a broadcast, none gets past the reduction that should report it. */
  ghost predicate WellPlaced(job: Job, r: nat, st: Rank) {
    && st.completed <= |st.log| <= st.completed + 1
    && |st.log| + (if st.skipped then 1 else 0) <= Total(job)
    && (st.skipped <==> Skips(job, r) && |st.log| >= Stop(job))
    && st.status == StatusAt(job, Place(st))
    && (!Uniform(job) ==> Place(st) <= Stop(job))
  }

  /** A rank has issued what its schedule says, and is where the schedule says. */
  ghost predicate OnSchedule(job: Job, r: nat, st: Rank) {
    WellPlaced(job, r, st) && Logged(job, r, st.log)
  }

  ghost predicate RankInvariant(job: Job, r: nat, st: Rank) {
    OnSchedule(job, r, st) && Holds(job, st) && HoldsFresh(job, r, st)
  }

  ghost predicate Invariant(job: Job, s: seq<Rank>) {
    |s| == job.ranks && forall r :: 0 <= r < |s| ==> RankInvariant(job, r, s[r])
  }

  lemma StopShape(job: Job)
    ensures Stop(job) < LAST ==> Stop(job) >= 2 && KindAt(Stop(job)) == Reduce
    ensures Stop(job) < LAST && KindAt(GuardedBy(Stop(job))) == Broadcast ==>
              GuardedBy(Stop(job)) == Stop(job) - 1 && KindAt(Stop(job) - 1) == Broadcast
  {
  }

  lemma NoFailureBefore(job: Job, q: nat, p: nat)
    requires p < Stop(job) && KindAt(p) == Reduce && q < job.ranks
    ensures job.fault(q, GuardedBy(p)) == Works
  {
    assert !AnyFails(job, p);
  }

  /** A rank that comes to a broadcast raises before joining it only if it is one of those that skip. */
  lemma RaisesOnlyWhenSkipping(job: Job, r: nat, p: nat)
    requires p <= Stop(job) && p < LAST && KindAt(p) == Broadcast && r < job.ranks
    ensures job.fault(r, p) == RaisesBefore <==> p + 1 == Stop(job) && Skips(job, r)
  {
    assert KindAt(p + 1) == Reduce && GuardedBy(p + 1) == p;
    StopShape(job);
    if p + 1 < Stop(job) { NoFailureBefore(job, r, p + 1); }
  }

  /** The sizes received so far are those of rank 0's tensors. */
  lemma BuffersFit(job: Job, st: Rank)
    requires Holds(job, st) && KindAt(Place(st)) == Broadcast && Place(st) <= Stop(job)
    ensures var p := Place(st);
            BufferLength(st, p) == if p in {1, 7} then 1 else if p == 4 then |job.config| else |job.ids|
  {
    StopShape(job);
  }

  lemma IssuesSchedule(job: Job, r: nat, st: Rank)
    requires RankInvariant(job, r, st) && st.completed == |st.log| && st.status in {Running, Aborting} && r < job.ranks
    ensures var k := |st.log|;
            Issuing(job, r, st) ==
            Joining(st.(skipped := Skips(job, r) && k + 1 >= Stop(job)), Scheduled(job, r, PlaceOf(job, r, k)))
  {
    StopShape(job);
    var p := Place(st);
    if st.status == Running && KindAt(p) == Broadcast {
      RaisesOnlyWhenSkipping(job, r, p);
      BuffersFit(job, st);
    }
  }

  lemma LoggedOneMore(job: Job, r: nat, log: seq<Issued>)
    requires Logged(job, r, log)
    ensures Logged(job, r, log + [Scheduled(job, r, PlaceOf(job, r, |log|))])
  {
  }

  lemma JoiningWellPlaced(job: Job, r: nat, st: Rank, c: Issued)
    requires WellPlaced(job, r, st) && st.completed == |st.log| && st.status in {Running, Aborting}
    ensures WellPlaced(job, r, Joining(st.(skipped := Skips(job, r) && |st.log| + 1 >= Stop(job)), c))
  {
    StopShape(job);
  }

  /** Leaving a broadcast out brings a rank to the reduction that reports it, not past it. */
  lemma JoiningHolds(job: Job, r: nat, st: Rank, c: Issued)
    requires RankInvariant(job, r, st) && st.completed == |st.log|
    ensures var next := Joining(st.(skipped := Skips(job, r) && |st.log| + 1 >= Stop(job)), c);
            Holds(job, next) && HoldsFresh(job, r, next)
  {
    StopShape(job);
  }

  lemma IssueKeeps(job: Job, r: nat, st: Rank)
    requires RankInvariant(job, r, st) && st.completed == |st.log| && st.status in {Running, Aborting} && r < job.ranks
    ensures RankInvariant(job, r, Issuing(job, r, st))
  {
    IssuesSchedule(job, r, st);
    var c := Scheduled(job, r, PlaceOf(job, r, |st.log|));
    LoggedOneMore(job, r, st.log);
    JoiningWellPlaced(job, r, st, c);
    JoiningHolds(job, r, st, c);
  }

  lemma LogEntry(job: Job, s: seq<Rank>, q: nat, k: nat)
    requires Invariant(job, s) && q < |s| && k < |s[q].log|
    ensures s[q].log[k] == Scheduled(job, q, PlaceOf(job, q, k))
  {
    assert RankInvariant(job, q, s[q]);
  }

  /** The collective a rank is about to complete is the one at its place. */
  lemma AtPlace(job: Job, r: nat, st: Rank)
    requires OnSchedule(job, r, st) && st.completed < |st.log|
    ensures PlaceOf(job, r, st.completed) == Place(st) < Total(job)
    ensures st.log[st.completed] == Scheduled(job, r, Place(st))
  {
  }

  lemma MixedPair(job: Job, r: nat) returns (q: nat)
    requires !Uniform(job) && r < job.ranks
    ensures q < job.ranks && (Skips(job, q) <==> !Skips(job, r))
  {
    var a, b :| 0 <= a < job.ranks && 0 <= b < job.ranks && (Skips(job, a) <==> !Skips(job, b));
    q := if Skips(job, a) <==> !Skips(job, r) then a else b;
  }

  /** When the ranks disagree about joining, the reduction after that broadcast never completes: those
      that skipped it wait in the reduction while the others' next collective is the broadcast. */
  lemma MixedNeverReduces(job: Job, s: seq<Rank>, r: nat)
    requires Invariant(job, s) && CanComplete(job, s, r) && !Uniform(job)
    ensures Place(s[r]) < Stop(job)
  {
    var st, k := s[r], s[r].completed;
    assert RankInvariant(job, r, st);
    AtPlace(job, r, st);
    StopShape(job);
    var q := MixedPair(job, r);
    assert RankInvariant(job, q, s[q]);
    assert st.log[k].kind == Reduce ==> HasIssued(s, q, k, Reduce);
    if Place(st) == Stop(job) && Skips(job, r) { LogEntry(job, s, q, k); }
  }

  /** The MIN over the success flags is zero exactly when the guarded call failed on some rank. */
  lemma ReductionReports(job: Job, s: seq<Rank>, r: nat)
    requires Invariant(job, s) && CanComplete(job, s, r) && s[r].log[s[r].completed].kind == Reduce
    ensures var k := s[r].completed;
            && (forall q :: 0 <= q < |s| ==> k < |s[q].log|)
            && (SomeFlagDown(s, k) <==> AnyFails(job, Place(s[r])))
    ensures AnyFails(job, Place(s[r])) <==> Place(s[r]) == Stop(job)
  {
    var k, p := s[r].completed, Place(s[r]);
    assert RankInvariant(job, r, s[r]);
    AtPlace(job, r, s[r]);
    forall q | 0 <= q < |s| ensures k < |s[q].log| && (s[q].log[k].ok <==> job.fault(q, GuardedBy(p)) == Works) {
      assert HasIssued(s, q, k, Reduce);
      SamePlace(job, s, r, q);
      LogEntry(job, s, q, k);
    }
  }

  /** Ranks that are in the same collective are at the same place of the script. */
  lemma SamePlace(job: Job, s: seq<Rank>, r: nat, q: nat)
    requires Invariant(job, s) && CanComplete(job, s, r) && q < |s|
    requires HasIssued(s, q, s[r].completed, s[r].log[s[r].completed].kind)
    ensures PlaceOf(job, q, s[r].completed) == Place(s[r])
  {
    assert RankInvariant(job, r, s[r]);
    AtPlace(job, r, s[r]);
    LogEntry(job, s, q, s[r].completed);
    StopShape(job);
    if !Uniform(job) { MixedNeverReduces(job, s, r); }
  }

  lemma StatusAfter(job: Job, p: nat)
    requires p < Total(job)
    ensures p > Stop(job) ==> StatusAt(job, p) == Aborting && StatusAt(job, p + 1) == Raised
    ensures p == Stop(job) ==> StatusAt(job, p) == Running && StatusAt(job, p + 1) == Aborting
    ensures p < Stop(job) ==>
              StatusAt(job, p) == Running && StatusAt(job, p + 1) == if p + 1 == LAST then Done else Running
  {
  }

  lemma CompletedAdvances(job: Job, s: seq<Rank>, r: nat)
    requires CanComplete(job, s, r)
    ensures Completed(job, s, r).completed == s[r].completed + 1
    ensures Completed(job, s, r).log == s[r].log && Completed(job, s, r).skipped == s[r].skipped
  {
  }

  lemma CompletedStatus(job: Job, s: seq<Rank>, r: nat)
    requires Invariant(job, s) && CanComplete(job, s, r)
    ensures Completed(job, s, r).status == StatusAt(job, Place(s[r]) + 1)
  {
    assert RankInvariant(job, r, s[r]);
    AtPlace(job, r, s[r]);
    StatusAfter(job, Place(s[r]));
    if s[r].log[s[r].completed].kind == Reduce { ReductionReports(job, s, r); }
  }

  lemma CompleteOnSchedule(job: Job, s: seq<Rank>, r: nat)
    requires Invariant(job, s) && CanComplete(job, s, r)
    ensures OnSchedule(job, r, Completed(job, s, r))
  {
    assert RankInvariant(job, r, s[r]);
    CompletedAdvances(job, s, r);
    CompletedStatus(job, s, r);
    if !Uniform(job) { MixedNeverReduces(job, s, r); }
  }

  /** What one broadcast leaves in a rank's memory. */
  lemma ReceiveHolds(job: Job, r: nat, st: Rank)
    requires Holds(job, st) && KindAt(Place(st)) == Broadcast
    ensures var got := Receive(st.(completed := st.completed + 1), Place(st), Payload(job, Place(st)));
            Holds(job, got) && HoldsFresh(job, r, got)
  {
  }

  lemma MissHolds(job: Job, r: nat, st: Rank)
    requires Holds(job, st) && KindAt(Place(st)) == Broadcast && job.fault(r, Place(st)) != Works
    ensures var next := st.(completed := st.completed + 1); Holds(job, next) && HoldsFresh(job, r, next)
  {
  }

  lemma BroadcastHolds(job: Job, s: seq<Rank>, r: nat)
    requires Invariant(job, s) && CanComplete(job, s, r) && s[r].log[s[r].completed].kind == Broadcast
    ensures Holds(job, Completed(job, s, r)) && HoldsFresh(job, r, Completed(job, s, r))
  {
    var st, k := s[r], s[r].completed;
    assert RankInvariant(job, r, st);
    AtPlace(job, r, st);
    SamePlace(job, s, r, 0);
    LogEntry(job, s, 0, k);
    if job.fault(r, Place(st)) == Works { ReceiveHolds(job, r, st); } else { MissHolds(job, r, st); }
  }

  /** A barrier changes no memory; a reduction that passes makes what was received final. */
  lemma PassHolds(job: Job, r: nat, st: Rank, status: Status)
    requires Holds(job, st) && HoldsFresh(job, r, st) && KindAt(Place(st)) != Broadcast
    requires KindAt(Place(st)) == Reduce && Place(st) < Stop(job) ==> job.fault(r, GuardedBy(Place(st))) == Works
    ensures var next := st.(completed := st.completed + 1, status := status);
            Holds(job, next) && HoldsFresh(job, r, next)
  {
  }

  /** The barrier of an aborting rank. */
  lemma AbortHolds(job: Job, r: nat, st: Rank, status: Status)
    requires Holds(job, st) && HoldsFresh(job, r, st) && Place(st) == Stop(job) + 1 && Stop(job) < LAST
    ensures var next := st.(completed := st.completed + 1, status := status);
            Holds(job, next) && HoldsFresh(job, r, next)
  {
    StopShape(job);
  }

  lemma OnlyStatusChanges(job: Job, s: seq<Rank>, r: nat)
    requires CanComplete(job, s, r) && s[r].log[s[r].completed].kind != Broadcast
    ensures Completed(job, s, r) == s[r].(completed := s[r].completed + 1, status := Completed(job, s, r).status)
  {
  }

  lemma CompleteHolds(job: Job, s: seq<Rank>, r: nat)
    requires Invariant(job, s) && CanComplete(job, s, r)
    ensures Holds(job, Completed(job, s, r)) && HoldsFresh(job, r, Completed(job, s, r))
  {
    var st := s[r];
    if st.log[st.completed].kind == Broadcast {
      BroadcastHolds(job, s, r);
    } else {
      assert RankInvariant(job, r, st);
      AtPlace(job, r, st);
      OnlyStatusChanges(job, s, r);
      if Place(st) > Stop(job) {
        AbortHolds(job, r, st, Completed(job, s, r).status);
      } else {
        if Place(st) < Stop(job) && KindAt(Place(st)) == Reduce { NoFailureBefore(job, r, Place(st)); }
        PassHolds(job, r, st, Completed(job, s, r).status);
      }
    }
  }

  /** In every interleaving every rank stays on its schedule. */
  lemma {:induction false} EveryRun(job: Job, actions: seq<Action>)
    ensures Invariant(job, Exec(job, actions))
  {
    if actions != [] {
      EveryRun(job, actions[..|actions| - 1]);
      var s, a := Exec(job, actions[..|actions| - 1]), actions[|actions| - 1];
      match a
      case Issue(r) => if CanIssue(job, s, r) { IssueKeeps(job, r, s[r]); }
      case Complete(r) =>
        if CanComplete(job, s, r) {
          CompleteOnSchedule(job, s, r);
          CompleteHolds(job, s, r);
        }
    }
  }

  // ------------------------------------------------------------------- consequences

  lemma ScheduleAgrees(job: Job, r: nat, q: nat, p: nat)
    requires p < Total(job)
    ensures Scheduled(job, r, p).kind == Scheduled(job, q, p).kind
    ensures Scheduled(job, r, p).length == Scheduled(job, q, p).length <==>
            Scheduled(job, r, p).kind != Broadcast || p != 13 || (r == 0 <==> q == 0) || |job.mask| == |job.ids|
  {
  }

  /** Lockstep: unless the ranks disagree about joining a broadcast, any two ranks have in every
      reachable state issued the same kinds of collectives in the same order. Their buffers have equal
      lengths, except in the mask broadcast: there the receivers' length is that of the ids, so it
      differs from rank 0's exactly when rank 0's mask is not as long as its ids. */
  lemma Lockstep(job: Job, actions: seq<Action>, r: nat, q: nat, k: nat)
    requires Uniform(job) && r < job.ranks && q < job.ranks
    requires var s := Exec(job, actions); k < |s[r].log| && k < |s[q].log|
    ensures var s := Exec(job, actions); s[r].log[k].kind == s[q].log[k].kind
    ensures var s := Exec(job, actions);
            s[r].log[k].length == s[q].log[k].length <==>
            s[r].log[k].kind != Broadcast || k != 13 || (r == 0 <==> q == 0) || |job.mask| == |job.ids|
  {
    EveryRun(job, actions);
    var s := Exec(job, actions);
    assert RankInvariant(job, r, s[r]);
    LogEntry(job, s, r, k);
    LogEntry(job, s, q, k);
    assert Skips(job, r) <==> Skips(job, q);
    WithinTotal(job, r, s[r], k);
    ScheduleAgrees(job, r, q, PlaceOf(job, r, k));
  }

  lemma WithinTotal(job: Job, r: nat, st: Rank, k: nat)
    requires OnSchedule(job, r, st) && k < |st.log|
    ensures PlaceOf(job, r, k) < Total(job)
    ensures st.log[k].kind == Broadcast ==> PlaceOf(job, r, k) == k
  {
    StopShape(job);
  }

  /** A rank about to generate, or past it, holds rank 0's configuration, ids and mask. */
  lemma GenerateInputsAgree(job: Job, actions: seq<Action>, r: nat)
    requires r < job.ranks
    requires var st := Exec(job, actions)[r]; Place(st) >= 15 && st.status in {Running, Done}
    ensures var st := Exec(job, actions)[r]; st.config == job.config && st.ids == job.ids && st.mask == job.mask
  {
    EveryRun(job, actions);
    assert RankInvariant(job, r, Exec(job, actions)[r]);
  }

  /** Whatever fails, no rank returns from a guarded call from which another one raises: ranks at the
      same place are in the same status, and no rank finishes while another raises. */
  lemma AgreeOnFailure(job: Job, actions: seq<Action>, r: nat, q: nat)
    requires r < job.ranks && q < job.ranks
    ensures var s := Exec(job, actions);
            && (Place(s[r]) == Place(s[q]) ==> s[r].status == s[q].status)
            && (s[r].status in {Aborting, Raised} ==> s[q].status != Done && Place(s[q]) <= Place(s[r]) + 1)
            && (s[r].status in {Aborting, Raised} <==> Place(s[r]) > Stop(job))
  {
    EveryRun(job, actions);
    var s := Exec(job, actions);
    assert RankInvariant(job, r, s[r]) && RankInvariant(job, q, s[q]);
  }

  // ------------------------------------------------------------------- progress

  ghost predicate Terminated(st: Rank) {
    st.status in {Done, Raised}
  }

  lemma {:induction false} FewestIssued(s: seq<Rank>) returns (r: nat)
    requires s != []
    ensures r < |s| && forall q :: 0 <= q < |s| ==> |s[r].log| <= |s[q].log|
  {
    if |s| == 1 {
      r := 0;
    } else {
      r := FewestIssued(s[..|s| - 1]);
      if |s[|s| - 1].log| < |s[r].log| { r := |s| - 1; }
    }
  }

  /** What has been done: each rank issues and completes every collective of its schedule once. */
  function Steps(s: seq<Rank>): nat {
    if s == [] then 0 else Steps(s[..|s| - 1]) + |s[|s| - 1].log| + s[|s| - 1].completed
  }

  lemma {:induction false} StepsAfterUpdate(s: seq<Rank>, r: nat, st: Rank)
    requires r < |s|
    ensures Steps(s[r := st]) + |s[r].log| + s[r].completed == Steps(s) + |st.log| + st.completed
  {
    var t := s[r := st];
    if r == |s| - 1 {
      assert t[..|t| - 1] == s[..|s| - 1];
    } else {
      assert t[..|t| - 1] == s[..|s| - 1][r := st];
      StepsAfterUpdate(s[..|s| - 1], r, st);
    }
  }

  lemma {:induction false} StepsBounded(s: seq<Rank>)
    requires forall r :: 0 <= r < |s| ==> s[r].completed <= |s[r].log| <= 17
    ensures Steps(s) <= 34 * |s|
  {
    if s != [] {
      assert forall r :: 0 <= r < |s| - 1 ==> s[..|s| - 1][r] == s[r];
      StepsBounded(s[..|s| - 1]);
    }
  }

  lemma {:induction false} NoStepsAtStart(s: seq<Rank>)
    requires forall r :: 0 <= r < |s| ==> s[r] == START
    ensures Steps(s) == 0
  {
    if s != [] {
      assert forall r :: 0 <= r < |s| - 1 ==> s[..|s| - 1][r] == s[r];
      NoStepsAtStart(s[..|s| - 1]);
    }
  }

  /** A step that changes anything adds one collective issued or one completed. */
  lemma EachStepCounts(job: Job, s: seq<Rank>, a: Action)
    ensures Steps(Apply(job, s, a)) == if Apply(job, s, a) == s then Steps(s) else Steps(s) + 1
  {
    match a
    case Issue(r) =>
      if CanIssue(job, s, r) {
        StepsAfterUpdate(s, r, Issuing(job, r, s[r]));
        assert Apply(job, s, a)[r].log != s[r].log;
      }
    case Complete(r) =>
      if CanComplete(job, s, r) {
        CompletedAdvances(job, s, r);
        StepsAfterUpdate(s, r, Completed(job, s, r));
        assert Apply(job, s, a)[r].completed != s[r].completed;
      }
  }

  /** The actions of a run that change anything. */
  ghost function Effective(job: Job, actions: seq<Action>): nat {
    if actions == [] then 0
    else
      var front, a := actions[..|actions| - 1], actions[|actions| - 1];
      Effective(job, front) + if Apply(job, Exec(job, front), a) == Exec(job, front) then 0 else 1
  }

  lemma {:induction false} EffectiveIsSteps(job: Job, actions: seq<Action>)
    ensures Effective(job, actions) == Steps(Exec(job, actions))
  {
    if actions == [] {
      NoStepsAtStart(Exec(job, []));
    } else {
      EffectiveIsSteps(job, actions[..|actions| - 1]);
      EachStepCounts(job, Exec(job, actions[..|actions| - 1]), actions[|actions| - 1]);
    }
  }

  /** No run has more than 34 effective actions per rank. */
  lemma RunsAreBounded(job: Job, actions: seq<Action>)
    ensures Effective(job, actions) <= 34 * job.ranks
  {
    EveryRun(job, actions);
    var s := Exec(job, actions);
    forall r | 0 <= r < |s| ensures s[r].completed <= |s[r].log| <= 17 {
      assert RankInvariant(job, r, s[r]);
    }
    StepsBounded(s);
    EffectiveIsSteps(job, actions);
  }

  ghost predicate Stuck(job: Job, s: seq<Rank>) {
    forall r :: 0 <= r < |s| ==> !CanIssue(job, s, r) && !CanComplete(job, s, r)
  }

  /** Every run can be continued until no rank can take a step. */
  lemma {:induction false} EveryRunComesToRest(job: Job, actions: seq<Action>) returns (longer: seq<Action>)
    ensures actions <= longer && Stuck(job, Exec(job, longer))
    decreases 34 * job.ranks - Effective(job, actions)
  {
    var s := Exec(job, actions);
    if Stuck(job, s) {
      longer := actions;
    } else {
      var r :| 0 <= r < |s| && (CanIssue(job, s, r) || CanComplete(job, s, r));
      var a := EnabledStep(job, s, r);
      assert (actions + [a])[..|actions|] == actions;
      RunsAreBounded(job, actions + [a]);
      longer := EveryRunComesToRest(job, actions + [a]);
    }
  }

  lemma EnabledStep(job: Job, s: seq<Rank>, r: nat) returns (a: Action)
    requires r < |s| && (CanIssue(job, s, r) || CanComplete(job, s, r))
    ensures Apply(job, s, a) != s
  {
    a := if CanIssue(job, s, r) then Issue(r) else Complete(r);
    if CanIssue(job, s, r) {
      assert Apply(job, s, a)[r].log != s[r].log;
    } else {
      CompletedAdvances(job, s, r);
      assert Apply(job, s, a)[r].completed != s[r].completed;
    }
  }

  lemma TerminatedAtTheEnd(job: Job, r: nat, st: Rank)
    requires OnSchedule(job, r, st)
    ensures Terminated(st) <==> Place(st) == Total(job)
    ensures !Terminated(st) ==> st.status in {Running, Aborting} && Place(st) < Total(job)
  {
  }

  /** A rank that is behind everyone can issue its next collective, or complete the one it has issued. */
  lemma SlowestCanMove(job: Job, s: seq<Rank>, r: nat)
    requires Invariant(job, s) && Uniform(job) && r < |s| && !Terminated(s[r])
    requires forall q :: 0 <= q < |s| ==> |s[r].log| <= |s[q].log|
    ensures CanIssue(job, s, r) || CanComplete(job, s, r)
  {
    assert RankInvariant(job, r, s[r]);
    TerminatedAtTheEnd(job, r, s[r]);
    if s[r].completed < |s[r].log| {
      var k, p := s[r].completed, Place(s[r]);
      AtPlace(job, r, s[r]);
      forall q | 0 <= q < |s| ensures HasIssued(s, q, k, s[r].log[k].kind) {
        assert Skips(job, r) <==> Skips(job, q);
        LogEntry(job, s, q, k);
        ScheduleAgrees(job, r, q, p);
      }
    }
  }

  lemma SomeoneCanMove(job: Job, s: seq<Rank>, waiting: nat) returns (r: nat)
    requires Invariant(job, s) && Uniform(job) && waiting < |s| && !Terminated(s[waiting])
    ensures r < |s| && (CanIssue(job, s, r) || CanComplete(job, s, r))
  {
    r := FewestIssued(s);
    assert RankInvariant(job, r, s[r]) && RankInvariant(job, waiting, s[waiting]);
    assert Skips(job, r) <==> Skips(job, waiting);
    TerminatedAtTheEnd(job, waiting, s[waiting]);
    TerminatedAtTheEnd(job, r, s[r]);
    if Terminated(s[r]) { r := waiting; }
    SlowestCanMove(job, s, r);
  }

  /** No deadlock: unless the ranks disagree about joining a broadcast, some rank can take a step while
      any rank has neither finished nor raised. */
  lemma NoDeadlock(job: Job, actions: seq<Action>, waiting: nat) returns (a: Action)
    requires Uniform(job) && waiting < job.ranks && !Terminated(Exec(job, actions)[waiting])
    ensures Apply(job, Exec(job, actions), a) != Exec(job, actions)
  {
    EveryRun(job, actions);
    var r := SomeoneCanMove(job, Exec(job, actions), waiting);
    a := EnabledStep(job, Exec(job, actions), r);
  }

  ghost predicate SomeGuardedCallFails(job: Job) {
    exists q, p :: 0 <= q < job.ranks && ReportedBy(job, q, p)
  }

  lemma FailsIffStops(job: Job)
    ensures SomeGuardedCallFails(job) <==> Stop(job) < LAST
  {
    if Stop(job) < LAST {
      var q :| 0 <= q < job.ranks && job.fault(q, GuardedBy(Stop(job))) != Works;
      assert ReportedBy(job, q, Stop(job));
    } else if q, p :| 0 <= q < job.ranks && ReportedBy(job, q, p) {
      assert AnyFails(job, p);
    }
  }

  ghost predicate AllTerminated(s: seq<Rank>) {
    forall r :: 0 <= r < |s| ==> Terminated(s[r])
  }

  lemma RankAtRest(job: Job, s: seq<Rank>, r: nat)
    requires Invariant(job, s) && Stuck(job, s) && r < |s|
    ensures Uniform(job) ==> s[r].status == if SomeGuardedCallFails(job) then Raised else Done
    ensures Terminated(s[r]) <==> Uniform(job)
  {
    FailsIffStops(job);
    assert RankInvariant(job, r, s[r]);
    TerminatedAtTheEnd(job, r, s[r]);
    if Uniform(job) && !Terminated(s[r]) {
      var mover := SomeoneCanMove(job, s, r);
    }
  }

  /** A run at rest: every rank has come to its end if and only if the ranks agree about joining the
      broadcast that fails first, if one does. Then they have all raised or all finished, according to
      whether any guarded call failed anywhere; otherwise none has come to its end. */
  lemma AllTerminateIffUniform(job: Job, actions: seq<Action>)
    requires job.ranks > 0 && Stuck(job, Exec(job, actions))
    ensures var s := Exec(job, actions);
            && (AllTerminated(s) <==> Uniform(job))
            && (forall r :: 0 <= r < |s| && Uniform(job) ==>
                  s[r].status == if SomeGuardedCallFails(job) then Raised else Done)
            && (forall r :: 0 <= r < |s| && !Uniform(job) ==> !Terminated(s[r]))
  {
    EveryRun(job, actions);
    var s := Exec(job, actions);
    forall r | 0 <= r < |s|
      ensures Uniform(job) ==> s[r].status == if SomeGuardedCallFails(job) then Raised else Done
      ensures Terminated(s[r]) <==> Uniform(job)
    {
      RankAtRest(job, s, r);
    }
    RankAtRest(job, s, 0);
  }

  /** In particular nothing but a broadcast can go wrong: when no broadcast raises before it has joined,
      every run at rest has all ranks finished or all ranks raised, however `generate` fails. */
  lemma JoinedBroadcastsTerminate(job: Job, actions: seq<Action>, r: nat)
    requires r < job.ranks && Stuck(job, Exec(job, actions))
    requires forall q, p :: 0 <= q < job.ranks && KindAt(p) == Broadcast ==> job.fault(q, p) != RaisesBefore
    ensures Exec(job, actions)[r].status == if SomeGuardedCallFails(job) then Raised else Done
  {
    AllTerminateIffUniform(job, actions);
  }

  lemma {:induction false} RestIssuesThatFar(job: Job, s: seq<Rank>, r: nat)
    requires Invariant(job, s) && Stuck(job, s) && !Uniform(job) && r < |s|
    ensures |s[r].log| >= Stop(job)
  {
    var m := FewestIssued(s);
    assert RankInvariant(job, m, s[m]);
    TerminatedAtTheEnd(job, m, s[m]);
    assert !CanIssue(job, s, m) && !CanComplete(job, s, m);
    if |s[m].log| < Stop(job) {
      var k := s[m].completed;
      AtPlace(job, m, s[m]);
      forall q | 0 <= q < |s| ensures HasIssued(s, q, k, s[m].log[k].kind) {
        LogEntry(job, s, q, k);
        ScheduleAgrees(job, m, q, k);
      }
    }
  }

  /** When the ranks disagree, every run comes to rest with two ranks in different collectives. */
  lemma LockstepLost(job: Job, actions: seq<Action>) returns (r: nat, q: nat)
    requires !Uniform(job) && Stuck(job, Exec(job, actions))
    ensures r < job.ranks && q < job.ranks && Stop(job) >= 2
    ensures var s, k := Exec(job, actions), Stop(job) - 1;
            && k < |s[r].log| && k < |s[q].log|
            && s[r].log[k].kind == Reduce && s[q].log[k].kind == Broadcast
  {
    EveryRun(job, actions);
    StopShape(job);
    r :| 0 <= r < job.ranks && Skips(job, r);
    q := MixedPair(job, r);
    var s := Exec(job, actions);
    RestIssuesThatFar(job, s, r);
    RestIssuesThatFar(job, s, q);
    LogEntry(job, s, r, Stop(job) - 1);
    LogEntry(job, s, q, Stop(job) - 1);
  }

  // ------------------------------------------------------------- two ranks that get stuck

  lemma Then(job: Job, run: seq<Action>, a: Action) returns (longer: seq<Action>)
    ensures longer == run + [a] && Exec(job, longer) == Apply(job, Exec(job, run), a)
  {
    longer := run + [a];
    assert longer[..|longer| - 1] == run;
  }

  const AT_BARRIER := START.(log := [Issued(Barrier, 0, [], true)])

  lemma TwoPassTheBarrier(job: Job) returns (run: seq<Action>)
    requires job.ranks == 2
    ensures Exec(job, run) == [AT_BARRIER.(completed := 1), AT_BARRIER.(completed := 1)]
  {
    run := [];
    assert Exec(job, run) == [START, START];
    assert START.log + AT_BARRIER.log == AT_BARRIER.log;
    run := Then(job, run, Issue(0));
    assert Exec(job, run) == [AT_BARRIER, START];
    run := Then(job, run, Issue(1));
    assert Exec(job, run) == [AT_BARRIER, AT_BARRIER];
    run := Then(job, run, Complete(0));
    assert Exec(job, run) == [AT_BARRIER.(completed := 1), AT_BARRIER];
    run := Then(job, run, Complete(1));
  }

  /** Rank 0 raises before it joins the first broadcast: after the barrier it waits in the reduction and
      rank 1 in the broadcast, and neither can go on. */
  lemma SourceRaisesFirst(config: seq<int>, ids: seq<int>, mask: seq<int>) returns (job: Job, run: seq<Action>)
    ensures job == Job(2, config, ids, mask, job.fault) && job.fault(0, 1) == RaisesBefore
    ensures forall q, p :: (q, p) != (0, 1) ==> job.fault(q, p) == Works
    ensures var s := Exec(job, run);
            && s[0].log == [Issued(Barrier, 0, [], true), Issued(Reduce, 1, [], false)]
            && s[1].log == [Issued(Barrier, 0, [], true), Issued(Broadcast, 1, [], true)]
            && Stuck(job, s) && !Terminated(s[0]) && !Terminated(s[1])
  {
    job := Job(2, config, ids, mask, (q, p) => if q == 0 && p == 1 then RaisesBefore else Works);
    run := TwoPassTheBarrier(job);
    run := Then(job, run, Issue(0));
    var log := AT_BARRIER.log + [Issued(Reduce, 1, [], false)];
    var reducing := AT_BARRIER.(log := log, completed := 1, skipped := true);
    assert Exec(job, run) == [reducing, AT_BARRIER.(completed := 1)];
    run := Then(job, run, Issue(1));
    var s := Exec(job, run);
    assert s[1] == AT_BARRIER.(log := AT_BARRIER.log + [Issued(Broadcast, 1, [], true)], completed := 1);
    assert !HasIssued(s, 1, 1, Reduce);
  }
}
