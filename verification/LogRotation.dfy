/** The rotating log file: a chain of asynchronous callbacks shifts `path.k` to `path.(k+1)` while
    records written in the meantime wait in a queue. */
module LogRotation {
  import opened Sequences
  import opened Wrappers

  /** Files by index: `k >= 0` stands for `path.k`, `LIVE` for `path` itself. A missing key is a missing file. */
  type Disk = map<int, seq<string>>

  const LIVE := -1

  /** The callback a running rotation waits for. */
  datatype Callback = Unlink | Exists | Move

  datatype State = State(disk: Disk, rotating: bool, n: int, queue: seq<string>, pending: Option<Callback>)

  /** What can happen to a stream: calls from the program, and the file system answering. */
  datatype Event =
    | Rotate(rotAt: nat, now: nat)   // a zero `rotAt` stands for an unset one
    | Write(record: string)
    | Unlinked(removed: bool)
    | Checked
    | Moved(moved: bool)

  function Content(disk: Disk, k: int): seq<string> {
    if k in disk then disk[k] else []
  }

  predicate TooEarly(rotAt: nat, now: nat) {
    rotAt != 0 && rotAt > now
  }

  function Finish(s: State): State {
    State(s.disk[LIVE := Content(s.disk, LIVE) + s.queue], false, s.n, [], None)
  }

  function Moves(count: nat, s: State): State {
    if count == 0 || s.n < 0 then Finish(s) else s.(n := s.n - 1, pending := Some(Exists))
  }

  function Renamed(disk: Disk, from: int, to: int): Disk
    requires from in disk
  {
    (disk - {from})[to := disk[from]]
  }

  /** The reaction to one event; an answer nobody waits for cannot occur and changes nothing. */
  function Apply(count: nat, s: State, e: Event): State {
    match e
    case Rotate(rotAt, now) =>
      if TooEarly(rotAt, now) || s.rotating then s
      else s.(rotating := true, n := count - 1, pending := Some(Unlink))
    case Write(record) =>
      if s.rotating then s.(queue := s.queue + [record])
      else s.(disk := s.disk[LIVE := Content(s.disk, LIVE) + [record]])
    case Unlinked(removed) =>
      if s.pending == Some(Unlink) then Moves(count, if removed then s.(disk := s.disk - {s.n}) else s) else s
    case Checked =>
      if s.pending != Some(Exists) then s
      else if s.n in s.disk then s.(pending := Some(Move))
      else Moves(count, s)
    case Moved(moved) =>
      if s.pending != Some(Move) || s.n !in s.disk then s
      else if moved then Moves(count, s.(disk := Renamed(s.disk, s.n, s.n + 1)))
      else Finish(s)
  }

  function Run(count: nat, s: State, events: seq<Event>): State {
    if events == [] then s else Apply(count, Run(count, s, events[..|events| - 1]), events[|events| - 1])
  }

  /** The stream as opened over whatever files an earlier process left. */
  function Opened(disk: Disk): State {
    State(disk[LIVE := Content(disk, LIVE)], false, 0, [], None)
  }

  // ------------------------------------------------------------------- the stream

  datatype Outcome = Rescheduled | Started | Throws

  class RotatingFileStream {
    const count: nat
    var disk: Disk
    var rotating: bool
    var n: int
    var rotQueue: seq<string>
    var pending: Option<Callback>

    function Value(): State
      reads this
    {
      State(disk, rotating, n, rotQueue, pending)
    }

    constructor (count: nat, disk: Disk)
      ensures this.count == count && Value() == Opened(disk)
    {
      this.count := count;
      this.disk := disk[LIVE := Content(disk, LIVE)];
      rotating, n, rotQueue, pending := false, 0, [], None;
    }

    /** Starting a rotation while one is running throws, but only once the rotation time has come. */
    method BeginRotation(rotAt: nat, now: nat) returns (outcome: Outcome)
      modifies this
      ensures Value() == Apply(count, old(Value()), Rotate(rotAt, now))
      ensures rotating <==> old(rotating) || rotAt == 0 || rotAt <= now
      ensures outcome == Throws <==> old(rotating) && (rotAt == 0 || rotAt <= now)
      ensures outcome == Started <==> !old(rotating) && rotating
    {
      if TooEarly(rotAt, now) {
        return Rescheduled;
      }
      if rotating {
        return Throws;
      }
      rotating := true;
      n := count;
      var target := Delete();
      outcome := Started;
    }

    /** Asks for the removal of the oldest file kept, or with no files kept of the live one: what is
        lost when it succeeds are exactly the oldest records. The answer will find the slot in `n`. */
    method Delete() returns (target: int)
      requires n == count
      modifies this`n, this`pending
      ensures target == if count == 0 then LIVE else count - 1
      ensures OldestFirst(disk, count - 1) == Content(disk, target) + OldestFirst(disk - {target}, count - 1)
      ensures n == target && pending == Some(Unlink)
    {
      target := if n == 0 then LIVE else n - 1;
      n := n - 1;
      pending := Some(Unlink);
      RemoveOldest(disk, target);
    }

    method OnUnlinked(removed: bool)
      requires pending == Some(Unlink)
      modifies this
      ensures Value() == Apply(count, old(Value()), Unlinked(removed))
    {
      if removed {
        disk := disk - {n};
      }
      MoveNext();
    }

    method MoveNext()
      modifies this
      ensures Value() == Moves(count, old(Value()))
    {
      if count == 0 || n < 0 {
        FinishRotation();
      } else {
        n := n - 1;
        pending := Some(Exists);
      }
    }

    method OnChecked()
      requires pending == Some(Exists)
      modifies this
      ensures Value() == Apply(count, old(Value()), Checked)
    {
      if n !in disk {
        MoveNext();
      } else {
        pending := Some(Move);
      }
    }

    method OnMoved(moved: bool)
      requires pending == Some(Move) && n in disk
      modifies this
      ensures Value() == Apply(count, old(Value()), Moved(moved))
    {
      if moved {
        disk := Renamed(disk, n, n + 1);
        MoveNext();
      } else {
        FinishRotation();
      }
    }

    /** Reopens the live file for appending and writes what has been queued. */
    method FinishRotation()
      modifies this
      ensures Value() == Finish(old(Value()))
    {
      disk := disk[LIVE := Content(disk, LIVE)];
      var q := rotQueue;
      for i := 0 to |q|
        invariant LIVE in disk && disk[LIVE] == Content(old(disk), LIVE) + q[..i]
        invariant disk == old(disk)[LIVE := disk[LIVE]]
        invariant (rotating, n, rotQueue, pending) == old((rotating, n, rotQueue, pending))
      {
        disk := disk[LIVE := disk[LIVE] + [q[i]]];
        assert Content(old(disk), LIVE) + q[..i] + [q[i]] == Content(old(disk), LIVE) + q[..i + 1];
      }
      assert q[..|q|] == q;
      rotQueue := [];
      rotating := false;
      pending := None;
    }

    method Append(record: string) returns (queued: bool)
      modifies this
      ensures Value() == Apply(count, old(Value()), Write(record))
      ensures queued == old(rotating)
    {
      if rotating {
        rotQueue := rotQueue + [record];
        return true;
      }
      disk := disk[LIVE := Content(disk, LIVE) + [record]];
      queued := false;
    }
  }

  // ------------------------------------------------------------- what every run keeps

  /** The records of the kept files from index k on, oldest first, down to the live file. */
  function OldestFirst(disk: Disk, k: int): seq<string>
    decreases k - LIVE + 1
  {
    if k < LIVE then [] else Content(disk, k) + OldestFirst(disk, k - 1)
  }

  /** Everything the stream still holds, in the order it was written. */
  function Held(count: nat, s: State): seq<string> {
    OldestFirst(s.disk, count - 1) + s.queue
  }

  function Recorded(e: Event): seq<string> {
    if e.Write? then [e.record] else []
  }

  function Written(events: seq<Event>): seq<string> {
    if events == [] then [] else Written(events[..|events| - 1]) + Recorded(events[|events| - 1])
  }

  /** What the file system destroys when it answers: the file removed, or the one another is moved over. */
  function Lost(s: State, e: Event): seq<string> {
    if e == Unlinked(true) && s.pending == Some(Unlink) then Content(s.disk, s.n)
    else if e == Moved(true) && s.pending == Some(Move) then Content(s.disk, s.n + 1)
    else []
  }

  function Losses(count: nat, s: State, events: seq<Event>): seq<string> {
    if events == [] then []
    else
      var front, e := events[..|events| - 1], events[|events| - 1];
      Losses(count, s, front) + Lost(Run(count, s, front), e)
  }

  ghost predicate SuffixOf(part: seq<string>, whole: seq<string>) {
    |part| <= |whole| && whole[|whole| - |part|..] == part
  }

  /** The event is the answer the rotation waits for. */
  predicate Answers(s: State, e: Event) {
    match s.pending
    case None => false
    case Some(Unlink) => e.Unlinked?
    case Some(Exists) => e.Checked?
    case Some(Move) => e.Moved?
  }

  /** The slot a file is about to be moved to is free, unless it holds the oldest file. */
  ghost predicate Valid(count: nat, s: State) {
    && (s.rotating <==> s.pending.Some?)
    && (!s.rotating ==> s.queue == [] && LIVE in s.disk)
    && (s.pending == Some(Unlink) ==> s.n == count - 1)
    && (s.pending == Some(Exists) || s.pending == Some(Move) ==>
          LIVE <= s.n <= count - 2 && (s.n + 1 in s.disk ==> s.n + 1 == count - 1))
    && (s.pending == Some(Move) ==> s.n in s.disk)
  }

  lemma {:induction false} SameBelow(d: Disk, e: Disk, k: int)
    requires forall j :: LIVE <= j <= k ==> Content(d, j) == Content(e, j)
    ensures OldestFirst(d, k) == OldestFirst(e, k)
    decreases k - LIVE + 1
  {
    if k >= LIVE { SameBelow(d, e, k - 1); }
  }

  lemma {:induction false} AppendToLive(d: Disk, k: int, records: seq<string>)
    requires k >= LIVE
    ensures OldestFirst(d[LIVE := Content(d, LIVE) + records], k) == OldestFirst(d, k) + records
    decreases k - LIVE
  {
    var e := d[LIVE := Content(d, LIVE) + records];
    if k == LIVE {
      assert OldestFirst(e, LIVE - 1) == [] == OldestFirst(d, LIVE - 1);
      var all := Content(d, LIVE) + records;
      assert all + [] == all && Content(d, LIVE) + [] == Content(d, LIVE);
    } else {
      AppendToLive(d, k - 1, records);
      assert Content(e, k) == Content(d, k);
      Regroup(Content(d, k), OldestFirst(d, k - 1), records);
    }
  }

  lemma RemoveOldest(d: Disk, k: int)
    requires k >= LIVE
    ensures OldestFirst(d, k) == Content(d, k) + OldestFirst(d - {k}, k)
  {
    SameBelow(d - {k}, d, k - 1);
    assert OldestFirst(d - {k}, k) == OldestFirst(d, k - 1);
  }

  /** Moving a file into a free slot changes nothing that is read back. */
  lemma {:induction false} MoveIntoGap(d: Disk, k: int, n: int)
    requires LIVE <= n < k && n in d && n + 1 !in d
    ensures OldestFirst(Renamed(d, n, n + 1), k) == OldestFirst(d, k)
    decreases k
  {
    var e := Renamed(d, n, n + 1);
    if k == n + 1 {
      SameBelow(e, d, n - 1);
      assert OldestFirst(e, n) == OldestFirst(d, n - 1);
      assert OldestFirst(d, k) == OldestFirst(d, n);
    } else {
      MoveIntoGap(d, k - 1, n);
    }
  }

  lemma MoveOverOldest(d: Disk, n: int)
    requires LIVE <= n && n in d
    ensures OldestFirst(d, n + 1) == Content(d, n + 1) + OldestFirst(Renamed(d, n, n + 1), n + 1)
  {
    MovedToTop(d, n);
    TopTwo(d, n);
  }

  lemma MovedToTop(d: Disk, n: int)
    requires LIVE <= n && n in d
    ensures OldestFirst(Renamed(d, n, n + 1), n + 1) == OldestFirst(d, n)
  {
    var e := Renamed(d, n, n + 1);
    SameBelow(e, d, n - 1);
    TopTwo(e, n);
    assert Content(e, n) == [] && [] + OldestFirst(e, n - 1) == OldestFirst(e, n - 1);
  }

  lemma TopTwo(d: Disk, n: int)
    requires LIVE <= n
    ensures OldestFirst(d, n + 1) == Content(d, n + 1) + OldestFirst(d, n)
    ensures OldestFirst(d, n) == Content(d, n) + OldestFirst(d, n - 1)
  {
  }

  lemma FinishKeeps(count: nat, s: State)
    ensures Valid(count, Finish(s)) && Held(count, Finish(s)) == Held(count, s)
  {
    AppendToLive(s.disk, count - 1, s.queue);
  }

  lemma MovesKeeps(count: nat, s: State)
    requires s.rotating && s.n <= count - 1 && (0 <= s.n < count - 1 ==> s.n !in s.disk)
    ensures Valid(count, Moves(count, s)) && Held(count, Moves(count, s)) == Held(count, s)
  {
    if count == 0 || s.n < 0 { FinishKeeps(count, s); }
  }

  lemma RenameKeeps(count: nat, s: State)
    requires Valid(count, s) && s.pending == Some(Move)
    ensures Held(count, s) == Content(s.disk, s.n + 1) + Held(count, s.(disk := Renamed(s.disk, s.n, s.n + 1)))
  {
    var e := Renamed(s.disk, s.n, s.n + 1);
    if s.n + 1 in s.disk {
      MoveOverOldest(s.disk, s.n);
    } else {
      MoveIntoGap(s.disk, count - 1, s.n);
    }
    assert OldestFirst(s.disk, count - 1) == Content(s.disk, s.n + 1) + OldestFirst(e, count - 1);
    Regroup(Content(s.disk, s.n + 1), OldestFirst(e, count - 1), s.queue);
  }

  lemma WriteKeeps(count: nat, s: State, record: string)
    requires Valid(count, s)
    ensures Valid(count, Apply(count, s, Write(record)))
    ensures Held(count, Apply(count, s, Write(record))) == Held(count, s) + [record]
  {
    if s.rotating {
      assert OldestFirst(s.disk, count - 1) + (s.queue + [record]) == Held(count, s) + [record];
    } else {
      AppendToLive(s.disk, count - 1, [record]);
    }
  }

  lemma RemoveKeeps(count: nat, s: State)
    requires Valid(count, s) && s.pending == Some(Unlink)
    ensures Held(count, s) == Content(s.disk, s.n) + Held(count, s.(disk := s.disk - {s.n}))
  {
    RemoveOldest(s.disk, s.n);
    Regroup(Content(s.disk, s.n), OldestFirst(s.disk - {s.n}, count - 1), s.queue);
  }

  lemma UnlinkedKeeps(count: nat, s: State, removed: bool)
    requires Valid(count, s) && s.pending == Some(Unlink)
    ensures Valid(count, Apply(count, s, Unlinked(removed)))
    ensures Held(count, s) == Lost(s, Unlinked(removed)) + Held(count, Apply(count, s, Unlinked(removed)))
  {
    if removed {
      RemoveKeeps(count, s);
      MovesKeeps(count, s.(disk := s.disk - {s.n}));
    } else {
      MovesKeeps(count, s);
    }
  }

  lemma MovedKeeps(count: nat, s: State, moved: bool)
    requires Valid(count, s) && s.pending == Some(Move)
    ensures Valid(count, Apply(count, s, Moved(moved)))
    ensures Held(count, s) == Lost(s, Moved(moved)) + Held(count, Apply(count, s, Moved(moved)))
  {
    if moved {
      RenameKeeps(count, s);
      MovesKeeps(count, s.(disk := Renamed(s.disk, s.n, s.n + 1)));
    } else {
      FinishKeeps(count, s);
    }
  }

  /** What a step loses comes first, what it records comes last, and all in between is kept. */
  ghost predicate Kept(count: nat, s: State, e: Event) {
    var t := Apply(count, s, e);
    Valid(count, t) && Held(count, s) + Recorded(e) == Lost(s, e) + Held(count, t)
  }

  lemma WriteIsKept(count: nat, s: State, record: string)
    requires Valid(count, s)
    ensures Kept(count, s, Write(record))
  {
    WriteKeeps(count, s, record);
    var held := Held(count, Apply(count, s, Write(record)));
    assert [] + held == held;
  }

  lemma AnswerIsKept(count: nat, s: State, e: Event)
    requires Valid(count, s) && Answers(s, e)
    ensures Kept(count, s, e)
  {
    match e {
      case Unlinked(removed) => UnlinkedKeeps(count, s, removed);
      case Checked => CheckedKeeps(count, s);
      case Moved(moved) => MovedKeeps(count, s, moved);
    }
    assert Held(count, s) + [] == Held(count, s);
  }

  lemma CheckedKeeps(count: nat, s: State)
    requires Valid(count, s) && s.pending == Some(Exists)
    ensures Valid(count, Apply(count, s, Checked))
    ensures Held(count, Apply(count, s, Checked)) == Held(count, s)
  {
    if s.n !in s.disk { MovesKeeps(count, s); }
  }

  lemma OtherIsKept(count: nat, s: State, e: Event)
    requires Valid(count, s) && !Answers(s, e) && !e.Write?
    ensures Kept(count, s, e)
  {
    var t := Apply(count, s, e);
    assert Valid(count, t) && Held(count, t) == Held(count, s) && Lost(s, e) == [];
    assert Held(count, s) + [] == Held(count, s) == [] + Held(count, s);
  }

  lemma StepKeeps(count: nat, s: State, e: Event)
    requires Valid(count, s)
    ensures Kept(count, s, e)
  {
    if e.Write? {
      WriteIsKept(count, s, e.record);
    } else if Answers(s, e) {
      AnswerIsKept(count, s, e);
    } else {
      OtherIsKept(count, s, e);
    }
  }

  lemma OneMoreStep(before: seq<string>, lost: seq<string>, held: seq<string>, recorded: seq<string>,
                    loses: seq<string>, after: seq<string>)
    requires before == lost + held && held + recorded == loses + after
    ensures before + recorded == lost + loses + after
  {
    assert lost + held + recorded == lost + (held + recorded);
    assert lost + (loses + after) == lost + loses + after;
  }

  /** Over any run of writes and rotations, with removals and moves succeeding or failing: the
      records found at the start followed by all records written since are what the removed and the
      overwritten files held, in the order they were lost, followed by the files read oldest to
      newest and the queue. So what is held is a contiguous suffix of everything recorded. */
  lemma {:induction false} FilesHoldLatestRecords(count: nat, disk: Disk, events: seq<Event>)
    ensures Valid(count, Run(count, Opened(disk), events))
    ensures var all := OldestFirst(disk, count - 1) + Written(events);
            var held := Held(count, Run(count, Opened(disk), events));
            all == Losses(count, Opened(disk), events) + held && SuffixOf(held, all)
  {
    var found, s := OldestFirst(disk, count - 1), Opened(disk);
    if events == [] {
      SameBelow(disk, s.disk, count - 1);
    } else {
      var front, e := events[..|events| - 1], events[|events| - 1];
      FilesHoldLatestRecords(count, disk, front);
      var t := Run(count, s, front);
      StepKeeps(count, t, e);
      OneMoreStep(found + Written(front), Losses(count, s, front), Held(count, t), Recorded(e),
                  Lost(t, e), Held(count, Apply(count, t, e)));
      assert found + Written(front) + Recorded(e) == found + Written(events);
    }
  }

  // ------------------------------------------------------------- one rotation

  predicate FaultFree(e: Event) {
    e != Unlinked(false) && e != Moved(false)
  }

  /** The files after a rotation: each kept file holds what the next newer one held, the newest the
      live file's records, and the live file the records written meanwhile. Files outside
      the kept range stay. */
  ghost predicate IsRotated(count: nat, before: Disk, after: Disk, meanwhile: seq<string>) {
    && LIVE in after && after[LIVE] == meanwhile
    && (forall k :: 0 <= k < count ==> ShiftedAt(before, after, k))
    && (forall k :: k < LIVE || k >= count ==> SameAt(before, after, k))
  }

  /** Half way: the files above the gap at n + 1 have been shifted, those up to n have not. */
  ghost predicate Shifting(count: nat, before: Disk, s: State) {
    && (forall k :: s.n + 1 < k < count ==> ShiftedAt(before, s.disk, k))
    && (LIVE <= s.n + 1 ==> s.n + 1 !in s.disk)
    && (forall k :: k <= s.n || k >= count ==> SameAt(before, s.disk, k))
  }

  ghost predicate ShiftedAt(before: Disk, after: Disk, k: int) {
    (k in after <==> k - 1 in before) && Content(after, k) == Content(before, k - 1)
  }

  ghost predicate SameAt(before: Disk, after: Disk, k: int) {
    (k in after <==> k in before) && Content(after, k) == Content(before, k)
  }

  ghost predicate Rotating(count: nat, before: Disk, s: State) {
    && s.rotating
    && match s.pending
       case None => false
       case Some(Unlink) => s.disk == before && s.n == count - 1
       case Some(Exists) => LIVE <= s.n <= count - 2 && Shifting(count, before, s)
       case Some(Move) => LIVE <= s.n <= count - 2 && Shifting(count, before, s) && s.n in s.disk
  }

  /** Going on from a state in which the files down to index s.n + 1 are where they belong, and
      the slot s.n is free or not kept. */
  lemma MovesShifts(count: nat, before: Disk, s: State)
    requires s.rotating && s.n <= count - 1 && LIVE <= s.n && Shifting(count, before, s.(n := s.n - 1))
    ensures var t := Moves(count, s);
            if t.rotating then Rotating(count, before, t) && t.queue == s.queue
            else IsRotated(count, before, t.disk, s.queue)
  {
    var t := Moves(count, s);
    if !t.rotating {
      assert Content(s.disk, LIVE) == [] && [] + s.queue == s.queue;
      forall k | 0 <= k < count ensures ShiftedAt(before, t.disk, k) { assert ShiftedAt(before, s.disk, k); }
      forall k | k < LIVE || k >= count ensures SameAt(before, t.disk, k) { assert SameAt(before, s.disk, k); }
    }
  }

  ghost predicate StaysOrEnds(count: nat, before: Disk, s: State, e: Event) {
    var t := Apply(count, s, e);
    if t.rotating then Rotating(count, before, t) && t.queue == s.queue + Recorded(e)
    else IsRotated(count, before, t.disk, s.queue) && !e.Write?
  }

  lemma UnlinkedShifts(count: nat, before: Disk, s: State)
    requires Rotating(count, before, s) && s.pending == Some(Unlink)
    ensures StaysOrEnds(count, before, s, Unlinked(true))
  {
    var t := s.(disk := s.disk - {s.n});
    assert Shifting(count, before, t.(n := t.n - 1));
    MovesShifts(count, before, t);
    assert s.queue + [] == s.queue;
  }

  lemma CheckedShifts(count: nat, before: Disk, s: State)
    requires Rotating(count, before, s) && s.pending == Some(Exists)
    ensures StaysOrEnds(count, before, s, Checked)
  {
    if s.n !in s.disk {
      assert SameAt(before, s.disk, s.n);
      if s.n + 1 >= 0 { assert ShiftedAt(before, s.disk, s.n + 1); }
      assert Shifting(count, before, s.(n := s.n - 1));
      MovesShifts(count, before, s);
    }
    assert s.queue + [] == s.queue;
  }

  lemma RenameShifts(count: nat, before: Disk, s: State)
    requires Rotating(count, before, s) && s.pending == Some(Move)
    ensures Shifting(count, before, s.(n := s.n - 1, disk := Renamed(s.disk, s.n, s.n + 1)))
  {
    var disk := Renamed(s.disk, s.n, s.n + 1);
    assert SameAt(before, s.disk, s.n);
    assert ShiftedAt(before, disk, s.n + 1);
    forall k | s.n + 1 < k < count ensures ShiftedAt(before, disk, k) { assert ShiftedAt(before, s.disk, k); }
    forall k | k < s.n || k >= count ensures SameAt(before, disk, k) { assert SameAt(before, s.disk, k); }
  }

  lemma MovedShifts(count: nat, before: Disk, s: State)
    requires Rotating(count, before, s) && s.pending == Some(Move)
    ensures StaysOrEnds(count, before, s, Moved(true))
  {
    var t := s.(disk := Renamed(s.disk, s.n, s.n + 1));
    RenameShifts(count, before, s);
    MovesShifts(count, before, t);
    assert s.queue + [] == s.queue;
  }

  lemma StepShifts(count: nat, before: Disk, s: State, e: Event)
    requires Rotating(count, before, s) && FaultFree(e)
    ensures StaysOrEnds(count, before, s, e)
  {
    assert s.queue + [] == s.queue;
    if e == Unlinked(true) && s.pending == Some(Unlink) {
      UnlinkedShifts(count, before, s);
    } else if e == Checked && s.pending == Some(Exists) {
      CheckedShifts(count, before, s);
    } else if e == Moved(true) && s.pending == Some(Move) {
      MovedShifts(count, before, s);
    } else {
      UnansweredStays(count, s, e);
    }
  }

  lemma UnansweredStays(count: nat, s: State, e: Event)
    requires s.rotating && FaultFree(e)
    requires !(e == Unlinked(true) && s.pending == Some(Unlink))
    requires !(e == Checked && s.pending == Some(Exists)) && !(e == Moved(true) && s.pending == Some(Move))
    ensures Apply(count, s, e) == s.(queue := s.queue + Recorded(e))
  {
    assert s.queue + [] == s.queue;
  }

  predicate RotatingAt(count: nat, s: State, events: seq<Event>, i: nat)
    requires i <= |events|
  {
    Run(count, s, events[..i]).rotating
  }

  /** The run is one rotation: it begins with its start, and ends with the first idle state. */
  ghost predicate OneRotation(count: nat, s: State, events: seq<Event>) {
    && events != [] && events[0].Rotate? && !TooEarly(events[0].rotAt, events[0].now) && !s.rotating
    && forall i :: 0 < i <= |events| ==> (RotatingAt(count, s, events, i) <==> i < |events|)
  }

  lemma RunStep(count: nat, s: State, events: seq<Event>, i: nat)
    requires i < |events|
    ensures Run(count, s, events[..i + 1]) == Apply(count, Run(count, s, events[..i]), events[i])
    ensures Written(events[..i + 1]) == Written(events[..i]) + Recorded(events[i])
  {
    assert events[..i + 1][..i] == events[..i];
  }

  lemma {:induction false} RotatingAfter(count: nat, s: State, events: seq<Event>, i: nat)
    requires Valid(count, s) && OneRotation(count, s, events) && 0 < i < |events|
    requires forall j :: 0 <= j < |events| ==> FaultFree(events[j])
    ensures Rotating(count, s.disk, Run(count, s, events[..i]))
    ensures Run(count, s, events[..i]).queue == Written(events[..i])
  {
    RunStep(count, s, events, i - 1);
    assert RotatingAt(count, s, events, i);
    if i == 1 {
      assert Run(count, s, events[..0]) == s && Written(events[..0]) == [];
    } else {
      RotatingAfter(count, s, events, i - 1);
      StepShifts(count, s.disk, Run(count, s, events[..i - 1]), events[i - 1]);
    }
  }

  lemma MoreThanOneEvent(count: nat, s: State, events: seq<Event>)
    requires OneRotation(count, s, events)
    ensures |events| > 1
  {
    RunStep(count, s, events, 0);
    assert Run(count, s, events[..0]) == s;
    assert RotatingAt(count, s, events, 1);
  }

  /** A rotation in which no file operation fails shifts every kept file by one, drops only the
      oldest, and appends to the new live file what was written while it ran. */
  lemma FaultFreeRotation(count: nat, s: State, events: seq<Event>)
    requires Valid(count, s) && OneRotation(count, s, events)
    requires forall i :: 0 <= i < |events| ==> FaultFree(events[i])
    ensures IsRotated(count, s.disk, Run(count, s, events).disk, Written(events))
  {
    var last := |events| - 1;
    MoreThanOneEvent(count, s, events);
    RotatingAfter(count, s, events, last);
    StepShifts(count, s.disk, Run(count, s, events[..last]), events[last]);
    RunStep(count, s, events, last);
    assert events[..last + 1] == events;
    assert !RotatingAt(count, s, events, last + 1);
    assert Written(events[..last]) + [] == Written(events[..last]);
  }

  /** The next answer of a file system in which nothing fails. */
  function NextAnswer(s: State): Event
    requires s.pending.Some?
  {
    match s.pending.value
    case Unlink => Unlinked(true)
    case Exists => Checked
    case Move => Moved(true)
  }

  /** The answers until a running rotation has ended. */
  function Answered(count: nat, s: State): seq<Event>
    requires Valid(count, s)
    decreases Remaining(count, s)
  {
    if !s.rotating then []
    else
      RotationsEnd(count, s, NextAnswer(s));
      StepKeeps(count, s, NextAnswer(s));
      [NextAnswer(s)] + Answered(count, Apply(count, s, NextAnswer(s)))
  }

  lemma {:induction false} RunSplits(count: nat, s: State, a: seq<Event>, b: seq<Event>)
    ensures Run(count, s, a + b) == Run(count, Run(count, s, a), b)
    decreases |b|
  {
    if b == [] {
      assert a + b == a;
    } else {
      assert (a + b)[..|a + b| - 1] == a + b[..|b| - 1];
      RunSplits(count, s, a, b[..|b| - 1]);
    }
  }

  lemma RunOne(count: nat, s: State, e: Event)
    ensures Run(count, s, [e]) == Apply(count, s, e)
  {
    assert [e][..0] == [] && Run(count, s, [e][..0]) == s;
  }

  lemma {:induction false} AnswersEndIt(count: nat, s: State, i: nat)
    requires Valid(count, s) && i <= |Answered(count, s)|
    ensures Run(count, s, Answered(count, s)[..i]).rotating <==> i < |Answered(count, s)|
    ensures forall j :: 0 <= j < |Answered(count, s)| ==>
              FaultFree(Answered(count, s)[j]) && !Answered(count, s)[j].Write?
    decreases |Answered(count, s)|
  {
    if s.rotating {
      var e, all := NextAnswer(s), Answered(count, s);
      var t := Apply(count, s, e);
      StepKeeps(count, s, e);
      RotationsEnd(count, s, e);
      assert all == [e] + Answered(count, t);
      if i > 0 {
        AnswersEndIt(count, t, i - 1);
        assert all[..i] == [e] + Answered(count, t)[..i - 1];
        RunSplits(count, s, [e], Answered(count, t)[..i - 1]);
        RunOne(count, s, e);
      } else {
        AnswersEndIt(count, t, 0);
      }
    }
  }

  /** A rotation starts, or goes on, unless its time is set and has not come; then nothing happens. */
  lemma RotationStarts(count: nat, s: State, rotAt: nat, now: nat)
    ensures var t := Apply(count, s, Rotate(rotAt, now));
            && (t.rotating <==> s.rotating || rotAt == 0 || rotAt <= now)
            && (!t.rotating || s.rotating ==> t == s)
  {
  }

  /** An idle stream whose rotation time is unset or has come starts a rotation, and one in which
      nothing fails runs to its end. */
  lemma RotationRuns(count: nat, s: State, rotAt: nat, now: nat) returns (events: seq<Event>)
    requires Valid(count, s) && !s.rotating && (rotAt == 0 || rotAt <= now)
    ensures OneRotation(count, s, events) && events[0] == Rotate(rotAt, now)
    ensures forall i :: 0 <= i < |events| ==> FaultFree(events[i])
    ensures IsRotated(count, s.disk, Run(count, s, events).disk, [])
  {
    var e := Rotate(rotAt, now);
    StepKeeps(count, s, e);
    var t := Apply(count, s, e);
    events := [e] + Answered(count, t);
    RunOne(count, s, e);
    forall i | 0 < i <= |events| ensures RotatingAt(count, s, events, i) <==> i < |events| {
      assert events[..i] == [e] + Answered(count, t)[..i - 1];
      RunSplits(count, s, [e], Answered(count, t)[..i - 1]);
      AnswersEndIt(count, t, i - 1);
    }
    AnswersEndIt(count, t, 0);
    FaultFreeRotation(count, s, events);
    NothingWritten(events);
  }

  lemma {:induction false} NothingWritten(events: seq<Event>)
    requires forall i :: 0 <= i < |events| ==> !events[i].Write?
    ensures Written(events) == []
  {
    if events != [] { NothingWritten(events[..|events| - 1]); }
  }

  /** Callbacks a rotation still waits for, at most. */
  function Remaining(count: nat, s: State): int {
    match s.pending
    case None => 0
    case Some(Unlink) => 2 * count + 3
    case Some(Exists) => 2 * s.n + 4
    case Some(Move) => 2 * s.n + 3
  }

  lemma MovesAhead(count: nat, s: State)
    requires LIVE <= s.n
    ensures 0 <= Remaining(count, Moves(count, s)) <= 2 * s.n + 2
  {
  }

  /** Every rotation ends: a running one waits for one kind of answer, each answer, good or bad, brings
      it closer to its end, and nothing else delays or hastens it. */
  lemma RotationsEnd(count: nat, s: State, e: Event)
    requires Valid(count, s) && s.rotating
    ensures Remaining(count, s) > 0
    ensures var left := Remaining(count, Apply(count, s, e));
            if Answers(s, e) then 0 <= left < Remaining(count, s) else left == Remaining(count, s)
  {
    if Answers(s, e) {
      match e
      case Unlinked(removed) => MovesAhead(count, if removed then s.(disk := s.disk - {s.n}) else s);
      case Checked => MovesAhead(count, s);
      case Moved(moved) => MovesAhead(count, s.(disk := Renamed(s.disk, s.n, s.n + 1)));
    }
  }
}
