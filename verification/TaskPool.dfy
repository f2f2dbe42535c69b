/** A task queue drained into a thread pool by whichever threads happen to be submitting. A task is
    named by the number of the `submit_task` call that put it. */
module TaskPool {
  /** Where a `submit_task` call stands, once it has put its task. */
  datatype Call = Testing | Getting | Handing(task: nat) | Returned

  datatype State = State(calls: seq<Call>, queue: seq<nat>, pending: seq<nat>, running: seq<nat>, results: seq<nat>)

  datatype Action =
    | Submit          // a new call puts its task
    | Test(c: nat)    // call c looks whether the queue is empty
    | Get(c: nat)     // call c takes a task; it waits while there is none
    | Hand(c: nat)    // call c gives its task to the pool
    | Begin           // an idle worker starts the oldest pending task
    | End(i: nat)     // a running task returns or raises: either way it leaves one result

  function Apply(workers: nat, s: State, a: Action): State {
    match a
    case Submit => s.(calls := s.calls + [Testing], queue := s.queue + [|s.calls|])
    case Test(c) =>
      if c < |s.calls| && s.calls[c].Testing?
      then s.(calls := s.calls[c := if s.queue == [] then Returned else Getting])
      else s
    case Get(c) =>
      if c < |s.calls| && s.calls[c].Getting? && s.queue != []
      then s.(calls := s.calls[c := Handing(s.queue[0])], queue := s.queue[1..])
      else s
    case Hand(c) =>
      if c < |s.calls| && s.calls[c].Handing?
      then s.(calls := s.calls[c := Testing], pending := s.pending + [s.calls[c].task])
      else s
    case Begin =>
      if s.pending != [] && |s.running| < workers
      then s.(running := s.running + [s.pending[0]], pending := s.pending[1..])
      else s
    case End(i) =>
      if i < |s.running|
      then s.(running := s.running[..i] + s.running[i + 1..], results := s.results + [s.running[i]])
      else s
  }

  function Exec(workers: nat, actions: seq<Action>): State {
    if actions == [] then State([], [], [], [], [])
    else Apply(workers, Exec(workers, actions[..|actions| - 1]), actions[|actions| - 1])
  }

  // ------------------------------------------------------------------- the object

  class ThreadPoolQueueSystem {
    const maxWorkers: nat
    var calls: seq<Call>
    var taskQueue: seq<nat>
    var pending: seq<nat>
    var running: seq<nat>
    var resultQueue: seq<nat>

    function Value(): State
      reads this
    {
      State(calls, taskQueue, pending, running, resultQueue)
    }

    constructor (maxWorkers: nat)
      ensures this.maxWorkers == maxWorkers && Value() == Exec(maxWorkers, [])
    {
      this.maxWorkers := maxWorkers;
      calls, taskQueue, pending, running, resultQueue := [], [], [], [], [];
    }

    method PutTask() returns (c: nat)
      modifies this
      ensures c == |old(calls)| && Value() == Apply(maxWorkers, old(Value()), Submit)
    {
      c := |calls|;
      calls := calls + [Testing];
      taskQueue := taskQueue + [c];
    }

    method TestEmpty(c: nat)
      requires c < |calls| && calls[c].Testing?
      modifies this
      ensures Value() == Apply(maxWorkers, old(Value()), Test(c))
    {
      calls := calls[c := if taskQueue == [] then Returned else Getting];
    }

    method GetTask(c: nat)
      requires c < |calls| && calls[c].Getting? && taskQueue != []
      modifies this
      ensures Value() == Apply(maxWorkers, old(Value()), Get(c))
    {
      calls := calls[c := Handing(taskQueue[0])];
      taskQueue := taskQueue[1..];
    }

    method HandOver(c: nat)
      requires c < |calls| && calls[c].Handing?
      modifies this
      ensures Value() == Apply(maxWorkers, old(Value()), Hand(c))
    {
      pending := pending + [calls[c].task];
      calls := calls[c := Testing];
    }

    /** A call that no other thread interrupts empties the queue into the pool, in order, and returns. */
    method SubmitTask() returns (c: nat)
      modifies this
      ensures c == |old(calls)| && calls == old(calls) + [Returned]
      ensures taskQueue == [] && pending == old(pending) + old(taskQueue) + [c]
      ensures running == old(running) && resultQueue == old(resultQueue)
    {
      c := PutTask();
      ghost var all := pending + taskQueue;
      assert all == old(pending) + old(taskQueue) + [c];
      TestEmpty(c);
      while calls[c].Getting?
        invariant |calls| == c + 1 && calls[..c] == old(calls)
        invariant calls[c] == if taskQueue == [] then Returned else Getting
        invariant pending + taskQueue == all
        invariant running == old(running) && resultQueue == old(resultQueue)
        decreases |taskQueue|
      {
        GetTask(c);
        HandOver(c);
        TestEmpty(c);
      }
      assert calls == calls[..c] + [Returned];
      assert pending + [] == pending;
    }

    method StartTask()
      requires pending != [] && |running| < maxWorkers
      modifies this
      ensures Value() == Apply(maxWorkers, old(Value()), Begin)
    {
      running := running + [pending[0]];
      pending := pending[1..];
    }

    method FinishTask(i: nat)
      requires i < |running|
      modifies this
      ensures Value() == Apply(maxWorkers, old(Value()), End(i))
    {
      resultQueue := resultQueue + [running[i]];
      running := running[..i] + running[i + 1..];
    }
  }

  // ------------------------------------------------------------------- conservation

  function HeldBy(call: Call, task: nat): nat {
    if call == Handing(task) then 1 else 0
  }

  function InHand(calls: seq<Call>, task: nat): nat {
    if calls == [] then 0 else InHand(calls[..|calls| - 1], task) + HeldBy(calls[|calls| - 1], task)
  }

  function Count(q: seq<nat>, task: nat): nat {
    multiset(q)[task]
  }

  /** In how many places a task is: queued, held by a submitting call, pending, running, or finished. */
  function Places(s: State, task: nat): nat {
    Count(s.queue, task) + InHand(s.calls, task) + Count(s.pending, task) + Count(s.running, task) +
    Count(s.results, task)
  }

  lemma {:induction false} InHandAfterUpdate(calls: seq<Call>, c: nat, call: Call, task: nat)
    requires c < |calls|
    ensures InHand(calls[c := call], task) + HeldBy(calls[c], task) == InHand(calls, task) + HeldBy(call, task)
  {
    var after, front := calls[c := call], calls[..|calls| - 1];
    if c == |calls| - 1 {
      assert after[..|after| - 1] == front;
    } else {
      assert after[..|after| - 1] == front[c := call];
      InHandAfterUpdate(front, c, call, task);
    }
  }

  lemma CountAppend(q: seq<nat>, x: nat, task: nat)
    ensures Count(q + [x], task) == Count(q, task) + if x == task then 1 else 0
  {
  }

  lemma CountWithout(q: seq<nat>, i: nat, task: nat)
    requires i < |q|
    ensures Count(q, task) == Count(q[..i] + q[i + 1..], task) + if q[i] == task then 1 else 0
  {
    assert q == q[..i] + [q[i]] + q[i + 1..];
  }

  lemma CountFirst(q: seq<nat>, task: nat)
    requires q != []
    ensures Count(q, task) == Count(q[1..], task) + if q[0] == task then 1 else 0
  {
    CountWithout(q, 0, task);
    assert q[..0] + q[1..] == q[1..];
  }

  lemma CallConserves(workers: nat, s: State, a: Action, task: nat)
    requires a.Test? || a.Get? || a.Hand?
    ensures Places(Apply(workers, s, a), task) == Places(s, task)
  {
    var t := Apply(workers, s, a);
    if t != s {
      var call := t.calls[a.c];
      assert t.calls == s.calls[a.c := call];
      InHandAfterUpdate(s.calls, a.c, call, task);
      match a
      case Test(c) =>
      case Get(c) => CountFirst(s.queue, task);
      case Hand(c) => CountAppend(s.pending, s.calls[c].task, task);
    }
  }

  lemma WorkerConserves(workers: nat, s: State, a: Action, task: nat)
    requires a.Begin? || a.End?
    ensures Places(Apply(workers, s, a), task) == Places(s, task)
  {
    if a.Begin? && s.pending != [] && |s.running| < workers {
      CountFirst(s.pending, task);
      CountAppend(s.running, s.pending[0], task);
    } else if a.End? && a.i < |s.running| {
      CountWithout(s.running, a.i, task);
      CountAppend(s.results, s.running[a.i], task);
    }
  }

  lemma StepConserves(workers: nat, s: State, a: Action, task: nat)
    ensures var t := Apply(workers, s, a);
            && Places(t, task) == Places(s, task) + (if a.Submit? && task == |s.calls| then 1 else 0)
            && |t.calls| == |s.calls| + if a.Submit? then 1 else 0
  {
    if a.Submit? {
      assert (s.calls + [Testing])[..|s.calls|] == s.calls;
      CountAppend(s.queue, |s.calls|, task);
    } else if a.Begin? || a.End? {
      WorkerConserves(workers, s, a, task);
    } else {
      CallConserves(workers, s, a, task);
    }
  }

  /** In every interleaving each submitted task is in exactly one place: queued, in the hands of a
      submitting call, pending, running, or done with one result. */
  lemma {:induction false} EveryTaskOnce(workers: nat, actions: seq<Action>, task: nat)
    ensures var s := Exec(workers, actions); Places(s, task) == if task < |s.calls| then 1 else 0
  {
    if actions != [] {
      EveryTaskOnce(workers, actions[..|actions| - 1], task);
      StepConserves(workers, Exec(workers, actions[..|actions| - 1]), actions[|actions| - 1], task);
    }
  }

  /** So no task reaches the pool twice or leaves two results. */
  lemma AtMostOneResult(workers: nat, actions: seq<Action>, task: nat)
    ensures var s := Exec(workers, actions);
            && Count(s.pending, task) + Count(s.running, task) + Count(s.results, task) <= 1
            && (task >= |s.calls| ==> task !in s.results)
  {
    EveryTaskOnce(workers, actions, task);
  }

  // ------------------------------------------------------------------- no task is left behind

  ghost predicate SomeoneSubmitting(s: State) {
    exists c :: 0 <= c < |s.calls| && !s.calls[c].Returned?
  }

  lemma StillSubmitting(workers: nat, s: State, a: Action)
    requires s.queue != [] ==> SomeoneSubmitting(s)
    ensures var t := Apply(workers, s, a); t.queue != [] ==> SomeoneSubmitting(t)
  {
    var t := Apply(workers, s, a);
    if t.queue != [] {
      if a.Submit? {
        assert t.calls[|s.calls|] == Testing;
      } else {
        var c :| 0 <= c < |s.calls| && !s.calls[c].Returned?;
        assert !t.calls[c].Returned?;
      }
    }
  }

  /** While tasks are queued some call is still in progress. */
  lemma {:induction false} QueueHasSubmitter(workers: nat, actions: seq<Action>)
    ensures var s := Exec(workers, actions); s.queue != [] ==> SomeoneSubmitting(s)
  {
    if actions != [] {
      QueueHasSubmitter(workers, actions[..|actions| - 1]);
      StillSubmitting(workers, Exec(workers, actions[..|actions| - 1]), actions[|actions| - 1]);
    }
  }

  ghost predicate Quiet(workers: nat, s: State) {
    forall a :: a != Submit ==> Apply(workers, s, a) == s
  }

  lemma QuietCall(workers: nat, s: State, c: nat)
    requires Quiet(workers, s) && c < |s.calls|
    ensures s.calls[c].Returned? || (s.calls[c].Getting? && s.queue == [])
  {
    assert Apply(workers, s, Test(c)) == s && Apply(workers, s, Get(c)) == s && Apply(workers, s, Hand(c)) == s;
  }

  lemma QuietQueueIsEmpty(workers: nat, s: State)
    requires Quiet(workers, s) && (s.queue != [] ==> SomeoneSubmitting(s))
    ensures s.queue == []
    ensures forall c :: 0 <= c < |s.calls| ==> s.calls[c].Getting? || s.calls[c].Returned?
  {
    forall c | 0 <= c < |s.calls| ensures s.calls[c].Returned? || (s.calls[c].Getting? && s.queue == []) {
      QuietCall(workers, s, c);
    }
  }

  lemma QuietPoolIsEmpty(workers: nat, s: State)
    requires workers > 0 && Quiet(workers, s)
    ensures s.pending == [] && s.running == []
  {
    assert Apply(workers, s, End(0)).results == s.results;
    assert Apply(workers, s, Begin) == s;
  }

  lemma {:induction false} NothingInHand(calls: seq<Call>, task: nat)
    requires forall c :: 0 <= c < |calls| ==> !calls[c].Handing?
    ensures InHand(calls, task) == 0
  {
    if calls != [] { NothingInHand(calls[..|calls| - 1], task); }
  }

  /** A run that can only go on by a new submission has a result for every task, exactly one, even if
      some call is still waiting for a task another call has taken. */
  lemma QuietMeansAllDone(workers: nat, actions: seq<Action>, task: nat)
    requires workers > 0 && Quiet(workers, Exec(workers, actions))
    ensures var s := Exec(workers, actions);
            Count(s.results, task) == if task < |s.calls| then 1 else 0
  {
    var s := Exec(workers, actions);
    QueueHasSubmitter(workers, actions);
    QuietQueueIsEmpty(workers, s);
    QuietPoolIsEmpty(workers, s);
    NothingInHand(s.calls, task);
    EveryTaskOnce(workers, actions, task);
  }

  // ------------------------------------------------------------------- when a call returns

  /** Going on from a state. */
  function Continue(workers: nat, s: State, more: seq<Action>): State
    decreases |more|
  {
    if more == [] then s else Continue(workers, Apply(workers, s, more[0]), more[1..])
  }

  lemma {:induction false} ExecContinues(workers: nat, actions: seq<Action>, more: seq<Action>)
    ensures Exec(workers, actions + more) == Continue(workers, Exec(workers, actions), more)
    decreases |more|
  {
    if more == [] {
      assert actions + more == actions;
    } else {
      assert (actions + [more[0]])[..|actions|] == actions;
      assert actions + more == actions + [more[0]] + more[1..];
      ExecContinues(workers, actions + [more[0]], more[1..]);
    }
  }

  ghost predicate NoSubmit(more: seq<Action>) {
    forall i :: 0 <= i < |more| ==> more[i] != Submit
  }

  /** A call that waits for a task while there is none. */
  ghost predicate Waits(s: State, c: nat) {
    c < |s.calls| && s.calls[c].Getting? && s.queue == []
  }

  ghost predicate AllReturned(s: State) {
    forall c :: 0 <= c < |s.calls| ==> s.calls[c].Returned?
  }

  /** At most one call is in progress, and it is about to take a task only if there is one. */
  ghost predicate OneAtATime(s: State) {
    && (forall c, d :: 0 <= c < d < |s.calls| ==> s.calls[c].Returned? || s.calls[d].Returned?)
    && (forall c :: 0 <= c < |s.calls| && s.calls[c].Getting? ==> s.queue != [])
  }

  lemma SubmitAlone(workers: nat, s: State)
    requires AllReturned(s)
    ensures OneAtATime(Apply(workers, s, Submit))
  {
  }

  lemma StepKeepsOne(workers: nat, s: State, a: Action)
    requires OneAtATime(s) && a != Submit
    ensures OneAtATime(Apply(workers, s, a))
  {
    var t := Apply(workers, s, a);
    forall c, d | 0 <= c < d < |t.calls| ensures t.calls[c].Returned? || t.calls[d].Returned? {
      assert s.calls[c].Returned? || s.calls[d].Returned?;
    }
  }

  lemma {:induction false} NobodyWaits(workers: nat, s: State, more: seq<Action>)
    requires OneAtATime(s) && NoSubmit(more)
    ensures OneAtATime(Continue(workers, s, more))
    decreases |more|
  {
    if more != [] {
      StepKeepsOne(workers, s, more[0]);
      NobodyWaits(workers, Apply(workers, s, more[0]), more[1..]);
    }
  }

  lemma {:induction false} ContinueTwice(workers: nat, s: State, a: seq<Action>, b: seq<Action>)
    requires NoSubmit(a) && NoSubmit(b)
    ensures NoSubmit(a + b) && Continue(workers, s, a + b) == Continue(workers, Continue(workers, s, a), b)
    decreases |a|
  {
    if a == [] {
      assert a + b == b;
    } else {
      assert (a + b)[1..] == a[1..] + b;
      ContinueTwice(workers, Apply(workers, s, a[0]), a[1..], b);
    }
  }

  lemma OneStep(workers: nat, s: State, a: Action)
    requires a != Submit
    ensures NoSubmit([a]) && Continue(workers, s, [a]) == Apply(workers, s, a)
  {
    assert [a][1..] == [];
  }

  /** One of two calls that are both about to take a task can take all there are. */
  lemma {:induction false} TakesAll(workers: nat, s: State, c: nat, d: nat) returns (more: seq<Action>)
    requires c < |s.calls| && d < |s.calls| && c != d && s.calls[c].Getting? && s.calls[d].Getting? && s.queue != []
    ensures NoSubmit(more) && Waits(Continue(workers, s, more), c)
    decreases |s.queue|
  {
    more := [Get(d)];
    OneStep(workers, s, Get(d));
    var t := Apply(workers, s, Get(d));
    if t.queue != [] {
      var u := Apply(workers, t, Hand(d));
      OneStep(workers, t, Hand(d));
      OneStep(workers, u, Test(d));
      var rest := TakesAll(workers, Apply(workers, u, Test(d)), c, d);
      ContinueTwice(workers, u, [Test(d)], rest);
      ContinueTwice(workers, t, [Hand(d)], [Test(d)] + rest);
      ContinueTwice(workers, s, more, [Hand(d)] + ([Test(d)] + rest));
      more := more + ([Hand(d)] + ([Test(d)] + rest));
    }
  }

  /** A call in progress while tasks are queued can come to the point of taking one. */
  lemma ComesToTake(workers: nat, s: State, c: nat) returns (more: seq<Action>, t: State)
    requires c < |s.calls| && !s.calls[c].Returned? && s.queue != []
    ensures NoSubmit(more) && Continue(workers, s, more) == t
    ensures t.queue == s.queue && t.calls == s.calls[c := Getting]
  {
    more, t := [], s;
    if s.calls[c].Handing? {
      OneStep(workers, s, Hand(c));
      more, t := [Hand(c)], Apply(workers, s, Hand(c));
    }
    if t.calls[c].Testing? {
      OneStep(workers, t, Test(c));
      ContinueTwice(workers, s, more, [Test(c)]);
      more, t := more + [Test(c)], Apply(workers, t, Test(c));
    }
  }

  lemma OverlapLeavesWaiting(workers: nat, s: State, c: nat) returns (more: seq<Action>)
    requires c < |s.calls| && !s.calls[c].Returned?
    ensures NoSubmit(more) && Waits(Continue(workers, Apply(workers, s, Submit), more), c)
  {
    var t := Apply(workers, s, Submit);
    var first, u := ComesToTake(workers, t, c);
    var second, v := ComesToTake(workers, u, |s.calls|);
    var third := TakesAll(workers, v, c, |s.calls|);
    ContinueTwice(workers, u, second, third);
    ContinueTwice(workers, t, first, second + third);
    more := first + (second + third);
  }

  ghost predicate MayLeaveWaiting(workers: nat, s: State) {
    exists more, c :: NoSubmit(more) && Waits(Continue(workers, s, more), c)
  }

  lemma SafeFromState(workers: nat, s: State)
    ensures !MayLeaveWaiting(workers, Apply(workers, s, Submit)) <==> AllReturned(s)
  {
    var t := Apply(workers, s, Submit);
    if AllReturned(s) {
      SubmitAlone(workers, s);
      forall more, c | NoSubmit(more) ensures !Waits(Continue(workers, t, more), c) {
        NobodyWaits(workers, t, more);
      }
    } else {
      var c :| 0 <= c < |s.calls| && !s.calls[c].Returned?;
      var more := OverlapLeavesWaiting(workers, s, c);
      assert NoSubmit(more) && Waits(Continue(workers, t, more), c);
    }
  }

  /** After a run, a continuation without a further submission leaves a call waiting. */
  ghost predicate LeavesWaiting(workers: nat, run: seq<Action>, more: seq<Action>, c: nat) {
    NoSubmit(more) && Waits(Exec(workers, run + more), c)
  }

  /** A submission is safe if and only if no other call is in progress when it is made: then no
      continuation without a further submission leaves a call waiting, and otherwise one does. */
  lemma SafeIffAlone(workers: nat, actions: seq<Action>)
    ensures (exists more, c :: LeavesWaiting(workers, actions + [Submit], more, c)) <==>
            !AllReturned(Exec(workers, actions))
  {
    var s, run := Exec(workers, actions), actions + [Submit];
    SafeFromState(workers, s);
    assert Exec(workers, run) == Apply(workers, s, Submit) by { assert run[..|run| - 1] == actions; }
    if more, c :| LeavesWaiting(workers, run, more, c) {
      ExecContinues(workers, run, more);
      assert MayLeaveWaiting(workers, Exec(workers, run));
    }
    if more, c :| NoSubmit(more) && Waits(Continue(workers, Exec(workers, run), more), c) {
      ExecContinues(workers, run, more);
      assert LeavesWaiting(workers, run, more, c);
    }
  }

  /** In particular every call that was in progress can be the one left waiting. */
  lemma OverlapMayWait(workers: nat, actions: seq<Action>, c: nat) returns (more: seq<Action>)
    requires c < |Exec(workers, actions).calls| && !Exec(workers, actions).calls[c].Returned?
    ensures LeavesWaiting(workers, actions + [Submit], more, c)
  {
    var run := actions + [Submit];
    assert Exec(workers, run) == Apply(workers, Exec(workers, actions), Submit) by {
      assert run[..|run| - 1] == actions;
    }
    more := OverlapLeavesWaiting(workers, Exec(workers, actions), c);
    ExecContinues(workers, run, more);
  }

  /** A waiting call waits until the next submission. */
  lemma {:induction false} WaitsUntilSubmit(workers: nat, run: seq<Action>, more: seq<Action>, c: nat)
    requires Waits(Exec(workers, run), c) && NoSubmit(more)
    ensures LeavesWaiting(workers, run, more, c)
  {
    if more == [] {
      assert run + more == run;
    } else {
      WaitsUntilSubmit(workers, run, more[..|more| - 1], c);
      assert (run + more)[..|run + more| - 1] == run + more[..|more| - 1];
    }
  }

  /** Every submission of the run was made with all earlier calls returned. */
  ghost predicate Serial(workers: nat, actions: seq<Action>) {
    forall i :: 0 <= i < |actions| && actions[i] == Submit ==> AllReturned(Exec(workers, actions[..i]))
  }

  lemma {:induction false} SerialIsOneAtATime(workers: nat, actions: seq<Action>)
    requires Serial(workers, actions)
    ensures OneAtATime(Exec(workers, actions))
  {
    if actions != [] {
      var front := actions[..|actions| - 1];
      assert forall i :: 0 <= i < |front| ==> front[..i] == actions[..i];
      SerialIsOneAtATime(workers, front);
      if actions[|actions| - 1] == Submit {
        SubmitAlone(workers, Exec(workers, front));
      } else {
        StepKeepsOne(workers, Exec(workers, front), actions[|actions| - 1]);
      }
    }
  }

  /** So when calls are made one after the other, every one of them returns. */
  lemma SerialCallsReturn(workers: nat, actions: seq<Action>)
    requires Serial(workers, actions) && Quiet(workers, Exec(workers, actions))
    ensures AllReturned(Exec(workers, actions))
  {
    var s := Exec(workers, actions);
    SerialIsOneAtATime(workers, actions);
    forall c | 0 <= c < |s.calls| ensures s.calls[c].Returned? {
      QuietCall(workers, s, c);
    }
  }

  /** Two calls: both see a non-empty queue, one takes both tasks, and the other is left waiting until a
      third submission. */
  lemma SubmitMayWait(workers: nat) returns (run: seq<Action>)
    ensures Exec(workers, run) == State([Returned, Getting], [], [0, 1], [], [])
    ensures Apply(workers, Exec(workers, run), Get(1)) == Exec(workers, run)
  {
    run := [];
    run := Then(workers, run, Submit);
    run := Then(workers, run, Submit);
    run := Then(workers, run, Test(1));
    run := Then(workers, run, Test(0));
    run := Then(workers, run, Get(0));
    run := Then(workers, run, Hand(0));
    assert Exec(workers, run) == State([Testing, Getting], [1], [0], [], []);
    run := Then(workers, run, Test(0));
    run := Then(workers, run, Get(0));
    run := Then(workers, run, Hand(0));
    run := Then(workers, run, Test(0));
  }

  lemma Then(workers: nat, run: seq<Action>, a: Action) returns (longer: seq<Action>)
    ensures longer == run + [a] && Exec(workers, longer) == Apply(workers, Exec(workers, run), a)
  {
    longer := run + [a];
    assert longer[..|longer| - 1] == run;
  }
}
