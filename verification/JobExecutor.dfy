/** The threaded job executor: submitters choose a worker and put a job on its bounded queue,
    workers take jobs in turn. Modelled as interleaved steps; the class below is the object whose
    methods perform them. */
module JobExecutor {
  import opened Wrappers

  /** A job and the session it was submitted for; the empty session means none. */
  datatype Job<+D> = Job(data: D, session: string)

  datatype Config = Config(threads: nat, maxQueue: int, sticky: bool, hash: string -> int)

  datatype Worker<+D> = Idle | Polling | Running(job: Job<D>)

  /** A job that went to, or was started by, a worker. */
  datatype Event<+D> = Event(job: Job<D>, worker: nat)

  datatype State<D> = State(
    queues: seq<seq<Job<D>>>,
    sessionToThread: map<string, nat>,
    stopped: bool,
    workers: seq<Worker<D>>,
    choosing: map<nat, Event<D>>,   // submitters between choosing a worker and putting the job
    accepted: seq<Event<D>>,
    started: seq<Event<D>>,
    finished: seq<Event<D>>,
    late: seq<nat>                  // jobs started per worker since the stop
  )

  datatype Action<+D> =
    | Choose(submitter: nat, job: Job<D>, random: nat)
    | Put(submitter: nat)
    | Poll(worker: nat)
    | Take(worker: nat)
    | TimeOut(worker: nat)
    | Finish(worker: nat)
    | Stop

  function Initial<D>(cfg: Config): State<D> {
    State(seq(cfg.threads, _ => []), map[], false, seq(cfg.threads, _ => Idle), map[], [], [], [],
          seq(cfg.threads, _ => 0))
  }

  /** A queue bound of zero or less means no bound. */
  predicate Full<D>(cfg: Config, queue: seq<Job<D>>) {
    0 < cfg.maxQueue <= |queue|
  }

  function StickyThread(cfg: Config, session: string): (i: nat)
    requires cfg.threads > 0
    ensures i < cfg.threads && exists q: int :: cfg.hash(session) == cfg.threads * q + i
  {
    assert cfg.hash(session) == cfg.threads * (cfg.hash(session) / cfg.threads) + cfg.hash(session) % cfg.threads;
    cfg.hash(session) % cfg.threads
  }

  /** The worker chosen for a job, and the session table afterwards. */
  function ThreadFor<D>(cfg: Config, table: map<string, nat>, job: Job<D>, random: nat): (nat, map<string, nat>)
    requires cfg.threads > 0
  {
    if cfg.sticky && job.session != "" then
      if job.session in table then (table[job.session], table)
      else (StickyThread(cfg, job.session), table[job.session := StickyThread(cfg, job.session)])
    else (random, table)
  }

  /** With sticky sessions a job goes to the worker remembered for its session, or else to the one given by
      the session's hash; any other job goes to the random one. */
  ghost predicate IsChoice<D>(cfg: Config, table: map<string, nat>, job: Job<D>, random: nat, w: nat) {
    if !cfg.sticky || job.session == "" then w == random
    else if job.session in table then w == table[job.session]
    else cfg.threads > 0 && w == StickyThread(cfg, job.session)
  }

  /** One step; an action that is not enabled changes nothing. */
  function Apply<D>(cfg: Config, s: State<D>, a: Action<D>): State<D>
    requires WellFormed(cfg, s)
  {
    match a
    case Choose(sub, job, random) =>
      if sub in s.choosing || random >= cfg.threads then s
      else
        var (i, table) := ThreadFor(cfg, s.sessionToThread, job, random);
        s.(sessionToThread := table, choosing := s.choosing[sub := Event(job, i)])
    case Put(sub) =>
      if sub !in s.choosing then s
      else
        var e := s.choosing[sub];
        var s' := s.(choosing := s.choosing - {sub});
        if Full(cfg, s.queues[e.worker]) then s'
        else s'.(queues := s.queues[e.worker := s.queues[e.worker] + [e.job]], accepted := s.accepted + [e])
    case Poll(w) =>
      if w < cfg.threads && s.workers[w] == Idle && !s.stopped then s.(workers := s.workers[w := Polling]) else s
    case Take(w) =>
      if w < cfg.threads && s.workers[w] == Polling && s.queues[w] != [] then
        var job := s.queues[w][0];
        s.(queues := s.queues[w := s.queues[w][1..]], workers := s.workers[w := Running(job)],
           started := s.started + [Event(job, w)],
           late := if s.stopped then s.late[w := s.late[w] + 1] else s.late)
      else s
    case TimeOut(w) =>
      if w < cfg.threads && s.workers[w] == Polling && s.queues[w] == [] then s.(workers := s.workers[w := Idle]) else s
    case Finish(w) =>
      if w < cfg.threads && s.workers[w].Running? then
        s.(workers := s.workers[w := Idle], finished := s.finished + [Event(s.workers[w].job, w)])
      else s
    case Stop => s.(stopped := true)
  }

  predicate WellFormed<D>(cfg: Config, s: State<D>) {
    && |s.queues| == |s.workers| == |s.late| == cfg.threads
    && (forall sub :: sub in s.choosing ==> s.choosing[sub].worker < cfg.threads)
    && (forall session :: session in s.sessionToThread ==> s.sessionToThread[session] < cfg.threads)
  }

  lemma StepKeepsWellFormed<D>(cfg: Config, s: State<D>, a: Action<D>)
    requires WellFormed(cfg, s)
    ensures WellFormed(cfg, Apply(cfg, s, a))
  {}

  /** The state after any interleaving of steps. */
  ghost function Exec<D>(cfg: Config, actions: seq<Action<D>>): (s: State<D>)
    ensures WellFormed(cfg, s)
  {
    if actions == [] then Initial(cfg)
    else
      var s := Exec(cfg, actions[..|actions| - 1]);
      StepKeepsWellFormed(cfg, s, actions[|actions| - 1]);
      Apply(cfg, s, actions[|actions| - 1])
  }

  // ------------------------------------------------------------------- invariants

  /** The jobs of one worker, in order. */
  ghost function Of<D>(events: seq<Event<D>>, w: nat): seq<Job<D>> {
    if events == [] then []
    else Of(events[..|events| - 1], w) + if events[|events| - 1].worker == w then [events[|events| - 1].job] else []
  }

  /** The jobs of one session, in order. */
  ghost function OfSession<D>(events: seq<Event<D>>, session: string): seq<Job<D>> {
    if events == [] then []
    else OfSession(events[..|events| - 1], session) +
         if events[|events| - 1].job.session == session then [events[|events| - 1].job] else []
  }

  ghost function InHand<D>(w: Worker<D>): seq<Job<D>> {
    if w.Running? then [w.job] else []
  }

  /** A worker starts its accepted jobs first come, first served: they are, in order, the finished
      ones, the one it runs, and its queue. */
  ghost predicate FirstComeFirstServed<D>(cfg: Config, s: State<D>)
    requires WellFormed(cfg, s)
  {
    forall w :: 0 <= w < cfg.threads ==> InOrderAt(cfg, s, w)
  }

  ghost predicate InOrderAt<D>(cfg: Config, s: State<D>, w: nat)
    requires WellFormed(cfg, s) && w < cfg.threads
  {
    && Of(s.accepted, w) == Of(s.started, w) + s.queues[w]
    && Of(s.started, w) == Of(s.finished, w) + InHand(s.workers[w])
  }

  ghost predicate Bounded<D>(cfg: Config, s: State<D>) {
    cfg.maxQueue > 0 ==> forall q :: q in s.queues ==> |q| <= cfg.maxQueue
  }

  ghost predicate RoutedByHash<D>(cfg: Config, e: Event<D>) {
    e.worker < cfg.threads && (cfg.sticky && e.job.session != "" ==> e.worker == StickyThread(cfg, e.job.session))
  }

  /** With sticky sessions the table, the choices under way, and every accepted and started job
      agree with the session's hash. */
  ghost predicate Sticky<D>(cfg: Config, s: State<D>) {
    && (forall x :: x in s.sessionToThread ==> cfg.threads > 0 && s.sessionToThread[x] == StickyThread(cfg, x))
    && (forall sub :: sub in s.choosing ==> RoutedByHash(cfg, s.choosing[sub]))
    && (forall e :: e in s.accepted ==> RoutedByHash(cfg, e))
    && (forall e :: e in s.started ==> RoutedByHash(cfg, e))
  }

  ghost predicate QueuedIsRouted<D>(cfg: Config, s: State<D>) {
    forall w, j :: 0 <= w < |s.queues| && j in s.queues[w] ==> RoutedByHash(cfg, Event(j, w))
  }

  /** After the stop a worker starts at most the one job it was already waiting for. */
  ghost predicate AtMostOneLate<D>(cfg: Config, s: State<D>)
    requires WellFormed(cfg, s)
  {
    forall w :: 0 <= w < cfg.threads ==>
      if s.stopped then s.late[w] + (if s.workers[w] == Polling then 1 else 0) <= 1 else s.late[w] == 0
  }

  lemma OfSnoc<D>(events: seq<Event<D>>, e: Event<D>, w: nat)
    ensures Of(events + [e], w) == Of(events, w) + if e.worker == w then [e.job] else []
  {
    assert (events + [e])[..|events|] == events;
  }

  lemma FromQueue<D>(accepted: seq<Job<D>>, started: seq<Job<D>>, queue: seq<Job<D>>)
    requires accepted == started + queue && queue != []
    ensures accepted == started + [queue[0]] + queue[1..]
  {
  }

  lemma IntoQueue<D>(accepted: seq<Job<D>>, started: seq<Job<D>>, queue: seq<Job<D>>, job: Job<D>)
    requires accepted == started + queue
    ensures accepted + [job] == started + (queue + [job])
  {
  }

  lemma PutInOrder<D>(cfg: Config, s: State<D>, sub: nat, w: nat)
    requires WellFormed(cfg, s) && w < cfg.threads && InOrderAt(cfg, s, w) && sub in s.choosing
    ensures WellFormed(cfg, Apply(cfg, s, Put(sub))) && InOrderAt(cfg, Apply(cfg, s, Put(sub)), w)
  {
    var e := s.choosing[sub];
    StepKeepsWellFormed(cfg, s, Put(sub));
    OfSnoc(s.accepted, e, w);
    var t := Apply(cfg, s, Put(sub));
    if e.worker == w {
      IntoQueue(Of(s.accepted, w), Of(s.started, w), s.queues[w], e.job);
    } else {
      assert Of(s.accepted, w) + [] == Of(s.accepted, w);
      assert t.queues[w] == s.queues[w];
    }
  }

  lemma TakeInOrder<D>(cfg: Config, s: State<D>, v: nat, w: nat)
    requires WellFormed(cfg, s) && w < cfg.threads && InOrderAt(cfg, s, w) && v < cfg.threads && s.queues[v] != []
    ensures WellFormed(cfg, Apply(cfg, s, Take(v))) && InOrderAt(cfg, Apply(cfg, s, Take(v)), w)
  {
    var job := s.queues[v][0];
    StepKeepsWellFormed(cfg, s, Take(v));
    OfSnoc(s.started, Event(job, v), w);
    var t := Apply(cfg, s, Take(v));
    if s.workers[v] != Polling {
      assert t == s;
    } else if v == w {
      FromQueue(Of(s.accepted, w), Of(s.started, w), s.queues[w]);
      assert t.queues[w] == s.queues[w][1..] && t.workers[w] == Running(job);
      assert Of(s.started, w) == Of(s.finished, w) + [];
    } else {
      assert Of(s.started, w) + [] == Of(s.started, w);
      assert t.queues[w] == s.queues[w] && t.workers[w] == s.workers[w];
    }
  }

  lemma FinishInOrder<D>(cfg: Config, s: State<D>, v: nat, w: nat)
    requires WellFormed(cfg, s) && w < cfg.threads && InOrderAt(cfg, s, w) && v < cfg.threads && s.workers[v].Running?
    ensures WellFormed(cfg, Apply(cfg, s, Finish(v))) && InOrderAt(cfg, Apply(cfg, s, Finish(v)), w)
  {
    StepKeepsWellFormed(cfg, s, Finish(v));
    OfSnoc(s.finished, Event(s.workers[v].job, v), w);
  }

  lemma InOrderStep<D>(cfg: Config, s: State<D>, a: Action<D>, w: nat)
    requires WellFormed(cfg, s) && w < cfg.threads && InOrderAt(cfg, s, w)
    ensures WellFormed(cfg, Apply(cfg, s, a)) && InOrderAt(cfg, Apply(cfg, s, a), w)
  {
    StepKeepsWellFormed(cfg, s, a);
    match a
    case Put(sub) => if sub in s.choosing { PutInOrder(cfg, s, sub, w); }
    case Take(v) => if v < cfg.threads && s.queues[v] != [] { TakeInOrder(cfg, s, v, w); }
    case Finish(v) => if v < cfg.threads && s.workers[v].Running? { FinishInOrder(cfg, s, v, w); }
    case _ =>
  }

  lemma FirstComeStep<D>(cfg: Config, s: State<D>, a: Action<D>)
    requires WellFormed(cfg, s) && FirstComeFirstServed(cfg, s)
    ensures WellFormed(cfg, Apply(cfg, s, a)) && FirstComeFirstServed(cfg, Apply(cfg, s, a))
  {
    StepKeepsWellFormed(cfg, s, a);
    forall w | 0 <= w < cfg.threads ensures InOrderAt(cfg, Apply(cfg, s, a), w) { InOrderStep(cfg, s, a, w); }
  }

  lemma BoundedStep<D>(cfg: Config, s: State<D>, a: Action<D>)
    requires WellFormed(cfg, s) && Bounded(cfg, s)
    ensures Bounded(cfg, Apply(cfg, s, a))
  {}

  lemma PutSticky<D>(cfg: Config, s: State<D>, sub: nat)
    requires WellFormed(cfg, s) && Sticky(cfg, s) && QueuedIsRouted(cfg, s)
    ensures Sticky(cfg, Apply(cfg, s, Put(sub))) && QueuedIsRouted(cfg, Apply(cfg, s, Put(sub)))
  {}

  lemma TakeSticky<D>(cfg: Config, s: State<D>, w: nat)
    requires WellFormed(cfg, s) && Sticky(cfg, s) && QueuedIsRouted(cfg, s)
    ensures Sticky(cfg, Apply(cfg, s, Take(w))) && QueuedIsRouted(cfg, Apply(cfg, s, Take(w)))
  {}

  lemma StickyStep<D>(cfg: Config, s: State<D>, a: Action<D>)
    requires WellFormed(cfg, s) && Sticky(cfg, s) && QueuedIsRouted(cfg, s)
    ensures Sticky(cfg, Apply(cfg, s, a)) && QueuedIsRouted(cfg, Apply(cfg, s, a))
  {
    var t := Apply(cfg, s, a);
    if a.Put? {
      PutSticky(cfg, s, a.submitter);
    } else if a.Take? {
      TakeSticky(cfg, s, a.worker);
    } else {
      assert t.queues == s.queues && t.accepted == s.accepted && t.started == s.started;
    }
  }

  lemma LateStep<D>(cfg: Config, s: State<D>, a: Action<D>)
    requires WellFormed(cfg, s) && AtMostOneLate(cfg, s)
    ensures WellFormed(cfg, Apply(cfg, s, a)) && AtMostOneLate(cfg, Apply(cfg, s, a))
  {
    StepKeepsWellFormed(cfg, s, a);
  }

  /** What every interleaving keeps. */
  lemma {:induction false} EveryRun<D>(cfg: Config, actions: seq<Action<D>>)
    ensures FirstComeFirstServed(cfg, Exec(cfg, actions))
    ensures Bounded(cfg, Exec(cfg, actions))
    ensures Sticky(cfg, Exec(cfg, actions)) && QueuedIsRouted(cfg, Exec(cfg, actions))
    ensures AtMostOneLate(cfg, Exec(cfg, actions))
  {
    if actions != [] {
      var front, a := actions[..|actions| - 1], actions[|actions| - 1];
      EveryRun(cfg, front);
      var s := Exec(cfg, front);
      FirstComeStep(cfg, s, a);
      BoundedStep(cfg, s, a);
      StickyStep(cfg, s, a);
      LateStep(cfg, s, a);
    }
  }

  // ------------------------------------------------------------- sessions in order

  ghost function OnlySession<D>(jobs: seq<Job<D>>, session: string): seq<Job<D>> {
    if jobs == [] then []
    else
      OnlySession(jobs[..|jobs| - 1], session) +
      if jobs[|jobs| - 1].session == session then [jobs[|jobs| - 1]] else []
  }

  lemma {:induction false} OnlySessionConcat<D>(a: seq<Job<D>>, b: seq<Job<D>>, session: string)
    ensures OnlySession(a + b, session) == OnlySession(a, session) + OnlySession(b, session)
  {
    if b == [] {
      assert a + b == a;
    } else {
      assert (a + b)[..|a + b| - 1] == a + b[..|b| - 1];
      OnlySessionConcat(a, b[..|b| - 1], session);
    }
  }

  /** When all events of a session are with one worker, the session's jobs are found there. */
  lemma {:induction false} SessionWithinWorker<D>(events: seq<Event<D>>, session: string, w: nat)
    requires forall e :: e in events && e.job.session == session ==> e.worker == w
    ensures OfSession(events, session) == OnlySession(Of(events, w), session)
  {
    if events != [] {
      var front, last := events[..|events| - 1], events[|events| - 1];
      SessionWithinWorker(front, session, w);
      if last.worker == w {
        OnlySessionConcat(Of(front, w), [last.job], session);
        assert [last.job][..0] == [];
        assert OnlySession([last.job], session) == if last.job.session == session then [last.job] else [];
      } else {
        assert Of(events, w) == Of(front, w);
      }
    }
  }

  ghost predicate AllAt<D>(events: seq<Event<D>>, session: string, w: nat) {
    forall e :: e in events && e.job.session == session ==> e.worker == w
  }

  lemma SessionStartsInOrder<D>(cfg: Config, s: State<D>, session: string, w: nat)
    requires WellFormed(cfg, s) && w < cfg.threads && InOrderAt(cfg, s, w)
    requires AllAt(s.accepted, session, w) && AllAt(s.started, session, w)
    ensures OfSession(s.started, session) <= OfSession(s.accepted, session)
  {
    SessionWithinWorker(s.accepted, session, w);
    SessionWithinWorker(s.started, session, w);
    OnlySessionConcat(Of(s.started, w), s.queues[w], session);
  }

  /** With sticky sessions, in every interleaving of submitters and workers: all accepted jobs of a
      session go to one worker, and they are started in the order in which they were accepted. */
  lemma SessionsInOrder<D>(cfg: Config, actions: seq<Action<D>>, session: string)
    requires cfg.sticky && session != "" && cfg.threads > 0
    ensures AllAt(Exec(cfg, actions).accepted, session, StickyThread(cfg, session))
    ensures OfSession(Exec(cfg, actions).started, session) <= OfSession(Exec(cfg, actions).accepted, session)
  {
    EveryRun(cfg, actions);
    var s, w := Exec(cfg, actions), StickyThread(cfg, session);
    assert forall e :: e in s.accepted ==> RoutedByHash(cfg, e);
    assert forall e :: e in s.started ==> RoutedByHash(cfg, e);
    assert InOrderAt(cfg, s, w);
    SessionStartsInOrder(cfg, s, session, w);
  }

  // ------------------------------------------------------------ what is accepted

  /** In every run: a submitter that begins is given a worker, and with sticky sessions that worker is the
      one remembered for the session from then on. */
  lemma ChoiceIsRemembered<D>(cfg: Config, actions: seq<Action<D>>, sub: nat, job: Job<D>, random: nat)
    requires random < cfg.threads && sub !in Exec(cfg, actions).choosing
    ensures var s, t := Exec(cfg, actions), Exec(cfg, actions + [Choose(sub, job, random)]);
            && sub in t.choosing && t.choosing[sub].job == job && t.queues == s.queues
            && var w := t.choosing[sub].worker;
            && IsChoice(cfg, s.sessionToThread, job, random, w)
            && t.sessionToThread == if cfg.sticky && job.session != "" then s.sessionToThread[job.session := w]
                                    else s.sessionToThread
  {
    assert (actions + [Choose(sub, job, random)])[..|actions|] == actions;
  }

  /** In every run: a submission at its worker is refused if and only if there is a bound and the worker's
      queue holds exactly that many jobs. Then nothing changes; otherwise the worker's queue grows by the
      job, and no other queue changes. */
  lemma RefusedIffAtBound<D>(cfg: Config, actions: seq<Action<D>>, sub: nat)
    requires sub in Exec(cfg, actions).choosing
    ensures var s, t := Exec(cfg, actions), Exec(cfg, actions + [Put(sub)]);
            var e := s.choosing[sub];
            && e.worker < |s.queues|
            && if cfg.maxQueue > 0 && |s.queues[e.worker]| == cfg.maxQueue
               then t.accepted == s.accepted && t.queues == s.queues
               else t.accepted == s.accepted + [e] && t.queues == s.queues[e.worker := s.queues[e.worker] + [e.job]]
  {
    EveryRun(cfg, actions);
    assert (actions + [Put(sub)])[..|actions|] == actions;
    var s := Exec(cfg, actions);
    assert s.queues[s.choosing[sub].worker] in s.queues;
  }

  // ------------------------------------------------------------ stopping

  /** How often worker w has started a job after the stop. */
  ghost function LateStarts<D>(cfg: Config, actions: seq<Action<D>>, w: nat): nat {
    if actions == [] then 0
    else
      var front := actions[..|actions| - 1];
      var s, t := Exec(cfg, front), Exec(cfg, actions);
      LateStarts(cfg, front, w) + if s.stopped && |Of(t.started, w)| > |Of(s.started, w)| then 1 else 0
  }

  lemma ExecSnoc<D>(cfg: Config, actions: seq<Action<D>>, a: Action<D>)
    ensures Exec(cfg, actions + [a]) == Apply(cfg, Exec(cfg, actions), a)
  {
    assert (actions + [a])[..|actions|] == actions;
  }

  lemma LateStartStep<D>(cfg: Config, s: State<D>, a: Action<D>, w: nat)
    requires WellFormed(cfg, s) && w < cfg.threads
    ensures var t := Apply(cfg, s, a);
            t.late[w] == s.late[w] + if s.stopped && |Of(t.started, w)| > |Of(s.started, w)| then 1 else 0
  {
    if a.Take? && a.worker < cfg.threads && s.queues[a.worker] != [] {
      OfSnoc(s.started, Event(s.queues[a.worker][0], a.worker), w);
    }
  }

  lemma {:induction false} LateIsCounted<D>(cfg: Config, actions: seq<Action<D>>, w: nat)
    requires w < cfg.threads
    ensures Exec(cfg, actions).late[w] == LateStarts(cfg, actions, w)
  {
    if actions != [] {
      LateIsCounted(cfg, actions[..|actions| - 1], w);
      LateStartStep(cfg, Exec(cfg, actions[..|actions| - 1]), actions[|actions| - 1], w);
    }
  }

  /** After the stop a worker starts at most one more job. */
  lemma OneLateStart<D>(cfg: Config, actions: seq<Action<D>>, w: nat)
    requires w < cfg.threads
    ensures LateStarts(cfg, actions, w) <= 1
  {
    EveryRun(cfg, actions);
    LateIsCounted(cfg, actions, w);
  }

  /** A waiting worker whose queue is not empty can do nothing but take its oldest job. */
  lemma WaitingTakes<D>(cfg: Config, s: State<D>, a: Action<D>, w: nat)
    requires WellFormed(cfg, s) && w < cfg.threads && s.workers[w] == Polling && s.queues[w] != []
    requires a in [Poll(w), TimeOut(w), Finish(w)]
    ensures Apply(cfg, s, a) == s
    ensures Apply(cfg, s, Take(w)).workers[w] == Running(s.queues[w][0])
  {
  }

  ghost predicate AtRest<D>(s: State<D>, w: nat) {
    w < |s.workers| && s.workers[w] == Idle
  }

  ghost predicate RestsOnly<D>(s: State<D>, t: State<D>, w: nat) {
    && t.stopped == s.stopped && |t.workers| == |s.workers| && t.accepted == s.accepted
    && forall v :: 0 <= v < |s.workers| && v != w ==> t.workers[v] == s.workers[v]
  }

  lemma WorkerRests<D>(cfg: Config, actions: seq<Action<D>>, w: nat) returns (more: seq<Action<D>>)
    requires w < cfg.threads
    ensures AtRest(Exec(cfg, actions + more), w) && RestsOnly(Exec(cfg, actions), Exec(cfg, actions + more), w)
  {
    var s := Exec(cfg, actions);
    if s.workers[w] == Idle {
      more := [];
      assert actions + more == actions;
    } else if s.workers[w] == Polling && s.queues[w] != [] {
      more := [Take(w), Finish(w)];
      assert actions + more == actions + [Take(w)] + [Finish(w)];
      ExecSnoc(cfg, actions, Take(w));
      ExecSnoc(cfg, actions + [Take(w)], Finish(w));
      StepRests(cfg, s, w);
    } else {
      more := [if s.workers[w] == Polling then TimeOut(w) else Finish(w)];
      ExecSnoc(cfg, actions, more[0]);
      StepRests(cfg, s, w);
    }
  }

  lemma StepRests<D>(cfg: Config, s: State<D>, w: nat)
    requires WellFormed(cfg, s) && w < cfg.threads
    ensures s.workers[w].Running? ==>
      var t := Apply(cfg, s, Finish(w)); AtRest(t, w) && RestsOnly(s, t, w)
    ensures s.workers[w] == Polling && s.queues[w] == [] ==>
      var t := Apply(cfg, s, TimeOut(w)); AtRest(t, w) && RestsOnly(s, t, w)
    ensures s.workers[w] == Polling && s.queues[w] != [] ==>
      var u := Apply(cfg, s, Take(w));
      WellFormed(cfg, u) && var t := Apply(cfg, u, Finish(w)); AtRest(t, w) && RestsOnly(s, t, w)
  {
  }

  /** After a stop every worker can come to rest, and then goes no further. */
  lemma {:induction false} EveryWorkerCanStop<D>(cfg: Config, actions: seq<Action<D>>, n: nat)
    returns (more: seq<Action<D>>)
    requires n <= cfg.threads && Exec(cfg, actions).stopped
    ensures var t := Exec(cfg, actions + more);
            && t.stopped && forall w :: 0 <= w < n ==> AtRest(t, w) && Apply(cfg, t, Poll(w)) == t
  {
    if n == 0 {
      more := [];
      assert actions + more == actions;
    } else {
      more := EveryWorkerCanStop(cfg, actions, n - 1);
      var last := WorkerRests(cfg, actions + more, n - 1);
      assert actions + (more + last) == actions + more + last;
      var u, t := Exec(cfg, actions + more), Exec(cfg, actions + more + last);
      forall w | 0 <= w < n ensures AtRest(t, w) {
        if w < n - 1 { assert AtRest(u, w) && t.workers[w] == u.workers[w]; }
      }
      more := more + last;
    }
  }

  // ------------------------------------------------------------ what is accepted can be finished

  /** What only workers do. */
  ghost predicate ByWorkers<D>(actions: seq<Action<D>>) {
    forall a :: a in actions ==> a.Poll? || a.Take? || a.Finish?
  }

  ghost predicate Drained<D>(s: State<D>, w: nat) {
    w < |s.queues| && w < |s.workers| && s.queues[w] == [] && !s.workers[w].Running?
  }

  /** Nothing has been submitted, and only worker w has gone on. */
  ghost predicate OnlyAt<D>(s: State<D>, t: State<D>, w: nat) {
    && |t.queues| == |s.queues| && |t.workers| == |s.workers| && t.accepted == s.accepted && t.stopped == s.stopped
    && (forall v :: 0 <= v < |s.queues| && v != w ==> t.queues[v] == s.queues[v])
    && (forall v :: 0 <= v < |s.workers| && v != w ==> t.workers[v] == s.workers[v])
  }

  function WorkLeft<D>(s: State<D>, w: nat): nat
    requires w < |s.queues| && w < |s.workers|
  {
    3 * |s.queues[w]| + match s.workers[w] case Running(_) => 2 case Idle => 1 case Polling => 0
  }

  /** The next step of a worker that has something to do. */
  function NextStep<D>(s: State<D>, w: nat): Action<D>
    requires w < |s.workers|
  {
    match s.workers[w] case Running(_) => Finish(w) case Idle => Poll(w) case Polling => Take(w)
  }

  lemma WorkerGoesOn<D>(cfg: Config, s: State<D>, w: nat)
    requires WellFormed(cfg, s) && w < cfg.threads && !s.stopped && !Drained(s, w)
    ensures var t := Apply(cfg, s, NextStep(s, w)); OnlyAt(s, t, w) && WorkLeft(t, w) < WorkLeft(s, w)
  {
  }

  lemma MoreByWorkers<D>(s: State<D>, w: nat, rest: seq<Action<D>>)
    requires w < |s.workers| && ByWorkers(rest)
    ensures ByWorkers([NextStep(s, w)] + rest)
  {
  }

  lemma OnlyAtBoth<D>(s: State<D>, t: State<D>, u: State<D>, w: nat)
    requires OnlyAt(s, t, w) && OnlyAt(t, u, w)
    ensures OnlyAt(s, u, w)
  {
  }

  /** A worker that has not been stopped can empty its queue. */
  lemma {:induction false} WorkerDrains<D>(cfg: Config, actions: seq<Action<D>>, w: nat) returns (more: seq<Action<D>>)
    requires w < cfg.threads && !Exec(cfg, actions).stopped
    ensures ByWorkers(more) && Drained(Exec(cfg, actions + more), w)
    ensures OnlyAt(Exec(cfg, actions), Exec(cfg, actions + more), w)
    decreases WorkLeft(Exec(cfg, actions), w)
  {
    var s := Exec(cfg, actions);
    if Drained(s, w) {
      more := [];
      assert actions + more == actions;
    } else {
      var a := NextStep(s, w);
      ExecSnoc(cfg, actions, a);
      WorkerGoesOn(cfg, s, w);
      var rest := WorkerDrains(cfg, actions + [a], w);
      more := [a] + rest;
      assert actions + more == actions + [a] + rest;
      OnlyAtBoth(s, Exec(cfg, actions + [a]), Exec(cfg, actions + more), w);
      MoreByWorkers(s, w, rest);
    }
  }

  lemma {:induction false} WorkersDrain<D>(cfg: Config, actions: seq<Action<D>>, n: nat) returns (more: seq<Action<D>>)
    requires n <= cfg.threads && !Exec(cfg, actions).stopped
    ensures var s, t := Exec(cfg, actions), Exec(cfg, actions + more);
            && ByWorkers(more) && t.accepted == s.accepted && !t.stopped
            && forall w :: 0 <= w < n ==> Drained(t, w)
  {
    if n == 0 {
      more := [];
      assert actions + more == actions;
    } else {
      more := WorkersDrain(cfg, actions, n - 1);
      var last := WorkerDrains(cfg, actions + more, n - 1);
      assert actions + (more + last) == actions + more + last;
      var u, t := Exec(cfg, actions + more), Exec(cfg, actions + more + last);
      forall w | 0 <= w < n ensures Drained(t, w) {
        if w < n - 1 { assert Drained(u, w) && t.queues[w] == u.queues[w] && t.workers[w] == u.workers[w]; }
      }
      more := more + last;
    }
  }

  lemma StopStep<D>(cfg: Config, s: State<D>, a: Action<D>)
    requires WellFormed(cfg, s)
    ensures Apply(cfg, s, a).stopped <==> s.stopped || a == Stop
  {
  }

  /** An executor is stopped if and only if it has been asked to. */
  lemma {:induction false} StoppedIffAsked<D>(cfg: Config, actions: seq<Action<D>>)
    ensures Exec(cfg, actions).stopped <==> exists i :: 0 <= i < |actions| && actions[i] == Stop
  {
    if actions != [] {
      var front, last := actions[..|actions| - 1], actions[|actions| - 1];
      StoppedIffAsked(cfg, front);
      StopStep(cfg, Exec(cfg, front), last);
      if Exec(cfg, front).stopped {
        var i :| 0 <= i < |front| && front[i] == Stop;
        assert actions[i] == Stop;
      }
    }
  }

  /** Every run without a stop can be continued, by steps of the workers alone, until every worker has
      finished its accepted jobs, in the order of acceptance. */
  lemma EveryAcceptedJobCanFinish<D>(cfg: Config, actions: seq<Action<D>>) returns (more: seq<Action<D>>)
    requires forall i :: 0 <= i < |actions| ==> actions[i] != Stop
    ensures ByWorkers(more) && Exec(cfg, actions + more).accepted == Exec(cfg, actions).accepted
    ensures forall w :: 0 <= w < cfg.threads ==>
              Of(Exec(cfg, actions + more).finished, w) == Of(Exec(cfg, actions).accepted, w)
  {
    StoppedIffAsked(cfg, actions);
    more := WorkersDrain(cfg, actions, cfg.threads);
    EveryRun(cfg, actions + more);
    var t := Exec(cfg, actions + more);
    forall w | 0 <= w < cfg.threads ensures Of(t.finished, w) == Of(t.accepted, w) {
      assert Drained(t, w) && InOrderAt(cfg, t, w);
    }
  }

  // --------------------------------------------------------------------- the object

  datatype Assignment = Accepted | QueueFull | Failed

  class ThreadJobExecutor<D> {
    const cfg: Config
    var queues: seq<seq<Job<D>>>
    var sessionToThread: map<string, nat>
    var stopEvent: bool
    var workers: seq<Worker<D>>
    ghost var accepted: seq<Event<D>>
    ghost var started: seq<Event<D>>
    ghost var finished: seq<Event<D>>
    ghost var late: seq<nat>

    ghost function Abs(): State<D>
      reads this
    {
      State(queues, sessionToThread, stopEvent, workers, map[], accepted, started, finished, late)
    }

    constructor (cfg: Config)
      ensures this.cfg == cfg && Abs() == Initial(cfg)
    {
      this.cfg := cfg;
      queues := seq(cfg.threads, _ => []);
      sessionToThread := map[];
      stopEvent := false;
      workers := seq(cfg.threads, _ => Idle);
      accepted, started, finished := [], [], [];
      late := seq(cfg.threads, _ => 0);
    }

    /** `assign_job`: a choice and a put in one go. Without workers the choice itself raises. */
    method AssignJob(job: Job<D>, random: nat) returns (r: Assignment)
      requires WellFormed(cfg, Abs()) && (cfg.threads > 0 ==> random < cfg.threads)
      modifies this
      ensures WellFormed(cfg, Abs())
      ensures cfg.threads == 0 ==> r == Failed && Abs() == old(Abs())
      ensures cfg.threads > 0 ==>
                && WellFormed(cfg, Apply(cfg, old(Abs()), Choose(0, job, random)))
                && Abs() == Apply(cfg, Apply(cfg, old(Abs()), Choose(0, job, random)), Put(0))
                && (r == Accepted <==> accepted != old(accepted)) && r != Failed
      // which worker, and when its queue refuses the job
      ensures cfg.threads > 0 ==>
                exists w :: 0 <= w < cfg.threads && IsChoice(cfg, old(sessionToThread), job, random, w)
                  && (r == QueueFull <==> 0 < cfg.maxQueue <= |old(queues)[w]|)
                  && queues == if r == Accepted then old(queues)[w := old(queues)[w] + [job]] else old(queues)
    {
      if cfg.threads == 0 {
        return Failed;
      }
      ghost var before := Abs();
      var threadIndex;
      if cfg.sticky && job.session != "" {
        if job.session in sessionToThread {
          threadIndex := sessionToThread[job.session];
        } else {
          threadIndex := StickyThread(cfg, job.session);
          sessionToThread := sessionToThread[job.session := threadIndex];
        }
      } else {
        threadIndex := random;
      }
      if Full(cfg, queues[threadIndex]) {
        r := QueueFull;
      } else {
        queues := queues[threadIndex := queues[threadIndex] + [job]];
        accepted := accepted + [Event(job, threadIndex)];
        r := Accepted;
      }
      StepKeepsWellFormed(cfg, before, Choose(0, job, random));
      StepKeepsWellFormed(cfg, Apply(cfg, before, Choose(0, job, random)), Put(0));
      assert IsChoice(cfg, before.sessionToThread, job, random, threadIndex);
      assert Abs().choosing == (before.choosing[0 := Event(job, threadIndex)]) - {0};
    }

    /** Loop head of a worker: leave when stopped, otherwise wait on the queue. */
    method PollQueue(w: nat) returns (again: bool)
      requires WellFormed(cfg, Abs()) && w < cfg.threads && workers[w] == Idle
      modifies this`workers
      ensures WellFormed(cfg, Abs()) && Abs() == Apply(cfg, old(Abs()), Poll(w)) && again == !stopEvent
    {
      again := !stopEvent;
      if again {
        workers := workers[w := Polling];
      }
    }

    /** The wait ends with the oldest job of the queue, or empty-handed. */
    method TakeJob(w: nat) returns (job: Option<Job<D>>)
      requires WellFormed(cfg, Abs()) && w < cfg.threads && workers[w] == Polling
      modifies this
      ensures WellFormed(cfg, Abs())
      ensures Abs() == Apply(cfg, old(Abs()), if job.Some? then Take(w) else TimeOut(w))
      ensures job == if old(queues)[w] == [] then None else Some(old(queues)[w][0])
    {
      if queues[w] == [] {
        workers := workers[w := Idle];
        return None;
      }
      job := Some(queues[w][0]);
      queues := queues[w := queues[w][1..]];
      workers := workers[w := Running(job.value)];
      started := started + [Event(job.value, w)];
      if stopEvent {
        late := late[w := late[w] + 1];
      }
    }

    /** The worker function returned or raised; either way the worker goes on. */
    method JobDone(w: nat)
      requires WellFormed(cfg, Abs()) && w < cfg.threads && workers[w].Running?
      modifies this
      ensures WellFormed(cfg, Abs()) && Abs() == Apply(cfg, old(Abs()), Finish(w))
    {
      finished := finished + [Event(workers[w].job, w)];
      workers := workers[w := Idle];
    }

    method Shutdown()
      requires WellFormed(cfg, Abs())
      modifies this`stopEvent
      ensures WellFormed(cfg, Abs()) && Abs() == Apply(cfg, old(Abs()), Stop)
    {
      stopEvent := true;
    }
  }
}
