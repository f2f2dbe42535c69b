/** A rolling average over the samples of a time window. */
module RollingMetric {
  import opened Wrappers

  datatype Sample = Sample(time: real, value: real)

  /** Dropping samples from the front while they are older than the cutoff. */
  function Trim(data: seq<Sample>, cutoff: real): seq<Sample> {
    if data == [] || data[0].time >= cutoff then data else Trim(data[1..], cutoff)
  }

  /** The samples not older than the cutoff, wherever they stand. */
  function Since(data: seq<Sample>, cutoff: real): seq<Sample> {
    if data == [] then []
    else
      var last := data[|data| - 1];
      Since(data[..|data| - 1], cutoff) + if last.time >= cutoff then [last] else []
  }

  function Sum(data: seq<Sample>): real {
    if data == [] then 0.0 else Sum(data[..|data| - 1]) + data[|data| - 1].value
  }

  function Mean(data: seq<Sample>): real {
    if data == [] then 0.0 else Sum(data) / (|data| as real)
  }

  lemma {:induction false} SinceAppend(data: seq<Sample>, s: Sample, cutoff: real)
    ensures Since(data + [s], cutoff) == if s.time >= cutoff then Since(data, cutoff) + [s] else Since(data, cutoff)
  {
    assert (data + [s])[..|data|] == data;
  }

  lemma SumOfNoneAndOne(s: Sample)
    ensures Sum([]) == 0.0 && Sum([s]) == s.value
    ensures Mean([]) == 0.0 && Mean([s]) == s.value
  {
    assert [s][..0] == [];
    assert Sum([s]) == Sum([s][..0]) + s.value;
  }

  lemma {:induction false} SumSplits(a: seq<Sample>, b: seq<Sample>)
    ensures Sum(a + b) == Sum(a) + Sum(b)
  {
    if b == [] {
      assert a + b == a;
    } else {
      assert (a + b)[..|a + b| - 1] == a + b[..|b| - 1];
      SumSplits(a, b[..|b| - 1]);
    }
  }

  lemma {:induction false} SumBetween(data: seq<Sample>, low: real, high: real)
    requires forall i :: 0 <= i < |data| ==> low <= data[i].value <= high
    ensures |data| as real * low <= Sum(data) <= |data| as real * high
  {
    if data != [] { SumBetween(data[..|data| - 1], low, high); }
  }

  /** Each sample weighs the same in the mean, and the mean lies between the least and the greatest value. */
  lemma MeanIsBetween(data: seq<Sample>, low: real, high: real)
    requires data != [] && forall i :: 0 <= i < |data| ==> low <= data[i].value <= high
    ensures Mean(data) * |data| as real == Sum(data)
    ensures low <= Mean(data) <= high
  {
    SumBetween(data, low, high);
    var n := |data| as real;
    QuotientBetween(Sum(data), n, low, high);
  }

  lemma QuotientBetween(sum: real, n: real, low: real, high: real)
    requires n > 0.0 && n * low <= sum <= n * high
    ensures sum / n * n == sum && low <= sum / n <= high
  {
    assert sum / n * n == sum;
    FactorsOrdered(low, sum / n, n);
    FactorsOrdered(sum / n, high, n);
  }

  lemma FactorsOrdered(a: real, b: real, n: real)
    requires n > 0.0 && a * n <= b * n
    ensures a <= b
  {
    assert 0.0 <= b * n - a * n == (b - a) * n;
  }

  /** The time a cleanup counts back from: a missing or zero argument is replaced by a new reading of the clock. */
  function Effective(now: Option<real>, clock: real): real {
    if now.Some? && now.value != 0.0 then now.value else clock
  }

  class RollingMetric {
    const window: real
    var data: seq<Sample>

    constructor (window: real)
      ensures this.window == window && data == []
    {
      this.window := window;
      data := [];
    }

    method Cleanup(now: Option<real>, clock: real)
      modifies this`data
      ensures data == Trim(old(data), Effective(now, clock) - window)
    {
      var t := Effective(now, clock);
      while data != [] && data[0].time < t - window
        invariant Trim(data, t - window) == Trim(old(data), t - window)
        decreases |data|
      {
        data := data[1..];
      }
    }

    method Add(now: real, clock: real, value: real)
      modifies this`data
      ensures data == Trim(old(data) + [Sample(now, value)], Effective(Some(now), clock) - window)
    {
      data := data + [Sample(now, value)];
      Cleanup(Some(now), clock);
    }

    method Average(now: real, clock: real, w: real) returns (average: real)
      modifies this`data
      ensures data == Trim(old(data), Effective(Some(now), clock) - window)
      ensures average == Mean(Since(data, now - w))
    {
      Cleanup(Some(now), clock);
      var kept := data;
      var values, sum := 0, 0.0;
      for i := 0 to |kept|
        invariant data == kept
        invariant values == |Since(kept[..i], now - w)| && sum == Sum(Since(kept[..i], now - w))
      {
        assert kept[..i + 1] == kept[..i] + [kept[i]];
        SinceAppend(kept[..i], kept[i], now - w);
        if kept[i].time >= now - w {
          values, sum := values + 1, sum + kept[i].value;
        }
      }
      assert kept[..|kept|] == kept;
      average := if values > 0 then sum / (values as real) else 0.0;
    }

    method Current(clock: real) returns (current: real)
      modifies this`data
      ensures data == Trim(old(data), clock - window)
      ensures current == if data == [] then 0.0 else data[|data| - 1].value
    {
      Cleanup(None, clock);
      current := if data == [] then 0.0 else data[|data| - 1].value;
    }
  }

  // ------------------------------------------------------------------- every run

  /** A call, with the readings of the clock it makes. */
  datatype Op =
    | Add(now: real, clock: real, value: real)
    | Average(now: real, clock: real, w: real)
    | Current(clock: real)

  function Apply(window: real, data: seq<Sample>, op: Op): seq<Sample> {
    match op
    case Add(now, clock, value) => Trim(data + [Sample(now, value)], Effective(Some(now), clock) - window)
    case Average(now, clock, w) => Trim(data, Effective(Some(now), clock) - window)
    case Current(clock) => Trim(data, clock - window)
  }

  function Run(window: real, ops: seq<Op>): seq<Sample> {
    if ops == [] then [] else Apply(window, Run(window, ops[..|ops| - 1]), ops[|ops| - 1])
  }

  /** Everything ever added. */
  function History(ops: seq<Op>): seq<Sample> {
    if ops == [] then []
    else
      var op := ops[|ops| - 1];
      History(ops[..|ops| - 1]) + Added(op)
  }

  /** The time of the last cleanup. */
  function LastCleanup(op: Op): real {
    if op.Current? then op.clock else Effective(Some(op.now), op.clock)
  }

  function FirstReading(op: Op): real {
    if op.Current? then op.clock else op.now
  }

  /** The clock never runs backwards, within a call or between calls. */
  predicate ClockMonotone(ops: seq<Op>) {
    && (forall i :: 0 <= i < |ops| ==> FirstReading(ops[i]) <= ops[i].clock)
    && (forall i, j :: 0 <= i < j < |ops| ==> ops[i].clock <= FirstReading(ops[j]))
  }

  predicate InOrder(data: seq<Sample>) {
    forall i, j :: 0 <= i < j < |data| ==> data[i].time <= data[j].time
  }

  predicate NoneAfter(data: seq<Sample>, time: real) {
    forall i :: 0 <= i < |data| ==> data[i].time <= time
  }

  lemma {:induction false} HistoryInOrder(ops: seq<Op>)
    requires ClockMonotone(ops)
    ensures InOrder(History(ops))
    ensures ops != [] ==> NoneAfter(History(ops), ops[|ops| - 1].clock)
    ensures ops != [] && !ops[|ops| - 1].Add? ==> NoneAfter(History(ops), FirstReading(ops[|ops| - 1]))
  {
    if ops != [] {
      var front, op := ops[..|ops| - 1], ops[|ops| - 1];
      assert forall i :: 0 <= i < |front| ==> front[i] == ops[i];
      HistoryInOrder(front);
      if front != [] {
        assert front[|front| - 1].clock <= FirstReading(op);
      } else {
        assert History(front) == [];
      }
    }
  }

  /** On samples in order, trimming the front keeps exactly the samples that are young enough. */
  lemma {:induction false} TrimIsSince(data: seq<Sample>, cutoff: real)
    requires InOrder(data)
    ensures Trim(data, cutoff) == Since(data, cutoff)
    decreases |data|
  {
    if data != [] {
      if data[0].time >= cutoff {
        AllRecent(data, cutoff);
      } else {
        SinceDropsOldFirst(data, cutoff);
        TrimIsSince(data[1..], cutoff);
      }
    }
  }

  lemma {:induction false} AllRecent(data: seq<Sample>, cutoff: real)
    requires forall i :: 0 <= i < |data| ==> data[i].time >= cutoff
    ensures Since(data, cutoff) == data
  {
    if data != [] { AllRecent(data[..|data| - 1], cutoff); }
  }

  lemma {:induction false} SinceDropsOldFirst(data: seq<Sample>, cutoff: real)
    requires data != [] && data[0].time < cutoff
    ensures Since(data, cutoff) == Since(data[1..], cutoff)
  {
    if |data| > 1 {
      SinceDropsOldFirst(data[..|data| - 1], cutoff);
      assert data[1..][..|data[1..]| - 1] == data[..|data| - 1][1..];
    } else {
      assert data[1..] == [] && data[..0] == [];
    }
  }

  lemma {:induction false} SinceTwice(data: seq<Sample>, a: real, b: real)
    ensures Since(Since(data, a), b) == Since(data, if a < b then b else a)
  {
    if data != [] {
      var front, last := data[..|data| - 1], data[|data| - 1];
      SinceTwice(front, a, b);
      if last.time >= a {
        assert (Since(front, a) + [last])[..|Since(front, a)|] == Since(front, a);
      } else {
        assert Since(data, a) == Since(front, a);
      }
    }
  }

  lemma {:induction false} SinceInOrder(data: seq<Sample>, cutoff: real, time: real)
    requires InOrder(data) && NoneAfter(data, time)
    ensures InOrder(Since(data, cutoff)) && NoneAfter(Since(data, cutoff), time)
  {
    if data != [] {
      var last := data[|data| - 1];
      SinceInOrder(data[..|data| - 1], cutoff, last.time);
    }
  }

  lemma {:induction false} SinceIsSuffix(data: seq<Sample>, cutoff: real) returns (k: nat)
    requires InOrder(data)
    ensures k <= |data| && Since(data, cutoff) == data[k..]
    ensures forall i :: 0 <= i < |data| ==> (data[i].time >= cutoff <==> i >= k)
    decreases |data|
  {
    if data == [] || data[0].time >= cutoff {
      k := 0;
      AllRecent(data, cutoff);
    } else {
      SinceDropsOldFirst(data, cutoff);
      k := SinceIsSuffix(data[1..], cutoff);
      k := k + 1;
    }
  }

  predicate ReadingsInOrder(last: Op, op: Op) {
    last.clock <= FirstReading(op) <= op.clock
  }

  function Added(op: Op): seq<Sample> {
    if op.Add? then [Sample(op.now, op.value)] else []
  }

  lemma ApplyIsTrim(window: real, data: seq<Sample>, op: Op)
    ensures Apply(window, data, op) == Trim(data + Added(op), LastCleanup(op) - window)
  {
    assert data + [] == data;
  }

  lemma ClockParts(ops: seq<Op>)
    requires ClockMonotone(ops) && |ops| > 1
    ensures ClockMonotone(ops[..|ops| - 1]) && ReadingsInOrder(ops[|ops| - 2], ops[|ops| - 1])
    ensures LastCleanup(ops[|ops| - 2]) <= LastCleanup(ops[|ops| - 1])
  {
    var front := ops[..|ops| - 1];
    assert forall i :: 0 <= i < |front| ==> front[i] == ops[i];
  }

  lemma {:induction false} RunIsSince(window: real, ops: seq<Op>)
    requires ClockMonotone(ops) && ops != []
    ensures Run(window, ops) == Since(History(ops), LastCleanup(ops[|ops| - 1]) - window)
  {
    var front := ops[..|ops| - 1];
    if |ops| == 1 {
      FirstIsSince(window, ops);
    } else {
      var last := ops[|ops| - 2];
      assert front[|front| - 1] == last;
      ClockParts(ops);
      RunIsSince(window, front);
      NextIsSince(window, front, LastCleanup(last) - window, ops);
    }
  }

  lemma FirstIsSince(window: real, ops: seq<Op>)
    requires ClockMonotone(ops) && |ops| == 1
    ensures Run(window, ops) == Since(History(ops), LastCleanup(ops[0]) - window)
  {
    InHistoryOrder(ops);
    assert ops[..0] == [] && [] + Added(ops[0]) == Added(ops[0]);
    ApplyIsTrim(window, [], ops[0]);
    TrimIsSince(Added(ops[0]), LastCleanup(ops[0]) - window);
  }

  lemma NextIsSince(window: real, front: seq<Op>, earlier: real, ops: seq<Op>)
    requires ClockMonotone(ops) && ops != [] && front == ops[..|ops| - 1]
    requires Run(window, front) == Since(History(front), earlier) && earlier <= LastCleanup(ops[|ops| - 1]) - window
    ensures Run(window, ops) == Since(History(ops), LastCleanup(ops[|ops| - 1]) - window)
  {
    var op := ops[|ops| - 1];
    InHistoryOrder(ops);
    ApplyIsTrim(window, Run(window, front), op);
    TrimAfterAdding(History(front), Added(op), earlier, LastCleanup(op) - window);
  }

  lemma InHistoryOrder(ops: seq<Op>)
    requires ClockMonotone(ops) && ops != []
    ensures History(ops) == History(ops[..|ops| - 1]) + Added(ops[|ops| - 1])
    ensures InOrder(History(ops[..|ops| - 1]) + Added(ops[|ops| - 1]))
  {
    HistoryInOrder(ops);
  }

  /** With a clock that never runs backwards the deque holds, in order of time, exactly the samples
      of the complete history that were inside the window at the last cleanup: a suffix of it. */
  lemma DequeIsWindow(window: real, ops: seq<Op>) returns (k: nat)
    requires ClockMonotone(ops) && ops != []
    ensures var all, cutoff := History(ops), LastCleanup(ops[|ops| - 1]) - window;
            && Run(window, ops) == Since(all, cutoff)
            && k <= |all| && Run(window, ops) == all[k..]
            && forall i :: 0 <= i < |all| ==> (all[i].time >= cutoff <==> i >= k)
  {
    assert InOrder(History(ops)) by { HistoryInOrder(ops); }
    k := SinceIsSuffix(History(ops), LastCleanup(ops[|ops| - 1]) - window);
    RunIsSince(window, ops);
  }

  lemma TrimAfterAdding(history: seq<Sample>, added: seq<Sample>, earlier: real, cutoff: real)
    requires |added| <= 1 && InOrder(history + added) && earlier <= cutoff
    ensures Trim(Since(history, earlier) + added, cutoff) == Since(history + added, cutoff)
  {
    var kept := Since(history, earlier);
    assert forall i :: 0 <= i < |history| ==> history[i] == (history + added)[i];
    if added == [] {
      assert kept + added == kept && history + added == history;
      if history != [] { SinceInOrder(history, earlier, history[|history| - 1].time); }
      TrimIsSince(kept, cutoff);
    } else {
      assert NoneAfter(history, added[0].time) by {
        assert (history + added)[|history|] == added[0];
      }
      SinceInOrder(history, earlier, added[0].time);
      assert added == [added[0]];
      TrimIsSince(kept + added, cutoff);
      SinceAppend(kept, added[0], cutoff);
      SinceAppend(history, added[0], cutoff);
    }
    SinceTwice(history, earlier, cutoff);
  }

  /** The samples `average` takes into account after a run. */
  function Averaged(window: real, ops: seq<Op>, now: real, clock: real, w: real): seq<Sample> {
    Since(Run(window, ops + [Average(now, clock, w)]), now - w)
  }

  lemma ReadingAddsNothing(ops: seq<Op>, now: real, clock: real, w: real)
    ensures History(ops + [Average(now, clock, w)]) == History(ops)
  {
    assert (ops + [Average(now, clock, w)])[..|ops|] == ops;
    assert History(ops) + [] == History(ops);
  }

  /** For a span w of any size: the average is taken over the complete history restricted to the
      shorter of w and the metric's own window. A call at time zero counts its window back from
      the clock instead, but its span still from zero. */
  lemma AveragesHistory(window: real, ops: seq<Op>, now: real, clock: real, w: real)
    requires ClockMonotone(ops + [Average(now, clock, w)])
    ensures Averaged(window, ops, now, clock, w) ==
            Since(History(ops),
              if now != 0.0 then now - (if w <= window then w else window)
              else if clock - window < -w then -w else clock - window)
  {
    AveragesLater(window, ops, now, clock, w);
    LaterStart(window, now, clock, w);
  }

  lemma LaterStart(window: real, now: real, clock: real, w: real)
    ensures var from, start := now - w, Effective(Some(now), clock) - window;
            (if start < from then from else start) ==
            if now != 0.0 then now - (if w <= window then w else window)
            else if clock - window < -w then -w else clock - window
  {
    assert now == 0.0 ==> now - w == -w;
  }

  lemma AveragesLater(window: real, ops: seq<Op>, now: real, clock: real, w: real)
    requires ClockMonotone(ops + [Average(now, clock, w)])
    ensures var from, start := now - w, Effective(Some(now), clock) - window;
            Averaged(window, ops, now, clock, w) == Since(History(ops), if start < from then from else start)
  {
    DequeBeforeAverage(window, ops, now, clock, w);
    SinceTwice(History(ops), Effective(Some(now), clock) - window, now - w);
  }

  lemma DequeBeforeAverage(window: real, ops: seq<Op>, now: real, clock: real, w: real)
    requires ClockMonotone(ops + [Average(now, clock, w)])
    ensures Run(window, ops + [Average(now, clock, w)]) == Since(History(ops), Effective(Some(now), clock) - window)
  {
    var run := ops + [Average(now, clock, w)];
    assert run[|run| - 1] == Average(now, clock, w);
    RunIsSince(window, run);
    ReadingAddsNothing(ops, now, clock, w);
  }
}
