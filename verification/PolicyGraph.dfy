/** The policy-graph scheduler: Kahn's algorithm as the acyclicity test and the
    worklist that runs a graph of functions as a dataflow program. */
module PolicyGraph {
  import opened Digraph
  import opened Sequences
  import opened Wrappers

  type Node = string

  /** Connection data as stored: source ids, each with its list of targets (duplicates and
      self-loops allowed), in insertion order and without a repeated key. */
  type Connections = g: seq<(Node, seq<Node>)> | IsDict(g) witness []

  ghost predicate IsDict(g: seq<(Node, seq<Node>)>) {
    forall i, j :: 0 <= i < j < |g| ==> g[i].0 != g[j].0
  }

  // ---------------------------------------------------------------- the graph

  function Front(g: Connections): Connections
    requires g != []
  {
    g[..|g| - 1]
  }

  function Last(g: Connections): (Node, seq<Node>)
    requires g != []
  {
    g[|g| - 1]
  }

  ghost function EdgesOf(g: Connections): set<(Node, Node)> {
    if g == [] then {} else EdgesOf(Front(g)) + set t | t in Last(g).1 :: (Last(g).0, t)
  }

  /** Endpoints of edges; a source with an empty target list is not one. */
  ghost function NodesOf(g: Connections): set<Node> {
    if g == [] then {}
    else NodesOf(Front(g)) + if Last(g).1 == [] then {} else {Last(g).0} + SetOf(Last(g).1)
  }

  ghost function Targets(g: Connections, u: Node): seq<Node> {
    if g == [] then [] else if Last(g).0 == u then Last(g).1 else Targets(Front(g), u)
  }

  /** The targets of all edges that leave a node outside `done`, with multiplicity. */
  ghost function Remaining(g: Connections, done: set<Node>): multiset<Node> {
    if g == [] then multiset{}
    else Remaining(Front(g), done) + if Last(g).0 in done then multiset{} else multiset(Last(g).1)
  }

  lemma {:induction false} TargetsOfAbsent(g: Connections, u: Node)
    requires forall i :: 0 <= i < |g| ==> g[i].0 != u
    ensures Targets(g, u) == []
  {
    if g != [] { TargetsOfAbsent(Front(g), u); }
  }

  lemma {:induction false} EdgeIsTarget(g: Connections, u: Node, v: Node)
    ensures (u, v) in EdgesOf(g) <==> v in Targets(g, u)
  {
    if g != [] {
      EdgeIsTarget(Front(g), u, v);
      if Last(g).0 == u { TargetsOfAbsent(Front(g), u); }
    }
  }

  lemma {:induction false} EdgesWithinNodes(g: Connections)
    ensures Within(EdgesOf(g), NodesOf(g))
  {
    if g != [] { EdgesWithinNodes(Front(g)); }
  }

  lemma {:induction false} RemainingTarget(g: Connections, done: set<Node>, v: Node)
    ensures v in Remaining(g, done) <==> exists u :: u !in done && (u, v) in EdgesOf(g)
  {
    if g != [] {
      RemainingTarget(Front(g), done, v);
      if v in Last(g).1 && Last(g).0 !in done { assert (Last(g).0, v) in EdgesOf(g); }
    }
  }

  lemma {:induction false} RemainingAfter(g: Connections, done: set<Node>, u: Node)
    requires u !in done
    ensures Remaining(g, done) == Remaining(g, done + {u}) + multiset(Targets(g, u))
  {
    if g != [] {
      RemainingAfter(Front(g), done, u);
      if Last(g).0 == u { TargetsOfAbsent(Front(g), u); }
    }
  }

  // ------------------------------------------------- in-degrees and adjacency

  function GetOr<K, V>(m: map<K, V>, k: K, default: V): V {
    if k in m then m[k] else default
  }

  lemma TargetsAreNodes(g: Connections, u: Node)
    ensures forall t :: t in Targets(g, u) ==> t in NodesOf(g)
  {
    EdgesWithinNodes(g);
    forall t | t in Targets(g, u) ensures t in NodesOf(g) { EdgeIsTarget(g, u, t); }
  }

  ghost predicate DegreesPlus(deg0: map<Node, int>, src: Node, ts: seq<Node>, deg: map<Node, int>) {
    && deg.Keys == deg0.Keys + (if ts == [] then {} else {src} + SetOf(ts))
    && forall v :: GetOr(deg, v, 0) == GetOr(deg0, v, 0) + multiset(ts)[v]
  }

  /** One more edge into `tgt`; its source gets a counter too. */
  function Counted(deg: map<Node, int>, src: Node, tgt: Node): map<Node, int> {
    var deg' := deg[tgt := GetOr(deg, tgt, 0) + 1];
    if src in deg' then deg' else deg'[src := 0]
  }

  lemma DegreesPlusOne(deg0: map<Node, int>, src: Node, ts: seq<Node>, deg: map<Node, int>, tgt: Node)
    requires DegreesPlus(deg0, src, ts, deg)
    ensures DegreesPlus(deg0, src, ts + [tgt], Counted(deg, src, tgt))
  {
    AppendOne(ts, tgt);
    assert multiset(ts + [tgt]) == multiset(ts) + multiset{tgt};
  }

  /** `adj` is `adj0` with `ts` appended to the list of `src`. */
  ghost predicate AdjacencyPlus(adj0: map<Node, seq<Node>>, src: Node, ts: seq<Node>, adj: map<Node, seq<Node>>) {
    && GetOr(adj, src, []) == GetOr(adj0, src, []) + ts
    && forall u :: u != src ==> GetOr(adj, u, []) == GetOr(adj0, u, [])
  }

  lemma AdjacencyPlusOne(adj0: map<Node, seq<Node>>, src: Node, ts: seq<Node>, adj: map<Node, seq<Node>>, t: Node)
    requires AdjacencyPlus(adj0, src, ts, adj)
    ensures AdjacencyPlus(adj0, src, ts + [t], adj[src := GetOr(adj, src, []) + [t]])
  {
    assert GetOr(adj0, src, []) + ts + [t] == GetOr(adj0, src, []) + (ts + [t]);
  }

  /** One source's inner loop. */
  method AddTargets(src: Node, ts: seq<Node>, adj0: map<Node, seq<Node>>, deg0: map<Node, int>)
    returns (adj: map<Node, seq<Node>>, deg: map<Node, int>)
    ensures DegreesPlus(deg0, src, ts, deg) && AdjacencyPlus(adj0, src, ts, adj)
  {
    adj, deg := adj0, deg0;
    for j := 0 to |ts|
      invariant DegreesPlus(deg0, src, ts[..j], deg) && AdjacencyPlus(adj0, src, ts[..j], adj)
    {
      assert ts[..j + 1] == ts[..j] + [ts[j]];
      DegreesPlusOne(deg0, src, ts[..j], deg, ts[j]);
      AdjacencyPlusOne(adj0, src, ts[..j], adj, ts[j]);
      adj := adj[src := GetOr(adj, src, []) + [ts[j]]];
      deg := Counted(deg, src, ts[j]);
    }
    assert ts[..|ts|] == ts;
  }

  ghost predicate DegreesOf(g: Connections, deg: map<Node, int>) {
    deg.Keys == NodesOf(g) && forall v :: GetOr(deg, v, 0) == Remaining(g, {})[v]
  }

  ghost predicate AdjacencyOf(g: Connections, adj: map<Node, seq<Node>>) {
    forall u :: GetOr(adj, u, []) == Targets(g, u)
  }

  lemma DegreesExtend(g: Connections, deg0: map<Node, int>, deg: map<Node, int>)
    requires g != [] && DegreesOf(Front(g), deg0) && DegreesPlus(deg0, Last(g).0, Last(g).1, deg)
    ensures DegreesOf(g, deg)
  {}

  lemma AdjacencyExtends(g: Connections, adj0: map<Node, seq<Node>>, adj: map<Node, seq<Node>>)
    requires g != [] && AdjacencyOf(Front(g), adj0) && AdjacencyPlus(adj0, Last(g).0, Last(g).1, adj)
    ensures AdjacencyOf(g, adj)
  {
    TargetsOfAbsent(Front(g), Last(g).0);
    assert GetOr(adj0, Last(g).0, []) == [];
  }

  lemma OneMoreSource(g: Connections, i: nat, adj0: map<Node, seq<Node>>, deg0: map<Node, int>,
                      adj: map<Node, seq<Node>>, deg: map<Node, int>)
    requires i < |g| && DegreesOf(g[..i], deg0) && AdjacencyOf(g[..i], adj0)
    requires DegreesPlus(deg0, g[i].0, g[i].1, deg) && AdjacencyPlus(adj0, g[i].0, g[i].1, adj)
    ensures DegreesOf(g[..i + 1], deg) && AdjacencyOf(g[..i + 1], adj)
  {
    var seen := g[..i + 1];
    assert Front(seen) == g[..i] && Last(seen) == g[i];
    DegreesExtend(seen, deg0, deg);
    AdjacencyExtends(seen, adj0, adj);
  }

  /** First loops of `is_dag` and `execute_graph`. */
  method BuildDegrees(g: Connections) returns (adj: map<Node, seq<Node>>, deg: map<Node, int>)
    ensures DegreesOf(g, deg) && AdjacencyOf(g, adj)
  {
    adj, deg := map[], map[];
    for i := 0 to |g|
      invariant DegreesOf(g[..i], deg) && AdjacencyOf(g[..i], adj)
    {
      ghost var adj0, deg0 := adj, deg;
      adj, deg := AddTargets(g[i].0, g[i].1, adj, deg);
      OneMoreSource(g, i, adj0, deg0, adj, deg);
    }
    assert g[..|g|] == g;
  }

  ghost function Positive(deg: map<Node, int>): set<Node> {
    set v | v in deg && deg[v] > 0
  }

  /** After decrementing the counter of each of `ts`: the nodes whose counter reached zero
      are `added` once each, and no others. */
  ghost predicate Released(ts: seq<Node>, deg: map<Node, int>, deg': map<Node, int>, added: seq<Node>) {
    && deg'.Keys == deg.Keys
    && (forall v :: v in deg ==> deg'[v] == deg[v] - multiset(ts)[v])
    && NoDup(added) && SetOf(added) == Positive(deg) - Positive(deg')
  }

  lemma ReleaseOne(ts: seq<Node>, deg: map<Node, int>, deg': map<Node, int>, added: seq<Node>, t: Node)
    requires Released(ts, deg, deg', added) && t in deg
    ensures var deg'' := deg'[t := deg'[t] - 1];
            Released(ts + [t], deg, deg'', if deg''[t] == 0 then added + [t] else added)
  {
    var deg'' := deg'[t := deg'[t] - 1];
    assert multiset(ts + [t]) == multiset(ts) + multiset{t};
    AppendOne(added, t);
    assert t in added <==> t in SetOf(added);
    assert Positive(deg'') == if deg''[t] == 0 then Positive(deg') - {t} else Positive(deg');
  }

  lemma ReleasedMeasure(ts: seq<Node>, deg: map<Node, int>, deg': map<Node, int>, added: seq<Node>)
    requires Released(ts, deg, deg', added)
    ensures |added| + |Positive(deg')| == |Positive(deg)|
  {
    NoDupSize(added);
    assert Positive(deg') <= Positive(deg);
    assert Positive(deg) == Positive(deg') + (Positive(deg) - Positive(deg'));
  }

  /** The inner loop of both worklists: decrement each target and queue it when it reaches zero. */
  method Release(ts: seq<Node>, deg: map<Node, int>, queue: seq<Node>)
    returns (left: map<Node, int>, longer: seq<Node>, added: seq<Node>)
    requires forall t :: t in ts ==> t in deg
    ensures longer == queue + added && Released(ts, deg, left, added)
    ensures |added| + |Positive(left)| == |Positive(deg)|
  {
    left, longer, added := deg, queue, [];
    for k := 0 to |ts|
      invariant longer == queue + added && Released(ts[..k], deg, left, added)
    {
      var t := ts[k];
      assert ts[..k + 1] == ts[..k] + [t];
      assert t in deg;
      ReleaseOne(ts[..k], deg, left, added, t);
      left := left[t := left[t] - 1];
      if left[t] == 0 {
        longer, added := longer + [t], added + [t];
      }
    }
    assert ts[..|ts|] == ts;
    ReleasedMeasure(ts, deg, left, added);
  }

  // ------------------------------------------------------------------- is_dag

  /** What the worklist keeps, with `order` the nodes taken off the queue so far: a node's
      counter is the number of edges into it from nodes not yet visited, and the nodes whose
      counter is zero are exactly the visited and the queued ones. */
  ghost predicate KahnInvariant(g: Connections, deg: map<Node, int>, queue: seq<Node>, order: seq<Node>) {
    && NoDup(order + queue)
    && SetOf(order + queue) == deg.Keys - Positive(deg)
    && (forall v :: v in deg ==> deg[v] == Remaining(g, SetOf(order))[v])
    && PredecessorsFirst(EdgesOf(g), order)
  }

  method QueueOfZeros(deg: map<Node, int>) returns (queue: seq<Node>)
    requires forall v :: v in deg ==> deg[v] >= 0
    ensures NoDup(queue) && SetOf(queue) == deg.Keys - Positive(deg)
  {
    queue := [];
    var rest := deg.Keys;
    while rest != {}
      invariant rest <= deg.Keys
      invariant NoDup(queue) && SetOf(queue) == (deg.Keys - rest) - Positive(deg)
    {
      var v :| v in rest;
      if deg[v] == 0 {
        AppendOne(queue, v);
        assert v in SetOf(queue) <==> v in queue;
        queue := queue + [v];
      }
      rest := rest - {v};
    }
  }

  /** A node taken off the queue has no predecessor outside the nodes taken before it. */
  lemma QueuedIsReady(g: Connections, deg: map<Node, int>, queue: seq<Node>, order: seq<Node>)
    requires queue != [] && KahnInvariant(g, deg, queue, order)
    ensures queue[0] in deg && queue[0] !in SetOf(order)
    ensures forall x :: (x, queue[0]) in EdgesOf(g) ==> x in order
    ensures NoDup(order + [queue[0]])
  {
    var u := queue[0];
    assert (order + queue)[|order|] == u;
    assert u in SetOf(order + queue);
    Concatenation(order, queue);
    AppendOne(order, u);
    RemainingTarget(g, SetOf(order), u);
  }

  lemma AppendReady<T(!new)>(e: set<(T, T)>, order: seq<T>, u: T)
    requires PredecessorsFirst(e, order) && forall x :: (x, u) in e ==> x in order
    ensures PredecessorsFirst(e, order + [u])
  {
    var order' := order + [u];
    forall x, j | 0 <= j < |order'| && (x, order'[j]) in e ensures x in order'[..j] {
      assert order'[..j] == order[..j];
    }
  }

  lemma KahnStep(g: Connections, deg: map<Node, int>, queue: seq<Node>, order: seq<Node>,
                 deg': map<Node, int>, added: seq<Node>)
    requires queue != [] && KahnInvariant(g, deg, queue, order)
    requires Released(Targets(g, queue[0]), deg, deg', added)
    ensures KahnInvariant(g, deg', queue[1..] + added, order + [queue[0]])
  {
    var u, order' := queue[0], order + [queue[0]];
    QueuedIsReady(g, deg, queue, order);
    AppendReady(EdgesOf(g), order, u);
    assert order' + (queue[1..] + added) == (order + queue) + added;
    Concatenation(order + queue, added);
    KahnCounters(g, deg, order, u, deg', added);
    assert Positive(deg') <= Positive(deg);
  }

  lemma KahnCounters(g: Connections, deg: map<Node, int>, order: seq<Node>, u: Node, deg': map<Node, int>,
      added: seq<Node>)
    requires u !in SetOf(order) && Released(Targets(g, u), deg, deg', added)
    requires forall v :: v in deg ==> deg[v] == Remaining(g, SetOf(order))[v]
    ensures forall v :: v in deg' ==> deg'[v] == Remaining(g, SetOf(order + [u]))[v]
  {
    AppendOne(order, u);
    RemainingAfter(g, SetOf(order), u);
  }

  lemma KahnStuck(g: Connections, deg: map<Node, int>, order: seq<Node>) returns (c: seq<Node>)
    requires deg.Keys == NodesOf(g) && KahnInvariant(g, deg, [], order) && |order| != |deg.Keys|
    ensures IsCycle(EdgesOf(g), c)
  {
    assert order + [] == order;
    NoDupSize(order);
    var stuck := Positive(deg);
    EdgesWithinNodes(g);
    forall v | v in stuck ensures HasPredecessor(EdgesOf(g), stuck, v) {
      RemainingTarget(g, SetOf(order), v);
      var u :| u !in SetOf(order) && (u, v) in EdgesOf(g);
      assert u in stuck;
    }
    c := NoSourceMeansCycle(EdgesOf(g), stuck);
  }

  /** `is_dag`: true exactly when the multigraph has no directed cycle. */
  method IsDag(g: Connections) returns (dag: bool)
    ensures dag <==> Acyclic(EdgesOf(g))
  {
    var adj, deg := BuildDegrees(g);
    assert forall v :: v in deg ==> deg[v] == GetOr(deg, v, 0);
    var queue := QueueOfZeros(deg);
    var visitedCount := 0;
    ghost var order: seq<Node> := [];
    assert order + queue == queue;
    assert SetOf(order) == {};
    while queue != []
      invariant deg.Keys == NodesOf(g) && KahnInvariant(g, deg, queue, order) && visitedCount == |order|
      decreases |queue| + |Positive(deg)|
    {
      ghost var deg0, queue0 := deg, queue;
      var node := queue[0];
      visitedCount := visitedCount + 1;
      TargetsAreNodes(g, node);
      var added;
      deg, queue, added := Release(GetOr(adj, node, []), deg, queue[1..]);
      KahnStep(g, deg0, queue0, order, deg, added);
      order := order + [node];
    }
    dag := visitedCount == |deg|;
    KahnVerdict(g, deg, order);
  }

  lemma KahnVerdict(g: Connections, deg: map<Node, int>, order: seq<Node>)
    requires deg.Keys == NodesOf(g) && KahnInvariant(g, deg, [], order)
    ensures |order| == |deg| <==> Acyclic(EdgesOf(g))
  {
    assert |deg| == |deg.Keys|;
    if |order| == |deg.Keys| {
      assert order + [] == order;
      NoDupSize(order);
      EdgesWithinNodes(g);
      SubsetSize(SetOf(order), deg.Keys);
      TopologicalMeansAcyclic(EdgesOf(g), order);
    } else {
      var c := KahnStuck(g, deg, order);
    }
  }

  // ------------------------------------------------------------ execute_graph

  /** A function with one predecessor receives that output alone, otherwise the list. */
  datatype Input<+V> = One(v: V) | Many(vs: seq<V>)

  datatype Call<+V> = Call(id: Node, input: Input<V>)

  datatype Failure =
    | CyclicGraph
    | NotOneSource
    | FunctionMissing(id: Node)
    | ExecutorMissing(id: Node)
    | CallFailed(id: Node)

  datatype Outcome<+V> = Returned(value: V) | Raised(why: Failure)

  /** The registry of functions (id to executor URI) and the remote executors' answers. */
  datatype Executors<!V> = Executors(uri: map<Node, string>, answer: (string, Node, Input<V>) -> Option<V>)

  function InputOf<V>(vs: seq<V>): Input<V> {
    if |vs| == 1 then One(vs[0]) else Many(vs)
  }

  /** The inputs as collected by the scheduler: one per source that lists `id`, with a fallback
      for a source without an output. */
  function Gather<V>(g: Connections, id: Node, outputs: map<Node, V>, fallback: V): seq<V> {
    if g == [] then []
    else Gather(Front(g), id, outputs, fallback) +
         if id in Last(g).1 then [GetOr(outputs, Last(g).0, fallback)] else []
  }

  ghost predicate PredecessorsKnown<V>(g: Connections, id: Node, outputs: map<Node, V>) {
    forall u :: (u, id) in EdgesOf(g) ==> u in outputs
  }

  /** The dataflow inputs of `id`: the outputs of its predecessors, with no fallback. */
  ghost function Inputs<V>(g: Connections, id: Node, outputs: map<Node, V>): seq<V>
    requires PredecessorsKnown(g, id, outputs)
  {
    if g == [] then []
    else
      assert id in Last(g).1 ==> (Last(g).0, id) in EdgesOf(g);
      Inputs(Front(g), id, outputs) + if id in Last(g).1 then [outputs[Last(g).0]] else []
  }

  lemma {:induction false} GatherIsInputs<V>(g: Connections, id: Node, outputs: map<Node, V>, fallback: V)
    requires PredecessorsKnown(g, id, outputs)
    ensures Gather(g, id, outputs, fallback) == Inputs(g, id, outputs)
  {
    if g != [] {
      GatherIsInputs(Front(g), id, outputs, fallback);
      assert id in Last(g).1 ==> (Last(g).0, id) in EdgesOf(g);
    }
  }

  lemma {:induction false} NoInputs<V>(g: Connections, id: Node, outputs: map<Node, V>)
    requires PredecessorsKnown(g, id, outputs) && forall i :: 0 <= i < |g| ==> id !in g[i].1
    ensures Inputs(g, id, outputs) == []
  {
    if g != [] { NoInputs(Front(g), id, outputs); }
  }

  /** A function that one source lists receives the output of that source itself, and one that several
      sources list receives a list. */
  lemma {:induction false} OneInputOrList<V>(g: Connections, id: Node, outputs: map<Node, V>, i: nat)
    requires PredecessorsKnown(g, id, outputs) && i < |g| && id in g[i].1
    ensures Inputs(g, id, outputs) != []
    ensures (forall j :: 0 <= j < |g| && j != i ==> id !in g[j].1) ==>
              g[i].0 in outputs && InputOf(Inputs(g, id, outputs)) == One(outputs[g[i].0])
    ensures (exists j :: 0 <= j < |g| && j != i && id in g[j].1) ==> InputOf(Inputs(g, id, outputs)).Many?
  {
    assert id in Last(g).1 ==> (Last(g).0, id) in EdgesOf(g);
    if i < |g| - 1 {
      OneInputOrList(Front(g), id, outputs, i);
    } else if j :| 0 <= j < |g| && j != i && id in g[j].1 {
      OneInputOrList(Front(g), id, outputs, j);
    } else {
      NoInputs(Front(g), id, outputs);
    }
  }

  lemma {:induction false} InputsDependOnPredecessors<V>(g: Connections, id: Node, o1: map<Node, V>, o2: map<Node, V>)
    requires PredecessorsKnown(g, id, o1) && PredecessorsKnown(g, id, o2)
    requires forall u :: (u, id) in EdgesOf(g) ==> o1[u] == o2[u]
    ensures Inputs(g, id, o1) == Inputs(g, id, o2)
  {
    if g != [] {
      InputsDependOnPredecessors(Front(g), id, o1, o2);
      assert id in Last(g).1 ==> (Last(g).0, id) in EdgesOf(g);
    }
  }

  /** `outputs[id]` is what the executor of `id` answers on the outputs of its predecessors. */
  ghost predicate SolvesAt<V>(g: Connections, ex: Executors<V>, outputs: map<Node, V>, id: Node) {
    && id in outputs && PredecessorsKnown(g, id, outputs)
    && id in ex.uri && ex.uri[id] != ""
    && ex.answer(ex.uri[id], id, InputOf(Inputs(g, id, outputs))) == Some(outputs[id])
  }

  /** The dataflow equations hold at every node with an output. */
  ghost predicate Solves<V>(g: Connections, ex: Executors<V>, outputs: map<Node, V>) {
    forall id :: id in outputs ==> SolvesAt(g, ex, outputs, id)
  }

  /** The dataflow equations of an acyclic graph have at most one solution on given nodes. */
  lemma SolutionUnique<V>(g: Connections, ex: Executors<V>, o1: map<Node, V>, o2: map<Node, V>)
    requires Acyclic(EdgesOf(g)) && o1.Keys == o2.Keys
    requires Solves(g, ex, o1) && Solves(g, ex, o2)
    ensures o1 == o2
  {
    var order := TopologicalOrderExists(EdgesOf(g), o1.Keys);
    assert forall id :: id in o1 <==> id in SetOf(order);
    SolutionsAgree(g, ex, o1, o2, order);
  }

  ghost predicate AgreeOn<V>(ids: seq<Node>, o1: map<Node, V>, o2: map<Node, V>) {
    forall id :: id in ids ==> id in o1 && id in o2 && o1[id] == o2[id]
  }

  lemma {:induction false} SolutionsAgree<V>(g: Connections, ex: Executors<V>, o1: map<Node, V>, o2: map<Node, V>,
                                             order: seq<Node>)
    requires forall id :: id in order ==> id in o1 && id in o2
    requires Solves(g, ex, o1) && Solves(g, ex, o2)
    requires ReadyWithin(EdgesOf(g), o1.Keys, order)
    ensures AgreeOn(order, o1, o2)
  {
    if order != [] {
      var front, id := order[..|order| - 1], order[|order| - 1];
      assert order == front + [id];
      ReadyFront(EdgesOf(g), o1.Keys, front, id);
      SolutionsAgree(g, ex, o1, o2, front);
      AgreeOnOneMore(g, ex, o1, o2, front, id);
    }
  }

  lemma ReadyFront(e: set<(Node, Node)>, nodes: set<Node>, front: seq<Node>, id: Node)
    requires ReadyWithin(e, nodes, front + [id])
    ensures ReadyWithin(e, nodes, front) && forall u :: (u, id) in e && u in nodes ==> u in front
  {
    var order := front + [id];
    assert order[|front|] == id && order[..|front|] == front;
    assert forall j :: 0 <= j < |front| ==> front[j] == order[j] && front[..j] == order[..j];
  }

  lemma AgreeOnOneMore<V>(g: Connections, ex: Executors<V>, o1: map<Node, V>, o2: map<Node, V>, before: seq<Node>,
      id: Node)
    requires Solves(g, ex, o1) && Solves(g, ex, o2) && id in o1 && id in o2
    requires AgreeOn(before, o1, o2) && forall u :: (u, id) in EdgesOf(g) && u in o1 ==> u in before
    ensures AgreeOn(before + [id], o1, o2)
  {
    SolvedAt(g, ex, o1, id);
    SolvedAt(g, ex, o2, id);
    AgreeAt(g, ex, o1, o2, before, id);
  }

  lemma SolvedAt<V>(g: Connections, ex: Executors<V>, outputs: map<Node, V>, id: Node)
    requires Solves(g, ex, outputs) && id in outputs
    ensures SolvesAt(g, ex, outputs, id)
  {
  }

  lemma AgreeAt<V>(g: Connections, ex: Executors<V>, o1: map<Node, V>, o2: map<Node, V>, before: seq<Node>, id: Node)
    requires AgreeOn(before, o1, o2) && SolvesAt(g, ex, o1, id) && SolvesAt(g, ex, o2, id)
    requires forall u :: (u, id) in EdgesOf(g) && u in o1 ==> u in before
    ensures o1[id] == o2[id]
  {
    InputsDependOnPredecessors(g, id, o1, o2);
  }

  // ------------------------------------------------------------ why a run fails

  /** The inputs a failing call was made with lead to the failure reported. */
  ghost predicate Causes<V>(ex: Executors<V>, input: Input<V>, why: Failure) {
    match why
    case FunctionMissing(id) => id !in ex.uri
    case ExecutorMissing(id) => id in ex.uri && ex.uri[id] == ""
    case CallFailed(id) => id in ex.uri && ex.uri[id] != "" && ex.answer(ex.uri[id], id, input) == None
    case _ => false
  }

  ghost predicate IsAt(why: Failure, id: Node) {
    why in {FunctionMissing(id), ExecutorMissing(id), CallFailed(id)}
  }

  /** The run failed at a function that had not been called, on the outputs of its predecessors. */
  ghost predicate FailedInOrder<V>(g: Connections, ids: seq<Node>, ex: Executors<V>, outputs: map<Node, V>,
                                   why: Failure, id: Node)
  {
    && IsAt(why, id) && id in NodesOf(g) + SetOf(ids) && id !in outputs
    && PredecessorsKnown(g, id, outputs) && Causes(ex, InputOf(Inputs(g, id, outputs)), why)
  }

  /** The dataflow equations have a solution that covers every function. */
  ghost predicate Solvable<V(!new)>(g: Connections, ids: seq<Node>, ex: Executors<V>) {
    exists o: map<Node, V> :: o.Keys == NodesOf(g) + SetOf(ids) && Solves(g, ex, o)
  }

  /** What an orderly run has computed so far is part of every solution. */
  lemma RunIsPartOfSolution<V>(g: Connections, ex: Executors<V>, calls: seq<Call<V>>, outputs: map<Node, V>,
                               o: map<Node, V>)
    requires OrderlyRun(g, ex, calls, outputs) && Solves(g, ex, o) && outputs.Keys <= o.Keys
    ensures forall id :: id in outputs ==> outputs[id] == o[id]
  {
    var order := IdsOf(calls);
    forall id | id in order ensures id in outputs && id in o { assert id in SetOf(order); }
    SolutionsAgree(g, ex, outputs, o, order);
    forall id | id in outputs ensures outputs[id] == o[id] { assert id in SetOf(order); }
  }

  /** A run that fails shows that the equations have no solution. */
  lemma FailureMeansUnsolvable<V(!new)>(g: Connections, ids: seq<Node>, ex: Executors<V>, calls: seq<Call<V>>,
                                        outputs: map<Node, V>, why: Failure, id: Node)
    requires OrderlyRun(g, ex, calls, outputs) && outputs.Keys <= NodesOf(g) + SetOf(ids)
    requires FailedInOrder(g, ids, ex, outputs, why, id)
    ensures !Solvable(g, ids, ex)
  {
    if o: map<Node, V> :| o.Keys == NodesOf(g) + SetOf(ids) && Solves(g, ex, o) {
      assert SolvesAt(g, ex, o, id);
      RunIsPartOfSolution(g, ex, calls, outputs, o);
      InputsDependOnPredecessors(g, id, outputs, o);
      assert false;
    }
  }

  ghost function TargetSet(g: Connections): set<Node> {
    set e | e in EdgesOf(g) :: e.1
  }

  /** Every node without a predecessor is listed as a function, and listed once. */
  ghost predicate RootsListedOnce(g: Connections, ids: seq<Node>) {
    forall v :: v in NodesOf(g) + SetOf(ids) && v !in TargetSet(g) ==> multiset(ids)[v] == 1
  }

  ghost function IdsOf<V>(calls: seq<Call<V>>): seq<Node> {
    seq(|calls|, i requires 0 <= i < |calls| => calls[i].id)
  }

  /** The calls made so far form an orderly dataflow run: no function twice, predecessors first,
      and each called on exactly the outputs of its predecessors. */
  ghost predicate OrderlyRun<V>(g: Connections, ex: Executors<V>, calls: seq<Call<V>>, outputs: map<Node, V>) {
    && NoDup(IdsOf(calls)) && PredecessorsFirst(EdgesOf(g), IdsOf(calls))
    && outputs.Keys == SetOf(IdsOf(calls))
    && Solves(g, ex, outputs)
    && forall c :: c in calls ==> MadeOnInputs(g, ex, outputs, c)
  }

  ghost predicate MadeOnInputs<V>(g: Connections, ex: Executors<V>, outputs: map<Node, V>, c: Call<V>) {
    SolvesAt(g, ex, outputs, c.id) && c.input == InputOf(Inputs(g, c.id, outputs))
  }

  lemma OrderlyStep<V>(g: Connections, ex: Executors<V>, calls: seq<Call<V>>, outputs: map<Node, V>, c: Call<V>, v: V)
    requires OrderlyRun(g, ex, calls, outputs)
    requires c.id !in outputs && PredecessorsKnown(g, c.id, outputs)
    requires c.input == InputOf(Inputs(g, c.id, outputs))
    requires c.id in ex.uri && ex.uri[c.id] != "" && ex.answer(ex.uri[c.id], c.id, c.input) == Some(v)
    ensures OrderlyRun(g, ex, calls + [c], outputs[c.id := v])
    ensures IdsOf(calls + [c]) == IdsOf(calls) + [c.id]
  {
    OutputsFollowCalls(calls, outputs, c, v);
    AppendOne(IdsOf(calls), c.id);
    assert forall x :: x in outputs ==> x in SetOf(IdsOf(calls));
    AppendReady(EdgesOf(g), IdsOf(calls), c.id);
    SolutionsExtend(g, ex, outputs, c, v);
    CallsStay(g, ex, calls, outputs, c, v);
  }

  lemma CallsStay<V>(g: Connections, ex: Executors<V>, calls: seq<Call<V>>, outputs: map<Node, V>, c: Call<V>, v: V)
    requires forall made :: made in calls ==> MadeOnInputs(g, ex, outputs, made)
    requires c.id !in outputs && PredecessorsKnown(g, c.id, outputs)
    requires Solves(g, ex, outputs[c.id := v]) && c.input == InputOf(Inputs(g, c.id, outputs))
    ensures forall made :: made in calls + [c] ==> MadeOnInputs(g, ex, outputs[c.id := v], made)
  {
    forall made | made in calls + [c] ensures MadeOnInputs(g, ex, outputs[c.id := v], made) {
      if made in calls { assert MadeOnInputs(g, ex, outputs, made); }
      assert SolvesAt(g, ex, outputs[c.id := v], made.id);
      SolutionExtends(g, made.id, outputs, c.id, v);
    }
  }

  /** Another output leaves the equations that hold as they are, with the same inputs. */
  lemma SolutionsExtend<V>(g: Connections, ex: Executors<V>, outputs: map<Node, V>, c: Call<V>, v: V)
    requires Solves(g, ex, outputs) && c.id !in outputs && PredecessorsKnown(g, c.id, outputs)
    requires c.input == InputOf(Inputs(g, c.id, outputs))
    requires c.id in ex.uri && ex.uri[c.id] != "" && ex.answer(ex.uri[c.id], c.id, c.input) == Some(v)
    ensures Solves(g, ex, outputs[c.id := v])
  {
    var outputs' := outputs[c.id := v];
    forall id | id in outputs' ensures SolvesAt(g, ex, outputs', id) {
      if id != c.id { assert SolvesAt(g, ex, outputs, id); }
      SolutionExtends(g, id, outputs, c.id, v);
    }
  }

  lemma SolutionExtends<V>(g: Connections, id: Node, outputs: map<Node, V>, newNode: Node, v: V)
    requires PredecessorsKnown(g, id, outputs) && newNode !in outputs
    ensures PredecessorsKnown(g, id, outputs[newNode := v])
    ensures Inputs(g, id, outputs[newNode := v]) == Inputs(g, id, outputs)
  {
    InputsDependOnPredecessors(g, id, outputs, outputs[newNode := v]);
  }

  /** The loop that collects the inputs of one function. */
  method CollectInputs<V>(g: Connections, id: Node, outputs: map<Node, V>, fallback: V) returns (inputs: seq<V>)
    ensures inputs == Gather(g, id, outputs, fallback)
  {
    inputs := [];
    for i := 0 to |g|
      invariant inputs == Gather(g[..i], id, outputs, fallback)
    {
      assert Front(g[..i + 1]) == g[..i] && Last(g[..i + 1]) == g[i];
      if id in g[i].1 {
        inputs := inputs + [GetOr(outputs, g[i].0, fallback)];
      }
    }
    assert g[..|g|] == g;
  }

  /** One function call: registry lookup, executor lookup, inputs, remote call. */
  method CallFunction<V>(g: Connections, id: Node, outputs: map<Node, V>, inputData: V, ex: Executors<V>)
    returns (failure: Option<Failure>, input: Input<V>, answer: Option<V>)
    ensures input == InputOf(Gather(g, id, outputs, inputData))
    ensures failure == if id !in ex.uri then Some(FunctionMissing(id))
                       else if ex.uri[id] == "" then Some(ExecutorMissing(id))
                       else if ex.answer(ex.uri[id], id, input) == None then Some(CallFailed(id)) else None
    ensures failure == None ==> answer == ex.answer(ex.uri[id], id, input) && answer.Some?
  {
    failure, answer := None, None;
    var inputs := CollectInputs(g, id, outputs, inputData);
    input := InputOf(inputs);
    if id !in ex.uri {
      failure := Some(FunctionMissing(id));
    } else if ex.uri[id] == "" {
      failure := Some(ExecutorMissing(id));
    } else {
      answer := ex.answer(ex.uri[id], id, input);
      failure := if answer == None then Some(CallFailed(id)) else None;
    }
  }

  /** The counter table and queue after looking at `ids`. */
  ghost predicate Listed(g: Connections, ids: seq<Node>, deg: map<Node, int>, queue: seq<Node>) {
    && deg.Keys == NodesOf(g) + SetOf(ids)
    && (forall v :: v in deg ==> deg[v] == Remaining(g, {})[v])
    && forall v :: multiset(queue)[v] == if v in TargetSet(g) then 0 else multiset(ids)[v]
  }

  lemma UnknownHasNoDegree(g: Connections, deg: map<Node, int>, id: Node)
    requires NodesOf(g) <= deg.Keys
    ensures id !in deg ==> Remaining(g, {})[id] == 0
    ensures Remaining(g, {})[id] == 0 <==> id !in TargetSet(g)
  {
    NoTargetNoDegree(g, id);
    RemainingTarget(g, {}, id);
    EdgesWithinNodes(g);
  }

  lemma ListOne(g: Connections, ids: seq<Node>, deg: map<Node, int>, queue: seq<Node>, id: Node)
    requires Listed(g, ids, deg, queue)
    ensures var deg' := if id in deg then deg else deg[id := 0];
            Listed(g, ids + [id], deg', if deg'[id] == 0 then queue + [id] else queue)
  {
    UnknownHasNoDegree(g, deg, id);
    KnownOneMore(NodesOf(g), ids, Remaining(g, {}), deg, id);
    RootsCounted(TargetSet(g), ids, queue, id);
  }

  lemma KnownOneMore(nodes: set<Node>, ids: seq<Node>, degrees: multiset<Node>, deg: map<Node, int>, id: Node)
    requires deg.Keys == nodes + SetOf(ids) && (id !in deg ==> degrees[id] == 0)
    requires forall v :: v in deg ==> deg[v] == degrees[v]
    ensures var deg' := if id in deg then deg else deg[id := 0];
            deg'.Keys == nodes + SetOf(ids + [id]) && forall v :: v in deg' ==> deg'[v] == degrees[v]
  {
    AppendOne(ids, id);
  }

  lemma RootsCounted(targets: set<Node>, ids: seq<Node>, queue: seq<Node>, id: Node)
    requires forall v :: multiset(queue)[v] == if v in targets then 0 else multiset(ids)[v]
    ensures var queue' := if id in targets then queue else queue + [id];
            forall v :: multiset(queue')[v] == if v in targets then 0 else multiset(ids + [id])[v]
  {
    assert multiset(ids + [id]) == multiset(ids) + multiset{id};
    assert multiset(queue + [id]) == multiset(queue) + multiset{id};
  }

  lemma NoneListed(g: Connections, ids: seq<Node>, deg: map<Node, int>)
    requires DegreesOf(g, deg) && ids == []
    ensures Listed(g, ids, deg, [])
  {
    assert forall v :: v in deg ==> deg[v] == GetOr(deg, v, 0);
    assert SetOf(ids) == {};
  }

  /** Initial queue: the listed ids without a predecessor, in listing order; looking an unknown id
      up in the counter table inserts it with zero. */
  method InitialQueue(g: Connections, ids: seq<Node>, deg0: map<Node, int>)
    returns (deg: map<Node, int>, queue: seq<Node>)
    requires DegreesOf(g, deg0)
    ensures Listed(g, ids, deg, queue)
  {
    deg, queue := deg0, [];
    NoneListed(g, ids[..0], deg0);
    for i := 0 to |ids|
      invariant Listed(g, ids[..i], deg, queue)
    {
      assert ids[..i + 1] == ids[..i] + [ids[i]];
      ListOne(g, ids[..i], deg, queue, ids[i]);
      if ids[i] !in deg {
        deg := deg[ids[i] := 0];
      }
      if deg[ids[i]] == 0 {
        queue := queue + [ids[i]];
      }
    }
    assert ids[..|ids|] == ids;
  }

  lemma NoTargetNoDegree(g: Connections, v: Node)
    ensures Remaining(g, {})[v] == 0 <==> v !in TargetSet(g)
  {
    RemainingTarget(g, {}, v);
    if v in TargetSet(g) {
      var e :| e in EdgesOf(g) && e.1 == v;
      assert (e.0, v) in EdgesOf(g);
    }
    if u :| (u, v) in EdgesOf(g) { assert (u, v).1 in TargetSet(g); }
  }

  lemma CountedTwice<T>(s: seq<T>, i: nat, j: nat)
    requires i < j < |s| && s[i] == s[j]
    ensures multiset(s)[s[i]] >= 2
  {
    assert s == s[..i] + [s[i]] + s[i + 1..j] + [s[j]] + s[j + 1..];
  }

  lemma CountAtMostOne<T>(s: seq<T>)
    requires forall x :: x in s ==> multiset(s)[x] <= 1
    ensures NoDup(s)
  {
    forall i, j | 0 <= i < j < |s| ensures s[i] != s[j] {
      if s[i] == s[j] { CountedTwice(s, i, j); }
    }
  }

  lemma CountOfDistinct<T>(s: seq<T>, x: T)
    requires NoDup(s)
    ensures multiset(s)[x] == if x in s then 1 else 0
  {
    if x in s {
      var i :| 0 <= i < |s| && s[i] == x;
      assert s == s[..i] + [x] + s[i + 1..];
      assert x !in s[..i] && x !in s[i + 1..];
    }
  }

  /** With every root listed once the initial queue establishes the worklist invariant. */
  lemma InitialInvariant(g: Connections, ids: seq<Node>, deg: map<Node, int>, queue: seq<Node>)
    requires Listed(g, ids, deg, queue) && RootsListedOnce(g, ids)
    ensures KahnInvariant(g, deg, queue, [])
  {
    assert [] + queue == queue && SetOf<Node>([]) == {};
    QueuedOnce(g, ids, deg, queue);
    forall v | v in deg ensures v in queue <==> deg[v] == 0 {
      NoTargetNoDegree(g, v);
      assert v in queue <==> multiset(queue)[v] > 0;
    }
  }

  lemma QueuedOnce(g: Connections, ids: seq<Node>, deg: map<Node, int>, queue: seq<Node>)
    requires Listed(g, ids, deg, queue) && RootsListedOnce(g, ids)
    ensures NoDup(queue) && forall v :: v in queue ==> v in deg
  {
    forall v ensures v in queue ==> v in deg && multiset(queue)[v] <= 1 {
      if v in queue { assert multiset(queue)[v] > 0; assert v in SetOf(ids); }
    }
    CountAtMostOne(queue);
  }

  /** A node without predecessors is still to be called as often as it was listed. */
  ghost predicate RootsPending(g: Connections, ids: seq<Node>, order: seq<Node>, queue: seq<Node>) {
    forall v :: v !in TargetSet(g) ==> multiset(order + queue)[v] == multiset(ids)[v]
  }

  lemma RootsStep(g: Connections, ids: seq<Node>, order: seq<Node>, queue: seq<Node>, added: seq<Node>)
    requires queue != [] && RootsPending(g, ids, order, queue)
    requires forall t :: t in added ==> t in Targets(g, queue[0])
    ensures RootsPending(g, ids, order + [queue[0]], queue[1..] + added)
  {
    assert order + [queue[0]] + (queue[1..] + added) == (order + queue) + added;
    forall v | v !in TargetSet(g) ensures multiset(added)[v] == 0 {
      if v in added {
        EdgeIsTarget(g, queue[0], v);
      }
    }
  }

  lemma AddedAreTargets(ts: seq<Node>, deg: map<Node, int>, deg': map<Node, int>, added: seq<Node>)
    requires Released(ts, deg, deg', added)
    ensures forall t :: t in added ==> t in ts
  {
    forall t | t in added ensures t in ts {
      assert t in SetOf(added);
      assert multiset(ts)[t] > 0;
    }
  }

  /** What the worklist of `execute_graph` keeps. */
  ghost predicate WorklistInvariant<V>(g: Connections, ids: seq<Node>, ex: Executors<V>, deg: map<Node, int>,
                                       queue: seq<Node>, calls: seq<Call<V>>, outputs: map<Node, V>)
  {
    && deg.Keys == NodesOf(g) + SetOf(ids)
    && outputs.Keys == SetOf(IdsOf(calls))
    && AllKnown(deg, queue, outputs)
    && RootsPending(g, ids, IdsOf(calls), queue)
    && (RootsListedOnce(g, ids) ==> KahnInvariant(g, deg, queue, IdsOf(calls)) && OrderlyRun(g, ex, calls, outputs))
  }

  ghost predicate AllKnown<V>(deg: map<Node, int>, queue: seq<Node>, outputs: map<Node, V>) {
    outputs.Keys <= deg.Keys && forall v :: v in queue ==> v in deg
  }

  lemma StaysKnown<V>(ts: seq<Node>, deg: map<Node, int>, deg': map<Node, int>, queue: seq<Node>, added: seq<Node>,
                      outputs: map<Node, V>, v: V)
    requires queue != [] && AllKnown(deg, queue, outputs) && Released(ts, deg, deg', added)
    ensures AllKnown(deg', queue[1..] + added, outputs[queue[0] := v])
  {
    forall x | x in queue[1..] + added ensures x in deg' {
      if x in added { assert x in SetOf(added); }
    }
  }

  lemma WorklistStep<V>(g: Connections, ids: seq<Node>, ex: Executors<V>, deg: map<Node, int>,
                        queue: seq<Node>, calls: seq<Call<V>>, outputs: map<Node, V>,
                        inputData: V, v: V, deg': map<Node, int>, added: seq<Node>)
    requires queue != [] && WorklistInvariant(g, ids, ex, deg, queue, calls, outputs)
    requires Released(Targets(g, queue[0]), deg, deg', added)
    requires queue[0] in ex.uri && ex.uri[queue[0]] != ""
    requires ex.answer(ex.uri[queue[0]], queue[0], InputOf(Gather(g, queue[0], outputs, inputData))) == Some(v)
    ensures WorklistInvariant(g, ids, ex, deg', queue[1..] + added,
                              calls + [Call(queue[0], InputOf(Gather(g, queue[0], outputs, inputData)))],
                              outputs[queue[0] := v])
  {
    var c := Call(queue[0], InputOf(Gather(g, queue[0], outputs, inputData)));
    OutputsFollowCalls(calls, outputs, c, v);
    StaysKnown(Targets(g, queue[0]), deg, deg', queue, added, outputs, v);
    StillPending(g, ids, deg, IdsOf(calls), queue, deg', added);
    if RootsListedOnce(g, ids) { OrderlyCall(g, ex, deg, queue, calls, outputs, inputData, v, deg', added); }
  }

  lemma OutputsFollowCalls<V>(calls: seq<Call<V>>, outputs: map<Node, V>, c: Call<V>, v: V)
    requires outputs.Keys == SetOf(IdsOf(calls))
    ensures IdsOf(calls + [c]) == IdsOf(calls) + [c.id]
    ensures outputs[c.id := v].Keys == SetOf(IdsOf(calls + [c]))
  {
    assert IdsOf(calls + [c]) == IdsOf(calls) + [c.id];
    AppendOne(IdsOf(calls), c.id);
  }

  lemma StillPending(g: Connections, ids: seq<Node>, deg: map<Node, int>, order: seq<Node>, queue: seq<Node>,
                     deg': map<Node, int>, added: seq<Node>)
    requires queue != [] && RootsPending(g, ids, order, queue) && Released(Targets(g, queue[0]), deg, deg', added)
    ensures RootsPending(g, ids, order + [queue[0]], queue[1..] + added)
  {
    AddedAreTargets(Targets(g, queue[0]), deg, deg', added);
    RootsStep(g, ids, order, queue, added);
  }

  lemma OrderlyCall<V>(g: Connections, ex: Executors<V>, deg: map<Node, int>, queue: seq<Node>, calls: seq<Call<V>>,
                       outputs: map<Node, V>, inputData: V, v: V, deg': map<Node, int>, added: seq<Node>)
    requires queue != [] && KahnInvariant(g, deg, queue, IdsOf(calls)) && OrderlyRun(g, ex, calls, outputs)
    requires Released(Targets(g, queue[0]), deg, deg', added)
    requires queue[0] in ex.uri && ex.uri[queue[0]] != ""
    requires ex.answer(ex.uri[queue[0]], queue[0], InputOf(Gather(g, queue[0], outputs, inputData))) == Some(v)
    ensures var c := Call(queue[0], InputOf(Gather(g, queue[0], outputs, inputData)));
            && KahnInvariant(g, deg', queue[1..] + added, IdsOf(calls) + [queue[0]])
            && OrderlyRun(g, ex, calls + [c], outputs[queue[0] := v])
  {
    KahnStep(g, deg, queue, IdsOf(calls), deg', added);
    CallOnInputs(g, ex, deg, queue, calls, outputs, inputData);
    OrderlyStep(g, ex, calls, outputs, Call(queue[0], InputOf(Gather(g, queue[0], outputs, inputData))), v);
  }

  /** A queued node has not been called, its predecessors have, and so the fallback is not used. */
  lemma CallOnInputs<V>(g: Connections, ex: Executors<V>, deg: map<Node, int>, queue: seq<Node>, calls: seq<Call<V>>,
                        outputs: map<Node, V>, inputData: V)
    requires queue != [] && KahnInvariant(g, deg, queue, IdsOf(calls)) && outputs.Keys == SetOf(IdsOf(calls))
    ensures queue[0] !in outputs && PredecessorsKnown(g, queue[0], outputs)
    ensures Gather(g, queue[0], outputs, inputData) == Inputs(g, queue[0], outputs)
  {
    QueuedIsReady(g, deg, queue, IdsOf(calls));
    assert forall u :: u in IdsOf(calls) ==> u in SetOf(IdsOf(calls));
    GatherIsInputs(g, queue[0], outputs, inputData);
  }

  lemma WorklistDone<V>(g: Connections, ids: seq<Node>, ex: Executors<V>, deg: map<Node, int>,
                        calls: seq<Call<V>>, outputs: map<Node, V>)
    requires WorklistInvariant(g, ids, ex, deg, [], calls, outputs)
    requires RootsListedOnce(g, ids) && Acyclic(EdgesOf(g))
    ensures outputs.Keys == NodesOf(g) + SetOf(ids)
  {
    var order := IdsOf(calls);
    assert order + [] == order;
    var stuck := Positive(deg);
    if stuck != {} {
      forall v | v in stuck ensures HasPredecessor(EdgesOf(g), stuck, v) {
        RemainingTarget(g, SetOf(order), v);
        var u :| u !in SetOf(order) && (u, v) in EdgesOf(g);
        EdgesWithinNodes(g);
        assert u in stuck;
      }
      var c := NoSourceMeansCycle(EdgesOf(g), stuck);
      assert false;
    }
  }

  lemma InitialWorklist<V>(g: Connections, ids: seq<Node>, ex: Executors<V>, deg: map<Node, int>, queue: seq<Node>,
                           calls: seq<Call<V>>, outputs: map<Node, V>)
    requires Listed(g, ids, deg, queue) && calls == [] && outputs == map[]
    ensures WorklistInvariant(g, ids, ex, deg, queue, calls, outputs)
  {
    assert IdsOf(calls) == [] && [] + queue == queue;
    forall v | v in queue ensures v in deg {
      assert multiset(queue)[v] > 0;
      assert v in SetOf(ids);
    }
    if RootsListedOnce(g, ids) { InitialInvariant(g, ids, deg, queue); }
  }

  /** Whatever is listed how often: the function failed on the inputs collected for it. */
  ghost predicate FailedOn<V>(g: Connections, ex: Executors<V>, outputs: map<Node, V>, inputData: V, why: Failure,
                              id: Node)
  {
    IsAt(why, id) && Causes(ex, InputOf(Gather(g, id, outputs, inputData)), why)
  }

  lemma FailsInOrder<V>(g: Connections, ids: seq<Node>, ex: Executors<V>, deg: map<Node, int>, queue: seq<Node>,
                        calls: seq<Call<V>>, outputs: map<Node, V>, inputData: V, why: Failure)
    requires queue != [] && WorklistInvariant(g, ids, ex, deg, queue, calls, outputs) && RootsListedOnce(g, ids)
    requires FailedOn(g, ex, outputs, inputData, why, queue[0])
    ensures FailedInOrder(g, ids, ex, outputs, why, queue[0])
  {
    CallOnInputs(g, ex, deg, queue, calls, outputs, inputData);
  }

  /** The worklist of `execute_graph`. */
  method RunWorklist<V>(g: Connections, ids: seq<Node>, inputData: V, ex: Executors<V>)
    returns (failure: Option<Failure>, calls: seq<Call<V>>, outputs: map<Node, V>)
    ensures outputs.Keys == SetOf(IdsOf(calls))
    ensures RootsListedOnce(g, ids) ==> OrderlyRun(g, ex, calls, outputs)
    ensures failure == None ==> RootsPending(g, ids, IdsOf(calls), [])
    ensures failure == None && RootsListedOnce(g, ids) && Acyclic(EdgesOf(g)) ==>
            outputs.Keys == NodesOf(g) + SetOf(ids)
    // why a run fails
    ensures outputs.Keys <= NodesOf(g) + SetOf(ids)
    ensures failure.Some? ==> exists id :: FailedOn(g, ex, outputs, inputData, failure.value, id)
    ensures failure.Some? && RootsListedOnce(g, ids) ==>
              exists id :: FailedInOrder(g, ids, ex, outputs, failure.value, id)
  {
    var adj, deg := BuildDegrees(g);
    var queue;
    deg, queue := InitialQueue(g, ids, deg);
    failure, calls, outputs := None, [], map[];
    InitialWorklist(g, ids, ex, deg, queue, calls, outputs);
    while queue != []
      invariant failure == None && WorklistInvariant(g, ids, ex, deg, queue, calls, outputs)
      decreases |queue| + |Positive(deg)|
    {
      var id := queue[0];
      var input, answer;
      failure, input, answer := CallFunction(g, id, outputs, inputData, ex);
      if failure != None {
        assert FailedOn(g, ex, outputs, inputData, failure.value, id);
        if RootsListedOnce(g, ids) { FailsInOrder(g, ids, ex, deg, queue, calls, outputs, inputData, failure.value); }
        return;
      }
      ghost var deg0, queue0, calls0, outputs0 := deg, queue, calls, outputs;
      calls, outputs := calls + [Call(id, input)], outputs[id := answer.value];
      TargetsAreNodes(g, id);
      var added;
      deg, queue, added := Release(GetOr(adj, id, []), deg, queue[1..]);
      WorklistStep(g, ids, ex, deg0, queue0, calls0, outputs0, inputData, answer.value, deg, added);
    }
    if RootsListedOnce(g, ids) && Acyclic(EdgesOf(g)) { WorklistDone(g, ids, ex, deg, calls, outputs); }
  }

  ghost function Sources(g: Connections, ids: seq<Node>): set<Node> {
    SetOf(ids) - TargetSet(g)
  }

  method CollectTargets(g: Connections) returns (targets: set<Node>)
    ensures targets == TargetSet(g)
  {
    targets := {};
    for i := 0 to |g|
      invariant targets == TargetSet(g[..i])
    {
      assert Front(g[..i + 1]) == g[..i] && Last(g[..i + 1]) == g[i];
      TargetSetExtends(g[..i + 1]);
      targets := targets + set t | t in g[i].1;
    }
    assert g[..|g|] == g;
  }

  lemma TargetSetExtends(g: Connections)
    requires g != []
    ensures TargetSet(g) == TargetSet(Front(g)) + SetOf(Last(g).1)
  {
    forall t | t in Last(g).1 ensures t in TargetSet(g) {
      assert (Last(g).0, t) in EdgesOf(g) && (Last(g).0, t).1 == t;
    }
  }

  /** A listed function without predecessors has been called when the queue is empty. */
  lemma SourceIsCalled<V>(g: Connections, ids: seq<Node>, calls: seq<Call<V>>, v: Node)
    requires RootsPending(g, ids, IdsOf(calls), []) && v in Sources(g, ids)
    ensures v in SetOf(IdsOf(calls))
  {
    assert IdsOf(calls) + [] == IdsOf(calls);
    assert multiset(ids)[v] > 0;
  }

  /** `execute_graph` on a stored graph. The result, the calls in the order they were made, and
      the outputs collected so far. */
  method ExecuteGraph<V(!new)>(g: Connections, ids: seq<Node>, inputData: V, ex: Executors<V>)
    returns (result: Outcome<V>, calls: seq<Call<V>>, outputs: map<Node, V>)
    // the two admission checks
    ensures result == Raised(CyclicGraph) <==> !Acyclic(EdgesOf(g))
    ensures result == Raised(NotOneSource) <==> Acyclic(EdgesOf(g)) && |Sources(g, ids)| != 1
    ensures result in {Raised(CyclicGraph), Raised(NotOneSource)} ==> calls == []
    // a run: each call once, after its predecessors, on exactly their outputs
    ensures RootsListedOnce(g, ids) ==> OrderlyRun(g, ex, calls, outputs)
    // it returns exactly if the equations have a solution, and otherwise says what is wrong with which function
    ensures RootsListedOnce(g, ids) && Acyclic(EdgesOf(g)) && |Sources(g, ids)| == 1 ==>
              (result.Returned? <==> Solvable(g, ids, ex))
    ensures result.Returned? || result in {Raised(CyclicGraph), Raised(NotOneSource)} ||
            exists id :: FailedOn(g, ex, outputs, inputData, result.why, id)
    ensures result.Returned? || result in {Raised(CyclicGraph), Raised(NotOneSource)} || !RootsListedOnce(g, ids) ||
            exists id :: FailedInOrder(g, ids, ex, outputs, result.why, id)
    // a finished run covers every function, and returns the output of the single source
    ensures result.Returned? && RootsListedOnce(g, ids) ==> outputs.Keys == NodesOf(g) + SetOf(ids)
    ensures result.Returned? ==> exists s :: Sources(g, ids) == {s} && s in outputs && result.value == outputs[s]
    // a node without predecessors is called exactly as often as it is listed
    ensures result.Returned? ==> RootsPending(g, ids, IdsOf(calls), [])
  {
    calls, outputs := [], map[];
    var dag := IsDag(g);
    if !dag {
      return Raised(CyclicGraph), calls, outputs;
    }
    var targets := CollectTargets(g);
    var leafNodes := (set id | id in ids) - targets;
    assert leafNodes == Sources(g, ids);
    if |leafNodes| != 1 {
      return Raised(NotOneSource), calls, outputs;
    }
    var leafNode :| leafNode in leafNodes;
    SubsetSize({leafNode}, leafNodes);
    var failure;
    failure, calls, outputs := RunWorklist(g, ids, inputData, ex);
    if failure != None {
      if RootsListedOnce(g, ids) {
        ghost var id :| FailedInOrder(g, ids, ex, outputs, failure.value, id);
        FailureMeansUnsolvable(g, ids, ex, calls, outputs, failure.value, id);
      }
      return Raised(failure.value), calls, outputs;
    }
    SourceIsCalled(g, ids, calls, leafNode);
    return Returned(outputs[leafNode]), calls, outputs;
  }

  // ------------------------------------------------- what a finished run means

  /** Two finished runs of the same graph, whatever the order of their worklists and whatever
      their input data, produce the same outputs from the same calls. */
  lemma ExecutionDeterministic<V>(g: Connections, ids: seq<Node>, ex: Executors<V>,
                                  calls1: seq<Call<V>>, o1: map<Node, V>, calls2: seq<Call<V>>, o2: map<Node, V>)
    requires Acyclic(EdgesOf(g))
    requires OrderlyRun(g, ex, calls1, o1) && OrderlyRun(g, ex, calls2, o2)
    requires o1.Keys == NodesOf(g) + SetOf(ids) == o2.Keys
    ensures o1 == o2 && multiset(calls1) == multiset(calls2)
  {
    SolutionUnique(g, ex, o1, o2);
    forall c ensures multiset(calls1)[c] == multiset(calls2)[c] {
      CallCount(g, ex, calls1, o1, c);
      CallCount(g, ex, calls2, o2, c);
    }
  }

  lemma CallCount<V>(g: Connections, ex: Executors<V>, calls: seq<Call<V>>, outputs: map<Node, V>, c: Call<V>)
    requires OrderlyRun(g, ex, calls, outputs)
    ensures multiset(calls)[c] ==
            if MadeOnInputs(g, ex, outputs, c) then 1 else 0
  {
    assert forall i :: 0 <= i < |calls| ==> IdsOf(calls)[i] == calls[i].id;
    assert NoDup(calls);
    CountOfDistinct(calls, c);
    if MadeOnInputs(g, ex, outputs, c) {
      assert c.id in SetOf(IdsOf(calls));
      var i :| 0 <= i < |calls| && IdsOf(calls)[i] == c.id;
      assert calls[i] in calls && calls[i].id == c.id;
    } else {
      assert c !in calls;
    }
  }

  /** The caller's input data never reaches a function: a function without predecessors is
      called with the empty list, every other one with outputs of its predecessors. */
  lemma {:induction false} SourceReceivesNothing<V>(g: Connections, id: Node, outputs: map<Node, V>, inputData: V)
    requires id !in TargetSet(g)
    ensures InputOf(Gather(g, id, outputs, inputData)) == Many([])
  {
    if g != [] {
      TargetSetExtends(g);
      SourceReceivesNothing(Front(g), id, outputs, inputData);
    }
  }

  /** In a run that returned, every function was called exactly once if and only if every node
      without predecessors is listed, once. The premises are what `ExecuteGraph` ensures. */
  lemma CalledOnceIffListedOnce<V>(g: Connections, ids: seq<Node>, ex: Executors<V>, calls: seq<Call<V>>,
      outputs: map<Node, V>)
    requires RootsListedOnce(g, ids) ==> OrderlyRun(g, ex, calls, outputs) && outputs.Keys == NodesOf(g) + SetOf(ids)
    requires RootsPending(g, ids, IdsOf(calls), [])
    ensures (forall v :: v in NodesOf(g) + SetOf(ids) ==> multiset(IdsOf(calls))[v] == 1) <==> RootsListedOnce(g, ids)
  {
    assert IdsOf(calls) + [] == IdsOf(calls);
    if RootsListedOnce(g, ids) {
      forall v | v in NodesOf(g) + SetOf(ids) ensures multiset(IdsOf(calls))[v] == 1 {
        assert v in SetOf(IdsOf(calls));
        CountOfDistinct(IdsOf(calls), v);
      }
    }
  }
}
