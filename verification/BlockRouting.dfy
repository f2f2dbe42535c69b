/** Inference graphs: a logical graph of blocks is compiled to endpoints, the compiled graph
    travels with the packet, and every block forwards by looking itself up in it. */
module BlockRouting {
  import opened Digraph
  import opened Sequences
  import opened Wrappers

  type Block = string

  // --------------------------------------------------------------- compiling a graph

  /** The public gateway of a block's cluster, stored as one URL or a list of them. */
  datatype Gateways = OneUrl(url: string) | Urls(urls: seq<string>)

  datatype Registered = Registered(cluster: string, gateway: Gateways)

  datatype Item = Item(local: string, public: string, cluster: string)

  datatype Output = Output(host: string, port: nat, queue: string, block: Block)

  type Compiled = map<Block, seq<Output>>

  type Raw = map<Block, seq<Block>>

  /** The queue a block reads its packets from. */
  const INPUTS := "EXECUTOR_INPUTS"

  const SUFFIX := "-executor-svc.blocks.svc.cluster.local"

  function LocalHost(b: Block): string {
    b + SUFFIX
  }

  /** The block whose executor service listens at a cluster-local host. */
  function BlockAt(host: string): Block {
    if |host| >= |SUFFIX| then host[..|host| - |SUFFIX|] else host
  }

  /** The endpoints of a block; None when it is not registered or has no gateway. */
  function ItemOf(db: map<Block, Registered>, b: Block): Option<Item> {
    if b !in db then None
    else match db[b].gateway
      case OneUrl(url) => if url == "" then None else Some(Item(LocalHost(b), url, db[b].cluster))
      case Urls(urls) => if urls == [] then None else Some(Item(LocalHost(b), urls[0], db[b].cluster))
  }

  /** First occurrences only, in order. */
  function Dedup(bs: seq<Block>): seq<Block> {
    if bs == [] then []
    else Dedup(bs[..|bs| - 1]) + if bs[|bs| - 1] in bs[..|bs| - 1] then [] else [bs[|bs| - 1]]
  }

  lemma {:induction false} DedupKeeps(bs: seq<Block>)
    ensures NoDup(Dedup(bs)) && forall b :: b in Dedup(bs) <==> b in bs
  {
    if bs != [] {
      DedupKeeps(bs[..|bs| - 1]);
      AppendOne(Dedup(bs[..|bs| - 1]), bs[|bs| - 1]);
    }
  }

  /** Same cluster: the block's own queue; another cluster: its gateway, port 0. */
  function Endpoint(parent: Item, b: Block, child: Item): Output {
    if child.cluster == parent.cluster then Output(child.local, 6379, INPUTS, b)
    else Output(child.public, 0, INPUTS, b)
  }

  predicate AllKnown(db: map<Block, Registered>, bs: seq<Block>) {
    forall b :: b in bs ==> ItemOf(db, b).Some?
  }

  function OutputsOf(db: map<Block, Registered>, parent: Block, children: seq<Block>): Option<seq<Output>> {
    if ItemOf(db, parent) == None || !AllKnown(db, children) then None
    else
      DedupKeeps(children);
      var bs := Dedup(children);
      Some(seq(|bs|, i requires 0 <= i < |bs| => Endpoint(ItemOf(db, parent).value, bs[i], ItemOf(db, bs[i]).value)))
  }

  predicate AllResolvable(db: map<Block, Registered>, raw: Raw) {
    forall b :: b in raw ==> OutputsOf(db, b, raw[b]).Some?
  }

  function Resolved(db: map<Block, Registered>, raw: Raw): Option<Compiled> {
    if !AllResolvable(db, raw) then None
    else Some(map b | b in raw :: OutputsOf(db, b, raw[b]).value)
  }

  /** The block is registered with a gateway: one that is not the empty text, or a list that is not empty. */
  ghost predicate HasEndpoints(db: map<Block, Registered>, b: Block) {
    b in db && db[b].gateway != OneUrl("") && db[b].gateway != Urls([])
  }

  /** A graph resolves exactly if every block and every child in it is registered with a gateway; then
      it has the same blocks. */
  lemma ResolvesIffRegistered(db: map<Block, Registered>, raw: Raw)
    ensures Resolved(db, raw).Some? <==>
            forall b :: b in raw ==> HasEndpoints(db, b) && forall c :: c in raw[b] ==> HasEndpoints(db, c)
    ensures Resolved(db, raw).Some? ==> Resolved(db, raw).value.Keys == raw.Keys
  {
    forall b ensures ItemOf(db, b).Some? <==> HasEndpoints(db, b) {
      if b in db {
        match db[b].gateway
        case OneUrl(url) =>
        case Urls(urls) =>
      }
    }
    forall b | b in raw
      ensures OutputsOf(db, b, raw[b]).Some? <==>
              HasEndpoints(db, b) && forall c :: c in raw[b] ==> HasEndpoints(db, c)
    {
      assert AllKnown(db, raw[b]) <==> forall c :: c in raw[b] ==> HasEndpoints(db, c);
    }
  }

  /** The resolver with its cache of registry entries. */
  class GraphCache {
    const db: map<Block, Registered>
    var items: map<Block, Item>

    ghost predicate Valid()
      reads this
    {
      forall b :: b in items ==> ItemOf(db, b) == Some(items[b])
    }

    constructor (db: map<Block, Registered>)
      ensures Valid() && this.db == db
    {
      this.db := db;
      items := map[];
    }

    method Get(b: Block) returns (item: Option<Item>)
      requires Valid()
      modifies this
      ensures Valid() && item == ItemOf(db, b)
      ensures items == if item.Some? then old(items)[b := item.value] else old(items)
    {
      if b in items {
        return Some(items[b]);
      }
      item := ItemOf(db, b);
      if item.Some? {
        items := items[b := item.value];
      }
    }

    /** First loop of `resolve_outputs`: the child blocks, each once, all looked up. */
    method LookUpChildren(children: seq<Block>) returns (order: Option<seq<Block>>)
      requires Valid()
      modifies this
      ensures Valid() && order == if AllKnown(db, children) then Some(Dedup(children)) else None
    {
      var bs: seq<Block> := [];
      for i := 0 to |children|
        invariant Valid() && bs == Dedup(children[..i]) && AllKnown(db, children[..i])
      {
        var c := Get(children[i]);
        if c.None? {
          assert children[i] in children;
          return None;
        }
        assert children[..i + 1][..i] == children[..i] && children[..i + 1] == children[..i] + [children[i]];
        DedupKeeps(children[..i]);
        if children[i] !in bs {
          bs := bs + [children[i]];
        }
      }
      assert children[..|children|] == children;
      order := Some(bs);
    }

    /** `resolve_outputs`. */
    method ResolveOutputs(parent: Block, children: seq<Block>) returns (outputs: Option<seq<Output>>)
      requires Valid()
      modifies this
      ensures Valid() && outputs == OutputsOf(db, parent, children)
    {
      var p := Get(parent);
      if p.None? {
        return None;
      }
      var order := LookUpChildren(children);
      if order.None? {
        return None;
      }
      DedupKeeps(children);
      var outs: seq<Output> := [];
      for i := 0 to |order.value|
        invariant Valid() && |outs| == i && AllKnown(db, order.value)
        invariant forall k :: 0 <= k < i ==>
                  outs[k] == Endpoint(p.value, order.value[k], ItemOf(db, order.value[k]).value)
      {
        var c := Get(order.value[i]);
        outs := outs + [Endpoint(p.value, order.value[i], c.value)];
      }
      assert outs == OutputsOf(db, parent, children).value;
      outputs := Some(outs);
    }

    /** `resolve_graph`. */
    method ResolveGraph(raw: Raw) returns (g: Option<Compiled>)
      requires Valid()
      modifies this
      ensures Valid() && g == Resolved(db, raw)
    {
      var connections: Compiled := map[];
      var rest := raw.Keys;
      while rest != {}
        invariant Valid() && rest <= raw.Keys
        invariant connections.Keys == raw.Keys - rest
        invariant forall b :: b in connections ==> OutputsOf(db, b, raw[b]) == Some(connections[b])
      {
        var b :| b in rest;
        var outputs := ResolveOutputs(b, raw[b]);
        if outputs.None? {
          assert OutputsOf(db, b, raw[b]) == None;
          return None;
        }
        connections, rest := connections[b := outputs.value], rest - {b};
      }
      assert AllResolvable(db, raw);
      assert connections == Resolved(db, raw).value;
      g := Some(connections);
    }
  }

  // ------------------------------------------------------------- sending to an endpoint

  datatype Connection = ToQueue(host: string, port: nat) | ToGateway(block: Block, host: string)

  /** A sender's connections, keyed by host and port only. */
  type Connections = map<(string, nat), Connection>

  function NewConnection(block: Block, host: string, port: nat): Connection {
    if port == 0 then ToGateway(block, host) else ToQueue(host, port)
  }

  /** The block that receives what is pushed on a connection: a gateway goes by the block id the
      connection was opened with and ignores the queue; at a host, the block reads one queue, and any
      other one stands for itself. */
  function Receiver(c: Connection, queue: string): Block {
    match c
    case ToQueue(host, _) => if queue == INPUTS then BlockAt(host) else host + ":" + queue
    case ToGateway(block, _) => block
  }

  class ConnectionCache {
    const maxRetries: nat
    var cache: Connections

    constructor (maxRetries: nat)
      ensures cache == map[] && this.maxRetries == maxRetries
    {
      this.maxRetries := maxRetries;
      cache := map[];
    }

    /** `get`: a cached connection unless it is a dead queue connection, otherwise up to
        `maxRetries` attempts to open one. */
    method Get(block: Block, host: string, port: nat, alive: bool, connects: nat -> bool)
      returns (c: Option<Connection>)
      modifies this
      ensures (host, port) in old(cache) && (port == 0 || alive) ==>
                c == Some(old(cache)[(host, port)]) && cache == old(cache)
      ensures !((host, port) in old(cache) && (port == 0 || alive)) ==>
                if exists n :: 1 <= n <= maxRetries && connects(n)
                then c == Some(NewConnection(block, host, port)) && cache == old(cache)[(host, port) := c.value]
                else c == None && cache == old(cache) - {(host, port)}
    {
      var key := (host, port);
      if key in cache {
        if port == 0 || alive {
          return Some(cache[key]);
        }
        cache := cache - {key};
      }
      var attempt := 1;
      while attempt <= maxRetries
        invariant 1 <= attempt <= maxRetries + 1 && cache == old(cache) - {key}
        invariant forall n :: 1 <= n < attempt ==> !connects(n)
      {
        if connects(attempt) {
          cache := cache[key := NewConnection(block, host, port)];
          return Some(cache[key]);
        }
        attempt := attempt + 1;
      }
      c := None;
    }

    /** The push loop of a block, when no connection fails: the blocks that receive a copy. */
    method PushAll(outs: seq<Output>) returns (receivers: seq<Block>)
      requires maxRetries >= 1
      modifies this
      ensures (receivers, cache) == SendAll(old(cache), outs)
    {
      receivers := [];
      for i := 0 to |outs|
        invariant (receivers, cache) == SendAll(old(cache), outs[..i])
      {
        assert outs[..i + 1][..i] == outs[..i];
        var connects := (n: nat) => true;
        assert connects(1);
        var c := Get(outs[i].block, outs[i].host, outs[i].port, true, connects);
        receivers := receivers + [Receiver(c.value, outs[i].queue)];
      }
      assert outs[..|outs|] == outs;
    }

    /** The routing part of `listen_for_jobs_now`: the block looks itself up in the packet's graph,
        and falls back on the final endpoints when it has no outputs there. */
    method Route(pg: Compiled, b: Block) returns (toFinal: bool, receivers: seq<Block>)
      requires maxRetries >= 1 && "final" in pg
      modifies this
      ensures toFinal <==> b !in pg || pg[b] == []
      ensures (receivers, cache) == SendAll(old(cache), if toFinal then pg["final"] else pg[b])
    {
      var outputs: seq<Output> := if b in pg then pg[b] else [];
      toFinal := |outputs| == 0;
      if toFinal {
        outputs := pg["final"];
      }
      receivers := PushAll(outputs);
    }
  }

  /** Fault-free sending to one endpoint: the receiving block, and the connections afterwards. */
  function Send(cache: Connections, o: Output): (Block, Connections) {
    var key := (o.host, o.port);
    if key in cache then (Receiver(cache[key], o.queue), cache)
    else
      var c := NewConnection(o.block, o.host, o.port);
      (Receiver(c, o.queue), cache[key := c])
  }

  function SendAll(cache: Connections, outs: seq<Output>): (seq<Block>, Connections) {
    if outs == [] then ([], cache)
    else
      var (bs, c) := SendAll(cache, outs[..|outs| - 1]);
      var (b, c') := Send(c, outs[|outs| - 1]);
      (bs + [b], c')
  }

  /** The gateway hosts a sender addresses, each with the blocks it addresses through it. */
  ghost predicate OneBlockPerGateway(uses: set<(string, Block)>) {
    forall h, b, c :: (h, b) in uses && (h, c) in uses ==> b == c
  }

  ghost predicate GatewayWithin(o: Output, uses: set<(string, Block)>) {
    if o.port == 0 then (o.host, o.block) in uses else o.host == LocalHost(o.block) && o.queue == INPUTS
  }

  ghost predicate SoundCache(cache: Connections, uses: set<(string, Block)>) {
    forall h, p :: (h, p) in cache ==>
      if p == 0 then cache[(h, p)].ToGateway? && (h, cache[(h, p)].block) in uses
      else cache[(h, p)] == ToQueue(h, p)
  }

  lemma {:induction false} SentToIntended(cache: Connections, outs: seq<Output>, uses: set<(string, Block)>)
    requires SoundCache(cache, uses) && OneBlockPerGateway(uses)
    requires forall i :: 0 <= i < |outs| ==> GatewayWithin(outs[i], uses)
    ensures SoundCache(SendAll(cache, outs).1, uses)
    ensures |SendAll(cache, outs).0| == |outs|
    ensures forall i :: 0 <= i < |outs| ==> SendAll(cache, outs).0[i] == outs[i].block
  {
    if outs != [] {
      SentToIntended(cache, outs[..|outs| - 1], uses);
      var c, o := SendAll(cache, outs[..|outs| - 1]).1, outs[|outs| - 1];
      assert BlockAt(LocalHost(o.block)) == o.block;
    }
  }

  ghost predicate Bound(outs: seq<Output>, h: string, b: Block) {
    exists i :: 0 <= i < |outs| && outs[i].port == 0 && outs[i].host == h && outs[i].block == b &&
      forall k :: 0 <= k < i ==> !(outs[k].port == 0 && outs[k].host == h)
  }

  /** Each gateway connection goes to the block first sent to through its host, and so did every
      packet sent through it. */
  ghost predicate FirstUses(outs: seq<Output>, bs: seq<Block>, cache: Connections) {
    && |bs| == |outs|
    && (forall h :: (h, 0) in cache ==> cache[(h, 0)].ToGateway? && Bound(outs, h, cache[(h, 0)].block))
    && forall i :: 0 <= i < |outs| && outs[i].port == 0 ==>
         (outs[i].host, 0) in cache && bs[i] == Receiver(cache[(outs[i].host, 0)], outs[i].queue)
  }

  lemma BoundExtends(outs: seq<Output>, o: Output, h: string, b: Block)
    requires Bound(outs, h, b)
    ensures Bound(outs + [o], h, b)
  {
    var i :| 0 <= i < |outs| && outs[i].port == 0 && outs[i].host == h && outs[i].block == b &&
      forall k :: 0 <= k < i ==> !(outs[k].port == 0 && outs[k].host == h);
    assert (outs + [o])[i] == outs[i];
  }

  lemma FirstUsesExtend(outs: seq<Output>, bs: seq<Block>, cache: Connections, o: Output)
    requires FirstUses(outs, bs, cache)
    ensures FirstUses(outs + [o], bs + [Send(cache, o).0], Send(cache, o).1)
  {
    var outs', cache' := outs + [o], Send(cache, o).1;
    forall h | (h, 0) in cache' ensures cache'[(h, 0)].ToGateway? && Bound(outs', h, cache'[(h, 0)].block) {
      if (h, 0) in cache {
        BoundExtends(outs, o, h, cache[(h, 0)].block);
      } else {
        assert outs'[|outs|] == o;
        assert forall k :: 0 <= k < |outs| ==> outs'[k] == outs[k];
      }
    }
  }

  /** From an empty cache a gateway host stays bound to the first block sent to through it. */
  lemma {:induction false} FirstUseBinds(outs: seq<Output>)
    ensures FirstUses(outs, SendAll(map[], outs).0, SendAll(map[], outs).1)
  {
    if outs != [] {
      FirstUseBinds(outs[..|outs| - 1]);
      var (bs, cache) := SendAll(map[], outs[..|outs| - 1]);
      FirstUsesExtend(outs[..|outs| - 1], bs, cache, outs[|outs| - 1]);
      assert outs == outs[..|outs| - 1] + [outs[|outs| - 1]];
    }
  }

  /** Connections are kept and opened as needed: what is in the cache stays, and every endpoint sent to is in it. */
  lemma {:induction false} ConnectionsStay(cache: Connections, outs: seq<Output>)
    ensures var after := SendAll(cache, outs).1;
            && (forall key :: key in cache ==> key in after && after[key] == cache[key])
            && forall key :: key in after <==> key in cache || exists o :: o in outs && key == (o.host, o.port)
  {
    if outs != [] {
      var front, last := outs[..|outs| - 1], outs[|outs| - 1];
      ConnectionsStay(cache, front);
      assert outs == front + [last];
    }
  }

  /** No two blocks are addressed through one gateway host. */
  ghost predicate HostsApart(outs: seq<Output>) {
    forall i, j :: 0 <= i < |outs| && 0 <= j < |outs| ==>
      outs[i].port == 0 == outs[j].port && outs[i].host == outs[j].host ==> outs[i].block == outs[j].block
  }

  /** A sender delivers all its gateway packets to the intended blocks if and only if it never uses
      one gateway host for two blocks. */
  lemma GatewayDeliveryExact(outs: seq<Output>)
    ensures |SendAll(map[], outs).0| == |outs|
    ensures (forall i :: 0 <= i < |outs| && outs[i].port == 0 ==> SendAll(map[], outs).0[i] == outs[i].block) <==>
            HostsApart(outs)
  {
    FirstUseBinds(outs);
    var bs, cache := SendAll(map[], outs).0, SendAll(map[], outs).1;
    if HostsApart(outs) {
      forall i | 0 <= i < |outs| && outs[i].port == 0 ensures bs[i] == outs[i].block {
        assert Bound(outs, outs[i].host, cache[(outs[i].host, 0)].block);
      }
    }
  }

  /** Two blocks behind one gateway host: what is meant for the second goes to the first. */
  lemma SharedHostMisdelivers(queue: string)
    ensures SendAll(map[], [Output("gw", 0, queue, "x"), Output("gw", 0, queue, "y")]).0 == ["x", "x"]
  {
    var x, y := Output("gw", 0, queue, "x"), Output("gw", 0, queue, "y");
    assert [x, y][..1] == [x] && [x][..0] == [];
    assert SendAll(map[], []) == ([], map[]);
    assert SendAll(map[], [x]) == ([] + ["x"], map[("gw", 0) := ToGateway("x", "gw")]);
  }

  // ------------------------------------------------------- packets travelling the graph

  /** The blocks a packet has visited, in order; the last one holds it. */
  type Trace = seq<Block>

  /** Packets waiting at blocks, packets already processed, packets on the final queue, and every
      block's connections, which outlive the request. */
  datatype Net = Net(inflight: seq<Trace>, processed: seq<Trace>, final: seq<Trace>, conns: map<Block, Connections>)

  function At(t: Trace): Block
    requires t != []
  {
    t[|t| - 1]
  }

  function ConnectionsOf(net: Net, b: Block): Connections {
    if b in net.conns then net.conns[b] else map[]
  }

  function Extend(t: Trace, bs: seq<Block>): seq<Trace> {
    seq(|bs|, i requires 0 <= i < |bs| => t + [bs[i]])
  }

  /** The graph in a packet: the compiled graph with the reply endpoints stored under "final". */
  function PacketGraph(g: Compiled, reply: seq<Output>): Compiled {
    g["final" := reply]
  }

  /** The routing part of `listen_for_jobs_now` for one waiting packet: the block looks itself up;
      without outputs a copy goes to each final endpoint, otherwise to each output. */
  function Forward(pg: Compiled, net: Net, i: nat): Net
    requires i < |net.inflight| && net.inflight[i] != [] && "final" in pg
  {
    var t := net.inflight[i];
    var outs := if At(t) in pg then pg[At(t)] else [];
    var rest := net.inflight[..i] + net.inflight[i + 1..];
    if outs == [] then
      net.(inflight := rest, processed := net.processed + [t], final := net.final + seq(|pg["final"]|, _ => t))
    else
      var (bs, cache) := SendAll(ConnectionsOf(net, At(t)), outs);
      net.(inflight := rest + Extend(t, bs), processed := net.processed + [t], conns := net.conns[At(t) := cache])
  }

  /** A block keeps the connections it has when it forwards a packet, and the other blocks keep theirs. */
  lemma ForwardKeepsConnections(pg: Compiled, net: Net, i: nat)
    requires i < |net.inflight| && net.inflight[i] != [] && "final" in pg
    ensures var after := Forward(pg, net, i);
            forall b, key :: b in net.conns && key in net.conns[b] ==>
              b in after.conns && key in after.conns[b] && after.conns[b][key] == net.conns[b][key]
  {
    var b := At(net.inflight[i]);
    if b in pg { ConnectionsStay(ConnectionsOf(net, b), pg[b]); }
  }

  ghost function EdgesOf(raw: Raw): set<(Block, Block)> {
    set b, c | b in raw && c in raw[b] :: (b, c)
  }

  ghost predicate Sink(e: set<(Block, Block)>, b: Block) {
    forall c :: (b, c) !in e
  }

  /** A path from the entry to a block without children. */
  ghost predicate CompletePath(e: set<(Block, Block)>, entry: Block, t: Trace) {
    WalkFrom(e, entry, t) && Sink(e, At(t))
  }

  ghost function Uses(outs: seq<Output>): set<(string, Block)> {
    set o | o in outs && o.port == 0 :: (o.host, o.block)
  }

  /** No block addresses two blocks through one gateway host, now or in its earlier connections. */
  ghost predicate GatewaysApart(g: Compiled, conns: map<Block, Connections>, uses: map<Block, set<(string, Block)>>) {
    && (forall b :: b in g ==> b in uses && Uses(g[b]) <= uses[b])
    && (forall b :: b in uses ==> OneBlockPerGateway(uses[b]))
    && (forall b :: b in conns ==> b in uses && SoundCache(conns[b], uses[b]))
  }

  ghost predicate Seen(net: Net, t: Trace) {
    t in net.processed + net.inflight
  }

  /** Each walk from the entry is met at most once, and only after its beginnings. */
  ghost predicate WalksOnce(e: set<(Block, Block)>, entry: Block, net: Net) {
    && NoDup(net.processed + net.inflight)
    && Seen(net, [entry])
    && forall t :: Seen(net, t) ==> WalkFrom(e, entry, t) && (|t| > 1 ==> t[..|t| - 1] in net.processed)
  }

  ghost predicate Extended(net: Net, t: Trace, c: Block) {
    Seen(net, t + [c])
  }

  /** Every extension of a processed walk has been sent. */
  ghost predicate ExtensionsSent(e: set<(Block, Block)>, net: Net) {
    forall t, c {:trigger Extended(net, t, c)} :: t in net.processed && t != [] && (At(t), c) in e ==>
        Extended(net, t, c)
  }

  /** The final queue holds the processed walks that end at a sink, each once. */
  ghost predicate FinalExact(e: set<(Block, Block)>, net: Net) {
    NoDup(net.final) && forall t {:trigger t in net.final} ::
      t in net.final <==> t in net.processed && t != [] && Sink(e, At(t))
  }

  /** What every schedule keeps. */
  ghost predicate Unfolding(e: set<(Block, Block)>, entry: Block, net: Net) {
    WalksOnce(e, entry, net) && ExtensionsSent(e, net) && FinalExact(e, net)
  }

  /** One packet processed towards the blocks `bs`, with its trace recorded. */
  ghost function Processed(net: Net, i: nat, bs: seq<Block>): Net
    requires i < |net.inflight| && net.inflight[i] != []
  {
    var t := net.inflight[i];
    net.(inflight := net.inflight[..i] + net.inflight[i + 1..] + Extend(t, bs), processed := net.processed + [t],
         final := if bs == [] then net.final + [t] else net.final)
  }

  lemma InExtend(t: Trace, bs: seq<Block>, x: Trace)
    ensures x in Extend(t, bs) <==> x != [] && x[..|x| - 1] == t && At(x) in bs
    ensures NoDup(bs) ==> NoDup(Extend(t, bs))
  {
    if x != [] && x[..|x| - 1] == t && At(x) in bs {
      var k :| 0 <= k < |bs| && bs[k] == At(x);
      assert Extend(t, bs)[k] == x;
    }
    if x in Extend(t, bs) {
      var k :| 0 <= k < |bs| && Extend(t, bs)[k] == x;
      assert x == t + [bs[k]];
    }
    forall k, l | NoDup(bs) && 0 <= k < l < |bs| ensures Extend(t, bs)[k] != Extend(t, bs)[l] {
      assert At(t + [bs[k]]) == bs[k] && At(t + [bs[l]]) == bs[l];
    }
  }

  lemma SeenAfter(net: Net, i: nat, bs: seq<Block>)
    requires i < |net.inflight| && net.inflight[i] != []
    requires NoDup(net.processed + net.inflight) && NoDup(bs)
    requires forall x :: x in Extend(net.inflight[i], bs) ==> !Seen(net, x)
    ensures var net' := Processed(net, i, bs);
            && NoDup(net'.processed + net'.inflight)
            && (forall x :: Seen(net', x) <==> Seen(net, x) || x in Extend(net.inflight[i], bs))
            && (forall x :: x in net'.processed <==> x in net.processed || x == net.inflight[i])
  {
    var t, more := net.inflight[i], Extend(net.inflight[i], bs);
    var before, after := net.inflight[..i], net.inflight[i + 1..];
    assert net.inflight == before + [t] + after;
    var net' := Processed(net, i, bs);
    InExtend(t, bs, []);
    Concatenation(net.processed, net.inflight);
    Concatenation(before + [t], after);
    Concatenation(before, [t]);
    assert net'.processed + net'.inflight == (net.processed + [t]) + ((before + after) + more);
    Concatenation(net.processed, [t]);
    Concatenation(before, after);
    Concatenation(before + after, more);
    Concatenation(net.processed + [t], (before + after) + more);
    assert t in SetOf([t]) && forall x :: x in more ==> x !in SetOf(net.processed) && x !in SetOf(net.inflight);
  }

  lemma WaitingIsNew(e: set<(Block, Block)>, entry: Block, net: Net, i: nat, bs: seq<Block>)
    requires WalksOnce(e, entry, net) && i < |net.inflight| && net.inflight[i] != []
    requires forall c :: c in bs <==> (At(net.inflight[i]), c) in e
    ensures Seen(net, net.inflight[i]) && net.inflight[i] !in net.processed
    ensures forall x :: x in Extend(net.inflight[i], bs) ==> !Seen(net, x) && WalkFrom(e, entry, x)
  {
    var t := net.inflight[i];
    assert (net.processed + net.inflight)[|net.processed| + i] == t;
    Concatenation(net.processed, net.inflight);
    assert t in SetOf(net.inflight);
    forall x | x in Extend(t, bs) ensures !Seen(net, x) && WalkFrom(e, entry, x) {
      InExtend(t, bs, x);
      assert WalkFrom(e, entry, t);
      forall k | 0 <= k < |x| - 1 ensures (x[k], x[k + 1]) in e {
        if k < |t| - 1 { assert (t[k], t[k + 1]) in e && x[..|x| - 1][k] == x[k] && x[..|x| - 1][k + 1] == x[k + 1]; }
        else { assert x[..|x| - 1][k] == x[k]; }
      }
    }
  }

  lemma WalksOnceStep(e: set<(Block, Block)>, entry: Block, net: Net, i: nat, bs: seq<Block>)
    requires WalksOnce(e, entry, net) && i < |net.inflight| && net.inflight[i] != []
    requires NoDup(bs) && forall c :: c in bs <==> (At(net.inflight[i]), c) in e
    ensures WalksOnce(e, entry, Processed(net, i, bs))
  {
    WaitingIsNew(e, entry, net, i, bs);
    SeenAfter(net, i, bs);
    forall x | x in Extend(net.inflight[i], bs)
      ensures x[..|x| - 1] == net.inflight[i]
    {
      InExtend(net.inflight[i], bs, x);
    }
  }

  lemma ExtensionsStep(e: set<(Block, Block)>, entry: Block, net: Net, i: nat, bs: seq<Block>)
    requires WalksOnce(e, entry, net) && ExtensionsSent(e, net) && i < |net.inflight| && net.inflight[i] != []
    requires NoDup(bs) && forall c :: c in bs <==> (At(net.inflight[i]), c) in e
    ensures ExtensionsSent(e, Processed(net, i, bs))
  {
    var t, net' := net.inflight[i], Processed(net, i, bs);
    WaitingIsNew(e, entry, net, i, bs);
    SeenAfter(net, i, bs);
    forall u, c | u in net'.processed && u != [] && (At(u), c) in e ensures Extended(net', u, c) {
      if u in net.processed {
        assert Extended(net, u, c);
      } else {
        ExtensionIsSent(t, bs, c);
      }
    }
  }

  lemma ExtensionIsSent(t: Trace, bs: seq<Block>, c: Block)
    requires c in bs
    ensures t + [c] in Extend(t, bs)
  {
    assert (t + [c])[..|t + [c]| - 1] == t;
    InExtend(t, bs, t + [c]);
  }

  lemma FinalStep(e: set<(Block, Block)>, entry: Block, net: Net, i: nat, bs: seq<Block>)
    requires WalksOnce(e, entry, net) && FinalExact(e, net) && i < |net.inflight| && net.inflight[i] != []
    requires forall c :: c in bs <==> (At(net.inflight[i]), c) in e
    ensures FinalExact(e, Processed(net, i, bs))
  {
    WaitingIsNew(e, entry, net, i, bs);
    AppendOne(net.final, net.inflight[i]);
    assert bs == [] <==> Sink(e, At(net.inflight[i])) by {
      if bs != [] { assert bs[0] in bs; }
    }
  }

  // ------------------------------------------------------------------ every schedule

  /** The request: a graph of registered blocks, none called "final", one reply endpoint, no cycle,
      and no block that addresses two blocks through one gateway host. */
  ghost predicate Routable(db: map<Block, Registered>, raw: Raw, g: Compiled, reply: seq<Output>,
                           conns: map<Block, Connections>, uses: map<Block, set<(string, Block)>>) {
    && Resolved(db, raw) == Some(g) && |reply| == 1
    && Acyclic(EdgesOf(raw))
    && "final" !in raw && (forall b, c :: (b, c) in EdgesOf(raw) ==> c != "final")
    && GatewaysApart(g, conns, uses)
  }

  /** A compiled block's outputs are its children, each once, addressed where they can be reached. */
  lemma OutputsAreChildren(db: map<Block, Registered>, raw: Raw, g: Compiled, b: Block)
    requires Resolved(db, raw) == Some(g) && b in raw
    ensures |g[b]| == |Dedup(raw[b])| && forall k :: 0 <= k < |g[b]| ==> g[b][k].block == Dedup(raw[b])[k]
    ensures forall k :: 0 <= k < |g[b]| ==> GatewayWithin(g[b][k], Uses(g[b])) && g[b][k].queue == INPUTS
    ensures NoDup(Dedup(raw[b])) && forall c :: c in Dedup(raw[b]) <==> (b, c) in EdgesOf(raw)
  {
    DedupKeeps(raw[b]);
    assert OutputsOf(db, b, raw[b]) == Some(g[b]);
    forall k | 0 <= k < |g[b]| ensures GatewayWithin(g[b][k], Uses(g[b])) {
      if g[b][k].port == 0 { assert g[b][k] in g[b]; }
    }
  }

  /** A block hands its packet to exactly the blocks its outputs are meant for. */
  lemma HandedToIntended(g: Compiled, net: Net, uses: map<Block, set<(string, Block)>>, b: Block, bs: seq<Block>)
    requires GatewaysApart(g, net.conns, uses) && b in g && |bs| == |g[b]|
    requires forall k :: 0 <= k < |g[b]| ==> GatewayWithin(g[b][k], Uses(g[b])) && g[b][k].block == bs[k]
    ensures SendAll(ConnectionsOf(net, b), g[b]).0 == bs
    ensures GatewaysApart(g, net.conns[b := SendAll(ConnectionsOf(net, b), g[b]).1], uses)
  {
    assert forall k :: 0 <= k < |g[b]| ==> GatewayWithin(g[b][k], uses[b]);
    SentToIntended(ConnectionsOf(net, b), g[b], uses[b]);
  }

  /** One forwarding step sends the packet to exactly the children of its block, or to the reply
      queue when there are none, and leaves the connections sound. */
  lemma ForwardIsProcessed(db: map<Block, Registered>, raw: Raw, g: Compiled, reply: seq<Output>, net: Net,
                           uses: map<Block, set<(string, Block)>>, i: nat) returns (bs: seq<Block>)
    requires Routable(db, raw, g, reply, net.conns, uses) && i < |net.inflight| && net.inflight[i] != []
    requires At(net.inflight[i]) != "final"
    ensures NoDup(bs) && forall c :: c in bs <==> (At(net.inflight[i]), c) in EdgesOf(raw)
    ensures Forward(PacketGraph(g, reply), net, i) ==
            Processed(net, i, bs).(conns := Forward(PacketGraph(g, reply), net, i).conns)
    ensures GatewaysApart(g, Forward(PacketGraph(g, reply), net, i).conns, uses)
  {
    var b := At(net.inflight[i]);
    if b in raw {
      OutputsAreChildren(db, raw, g, b);
      bs := Dedup(raw[b]);
    } else {
      bs := [];
    }
    if bs != [] {
      HandedToIntended(g, net, uses, b, bs);
    }
  }

  /** Packets are processed one at a time in any order; an index without a packet does nothing. */
  ghost function Exec(g: Compiled, reply: seq<Output>, entry: Block, conns: map<Block, Connections>,
      schedule: seq<nat>): Net {
    if schedule == [] then Net([[entry]], [], [], conns)
    else
      var net, i := Exec(g, reply, entry, conns, schedule[..|schedule| - 1]), schedule[|schedule| - 1];
      if i < |net.inflight| && net.inflight[i] != [] then Forward(PacketGraph(g, reply), net, i) else net
  }

  lemma {:induction false} EverySchedule(db: map<Block, Registered>, raw: Raw, g: Compiled, reply: seq<Output>,
      entry: Block, conns: map<Block, Connections>, uses: map<Block, set<(string, Block)>>, schedule: seq<nat>)
    requires Routable(db, raw, g, reply, conns, uses) && entry != "final"
    ensures Unfolding(EdgesOf(raw), entry, Exec(g, reply, entry, conns, schedule))
    ensures GatewaysApart(g, Exec(g, reply, entry, conns, schedule).conns, uses)
  {
    var e := EdgesOf(raw);
    if schedule != [] {
      EverySchedule(db, raw, g, reply, entry, conns, uses, schedule[..|schedule| - 1]);
      var net, i := Exec(g, reply, entry, conns, schedule[..|schedule| - 1]), schedule[|schedule| - 1];
      if i < |net.inflight| && net.inflight[i] != [] {
        WaitingNotFinal(raw, entry, net, i);
        var bs := ForwardIsProcessed(db, raw, g, reply, net, uses, i);
        WalksOnceStep(e, entry, net, i, bs);
        ExtensionsStep(e, entry, net, i, bs);
        FinalStep(e, entry, net, i, bs);
        assert Unfolding(e, entry, Processed(net, i, bs));
        ConnectionsApart(e, entry, Processed(net, i, bs), Forward(PacketGraph(g, reply), net, i).conns);
      }
    } else {
      assert Exec(g, reply, entry, conns, schedule) == Net([[entry]], [], [], conns);
      assert [] + [[entry]] == [[entry]];
    }
  }

  lemma ConnectionsApart(e: set<(Block, Block)>, entry: Block, net: Net, conns: map<Block, Connections>)
    requires Unfolding(e, entry, net)
    ensures Unfolding(e, entry, net.(conns := conns))
  {
    var net' := net.(conns := conns);
    assert forall t :: Seen(net', t) <==> Seen(net, t);
    forall t, c | t in net'.processed && t != [] && (At(t), c) in e ensures Extended(net', t, c) {
      assert Extended(net, t, c);
    }
  }

  lemma WaitingNotFinal(raw: Raw, entry: Block, net: Net, i: nat)
    requires WalksOnce(EdgesOf(raw), entry, net) && i < |net.inflight| && net.inflight[i] != []
    requires entry != "final" && forall b, c :: (b, c) in EdgesOf(raw) ==> c != "final"
    ensures At(net.inflight[i]) != "final"
  {
    var t := net.inflight[i];
    assert (net.processed + net.inflight)[|net.processed| + i] == t;
    assert Seen(net, t);
    if |t| > 1 { assert (t[|t| - 2], t[|t| - 2 + 1]) in EdgesOf(raw); }
  }

  // ------------------------------------------------------- when nothing is in flight

  lemma {:induction false} AllWalksProcessed(e: set<(Block, Block)>, entry: Block, net: Net, t: Trace)
    requires Unfolding(e, entry, net) && net.inflight == [] && WalkFrom(e, entry, t)
    ensures t in net.processed
  {
    assert net.processed + net.inflight == net.processed;
    if |t| == 1 {
      assert t == [entry];
      assert Seen(net, [entry]);
    } else {
      var front := t[..|t| - 1];
      forall k | 0 <= k < |front| - 1 ensures (front[k], front[k + 1]) in e { assert (t[k], t[k + 1]) in e; }
      AllWalksProcessed(e, entry, net, front);
      assert (t[|t| - 2], t[|t| - 2 + 1]) in e && front + [At(t)] == t;
      assert Extended(net, front, At(t));
    }
  }

  /** Once nothing is in flight, the final queue has received one packet for each path from the
      entry to a sink and none besides. */
  lemma RepliesAreCompletePaths(e: set<(Block, Block)>, entry: Block, net: Net)
    requires Unfolding(e, entry, net) && net.inflight == []
    ensures NoDup(net.final) && forall t {:trigger t in net.final} :: t in net.final <==> CompletePath(e, entry, t)
  {
    forall t ensures t in net.final <==> CompletePath(e, entry, t) {
      if CompletePath(e, entry, t) { AllWalksProcessed(e, entry, net, t); }
      if t in net.final { assert Seen(net, t); }
    }
  }

  lemma AllEqualMeansOne<T>(s: seq<T>, t: T)
    requires NoDup(s) && t in s && forall k :: 0 <= k < |s| ==> s[k] == t
    ensures |s| == 1
  {
    NoDupSize(s);
    assert SetOf(s) == {t};
  }

  lemma OnlyPathMeansOneReply(e: set<(Block, Block)>, entry: Block, net: Net, t: Trace)
    requires Unfolding(e, entry, net) && net.inflight == [] && OnlyPath(e, entry, t)
    ensures |net.final| == 1
  {
    RepliesAreCompletePaths(e, entry, net);
    forall k | 0 <= k < |net.final| ensures net.final[k] == t { assert net.final[k] in net.final; }
    AllEqualMeansOne(net.final, t);
  }

  lemma OneReplyMeansOnlyPath(e: set<(Block, Block)>, entry: Block, net: Net)
    requires Unfolding(e, entry, net) && net.inflight == [] && |net.final| == 1
    ensures OnlyPath(e, entry, net.final[0])
  {
    RepliesAreCompletePaths(e, entry, net);
    assert net.final[0] in net.final;
    forall u | CompletePath(e, entry, u) ensures u == net.final[0] { assert u in net.final; }
  }

  /** In particular there is exactly one reply if and only if there is exactly one such path. */
  lemma OneReplyIffOnePath(e: set<(Block, Block)>, entry: Block, net: Net)
    requires Unfolding(e, entry, net) && net.inflight == []
    ensures |net.final| == 1 <==> exists t :: OnlyPath(e, entry, t)
  {
    if |net.final| == 1 { OneReplyMeansOnlyPath(e, entry, net); }
    if t :| OnlyPath(e, entry, t) { OnlyPathMeansOneReply(e, entry, net, t); }
  }

  ghost predicate OnlyPath(e: set<(Block, Block)>, entry: Block, t: Trace) {
    CompletePath(e, entry, t) && forall u :: CompletePath(e, entry, u) ==> u == t
  }

  // ------------------------------------------------------------------- termination

  /** The walks from the entry of at most `n` blocks. */
  ghost function WalksUpTo(e: set<(Block, Block)>, entry: Block, n: nat): set<Trace> {
    if n == 0 then {}
    else {[entry]} + set t, x | t in WalksUpTo(e, entry, n - 1) && t != [] && x in e && x.0 == At(t) :: t + [x.1]
  }

  lemma {:induction false} ShortWalkListed(e: set<(Block, Block)>, entry: Block, n: nat, t: Trace)
    requires WalkFrom(e, entry, t) && |t| <= n
    ensures t in WalksUpTo(e, entry, n)
  {
    if |t| == 1 {
      assert t == [entry];
    } else {
      var front := t[..|t| - 1];
      forall k | 0 <= k < |front| - 1 ensures (front[k], front[k + 1]) in e { assert (t[k], t[k + 1]) in e; }
      ShortWalkListed(e, entry, n - 1, front);
      var x := (t[|t| - 2], t[|t| - 2 + 1]);
      assert x in e && x.0 == At(front) && front + [x.1] == t;
    }
  }

  ghost function Blocks(e: set<(Block, Block)>, entry: Block): set<Block> {
    {entry} + set x | x in e :: x.1
  }

  lemma RepeatIsCycle(e: set<(Block, Block)>, t: Trace, i: nat, j: nat)
    requires IsWalk(e, t) && i < j < |t| && t[i] == t[j]
    ensures IsCycle(e, t[i..j + 1])
  {
    var c := t[i..j + 1];
    forall k | 0 <= k < |c| - 1 ensures (c[k], c[k + 1]) in e { assert (t[i + k], t[i + k + 1]) in e; }
  }

  /** A walk in an acyclic graph visits no block twice. */
  lemma WalkIsShort(e: set<(Block, Block)>, entry: Block, t: Trace)
    requires Acyclic(e) && WalkFrom(e, entry, t)
    ensures |t| <= |Blocks(e, entry)|
  {
    forall i, j | 0 <= i < j < |t| ensures t[i] != t[j] {
      if t[i] == t[j] { RepeatIsCycle(e, t, i, j); }
    }
    forall b | b in SetOf(t) ensures b in Blocks(e, entry) {
      var i :| 0 <= i < |t| && t[i] == b;
      if i > 0 {
        assert (t[i - 1], t[i - 1 + 1]) in e;
        assert (t[i - 1], t[i]).1 == b;
      }
    }
    Pigeonhole(t, Blocks(e, entry));
  }

  /** Forwarding terminates: whatever the schedule, the number of packets processed is bounded. */
  lemma ForwardingBounded(e: set<(Block, Block)>, entry: Block, net: Net)
    requires Acyclic(e) && Unfolding(e, entry, net)
    ensures |net.processed| <= |WalksUpTo(e, entry, |Blocks(e, entry)|)|
  {
    var n := |Blocks(e, entry)|;
    Concatenation(net.processed, net.inflight);
    forall t | t in SetOf(net.processed) ensures t in WalksUpTo(e, entry, n) {
      assert Seen(net, t);
      WalkIsShort(e, entry, t);
      ShortWalkListed(e, entry, n, t);
    }
    Pigeonhole(net.processed, WalksUpTo(e, entry, n));
  }

  lemma OneMoreProcessed(db: map<Block, Registered>, raw: Raw, g: Compiled, reply: seq<Output>, entry: Block,
                         conns: map<Block, Connections>, uses: map<Block, set<(string, Block)>>, schedule: seq<nat>)
    requires Routable(db, raw, g, reply, conns, uses) && entry != "final"
    requires Exec(g, reply, entry, conns, schedule).inflight != []
    ensures |Exec(g, reply, entry, conns, schedule + [0]).processed| ==
            |Exec(g, reply, entry, conns, schedule).processed| + 1
  {
    var net := Exec(g, reply, entry, conns, schedule);
    EverySchedule(db, raw, g, reply, entry, conns, uses, schedule);
    assert (schedule + [0])[..|schedule|] == schedule;
    assert Exec(g, reply, entry, conns, schedule + [0]) == Forward(PacketGraph(g, reply), net, 0);
  }

  ghost function MostProcessed(raw: Raw, entry: Block): nat {
    |WalksUpTo(EdgesOf(raw), entry, |Blocks(EdgesOf(raw), entry)|)|
  }

  lemma ProcessedBounded(db: map<Block, Registered>, raw: Raw, g: Compiled, reply: seq<Output>, entry: Block,
                         conns: map<Block, Connections>, uses: map<Block, set<(string, Block)>>, schedule: seq<nat>)
    requires Routable(db, raw, g, reply, conns, uses) && entry != "final"
    ensures |Exec(g, reply, entry, conns, schedule).processed| <= MostProcessed(raw, entry)
  {
    EverySchedule(db, raw, g, reply, entry, conns, uses, schedule);
    ForwardingBounded(EdgesOf(raw), entry, Exec(g, reply, entry, conns, schedule));
  }

  /** Every schedule can be continued until nothing is in flight: a block that processes a waiting
      packet always brings the run closer to its bound. */
  lemma {:induction false} EveryScheduleCanFinish(db: map<Block, Registered>, raw: Raw, g: Compiled,
      reply: seq<Output>, entry: Block, conns: map<Block, Connections>, uses: map<Block, set<(string, Block)>>,
      schedule: seq<nat>)
    returns (longer: seq<nat>)
    requires Routable(db, raw, g, reply, conns, uses) && entry != "final"
    ensures schedule <= longer && Exec(g, reply, entry, conns, longer).inflight == []
    decreases MostProcessed(raw, entry) - |Exec(g, reply, entry, conns, schedule).processed|
  {
    longer := schedule;
    if Exec(g, reply, entry, conns, schedule).inflight != [] {
      OneMoreProcessed(db, raw, g, reply, entry, conns, uses, schedule);
      ProcessedBounded(db, raw, g, reply, entry, conns, uses, schedule + [0]);
      longer := EveryScheduleCanFinish(db, raw, g, reply, entry, conns, uses, schedule + [0]);
    }
  }

  /** The whole request: under any schedule that leaves nothing in flight, the reply queue has received
      exactly one packet for each path from the entry to a sink of the logical graph. */
  lemma RequestAnswered(db: map<Block, Registered>, raw: Raw, g: Compiled, reply: seq<Output>, entry: Block,
                        conns: map<Block, Connections>, uses: map<Block, set<(string, Block)>>, schedule: seq<nat>)
    requires Routable(db, raw, g, reply, conns, uses) && entry != "final"
    requires Exec(g, reply, entry, conns, schedule).inflight == []
    ensures var final := Exec(g, reply, entry, conns, schedule).final;
            && NoDup(final) && (forall t :: t in final <==> CompletePath(EdgesOf(raw), entry, t))
            && (|final| == 1 <==> exists t :: OnlyPath(EdgesOf(raw), entry, t))
  {
    EverySchedule(db, raw, g, reply, entry, conns, uses, schedule);
    RepliesAreCompletePaths(EdgesOf(raw), entry, Exec(g, reply, entry, conns, schedule));
    OneReplyIffOnePath(EdgesOf(raw), entry, Exec(g, reply, entry, conns, schedule));
  }
}
