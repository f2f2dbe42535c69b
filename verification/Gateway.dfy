/** The inference gateway: it looks up the block a request names, pushes the packet on a connection it
    may have used before, and waits for the reply of the whole graph. */
module Gateway {
  import B = BlockRouting
  import D = Discovery
  import Sequences
  import opened Wrappers

  /** Where the i-th request of a run is pushed; nothing is pushed when no address is found. */
  function EntryOutput(cfg: D.Config, db: map<string, B.Registered>, rs: seq<D.Request>, i: nat): Option<B.Output>
    requires i < |rs|
  {
    match D.Answer(cfg, db, rs, i)
    case Some(Address(Some(host), Some(port))) => Some(B.Output(host, port, B.INPUTS, rs[i].block))
    case _ => None
  }

  /** The pushes of a run, in order. */
  function Pushes(cfg: D.Config, db: map<string, B.Registered>, rs: seq<D.Request>): seq<B.Output> {
    if rs == [] then []
    else Pushes(cfg, db, rs[..|rs| - 1]) +
         match EntryOutput(cfg, db, rs, |rs| - 1) case Some(o) => [o] case None => []
  }

  /** The blocks that receive them. The gateway keeps its connections by host and port, as blocks do. */
  function Receivers(cfg: D.Config, db: map<string, B.Registered>, rs: seq<D.Request>): seq<string> {
    B.SendAll(map[], Pushes(cfg, db, rs)).0
  }

  /** The gateway's part of `process_request`, when no connection fails. */
  class InferenceGateway {
    const cfg: D.Config
    const db: map<string, B.Registered>
    const discovery: D.DiscoveryCache
    const connections: B.ConnectionCache
    ghost var handled: seq<D.Request>

    ghost predicate Valid()
      reads this, discovery, connections
    {
      && discovery.cfg == cfg && discovery.db == db && connections.maxRetries >= 1
      && discovery.entries == D.Remembered(cfg, db, handled)
      && connections.cache == B.SendAll(map[], Pushes(cfg, db, handled)).1
    }

    constructor (cfg: D.Config, db: map<string, B.Registered>, maxRetries: nat)
      requires maxRetries >= 1
      ensures Valid() && this.cfg == cfg && this.db == db && handled == []
    {
      this.cfg := cfg;
      this.db := db;
      discovery := new D.DiscoveryCache(cfg, db);
      connections := new B.ConnectionCache(maxRetries);
      handled := [];
    }

    method Enter(r: D.Request) returns (receiver: Option<string>)
      requires Valid()
      modifies this, discovery, connections
      ensures Valid() && handled == old(handled) + [r]
      ensures receiver == if EntryOutput(cfg, db, handled, |handled| - 1).Some?
                          then Some(Receivers(cfg, db, handled)[|Receivers(cfg, db, handled)| - 1]) else None
    {
      OneMoreRequest(cfg, db, handled, r);
      var address := discovery.Discover(r);
      handled := handled + [r];
      if address.Some? && address.value.host.Some? && address.value.port.Some? {
        var b := Push(B.Output(address.value.host.value, address.value.port.value, B.INPUTS, r.block));
        receiver := Some(b);
      } else {
        receiver := None;
      }
    }

    method Push(o: B.Output) returns (receiver: string)
      requires connections.maxRetries >= 1
      modifies connections
      ensures (receiver, connections.cache) == B.Send(old(connections.cache), o)
    {
      var connects := (n: nat) => true;
      assert connects(1);
      var c := connections.Get(o.block, o.host, o.port, true, connects);
      receiver := B.Receiver(c.value, o.queue);
    }
  }

  lemma OneMoreRequest(cfg: D.Config, db: map<string, B.Registered>, rs: seq<D.Request>, r: D.Request)
    ensures var longer := rs + [r];
            && (D.Answer(cfg, db, longer, |rs|), D.Remembered(cfg, db, longer)) ==
               D.Lookup(cfg, db, D.Remembered(cfg, db, rs), r)
            && match EntryOutput(cfg, db, longer, |rs|)
               case None => Pushes(cfg, db, longer) == Pushes(cfg, db, rs)
               case Some(o) =>
                 var (bs, cache) := B.SendAll(map[], Pushes(cfg, db, rs));
                 B.SendAll(map[], Pushes(cfg, db, longer)) == (bs + [B.Send(cache, o).0], B.Send(cache, o).1)
  {
    var longer, before := rs + [r], Pushes(cfg, db, rs);
    assert longer[..|longer| - 1] == rs;
    match EntryOutput(cfg, db, longer, |rs|)
    case None => assert before + [] == before;
    case Some(o) => OneMorePush(before, o);
  }

  lemma OneMorePush(outs: seq<B.Output>, o: B.Output)
    ensures var (bs, cache) := B.SendAll(map[], outs);
            B.SendAll(map[], outs + [o]) == (bs + [B.Send(cache, o).0], B.Send(cache, o).1)
  {
    assert (outs + [o])[..|outs|] == outs;
  }

  // ------------------------------------------------------------- who receives a request

  /** Requests name blocks, never instances. */
  ghost predicate BlocksOnly(rs: seq<D.Request>) {
    forall i :: 0 <= i < |rs| ==> rs[i].instance == ""
  }

  /** A push goes to the block's own queue or to the gateway of its cluster. */
  ghost predicate WellAddressed(cfg: D.Config, db: map<string, B.Registered>, o: B.Output) {
    D.Fresh(cfg, db, o.block) == Some(D.Address(Some(o.host), Some(o.port))) &&
    (o.port != 0 ==> o.host == B.LocalHost(o.block)) && o.queue == B.INPUTS
  }

  lemma {:induction false} PushesAddressed(cfg: D.Config, db: map<string, B.Registered>, rs: seq<D.Request>)
    requires cfg.gatewayMode && BlocksOnly(rs)
    ensures forall k :: 0 <= k < |Pushes(cfg, db, rs)| ==> WellAddressed(cfg, db, Pushes(cfg, db, rs)[k])
  {
    if rs != [] {
      PushesAddressed(cfg, db, rs[..|rs| - 1]);
      D.BlockIdsAreSafe(cfg, db, rs, |rs| - 1);
    }
  }

  lemma {:induction false} QueuesReachTheirBlocks(outs: seq<B.Output>)
    requires forall k :: 0 <= k < |outs| && outs[k].port != 0 ==>
               outs[k].host == B.LocalHost(outs[k].block) && outs[k].queue == B.INPUTS
    ensures |B.SendAll(map[], outs).0| == |outs|
    ensures forall h, p :: (h, p) in B.SendAll(map[], outs).1 && p != 0 ==>
            B.SendAll(map[], outs).1[(h, p)] == B.ToQueue(h, p)
    ensures forall k :: 0 <= k < |outs| && outs[k].port != 0 ==> B.SendAll(map[], outs).0[k] == outs[k].block
  {
    if outs != [] {
      var o := outs[|outs| - 1];
      QueuesReachTheirBlocks(outs[..|outs| - 1]);
      assert B.BlockAt(B.LocalHost(o.block)) == o.block;
    }
  }

  /** Every request of a run enters at the block it names if and only if no two of the blocks named are
      reached through one gateway host. */
  lemma EntersRightIffHostsApart(cfg: D.Config, db: map<string, B.Registered>, rs: seq<D.Request>)
    requires cfg.gatewayMode && BlocksOnly(rs)
    ensures var outs, bs := Pushes(cfg, db, rs), Receivers(cfg, db, rs);
            |bs| == |outs| && ((forall k :: 0 <= k < |outs| ==> bs[k] == outs[k].block) <==> B.HostsApart(outs))
  {
    PushesAddressed(cfg, db, rs);
    QueuesReachTheirBlocks(Pushes(cfg, db, rs));
    B.GatewayDeliveryExact(Pushes(cfg, db, rs));
  }

  /** The whole of a request, the last of a run, for a block whose address is known: as long as no two
      blocks share a gateway host, at the gateway or at a forwarding block, the packet enters at the block
      named, and under any schedule that leaves nothing in flight the reply queue has received exactly
      one packet for each path from there to a sink. */
  lemma RequestServed(cfg: D.Config, db: map<string, B.Registered>, rs: seq<D.Request>, raw: B.Raw, g: B.Compiled,
                      reply: seq<B.Output>, conns: map<B.Block, B.Connections>,
                      uses: map<B.Block, set<(string, B.Block)>>, schedule: seq<nat>)
    returns (entry: B.Block)
    requires cfg.gatewayMode && BlocksOnly(rs) && rs != [] && EntryOutput(cfg, db, rs, |rs| - 1).Some?
    requires B.HostsApart(Pushes(cfg, db, rs)) && B.Routable(db, raw, g, reply, conns, uses) &&
             rs[|rs| - 1].block != "final"
    ensures Receivers(cfg, db, rs) != [] &&
            entry == Receivers(cfg, db, rs)[|Receivers(cfg, db, rs)| - 1] == rs[|rs| - 1].block
    ensures var net := B.Exec(g, reply, entry, conns, schedule);
            net.inflight == [] ==>
              && Sequences.NoDup(net.final)
              && (forall t :: t in net.final <==> B.CompletePath(B.EdgesOf(raw), entry, t))
              && (|net.final| == 1 <==> exists t :: B.OnlyPath(B.EdgesOf(raw), entry, t))
  {
    EntersRightIffHostsApart(cfg, db, rs);
    entry := rs[|rs| - 1].block;
    if B.Exec(g, reply, entry, conns, schedule).inflight == [] {
      B.RequestAnswered(db, raw, g, reply, entry, conns, uses, schedule);
    }
  }
}
