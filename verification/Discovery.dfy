/** Where a request enters: the inference gateway looks up a block's address and remembers it under a
    key made of the block and instance ids. */
module Discovery {
  import B = BlockRouting
  import opened Wrappers

  /** An address; the host is missing when the registry lists no gateway, the port when the mode has none. */
  datatype Address = Address(host: Option<string>, port: Option<nat>)

  datatype Config = Config(gatewayMode: bool, home: string, defaultUrl: string)

  datatype Request = Request(block: string, instance: string)

  function KeyOf(r: Request): string {
    if r.instance != "" then r.block + "-" + r.instance else r.block
  }

  function Gateway(gateways: B.Gateways): Option<string> {
    match gateways
    case OneUrl(url) => Some(url)
    case Urls(urls) => if urls == [] then None else Some(urls[0])
  }

  /** The address looked up in the registry; None when the lookup raises. */
  function Fresh(cfg: Config, db: map<string, B.Registered>, block: string): Option<Address> {
    if block !in db || db[block].cluster == "" || Gateway(db[block].gateway) == Some("") then None
    else if db[block].cluster == cfg.home then Some(Address(Some(B.LocalHost(block)), Some(6379)))
    else Some(Address(Gateway(db[block].gateway), Some(0)))
  }

  /** One lookup: the answer and the remembered entries. */
  function Lookup(cfg: Config, db: map<string, B.Registered>, entries: map<string, Address>, r: Request)
    : (Option<Address>, map<string, Address>)
  {
    if KeyOf(r) in entries then (Some(entries[KeyOf(r)]), entries)
    else if !cfg.gatewayMode then (Some(Address(Some(cfg.defaultUrl), None)), entries)
    else match Fresh(cfg, db, r.block)
      case None => (None, entries)
      case Some(a) => (Some(a), entries[KeyOf(r) := a])
  }

  class DiscoveryCache {
    const cfg: Config
    const db: map<string, B.Registered>
    var entries: map<string, Address>

    constructor (cfg: Config, db: map<string, B.Registered>)
      ensures this.cfg == cfg && this.db == db && entries == map[]
    {
      this.cfg := cfg;
      this.db := db;
      entries := map[];
    }

    method Discover(r: Request) returns (address: Option<Address>)
      modifies this
      ensures (address, entries) == Lookup(cfg, db, old(entries), r)
    {
      var key := KeyOf(r);
      if key in entries {
        return Some(entries[key]);
      }
      if !cfg.gatewayMode {
        return Some(Address(Some(cfg.defaultUrl), None));
      }
      address := Fresh(cfg, db, r.block);
      if address.Some? {
        entries := entries[key := address.value];
      }
    }
  }

  // ------------------------------------------------------------------- every run

  function Remembered(cfg: Config, db: map<string, B.Registered>, rs: seq<Request>): map<string, Address> {
    if rs == [] then map[] else Lookup(cfg, db, Remembered(cfg, db, rs[..|rs| - 1]), rs[|rs| - 1]).1
  }

  function Answer(cfg: Config, db: map<string, B.Registered>, rs: seq<Request>, i: nat): Option<Address>
    requires i < |rs|
  {
    Lookup(cfg, db, Remembered(cfg, db, rs[..i]), rs[i]).0
  }

  /** The i-th request is the first one that was resolved under its key. */
  ghost predicate FirstResolved(cfg: Config, db: map<string, B.Registered>, rs: seq<Request>, i: nat) {
    && i < |rs| && Fresh(cfg, db, rs[i].block).Some?
    && forall j :: 0 <= j < i && KeyOf(rs[j]) == KeyOf(rs[i]) ==> Fresh(cfg, db, rs[j].block) == None
  }

  ghost predicate NoneResolved(cfg: Config, db: map<string, B.Registered>, rs: seq<Request>, key: string) {
    forall j :: 0 <= j < |rs| && KeyOf(rs[j]) == key ==> Fresh(cfg, db, rs[j].block) == None
  }

  lemma FirstIsFirst(cfg: Config, db: map<string, B.Registered>, rs: seq<Request>)
    requires rs != [] && NoneResolved(cfg, db, rs[..|rs| - 1], KeyOf(rs[|rs| - 1])) &&
             Fresh(cfg, db, rs[|rs| - 1].block).Some?
    ensures FirstResolved(cfg, db, rs, |rs| - 1)
  {
    assert forall j :: 0 <= j < |rs| - 1 ==> rs[..|rs| - 1][j] == rs[j];
  }

  /** What is remembered under a key is what the first resolved request with that key found. */
  lemma {:induction false} RemembersFirst(cfg: Config, db: map<string, B.Registered>, rs: seq<Request>, key: string)
    returns (i: nat)
    requires cfg.gatewayMode
    ensures key in Remembered(cfg, db, rs) ==>
              FirstResolved(cfg, db, rs, i) && KeyOf(rs[i]) == key &&
              Fresh(cfg, db, rs[i].block) == Some(Remembered(cfg, db, rs)[key])
    ensures key !in Remembered(cfg, db, rs) ==> NoneResolved(cfg, db, rs, key)
  {
    i := 0;
    if rs != [] {
      var front := rs[..|rs| - 1];
      i := RemembersFirst(cfg, db, front, key);
      if key in Remembered(cfg, db, front) {
        StillFirst(cfg, db, rs, i);
      } else if key in Remembered(cfg, db, rs) {
        i := |rs| - 1;
        FirstIsFirst(cfg, db, rs);
      }
    }
  }

  lemma StillFirst(cfg: Config, db: map<string, B.Registered>, rs: seq<Request>, i: nat)
    requires rs != [] && FirstResolved(cfg, db, rs[..|rs| - 1], i)
    ensures FirstResolved(cfg, db, rs, i)
  {
    assert forall j :: 0 <= j < |rs| - 1 ==> rs[..|rs| - 1][j] == rs[j];
  }

  /** The lookups answer every request of a run as the registry would if and only if no two requests
      share a key while their blocks have different addresses. */
  lemma AnswersRightIffKeysApart(cfg: Config, db: map<string, B.Registered>, rs: seq<Request>)
    requires cfg.gatewayMode
    ensures (forall i :: 0 <= i < |rs| ==> Answer(cfg, db, rs, i) == Fresh(cfg, db, rs[i].block)) <==>
            KeysApart(cfg, db, rs)
  {
    if KeysApart(cfg, db, rs) {
      forall i | 0 <= i < |rs| ensures Answer(cfg, db, rs, i) == Fresh(cfg, db, rs[i].block) {
        var j := RemembersFirst(cfg, db, rs[..i], KeyOf(rs[i]));
        if KeyOf(rs[i]) in Remembered(cfg, db, rs[..i]) {
          assert j < i && rs[..i][j] == rs[j];
        }
      }
    }
    if forall i :: 0 <= i < |rs| ==> Answer(cfg, db, rs, i) == Fresh(cfg, db, rs[i].block) {
      forall i, j | 0 <= i < j < |rs| && KeyOf(rs[i]) == KeyOf(rs[j]) && Fresh(cfg, db, rs[i].block).Some?
        ensures Fresh(cfg, db, rs[j].block) == Fresh(cfg, db, rs[i].block)
      {
        SameAnswer(cfg, db, rs, i, j);
      }
    }
  }

  ghost predicate KeysApart(cfg: Config, db: map<string, B.Registered>, rs: seq<Request>) {
    forall i, j :: 0 <= i < j < |rs| && KeyOf(rs[i]) == KeyOf(rs[j]) && Fresh(cfg, db, rs[i].block).Some? ==>
      Fresh(cfg, db, rs[j].block) == Fresh(cfg, db, rs[i].block)
  }

  /** Once a key has been answered, every later request with that key gets the same answer. */
  lemma {:induction false} SameAnswer(cfg: Config, db: map<string, B.Registered>, rs: seq<Request>, i: nat, j: nat)
    requires cfg.gatewayMode && i < j < |rs| && KeyOf(rs[i]) == KeyOf(rs[j]) && Fresh(cfg, db, rs[i].block).Some?
    ensures Answer(cfg, db, rs, j) == Answer(cfg, db, rs, i)
  {
    StillRemembered(cfg, db, rs, i, j);
  }

  lemma {:induction false} StillRemembered(cfg: Config, db: map<string, B.Registered>, rs: seq<Request>, i: nat, n: nat)
    requires cfg.gatewayMode && i < n <= |rs| && Fresh(cfg, db, rs[i].block).Some?
    ensures KeyOf(rs[i]) in Remembered(cfg, db, rs[..n])
    ensures Answer(cfg, db, rs, i) == Some(Remembered(cfg, db, rs[..n])[KeyOf(rs[i])])
    decreases n
  {
    assert rs[..n][..n - 1] == rs[..n - 1] && rs[..n][n - 1] == rs[n - 1];
    if i < n - 1 { StillRemembered(cfg, db, rs, i, n - 1); }
  }

  /** Without instance ids, as the gateway asks, every answer is right. */
  lemma BlockIdsAreSafe(cfg: Config, db: map<string, B.Registered>, rs: seq<Request>, i: nat)
    requires cfg.gatewayMode && i < |rs| && forall j :: 0 <= j < |rs| ==> rs[j].instance == ""
    ensures Answer(cfg, db, rs, i) == Fresh(cfg, db, rs[i].block)
  {
    assert forall j :: 0 <= j < |rs| ==> KeyOf(rs[j]) == rs[j].block;
    AnswersRightIffKeysApart(cfg, db, rs);
  }

  /** A hyphen in an id can make two requests share a key. */
  lemma HyphenCollides(cfg: Config, db: map<string, B.Registered>)
    requires cfg.gatewayMode && Fresh(cfg, db, "a").Some? && Fresh(cfg, db, "a-b") != Fresh(cfg, db, "a")
    ensures var rs := [Request("a", "b"), Request("a-b", "")];
            Answer(cfg, db, rs, 1) == Fresh(cfg, db, "a") != Fresh(cfg, db, "a-b")
  {
    var rs := [Request("a", "b"), Request("a-b", "")];
    assert KeyOf(rs[0]) == "a-b" == KeyOf(rs[1]);
    assert rs[..1][..0] == [] && rs[..0] == [];
    SameAnswer(cfg, db, rs, 0, 1);
  }

  /** Outside the gateway mode every answer is the default address, and nothing is remembered. */
  lemma {:induction false} OtherModeAnswersDefault(cfg: Config, db: map<string, B.Registered>, rs: seq<Request>, i: nat)
    requires !cfg.gatewayMode && i < |rs|
    ensures Remembered(cfg, db, rs) == map[] && Answer(cfg, db, rs, i) == Some(Address(Some(cfg.defaultUrl), None))
  {
    NothingRemembered(cfg, db, rs);
    NothingRemembered(cfg, db, rs[..i]);
  }

  lemma {:induction false} NothingRemembered(cfg: Config, db: map<string, B.Registered>, rs: seq<Request>)
    requires !cfg.gatewayMode
    ensures Remembered(cfg, db, rs) == map[]
  {
    if rs != [] { NothingRemembered(cfg, db, rs[..|rs| - 1]); }
  }

  /** The address a block is reached at from outside its cluster: one URL, or the first of a list. */
  ghost predicate HasGateway(r: B.Registered, url: string) {
    r.gateway == B.OneUrl(url) || exists more :: r.gateway == B.Urls([url] + more)
  }

  /** A block resolves at the gateway exactly when it resolves in a compiled graph, but for three oddities:
      without a cluster id it resolves in a graph only, as it does with an empty first URL in a list, and
      with an empty list of URLs it resolves at the gateway only. */
  lemma ResolvesAsCompiled(cfg: Config, db: map<string, B.Registered>, block: string)
    ensures block !in db ==> Fresh(cfg, db, block) == None && B.ItemOf(db, block) == None
    ensures block in db && db[block].gateway == B.OneUrl("") ==>
      Fresh(cfg, db, block) == None && B.ItemOf(db, block) == None
    ensures block in db && db[block].gateway == B.Urls([]) ==>
              (Fresh(cfg, db, block).Some? <==> db[block].cluster != "") && B.ItemOf(db, block) == None
    ensures block in db && (exists url :: HasGateway(db[block], url)) && db[block].gateway != B.OneUrl("") ==>
              B.ItemOf(db, block).Some? &&
              (Fresh(cfg, db, block).Some? <==> db[block].cluster != "" && !HasGateway(db[block], ""))
  {
    if block in db {
      match db[block].gateway
      case OneUrl(url) => assert HasGateway(db[block], url);
      case Urls(urls) => if urls != [] { assert urls == [urls[0]] + urls[1..]; }
    }
  }

  /** The entry hop agrees with the compiled graph: a block is addressed from the gateway as it is
      from any block of the gateway's own cluster. */
  lemma AgreesWithCompiledGraph(cfg: Config, db: map<string, B.Registered>, parent: B.Item, block: string)
    requires parent.cluster == cfg.home && B.ItemOf(db, block).Some? && Fresh(cfg, db, block).Some?
    ensures var o := B.Endpoint(parent, block, B.ItemOf(db, block).value);
            Fresh(cfg, db, block) == Some(Address(Some(o.host), Some(o.port)))
  {
  }
}
