/**
 The rathole configs of the two ends: the server's, flattened from a project's sites and
 services, and the client's, from one site's bootstrap. The TOML around the values is left
 out; a config here is the values that rathole reads.
 */
module Render {
  import opened Wrappers
  import opened Text
  import opened Names
  import opened PortRange
  import opened Sorting
  import opened Ledger
  import opened LedgerInvariant
  import opened LedgerRows
  import P = Paging
  import T = Tokens
  import CV = ConfigVersion

  datatype Binding = Binding(site: string, service: string, relayPort: int, token: string)

  datatype Block = Block(key: string, token: string, bind: int)

  datatype ServerConfig = ServerConfig(control: int, services: seq<Block>)

  datatype ClientBlock = ClientBlock(key: string, local: string)

  datatype ClientConfig = ClientConfig(remote: string, token: string, services: seq<ClientBlock>)

  /** What Bootstrap tells an agent. */
  datatype Boot = Boot(site: string, endpoint: string, tunnels: seq<CV.Row>, version: string)

  datatype RenderError = BadRange | MissingRemote | EmptyToken

  function Key(site: string, service: string): string {
    site + "__" + service
  }

  // ----- reading the tables -----

  const CAP: nat := 1000

  function SiteIds(db: Db, p: Id): seq<Id> {
    P.Select(P.View(SitesOf(db, p), db.nextSite), 0, CAP)
  }

  function ServiceIds(db: Db, s: Id): seq<Id> {
    P.Select(P.View(ServicesOf(db, s), db.nextService), 0, CAP)
  }

  /** First live token row of the site, expired or not, searching ids upward from i. */
  function FirstToken(t: T.Table, s: Id, i: Id): (r: Option<Id>)
    ensures r.Some? ==> T.LiveFor(t, r.value, s)
    decreases t.next - i
  {
    if i >= t.next then None else if T.LiveFor(t, i, s) then Some(i) else FirstToken(t, s, i + 1)
  }

  function TokenOf(t: T.Table, s: Id): string {
    match FirstToken(t, s, 1)
    case None => ""
    case Some(k) => t.rows[k].hash
  }

  function ServiceBindings(db: Db, site: string, token: string, ids: seq<Id>): seq<Binding>
    requires forall k :: 0 <= k < |ids| ==> ids[k] in db.services
  {
    if ids == [] then []
    else
      var v := db.services[ids[0]];
      (if v.relayPort.None? then [] else [Binding(site, v.name, v.relayPort.value, token)])
      + ServiceBindings(db, site, token, ids[1..])
  }

  lemma ServiceIdsThere(db: Db, s: Id)
    ensures forall k :: 0 <= k < |ServiceIds(db, s)| ==> ServiceIds(db, s)[k] in ServicesOf(db, s)
  {
    P.SelectSorted(P.View(ServicesOf(db, s), db.nextService), 0, CAP);
  }

  function SiteBindings(db: Db, t: T.Table, s: Id): seq<Binding>
    requires s in db.sites
  {
    ServiceIdsThere(db, s);
    ServiceBindings(db, db.sites[s].name, TokenOf(t, s), ServiceIds(db, s))
  }

  /** The services ListBySite returns, and the tunnels Bootstrap makes of them. */
  function SiteServices(db: Db, s: Id): seq<Service> {
    ServiceIdsThere(db, s);
    seq(|ServiceIds(db, s)|, k requires 0 <= k < |ServiceIds(db, s)| => db.services[ServiceIds(db, s)[k]])
  }

  function SiteTunnels(db: Db, s: Id): seq<CV.Row> {
    CV.RowsOf(SiteServices(db, s))
  }

  function AllBindings(db: Db, t: T.Table, ids: seq<Id>): seq<Binding>
    requires forall k :: 0 <= k < |ids| ==> ids[k] in db.sites
  {
    if ids == [] then [] else SiteBindings(db, t, ids[0]) + AllBindings(db, t, ids[1..])
  }

  lemma SiteIdsThere(db: Db, p: Id)
    ensures forall k :: 0 <= k < |SiteIds(db, p)| ==> SiteIds(db, p)[k] in SitesOf(db, p)
  {
    P.SelectSorted(P.View(SitesOf(db, p), db.nextSite), 0, CAP);
  }

  function Bindings(db: Db, t: T.Table, p: Id): seq<Binding> {
    SiteIdsThere(db, p);
    AllBindings(db, t, SiteIds(db, p))
  }

  // ----- the renderers -----

  predicate ByName(a: Binding, b: Binding) {
    if a.site != b.site then Less(a.site, b.site) else Less(a.service, b.service)
  }

  function BlockOf(b: Binding): Block {
    Block(Key(b.site, b.service), b.token, b.relayPort)
  }

  function BlocksOf(bs: seq<Binding>): seq<Block> {
    seq(|bs|, i requires 0 <= i < |bs| => BlockOf(bs[i]))
  }

  function RenderServer(portRange: string, bs: seq<Binding>): Result<ServerConfig, RenderError> {
    match ParsePortRange(portRange)
    case Err(_) => Err(BadRange)
    case Ok(r) => Ok(ServerConfig(r.0, BlocksOf(Sort(ByName, bs))))
  }

  function ClientBlockOf(site: string, r: CV.Row): ClientBlock
    requires CV.RowOk(r)
  {
    ClientBlock(Key(site, r.slug), r.addr + ":" + Dec(r.port))
  }

  function ClientBlocksOf(site: string, rows: seq<CV.Row>): seq<ClientBlock>
    requires CV.AllOk(rows)
  {
    seq(|rows|, i requires 0 <= i < |rows| => ClientBlockOf(site, rows[i]))
  }

  function RenderClient(hash: string -> string, boot: Boot, raw: string, remote: string): Result<ClientConfig, RenderError>
    requires CV.AllOk(boot.tunnels)
  {
    if remote == "" then Err(MissingRemote)
    else if raw == "" then Err(EmptyToken)
    else
      CV.SortedOk(boot.tunnels);
      Ok(ClientConfig(remote, hash(raw), ClientBlocksOf(boot.site, Sort(CV.BySlug, boot.tunnels))))
  }

  // ----- the renderers as they run -----

  /** Sorts the caller's slice in place, then writes it block by block. */
  method RenderRatholeServer(portRange: string, bindings: array<Binding>) returns (r: Result<ServerConfig, RenderError>)
    modifies bindings
    ensures r == RenderServer(portRange, old(bindings[..]))
    ensures bindings[..] == if r.Ok? then Sort(ByName, old(bindings[..])) else old(bindings[..])
  {
    var range := ParsePortRange(portRange);
    if range.Err? {
      return Err(BadRange);
    }
    SortInPlace(bindings);
    var blocks: seq<Block> := [];
    for i := 0 to bindings.Length
      invariant blocks == BlocksOf(bindings[..i])
    {
      var name := bindings[i].site + "__" + bindings[i].service;
      blocks := blocks + [Block(name, bindings[i].token, bindings[i].relayPort)];
      assert bindings[..i + 1] == bindings[..i] + [bindings[i]];
    }
    assert bindings[..bindings.Length] == bindings[..];
    return Ok(ServerConfig(range.value.0, blocks));
  }

  method SortInPlace(a: array<Binding>)
    modifies a
    ensures a[..] == Sort(ByName, old(a[..]))
  {
    ghost var was := a[..];
    var s := Sort(ByName, a[..]);
    SortPermutes(ByName, was);
    assert |s| == |multiset(s)| == |multiset(was)| == a.Length;
    for i := 0 to a.Length
      invariant a[..i] == s[..i]
    {
      a[i] := s[i];
    }
    assert a[..] == a[..a.Length] && s == s[..a.Length];
  }

  method RenderRatholeClient(hash: string -> string, boot: Boot, raw: string, remote: string) returns (r: Result<ClientConfig, RenderError>)
    requires CV.AllOk(boot.tunnels)
    ensures r == RenderClient(hash, boot, raw, remote)
  {
    if remote == "" {
      return Err(MissingRemote);
    }
    if raw == "" {
      return Err(EmptyToken);
    }
    var tunnels: seq<CV.Row> := [];
    for i := 0 to |boot.tunnels|
      invariant tunnels == boot.tunnels[..i]
    {
      tunnels := tunnels + [boot.tunnels[i]];
    }
    assert boot.tunnels[..|boot.tunnels|] == boot.tunnels;
    CV.SortedOk(tunnels);
    tunnels := Sort(CV.BySlug, tunnels);
    var blocks: seq<ClientBlock> := [];
    for i := 0 to |tunnels|
      invariant blocks == ClientBlocksOf(boot.site, tunnels[..i])
    {
      var name := boot.site + "__" + tunnels[i].slug;
      blocks := blocks + [ClientBlock(name, tunnels[i].addr + ":" + Dec(tunnels[i].port))];
      assert tunnels[..i + 1] == tunnels[..i] + [tunnels[i]];
    }
    assert tunnels[..|tunnels|] == tunnels;
    return Ok(ClientConfig(remote, hash(raw), blocks));
  }

  /** The nested loops of renderToFile over sites and their services. */
  method CollectBindings(db: Db, t: T.Table, p: Id) returns (bs: seq<Binding>)
    ensures bs == Bindings(db, t, p)
  {
    SiteIdsThere(db, p);
    var sites := SiteIds(db, p);
    bs := [];
    for i := 0 to |sites|
      invariant AllBindings(db, t, sites) == bs + AllBindings(db, t, sites[i..])
    {
      CollectStep(db, t, sites, i, bs);
      var token := TokenOf(t, sites[i]);
      ServiceIdsThere(db, sites[i]);
      var services := ServiceIds(db, sites[i]);
      var found := CollectServices(db, db.sites[sites[i]].name, token, services);
      bs := bs + found;
    }
    assert sites[|sites|..] == [];
  }

  lemma CollectStep(db: Db, t: T.Table, sites: seq<Id>, i: nat, bs: seq<Binding>)
    requires i < |sites| && forall k :: 0 <= k < |sites| ==> sites[k] in db.sites
    requires AllBindings(db, t, sites) == bs + AllBindings(db, t, sites[i..])
    ensures AllBindings(db, t, sites) == bs + SiteBindings(db, t, sites[i]) + AllBindings(db, t, sites[i + 1..])
  {
    hide SiteBindings;
    assert sites[i..][1..] == sites[i + 1..];
    assert AllBindings(db, t, sites[i..]) == SiteBindings(db, t, sites[i]) + AllBindings(db, t, sites[i + 1..]);
  }

  method CollectServices(db: Db, site: string, token: string, services: seq<Id>) returns (bs: seq<Binding>)
    requires forall k :: 0 <= k < |services| ==> services[k] in db.services
    ensures bs == ServiceBindings(db, site, token, services)
  {
    bs := [];
    for j := 0 to |services|
      invariant ServiceBindings(db, site, token, services) == bs + ServiceBindings(db, site, token, services[j..])
    {
      assert services[j..][1..] == services[j + 1..];
      var v := db.services[services[j]];
      if v.relayPort.Some? {
        bs := bs + [Binding(site, v.name, v.relayPort.value, token)];
      }
    }
    assert services[|services|..] == [];
  }
}
