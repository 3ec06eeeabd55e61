/**
 One site's agent and the server as a protocol: the agent bootstraps, writes its config, sends
 its version with every heartbeat and bootstraps again when the server says so, while admins
 change the ledger between any two steps.
 */
module Drift {
  import opened Wrappers
  import opened Text
  import opened Names
  import opened PortRange
  import opened Ledger
  import opened LedgerInvariant
  import opened LedgerRows
  import opened Sorting
  import opened Render
  import opened RenderAgreement
  import P = Paging
  import CV = ConfigVersion

  /** What does not change in a run: the hashes, the site and its project, the agent's token and bridge address. */
  datatype Setup = Setup(versionHash: string -> string, tokenHash: string -> string, site: Id, project: Id,
                         authProxy: string, relayHost: string, raw: string, local: string)

  // ----- the server's answers -----

  function EndpointOf(c: Setup, min: nat): string {
    if c.authProxy == "" then c.relayHost + ":" + Dec(min) else c.authProxy
  }

  function CurrentVersion(c: Setup, db: Db): string
    requires Stored(db)
  {
    TunnelsOk(db, c.site);
    CV.Version(c.versionHash, SiteServices(db, c.site))
  }

  ghost function BootstrapReply(c: Setup, db: Db): Result<Boot, Reply>
    requires Stored(db)
  {
    if !LiveSite(db.sites, c.site) || !LiveProject(db.projects, c.project) then Err(Internal)
    else if !db.projects[c.project].active then Err(FailedPrecondition)
    else
      match ParsePortRange(db.projects[c.project].portRange)
      case Err(_) => Err(FailedPrecondition)
      case Ok(r) =>
        Ok(Boot(db.sites[c.site].name, EndpointOf(c, r.0), SiteTunnels(db, c.site), CurrentVersion(c, db)))
  }

  /** Should the agent bootstrap again? */
  ghost function HeartbeatReply(c: Setup, db: Db, version: string): Result<bool, Reply>
    requires Stored(db)
  {
    if !LiveProject(db.projects, c.project) then Err(Internal)
    else if !db.projects[c.project].active then Err(FailedPrecondition)
    else Ok(version != CurrentVersion(c, db))
  }

  /** The handler: one read of the services gives both the tunnels and their version. */
  method Bootstrap(c: Setup, db: Db) returns (r: Result<Boot, Reply>)
    requires Stored(db)
    ensures r == BootstrapReply(c, db)
  {
    if !LiveSite(db.sites, c.site) || !LiveProject(db.projects, c.project) {
      return Err(Internal);
    }
    if !db.projects[c.project].active {
      return Err(FailedPrecondition);
    }
    var range := ParsePortRange(db.projects[c.project].portRange);
    if range.Err? {
      return Err(FailedPrecondition);
    }
    var svcs := SiteServices(db, c.site);
    var tunnels: seq<CV.Row> := [];
    for i := 0 to |svcs|
      invariant tunnels == CV.RowsOf(svcs[..i])
    {
      CV.RowsOfSnoc(svcs[..i], svcs[i]);
      assert svcs[..i + 1] == svcs[..i] + [svcs[i]];
      if svcs[i].relayPort.None? {
        continue;
      }
      tunnels := tunnels + [CV.Row(svcs[i].name, svcs[i].relayPort.value, svcs[i].addr, svcs[i].port, svcs[i].proto)];
    }
    assert svcs[..|svcs|] == svcs;
    TunnelsOk(db, c.site);
    var version := CV.ComputeConfigVersion(c.versionHash, svcs);
    var endpoint := c.authProxy;
    if endpoint == "" {
      endpoint := c.relayHost + ":" + Dec(range.value.0);
    }
    return Ok(Boot(db.sites[c.site].name, endpoint, tunnels, version));
  }

  method Heartbeat(c: Setup, db: Db, version: string) returns (r: Result<bool, Reply>)
    requires Stored(db)
    ensures r == HeartbeatReply(c, db, version)
  {
    if !LiveProject(db.projects, c.project) {
      return Err(Internal);
    }
    if !db.projects[c.project].active {
      return Err(FailedPrecondition);
    }
    TunnelsOk(db, c.site);
    var current := CV.ComputeConfigVersion(c.versionHash, SiteServices(db, c.site));
    return Ok(version != current);
  }

  // ----- the agent -----

  const MAX_ATTEMPTS: nat := 10

  datatype Pc = Booting(attempt: nat) | Applying(boot: Boot) | Waiting | Exited

  /** The file is what the last successful apply wrote; applied is the answer it was written from. */
  datatype Agent = Agent(pc: Pc, version: string, applied: Option<Boot>, file: Option<ClientConfig>, bridge: Option<string>)

  datatype World = World(db: Db, agent: Agent)

  const NEW_AGENT: Agent := Agent(Booting(1), "", None, None, None)

  datatype Event =
    | Admin(op: Op)             // any handler of the ledger
    | BootAnswer                // the bootstrap call reaches the server and is answered
    | BootFail(rejected: bool)  // it fails on the way, or the token is rejected
    | BridgeFail                // the local bridge cannot listen
    | Apply                     // render, write the file, note the version
    | ApplyFail                 // the file cannot be written
    | Beat                      // the heartbeat call is answered
    | BeatLost                  // it fails on the way
    | Cancel

  function Retry(a: Agent): Agent
    requires a.pc.Booting?
  {
    a.(pc := if a.pc.attempt < MAX_ATTEMPTS then Booting(a.pc.attempt + 1) else Exited)
  }

  /** The bridge is set up after the first answer that names an endpoint, and kept. */
  function GotBoot(a: Agent, boot: Boot): Agent {
    a.(pc := Applying(boot), bridge := if a.applied.None? && a.bridge.None? && boot.endpoint != "" then Some(boot.endpoint) else a.bridge)
  }

  function Remote(c: Setup, a: Agent, boot: Boot): string {
    if a.bridge.Some? then c.local else boot.endpoint
  }

  /** A first apply that fails ends the agent; a later one is logged and the old config stays. */
  function Refused(a: Agent): Agent {
    a.(pc := if a.applied.None? then Exited else Waiting)
  }

  function ApplyBoot(c: Setup, a: Agent, boot: Boot): Agent
    requires CV.AllOk(boot.tunnels)
  {
    match RenderClient(c.tokenHash, boot, c.raw, Remote(c, a, boot))
    case Err(_) => Refused(a)
    case Ok(file) => a.(pc := Waiting, version := boot.version, applied := Some(boot), file := Some(file))
  }

  predicate Enabled(a: Agent, e: Event) {
    match e
    case Admin(op) => KnownProtocols(op)
    case BootAnswer => a.pc.Booting?
    case BootFail(_) => a.pc.Booting?
    case BridgeFail => a.pc.Applying? && a.applied.None?
    case Apply => a.pc.Applying?
    case ApplyFail => a.pc.Applying?
    case Beat => a.pc.Waiting?
    case BeatLost => a.pc.Waiting?
    case Cancel => true
  }

  ghost function AgentStep(c: Setup, db: Db, a: Agent, e: Event): Agent
    requires Stored(db) && Enabled(a, e) && (a.pc.Applying? ==> CV.AllOk(a.pc.boot.tunnels))
  {
    match e
    case Admin(_) => a
    case BootAnswer =>
      (match BootstrapReply(c, db) case Err(_) => Retry(a) case Ok(boot) => GotBoot(a, boot))
    case BootFail(rejected) => if rejected then a.(pc := Exited) else Retry(a)
    case BridgeFail => a.(pc := Exited)
    case Apply => ApplyBoot(c, a, a.pc.boot)
    case ApplyFail => Refused(a)
    case Beat =>
      (match HeartbeatReply(c, db, a.version)
       case Err(_) => a
       case Ok(again) => if again then a.(pc := Booting(1)) else a)
    case BeatLost => a
    case Cancel => a.(pc := Exited)
  }

  ghost function DbStep(db: Db, e: Event): Db {
    match e
    case Admin(op) => Do(db, op).0
    case _ => db
  }

  // ----- the invariant -----

  /** A bootstrap answer is the canonical text of its own tunnels, hashed. */
  ghost predicate BootOk(c: Setup, boot: Boot) {
    && CV.AllOk(boot.tunnels) && CV.SlugsDistinct(boot.tunnels)
    && boot.version == c.versionHash(CV.Preimage(boot.tunnels))
  }

  /** The file on disk and the version reported are those of one and the same answer. */
  ghost predicate AgentOk(c: Setup, a: Agent) {
    && (a.pc.Applying? ==> BootOk(c, a.pc.boot))
    && (a.pc.Waiting? ==> a.applied.Some?)
    && (match a.applied
        case None => a.version == "" && a.file.None?
        case Some(boot) => BootOk(c, boot) && a.version == boot.version && FileOf(c, a, boot))
  }

  ghost predicate FileOf(c: Setup, a: Agent, boot: Boot)
    requires CV.AllOk(boot.tunnels)
  {
    a.file.Some? && RenderClient(c.tokenHash, boot, c.raw, Remote(c, a, boot)) == Ok(a.file.value)
  }

  /** The answer names the agent's own site, as the tables do. */
  predicate BootNamed(c: Setup, db: Db, boot: Boot) {
    c.site in db.sites && boot.site == db.sites[c.site].name
  }

  predicate Named(c: Setup, db: Db, a: Agent) {
    && (a.pc.Applying? ==> BootNamed(c, db, a.pc.boot))
    && (a.applied.Some? ==> BootNamed(c, db, a.applied.value))
  }

  ghost predicate Inv(c: Setup, w: World) {
    Sound(w.db) && Stored(w.db) && AgentOk(c, w.agent) && Named(c, w.db, w.agent)
  }

  ghost function Next(c: Setup, w: World, e: Event): World
    requires Inv(c, w) && Enabled(w.agent, e)
  {
    World(DbStep(w.db, e), AgentStep(c, w.db, w.agent, e))
  }

  lemma {:induction false} RowsOfDistinct(svcs: seq<Service>)
    requires forall i, j :: 0 <= i < j < |svcs| ==> svcs[i].name != svcs[j].name
    ensures CV.SlugsDistinct(CV.RowsOf(svcs))
  {
    if svcs != [] {
      var rest := svcs[1..];
      assert forall k :: 0 <= k < |rest| ==> rest[k] == svcs[k + 1];
      RowsOfDistinct(rest);
      forall r | r in CV.RowsOf(rest) ensures r.slug != svcs[0].name {
        RowsOfMembers(rest, r);
      }
      var rows := CV.One(svcs[0]) + CV.RowsOf(rest);
      assert CV.RowsOf(svcs) == rows;
      forall i, j | 0 <= i < j < |rows| ensures rows[i].slug != rows[j].slug {
        assert rows[j] in CV.RowsOf(rest);
      }
    }
  }

  lemma TunnelsDistinct(db: Db, s: Id)
    requires ServicesUnique(db.services)
    ensures CV.SlugsDistinct(SiteTunnels(db, s))
  {
    var ids := ServiceIds(db, s);
    ServiceIdsThere(db, s);
    P.SelectSorted(P.View(ServicesOf(db, s), db.nextService), 0, CAP);
    var svcs := SiteServices(db, s);
    hide ServicesUnique, P.Select;
    forall i, j | 0 <= i < j < |svcs| ensures svcs[i].name != svcs[j].name {
      if svcs[i].name == svcs[j].name {
        OneService(db, s, ids[i], ids[j]);
      }
    }
    RowsOfDistinct(svcs);
  }

  lemma AnswerOk(c: Setup, db: Db)
    requires Sound(db) && Stored(db)
    ensures CurrentOk(c, db)
    ensures BootstrapReply(c, db).Ok? ==>
      var boot := BootstrapReply(c, db).value; BootOk(c, boot) && boot.tunnels == SiteTunnels(db, c.site)
  {
    TunnelsOk(db, c.site);
    TunnelsDistinct(db, c.site);
  }

  ghost predicate CurrentOk(c: Setup, db: Db)
    requires Stored(db)
  {
    && CV.AllOk(SiteTunnels(db, c.site)) && CV.SlugsDistinct(SiteTunnels(db, c.site))
    && CurrentVersion(c, db) == c.versionHash(CV.Preimage(SiteTunnels(db, c.site)))
  }

  lemma ApplyBootOk(c: Setup, a: Agent, boot: Boot)
    requires AgentOk(c, a) && BootOk(c, boot)
    ensures AgentOk(c, ApplyBoot(c, a, boot))
  {
    hide BootOk, RenderClient;
    assert CV.AllOk(boot.tunnels) by {
      AllOkOf(c, boot);
    }
    if a.applied.Some? {
      AllOkOf(c, a.applied.value);
    }
  }

  lemma AllOkOf(c: Setup, boot: Boot)
    requires BootOk(c, boot)
    ensures CV.AllOk(boot.tunnels)
  {
  }

  /** Whatever tables a step meets, it keeps version and file together. */
  lemma AgentOkKept(c: Setup, db: Db, a: Agent, e: Event)
    requires Sound(db) && Stored(db) && AgentOk(c, a) && Enabled(a, e)
    ensures a.pc.Applying? ==> CV.AllOk(a.pc.boot.tunnels)
    ensures AgentOk(c, AgentStep(c, db, a, e))
  {
    if a.pc.Applying? {
      AllOkOf(c, a.pc.boot);
    }
    match e {
      case BootAnswer =>
        AnswerOk(c, db);
        hide Sound, Stored, BootOk, BootstrapReply, RenderClient;
      case Apply =>
        hide Sound, Stored;
        ApplyBootOk(c, a, a.pc.boot);
      case _ =>
        hide Sound, Stored, BootOk, HeartbeatReply, RenderClient;
    }
  }

  /** No request renames a site or takes its row away. */
  lemma SiteNamesKept(db: Db, op: Op)
    requires RowsOk(db)
    ensures forall s <- db.sites :: s in Do(db, op).0.sites && Do(db, op).0.sites[s].name == db.sites[s].name
  {
    hide Slug, FindProject, FindSite, FindService, AllocateRelayPort, OverlapsAny, ApplyMask, ApplyServiceMask, ParsePortRange;
  }

  lemma NamedKept(c: Setup, w: World, e: Event)
    requires Inv(c, w) && Enabled(w.agent, e) && (w.agent.pc.Applying? ==> CV.AllOk(w.agent.pc.boot.tunnels))
    ensures Named(c, DbStep(w.db, e), AgentStep(c, w.db, w.agent, e))
  {
    if e.Admin? {
      SiteNamesKept(w.db, e.op);
    }
    hide Sound, Stored, BootOk, AgentOk, HeartbeatReply, RenderClient, Do, CurrentVersion, SiteTunnels;
  }

  /** Every step keeps it: no failed apply, lost call or admin change separates version and file. */
  lemma InvKept(c: Setup, w: World, e: Event)
    requires Inv(c, w) && Enabled(w.agent, e)
    ensures Inv(c, Next(c, w, e))
  {
    AgentOkKept(c, w.db, w.agent, e);
    NamedKept(c, w, e);
    if e.Admin? {
      DoKept(w.db, e.op);
      DoStored(w.db, e.op);
    }
    hide Sound, Stored, AgentOk, Named, AgentStep, Do;
  }

  // ----- all runs -----

  /** es can happen from w on, one after the other. */
  ghost predicate IsRun(c: Setup, w: World, es: seq<Event>)
    requires Inv(c, w)
    decreases |es|
  {
    es == [] || (Enabled(w.agent, es[0]) && (InvKept(c, w, es[0]); IsRun(c, Next(c, w, es[0]), es[1..])))
  }

  /** Whatever fails, is lost or cancelled and whatever admins do meanwhile, every run keeps the invariant. */
  ghost function After(c: Setup, w: World, es: seq<Event>): (r: World)
    requires Inv(c, w) && IsRun(c, w, es)
    ensures Inv(c, r)
    decreases |es|
  {
    if es == [] then w
    else
      InvKept(c, w, es[0]);
      After(c, Next(c, w, es[0]), es[1..])
  }
}
