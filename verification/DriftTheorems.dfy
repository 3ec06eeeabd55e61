/** What "no need to bootstrap again" means, and how the agent gets there. */
module DriftTheorems {
  import opened Wrappers
  import opened Text
  import opened Ledger
  import opened LedgerInvariant
  import opened LedgerRows
  import opened Sorting
  import opened Render
  import opened RenderAgreement
  import opened Drift
  import T = Tokens
  import CV = ConfigVersion

  // ----- soundness -----

  /** The agent's config was written from the tunnels the server has now. */
  ghost predicate Synced(c: Setup, w: World) {
    w.agent.applied.Some? && multiset(w.agent.applied.value.tunnels) == multiset(SiteTunnels(w.db, c.site))
  }

  /** Neither list has a newline in an address, and their two texts do not collide under the hash. */
  ghost predicate Separable(c: Setup, a: seq<CV.Row>, b: seq<CV.Row>) {
    && CV.AllOk(a) && CV.AllOk(b) && CV.NewlineFree(a) && CV.NewlineFree(b)
    && (c.versionHash(CV.Preimage(a)) == c.versionHash(CV.Preimage(b)) ==> CV.Preimage(a) == CV.Preimage(b))
  }

  /**
   A heartbeat that is answered says "no need" exactly when the agent's last written config is
   the server's current one; up to hash collision and newlines.
   */
  lemma DriftExact(c: Setup, w: World)
    requires Inv(c, w) && w.agent.pc.Waiting? && HeartbeatReply(c, w.db, w.agent.version).Ok?
    requires Separable(c, w.agent.applied.value.tunnels, SiteTunnels(w.db, c.site))
    ensures HeartbeatReply(c, w.db, w.agent.version) == Ok(false) <==> Synced(c, w)
  {
    AnswerOk(c, w.db);
    CV.PreimageExact(w.agent.applied.value.tunnels, SiteTunnels(w.db, c.site));
    hide CV.Preimage, CurrentVersion, CV.AllOk, CV.SlugsDistinct, CV.NewlineFree, Sound, Stored, RenderClient;
  }

  /** Whatever the hash and the addresses: an agent in step is never told to bootstrap again. */
  lemma SyncedIsLeftAlone(c: Setup, w: World)
    requires Inv(c, w) && w.agent.pc.Waiting? && Synced(c, w) && HeartbeatReply(c, w.db, w.agent.version).Ok?
    ensures HeartbeatReply(c, w.db, w.agent.version) == Ok(false)
  {
    AnswerOk(c, w.db);
    CV.PreimageForgetsOrder(w.agent.applied.value.tunnels, SiteTunnels(w.db, c.site));
    hide CV.Preimage, CurrentVersion, CV.AllOk, CV.SlugsDistinct, Sound, Stored, RenderClient;
  }

  // ----- what the answers say, read off the rows -----

  predicate BothLive(c: Setup, db: Db) {
    && c.site in db.sites && !db.sites[c.site].deleted
    && c.project in db.projects && !db.projects[c.project].deleted
  }

  /**
   An answer names the site of the tables, its tunnels and their version; and the endpoint is the
   configured proxy, or the relay host with the control port that the relay writes into the
   project's server config.
   */
  ghost predicate AnswerFits(c: Setup, db: Db, t: T.Table, boot: Boot)
    requires BothLive(c, db) && CV.AllOk(SiteTunnels(db, c.site))
  {
    && boot.site == db.sites[c.site].name
    && boot.tunnels == SiteTunnels(db, c.site) && boot.version == c.versionHash(CV.Preimage(boot.tunnels))
    && ServerOf(db, t, c.project).Ok? && ServerOf(db, t, c.project).value.control >= 0
    && boot.endpoint == if c.authProxy != "" then c.authProxy
                        else c.relayHost + ":" + Dec(ServerOf(db, t, c.project).value.control)
  }

  /** A bootstrap call is answered exactly while site and project are live and the project active. */
  lemma BootstrapExact(c: Setup, db: Db, t: T.Table)
    requires Sound(db) && Stored(db)
    ensures CV.AllOk(SiteTunnels(db, c.site))
    ensures var r := BootstrapReply(c, db);
      && (r == Err(Internal) <==> !BothLive(c, db))
      && (r == Err(FailedPrecondition) <==> BothLive(c, db) && !db.projects[c.project].active)
      && (r.Err? ==> r.error in {Internal, FailedPrecondition})
      && (r.Ok? ==> BothLive(c, db) && AnswerFits(c, db, t, r.value))
  {
    TunnelsOk(db, c.site);
    assert LiveProject(db.projects, c.project) ==> Readable(db.projects, c.project);
    hide Sound, Stored, SiteTunnels, SiteServices, Bindings, Sort;
  }

  /** A heartbeat is answered exactly while the project is live and active, with the comparison of the two versions. */
  lemma HeartbeatExact(c: Setup, db: Db, version: string)
    requires Stored(db)
    ensures CV.AllOk(SiteTunnels(db, c.site))
    ensures HeartbeatReply(c, db, version) ==
      if !(c.project in db.projects && !db.projects[c.project].deleted) then Err(Internal)
      else if !db.projects[c.project].active then Err(FailedPrecondition)
      else Ok(version != c.versionHash(CV.Preimage(SiteTunnels(db, c.site))))
  {
    TunnelsOk(db, c.site);
  }

  /** Rendered by the agent, an answer is exactly the client config of the tables, behind the remote address it is given. */
  lemma AnswerRenders(c: Setup, db: Db, raw: string, remote: string)
    requires Sound(db) && Stored(db) && BootstrapReply(c, db).Ok?
    ensures c.site in db.sites && CV.AllOk(SiteTunnels(db, c.site))
    ensures var boot := BootstrapReply(c, db).value;
      && CV.AllOk(boot.tunnels)
      && RenderClient(c.tokenHash, boot, raw, remote) ==
         if remote == "" then Err(MissingRemote) else if raw == "" then Err(EmptyToken)
         else Ok(ClientConfig(remote, c.tokenHash(raw), ClientRendered(db, c.site)))
  {
    TunnelsOk(db, c.site);
    hide Sound, Stored, CurrentVersion;
  }

  /**
   Every tunnel an agent brings up from an answer is met by the relay: each block of its config has
   its other end in the server config of the same tables.
   */
  lemma AnswerIsServed(c: Setup, db: Db, t: T.Table, raw: string, remote: string, k: ClientBlock) returns (v: Id, b: Block)
    requires Sound(db) && Stored(db) && BootstrapReply(c, db).Ok? && CV.AllOk(BootstrapReply(c, db).value.tunnels)
    requires WithinCaps(db, c.project) && c.site in SitesOf(db, c.project)
    requires var f := RenderClient(c.tokenHash, BootstrapReply(c, db).value, raw, remote); f.Ok? && k in f.value.services
    ensures c.project in db.projects && ServerOf(db, t, c.project).Ok?
    ensures b in ServerOf(db, t, c.project).value.services && EndsOf(db, t, c.site, v, b, k)
  {
    AnswerRenders(c, db, raw, remote);
    BootstrapExact(c, db, t);
    hide Sound, Stored, BootstrapReply, RenderClient, ClientRendered, WithinCaps;
    v, b := ClientBlockServed(db, t, c.project, c.site, k);
  }

  /**
   In step, the file on disk is exactly the client config of the tables as they are now, behind the
   bridge's address once the bridge is up.
   */
  lemma SyncedFile(c: Setup, w: World)
    requires Inv(c, w) && Synced(c, w) && CV.AllOk(SiteTunnels(w.db, c.site))
    ensures c.site in w.db.sites && w.agent.file.Some?
    ensures var file := w.agent.file.value;
      && file.token == c.tokenHash(c.raw) && file.services == ClientRendered(w.db, c.site)
      && (Bridged(w.agent) ==> file.remote == c.local)
  {
    var mine := w.agent.applied.value.tunnels;
    CV.SortedOk(SiteTunnels(w.db, c.site));
    CV.BySlugIsOrder();
    CV.DistinctSeparate(mine);
    SortForgetsOrder(CV.BySlug, mine, SiteTunnels(w.db, c.site));
    hide Sound, Stored, Sort, SiteTunnels;
  }

  /** The version moves only together with the file, and both come from one answer. */
  lemma VersionMovesWithFile(c: Setup, w: World, e: Event)
    requires Inv(c, w) && Enabled(w.agent, e)
    ensures var (a, b) := (w.agent, Next(c, w, e).agent);
      (a.version == b.version && a.file == b.file && a.applied == b.applied)
      || (e.Apply? && b.applied == Some(a.pc.boot) && b.version == a.pc.boot.version && b.file.Some?)
  {
    hide Sound, Stored, BootOk, RenderClient, HeartbeatReply, BootstrapReply;
  }

  // ----- convergence -----

  /** On the way: whatever the agent is about to rest on is what the server has. */
  ghost predicate Settling(c: Setup, w: World) {
    match w.agent.pc
    case Waiting => Synced(c, w)
    case Applying(boot) => multiset(boot.tunnels) == multiset(SiteTunnels(w.db, c.site))
    case _ => true
  }

  /** The one heartbeat that starts it. */
  lemma BeatSettles(c: Setup, w: World)
    requires Inv(c, w) && w.agent.pc.Waiting? && HeartbeatReply(c, w.db, w.agent.version).Ok?
    requires Separable(c, w.agent.applied.value.tunnels, SiteTunnels(w.db, c.site))
    ensures Settling(c, Next(c, w, Beat))
  {
    hide Inv, Separable, HeartbeatReply, Stored, SiteTunnels, ApplyBoot;
    InvStored(c, w);
    DriftExact(c, w);
  }

  lemma InvStored(c: Setup, w: World)
    requires Inv(c, w)
    ensures Stored(w.db)
  {
  }

  /** The agent was configured with a token, and its bridge has an address. */
  predicate Configured(c: Setup) {
    c.raw != "" && c.local != ""
  }

  ghost predicate SameTunnels(c: Setup, db: Db, db': Db) {
    multiset(SiteTunnels(db, c.site)) == multiset(SiteTunnels(db', c.site))
  }

  lemma AnswerHasEndpoint(c: Setup, db: Db)
    requires Stored(db) && BootstrapReply(c, db).Ok?
    ensures BootstrapReply(c, db).value.endpoint != ""
  {
  }

  /** The bridge is up from the first answer on. */
  ghost predicate Bridged(a: Agent) {
    a.applied.Some? || a.pc.Applying? ==> a.bridge.Some?
  }

  lemma BridgedKept(c: Setup, w: World, e: Event)
    requires Inv(c, w) && Enabled(w.agent, e) && Bridged(w.agent)
    ensures Bridged(Next(c, w, e).agent)
  {
    if e.BootAnswer? && BootstrapReply(c, w.db).Ok? {
      AnswerHasEndpoint(c, w.db);
    }
    hide Sound, Stored, BootOk, RenderClient, HeartbeatReply, BootstrapReply;
  }

  lemma ApplySucceeds(c: Setup, w: World)
    requires Inv(c, w) && w.agent.pc.Applying? && Bridged(w.agent) && Configured(c)
    ensures var b := Next(c, w, Apply).agent; b.pc.Waiting? && b.applied == Some(w.agent.pc.boot)
  {
    hide Sound, Stored;
  }

  lemma AnswerLeads(c: Setup, db: Db, a: Agent)
    requires Sound(db) && Stored(db) && a.pc.Booting?
    ensures var b := AgentStep(c, db, a, BootAnswer);
      !b.pc.Waiting? && (b.pc.Applying? ==> b.pc.boot.tunnels == SiteTunnels(db, c.site))
  {
    AnswerOk(c, db);
    hide Sound, Stored, BootOk, CurrentOk, BootstrapReply, HeartbeatReply, SiteTunnels, ApplyBoot, CV.AllOk;
  }

  lemma AnswerIsCurrent(c: Setup, w: World)
    requires Inv(c, w) && w.agent.pc.Booting?
    ensures Settling(c, Next(c, w, BootAnswer))
  {
    AnswerLeads(c, w.db, w.agent);
    hide AgentStep, Sound, Stored, AgentOk, Named, SiteTunnels, ApplyBoot, CV.AllOk, Synced;
  }

  /** While the tunnels stay as they are and no write fails, every step keeps it. */
  lemma SettlingKept(c: Setup, w: World, e: Event)
    requires Inv(c, w) && Enabled(w.agent, e) && Settling(c, w) && Bridged(w.agent) && Configured(c) && !e.ApplyFail?
    requires SameTunnels(c, w.db, DbStep(w.db, e))
    ensures Settling(c, Next(c, w, e))
  {
    match e {
      case BootAnswer => AnswerIsCurrent(c, w);
      case Apply => ApplySucceeds(c, w);
      case _ => hide Sound, Stored, BootOk, RenderClient, HeartbeatReply, BootstrapReply, Do;
    }
  }

  /** es is a run from w in which the tunnels stay as they are and no write fails. */
  ghost predicate QuietRun(c: Setup, w: World, es: seq<Event>)
    requires Inv(c, w)
    ensures QuietRun(c, w, es) ==> IsRun(c, w, es)
    decreases |es|
  {
    es == [] ||
    (Enabled(w.agent, es[0]) && !es[0].ApplyFail? && SameTunnels(c, w.db, DbStep(w.db, es[0])) &&
     (InvKept(c, w, es[0]); QuietRun(c, Next(c, w, es[0]), es[1..])))
  }

  /**
   Once a heartbeat has been answered: as long as the tunnels stay and writes succeed, in every
   later state in which the agent rests it is in step, and every answered heartbeat says so;
   calls may be lost, the agent may bootstrap again, admins may change anything else.
   */
  lemma {:induction false} Converges(c: Setup, w: World, es: seq<Event>)
    requires Inv(c, w) && Settling(c, w) && Bridged(w.agent) && Configured(c) && QuietRun(c, w, es)
    ensures var r := After(c, w, es);
      Settling(c, r) && (r.agent.pc.Waiting? ==> Synced(c, r) && HeartbeatReply(c, r.db, r.agent.version) != Ok(true))
    decreases |es|
  {
    if es == [] {
      if w.agent.pc.Waiting? && HeartbeatReply(c, w.db, w.agent.version).Ok? {
        SyncedIsLeftAlone(c, w);
      }
    } else {
      hide Inv, Settling, Bridged, SameTunnels, Enabled;
      InvKept(c, w, es[0]);
      SettlingKept(c, w, es[0]);
      BridgedKept(c, w, es[0]);
      Converges(c, Next(c, w, es[0]), es[1..]);
    }
  }

  /** The next apply brings the agent to rest in step. */
  ghost predicate RestsNext(c: Setup, w: World) {
    Inv(c, w) && w.agent.pc.Applying? && Next(c, w, Apply).agent.pc.Waiting? && Synced(c, Next(c, w, Apply))
  }

  lemma ApplyRests(c: Setup, w: World)
    requires Inv(c, w) && w.agent.pc.Applying? && Settling(c, w) && Bridged(w.agent) && Configured(c)
    ensures RestsNext(c, w)
  {
    ApplySucceeds(c, w);
    hide Inv, Bridged, ApplyBoot, SiteTunnels;
  }

  /** From booting, one answer and one apply bring the agent to rest in step. */
  lemma TwoStepsToRest(c: Setup, w: World)
    requires Inv(c, w) && w.agent.pc.Booting? && Bridged(w.agent) && Configured(c) && BootstrapReply(c, w.db).Ok?
    ensures RestsNext(c, Next(c, w, BootAnswer))
  {
    var w1 := Next(c, w, BootAnswer);
    assert w1.agent.pc.Applying?;
    hide Inv, Bridged, BootstrapReply, Settling, Synced, AgentStep, RestsNext;
    InvKept(c, w, BootAnswer);
    BridgedKept(c, w, BootAnswer);
    AnswerIsCurrent(c, w);
    ApplyRests(c, w1);
  }

  /** A new agent, on tables that any known requests have filled. */
  ghost function StartWorld(ops: seq<Op>): World {
    World(DbAfter(EMPTY, ops), NEW_AGENT)
  }

  lemma InvInit(c: Setup, ops: seq<Op>)
    requires forall op <- ops :: KnownProtocols(op)
    ensures Inv(c, StartWorld(ops)) && Bridged(StartWorld(ops).agent)
  {
    SoundAlways(EMPTY, ops);
    StoredAlways(EMPTY, ops);
  }

  lemma {:induction false} BridgedAlways(c: Setup, w: World, es: seq<Event>)
    requires Inv(c, w) && Bridged(w.agent) && IsRun(c, w, es)
    ensures Bridged(After(c, w, es).agent)
    decreases |es|
  {
    hide Inv, Bridged, Enabled;
    if es != [] {
      InvKept(c, w, es[0]);
      BridgedKept(c, w, es[0]);
      BridgedAlways(c, Next(c, w, es[0]), es[1..]);
    }
  }

  /**
   Over every run from a new agent, with any failures, lost calls and admin changes: the version the
   agent reports and the file on its disk are those of one answer, its bridge is up once it has one,
   and an answered heartbeat says "no need" exactly when that answer is still current.
   */
  lemma DriftAlways(c: Setup, ops: seq<Op>, es: seq<Event>)
    requires (forall op <- ops :: KnownProtocols(op)) && Inv(c, StartWorld(ops)) && IsRun(c, StartWorld(ops), es)
    ensures var r := After(c, StartWorld(ops), es);
      && AgentOk(c, r.agent) && Bridged(r.agent) && Stored(r.db)
      && (r.agent.pc.Waiting? && HeartbeatReply(c, r.db, r.agent.version).Ok?
          && Separable(c, r.agent.applied.value.tunnels, SiteTunnels(r.db, c.site)) ==>
          (HeartbeatReply(c, r.db, r.agent.version) == Ok(false) <==> Synced(c, r)))
  {
    InvInit(c, ops);
    BridgedAlways(c, StartWorld(ops), es);
    var r := After(c, StartWorld(ops), es);
    hide Separable, HeartbeatReply, Synced, SiteTunnels, IsRun, After;
    if r.agent.pc.Waiting? && HeartbeatReply(c, r.db, r.agent.version).Ok?
       && Separable(c, r.agent.applied.value.tunnels, SiteTunnels(r.db, c.site)) {
      DriftExact(c, r);
    }
  }
}
