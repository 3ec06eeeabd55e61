/**
 Where the two ends meet: the port that the relay writes on top of a project's server config is
 the one agents are sent to, by the auth proxy and by a bootstrap answer alike, and nothing else
 is bound there.
 */
module ControlPort {
  import opened Wrappers
  import opened Text
  import opened PortRange
  import opened Sorting
  import opened Ledger
  import opened LedgerInvariant
  import opened LedgerRows
  import opened Render
  import opened RenderAgreement
  import D = Drift
  import DT = DriftTheorems
  import CV = ConfigVersion
  import R = Router
  import T = Tokens

  /** A config is rendered exactly from a readable range, whose least port is the control port, whatever the bindings. */
  lemma ControlIsLeastPort(portRange: string, bs: seq<Binding>, min: nat, max: nat)
    ensures var r := RenderServer(portRange, bs);
      && (r.Err? ==> r == Err(BadRange))
      && (min < max <= 65535 && IsRange(portRange, min, max) ==> r.Ok? && r.value.control == min)
      && (r.Ok? ==> exists n, m :: n < m <= 65535 && IsRange(portRange, n, m))
  {
    RangeExact(portRange, min, max);
    var p := ParsePortRange(portRange);
    if p.Ok? {
      RangeExact(portRange, p.value.0, p.value.1);
    }
    hide ParsePortRange, IsRange, Sort;
  }

  lemma ServerIs(db: Db, t: T.Table, p: Id)
    requires Sound(db) && LiveProject(db.projects, p)
    ensures Readable(db.projects, p)
    ensures ServerOf(db, t, p) == Ok(ServerConfig(RangeOf(db.projects, p).0, Rendered(db, t, p)))
  {
    assert Readable(db.projects, p);
    hide Sound, Bindings, Sort, ParsePortRange;
  }

  /**
   The control port of a live project's config: no other live project's config has it, and while no
   delete was forced and no range changed no block of any config, its own included, is bound to it.
   */
  lemma ControlIsFree(db: Db, t: T.Table, p: Id, q: Id, k: Block)
    requires Sound(db) && LiveProject(db.projects, p) && q in db.projects
    ensures ServerOf(db, t, p).Ok?
    ensures LiveProject(db.projects, q) && q != p ==>
      ServerOf(db, t, q).Ok? && ServerOf(db, t, q).value.control != ServerOf(db, t, p).value.control
    ensures Anchored(db) && ServerOf(db, t, q).Ok? && k in ServerOf(db, t, q).value.services ==>
      k.bind != ServerOf(db, t, p).value.control
  {
    ServerIs(db, t, p);
    if LiveProject(db.projects, q) && q != p {
      ServerIs(db, t, q);
      ParsedRangeHasRoom(db.projects[p].portRange);
      ParsedRangeHasRoom(db.projects[q].portRange);
      assert !Overlap(RangeOf(db.projects, p).0, RangeOf(db.projects, p).1, RangeOf(db.projects, q).0, RangeOf(db.projects, q).1);
    }
    hide Sound, Anchored, Bindings, Sort, ParsePortRange;
    if Anchored(db) && ServerOf(db, t, q).Ok? && k in ServerOf(db, t, q).value.services {
      assert k in Rendered(db, t, q);
      BindsGloballyApart(db, t, q, p, k, k);
    }
  }

  /** Site s is live, in live project p, and p is active. */
  predicate Serves(db: Db, s: Id, p: Id) {
    && s in db.sites && !db.sites[s].deleted && db.sites[s].project == p
    && p in db.projects && !db.projects[p].deleted && db.projects[p].active
  }

  predicate LeadsTo(r: Result<string, R.RouteError>, server: Result<ServerConfig, RenderError>) {
    server.Ok? && server.value.control >= 0 && r == Ok("127.0.0.1" + ":" + Dec(server.value.control))
  }

  /** The auth proxy sends an agent to the control port of its project's server config, or nowhere. */
  lemma AgentReachesControl(db: Db, t: T.Table, s: Id, p: Id)
    requires Sound(db)
    ensures Serves(db, s, p) ==> LeadsTo(R.RouteSiteAgent(db, s), ServerOf(db, t, p))
    ensures (forall q :: !Serves(db, s, q)) ==> R.RouteSiteAgent(db, s) == Err(R.Unauthenticated)
  {
    R.AgentRouteIs(db, s);
    if Serves(db, s, p) {
      ServerIs(db, t, p);
    }
    assert R.Serving(db, s) ==> Serves(db, s, db.sites[s].project);
    hide Sound, Bindings, Sort, ParsePortRange, Dec;
  }

  /**
   The whole way of an agent whose bootstrap is answered and whose token is its site's current one: the
   auth proxy leads it, whatever target it names, to the control port of the config that the relay
   renders from the same tables; without a proxy its answer names that port on the relay's host; and
   every block of the config it writes has its other end under that port.
   */
  lemma AgentMeetsItsRelay(c: D.Setup, w: R.World, now: int, k: Id, target: string, remote: string, b: ClientBlock)
      returns (v: Id, e: Block)
    requires Sound(w.db) && Stored(w.db) && WithinCaps(w.db, c.project) && c.site in SitesOf(w.db, c.project)
    requires T.IdsOk(w.tokens) && T.Usable(w.tokens, k, c.tokenHash(c.raw), now) && w.tokens.rows[k].site == c.site
    requires forall j :: j < k ==> !T.Usable(w.tokens, j, c.tokenHash(c.raw), now)
    requires D.BootstrapReply(c, w.db).Ok? && CV.AllOk(D.BootstrapReply(c, w.db).value.tunnels)
    requires var f := RenderClient(c.tokenHash, D.BootstrapReply(c, w.db).value, c.raw, remote); f.Ok? && b in f.value.services
    ensures c.project in w.db.projects && LeadsTo(R.Route(c.tokenHash, w, c.raw, target, now), ServerOf(w.db, w.tokens, c.project))
    ensures var server := ServerOf(w.db, w.tokens, c.project).value;
      && (c.authProxy == "" ==> D.BootstrapReply(c, w.db).value.endpoint == c.relayHost + ":" + Dec(server.control))
      && e in server.services && EndsOf(w.db, w.tokens, c.site, v, e, b)
  {
    DT.BootstrapExact(c, w.db, w.tokens);
    v, e := DT.AnswerIsServed(c, w.db, w.tokens, c.raw, remote, b);
    AgentReachesControl(w.db, w.tokens, c.site, c.project);
    hide Sound, Stored, WithinCaps, ServerOf, R.Route, R.RouteSiteAgent, Dec, T.IdsOk, D.BootstrapReply;
    R.AgentComesFirst(c.tokenHash, w, c.raw, target, now, k);
  }
}
