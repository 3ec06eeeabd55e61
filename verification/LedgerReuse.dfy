/**
 When a port can be handed out twice. Gentle handlers never take a port from a live service,
 but a service whose port lies outside its project's range, or whose site or project is
 deleted, may see the port given to another. These lemmas say exactly which services are
 exposed in this way, and so which forced deletes and range changes break the promise that
 live services hold different ports.
 */
module LedgerReuse {
  import opened Wrappers
  import opened Text
  import opened Names
  import opened PortRange
  import opened Ledger
  import opened LedgerInvariant
  import opened LedgerEffects
  import opened LedgerReplies
  import opened LedgerLimits
  import opened LedgerRows

  /** Whatever gentle handlers follow, no two live services hold one port. */
  ghost predicate KeepsPorts(db: Db) {
    forall ops: seq<Op> :: AllGentle(ops) ==> NoPortTwice(DbAfter(db, ops).services)
  }

  ghost predicate AllGentle(ops: seq<Op>) {
    forall op <- ops :: Gentle(op)
  }

  predicate Placed(db: Db, v: Id) {
    && LiveService(db.services, v) && db.services[v].relayPort.Some?
    && LiveSite(db.sites, db.services[v].site)
    && LiveProject(db.projects, db.sites[db.services[v].site].project)
    && Readable(db.projects, db.sites[db.services[v].site].project)
  }

  /** Port q is in the range, or one above it: no range that could hand q out is disjoint from this one. */
  predicate Near(r: (int, int), q: int) {
    r.0 <= q <= r.1 + 1
  }

  /**
   A service on a live site of a live project whose port is in the range, or is its control port,
   or is one above it. This project allocates neither of the last two, and no other project can
   while its range must be disjoint from this one.
   */
  predicate Guarded(db: Db, v: Id) {
    Placed(db, v) && Near(RangeOf(db.projects, db.sites[db.services[v].site].project), db.services[v].relayPort.value)
  }

  ghost predicate AllGuarded(db: Db) {
    forall v :: LiveService(db.services, v) ==> Guarded(db, v)
  }

  // ----- guarded services keep their ports to themselves -----

  ghost predicate Safe(db: Db) {
    Sound(db) && AllGuarded(db) && NoPortTwice(db.services)
  }

  /** A port that is free in its project is free everywhere. */
  lemma NewPortUnused(db: Db, p: Id, port: int, v: Id)
    requires Sound(db) && AllGuarded(db) && LiveProject(db.projects, p) && LiveService(db.services, v)
    requires RangeOf(db.projects, p).0 < port <= RangeOf(db.projects, p).1 && port !in UsedPorts(db, p)
    ensures PortOf(db.services, v) != Some(port)
  {
    assert Guarded(db, v);
    var r := db.sites[db.services[v].site].project;
    assert Holds(db.sites, db.services, r, v);
    if r == p {
      assert db.services[v].relayPort.value in UsedPorts(db, p);
    } else {
      assert !Overlap(RangeOf(db.projects, r).0, RangeOf(db.projects, r).1, RangeOf(db.projects, p).0, RangeOf(db.projects, p).1);
    }
  }

  lemma CreateProjectSafe(db: Db, slug: string, name: string, portRange: string, mode: string, backend: string)
    requires Safe(db)
    ensures Safe(CreateProject(db, slug, name, portRange, mode, backend).0)
  {
    var w := CreateProject(db, slug, name, portRange, mode, backend).0;
    CreateProjectKept(db, slug, name, portRange, mode, backend);
    if w != db {
      assert w.projects == db.projects[db.nextProject := w.projects[db.nextProject]];
      hide CreateProject, RangesDisjoint, SlugsUnique, PortsDistinct, SitesUnique, ServicesUnique;
      forall v | LiveService(w.services, v) ensures Guarded(w, v) {
        assert Guarded(db, v);
      }
    }
  }

  lemma UpdateProjectSafe(db: Db, slug: string, mask: seq<string>, body: ProjectBody)
    requires Safe(db) && "relay_port_range" !in mask
    ensures Safe(UpdateProject(db, slug, mask, body).0)
  {
    var w := UpdateProject(db, slug, mask, body).0;
    UpdateProjectKept(db, slug, mask, body);
    if w != db {
      var p := FindProject(db, slug, 1).value;
      MaskShape(db, p, db.projects[p], mask, body);
      assert w == db.(projects := db.projects[p := w.projects[p]]);
      hide UpdateProject, RangesDisjoint, SlugsUnique, PortsDistinct, SitesUnique, ServicesUnique, ApplyMask;
      forall v | LiveService(w.services, v) ensures Guarded(w, v) {
        assert Guarded(db, v);
      }
    }
  }

  lemma DeleteProjectSafe(db: Db, slug: string)
    requires Safe(db)
    ensures Safe(DeleteProject(db, slug, false).0)
  {
    var w := DeleteProject(db, slug, false).0;
    DeleteProjectKept(db, slug, false);
    if w != db {
      var p := FindProject(db, slug, 1).value;
      hide RangesDisjoint, SlugsUnique, PortsDistinct, SitesUnique, ServicesUnique;
      forall v | LiveService(w.services, v) ensures Guarded(w, v) {
        assert Guarded(db, v);
        assert db.services[v].site !in SitesOf(db, p);
      }
    }
  }

  lemma CreateSiteSafe(db: Db, project: string, site: string, display: string)
    requires Safe(db)
    ensures Safe(CreateSite(db, project, site, display).0)
  {
    var w := CreateSite(db, project, site, display).0;
    CreateSiteKept(db, project, site, display);
    if w != db {
      hide RangesDisjoint, SlugsUnique, PortsDistinct, SitesUnique, ServicesUnique;
      forall v | LiveService(w.services, v) ensures Guarded(w, v) {
        assert Guarded(db, v);
      }
    }
  }

  lemma DeleteSiteSafe(db: Db, project: string, site: string)
    requires Safe(db)
    ensures Safe(DeleteSite(db, project, site, false).0)
  {
    var w := DeleteSite(db, project, site, false).0;
    DeleteSiteKept(db, project, site, false);
    if w != db {
      var s := FindSite(db, FindProject(db, project, 1).value, site, 1).value;
      hide RangesDisjoint, SlugsUnique, PortsDistinct, SitesUnique, ServicesUnique;
      forall v | LiveService(w.services, v) ensures Guarded(w, v) {
        assert Guarded(db, v);
        assert v !in ServicesOf(db, s);
      }
    }
  }

  lemma CreateServiceSafe(db: Db, project: string, site: string, service: string, body: ServiceBody)
    requires Safe(db)
    ensures Safe(CreateService(db, project, site, service, body).0)
  {
    var w := CreateService(db, project, site, service, body).0;
    CreateServiceKept(db, project, site, service, body);
    if w != db {
      var p := FindProject(db, project, 1).value;
      var s := FindSite(db, p, site, 1).value;
      var port := AllocateRelayPort(db, p).value;
      var n := db.nextService;
      assert w.services == db.services[n := w.services[n]] && w.services[n].site == s && w.services[n].relayPort == Some(port);
      assert w.projects == db.projects && w.sites == db.sites;
      AllocateIsLeastFree(db, p);
      ServiceAddedSafe(db, w, p, s, port);
    }
  }

  lemma ServiceAddedSafe(db: Db, w: Db, p: Id, s: Id, port: int)
    requires Safe(db) && Sound(w) && w.projects == db.projects && w.sites == db.sites
    requires db.nextService in w.services && w.services == db.services[db.nextService := w.services[db.nextService]]
    requires w.services[db.nextService].site == s && w.services[db.nextService].relayPort == Some(port)
    requires LiveProject(db.projects, p) && LiveSite(db.sites, s) && db.sites[s].project == p
    requires RangeOf(db.projects, p).0 < port <= RangeOf(db.projects, p).1 && port !in UsedPorts(db, p)
    ensures Safe(w)
  {
    var n := db.nextService;
    forall v | LiveService(db.services, v) ensures PortOf(db.services, v) != Some(port) {
      NewPortUnused(db, p, port, v);
    }
    hide Sound, UsedPorts;
    assert forall v :: v != n ==> LiveService(w.services, v) == LiveService(db.services, v) && PortOf(w.services, v) == PortOf(db.services, v);
    forall v | LiveService(w.services, v) ensures Guarded(w, v) {
      assert v != n ==> Guarded(db, v);
    }
  }

  /** A live service changed in place, or deleted. */
  lemma ServiceSetSafe(db: Db, v: Id, row: Service)
    requires Safe(db) && LiveService(db.services, v)
    requires row.site == db.services[v].site && row.name == db.services[v].name && row.relayPort == db.services[v].relayPort
    ensures Safe(db.(services := db.services[v := row]))
  {
    var w := db.(services := db.services[v := row]);
    ServiceReplaced(db, v, row);
    hide Sound;
    assert forall x :: LiveService(w.services, x) ==> LiveService(db.services, x) && PortOf(w.services, x) == PortOf(db.services, x);
    forall x | LiveService(w.services, x) ensures Guarded(w, x) {
      assert Guarded(db, x);
    }
  }

  lemma UpdateServiceSafe(db: Db, project: string, site: string, service: string, mask: seq<string>, body: ServiceBody)
    requires Safe(db)
    ensures Safe(UpdateService(db, project, site, service, mask, body).0)
  {
    hide Safe, ApplyServiceMask, ResolveService;
    if UpdateService(db, project, site, service, mask, body).0 != db {
      var v := ResolveService(db, project, site, service).value;
      ServiceMaskShape(db.services[v], mask, body);
      ServiceSetSafe(db, v, ApplyServiceMask(db.services[v], mask, body).value);
    }
  }

  lemma DeleteServiceSafe(db: Db, project: string, site: string, service: string)
    requires Safe(db)
    ensures Safe(DeleteService(db, project, site, service).0)
  {
    hide Safe, ResolveService;
    if DeleteService(db, project, site, service).0 != db {
      var v := ResolveService(db, project, site, service).value;
      ServiceSetSafe(db, v, db.services[v].(deleted := true));
    }
  }

  lemma GentleSafe(db: Db, op: Op)
    requires Safe(db) && Gentle(op)
    ensures Safe(Do(db, op).0)
  {
    hide Safe, CreateProject, UpdateProject, DeleteProject, CreateSite, DeleteSite, CreateService, UpdateService, DeleteService;
    match op
    case OpCreateProject(slug, name, portRange, mode, backend) => CreateProjectSafe(db, slug, name, portRange, mode, backend);
    case OpUpdateProject(slug, mask, change) => UpdateProjectSafe(db, slug, mask, change);
    case OpDeleteProject(slug, _) => DeleteProjectSafe(db, slug);
    case OpCreateSite(project, site, display) => CreateSiteSafe(db, project, site, display);
    case OpDeleteSite(project, site, _) => DeleteSiteSafe(db, project, site);
    case OpCreateService(project, site, service, body) => CreateServiceSafe(db, project, site, service, body);
    case OpUpdateService(project, site, service, mask, body) => UpdateServiceSafe(db, project, site, service, mask, body);
    case OpDeleteService(project, site, service) => DeleteServiceSafe(db, project, site, service);
  }

  lemma {:induction false} SafeAlways(db: Db, ops: seq<Op>)
    requires Safe(db) && AllGentle(ops)
    ensures Safe(DbAfter(db, ops))
    decreases |ops|
  {
    hide Safe, Do, Gentle;
    if ops != [] {
      GentleSafe(db, ops[0]);
      SafeAlways(Do(db, ops[0]).0, ops[1..]);
    }
  }

  // ----- an unguarded port is handed out again -----

  /** Service v is one that the handlers reach through project p. */
  predicate On(db: Db, p: Id, v: Id) {
    LiveService(db.services, v) && LiveSite(db.sites, db.services[v].site) && db.sites[db.services[v].site].project == p
  }

  function LiveProjects(db: Db): set<Id> {
    set p | p in db.projects && LiveProject(db.projects, p)
  }

  function LiveSites(db: Db): set<Id> {
    set s | s in db.sites && LiveSite(db.sites, s)
  }

  function LiveServices(db: Db): set<Id> {
    set v | v in db.services && LiveService(db.services, v)
  }

  function LiveRows(db: Db): nat {
    |LiveProjects(db)| + |LiveSites(db)| + |LiveServices(db)|
  }

  /** Tables w are tables db with some rows deleted, the row of service v not among them. */
  ghost predicate Dwindles(db: Db, w: Db, v: Id) {
    && LiveService(db.services, v) && LiveService(w.services, v) && w.services[v] == db.services[v]
    && (forall s :: LiveSite(w.sites, s) ==> LiveSite(db.sites, s) && w.sites[s] == db.sites[s])
    && (forall p :: LiveProject(w.projects, p) ==> LiveProject(db.projects, p) && w.projects[p] == db.projects[p])
  }

  lemma ServiceRowGone(db: Db, x: Id, v: Id)
    requires LiveService(db.services, x) && LiveService(db.services, v) && v != x
    ensures var w := db.(services := db.services[x := db.services[x].(deleted := true)]);
      Dwindles(db, w, v) && LiveRows(w) < LiveRows(db)
  {
    var w := db.(services := db.services[x := db.services[x].(deleted := true)]);
    assert LiveServices(w) == LiveServices(db) - {x} && LiveSites(w) == LiveSites(db) && LiveProjects(w) == LiveProjects(db);
  }

  lemma SiteRowGone(db: Db, s: Id, v: Id)
    requires LiveSite(db.sites, s) && LiveService(db.services, v)
    ensures var w := db.(sites := db.sites[s := db.sites[s].(deleted := true)]);
      Dwindles(db, w, v) && LiveRows(w) < LiveRows(db)
  {
    var w := db.(sites := db.sites[s := db.sites[s].(deleted := true)]);
    assert LiveServices(w) == LiveServices(db) && LiveSites(w) == LiveSites(db) - {s} && LiveProjects(w) == LiveProjects(db);
  }

  lemma ProjectRowGone(db: Db, p: Id, v: Id)
    requires LiveProject(db.projects, p) && LiveService(db.services, v)
    ensures var w := db.(projects := db.projects[p := db.projects[p].(deleted := true)]);
      Dwindles(db, w, v) && LiveRows(w) < LiveRows(db)
  {
    var w := db.(projects := db.projects[p := db.projects[p].(deleted := true)]);
    assert LiveServices(w) == LiveServices(db) && LiveSites(w) == LiveSites(db) && LiveProjects(w) == LiveProjects(db) - {p};
  }

  lemma SlugsStored(db: Db, p: Id, s: Id, v: Id)
    requires Stored(db)
    ensures p in db.projects ==> Slug(db.projects[p].slug)
    ensures s in db.sites ==> Slug(db.sites[s].name)
    ensures v in db.services ==> Slug(db.services[v].name)
  {
    hide Slug;
    assert v in db.services ==> ServiceStored(db.services[v]);
  }

  function DropService(db: Db, p: Id, s: Id, x: Id): Op
    requires p in db.projects && s in db.sites && x in db.services
  {
    OpDeleteService(db.projects[p].slug, db.sites[s].name, db.services[x].name)
  }

  function DropSite(db: Db, p: Id, s: Id): Op
    requires p in db.projects && s in db.sites
  {
    OpDeleteSite(db.projects[p].slug, db.sites[s].name, false)
  }

  function DropProject(db: Db, p: Id): Op
    requires p in db.projects
  {
    OpDeleteProject(db.projects[p].slug, false)
  }

  /** A project that does not reach v can be taken down gently, one row at a time. */
  lemma Drop(db: Db, p: Id, v: Id) returns (op: Op)
    requires Sound(db) && Stored(db) && LiveProject(db.projects, p) && LiveService(db.services, v) && !On(db, p, v)
    ensures Gentle(op) && KnownProtocols(op) && Dwindles(db, Do(db, op).0, v) && LiveRows(Do(db, op).0) < LiveRows(db)
  {
    hide Sound, Stored, Dwindles, LiveRows, Slug, DeleteService, DeleteSite, DeleteProject;
    if x :| On(db, p, x) {
      var s := db.services[x].site;
      SlugsStored(db, p, s, x);
      DeletesService(db, p, s, x);
      ServiceRowGone(db, x, v);
      op := DropService(db, p, s, x);
    } else if SitesOf(db, p) != {} {
      var s := Pick(SitesOf(db, p));
      assert forall x :: LiveService(db.services, x) && db.services[x].site == s ==> On(db, p, x);
      assert ServicesOf(db, s) == {} by { assert forall x :: x !in ServicesOf(db, s); }
      SlugsStored(db, p, s, v);
      DeletesSite(db, p, s, false);
      SiteRowGone(db, s, v);
      op := DropSite(db, p, s);
    } else {
      SlugsStored(db, p, db.services[v].site, v);
      DeletesProject(db, p, false);
      ProjectRowGone(db, p, v);
      op := DropProject(db, p);
    }
  }

  lemma DwindlesOn(a: Db, b: Db, c: Db, v: Id)
    requires Dwindles(a, b, v) && Dwindles(b, c, v)
    ensures Dwindles(a, c, v)
  {
  }

  ghost predicate OnlyHome(db: Db, v: Id) {
    forall p :: LiveProject(db.projects, p) ==> On(db, p, v)
  }

  /** Gently, every project that does not reach v goes. */
  lemma {:induction false} Clear(db: Db, v: Id) returns (ops: seq<Op>)
    requires Sound(db) && Stored(db) && LiveService(db.services, v)
    ensures AllGentle(ops) && (var w := DbAfter(db, ops); Sound(w) && Stored(w) && Dwindles(db, w, v) && OnlyHome(w, v))
    decreases LiveRows(db)
  {
    hide Sound, Stored, Do, Gentle, KnownProtocols, LiveRows, On;
    if p :| LiveProject(db.projects, p) && !On(db, p, v) {
      var op := Drop(db, p, v);
      DoKept(db, op);
      DoStored(db, op);
      var rest := Clear(Do(db, op).0, v);
      ops := [op] + rest;
      assert ops[1..] == rest;
      DwindlesOn(db, Do(db, op).0, DbAfter(db, ops), v);
    } else {
      ops := [];
    }
  }

  // the run that hands the port of v out again

  function Again(q: int, slug: string): seq<Op>
    requires 0 < q
  {
    [OpCreateProject(slug, "again", FormatRange(q - 1, q), "endpoint", "rathole"), OpCreateSite(slug, "s", "S"),
     OpCreateService(slug, "s", "v", ServiceBody("localhost", 22, None))]
  }

  lemma OneLetterSlugs()
    ensures Slug("a") && Slug("b") && Slug("s") && Slug("v")
  {
  }

  lemma NewProjectFits(db: Db, v: Id, q: int)
    requires Sound(db) && OnlyHome(db, v) && LiveService(db.services, v) && PortOf(db.services, v) == Some(q) && !Guarded(db, v)
    ensures !OverlapsAny(db, q - 1, q, 0)
    ensures FindProject(db, "a", 1).None? || FindProject(db, "b", 1).None?
  {
    forall p | LiveProject(db.projects, p) ensures !Meets(db, p, q - 1, q, 0) {
      assert On(db, p, v);
    }
    var home := db.sites[db.services[v].site].project;
    assert forall p :: LiveProject(db.projects, p) ==> On(db, p, v) && p == home;
  }

  lemma AgainProject(db: Db, q: int, slug: string)
    requires Sound(db) && slug in {"a", "b"} && FindProject(db, slug, 1).None? && 0 < q <= MAX_PORT && !OverlapsAny(db, q - 1, q, 0)
    ensures var row := Project(slug, "again", FormatRange(q - 1, q), "endpoint", "rathole", true, false);
      Do(db, Again(q, slug)[0]).0 == db.(projects := db.projects[db.nextProject := row], nextProject := db.nextProject + 1)
  {
    RangeRoundTrip(q - 1, q);
    OneLetterSlugs();
    assert FormatRange(q - 1, q) != "";
    hide Sound, Slug, FormatRange, ParsePortRange, OverlapsAny, FindProject;
  }

  lemma NextProjectUnused(db: Db)
    requires Sound(db)
    ensures forall s :: LiveSite(db.sites, s) ==> db.sites[s].project != db.nextProject
  {
  }

  lemma AgainSite(db: Db, q: int, slug: string, p: Id)
    requires Sound(db) && slug in {"a", "b"} && LiveProject(db.projects, p) && db.projects[p].slug == slug && 0 < q
    requires forall s :: LiveSite(db.sites, s) ==> db.sites[s].project != p
    ensures Do(db, Again(q, slug)[1]).0 == db.(sites := db.sites[db.nextSite := Site(p, "s", false)], nextSite := db.nextSite + 1)
    ensures forall v :: LiveService(db.services, v) ==> db.services[v].site != db.nextSite
  {
    ProjectFound(db, p);
    OneLetterSlugs();
    assert FindSite(db, p, "s", 1).None?;
    assert forall v <- db.services :: db.services[v].site in db.sites;
    hide FormatRange, ParsePortRange, FindSite, FindProject;
  }

  lemma AgainService(db: Db, q: int, slug: string, p: Id, s: Id)
    requires Sound(db) && slug in {"a", "b"} && LiveProject(db.projects, p) && db.projects[p].slug == slug && 0 < q <= MAX_PORT
    requires db.projects[p].portRange == FormatRange(q - 1, q)
    requires LiveSite(db.sites, s) && db.sites[s] == Site(p, "s", false) 
    requires forall t :: LiveSite(db.sites, t) && db.sites[t].project == p ==> t == s
    requires forall v :: LiveService(db.services, v) ==> db.services[v].site != s
    ensures var row := Service(s, "v", "localhost", 22, "tcp", Some(q), false);
      Do(db, Again(q, slug)[2]).0 == db.(services := db.services[db.nextService := row], nextService := db.nextService + 1)
  {
    AgainPlace(db, q, slug, p, s);
    OneLetterSlugs();
    hide Slug, Sound, FormatRange, FindSite, FindProject, FindService, AllocateRelayPort;
    hide CreateProject, UpdateProject, DeleteProject, CreateSite, DeleteSite, UpdateService, DeleteService;
  }

  lemma NoneUsed(db: Db, p: Id)
    requires forall v :: !Holds(db.sites, db.services, p, v)
    ensures UsedPorts(db, p) == {}
  {
  }

  lemma AgainPlace(db: Db, q: int, slug: string, p: Id, s: Id)
    requires Sound(db) && LiveProject(db.projects, p) && db.projects[p].slug == slug && 0 < q <= MAX_PORT
    requires db.projects[p].portRange == FormatRange(q - 1, q)
    requires LiveSite(db.sites, s) && db.sites[s] == Site(p, "s", false)
    requires forall t :: LiveSite(db.sites, t) && db.sites[t].project == p ==> t == s
    requires forall v :: LiveService(db.services, v) ==> db.services[v].site != s
    ensures FindProject(db, slug, 1) == Some(p) && FindSite(db, p, "s", 1) == Some(s) && FindService(db, s, "v", 1).None?
    ensures AllocateRelayPort(db, p) == Ok(q)
  {
    hide Sound, FormatRange, ParsePortRange, UsedPorts;
    ProjectFound(db, p);
    SiteFound(db, s);
    RangeRoundTrip(q - 1, q);
    NoneUsed(db, p);
    assert LowestFree({}, q, q) == Some(q);
  }

  /** A new project around the port of an unguarded service gives that port to its first service. */
  lemma PortAgain(db: Db, v: Id, q: int) returns (slug: string)
    requires Sound(db) && OnlyHome(db, v) && LiveService(db.services, v) && PortOf(db.services, v) == Some(q) && !Guarded(db, v)
    requires 0 < q <= MAX_PORT
    ensures slug in {"a", "b"} && !NoPortTwice(DbAfter(db, Again(q, slug)).services)
  {
    NewProjectFits(db, v, q);
    assert v < db.nextService;
    hide *;
    slug := if FindProject(db, "a", 1).None? then "a" else "b";
    AgainRuns(db, q, slug);
    SecondHolder(db.services, DbAfter(db, Again(q, slug)).services, v, db.nextService);
  }

  lemma SecondHolder(vs: map<Id, Service>, ws: map<Id, Service>, v: Id, n: Id)
    requires n in ws && ws == vs[n := ws[n]] && LiveService(vs, v) && LiveService(ws, n) && v != n
    requires PortOf(vs, v) == PortOf(ws, n)
    ensures !NoPortTwice(ws)
  {
    assert LiveService(ws, v) && PortOf(ws, v) == PortOf(ws, n);
  }

  /** The run adds one service, with port q, and leaves the others alone. */
  lemma AgainRuns(db: Db, q: int, slug: string)
    requires Sound(db) && slug in {"a", "b"} && FindProject(db, slug, 1).None? && 0 < q <= MAX_PORT && !OverlapsAny(db, q - 1, q, 0)
    ensures var vs := DbAfter(db, Again(q, slug)).services;
      db.nextService in vs && LiveService(vs, db.nextService) && PortOf(vs, db.nextService) == Some(q)
      && vs == db.services[db.nextService := vs[db.nextService]]
  {
    hide Sound, Do, FindProject, OverlapsAny, FormatRange;
    var ops := Again(q, slug);
    var n := db.nextProject;
    AgainProject(db, q, slug);
    NextProjectUnused(db);
    var d1 := Do(db, ops[0]).0;
    DoKept(db, ops[0]);
    AgainSite(d1, q, slug, n);
    var d2 := Do(d1, ops[1]).0;
    DoKept(d1, ops[1]);
    AgainService(d2, q, slug, n, d1.nextSite);
    DbAfterThree(db, ops);
  }

  lemma UnguardedShares(db: Db, v: Id)
    requires Sound(db) && Stored(db) && LiveService(db.services, v) && !Guarded(db, v)
    ensures !KeepsPorts(db)
  {
    var q := db.services[v].relayPort.value;
    assert ServiceStored(db.services[v]);
    hide Sound, Stored, Do, Again;
    var ops := Clear(db, v);
    var w := DbAfter(db, ops);
    assert Guarded(w, v) ==> Guarded(db, v);
    var slug := PortAgain(w, v, q);
    DbAfterConcat(db, ops, Again(q, slug));
    assert AllGentle(ops + Again(q, slug)) by { AgainGentle(q, slug); }
  }

  lemma AgainGentle(q: int, slug: string)
    requires 0 < q
    ensures AllGentle(Again(q, slug))
  {
  }

  /**
   In sound tables where no port is held twice yet, every gentle continuation keeps it so
   exactly when every live service is guarded.
   */
  lemma PortsKeptExactly(db: Db)
    requires Sound(db) && Stored(db) && NoPortTwice(db.services)
    ensures KeepsPorts(db) <==> AllGuarded(db)
  {
    hide Sound, Stored, Guarded;
    if AllGuarded(db) {
      forall ops: seq<Op> | AllGentle(ops) ensures NoPortTwice(DbAfter(db, ops).services) {
        SafeAlways(db, ops);
      }
    } else {
      var v :| LiveService(db.services, v) && !Guarded(db, v);
      UnguardedShares(db, v);
    }
  }

  // ----- which forced deletes and range changes lose the promise -----

  lemma PromiseIsGuard(db: Db, op: Op)
    requires Safe(db) && Stored(db) && KnownProtocols(op) && Do(db, op).0.services == db.services
    ensures KeepsPorts(Do(db, op).0) <==> AllGuarded(Do(db, op).0)
    ensures AllGuarded(db) && RangesDisjoint(db.projects) && RangesDisjoint(Do(db, op).0.projects)
  {
    DoKept(db, op);
    DoStored(db, op);
    hide Do;
    PortsKeptExactly(Do(db, op).0);
  }

  /** The range can be read, and is near the port of every service reached through project p. */
  ghost predicate NearAll(db: Db, p: Id, portRange: string) {
    ParsePortRange(portRange).Ok?
    && forall v :: On(db, p, v) ==>
         db.services[v].relayPort.Some? && Near(ParsePortRange(portRange).value, db.services[v].relayPort.value)
  }

  /**
   An update of a project keeps the promise exactly when it is refused, its mask leaves the range
   alone, or the range it asks for is near the port of every service reached through the project.
   */
  lemma ProjectUpdateExact(db: Db, slug: string, mask: seq<string>, body: ProjectBody)
    requires Safe(db) && Stored(db)
    ensures var (w, reply) := UpdateProject(db, slug, mask, body);
      KeepsPorts(w) <==>
        reply != OK || "relay_port_range" !in mask || NearAll(db, FindProject(db, slug, 1).value, body.portRange)
  {
    var (w, reply) := UpdateProject(db, slug, mask, body);
    PromiseIsGuard(db, OpUpdateProject(slug, mask, body));
    if reply == OK {
      var p := FindProject(db, slug, 1).value;
      MaskExact(db, p, db.projects[p], mask, body);
      MaskShape(db, p, db.projects[p], mask, body);
      assert w == db.(projects := db.projects[p := w.projects[p]]) && LiveProject(w.projects, p);
      hide UpdateProject, FindProject, Safe, Stored, KeepsPorts, NoPortTwice, RangesDisjoint, ApplyMask;
      RangeSwapped(db, w, p);
    }
  }

  lemma RangeSwapped(db: Db, w: Db, p: Id)
    requires AllGuarded(db) && LiveProject(w.projects, p) && RangesDisjoint(w.projects) && RangesDisjoint(db.projects)
    requires LiveProject(db.projects, p) && w == db.(projects := db.projects[p := w.projects[p]])
    ensures w.projects[p].portRange == db.projects[p].portRange ==> AllGuarded(w)
    ensures AllGuarded(w) <==> NearAll(db, p, w.projects[p].portRange)
  {
    forall v | LiveService(db.services, v)
      ensures db.services[v].relayPort.Some?
      ensures Guarded(w, v) <==> (On(db, p, v) ==> Near(RangeOf(w.projects, p), db.services[v].relayPort.value))
      ensures w.projects[p].portRange == db.projects[p].portRange ==> Guarded(w, v)
    {
      assert Guarded(db, v);
    }
  }

  ghost predicate NoneOn(db: Db, p: Id) {
    forall v :: !On(db, p, v)
  }

  /** Deleting a project, forced or not, keeps the promise exactly when it is refused or no live service is reached through it. */
  lemma ProjectDeleteExact(db: Db, slug: string, force: bool)
    requires Safe(db) && Stored(db)
    ensures var (w, reply) := DeleteProject(db, slug, force);
      KeepsPorts(w) <==> reply != OK || NoneOn(db, FindProject(db, slug, 1).value)
  {
    hide Safe, Stored, KeepsPorts, AllGuarded;
    PromiseIsGuard(db, OpDeleteProject(slug, force));
    if DeleteProject(db, slug, force).1 == OK {
      ProjectGone(db, FindProject(db, slug, 1).value);
    }
  }

  lemma ProjectGone(db: Db, p: Id)
    requires AllGuarded(db) && LiveProject(db.projects, p)
    ensures var w := db.(projects := db.projects[p := db.projects[p].(deleted := true)]);
      AllGuarded(w) <==> NoneOn(db, p)
  {
    var w := db.(projects := db.projects[p := db.projects[p].(deleted := true)]);
    forall v | LiveService(db.services, v) ensures Guarded(w, v) <==> !On(db, p, v) {
      assert Guarded(db, v);
    }
  }

  /** Deleting a site, forced or not, keeps the promise exactly when it is refused or the site has no live service. */
  lemma SiteDeleteExact(db: Db, project: string, site: string, force: bool)
    requires Safe(db) && Stored(db)
    ensures var (w, reply) := DeleteSite(db, project, site, force);
      KeepsPorts(w) <==> reply != OK || ServicesOf(db, FindSite(db, FindProject(db, project, 1).value, site, 1).value) == {}
  {
    hide Safe, Stored, KeepsPorts, AllGuarded;
    PromiseIsGuard(db, OpDeleteSite(project, site, force));
    if DeleteSite(db, project, site, force).1 == OK {
      SiteGone(db, FindSite(db, FindProject(db, project, 1).value, site, 1).value);
    }
  }

  lemma SiteGone(db: Db, s: Id)
    requires AllGuarded(db) && LiveSite(db.sites, s)
    ensures var w := db.(sites := db.sites[s := db.sites[s].(deleted := true)]);
      AllGuarded(w) <==> ServicesOf(db, s) == {}
  {
    var w := db.(sites := db.sites[s := db.sites[s].(deleted := true)]);
    forall v | LiveService(db.services, v) ensures Guarded(w, v) <==> v !in ServicesOf(db, s) {
      assert Guarded(db, v);
    }
    if AllGuarded(w) {
      assert forall v :: v !in ServicesOf(db, s);
    }
  }
}
