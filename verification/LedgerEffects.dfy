/**
 What a caller of the admin handlers gains: how a create or a delete changes later lookups,
 which ports are held afterwards, and what the allocator hands out next.
 */
module LedgerEffects {
  import opened Wrappers
  import opened Names
  import opened PortRange
  import opened Ledger
  import opened LedgerInvariant

  // ----- lookups by name -----

  function ProjectNamed(db: Db, slug: string): Option<Id> {
    FindProject(db, slug, 1)
  }

  function SiteNamed(db: Db, p: Id, name: string): Option<Id> {
    FindSite(db, p, name, 1)
  }

  function ServiceNamed(db: Db, s: Id, name: string): Option<Id> {
    FindService(db, s, name, 1)
  }

  predicate IsProject(db: Db, p: Id, slug: string) {
    LiveProject(db.projects, p) && db.projects[p].slug == slug
  }

  predicate IsSite(db: Db, s: Id, p: Id, name: string) {
    LiveSite(db.sites, s) && SiteKey(db.sites, s) == (p, name)
  }

  predicate IsService(db: Db, v: Id, s: Id, name: string) {
    LiveService(db.services, v) && ServiceKey(db.services, v) == (s, name)
  }

  /** In sound tables a name finds the one live row that bears it. */
  lemma ProjectNamedExact(db: Db, slug: string, p: Id)
    requires Sound(db)
    ensures ProjectNamed(db, slug) == Some(p) <==> IsProject(db, p, slug)
  {
    if IsProject(db, p, slug) {
      FindProjectFinds(db, slug, 1, p);
    }
  }

  lemma SiteNamedExact(db: Db, p: Id, name: string, s: Id)
    requires Sound(db)
    ensures SiteNamed(db, p, name) == Some(s) <==> IsSite(db, s, p, name)
  {
    if IsSite(db, s, p, name) {
      FindSiteFinds(db, p, name, 1, s);
      assert SiteKey(db.sites, s) == SiteKey(db.sites, SiteNamed(db, p, name).value);
    }
  }

  lemma ServiceNamedExact(db: Db, s: Id, name: string, v: Id)
    requires Sound(db)
    ensures ServiceNamed(db, s, name) == Some(v) <==> IsService(db, v, s, name)
  {
    if IsService(db, v, s, name) {
      FindServiceFinds(db, s, name, 1, v);
      assert ServiceKey(db.services, v) == ServiceKey(db.services, ServiceNamed(db, s, name).value);
    }
  }

  lemma ProjectFound(db: Db, p: Id)
    requires Sound(db) && LiveProject(db.projects, p)
    ensures FindProject(db, db.projects[p].slug, 1) == Some(p)
  {
    hide Sound;
    ProjectNamedExact(db, db.projects[p].slug, p);
  }

  lemma SiteFound(db: Db, s: Id)
    requires Sound(db) && LiveSite(db.sites, s)
    ensures FindSite(db, db.sites[s].project, db.sites[s].name, 1) == Some(s)
  {
    hide Sound;
    SiteNamedExact(db, db.sites[s].project, db.sites[s].name, s);
  }

  lemma ServiceFound(db: Db, v: Id)
    requires Sound(db) && LiveService(db.services, v)
    ensures FindService(db, db.services[v].site, db.services[v].name, 1) == Some(v)
  {
    hide Sound;
    ServiceNamedExact(db, db.services[v].site, db.services[v].name, v);
  }

  // ----- a delete that names a row deletes that row -----

  lemma DeletesProject(db: Db, p: Id, force: bool)
    requires Sound(db) && LiveProject(db.projects, p) && Slug(db.projects[p].slug) && (force || SitesOf(db, p) == {})
    ensures DeleteProject(db, db.projects[p].slug, force) == (db.(projects := db.projects[p := db.projects[p].(deleted := true)]), OK)
  {
    ProjectFound(db, p);
    hide Sound, FindProject, Slug;
  }

  lemma DeletesSite(db: Db, p: Id, s: Id, force: bool)
    requires Sound(db) && LiveProject(db.projects, p) && LiveSite(db.sites, s) && db.sites[s].project == p
    requires Slug(db.projects[p].slug) && Slug(db.sites[s].name) && (force || ServicesOf(db, s) == {})
    ensures DeleteSite(db, db.projects[p].slug, db.sites[s].name, force)
            == (db.(sites := db.sites[s := db.sites[s].(deleted := true)]), OK)
  {
    ProjectFound(db, p);
    SiteFound(db, s);
    hide Sound, FindProject, FindSite, Slug;
  }

  lemma DeletesService(db: Db, p: Id, s: Id, v: Id)
    requires Sound(db) && LiveProject(db.projects, p) && LiveSite(db.sites, s) && db.sites[s].project == p
    requires LiveService(db.services, v) && db.services[v].site == s
    requires Slug(db.projects[p].slug) && Slug(db.sites[s].name) && Slug(db.services[v].name)
    ensures DeleteService(db, db.projects[p].slug, db.sites[s].name, db.services[v].name)
            == (db.(services := db.services[v := db.services[v].(deleted := true)]), OK)
  {
    ProjectFound(db, p);
    SiteFound(db, s);
    ServiceFound(db, v);
    hide Sound, FindProject, FindSite, FindService, Slug;
  }

  // ----- lookups after a create or a delete -----

  lemma SameProject(db: Db, w: Db, slug: string)
    requires Sound(db) && Sound(w) && forall p :: IsProject(db, p, slug) <==> IsProject(w, p, slug)
    ensures ProjectNamed(w, slug) == ProjectNamed(db, slug)
  {
    hide Sound;
    var a, b := ProjectNamed(db, slug), ProjectNamed(w, slug);
    if a.Some? {
      ProjectNamedExact(db, slug, a.value);
      ProjectNamedExact(w, slug, a.value);
    } else if b.Some? {
      ProjectNamedExact(db, slug, b.value);
      ProjectNamedExact(w, slug, b.value);
    }
  }

  lemma SameSite(db: Db, w: Db, p: Id, name: string)
    requires Sound(db) && Sound(w) && forall s :: IsSite(db, s, p, name) <==> IsSite(w, s, p, name)
    ensures SiteNamed(w, p, name) == SiteNamed(db, p, name)
  {
    hide Sound;
    var a, b := SiteNamed(db, p, name), SiteNamed(w, p, name);
    if a.Some? {
      SiteNamedExact(db, p, name, a.value);
      SiteNamedExact(w, p, name, a.value);
    } else if b.Some? {
      SiteNamedExact(db, p, name, b.value);
      SiteNamedExact(w, p, name, b.value);
    }
  }

  lemma SameService(db: Db, w: Db, s: Id, name: string)
    requires Sound(db) && Sound(w) && forall v :: IsService(db, v, s, name) <==> IsService(w, v, s, name)
    ensures ServiceNamed(w, s, name) == ServiceNamed(db, s, name)
  {
    hide Sound;
    var a, b := ServiceNamed(db, s, name), ServiceNamed(w, s, name);
    if a.Some? {
      ServiceNamedExact(db, s, name, a.value);
      ServiceNamedExact(w, s, name, a.value);
    } else if b.Some? {
      ServiceNamedExact(db, s, name, b.value);
      ServiceNamedExact(w, s, name, b.value);
    }
  }

  /** In w slug finds found, and every other slug finds what it finds in db. */
  ghost predicate ProjectsFind(db: Db, w: Db, slug: string, found: Option<Id>) {
    forall t :: ProjectNamed(w, t) == if t == slug then found else ProjectNamed(db, t)
  }

  /** The same of one site name in one project, among all site names in all projects. */
  ghost predicate SitesFind(db: Db, w: Db, project: string, site: string, found: Option<Id>) {
    var p := ProjectNamed(db, project);
    p.Some? && forall q, t :: SiteNamed(w, q, t) == if (Some(q), t) == (p, site) then found else SiteNamed(db, q, t)
  }

  /** The same of one service name in one site. */
  ghost predicate ServicesFind(db: Db, w: Db, project: string, site: string, service: string, found: Option<Id>) {
    var p := ProjectNamed(db, project);
    p.Some?
    && var s := SiteNamed(db, p.value, site);
       s.Some? && forall r, t ::
         ServiceNamed(w, r, t) == if (Some(r), t) == (s, service) then found else ServiceNamed(db, r, t)
  }

  /** A created project is found by its slug and by no other; every other slug finds what it found. */
  lemma CreatedProjectFound(db: Db, slug: string, name: string, portRange: string, mode: string, backend: string)
    requires Sound(db) && CreateProject(db, slug, name, portRange, mode, backend).1 == OK
    ensures var w := CreateProject(db, slug, name, portRange, mode, backend).0;
      ProjectsFind(db, w, slug, Some(db.nextProject))
  {
    var w := CreateProject(db, slug, name, portRange, mode, backend).0;
    CreateProjectKept(db, slug, name, portRange, mode, backend);
    var n := db.nextProject;
    assert n !in db.projects && IsProject(w, n, slug) && w.projects == db.projects[n := w.projects[n]];
    hide Sound, CreateProject, ProjectNamed;
    forall t ensures ProjectNamed(w, t) == if t == slug then Some(n) else ProjectNamed(db, t) {
      if t == slug {
        ProjectNamedExact(w, slug, n);
      } else {
        SameProject(db, w, t);
      }
    }
  }

  /** A deleted project is no longer found, its slug is free again, and every other slug finds what it found. */
  lemma DeletedProjectGone(db: Db, slug: string, force: bool)
    requires Sound(db) && DeleteProject(db, slug, force).1 == OK
    ensures var w := DeleteProject(db, slug, force).0;
      ProjectsFind(db, w, slug, None)
  {
    var w := DeleteProject(db, slug, force).0;
    DeleteProjectKept(db, slug, force);
    var p := ProjectNamed(db, slug).value;
    assert IsProject(db, p, slug) && w.projects == db.projects[p := db.projects[p].(deleted := true)];
    assert forall q :: IsProject(w, q, slug) ==> q == p;
    hide Sound, DeleteProject;
    forall t ensures ProjectNamed(w, t) == if t == slug then None else ProjectNamed(db, t) {
      if t == slug {
        assert ProjectNamed(w, slug).Some? ==> IsProject(w, ProjectNamed(w, slug).value, slug);
      } else {
        hide ProjectNamed;
        SameProject(db, w, t);
      }
    }
  }

  lemma CreatedSiteFound(db: Db, project: string, site: string, display: string)
    requires Sound(db) && CreateSite(db, project, site, display).1 == OK
    ensures var w := CreateSite(db, project, site, display).0;
      SitesFind(db, w, project, site, Some(db.nextSite))
  {
    var w := CreateSite(db, project, site, display).0;
    CreateSiteKept(db, project, site, display);
    var p, n := ProjectNamed(db, project).value, db.nextSite;
    assert n !in db.sites && IsSite(w, n, p, site) && w.sites == db.sites[n := w.sites[n]];
    hide Sound, CreateSite, SiteNamed, ProjectNamed;
    forall q, t ensures SiteNamed(w, q, t) == if (q, t) == (p, site) then Some(n) else SiteNamed(db, q, t) {
      if (q, t) == (p, site) {
        SiteNamedExact(w, p, site, n);
      } else {
        SameSite(db, w, q, t);
      }
    }
  }

  lemma DeletedSiteGone(db: Db, project: string, site: string, force: bool)
    requires Sound(db) && DeleteSite(db, project, site, force).1 == OK
    ensures var w := DeleteSite(db, project, site, force).0;
      SitesFind(db, w, project, site, None)
  {
    var w := DeleteSite(db, project, site, force).0;
    DeleteSiteKept(db, project, site, force);
    var p := ProjectNamed(db, project).value;
    var s := SiteNamed(db, p, site).value;
    assert IsSite(db, s, p, site) && w.sites == db.sites[s := db.sites[s].(deleted := true)];
    forall r | LiveSite(w.sites, r) ensures !IsSite(w, r, p, site) {
      assert LiveSite(db.sites, r) && (SiteKey(db.sites, r) == SiteKey(db.sites, s) ==> r == s);
    }
    hide Sound, DeleteSite, ProjectNamed;
    forall q, t ensures SiteNamed(w, q, t) == if (q, t) == (p, site) then None else SiteNamed(db, q, t) {
      if (q, t) == (p, site) {
        assert SiteNamed(w, p, site).Some? ==> IsSite(w, SiteNamed(w, p, site).value, p, site);
      } else {
        hide SiteNamed;
        SameSite(db, w, q, t);
      }
    }
  }

  // ----- ports after a create or a delete -----

  /** The ports that live services hold in each project. */
  ghost predicate PortsBecome(db: Db, w: Db, p: Id, ports: set<int>) {
    forall q :: UsedPorts(w, q) == if q == p then ports else UsedPorts(db, q)
  }

  /** The next service of w holds what the allocator had to give in db, and no project's other ports change. */
  ghost predicate PortGiven(db: Db, w: Db, project: string) {
    var p := ProjectNamed(db, project);
    && p.Some? && Readable(db.projects, p.value) && PortOf(w.services, db.nextService).Some?
    && var port := PortOf(w.services, db.nextService).value;
       && AllocateRelayPort(db, p.value) == Ok(port) && port !in UsedPorts(db, p.value)
       && PortsBecome(db, w, p.value, UsedPorts(db, p.value) + {port})
  }

  lemma CreatedRow(db: Db, project: string, site: string, service: string, body: ServiceBody) returns (p: Id, s: Id, port: int)
    requires Sound(db) && CreateService(db, project, site, service, body).1 == OK
    ensures ProjectNamed(db, project) == Some(p) && SiteNamed(db, p, site) == Some(s)
    ensures Readable(db.projects, p) && AllocateRelayPort(db, p) == Ok(port)
    ensures var (w, n) := (CreateService(db, project, site, service, body).0, db.nextService);
      && n !in db.services && IsService(w, n, s, service) && w.services[n].relayPort == Some(port)
      && w == db.(services := db.services[n := w.services[n]], nextService := n + 1)
  {
    hide Slug, AllocateRelayPort, ParsePortRange, UsedPorts, AllTaken, TakenIn;
    p := ProjectNamed(db, project).value;
    s := SiteNamed(db, p, site).value;
    assert LiveProject(db.projects, p);
    AllocateIsLeastFree(db, p);
    port := AllocateRelayPort(db, p).value;
  }

  /** What the created service is: found by its name, on a port that its project did not use. */
  lemma CreatedServiceFound(db: Db, project: string, site: string, service: string, body: ServiceBody)
    requires Sound(db) && CreateService(db, project, site, service, body).1 == OK
    ensures var w := CreateService(db, project, site, service, body).0;
      PortGiven(db, w, project) && ServicesFind(db, w, project, site, service, Some(db.nextService))
  {
    var w := CreateService(db, project, site, service, body).0;
    CreateServiceKept(db, project, site, service, body);
    var p, s, port := CreatedRow(db, project, site, service, body);
    var n := db.nextService;
    hide Sound, CreateService, AllocateRelayPort, SiteNamed, ProjectNamed, ServiceNamed, UsedPorts;
    AllocateIsLeastFree(db, p);
    SiteFoundIn(db, p, site);
    PortAdded(db, w, p, n, port);
    forall r, t ensures ServiceNamed(w, r, t) == if (r, t) == (s, service) then Some(n) else ServiceNamed(db, r, t) {
      if (r, t) == (s, service) {
        ServiceNamedExact(w, s, service, n);
      } else {
        SameService(db, w, r, t);
      }
    }
  }

  lemma SiteFoundIn(db: Db, p: Id, site: string)
    ensures SiteNamed(db, p, site).Some? ==> IsSite(db, SiteNamed(db, p, site).value, p, site)
  {
  }

  lemma PortAdded(db: Db, w: Db, p: Id, n: Id, port: int)
    requires n !in db.services && n in w.services && w.services == db.services[n := w.services[n]] && w.sites == db.sites
    requires Holds(w.sites, w.services, p, n) && w.services[n].relayPort == Some(port)
    ensures PortsBecome(db, w, p, UsedPorts(db, p) + {port})
  {
    forall q ensures UsedPorts(w, q) == UsedPorts(db, q) + if q == p then {port} else {} {
      assert forall v :: v != n ==> Holds(w.sites, w.services, q, v) == Holds(db.sites, db.services, q, v);
      forall x ensures x in UsedPorts(w, q) <==> x in UsedPorts(db, q) || (q == p && x == port) {
        if x in UsedPorts(db, q) {
          var v :| v in db.services && Holds(db.sites, db.services, q, v) && db.services[v].relayPort.value == x;
          assert Holds(w.sites, w.services, q, v) && w.services[v].relayPort.value == x;
        }
        if q == p && x == port {
          assert Holds(w.sites, w.services, q, n) && w.services[n].relayPort.value == x;
        }
      }
    }
  }

  lemma PortFreed(db: Db, w: Db, p: Id, v: Id, port: int)
    requires PortsDistinct(db.sites, db.services) && Holds(db.sites, db.services, p, v) && db.services[v].relayPort == Some(port)
    requires w.sites == db.sites && w.services == db.services[v := db.services[v].(deleted := true)]
    ensures PortsBecome(db, w, p, UsedPorts(db, p) - {port})
  {
    forall q ensures UsedPorts(w, q) == if q == p then UsedPorts(db, p) - {port} else UsedPorts(db, q) {
      assert forall x :: Holds(w.sites, w.services, q, x) <==> Holds(db.sites, db.services, q, x) && x != v;
      forall y ensures y in UsedPorts(w, q) <==> y in UsedPorts(db, q) && !(q == p && y == port) {
        if y in UsedPorts(db, q) {
          var x :| x in db.services && Holds(db.sites, db.services, q, x) && db.services[x].relayPort.value == y;
          assert q == p ==> (PortOf(db.services, x) == PortOf(db.services, v) ==> x == v);
          assert x != v ==> Holds(w.sites, w.services, q, x) && w.services[x].relayPort.value == y;
        }
        if y in UsedPorts(w, q) {
          var x :| x in w.services && Holds(w.sites, w.services, q, x) && w.services[x].relayPort.value == y;
          assert Holds(db.sites, db.services, q, x) && db.services[x].relayPort.value == y;
          assert q == p ==> (PortOf(db.services, x) == PortOf(db.services, v) ==> x == v);
        }
      }
    }
  }

  lemma {:induction false} LowestFreeWithout(used: set<int>, port: int, p: int, max: int)
    requires port in used
    ensures var was := LowestFree(used, p, max);
      LowestFree(used - {port}, p, max) ==
      if p <= port <= max && (was.Some? ==> port < was.value) then Some(port) else was
    decreases max - p
  {
    if p <= max && p in used && p != port {
      LowestFreeWithout(used, port, p + 1, max);
    }
    LowestFreeIsLeast(used, p, max);
  }

  predicate ReadsInto(db: Db, p: Id, port: int) {
    Readable(db.projects, p) && RangeOf(db.projects, p).0 < port <= RangeOf(db.projects, p).1
  }

  lemma PortReturned(db: Db, w: Db, p: Id, port: int)
    requires Readable(db.projects, p) && w.projects == db.projects
    requires port in UsedPorts(db, p) && UsedPorts(w, p) == UsedPorts(db, p) - {port}
    ensures var was := AllocateRelayPort(db, p);
      AllocateRelayPort(w, p) == if ReadsInto(db, p, port) && (was.Ok? ==> port < was.value) then Ok(port) else was
  {
    hide UsedPorts, LowestFree;
    LowestFreeWithout(UsedPorts(db, p), port, RangeOf(db.projects, p).0 + 1, RangeOf(db.projects, p).1);
  }

  /**
   The port alone becomes free in its project, and the project's next service gets it, unless a lower
   one is free or it lies outside the range.
   */
  ghost predicate PortBack(db: Db, w: Db, project: string, port: int) {
    var p := ProjectNamed(db, project);
    && p.Some? && p.value in db.projects && p.value in w.projects
    && PortsBecome(db, w, p.value, UsedPorts(db, p.value) - {port})
    && var was := AllocateRelayPort(db, p.value);
       AllocateRelayPort(w, p.value) == if ReadsInto(db, p.value, port) && (was.Ok? ==> port < was.value) then Ok(port) else was
  }

  /** A deleted service is no longer found, and the port it held, if any, is free again. */
  lemma DeletedServiceGone(db: Db, project: string, site: string, service: string)
    requires Sound(db) && ResolveService(db, project, site, service).Ok?
    ensures var w := DeleteService(db, project, site, service).0;
            var port := PortOf(db.services, ResolveService(db, project, site, service).value);
      && ServicesFind(db, w, project, site, service, None)
      && (port.Some? ==> PortBack(db, w, project, port.value))
  {
    var w := DeleteService(db, project, site, service).0;
    DeleteServiceKept(db, project, site, service);
    var p := ProjectNamed(db, project).value;
    var s := SiteNamed(db, p, site).value;
    var v := ServiceNamed(db, s, service).value;
    assert IsService(db, v, s, service) && w == db.(services := db.services[v := db.services[v].(deleted := true)]);
    ServiceGone(db, w, v, s, service);
    hide ServiceNamed, ResolveService, DeleteService, ProjectNamed, SiteNamed, AllocateRelayPort;
    if PortOf(db.services, v).Some? {
      var port := PortOf(db.services, v).value;
      PortFreed(db, w, p, v, port);
      assert Readable(db.projects, p) && port in UsedPorts(db, p);
      assert UsedPorts(w, p) == UsedPorts(db, p) - {port};
      hide Sound, UsedPorts, PortsBecome;
      PortReturned(db, w, p, port);
    }
  }

  lemma ServiceGone(db: Db, w: Db, v: Id, s: Id, name: string)
    requires Sound(db) && Sound(w) && IsService(db, v, s, name)
    requires w == db.(services := db.services[v := db.services[v].(deleted := true)])
    ensures forall r, t :: ServiceNamed(w, r, t) == if (r, t) == (s, name) then None else ServiceNamed(db, r, t)
  {
    forall x | LiveService(w.services, x) ensures !IsService(w, x, s, name) {
      assert LiveService(db.services, x) && (ServiceKey(db.services, x) == ServiceKey(db.services, v) ==> x == v);
    }
    hide Sound;
    forall r, t ensures ServiceNamed(w, r, t) == if (r, t) == (s, name) then None else ServiceNamed(db, r, t) {
      if (r, t) == (s, name) {
        assert ServiceNamed(w, s, name).Some? ==> IsService(w, ServiceNamed(w, s, name).value, s, name);
      } else {
        hide ServiceNamed;
        SameService(db, w, r, t);
      }
    }
  }

  /** A place for a new service: its live project and site, the name free, and fewer ports held than the range has. */
  ghost predicate HasPlace(db: Db, p: Id, s: Id, project: string, site: string, service: string) {
    && IsProject(db, p, project) && IsSite(db, s, p, site) && (forall v :: !IsService(db, v, s, service))
    && Readable(db.projects, p)
    && TakenIn(UsedPorts(db, p), RangeOf(db.projects, p).0 + 1, RangeOf(db.projects, p).1)
       < RangeOf(db.projects, p).1 - RangeOf(db.projects, p).0
  }

  /** What CreateService finds out step by step. */
  predicate PlaceFound(db: Db, project: string, site: string, service: string) {
    var p := ProjectNamed(db, project);
    p.Some? && AllocateRelayPort(db, p.value).Ok?
    && var s := SiteNamed(db, p.value, site); s.Some? && ServiceNamed(db, s.value, service).None?
  }

  lemma PlaceIsFound(db: Db, p: Id, s: Id, project: string, site: string, service: string)
    requires Sound(db) && HasPlace(db, p, s, project, site, service)
    ensures PlaceFound(db, project, site, service)
  {
    ProjectNamedExact(db, project, p);
    SiteNamedExact(db, p, site, s);
    forall v ensures ServiceNamed(db, s, service) != Some(v) {
      ServiceNamedExact(db, s, service, v);
    }
    AllocateIsLeastFree(db, p);
    hide Sound, ProjectNamed, SiteNamed, ServiceNamed, AllocateRelayPort, UsedPorts, TakenIn;
  }

  lemma FoundIsPlace(db: Db, project: string, site: string, service: string) returns (p: Id, s: Id)
    requires Sound(db) && PlaceFound(db, project, site, service)
    ensures HasPlace(db, p, s, project, site, service)
  {
    hide AllocateRelayPort, UsedPorts, TakenIn, PortsDistinct;
    p := ProjectNamed(db, project).value;
    s := SiteNamed(db, p, site).value;
    assert IsProject(db, p, project) && IsSite(db, s, p, site);
    RoomLeft(db, p);
    hide Sound, ProjectNamed, SiteNamed, ServiceNamed;
    forall v ensures !IsService(db, v, s, service) {
      ServiceNamedExact(db, s, service, v);
    }
  }

  lemma RoomLeft(db: Db, p: Id)
    requires Readable(db.projects, p)
    ensures AllocateRelayPort(db, p).Ok? <==>
      TakenIn(UsedPorts(db, p), RangeOf(db.projects, p).0 + 1, RangeOf(db.projects, p).1)
      < RangeOf(db.projects, p).1 - RangeOf(db.projects, p).0
  {
    var (min, max) := RangeOf(db.projects, p);
    AllocateIsLeastFree(db, p);
    ParsedRangeHasRoom(db.projects[p].portRange);
    hide UsedPorts, AllocateRelayPort, ParsePortRange, TakenIn;
    AllTakenCount(UsedPorts(db, p), min + 1, max);
    TakenAtMost(UsedPorts(db, p), min + 1, max);
  }

  lemma TakenAtMost(used: set<int>, a: int, b: int)
    requires a - 1 <= b
    ensures TakenIn(used, a, b) <= b - a + 1
  {
    IntervalSize(a, b);
    SubsetSize(used * Interval(a, b), Interval(a, b));
  }

  /** A service is created exactly when the request is well formed and there is a place for it. */
  lemma CreateServiceExact(db: Db, project: string, site: string, service: string, body: ServiceBody)
    requires Sound(db)
    ensures CreateService(db, project, site, service, body).1 == OK <==>
      && Slug(project) && Slug(site) && Slug(service) && body.addr != "" && 0 < body.port <= MAX_PORT
      && exists p, s :: HasPlace(db, p, s, project, site, service)
  {
    CreatesAtPlace(db, project, site, service, body);
    hide Slug, CreateService, Sound, HasPlace, PlaceFound;
    if PlaceFound(db, project, site, service) {
      var p, s := FoundIsPlace(db, project, site, service);
    } else if p, s :| HasPlace(db, p, s, project, site, service) {
      PlaceIsFound(db, p, s, project, site, service);
    }
  }

  lemma CreatesAtPlace(db: Db, project: string, site: string, service: string, body: ServiceBody)
    ensures CreateService(db, project, site, service, body).1 == OK <==>
      && Slug(project) && Slug(site) && Slug(service) && body.addr != "" && 0 < body.port <= MAX_PORT
      && PlaceFound(db, project, site, service)
  {
    hide Slug, FindProject, FindSite, FindService;
  }
}
