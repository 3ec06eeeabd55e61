/** What every run of the handlers keeps, and what every gentle run keeps besides. */
module LedgerInvariant {
  import opened Wrappers
  import opened Text
  import opened PortRange
  import opened Ledger

  // ----- kept by every run -----

  predicate RowsOk(db: Db) {
    && db.nextProject >= 1 && db.nextSite >= 1 && db.nextService >= 1
    && (forall p <- db.projects :: 1 <= p < db.nextProject)
    && (forall s <- db.sites :: 1 <= s < db.nextSite && db.sites[s].project in db.projects)
    && (forall v <- db.services :: 1 <= v < db.nextService && db.services[v].site in db.sites)
  }

  predicate Readable(ps: map<Id, Project>, p: Id) {
    p in ps && ParsePortRange(ps[p].portRange).Ok?
  }

  function RangeOf(ps: map<Id, Project>, p: Id): (int, int)
    requires Readable(ps, p)
  {
    ParsePortRange(ps[p].portRange).value
  }

  /** Live projects have readable ranges, and no two of them share a port. */
  ghost predicate RangesDisjoint(ps: map<Id, Project>) {
    && (forall p :: LiveProject(ps, p) ==> Readable(ps, p))
    && (forall p, q :: LiveProject(ps, p) && LiveProject(ps, q) && p != q ==>
          !Overlap(RangeOf(ps, p).0, RangeOf(ps, p).1, RangeOf(ps, q).0, RangeOf(ps, q).1))
  }

  function PortOf(vs: map<Id, Service>, v: Id): Option<int> {
    if v in vs then vs[v].relayPort else None
  }

  /** Within one project, live services on live sites hold different ports. */
  ghost predicate PortsDistinct(ss: map<Id, Site>, vs: map<Id, Service>) {
    forall p, v, w :: Holds(ss, vs, p, v) && Holds(ss, vs, p, w) && PortOf(vs, v) == PortOf(vs, w) ==> v == w
  }

  function SiteKey(ss: map<Id, Site>, s: Id): (Id, string)
    requires s in ss
  {
    (ss[s].project, ss[s].name)
  }

  function ServiceKey(vs: map<Id, Service>, v: Id): (Id, string)
    requires v in vs
  {
    (vs[v].site, vs[v].name)
  }

  ghost predicate SlugsUnique(ps: map<Id, Project>) {
    forall p, q :: LiveProject(ps, p) && LiveProject(ps, q) && ps[p].slug == ps[q].slug ==> p == q
  }

  ghost predicate SitesUnique(ss: map<Id, Site>) {
    forall s, t :: LiveSite(ss, s) && LiveSite(ss, t) && SiteKey(ss, s) == SiteKey(ss, t) ==> s == t
  }

  ghost predicate ServicesUnique(vs: map<Id, Service>) {
    forall v, w :: LiveService(vs, v) && LiveService(vs, w) && ServiceKey(vs, v) == ServiceKey(vs, w) ==> v == w
  }

  /** Rows refer to rows, live ranges are disjoint, ports and names are unique where they must be. */
  ghost predicate Sound(db: Db) {
    && RowsOk(db)
    && RangesDisjoint(db.projects) && SlugsUnique(db.projects)
    && PortsDistinct(db.sites, db.services)
    && SitesUnique(db.sites) && ServicesUnique(db.services)
  }

  // ----- kept by gentle runs -----

  predicate InRange(db: Db, v: Id) {
    && LiveService(db.services, v) && db.services[v].relayPort.Some?
    && LiveSite(db.sites, db.services[v].site)
    && LiveProject(db.projects, db.sites[db.services[v].site].project)
    && Readable(db.projects, db.sites[db.services[v].site].project)
    && var r := RangeOf(db.projects, db.sites[db.services[v].site].project);
       r.0 < db.services[v].relayPort.value <= r.1
  }

  /** Every live site is in a live project; every live service holds a port of its project's range, above the control port. */
  ghost predicate Anchored(db: Db) {
    && (forall s :: LiveSite(db.sites, s) ==> LiveProject(db.projects, db.sites[s].project))
    && (forall v :: LiveService(db.services, v) ==> InRange(db, v))
  }

  // ----- the searches -----

  lemma {:induction false} FindProjectFinds(db: Db, slug: string, i: Id, p: Id)
    requires RowsOk(db) && LiveProject(db.projects, p) && db.projects[p].slug == slug && i <= p
    ensures FindProject(db, slug, i).Some?
    decreases db.nextProject - i
  {
    if i != p {
      FindProjectFinds(db, slug, i + 1, p);
    }
  }

  lemma {:induction false} FindSiteFinds(db: Db, project: Id, name: string, i: Id, s: Id)
    requires RowsOk(db) && LiveSite(db.sites, s) && db.sites[s].project == project && db.sites[s].name == name && i <= s
    ensures FindSite(db, project, name, i).Some?
    decreases db.nextSite - i
  {
    if i != s {
      FindSiteFinds(db, project, name, i + 1, s);
    }
  }

  lemma {:induction false} FindServiceFinds(db: Db, site: Id, name: string, i: Id, v: Id)
    requires RowsOk(db) && LiveService(db.services, v) && db.services[v].site == site && db.services[v].name == name && i <= v
    ensures FindService(db, site, name, i).Some?
    decreases db.nextService - i
  {
    if i != v {
      FindServiceFinds(db, site, name, i + 1, v);
    }
  }

  // ----- the allocator -----

  ghost predicate AllTaken(used: set<int>, a: int, b: int) {
    forall q :: a <= q <= b ==> q in used
  }

  lemma {:induction false} LowestFreeIsLeast(used: set<int>, p: int, max: int)
    ensures LowestFree(used, p, max).Some? ==>
      var q := LowestFree(used, p, max).value; p <= q <= max && q !in used && AllTaken(used, p, q - 1)
    ensures LowestFree(used, p, max).None? <==> AllTaken(used, p, max)
    decreases max - p
  {
    if p <= max && p in used {
      LowestFreeIsLeast(used, p + 1, max);
    }
  }

  predicate Between(a: int, q: int, b: int) {
    a <= q <= b
  }

  function Interval(a: int, b: int): set<int> {
    set q | a <= q <= b && Between(a, q, b)
  }

  lemma {:induction false} IntervalSize(a: int, b: int)
    requires a - 1 <= b
    ensures |Interval(a, b)| == b - a + 1
    decreases b - a
  {
    if a <= b {
      IntervalSize(a, b - 1);
      assert Interval(a, b) == Interval(a, b - 1) + {b};
    }
  }

  lemma SubsetSize(a: set<int>, b: set<int>)
    requires a <= b
    ensures |a| <= |b|
    ensures |a| == |b| ==> a == b
  {
    assert b == a + (b - a);
    assert |b| == |a| + |b - a|;
  }

  /** How many ports from a to b are used. */
  function TakenIn(used: set<int>, a: int, b: int): nat {
    |used * Interval(a, b)|
  }

  /** Pigeonhole: a finite set covers an interval exactly when it meets it in as many places as the interval has. */
  lemma AllTakenCount(used: set<int>, a: int, b: int)
    requires a - 1 <= b
    ensures AllTaken(used, a, b) <==> TakenIn(used, a, b) == b - a + 1
  {
    var all := Interval(a, b);
    IntervalSize(a, b);
    SubsetSize(used * all, all);
    if AllTaken(used, a, b) {
      assert used * all == all;
    } else if used * all == all {
      forall q | a <= q <= b ensures q in used {
        assert Between(a, q, b) && q in used * all;
      }
    }
  }

  /**
   Allocation returns the least port above the control port that no live service on a live
   site of the project holds, and it fails exactly when those services hold every one of the
   max - min service ports.
   */
  lemma AllocateIsLeastFree(db: Db, p: Id)
    requires Readable(db.projects, p)
    ensures LeastFree(AllocateRelayPort(db, p), UsedPorts(db, p), RangeOf(db.projects, p).0, RangeOf(db.projects, p).1)
  {
    ParsedRangeHasRoom(db.projects[p].portRange);
    var (min, max) := RangeOf(db.projects, p);
    var used := UsedPorts(db, p);
    hide UsedPorts, Holds, ParsePortRange, AllTaken, TakenIn, Interval, LowestFree;
    LowestFreeIsLeast(used, min + 1, max);
    AllTakenCount(used, min + 1, max);
  }

  ghost predicate LeastFree(r: Result<int, Reply>, used: set<int>, min: int, max: int) {
    match r
    case Ok(port) => min < port <= max && port !in used && AllTaken(used, min + 1, port - 1)
    case Err(e) => e == ResourceExhausted && TakenIn(used, min + 1, max) == max - min
  }

  // ----- preservation, table by table -----

  lemma ProjectAddedTable(ps: map<Id, Project>, n: Id, row: Project)
    requires RangesDisjoint(ps) && SlugsUnique(ps) && n !in ps
    requires ParsePortRange(row.portRange).Ok?
    requires var r := ParsePortRange(row.portRange).value;
      forall q :: LiveProject(ps, q) ==>
        !Overlap(r.0, r.1, RangeOf(ps, q).0, RangeOf(ps, q).1) && ps[q].slug != row.slug
    ensures RangesDisjoint(ps[n := row]) && SlugsUnique(ps[n := row])
  {
    var w := ps[n := row];
    assert forall q :: LiveProject(w, q) && q != n ==> LiveProject(ps, q) && RangeOf(w, q) == RangeOf(ps, q);
  }

  lemma ProjectAdded(db: Db, row: Project)
    requires Sound(db) && !row.deleted && FindProject(db, row.slug, 1).None?
    requires ParsePortRange(row.portRange).Ok?
    requires var r := ParsePortRange(row.portRange).value; !OverlapsAny(db, r.0, r.1, 0)
    ensures var w := db.(projects := db.projects[db.nextProject := row], nextProject := db.nextProject + 1);
      Sound(w) && (Anchored(db) ==> Anchored(w))
  {
    var w := db.(projects := db.projects[db.nextProject := row], nextProject := db.nextProject + 1);
    var r := ParsePortRange(row.portRange).value;
    forall q | LiveProject(db.projects, q)
      ensures !Overlap(r.0, r.1, RangeOf(db.projects, q).0, RangeOf(db.projects, q).1) && db.projects[q].slug != row.slug
    {
      assert !Meets(db, q, r.0, r.1, 0);
      if db.projects[q].slug == row.slug {
        FindProjectFinds(db, row.slug, 1, q);
      }
    }
    ProjectAddedTable(db.projects, db.nextProject, row);
    hide RangesDisjoint, SlugsUnique, PortsDistinct, SitesUnique, ServicesUnique;
    if Anchored(db) {
      ProjectsGrow(db, w);
    }
  }

  /** Anchored survives a change of the projects table that keeps the live projects and their ranges. */
  lemma ProjectsGrow(db: Db, w: Db)
    requires Anchored(db) && w.sites == db.sites && w.services == db.services
    requires forall p :: LiveProject(db.projects, p) ==>
      LiveProject(w.projects, p) && w.projects[p].portRange == db.projects[p].portRange
    ensures Anchored(w)
  {
    forall v | LiveService(w.services, v) ensures InRange(w, v) {
      assert InRange(db, v);
    }
  }

  predicate Apart(ps: map<Id, Project>, q: Id, portRange: string) {
    Readable(ps, q) && ParsePortRange(portRange).Ok?
    && var r := ParsePortRange(portRange).value; !Overlap(r.0, r.1, RangeOf(ps, q).0, RangeOf(ps, q).1)
  }

  lemma OwnRangeApart(ps: map<Id, Project>, p: Id)
    requires RangesDisjoint(ps) && LiveProject(ps, p)
    ensures forall q :: LiveProject(ps, q) && q != p ==> Apart(ps, q, ps[p].portRange)
  {
  }

  lemma SlugReplaced(ps: map<Id, Project>, p: Id, row: Project)
    requires SlugsUnique(ps) && LiveProject(ps, p) && row.slug == ps[p].slug
    ensures SlugsUnique(ps[p := row])
  {
    var w := ps[p := row];
    assert forall q :: LiveProject(w, q) ==> LiveProject(ps, q) && w[q].slug == ps[q].slug;
  }

  lemma RangeReplaced(ps: map<Id, Project>, p: Id, row: Project)
    requires RangesDisjoint(ps) && LiveProject(ps, p) && ParsePortRange(row.portRange).Ok?
    requires forall q :: LiveProject(ps, q) && q != p ==> Apart(ps, q, row.portRange)
    ensures RangesDisjoint(ps[p := row])
  {
    var w := ps[p := row];
    forall q | LiveProject(w, q) && q != p
      ensures LiveProject(ps, q) && Readable(w, q) && RangeOf(w, q) == RangeOf(ps, q) && Apart(ps, q, row.portRange)
    {
      assert LiveProject(ps, q);
    }
  }

  lemma ProjectReplaced(db: Db, p: Id, row: Project)
    requires Sound(db) && LiveProject(db.projects, p) && !row.deleted && row.slug == db.projects[p].slug
    requires ParsePortRange(row.portRange).Ok?
    requires row.portRange == db.projects[p].portRange ||
             var r := ParsePortRange(row.portRange).value; !OverlapsAny(db, r.0, r.1, p)
    ensures var w := db.(projects := db.projects[p := row]);
      Sound(w) && (Anchored(db) && row.portRange == db.projects[p].portRange ==> Anchored(w))
  {
    var r := ParsePortRange(row.portRange).value;
    if row.portRange == db.projects[p].portRange {
      OwnRangeApart(db.projects, p);
    } else {
      forall q | LiveProject(db.projects, q) && q != p ensures Apart(db.projects, q, row.portRange) {
        assert !Meets(db, q, r.0, r.1, p);
      }
    }
    SlugReplaced(db.projects, p, row);
    RangeReplaced(db.projects, p, row);
    hide RangesDisjoint, SlugsUnique, PortsDistinct, SitesUnique, ServicesUnique;
    if Anchored(db) && row.portRange == db.projects[p].portRange {
      ProjectsGrow(db, db.(projects := db.projects[p := row]));
    }
  }

  lemma ProjectDeleted(db: Db, p: Id)
    requires Sound(db) && LiveProject(db.projects, p)
    ensures var w := db.(projects := db.projects[p := db.projects[p].(deleted := true)]);
      Sound(w) && (Anchored(db) && SitesOf(db, p) == {} ==> Anchored(w))
  {
    var w := db.(projects := db.projects[p := db.projects[p].(deleted := true)]);
    OwnRangeApart(db.projects, p);
    SlugReplaced(db.projects, p, db.projects[p].(deleted := true));
    RangeReplaced(db.projects, p, db.projects[p].(deleted := true));
    hide RangesDisjoint, SlugsUnique, PortsDistinct, SitesUnique, ServicesUnique;
    if Anchored(db) && SitesOf(db, p) == {} {
      forall s | LiveSite(db.sites, s) ensures db.sites[s].project != p {
        assert s !in SitesOf(db, p);
      }
      forall v | LiveService(w.services, v) ensures InRange(w, v) {
        assert InRange(db, v);
      }
    }
  }

  /** Fewer services on live sites, no new ports. */
  lemma PortsShrink(ss: map<Id, Site>, vs: map<Id, Service>, ss': map<Id, Site>, vs': map<Id, Service>)
    requires PortsDistinct(ss, vs)
    requires forall p, v :: Holds(ss', vs', p, v) ==> Holds(ss, vs, p, v) && PortOf(vs', v) == PortOf(vs, v)
    ensures PortsDistinct(ss', vs')
  {
  }

  lemma SiteAdded(db: Db, p: Id, name: string)
    requires Sound(db) && LiveProject(db.projects, p) && FindSite(db, p, name, 1).None?
    ensures var w := db.(sites := db.sites[db.nextSite := Site(p, name, false)], nextSite := db.nextSite + 1);
      Sound(w) && (Anchored(db) ==> Anchored(w))
  {
    var w := db.(sites := db.sites[db.nextSite := Site(p, name, false)], nextSite := db.nextSite + 1);
    forall s | LiveSite(db.sites, s) ensures SiteKey(db.sites, s) != (p, name) {
      if SiteKey(db.sites, s) == (p, name) {
        FindSiteFinds(db, p, name, 1, s);
      }
    }
    SiteAddedTable(db.sites, db.nextSite, p, name);
    PortsShrink(db.sites, db.services, w.sites, w.services);
    hide RangesDisjoint, SlugsUnique, PortsDistinct, SitesUnique, ServicesUnique;
    if Anchored(db) {
      forall v | LiveService(w.services, v) ensures InRange(w, v) {
        assert InRange(db, v);
      }
    }
  }

  lemma SiteAddedTable(ss: map<Id, Site>, n: Id, p: Id, name: string)
    requires SitesUnique(ss) && n !in ss && forall s :: LiveSite(ss, s) ==> SiteKey(ss, s) != (p, name)
    ensures SitesUnique(ss[n := Site(p, name, false)])
  {
    var w := ss[n := Site(p, name, false)];
    assert forall s :: LiveSite(w, s) && s != n ==> LiveSite(ss, s) && SiteKey(w, s) == SiteKey(ss, s);
  }

  lemma SiteDeletedTable(ss: map<Id, Site>, s: Id)
    requires SitesUnique(ss) && s in ss
    ensures SitesUnique(ss[s := ss[s].(deleted := true)])
  {
    var w := ss[s := ss[s].(deleted := true)];
    assert forall t :: LiveSite(w, t) ==> LiveSite(ss, t) && SiteKey(w, t) == SiteKey(ss, t);
  }

  lemma SiteDeleted(db: Db, s: Id)
    requires Sound(db) && LiveSite(db.sites, s)
    ensures var w := db.(sites := db.sites[s := db.sites[s].(deleted := true)]);
      Sound(w) && (Anchored(db) && ServicesOf(db, s) == {} ==> Anchored(w))
  {
    var w := db.(sites := db.sites[s := db.sites[s].(deleted := true)]);
    SiteDeletedTable(db.sites, s);
    PortsShrink(db.sites, db.services, w.sites, w.services);
    hide RangesDisjoint, SlugsUnique, PortsDistinct, SitesUnique, ServicesUnique;
    if Anchored(db) && ServicesOf(db, s) == {} {
      forall v | LiveService(w.services, v) ensures InRange(w, v) {
        assert InRange(db, v);
        assert v !in ServicesOf(db, s);
      }
    }
  }

  lemma ServiceAdded(db: Db, p: Id, row: Service, port: int)
    requires Sound(db) && LiveProject(db.projects, p) && LiveSite(db.sites, row.site) && db.sites[row.site].project == p
    requires !row.deleted && row.relayPort == Some(port) && FindService(db, row.site, row.name, 1).None?
    requires AllocateRelayPort(db, p) == Ok(port)
    ensures var w := db.(services := db.services[db.nextService := row], nextService := db.nextService + 1);
      Sound(w) && (Anchored(db) ==> Anchored(w))
  {
    var n := db.nextService;
    var w := db.(services := db.services[n := row], nextService := n + 1);
    AllocateIsLeastFree(db, p);
    hide AllocateRelayPort;
    forall v | LiveService(db.services, v) ensures ServiceKey(db.services, v) != (row.site, row.name) {
      if ServiceKey(db.services, v) == (row.site, row.name) {
        FindServiceFinds(db, row.site, row.name, 1, v);
      }
    }
    ServiceAddedTable(db.services, n, row);
    NewPortDistinct(db, w, p, row, port);
    hide RangesDisjoint, SlugsUnique, PortsDistinct, SitesUnique, ServicesUnique;
    if Anchored(db) {
      forall v | LiveService(w.services, v) ensures InRange(w, v) {
        assert v != n ==> InRange(db, v);
      }
    }
  }

  lemma ServiceAddedTable(vs: map<Id, Service>, n: Id, row: Service)
    requires ServicesUnique(vs) && n !in vs
    requires forall v :: LiveService(vs, v) ==> ServiceKey(vs, v) != (row.site, row.name)
    ensures ServicesUnique(vs[n := row])
  {
    var w := vs[n := row];
    assert forall v :: LiveService(w, v) && v != n ==> LiveService(vs, v) && ServiceKey(w, v) == ServiceKey(vs, v);
  }

  lemma NewPortDistinct(db: Db, w: Db, p: Id, row: Service, port: int)
    requires RowsOk(db) && PortsDistinct(db.sites, db.services) && row.relayPort == Some(port) && port !in UsedPorts(db, p)
    requires row.site in db.sites && db.sites[row.site].project == p
    requires w == db.(services := db.services[db.nextService := row], nextService := db.nextService + 1)
    ensures PortsDistinct(w.sites, w.services)
  {
    assert forall q, v | v != db.nextService :: Holds(w.sites, w.services, q, v) ==> Holds(db.sites, db.services, q, v);
    forall q, v | Holds(w.sites, w.services, q, v) && v != db.nextService
      ensures q == p ==> PortOf(w.services, v) != Some(port)
    {
      assert q == p ==> db.services[v].relayPort.value in UsedPorts(db, p);
    }
    assert forall q :: Holds(w.sites, w.services, q, db.nextService) ==> q == p;
  }

  /** A live service is changed in place, or deleted; it keeps its site, its name and its port. */
  lemma ServiceReplaced(db: Db, v: Id, row: Service)
    requires Sound(db) && LiveService(db.services, v)
    requires row.site == db.services[v].site && row.name == db.services[v].name && row.relayPort == db.services[v].relayPort
    ensures var w := db.(services := db.services[v := row]);
      Sound(w) && (Anchored(db) ==> Anchored(w))
  {
    var w := db.(services := db.services[v := row]);
    ServiceReplacedTable(db.services, v, row);
    PortsShrink(db.sites, db.services, w.sites, w.services);
    hide RangesDisjoint, SlugsUnique, PortsDistinct, SitesUnique, ServicesUnique;
    if Anchored(db) {
      forall x | LiveService(w.services, x) ensures InRange(w, x) {
        assert InRange(db, x);
      }
    }
  }

  lemma ServiceReplacedTable(vs: map<Id, Service>, v: Id, row: Service)
    requires ServicesUnique(vs) && LiveService(vs, v) && row.site == vs[v].site && row.name == vs[v].name
    ensures ServicesUnique(vs[v := row])
  {
    var w := vs[v := row];
    assert forall x :: LiveService(w, x) ==> LiveService(vs, x) && ServiceKey(w, x) == ServiceKey(vs, x);
  }

  // ----- the handlers -----

  lemma PathShape(db: Db, p: Id, row: Project, path: string, body: ProjectBody)
    requires ApplyPath(db, p, row, path, body).Ok?
    ensures var y := ApplyPath(db, p, row, path, body).value;
      && y.slug == row.slug && y.deleted == row.deleted
      && (y.portRange == row.portRange || RangeChecked(db, p, y.portRange))
      && (path != "relay_port_range" ==> y.portRange == row.portRange)
  {
  }

  ghost predicate RangeChecked(db: Db, p: Id, portRange: string) {
    ParsePortRange(portRange).Ok?
    && !OverlapsAny(db, ParsePortRange(portRange).value.0, ParsePortRange(portRange).value.1, p)
  }

  /** A mask, whatever it lists and in whatever order, leaves slug and flag alone and checks any new range. */
  lemma {:induction false} MaskShape(db: Db, p: Id, row: Project, mask: seq<string>, body: ProjectBody)
    requires ApplyMask(db, p, row, mask, body).Ok?
    ensures var y := ApplyMask(db, p, row, mask, body).value;
      && y.slug == row.slug && y.deleted == row.deleted
      && (y.portRange == row.portRange || RangeChecked(db, p, y.portRange))
      && ("relay_port_range" !in mask ==> y.portRange == row.portRange)
    decreases |mask|
  {
    hide ApplyPath, RangeChecked;
    if mask != [] {
      PathShape(db, p, row, mask[0], body);
      MaskShape(db, p, ApplyPath(db, p, row, mask[0], body).value, mask[1..], body);
    }
  }

  lemma {:induction false} ServiceMaskShape(row: Service, mask: seq<string>, body: ServiceBody)
    requires ApplyServiceMask(row, mask, body).Ok?
    ensures var y := ApplyServiceMask(row, mask, body).value;
      y.site == row.site && y.name == row.name && y.relayPort == row.relayPort && y.deleted == row.deleted
    decreases |mask|
  {
    if mask != [] {
      ServiceMaskShape(ApplyServicePath(row, mask[0], body).value, mask[1..], body);
    }
  }

  lemma CreateProjectKept(db: Db, slug: string, name: string, portRange: string, mode: string, backend: string)
    requires Sound(db)
    ensures var w := CreateProject(db, slug, name, portRange, mode, backend).0;
      Sound(w) && (Anchored(db) ==> Anchored(w))
  {
    hide Sound, Anchored, OverlapsAny;
    var (w, reply) := CreateProject(db, slug, name, portRange, mode, backend);
    if reply == OK {
      ProjectAdded(db, Project(slug, name, portRange, mode, backend, true, false));
    }
  }

  lemma UpdateProjectKept(db: Db, slug: string, mask: seq<string>, body: ProjectBody)
    requires Sound(db)
    ensures var w := UpdateProject(db, slug, mask, body).0;
      Sound(w) && (Anchored(db) && "relay_port_range" !in mask ==> Anchored(w))
  {
    var w := UpdateProject(db, slug, mask, body).0;
    if w != db {
      var p := FindProject(db, slug, 1).value;
      assert Readable(db.projects, p);
      hide Sound, Anchored, OverlapsAny, ApplyMask;
      MaskShape(db, p, db.projects[p], mask, body);
      ProjectReplaced(db, p, ApplyMask(db, p, db.projects[p], mask, body).value);
    } else {
      hide Sound, Anchored;
      assert w == db;
    }
  }

  lemma DeleteProjectKept(db: Db, slug: string, force: bool)
    requires Sound(db)
    ensures var w := DeleteProject(db, slug, force).0;
      Sound(w) && (Anchored(db) && !force ==> Anchored(w))
  {
    hide Sound, Anchored;
    if DeleteProject(db, slug, force).1 == OK {
      ProjectDeleted(db, FindProject(db, slug, 1).value);
    }
  }

  lemma CreateSiteKept(db: Db, project: string, site: string, display: string)
    requires Sound(db)
    ensures var w := CreateSite(db, project, site, display).0;
      Sound(w) && (Anchored(db) ==> Anchored(w))
  {
    hide Sound, Anchored;
    if CreateSite(db, project, site, display).1 == OK {
      SiteAdded(db, FindProject(db, project, 1).value, site);
    }
  }

  lemma DeleteSiteKept(db: Db, project: string, site: string, force: bool)
    requires Sound(db)
    ensures var w := DeleteSite(db, project, site, force).0;
      Sound(w) && (Anchored(db) && !force ==> Anchored(w))
  {
    hide Sound, Anchored;
    if DeleteSite(db, project, site, force).1 == OK {
      SiteDeleted(db, FindSite(db, FindProject(db, project, 1).value, site, 1).value);
    }
  }

  lemma CreateServiceKept(db: Db, project: string, site: string, service: string, body: ServiceBody)
    requires Sound(db)
    ensures var w := CreateService(db, project, site, service, body).0;
      Sound(w) && (Anchored(db) ==> Anchored(w))
  {
    hide Sound, Anchored, AllocateRelayPort;
    if CreateService(db, project, site, service, body).0 != db {
      var p := FindProject(db, project, 1).value;
      var s := FindSite(db, p, site, 1).value;
      var port := AllocateRelayPort(db, p).value;
      ServiceAdded(db, p, Service(s, service, body.addr, body.port, if body.proto.None? then "tcp" else body.proto.value,
                                  Some(port), false), port);
    }
  }

  lemma UpdateServiceKept(db: Db, project: string, site: string, service: string, mask: seq<string>, body: ServiceBody)
    requires Sound(db)
    ensures var w := UpdateService(db, project, site, service, mask, body).0;
      Sound(w) && (Anchored(db) ==> Anchored(w))
  {
    hide Sound, Anchored, ApplyServiceMask, ResolveService;
    if UpdateService(db, project, site, service, mask, body).0 != db {
      var v := ResolveService(db, project, site, service).value;
      ServiceMaskShape(db.services[v], mask, body);
      ServiceReplaced(db, v, ApplyServiceMask(db.services[v], mask, body).value);
    }
  }

  lemma DeleteServiceKept(db: Db, project: string, site: string, service: string)
    requires Sound(db)
    ensures var w := DeleteService(db, project, site, service).0;
      Sound(w) && (Anchored(db) ==> Anchored(w))
  {
    hide Sound, Anchored, ResolveService;
    if DeleteService(db, project, site, service).0 != db {
      var v := ResolveService(db, project, site, service).value;
      ServiceReplaced(db, v, db.services[v].(deleted := true));
    }
  }

  lemma DoKept(db: Db, op: Op)
    requires Sound(db)
    ensures Sound(Do(db, op).0) && (Anchored(db) && Gentle(op) ==> Anchored(Do(db, op).0))
  {
    hide Sound, Anchored, CreateProject, UpdateProject, DeleteProject, CreateSite, DeleteSite, CreateService,
         UpdateService, DeleteService;
    match op
    case OpCreateProject(slug, name, portRange, mode, backend) => CreateProjectKept(db, slug, name, portRange, mode, backend);
    case OpUpdateProject(slug, mask, change) => UpdateProjectKept(db, slug, mask, change);
    case OpDeleteProject(slug, force) => DeleteProjectKept(db, slug, force);
    case OpCreateSite(project, site, display) => CreateSiteKept(db, project, site, display);
    case OpDeleteSite(project, site, force) => DeleteSiteKept(db, project, site, force);
    case OpCreateService(project, site, service, body) => CreateServiceKept(db, project, site, service, body);
    case OpUpdateService(project, site, service, mask, body) => UpdateServiceKept(db, project, site, service, mask, body);
    case OpDeleteService(project, site, service) => DeleteServiceKept(db, project, site, service);
  }

  lemma {:induction false} SoundAlways(db: Db, ops: seq<Op>)
    requires Sound(db)
    ensures Sound(DbAfter(db, ops))
    ensures Anchored(db) && (forall op <- ops :: Gentle(op)) ==> Anchored(DbAfter(db, ops))
    decreases |ops|
  {
    hide Sound, Anchored, Do, Gentle;
    if ops != [] {
      DoKept(db, ops[0]);
      SoundAlways(Do(db, ops[0]).0, ops[1..]);
      assert (forall op <- ops :: Gentle(op)) ==> forall op <- ops[1..] :: Gentle(op);
    }
  }

  // ----- the theorems -----

  /** Over every run of the handlers, forced deletes and range changes included. */
  lemma LedgerIsSound(ops: seq<Op>)
    ensures var db := DbAfter(EMPTY, ops);
      && RangesDisjoint(db.projects) && PortsDistinct(db.sites, db.services)
      && SlugsUnique(db.projects) && SitesUnique(db.sites) && ServicesUnique(db.services)
  {
    SoundAlways(EMPTY, ops);
  }

  /**
   Over every gentle run, all live services hold different ports, each inside its own
   project's range, and none is the control port of any live project.
   */
  lemma PortsGloballyDistinct(db: Db, v: Id, w: Id, p: Id)
    requires Sound(db) && Anchored(db)
    requires LiveService(db.services, v) && LiveService(db.services, w) && LiveProject(db.projects, p)
    ensures InRange(db, v)
    ensures PortOf(db.services, v) == PortOf(db.services, w) ==> v == w
    ensures PortOf(db.services, v) != Some(RangeOf(db.projects, p).0)
  {
    assert InRange(db, v) && InRange(db, w);
    var pv, pw := db.sites[db.services[v].site].project, db.sites[db.services[w].site].project;
    assert Holds(db.sites, db.services, pv, v) && Holds(db.sites, db.services, pw, w);
    ParsedRangeHasRoom(db.projects[p].portRange);
    assert pv == p || !Overlap(RangeOf(db.projects, pv).0, RangeOf(db.projects, pv).1,
                               RangeOf(db.projects, p).0, RangeOf(db.projects, p).1);
    assert pv == pw || !Overlap(RangeOf(db.projects, pv).0, RangeOf(db.projects, pv).1,
                                RangeOf(db.projects, pw).0, RangeOf(db.projects, pw).1);
  }

  ghost predicate NoPortTwice(vs: map<Id, Service>) {
    forall v, w :: LiveService(vs, v) && LiveService(vs, w) && PortOf(vs, v) == PortOf(vs, w) ==> v == w
  }

  lemma GentleRunsKeepPortsDistinct(ops: seq<Op>)
    requires forall op <- ops :: Gentle(op)
    ensures NoPortTwice(DbAfter(EMPTY, ops).services)
  {
    SoundAlways(EMPTY, ops);
    var db := DbAfter(EMPTY, ops);
    forall v, w | LiveService(db.services, v) && LiveService(db.services, w) && PortOf(db.services, v) == PortOf(db.services, w)
      ensures v == w
    {
      PortsGloballyDistinct(db, v, w, db.sites[db.services[v].site].project);
    }
  }
}
