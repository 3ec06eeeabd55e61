/**
 What each admin request is answered and what it writes, said of the request and the rows alone:
 when it is refused and how, and otherwise field by field what is in the row it leaves.
 */
module LedgerReplies {
  import opened Wrappers
  import opened Names
  import opened PortRange
  import opened Ledger
  import opened LedgerInvariant
  import opened LedgerEffects

  // ----- the searches -----

  ghost predicate NoProject(db: Db, slug: string) {
    forall p :: !IsProject(db, p, slug)
  }

  ghost predicate NoSite(db: Db, p: Id, name: string) {
    forall s :: !IsSite(db, s, p, name)
  }

  ghost predicate NoService(db: Db, s: Id, name: string) {
    forall v :: !IsService(db, v, s, name)
  }

  lemma ProjectSearch(db: Db, slug: string)
    requires Sound(db)
    ensures FindProject(db, slug, 1).None? <==> NoProject(db, slug)
    ensures forall p :: IsProject(db, p, slug) ==> FindProject(db, slug, 1) == Some(p)
  {
    hide Sound;
    forall p ensures IsProject(db, p, slug) ==> FindProject(db, slug, 1) == Some(p) {
      ProjectNamedExact(db, slug, p);
    }
    var r := FindProject(db, slug, 1);
    assert r.Some? ==> IsProject(db, r.value, slug);
  }

  lemma SiteSearch(db: Db, p: Id, name: string)
    requires Sound(db)
    ensures FindSite(db, p, name, 1).None? <==> NoSite(db, p, name)
    ensures forall s :: IsSite(db, s, p, name) ==> FindSite(db, p, name, 1) == Some(s)
  {
    hide Sound;
    forall s ensures IsSite(db, s, p, name) ==> FindSite(db, p, name, 1) == Some(s) {
      SiteNamedExact(db, p, name, s);
    }
    var r := FindSite(db, p, name, 1);
    assert r.Some? ==> IsSite(db, r.value, p, name);
  }

  lemma ServiceSearch(db: Db, s: Id, name: string)
    requires Sound(db)
    ensures FindService(db, s, name, 1).None? <==> NoService(db, s, name)
    ensures forall v :: IsService(db, v, s, name) ==> FindService(db, s, name, 1) == Some(v)
  {
    hide Sound;
    forall v ensures IsService(db, v, s, name) ==> FindService(db, s, name, 1) == Some(v) {
      ServiceNamedExact(db, s, name, v);
    }
    var r := FindService(db, s, name, 1);
    assert r.Some? ==> IsService(db, r.value, s, name);
  }

  // ----- projects -----

  /** The port lies in the range of live project q. */
  predicate RangeHas(db: Db, q: Id, port: int) {
    q in db.projects && !db.projects[q].deleted && ParsePortRange(db.projects[q].portRange).Ok?
    && ParsePortRange(db.projects[q].portRange).value.0 <= port <= ParsePortRange(db.projects[q].portRange).value.1
  }

  /** The range can be read and has a port in common with that of a live project other than except. */
  ghost predicate Clashes(db: Db, portRange: string, except: Id) {
    ParsePortRange(portRange).Ok?
    && exists q, port :: q != except && RangeHas(db, q, port)
                         && ParsePortRange(portRange).value.0 <= port <= ParsePortRange(portRange).value.1
  }

  lemma ClashIsOverlap(db: Db, portRange: string, except: Id)
    requires ParsePortRange(portRange).Ok?
    ensures var r := ParsePortRange(portRange).value; OverlapsAny(db, r.0, r.1, except) <==> Clashes(db, portRange, except)
  {
    ParsedRangeHasRoom(portRange);
    var r := ParsePortRange(portRange).value;
    if q :| Meets(db, q, r.0, r.1, except) {
      ParsedRangeHasRoom(db.projects[q].portRange);
      var o := ParsePortRange(db.projects[q].portRange).value;
      assert RangeHas(db, q, if r.0 < o.0 then o.0 else r.0);
    }
    if q, port :| q != except && RangeHas(db, q, port) && r.0 <= port <= r.1 {
      assert Meets(db, q, r.0, r.1, except);
    }
  }

  /** A project is created exactly when the request is well formed, its range clashes with none and its slug is free. */
  lemma CreateProjectExact(db: Db, slug: string, name: string, portRange: string, mode: string, backend: string)
    requires Sound(db)
    ensures var (w, reply) := CreateProject(db, slug, name, portRange, mode, backend);
            var asked := Slug(slug) && name != "" && ParsePortRange(portRange).Ok?;
      && reply in {OK, InvalidArgument, FailedPrecondition, AlreadyExists}
      && (reply == InvalidArgument <==> !asked)
      && (reply == FailedPrecondition <==> asked && Clashes(db, portRange, 0))
      && (reply == AlreadyExists <==> asked && !Clashes(db, portRange, 0) && !NoProject(db, slug))
      && w == if reply != OK then db
              else db.(projects := db.projects[db.nextProject := Project(slug, name, portRange, mode, backend, true, false)],
                       nextProject := db.nextProject + 1)
  {
    ProjectSearch(db, slug);
    hide Sound, Slug, FindProject, NoProject, OverlapsAny, Clashes;
    if ParsePortRange(portRange).Ok? {
      ClashIsOverlap(db, portRange, 0);
    }
    EmptyRange();
  }

  lemma EmptyRange()
    ensures ParsePortRange("").Err?
  {
  }

  /** A project is deleted exactly when it is there and has no live site, or the delete is forced. */
  lemma DeleteProjectReplies(db: Db, slug: string, force: bool)
    requires Sound(db)
    ensures var (w, reply) := DeleteProject(db, slug, force);
      && reply in {OK, InvalidArgument, NotFound, FailedPrecondition}
      && (reply == InvalidArgument <==> !Slug(slug))
      && (reply == NotFound <==> Slug(slug) && NoProject(db, slug))
      && (reply == FailedPrecondition <==> Slug(slug) && !force && exists p, s :: IsProject(db, p, slug) && SiteIn(db, s, p))
      && (reply != OK ==> w == db)
      && forall p :: reply == OK && IsProject(db, p, slug) ==>
           w == db.(projects := db.projects[p := db.projects[p].(deleted := true)])
  {
    ProjectSearch(db, slug);
    hide Sound, Slug, FindProject, NoProject;
    forall p ensures SitesOf(db, p) == {} <==> forall s :: !SiteIn(db, s, p) {
      if SitesOf(db, p) != {} {
        var s := Pick(SitesOf(db, p));
        assert SiteIn(db, s, p);
      }
      assert forall s :: SiteIn(db, s, p) ==> s in SitesOf(db, p);
    }
  }

  predicate SiteIn(db: Db, s: Id, p: Id) {
    s in db.sites && !db.sites[s].deleted && db.sites[s].project == p
  }

  predicate ServiceIn(db: Db, v: Id, s: Id) {
    v in db.services && !db.services[v].deleted && db.services[v].site == s
  }

  // ----- sites -----

  /** A site is created exactly when its project is there, the request is well formed and the name is free in it. */
  lemma CreateSiteExact(db: Db, project: string, site: string, display: string, p: Id)
    requires Sound(db)
    ensures var (w, reply) := CreateSite(db, project, site, display);
      && (!Slug(project) ==> (w, reply) == (db, InvalidArgument))
      && (Slug(project) && NoProject(db, project) ==> (w, reply) == (db, NotFound))
      && (Slug(project) && IsProject(db, p, project) ==>
          (w, reply) == if !Slug(site) || display == "" then (db, InvalidArgument)
                        else if !NoSite(db, p, site) then (db, AlreadyExists)
                        else (db.(sites := db.sites[db.nextSite := Site(p, site, false)], nextSite := db.nextSite + 1), OK))
  {
    ProjectSearch(db, project);
    SiteSearch(db, p, site);
    hide Sound, Slug, FindProject, FindSite, NoProject, NoSite;
  }

  /** A site is deleted exactly when it is there and has no live service, or the delete is forced. */
  lemma DeleteSiteReplies(db: Db, project: string, site: string, force: bool, p: Id, s: Id)
    requires Sound(db)
    ensures var (w, reply) := DeleteSite(db, project, site, force);
      && (!Slug(project) || !Slug(site) ==> (w, reply) == (db, InvalidArgument))
      && (Slug(project) && Slug(site) && NoProject(db, project) ==> (w, reply) == (db, NotFound))
      && (Slug(project) && Slug(site) && IsProject(db, p, project) && NoSite(db, p, site) ==> (w, reply) == (db, NotFound))
      && (Slug(project) && Slug(site) && IsProject(db, p, project) && IsSite(db, s, p, site) ==>
          (w, reply) == if !force && (exists v :: ServiceIn(db, v, s)) then (db, FailedPrecondition)
                        else (db.(sites := db.sites[s := db.sites[s].(deleted := true)]), OK))
  {
    ProjectSearch(db, project);
    SiteSearch(db, p, site);
    hide Sound, Slug, FindProject, FindSite, NoProject, NoSite;
    assert ServicesOf(db, s) == {} <==> forall v :: !ServiceIn(db, v, s) by {
      if ServicesOf(db, s) != {} {
        var v := Pick(ServicesOf(db, s));
        assert ServiceIn(db, v, s);
      }
      assert forall v :: ServiceIn(db, v, s) ==> v in ServicesOf(db, s);
    }
  }

  // ----- services -----

  /** Project p has this slug and its site s this name. */
  predicate Addressed(db: Db, p: Id, s: Id, project: string, site: string) {
    Slug(project) && Slug(site) && IsProject(db, p, project) && IsSite(db, s, p, site)
  }

  /** The two slugs are well formed and there is no such site. */
  ghost predicate Nowhere(db: Db, project: string, site: string) {
    Slug(project) && Slug(site) && (NoProject(db, project) || exists p :: IsProject(db, p, project) && NoSite(db, p, site))
  }

  /** Some live service on a live site of project p holds the port. */
  ghost predicate Held(db: Db, p: Id, port: int) {
    exists v, s :: ServiceIn(db, v, s) && SiteIn(db, s, p) && db.services[v].relayPort == Some(port)
  }

  lemma HeldIsUsed(db: Db, p: Id, port: int)
    ensures Held(db, p, port) <==> port in UsedPorts(db, p)
  {
    if port in UsedPorts(db, p) {
      var v :| v in db.services && Holds(db.sites, db.services, p, v) && db.services[v].relayPort.value == port;
      assert ServiceIn(db, v, db.services[v].site) && SiteIn(db, db.services[v].site, p);
    }
    if v, s :| ServiceIn(db, v, s) && SiteIn(db, s, p) && db.services[v].relayPort == Some(port) {
      assert Holds(db.sites, db.services, p, v);
    }
  }

  /** Port is the least above the control port that no live service on a live site of p holds. */
  ghost predicate LeastUnheld(db: Db, p: Id, port: int) {
    Readable(db.projects, p) && RangeOf(db.projects, p).0 < port <= RangeOf(db.projects, p).1
    && !Held(db, p, port) && forall q :: RangeOf(db.projects, p).0 < q < port ==> Held(db, p, q)
  }

  predicate FreeFirst(used: set<int>, min: int, max: int, port: int) {
    min < port <= max && port !in used && forall q :: min < q < port ==> q in used
  }

  lemma UnheldIsFree(db: Db, p: Id, port: int)
    requires Readable(db.projects, p)
    ensures LeastUnheld(db, p, port) <==>
      FreeFirst(UsedPorts(db, p), RangeOf(db.projects, p).0, RangeOf(db.projects, p).1, port)
  {
    hide Held, UsedPorts, Readable, RangeOf;
    HeldIsUsed(db, p, port);
    forall q ensures Held(db, p, q) <==> q in UsedPorts(db, p) {
      HeldIsUsed(db, p, q);
    }
  }

  lemma FreeExact(used: set<int>, min: int, max: int, r: Result<int, Reply>)
    requires LeastFree(r, used, min, max) && min < max
    ensures forall port :: r == Ok(port) <==> FreeFirst(used, min, max, port)
    ensures r.Err? ==> r.error == ResourceExhausted
  {
    AllTakenCount(used, min + 1, max);
    hide TakenIn;
    forall port | FreeFirst(used, min, max, port) ensures r == Ok(port) {
      if r.Ok? {
        assert !(port < r.value) && !(r.value < port);
      }
    }
  }

  lemma AllocationExact(db: Db, p: Id)
    requires Readable(db.projects, p)
    ensures forall port :: AllocateRelayPort(db, p) == Ok(port) <==> LeastUnheld(db, p, port)
    ensures AllocateRelayPort(db, p).Err? ==> AllocateRelayPort(db, p) == Err(ResourceExhausted)
  {
    AllocateIsLeastFree(db, p);
    ParsedRangeHasRoom(db.projects[p].portRange);
    hide LeastFree, AllocateRelayPort, UsedPorts, LeastUnheld, FreeFirst, ParsePortRange;
    FreeExact(UsedPorts(db, p), RangeOf(db.projects, p).0, RangeOf(db.projects, p).1, AllocateRelayPort(db, p));
    forall port ensures AllocateRelayPort(db, p) == Ok(port) <==> LeastUnheld(db, p, port) {
      UnheldIsFree(db, p, port);
    }
  }

  predicate WellFormed(service: string, body: ServiceBody) {
    Slug(service) && body.addr != "" && 0 < body.port <= 65535
  }

  /**
   A service is created with the least port its project has left, the requested address, port and
   protocol (tcp unless it asks otherwise); or it is refused, in this order: no such site, malformed,
   no port left, name taken.
   */
  lemma CreateServiceReplies(db: Db, project: string, site: string, service: string, body: ServiceBody, p: Id, s: Id, port: int)
    requires Sound(db)
    ensures var (w, reply) := CreateService(db, project, site, service, body);
      && (!Slug(project) || !Slug(site) ==> (w, reply) == (db, InvalidArgument))
      && (Nowhere(db, project, site) ==> (w, reply) == (db, NotFound))
      && (Addressed(db, p, s, project, site) && !WellFormed(service, body) ==> (w, reply) == (db, InvalidArgument))
      && (Addressed(db, p, s, project, site) && WellFormed(service, body) && (forall q :: !LeastUnheld(db, p, q)) ==>
          (w, reply) == (db, ResourceExhausted))
      && (Addressed(db, p, s, project, site) && WellFormed(service, body) && LeastUnheld(db, p, port) ==>
          (w, reply) == if !NoService(db, s, service) then (db, AlreadyExists)
                        else (db.(services := db.services[db.nextService :=
                                    Service(s, service, body.addr, body.port, if body.proto.None? then "tcp" else body.proto.value,
                                            Some(port), false)],
                                  nextService := db.nextService + 1), OK))
  {
    SearchAt(db, project, site, p, s);
    ServiceSearch(db, s, service);
    if IsProject(db, p, project) {
      AllocationExact(db, p);
    }
    hide Sound, Slug, FindProject, FindSite, FindService, NoProject, NoSite, NoService, AllocateRelayPort, LeastUnheld;
  }

  lemma SearchAt(db: Db, project: string, site: string, p: Id, s: Id)
    requires Sound(db)
    ensures Addressed(db, p, s, project, site) ==>
      FindProject(db, project, 1) == Some(p) && FindSite(db, p, site, 1) == Some(s) && Readable(db.projects, p)
    ensures Nowhere(db, project, site) ==>
      var f := FindProject(db, project, 1); f.None? || FindSite(db, f.value, site, 1).None?
  {
    ProjectSearch(db, project);
    SiteSearch(db, p, site);
    var f := FindProject(db, project, 1);
    if f.Some? {
      SiteSearch(db, f.value, site);
    }
    assert LiveProject(db.projects, p) ==> Readable(db.projects, p);
    hide Sound, Slug, FindProject, FindSite, NoSite;
  }

  /** A service is deleted exactly when it is there. */
  lemma DeleteServiceReplies(db: Db, project: string, site: string, service: string, p: Id, s: Id, v: Id)
    requires Sound(db)
    ensures var (w, reply) := DeleteService(db, project, site, service);
      && (!Slug(project) || !Slug(site) || !Slug(service) ==> (w, reply) == (db, InvalidArgument))
      && (Slug(service) && Nowhere(db, project, site) ==> (w, reply) == (db, NotFound))
      && (Slug(service) && Addressed(db, p, s, project, site) && NoService(db, s, service) ==> (w, reply) == (db, NotFound))
      && (Slug(service) && Addressed(db, p, s, project, site) && IsService(db, v, s, service) ==>
          (w, reply) == (db.(services := db.services[v := db.services[v].(deleted := true)]), OK))
  {
    SearchAt(db, project, site, p, s);
    ServiceSearch(db, s, service);
    hide Sound, Slug, FindProject, FindSite, FindService, NoProject, NoSite, NoService;
  }

  // ----- updates -----

  /** The path may be updated to what the body holds. */
  ghost predicate PathFine(db: Db, p: Id, path: string, body: ProjectBody) {
    match path
    case "display_name" => body.name != ""
    case "relay_port_range" => ParsePortRange(body.portRange).Ok? && !Clashes(db, body.portRange, p)
    case "default_mode" => body.mode.Some?
    case "backend" => body.backend.Some?
    case "status" => body.active.Some?
    case _ => false
  }

  ghost predicate AllFine(db: Db, p: Id, mask: seq<string>, body: ProjectBody) {
    forall k :: 0 <= k < |mask| ==> PathFine(db, p, mask[k], body)
  }

  /** Row y is row x with every field that the mask lists taken from the body, and no other changed. */
  predicate FieldsTaken(x: Project, y: Project, mask: seq<string>, body: ProjectBody) {
    && y.slug == x.slug && y.deleted == x.deleted
    && y.name == (if "display_name" in mask then body.name else x.name)
    && y.portRange == (if "relay_port_range" in mask then body.portRange else x.portRange)
    && (if "default_mode" in mask then body.mode == Some(y.mode) else y.mode == x.mode)
    && (if "backend" in mask then body.backend == Some(y.backend) else y.backend == x.backend)
    && (if "status" in mask then body.active == Some(y.active) else y.active == x.active)
  }

  /** How a request is refused for this path. */
  function Refusal(path: string, body: ProjectBody): Reply {
    if path == "relay_port_range" && ParsePortRange(body.portRange).Ok? then FailedPrecondition else InvalidArgument
  }

  /** The first path that may not be updated says how the request is refused. */
  ghost predicate RefusedAs(db: Db, p: Id, mask: seq<string>, body: ProjectBody, e: Reply) {
    exists k :: 0 <= k < |mask| && FirstBad(db, p, mask, body, k) && e == Refusal(mask[k], body)
  }

  ghost predicate FirstBad(db: Db, p: Id, mask: seq<string>, body: ProjectBody, k: nat) {
    k < |mask| && AllFine(db, p, mask[..k], body) && !PathFine(db, p, mask[k], body)
  }

  lemma PathExact(db: Db, p: Id, row: Project, path: string, body: ProjectBody)
    ensures var r := ApplyPath(db, p, row, path, body);
      && (r.Ok? <==> PathFine(db, p, path, body))
      && (r.Ok? ==> FieldsTaken(row, r.value, [path], body))
      && (r.Err? ==> r.error == Refusal(path, body))
  {
    EmptyRange();
    hide ParsePortRange, Clashes, OverlapsAny;
    if ParsePortRange(body.portRange).Ok? {
      ClashIsOverlap(db, body.portRange, p);
    }
  }

  lemma FieldsThen(x: Project, y: Project, z: Project, mask: seq<string>, body: ProjectBody)
    requires mask != [] && FieldsTaken(x, y, [mask[0]], body) && FieldsTaken(y, z, mask[1..], body)
    ensures FieldsTaken(x, z, mask, body)
  {
    assert forall path :: path in mask <==> path == mask[0] || path in mask[1..];
  }

  lemma FineCons(db: Db, p: Id, mask: seq<string>, body: ProjectBody)
    requires mask != []
    ensures AllFine(db, p, mask, body) <==> PathFine(db, p, mask[0], body) && AllFine(db, p, mask[1..], body)
    ensures forall e :: PathFine(db, p, mask[0], body) && RefusedAs(db, p, mask[1..], body, e) ==> RefusedAs(db, p, mask, body, e)
  {
    hide PathFine;
    var rest := mask[1..];
    assert forall k :: 0 < k < |mask| ==> mask[k] == rest[k - 1];
    forall e | PathFine(db, p, mask[0], body) && RefusedAs(db, p, rest, body, e) ensures RefusedAs(db, p, mask, body, e) {
      var k :| 0 <= k < |rest| && FirstBad(db, p, rest, body, k) && e == Refusal(rest[k], body);
      forall j | 0 <= j < k + 1 ensures PathFine(db, p, mask[j], body) {
        assert j > 0 ==> rest[..k][j - 1] == mask[j];
      }
      assert FirstBad(db, p, mask, body, k + 1);
    }
  }

  lemma {:induction false} MaskExact(db: Db, p: Id, row: Project, mask: seq<string>, body: ProjectBody)
    ensures var r := ApplyMask(db, p, row, mask, body);
      && (r.Ok? <==> AllFine(db, p, mask, body))
      && (r.Ok? ==> FieldsTaken(row, r.value, mask, body))
      && (r.Err? ==> RefusedAs(db, p, mask, body, r.error))
    decreases |mask|
  {
    if mask != [] {
      var y := ApplyPath(db, p, row, mask[0], body);
      PathExact(db, p, row, mask[0], body);
      FineCons(db, p, mask, body);
      hide ApplyPath, PathFine, AllFine, FieldsTaken, ParsePortRange;
      if y.Ok? {
        MaskExact(db, p, y.value, mask[1..], body);
        if ApplyMask(db, p, y.value, mask[1..], body).Ok? {
          FieldsThen(row, y.value, ApplyMask(db, p, y.value, mask[1..], body).value, mask, body);
        }
      } else {
        FirstIsBad(db, p, mask, body);
      }
    }
  }

  lemma FirstIsBad(db: Db, p: Id, mask: seq<string>, body: ProjectBody)
    requires mask != [] && !PathFine(db, p, mask[0], body)
    ensures FirstBad(db, p, mask, body, 0)
  {
  }

  /**
   An update is accepted exactly when every path it lists is known and fine, and then the project's
   row holds the requested values in exactly the listed fields; otherwise nothing changes.
   */
  lemma UpdateProjectExact(db: Db, slug: string, mask: seq<string>, body: ProjectBody, p: Id)
    requires Sound(db)
    ensures var (w, reply) := UpdateProject(db, slug, mask, body);
      && (mask == [] || !Slug(slug) ==> (w, reply) == (db, InvalidArgument))
      && (mask != [] && Slug(slug) && NoProject(db, slug) ==> (w, reply) == (db, NotFound))
      && (mask != [] && Slug(slug) && IsProject(db, p, slug) ==>
          if AllFine(db, p, mask, body)
          then && reply == OK && p in w.projects && w == db.(projects := db.projects[p := w.projects[p]])
               && FieldsTaken(db.projects[p], w.projects[p], mask, body)
          else w == db && RefusedAs(db, p, mask, body, reply))
  {
    ProjectSearch(db, slug);
    hide Sound, Slug, FindProject, NoProject, AllFine, FieldsTaken, RefusedAs, ApplyMask;
    if IsProject(db, p, slug) {
      MaskExact(db, p, db.projects[p], mask, body);
    }
  }

  predicate ServicePathFine(path: string, body: ServiceBody) {
    match path
    case "display_name" => true
    case "target_addr" => body.addr != ""
    case "target_port" => 0 < body.port <= 65535
    case "proto" => body.proto.Some?
    case _ => false
  }

  predicate ServiceFine(mask: seq<string>, body: ServiceBody) {
    forall k :: 0 <= k < |mask| ==> ServicePathFine(mask[k], body)
  }

  /** The same of a service row; its name is no field that an update changes. */
  predicate ServiceFieldsTaken(x: Service, y: Service, mask: seq<string>, body: ServiceBody) {
    && y.site == x.site && y.name == x.name && y.relayPort == x.relayPort && y.deleted == x.deleted
    && y.addr == (if "target_addr" in mask then body.addr else x.addr)
    && y.port == (if "target_port" in mask then body.port else x.port)
    && (if "proto" in mask then body.proto == Some(y.proto) else y.proto == x.proto)
  }

  lemma {:induction false} ServiceMaskExact(row: Service, mask: seq<string>, body: ServiceBody)
    ensures var r := ApplyServiceMask(row, mask, body);
      && (r.Ok? <==> ServiceFine(mask, body))
      && (r.Ok? ==> ServiceFieldsTaken(row, r.value, mask, body))
      && (r.Err? ==> r.error == InvalidArgument)
    decreases |mask|
  {
    if mask != [] {
      var y := ApplyServicePath(row, mask[0], body);
      assert y.Ok? <==> ServicePathFine(mask[0], body);
      assert forall k :: 0 < k < |mask| ==> mask[k] == mask[1..][k - 1];
      assert ServiceFine(mask, body) <==> ServicePathFine(mask[0], body) && ServiceFine(mask[1..], body);
      if y.Ok? {
        ServiceMaskExact(y.value, mask[1..], body);
        assert forall path :: path in mask <==> path == mask[0] || path in mask[1..];
      }
    }
  }

  lemma UpdateServiceExact(db: Db, project: string, site: string, service: string, mask: seq<string>, body: ServiceBody,
                           p: Id, s: Id, v: Id)
    requires Sound(db)
    ensures var (w, reply) := UpdateService(db, project, site, service, mask, body);
      && (mask == [] || !Slug(project) || !Slug(site) || !Slug(service) ==> (w, reply) == (db, InvalidArgument))
      && (mask != [] && Slug(service) && Nowhere(db, project, site) ==> (w, reply) == (db, NotFound))
      && (mask != [] && Slug(service) && Addressed(db, p, s, project, site) && NoService(db, s, service) ==>
          (w, reply) == (db, NotFound))
      && (mask != [] && Slug(service) && Addressed(db, p, s, project, site) && IsService(db, v, s, service) ==>
          if ServiceFine(mask, body)
          then && reply == OK && v in w.services && w == db.(services := db.services[v := w.services[v]])
               && ServiceFieldsTaken(db.services[v], w.services[v], mask, body)
          else (w, reply) == (db, InvalidArgument))
  {
    SearchAt(db, project, site, p, s);
    ServiceSearch(db, s, service);
    if v in db.services {
      ServiceMaskExact(db.services[v], mask, body);
    }
    hide Sound, Slug, FindProject, FindSite, FindService, NoProject, NoSite, NoService, ServiceFine, ServiceFieldsTaken,
         ApplyServiceMask;
  }
}
