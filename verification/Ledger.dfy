/**
 The port ledger: projects with their relay port ranges, sites, and services with their relay
 ports, as tables of rows with a soft-delete flag, and the admin handlers that change them.
 Each handler is one atomic step from tables to tables.
 */
module Ledger {
  import opened Wrappers
  import opened Text
  import opened Names
  import opened PortRange

  type Id = int

  datatype Project = Project(slug: string, name: string, portRange: string, mode: string, backend: string,
                             active: bool, deleted: bool)

  datatype Site = Site(project: Id, name: string, deleted: bool)

  datatype Service = Service(site: Id, name: string, addr: string, port: int, proto: string,
                             relayPort: Option<int>, deleted: bool)

  /** The ids handed out so far are below the next ones: auto-increment never reuses an id. */
  datatype Db = Db(projects: map<Id, Project>, sites: map<Id, Site>, services: map<Id, Service>,
                   nextProject: Id, nextSite: Id, nextService: Id)

  const EMPTY: Db := Db(map[], map[], map[], 1, 1, 1)

  datatype Reply = OK | InvalidArgument | NotFound | FailedPrecondition | AlreadyExists | ResourceExhausted | Internal

  // ----- queries (every query sees live rows only) -----

  predicate LiveProject(ps: map<Id, Project>, p: Id) {
    p in ps && !ps[p].deleted
  }

  predicate LiveSite(ss: map<Id, Site>, s: Id) {
    s in ss && !ss[s].deleted
  }

  predicate LiveService(vs: map<Id, Service>, v: Id) {
    v in vs && !vs[v].deleted
  }

  /** First live project with this slug, searching ids upward from i. */
  function FindProject(db: Db, slug: string, i: Id): (r: Option<Id>)
    ensures r.Some? ==> LiveProject(db.projects, r.value) && db.projects[r.value].slug == slug
    decreases db.nextProject - i
  {
    if i >= db.nextProject then None
    else if LiveProject(db.projects, i) && db.projects[i].slug == slug then Some(i)
    else FindProject(db, slug, i + 1)
  }

  function FindSite(db: Db, project: Id, name: string, i: Id): (r: Option<Id>)
    ensures r.Some? ==> LiveSite(db.sites, r.value) && db.sites[r.value].project == project && db.sites[r.value].name == name
    decreases db.nextSite - i
  {
    if i >= db.nextSite then None
    else if LiveSite(db.sites, i) && db.sites[i].project == project && db.sites[i].name == name then Some(i)
    else FindSite(db, project, name, i + 1)
  }

  function FindService(db: Db, site: Id, name: string, i: Id): (r: Option<Id>)
    ensures r.Some? ==> LiveService(db.services, r.value) && db.services[r.value].site == site && db.services[r.value].name == name
    decreases db.nextService - i
  {
    if i >= db.nextService then None
    else if LiveService(db.services, i) && db.services[i].site == site && db.services[i].name == name then Some(i)
    else FindService(db, site, name, i + 1)
  }

  function SitesOf(db: Db, p: Id): set<Id> {
    set s | s in db.sites && !db.sites[s].deleted && db.sites[s].project == p
  }

  function ServicesOf(db: Db, s: Id): set<Id> {
    set v | v in db.services && !db.services[v].deleted && db.services[v].site == s
  }

  /** The live service v sits on a live site of project p and holds a port. */
  predicate Holds(ss: map<Id, Site>, vs: map<Id, Service>, p: Id, v: Id) {
    && LiveService(vs, v) && vs[v].relayPort.Some?
    && LiveSite(ss, vs[v].site) && ss[vs[v].site].project == p
  }

  function UsedPorts(db: Db, p: Id): set<int> {
    set v | v in db.services && Holds(db.sites, db.services, p, v) :: db.services[v].relayPort.value
  }

  /** The ranges [a, b] and [c, d], ends included, have a port in common. */
  predicate Overlap(a: int, b: int, c: int, d: int) {
    a <= d && c <= b
  }

  /** Some live project other than except has a readable range that meets [min, max]. */
  ghost predicate OverlapsAny(db: Db, min: int, max: int, except: Id) {
    exists q :: Meets(db, q, min, max, except)
  }

  predicate Meets(db: Db, q: Id, min: int, max: int, except: Id) {
    LiveProject(db.projects, q) && q != except
    && ParsePortRange(db.projects[q].portRange).Ok?
    && var r := ParsePortRange(db.projects[q].portRange).value; Overlap(min, max, r.0, r.1)
  }

  /** The least port from p to max that is not used. */
  function LowestFree(used: set<int>, p: int, max: int): Option<int>
    decreases max - p
  {
    if p > max then None else if p !in used then Some(p) else LowestFree(used, p + 1, max)
  }

  /** The lowest port of the range is the control port, so the search starts one above it. */
  function AllocateRelayPort(db: Db, p: Id): Result<int, Reply>
    requires p in db.projects
  {
    match ParsePortRange(db.projects[p].portRange)
    case Err(_) => Err(Internal)
    case Ok(r) =>
      match LowestFree(UsedPorts(db, p), r.0 + 1, r.1)
      case None => Err(ResourceExhausted)
      case Some(port) => Ok(port)
  }

  // ----- handlers -----

  /** The body of an update request; a mode, backend or status the server does not know is None. */
  datatype ProjectBody = ProjectBody(name: string, portRange: string, mode: Option<string>,
                                     backend: Option<string>, active: Option<bool>)

  datatype ServiceBody = ServiceBody(addr: string, port: int, proto: Option<string>)

  ghost function CreateProject(db: Db, slug: string, name: string, portRange: string, mode: string, backend: string): (Db, Reply) {
    if !Slug(slug) || name == "" || portRange == "" || ParsePortRange(portRange).Err? then (db, InvalidArgument)
    else
      var r := ParsePortRange(portRange).value;
      if OverlapsAny(db, r.0, r.1, 0) then (db, FailedPrecondition)
      else if FindProject(db, slug, 1).Some? then (db, AlreadyExists)
      else
        var row := Project(slug, name, portRange, mode, backend, true, false);
        (db.(projects := db.projects[db.nextProject := row], nextProject := db.nextProject + 1), OK)
  }

  /** One path of an update mask, applied to the row as read. */
  ghost function ApplyPath(db: Db, p: Id, row: Project, path: string, body: ProjectBody): Result<Project, Reply> {
    if path == "display_name" then
      if body.name == "" then Err(InvalidArgument) else Ok(row.(name := body.name))
    else if path == "relay_port_range" then
      if body.portRange == "" || ParsePortRange(body.portRange).Err? then Err(InvalidArgument)
      else
        var r := ParsePortRange(body.portRange).value;
        if OverlapsAny(db, r.0, r.1, p) then Err(FailedPrecondition) else Ok(row.(portRange := body.portRange))
    else if path == "default_mode" then
      if body.mode.None? then Err(InvalidArgument) else Ok(row.(mode := body.mode.value))
    else if path == "backend" then
      if body.backend.None? then Err(InvalidArgument) else Ok(row.(backend := body.backend.value))
    else if path == "status" then
      if body.active.None? then Err(InvalidArgument) else Ok(row.(active := body.active.value))
    else Err(InvalidArgument)
  }

  ghost function ApplyMask(db: Db, p: Id, row: Project, mask: seq<string>, body: ProjectBody): Result<Project, Reply>
    decreases |mask|
  {
    if mask == [] then Ok(row)
    else
      match ApplyPath(db, p, row, mask[0], body)
      case Err(e) => Err(e)
      case Ok(row') => ApplyMask(db, p, row', mask[1..], body)
  }

  ghost function UpdateProject(db: Db, slug: string, mask: seq<string>, body: ProjectBody): (Db, Reply) {
    if mask == [] || !Slug(slug) then (db, InvalidArgument)
    else
      match FindProject(db, slug, 1)
      case None => (db, NotFound)
      case Some(p) =>
        match ApplyMask(db, p, db.projects[p], mask, body)
        case Err(e) => (db, e)
        case Ok(row) => (db.(projects := db.projects[p := row]), OK)
  }

  function DeleteProject(db: Db, slug: string, force: bool): (Db, Reply) {
    if !Slug(slug) then (db, InvalidArgument)
    else
      match FindProject(db, slug, 1)
      case None => (db, NotFound)
      case Some(p) =>
        if !force && SitesOf(db, p) != {} then (db, FailedPrecondition)
        else (db.(projects := db.projects[p := db.projects[p].(deleted := true)]), OK)
  }

  function CreateSite(db: Db, project: string, site: string, display: string): (Db, Reply) {
    if !Slug(project) then (db, InvalidArgument)
    else
      match FindProject(db, project, 1)
      case None => (db, NotFound)
      case Some(p) =>
        if !Slug(site) || display == "" then (db, InvalidArgument)
        else if FindSite(db, p, site, 1).Some? then (db, AlreadyExists)
        else (db.(sites := db.sites[db.nextSite := Site(p, site, false)], nextSite := db.nextSite + 1), OK)
  }

  function DeleteSite(db: Db, project: string, site: string, force: bool): (Db, Reply) {
    if !Slug(project) || !Slug(site) then (db, InvalidArgument)
    else
      match FindProject(db, project, 1)
      case None => (db, NotFound)
      case Some(p) =>
        match FindSite(db, p, site, 1)
        case None => (db, NotFound)
        case Some(s) =>
          if !force && ServicesOf(db, s) != {} then (db, FailedPrecondition)
          else (db.(sites := db.sites[s := db.sites[s].(deleted := true)]), OK)
  }

  function CreateService(db: Db, project: string, site: string, service: string, body: ServiceBody): (Db, Reply) {
    if !Slug(project) || !Slug(site) then (db, InvalidArgument)
    else
      match FindProject(db, project, 1)
      case None => (db, NotFound)
      case Some(p) =>
        match FindSite(db, p, site, 1)
        case None => (db, NotFound)
        case Some(s) =>
          if !Slug(service) || body.addr == "" || body.port <= 0 || body.port > MAX_PORT then (db, InvalidArgument)
          else
            match AllocateRelayPort(db, p)
            case Err(e) => (db, e)
            case Ok(port) =>
              if FindService(db, s, service, 1).Some? then (db, AlreadyExists)
              else
                var proto := if body.proto.None? then "tcp" else body.proto.value;
                var row := Service(s, service, body.addr, body.port, proto, Some(port), false);
                (db.(services := db.services[db.nextService := row], nextService := db.nextService + 1), OK)
  }

  function ApplyServicePath(row: Service, path: string, body: ServiceBody): Result<Service, Reply> {
    if path == "display_name" then Ok(row)
    else if path == "target_addr" then
      if body.addr == "" then Err(InvalidArgument) else Ok(row.(addr := body.addr))
    else if path == "target_port" then
      if body.port <= 0 || body.port > MAX_PORT then Err(InvalidArgument) else Ok(row.(port := body.port))
    else if path == "proto" then
      if body.proto.None? then Err(InvalidArgument) else Ok(row.(proto := body.proto.value))
    else Err(InvalidArgument)
  }

  function ApplyServiceMask(row: Service, mask: seq<string>, body: ServiceBody): Result<Service, Reply>
    decreases |mask|
  {
    if mask == [] then Ok(row)
    else
      match ApplyServicePath(row, mask[0], body)
      case Err(e) => Err(e)
      case Ok(row') => ApplyServiceMask(row', mask[1..], body)
  }

  /** The service a request names, through its project and site. */
  function ResolveService(db: Db, project: string, site: string, service: string): (r: Result<Id, Reply>)
    ensures r.Ok? ==> LiveService(db.services, r.value)
  {
    if !Slug(project) || !Slug(site) || !Slug(service) then Err(InvalidArgument)
    else
      match FindProject(db, project, 1)
      case None => Err(NotFound)
      case Some(p) =>
        match FindSite(db, p, site, 1)
        case None => Err(NotFound)
        case Some(s) =>
          match FindService(db, s, service, 1)
          case None => Err(NotFound)
          case Some(v) => Ok(v)
  }

  function UpdateService(db: Db, project: string, site: string, service: string, mask: seq<string>, body: ServiceBody): (Db, Reply) {
    if mask == [] then (db, InvalidArgument)
    else
      match ResolveService(db, project, site, service)
      case Err(e) => (db, e)
      case Ok(v) =>
        match ApplyServiceMask(db.services[v], mask, body)
        case Err(e) => (db, e)
        case Ok(row) => (db.(services := db.services[v := row]), OK)
  }

  function DeleteService(db: Db, project: string, site: string, service: string): (Db, Reply) {
    match ResolveService(db, project, site, service)
    case Err(e) => (db, e)
    case Ok(v) =>
      (db.(services := db.services[v := db.services[v].(deleted := true)]), OK)
  }

  // ----- runs -----

  datatype Op =
    | OpCreateProject(slug: string, name: string, portRange: string, mode: string, backend: string)
    | OpUpdateProject(slug: string, mask: seq<string>, change: ProjectBody)
    | OpDeleteProject(slug: string, force: bool)
    | OpCreateSite(project: string, site: string, display: string)
    | OpDeleteSite(project: string, site: string, force: bool)
    | OpCreateService(project: string, site: string, service: string, body: ServiceBody)
    | OpUpdateService(project: string, site: string, service: string, mask: seq<string>, body: ServiceBody)
    | OpDeleteService(project: string, site: string, service: string)

  ghost function Do(db: Db, op: Op): (Db, Reply) {
    match op
    case OpCreateProject(slug, name, portRange, mode, backend) => CreateProject(db, slug, name, portRange, mode, backend)
    case OpUpdateProject(slug, mask, change) => UpdateProject(db, slug, mask, change)
    case OpDeleteProject(slug, force) => DeleteProject(db, slug, force)
    case OpCreateSite(project, site, display) => CreateSite(db, project, site, display)
    case OpDeleteSite(project, site, force) => DeleteSite(db, project, site, force)
    case OpCreateService(project, site, service, body) => CreateService(db, project, site, service, body)
    case OpUpdateService(project, site, service, mask, body) => UpdateService(db, project, site, service, mask, body)
    case OpDeleteService(project, site, service) => DeleteService(db, project, site, service)
  }

  ghost function DbAfter(db: Db, ops: seq<Op>): Db
    decreases |ops|
  {
    if ops == [] then db else DbAfter(Do(db, ops[0]).0, ops[1..])
  }

  /** Neither a forced delete nor a change of a port range. */
  predicate Gentle(op: Op) {
    match op
    case OpUpdateProject(_, mask, _) => "relay_port_range" !in mask
    case OpDeleteProject(_, force) => !force
    case OpDeleteSite(_, _, force) => !force
    case _ => true
  }
}
