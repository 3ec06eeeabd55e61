/**
 The handlers as the server runs them: tables that are fields, rows that are replaced in
 place, and loops over rows, ports and mask paths. Each is proved to compute the ledger step
 of the same name, and to leave its caller with what that step promises for later lookups.
 */
module LedgerHandlers {
  import opened Wrappers
  import opened Names
  import opened PortRange
  import opened Ledger
  import opened LedgerInvariant
  import opened LedgerEffects
  import opened LedgerReplies

  class Server {
    var projects: map<Id, Project>
    var sites: map<Id, Site>
    var services: map<Id, Service>
    var nextProject: Id
    var nextSite: Id
    var nextService: Id

    function Abs(): Db
      reads this
    {
      Db(projects, sites, services, nextProject, nextSite, nextService)
    }

    ghost predicate Valid()
      reads this
    {
      Sound(Abs())
    }

    constructor ()
      ensures Valid() && Abs() == EMPTY
    {
      projects, sites, services := map[], map[], map[];
      nextProject, nextSite, nextService := 1, 1, 1;
    }

    /** The scan of dao.OverlapsAny over the live rows: unreadable ranges are passed over. */
    method OverlapsAny(min: int, max: int, except: Id) returns (overlap: bool)
      requires Valid()
      ensures overlap == Ledger.OverlapsAny(Abs(), min, max, except)
    {
      var id := 1;
      while id < nextProject
        invariant id >= 1
        invariant forall q :: 1 <= q < id ==> !Meets(Abs(), q, min, max, except)
      {
        if id in projects && !projects[id].deleted && id != except {
          var range := ParsePortRange(projects[id].portRange);
          if range.Ok? && min <= range.value.1 && range.value.0 <= max {
            assert Meets(Abs(), id, min, max, except);
            return true;
          }
        }
        id := id + 1;
      }
      return false;
    }

    /** The ports the join of services and live sites finds for project p. */
    method UsedPorts(p: Id) returns (used: set<int>)
      requires Valid()
      ensures used == Ledger.UsedPorts(Abs(), p)
    {
      used := {};
      var v := 1;
      while v < nextService
        invariant 1 <= v
        invariant used == set w | w in services && w < v && Holds(sites, services, p, w) :: services[w].relayPort.value
      {
        if Holds(sites, services, p, v) {
          used := used + {services[v].relayPort.value};
        }
        v := v + 1;
      }
      assert forall w :: w in services ==> w < v;
    }

    /** Wide counters make the search end even when the range ends at 65535. */
    method AllocateRelayPort(p: Id) returns (r: Result<int, Reply>)
      requires Valid() && p in projects
      ensures r == Ledger.AllocateRelayPort(Abs(), p) && (r.Err? ==> r.error != OK)
    {
      var range := ParsePortRange(projects[p].portRange);
      if range.Err? {
        return Err(Internal);
      }
      var used := UsedPorts(p);
      var min, max := range.value.0, range.value.1;
      var port := min + 1;
      while port <= max
        invariant port <= max + 1
        invariant LowestFree(used, min + 1, max) == LowestFree(used, port, max)
      {
        if port !in used {
          return Ok(port);
        }
        port := port + 1;
      }
      return Err(ResourceExhausted);
    }

    method CreateProject(slug: string, name: string, portRange: string, mode: string, backend: string) returns (reply: Reply)
      requires Valid()
      modifies this
      ensures Valid()
      ensures (Abs(), reply) == Ledger.CreateProject(old(Abs()), slug, name, portRange, mode, backend)
      ensures reply == OK ==> ProjectsFind(old(Abs()), Abs(), slug, Some(old(nextProject)))
      ensures reply != OK ==> Abs() == old(Abs())
    {
      hide Sound, Slug, FindProject, ProjectsFind;
      ghost var was := Abs();
      CreateProjectKept(Abs(), slug, name, portRange, mode, backend);
      if !Slug(slug) || name == "" || portRange == "" {
        return InvalidArgument;
      }
      var range := ParsePortRange(portRange);
      if range.Err? {
        return InvalidArgument;
      }
      var overlap := OverlapsAny(range.value.0, range.value.1, 0);
      if overlap {
        return FailedPrecondition;
      }
      if FindProject(Abs(), slug, 1).Some? {
        return AlreadyExists;
      }
      projects := projects[nextProject := Project(slug, name, portRange, mode, backend, true, false)];
      nextProject := nextProject + 1;
      CreatedProjectFound(was, slug, name, portRange, mode, backend);
      return OK;
    }

    method UpdateProject(slug: string, mask: seq<string>, body: ProjectBody) returns (reply: Reply)
      requires Valid()
      modifies this
      ensures Valid()
      ensures (Abs(), reply) == Ledger.UpdateProject(old(Abs()), slug, mask, body)
      ensures reply != OK ==> Abs() == old(Abs())
      ensures var p := ProjectNamed(old(Abs()), slug);
        reply == OK ==> p.Some? && p.value in old(projects) && p.value in projects
                        && Abs() == old(Abs()).(projects := old(projects)[p.value := projects[p.value]])
                        && FieldsTaken(old(projects)[p.value], projects[p.value], mask, body)
    {
      hide Sound, Slug, FindProject, FieldsTaken, ParsePortRange, AllFine, RefusedAs;
      UpdateProjectKept(Abs(), slug, mask, body);
      if mask == [] || !Slug(slug) {
        return InvalidArgument;
      }
      var found := FindProject(Abs(), slug, 1);
      if found.None? {
        return NotFound;
      }
      var p := found.value;
      MaskExact(Abs(), p, projects[p], mask, body);
      var cur := projects[p];
      var i := 0;
      while i < |mask|
        invariant 0 <= i <= |mask| && Abs() == old(Abs())
        invariant Ledger.ApplyMask(Abs(), p, projects[p], mask, body) == Ledger.ApplyMask(Abs(), p, cur, mask[i..], body)
      {
        assert mask[i..][1..] == mask[i + 1..];
        var path := mask[i];
        if path == "display_name" {
          if body.name == "" {
            return InvalidArgument;
          }
          cur := cur.(name := body.name);
        } else if path == "relay_port_range" {
          if body.portRange == "" {
            return InvalidArgument;
          }
          var range := ParsePortRange(body.portRange);
          if range.Err? {
            return InvalidArgument;
          }
          var overlap := OverlapsAny(range.value.0, range.value.1, p);
          if overlap {
            return FailedPrecondition;
          }
          cur := cur.(portRange := body.portRange);
        } else if path == "default_mode" {
          if body.mode.None? {
            return InvalidArgument;
          }
          cur := cur.(mode := body.mode.value);
        } else if path == "backend" {
          if body.backend.None? {
            return InvalidArgument;
          }
          cur := cur.(backend := body.backend.value);
        } else if path == "status" {
          if body.active.None? {
            return InvalidArgument;
          }
          cur := cur.(active := body.active.value);
        } else {
          return InvalidArgument;
        }
        i := i + 1;
      }
      projects := projects[p := cur];
      return OK;
    }

    method DeleteProject(slug: string, force: bool) returns (reply: Reply)
      requires Valid()
      modifies this
      ensures Valid()
      ensures (Abs(), reply) == Ledger.DeleteProject(old(Abs()), slug, force)
      ensures reply == OK ==> ProjectsFind(old(Abs()), Abs(), slug, None)
      ensures reply != OK ==> Abs() == old(Abs())
    {
      hide Sound, Slug, FindProject, ProjectsFind;
      ghost var was := Abs();
      DeleteProjectKept(Abs(), slug, force);
      if !Slug(slug) {
        return InvalidArgument;
      }
      var found := FindProject(Abs(), slug, 1);
      if found.None? {
        return NotFound;
      }
      var p := found.value;
      if !force && |SitesOf(Abs(), p)| > 0 {
        return FailedPrecondition;
      }
      projects := projects[p := projects[p].(deleted := true)];
      DeletedProjectGone(was, slug, force);
      return OK;
    }

    method CreateSite(project: string, site: string, display: string) returns (reply: Reply)
      requires Valid()
      modifies this
      ensures Valid()
      ensures (Abs(), reply) == Ledger.CreateSite(old(Abs()), project, site, display)
      ensures reply == OK ==> SitesFind(old(Abs()), Abs(), project, site, Some(old(nextSite)))
      ensures reply != OK ==> Abs() == old(Abs())
    {
      hide Sound, Slug, FindProject, FindSite, SitesFind;
      ghost var was := Abs();
      CreateSiteKept(Abs(), project, site, display);
      if !Slug(project) {
        return InvalidArgument;
      }
      var found := FindProject(Abs(), project, 1);
      if found.None? {
        return NotFound;
      }
      if !Slug(site) || display == "" {
        return InvalidArgument;
      }
      if FindSite(Abs(), found.value, site, 1).Some? {
        return AlreadyExists;
      }
      sites := sites[nextSite := Site(found.value, site, false)];
      nextSite := nextSite + 1;
      CreatedSiteFound(was, project, site, display);
      return OK;
    }

    method DeleteSite(project: string, site: string, force: bool) returns (reply: Reply)
      requires Valid()
      modifies this
      ensures Valid()
      ensures (Abs(), reply) == Ledger.DeleteSite(old(Abs()), project, site, force)
      ensures reply == OK ==> SitesFind(old(Abs()), Abs(), project, site, None)
      ensures reply != OK ==> Abs() == old(Abs())
    {
      hide Sound, Slug, FindProject, FindSite, SitesFind;
      ghost var was := Abs();
      DeleteSiteKept(Abs(), project, site, force);
      if !Slug(project) || !Slug(site) {
        return InvalidArgument;
      }
      var found := FindProject(Abs(), project, 1);
      if found.None? {
        return NotFound;
      }
      var row := FindSite(Abs(), found.value, site, 1);
      if row.None? {
        return NotFound;
      }
      var s := row.value;
      if !force && |ServicesOf(Abs(), s)| > 0 {
        return FailedPrecondition;
      }
      sites := sites[s := sites[s].(deleted := true)];
      DeletedSiteGone(was, project, site, force);
      return OK;
    }

    method CreateService(project: string, site: string, service: string, body: ServiceBody) returns (reply: Reply)
      requires Valid()
      modifies this
      ensures Valid()
      ensures (Abs(), reply) == Ledger.CreateService(old(Abs()), project, site, service, body)
      ensures reply == OK ==> PortGiven(old(Abs()), Abs(), project) && ServicesFind(old(Abs()), Abs(), project, site, service, Some(old(nextService)))
      ensures reply != OK ==> Abs() == old(Abs())
    {
      hide Sound, Slug, FindProject, FindSite, FindService, Ledger.AllocateRelayPort, PortGiven, ServicesFind;
      ghost var was := Abs();
      CreateServiceKept(Abs(), project, site, service, body);
      if !Slug(project) || !Slug(site) {
        return InvalidArgument;
      }
      var found := FindProject(Abs(), project, 1);
      if found.None? {
        return NotFound;
      }
      var row := FindSite(Abs(), found.value, site, 1);
      if row.None? {
        return NotFound;
      }
      if !Slug(service) || body.addr == "" || body.port <= 0 || body.port > MAX_PORT {
        return InvalidArgument;
      }
      var port := AllocateRelayPort(found.value);
      if port.Err? {
        return port.error;
      }
      var proto := if body.proto.None? then "tcp" else body.proto.value;
      if FindService(Abs(), row.value, service, 1).Some? {
        return AlreadyExists;
      }
      services := services[nextService := Service(row.value, service, body.addr, body.port, proto, Some(port.value), false)];
      nextService := nextService + 1;
      CreatedServiceFound(was, project, site, service, body);
      return OK;
    }

    method UpdateService(project: string, site: string, service: string, mask: seq<string>, body: ServiceBody) returns (reply: Reply)
      requires Valid()
      modifies this
      ensures Valid()
      ensures (Abs(), reply) == Ledger.UpdateService(old(Abs()), project, site, service, mask, body)
      ensures reply != OK ==> Abs() == old(Abs())
      ensures var v := ResolveService(old(Abs()), project, site, service);
        reply == OK ==> v.Ok? && v.value in old(services) && v.value in services
                        && Abs() == old(Abs()).(services := old(services)[v.value := services[v.value]])
                        && ServiceFieldsTaken(old(services)[v.value], services[v.value], mask, body)
    {
      UpdateServiceKept(Abs(), project, site, service, mask, body);
      if mask == [] {
        return InvalidArgument;
      }
      var found := ResolveService(Abs(), project, site, service);
      if found.Err? {
        return found.error;
      }
      var v := found.value;
      ServiceMaskExact(services[v], mask, body);
      var changed := ApplyMask(services[v], mask, body);
      if changed.Err? {
        return changed.error;
      }
      services := services[v := changed.value];
      return OK;
    }

    /** The loop over the paths of a service mask, on the row as read. */
    method ApplyMask(row: Service, mask: seq<string>, body: ServiceBody) returns (r: Result<Service, Reply>)
      ensures r == ApplyServiceMask(row, mask, body)
    {
      var cur := row;
      var i := 0;
      while i < |mask|
        invariant 0 <= i <= |mask|
        invariant ApplyServiceMask(row, mask, body) == ApplyServiceMask(cur, mask[i..], body)
      {
        assert mask[i..][1..] == mask[i + 1..];
        var path := mask[i];
        if path == "display_name" {
        } else if path == "target_addr" {
          if body.addr == "" {
            return Err(InvalidArgument);
          }
          cur := cur.(addr := body.addr);
        } else if path == "target_port" {
          if body.port <= 0 || body.port > MAX_PORT {
            return Err(InvalidArgument);
          }
          cur := cur.(port := body.port);
        } else if path == "proto" {
          if body.proto.None? {
            return Err(InvalidArgument);
          }
          cur := cur.(proto := body.proto.value);
        } else {
          return Err(InvalidArgument);
        }
        i := i + 1;
      }
      return Ok(cur);
    }

    method DeleteService(project: string, site: string, service: string) returns (reply: Reply)
      requires Valid()
      modifies this
      ensures Valid()
      ensures (Abs(), reply) == Ledger.DeleteService(old(Abs()), project, site, service)
      ensures reply == OK ==> ServicesFind(old(Abs()), Abs(), project, site, service, None)
      ensures var v := ResolveService(old(Abs()), project, site, service);
        reply == OK ==>
          v.Ok? && var port := PortOf(old(services), v.value); port.Some? ==> PortBack(old(Abs()), Abs(), project, port.value)
      ensures reply != OK ==> Abs() == old(Abs())
    {
      ghost var was := Abs();
      DeleteServiceKept(Abs(), project, site, service);
      var found := ResolveService(Abs(), project, site, service);
      if found.Err? {
        return found.error;
      }
      services := services[found.value := services[found.value].(deleted := true)];
      DeletedServiceGone(was, project, site, service);
      return OK;
    }
  }
}
