/** What every stored row looks like, over every run whose requests name known protocols. */
module LedgerRows {
  import opened Wrappers
  import opened Names
  import opened PortRange
  import opened Ledger
  import opened LedgerInvariant

  predicate ServiceStored(s: Service) {
    && Slug(s.name) && s.addr != "" && 0 < s.port <= MAX_PORT && s.proto in {"tcp", "udp"}
    && s.relayPort.Some? && 0 < s.relayPort.value <= MAX_PORT
  }

  /** Names are slugs, ports fit in sixteen bits and protocols are known, in deleted rows as well. */
  ghost predicate Stored(db: Db) {
    && (forall p <- db.projects :: Slug(db.projects[p].slug))
    && (forall s <- db.sites :: Slug(db.sites[s].name))
    && (forall v <- db.services :: ServiceStored(db.services[v]))
  }

  predicate BodyOk(body: ServiceBody) {
    body.proto.Some? ==> body.proto.value in {"tcp", "udp"}
  }

  /** The API's protocol enum has these two values besides "unspecified". */
  predicate KnownProtocols(op: Op) {
    match op
    case OpCreateService(_, _, _, body) => BodyOk(body)
    case OpUpdateService(_, _, _, _, body) => BodyOk(body)
    case _ => true
  }

  lemma {:induction false} ServiceMaskStored(row: Service, mask: seq<string>, body: ServiceBody)
    requires ServiceStored(row) && BodyOk(body) && ApplyServiceMask(row, mask, body).Ok?
    ensures ServiceStored(ApplyServiceMask(row, mask, body).value)
    decreases |mask|
  {
    hide Slug;
    if mask != [] {
      ServiceMaskStored(ApplyServicePath(row, mask[0], body).value, mask[1..], body);
    }
  }

  lemma CreateServiceStored(db: Db, project: string, site: string, service: string, body: ServiceBody)
    requires Stored(db) && BodyOk(body)
    ensures Stored(CreateService(db, project, site, service, body).0)
  {
    var w := CreateService(db, project, site, service, body).0;
    if w != db {
      var p := FindProject(db, project, 1).value;
      AllocateIsLeastFree(db, p);
      ParsedRangeHasRoom(db.projects[p].portRange);
      assert w.services[db.nextService].relayPort == Some(AllocateRelayPort(db, p).value);
      hide AllocateRelayPort, FindProject, FindSite, FindService, ParsePortRange;
      assert ServiceStored(w.services[db.nextService]);
    }
  }

  lemma UpdateServiceStored(db: Db, project: string, site: string, service: string, mask: seq<string>, body: ServiceBody)
    requires Stored(db) && BodyOk(body)
    ensures Stored(UpdateService(db, project, site, service, mask, body).0)
  {
    hide ServiceStored, ResolveService, ApplyServiceMask;
    if UpdateService(db, project, site, service, mask, body).0 != db {
      ServiceMaskStored(db.services[ResolveService(db, project, site, service).value], mask, body);
    }
  }

  lemma UpdateProjectStored(db: Db, slug: string, mask: seq<string>, body: ProjectBody)
    requires Stored(db)
    ensures Stored(UpdateProject(db, slug, mask, body).0)
  {
    if UpdateProject(db, slug, mask, body).0 != db {
      var p := FindProject(db, slug, 1).value;
      MaskShape(db, p, db.projects[p], mask, body);
    }
  }

  lemma DoStored(db: Db, op: Op)
    requires Stored(db) && KnownProtocols(op)
    ensures Stored(Do(db, op).0)
  {
    match op
    case OpCreateService(project, site, service, body) => CreateServiceStored(db, project, site, service, body);
    case OpUpdateService(project, site, service, mask, body) => UpdateServiceStored(db, project, site, service, mask, body);
    case OpUpdateProject(slug, mask, change) => UpdateProjectStored(db, slug, mask, change);
    case OpDeleteService(project, site, service) =>
      hide ServiceStored, ResolveService;
      DeleteServiceStored(db, project, site, service);
    case _ =>
      hide ServiceStored, ValidateSlug, FindSite, FindProject;
  }

  lemma DeleteServiceStored(db: Db, project: string, site: string, service: string)
    requires Stored(db)
    ensures Stored(DeleteService(db, project, site, service).0)
  {
    hide ResolveService;
  }

  lemma {:induction false} StoredAlways(db: Db, ops: seq<Op>)
    requires Stored(db) && forall op <- ops :: KnownProtocols(op)
    ensures Stored(DbAfter(db, ops))
    decreases |ops|
  {
    hide Stored, Do, KnownProtocols;
    if ops != [] {
      DoStored(db, ops[0]);
      StoredAlways(Do(db, ops[0]).0, ops[1..]);
    }
  }
}
