/**
 From one database state, the two ends of a tunnel agree: on keys, on tokens, on ports, and no
 two tunnels of the server meet on one port.
 */
module RenderAgreement {
  import opened Wrappers
  import opened Text
  import opened Names
  import opened PortRange
  import opened Sorting
  import opened Ledger
  import opened LedgerInvariant
  import opened LedgerRows
  import opened Render
  import P = Paging
  import T = Tokens
  import CV = ConfigVersion

  // ----- keys -----

  /** A key starts with "site__" for one slug only: its site's. */
  lemma KeyPrefix(a: string, site: string, service: string)
    requires Slug(a) && Slug(site)
    ensures a + "__" <= Key(site, service) <==> a == site
  {
    SlugFree(a, '_');
    SlugFree(site, '_');
    hide Slug;
    var key := Key(site, service);
    if a + "__" <= key {
      assert key[|a|] == (a + "__")[|a|] == '_';
      assert key[|site|] == '_';
      assert |a| == |site|;
      assert a == key[..|a|] == site;
    }
  }

  lemma KeyInjective(site: string, service: string, site': string, service': string)
    requires Slug(site) && Slug(site') && Key(site, service) == Key(site', service')
    ensures site == site' && service == service'
  {
    assert site + "__" <= Key(site, service);
    KeyPrefix(site, site', service');
    assert service == Key(site, service)[|site| + 2..];
    assert service' == Key(site', service')[|site'| + 2..];
  }

  // ----- what the bindings are -----

  predicate Comes(db: Db, site: string, token: string, v: Id, b: Binding) {
    v in db.services && db.services[v].relayPort.Some?
    && b == Binding(site, db.services[v].name, db.services[v].relayPort.value, token)
  }

  /** b is the binding of v, a live service with a port on the live site s of project p. */
  predicate Bound(db: Db, t: T.Table, p: Id, s: Id, v: Id, b: Binding) {
    s in SitesOf(db, p) && v in ServicesOf(db, s) && Comes(db, db.sites[s].name, TokenOf(t, s), v, b)
  }

  lemma {:induction false} ServiceBindingsMembers(db: Db, site: string, token: string, ids: seq<Id>, b: Binding)
    requires forall k :: 0 <= k < |ids| ==> ids[k] in db.services
    ensures b in ServiceBindings(db, site, token, ids) <==> exists v :: v in ids && Comes(db, site, token, v, b)
  {
    if ids != [] {
      ServiceBindingsMembers(db, site, token, ids[1..], b);
      assert forall v :: v in ids <==> v == ids[0] || v in ids[1..];
      assert Comes(db, site, token, ids[0], b) || !Comes(db, site, token, ids[0], b);
    }
  }

  lemma {:induction false} AllBindingsMembers(db: Db, t: T.Table, ids: seq<Id>, b: Binding)
    requires forall k :: 0 <= k < |ids| ==> ids[k] in db.sites
    ensures b in AllBindings(db, t, ids) <==> exists s :: s in ids && s in db.sites && b in SiteBindings(db, t, s)
  {
    hide SiteBindings;
    if ids != [] {
      AllBindingsMembers(db, t, ids[1..], b);
      assert forall s :: s in ids <==> s == ids[0] || s in ids[1..];
    }
  }

  lemma BindingComes(db: Db, t: T.Table, p: Id, b: Binding) returns (s: Id, v: Id)
    requires b in Bindings(db, t, p)
    ensures Bound(db, t, p, s, v, b)
  {
    SiteIdsThere(db, p);
    AllBindingsMembers(db, t, SiteIds(db, p), b);
    s :| s in SiteIds(db, p) && s in db.sites && b in SiteBindings(db, t, s);
    ServiceIdsThere(db, s);
    ServiceBindingsMembers(db, db.sites[s].name, TokenOf(t, s), ServiceIds(db, s), b);
    v :| v in ServiceIds(db, s) && Comes(db, db.sites[s].name, TokenOf(t, s), v, b);
  }

  /** No table is larger than a fetch. */
  predicate WithinCaps(db: Db, p: Id) {
    && |SitesOf(db, p)| <= CAP && (forall s <- SitesOf(db, p) :: |ServicesOf(db, s)| <= CAP)
    && db.nextSite <= MAX_UINT64 + 1 && db.nextService <= MAX_UINT64 + 1
  }

  lemma ServiceListed(db: Db, s: Id, v: Id)
    requires RowsOk(db) && v in ServicesOf(db, s) && |ServicesOf(db, s)| <= CAP && db.nextService <= MAX_UINT64 + 1
    ensures v in ServiceIds(db, s)
  {
    P.CappedFetchExact(P.View(ServicesOf(db, s), db.nextService), CAP);
  }

  lemma SiteListed(db: Db, p: Id, s: Id)
    requires RowsOk(db) && s in SitesOf(db, p) && |SitesOf(db, p)| <= CAP && db.nextSite <= MAX_UINT64 + 1
    ensures s in SiteIds(db, p)
  {
    P.CappedFetchExact(P.View(SitesOf(db, p), db.nextSite), CAP);
  }

  lemma BindingListed(db: Db, t: T.Table, p: Id, s: Id, v: Id, b: Binding)
    requires RowsOk(db) && WithinCaps(db, p) && Bound(db, t, p, s, v, b)
    ensures b in Bindings(db, t, p)
  {
    SiteListed(db, p, s);
    ServiceListed(db, s, v);
    ServiceIdsThere(db, s);
    ServiceBindingsMembers(db, db.sites[s].name, TokenOf(t, s), ServiceIds(db, s), b);
    SiteIdsThere(db, p);
    AllBindingsMembers(db, t, SiteIds(db, p), b);
  }

  /** The bindings are those of the live services with a port on the live sites, no more and, within the caps, no fewer. */
  lemma BindingsExact(db: Db, t: T.Table, p: Id, b: Binding)
    requires RowsOk(db)
    ensures b in Bindings(db, t, p) ==> exists s, v :: Bound(db, t, p, s, v, b)
    ensures WithinCaps(db, p) && (exists s, v :: Bound(db, t, p, s, v, b)) ==> b in Bindings(db, t, p)
  {
    hide Bindings, Bound, WithinCaps;
    if b in Bindings(db, t, p) {
      var s, v := BindingComes(db, t, p, b);
    }
    if WithinCaps(db, p) {
      if s, v :| Bound(db, t, p, s, v, b) {
        BindingListed(db, t, p, s, v, b);
      }
    }
  }

  // ----- no name twice -----

  ghost predicate NoRepeat<T(!new)>(s: seq<T>) {
    forall x :: multiset(s)[x] <= 1
  }

  lemma NoRepeatAt<T(!new)>(s: seq<T>, i: nat, j: nat)
    requires NoRepeat(s) && i < j < |s|
    ensures s[i] != s[j]
  {
    assert s == s[..j] + s[j..];
    assert s[i] in multiset(s[..j]) by {
      assert s[..j][i] == s[i];
    }
    assert s[j] in multiset(s[j..]) by {
      assert s[j..][0] == s[j];
    }
    assert multiset(s)[s[i]] == multiset(s[..j])[s[i]] + multiset(s[j..])[s[i]];
  }

  lemma NoRepeatConcat<T(!new)>(a: seq<T>, b: seq<T>)
    requires NoRepeat(a) && NoRepeat(b) && forall x :: x in a ==> x !in b
    ensures NoRepeat(a + b)
  {
    forall x ensures multiset(a + b)[x] <= 1 {
      assert multiset(a + b)[x] == multiset(a)[x] + multiset(b)[x];
      if x in a {
        assert x !in multiset(b);
      } else {
        assert x !in multiset(a);
      }
    }
  }

  lemma OneService(db: Db, s: Id, v: Id, w: Id)
    requires ServicesUnique(db.services) && v in ServicesOf(db, s) && w in ServicesOf(db, s)
    requires db.services[v].name == db.services[w].name
    ensures v == w
  {
    assert LiveService(db.services, v) && LiveService(db.services, w);
    assert ServiceKey(db.services, v) == ServiceKey(db.services, w);
  }

  lemma OneSite(db: Db, p: Id, s: Id, r: Id)
    requires SitesUnique(db.sites) && s in SitesOf(db, p) && r in SitesOf(db, p) && db.sites[s].name == db.sites[r].name
    ensures s == r
  {
    assert LiveSite(db.sites, s) && LiveSite(db.sites, r);
    assert SiteKey(db.sites, s) == SiteKey(db.sites, r);
  }

  lemma {:induction false} ServiceBindingsOnce(db: Db, s: Id, token: string, ids: seq<Id>)
    requires s in db.sites && ServicesUnique(db.services) && P.Increasing(ids, 0)
    requires forall k :: 0 <= k < |ids| ==> ids[k] in db.services && ids[k] in ServicesOf(db, s)
    ensures NoRepeat(ServiceBindings(db, db.sites[s].name, token, ids))
  {
    if ids != [] {
      var site := db.sites[s].name;
      var rest := ServiceBindings(db, site, token, ids[1..]);
      ServiceBindingsOnce(db, s, token, ids[1..]);
      if db.services[ids[0]].relayPort.Some? {
        var b := Binding(site, db.services[ids[0]].name, db.services[ids[0]].relayPort.value, token);
        ServiceBindingsMembers(db, site, token, ids[1..], b);
        if b in rest {
          var v :| v in ids[1..] && Comes(db, site, token, v, b);
          OneService(db, s, v, ids[0]);
        }
        hide NoRepeat;
        OneOnce(b);
        NoRepeatConcat([b], rest);
      } else {
        assert [] + rest == rest;
      }
    }
  }

  lemma OneOnce<T(!new)>(x: T)
    ensures NoRepeat([x])
  {
  }

  lemma SiteBindingName(db: Db, t: T.Table, s: Id, b: Binding)
    requires s in db.sites && b in SiteBindings(db, t, s)
    ensures b.site == db.sites[s].name
  {
    ServiceIdsThere(db, s);
    ServiceBindingsMembers(db, db.sites[s].name, TokenOf(t, s), ServiceIds(db, s), b);
  }

  lemma {:induction false} AllBindingsOnce(db: Db, t: T.Table, p: Id, ids: seq<Id>)
    requires SitesUnique(db.sites) && ServicesUnique(db.services) && P.Increasing(ids, 0)
    requires forall k :: 0 <= k < |ids| ==> ids[k] in db.sites && ids[k] in SitesOf(db, p)
    ensures NoRepeat(AllBindings(db, t, ids))
  {
    if ids != [] {
      AllBindingsOnce(db, t, p, ids[1..]);
      ServiceIdsThere(db, ids[0]);
      P.SelectSorted(P.View(ServicesOf(db, ids[0]), db.nextService), 0, CAP);
      ServiceBindingsOnce(db, ids[0], TokenOf(t, ids[0]), ServiceIds(db, ids[0]));
      var first, rest := SiteBindings(db, t, ids[0]), AllBindings(db, t, ids[1..]);
      hide NoRepeat, SiteBindings, ServiceBindings;
      forall b | b in first ensures b !in rest {
        if b in rest {
          OtherSite(db, t, p, ids, b);
        }
      }
      NoRepeatConcat(first, rest);
    }
  }

  lemma OtherSite(db: Db, t: T.Table, p: Id, ids: seq<Id>, b: Binding)
    requires SitesUnique(db.sites) && P.Increasing(ids, 0) && ids != []
    requires forall k :: 0 <= k < |ids| ==> ids[k] in db.sites && ids[k] in SitesOf(db, p)
    requires b in AllBindings(db, t, ids[1..])
    ensures b !in SiteBindings(db, t, ids[0])
  {
    AllBindingsMembers(db, t, ids[1..], b);
    var s :| s in ids[1..] && s in db.sites && b in SiteBindings(db, t, s);
    SiteBindingName(db, t, s, b);
    hide SiteBindings;
    if b in SiteBindings(db, t, ids[0]) {
      SiteBindingName(db, t, ids[0], b);
      OneSite(db, p, s, ids[0]);
    }
  }

  /** Bindings that share site and service names are one binding, and it occurs once. */
  lemma BindingsOnce(db: Db, t: T.Table, p: Id)
    requires Sound(db)
    ensures NoRepeat(Bindings(db, t, p))
    ensures forall a, b :: a in Bindings(db, t, p) && b in Bindings(db, t, p) && a.site == b.site && a.service == b.service ==> a == b
  {
    SiteIdsThere(db, p);
    P.SelectSorted(P.View(SitesOf(db, p), db.nextSite), 0, CAP);
    AllBindingsOnce(db, t, p, SiteIds(db, p));
    hide NoRepeat, AllBindings, SiteIds;
    forall a, b | a in Bindings(db, t, p) && b in Bindings(db, t, p) && a.site == b.site && a.service == b.service ensures a == b {
      SameNames(db, t, p, a, b);
    }
  }

  lemma SameNames(db: Db, t: T.Table, p: Id, a: Binding, b: Binding)
    requires Sound(db) && a in Bindings(db, t, p) && b in Bindings(db, t, p) && a.site == b.site && a.service == b.service
    ensures a == b
  {
    var s, v := BindingComes(db, t, p, a);
    var r, w := BindingComes(db, t, p, b);
    hide Bindings;
    OneSite(db, p, s, r);
    OneService(db, s, v, w);
  }

  // ----- the server's config -----

  lemma ByNameIsOrder()
    ensures WeakOrder(ByName)
  {
    forall x: Binding, y: Binding | ByName(x, y) ensures !ByName(y, x) {
      LessTrichotomy(x.site, y.site);
      LessTrichotomy(x.service, y.service);
    }
    forall x: Binding, y: Binding, z: Binding | !ByName(x, y) && !ByName(y, z) ensures !ByName(x, z) {
      ByNameTransitive(x, y, z);
    }
  }

  lemma ByNameTransitive(x: Binding, y: Binding, z: Binding)
    requires !ByName(x, y) && !ByName(y, z)
    ensures !ByName(x, z)
  {
    LessTrichotomy(x.site, y.site);
    LessTrichotomy(y.site, z.site);
    LessTrichotomy(x.site, z.site);
    LessTrichotomy(x.service, y.service);
    LessTrichotomy(y.service, z.service);
    LessTrichotomy(x.service, z.service);
    if ByName(x, z) {
      if x.site != z.site {
        if Less(y.site, x.site) {
          LessTransitive(y.site, x.site, z.site);
        }
      } else {
        if Less(y.service, x.service) {
          LessTransitive(y.service, x.service, z.service);
        }
      }
    }
  }

  /** Names tell the elements apart. */
  ghost predicate NamesDiffer(bs: seq<Binding>) {
    forall a, b :: a in bs && b in bs && a.site == b.site && a.service == b.service ==> a == b
  }

  /** The server's config does not depend on the order in which the bindings come. */
  lemma ServerForgetsOrder(portRange: string, a: seq<Binding>, b: seq<Binding>)
    requires multiset(a) == multiset(b) && NamesDiffer(a)
    ensures RenderServer(portRange, a) == RenderServer(portRange, b)
  {
    ByNameIsOrder();
    forall x, y | x in a && y in a && x != y ensures ByName(x, y) || ByName(y, x) {
      LessTrichotomy(x.site, y.site);
      LessTrichotomy(x.service, y.service);
    }
    SortForgetsOrder(ByName, a, b);
  }

  /** Blocks come by site and, within a site, by service. */
  predicate InOrder(a: Binding, b: Binding) {
    Less(a.site, b.site) || (a.site == b.site && (a.service == b.service || Less(a.service, b.service)))
  }

  /** The blocks of a config are those of its bindings, each as often as it comes, in the order of their names. */
  lemma ServerOrder(portRange: string, bs: seq<Binding>)
    requires RenderServer(portRange, bs).Ok?
    ensures exists s :: multiset(s) == multiset(bs) && (forall i, j :: 0 <= i < j < |s| ==> InOrder(s[i], s[j]))
                        && IsText(RenderServer(portRange, bs).value.services, s)
  {
    var s := Sort(ByName, bs);
    ByNameIsOrder();
    SortSorts(ByName, bs);
    SortPermutes(ByName, bs);
    forall i, j | 0 <= i < j < |s| ensures InOrder(s[i], s[j]) {
      LessTrichotomy(s[i].site, s[j].site);
      LessTrichotomy(s[i].service, s[j].service);
      assert !ByName(s[j], s[i]);
    }
    assert IsText(RenderServer(portRange, bs).value.services, s);
  }

  predicate IsText(ks: seq<Block>, bs: seq<Binding>) {
    |ks| == |bs|
    && forall i :: 0 <= i < |bs| ==> ks[i] == Block(bs[i].site + "__" + bs[i].service, bs[i].token, bs[i].relayPort)
  }

  lemma SortMembers<T>(lt: (T, T) -> bool, s: seq<T>, x: T)
    ensures x in Sort(lt, s) <==> x in s
  {
    SortPermutes(lt, s);
    assert x in s <==> x in multiset(s);
    assert x in Sort(lt, s) <==> x in multiset(Sort(lt, s));
  }

  lemma BlockIn(bs: seq<Binding>, k: Block)
    ensures k in BlocksOf(Sort(ByName, bs)) <==> exists b :: b in bs && BlockOf(b) == k
  {
    var s := Sort(ByName, bs);
    hide Sort;
    if k in BlocksOf(s) {
      var i :| 0 <= i < |s| && BlocksOf(s)[i] == k;
      SortMembers(ByName, bs, s[i]);
    }
    if b :| b in bs && BlockOf(b) == k {
      SortMembers(ByName, bs, b);
      var i :| 0 <= i < |s| && s[i] == b;
      assert BlocksOf(s)[i] == k;
    }
  }

  lemma BindingIsSlugs(db: Db, t: T.Table, p: Id, b: Binding)
    requires Stored(db) && b in Bindings(db, t, p)
    ensures Slug(b.site) && Slug(b.service)
  {
    var s, v := BindingComes(db, t, p, b);
    hide Bindings, Slug;
    assert ServiceStored(db.services[v]);
  }

  /** Two bindings of one project on one port are one binding. */
  lemma SamePort(db: Db, t: T.Table, p: Id, a: Binding, b: Binding)
    requires Sound(db) && a in Bindings(db, t, p) && b in Bindings(db, t, p) && a.relayPort == b.relayPort
    ensures a == b
  {
    var s, v := BindingComes(db, t, p, a);
    var r, w := BindingComes(db, t, p, b);
    hide Bindings, TokenOf;
    assert Holds(db.sites, db.services, p, v) && Holds(db.sites, db.services, p, w);
    assert PortOf(db.services, v) == PortOf(db.services, w);
  }

  /** The config that the relay writes for project p. */
  function ServerOf(db: Db, t: T.Table, p: Id): Result<ServerConfig, RenderError>
    requires p in db.projects
  {
    RenderServer(db.projects[p].portRange, Bindings(db, t, p))
  }

  function Rendered(db: Db, t: T.Table, p: Id): seq<Block> {
    BlocksOf(Sort(ByName, Bindings(db, t, p)))
  }

  /** In the server's config no key occurs twice and no port is bound twice. */
  lemma ServerBlocksApart(db: Db, t: T.Table, p: Id, i: nat, j: nat)
    requires Sound(db) && Stored(db) && i < j < |Rendered(db, t, p)|
    ensures Rendered(db, t, p)[i].key != Rendered(db, t, p)[j].key
    ensures Rendered(db, t, p)[i].bind != Rendered(db, t, p)[j].bind
  {
    var bs := Bindings(db, t, p);
    var s := Sort(ByName, bs);
    BindingsOnce(db, t, p);
    SortPermutes(ByName, bs);
    assert NoRepeat(s);
    NoRepeatAt(s, i, j);
    SortMembers(ByName, bs, s[i]);
    SortMembers(ByName, bs, s[j]);
    hide Sort, NoRepeat, Bindings, Sound, Stored, Slug;
    BindingIsSlugs(db, t, p, s[i]);
    BindingIsSlugs(db, t, p, s[j]);
    if Key(s[i].site, s[i].service) == Key(s[j].site, s[j].service) {
      KeyInjective(s[i].site, s[i].service, s[j].site, s[j].service);
    }
    if s[i].relayPort == s[j].relayPort {
      SamePort(db, t, p, s[i], s[j]);
    }
  }

  lemma BlockComes(db: Db, t: T.Table, p: Id, k: Block) returns (s: Id, v: Id, b: Binding)
    requires k in Rendered(db, t, p)
    ensures Bound(db, t, p, s, v, b) && k == BlockOf(b)
  {
    BlockIn(Bindings(db, t, p), k);
    b :| b in Bindings(db, t, p) && BlockOf(b) == k;
    s, v := BindingComes(db, t, p, b);
  }

  /**
   While no delete was forced and no range changed: no service of any project is bound to the
   control port of any live project, and no two projects bind one port.
   */
  lemma BindsGloballyApart(db: Db, t: T.Table, p: Id, q: Id, a: Block, b: Block)
    requires Sound(db) && Anchored(db) && a in Rendered(db, t, p)
    ensures LiveProject(db.projects, q) ==> a.bind != RangeOf(db.projects, q).0
    ensures p != q && b in Rendered(db, t, q) ==> a.bind != b.bind
  {
    var s, v, x := BlockComes(db, t, p, a);
    hide Rendered;
    assert InRange(db, v);
    if LiveProject(db.projects, q) {
      PortsGloballyDistinct(db, v, v, q);
    }
    if p != q && b in Rendered(db, t, q) {
      var r, w, y := BlockComes(db, t, q, b);
      PortsGloballyDistinct(db, v, w, p);
    }
  }

  // ----- the client's config -----

  lemma {:induction false} RowsOfMembers(svcs: seq<Service>, r: CV.Row)
    ensures r in CV.RowsOf(svcs) <==> exists k :: 0 <= k < |svcs| && svcs[k].relayPort.Some? && CV.RowOf(svcs[k]) == r
  {
    if svcs != [] {
      RowsOfMembers(svcs[1..], r);
      assert forall k :: 0 < k < |svcs| ==> svcs[k] == svcs[1..][k - 1];
      if r in CV.RowsOf(svcs[1..]) {
        var k :| 0 <= k < |svcs[1..]| && svcs[1..][k].relayPort.Some? && CV.RowOf(svcs[1..][k]) == r;
        assert svcs[k + 1] == svcs[1..][k];
      }
    }
  }

  /** r is the tunnel of v, a live service of site s. */
  predicate Tunnels(db: Db, s: Id, v: Id, r: CV.Row) {
    v in ServicesOf(db, s) && db.services[v].relayPort.Some?
    && var x := db.services[v]; r == CV.Row(x.name, x.relayPort.value, x.addr, x.port, x.proto)
  }

  /** The tunnels a site is told of are its live services with a port, no more and, within the cap, no fewer. */
  lemma TunnelsExact(db: Db, s: Id, r: CV.Row)
    requires RowsOk(db)
    ensures r in SiteTunnels(db, s) ==> exists v :: Tunnels(db, s, v, r)
    ensures |ServicesOf(db, s)| <= CAP && db.nextService <= MAX_UINT64 + 1 && (exists v :: Tunnels(db, s, v, r)) ==> r in SiteTunnels(db, s)
  {
    var ids := ServiceIds(db, s);
    ServiceIdsThere(db, s);
    RowsOfMembers(SiteServices(db, s), r);
    if r in SiteTunnels(db, s) {
      var k :| 0 <= k < |ids| && db.services[ids[k]].relayPort.Some? && CV.RowOf(db.services[ids[k]]) == r;
      var x := db.services[ids[k]];
      assert SiteServices(db, s)[k] == x && CV.RowOf(x) == CV.Row(x.name, x.relayPort.value, x.addr, x.port, x.proto);
      assert Tunnels(db, s, ids[k], r);
    }
    hide ServiceIds;
    if |ServicesOf(db, s)| <= CAP && db.nextService <= MAX_UINT64 + 1 {
      if v :| Tunnels(db, s, v, r) {
        ServiceListed(db, s, v);
        var k :| 0 <= k < |ids| && ids[k] == v;
        assert SiteServices(db, s)[k] == db.services[v];
      }
    }
  }

  lemma TunnelsOk(db: Db, s: Id)
    requires Stored(db)
    ensures CV.AllOk(SiteTunnels(db, s))
    ensures forall x <- SiteServices(db, s) :: CV.ServiceOk(x)
  {
    ServiceIdsThere(db, s);
    hide Slug;
    forall k | 0 <= k < |SiteServices(db, s)| ensures CV.ServiceOk(SiteServices(db, s)[k]) {
      var v := ServiceIds(db, s)[k];
      assert v in ServicesOf(db, s);
      assert ServiceStored(db.services[v]);
    }
    CV.RowsOk(SiteServices(db, s));
  }

  function ClientRendered(db: Db, s: Id): seq<ClientBlock>
    requires s in db.sites && CV.AllOk(SiteTunnels(db, s))
  {
    CV.SortedOk(SiteTunnels(db, s));
    ClientBlocksOf(db.sites[s].name, Sort(CV.BySlug, SiteTunnels(db, s)))
  }

  lemma ClientBlockIn(site: string, rows: seq<CV.Row>, c: ClientBlock)
    requires CV.AllOk(rows) && CV.AllOk(Sort(CV.BySlug, rows))
    ensures c in ClientBlocksOf(site, Sort(CV.BySlug, rows)) <==> exists r :: r in rows && CV.RowOk(r) && ClientBlockOf(site, r) == c
  {
    var s := Sort(CV.BySlug, rows);
    hide Sort, CV.RowOk;
    if c in ClientBlocksOf(site, s) {
      var i :| 0 <= i < |s| && ClientBlocksOf(site, s)[i] == c;
      SortMembers(CV.BySlug, rows, s[i]);
    }
    if r :| r in rows && CV.RowOk(r) && ClientBlockOf(site, r) == c {
      SortMembers(CV.BySlug, rows, r);
      var i :| 0 <= i < |s| && s[i] == r;
      assert ClientBlocksOf(site, s)[i] == c;
    }
  }

  /** The client's config does not depend on the order of the tunnels. */
  lemma ClientForgetsOrder(hash: string -> string, a: Boot, b: Boot, raw: string, remote: string)
    requires CV.AllOk(a.tunnels) && CV.AllOk(b.tunnels) && CV.SlugsDistinct(a.tunnels)
    requires a.site == b.site && multiset(a.tunnels) == multiset(b.tunnels)
    ensures RenderClient(hash, a, raw, remote) == RenderClient(hash, b, raw, remote)
  {
    CV.BySlugIsOrder();
    CV.DistinctSeparate(a.tunnels);
    SortForgetsOrder(CV.BySlug, a.tunnels, b.tunnels);
  }

  /** The client's blocks are those of the tunnels, in the order of their slugs. */
  lemma ClientOrder(hash: string -> string, boot: Boot, raw: string, remote: string)
    requires CV.AllOk(boot.tunnels) && RenderClient(hash, boot, raw, remote).Ok?
    ensures exists s :: multiset(s) == multiset(boot.tunnels) && CV.Ascending(s)
                        && AreTunnels(RenderClient(hash, boot, raw, remote).value.services, boot.site, s)
  {
    var s := Sort(CV.BySlug, boot.tunnels);
    CV.BySlugIsOrder();
    SortSorts(CV.BySlug, boot.tunnels);
    SortPermutes(CV.BySlug, boot.tunnels);
    CV.SortedOk(boot.tunnels);
    hide CV.RowOk, Sort, Dec;
    forall i, j | 0 <= i < j < |s| ensures s[i].slug == s[j].slug || Less(s[i].slug, s[j].slug) {
      LessTrichotomy(s[i].slug, s[j].slug);
      assert !CV.BySlug(s[j], s[i]);
    }
    TunnelBlocks(boot.site, s);
    assert CV.Ascending(s);
  }

  lemma TunnelBlocks(site: string, s: seq<CV.Row>)
    requires CV.AllOk(s)
    ensures AreTunnels(ClientBlocksOf(site, s), site, s)
  {
    assert forall i :: 0 <= i < |s| ==> CV.RowOk(s[i]);
    hide CV.RowOk, Dec;
  }

  predicate AreTunnels(ks: seq<ClientBlock>, site: string, s: seq<CV.Row>) {
    |ks| == |s|
    && forall i :: 0 <= i < |s| ==>
         s[i].port >= 0 && ks[i] == ClientBlock(site + "__" + s[i].slug, s[i].addr + ":" + Dec(s[i].port))
  }

  /** One fetch lists a site's services and a project's sites: all of them, or the first thousand. */
  lemma FetchExact(db: Db, p: Id, s: Id)
    requires RowsOk(db) && db.nextSite <= MAX_UINT64 + 1 && db.nextService <= MAX_UINT64 + 1
    ensures |SiteServices(db, s)| == P.Min(1000, |ServicesOf(db, s)|)
    ensures |SiteIds(db, p)| == P.Min(1000, |SitesOf(db, p)|)
  {
    var services := P.View(ServicesOf(db, s), db.nextService);
    var sites := P.View(SitesOf(db, p), db.nextSite);
    P.SelectCount(services, 0, CAP);
    P.SelectCount(sites, 0, CAP);
    assert P.After(services, 0) == services.visible && P.After(sites, 0) == sites.visible;
  }

  // ----- the two ends -----

  /** A server block and a client block are the two ends of service v of site s. */
  predicate EndsOf(db: Db, t: T.Table, s: Id, v: Id, b: Block, c: ClientBlock) {
    && s in db.sites && v in ServicesOf(db, s) && db.services[v].relayPort.Some? && db.services[v].port >= 0
    && var x := db.services[v];
       && b == Block(Key(db.sites[s].name, x.name), TokenOf(t, s), x.relayPort.value)
       && c == ClientBlock(Key(db.sites[s].name, x.name), x.addr + ":" + Dec(x.port))
  }

  /** Every client block has a server block with its key, for the same service, and its token is the site's. */
  lemma ClientBlockServed(db: Db, t: T.Table, p: Id, s: Id, c: ClientBlock) returns (v: Id, b: Block)
    requires Sound(db) && Stored(db) && WithinCaps(db, p) && s in SitesOf(db, p) && CV.AllOk(SiteTunnels(db, s))
    requires c in ClientRendered(db, s)
    ensures b in Rendered(db, t, p) && EndsOf(db, t, s, v, b, c)
  {
    var site := db.sites[s].name;
    var rows := SiteTunnels(db, s);
    CV.SortedOk(rows);
    ClientBlockIn(site, rows, c);
    var r :| r in rows && CV.RowOk(r) && ClientBlockOf(site, r) == c;
    TunnelsExact(db, s, r);
    v :| Tunnels(db, s, v, r);
    var bound := Binding(site, db.services[v].name, db.services[v].relayPort.value, TokenOf(t, s));
    BindingListed(db, t, p, s, v, bound);
    b := BlockOf(bound);
    BlockIn(Bindings(db, t, p), b);
  }

  /** Every server block whose key starts with the site's slug is served by a client block of that site. */
  lemma ServerBlockHasClient(db: Db, t: T.Table, p: Id, s: Id, b: Block) returns (v: Id, c: ClientBlock)
    requires Sound(db) && Stored(db) && WithinCaps(db, p) && s in SitesOf(db, p) && CV.AllOk(SiteTunnels(db, s))
    requires b in Rendered(db, t, p) && db.sites[s].name + "__" <= b.key
    ensures c in ClientRendered(db, s) && EndsOf(db, t, s, v, b, c)
  {
    var site := db.sites[s].name;
    var r, x, bound := BlockComes(db, t, p, b);
    hide Rendered;
    v := x;
    assert Slug(site) && Slug(bound.site) by {
      assert Slug(db.sites[r].name);
    }
    KeyPrefix(site, bound.site, bound.service);
    OneSite(db, p, s, r);
    var row := CV.RowOf(db.services[v]);
    var rows := SiteTunnels(db, s);
    assert Tunnels(db, s, v, row);
    TunnelsExact(db, s, row);
    assert CV.RowOk(row);
    c := ClientBlockOf(site, row);
    CV.SortedOk(rows);
    ClientBlockIn(site, rows, c);
  }

  /** The keys of a site's client config are exactly the server's keys that start with its slug. */
  lemma KeysAgree(db: Db, t: T.Table, p: Id, s: Id, key: string)
    requires Sound(db) && Stored(db) && WithinCaps(db, p) && s in SitesOf(db, p) && CV.AllOk(SiteTunnels(db, s))
    ensures (exists c :: c in ClientRendered(db, s) && c.key == key) <==>
      (exists b :: b in Rendered(db, t, p) && b.key == key && db.sites[s].name + "__" <= key)
  {
    hide ClientRendered, Rendered, Sound, Stored, WithinCaps;
    if c :| c in ClientRendered(db, s) && c.key == key {
      var v, b := ClientBlockServed(db, t, p, s, c);
      assert db.sites[s].name + "__" <= Key(db.sites[s].name, db.services[v].name);
    }
    if b :| b in Rendered(db, t, p) && b.key == key && db.sites[s].name + "__" <= key {
      var v, c := ServerBlockHasClient(db, t, p, s, b);
    }
  }

  // ----- tokens -----

  lemma {:induction false} FirstTokenFinds(t: T.Table, s: Id, i: Id, k: Id)
    requires T.LiveFor(t, k, s) && i <= k < t.next
    ensures FirstToken(t, s, i).Some?
    decreases t.next - i
  {
    if i != k {
      FirstTokenFinds(t, s, i + 1, k);
    }
  }

  lemma TokenIsCredential(t: T.Table, creds: map<Id, T.Cred>, s: Id)
    requires T.Represents(t, creds)
    ensures TokenOf(t, s) == if s in creds then creds[s].hash else ""
  {
    if s in creds {
      var k :| T.LiveFor(t, k, s);
      FirstTokenFinds(t, s, 1, k);
    }
  }

  /**
   An agent's token matches the token of its server blocks exactly when the agent holds the
   raw token last issued to its site; it need not be unexpired.
   */
  lemma TokensAgree(hash: string -> string, rs: seq<T.Request>, t: T.Table, i: nat)
    requires t == T.TableAfter(hash, rs) && T.NoCollision(hash, rs) && i < |rs|
    ensures TokenOf(t, rs[i].site) == hash(rs[i].raw) <==> T.Latest(rs, i)
  {
    T.TableRefines(hash, rs);
    TokenIsCredential(t, T.CredsAfter(hash, rs), rs[i].site);
    var last := LastFor(rs, i);
    T.LatestHolds(hash, rs, last);
    hide T.TableAfter, T.CredsAfter, TokenOf;
    assert T.Latest(rs, i) ==> last == i;
  }

  /** The latest request for the site of request i. */
  lemma {:induction false} LastFor(rs: seq<T.Request>, i: nat) returns (j: nat)
    requires i < |rs|
    ensures i <= j < |rs| && T.Latest(rs, j) && rs[j].site == rs[i].site
    decreases |rs| - i
  {
    if T.Latest(rs, i) {
      j := i;
    } else {
      var k :| i < k < |rs| && rs[k].site == rs[i].site;
      j := LastFor(rs, k);
    }
  }
}
