/**
 The auth proxy's routing decision: which loopback address a bearer token and a CONNECT target
 lead to. Sockets are left out; the token tables and the ledger are read, never written.
 */
module Router {
  import opened Wrappers
  import opened Text
  import opened PortRange
  import opened Ledger
  import opened LedgerInvariant
  import opened LedgerLimits
  import T = Tokens

  // ----- net.SplitHostPort -----

  function LastIndex(s: string, c: char): (r: int)
    ensures -1 <= r < |s| && (r >= 0 ==> s[r] == c) && forall k :: r < k < |s| ==> s[k] != c
  {
    if s == "" then -1 else if s[|s| - 1] == c then |s| - 1 else LastIndex(s[..|s| - 1], c)
  }

  function FirstIndex(s: string, c: char): (r: int)
    ensures -1 <= r < |s| && (r >= 0 ==> s[r] == c) && forall k :: 0 <= k < (if r < 0 then |s| else r) ==> s[k] != c
  {
    if s == "" then -1
    else if s[0] == c then 0
    else
      var k := FirstIndex(s[1..], c);
      if k < 0 then -1 else k + 1
  }

  predicate Has(s: string, c: char) {
    c in s
  }

  /** Host and port of "host:port" or "[host]:port"; None for each of the malformed forms. */
  function SplitHostPort(s: string): Option<(string, string)> {
    var i := LastIndex(s, ':');
    if i < 0 then None
    else if s[0] == '[' then
      var end := FirstIndex(s, ']');
      if end < 0 || end + 1 != i then None
      else if Has(s[1..], '[') || Has(s[end + 1..], ']') then None
      else Some((s[1..end], s[i + 1..]))
    else if Has(s[..i], ':') || Has(s, '[') || Has(s, ']') then None
    else Some((s[..i], s[i + 1..]))
  }

  const LOOPBACK: string := "127.0.0.1"

  function TargetPort(target: string): Option<nat> {
    match SplitHostPort(target)
    case None => None
    case Some(hp) => if hp.0 != LOOPBACK then None else ParseUint(hp.1, MAX_PORT)
  }

  /** A loopback target, plain or in brackets, with a decimal port, leading zeros allowed. */
  predicate Loopback(target: string, digits: string) {
    target == "127.0.0.1:" + digits || target == "[127.0.0.1]:" + digits
  }

  ghost predicate Names(target: string, port: nat) {
    port <= 65535 && exists digits :: Loopback(target, digits) && Reads(digits, port)
  }

  lemma PlainSplits(digits: string)
    requires Digits(digits)
    ensures SplitHostPort("127.0.0.1:" + digits) == Some((LOOPBACK, digits))
  {
    var s := "127.0.0.1:" + digits;
    assert s[9] == ':' && LastIndex(s, ':') == 9;
    assert s[..9] == LOOPBACK && s[10..] == digits;
  }

  lemma BracketSplits(digits: string)
    requires Digits(digits)
    ensures SplitHostPort("[127.0.0.1]:" + digits) == Some((LOOPBACK, digits))
  {
    var s := "[127.0.0.1]:" + digits;
    assert s[11] == ':' && LastIndex(s, ':') == 11;
    assert s[10] == ']' && FirstIndex(s, ']') == 10;
    assert s[1..10] == LOOPBACK && s[12..] == digits;
  }

  lemma SplitRebuilds(s: string)
    requires SplitHostPort(s).Some?
    ensures var hp := SplitHostPort(s).value; s == hp.0 + ":" + hp.1 || s == "[" + hp.0 + "]:" + hp.1
  {
    var i := LastIndex(s, ':');
    if s[0] == '[' {
      var end := FirstIndex(s, ']');
      assert s == [s[0]] + s[1..end] + [s[end]] + [s[i]] + s[i + 1..];
    } else {
      assert s == s[..i] + [s[i]] + s[i + 1..];
    }
  }

  /** A target passes the parser exactly when it is the loopback address with a 16-bit decimal port. */
  lemma TargetExact(target: string, port: nat)
    ensures TargetPort(target) == Some(port) <==> Names(target, port)
  {
    hide ParseUint, Reads;
    if Names(target, port) {
      var digits :| Loopback(target, digits) && Reads(digits, port);
      NumberIsDigits(digits, port);
      ParseUintExact(digits, MAX_PORT, port);
      PlainSplits(digits);
      BracketSplits(digits);
    }
    if TargetPort(target) == Some(port) {
      SplitRebuilds(target);
      LoopbackText();
      var digits := SplitHostPort(target).value.1;
      ParseUintExact(digits, MAX_PORT, port);
      assert Loopback(target, digits);
    }
  }

  lemma NumberIsDigits(digits: string, port: nat)
    requires Reads(digits, port)
    ensures Digits(digits)
  {
    var z: nat :| digits == Zeros(z) + Dec(port);
  }

  lemma LoopbackText()
    ensures LOOPBACK + ":" == "127.0.0.1:" && "[" + LOOPBACK + "]:" == "[127.0.0.1]:"
  {
  }

  // ----- the lookups -----

  datatype Session = Session(operator: Id, hash: string, expires: int, revoked: bool, deleted: bool)

  datatype Operator = Operator(admin: bool, deleted: bool)

  datatype Grant = Grant(operator: Id, project: Id, deleted: bool)

  /** Everything the router reads. */
  datatype World = World(db: Db, tokens: T.Table, sessions: map<Id, Session>, nextSession: Id,
                         operators: map<Id, Operator>, grants: map<Id, Grant>)

  datatype RouteError = Unauthenticated | InternalError

  predicate SessionGood(w: World, k: Id, hash: string, now: int) {
    && k in w.sessions && !w.sessions[k].deleted && !w.sessions[k].revoked
    && w.sessions[k].hash == hash && w.sessions[k].expires > now
    && w.sessions[k].operator in w.operators && !w.operators[w.sessions[k].operator].deleted
  }

  function FirstSession(w: World, hash: string, now: int, i: Id): (r: Option<Id>)
    ensures r.Some? ==> SessionGood(w, r.value, hash, now)
    decreases w.nextSession - i
  {
    if i >= w.nextSession then None
    else if SessionGood(w, i, hash, now) then Some(i)
    else FirstSession(w, hash, now, i + 1)
  }

  predicate OnPort(db: Db, v: Id, port: int) {
    LiveService(db.services, v) && db.services[v].relayPort == Some(port)
  }

  /** First live service on the port, searching ids upward from i. */
  function FirstOnPort(db: Db, port: int, i: Id): (r: Option<Id>)
    ensures r.Some? ==> i <= r.value && OnPort(db, r.value, port)
    ensures r.Some? ==> forall v :: i <= v < r.value ==> !OnPort(db, v, port)
    decreases db.nextService - i
  {
    if i >= db.nextService then None
    else if OnPort(db, i, port) then Some(i)
    else FirstOnPort(db, port, i + 1)
  }

  predicate Granted(w: World, operator: Id, project: Id) {
    exists g <- w.grants :: !w.grants[g].deleted && w.grants[g].operator == operator && w.grants[g].project == project
  }

  function RouteSiteAgent(db: Db, s: Id): Result<string, RouteError> {
    if !LiveSite(db.sites, s) || !LiveProject(db.projects, db.sites[s].project) then Err(Unauthenticated)
    else
      var p := db.projects[db.sites[s].project];
      if !p.active then Err(Unauthenticated)
      else
        match ParsePortRange(p.portRange)
        case Err(_) => Err(InternalError)
        case Ok(range) => Ok(LOOPBACK + ":" + Dec(range.0))
  }

  function RouteOperator(w: World, operator: Id, admin: bool, target: string): Result<string, RouteError> {
    match TargetPort(target)
    case None => Err(Unauthenticated)
    case Some(port) =>
      match FirstOnPort(w.db, port, 1)
      case None => Err(Unauthenticated)
      case Some(v) =>
        var s := w.db.services[v].site;
        if !LiveSite(w.db.sites, s) || !LiveProject(w.db.projects, w.db.sites[s].project) then Err(Unauthenticated)
        else if !w.db.projects[w.db.sites[s].project].active then Err(Unauthenticated)
        else if !admin && !Granted(w, operator, w.db.sites[s].project) then Err(Unauthenticated)
        else Ok(target)
  }

  /** Agents first, then operators. */
  function Route(hash: string -> string, w: World, raw: string, target: string, now: int): Result<string, RouteError> {
    if raw == "" then Err(Unauthenticated)
    else
      match T.Validate(w.tokens, hash(raw), now)
      case Some(s) => RouteSiteAgent(w.db, s)
      case None =>
        match FirstSession(w, hash(raw), now, 1)
        case None => Err(Unauthenticated)
        case Some(k) =>
          RouteOperator(w, w.sessions[k].operator, w.operators[w.sessions[k].operator].admin, target)
  }

  // ----- operators -----

  /** v is a live service on the port, in a live active project the operator may use. */
  predicate MayUse(w: World, operator: Id, admin: bool, v: Id, port: int) {
    && OnPort(w.db, v, port)
    && LiveSite(w.db.sites, w.db.services[v].site)
    && var p := w.db.sites[w.db.services[v].site].project;
       LiveProject(w.db.projects, p) && w.db.projects[p].active && (admin || Granted(w, operator, p))
  }

  lemma {:induction false} FirstOnPortFinds(db: Db, port: int, i: Id, v: Id)
    requires RowsOk(db) && OnPort(db, v, port) && i <= v
    ensures FirstOnPort(db, port, i).Some? && FirstOnPort(db, port, i).value <= v
    decreases db.nextService - i
  {
    if i != v && !OnPort(db, i, port) {
      FirstOnPortFinds(db, port, i + 1, v);
    }
  }

  /**
   On every sound ledger, forced deletes and range changes included: an operator is let through
   exactly when the target is well formed and the lowest-numbered live service on its port is
   one the operator may use.
   */
  lemma OperatorRouteLowest(w: World, operator: Id, admin: bool, target: string)
    requires RowsOk(w.db)
    ensures RouteOperator(w, operator, admin, target) == Ok(target) <==>
      exists port: nat, v :: Names(target, port) && MayUse(w, operator, admin, v, port) && forall u :: u < v ==> !OnPort(w.db, u, port)
    ensures RouteOperator(w, operator, admin, target) in {Ok(target), Err(Unauthenticated)}
  {
    var r := RouteOperator(w, operator, admin, target);
    hide Names;
    if r == Ok(target) {
      var port := TargetPort(target).value;
      TargetExact(target, port);
      var v := FirstOnPort(w.db, port, 1).value;
      assert MayUse(w, operator, admin, v, port);
      assert forall u :: u < v ==> !OnPort(w.db, u, port);
    }
    if port: nat, v :| Names(target, port) && MayUse(w, operator, admin, v, port) && forall u :: u < v ==> !OnPort(w.db, u, port) {
      TargetExact(target, port);
      FirstOnPortFinds(w.db, port, 1, v);
    }
  }

  /**
   While no delete was forced and no range changed, routing is exact: an operator reaches a
   port exactly when some live service there is in a project the operator may use, and that
   service is the only one on the port.
   */
  lemma OperatorRouteExact(w: World, operator: Id, admin: bool, target: string)
    requires Sound(w.db) && Anchored(w.db)
    ensures RouteOperator(w, operator, admin, target) ==
      if exists port: nat, v :: Names(target, port) && MayUse(w, operator, admin, v, port) then Ok(target) else Err(Unauthenticated)
    ensures forall port, u, v :: OnPort(w.db, u, port) && OnPort(w.db, v, port) ==> u == v
  {
    forall port, u, v | OnPort(w.db, u, port) && OnPort(w.db, v, port) ensures u == v {
      assert InRange(w.db, u);
      PortsGloballyDistinct(w.db, u, v, w.db.sites[w.db.services[u].site].project);
    }
    OperatorRouteLowest(w, operator, admin, target);
    hide RouteOperator, Names, MayUse, Anchored;
    if port: nat, v :| Names(target, port) && MayUse(w, operator, admin, v, port) {
      MayUseOnPort(w, operator, admin, v, port);
    }
  }

  lemma MayUseOnPort(w: World, operator: Id, admin: bool, v: Id, port: int)
    requires MayUse(w, operator, admin, v, port)
    ensures OnPort(w.db, v, port)
  {
  }

  /** After a forced site delete, the stale live service of the dead site hides the port's new owner. */
  lemma ForcedDeleteHidesService(w: World)
    requires w.db == DbAfter(EMPTY, STEM + FORCED)
    ensures MayUse(w, 1, true, 2, 11) && RouteOperator(w, 1, true, "127.0.0.1:11") == Err(Unauthenticated)
  {
    ForcedDeleteSharesPort();
    PortEleven();
    hide TargetPort, DbAfter;
    assert OnPort(w.db, 1, 11) && FirstOnPort(w.db, 11, 1) == Some(1);
  }

  lemma PortEleven()
    ensures TargetPort("127.0.0.1:11") == Some(11)
  {
    PlainSplits("11");
    assert "127.0.0.1:" + "11" == "127.0.0.1:11";
    assert Dec(11) == "11";
    hide SplitHostPort, Dec, ParseUint;
    ParseFormat(11, MAX_PORT);
  }

  // ----- agents -----

  lemma AgentRouteIs(db: Db, s: Id)
    requires Sound(db)
    ensures RouteSiteAgent(db, s) ==
      if Serving(db, s) then Ok(LOOPBACK + ":" + Dec(RangeOf(db.projects, db.sites[s].project).0)) else Err(Unauthenticated)
  {
    if LiveSite(db.sites, s) {
      assert LiveProject(db.projects, db.sites[s].project) ==> Readable(db.projects, db.sites[s].project);
    }
  }

  /** A live site of a live, active project, whose range can be read. */
  predicate Serving(db: Db, s: Id) {
    && LiveSite(db.sites, s) && Readable(db.projects, db.sites[s].project)
    && LiveProject(db.projects, db.sites[s].project) && db.projects[db.sites[s].project].active
  }

  /**
   An agent is routed exactly while its site and project serve. The address it is given passes the
   parser that operators' targets go through and names the least port of its project's range; on a
   sound ledger the one other answer is a rejection, never an internal error.
   */
  lemma AgentRouteExact(db: Db, s: Id, port: nat)
    requires Sound(db)
    ensures var r := RouteSiteAgent(db, s);
      && (r.Ok? <==> Serving(db, s)) && (r.Err? ==> r == Err(Unauthenticated))
      && (r.Ok? ==> (Names(r.value, port) <==> RangeOf(db.projects, db.sites[s].project).0 == port))
  {
    AgentRouteIs(db, s);
    if Serving(db, s) {
      var min := RangeOf(db.projects, db.sites[s].project).0;
      ParsedRangeHasRoom(db.projects[db.sites[s].project].portRange);
      LoopbackText();
      PlainSplits(Dec(min));
      ParseFormat(min, MAX_PORT);
      hide Sound, SplitHostPort, Dec, ParseUint;
      TargetExact(LOOPBACK + ":" + Dec(min), port);
    }
  }

  /** Two agents reach one address exactly when they belong to one project. */
  lemma AgentsKeptApart(db: Db, s: Id, t: Id)
    requires Sound(db) && RouteSiteAgent(db, s).Ok? && RouteSiteAgent(db, t).Ok?
    ensures RouteSiteAgent(db, s) == RouteSiteAgent(db, t) <==> db.sites[s].project == db.sites[t].project
  {
    AgentRouteIs(db, s);
    AgentRouteIs(db, t);
    var p, q := db.sites[s].project, db.sites[t].project;
    var a, b := RangeOf(db.projects, p).0, RangeOf(db.projects, q).0;
    if RouteSiteAgent(db, s) == RouteSiteAgent(db, t) {
      assert (LOOPBACK + ":" + Dec(a))[10..] == Dec(a);
      assert (LOOPBACK + ":" + Dec(b))[10..] == Dec(b);
      DecInjective(a, b);
      ParsedRangeHasRoom(db.projects[p].portRange);
      ParsedRangeHasRoom(db.projects[q].portRange);
      hide Dec;
      assert p == q || !Overlap(RangeOf(db.projects, p).0, RangeOf(db.projects, p).1,
                                RangeOf(db.projects, q).0, RangeOf(db.projects, q).1);
    }
  }

  /** The control port an agent reaches lies in no other live project's range, and no live service holds it. */
  lemma AgentPortIsPrivate(db: Db, s: Id, q: Id, v: Id)
    requires Sound(db) && RouteSiteAgent(db, s).Ok?
    ensures LiveProject(db.projects, q) && q != db.sites[s].project ==>
      var min := RangeOf(db.projects, db.sites[s].project).0; !(RangeOf(db.projects, q).0 <= min <= RangeOf(db.projects, q).1)
    ensures Anchored(db) ==> !OnPort(db, v, RangeOf(db.projects, db.sites[s].project).0)
  {
    var p := db.sites[s].project;
    ParsedRangeHasRoom(db.projects[p].portRange);
    if LiveProject(db.projects, q) && q != p {
      assert !Overlap(RangeOf(db.projects, p).0, RangeOf(db.projects, p).1, RangeOf(db.projects, q).0, RangeOf(db.projects, q).1);
    }
    if Anchored(db) && LiveService(db.services, v) {
      PortsGloballyDistinct(db, v, v, p);
    }
  }

  // ----- the whole decision, read off the rows -----

  /** Session row k lets in whoever bears its token at time now. */
  predicate Admits(w: World, k: Id, hash: string, now: int) {
    && k in w.sessions && w.sessions[k].hash == hash
    && !w.sessions[k].deleted && !w.sessions[k].revoked && now < w.sessions[k].expires
    && w.sessions[k].operator in w.operators && !w.operators[w.sessions[k].operator].deleted
  }

  predicate Kept(w: World, k: Id, hash: string) {
    k in w.sessions && !w.sessions[k].deleted && w.sessions[k].hash == hash
  }

  /** Session ids count up, and no two rows that are not deleted share a hash. */
  ghost predicate SessionsOk(w: World) {
    && (forall k <- w.sessions :: 1 <= k < w.nextSession)
    && (forall j, k, hash :: Kept(w, j, hash) && Kept(w, k, hash) ==> j == k)
  }

  /**
   Service v holds the port and is live on a live site of a live, active project; and operator o, by
   their own row, is an admin or has a live grant for it.
   */
  predicate OwnService(w: World, o: Id, v: Id, port: int) {
    && o in w.operators
    && v in w.db.services && !w.db.services[v].deleted && w.db.services[v].relayPort == Some(port)
    && w.db.services[v].site in w.db.sites && !w.db.sites[w.db.services[v].site].deleted
    && var p := w.db.sites[w.db.services[v].site].project;
       && p in w.db.projects && !w.db.projects[p].deleted && w.db.projects[p].active
       && (w.operators[o].admin
           || exists g <- w.grants :: !w.grants[g].deleted && w.grants[g].operator == o && w.grants[g].project == p)
  }

  lemma {:induction false} FirstSessionFinds(w: World, hash: string, now: int, i: Id, k: Id)
    requires Admits(w, k, hash, now) && i <= k < w.nextSession
    ensures FirstSession(w, hash, now, i).Some?
    decreases w.nextSession - i
  {
    if i != k {
      FirstSessionFinds(w, hash, now, i + 1, k);
    }
  }

  lemma SessionFound(w: World, hash: string, now: int)
    requires SessionsOk(w)
    ensures forall k :: FirstSession(w, hash, now, 1) == Some(k) <==> Admits(w, k, hash, now)
  {
    forall k | Admits(w, k, hash, now) ensures FirstSession(w, hash, now, 1) == Some(k) {
      FirstSessionFinds(w, hash, now, 1, k);
      assert Kept(w, k, hash) && Kept(w, FirstSession(w, hash, now, 1).value, hash);
    }
  }

  lemma OwnIsMayUse(w: World, o: Id, v: Id, port: int)
    requires o in w.operators
    ensures OwnService(w, o, v, port) <==> MayUse(w, o, w.operators[o].admin, v, port)
  {
  }

  /** Some session admits its operator, and the target names a port whose service that operator may use. */
  ghost predicate LetThrough(w: World, hash: string, target: string, now: int) {
    exists k, port: nat, v :: Admits(w, k, hash, now) && Names(target, port) && OwnService(w, w.sessions[k].operator, v, port)
  }

  /**
   While no delete was forced and no range changed: a bearer of no site's current token is let through
   to the target exactly when a session admits them and that session's operator, by their own row, may
   use the service on the target's port; everybody else is rejected alike.
   */
  lemma SessionRouteExact(hash: string -> string, w: World, raw: string, target: string, now: int)
    requires Sound(w.db) && Anchored(w.db) && T.IdsOk(w.tokens) && SessionsOk(w)
    requires forall k :: !T.Usable(w.tokens, k, hash(raw), now)
    ensures Route(hash, w, raw, target, now) ==
      if raw != "" && LetThrough(w, hash(raw), target, now) then Ok(target) else Err(Unauthenticated)
  {
    T.ValidateExact(w.tokens, hash(raw), now);
    SessionFound(w, hash(raw), now);
    var found := FirstSession(w, hash(raw), now, 1);
    hide Sound, Anchored, SessionsOk, RouteOperator, Names, OwnService, MayUse, FirstSession, T.Validate, T.IdsOk;
    if found.Some? {
      var o := w.sessions[found.value].operator;
      assert Admits(w, found.value, hash(raw), now);
      OperatorRouteExact(w, o, w.operators[o].admin, target);
      forall v, port ensures OwnService(w, o, v, port) <==> MayUse(w, o, w.operators[o].admin, v, port) {
        OwnIsMayUse(w, o, v, port);
      }
    }
  }

  /** Agents come first: the bearer of a site's current token is routed as its agent, sessions and target aside. */
  lemma AgentComesFirst(hash: string -> string, w: World, raw: string, target: string, now: int, k: Id)
    requires T.IdsOk(w.tokens) && raw != ""
    requires T.Usable(w.tokens, k, hash(raw), now) && forall j :: j < k ==> !T.Usable(w.tokens, j, hash(raw), now)
    ensures Route(hash, w, raw, target, now) == RouteSiteAgent(w.db, w.tokens.rows[k].site)
  {
    T.ValidateExact(w.tokens, hash(raw), now);
    hide T.Validate, T.IdsOk, RouteSiteAgent;
  }

  /**
   The token last issued to a site leads its agent to the site's project, whatever the target, until
   its time to live, if it has one, has passed. A token that has been replaced or has expired is no
   agent's any more: without a session of the same hash its bearer is rejected.
   */
  lemma RouteByIssue(hash: string -> string, w: World, rs: seq<T.Request>, i: nat, target: string, now: int)
    requires w.tokens == T.TableAfter(hash, rs) && T.NoCollision(hash, rs) && i < |rs| && rs[i].raw != ""
    ensures var good := T.Latest(rs, i) && (rs[i].ttl <= 0 || now < rs[i].at + rs[i].ttl);
      && (good ==> Route(hash, w, rs[i].raw, target, now) == RouteSiteAgent(w.db, rs[i].site))
      && (!good && (forall k :: !Admits(w, k, hash(rs[i].raw), now)) ==>
          Route(hash, w, rs[i].raw, target, now) == Err(Unauthenticated))
  {
    T.LatestTokenOnly(hash, rs, i, now);
    var k := FirstSession(w, hash(rs[i].raw), now, 1);
    assert k.Some? ==> Admits(w, k.value, hash(rs[i].raw), now);
  }
}
