/**
 Site agent tokens: a table of rows with a soft-delete flag, in which issuing a token retires
 the one the site had. The hash is any function; two raw tokens with one hash are the
 collisions the results exclude by name.
 */
module Tokens {
  import opened Wrappers

  type Id = int

  datatype Token = Token(site: Id, hash: string, expires: Option<int>, lastUsed: Option<int>, deleted: bool)

  datatype Table = Table(rows: map<Id, Token>, next: Id)

  const NO_TOKENS: Table := Table(map[], 1)

  predicate Live(t: Table, k: Id) {
    k in t.rows && !t.rows[k].deleted
  }

  predicate Current(expires: Option<int>, now: int) {
    expires.None? || expires.value > now
  }

  function Expiry(ttl: int, now: int): Option<int> {
    if ttl > 0 then Some(now + ttl) else None
  }

  /** Soft-delete the live tokens of a site. */
  function Retire(rows: map<Id, Token>, site: Id): map<Id, Token> {
    map k | k in rows :: if rows[k].site == site then rows[k].(deleted := true) else rows[k]
  }

  /** The unique index on live hashes, which may not be broken. */
  ghost predicate HashTaken(rows: map<Id, Token>, hash: string) {
    exists k :: Live(Table(rows, 0), k) && rows[k].hash == hash
  }

  /** One transaction: retire and insert, or nothing. */
  ghost function Issued(t: Table, site: Id, hash: string, ttl: int, now: int): Result<Table, ()> {
    var rows := Retire(t.rows, site);
    if HashTaken(rows, hash) then Err(())
    else Ok(Table(rows[t.next := Token(site, hash, Expiry(ttl, now), None, false)], t.next + 1))
  }

  predicate Accepts(t: Table, k: Id, hash: string, now: int) {
    Live(t, k) && t.rows[k].hash == hash && Current(t.rows[k].expires, now)
  }

  /** First accepting row, searching ids upward from i. */
  function FirstRow(t: Table, hash: string, now: int, i: Id): (r: Option<Id>)
    ensures r.Some? ==> i <= r.value && Accepts(t, r.value, hash, now)
    decreases t.next - i
  {
    if i >= t.next then None
    else if Accepts(t, i, hash, now) then Some(i)
    else FirstRow(t, hash, now, i + 1)
  }

  function Validate(t: Table, hash: string, now: int): Option<Id> {
    match FirstRow(t, hash, now, 1)
    case None => None
    case Some(k) => Some(t.rows[k].site)
  }

  // ----- the simple form: one credential a site -----

  datatype Cred = Cred(hash: string, expires: Option<int>)

  predicate LiveFor(t: Table, k: Id, site: Id) {
    Live(t, k) && t.rows[k].site == site
  }

  predicate IdsOk(t: Table) {
    t.next >= 1 && forall k <- t.rows :: 1 <= k < t.next
  }

  /** The live rows are the credentials, one a site. */
  ghost predicate Represents(t: Table, creds: map<Id, Cred>) {
    && IdsOk(t)
    && (forall k, s :: LiveFor(t, k, s) ==> s in creds && creds[s] == Cred(t.rows[k].hash, t.rows[k].expires))
    && (forall s :: s in creds ==> exists k :: LiveFor(t, k, s))
    && (forall r, s :: r in creds && s in creds && creds[r].hash == creds[s].hash ==> r == s)
  }

  predicate HeldElsewhere(creds: map<Id, Cred>, site: Id, hash: string) {
    exists s :: s in creds && s != site && creds[s].hash == hash
  }

  function Replace(creds: map<Id, Cred>, site: Id, hash: string, ttl: int, now: int): map<Id, Cred> {
    if HeldElsewhere(creds, site, hash) then creds else creds[site := Cred(hash, Expiry(ttl, now))]
  }

  lemma TakenIsHeldElsewhere(t: Table, creds: map<Id, Cred>, site: Id, hash: string)
    requires Represents(t, creds)
    ensures HashTaken(Retire(t.rows, site), hash) <==> HeldElsewhere(creds, site, hash)
  {
    var rows := Retire(t.rows, site);
    if HashTaken(rows, hash) {
      var k :| Live(Table(rows, 0), k) && rows[k].hash == hash;
      assert LiveFor(t, k, t.rows[k].site);
    }
    if HeldElsewhere(creds, site, hash) {
      var s :| s in creds && s != site && creds[s].hash == hash;
      var k :| LiveFor(t, k, s);
      assert Live(Table(rows, 0), k);
    }
  }

  /** Issuing a token replaces the credential of the site. */
  lemma IssueRefines(t: Table, creds: map<Id, Cred>, site: Id, hash: string, ttl: int, now: int)
    requires Represents(t, creds)
    ensures Issued(t, site, hash, ttl, now).Err? <==> HeldElsewhere(creds, site, hash)
    ensures Issued(t, site, hash, ttl, now).Ok? ==>
      Represents(Issued(t, site, hash, ttl, now).value, Replace(creds, site, hash, ttl, now))
  {
    TakenIsHeldElsewhere(t, creds, site, hash);
    if !HeldElsewhere(creds, site, hash) {
      var w := Issued(t, site, hash, ttl, now).value;
      var after := Replace(creds, site, hash, ttl, now);
      forall s | s in after ensures exists k :: LiveFor(w, k, s) {
        if s == site {
          assert LiveFor(w, t.next, s);
        } else {
          var k :| LiveFor(t, k, s);
          assert LiveFor(w, k, s);
        }
      }
      forall k, s | LiveFor(w, k, s) ensures s in after && after[s] == Cred(w.rows[k].hash, w.rows[k].expires) {
        assert k != t.next ==> LiveFor(t, k, s) && s != site;
      }
    }
  }

  lemma {:induction false} FirstRowFinds(t: Table, hash: string, now: int, i: Id, k: Id)
    requires Accepts(t, k, hash, now) && i <= k < t.next
    ensures FirstRow(t, hash, now, i).Some? && FirstRow(t, hash, now, i).value <= k
    decreases t.next - i
  {
    if i != k && !Accepts(t, i, hash, now) {
      FirstRowFinds(t, hash, now, i + 1, k);
    }
  }

  /** A token is accepted exactly when it is some site's current credential, and then it names that site. */
  lemma ValidateRefines(t: Table, creds: map<Id, Cred>, hash: string, now: int, s: Id)
    requires Represents(t, creds)
    ensures Validate(t, hash, now) == Some(s) <==>
      s in creds && creds[s].hash == hash && (creds[s].expires.None? || now < creds[s].expires.value)
  {
    var r := FirstRow(t, hash, now, 1);
    if r.Some? {
      assert LiveFor(t, r.value, t.rows[r.value].site);
    }
    if s in creds && creds[s].hash == hash && Current(creds[s].expires, now) {
      var k :| LiveFor(t, k, s);
      FirstRowFinds(t, hash, now, 1, k);
    }
  }

  /** A row whose token is accepted at time now: not deleted, and without an expiry or before it. */
  predicate Usable(t: Table, k: Id, hash: string, now: int) {
    k in t.rows && !t.rows[k].deleted && t.rows[k].hash == hash && (t.rows[k].expires.None? || now < t.rows[k].expires.value)
  }

  /** Over any rows: the site of the lowest-numbered usable row, if there is one. */
  lemma ValidateExact(t: Table, hash: string, now: int)
    requires IdsOk(t)
    ensures Validate(t, hash, now).None? <==> forall k :: !Usable(t, k, hash, now)
    ensures forall k :: Usable(t, k, hash, now) && (forall j :: j < k ==> !Usable(t, j, hash, now)) ==>
      Validate(t, hash, now) == Some(t.rows[k].site)
  {
    var r := FirstRow(t, hash, now, 1);
    FirstRowIsFirst(t, hash, now, 1);
    assert r.Some? ==> Usable(t, r.value, hash, now);
    forall k | Usable(t, k, hash, now) ensures r.Some? && r.value <= k {
      FirstRowFinds(t, hash, now, 1, k);
    }
  }

  lemma {:induction false} FirstRowIsFirst(t: Table, hash: string, now: int, i: Id)
    ensures var r := FirstRow(t, hash, now, i);
      r.Some? ==> forall k :: i <= k < r.value ==> !Accepts(t, k, hash, now)
    decreases t.next - i
  {
    if i < t.next && !Accepts(t, i, hash, now) {
      FirstRowIsFirst(t, hash, now, i + 1);
    }
  }

  // ----- histories -----

  datatype Request = Request(site: Id, raw: string, ttl: int, at: int)

  ghost function TableAfter(hash: string -> string, rs: seq<Request>): Table
    decreases |rs|
  {
    if rs == [] then NO_TOKENS
    else
      var r := rs[|rs| - 1];
      var t := TableAfter(hash, rs[..|rs| - 1]);
      match Issued(t, r.site, hash(r.raw), r.ttl, r.at)
      case Err(_) => t
      case Ok(w) => w
  }

  function CredsAfter(hash: string -> string, rs: seq<Request>): map<Id, Cred>
    decreases |rs|
  {
    if rs == [] then map[]
    else
      var r := rs[|rs| - 1];
      Replace(CredsAfter(hash, rs[..|rs| - 1]), r.site, hash(r.raw), r.ttl, r.at)
  }

  lemma {:induction false} TableRefines(hash: string -> string, rs: seq<Request>)
    ensures Represents(TableAfter(hash, rs), CredsAfter(hash, rs))
    decreases |rs|
  {
    if rs != [] {
      var r := rs[|rs| - 1];
      TableRefines(hash, rs[..|rs| - 1]);
      hide Represents, Issued;
      IssueRefines(TableAfter(hash, rs[..|rs| - 1]), CredsAfter(hash, rs[..|rs| - 1]), r.site, hash(r.raw), r.ttl, r.at);
    }
  }

  /** No two requests of the history collide. */
  ghost predicate NoCollision(hash: string -> string, rs: seq<Request>) {
    forall i, j :: 0 <= i < j < |rs| ==> hash(rs[i].raw) != hash(rs[j].raw)
  }

  predicate Latest(rs: seq<Request>, i: nat)
    requires i < |rs|
  {
    forall j :: i < j < |rs| ==> rs[j].site != rs[i].site
  }

  ghost predicate Explained(hash: string -> string, rs: seq<Request>, s: Id, c: Cred) {
    exists i: nat :: i < |rs| && Latest(rs, i) && rs[i].site == s && c == CredOf(hash, rs[i])
  }

  function CredOf(hash: string -> string, r: Request): Cred {
    Cred(hash(r.raw), Expiry(r.ttl, r.at))
  }

  /** Without collisions a request always replaces its site's credential. */
  lemma {:induction false} CredsExplained(hash: string -> string, rs: seq<Request>)
    requires NoCollision(hash, rs)
    ensures forall s :: s in CredsAfter(hash, rs) ==> Explained(hash, rs, s, CredsAfter(hash, rs)[s])
    ensures rs != [] ==>
      CredsAfter(hash, rs) == CredsAfter(hash, rs[..|rs| - 1])[rs[|rs| - 1].site := CredOf(hash, rs[|rs| - 1])]
    decreases |rs|
  {
    if rs != [] {
      var n := |rs| - 1;
      var before := CredsAfter(hash, rs[..n]);
      CredsExplained(hash, rs[..n]);
      forall s | s in before && s != rs[n].site
        ensures Explained(hash, rs, s, before[s]) && before[s].hash != hash(rs[n].raw)
      {
        ExplainedStill(hash, rs, s, before[s]);
      }
      assert !HeldElsewhere(before, rs[n].site, hash(rs[n].raw));
      assert Latest(rs, n);
    }
  }

  lemma ExplainedStill(hash: string -> string, rs: seq<Request>, s: Id, c: Cred)
    requires rs != [] && NoCollision(hash, rs) && s != rs[|rs| - 1].site && Explained(hash, rs[..|rs| - 1], s, c)
    ensures Explained(hash, rs, s, c) && c.hash != hash(rs[|rs| - 1].raw)
  {
    var before := rs[..|rs| - 1];
    var i: nat :| i < |before| && Latest(before, i) && before[i].site == s && c == CredOf(hash, before[i]);
    assert rs[i] == before[i] && forall j :: i < j < |before| ==> rs[j] == before[j];
    assert Latest(rs, i);
  }

  lemma {:induction false} LatestHolds(hash: string -> string, rs: seq<Request>, i: nat)
    requires NoCollision(hash, rs) && i < |rs| && Latest(rs, i)
    ensures rs[i].site in CredsAfter(hash, rs) && CredsAfter(hash, rs)[rs[i].site] == CredOf(hash, rs[i])
    decreases |rs|
  {
    CredsExplained(hash, rs);
    var n := |rs| - 1;
    if i < n {
      assert Latest(rs[..n], i) by {
        assert forall j :: i < j < n ==> rs[..n][j] == rs[j];
      }
      LatestHolds(hash, rs[..n], i);
    }
  }

  /**
   The raw token of request i is good for its site exactly while it is the site's latest and, if it
   was given a time to live, that time has not passed.
   */
  lemma LatestTokenOnly(hash: string -> string, rs: seq<Request>, i: nat, now: int)
    requires i < |rs| && NoCollision(hash, rs)
    ensures Validate(TableAfter(hash, rs), hash(rs[i].raw), now) ==
      if Latest(rs, i) && (rs[i].ttl <= 0 || now < rs[i].at + rs[i].ttl) then Some(rs[i].site) else None
  {
    TableRefines(hash, rs);
    CredsExplained(hash, rs);
    if Latest(rs, i) {
      LatestHolds(hash, rs, i);
    }
    var creds := CredsAfter(hash, rs);
    var r := Validate(TableAfter(hash, rs), hash(rs[i].raw), now);
    ValidateRefines(TableAfter(hash, rs), creds, hash(rs[i].raw), now, rs[i].site);
    hide Represents, Validate, TableAfter, CredsAfter;
    if r.Some? {
      ValidateRefines(TableAfter(hash, rs), creds, hash(rs[i].raw), now, r.value);
      assert Explained(hash, rs, r.value, creds[r.value]);
      var j: nat :| j < |rs| && Latest(rs, j) && rs[j].site == r.value && creds[r.value] == CredOf(hash, rs[j]);
      assert j == i;
    }
  }

  /** A raw token that was never issued is good for nothing. */
  lemma StrangerRejected(hash: string -> string, rs: seq<Request>, raw: string, now: int)
    requires NoCollision(hash, rs) && forall i :: 0 <= i < |rs| ==> hash(rs[i].raw) != hash(raw)
    ensures Validate(TableAfter(hash, rs), hash(raw), now) == None
  {
    TableRefines(hash, rs);
    CredsExplained(hash, rs);
    var r := Validate(TableAfter(hash, rs), hash(raw), now);
    if r.Some? {
      ValidateRefines(TableAfter(hash, rs), CredsAfter(hash, rs), hash(raw), now, r.value);
    }
  }

  // ----- the table as the server keeps it -----

  class TokenTable {
    const hash: string -> string
    var rows: map<Id, Token>
    var next: Id

    function Abs(): Table
      reads this
    {
      Table(rows, next)
    }

    constructor (hash: string -> string)
      ensures this.hash == hash && Abs() == NO_TOKENS
    {
      this.hash := hash;
      rows, next := map[], 1;
    }

    /** raw is the fresh random token; the row keeps its hash only. */
    method Issue(site: Id, raw: string, ttl: int, now: int) returns (ok: bool)
      requires IdsOk(Abs())
      modifies this
      ensures IdsOk(Abs())
      ensures ok == Issued(old(Abs()), site, hash(raw), ttl, now).Ok?
      ensures Abs() == if ok then Issued(old(Abs()), site, hash(raw), ttl, now).value else old(Abs())
    {
      var h := hash(raw);
      var kept := Retire(rows, site);
      var k := 1;
      while k < next
        invariant forall j :: 1 <= j < k ==> !Live(Table(kept, 0), j) || kept[j].hash != h
      {
        if k in kept && !kept[k].deleted && kept[k].hash == h {
          assert Live(Table(kept, 0), k);
          return false;
        }
        k := k + 1;
      }
      rows := kept[next := Token(site, h, if ttl > 0 then Some(now + ttl) else None, None, false)];
      next := next + 1;
      return true;
    }

    /** Also stamps the row with the time of use, which no later answer depends on. */
    method ValidateRaw(raw: string, now: int) returns (site: Option<Id>)
      requires IdsOk(Abs())
      modifies this
      ensures IdsOk(Abs())
      ensures site == Validate(old(Abs()), hash(raw), now)
      ensures var k := FirstRow(old(Abs()), hash(raw), now, 1);
        rows == if k.None? then old(rows) else old(rows)[k.value := old(rows)[k.value].(lastUsed := Some(now))]
      ensures forall h, later :: Validate(Abs(), h, later) == Validate(old(Abs()), h, later)
    {
      var row := FirstRow(Abs(), hash(raw), now, 1);
      if row.None? {
        return None;
      }
      ghost var was := Abs();
      rows := rows[row.value := rows[row.value].(lastUsed := Some(now))];
      forall h, later ensures Validate(Abs(), h, later) == Validate(was, h, later) {
        StampIgnored(was, Abs(), row.value, h, later, 1);
      }
      return Some(rows[row.value].site);
    }
  }

  lemma {:induction false} StampIgnored(t: Table, w: Table, k: Id, hash: string, now: int, i: Id)
    requires k in t.rows && k in w.rows && w == t.(rows := t.rows[k := t.rows[k].(lastUsed := w.rows[k].lastUsed)])
    ensures FirstRow(w, hash, now, i) == FirstRow(t, hash, now, i)
    decreases t.next - i
  {
    if i < t.next {
      StampIgnored(t, w, k, hash, now, i + 1);
    }
  }
}
