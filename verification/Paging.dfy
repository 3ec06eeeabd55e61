/**
 Paged lists. Projects, sites and services are listed by ascending id while other requests
 insert, delete, grant and revoke; the audit log is listed by descending id while entries
 are appended.
 */
module Paging {
  import opened Wrappers
  import opened Text

  datatype PageError = InvalidPageToken

  /** An id column after some inserts: the visible ids, all in [1, next). */
  datatype View = View(visible: set<int>, next: int)

  predicate ViewOk(v: View) {
    v.next <= MAX_UINT64 + 1 && forall i <- v.visible :: 1 <= i < v.next
  }

  function Clamp(size: int): (n: nat)
    ensures 1 <= n <= 1000
  {
    if size <= 0 then 50 else if size > 1000 then 1000 else size
  }

  /** The first ids after the given one, ascending, at most limit of them. */
  function Select(v: View, after: int, limit: nat): seq<int>
    decreases v.next - after
  {
    if limit == 0 || after + 1 >= v.next then []
    else if after + 1 in v.visible then [after + 1] + Select(v, after + 1, limit - 1)
    else Select(v, after + 1, limit)
  }

  function ReadToken(token: string): Result<nat, PageError> {
    if token == "" then Ok(0)
    else
      match ParseUint(token, MAX_UINT64)
      case None => Err(InvalidPageToken)
      case Some(n) => Ok(n)
  }

  function List(v: View, size: int, token: string): Result<seq<int>, PageError> {
    match ReadToken(token)
    case Err(e) => Err(e)
    case Ok(after) => Ok(Select(v, after, Clamp(size)))
  }

  predicate Within(s: seq<int>, lo: int, hi: int) {
    forall k :: 0 <= k < |s| ==> lo <= s[k] <= hi
  }

  function NextToken(page: seq<int>): string
    requires Within(page, 1, MAX_UINT64)
  {
    if page == [] then "" else Dec(page[|page| - 1])
  }

  // ----- one page -----

  predicate Increasing(s: seq<int>, after: int) {
    (forall i, j :: 0 <= i < j < |s| ==> s[i] < s[j]) && forall k :: 0 <= k < |s| ==> after < s[k]
  }

  /** A page holds visible ids in order. */
  lemma {:induction false} SelectSorted(v: View, after: int, limit: nat)
    ensures Increasing(Select(v, after, limit), after) && |Select(v, after, limit)| <= limit
    ensures forall k :: 0 <= k < |Select(v, after, limit)| ==>
      Select(v, after, limit)[k] in v.visible && Select(v, after, limit)[k] < v.next
    decreases v.next - after
  {
    if limit != 0 && after + 1 < v.next {
      if after + 1 in v.visible {
        SelectSorted(v, after + 1, limit - 1);
        var rest := Select(v, after + 1, limit - 1);
        assert Select(v, after, limit) == [after + 1] + rest;
        hide Select;
        var page := [after + 1] + rest;
        assert forall k :: 0 < k < |page| ==> page[k] == rest[k - 1];
      } else {
        SelectSorted(v, after + 1, limit);
      }
    }
  }

  /** It skips no visible id up to its last one, and a short page skips none at all. */
  lemma {:induction false} SelectDense(v: View, after: int, limit: nat, id: int)
    requires after < id < v.next && id in v.visible
    ensures var page := Select(v, after, limit);
      |page| < limit || (page != [] && id <= page[|page| - 1]) ==> id in page
    decreases v.next - after
  {
    if limit != 0 && id != after + 1 {
      if after + 1 in v.visible {
        SelectDense(v, after + 1, limit - 1, id);
        var rest := Select(v, after + 1, limit - 1);
        assert Select(v, after, limit) == [after + 1] + rest;
      } else {
        SelectDense(v, after + 1, limit, id);
      }
    }
  }

  lemma SelectExact(v: View, after: int, limit: nat)
    requires ViewOk(v)
    ensures var page := Select(v, after, limit);
      && Increasing(page, after) && |page| <= limit
      && (forall k :: 0 <= k < |page| ==> page[k] in v.visible && page[k] < v.next)
      && forall id <- v.visible :: after < id && (|page| < limit || (page != [] && id <= page[|page| - 1])) ==> id in page
  {
    hide Select;
    SelectSorted(v, after, limit);
    var page := Select(v, after, limit);
    forall id | id in v.visible && after < id
      ensures |page| < limit || (page != [] && id <= page[|page| - 1]) ==> id in page
    {
      SelectDense(v, after, limit, id);
    }
  }

  function After(v: View, after: int): set<int> {
    set i | i in v.visible && i > after
  }

  /** A page holds every visible id after the cursor when there are no more of them than it may hold. */
  lemma {:induction false} SelectAll(v: View, after: int, limit: nat, id: int)
    requires ViewOk(v) && |After(v, after)| <= limit && id in After(v, after)
    ensures id in Select(v, after, limit)
    decreases v.next - after
  {
    assert After(v, after) != {};
    if after + 1 in v.visible {
      assert After(v, after) == {after + 1} + After(v, after + 1);
      if id != after + 1 {
        SelectAll(v, after + 1, limit - 1, id);
      }
    } else {
      assert After(v, after) == After(v, after + 1);
      SelectAll(v, after + 1, limit, id);
    }
  }

  lemma {:induction false} FewInSequence(s: seq<int>, a: set<int>)
    requires forall i <- a :: i in s
    ensures |a| <= |s|
  {
    if s == [] {
      if a != {} {
        var i := Pick(a);
      }
    } else {
      FewInSequence(s[1..], a - {s[0]});
    }
  }

  /** A single capped fetch sees every visible id exactly when there are no more than the cap. */
  lemma CappedFetchExact(v: View, limit: nat)
    requires ViewOk(v)
    ensures (forall id <- v.visible :: id in Select(v, 0, limit)) <==> |v.visible| <= limit
  {
    assert After(v, 0) == v.visible;
    if |v.visible| <= limit {
      forall id | id in v.visible ensures id in Select(v, 0, limit) {
        SelectAll(v, 0, limit, id);
      }
    }
    if forall id <- v.visible :: id in Select(v, 0, limit) {
      FewInSequence(Select(v, 0, limit), v.visible);
      SelectSorted(v, 0, limit);
    }
  }

  function Min(a: nat, b: nat): nat {
    if a < b then a else b
  }

  lemma AfterNext(v: View, after: int)
    requires ViewOk(v)
    ensures after + 1 >= v.next ==> After(v, after) == {}
    ensures |After(v, after)| == |After(v, after + 1)| + if after + 1 in v.visible then 1 else 0
  {
    if after + 1 in v.visible {
      assert After(v, after) == {after + 1} + After(v, after + 1);
    } else {
      assert After(v, after) == After(v, after + 1);
    }
  }

  lemma {:induction false} SelectCount(v: View, after: int, limit: nat)
    requires ViewOk(v)
    ensures |Select(v, after, limit)| == Min(limit, |After(v, after)|)
    decreases v.next - after
  {
    AfterNext(v, after);
    hide ViewOk, After;
    if limit != 0 && after + 1 < v.next {
      SelectCount(v, after + 1, if after + 1 in v.visible then limit - 1 else limit);
    }
  }

  /** The page size that a request asks for. */
  function Asked(size: int, usual: nat, most: nat): nat {
    if size <= 0 then usual else Min(size, most)
  }

  /** Decimal digits of a 64-bit number; no token at all stands for zero. */
  ghost predicate TokenSays(token: string, n: nat) {
    n <= 18_446_744_073_709_551_615 && (Reads(token, n) || (token == "" && n == 0))
  }

  lemma TokenExact(token: string)
    ensures forall n: nat :: ReadToken(token) == Ok(n) <==> TokenSays(token, n)
  {
    hide ParseUint, Reads;
    forall n: nat ensures ReadToken(token) == Ok(n) <==> TokenSays(token, n) {
      NoEmptyNumber(n);
      ParseUintExact(token, MAX_UINT64, n);
    }
  }

  lemma NoEmptyNumber(n: nat)
    ensures !Reads("", n)
  {
    forall z: nat ensures Zeros(z) + Dec(n) != "" {
      assert |Zeros(z) + Dec(n)| >= |Dec(n)| > 0;
    }
  }

  /**
   A list request is refused exactly when its token is no number. Otherwise its page is the lowest
   visible ids after it: all of them, or as many as the request asks for, 50 if it does not say and
   1000 at most.
   */
  lemma PageExact(v: View, size: int, token: string, after: nat)
    requires ViewOk(v)
    ensures List(v, size, token).Err? <==> forall n :: !TokenSays(token, n)
    ensures TokenSays(token, after) ==> LowestAfter(v, List(v, size, token), after, Min(Asked(size, 50, 1000), |After(v, after)|))
  {
    TokenExact(token);
    if TokenSays(token, after) {
      SelectExact(v, after, Clamp(size));
      SelectCount(v, after, Clamp(size));
    }
    hide ReadToken, TokenSays, Select, ViewOk;
  }

  /** The page is the count lowest visible ids above after, in order. */
  predicate LowestAfter(v: View, r: Result<seq<int>, PageError>, after: nat, count: nat) {
    && r.Ok? && |r.value| == count && Increasing(r.value, after)
    && (forall k :: 0 <= k < count ==> r.value[k] in v.visible)
    && forall id <- v.visible :: after < id && id !in r.value ==> count == 0 || r.value[count - 1] < id
  }

  lemma TokenRoundTrip(page: seq<int>)
    requires page != [] && Within(page, 1, MAX_UINT64)
    ensures NextToken(page) != "" && ReadToken(NextToken(page)) == Ok(page[|page| - 1])
  {
    ParseFormat(page[|page| - 1], MAX_UINT64);
  }

  // ----- a walk from page to page -----

  /** The pages a client that follows page tokens was given, fetch by fetch, and whether it came to the end. */
  datatype Walked = Walked(pages: seq<seq<int>>, done: bool)

  function Flat(pages: seq<seq<int>>): seq<int> {
    if pages == [] then [] else pages[0] + Flat(pages[1..])
  }

  /** The k-th fetch asks for sizes[k] rows and meets views[k]; the walk ends at an empty token. */
  function Walk(views: seq<View>, sizes: seq<int>, token: string): (r: Walked)
    requires |views| == |sizes| && forall v <- views :: ViewOk(v)
    ensures |r.pages| <= |views|
    decreases |views|
  {
    if views == [] then Walked([], false)
    else
      match List(views[0], sizes[0], token)
      case Err(_) => Walked([], false)
      case Ok(page) =>
        PageInView(views[0], sizes[0], token);
        if NextToken(page) == "" then Walked([page], true)
        else
          var rest := Walk(views[1..], sizes[1..], NextToken(page));
          Walked([page] + rest.pages, rest.done)
  }

  lemma PageInView(v: View, size: int, token: string)
    requires ViewOk(v) && List(v, size, token).Ok?
    ensures Within(List(v, size, token).value, 1, MAX_UINT64)
  {
    SelectExact(v, ReadToken(token).value, Clamp(size));
  }

  ghost predicate ThroughoutVisible(views: seq<View>, fetches: nat, id: int)
    requires fetches <= |views|
  {
    forall k :: 0 <= k < fetches ==> id in views[k].visible
  }

  /** Page k holds no more rows than asked for, and all of them were visible when it was fetched. */
  ghost predicate PagesFit(views: seq<View>, sizes: seq<int>, pages: seq<seq<int>>) {
    |pages| <= |views| == |sizes| && forall k :: 0 <= k < |pages| ==> PageFits(views[k], sizes[k], pages[k])
  }

  ghost predicate PageFits(v: View, size: int, page: seq<int>) {
    |page| <= Clamp(size) && forall k :: 0 <= k < |page| ==> page[k] in v.visible
  }

  /**
   Whatever is inserted, deleted, granted or revoked between fetches, and whatever page sizes
   are asked for: the pages of a walk are in strictly increasing order of ids, so none comes
   twice, each page holds only ids that were visible in its own fetch, and a walk that comes to
   its end has returned every id that was visible throughout.
   */
  lemma {:induction false} WalkExact(views: seq<View>, sizes: seq<int>, token: string)
    requires |views| == |sizes| && (forall v <- views :: ViewOk(v)) && ReadToken(token).Ok?
    ensures Increasing(Flat(Walk(views, sizes, token).pages), ReadToken(token).value)
    ensures PagesFit(views, sizes, Walk(views, sizes, token).pages)
    ensures Walk(views, sizes, token).done ==> Complete(views, Walk(views, sizes, token).pages, ReadToken(token).value)
    decreases |views|
  {
    if views != [] {
      var after := ReadToken(token).value;
      var page := List(views[0], sizes[0], token).value;
      SelectExact(views[0], after, Clamp(sizes[0]));
      assert PageFits(views[0], sizes[0], page);
      if page != [] {
        PageInView(views[0], sizes[0], token);
        TokenRoundTrip(page);
        WalkExact(views[1..], sizes[1..], NextToken(page));
        var rest := Walk(views[1..], sizes[1..], NextToken(page));
        assert Walk(views, sizes, token) == Walked([page] + rest.pages, rest.done);
        hide *;
        FlatCons(page, rest.pages);
        IncreasingConcat(page, Flat(rest.pages), after);
        FitCons(views, sizes, page, rest.pages);
        if rest.done {
          ThroughoutConcat(views, page, rest.pages, after);
        }
      } else {
        LastPage(views, page, after);
      }
    }
  }

  lemma FlatCons(page: seq<int>, pages: seq<seq<int>>)
    ensures Flat([page] + pages) == page + Flat(pages)
  {
    assert ([page] + pages)[1..] == pages;
  }

  lemma FitCons(views: seq<View>, sizes: seq<int>, page: seq<int>, pages: seq<seq<int>>)
    requires views != [] && sizes != [] && PageFits(views[0], sizes[0], page) && PagesFit(views[1..], sizes[1..], pages)
    ensures PagesFit(views, sizes, [page] + pages)
  {
    forall k | 0 <= k < 1 + |pages| ensures PageFits(views[k], sizes[k], ([page] + pages)[k]) {
      if k > 0 {
        assert PageFits(views[1..][k - 1], sizes[1..][k - 1], pages[k - 1]);
      }
    }
  }

  lemma LastPage(views: seq<View>, page: seq<int>, after: int)
    requires views != [] && page == [] && forall id <- views[0].visible :: id <= after
    ensures Flat([page]) == [] && Complete(views, [page], after)
  {
    assert [page][1..] == [];
    forall id | ThroughoutVisible(views, 1, id) ensures id <= after {
      assert id in views[0].visible;
    }
  }

  lemma IncreasingConcat(page: seq<int>, rest: seq<int>, after: int)
    requires page != [] && Increasing(page, after) && Increasing(rest, page[|page| - 1])
    ensures Increasing(page + rest, after)
  {
    var s := page + rest;
    var last := page[|page| - 1];
    assert forall k :: 0 <= k < |page| ==> s[k] == page[k] <= last;
    assert forall k :: |page| <= k < |s| ==> s[k] == rest[k - |page|] > last > after;
  }

  /** Every id above after that is visible in all the fetches is on some page. */
  ghost predicate Complete(views: seq<View>, pages: seq<seq<int>>, after: int)
    requires |pages| <= |views|
  {
    forall id :: id > after && ThroughoutVisible(views, |pages|, id) ==> id in Flat(pages)
  }

  lemma ThroughoutConcat(views: seq<View>, page: seq<int>, pages: seq<seq<int>>, after: int)
    requires views != [] && page != [] && |pages| <= |views| - 1
    requires forall i <- views[0].visible :: after < i <= page[|page| - 1] ==> i in page
    requires Complete(views[1..], pages, page[|page| - 1])
    ensures Complete(views, [page] + pages, after)
  {
    FlatCons(page, pages);
    forall id | id > after && ThroughoutVisible(views, 1 + |pages|, id) ensures id in page + Flat(pages) {
      assert id in views[0].visible;
      if id > page[|page| - 1] {
        assert ThroughoutVisible(views[1..], |pages|, id) by {
          assert forall k :: 0 <= k < |pages| ==> views[1..][k] == views[k + 1];
        }
      }
    }
  }

  /** While ids stay below a bound, a walk of that many fetches has come to its end. */
  lemma {:induction false} WalkEnds(views: seq<View>, sizes: seq<int>, token: string, bound: nat)
    requires |views| == |sizes| && (forall v <- views :: ViewOk(v) && v.next <= bound) && ReadToken(token).Ok?
    requires |views| >= 1 && |views| + ReadToken(token).value >= bound
    ensures Walk(views, sizes, token).done
    decreases |views|
  {
    var after := ReadToken(token).value;
    var page := List(views[0], sizes[0], token).value;
    SelectExact(views[0], after, Clamp(sizes[0]));
    if page != [] {
      PageInView(views[0], sizes[0], token);
      TokenRoundTrip(page);
      WalkEnds(views[1..], sizes[1..], NextToken(page), bound);
    }
  }

  // ----- the audit log -----

  const AUDIT_DEFAULT_LIMIT: nat := 50
  const AUDIT_MAX_LIMIT: nat := 200

  function AuditClamp(size: int): (n: nat)
    ensures 1 <= n <= AUDIT_MAX_LIMIT
  {
    if size <= 0 then AUDIT_DEFAULT_LIMIT else if size > AUDIT_MAX_LIMIT then AUDIT_MAX_LIMIT else size
  }

  /** The filtered ids from top down, at most limit; entry number id sits at log[id - 1]. */
  function Below<E>(log: seq<E>, f: E -> bool, top: nat, limit: nat): (rows: seq<int>)
    requires top <= |log|
    ensures |rows| <= limit && Within(rows, 1, top)
    decreases top
  {
    if limit == 0 || top == 0 then []
    else if f(log[top - 1]) then [top as int] + Below(log, f, top - 1, limit - 1)
    else Below(log, f, top - 1, limit)
  }

  /** All filtered ids from top down. */
  function Newest<E>(log: seq<E>, f: E -> bool, top: nat): (rows: seq<int>)
    requires top <= |log|
    ensures Within(rows, 1, top)
  {
    if top == 0 then []
    else (if f(log[top - 1]) then [top as int] else []) + Newest(log, f, top - 1)
  }

  /** The page and the token after it; total counts every filtered entry, as a uint32. */
  datatype AuditPage = AuditPage(entries: seq<int>, next: string, total: nat)

  function Top<E>(log: seq<E>, after: nat): nat {
    if 0 < after <= |log| then after - 1 else |log|
  }

  /** The page made of rows that were fetched with one to spare. */
  function Cut<E>(log: seq<E>, f: E -> bool, rows: seq<int>, limit: nat): AuditPage
    requires limit > 0 && Within(rows, 1, |log|)
  {
    var total := |Newest(log, f, |log|)| % 0x1_0000_0000;
    if |rows| > limit then AuditPage(rows[..limit], Dec(rows[limit - 1]), total) else AuditPage(rows, "", total)
  }

  function ListAudit<E>(log: seq<E>, f: E -> bool, size: int, token: string): Result<AuditPage, PageError> {
    match ReadToken(token)
    case Err(e) => Err(e)
    case Ok(after) =>
      var limit := AuditClamp(size);
      Ok(Cut(log, f, Below(log, f, Top(log, after), limit + 1), limit))
  }

  /** Over-fetch by one, cut the page, copy it entry by entry. */
  method ListAuditLogs<E>(log: seq<E>, f: E -> bool, size: int, token: string) returns (r: Result<AuditPage, PageError>)
    ensures r == ListAudit(log, f, size, token)
  {
    var limit := if size <= 0 then AUDIT_DEFAULT_LIMIT else size;
    if limit > AUDIT_MAX_LIMIT {
      limit := AUDIT_MAX_LIMIT;
    }
    var after := 0;
    if token != "" {
      var n := ParseUint(token, MAX_UINT64);
      if n.None? {
        return Err(InvalidPageToken);
      }
      after := n.value;
    }
    var rows := Below(log, f, Top(log, after), limit + 1);
    var total := |Newest(log, f, |log|)| % 0x1_0000_0000;
    var next := "";
    if |rows| > limit {
      next := Dec(rows[limit - 1]);
      rows := rows[..limit];
    }
    var entries: seq<int> := [];
    for i := 0 to |rows|
      invariant entries == rows[..i]
    {
      entries := entries + [rows[i]];
    }
    assert entries == rows;
    return Ok(AuditPage(entries, next, total));
  }

  /** A short page is all that lies below the cursor. */
  lemma {:induction false} BelowShort<E>(log: seq<E>, f: E -> bool, top: nat, limit: nat)
    requires top <= |log| && |Below(log, f, top, limit)| < limit
    ensures Newest(log, f, top) == Below(log, f, top, limit)
    decreases top
  {
    if top != 0 {
      BelowShort(log, f, top - 1, if f(log[top - 1]) then limit - 1 else limit);
    }
  }

  lemma SkipStep<E>(log: seq<E>, f: E -> bool, top: nat, limit: nat)
    requires 0 < top <= |log| && limit > 0 && !f(log[top - 1])
    ensures Newest(log, f, top) == Newest(log, f, top - 1) && Below(log, f, top, limit) == Below(log, f, top - 1, limit)
  {
    assert [] + Newest(log, f, top - 1) == Newest(log, f, top - 1);
  }

  lemma TakeStep<E>(log: seq<E>, f: E -> bool, top: nat, limit: nat)
    requires 0 < top <= |log| && limit > 0 && f(log[top - 1])
    ensures Newest(log, f, top) == [top as int] + Newest(log, f, top - 1)
    ensures Below(log, f, top, limit) == [top as int] + Below(log, f, top - 1, limit - 1)
  {
  }

  /** After a full page the rest starts below its last row. */
  lemma {:induction false} BelowFull<E>(log: seq<E>, f: E -> bool, top: nat, limit: nat)
    requires top <= |log| && limit > 0 && |Below(log, f, top, limit)| == limit
    ensures Newest(log, f, top) == Below(log, f, top, limit) + Newest(log, f, Below(log, f, top, limit)[limit - 1] - 1)
    decreases top
  {
    assert top != 0;
    hide Newest, Below;
    if !f(log[top - 1]) {
      SkipStep(log, f, top, limit);
      BelowFull(log, f, top - 1, limit);
    } else {
      TakeStep(log, f, top, limit);
      if limit > 1 {
        BelowFull(log, f, top - 1, limit - 1);
        FullStep(log, f, top, limit);
      } else {
        assert Below(log, f, top, limit) == [top as int];
      }
    }
  }

  lemma FullStep<E>(log: seq<E>, f: E -> bool, top: nat, limit: nat)
    requires 0 < top <= |log| && limit > 1 && f(log[top - 1]) && |Below(log, f, top - 1, limit - 1)| == limit - 1
    requires var rest := Below(log, f, top - 1, limit - 1);
      Newest(log, f, top - 1) == rest + Newest(log, f, rest[limit - 2] - 1)
    ensures Newest(log, f, top) == Below(log, f, top, limit) + Newest(log, f, Below(log, f, top, limit)[limit - 1] - 1)
  {
    var rest := Below(log, f, top - 1, limit - 1);
    hide *;
    TakeStep(log, f, top, limit);
    var more := Newest(log, f, rest[limit - 2] - 1);
    assert ([top as int] + rest)[limit - 1] == rest[limit - 2];
    assert [top as int] + (rest + more) == ([top as int] + rest) + more;
  }

  /** Cutting the over-fetched row off gives the page of the asked size. */
  lemma {:induction false} BelowCut<E>(log: seq<E>, f: E -> bool, top: nat, limit: nat)
    requires top <= |log|
    ensures |Below(log, f, top, limit + 1)| > limit ==> Below(log, f, top, limit + 1)[..limit] == Below(log, f, top, limit)
    decreases top
  {
    if limit != 0 && top != 0 {
      if f(log[top - 1]) {
        BelowCut(log, f, top - 1, limit - 1);
        var rest := Below(log, f, top - 1, limit);
        assert |rest| >= limit ==> ([top as int] + rest)[..limit] == [top as int] + rest[..limit - 1];
      } else {
        BelowCut(log, f, top - 1, limit);
      }
    }
  }

  /** Appends do not change what lies below a cursor. */
  lemma {:induction false} NewestStable<E>(log: seq<E>, later: seq<E>, f: E -> bool, top: nat)
    requires log <= later && top <= |log|
    ensures Newest(later, f, top) == Newest(log, f, top)
  {
    if top != 0 {
      NewestStable(log, later, f, top - 1);
    }
  }

  predicate Decreasing(s: seq<int>) {
    forall i, j :: 0 <= i < j < |s| ==> s[i] > s[j]
  }

  lemma DecreasingCons(top: int, rest: seq<int>)
    requires Decreasing(rest) && Within(rest, 1, top - 1)
    ensures Decreasing([top] + rest)
  {
    var all := [top] + rest;
    assert forall i :: 0 < i < |all| ==> all[i] == rest[i - 1];
  }

  lemma NewestNone<E>(log: seq<E>, f: E -> bool)
    ensures Newest(log, f, 0) == [] && Decreasing([])
  {
  }

  lemma {:induction false} NewestDecreasing<E>(log: seq<E>, f: E -> bool, top: nat)
    requires top <= |log|
    ensures Decreasing(Newest(log, f, top))
  {
    hide Newest, Decreasing, Below, Within;
    if top == 0 {
      NewestNone(log, f);
    } else {
      NewestDecreasing(log, f, top - 1);
      if f(log[top - 1]) {
        TakeStep(log, f, top, 1);
        DecreasingCons(top, Newest(log, f, top - 1));
      } else {
        SkipStep(log, f, top, 1);
      }
    }
  }

  lemma {:induction false} NewestMembers<E>(log: seq<E>, f: E -> bool, top: nat, id: int)
    requires top <= |log|
    ensures id in Newest(log, f, top) <==> 1 <= id <= top && f(log[id - 1])
    decreases top
  {
    if top != 0 {
      NewestMembers(log, f, top - 1, id);
    }
  }

  /** The filtered log is each filtered id once, newest first. */
  lemma NewestIsFilter<E>(log: seq<E>, f: E -> bool, top: nat)
    requires top <= |log|
    ensures Decreasing(Newest(log, f, top))
    ensures forall id :: id in Newest(log, f, top) <==> 1 <= id <= top && f(log[id - 1])
  {
    hide Newest, Decreasing;
    NewestDecreasing(log, f, top);
    forall id ensures id in Newest(log, f, top) <==> 1 <= id <= top && f(log[id - 1]) {
      NewestMembers(log, f, top, id);
    }
  }

  /**
   An audit page is the newest of the filtered entries older than the one its token names, or than
   none: as many as there are, up to the number asked for, 50 if it does not say and 200 at most. A
   token follows exactly when there are more, and a request whose token is no number is refused.
   */
  lemma AuditPageExact<E>(log: seq<E>, f: E -> bool, size: int, token: string, after: nat)
    ensures ListAudit(log, f, size, token).Err? <==> forall n :: !TokenSays(token, n)
    ensures TokenSays(token, after) ==> ListAudit(log, f, size, token).Ok?
    ensures TokenSays(token, after) ==>
      NewestBelow(log, f, ListAudit(log, f, size, token).value, if 0 < after <= |log| then after - 1 else |log|, Asked(size, 50, 200))
  {
    TokenExact(token);
    hide ReadToken, TokenSays, Below, Newest, Dec, NewestBelow;
    if TokenSays(token, after) {
      CutIsNewest(log, f, Top(log, after), AuditClamp(size));
    }
  }

  lemma CutIsNewest<E>(log: seq<E>, f: E -> bool, top: nat, limit: nat)
    requires top <= |log| && limit > 0
    ensures NewestBelow(log, f, Cut(log, f, Below(log, f, top, limit + 1), limit), top, limit)
  {
    var rows := Below(log, f, top, limit + 1);
    if |rows| > limit {
      BelowCut(log, f, top, limit);
      BelowFull(log, f, top, limit);
      BelowFull(log, f, top, limit + 1);
      DecNotEmpty(rows[limit - 1]);
    } else {
      BelowShort(log, f, top, limit + 1);
    }
    hide Below, Newest, Dec;
  }

  lemma DecNotEmpty(n: nat)
    ensures Dec(n) != ""
  {
  }

  /** The first entries, up to most, of the filtered log from top down. */
  predicate NewestBelow<E>(log: seq<E>, f: E -> bool, page: AuditPage, top: nat, most: nat)
    requires top <= |log|
  {
    var all := Newest(log, f, top);
    page.entries <= all && |page.entries| == Min(most, |all|) && (page.next == "" <==> |all| <= most)
    && page.total == |Newest(log, f, |log|)| % 4_294_967_296
  }

  ghost predicate Appending<E>(logs: seq<seq<E>>) {
    forall i, j :: 0 <= i <= j < |logs| ==> logs[i] <= logs[j]
  }

  /** What the client has seen, how many fetches it made, and whether it came to the end. */
  datatype Seen = Seen(rows: seq<int>, fetches: nat, done: bool)

  /** The client's walk: logs[k] is the log at the k-th fetch. */
  function AuditWalk<E>(logs: seq<seq<E>>, f: E -> bool, sizes: seq<int>, token: string): Seen
    requires |logs| == |sizes|
    decreases |logs|
  {
    if logs == [] then Seen([], 0, false)
    else
      match ListAudit(logs[0], f, sizes[0], token)
      case Err(_) => Seen([], 1, false)
      case Ok(page) =>
        if page.next == "" then Seen(page.entries, 1, true)
        else
          var rest := AuditWalk(logs[1..], f, sizes[1..], page.next);
          Seen(page.entries + rest.rows, 1 + rest.fetches, rest.done)
  }

  /** What remains to be walked at a cursor. */
  function Remaining<E>(log: seq<E>, f: E -> bool, token: string): seq<int>
    requires ReadToken(token).Ok?
  {
    Newest(log, f, Top(log, ReadToken(token).value))
  }

  lemma PageShape<E>(log: seq<E>, f: E -> bool, size: int, token: string)
    requires ReadToken(token).Ok? && |log| <= MAX_UINT64
    ensures ListAudit(log, f, size, token).Ok?
    ensures var page := ListAudit(log, f, size, token).value;
      if page.next == "" then page.entries == Remaining(log, f, token)
      else && page.entries != [] && ReadToken(page.next).Ok? && 0 < ReadToken(page.next).value <= |log|
           && Remaining(log, f, token) == page.entries + Remaining(log, f, page.next)
  {
    var top := Top(log, ReadToken(token).value);
    var limit := AuditClamp(size);
    var rows := Below(log, f, top, limit + 1);
    var page := ListAudit(log, f, size, token).value;
    if |rows| > limit {
      BelowCut(log, f, top, limit);
      BelowFull(log, f, top, limit);
      var last := rows[limit - 1];
      assert page.next == Dec(last) && page.entries == Below(log, f, top, limit) && page.entries[limit - 1] == last;
      hide ListAudit, AuditClamp, Newest, Below, Dec, ParseUint;
      ParseFormat(last, MAX_UINT64);
    } else {
      BelowShort(log, f, top, limit + 1);
    }
  }

  /** The walk returns what remained at its first fetch, if the cursor is one the log has passed. */
  lemma {:induction false} AuditWalkRest<E>(logs: seq<seq<E>>, f: E -> bool, sizes: seq<int>, token: string)
    requires |logs| == |sizes| && logs != [] && Appending(logs) && (forall log <- logs :: |log| <= MAX_UINT64)
    requires ReadToken(token).Ok?
    ensures var (w, all) := (AuditWalk(logs, f, sizes, token), Remaining(logs[0], f, token));
      && (if w.done then w.rows == all else w.rows <= all)
      && (|logs| > |all| ==> w.done)
    decreases |logs|
  {
    PageShape(logs[0], f, sizes[0], token);
    var page := ListAudit(logs[0], f, sizes[0], token).value;
    hide ListAudit, ReadToken;
    if page.next != "" && |logs| > 1 {
      assert logs[1..][0] == logs[1];
      NewestStable(logs[0], logs[1], f, ReadToken(page.next).value - 1);
      assert Remaining(logs[1], f, page.next) == Remaining(logs[0], f, page.next);
      assert Appending(logs[1..]) by {
        assert forall i :: 0 <= i < |logs| - 1 ==> logs[1..][i] == logs[i + 1];
      }
      hide Remaining, Newest;
      AuditWalkRest(logs[1..], f, sizes[1..], page.next);
    } else if page.next != "" {
      assert logs[1..] == [];
      hide Remaining;
    }
  }

  /**
   From the first page on, whatever the page sizes and whatever is appended meanwhile, the walk
   returns exactly the filtered entries present at the first fetch, each once, newest first, and
   it ends within one fetch more than there are such entries. The total of the first page is
   their number.
   */
  lemma AuditWalkExact<E>(logs: seq<seq<E>>, f: E -> bool, sizes: seq<int>)
    requires |logs| == |sizes| && logs != [] && Appending(logs) && (forall log <- logs :: |log| <= MAX_UINT64)
    ensures var w := AuditWalk(logs, f, sizes, "");
      && (w.done ==> forall id :: id in w.rows <==> 1 <= id <= |logs[0]| && f(logs[0][id - 1]))
      && Decreasing(w.rows)
      && (w.done ==> ListAudit(logs[0], f, sizes[0], "").value.total == |w.rows| % 0x1_0000_0000)
    ensures |logs| > |Newest(logs[0], f, |logs[0]|)| ==> AuditWalk(logs, f, sizes, "").done
  {
    AuditWalkRest(logs, f, sizes, "");
    hide AuditWalk, Below, Newest, Dec, ParseUint, Decreasing, Appending, AuditClamp, Within;
    NewestIsFilter(logs[0], f, |logs[0]|);
  }
}
