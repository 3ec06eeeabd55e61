/**
 Site liveness: heartbeats write the time last seen and then the status; sweeps turn stale
 online sites offline. Every write is one SQL statement; the time or threshold it carries was
 read from the clock before it lands.
 */
module Liveness {
  import opened Wrappers

  type Id = int

  datatype Status = Pending | Online | Offline

  /** The columns of a site that liveness is about. */
  datatype Row = Row(status: Status, lastSeen: Option<int>)

  /** A write to one site, landing at a time; seen and taken are the clock readings it carries. */
  datatype Write =
    | Meta(at: int, seen: int)   // last_seen_at := seen
    | SetOnline(at: int)         // status := online
    | Sweep(at: int, taken: int) // online and last seen before taken - offlineAfter: status := offline
    | Save(at: int, copy: Row)   // UpdateSite saves the whole row as it read it

  predicate Stale(r: Row, threshold: int) {
    r.status.Online? && r.lastSeen.Some? && r.lastSeen.value < threshold
  }

  function Land(offlineAfter: int, r: Row, w: Write): Row {
    match w
    case Meta(_, seen) => r.(lastSeen := Some(seen))
    case SetOnline(_) => r.(status := Online)
    case Sweep(_, taken) => if Stale(r, taken - offlineAfter) then r.(status := Offline) else r
    case Save(_, copy) => copy
  }

  function After(offlineAfter: int, r: Row, ws: seq<Write>): Row
    decreases |ws|
  {
    if ws == [] then r else After(offlineAfter, Land(offlineAfter, r, ws[0]), ws[1..])
  }

  /** Writes land in time order, and carry no reading later than their landing. */
  ghost predicate Timed(ws: seq<Write>) {
    && (forall i, j :: 0 <= i <= j < |ws| ==> ws[i].at <= ws[j].at)
    && (forall i :: 0 <= i < |ws| ==> (ws[i].Meta? ==> ws[i].seen <= ws[i].at) && (ws[i].Sweep? ==> ws[i].taken <= ws[i].at))
  }

  // ----- steady heartbeats are never flipped -----

  ghost predicate NoSave(ws: seq<Write>) {
    forall i :: 0 <= i < |ws| ==> !ws[i].Save?
  }

  /** The time last seen after these writes, seen at their start. */
  function SeenAfter(seen: int, ws: seq<Write>): int
    decreases |ws|
  {
    if ws == [] then seen else SeenAfter(if ws[0].Meta? then ws[0].seen else seen, ws[1..])
  }

  /** Each heartbeat write lands at most offlineAfter after the time the one before it carries. */
  ghost predicate Steady(offlineAfter: int, seen: int, ws: seq<Write>)
    decreases |ws|
  {
    ws == [] ||
    ((ws[0].Meta? ==> ws[0].at <= seen + offlineAfter)
     && Steady(offlineAfter, if ws[0].Meta? then ws[0].seen else seen, ws[1..]))
  }

  ghost predicate AnyOnline(ws: seq<Write>) {
    exists i :: 0 <= i < |ws| && ws[i].SetOnline?
  }

  lemma {:induction false} NextMetaIsSoon(offlineAfter: int, seen: int, ws: seq<Write>)
    requires Timed(ws) && Steady(offlineAfter, seen, ws) && ws != []
    requires ws[|ws| - 1].at <= SeenAfter(seen, ws) + offlineAfter
    ensures ws[0].at <= seen + offlineAfter || ws[0].Meta?
    decreases |ws|
  {
    if !ws[0].Meta? && |ws| > 1 {
      TimedTail(ws);
      assert ws[0].at <= ws[1].at;
      NextMetaIsSoon(offlineAfter, seen, ws[1..]);
    }
  }

  lemma TimedTail(ws: seq<Write>)
    requires Timed(ws) && ws != []
    ensures Timed(ws[1..])
  {
    assert forall i :: 0 <= i < |ws| - 1 ==> ws[1..][i] == ws[i + 1];
  }

  /** Every sweep leaves the row that it meets as it is. */
  ghost predicate NoSweepBites(offlineAfter: int, r: Row, ws: seq<Write>) {
    forall i :: 0 <= i < |ws| && ws[i].Sweep? ==> Harmless(offlineAfter, r, ws, i)
  }

  ghost predicate Harmless(offlineAfter: int, r: Row, ws: seq<Write>, i: nat)
    requires i < |ws|
  {
    Land(offlineAfter, After(offlineAfter, r, ws[..i]), ws[i]) == After(offlineAfter, r, ws[..i])
  }

  lemma NoBiteCons(offlineAfter: int, r: Row, ws: seq<Write>)
    requires ws != [] && (ws[0].Sweep? ==> Land(offlineAfter, r, ws[0]) == r)
    requires NoSweepBites(offlineAfter, Land(offlineAfter, r, ws[0]), ws[1..])
    ensures NoSweepBites(offlineAfter, r, ws)
  {
    forall i | 0 <= i < |ws| && ws[i].Sweep? ensures Harmless(offlineAfter, r, ws, i) {
      if i > 0 {
        assert Harmless(offlineAfter, Land(offlineAfter, r, ws[0]), ws[1..], i - 1);
        assert ws[..i][1..] == ws[1..][..i - 1];
      }
    }
  }

  /**
   Steady heartbeats: wherever sweeps land among the two writes of each heartbeat, and however
   old the clock readings they carry, none changes the row that it meets. The site ends online
   exactly when it started so or some heartbeat's status write landed.
   */
  lemma {:induction false} SteadyNeverFlipped(offlineAfter: int, r: Row, ws: seq<Write>)
    requires Timed(ws) && NoSave(ws) && r.lastSeen.Some? && Steady(offlineAfter, r.lastSeen.value, ws)
    requires ws != [] ==> ws[|ws| - 1].at <= SeenAfter(r.lastSeen.value, ws) + offlineAfter
    ensures After(offlineAfter, r, ws).status == if AnyOnline(ws) then Online else r.status
    ensures After(offlineAfter, r, ws).lastSeen == Some(SeenAfter(r.lastSeen.value, ws))
    ensures NoSweepBites(offlineAfter, r, ws)
    decreases |ws|
  {
    if ws != [] {
      var seen := r.lastSeen.value;
      NextMetaIsSoon(offlineAfter, seen, ws);
      TimedTail(ws);
      assert ws[0].Sweep? ==> ws[0].taken <= ws[0].at;
      var r1 := Land(offlineAfter, r, ws[0]);
      assert ws[0].Sweep? ==> r1 == r;
      assert |ws| == 1 ==> ws[1..] == [];
      SteadyNeverFlipped(offlineAfter, r1, ws[1..]);
      NoBiteCons(offlineAfter, r, ws);
      assert AnyOnline(ws) <==> ws[0].SetOnline? || AnyOnline(ws[1..]) by {
        if AnyOnline(ws[1..]) {
          var i :| 0 <= i < |ws[1..]| && ws[1..][i].SetOnline?;
          assert ws[i + 1].SetOnline?;
        }
        if i :| 0 <= i < |ws| && ws[i].SetOnline? {
          assert i > 0 ==> ws[1..][i - 1].SetOnline?;
        }
      }
    }
  }

  // ----- silence is noticed -----

  /** Sweeps only: what lands after a site's last heartbeat write. */
  ghost predicate Silent(ws: seq<Write>) {
    forall i :: 0 <= i < |ws| ==> ws[i].Sweep?
  }

  /** In silence the site is offline exactly when some sweep's threshold was past the time last seen. */
  lemma {:induction false} SilentExact(offlineAfter: int, r: Row, ws: seq<Write>)
    requires Silent(ws) && r.status.Online? && r.lastSeen.Some?
    ensures After(offlineAfter, r, ws).status == Offline <==> exists i :: 0 <= i < |ws| && ws[i].taken > r.lastSeen.value + offlineAfter
    decreases |ws|
  {
    if ws != [] {
      var rest := ws[1..];
      assert forall i :: 0 <= i < |rest| ==> rest[i] == ws[i + 1];
      if Stale(r, ws[0].taken - offlineAfter) {
        OfflineStays(offlineAfter, Land(offlineAfter, r, ws[0]), rest);
      } else {
        SilentExact(offlineAfter, r, rest);
        if exists i :: 0 <= i < |ws| && ws[i].taken > r.lastSeen.value + offlineAfter {
          var i :| 0 <= i < |ws| && ws[i].taken > r.lastSeen.value + offlineAfter;
          assert rest[i - 1].taken > r.lastSeen.value + offlineAfter;
        }
      }
    }
  }

  lemma {:induction false} OfflineStays(offlineAfter: int, r: Row, ws: seq<Write>)
    requires Silent(ws) && r.status.Offline?
    ensures After(offlineAfter, r, ws) == r
    decreases |ws|
  {
    if ws != [] {
      OfflineStays(offlineAfter, r, ws[1..]);
    }
  }

  function Max(a: int, b: int): int {
    if a < b then b else a
  }

  /** Sweeps read the clock at most interval after an earlier one did, or after the sweeper began. */
  ghost predicate Paced(began: int, interval: int, ws: seq<Write>) {
    forall j :: 0 <= j < |ws| && ws[j].Sweep? ==> ws[j].taken <= began + interval || Follows(interval, ws, j)
  }

  ghost predicate Follows(interval: int, ws: seq<Write>, j: nat)
    requires j < |ws| && ws[j].Sweep?
  {
    exists i :: 0 <= i < j && ws[i].Sweep? && ws[j].taken <= ws[i].taken + interval
  }

  /** From write n on the site is silent: ws[n] is the last write that is no sweep, and leaves row x. */
  ghost predicate SilentFrom(offlineAfter: int, r: Row, ws: seq<Write>, n: nat, x: Row) {
    && n < |ws| && !ws[n].Sweep? && (forall i :: n < i < |ws| ==> ws[i].Sweep?)
    && x == After(offlineAfter, r, ws[..n + 1]) && x.status.Online? && x.lastSeen.Some?
  }

  /** The first sweep after write n whose reading is past due. */
  lemma FirstPast(ws: seq<Write>, n: nat, due: int, last: nat) returns (k: nat)
    requires n < last < |ws| && (forall i :: n < i < |ws| ==> ws[i].Sweep?) && ws[last].taken > due
    ensures n < k < |ws| && ws[k].taken > due && forall i :: n < i < k ==> ws[i].taken <= due
  {
    k := n + 1;
    while ws[k].taken <= due
      invariant n < k <= last && forall i :: n < i < k ==> ws[i].taken <= due
      decreases last - k
    {
      assert k != last;
      k := k + 1;
    }
  }

  /**
   The bound on detection. Let write n be the last heartbeat write of a run whose sweeps read the
   clock at most interval apart. Of the sweeps after it, one that read the clock within interval of
   the later of that write's landing and the time last seen plus offlineAfter finds the site stale
   or offline already; the site is offline from then on.
   */
  lemma DetectionBound(offlineAfter: int, interval: int, began: int, r: Row, ws: seq<Write>, n: nat, x: Row, last: nat)
      returns (k: nat)
    requires Timed(ws) && Paced(began, interval, ws) && SilentFrom(offlineAfter, r, ws, n, x) && began <= ws[n].at
    requires n < last < |ws| && ws[last].taken > Max(ws[n].at, x.lastSeen.value + offlineAfter)
    ensures n < k < |ws|
    ensures var due := Max(ws[n].at, x.lastSeen.value + offlineAfter); due < ws[k].taken <= due + interval
    ensures forall j :: k < j <= |ws| ==> After(offlineAfter, r, ws[..j]).status == Offline
  {
    var due := Max(ws[n].at, x.lastSeen.value + offlineAfter);
    k := FirstPast(ws, n, due, last);
    if ws[k].taken > began + interval {
      assert Follows(interval, ws, k);
      var i :| 0 <= i < k && ws[i].Sweep? && ws[k].taken <= ws[i].taken + interval;
      assert i < n ==> ws[i].taken <= ws[i].at <= ws[n].at;
    }
    hide Paced, Timed, After;
    forall j | k < j <= |ws| ensures After(offlineAfter, r, ws[..j]).status == Offline {
      OfflineFrom(offlineAfter, r, ws, n, x, k, j);
    }
  }

  lemma OfflineFrom(offlineAfter: int, r: Row, ws: seq<Write>, n: nat, x: Row, k: nat, j: nat)
    requires SilentFrom(offlineAfter, r, ws, n, x) && n < k < j <= |ws| && ws[k].taken > x.lastSeen.value + offlineAfter
    ensures After(offlineAfter, r, ws[..j]).status == Offline
  {
    hide After;
    var tail := ws[n + 1..j];
    assert ws[..j] == ws[..n + 1] + tail && tail[k - n - 1] == ws[k];
    AfterConcat(offlineAfter, r, ws[..n + 1], tail);
    SilentExact(offlineAfter, x, tail);
  }

  // ----- pending, and UpdateSite -----

  predicate SetsStatus(w: Write) {
    w.SetOnline? || w.Save?
  }

  ghost predicate StatusNeverSet(ws: seq<Write>) {
    forall i :: 0 <= i < |ws| ==> !SetsStatus(ws[i])
  }

  lemma {:induction false} NoStatusWrite(offlineAfter: int, r: Row, ws: seq<Write>)
    requires StatusNeverSet(ws)
    ensures After(offlineAfter, r, ws).status.Pending? <==> r.status.Pending?
    decreases |ws|
  {
    if ws != [] {
      NoStatusWrite(offlineAfter, Land(offlineAfter, r, ws[0]), ws[1..]);
    }
  }

  lemma {:induction false} AfterConcat(offlineAfter: int, r: Row, a: seq<Write>, b: seq<Write>)
    ensures After(offlineAfter, r, a + b) == After(offlineAfter, After(offlineAfter, r, a), b)
    decreases |a|
  {
    if a == [] {
      assert a + b == b;
    } else {
      assert (a + b)[1..] == a[1..] + b;
      AfterConcat(offlineAfter, Land(offlineAfter, r, a[0]), a[1..], b);
    }
  }

  /** ws[i] is the last write that sets the status outright. */
  ghost predicate LastStatus(ws: seq<Write>, i: nat) {
    i < |ws| && SetsStatus(ws[i]) && forall j :: i < j < |ws| ==> !SetsStatus(ws[j])
  }

  lemma {:induction false} FindLast(ws: seq<Write>) returns (k: nat)
    requires !StatusNeverSet(ws)
    ensures LastStatus(ws, k)
    decreases |ws|
  {
    k := |ws| - 1;
    if !SetsStatus(ws[k]) {
      var i :| 0 <= i < |ws| && SetsStatus(ws[i]);
      assert ws[..k][i] == ws[i];
      k := FindLast(ws[..k]);
      assert forall j :: 0 <= j < |ws| - 1 ==> ws[..|ws| - 1][j] == ws[j];
    }
  }

  /**
   Over all writes: a site is pending exactly when no status was ever set and it was pending
   before, or the last to set it was an update that had read it pending. So without updates
   pending is never entered again.
   */
  lemma PendingExact(offlineAfter: int, r: Row, ws: seq<Write>)
    ensures After(offlineAfter, r, ws).status.Pending? <==>
      (r.status.Pending? && StatusNeverSet(ws)) || exists i: nat :: LastStatus(ws, i) && ws[i].Save? && ws[i].copy.status.Pending?
  {
    if !StatusNeverSet(ws) {
      var k := FindLast(ws);
      assert ws == ws[..k] + ([ws[k]] + ws[k + 1..]);
      AfterConcat(offlineAfter, r, ws[..k], [ws[k]] + ws[k + 1..]);
      var before := After(offlineAfter, r, ws[..k]);
      assert ([ws[k]] + ws[k + 1..])[1..] == ws[k + 1..];
      assert StatusNeverSet(ws[k + 1..]) by {
        assert forall j :: k < j < |ws| ==> !SetsStatus(ws[j]);
      }
      NoStatusWrite(offlineAfter, Land(offlineAfter, before, ws[k]), ws[k + 1..]);
      forall i: nat | LastStatus(ws, i) ensures i == k {
      }
    } else {
      NoStatusWrite(offlineAfter, r, ws);
    }
  }

  // ----- the row, read off the writes -----

  /** The time the last heartbeat or update wrote. */
  function LastSeen(r: Row, ws: seq<Write>): Option<int> {
    if ws == [] then r.lastSeen
    else
      match ws[|ws| - 1]
      case Meta(_, seen) => Some(seen)
      case Save(_, copy) => copy.lastSeen
      case _ => LastSeen(r, ws[..|ws| - 1])
  }

  /** The status the last heartbeat or update wrote. */
  function LastSet(r: Row, ws: seq<Write>): Status {
    if ws == [] then r.status
    else
      match ws[|ws| - 1]
      case SetOnline(_) => Online
      case Save(_, copy) => copy.status
      case _ => LastSet(r, ws[..|ws| - 1])
  }

  /** Sweep j comes after the last write of a status, and its threshold is past the time last seen by then. */
  ghost predicate Overdue(offlineAfter: int, r: Row, ws: seq<Write>, j: nat) {
    && j < |ws| && ws[j].Sweep? && (forall i :: j < i < |ws| ==> !SetsStatus(ws[i]))
    && LastSeen(r, ws[..j]).Some? && LastSeen(r, ws[..j]).value < ws[j].taken - offlineAfter
  }

  ghost predicate AnyOverdue(offlineAfter: int, r: Row, ws: seq<Write>) {
    exists j :: Overdue(offlineAfter, r, ws, j)
  }

  lemma OverdueSnoc(offlineAfter: int, r: Row, ws: seq<Write>)
    requires ws != []
    ensures AnyOverdue(offlineAfter, r, ws) <==>
      Overdue(offlineAfter, r, ws, |ws| - 1) || (AnyOverdue(offlineAfter, r, ws[..|ws| - 1]) && !SetsStatus(ws[|ws| - 1]))
  {
    hide LastSeen;
    var front := ws[..|ws| - 1];
    forall j | 0 <= j < |front|
      ensures Overdue(offlineAfter, r, ws, j) <==> Overdue(offlineAfter, r, front, j) && !SetsStatus(ws[|ws| - 1])
    {
      assert front[..j] == ws[..j] && front[j] == ws[j];
      assert forall i :: j < i < |front| ==> front[i] == ws[i];
    }
  }

  lemma AfterSnoc(offlineAfter: int, r: Row, ws: seq<Write>)
    requires ws != []
    ensures After(offlineAfter, r, ws) == Land(offlineAfter, After(offlineAfter, r, ws[..|ws| - 1]), ws[|ws| - 1])
  {
    var front, last := ws[..|ws| - 1], [ws[|ws| - 1]];
    assert ws == front + last && last[1..] == [];
    AfterConcat(offlineAfter, r, front, last);
  }

  /** What is stored after any writes: the last time written, and the last status, which an overdue sweep turns offline. */
  lemma {:induction false} RowExact(offlineAfter: int, r: Row, ws: seq<Write>)
    ensures After(offlineAfter, r, ws).lastSeen == LastSeen(r, ws)
    ensures After(offlineAfter, r, ws).status ==
      if LastSet(r, ws).Online? && AnyOverdue(offlineAfter, r, ws) then Offline else LastSet(r, ws)
  {
    if ws != [] {
      RowExact(offlineAfter, r, ws[..|ws| - 1]);
      AfterSnoc(offlineAfter, r, ws);
      OverdueSnoc(offlineAfter, r, ws);
      hide After, AnyOverdue;
    }
  }

  /**
   An update leaves the liveness of its site alone exactly when, of the writes between its read and
   its save, the last to carry a time carries the one it read, and the last to set the status set
   the one it read: a heartbeat online, an overdue sweep after it offline, an update what it saves.
   */
  lemma UpdateExact(offlineAfter: int, r: Row, ws: seq<Write>, at: int)
    ensures After(offlineAfter, r, ws + [Save(at, r)]) == After(offlineAfter, r, ws) <==>
      && LastSeen(r, ws) == r.lastSeen
      && (if LastSet(r, ws).Online? && AnyOverdue(offlineAfter, r, ws) then r.status.Offline? else r.status == LastSet(r, ws))
  {
    RowExact(offlineAfter, r, ws);
    AfterConcat(offlineAfter, r, ws, [Save(at, r)]);
    assert [Save(at, r)][1..] == [];
    hide AnyOverdue, LastSeen, LastSet;
  }

  /** Of a pending site: exactly when no heartbeat set it online meanwhile, and the last, if any, carried the time it read. */
  lemma PendingUpdateExact(offlineAfter: int, r: Row, ws: seq<Write>, at: int)
    requires r.status.Pending? && NoSave(ws)
    ensures After(offlineAfter, r, ws + [Save(at, r)]) == After(offlineAfter, r, ws) <==>
      !AnyOnline(ws) && forall i: nat :: LastMeta(ws, i) ==> Some(ws[i].seen) == r.lastSeen
  {
    UpdateExact(offlineAfter, r, ws, at);
    SetByOnline(r, ws);
    SeenByMeta(r, ws);
    hide AnyOverdue, LastSeen, LastSet;
  }

  ghost predicate LastMeta(ws: seq<Write>, i: nat) {
    i < |ws| && ws[i].Meta? && forall j :: i < j < |ws| ==> !ws[j].Meta?
  }

  lemma {:induction false} SetByOnline(r: Row, ws: seq<Write>)
    requires NoSave(ws)
    ensures LastSet(r, ws) == if AnyOnline(ws) then Online else r.status
  {
    if ws != [] {
      var front := ws[..|ws| - 1];
      SetByOnline(r, front);
      assert AnyOnline(front) ==> AnyOnline(ws) by {
        if i :| 0 <= i < |front| && front[i].SetOnline? {
          assert ws[i].SetOnline?;
        }
      }
      assert AnyOnline(ws) ==> AnyOnline(front) || ws[|ws| - 1].SetOnline? by {
        if i :| 0 <= i < |ws| && ws[i].SetOnline? {
          assert i < |front| ==> front[i].SetOnline?;
        }
      }
    }
  }

  lemma {:induction false} SeenByMeta(r: Row, ws: seq<Write>)
    requires NoSave(ws)
    ensures forall i: nat :: LastMeta(ws, i) ==> LastSeen(r, ws) == Some(ws[i].seen)
    ensures (forall i: nat :: !LastMeta(ws, i)) ==> LastSeen(r, ws) == r.lastSeen
  {
    if ws != [] {
      var n := |ws| - 1;
      var front := ws[..n];
      SeenByMeta(r, front);
      if ws[n].Meta? {
        assert LastMeta(ws, n);
      } else {
        forall i: nat ensures LastMeta(ws, i) <==> LastMeta(front, i) {
          assert forall j :: 0 <= j < n ==> front[j] == ws[j];
        }
      }
    }
  }

  /** An update around a site's first heartbeat makes it pending again, and no sweep will ever call it offline. */
  lemma UpdateHidesFirstHeartbeat(offlineAfter: int, sweeps: seq<Write>)
    requires Silent(sweeps)
    ensures var ws := [Meta(1, 1), SetOnline(2), Save(3, Row(Pending, None))];
      After(offlineAfter, Row(Pending, None), ws + sweeps).status == Pending
  {
    var ws := [Meta(1, 1), SetOnline(2), Save(3, Row(Pending, None))];
    assert LastStatus(ws + sweeps, 2);
    PendingExact(offlineAfter, Row(Pending, None), ws + sweeps);
  }

  // ----- the sites table and the sweeper -----

  function StaleIds(rows: map<Id, Row>, threshold: int): set<Id> {
    set k | k in rows && Stale(rows[k], threshold)
  }

  /** Every site after a sweep, and after one sweep for each clock reading. */
  function SweepAll(rows: map<Id, Row>, threshold: int): map<Id, Row> {
    map k | k in rows :: if Stale(rows[k], threshold) then rows[k].(status := Offline) else rows[k]
  }

  function SweepsOf(clock: seq<int>): seq<Write> {
    seq(|clock|, i requires 0 <= i < |clock| => Sweep(clock[i], clock[i]))
  }

  class SiteTable {
    var rows: map<Id, Row>
    const next: Id

    ghost predicate Valid()
      reads this
    {
      forall k <- rows :: 1 <= k < next
    }

    constructor (rows: map<Id, Row>, next: Id)
      requires forall k <- rows :: 1 <= k < next
      ensures Valid() && this.rows == rows && this.next == next
    {
      this.rows, this.next := rows, next;
    }

    /** now is read before the statement runs; a missing site is no error. */
    method UpdateAgentMeta(site: Id, now: int, ghost at: int, ghost offlineAfter: int)
      requires Valid()
      modifies this
      ensures Valid()
      ensures rows == if site in old(rows) then old(rows)[site := Land(offlineAfter, old(rows)[site], Meta(at, now))] else old(rows)
    {
      if site in rows {
        rows := rows[site := rows[site].(lastSeen := Some(now))];
      }
    }

    method SetStatusOnline(site: Id, ghost at: int, ghost offlineAfter: int)
      requires Valid()
      modifies this
      ensures Valid()
      ensures rows == if site in old(rows) then old(rows)[site := Land(offlineAfter, old(rows)[site], SetOnline(at))] else old(rows)
    {
      if site in rows {
        rows := rows[site := rows[site].(status := Online)];
      }
    }

    /** Returns the number of rows it changed. */
    method MarkStaleOffline(threshold: int) returns (n: nat)
      requires Valid()
      modifies this
      ensures Valid()
      ensures rows == SweepAll(old(rows), threshold) && n == |StaleIds(old(rows), threshold)|
    {
      n := 0;
      ghost var done: set<Id> := {};
      var k := 1;
      while k < next
        invariant 1 <= k && Valid() && rows.Keys == old(rows.Keys)
        invariant forall j <- rows :: rows[j] == if j < k then SweepAll(old(rows), threshold)[j] else old(rows)[j]
        invariant done == (set j | j in old(rows) && Stale(old(rows)[j], threshold) && j < k) && n == |done|
      {
        if k in rows && Stale(rows[k], threshold) {
          rows := rows[k := rows[k].(status := Offline)];
          done := done + {k};
          n := n + 1;
        }
        k := k + 1;
      }
      assert done == StaleIds(old(rows), threshold);
    }

    /** clock holds the time read at each tick; a zero interval or threshold turns the sweeper off. */
    method RunSweeper(interval: int, offlineAfter: int, clock: seq<int>)
      requires Valid()
      modifies this
      ensures Valid() && rows.Keys == old(rows.Keys)
      ensures forall k <- rows ::
        rows[k] == if interval <= 0 || offlineAfter <= 0 then old(rows)[k] else After(offlineAfter, old(rows)[k], SweepsOf(clock))
    {
      if interval <= 0 || offlineAfter <= 0 {
        return;
      }
      assert SweepsOf(clock[..0]) == [];
      for i := 0 to |clock|
        invariant Valid() && rows.Keys == old(rows.Keys)
        invariant forall k <- rows :: rows[k] == After(offlineAfter, old(rows)[k], SweepsOf(clock[..i]))
      {
        var n := MarkStaleOffline(clock[i] - offlineAfter);
        OneMore(offlineAfter, old(rows), clock, i);
      }
      assert clock[..|clock|] == clock;
    }
  }

  predicate SweptOnce(offlineAfter: int, r: Row, clock: seq<int>, i: nat)
    requires i < |clock|
  {
    After(offlineAfter, r, SweepsOf(clock[..i + 1])) ==
    Land(offlineAfter, After(offlineAfter, r, SweepsOf(clock[..i])), Sweep(clock[i], clock[i]))
  }

  lemma OneMore(offlineAfter: int, rows: map<Id, Row>, clock: seq<int>, i: nat)
    requires i < |clock|
    ensures forall k <- rows :: SweptOnce(offlineAfter, rows[k], clock, i)
  {
    var last := [Sweep(clock[i], clock[i])];
    assert SweepsOf(clock[..i + 1]) == SweepsOf(clock[..i]) + last;
    assert last[1..] == [];
    forall k | k in rows ensures SweptOnce(offlineAfter, rows[k], clock, i) {
      AfterConcat(offlineAfter, rows[k], SweepsOf(clock[..i]), last);
    }
  }
}
