/**
 Crash-loop alerts: a sliding window of exit times per project that keeps only what it still
 needs, against a detector that keeps the whole history.
 */
module CrashLoop {
  import opened Wrappers

  /** The times strictly inside the window, in order. */
  function Recent(ts: seq<int>, cutoff: int): (r: seq<int>)
    ensures |r| <= |ts|
  {
    if ts == [] then []
    else Recent(ts[..|ts| - 1], cutoff) + (if ts[|ts| - 1] > cutoff then [ts[|ts| - 1]] else [])
  }

  /** One exit at time now on the stored window of its project: what is stored, and the alert. */
  function Next(stored: seq<int>, now: int, threshold: int, window: int): (seq<int>, Option<nat>) {
    var recent := Recent(stored, now - window) + [now];
    if |recent| >= threshold then ([], Some(|recent|)) else (recent, None)
  }

  function Lookup(m: map<string, seq<int>>, k: string): seq<int> {
    if k in m then m[k] else []
  }

  class CrashLoop {
    const threshold: int
    const window: int
    var events: map<string, seq<int>>

    constructor (threshold: int, window: int)
      ensures this.threshold == threshold && this.window == (if window <= 0 then 60_000_000_000 else window)
      ensures events == map[]
    {
      this.threshold := threshold;
      this.window := if window <= 0 then 60_000_000_000 else window;
      events := map[];
    }

    /** Record one exit; the result is the crash count of the alert, if one fires. */
    method Record(project: string, now: int) returns (fired: Option<nat>)
      modifies this
      ensures threshold <= 0 ==> fired == None && events == old(events)
      ensures threshold > 0 ==>
        var n := Next(Lookup(old(events), project), now, threshold, window);
        events == old(events)[project := n.0] && fired == n.1
    {
      if threshold <= 0 {
        return None;
      }
      var cutoff := now - window;
      var prev := Lookup(events, project);
      var recent: seq<int> := [];
      for i := 0 to |prev|
        invariant recent == Recent(prev[..i], cutoff)
      {
        assert prev[..i + 1][..i] == prev[..i];
        if prev[i] > cutoff {
          recent := recent + [prev[i]];
        }
      }
      assert prev[..|prev|] == prev;
      recent := recent + [now];
      if |recent| >= threshold {
        events := events[project := []];
        return Some(|recent|);
      }
      events := events[project := recent];
      return None;
    }
  }

  // ----- the whole history of one project -----

  /** What is stored after the exits ts, in order. */
  function Replay(ts: seq<int>, threshold: int, window: int): seq<int> {
    if ts == [] then [] else Next(Replay(ts[..|ts| - 1], threshold, window), ts[|ts| - 1], threshold, window).0
  }

  /** The alert raised by the last exit of ts, if any. */
  function Alert(ts: seq<int>, threshold: int, window: int): Option<nat>
    requires ts != []
  {
    Next(Replay(ts[..|ts| - 1], threshold, window), ts[|ts| - 1], threshold, window).1
  }

  function Fires(ts: seq<int>, threshold: int, window: int): nat {
    if ts == [] then 0
    else Fires(ts[..|ts| - 1], threshold, window) + (if Alert(ts, threshold, window).Some? then 1 else 0)
  }

  /** Exits dropped from the window because they had become too old. */
  function Expired(ts: seq<int>, threshold: int, window: int): nat {
    if ts == [] then 0
    else
      var stored := Replay(ts[..|ts| - 1], threshold, window);
      Expired(ts[..|ts| - 1], threshold, window) + |stored| - |Recent(stored, ts[|ts| - 1] - window)|
  }

  // ----- the detector that forgets nothing -----

  /** The number of exits of ts, from index from on, that lie strictly inside the window ending at now. */
  function InWindow(ts: seq<int>, from: nat, now: int, window: int): nat {
    if |ts| <= from then 0
    else InWindow(ts[..|ts| - 1], from, now, window) + (if ts[|ts| - 1] > now - window then 1 else 0)
  }

  /** Up to and including which exit everything has been accounted for by an alert. */
  function LastAlert(ts: seq<int>, threshold: int, window: int): (n: nat)
    ensures n <= |ts|
    decreases |ts|, 2
  {
    if ts == [] then 0
    else if ShouldAlert(ts, threshold, window) then |ts|
    else LastAlert(ts[..|ts| - 1], threshold, window)
  }

  /** At least threshold exits since the last alert lie inside the window that ends now. */
  predicate ShouldAlert(ts: seq<int>, threshold: int, window: int)
    requires ts != []
    decreases |ts|, 1
  {
    InWindow(ts, LastAlertBefore(ts, threshold, window), ts[|ts| - 1], window) >= threshold
  }

  function LastAlertBefore(ts: seq<int>, threshold: int, window: int): (n: nat)
    requires ts != []
    ensures n < |ts|
    decreases |ts|, 0
  {
    LastAlert(ts[..|ts| - 1], threshold, window)
  }

  predicate Sorted(ts: seq<int>) {
    forall i, j :: 0 <= i < j < |ts| ==> ts[i] <= ts[j]
  }

  lemma RecentLast(ts: seq<int>, x: int, c: int)
    ensures Recent(ts + [x], c) == Recent(ts, c) + (if x > c then [x] else [])
  {
    assert (ts + [x])[..|ts|] == ts;
  }

  lemma {:induction false} RecentTwice(ts: seq<int>, c: int, d: int)
    requires c <= d
    ensures Recent(Recent(ts, c), d) == Recent(ts, d)
  {
    if ts != [] {
      var front, x := ts[..|ts| - 1], ts[|ts| - 1];
      RecentTwice(front, c, d);
      assert ts == front + [x];
      if x > c {
        RecentLast(Recent(front, c), x, d);
      } else {
        assert Recent(ts, c) == Recent(front, c);
        assert Recent(ts, d) == Recent(front, d);
      }
    }
  }

  lemma {:induction false} InWindowCounts(ts: seq<int>, from: nat, now: int, window: int)
    requires from <= |ts|
    ensures InWindow(ts, from, now, window) == |Recent(ts[from..], now - window)|
  {
    if from < |ts| {
      var front := ts[..|ts| - 1];
      InWindowCounts(front, from, now, window);
      RecentLast(front[from..], ts[|ts| - 1], now - window);
      assert ts[from..] == front[from..] + [ts[|ts| - 1]];
    }
  }

  /** The pruned list is exactly the part of the history the full detector still looks at. */
  lemma {:induction false} ReplayIsRecent(ts: seq<int>, threshold: int, window: int)
    requires Sorted(ts) && threshold > 0 && window > 0 && ts != []
    ensures Replay(ts, threshold, window)
         == Recent(ts[LastAlert(ts, threshold, window)..], ts[|ts| - 1] - window)
    ensures Alert(ts, threshold, window).Some? <==> ShouldAlert(ts, threshold, window)
    decreases |ts|, 1
  {
    hide Recent, InWindow;
    NowRecent(ts, threshold, window);
    if ShouldAlert(ts, threshold, window) {
      assert ts[|ts|..] == [];
      NothingRecent(ts[|ts| - 1] - window);
    }
  }

  lemma NothingRecent(cutoff: int)
    ensures Recent([], cutoff) == []
  {
  }

  /** What Record sees at its last exit is what the full detector counts. */
  lemma {:induction false} NowRecent(ts: seq<int>, threshold: int, window: int)
    requires Sorted(ts) && threshold > 0 && window > 0 && ts != []
    ensures var from, now := LastAlertBefore(ts, threshold, window), ts[|ts| - 1];
      && Recent(Replay(ts[..|ts| - 1], threshold, window), now - window) + [now] == Recent(ts[from..], now - window)
      && InWindow(ts, from, now, window) == |Recent(ts[from..], now - window)|
    decreases |ts|, 0
  {
    var front, now := ts[..|ts| - 1], ts[|ts| - 1];
    StoredMatches(ts, threshold, window);
    hide *;
    OneMoreExit(Replay(front, threshold, window), front, now, LastAlertBefore(ts, threshold, window), window);
    assert ts == front + [now];
  }

  lemma OneMoreExit(stored: seq<int>, front: seq<int>, now: int, from: nat, window: int)
    requires window > 0 && from <= |front| && Recent(stored, now - window) == Recent(front[from..], now - window)
    ensures Recent(stored, now - window) + [now] == Recent((front + [now])[from..], now - window)
    ensures InWindow(front + [now], from, now, window) == |Recent((front + [now])[from..], now - window)|
  {
    RecentLast(front[from..], now, now - window);
    InWindowCounts(front + [now], from, now, window);
    hide *;
    assert (front + [now])[from..] == front[from..] + [now];
  }

  /** What pruning has thrown away would be thrown away by any later cutoff too. */
  lemma {:induction false} StoredMatches(ts: seq<int>, threshold: int, window: int)
    requires Sorted(ts) && threshold > 0 && window > 0 && ts != []
    ensures var front, cutoff := ts[..|ts| - 1], ts[|ts| - 1] - window;
      Recent(Replay(front, threshold, window), cutoff)
        == Recent(front[LastAlertBefore(ts, threshold, window)..], cutoff)
    decreases |ts| - 1, 2
  {
    var front := ts[..|ts| - 1];
    PrefixSorted(ts);
    if front != [] {
      hide *;
      ReplayIsRecent(front, threshold, window);
      LastOfPrefix(ts, threshold, window);
      RecentTwice(front[LastAlert(front, threshold, window)..], front[|front| - 1] - window, ts[|ts| - 1] - window);
    }
  }

  lemma PrefixSorted(ts: seq<int>)
    requires Sorted(ts) && ts != []
    ensures Sorted(ts[..|ts| - 1])
    ensures |ts| > 1 ==> ts[..|ts| - 1][|ts| - 2] <= ts[|ts| - 1]
  {
  }

  lemma LastOfPrefix(ts: seq<int>, threshold: int, window: int)
    requires ts != []
    ensures LastAlertBefore(ts, threshold, window) == LastAlert(ts[..|ts| - 1], threshold, window)
  {
  }

  /** The window never holds threshold exits, so an alert always reports exactly threshold. */
  lemma {:induction false} StoredBelowThreshold(ts: seq<int>, threshold: int, window: int)
    requires threshold > 0
    ensures |Replay(ts, threshold, window)| < threshold
    ensures ts != [] && Alert(ts, threshold, window).Some? ==> Alert(ts, threshold, window) == Some(threshold)
  {
    if ts != [] {
      StoredBelowThreshold(ts[..|ts| - 1], threshold, window);
    }
  }

  /** Every exit is in exactly one alert, or has expired, or is still stored. */
  lemma {:induction false} ExitsConserved(ts: seq<int>, threshold: int, window: int)
    requires threshold > 0
    ensures |ts| == threshold * Fires(ts, threshold, window) + Expired(ts, threshold, window)
                    + |Replay(ts, threshold, window)|
  {
    if ts != [] {
      var front := ts[..|ts| - 1];
      ExitsConserved(front, threshold, window);
      StoredBelowThreshold(ts, threshold, window);
      var stored := Replay(front, threshold, window);
      var kept := Recent(stored, ts[|ts| - 1] - window);
      assert Expired(ts, threshold, window) == Expired(front, threshold, window) + |stored| - |kept|;
      hide Recent;
      if Alert(ts, threshold, window).Some? {
        OneMore(threshold, Fires(front, threshold, window));
      }
    }
  }

  lemma {:induction false} ExpiredGrow(ts: seq<int>, more: seq<int>, threshold: int, window: int)
    ensures Expired(ts, threshold, window) <= Expired(ts + more, threshold, window)
  {
    if more == [] {
      assert ts + more == ts;
    } else {
      assert (ts + more)[..|ts + more| - 1] == ts + more[..|more| - 1];
      ExpiredGrow(ts, more[..|more| - 1], threshold, window);
    }
  }

  /** From any state of the detector, further alerts are paid for by what was stored and the further exits. */
  lemma MoreAlerts(ts: seq<int>, more: seq<int>, threshold: int, window: int)
    requires threshold > 0
    ensures threshold * (Fires(ts + more, threshold, window) - Fires(ts, threshold, window))
         <= |Replay(ts, threshold, window)| + |more|
  {
    ExitsConserved(ts, threshold, window);
    ExitsConserved(ts + more, threshold, window);
    ExpiredGrow(ts, more, threshold, window);
    hide *;
    Distributes(threshold, Fires(ts + more, threshold, window), Fires(ts, threshold, window));
  }

  lemma Distributes(a: int, m: int, n: int)
    ensures a * (m - n) == a * m - a * n
  {
  }

  lemma OneMore(a: int, n: nat)
    ensures a * (n + 1) == a * n + a
  {
  }

  /**
   With a clock that never goes back, Record alerts at exactly the exits at which a detector
   that keeps every exit would: at least threshold exits since the last alert inside the
   window that is open at its far end.
   */
  lemma RecordRefinesFullHistory(ts: seq<int>, threshold: int, window: int)
    requires Sorted(ts) && threshold > 0 && window > 0 && ts != []
    ensures Alert(ts, threshold, window) == if ShouldAlert(ts, threshold, window) then Some(threshold) else None
  {
    ReplayIsRecent(ts, threshold, window);
    StoredBelowThreshold(ts, threshold, window);
  }

  // ----- many projects -----

  datatype Exit = Exit(project: string, time: int)

  function TimesOf(es: seq<Exit>, project: string): seq<int> {
    if es == [] then []
    else
      var e := es[|es| - 1];
      TimesOf(es[..|es| - 1], project) + (if e.project == project then [e.time] else [])
  }

  /** The events map after the exits es, as Record leaves it. */
  function EventsAfter(es: seq<Exit>, threshold: int, window: int): map<string, seq<int>> {
    if es == [] then map[]
    else
      var m := EventsAfter(es[..|es| - 1], threshold, window);
      var e := es[|es| - 1];
      m[e.project := Next(Lookup(m, e.project), e.time, threshold, window).0]
  }

  /** Projects do not disturb each other: each sees the detector of its own exits alone. */
  lemma {:induction false} ProjectsIndependent(es: seq<Exit>, project: string, threshold: int, window: int)
    ensures Lookup(EventsAfter(es, threshold, window), project) == Replay(TimesOf(es, project), threshold, window)
  {
    if es != [] {
      var front, e := es[..|es| - 1], es[|es| - 1];
      ProjectsIndependent(front, project, threshold, window);
      if e.project == project {
        var ts := TimesOf(front, project) + [e.time];
        assert ts[..|ts| - 1] == TimesOf(front, project);
      } else {
        assert TimesOf(es, project) == TimesOf(front, project);
      }
    }
  }

  // ----- a fast crash loop is noticed -----

  predicate Dense(ts: seq<int>, gap: int) {
    forall i :: 0 < i < |ts| ==> ts[i] - ts[i - 1] <= gap
  }

  lemma {:induction false} DenseSpan(ts: seq<int>, gap: int, i: nat, j: nat)
    requires Dense(ts, gap) && i <= j < |ts|
    ensures ts[j] - ts[i] <= (j - i) * gap
    decreases j
  {
    if i < j {
      DenseSpan(ts, gap, i, j - 1);
      assert (j - i) * gap == (j - 1 - i) * gap + gap;
    }
  }

  /** Everything within the last n exits of a dense history is still inside the window. */
  lemma {:induction false} DenseInWindow(ts: seq<int>, from: nat, now: int, window: int)
    requires from <= |ts| && forall i :: from <= i < |ts| ==> ts[i] > now - window
    ensures InWindow(ts, from, now, window) == |ts| - from
  {
    if from < |ts| {
      DenseInWindow(ts[..|ts| - 1], from, now, window);
    }
  }

  lemma {:induction false} FiresGrow(ts: seq<int>, more: seq<int>, threshold: int, window: int)
    ensures Fires(ts, threshold, window) <= Fires(ts + more, threshold, window)
  {
    if more == [] {
      assert ts + more == ts;
    } else {
      assert (ts + more)[..|ts + more| - 1] == ts + more[..|more| - 1];
      FiresGrow(ts, more[..|more| - 1], threshold, window);
    }
  }

  lemma {:induction false} NoFireKeepsLast(ts: seq<int>, more: seq<int>, threshold: int, window: int)
    requires Sorted(ts + more) && threshold > 0 && window > 0
    requires Fires(ts + more, threshold, window) == Fires(ts, threshold, window)
    ensures LastAlert(ts + more, threshold, window) == LastAlert(ts, threshold, window)
  {
    if more == [] {
      assert ts + more == ts;
    } else {
      var all, front := ts + more, more[..|more| - 1];
      assert all[..|all| - 1] == ts + front;
      FiresGrow(ts, front, threshold, window);
      ReplayIsRecent(all, threshold, window);
      PrefixSorted(all);
      hide Sorted, Recent, Replay, InWindow, Next, ShouldAlert;
      assert Fires(all, threshold, window) == Fires(ts + front, threshold, window) && Alert(all, threshold, window).None?;
      NoFireKeepsLast(ts, front, threshold, window);
      assert LastAlert(all, threshold, window) == LastAlert(ts + front, threshold, window);
    }
  }

  lemma DenseStaysInWindow(more: seq<int>, gap: int, window: int, i: nat)
    requires Sorted(more) && Dense(more, gap) && i < |more| && (|more| - 1) * gap < window && window > 0
    ensures more[i] > more[|more| - 1] - window
  {
    DenseSpan(more, gap, i, |more| - 1);
    SpanFits(|more| - 1 - i, |more| - 1, gap, more[|more| - 1] - more[i], window);
  }

  /** A dense run of exits lies inside the window of its last one, whichever alert came before it. */
  lemma AllCounted(ts: seq<int>, more: seq<int>, gap: int, from: nat, window: int)
    requires Sorted(ts + more) && Dense(more, gap) && more != [] && from <= |ts|
    requires (|more| - 1) * gap < window && window > 0
    ensures var all := ts + more; InWindow(all, from, all[|all| - 1], window) >= |more|
  {
    var all := ts + more;
    SortedTail(ts, more);
    forall i | |ts| <= i < |all| ensures all[i] > all[|all| - 1] - window {
      DenseStaysInWindow(more, gap, window, i - |ts|);
    }
    hide Sorted, Dense, InWindow;
    DenseInWindow(all, |ts|, all[|all| - 1], window);
    InWindowFrom(all, from, |ts|, all[|all| - 1], window);
  }

  /**
   Whatever came before, threshold further exits at most gap apart raise an alert, provided
   (threshold - 1) gaps fit inside the window.
   */
  lemma FastLoopAlerts(ts: seq<int>, more: seq<int>, gap: int, threshold: int, window: int)
    requires Sorted(ts + more) && Dense(more, gap) && threshold > 0 && window > 0
    requires |more| == threshold && (threshold - 1) * gap < window
    ensures Fires(ts + more, threshold, window) > Fires(ts, threshold, window)
  {
    var all := ts + more;
    var front := more[..|more| - 1];
    assert all[..|all| - 1] == ts + front;
    assert Sorted(ts + front) by {
      PrefixSorted(all);
    }
    hide Sorted, Dense, InWindow, LastAlert, Recent, Replay, Next, Alert;
    FiresGrow(ts, front, threshold, window);
    if Fires(ts + front, threshold, window) == Fires(ts, threshold, window) {
      NoFireKeepsLast(ts, front, threshold, window);
      AllCounted(ts, more, gap, LastAlert(ts, threshold, window), window);
      assert ShouldAlert(all, threshold, window);
      ReplayIsRecent(all, threshold, window);
    }
  }

  lemma SortedTail(a: seq<int>, b: seq<int>)
    requires Sorted(a + b)
    ensures Sorted(b)
  {
    forall i, j | 0 <= i < j < |b| ensures b[i] <= b[j] {
      assert (a + b)[|a| + i] <= (a + b)[|a| + j];
    }
  }

  lemma SpanFits(k: nat, n: nat, gap: int, span: int, window: int)
    requires k <= n && span <= k * gap && n * gap < window && window > 0
    ensures span < window
  {
    if gap >= 0 {
      assert k * gap <= n * gap;
    } else {
      assert k * gap <= 0;
    }
  }

  lemma {:induction false} InWindowFrom(ts: seq<int>, from: nat, later: nat, now: int, window: int)
    requires from <= later <= |ts|
    ensures InWindow(ts, from, now, window) >= InWindow(ts, later, now, window)
  {
    if later < |ts| {
      InWindowFrom(ts[..|ts| - 1], from, later, now, window);
    }
  }
}
