/** Supervisor and crash-loop detector together: every exit of the restart loop is recorded. */
module Alerts {
  import opened Supervisor
  import opened CrashLoop

  /** The exits of one supervisor come in order, so its clock suits the detector. */
  lemma {:induction false} ExitsAreSorted(l: Loop, rs: seq<Round>)
    requires l.backoff >= 0
    ensures Sorted(ExitTimes(l, rs))
    ensures forall t <- ExitTimes(l, rs) :: t >= l.elapsed
    decreases |rs|
  {
    if rs != [] {
      var next := NextLoop(l, rs[0]);
      ExitsAreSorted(next, rs[1..]);
      var ts, rest := ExitTimes(l, rs), ExitTimes(next, rs[1..]);
      if ts != rest {
        assert forall j | 1 <= j < |ts| :: ts[j] == rest[j - 1] && rest[j - 1] in rest;
      }
    }
  }

  /** The loop of a supervisor whose Run begins at time t. */
  function StartAt(t: int): Loop {
    START.(elapsed := t)
  }

  lemma {:induction false} LaterStart(l: Loop, t: int, rs: seq<Round>)
    ensures LoopAfter(l.(elapsed := l.elapsed + t), rs) == LoopAfter(l, rs).(elapsed := LoopAfter(l, rs).elapsed + t)
    decreases |rs|
  {
    if rs != [] {
      LaterStart(NextLoop(l, rs[0]), t, rs[1..]);
    }
  }

  /**
   One supervisor run, whatever earlier supervisors of the project left in the detector: with T the
   time spent in Run (in nanoseconds), its alerts * threshold is at most (5T + 300 s) / 91 s + 1
   plus the exits stored when it began, of which there are fewer than threshold.
   */
  lemma AlertRate(ts: seq<int>, t: int, rs: seq<Round>, threshold: int, window: int)
    requires threshold > 0
    ensures var alerts := Fires(ts + ExitTimes(StartAt(t), rs), threshold, window) - Fires(ts, threshold, window);
            var stored := |Replay(ts, threshold, window)|;
      && stored < threshold
      && 91 * SECOND * (threshold * alerts - stored - 1) <= 5 * (LoopAfter(StartAt(t), rs).elapsed - t) + 300 * SECOND
  {
    hide LoopAfter, ExitTimes, Fires, Replay, OnLadder;
    var more := ExitTimes(StartAt(t), rs);
    LaterStart(START, t, rs);
    RestartRate(rs);
    ExitsCounted(StartAt(t), rs);
    StoredBelowThreshold(ts, threshold, window);
    MoreAlerts(ts, more, threshold, window);
    RateOf(threshold * (Fires(ts + more, threshold, window) - Fires(ts, threshold, window)),
           |Replay(ts, threshold, window)|, LoopAfter(START, rs).waits, LoopAfter(START, rs).elapsed);
  }

  lemma RateOf(paid: int, stored: int, waits: int, spent: int)
    requires paid <= stored + waits + 1 && 5 * spent >= 91 * SECOND * waits - 300 * SECOND
    ensures 91 * SECOND * (paid - stored - 1) <= 5 * spent + 300 * SECOND
  {
  }

  /** Rounds in which every child dies young: each exit follows the last within cap + life + lag. */
  predicate Dying(rs: seq<Round>, life: nat, lag: nat) {
    forall r <- rs :: !r.cancelledBefore && !r.cancelledAfter && r.timerFires && r.ran <= life && r.extra <= lag
  }

  lemma {:induction false} DyingIsDense(l: Loop, rs: seq<Round>, life: nat, lag: nat)
    requires Dying(rs, life, lag) && !l.ended && SECOND <= l.backoff <= MAX_BACKOFF
    ensures |ExitTimes(l, rs)| == |rs|
    ensures Dense(ExitTimes(l, rs), MAX_BACKOFF + life + lag)
    ensures rs != [] ==> ExitTimes(l, rs)[0] == l.elapsed + rs[0].ran
    decreases |rs|
  {
    if rs != [] {
      DyingIsDense(NextLoop(l, rs[0]), rs[1..], life, lag);
    }
  }

  lemma SortedTogether(a: seq<int>, b: seq<int>, t: int)
    requires Sorted(a) && Sorted(b) && (forall x <- a :: x <= t) && (forall x <- b :: x >= t)
    ensures Sorted(a + b)
  {
    forall i, j | 0 <= i < j < |a + b| ensures (a + b)[i] <= (a + b)[j] {
      assert i < |a| ==> a[i] in a;
      assert j >= |a| ==> b[j - |a|] in b;
    }
  }

  /**
   Whatever earlier supervisors of the project left in the detector, a child that never lives
   longer than life is reported within the first threshold exits whenever threshold - 1 of the
   longest possible gaps fit inside the window.
   */
  lemma CrashLoopIsReported(ts: seq<int>, t: int, rs: seq<Round>, life: nat, lag: nat, threshold: int, window: int)
    requires Sorted(ts) && forall x <- ts :: x <= t
    requires Dying(rs, life, lag) && threshold > 0 && window > 0 && |rs| == threshold
    requires (threshold - 1) * (MAX_BACKOFF + life + lag) < window
    ensures Fires(ts + ExitTimes(StartAt(t), rs), threshold, window) > Fires(ts, threshold, window)
  {
    ExitsAreSorted(StartAt(t), rs);
    DyingIsDense(StartAt(t), rs, life, lag);
    SortedTogether(ts, ExitTimes(StartAt(t), rs), t);
    FastLoopAlerts(ts, ExitTimes(StartAt(t), rs), MAX_BACKOFF + life + lag, threshold, window);
  }
}
