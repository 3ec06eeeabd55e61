/**
 The wait group's own rule: a counter at zero may not be raised while somebody is inside Wait.
 A spawn enters the table before it counts itself, so a Stop can be waiting when its wg.Add
 comes. These lemmas say exactly when the counter can be raised from zero under a Stop that has
 waited on it.
 */
module RelayWaitGroup {
  import opened Wrappers
  import opened RelayProtocol
  import opened RelayInvariant
  import opened RelayTheorems
  import opened RelayLiveness
  import opened RelayLimits

  /** Call c is paused between its insertion and its wg.Add. */
  predicate Counting(s: State, c: CallId) {
    c in s.calls && s.calls[c].AddCount?
  }

  predicate Waiting(s: State, t: CallId) {
    t in s.calls && s.calls[t] == StopWait
  }

  /** Stop t has waited on a raised counter, it has come down, and call c is about to raise it again before t returns. */
  ghost predicate Reuse(s: State, es: seq<Event>, t: CallId, c: CallId) {
    Waiting(s, t) && s.wg > 0 && IsRun(s, es) && Waiting(After(s, es), t) && After(s, es).wg == 0 && Counting(After(s, es), c)
  }

  // ----- calls about to count only get fewer -----

  lemma CountingBefore(s: State, e: Event, c: CallId)
    requires Enabled(s, e) && s.closed && Counting(Apply(s, e), c)
    ensures Counting(s, c)
  {
    hide NextSups, NextSlots, RenderedSups, AllIn;
  }

  lemma {:induction false} CountingBeforeRun(s: State, es: seq<Event>, c: CallId)
    requires IsRun(s, es) && s.closed && Counting(After(s, es), c)
    ensures Counting(s, c)
    decreases |es|
  {
    hide Apply, Enabled, Counting;
    if es != [] {
      ClosedStays(s, es[0]);
      CountingBeforeRun(Apply(s, es[0]), es[1..], c);
      CountingBefore(s, es[0], c);
    }
  }

  /** Only a spawn that counts itself raises the counter. */
  lemma RaisedBy(s: State, e: Event)
    requires Enabled(s, e) && Apply(s, e).wg > s.wg
    ensures e.Advance? && Counting(s, e.t) && !Counting(Apply(s, e), e.t)
  {
    hide NextSups, NextSlots, RenderedSups, AllIn;
  }

  lemma {:induction false} RaisedInRun(s: State, es: seq<Event>) returns (c: CallId)
    requires IsRun(s, es) && s.closed && After(s, es).wg > s.wg
    ensures Counting(s, c) && !Counting(After(s, es), c)
    decreases |es|
  {
    hide Apply, Enabled, Counting;
    var s' := Apply(s, es[0]);
    ClosedStays(s, es[0]);
    if s'.wg > s.wg {
      RaisedBy(s, es[0]);
      c := es[0].t;
      if Counting(After(s', es[1..]), c) {
        CountingBeforeRun(s', es[1..], c);
      }
    } else {
      c := RaisedInRun(s', es[1..]);
      CountingBefore(s, es[0], c);
    }
  }

  // ----- a Stop that waits -----

  lemma CountingStays(s: State, s': State, c: CallId) returns (d: CallId)
    requires Inv(s) && Inv(s') && Counting(s, c)
    requires forall u <- s.sups | !InWaitGroup(s.sups[u].pc) :: u in s'.sups && s'.sups[u] == s.sups[u]
    ensures Counting(s', d)
  {
    CallOkOf(s, c);
    var u := s.calls[c].u;
    d :| BuiltBy(s', d, u);
    CallOkOf(s', d);
  }

  /** A waiting Stop can see the counter raised from zero exactly when some spawn has yet to count itself. */
  lemma WaitReuseExact(s: State, t: CallId)
    requires Reachable(s) && Waiting(s, t) && s.wg > 0
    ensures (exists es, c :: Reuse(s, es, t, c)) <==> exists c :: Counting(s, c)
  {
    ReachableInv(s);
    CallOkOf(s, t);
    hide Inv, Counting;
    if c :| Counting(s, c) {
      var es, d := DrainUnder(s, t, c);
    }
    if es, c :| Reuse(s, es, t, c) {
      CountingBeforeRun(s, es, c);
    }
  }

  lemma DrainUnder(s: State, t: CallId, c: CallId) returns (es: seq<Event>, d: CallId)
    requires Inv(s) && s.closed && Waiting(s, t) && s.wg > 0 && Counting(s, c)
    ensures Reuse(s, es, t, d)
  {
    hide Inv, Counting, InWaitGroup;
    es := Drain(s);
    InvAlways(s, es);
    d := CountingStays(s, After(s, es), c);
  }

  // ----- from the moment a Stop takes the table -----

  /** Some run from s on leads to such a reuse under Stop t. */
  ghost predicate ReuseAhead(s: State, t: CallId) {
    exists es :: IsRun(s, es) && exists more, c :: Reuse(After(s, es), more, t, c)
  }

  lemma CountStep(s: State, c: CallId)
    requires Inv(s) && Counting(s, c)
    ensures Enabled(s, Advance(c)) && Inv(Apply(s, Advance(c)))
    ensures Apply(s, Advance(c)).wg == s.wg + 1
    ensures forall d :: d != c && d in s.calls ==> d in Apply(s, Advance(c)).calls && Apply(s, Advance(c)).calls[d] == s.calls[d]
  {
    InvKept(s, Advance(c));
    hide Inv, NextSups, NextSlots;
  }

  lemma TakeStep(s: State, t: CallId)
    requires CanAdvance(s, t) && s.calls[t].StopTake?
    ensures var s' := AdvanceCall(s, t);
      && s'.closed && s'.wg == s.wg && t in s'.calls && s'.calls[t].StopCancel?
      && forall c :: Counting(s', c) <==> Counting(s, c)
  {
    hide NextSups, NextSlots, AllIn;
  }

  /** The counter is up, or another spawn can raise it first. */
  ghost predicate Raisable(s: State, c: CallId) {
    s.wg > 0 || exists d :: d != c && Counting(s, d)
  }

  lemma ReuseComes(s: State, t: CallId, c: CallId)
    requires Inv(s) && s.closed && t in s.calls && s.calls[t].StopCancel? && Counting(s, c) && Raisable(s, c)
    ensures ReuseAhead(s, t)
  {
    hide Inv, Reuse, Apply, Enabled;
    var es := CancelTaken(s, t);
    InvAlways(s, es);
    var m := After(s, es);
    StaysClosed(s, es);
    if m.wg > 0 {
      var more, d := DrainUnder(m, t, c);
    } else {
      WgNat(m);
      var d :| d != c && Counting(s, d);
      CountStep(m, d);
      RunCons(m, Advance(d), []);
      RunAppend(s, es, [Advance(d)]);
      StaysClosed(s, es + [Advance(d)]);
      var more, b := DrainUnder(Apply(m, Advance(d)), t, c);
    }
  }

  lemma WgNat(s: State)
    requires Inv(s)
    ensures s.wg >= 0
  {
  }

  lemma {:induction false} StaysClosed(s: State, es: seq<Event>)
    requires IsRun(s, es) && s.closed
    ensures After(s, es).closed
    decreases |es|
  {
    hide Apply, Enabled;
    if es != [] {
      ClosedStays(s, es[0]);
      StaysClosed(Apply(s, es[0]), es[1..]);
    }
  }

  /**
   When a Stop is about to take the table: the counter can come to be raised from zero after this
   Stop has waited on it exactly when some spawn has yet to count itself, and besides it the
   counter is up or another spawn has yet to count itself too.
   */
  lemma StopReuseExact(s: State, t: CallId)
    requires Reachable(s) && CanAdvance(s, t) && s.calls[t].StopTake?
    ensures ReuseAhead(AdvanceCall(s, t), t) <==> exists c :: Counting(s, c) && Raisable(s, c)
  {
    ReachableInv(s);
    AdvanceKept(s, t);
    TakeStep(s, t);
    WgNat(s);
    hide Inv, AdvanceCall, Counting;
    var s' := AdvanceCall(s, t);
    if c :| Counting(s, c) && Raisable(s, c) {
      ReuseComes(s', t, c);
    }
    if es :| IsRun(s', es) && exists more, c :: Reuse(After(s', es), more, t, c) {
      var more, c :| Reuse(After(s', es), more, t, c);
      StaysClosed(s', es);
      CountingBeforeRun(After(s', es), more, c);
      CountingBeforeRun(s', es, c);
      if s.wg == 0 {
        var d := RaisedInRun(s', es);
        assert d != c && Counting(s, d);
      }
      assert Raisable(s, c);
    }
  }

  // ----- it happens -----

  const ROWS: map<ProjectId, string> := map[1 := "a", 2 := "b"]

  /** Two AddProjects, each paused right before its wg.Add, and a Stop about to take the table. */
  lemma ReuseHappens() returns (s: State)
    ensures Reachable(s) && CanAdvance(s, 3) && s.calls[3].StopTake? && ReuseAhead(AdvanceCall(s, 3), 3)
  {
    var s0 := Init(true, ROWS);
    var a := AddPauses(s0, 1, 1, 1);
    var s1 := After(s0, a);
    var b := AddPauses(s1, 2, 2, 2);
    RunAppend(s0, a, b);
    var s2 := After(s0, a + b);
    BeginsStop(s2, 3);
    RunCons(s2, Begin(3, StopTake), []);
    RunAppend(s0, a + b, [Begin(3, StopTake)]);
    s := Apply(s2, Begin(3, StopTake));
    assert After(s0, a + b + [Begin(3, StopTake)]) == s;
    assert Counting(s, 1) && Counting(s, 2);
    hide Apply, Enabled, Init;
    assert Raisable(s, 1);
    StopReuseExact(s, 3);
  }

  lemma BeginsStop(s: State, t: CallId)
    requires t !in s.calls
    ensures Enabled(s, Begin(t, StopTake)) && Apply(s, Begin(t, StopTake)).calls == s.calls[t := StopTake]
    ensures CanAdvance(Apply(s, Begin(t, StopTake)), t)
  {
  }

  /** AddProject up to its pause before wg.Add. */
  lemma AddPauses(s: State, t: CallId, p: ProjectId, u: SupId) returns (es: seq<Event>)
    requires CanAdd(s, t, p, u)
    ensures IsRun(s, es) && SameSetting(s, After(s, es)) && After(s, es).calls == s.calls[t := AddCount(p, u)]
    ensures After(s, es).slots == s.slots[p := u] && After(s, es).sups.Keys == s.sups.Keys + {u}
  {
    var a := AddBuilds(s, t, p, u);
    var m := After(s, a);
    assert m.sups.Keys == s.sups.Keys + {u};
    InsertStep(m, t, p, u);
    hide Apply, Enabled, CtxDone;
    RunCons(m, Advance(t), []);
    RunAppend(s, a, [Advance(t)]);
    es := a + [Advance(t)];
  }

  lemma InsertStep(s: State, t: CallId, p: ProjectId, u: SupId)
    requires t in s.calls && s.calls[t] == AddInsert(p, u) && !s.closed && p !in s.slots && u in s.sups
    ensures Enabled(s, Advance(t))
    ensures var s' := Apply(s, Advance(t));
      && SameSetting(s, s') && s'.calls == s.calls[t := AddCount(p, u)] && s'.slots == s.slots[p := u]
      && s'.sups.Keys == s.sups.Keys
  {
  }
}
