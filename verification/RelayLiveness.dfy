/** Nothing in the relay manager waits for ever, and Stop's side condition cannot be dropped. */
module RelayLiveness {
  import opened Wrappers
  import opened RelayProtocol
  import opened RelayInvariant
  import opened RelayTheorems

  /** How far a supervisor whose context is done is from the end of its goroutine. */
  function Rank(pc: SupPc): nat {
    match pc
    case Placed => 6
    case Counted => 5
    case Starting => 5
    case Child => 4
    case Backoff => 4
    case Exited => 3
    case Top => 3
    case Returning => 2
    case Closed => 1
    case _ => 0
  }

  lemma RankFalls(x: Sup, y: Sup)
    requires Follows(x, y) && Tabled(x.pc)
    requires y.pc.Starting? ==> x.pc.Starting?
    requires y.pc.Backoff? ==> x.pc.Backoff?
    ensures Tabled(y.pc) && Rank(y.pc) <= Rank(x.pc)
    ensures y.pc != x.pc ==> Rank(y.pc) < Rank(x.pc)
  {
  }

  /** Whatever anybody does, a supervisor whose context is done only gets closer to its end. */
  lemma RankNeverRises(s: State, e: Event, u: SupId)
    requires Inv(s) && Enabled(s, e) && u in s.sups && Tabled(s.sups[u].pc) && CtxDone(s, u)
    ensures u in Apply(s, e).sups && CtxDone(Apply(s, e), u) && Tabled(Apply(s, e).sups[u].pc)
    ensures Rank(Apply(s, e).sups[u].pc) <= Rank(s.sups[u].pc)
    ensures Apply(s, e).sups[u].pc != s.sups[u].pc ==> Rank(Apply(s, e).sups[u].pc) < Rank(s.sups[u].pc)
  {
    hide Inv, Apply, Follows, CtxDone;
    SupFollows(s, e, u);
    CtxDoneStays(s, e, u);
    DoneContextStep(s, e, u);
    RankFalls(s.sups[u], Apply(s, e).sups[u]);
  }

  /** The number of events of a run that move supervisor u. */
  function Moves(s: State, es: seq<Event>, u: SupId): nat
    requires IsRun(s, es)
    decreases |es|
  {
    if es == [] then 0
    else
      var s' := Apply(s, es[0]);
      var rest := Moves(s', es[1..], u);
      if u in s.sups && u in s'.sups && s'.sups[u].pc != s.sups[u].pc then rest + 1 else rest
  }

  /** Once its context is done, a supervisor makes at most six more moves, in any run. */
  lemma {:induction false} MovesAreBounded(s: State, es: seq<Event>, u: SupId)
    requires Inv(s) && IsRun(s, es) && u in s.sups && Tabled(s.sups[u].pc) && CtxDone(s, u)
    ensures u in After(s, es).sups
    ensures Moves(s, es, u) + Rank(After(s, es).sups[u].pc) <= Rank(s.sups[u].pc) <= 6
    decreases |es|
  {
    hide Inv, CtxDone;
    if es != [] {
      InvKept(s, es[0]);
      RankNeverRises(s, es[0], u);
      MovesAreBounded(Apply(s, es[0]), es[1..], u);
    }
  }

  /** The event moves supervisor u alone, and no call that is waiting inside Stop. */
  ghost predicate MovesOnly(s: State, e: Event, u: SupId)
    requires Enabled(s, e)
  {
    var s' := Apply(s, e);
    && u in s.sups && u in s'.sups && s'.sups == s.sups[u := s'.sups[u]]
    && s'.closed == s.closed && s'.rootDone == s.rootDone
    && (forall t | t in s.calls && s.calls[t].StopWait? :: t in s'.calls && s'.calls[t] == s.calls[t])
  }

  lemma GoroutineMovesOnly(s: State, u: SupId, choice: bool)
    requires CanStep(s, u, choice)
    ensures MovesOnly(s, Goroutine(u, choice), u)
    ensures Apply(s, Goroutine(u, choice)).sups[u]
         == NextSup(s.sups[u], CtxDone(s, u), ConfigFile(s, s.sups[u].project), choice)
  {
    hide NextSup, CtxDone;
  }

  lemma CountMovesOnly(s: State, t: CallId, u: SupId)
    requires t in s.calls && s.calls[t].AddCount? && s.calls[t].u == u && u in s.sups
    ensures Enabled(s, Advance(t)) && MovesOnly(s, Advance(t), u)
    ensures Apply(s, Advance(t)).sups[u] == s.sups[u].(pc := Counted)
    ensures BuiltBy(Apply(s, Advance(t)), t, u)
  {
    hide NextSlots;
  }

  lemma GoMovesOnly(s: State, t: CallId, u: SupId)
    requires t in s.calls && s.calls[t].AddGo? && s.calls[t].u == u && u in s.sups
    ensures Enabled(s, Advance(t)) && MovesOnly(s, Advance(t), u)
    ensures Apply(s, Advance(t)).sups[u] == s.sups[u].(pc := Top)
  {
    hide NextSlots;
  }

  lemma LaunchMovesOnly(s: State, t: CallId, u: SupId)
    requires Inv(s) && BuiltBy(s, t, u) && u in s.sups && (s.sups[u].pc.Placed? || s.sups[u].pc.Counted?)
    ensures Enabled(s, Advance(t)) && MovesOnly(s, Advance(t), u)
    ensures Apply(s, Advance(t)).sups[u] == s.sups[u].(pc := if s.sups[u].pc.Placed? then Counted else Top)
    ensures s.sups[u].pc.Placed? ==> BuiltBy(Apply(s, Advance(t)), t, u)
  {
    CallOkOf(s, t);
    hide Inv, Apply, Enabled, MovesOnly;
    if s.calls[t].AddCount? {
      CountMovesOnly(s, t, u);
    } else {
      GoMovesOnly(s, t, u);
    }
  }

  /**
   A supervisor whose context is done always has an enabled step of its own, or of the call
   that is launching it, and that step brings it closer to its end.
   */
  lemma CloserToEnd(s: State, u: SupId) returns (e: Event)
    requires Inv(s) && u in s.sups && CtxDone(s, u) && Tabled(s.sups[u].pc) && !s.sups[u].pc.Finished?
    ensures Enabled(s, e) && MovesOnly(s, e, u) && Rank(Apply(s, e).sups[u].pc) < Rank(s.sups[u].pc)
  {
    if s.sups[u].pc.Placed? || s.sups[u].pc.Counted? {
      var t :| BuiltBy(s, t, u);
      hide Inv, Apply;
      LaunchMovesOnly(s, t, u);
      e := Advance(t);
    } else {
      hide Inv, Apply;
      GoroutineMovesOnly(s, u, false);
      e := Goroutine(u, false);
    }
  }

  /**
   A waiting Refresh: its supervisor is cancelled, so it needs at most six more moves, and
   until the done channel is closed one of them is always enabled.
   */
  lemma RefreshWaitEnds(s: State, t: CallId) returns (e: Event)
    requires Reachable(s) && t in s.calls && s.calls[t].RefreshAwait?
    ensures s.calls[t].u in s.sups && s.sups[s.calls[t].u].cancelled
    ensures CanAdvance(s, t) ||
            (Enabled(s, e) && s.calls[t].u in Apply(s, e).sups
             && Rank(Apply(s, e).sups[s.calls[t].u].pc) < Rank(s.sups[s.calls[t].u].pc) <= 6)
  {
    ReachableInv(s);
    CallOkOf(s, t);
    var u := s.calls[t].u;
    SupOkOf(s, u);
    hide Inv, Apply;
    if DoneClosed(s.sups[u].pc) {
      e := RootDone;
    } else {
      e := CloserToEnd(s, u);
    }
  }

  /** Call t can take a step of its own at once, other than giving up on its context. */
  ghost predicate CanMoveNow(s: State, t: CallId) {
    exists e :: Actor(e) == Some(t) && !e.CtxExpire? && Enabled(s, e)
  }

  lemma MoveNow(s: State, t: CallId, e: Event)
    requires Actor(e) == Some(t) && !e.CtxExpire? && Enabled(s, e)
    ensures CanMoveNow(s, t)
  {
  }

  lemma CannotMove(s: State, t: CallId)
    requires t in s.calls && !CanAdvance(s, t) && !Renders(s.calls[t]) && !s.calls[t].StopCancel?
    ensures !CanMoveNow(s, t)
  {
  }

  /**
   An unfinished call can always move, except a Refresh whose channel is open and a Stop whose
   wait group is not at zero.
   */
  lemma OnlyTwoWaits(s: State, t: CallId)
    requires Reachable(s) && t in s.calls
    ensures var c := s.calls[t];
      !CanMoveNow(s, t) <==>
        || c.Done?
        || (c.RefreshAwait? && c.u in s.sups && !DoneClosed(s.sups[c.u].pc))
        || (c.StopWait? && s.wg != 0)
  {
    ReachableInv(s);
    CallOkOf(s, t);
    var c := s.calls[t];
    if c.RefreshAwait? {
      SupOkOf(s, c.u);
    }
    hide Inv, CanMoveNow;
    if CanAdvance(s, t) {
      MoveNow(s, t, Advance(t));
    } else if Renders(c) {
      MoveNow(s, t, RenderFail(t));
    } else if c.StopCancel? {
      var u := Pick(c.left);
      MoveNow(s, t, CancelOne(t, u));
    } else {
      CannotMove(s, t);
    }
  }

  // ----- draining the wait group -----

  lemma RunCons(s: State, e: Event, es: seq<Event>)
    requires Enabled(s, e) && IsRun(Apply(s, e), es)
    ensures IsRun(s, [e] + es) && After(s, [e] + es) == After(Apply(s, e), es)
  {
    hide Apply, Enabled;
    assert ([e] + es)[1..] == es;
  }

  lemma {:induction false} RunAppend(s: State, es: seq<Event>, more: seq<Event>)
    requires IsRun(s, es) && IsRun(After(s, es), more)
    ensures IsRun(s, es + more) && After(s, es + more) == After(After(s, es), more)
    decreases |es|
  {
    hide Apply, Enabled;
    if es == [] {
      assert es + more == more;
    } else {
      RunAppend(Apply(s, es[0]), es[1..], more);
      assert (es + more)[1..] == es[1..] + more;
    }
  }

  lemma RemoverCancels(s: State, t: CallId, u: SupId)
    requires t in s.calls && s.calls[t].RemoveCancel? && s.calls[t].u == u && u in s.sups
    ensures Enabled(s, Advance(t)) && MovesOnly(s, Advance(t), u)
    ensures Apply(s, Advance(t)).sups[u] == s.sups[u].(cancelled := true)
  {
    hide NextSlots;
  }

  lemma StopperCancels(s: State, t: CallId, u: SupId)
    requires t in s.calls && s.calls[t].StopCancel? && u in s.calls[t].left && u in s.sups
    ensures Enabled(s, CancelOne(t, u)) && MovesOnly(s, CancelOne(t, u), u)
    ensures Apply(s, CancelOne(t, u)).sups[u] == s.sups[u].(cancelled := true)
  {
  }

  /** After Stop has emptied the slots, whoever is not cancelled is held, and can be cancelled now. */
  lemma CancelHeld(s: State, u: SupId) returns (e: Event)
    requires Inv(s) && s.closed && u in s.sups && Tabled(s.sups[u].pc) && !s.sups[u].cancelled
    ensures Enabled(s, e) && MovesOnly(s, e, u)
    ensures Apply(s, e).sups[u] == s.sups[u].(cancelled := true)
  {
    assert !InSlot(s, u);
    var t :| HeldBy(s, t, u);
    hide Inv, Apply, Enabled;
    if s.calls[t].RemoveCancel? {
      RemoverCancels(s, t, u);
      e := Advance(t);
    } else {
      StopperCancels(s, t, u);
      e := CancelOne(t, u);
    }
  }

  /** Runs that touch only supervisor u and leave waiting Stops where they are. */
  ghost predicate RunsOnly(s: State, s': State, u: SupId) {
    && u in s.sups && u in s'.sups && s'.sups == s.sups[u := s'.sups[u]]
    && s'.closed == s.closed && s'.rootDone == s.rootDone
    && (forall t | t in s.calls && s.calls[t].StopWait? :: t in s'.calls && s'.calls[t] == s.calls[t])
  }

  lemma {:induction false} FinishOne(s: State, u: SupId) returns (es: seq<Event>)
    requires Inv(s) && s.closed && u in s.sups && Tabled(s.sups[u].pc)
    ensures IsRun(s, es) && RunsOnly(s, After(s, es), u) && After(s, es).sups[u].pc.Finished?
    decreases if CtxDone(s, u) then 0 else 1, Rank(s.sups[u].pc)
  {
    if s.sups[u].pc.Finished? {
      es := [];
    } else {
      var e: Event;
      if CtxDone(s, u) {
        e := CloserToEnd(s, u);
        RankNeverRises(s, e, u);
      } else {
        e := CancelHeld(s, u);
      }
      hide Apply, Enabled;
      var s' := Apply(s, e);
      InvKept(s, e);
      hide Inv;
      var rest := FinishOne(s', u);
      RunCons(s, e, rest);
      es := [e] + rest;
    }
  }

  /** A waiting Stop can always be brought to return, touching nothing outside the wait group. */
  lemma {:induction false} Drain(s: State) returns (es: seq<Event>)
    requires Inv(s) && s.closed
    ensures IsRun(s, es) && After(s, es).wg == 0 && After(s, es).closed
    ensures After(s, es).rootDone == s.rootDone
    ensures forall u <- s.sups | !InWaitGroup(s.sups[u].pc) ::
      u in After(s, es).sups && After(s, es).sups[u] == s.sups[u]
    ensures forall t | t in s.calls && s.calls[t].StopWait? ::
      t in After(s, es).calls && After(s, es).calls[t] == s.calls[t]
    decreases |Pending(s)|
  {
    if s.wg == 0 {
      es := [];
    } else {
      var u := Pick(Pending(s));
      var first := FinishOne(s, u);
      var s' := After(s, first);
      InvAlways(s, first);
      assert Pending(s') == Pending(s) - {u};
      hide Inv;
      var rest := Drain(s');
      RunAppend(s, first, rest);
      es := first + rest;
    }
  }

  lemma StopCanReturn(s: State, t: CallId) returns (es: seq<Event>)
    requires Reachable(s) && t in s.calls && s.calls[t] == StopWait
    ensures IsRun(s, es) && t in After(s, es).calls && After(s, es).calls[t] == Done(OK)
  {
    ReachableInv(s);
    CallOkOf(s, t);
    hide Inv;
    var first := Drain(s);
    var s' := After(s, first);
    RunCons(s', Advance(t), []);
    RunAppend(s, first, [Advance(t)]);
    es := first + [Advance(t)];
  }

  // ----- the side condition of Stop is exact -----

  lemma CancelOneEffect(s: State, t: CallId, u: SupId)
    requires Enabled(s, CancelOne(t, u))
    ensures var s' := Apply(s, CancelOne(t, u));
      && s'.calls == s.calls[t := StopCancel(s.calls[t].left - {u})] && s'.wg == s.wg
      && s'.sups == s.sups[u := s.sups[u].(cancelled := true)] && s'.rootDone == s.rootDone
  {
  }

  lemma LastCancelDone(s: State, t: CallId)
    requires t in s.calls && s.calls[t] == StopCancel({})
    ensures Enabled(s, Advance(t))
    ensures var s' := Apply(s, Advance(t));
      && s'.calls == s.calls[t := StopWait] && s'.wg == s.wg
      && s'.sups == s.sups && s'.rootDone == s.rootDone && s'.closed == s.closed
  {
  }

  lemma {:induction false} CancelTaken(s: State, t: CallId) returns (es: seq<Event>)
    requires Inv(s) && t in s.calls && s.calls[t].StopCancel?
    ensures IsRun(s, es) && After(s, es).calls == s.calls[t := StopWait] && After(s, es).wg == s.wg
    ensures After(s, es).closed && After(s, es).rootDone == s.rootDone
    ensures forall u <- s.sups | u !in s.calls[t].left :: u in After(s, es).sups && After(s, es).sups[u] == s.sups[u]
    decreases |s.calls[t].left|
  {
    CallOkOf(s, t);
    hide Inv;
    if s.calls[t].left == {} {
      LastCancelDone(s, t);
      hide Apply, Enabled;
      RunCons(s, Advance(t), []);
      es := [Advance(t)];
    } else {
      var u := Pick(s.calls[t].left);
      var e := CancelOne(t, u);
      CancelOneEffect(s, t, u);
      hide Apply;
      var s' := Apply(s, e);
      InvKept(s, e);
      var rest := CancelTaken(s', t);
      RunCons(s, e, rest);
      es := [e] + rest;
    }
  }

  /** From its pause, with a live context, a spawn goes on to a child in four steps. */
  lemma PausedStarts(s: State, u: SupId) returns (es: seq<Event>)
    requires Inv(s) && PausedLive(s, u)
    ensures IsRun(s, es) && u in After(s, es).sups && After(s, es).sups[u].pc.Child?
  {
    var t :| BuiltBy(s, t, u);
    hide Inv, Apply, Enabled;
    LaunchMovesOnly(s, t, u);
    InvKept(s, Advance(t));
    var s1 := Apply(s, Advance(t));
    LaunchMovesOnly(s1, t, u);
    var s2 := Apply(s1, Advance(t));
    var rest := TopStarts(s2, u);
    RunCons(s1, Advance(t), rest);
    RunCons(s, Advance(t), [Advance(t)] + rest);
    es := [Advance(t)] + ([Advance(t)] + rest);
  }

  lemma TopStarts(s: State, u: SupId) returns (es: seq<Event>)
    requires u in s.sups && s.sups[u].pc.Top? && !CtxDone(s, u)
    ensures IsRun(s, es) && u in After(s, es).sups && After(s, es).sups[u].pc.Child?
  {
    var e := Goroutine(u, true);
    hide Apply;
    GoroutineMovesOnly(s, u, true);
    var s' := Apply(s, e);
    GoroutineMovesOnly(s', u, true);
    RunCons(s', e, []);
    RunCons(s, e, [e]);
    es := [e] + [e];
  }

  /** The step in which Stop takes the table leaves every held supervisor to its holder. */
  lemma TakeSparesHeld(s: State, t: CallId, u: SupId)
    requires Inv(s) && CanAdvance(s, t) && s.calls[t].StopTake? && Held(s, u) && u in s.sups
    ensures var s' := AdvanceCall(s, t);
      && t in s'.calls && s'.calls[t].StopCancel? && u !in s'.calls[t].left
      && s'.sups == s.sups && s'.rootDone == s.rootDone
  {
    assert !InSlot(s, u);
    forall p <- s.slots ensures s.slots[p] != u {
      assert TabledIn(s, p, s.slots[p]);
    }
  }

  lemma StopReturns(s: State, t: CallId)
    requires Inv(s) && t in s.calls && s.calls[t] == StopWait && s.wg == 0
    ensures IsRun(s, [Advance(t)])
    ensures var s' := After(s, [Advance(t)]);
      Inv(s') && s'.sups == s.sups && s'.rootDone == s.rootDone && t in s'.calls && s'.calls[t] == Done(OK)
  {
    InvKept(s, Advance(t));
    hide Inv;
    RunCons(s, Advance(t), []);
  }

  /** A Stop that has taken the table can return while a paused spawn it does not hold stays paused. */
  lemma StopPassesBy(s: State, t: CallId, u: SupId) returns (es: seq<Event>)
    requires Inv(s) && t in s.calls && s.calls[t].StopCancel? && u !in s.calls[t].left && PausedLive(s, u)
    ensures IsRun(s, es) && Inv(After(s, es)) && PausedLive(After(s, es), u)
    ensures t in After(s, es).calls && After(s, es).calls[t].Done?
  {
    hide Inv;
    var a := CancelTaken(s, t);
    InvAlways(s, a);
    var s1 := After(s, a);
    var b := Drain(s1);
    InvAlways(s1, b);
    var s2 := After(s1, b);
    StopReturns(s2, t);
    RunAppend(s1, b, [Advance(t)]);
    RunAppend(s, a, b + [Advance(t)]);
    es := a + (b + [Advance(t)]);
  }

  /**
   StopIsFinal needs its side condition in every single case: whenever a Stop is about to take
   the table while some call holds a spawn paused with a live context, there is a run in which
   that Stop returns and a child starts afterwards.
   */
  lemma InTransitEscapesStop(s: State, t: CallId, u: SupId) returns (es: seq<Event>, later: seq<Event>)
    requires Reachable(s) && CanAdvance(s, t) && s.calls[t].StopTake? && Held(s, u) && PausedLive(s, u)
    ensures IsRun(AdvanceCall(s, t), es)
    ensures t in After(AdvanceCall(s, t), es).calls && After(AdvanceCall(s, t), es).calls[t].Done?
    ensures IsRun(After(AdvanceCall(s, t), es), later)
    ensures u in After(After(AdvanceCall(s, t), es), later).sups
    ensures After(After(AdvanceCall(s, t), es), later).sups[u].pc.Child?
  {
    ReachableInv(s);
    TakeSparesHeld(s, t, u);
    AdvanceKept(s, t);
    hide Inv, AdvanceCall;
    var s0 := AdvanceCall(s, t);
    es := StopPassesBy(s0, t, u);
    later := PausedStarts(After(s0, es), u);
  }
}
