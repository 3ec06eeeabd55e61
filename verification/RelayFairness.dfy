/**
 Stop returns in every fair run. Once Stop has closed the manager, a debt is left: for every
 supervisor that was in the table, how far it is from its end. No event raises it, and whatever
 it is, an event that lowers it is enabled and stays enabled until it is lowered.
 */
module RelayFairness {
  import opened Wrappers
  import opened RelayProtocol
  import opened RelayInvariant
  import opened RelayTheorems
  import opened RelayLiveness

  /** What supervisor u still owes: seven until its context is done, then its rank. */
  function Owing(s: State, u: SupId): nat
    requires u in s.sups
  {
    if !Tabled(s.sups[u].pc) then 0 else if CtxDone(s, u) then Rank(s.sups[u].pc) else 7
  }

  function Owed(s: State): set<(SupId, int)> {
    set u, k | u in s.sups && 0 <= k < 8 && Owes(s, u, k) :: (u, k)
  }

  predicate Owes(s: State, u: SupId, k: int)
    requires u in s.sups
  {
    k < Owing(s, u)
  }

  function Debt(s: State): nat {
    |Owed(s)|
  }

  /** One event never raises what one supervisor owes. */
  lemma OwingNeverRises(s: State, e: Event, u: SupId)
    requires Inv(s) && s.closed && Enabled(s, e) && u in Apply(s, e).sups
    ensures Owing(Apply(s, e), u) <= if u in s.sups then Owing(s, u) else 0
  {
    hide Inv, Apply, CtxDone;
    if u in s.sups {
      SupFollows(s, e, u);
      if Tabled(s.sups[u].pc) {
        if CtxDone(s, u) {
          RankNeverRises(s, e, u);
        }
      } else if s.sups[u].pc.Made? && Apply(s, e).sups[u].pc.Placed? {
        PlacedByInsert(s, e, u);
      }
    } else {
      NewSup(s, e, u);
    }
  }

  lemma SubsetSize<T>(a: set<T>, b: set<T>)
    requires a <= b
    ensures |a| <= |b| && (a != b ==> |a| < |b|)
  {
    assert b == a + (b - a);
    assert |b| == |a| + |b - a|;
  }

  lemma DebtNeverRises(s: State, e: Event)
    requires Inv(s) && s.closed && Enabled(s, e)
    ensures Debt(Apply(s, e)) <= Debt(s)
    ensures forall u <- s.sups :: u in Apply(s, e).sups && (Owing(Apply(s, e), u) < Owing(s, u) ==> Debt(Apply(s, e)) < Debt(s))
  {
    hide Inv, Apply, Owing;
    var s' := Apply(s, e);
    forall u | u in s'.sups ensures Owing(s', u) <= if u in s.sups then Owing(s, u) else 0 {
      OwingNeverRises(s, e, u);
    }
    assert Owed(s') <= Owed(s);
    SubsetSize(Owed(s'), Owed(s));
    forall u <- s.sups ensures u in s'.sups && (Owing(s', u) < Owing(s, u) ==> Debt(s') < Debt(s)) {
      SupFollows(s, e, u);
      if Owing(s', u) < Owing(s, u) {
        OwingSmall(s, u);
        assert (u, Owing(s', u)) in Owed(s) && (u, Owing(s', u)) !in Owed(s');
      }
    }
  }

  lemma OwingSmall(s: State, u: SupId)
    requires u in s.sups
    ensures Owing(s, u) < 8
  {
  }

  // ----- steps that help -----

  predicate Launching(c: Call, u: SupId) {
    (c.AddCount? || c.AddGo?) && c.u == u
  }

  /** Event e is the next step of u, of the call launching it, or of the call about to cancel it. */
  predicate Helps(s: State, u: SupId, e: Event) {
    && u in s.sups && Tabled(s.sups[u].pc)
    && if CtxDone(s, u) then
         if s.sups[u].pc.Placed? || s.sups[u].pc.Counted? then e.Advance? && e.t in s.calls && Launching(s.calls[e.t], u)
         else e == Goroutine(u, false) && !s.sups[u].pc.Finished?
       else
         (e.Advance? && e.t in s.calls && s.calls[e.t].RemoveCancel? && s.calls[e.t].u == u)
         || (e.CancelOne? && e.u == u && e.t in s.calls && s.calls[e.t].StopCancel? && u in s.calls[e.t].left)
  }

  /** Whoever owes something can be helped. */
  lemma HelpExists(s: State, u: SupId) returns (e: Event)
    requires Inv(s) && s.closed && u in s.sups && Owing(s, u) > 0
    ensures Helps(s, u, e)
  {
    if !CtxDone(s, u) {
      e := CancelComes(s, u);
    } else if s.sups[u].pc.Placed? || s.sups[u].pc.Counted? {
      e := LaunchComes(s, u);
    } else {
      e := Goroutine(u, false);
    }
  }

  lemma CancelComes(s: State, u: SupId) returns (e: Event)
    requires Inv(s) && s.closed && u in s.sups && Tabled(s.sups[u].pc) && !CtxDone(s, u)
    ensures Helps(s, u, e)
  {
    assert !InSlot(s, u);
    var t :| HeldBy(s, t, u);
    hide Inv;
    e := if s.calls[t].RemoveCancel? then Advance(t) else CancelOne(t, u);
  }

  lemma LaunchComes(s: State, u: SupId) returns (e: Event)
    requires Inv(s) && u in s.sups && CtxDone(s, u) && (s.sups[u].pc.Placed? || s.sups[u].pc.Counted?)
    ensures Helps(s, u, e)
  {
    var t :| BuiltBy(s, t, u);
    CallOkOf(s, t);
    hide Inv;
    e := Advance(t);
  }

  lemma HelpLowers(s: State, u: SupId, e: Event)
    requires Inv(s) && OverWhenDone(s) && s.closed && Helps(s, u, e)
    ensures Enabled(s, e) && u in Apply(s, e).sups && Owing(Apply(s, e), u) < Owing(s, u)
  {
    if CtxDone(s, u) {
      if s.sups[u].pc.Placed? || s.sups[u].pc.Counted? {
        CallOkOf(s, e.t);
        hide Inv, Apply;
        LaunchMoves(s, e.t, u);
        CtxDoneStays(s, e, u);
      } else {
        hide Inv, Apply, CtxDone;
        GoroutineMovesOnly(s, u, false);
        CtxDoneStays(s, e, u);
        RankNeverRises(s, e, u);
        DoneStepMoves(s.sups[u], ConfigFile(s, s.sups[u].project));
      }
    } else if e.CancelOne? {
      hide Inv, Apply;
      StopperCancels(s, e.t, u);
    } else {
      hide Inv, Apply;
      RemoverCancels(s, e.t, u);
    }
  }

  lemma DoneStepMoves(x: Sup, file: Option<string>)
    requires Tabled(x.pc) && !x.pc.Placed? && !x.pc.Counted? && !x.pc.Finished?
    ensures NextSup(x, true, file, false).pc != x.pc
  {
  }

  lemma LaunchMoves(s: State, t: CallId, u: SupId)
    requires t in s.calls && Launching(s.calls[t], u) && u in s.sups && CallOk(s, s.calls[t])
    ensures Enabled(s, Advance(t)) && u in Apply(s, Advance(t)).sups
    ensures Tabled(Apply(s, Advance(t)).sups[u].pc) && Tabled(s.sups[u].pc)
    ensures Rank(Apply(s, Advance(t)).sups[u].pc) < Rank(s.sups[u].pc)
  {
    hide Apply, Enabled;
    if s.calls[t].AddCount? {
      CountMovesOnly(s, t, u);
    } else {
      GoMovesOnly(s, t, u);
    }
  }

  /** Helping steps wait for their turn: they stay enabled while what u owes stays the same. */
  lemma HelpPersists(s: State, u: SupId, e: Event, f: Event)
    requires Inv(s) && s.closed && Helps(s, u, e) && Enabled(s, f)
    requires u in Apply(s, f).sups && Owing(Apply(s, f), u) == Owing(s, u)
    ensures Helps(Apply(s, f), u, e)
  {
    hide Inv, Apply;
    SupFollows(s, f, u);
    if CtxDone(s, u) {
      RankNeverRises(s, f, u);
      if e.Advance? {
        LaunchCallStays(s, f, e.t, u);
      }
    } else {
      HolderStays(s, u, e, f);
    }
  }

  lemma LaunchCallStays(s: State, f: Event, t: CallId, u: SupId)
    requires Inv(s) && Enabled(s, f) && t in s.calls && Launching(s.calls[t], u) && u in s.sups && u in Apply(s, f).sups
    requires Apply(s, f).sups[u].pc == s.sups[u].pc
    ensures t in Apply(s, f).calls && Launching(Apply(s, f).calls[t], u)
  {
    CallOkOf(s, t);
    if Actor(f) == Some(t) {
      assert f == Advance(t);
      hide Inv, Apply;
      LaunchMoves(s, t, u);
    } else {
      hide Inv, Apply;
      OtherCallsStay(s, f, t);
    }
  }

  lemma HolderStays(s: State, u: SupId, e: Event, f: Event)
    requires Inv(s) && Helps(s, u, e) && !CtxDone(s, u) && Enabled(s, f)
    requires u in Apply(s, f).sups && Tabled(Apply(s, f).sups[u].pc) && Owing(Apply(s, f), u) == 7
    ensures Helps(Apply(s, f), u, e)
  {
    hide Inv, Apply, Enabled;
    if Actor(f) == Some(e.t) {
      if s.calls[e.t].RemoveCancel? {
        OwnCancel(s, u, e.t, f);
      } else {
        StopStep(s, f, e.t);
        if f == CancelOne(e.t, u) {
          StopperCancels(s, e.t, u);
        }
      }
    } else {
      OtherCallsStay(s, f, e.t);
    }
  }

  lemma OwnCancel(s: State, u: SupId, t: CallId, f: Event)
    requires t in s.calls && s.calls[t].RemoveCancel? && s.calls[t].u == u && u in s.sups && Actor(f) == Some(t) && Enabled(s, f)
    ensures u in Apply(s, f).sups && Apply(s, f).sups[u].cancelled
  {
    assert f == Advance(t);
    hide Apply;
    RemoverCancels(s, t, u);
  }

  // ----- rounds -----

  /** Weak fairness: of the steps that could help when the round began, each is taken, or there was a time when it could not. */
  ghost predicate FairRound(s: State, es: seq<Event>) {
    IsRun(s, es) && forall u, e :: Helps(s, u, e) ==> TakenOrLapsed(s, es, u, e)
  }

  ghost predicate TakenOrLapsed(s: State, es: seq<Event>, u: SupId, e: Event)
    requires IsRun(s, es)
  {
    e in es || Lapses(s, es, u, e)
  }

  /** At some time in the round step e does not help u. */
  ghost predicate Lapses(s: State, es: seq<Event>, u: SupId, e: Event)
    requires IsRun(s, es)
    decreases |es|
  {
    !Helps(s, u, e) || (es != [] && Lapses(Apply(s, es[0]), es[1..], u, e))
  }

  ghost predicate FairRounds(s: State, rounds: seq<seq<Event>>)
    decreases |rounds|
  {
    rounds == [] || (FairRound(s, rounds[0]) && FairRounds(After(s, rounds[0]), rounds[1..]))
  }

  ghost function AfterRounds(s: State, rounds: seq<seq<Event>>): State
    requires FairRounds(s, rounds)
    decreases |rounds|
  {
    if rounds == [] then s else AfterRounds(After(s, rounds[0]), rounds[1..])
  }

  ghost predicate Draining(s: State) {
    Inv(s) && OverWhenDone(s) && s.closed
  }

  lemma DrainingKept(s: State, e: Event)
    requires Draining(s) && Enabled(s, e)
    ensures Draining(Apply(s, e))
  {
    InvKept(s, e);
    OverWhenDoneKept(s, e);
    ClosedStays(s, e);
    hide Inv, Apply, OverWhenDone;
  }

  lemma {:induction false} DebtFallsInRun(s: State, es: seq<Event>)
    requires Draining(s) && IsRun(s, es)
    ensures Draining(After(s, es)) && Debt(After(s, es)) <= Debt(s)
    decreases |es|
  {
    hide Draining, Debt;
    if es != [] {
      DrainingKept(s, es[0]);
      DrainingDebt(s, es[0]);
      DebtFallsInRun(Apply(s, es[0]), es[1..]);
    }
  }

  lemma DrainingDebt(s: State, e: Event)
    requires Draining(s) && Enabled(s, e)
    ensures Debt(Apply(s, e)) <= Debt(s)
    ensures forall u <- s.sups :: u in Apply(s, e).sups && (Owing(Apply(s, e), u) < Owing(s, u) ==> Debt(Apply(s, e)) < Debt(s))
  {
    hide Inv, Apply, Debt, Owing;
    DebtNeverRises(s, e);
  }

  /** Once the helping step is taken, or helps no longer, the debt has fallen. */
  lemma {:induction false} TakenStepLowers(s: State, es: seq<Event>, u: SupId, e: Event)
    requires Draining(s) && IsRun(s, es) && Helps(s, u, e) && TakenOrLapsed(s, es, u, e)
    ensures Debt(After(s, es)) < Debt(s)
    decreases |es|
  {
    var s' := Apply(s, es[0]);
    DrainingKept(s, es[0]);
    DrainingDebt(s, es[0]);
    hide Debt, Owing, Inv, OverWhenDone, Apply, Helps;
    if es[0] == e {
      HelpLowers(s, u, e);
    }
    if Owing(s', u) < Owing(s, u) {
      DebtFallsInRun(s', es[1..]);
    } else {
      OwingNeverRises(s, es[0], u);
      HelpPersists(s, u, e, es[0]);
      TakenStepLowers(s', es[1..], u, e);
    }
  }

  lemma RoundLowers(s: State, es: seq<Event>)
    requires Draining(s) && FairRound(s, es) && Debt(s) > 0
    ensures Debt(After(s, es)) < Debt(s)
  {
    var w := Pick(Owed(s));
    var u := w.0;
    hide Inv, OverWhenDone, Debt, Owed, Helps, TakenOrLapsed;
    var e := HelpExists(s, u);
    assert TakenOrLapsed(s, es, u, e);
    TakenStepLowers(s, es, u, e);
  }

  lemma {:induction false} RoundsDrain(s: State, rounds: seq<seq<Event>>)
    requires Draining(s) && FairRounds(s, rounds)
    ensures Draining(AfterRounds(s, rounds))
    ensures |rounds| >= Debt(s) ==> Debt(AfterRounds(s, rounds)) == 0
    decreases |rounds|
  {
    hide Draining, Debt;
    if rounds != [] {
      DebtFallsInRun(s, rounds[0]);
      if Debt(s) > 0 {
        RoundLowers(s, rounds[0]);
      }
      RoundsDrain(After(s, rounds[0]), rounds[1..]);
    }
  }

  /** Whoever can be helped owes something. */
  lemma HelpedOwes(s: State, u: SupId, e: Event)
    requires Draining(s) && Helps(s, u, e)
    ensures Debt(s) > 0
  {
    HelpLowers(s, u, e);
    hide Inv, OverWhenDone, Helps;
    OwingSmall(s, u);
    assert (u, 0) in Owed(s);
  }

  lemma {:induction false} LapsesAtEnd(s: State, es: seq<Event>, u: SupId, e: Event)
    requires IsRun(s, es) && !Helps(After(s, es), u, e)
    ensures Lapses(s, es, u, e)
    decreases |es|
  {
    hide Helps, Apply, Enabled;
    if es != [] {
      LapsesAtEnd(Apply(s, es[0]), es[1..], u, e);
    }
  }

  /** Taking helping steps for as long as there are any pays the whole debt. */
  lemma {:induction false} PayOff(s: State) returns (es: seq<Event>)
    requires Draining(s)
    ensures IsRun(s, es) && Draining(After(s, es)) && Debt(After(s, es)) == 0
    decreases Debt(s)
  {
    hide Draining, Debt, Apply, Enabled, Helps;
    if Debt(s) == 0 {
      es := [];
    } else {
      var e := HelpingStep(s);
      DrainingKept(s, e);
      var rest := PayOff(Apply(s, e));
      RunCons(s, e, rest);
      es := [e] + rest;
    }
  }

  lemma HelpingStep(s: State) returns (e: Event)
    requires Draining(s) && Debt(s) > 0
    ensures Enabled(s, e) && Debt(Apply(s, e)) < Debt(s)
  {
    var w := Pick(Owed(s));
    var u := w.0;
    hide Inv, OverWhenDone, Debt, Owed, Helps, Apply, Enabled;
    e := HelpExists(s, u);
    HelpLowers(s, u, e);
    RunCons(s, e, []);
    assert TakenOrLapsed(s, [e], u, e);
    TakenStepLowers(s, [e], u, e);
  }

  /** Fair rounds are there to be had: from every state after Stop has closed the manager, as many as one likes. */
  lemma {:induction false} FairRoundsExist(s: State, n: nat) returns (rounds: seq<seq<Event>>)
    requires Draining(s)
    ensures |rounds| == n && FairRounds(s, rounds)
    decreases n
  {
    hide Draining, Debt, Helps;
    rounds := [];
    if n > 0 {
      var es := PayOff(s);
      forall u, e | Helps(s, u, e) ensures TakenOrLapsed(s, es, u, e) {
        if Helps(After(s, es), u, e) {
          HelpedOwes(After(s, es), u, e);
        }
        LapsesAtEnd(s, es, u, e);
      }
      var rest := FairRoundsExist(After(s, es), n - 1);
      rounds := [es] + rest;
      assert rounds[1..] == rest;
    }
  }

  lemma PendingOwes(s: State, u: SupId)
    requires OverWhenDone(s) && u in Pending(s)
    ensures (u, 0) in Owed(s)
  {
    assert Owes(s, u, 0);
  }

  lemma NoDebtNoWait(s: State)
    requires Draining(s) && Debt(s) == 0
    ensures s.wg == 0
  {
    if Pending(s) != {} {
      var u := Pick(Pending(s));
      PendingOwes(s, u);
    }
  }

  lemma {:induction false} WaiterStays(s: State, es: seq<Event>, t: CallId)
    requires IsRun(s, es) && t in s.calls && s.calls[t] in {StopWait, Done(OK)}
    ensures t in After(s, es).calls && After(s, es).calls[t] in {StopWait, Done(OK)}
    decreases |es|
  {
    hide Apply, Enabled;
    if es != [] {
      StopCallMoves(s, es[0], t);
      WaiterStays(Apply(s, es[0]), es[1..], t);
    }
  }

  lemma {:induction false} WaiterStaysRounds(s: State, rounds: seq<seq<Event>>, t: CallId)
    requires FairRounds(s, rounds) && t in s.calls && s.calls[t] in {StopWait, Done(OK)}
    ensures t in AfterRounds(s, rounds).calls && AfterRounds(s, rounds).calls[t] in {StopWait, Done(OK)}
    decreases |rounds|
  {
    if rounds != [] {
      WaiterStays(s, rounds[0], t);
      WaiterStaysRounds(After(s, rounds[0]), rounds[1..], t);
    }
  }

  /**
   In every fair run a waiting Stop comes to its end: after at most as many rounds as the debt
   the wait group is at zero, and Stop has returned or can.
   */
  lemma StopReturnsFairly(s: State, t: CallId, rounds: seq<seq<Event>>)
    requires Reachable(s) && t in s.calls && s.calls[t] == StopWait
    requires FairRounds(s, rounds) && |rounds| >= Debt(s)
    ensures var end := AfterRounds(s, rounds);
      end.wg == 0 && t in end.calls && (end.calls[t] == Done(OK) || CanAdvance(end, t))
  {
    ReachableInv(s);
    ReachableOver(s);
    CallOkOf(s, t);
    assert s.closed;
    hide Inv, OverWhenDone, Debt;
    RoundsDrain(s, rounds);
    NoDebtNoWait(AfterRounds(s, rounds));
    WaiterStaysRounds(s, rounds, t);
  }
}
