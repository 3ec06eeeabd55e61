/** What the relay protocol guarantees in every interleaving. */
module RelayTheorems {
  import opened Wrappers
  import opened RelayProtocol
  import opened RelayInvariant

  // ----- what one event can do to one supervisor and to one slot -----

  /** The only moves a supervisor ever makes. */
  predicate Follows(x: Sup, y: Sup) {
    && y.project == x.project && y.rooted == x.rooted
    && (x.cancelled ==> y.cancelled)
    && (y.starts == if x.pc.Starting? && y.pc.Child? then x.starts + 1 else x.starts)
    && (y.pc == x.pc ||
        match x.pc
        case Made => y.pc.Placed? || y.pc.Lost?
        case Lost => y.pc.Dropped?
        case Placed => y.pc.Counted?
        case Counted => y.pc.Top?
        case Top => y.pc.Starting? || y.pc.Returning?
        case Starting => y.pc.Child? || y.pc.Exited?
        case Child => y.pc.Exited?
        case Exited => y.pc.Returning? || y.pc.Backoff?
        case Backoff => y.pc.Top? || y.pc.Returning?
        case Returning => y.pc.Closed?
        case Closed => y.pc.Finished?
        case _ => false)
  }

  lemma TouchedFollows(s: State, c: Call, u: SupId)
    requires CallOk(s, c) && Touched(c) == Some(u) && u in s.sups
    ensures Follows(s.sups[u], TouchedSup(s, c, s.sups[u]))
  {
  }

  lemma AdvanceFollows(s: State, t: CallId, u: SupId)
    requires Inv(s) && CanAdvance(s, t) && u in s.sups
    ensures u in AdvanceCall(s, t).sups && Follows(s.sups[u], AdvanceCall(s, t).sups[u])
  {
    hide Follows, CallOk, Inv, NextCall, NextSlots;
    CallOkOf(s, t);
    FollowsSelf(s.sups[u]);
    if Touched(s.calls[t]) == Some(u) {
      TouchedFollows(s, s.calls[t], u);
    }
  }

  lemma FollowsSelf(x: Sup)
    ensures Follows(x, x)
  {
  }

  /** Every event either leaves a supervisor alone or takes it one step along Follows. */
  lemma SupFollows(s: State, e: Event, u: SupId)
    requires Inv(s) && Enabled(s, e) && u in s.sups
    ensures u in Apply(s, e).sups && Follows(s.sups[u], Apply(s, e).sups[u])
  {
    hide Inv;
    if e.Advance? {
      AdvanceFollows(s, e.t, u);
    }
  }

  lemma NewSup(s: State, e: Event, u: SupId)
    requires Inv(s) && Enabled(s, e) && u !in s.sups && u in Apply(s, e).sups
    ensures Apply(s, e).sups[u].pc.Made? && Apply(s, e).sups[u].starts == 0
  {
    hide Inv;
    hide NextCall, NextSlots, TouchedSup, RenderedCall;
  }

  lemma PlacedByInsert(s: State, e: Event, u: SupId)
    requires Inv(s) && Enabled(s, e) && u in s.sups && s.sups[u].pc.Made?
    requires Apply(s, e).sups[u].pc.Placed?
    ensures var p := s.sups[u].project;
      !s.closed && !Apply(s, e).closed && p !in s.slots && Apply(s, e).slots == s.slots[p := u]
  {
    if e.Advance? {
      CallOkOf(s, e.t);
    }
    hide Inv, NextCall;
  }

  /** The three ways a supervisor leaves its slot. */
  lemma SlotEmptied(s: State, e: Event, p: ProjectId)
    requires Inv(s) && Enabled(s, e) && p in s.slots
    ensures p in Apply(s, e).slots ==> Apply(s, e).slots[p] == s.slots[p]
    ensures p !in Apply(s, e).slots ==>
      && e.Advance?
      && var c := s.calls[e.t];
         || c == RemoveTake(p)
         || c == StopTake
         || (c == RefreshDelete(p, s.slots[p]) && s.slots[p] in s.sups && DoneClosed(s.sups[s.slots[p]].pc))
  {
    if e.Advance? {
      CallOkOf(s, e.t);
    }
    hide Inv, NextCall, NextSups;
  }

  // ----- at most one child per project -----

  predicate ActiveIn(s: State, p: ProjectId, u: SupId) {
    TabledIn(s, p, u) && !DoneClosed(s.sups[u].pc)
  }

  /** At most one supervisor of p can own a child, and it sits in the slot while Stop has not run. */
  ghost predicate OneActive(s: State, p: ProjectId) {
    && (forall u, v :: ActiveIn(s, p, u) && ActiveIn(s, p, v) ==> u == v)
    && (!s.closed ==> forall u :: ActiveIn(s, p, u) ==> p in s.slots && s.slots[p] == u)
  }

  predicate TakesFrom(s: State, e: Event, p: ProjectId) {
    e.Advance? && e.t in s.calls && s.calls[e.t] == RemoveTake(p)
  }

  lemma ActiveBefore(s: State, e: Event, p: ProjectId, u: SupId)
    requires Inv(s) && Enabled(s, e) && ActiveIn(Apply(s, e), p, u)
    ensures ActiveIn(s, p, u) || (u in s.sups && s.sups[u].project == p && s.sups[u].pc.Made? && Apply(s, e).sups[u].pc.Placed?)
  {
    hide Inv, Apply;
    if u in s.sups {
      SupFollows(s, e, u);
    } else {
      NewSup(s, e, u);
    }
  }

  lemma ClosedStays(s: State, e: Event)
    requires Enabled(s, e)
    ensures s.closed ==> Apply(s, e).closed
    ensures e.Advance? && s.calls[e.t].StopTake? ==> Apply(s, e).closed
  {
    hide NextCall, NextSups, NextSlots, RenderedCall, RenderedSups;
  }

  lemma OneActiveKept(s: State, e: Event, p: ProjectId)
    requires Inv(s) && Enabled(s, e) && OneActive(s, p) && !TakesFrom(s, e, p)
    ensures OneActive(Apply(s, e), p)
  {
    hide Inv, Apply;
    var s' := Apply(s, e);
    ClosedStays(s, e);
    forall u | ActiveIn(s', p, u) ensures !s'.closed ==> p in s'.slots && s'.slots[p] == u {
      ActiveBefore(s, e, p, u);
      if ActiveIn(s, p, u) {
        if !s'.closed {
          SlotEmptied(s, e, p);
        }
      } else {
        PlacedByInsert(s, e, u);
      }
    }
    forall u, v | ActiveIn(s', p, u) && ActiveIn(s', p, v) ensures u == v {
      ActiveBefore(s, e, p, u);
      ActiveBefore(s, e, p, v);
      if !ActiveIn(s, p, u) {
        PlacedByInsert(s, e, u);
      }
      if !ActiveIn(s, p, v) {
        PlacedByInsert(s, e, v);
      }
    }
  }

  /** No RemoveProject(p) reaches the slot table during the run. */
  predicate NeverTaken(s: State, es: seq<Event>, p: ProjectId)
    requires IsRun(s, es)
    decreases |es|
  {
    es == [] || (!TakesFrom(s, es[0], p) && NeverTaken(Apply(s, es[0]), es[1..], p))
  }

  lemma {:induction false} OneActiveAlways(s: State, es: seq<Event>, p: ProjectId)
    requires Inv(s) && OneActive(s, p) && IsRun(s, es) && NeverTaken(s, es, p)
    ensures OneActive(After(s, es), p)
    decreases |es|
  {
    if es != [] {
      InvKept(s, es[0]);
      OneActiveKept(s, es[0], p);
      OneActiveAlways(Apply(s, es[0]), es[1..], p);
    }
  }

  predicate HasChild(s: State, p: ProjectId, u: SupId) {
    u in s.sups && s.sups[u].project == p && s.sups[u].pc.Child?
  }

  /** In every run without RemoveProject(p), two live children of p are one and the same. */
  lemma OneChildPerProject(binary: bool, db: map<ProjectId, string>, es: seq<Event>, p: ProjectId, u: SupId, v: SupId)
    requires IsRun(Init(binary, db), es) && NeverTaken(Init(binary, db), es, p)
    requires HasChild(After(Init(binary, db), es), p, u) && HasChild(After(Init(binary, db), es), p, v)
    ensures u == v
  {
    InvInit(binary, db);
    OneActiveAlways(Init(binary, db), es, p);
    var s := After(Init(binary, db), es);
    assert ActiveIn(s, p, u) && ActiveIn(s, p, v);
  }

  // ----- reachable states; who accounts for an uncancelled supervisor -----

  ghost predicate Reachable(s: State) {
    exists binary, db, es :: IsRun(Init(binary, db), es) && After(Init(binary, db), es) == s
  }

  lemma ReachableInv(s: State)
    requires Reachable(s)
    ensures Inv(s)
  {
    var binary, db, es :| IsRun(Init(binary, db), es) && After(Init(binary, db), es) == s;
    InvInit(binary, db);
    InvAlways(Init(binary, db), es);
  }

  /**
   An uncancelled supervisor never goes missing: before it is offered to the slot table (or
   once refused) its builder carries it; afterwards it is in its slot or held by exactly one
   RemoveProject or Stop that is about to cancel it, and never both.
   */
  lemma UncancelledIsFound(s: State, u: SupId)
    requires Reachable(s) && u in s.sups && !s.sups[u].cancelled
    ensures Tabled(s.sups[u].pc) ==> (InSlot(s, u) <==> !Held(s, u))
    ensures !Tabled(s.sups[u].pc) ==> Carried(s, u)
    ensures forall t, t' :: HeldBy(s, t, u) && HeldBy(s, t', u) ==> t == t'
  {
    ReachableInv(s);
    SupOkOf(s, u);
  }

  /** A race loser stays out for good: never launched, and dropped only once cancelled. */
  lemma {:induction false} LoserNeverRuns(s: State, es: seq<Event>, u: SupId)
    requires Inv(s) && IsRun(s, es) && u in s.sups && (s.sups[u].pc.Lost? || s.sups[u].pc.Dropped?)
    ensures u in After(s, es).sups
    ensures var x := After(s, es).sups[u];
      (x.pc.Lost? || x.pc.Dropped?) && x.starts == 0 && (x.pc.Dropped? ==> x.cancelled && x.closes == 1)
    decreases |es|
  {
    hide Inv;
    SupOkOf(s, u);
    if es != [] {
      InvKept(s, es[0]);
      SupFollows(s, es[0], u);
      LoserNeverRuns(Apply(s, es[0]), es[1..], u);
    }
  }

  /**
   Closing a closed channel, or taking the wait group below zero, would crash the server.
   Neither happens, and the counter is exactly the number of goroutines launched or about to
   be launched and not finished.
   */
  lemma NoDoubleCloseNoNegativeWaitGroup(s: State)
    requires Reachable(s)
    ensures forall u <- s.sups :: s.sups[u].closes <= 1
    ensures s.wg == |set u | u in s.sups && InWaitGroup(s.sups[u].pc)| >= 0
  {
    ReachableInv(s);
    forall u <- s.sups ensures s.sups[u].closes <= 1 {
      SupOkOf(s, u);
    }
  }

  // ----- a goroutine comes to its end only because its context is done -----

  /** Run has returned, or is past its last loop. */
  predicate Over(pc: SupPc) {
    pc.Returning? || pc.Closed? || pc.Finished?
  }

  /** The loop of Run is still going round. */
  predicate Looping(pc: SupPc) {
    pc.Top? || pc.Starting? || pc.Child? || pc.Exited? || pc.Backoff?
  }

  ghost predicate OverWhenDone(s: State) {
    forall u <- s.sups :: Over(s.sups[u].pc) ==> CtxDone(s, u)
  }

  lemma StepsToOver(s: State, e: Event, u: SupId)
    requires Inv(s) && Enabled(s, e) && u in s.sups && !Over(s.sups[u].pc)
    ensures u in Apply(s, e).sups && (Over(Apply(s, e).sups[u].pc) ==> CtxDone(s, u))
  {
    if e.Advance? {
      CallOkOf(s, e.t);
    }
    hide Inv, NextCall, NextSlots;
  }

  lemma OverWhenDoneKept(s: State, e: Event)
    requires Inv(s) && Enabled(s, e) && OverWhenDone(s)
    ensures OverWhenDone(Apply(s, e))
  {
    hide Inv, Apply, CtxDone;
    var s' := Apply(s, e);
    forall u <- s'.sups ensures Over(s'.sups[u].pc) ==> CtxDone(s', u) {
      if u in s.sups {
        if !Over(s.sups[u].pc) {
          StepsToOver(s, e, u);
        }
        if CtxDone(s, u) {
          CtxDoneStays(s, e, u);
        }
      } else {
        NewSup(s, e, u);
      }
    }
  }

  lemma {:induction false} OverWhenDoneAlways(s: State, es: seq<Event>)
    requires Inv(s) && IsRun(s, es) && OverWhenDone(s)
    ensures OverWhenDone(After(s, es))
    decreases |es|
  {
    hide Inv, OverWhenDone;
    if es != [] {
      InvKept(s, es[0]);
      OverWhenDoneKept(s, es[0]);
      OverWhenDoneAlways(Apply(s, es[0]), es[1..]);
    }
  }

  /** A launched supervisor whose context is live is still looping. */
  lemma LiveIsLooping(s: State, u: SupId)
    requires Reachable(s) && u in s.sups && Tabled(s.sups[u].pc) && !Unlaunched(s.sups[u].pc)
    ensures Looping(s.sups[u].pc) || CtxDone(s, u)
  {
    ReachableOver(s);
  }

  lemma ReachableOver(s: State)
    requires Reachable(s)
    ensures OverWhenDone(s)
  {
    var binary, db, es :| IsRun(Init(binary, db), es) && After(Init(binary, db), es) == s;
    InvInit(binary, db);
    OverWhenDoneAlways(Init(binary, db), es);
  }

  // ----- Stop -----

  /** No child, and none can start: not launchable, finished, or certain to see its context done. */
  predicate Harmless(s: State, u: SupId)
    requires u in s.sups
  {
    var pc := s.sups[u].pc;
    || !Tabled(pc) || pc.Finished?
    || (CtxDone(s, u) && (pc.Placed? || pc.Counted? || pc.Top? || pc.Returning? || pc.Closed?))
  }

  predicate Quiet(s: State) {
    s.closed && forall u <- s.sups :: Harmless(s, u)
  }

  /** A spawn paused between its unlock and wg.Add, whose context is still live. */
  predicate PausedLive(s: State, u: SupId) {
    u in s.sups && s.sups[u].pc.Placed? && !CtxDone(s, u)
  }

  /** While Stop call t works, every such spawn is one it is still going to cancel. */
  ghost predicate Stopping(s: State, t: CallId) {
    && s.closed && t in s.calls
    && match s.calls[t]
       case StopCancel(left) => forall u :: PausedLive(s, u) ==> u in left
       case StopWait => forall u :: !PausedLive(s, u)
       case Done(_) => Quiet(s)
       case _ => false
  }

  lemma CtxDoneStays(s: State, e: Event, u: SupId)
    requires Inv(s) && Enabled(s, e) && u in s.sups && CtxDone(s, u)
    ensures u in Apply(s, e).sups && CtxDone(Apply(s, e), u)
  {
    SupFollows(s, e, u);
    FollowsKeeps(s.sups[u], Apply(s, e).sups[u]);
    if s.rootDone {
      RootDoneStays(s, e);
    }
    hide Inv, Follows, Apply;
  }

  lemma FollowsKeeps(x: Sup, y: Sup)
    requires Follows(x, y)
    ensures y.project == x.project && y.rooted == x.rooted && (x.cancelled ==> y.cancelled)
  {
  }

  lemma RootDoneStays(s: State, e: Event)
    requires Enabled(s, e) && s.rootDone
    ensures Apply(s, e).rootDone
  {
    hide NextCall, NextSups, NextSlots, RenderedCall, RenderedSups;
  }

  /** A goroutine whose context is done starts no child and enters no backoff. */
  lemma DoneContextStep(s: State, e: Event, u: SupId)
    requires Inv(s) && Enabled(s, e) && u in s.sups && CtxDone(s, u)
    ensures u in Apply(s, e).sups
    ensures Apply(s, e).sups[u].pc.Starting? ==> s.sups[u].pc.Starting?
    ensures Apply(s, e).sups[u].pc.Backoff? ==> s.sups[u].pc.Backoff?
  {
    if e.Advance? {
      CallOkOf(s, e.t);
    }
    hide Inv, NextCall, NextSlots;
  }

  lemma HarmlessKept(s: State, e: Event, u: SupId)
    requires Inv(s) && Enabled(s, e) && s.closed && u in s.sups && Harmless(s, u)
    ensures u in Apply(s, e).sups && Harmless(Apply(s, e), u)
    ensures Apply(s, e).sups[u].starts == s.sups[u].starts
  {
    hide Inv, Apply;
    SupFollows(s, e, u);
    if CtxDone(s, u) {
      CtxDoneStays(s, e, u);
      DoneContextStep(s, e, u);
    }
    if s.sups[u].pc.Made? && Apply(s, e).sups[u].pc.Placed? {
      PlacedByInsert(s, e, u);
    }
  }

  lemma QuietKept(s: State, e: Event)
    requires Inv(s) && Enabled(s, e) && Quiet(s)
    ensures Quiet(Apply(s, e))
  {
    hide Inv, Apply, Harmless;
    ClosedStays(s, e);
    var s' := Apply(s, e);
    forall u <- s'.sups ensures Harmless(s', u) {
      if u in s.sups {
        HarmlessKept(s, e, u);
      } else {
        NewSup(s, e, u);
        MadeHarmless(s', u);
      }
    }
  }

  lemma MadeHarmless(s: State, u: SupId)
    requires u in s.sups && s.sups[u].pc.Made?
    ensures Harmless(s, u)
  {
  }

  lemma PausedLiveBefore(s: State, e: Event, u: SupId)
    requires Inv(s) && Enabled(s, e) && s.closed && PausedLive(Apply(s, e), u)
    ensures PausedLive(s, u)
  {
    hide Inv, Apply;
    if u in s.sups {
      SupFollows(s, e, u);
      if s.sups[u].pc.Made? {
        PlacedByInsert(s, e, u);
      }
      if CtxDone(s, u) {
        CtxDoneStays(s, e, u);
      }
    } else {
      NewSup(s, e, u);
    }
  }

  /** The wait group at zero leaves only spawns that are paused before wg.Add, and finished ones. */
  lemma ZeroWaitGroup(s: State, u: SupId)
    requires Inv(s) && s.wg == 0 && u in s.sups
    ensures !InWaitGroup(s.sups[u].pc)
  {
    assert u !in Pending(s);
  }

  /** The call whose step the event is. */
  function Actor(e: Event): Option<CallId> {
    match e
    case Advance(t) => Some(t)
    case RenderOk(t, _) => Some(t)
    case RenderFail(t) => Some(t)
    case CancelOne(t, _) => Some(t)
    case CtxExpire(t) => Some(t)
    case _ => None
  }

  lemma OtherCallsStay(s: State, e: Event, t: CallId)
    requires Enabled(s, e) && t in s.calls && Actor(e) != Some(t)
    ensures t in Apply(s, e).calls && Apply(s, e).calls[t] == s.calls[t]
  {
    hide NextCall, NextSups, NextSlots, RenderedCall, RenderedSups;
  }

  lemma StopStep(s: State, e: Event, t: CallId)
    requires Enabled(s, e) && t in s.calls && Actor(e) == Some(t)
    requires s.calls[t].StopCancel? || s.calls[t].StopWait? || s.calls[t].Done?
    ensures t in Apply(s, e).calls
    ensures var c, c' := s.calls[t], Apply(s, e).calls[t];
      || (e.CancelOne? && e.t == t && c.StopCancel? && c' == StopCancel(c.left - {e.u}))
      || (e == Advance(t) && c == StopCancel({}) && c' == StopWait)
      || (e == Advance(t) && c == StopWait && c' == Done(OK) && s.wg == 0)
  {
    hide NextSups, NextSlots;
    if e.Advance? {
      assert s.calls[t].StopCancel? || s.calls[t].StopWait?;
    } else {
      assert e.CancelOne?;
    }
  }

  lemma StopCallMoves(s: State, e: Event, t: CallId)
    requires Enabled(s, e) && t in s.calls && (s.calls[t].StopCancel? || s.calls[t].StopWait? || s.calls[t].Done?)
    ensures t in Apply(s, e).calls
    ensures var c, c' := s.calls[t], Apply(s, e).calls[t];
      || c' == c
      || (e.CancelOne? && e.t == t && c.StopCancel? && c' == StopCancel(c.left - {e.u}))
      || (e == Advance(t) && c == StopCancel({}) && c' == StopWait)
      || (e == Advance(t) && c == StopWait && c' == Done(OK) && s.wg == 0)
  {
    hide Apply;
    if Actor(e) == Some(t) {
      StopStep(s, e, t);
    } else {
      OtherCallsStay(s, e, t);
    }
  }

  lemma CancelOneCancels(s: State, t: CallId, u: SupId)
    requires Enabled(s, CancelOne(t, u))
    ensures !PausedLive(Apply(s, CancelOne(t, u)), u)
  {
  }

  lemma StoppingKept(s: State, e: Event, t: CallId)
    requires Inv(s) && Enabled(s, e) && Stopping(s, t)
    ensures Stopping(Apply(s, e), t)
  {
    hide Inv, Apply, PausedLive, Harmless;
    var s' := Apply(s, e);
    ClosedStays(s, e);
    StopCallMoves(s, e, t);
    if s.calls[t].Done? {
      QuietKept(s, e);
    } else {
      forall u | PausedLive(s', u) ensures PausedLive(s, u) {
        PausedLiveBefore(s, e, u);
      }
      if e.CancelOne? && e.t == t {
        CancelOneCancels(s, t, e.u);
      }
      if s'.calls[t].Done? {
        StopReturnsQuiet(s, t);
        QuietKept(s, e);
      }
    }
  }

  lemma StopReturnsQuiet(s: State, t: CallId)
    requires Inv(s) && Stopping(s, t) && s.calls[t] == StopWait && s.wg == 0
    ensures Quiet(s)
  {
    hide Inv;
    forall u <- s.sups ensures Harmless(s, u) {
      ZeroWaitGroup(s, u);
      assert !PausedLive(s, u);
    }
  }

  lemma {:induction false} StoppingAlways(s: State, es: seq<Event>, t: CallId)
    requires Inv(s) && IsRun(s, es) && Stopping(s, t)
    ensures Stopping(After(s, es), t)
    decreases |es|
  {
    hide Inv, Stopping;
    if es != [] {
      InvKept(s, es[0]);
      StoppingKept(s, es[0], t);
      StoppingAlways(Apply(s, es[0]), es[1..], t);
    }
  }

  lemma {:induction false} QuietForever(s: State, es: seq<Event>, u: SupId)
    requires Inv(s) && IsRun(s, es) && Quiet(s)
    ensures Quiet(After(s, es))
    ensures u in s.sups ==> u in After(s, es).sups && After(s, es).sups[u].starts == s.sups[u].starts
    ensures u !in s.sups && u in After(s, es).sups ==> After(s, es).sups[u].starts == 0
    decreases |es|
  {
    hide Inv, Harmless;
    if es != [] {
      var s' := Apply(s, es[0]);
      InvKept(s, es[0]);
      QuietKept(s, es[0]);
      if u in s.sups {
        HarmlessKept(s, es[0], u);
      } else if u in s'.sups {
        NewSup(s, es[0], u);
      }
      QuietForever(s', es[1..], u);
    }
  }

  /**
   The condition on the moment Stop takes the slot table: no supervisor that some other call
   has taken out and not cancelled is still waiting for its wg.Add with a live context.
   */
  ghost predicate NoneInTransit(s: State) {
    forall u :: Held(s, u) ==> !PausedLive(s, u)
  }

  lemma StopBegins(s: State, t: CallId)
    requires Inv(s) && CanAdvance(s, t) && s.calls[t].StopTake? && NoneInTransit(s)
    ensures Stopping(AdvanceCall(s, t), t)
  {
    var s' := AdvanceCall(s, t);
    var taken := set p | p in s.slots :: s.slots[p];
    assert s'.calls[t] == StopCancel(taken);
    forall u | PausedLive(s', u) ensures u in taken {
      assert PausedLive(s, u);
      assert !s.sups[u].cancelled;
      assert InSlot(s, u);
    }
  }

  /**
   Once a Stop that found none in transit has returned, no child is alive, and none starts in
   any continuation, whatever calls follow and however long a spawn was paused.
   */
  lemma StopIsFinal(s: State, t: CallId, es: seq<Event>, later: seq<Event>, u: SupId)
    requires Reachable(s) && CanAdvance(s, t) && s.calls[t].StopTake? && NoneInTransit(s)
    requires IsRun(AdvanceCall(s, t), es) && t in After(AdvanceCall(s, t), es).calls
    requires After(AdvanceCall(s, t), es).calls[t].Done?
    requires IsRun(After(AdvanceCall(s, t), es), later)
    requires u in After(After(AdvanceCall(s, t), es), later).sups
    ensures var returned := After(AdvanceCall(s, t), es);
            var end := After(returned, later);
      && !end.sups[u].pc.Child?
      && end.sups[u].starts == if u in returned.sups then returned.sups[u].starts else 0
  {
    ReachableInv(s);
    StopBegins(s, t);
    AdvanceKept(s, t);
    hide Inv, AdvanceCall;
    StoppingAlways(AdvanceCall(s, t), es, t);
    InvAlways(AdvanceCall(s, t), es);
    var returned := After(AdvanceCall(s, t), es);
    QuietForever(returned, later, u);
    assert Harmless(After(returned, later), u);
  }
}
