/**
 Exactly when a RemoveProject lets a second child of its project come alive. RemoveProject
 cancels without waiting, so the supervisor it takes may still own a child, or start one before
 the cancel, while the next AddProject starts another.
 */
module RelayRemove {
  import opened Wrappers
  import opened RelayProtocol
  import opened RelayInvariant
  import opened RelayTheorems
  import opened RelayLiveness
  import opened RelayLimits

  /** u has a child, is about to start one, or will go round its loop to the next start. */
  predicate CanOwnChild(s: State, u: SupId)
    requires u in s.sups
  {
    var pc := s.sups[u].pc;
    || pc.Starting? || pc.Child?
    || (!CtxDone(s, u) && (pc.Placed? || pc.Counted? || pc.Top? || pc.Exited? || pc.Backoff?))
  }

  /** Call c will offer the slot of p a supervisor whose context is live. */
  predicate Offers(s: State, c: Call, p: ProjectId) {
    c == AddRender(p, false) || (c.AddInsert? && c.p == p && c.u in s.sups && !CtxDone(s, c.u))
  }

  /** A new supervisor of p can get a live context: the root context lets it, or a call in flight began before the root was set. */
  ghost predicate CanOffer(s: State, p: ProjectId) {
    !(s.started && s.rootDone) || exists t :: t in s.calls && Offers(s, s.calls[t], p)
  }

  ghost predicate TwoChildrenAhead(s: State, p: ProjectId) {
    exists es, u, v :: IsRun(s, es) && NeverTaken(s, es, p) && u != v && HasChild(After(s, es), p, u) && HasChild(After(s, es), p, v)
  }

  // ----- never two: the supervisor taken is spent, or no other can live -----

  /** Can own no child now or later. */
  predicate Spent(s: State, u: SupId)
    requires u in s.sups
  {
    CtxDone(s, u) && !s.sups[u].pc.Starting? && !s.sups[u].pc.Child?
  }

  predicate Potent(s: State, p: ProjectId, u: SupId) {
    ActiveIn(s, p, u) && !Spent(s, u)
  }

  lemma SpentStays(s: State, e: Event, u: SupId)
    requires Inv(s) && Enabled(s, e) && u in s.sups && Spent(s, u)
    ensures u in Apply(s, e).sups && Spent(Apply(s, e), u)
  {
    hide Inv, Apply, CtxDone;
    SupFollows(s, e, u);
    CtxDoneStays(s, e, u);
    DoneContextStep(s, e, u);
  }

  lemma PotentBefore(s: State, e: Event, p: ProjectId, u: SupId)
    requires Inv(s) && Enabled(s, e) && Potent(Apply(s, e), p, u)
    ensures Potent(s, p, u) || (u in s.sups && s.sups[u].project == p && s.sups[u].pc.Made? && Apply(s, e).sups[u].pc.Placed?)
  {
    hide Inv, Apply, CtxDone;
    ActiveBefore(s, e, p, u);
    if ActiveIn(s, p, u) && Spent(s, u) {
      SpentStays(s, e, u);
    }
  }

  /** At most one potent supervisor of p, in the slot while Stop has not run. */
  ghost predicate OnePotent(s: State, p: ProjectId) {
    && (forall u, v :: Potent(s, p, u) && Potent(s, p, v) ==> u == v)
    && (!s.closed ==> forall u :: Potent(s, p, u) ==> p in s.slots && s.slots[p] == u)
  }

  lemma OnePotentKept(s: State, e: Event, p: ProjectId)
    requires Inv(s) && Enabled(s, e) && OnePotent(s, p) && !TakesFrom(s, e, p)
    ensures OnePotent(Apply(s, e), p)
  {
    hide Inv, Apply, Spent;
    var s' := Apply(s, e);
    ClosedStays(s, e);
    forall u | Potent(s', p, u) ensures !s'.closed ==> p in s'.slots && s'.slots[p] == u {
      PotentBefore(s, e, p, u);
      if Potent(s, p, u) {
        if !s'.closed {
          SlotEmptied(s, e, p);
        }
      } else {
        PlacedByInsert(s, e, u);
      }
    }
    forall u, v | Potent(s', p, u) && Potent(s', p, v) ensures u == v {
      PotentBefore(s, e, p, u);
      PotentBefore(s, e, p, v);
      if !Potent(s, p, u) {
        PlacedByInsert(s, e, u);
      }
      if !Potent(s, p, v) {
        PlacedByInsert(s, e, v);
      }
    }
  }

  lemma {:induction false} OnePotentAlways(s: State, es: seq<Event>, p: ProjectId)
    requires Inv(s) && IsRun(s, es) && NeverTaken(s, es, p) && OnePotent(s, p)
    ensures OnePotent(After(s, es), p)
    decreases |es|
  {
    hide Inv, OnePotent;
    if es != [] {
      InvKept(s, es[0]);
      OnePotentKept(s, es[0], p);
      OnePotentAlways(Apply(s, es[0]), es[1..], p);
    }
  }

  /** The root context is done, and nothing in flight for p escapes it. */
  ghost predicate NoOffers(s: State, p: ProjectId) {
    s.started && s.rootDone && forall t <- s.calls :: !Offers(s, s.calls[t], p)
  }

  ghost predicate OnlyPotent(s: State, p: ProjectId, u: SupId) {
    NoOffers(s, p) && forall v :: Potent(s, p, v) ==> v == u
  }

  lemma RootStays(s: State, e: Event)
    requires Enabled(s, e)
    ensures s.started ==> Apply(s, e).started
    ensures s.rootDone ==> Apply(s, e).rootDone
  {
    hide NextCall, NextSups, NextSlots, RenderedCall, RenderedSups;
  }

  /** With the root context done, no step of a call makes an offer. */
  lemma OfferComes(s: State, e: Event, t: CallId, p: ProjectId)
    requires Inv(s) && Enabled(s, e) && s.started && s.rootDone && t in Apply(s, e).calls
    requires Offers(Apply(s, e), Apply(s, e).calls[t], p)
    ensures t in s.calls && (s.calls[t] == Apply(s, e).calls[t] || s.calls[t] == AddRender(p, false))
  {
    hide Inv, NextSups, NextSlots;
    if Actor(e) != Some(t) && t in s.calls {
      OtherCallsStay(s, e, t);
    }
  }

  lemma NoOffersKept(s: State, e: Event, p: ProjectId)
    requires Inv(s) && Enabled(s, e) && NoOffers(s, p)
    ensures NoOffers(Apply(s, e), p)
  {
    RootStays(s, e);
    var s' := Apply(s, e);
    hide Inv, Apply, CtxDone;
    forall t <- s'.calls ensures !Offers(s', s'.calls[t], p) {
      if Offers(s', s'.calls[t], p) {
        OfferComes(s, e, t, p);
        var u := s'.calls[t].u;
        CallOkOf(s, t);
        if CtxDone(s, u) {
          CtxDoneStays(s, e, u);
        }
      }
    }
  }

  lemma PlacedFromInsert(s: State, e: Event, u: SupId)
    requires Inv(s) && Enabled(s, e) && u in s.sups && s.sups[u].pc.Made? && Apply(s, e).sups[u].pc.Placed?
    ensures e.Advance? && s.calls[e.t] == AddInsert(s.sups[u].project, u)
  {
    hide Inv, NextCall, NextSlots, RenderedCall;
    if e.Advance? {
      CallOkOf(s, e.t);
    }
  }

  lemma OnlyPotentKept(s: State, e: Event, p: ProjectId, u: SupId)
    requires Inv(s) && Enabled(s, e) && OnlyPotent(s, p, u)
    ensures OnlyPotent(Apply(s, e), p, u)
  {
    NoOffersKept(s, e, p);
    hide Inv, Apply, CtxDone;
    forall v | Potent(Apply(s, e), p, v) ensures v == u {
      PotentBefore(s, e, p, v);
      if !Potent(s, p, v) {
        PlacedFromInsert(s, e, v);
        assert !Offers(s, s.calls[e.t], p);
        CtxDoneStays(s, e, v);
      }
    }
  }

  lemma {:induction false} OnlyPotentAlways(s: State, es: seq<Event>, p: ProjectId, u: SupId)
    requires Inv(s) && IsRun(s, es) && OnlyPotent(s, p, u)
    ensures OnlyPotent(After(s, es), p, u)
    decreases |es|
  {
    hide Inv, OnlyPotent;
    if es != [] {
      InvKept(s, es[0]);
      OnlyPotentKept(s, es[0], p, u);
      OnlyPotentAlways(Apply(s, es[0]), es[1..], p, u);
    }
  }

  lemma ChildIsPotent(s: State, p: ProjectId, u: SupId)
    requires HasChild(s, p, u)
    ensures Potent(s, p, u)
  {
  }

  /** What taking the slot leaves. */
  lemma TakeLeaves(s: State, t: CallId, p: ProjectId)
    requires Inv(s) && t in s.calls && s.calls[t] == RemoveTake(p)
    ensures CanAdvance(s, t)
    ensures AdvanceCall(s, t) == s.(slots := s.slots - {p}, calls := s.calls[t := if p in s.slots then RemoveCancel(p, s.slots[p]) else Done(OK)])
    ensures Inv(AdvanceCall(s, t))
  {
    AdvanceKept(s, t);
    hide Inv;
  }

  lemma NeverTwo(s: State, t: CallId, p: ProjectId)
    requires Inv(s) && OverWhenDone(s) && OneActive(s, p) && t in s.calls && s.calls[t] == RemoveTake(p)
    requires !(p in s.slots && s.slots[p] in s.sups && CanOwnChild(s, s.slots[p]) && CanOffer(s, p))
    ensures CanAdvance(s, t) && !TwoChildrenAhead(AdvanceCall(s, t), p)
  {
    TakeLeaves(s, t, p);
    var s' := AdvanceCall(s, t);
    SlotKnown(s, p);
    hide Inv;
    if es, u, v :| IsRun(s', es) && NeverTaken(s', es, p) && u != v && HasChild(After(s', es), p, u) && HasChild(After(s', es), p, v) {
      ChildIsPotent(After(s', es), p, u);
      ChildIsPotent(After(s', es), p, v);
      if p in s.slots && CanOwnChild(s, s.slots[p]) {
        TakenAlone(s, t, p);
        OnlyPotentAlways(s', es, p, s.slots[p]);
      } else {
        TakenSpent(s, t, p);
        OnePotentAlways(s', es, p);
      }
      assert false;
    }
  }

  lemma SlotKnown(s: State, p: ProjectId)
    requires Inv(s)
    ensures p in s.slots ==> TabledIn(s, p, s.slots[p]) && !s.closed
  {
  }

  lemma TakenSpent(s: State, t: CallId, p: ProjectId)
    requires OverWhenDone(s) && OneActive(s, p) && CanAdvance(s, t)
    requires AdvanceCall(s, t).sups == s.sups && AdvanceCall(s, t).closed == s.closed && AdvanceCall(s, t).rootDone == s.rootDone
    requires p in s.slots ==> TabledIn(s, p, s.slots[p]) && !CanOwnChild(s, s.slots[p])
    ensures OnePotent(AdvanceCall(s, t), p)
  {
    hide AdvanceCall;
    var s' := AdvanceCall(s, t);
    forall u | Potent(s', p, u) ensures ActiveIn(s, p, u) && (p in s.slots ==> s.slots[p] != u) {
    }
  }

  lemma TakenAlone(s: State, t: CallId, p: ProjectId)
    requires Inv(s) && OneActive(s, p) && t in s.calls && s.calls[t] == RemoveTake(p) && p in s.slots && !CanOffer(s, p)
    ensures CanAdvance(s, t) && OnlyPotent(AdvanceCall(s, t), p, s.slots[p])
  {
    TakeLeaves(s, t, p);
    SlotKnown(s, p);
    hide Inv, AdvanceCall;
    var s' := AdvanceCall(s, t);
    forall x <- s'.calls ensures !Offers(s', s'.calls[x], p) {
      assert x != t ==> !Offers(s, s.calls[x], p);
    }
    forall v | Potent(s', p, v) ensures v == s.slots[p] {
      assert ActiveIn(s, p, v);
    }
  }

  // ----- two at once: the supervisor taken has a child while a new one starts -----

  /** Call c is launching u. */
  predicate Launches(c: Call, u: SupId) {
    (c.AddCount? || c.AddGo?) && c.u == u
  }

  /** From s to s' nothing moved but u and the call that launches it. */
  ghost predicate OnlyMoved(s: State, s': State, u: SupId) {
    && u in s.sups && u in s'.sups && s'.sups == s.sups[u := s'.sups[u]] && s'.sups[u].project == s.sups[u].project
    && s'.slots == s.slots && SameSetting(s, s')
    && (forall t | t in s.calls && !Launches(s.calls[t], u) :: t in s'.calls && s'.calls[t] == s.calls[t])
    && s'.calls.Keys == s.calls.Keys
  }

  /** The run advances only calls that are launching a supervisor, and begins none. */
  predicate LaunchingOnly(s: State, es: seq<Event>) {
    forall e <- es :: !e.Begin? && (e.Advance? ==> e.t in s.calls && (s.calls[e.t].AddCount? || s.calls[e.t].AddGo?))
  }

  function Distance(pc: SupPc): nat {
    match pc
    case Placed => 6
    case Counted => 5
    case Exited => 4
    case Backoff => 3
    case Top => 2
    case Starting => 1
    case _ => 0
  }

  lemma LoopNext(x: Sup, done: bool, file: Option<string>)
    requires Looping(x.pc) && !x.pc.Child? && (done ==> x.pc.Starting?)
    ensures var y := NextSup(x, done, file, true);
      && y.project == x.project && y.cancelled == x.cancelled && y.rooted == x.rooted
      && Looping(y.pc) && Distance(y.pc) < Distance(x.pc) && (done ==> y.pc.Child?)
  {
  }

  lemma GoroutineShape(s: State, u: SupId)
    requires CanStep(s, u, true) && !s.sups[u].pc.Closed?
    ensures var e := Goroutine(u, true);
      Enabled(s, e)
      && Apply(s, e) == s.(sups := s.sups[u := NextSup(s.sups[u], CtxDone(s, u), ConfigFile(s, s.sups[u].project), true)])
  {
    hide NextSup, CtxDone, ConfigFile;
  }

  lemma LoopStep(s: State, u: SupId)
    requires u in s.sups && CanOwnChild(s, u) && Looping(s.sups[u].pc) && !s.sups[u].pc.Child?
    ensures var e := Goroutine(u, true);
      Enabled(s, e) && OnlyMoved(s, Apply(s, e), u) && CanOwnChild(Apply(s, e), u)
      && Distance(Apply(s, e).sups[u].pc) < Distance(s.sups[u].pc)
  {
    GoroutineShape(s, u);
    LoopNext(s.sups[u], CtxDone(s, u), ConfigFile(s, s.sups[u].project));
    hide NextSup, ConfigFile, Apply, Enabled, Distance;
  }

  lemma LaunchStep(s: State, t: CallId, u: SupId)
    requires t in s.calls && Launches(s.calls[t], u) && u in s.sups && !CtxDone(s, u)
    requires s.sups[u].pc == if s.calls[t].AddCount? then Placed else Counted
    ensures Enabled(s, Advance(t)) && OnlyMoved(s, Apply(s, Advance(t)), u) && CanOwnChild(Apply(s, Advance(t)), u)
    ensures Distance(Apply(s, Advance(t)).sups[u].pc) < Distance(s.sups[u].pc)
  {
  }

  lemma OneStepUp(s: State, u: SupId) returns (e: Event)
    requires Inv(s) && u in s.sups && CanOwnChild(s, u) && !s.sups[u].pc.Child?
    ensures Enabled(s, e) && OnlyMoved(s, Apply(s, e), u) && CanOwnChild(Apply(s, e), u) && LaunchingOnly(s, [e])
    ensures Distance(Apply(s, e).sups[u].pc) < Distance(s.sups[u].pc)
    ensures forall t <- s.calls :: Apply(s, e).calls[t].AddCount? || Apply(s, e).calls[t].AddGo? ==> s.calls[t].AddCount? || s.calls[t].AddGo?
  {
    if s.sups[u].pc.Placed? || s.sups[u].pc.Counted? {
      var t :| BuiltBy(s, t, u);
      CallOkOf(s, t);
      hide Inv;
      LaunchStep(s, t, u);
      e := Advance(t);
    } else {
      hide Inv;
      LoopStep(s, u);
      e := Goroutine(u, true);
    }
  }

  lemma OnlyMovedTwice(s: State, s1: State, s2: State, u: SupId)
    requires OnlyMoved(s, s1, u) && OnlyMoved(s1, s2, u)
    requires forall t <- s.calls :: t in s1.calls && (Launches(s1.calls[t], u) ==> Launches(s.calls[t], u))
    ensures OnlyMoved(s, s2, u)
  {
  }

  lemma {:induction false} BringToChild(s: State, u: SupId) returns (es: seq<Event>)
    requires Inv(s) && u in s.sups && CanOwnChild(s, u)
    ensures IsRun(s, es) && OnlyMoved(s, After(s, es), u) && After(s, es).sups[u].pc.Child? && LaunchingOnly(s, es)
    decreases Distance(s.sups[u].pc)
  {
    if s.sups[u].pc.Child? {
      es := [];
    } else {
      var e := OneStepUp(s, u);
      var s1 := Apply(s, e);
      InvKept(s, e);
      hide Inv, Apply, Enabled, CanOwnChild;
      var rest := BringToChild(s1, u);
      RunCons(s, e, rest);
      assert forall t <- s.calls :: t in s1.calls;
      OnlyMovedTwice(s, s1, After(s1, rest), u);
      es := [e] + rest;
    }
  }

  // ----- the second supervisor -----

  lemma Unused(ids: set<int>) returns (n: int)
    ensures n !in ids
  {
    n := 0;
    var below: set<int> := {};
    while n in ids
      invariant below <= ids && n == |below| && forall k :: 0 <= k < n ==> k in below
      invariant forall k <- below :: 0 <= k < n
      decreases |ids - below|
    {
      assert ids - (below + {n}) < ids - below by {
        assert n in ids - below;
      }
      SmallerSet(ids - (below + {n}), ids - below);
      below := below + {n};
      n := n + 1;
    }
  }

  lemma SmallerSet(a: set<int>, b: set<int>)
    requires a < b
    ensures |a| < |b|
  {
    assert b == a + (b - a);
  }

  /** The run neither begins a RemoveProject nor lets one take its slot. */
  lemma {:induction false} NoTakeInRun(s: State, es: seq<Event>, p: ProjectId, ts: set<CallId>)
    requires IsRun(s, es) && (forall t <- ts :: t in s.calls ==> !s.calls[t].RemoveTake?)
    requires forall e <- es :: (e.Begin? ==> !e.call.RemoveTake?) && (e.Advance? ==> e.t in ts)
    ensures NeverTaken(s, es, p)
    decreases |es|
  {
    if es != [] {
      forall t <- ts | t in Apply(s, es[0]).calls ensures !Apply(s, es[0]).calls[t].RemoveTake? {
        NoTakeAppears(s, es[0], t);
      }
      hide Apply, Enabled;
      NoTakeInRun(Apply(s, es[0]), es[1..], p, ts);
    }
  }

  lemma NoTakeAppears(s: State, e: Event, t: CallId)
    requires Enabled(s, e) && (t in s.calls ==> !s.calls[t].RemoveTake?) && (e.Begin? ==> !e.call.RemoveTake?)
    requires t in Apply(s, e).calls
    ensures !Apply(s, e).calls[t].RemoveTake?
  {
    hide NextCall, NextSups, NextSlots, RenderedSups;
    if e.Advance? {
      NextIsNoTake(s, s.calls[e.t]);
    }
  }

  lemma NextIsNoTake(s: State, c: Call)
    ensures !NextCall(s, c).RemoveTake?
  {
    hide AllIn;
  }

  /** One event that sets what project p renders to. */
  lemma WriteDb(s: State, p: ProjectId)
    ensures var e := DbWrite(p, Some(""));
      Enabled(s, e) && Apply(s, e) == s.(db := s.db[p := ""])
  {
  }

  lemma RenderUnrooted(s: State, t: CallId, p: ProjectId, v: SupId)
    requires t in s.calls && s.calls[t] == AddRender(p, false) && s.binary && p in s.db && v !in s.sups
    ensures var s' := Apply(s, RenderOk(t, v));
      Enabled(s, RenderOk(t, v)) && s'.calls == s.calls[t := AddInsert(p, v)] && s'.slots == s.slots && SameSetting(s, s')
      && s'.sups == s.sups[v := Sup(p, false, false, Made, None, 0, 0)]
  {
  }

  /** A second supervisor v of p gets a child, while u keeps its own. */
  ghost predicate SecondChild(s: State, es: seq<Event>, p: ProjectId, v: SupId, ts: set<CallId>) {
    && IsRun(s, es) && HasChild(After(s, es), p, v) && (v in s.sups ==> s.sups[v].pc.Made?)
    && (forall u <- s.sups :: u != v ==> u in After(s, es).sups && After(s, es).sups[u] == s.sups[u])
    && forall e <- es :: (e.Begin? ==> !e.call.RemoveTake?) && (e.Advance? ==> e.t in ts)
  }

  lemma SecondByNewCall(s: State, p: ProjectId) returns (es: seq<Event>, v: SupId, ts: set<CallId>)
    requires s.binary && !s.closed && p !in s.slots && !(s.started && s.rootDone)
    ensures SecondChild(s, es, p, v, ts) && forall t <- ts :: t !in s.calls
  {
    WriteDb(s, p);
    var s1 := Apply(s, DbWrite(p, Some("")));
    hide Apply, Enabled;
    var t := Unused(s.calls.Keys);
    v := Unused(s.sups.Keys);
    var rest := AddStartsChild(s1, t, p, v);
    RunCons(s, DbWrite(p, Some("")), rest);
    es := [DbWrite(p, Some(""))] + rest;
    ts := {t};
  }

  lemma SecondByRender(s: State, p: ProjectId, t: CallId) returns (es: seq<Event>, v: SupId)
    requires s.binary && !s.closed && p !in s.slots && t in s.calls && s.calls[t] == AddRender(p, false)
    ensures SecondChild(s, es, p, v, {t})
  {
    WriteDb(s, p);
    var s1 := Apply(s, DbWrite(p, Some("")));
    v := Unused(s.sups.Keys);
    RenderUnrooted(s1, t, p, v);
    var s2 := Apply(s1, RenderOk(t, v));
    hide Apply, Enabled;
    var rest := InsertToChild(s2, t, p, v);
    RunCons(s1, RenderOk(t, v), rest);
    RunCons(s, DbWrite(p, Some("")), [RenderOk(t, v)] + rest);
    es := [DbWrite(p, Some(""))] + ([RenderOk(t, v)] + rest);
  }

  lemma SecondByInsert(s: State, p: ProjectId, t: CallId) returns (es: seq<Event>, v: SupId)
    requires Inv(s) && !s.closed && p !in s.slots && t in s.calls && s.calls[t].AddInsert? && Offers(s, s.calls[t], p)
    ensures SecondChild(s, es, p, v, {t})
  {
    CallOkOf(s, t);
    hide Inv, Apply, Enabled;
    v := s.calls[t].u;
    es := InsertToChild(s, t, p, v);
  }

  /** Some call in flight, or a new one, gives p a second child. */
  lemma SecondStarts(s: State, p: ProjectId) returns (es: seq<Event>, v: SupId, ts: set<CallId>)
    requires Inv(s) && s.binary && !s.closed && p !in s.slots && CanOffer(s, p)
    ensures SecondChild(s, es, p, v, ts) && forall t <- ts :: t in s.calls ==> s.calls[t].AddRender? || s.calls[t].AddInsert?
  {
    if !(s.started && s.rootDone) {
      hide Inv, SecondChild;
      es, v, ts := SecondByNewCall(s, p);
    } else {
      var t :| t in s.calls && Offers(s, s.calls[t], p);
      ts := {t};
      if s.calls[t].AddInsert? {
        hide SecondChild;
        es, v := SecondByInsert(s, p, t);
      } else {
        hide Inv, SecondChild;
        es, v := SecondByRender(s, p, t);
      }
    }
  }

  // ----- both directions -----

  /** Without a binary no supervisor is ever built. */
  ghost predicate BinaryOk(s: State) {
    !s.binary ==> s.sups == map[]
  }

  lemma BinaryKept(s: State, e: Event)
    requires Enabled(s, e) && BinaryOk(s)
    ensures BinaryOk(Apply(s, e))
  {
    hide NextCall, NextSlots, RenderedCall, TouchedSup, NextSup;
  }

  lemma {:induction false} BinaryAlways(s: State, es: seq<Event>)
    requires IsRun(s, es) && BinaryOk(s)
    ensures BinaryOk(After(s, es))
    decreases |es|
  {
    hide Apply, Enabled, BinaryOk;
    if es != [] {
      BinaryKept(s, es[0]);
      BinaryAlways(Apply(s, es[0]), es[1..]);
    }
  }

  lemma ReachableBinary(s: State)
    requires Reachable(s)
    ensures BinaryOk(s)
  {
    var binary, db, es :| IsRun(Init(binary, db), es) && After(Init(binary, db), es) == s;
    BinaryAlways(Init(binary, db), es);
  }

  /** Offers survive a run that moves another supervisor only. */
  lemma OfferSurvives(s: State, s': State, p: ProjectId, u: SupId)
    requires Inv(s) && OnlyMoved(s, s', u) && Tabled(s.sups[u].pc) && CanOffer(s, p)
    ensures CanOffer(s', p)
  {
    if s.started && s.rootDone {
      var t :| t in s.calls && Offers(s, s.calls[t], p);
      CallOkOf(s, t);
      hide Inv;
      assert t in s'.calls && Offers(s', s'.calls[t], p);
    }
  }

  lemma TakeUnmoved(s: State, s': State, u: SupId, t: CallId)
    requires OnlyMoved(s, s', u) && t in s.calls
    ensures s.calls[t].RemoveTake? ==> t in s'.calls && s'.calls[t].RemoveTake?
  {
  }

  lemma TakenRunsBoth(s: State, p: ProjectId, u: SupId) returns (es: seq<Event>, v: SupId)
    requires Inv(s) && s.binary && !s.closed && p !in s.slots && TabledIn(s, p, u) && CanOwnChild(s, u) && CanOffer(s, p)
    ensures IsRun(s, es) && NeverTaken(s, es, p) && u != v && HasChild(After(s, es), p, u) && HasChild(After(s, es), p, v)
  {
    var a := BringToChild(s, u);
    var s1 := After(s, a);
    InvAlways(s, a);
    OfferSurvives(s, s1, p, u);
    var b, w, ts := SecondStarts(s1, p);
    v := w;
    hide Inv, Apply, Enabled, CanOffer, CanOwnChild;
    RunAppend(s, a, b);
    es := a + b;
    var launching := set t | t in s.calls && (s.calls[t].AddCount? || s.calls[t].AddGo?);
    forall t <- ts | t in s.calls ensures !s.calls[t].RemoveTake? {
      TakeUnmoved(s, s1, u, t);
    }
    NoTakeInRun(s, es, p, launching + ts);
  }

  /**
   A RemoveProject(p) that is about to take its slot opens the way to two live children of p,
   with no further RemoveProject(p), exactly when the supervisor it takes can still own a child
   and some AddProject can still give p a supervisor with a live context.
   */
  lemma RemoveExact(s: State, t: CallId, p: ProjectId)
    requires Reachable(s) && OneActive(s, p) && t in s.calls && s.calls[t] == RemoveTake(p)
    ensures CanAdvance(s, t)
    ensures TwoChildrenAhead(AdvanceCall(s, t), p) <==>
      p in s.slots && s.slots[p] in s.sups && CanOwnChild(s, s.slots[p]) && CanOffer(s, p)
  {
    ReachableInv(s);
    ReachableOver(s);
    ReachableBinary(s);
    TakeLeaves(s, t, p);
    if p in s.slots && s.slots[p] in s.sups && CanOwnChild(s, s.slots[p]) && CanOffer(s, p) {
      SlotKnown(s, p);
      var s' := AdvanceCall(s, t);
      TakeKeepsOffer(s, s', t, p);
      hide Inv, AdvanceCall, CanOffer;
      var es, v := TakenRunsBoth(s', p, s.slots[p]);
    } else {
      hide Inv, AdvanceCall, CanOffer, TwoChildrenAhead;
      NeverTwo(s, t, p);
    }
  }

  lemma TakeKeepsOffer(s: State, s': State, t: CallId, p: ProjectId)
    requires CanOffer(s, p) && t in s.calls && s.calls[t].RemoveTake?
    requires s'.sups == s.sups && s'.rootDone == s.rootDone && s'.started == s.started
    requires forall x <- s.calls :: x != t ==> x in s'.calls && s'.calls[x] == s.calls[x]
    ensures CanOffer(s', p)
  {
    if s.started && s.rootDone {
      var x :| x in s.calls && Offers(s, s.calls[x], p);
      assert x in s'.calls && Offers(s', s'.calls[x], p);
    }
  }
}
