/** The inductive invariant of the relay protocol, and its preservation by every event. */
module RelayInvariant {
  import opened Wrappers
  import opened RelayProtocol

  /** Has been in the slot table: everything but a supervisor not yet offered, or refused. */
  predicate Tabled(pc: SupPc) {
    !pc.Made? && !pc.Lost? && !pc.Dropped?
  }

  /** Counted by the wait group. */
  predicate InWaitGroup(pc: SupPc) {
    Tabled(pc) && !pc.Placed? && !pc.Finished?
  }

  /** Still owned by the call that built it: no goroutine runs yet. */
  predicate Unlaunched(pc: SupPc) {
    pc.Made? || pc.Lost? || pc.Placed? || pc.Counted?
  }

  predicate DoneClosed(pc: SupPc) {
    pc.Dropped? || pc.Closed? || pc.Finished?
  }

  /** The supervisor a call has built and still carries. */
  function Built(c: Call): Option<SupId> {
    match c
    case AddInsert(_, u) => Some(u)
    case AddLost(_, u, _) => Some(u)
    case AddDrop(_, u, _) => Some(u)
    case AddCount(_, u) => Some(u)
    case AddGo(_, u) => Some(u)
    case _ => None
  }

  /** The call has taken u out of the slot table and has not cancelled it yet. */
  predicate Holds(c: Call, u: SupId) {
    (c.RemoveCancel? && c.u == u) || (c.StopCancel? && u in c.left)
  }

  predicate BuiltBy(s: State, t: CallId, u: SupId) {
    t in s.calls && Built(s.calls[t]) == Some(u)
  }

  predicate HeldBy(s: State, t: CallId, u: SupId) {
    t in s.calls && Holds(s.calls[t], u)
  }

  predicate InSlot(s: State, u: SupId) {
    u in s.sups && s.sups[u].project in s.slots && s.slots[s.sups[u].project] == u
  }

  predicate TabledIn(s: State, p: ProjectId, u: SupId) {
    u in s.sups && s.sups[u].project == p && Tabled(s.sups[u].pc)
  }

  predicate CallOk(s: State, c: Call) {
    match c
    case AddInsert(p, u) => u in s.sups && s.sups[u].project == p && s.sups[u].pc.Made?
    case AddLost(p, u, _) => u in s.sups && s.sups[u].project == p && s.sups[u].pc.Lost?
    case AddDrop(p, u, _) => u in s.sups && s.sups[u].project == p && s.sups[u].pc.Lost? && s.sups[u].cancelled
    case AddCount(p, u) => u in s.sups && s.sups[u].project == p && s.sups[u].pc.Placed?
    case AddGo(p, u) => u in s.sups && s.sups[u].project == p && s.sups[u].pc.Counted?
    case RemoveCancel(p, u) => TabledIn(s, p, u)
    case RefreshRender(p, u) => TabledIn(s, p, u)
    case RefreshCancel(p, u) => TabledIn(s, p, u)
    case RefreshAwait(p, u) => TabledIn(s, p, u) && s.sups[u].cancelled
    case RefreshDelete(p, u) => TabledIn(s, p, u) && s.sups[u].cancelled && DoneClosed(s.sups[u].pc)
    case StopCancel(left) => s.closed && forall u <- left :: u in s.sups && Tabled(s.sups[u].pc)
    case StopWait => s.closed
    case _ => true
  }

  predicate SlotsOk(s: State) {
    && (s.closed ==> s.slots == map[])
    && forall p <- s.slots :: TabledIn(s, p, s.slots[p])
  }

  predicate CallsOk(s: State) {
    forall t <- s.calls :: CallOk(s, s.calls[t])
  }

  predicate SupOk(x: Sup) {
    && x.closes == (if DoneClosed(x.pc) then 1 else 0)
    && (!Tabled(x.pc) || Unlaunched(x.pc) ==> x.starts == 0)
    && (x.pc.Dropped? ==> x.cancelled)
    && (x.starts == 0 ==> x.config.None?)
    && x.starts >= 0
  }

  predicate SupsOk(s: State) {
    forall u <- s.sups :: SupOk(s.sups[u])
  }

  /** A supervisor is built by one call, held by one call, and never both held and in a slot. */
  ghost predicate SingleOwner(s: State) {
    && (forall t, t', u :: BuiltBy(s, t, u) && BuiltBy(s, t', u) ==> t == t')
    && (forall t, t', u :: HeldBy(s, t, u) && HeldBy(s, t', u) ==> t == t')
    && (forall t, u :: HeldBy(s, t, u) ==> !InSlot(s, u))
  }

  ghost predicate Carried(s: State, u: SupId) {
    exists t :: BuiltBy(s, t, u)
  }

  ghost predicate Held(s: State, u: SupId) {
    exists t :: HeldBy(s, t, u)
  }

  /** Whoever is not launched is carried by its builder; whoever is not cancelled can be found. */
  ghost predicate Owned(s: State) {
    && (forall u <- s.sups :: Unlaunched(s.sups[u].pc) ==> Carried(s, u))
    && (forall u <- s.sups :: !s.sups[u].cancelled && Tabled(s.sups[u].pc) ==> InSlot(s, u) || Held(s, u))
  }

  function Pending(s: State): set<SupId> {
    set u | u in s.sups && InWaitGroup(s.sups[u].pc)
  }

  predicate WgOk(s: State) {
    s.wg == |Pending(s)|
  }

  ghost predicate Inv(s: State) {
    SlotsOk(s) && CallsOk(s) && SupsOk(s) && SingleOwner(s) && Owned(s) && WgOk(s)
  }

  lemma CallOkOf(s: State, t: CallId)
    requires Inv(s) && t in s.calls
    ensures CallOk(s, s.calls[t])
  {
  }

  lemma SupOkOf(s: State, u: SupId)
    requires Inv(s) && u in s.sups
    ensures SupOk(s.sups[u])
  {
  }

  // ----- preservation, by the shape of the change -----

  /** A supervisor record changes without changing who has to account for it. */
  predicate SameStanding(x: Sup, y: Sup) {
    && y.project == x.project
    && (x.cancelled ==> y.cancelled)
    && Tabled(x.pc) == Tabled(y.pc)
    && Unlaunched(x.pc) == Unlaunched(y.pc)
    && (Unlaunched(x.pc) ==> x.pc == y.pc)
    && (DoneClosed(x.pc) ==> DoneClosed(y.pc))
    && SupOk(y)
  }

  lemma SupMovedCalls(s: State, u: SupId, y: Sup)
    requires CallsOk(s) && u in s.sups && SameStanding(s.sups[u], y)
    ensures CallsOk(s.(sups := s.sups[u := y]))
  {
    var s' := s.(sups := s.sups[u := y]);
    forall t <- s'.calls ensures CallOk(s', s'.calls[t]) {
      assert CallOk(s, s.calls[t]);
    }
  }

  lemma SupMovedOwners(s: State, u: SupId, y: Sup)
    requires SingleOwner(s) && Owned(s) && u in s.sups && SameStanding(s.sups[u], y)
    ensures SingleOwner(s.(sups := s.sups[u := y])) && Owned(s.(sups := s.sups[u := y]))
  {
    var s' := s.(sups := s.sups[u := y]);
    SameCallsSameOwners(s, s');
    assert forall v :: InSlot(s', v) == InSlot(s, v);
  }

  lemma SameCallsSameOwners(s: State, s': State)
    requires s'.calls == s.calls
    ensures forall t, v :: BuiltBy(s', t, v) == BuiltBy(s, t, v)
    ensures forall t, v :: HeldBy(s', t, v) == HeldBy(s, t, v)
    ensures forall v :: Carried(s', v) == Carried(s, v)
    ensures forall v :: Held(s', v) == Held(s, v)
  {
    forall v ensures Carried(s', v) == Carried(s, v) && Held(s', v) == Held(s, v) {
      if t :| BuiltBy(s, t, v) { assert BuiltBy(s', t, v); }
      if t :| BuiltBy(s', t, v) { assert BuiltBy(s, t, v); }
      if t :| HeldBy(s, t, v) { assert HeldBy(s', t, v); }
      if t :| HeldBy(s', t, v) { assert HeldBy(s, t, v); }
    }
  }

  function Weight(x: Sup): int {
    if InWaitGroup(x.pc) then 1 else 0
  }

  /** Moving one supervisor changes the size of the pending set by its own weight. */
  lemma PendingMoved(s: State, u: SupId, y: Sup)
    requires u in s.sups
    ensures |Pending(s.(sups := s.sups[u := y]))| == |Pending(s)| + Weight(y) - Weight(s.sups[u])
  {
    var s' := s.(sups := s.sups[u := y]);
    var rest := Pending(s) - {u};
    assert Pending(s') == if InWaitGroup(y.pc) then rest + {u} else rest;
    assert Pending(s) == if InWaitGroup(s.sups[u].pc) then rest + {u} else rest;
  }

  lemma PendingReads(s: State, s': State)
    requires s'.sups == s.sups
    ensures Pending(s') == Pending(s)
  {
  }

  lemma SupMoved(s: State, u: SupId, y: Sup)
    requires Inv(s) && u in s.sups && SameStanding(s.sups[u], y)
    ensures Inv(s.(sups := s.sups[u := y], wg := s.wg + Weight(y) - Weight(s.sups[u])))
  {
    var w := s.(sups := s.sups[u := y]);
    SupMovedCalls(s, u, y);
    SupMovedOwners(s, u, y);
    PendingMoved(s, u, y);
    WgIrrelevant(w, s.wg + Weight(y) - Weight(s.sups[u]));
  }

  lemma WgIrrelevant(s: State, n: int)
    requires SlotsOk(s) && CallsOk(s) && SupsOk(s) && SingleOwner(s) && Owned(s) && n == |Pending(s)|
    ensures Inv(s.(wg := n))
  {
    var s' := s.(wg := n);
    SlotChangeCalls(s, s');
    SameCallsSameOwners(s, s');
    assert forall u :: InSlot(s', u) == InSlot(s, u);
    assert Pending(s') == Pending(s);
  }

  /** A call moves on; what it still has to account for, it carries along. */
  ghost predicate CarriesOn(s: State, t: CallId, c: Call) {
    && CallOk(s, c)
    && (forall u :: Holds(c, u) ==> HeldBy(s, t, u))
    && (forall u :: Built(c) == Some(u) ==> BuiltBy(s, t, u))
    && (forall u <- s.sups :: BuiltBy(s, t, u) && Unlaunched(s.sups[u].pc) ==> Built(c) == Some(u))
    && (forall u <- s.sups :: HeldBy(s, t, u) && !s.sups[u].cancelled ==> Holds(c, u))
  }

  lemma CallMovedCalls(s: State, t: CallId, c: Call)
    requires CallsOk(s) && CallOk(s, c)
    ensures CallsOk(At(s, t, c))
  {
    var s' := At(s, t, c);
    forall t' <- s'.calls ensures CallOk(s', s'.calls[t']) {
      assert t' != t ==> CallOk(s, s.calls[t']);
    }
  }

  lemma CallMovedSingle(s: State, t: CallId, c: Call)
    requires SingleOwner(s) && CarriesOn(s, t, c)
    ensures SingleOwner(At(s, t, c))
  {
    var s' := At(s, t, c);
    assert forall t', u :: BuiltBy(s', t', u) ==> BuiltBy(s, t', u);
    assert forall t', u :: HeldBy(s', t', u) ==> HeldBy(s, t', u);
    assert forall u :: InSlot(s', u) == InSlot(s, u);
  }

  lemma CallMovedOwned(s: State, t: CallId, c: Call)
    requires Owned(s) && CarriesOn(s, t, c)
    ensures Owned(At(s, t, c))
  {
    var s' := At(s, t, c);
    forall u <- s'.sups | Unlaunched(s'.sups[u].pc) ensures Carried(s', u) {
      var t' :| BuiltBy(s, t', u);
      assert BuiltBy(s', t', u);
    }
    forall u <- s'.sups | !s'.sups[u].cancelled && Tabled(s'.sups[u].pc) && !InSlot(s', u) ensures Held(s', u) {
      assert !InSlot(s, u);
      var t' :| HeldBy(s, t', u);
      assert HeldBy(s', t', u);
    }
  }

  lemma CallMoved(s: State, t: CallId, c: Call)
    requires Inv(s) && CarriesOn(s, t, c)
    ensures Inv(At(s, t, c))
  {
    CallMovedCalls(s, t, c);
    CallMovedSingle(s, t, c);
    CallMovedOwned(s, t, c);
    assert Pending(At(s, t, c)) == Pending(s);
  }

  /** The empty-handed case: the call neither carries nor holds anything, before or after. */
  lemma CallMovedFree(s: State, t: CallId, c: Call)
    requires Inv(s) && CallOk(s, c)
    requires t in s.calls ==> Built(s.calls[t]).None? && !s.calls[t].RemoveCancel? && !s.calls[t].StopCancel?
    requires Built(c).None? && !c.RemoveCancel? && !c.StopCancel?
    ensures Inv(At(s, t, c))
  {
    CallMoved(s, t, c);
  }

  lemma CancelKept(s: State, u: SupId)
    requires Inv(s) && u in s.sups
    ensures Inv(Cancel(s, u))
  {
    SupMoved(s, u, s.sups[u].(cancelled := true));
  }

  // ----- slots -----

  /** Emptying a slot is harmless once its supervisor is cancelled. */
  lemma SlotFreed(s: State, p: ProjectId)
    requires Inv(s) && p in s.slots && s.sups[s.slots[p]].cancelled
    ensures Inv(s.(slots := s.slots - {p}))
  {
    var s' := s.(slots := s.slots - {p});
    SameCallsSameOwners(s, s');
    SlotChangeCalls(s, s');
    assert forall u :: InSlot(s', u) ==> InSlot(s, u);
    assert Pending(s') == Pending(s);
  }

  lemma SlotChangeCalls(s: State, s': State)
    requires CallsOk(s) && s'.sups == s.sups && s'.calls == s.calls && (s.closed ==> s'.closed)
    ensures CallsOk(s')
  {
    forall t <- s'.calls ensures CallOk(s', s'.calls[t]) {
      assert CallOk(s, s.calls[t]);
    }
  }

  /** RemoveProject takes a supervisor out of its slot and becomes its holder. */
  lemma TakeSlotKept(s: State, t: CallId, p: ProjectId)
    requires Inv(s) && CanAdvance(s, t) && s.calls[t] == RemoveTake(p)
    ensures Inv(AdvanceCall(s, t))
  {
    var w := s.(slots := s.slots - {p});
    if p in s.slots {
      var u := s.slots[p];
      SlotChangeCalls(s, w);
      CallMovedCalls(w, t, RemoveCancel(p, u));
      TakenOwners(s, At(w, t, RemoveCancel(p, u)), t, {u});
      assert Pending(AdvanceCall(s, t)) == Pending(s);
    } else {
      assert w.slots == s.slots;
      CallMovedFree(s, t, Done(OK));
    }
  }

  /** The supervisors in taken leave their slots and come to be held by call t. */
  lemma TakenOwners(s: State, s': State, t: CallId, taken: set<SupId>)
    requires SingleOwner(s) && Owned(s) && s'.sups == s.sups
    requires t in s.calls && Built(s.calls[t]).None? && (forall u :: !Holds(s.calls[t], u))
    requires t in s'.calls && s'.calls == s.calls[t := s'.calls[t]]
    requires Built(s'.calls[t]).None? && forall u :: Holds(s'.calls[t], u) <==> u in taken
    requires forall u <- taken :: InSlot(s, u)
    requires forall u :: InSlot(s', u) <==> InSlot(s, u) && u !in taken
    ensures SingleOwner(s') && Owned(s')
  {
    assert forall t', u :: BuiltBy(s', t', u) == BuiltBy(s, t', u);
    assert forall t', u | t' != t :: HeldBy(s', t', u) == HeldBy(s, t', u);
    assert forall u :: HeldBy(s', t, u) == (u in taken);
    forall u <- s'.sups | Unlaunched(s'.sups[u].pc) ensures Carried(s', u) {
      var t' :| BuiltBy(s, t', u);
      assert BuiltBy(s', t', u);
    }
    forall u <- s'.sups | !s'.sups[u].cancelled && Tabled(s'.sups[u].pc) && !InSlot(s', u) ensures Held(s', u) {
      if u in taken {
        assert HeldBy(s', t, u);
      } else {
        var t' :| HeldBy(s, t', u);
        assert t' != t;
        assert HeldBy(s', t', u);
      }
    }
  }

  lemma TakeAllKept(s: State, t: CallId)
    requires Inv(s) && CanAdvance(s, t) && s.calls[t] == StopTake
    ensures Inv(AdvanceCall(s, t))
  {
    var taken := AllIn(s.slots);
    var w := s.(closed := true, slots := map[]);
    SlotChangeCalls(s, w);
    CallMovedCalls(w, t, StopCancel(taken));
    forall u ensures InSlot(s, u) <==> u in taken {
      if u in taken {
        var p :| p in s.slots && s.slots[p] == u;
        assert TabledIn(s, p, u);
      }
    }
    TakenOwners(s, At(w, t, StopCancel(taken)), t, taken);
    assert Pending(AdvanceCall(s, t)) == Pending(s);
  }

  lemma DeleteIfSameKept(s: State, t: CallId, p: ProjectId, u: SupId)
    requires Inv(s) && CanAdvance(s, t) && s.calls[t] == RefreshDelete(p, u)
    ensures Inv(AdvanceCall(s, t))
  {
    CallOkOf(s, t);
    hide Inv;
    if p in s.slots && s.slots[p] == u {
      SlotFreed(s, p);
      CallMovedFree(s.(slots := s.slots - {p}), t, AddCheck(p));
    } else {
      CallMovedFree(s, t, AddCheck(p));
    }
  }

  // ----- the builder of a supervisor moves together with it -----

  /** How the supervisor u built by call t, and that call, may move in one step. */
  ghost predicate MovesTogether(s: State, t: CallId, u: SupId, y: Sup, c: Call) {
    && BuiltBy(s, t, u) && u in s.sups
    && y.project == s.sups[u].project
    && (s.sups[u].cancelled ==> y.cancelled)
    && (Tabled(s.sups[u].pc) ==> Tabled(y.pc))
    && (DoneClosed(s.sups[u].pc) ==> DoneClosed(y.pc))
    && SupOk(y)
    && (Built(c) == None || Built(c) == Some(u))
    && (Unlaunched(y.pc) ==> Built(c) == Some(u))
    && !c.RemoveCancel? && !c.StopCancel?
  }

  function Moved(s: State, t: CallId, u: SupId, y: Sup, c: Call): State {
    s.(sups := s.sups[u := y], calls := s.calls[t := c])
  }

  lemma TogetherCalls(s: State, s': State, t: CallId, u: SupId, y: Sup, c: Call)
    requires CallsOk(s) && SingleOwner(s) && MovesTogether(s, t, u, y, c)
    requires s'.sups == s.sups[u := y] && s'.calls == s.calls[t := c] && s'.closed == s.closed
    requires CallOk(s', c)
    ensures CallsOk(s')
  {
    forall t' <- s'.calls ensures CallOk(s', s'.calls[t']) {
      if t' != t {
        assert CallOk(s, s.calls[t']);
        assert !BuiltBy(s, t', u);
      }
    }
  }

  lemma TogetherOwners(s: State, s': State, t: CallId, u: SupId, y: Sup, c: Call)
    requires SingleOwner(s) && Owned(s) && MovesTogether(s, t, u, y, c)
    requires s'.sups == s.sups[u := y] && s'.calls == s.calls[t := c]
    requires forall v | v != u :: InSlot(s', v) == InSlot(s, v)
    requires InSlot(s', u) == InSlot(s, u) || !Held(s, u)
    requires !y.cancelled && Tabled(y.pc) ==> InSlot(s', u) || Held(s, u)
    ensures SingleOwner(s') && Owned(s')
  {
    assert forall t', v :: BuiltBy(s', t', v) ==> BuiltBy(s, t', v);
    assert forall t', v | t' != t :: BuiltBy(s', t', v) == BuiltBy(s, t', v);
    assert forall t', v :: HeldBy(s', t', v) == HeldBy(s, t', v);
    forall v <- s'.sups | Unlaunched(s'.sups[v].pc) ensures Carried(s', v) {
      if v == u {
        assert BuiltBy(s', t, u);
      } else {
        var t' :| BuiltBy(s, t', v);
        assert BuiltBy(s', t', v);
      }
    }
    forall v <- s'.sups | !s'.sups[v].cancelled && Tabled(s'.sups[v].pc) && !InSlot(s', v) ensures Held(s', v) {
      var t' :| HeldBy(s, t', v);
      assert HeldBy(s', t', v);
    }
  }

  /** Nobody holds a supervisor that was never in the slot table. */
  lemma UntabledUnheld(s: State, u: SupId)
    requires CallsOk(s) && u in s.sups && !Tabled(s.sups[u].pc)
    ensures !Held(s, u)
  {
    forall t <- s.calls ensures HeldBy(s, t, u) ==> Tabled(s.sups[u].pc) {
      assert CallOk(s, s.calls[t]);
    }
  }

  lemma Together(s: State, t: CallId, u: SupId, y: Sup, c: Call)
    requires Inv(s) && MovesTogether(s, t, u, y, c)
    requires CallOk(Moved(s, t, u, y, c), c)
    requires !y.cancelled && Tabled(y.pc) ==> Tabled(s.sups[u].pc)
    ensures Inv(Moved(s, t, u, y, c).(wg := s.wg + Weight(y) - Weight(s.sups[u])))
  {
    var w := Moved(s, t, u, y, c);
    assert forall v :: InSlot(w, v) == InSlot(s, v);
    TogetherCalls(s, w, t, u, y, c);
    TogetherOwners(s, w, t, u, y, c);
    PendingMoved(s, u, y);
    PendingReads(w, s.(sups := s.sups[u := y]));
    hide Pending;
    WgIrrelevant(w, s.wg + Weight(y) - Weight(s.sups[u]));
  }

  /** The winner of the race enters the empty slot. */
  lemma PlaceKept(s: State, t: CallId, p: ProjectId, u: SupId)
    requires Inv(s) && t in s.calls && s.calls[t] == AddInsert(p, u) && u in s.sups
    requires !s.closed && p !in s.slots
    ensures Inv(AdvanceCall(s, t))
  {
    var y := s.sups[u].(pc := Placed);
    var s' := Moved(s, t, u, y, AddCount(p, u)).(slots := s.slots[p := u]);
    CallOkOf(s, t);
    SupOkOf(s, u);
    assert BuiltBy(s, t, u);
    assert AdvanceCall(s, t) == s';
    PlaceTables(s, s', p, u, y);
    PlaceOwners(s, s', t, p, u, y);
    hide SlotsOk, SupsOk, SingleOwner, Owned, CallsOk, AdvanceCall;
    PendingMoved(s, u, y);
    PendingReads(s', s.(sups := s.sups[u := y]));
    hide Pending;
  }

  lemma PlaceTables(s: State, s': State, p: ProjectId, u: SupId, y: Sup)
    requires SlotsOk(s) && SupsOk(s) && u in s.sups && s.sups[u].pc.Made? && y == s.sups[u].(pc := Placed) && y.project == p
    requires s'.sups == s.sups[u := y] && !s'.closed && s'.slots == s.slots[p := u]
    ensures SlotsOk(s') && SupsOk(s') && SupOk(y)
  {
    assert SupOk(s.sups[u]);
    forall q <- s'.slots ensures TabledIn(s', q, s'.slots[q]) {
      if q != p {
        assert TabledIn(s, q, s.slots[q]);
      }
    }
  }

  lemma PlaceOwners(s: State, s': State, t: CallId, p: ProjectId, u: SupId, y: Sup)
    requires CallsOk(s) && SlotsOk(s) && SingleOwner(s) && Owned(s) && MovesTogether(s, t, u, y, AddCount(p, u))
    requires s'.sups == s.sups[u := y] && s'.calls == s.calls[t := AddCount(p, u)] && s'.closed == s.closed
    requires y.project == p && y.pc.Placed? && s.sups[u].pc.Made? && p !in s.slots && s'.slots == s.slots[p := u]
    ensures SingleOwner(s') && Owned(s') && CallsOk(s')
  {
    UntabledUnheld(s, u);
    assert InSlot(s', u);
    assert forall v | v != u :: InSlot(s', v) == InSlot(s, v);
    TogetherCalls(s, s', t, u, y, AddCount(p, u));
    TogetherOwners(s, s', t, u, y, AddCount(p, u));
  }

  lemma InsertOrLoseKept(s: State, t: CallId, p: ProjectId, u: SupId)
    requires Inv(s) && CanAdvance(s, t) && s.calls[t] == AddInsert(p, u)
    ensures Inv(AdvanceCall(s, t))
  {
    hide Inv;
    CallOkOf(s, t);
    SupOkOf(s, u);
    if s.closed || p in s.slots {
      assert BuiltBy(s, t, u);
      Together(s, t, u, s.sups[u].(pc := Lost), AddLost(p, u, if s.closed then ErrClosed else OK));
    } else {
      PlaceKept(s, t, p, u);
    }
  }

  lemma CountLaunchKept(s: State, t: CallId, p: ProjectId, u: SupId)
    requires Inv(s) && CanAdvance(s, t) && s.calls[t] == AddCount(p, u)
    ensures Inv(AdvanceCall(s, t))
  {
    hide Inv;
    CallOkOf(s, t);
    SupOkOf(s, u);
    assert BuiltBy(s, t, u);
    Together(s, t, u, s.sups[u].(pc := Counted), AddGo(p, u));
  }

  lemma GoKept(s: State, t: CallId, p: ProjectId, u: SupId)
    requires Inv(s) && CanAdvance(s, t) && s.calls[t] == AddGo(p, u)
    ensures Inv(AdvanceCall(s, t))
  {
    hide Inv;
    CallOkOf(s, t);
    SupOkOf(s, u);
    assert BuiltBy(s, t, u);
    Together(s, t, u, s.sups[u].(pc := Top), Done(OK));
  }

  lemma DropKept(s: State, t: CallId, p: ProjectId, u: SupId, o: Outcome)
    requires Inv(s) && CanAdvance(s, t) && s.calls[t] == AddDrop(p, u, o)
    ensures Inv(AdvanceCall(s, t))
  {
    hide Inv;
    CallOkOf(s, t);
    SupOkOf(s, u);
    assert BuiltBy(s, t, u);
    Together(s, t, u, s.sups[u].(pc := Dropped, closes := s.sups[u].closes + 1), Done(o));
  }

  /** A new supervisor, carried from its first moment by the call that builds it. */
  lemma BuildKept(s: State, t: CallId, p: ProjectId, rooted: bool, u: SupId)
    requires Inv(s) && t in s.calls && s.calls[t] == AddRender(p, rooted) && u !in s.sups
    ensures Inv(s.(sups := s.sups[u := Sup(p, rooted, false, Made, None, 0, 0)], calls := s.calls[t := AddInsert(p, u)]))
  {
    var y := Sup(p, rooted, false, Made, None, 0, 0);
    var s' := s.(sups := s.sups[u := y], calls := s.calls[t := AddInsert(p, u)]);
    forall t' <- s'.calls ensures CallOk(s', s'.calls[t']) {
      assert t' != t ==> CallOk(s, s.calls[t']);
    }
    BuildOwners(s, s', t, p, u);
    assert Pending(s') == Pending(s);
  }

  lemma BuildOwners(s: State, s': State, t: CallId, p: ProjectId, u: SupId)
    requires CallsOk(s) && SlotsOk(s) && SingleOwner(s) && Owned(s) && u !in s.sups
    requires t in s.calls && s.calls[t].AddRender?
    requires s'.slots == s.slots && s'.calls == s.calls[t := AddInsert(p, u)]
    requires u in s'.sups && s'.sups[u].project == p && s'.sups[u].pc.Made? && s'.sups == s.sups[u := s'.sups[u]]
    ensures SingleOwner(s') && Owned(s')
  {
    forall t' ensures !BuiltBy(s, t', u) && !HeldBy(s, t', u) {
      assert t' in s.calls ==> CallOk(s, s.calls[t']);
    }
    assert !InSlot(s', u) by {
      assert p in s.slots ==> TabledIn(s, p, s.slots[p]);
    }
    assert forall t', v | v != u :: BuiltBy(s', t', v) == BuiltBy(s, t', v);
    assert forall t', v :: HeldBy(s', t', v) == HeldBy(s, t', v);
    assert forall v | v != u :: InSlot(s', v) == InSlot(s, v);
    forall v <- s'.sups | Unlaunched(s'.sups[v].pc) ensures Carried(s', v) {
      if v == u {
        assert BuiltBy(s', t, u);
      } else {
        var t' :| BuiltBy(s, t', v);
        assert BuiltBy(s', t', v);
      }
    }
    forall v <- s'.sups | !s'.sups[v].cancelled && Tabled(s'.sups[v].pc) && !InSlot(s', v) ensures Held(s', v) {
      var t' :| HeldBy(s, t', v);
      assert HeldBy(s', t', v);
    }
  }

  // ----- the goroutine, the environment, and the whole step relation -----

  /** Every step of a launched goroutine keeps the standing of its supervisor. */
  lemma GoroutineKept(s: State, u: SupId, choice: bool)
    requires Inv(s) && CanStep(s, u, choice)
    ensures Inv(StepGoroutine(s, u, choice))
  {
    hide Inv;
    SupOkOf(s, u);
    StepShape(s.sups[u], CtxDone(s, u), ConfigFile(s, s.sups[u].project), choice);
    SupMoved(s, u, StepGoroutine(s, u, choice).sups[u]);
  }

  lemma StepShape(x: Sup, done: bool, file: Option<string>, choice: bool)
    requires SupOk(x) && Tabled(x.pc) && !Unlaunched(x.pc)
    ensures var y := NextSup(x, done, file, choice);
      SameStanding(x, y) && Weight(y) - Weight(x) == (if x.pc.Closed? then -1 else 0)
  {
  }

  /** Inv reads nothing of the environment. */
  lemma EnvironmentKept(s: State, s': State)
    requires Inv(s)
    requires s'.closed == s.closed && s'.slots == s.slots && s'.sups == s.sups && s'.calls == s.calls && s'.wg == s.wg
    ensures Inv(s')
  {
    SlotChangeCalls(s, s');
    SameCallsSameOwners(s, s');
    assert forall u :: InSlot(s', u) == InSlot(s, u);
    assert Pending(s') == Pending(s);
  }

  lemma CancelOneKept(s: State, t: CallId, u: SupId)
    requires Inv(s) && Enabled(s, CancelOne(t, u))
    ensures Inv(Apply(s, CancelOne(t, u)))
  {
    hide Inv;
    CancelKept(s, u);
    var w := Cancel(s, u);
    CallOkOf(w, t);
    CallMoved(w, t, StopCancel(s.calls[t].left - {u}));
  }

  lemma CancelHeldKept(s: State, t: CallId, p: ProjectId, u: SupId)
    requires Inv(s) && CanAdvance(s, t) && s.calls[t] == RemoveCancel(p, u)
    ensures Inv(AdvanceCall(s, t))
  {
    hide Inv;
    CallOkOf(s, t);
    CancelKept(s, u);
    CallMoved(Cancel(s, u), t, Done(OK));
  }

  lemma CancelLostKept(s: State, t: CallId, p: ProjectId, u: SupId, o: Outcome)
    requires Inv(s) && CanAdvance(s, t) && s.calls[t] == AddLost(p, u, o)
    ensures Inv(AdvanceCall(s, t))
  {
    hide Inv;
    CallOkOf(s, t);
    CancelKept(s, u);
    CallMoved(Cancel(s, u), t, AddDrop(p, u, o));
  }

  lemma CancelCapturedKept(s: State, t: CallId, p: ProjectId, u: SupId)
    requires Inv(s) && CanAdvance(s, t) && s.calls[t] == RefreshCancel(p, u)
    ensures Inv(AdvanceCall(s, t))
  {
    hide Inv;
    CallOkOf(s, t);
    CancelKept(s, u);
    CallMovedFree(Cancel(s, u), t, RefreshAwait(p, u));
  }

  lemma AwaitKept(s: State, t: CallId, p: ProjectId, u: SupId)
    requires Inv(s) && CanAdvance(s, t) && s.calls[t] == RefreshAwait(p, u)
    ensures Inv(AdvanceCall(s, t))
  {
    hide Inv;
    CallOkOf(s, t);
    SupOkOf(s, u);
    CallMovedFree(s, t, RefreshDelete(p, u));
  }

  lemma CaptureKept(s: State, t: CallId, p: ProjectId)
    requires Inv(s) && CanAdvance(s, t) && s.calls[t] == RefreshCapture(p)
    ensures Inv(AdvanceCall(s, t))
  {
    assert p in s.slots ==> TabledIn(s, p, s.slots[p]);
    CallMovedFree(s, t, NextCall(s, s.calls[t]));
  }

  lemma AdvanceKept(s: State, t: CallId)
    requires Inv(s) && CanAdvance(s, t)
    ensures Inv(AdvanceCall(s, t))
  {
    hide Inv;
    CallOkOf(s, t);
    match s.calls[t]
    case AddCheck(p) => CallMovedFree(s, t, NextCall(s, s.calls[t]));
    case AddInsert(p, u) => InsertOrLoseKept(s, t, p, u);
    case AddLost(p, u, o) => CancelLostKept(s, t, p, u, o);
    case AddDrop(p, u, o) => DropKept(s, t, p, u, o);
    case AddCount(p, u) => CountLaunchKept(s, t, p, u);
    case AddGo(p, u) => GoKept(s, t, p, u);
    case RemoveTake(p) => TakeSlotKept(s, t, p);
    case RemoveCancel(p, u) => CancelHeldKept(s, t, p, u);
    case RefreshCapture(p) =>
      CaptureKept(s, t, p);
    case RefreshCancel(p, u) => CancelCapturedKept(s, t, p, u);
    case RefreshAwait(p, u) => AwaitKept(s, t, p, u);
    case RefreshDelete(p, u) => DeleteIfSameKept(s, t, p, u);
    case StopTake => TakeAllKept(s, t);
    case StopCancel(_) => CallMoved(s, t, StopWait);
    case StopWait => CallMovedFree(s, t, Done(OK));
  }

  lemma AddRenderKept(s: State, t: CallId, p: ProjectId, rooted: bool, made: SupId)
    requires Inv(s) && Enabled(s, RenderOk(t, made)) && s.calls[t] == AddRender(p, rooted)
    ensures Inv(Apply(s, RenderOk(t, made)))
  {
    hide Inv;
    CallOkOf(s, t);
    var w := s.(files := s.files[p := s.db[p]]);
    EnvironmentKept(s, w);
    if s.binary {
      BuildKept(w, t, p, rooted, made);
    } else {
      CallMovedFree(w, t, Done(OK));
    }
  }

  lemma RenderKept(s: State, t: CallId, made: SupId)
    requires Inv(s) && Enabled(s, RenderOk(t, made))
    ensures Inv(Apply(s, RenderOk(t, made)))
  {
    hide Inv;
    CallOkOf(s, t);
    match s.calls[t]
    case AddRender(p, rooted) => AddRenderKept(s, t, p, rooted, made);
    case RefreshRender(p, u) =>
      var w := s.(files := s.files[p := s.db[p]]);
      EnvironmentKept(s, w);
      CallMovedFree(w, t, if s.binary then RefreshCancel(p, u) else Done(OK));
  }

  lemma InvKept(s: State, e: Event)
    requires Inv(s) && Enabled(s, e)
    ensures Inv(Apply(s, e))
  {
    hide Inv;
    match e
    case Begin(t, c) => CallMovedFree(s, t, c);
    case Advance(t) => AdvanceKept(s, t);
    case RenderOk(t, made) => RenderKept(s, t, made);
    case RenderFail(t) => CallMovedFree(s, t, Done(ErrRender));
    case CancelOne(t, u) => CancelOneKept(s, t, u);
    case CtxExpire(t) => CallMovedFree(s, t, Done(ErrContext));
    case Goroutine(u, choice) => GoroutineKept(s, u, choice);
    case SetRoot => EnvironmentKept(s, Apply(s, e));
    case RootDone => EnvironmentKept(s, Apply(s, e));
    case DbWrite(_, _) => EnvironmentKept(s, Apply(s, e));
  }

  lemma {:induction false} InvAlways(s: State, es: seq<Event>)
    requires Inv(s) && IsRun(s, es)
    ensures Inv(After(s, es))
    decreases |es|
  {
    if es != [] {
      InvKept(s, es[0]);
      InvAlways(Apply(s, es[0]), es[1..]);
    }
  }

  lemma InvInit(binary: bool, db: map<ProjectId, string>)
    ensures Inv(Init(binary, db))
  {
    assert Pending(Init(binary, db)) == {};
  }
}
