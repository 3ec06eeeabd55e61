/**
 The manager as an object. The first methods are what AddProject, RemoveProject, Refresh or Stop
 does between two points where another goroutine may run: each updates the fields in place and
 performs exactly one event of the protocol. The operations proper, at the end, run them in
 order with Yield in every gap, where a scheduler lets the other goroutines take any steps they
 can; their contracts say what a caller has when the operation returns, whatever happened in
 the gaps.
 */
module RelayManager {
  import opened Wrappers
  import opened RelayProtocol
  import opened RelayInvariant
  import opened RelayTheorems
  import opened RelayLiveness

  // ----- what others can do in a gap -----

  /** The event is not a step of call t, and does not begin a call of that name. */
  predicate Foreign(e: Event, t: CallId) {
    Actor(e) != Some(t) && !(e.Begin? && e.t == t)
  }

  ghost predicate Reaches(s: State, s': State) {
    exists es :: IsRun(s, es) && After(s, es) == s'
  }

  lemma ReachesSelf(s: State)
    ensures Reaches(s, s)
  {
    assert IsRun(s, []) && After(s, []) == s;
  }

  lemma ReachesStep(s: State, e: Event)
    requires Enabled(s, e)
    ensures Reaches(s, Apply(s, e))
  {
    RunCons(s, e, []);
  }

  lemma ReachesTrans(s: State, m: State, s': State)
    requires Reaches(s, m) && Reaches(m, s')
    ensures Reaches(s, s')
  {
    var a :| IsRun(s, a) && After(s, a) == m;
    var b :| IsRun(m, b) && After(m, b) == s';
    RunAppend(s, a, b);
  }

  /** What holds for good about a supervisor once it holds. */
  predicate Lasting(x: Sup, y: Sup) {
    && y.project == x.project && (x.cancelled ==> y.cancelled) && (DoneClosed(x.pc) ==> DoneClosed(y.pc))
    && (Tabled(x.pc) ==> Tabled(y.pc)) && (Unlaunched(y.pc) ==> Unlaunched(x.pc))
  }

  /** Supervisors move on, the closed flag stays up. */
  ghost predicate Later(s: State, s': State) {
    && (s.closed ==> s'.closed) && s'.binary == s.binary
    && forall u <- s.sups :: u in s'.sups && Lasting(s.sups[u], s'.sups[u])
  }

  lemma FollowsLasting(x: Sup, y: Sup)
    requires Follows(x, y)
    ensures Lasting(x, y)
  {
  }

  lemma LaterStep(s: State, e: Event)
    requires Inv(s) && Enabled(s, e)
    ensures Later(s, Apply(s, e))
  {
    ClosedStays(s, e);
    BinaryStays(s, e);
    hide Inv, Apply, Follows, Lasting;
    forall u <- s.sups ensures u in Apply(s, e).sups && Lasting(s.sups[u], Apply(s, e).sups[u]) {
      SupFollows(s, e, u);
      FollowsLasting(s.sups[u], Apply(s, e).sups[u]);
    }
  }

  lemma BinaryStays(s: State, e: Event)
    requires Enabled(s, e)
    ensures Apply(s, e).binary == s.binary
  {
    hide NextCall, NextSups, NextSlots, RenderedCall, RenderedSups;
  }

  lemma LaterTrans(s: State, m: State, s': State)
    requires Later(s, m) && Later(m, s')
    ensures Later(s, s')
  {
  }

  lemma LaterSelf(s: State)
    ensures Later(s, s)
  {
  }

  /** From s to s', by other goroutines only: call t is where it was. */
  ghost predicate Gap(s: State, s': State, t: CallId) {
    && Inv(s') && Reaches(s, s') && Later(s, s')
    && (t in s.calls <==> t in s'.calls) && (t in s.calls ==> s'.calls[t] == s.calls[t])
  }

  lemma GapStep(s: State, m: State, e: Event, t: CallId)
    requires Gap(s, m, t) && Enabled(m, e) && Foreign(e, t)
    ensures Gap(s, Apply(m, e), t)
  {
    InvKept(m, e);
    LaterStep(m, e);
    LaterTrans(s, m, Apply(m, e));
    ReachesStep(m, e);
    ReachesTrans(s, m, Apply(m, e));
    ForeignKeeps(m, e, t);
    hide Inv, Apply, Later, Reaches;
  }

  lemma ForeignKeeps(s: State, e: Event, t: CallId)
    requires Enabled(s, e) && Foreign(e, t)
    ensures t in Apply(s, e).calls <==> t in s.calls
    ensures t in s.calls ==> Apply(s, e).calls[t] == s.calls[t]
  {
    hide NextCall, NextSups, NextSlots, RenderedCall, RenderedSups;
  }

  lemma GapSelf(s: State, t: CallId)
    requires Inv(s)
    ensures Gap(s, s, t)
  {
    hide Inv;
    ReachesSelf(s);
    LaterSelf(s);
  }

  /** Some run leads from s to s', through states of the invariant. */
  ghost predicate Along(s: State, s': State) {
    Inv(s') && Reaches(s, s') && Later(s, s')
  }

  lemma AlongSelf(s: State)
    requires Inv(s)
    ensures Along(s, s)
  {
    hide Inv;
    ReachesSelf(s);
    LaterSelf(s);
  }

  lemma AlongTrans(s: State, m: State, s': State)
    requires Along(s, m) && Along(m, s')
    ensures Along(s, s')
  {
    hide Inv, Reaches, Later;
    ReachesTrans(s, m, s');
    LaterTrans(s, m, s');
  }

  /** One event of the protocol leads from s to s'. */
  ghost predicate OneEvent(s: State, e: Event, s': State) {
    Enabled(s, e) && s' == Apply(s, e) && Inv(s')
  }

  lemma AdvanceEvent(s: State, t: CallId)
    requires Inv(s) && CanAdvance(s, t)
    ensures OneEvent(s, Advance(t), AdvanceCall(s, t))
  {
    InvKept(s, Advance(t));
    hide Inv;
  }

  lemma AlongStep(s: State, m: State, e: Event, s': State)
    requires Along(s, m) && OneEvent(m, e, s')
    ensures Along(s, s') && Along(m, s')
  {
    hide Inv, Reaches, Later, Apply;
    ReachesStep(m, e);
    ReachesTrans(s, m, s');
    LaterStep(m, e);
    LaterTrans(s, m, s');
  }

  class Manager {
    const binary: bool
    // whatever decides which goroutine runs next, for how many steps at most
    const schedule: (State, nat) -> Option<Event>
    const slice: nat
    var ticks: nat
    // the fields guarded by mu
    var slots: map<ProjectId, SupId>
    var closed: bool
    var started: bool
    var wg: int
    // the world around them: supervisors, calls in flight, root context, rows, files
    var sups: map<SupId, Sup>
    var calls: map<CallId, Call>
    var rootDone: bool
    var db: map<ProjectId, string>
    var files: map<ProjectId, string>

    function Abs(): State
      reads this
    {
      State(binary, started, rootDone, closed, slots, sups, calls, wg, db, files)
    }

    constructor (binary: bool, db: map<ProjectId, string>, schedule: (State, nat) -> Option<Event>, slice: nat)
      ensures Abs() == Init(binary, db) && Inv(Abs())
    {
      this.binary := binary;
      this.schedule, this.slice, ticks := schedule, slice, 0;
      slots, closed, started, wg := map[], false, false, 0;
      sups, calls, rootDone, files := map[], map[], false, map[];
      this.db := db;
      new;
      InvInit(binary, db);
    }

    /** Other goroutines run, as the scheduler decides; t does not. */
    method Yield(t: CallId)
      requires Inv(Abs())
      modifies this
      ensures Gap(old(Abs()), Abs(), t)
    {
      GapSelf(Abs(), t);
      hide Inv, Gap, Apply, Enabled;
      for i := 0 to slice
        invariant Gap(old(Abs()), Abs(), t)
      {
        var next := schedule(Abs(), ticks);
        ticks := ticks + 1;
        if next.Some? && Enabled(Abs(), next.value) && Foreign(next.value, t) {
          GapStep(old(Abs()), Abs(), next.value, t);
          Take(next.value);
        }
      }
    }

    method Take(e: Event)
      requires Enabled(Abs(), e)
      modifies `slots, `closed, `started, `wg, `sups, `calls, `rootDone, `db, `files
      ensures Abs() == Apply(old(Abs()), e)
    {
      hide Apply, Enabled;
      var s := Apply(Abs(), e);
      BinaryStays(Abs(), e);
      slots, closed, started, wg := s.slots, s.closed, s.started, s.wg;
      sups, calls, rootDone, db, files := s.sups, s.calls, s.rootDone, s.db, s.files;
    }

    /** mu.Lock ... mu.Unlock at the head of AddProject. */
    method AddCheckSlot(t: CallId)
      requires Inv(Abs()) && t in calls && calls[t].AddCheck?
      modifies this`calls
      ensures OneEvent(old(Abs()), Advance(t), Abs())
      ensures var p := old(calls)[t].p;
        calls == old(calls)[t := if closed then Done(ErrClosed) else if p in slots then Done(OK) else AddRender(p, started)]
    {
      InvKept(Abs(), Advance(t));
      hide Inv;
      var p := calls[t].p;
      if closed {
        calls := calls[t := Done(ErrClosed)];
        return;
      }
      if p in slots {
        calls := calls[t := Done(OK)];
        return;
      }
      calls := calls[t := AddRender(p, started)];
    }

    /** renderToFile and, outside render-only mode, the construction of the supervisor. */
    method SpawnRender(t: CallId, made: SupId, ioError: bool) returns (ok: bool)
      requires Inv(Abs()) && t in calls && calls[t].AddRender? && made !in sups
      modifies this`calls, this`files, this`sups
      ensures ok == (old(calls)[t].p in db && !ioError)
      ensures OneEvent(old(Abs()), if ok then RenderOk(t, made) else RenderFail(t), Abs())
      ensures calls == old(calls)[t := if !ok then Done(ErrRender) else if binary then AddInsert(old(calls)[t].p, made) else Done(OK)]
    {
      var p, rooted := calls[t].p, calls[t].rooted;
      ok := p in db && !ioError;
      InvKept(Abs(), if ok then RenderOk(t, made) else RenderFail(t));
      hide Inv;
      if !ok {
        calls := calls[t := Done(ErrRender)];
        return;
      }
      files := files[p := db[p]];
      if !binary {
        calls := calls[t := Done(OK)];
        return;
      }
      sups := sups[made := Sup(p, rooted, false, Made, None, 0, 0)];
      calls := calls[t := AddInsert(p, made)];
    }

    /** The final section of spawn: enter the slot, or drop the supervisor just built. */
    method SpawnInsert(t: CallId)
      requires Inv(Abs()) && t in calls && calls[t].AddInsert?
      modifies this`calls, this`slots, this`sups
      ensures OneEvent(old(Abs()), Advance(t), Abs())
      ensures var (p, u) := (old(calls)[t].p, old(calls)[t].u);
        calls == old(calls)[t := if closed then AddLost(p, u, ErrClosed) else if p in old(slots) then AddLost(p, u, OK) else AddCount(p, u)]
      ensures !closed ==> old(calls)[t].p in slots
    {
      CallOkOf(Abs(), t);
      AdvanceEvent(Abs(), t);
      hide Inv, OneEvent;
      var p, u := calls[t].p, calls[t].u;
      if closed {
        calls := calls[t := AddLost(p, u, ErrClosed)];
        sups := sups[u := sups[u].(pc := Lost)];
        return;
      }
      if p in slots {
        calls := calls[t := AddLost(p, u, OK)];
        sups := sups[u := sups[u].(pc := Lost)];
        return;
      }
      slots := slots[p := u];
      sups := sups[u := sups[u].(pc := Placed)];
      calls := calls[t := AddCount(p, u)];
    }

    /** A race loser: cancel(), then close(done), with room for others in between. */
    method LoserStep(t: CallId)
      requires Inv(Abs()) && t in calls && (calls[t].AddLost? || calls[t].AddDrop?)
      modifies this`calls, this`sups
      ensures OneEvent(old(Abs()), Advance(t), Abs())
      ensures var c := old(calls)[t];
        calls == old(calls)[t := if c.AddLost? then AddDrop(c.p, c.u, c.outcome) else Done(c.outcome)]
      ensures var c := old(calls)[t];
        c.AddDrop? ==> c.u in sups && sups[c.u].pc.Dropped? && sups[c.u].cancelled
    {
      CallOkOf(Abs(), t);
      AdvanceEvent(Abs(), t);
      hide Inv, OneEvent;
      var p, u, o := calls[t].p, calls[t].u, calls[t].outcome;
      if calls[t].AddLost? {
        sups := sups[u := sups[u].(cancelled := true)];
        calls := calls[t := AddDrop(p, u, o)];
      } else {
        sups := sups[u := sups[u].(pc := Dropped, closes := sups[u].closes + 1)];
        calls := calls[t := Done(o)];
      }
    }

    /** wg.Add(1), then the go statement. */
    method LaunchStep(t: CallId)
      requires Inv(Abs()) && t in calls && (calls[t].AddCount? || calls[t].AddGo?)
      modifies this`calls, this`sups, this`wg
      ensures OneEvent(old(Abs()), Advance(t), Abs())
      ensures var c := old(calls)[t];
        calls == old(calls)[t := if c.AddCount? then AddGo(c.p, c.u) else Done(OK)]
      ensures old(calls)[t].AddGo? ==> old(calls)[t].u in sups && sups[old(calls)[t].u].pc.Top?
    {
      CallOkOf(Abs(), t);
      AdvanceEvent(Abs(), t);
      hide Inv, OneEvent;
      var p, u := calls[t].p, calls[t].u;
      if calls[t].AddCount? {
        wg := wg + 1;
        sups := sups[u := sups[u].(pc := Counted)];
        calls := calls[t := AddGo(p, u)];
      } else {
        sups := sups[u := sups[u].(pc := Top)];
        calls := calls[t := Done(OK)];
      }
    }

    method RemoveTakeSlot(t: CallId)
      requires Inv(Abs()) && t in calls && calls[t].RemoveTake?
      modifies this`calls, this`slots
      ensures OneEvent(old(Abs()), Advance(t), Abs())
      ensures var p := old(calls)[t].p;
        slots == old(slots) - {p} && calls == old(calls)[t := if p in old(slots) then RemoveCancel(p, old(slots)[p]) else Done(OK)]
    {
      AdvanceEvent(Abs(), t);
      hide Inv, OneEvent;
      var p := calls[t].p;
      calls := calls[t := if p in slots then RemoveCancel(p, slots[p]) else Done(OK)];
      slots := slots - {p};
    }

    method RemoveCancelTaken(t: CallId)
      requires Inv(Abs()) && t in calls && calls[t].RemoveCancel?
      modifies this`calls, this`sups
      ensures OneEvent(old(Abs()), Advance(t), Abs())
      ensures calls == old(calls)[t := Done(OK)] && old(calls)[t].u in sups && sups[old(calls)[t].u].cancelled
    {
      CallOkOf(Abs(), t);
      AdvanceEvent(Abs(), t);
      hide Inv, OneEvent;
      var u := calls[t].u;
      sups := sups[u := sups[u].(cancelled := true)];
      calls := calls[t := Done(OK)];
    }

    method RefreshCaptureSlot(t: CallId)
      requires Inv(Abs()) && t in calls && calls[t].RefreshCapture?
      modifies this`calls
      ensures OneEvent(old(Abs()), Advance(t), Abs())
      ensures var p := old(calls)[t].p;
        calls == old(calls)[t := if closed then Done(ErrClosed) else if p in slots then RefreshRender(p, slots[p]) else AddCheck(p)]
    {
      AdvanceEvent(Abs(), t);
      hide Inv, OneEvent;
      var p := calls[t].p;
      if closed {
        calls := calls[t := Done(ErrClosed)];
        return;
      }
      if p !in slots {
        calls := calls[t := AddCheck(p)];
        return;
      }
      calls := calls[t := RefreshRender(p, slots[p])];
    }

    method RefreshRenderFile(t: CallId, unused: SupId, ioError: bool) returns (ok: bool)
      requires Inv(Abs()) && t in calls && calls[t].RefreshRender? && unused !in sups
      modifies this`calls, this`files
      ensures ok == (old(calls)[t].p in db && !ioError)
      ensures OneEvent(old(Abs()), if ok then RenderOk(t, unused) else RenderFail(t), Abs())
      ensures var c := old(calls)[t];
        calls == old(calls)[t := if !ok then Done(ErrRender) else if binary then RefreshCancel(c.p, c.u) else Done(OK)]
    {
      var p, u := calls[t].p, calls[t].u;
      ok := p in db && !ioError;
      InvKept(Abs(), if ok then RenderOk(t, unused) else RenderFail(t));
      hide Inv;
      if !ok {
        calls := calls[t := Done(ErrRender)];
        return;
      }
      files := files[p := db[p]];
      calls := calls[t := if binary then RefreshCancel(p, u) else Done(OK)];
    }

    method RefreshCancelOld(t: CallId)
      requires Inv(Abs()) && t in calls && calls[t].RefreshCancel?
      modifies this`calls, this`sups
      ensures OneEvent(old(Abs()), Advance(t), Abs())
      ensures calls == old(calls)[t := RefreshAwait(old(calls)[t].p, old(calls)[t].u)]
    {
      CallOkOf(Abs(), t);
      InvKept(Abs(), Advance(t));
      hide Inv;
      var p, u := calls[t].p, calls[t].u;
      sups := sups[u := sups[u].(cancelled := true)];
      calls := calls[t := RefreshAwait(p, u)];
    }

    /** The select on done and the caller's context: it blocks while neither is ready. */
    method RefreshSelect(t: CallId, expired: bool)
      requires Inv(Abs()) && t in calls && calls[t].RefreshAwait?
      requires expired || CanAdvance(Abs(), t)
      modifies this`calls
      ensures OneEvent(old(Abs()), if expired then CtxExpire(t) else Advance(t), Abs())
      ensures var c := old(calls)[t];
        calls == old(calls)[t := if expired then Done(ErrContext) else RefreshDelete(c.p, c.u)]
      ensures old(calls)[t].u in sups && sups[old(calls)[t].u].cancelled
    {
      InvKept(Abs(), if expired then CtxExpire(t) else Advance(t));
      hide Inv;
      var p, u := calls[t].p, calls[t].u;
      calls := calls[t := if expired then Done(ErrContext) else RefreshDelete(p, u)];
    }

    method RefreshFreeSlot(t: CallId)
      requires Inv(Abs()) && t in calls && calls[t].RefreshDelete?
      modifies this`calls, this`slots
      ensures OneEvent(old(Abs()), Advance(t), Abs())
      ensures var c := old(calls)[t];
        calls == old(calls)[t := AddCheck(c.p)] && c.u in sups && sups[c.u].cancelled && DoneClosed(sups[c.u].pc)
    {
      InvKept(Abs(), Advance(t));
      hide Inv;
      var p, u := calls[t].p, calls[t].u;
      if p in slots && slots[p] == u {
        slots := slots - {p};
      }
      calls := calls[t := AddCheck(p)];
    }

    method StopTakeAll(t: CallId)
      requires Inv(Abs()) && t in calls && calls[t].StopTake?
      modifies this`calls, this`slots, this`closed
      ensures OneEvent(old(Abs()), Advance(t), Abs())
      ensures CanAdvance(old(Abs()), t) && Abs() == AdvanceCall(old(Abs()), t) && closed
      ensures calls == old(calls)[t := StopCancel(AllIn(old(slots)))]
    {
      TakeAllEvent(Abs(), t);
      hide Inv, Apply, AllIn;
      var taken := AllIn(slots);
      closed := true;
      slots := map[];
      calls := calls[t := StopCancel(taken)];
    }

    method StopCancelOne(t: CallId, u: SupId)
      requires Inv(Abs()) && t in calls && calls[t].StopCancel? && u in calls[t].left
      modifies this`calls, this`sups
      ensures u in old(sups) && OneEvent(old(Abs()), CancelOne(t, u), Abs())
      ensures sups == old(sups)[u := old(sups)[u].(cancelled := true)]
      ensures calls == old(calls)[t := StopCancel(old(calls)[t].left - {u})]
    {
      CallOkOf(Abs(), t);
      InvKept(Abs(), CancelOne(t, u));
      hide Inv;
      sups := sups[u := sups[u].(cancelled := true)];
      calls := calls[t := StopCancel(calls[t].left - {u})];
    }

    method StopCancelled(t: CallId)
      requires Inv(Abs()) && t in calls && calls[t] == StopCancel({})
      modifies this`calls
      ensures OneEvent(old(Abs()), Advance(t), Abs())
      ensures calls == old(calls)[t := StopWait]
    {
      InvKept(Abs(), Advance(t));
      hide Inv;
      calls := calls[t := StopWait];
    }

    /** wg.Wait() */
    method StopWaitGroup(t: CallId)
      requires Inv(Abs()) && t in calls && calls[t].StopWait? && wg == 0
      modifies this`calls
      ensures OneEvent(old(Abs()), Advance(t), Abs())
      ensures calls == old(calls)[t := Done(OK)]
    {
      InvKept(Abs(), Advance(t));
      hide Inv;
      calls := calls[t := Done(OK)];
    }

    // ----- the operations -----

    method BeginCall(t: CallId, c: Call)
      requires Inv(Abs()) && t !in calls && EntryPoint(c)
      modifies this`calls
      ensures Along(old(Abs()), Abs())
      ensures Abs() == old(Abs()).(calls := old(calls)[t := c])
    {
      ghost var s0 := Abs();
      AlongSelf(s0);
      InvKept(s0, Begin(t, c));
      hide Along, Inv;
      calls := calls[t := c];
      AlongStep(s0, s0, Begin(t, c), Abs());
    }

    method UnusedSup() returns (u: SupId)
      ensures u !in sups
    {
      u := 0;
      ghost var below: set<SupId> := {};
      while u in sups
        invariant below <= sups.Keys && u == |below| && forall k <- below :: 0 <= k < u
        decreases |sups.Keys - below|
      {
        assert sups.Keys - below == (sups.Keys - (below + {u})) + {u};
        below := below + {u};
        u := u + 1;
      }
    }

    /** wg.Add, then the go statement, of a supervisor in its slot. */
    method Launch(t: CallId)
      requires Inv(Abs()) && t in calls && calls[t].AddCount?
      modifies this
      ensures Along(old(Abs()), Abs()) && t in calls && calls[t] == Done(OK)
      ensures old(calls)[t].u in sups && !Unlaunched(sups[old(calls)[t].u].pc)
    {
      hide Along, Inv, Apply, Gap, Enabled, NextSlots;
      ghost var s0 := Abs();
      Pause(t);
      ghost var s1 := Abs();
      LaunchStep(t);
      ghost var m1 := Abs();
      AlongStep(s0, s1, Advance(t), m1);
      Pause(t);
      ghost var s2 := Abs();
      AlongTrans(s0, m1, s2);
      LaunchStep(t);
      AlongStep(s0, s2, Advance(t), Abs());
    }

    /** The two steps of a race loser. */
    method Drop(t: CallId)
      requires Inv(Abs()) && t in calls && calls[t].AddLost?
      modifies this
      ensures Along(old(Abs()), Abs()) && t in calls && calls[t] == Done(old(calls)[t].outcome)
      ensures old(calls)[t].u in sups && sups[old(calls)[t].u].pc.Dropped? && sups[old(calls)[t].u].cancelled
    {
      hide Along, Inv, Apply, Gap, Enabled, NextSlots;
      ghost var s0 := Abs();
      Pause(t);
      ghost var s1 := Abs();
      LoserStep(t);
      ghost var m1 := Abs();
      AlongStep(s0, s1, Advance(t), m1);
      Pause(t);
      ghost var s2 := Abs();
      AlongTrans(s0, m1, s2);
      LoserStep(t);
      AlongStep(s0, s2, Advance(t), Abs());
    }

    /** A gap; whatever happens in it, the call stays where it is. */
    method Pause(t: CallId)
      requires Inv(Abs()) && t in calls
      modifies this
      ensures Along(old(Abs()), Abs()) && t in calls && calls[t] == old(calls)[t] && Inv(Abs())
    {
      Yield(t);
      GapAlong(old(Abs()), Abs(), t);
    }

    /** spawn from its last lock on. */
    method Offer(t: CallId) returns (outcome: Outcome, ghost moment: State)
      requires Inv(Abs()) && t in calls && calls[t].AddInsert?
      modifies this
      ensures Along(old(Abs()), Abs()) && t in calls && calls[t] == Done(outcome)
      ensures outcome in {OK, ErrClosed} && (outcome == ErrClosed ==> closed)
      ensures outcome == OK ==> Along(old(Abs()), moment) && Along(moment, Abs()) && old(calls)[t].p in moment.slots
      ensures old(calls)[t].u in sups && !Unlaunched(sups[old(calls)[t].u].pc)
    {
      hide Along, Inv, Apply, Gap, Enabled;
      ghost var s0 := Abs();
      Pause(t);
      ghost var s1 := Abs();
      SpawnInsert(t);
      moment := Abs();
      AlongStep(s0, s1, Advance(t), Abs());
      if calls[t].AddLost? {
        outcome := calls[t].outcome;
        Drop(t);
        AlongClosed(moment, Abs());
      } else {
        outcome := OK;
        Launch(t);
      }
      AlongTrans(s0, moment, Abs());
    }

    /** spawn. */
    method Spawn(t: CallId, ioError: bool) returns (outcome: Outcome, ghost moment: State, ghost built: Option<SupId>)
      requires Inv(Abs()) && t in calls && calls[t].AddRender?
      modifies this
      ensures Along(old(Abs()), Abs()) && t in calls && calls[t] == Done(outcome)
      ensures outcome in {OK, ErrClosed, ErrRender} && (outcome == ErrClosed ==> closed)
      ensures outcome == OK && binary ==> Along(old(Abs()), moment) && Along(moment, Abs()) && old(calls)[t].p in moment.slots
      ensures built.Some? ==> built.value in sups && !Unlaunched(sups[built.value].pc)
    {
      hide Along, Inv, Apply, Gap, Enabled;
      ghost var s0 := Abs();
      moment, built := s0, None;
      Pause(t);
      ghost var s1 := Abs();
      var u := UnusedSup();
      var ok := SpawnRender(t, u, ioError);
      AlongStep(s0, s1, if ok then RenderOk(t, u) else RenderFail(t), Abs());
      if !ok {
        return ErrRender, s0, None;
      }
      if !binary {
        return OK, s0, None;
      }
      ghost var s2 := Abs();
      built := Some(u);
      outcome, moment := Offer(t);
      AlongTrans(s0, s2, Abs());
      if outcome == OK {
        AlongTrans(s0, s2, moment);
      }
    }

    /** AddProject from its first lock on; Refresh ends with it too. */
    method Add(t: CallId, ioError: bool) returns (outcome: Outcome, ghost moment: State, ghost built: Option<SupId>)
      requires Inv(Abs()) && t in calls && calls[t].AddCheck?
      modifies this
      ensures Along(old(Abs()), Abs()) && t in calls && calls[t] == Done(outcome)
      ensures outcome in {OK, ErrClosed, ErrRender} && (outcome == ErrClosed ==> closed)
      ensures outcome == OK && binary ==> Along(old(Abs()), moment) && Along(moment, Abs()) && old(calls)[t].p in moment.slots
      ensures built.Some? ==> built.value in sups && !Unlaunched(sups[built.value].pc)
    {
      hide Along, Inv, Apply, Gap, CanAdvance, NextSlots, NextSups;
      ghost var s0 := Abs();
      moment, built := s0, None;
      AlongSelf(s0);
      AddCheckSlot(t);
      ghost var m := Abs();
      AlongStep(s0, s0, Advance(t), m);
      if calls[t].Done? {
        outcome := calls[t].outcome;
        AlongSelf(Abs());
        moment := Abs();
        return;
      }
      outcome, moment, built := Spawn(t, ioError);
      AlongTrans(s0, m, Abs());
      if outcome == OK && binary {
        AlongTrans(s0, m, moment);
      }
    }

    /**
     AddProject, whatever runs in its gaps: nil outside render-only mode means that at some moment
     of the call a supervisor of p was in the table; the closed error means Stop has begun; and a
     supervisor the call built is by then launched, or dropped and closed.
     */
    method AddProject(t: CallId, p: ProjectId, ioError: bool) returns (outcome: Outcome, ghost moment: State, ghost built: Option<SupId>)
      requires Inv(Abs()) && t !in calls
      modifies this
      ensures Along(old(Abs()), Abs()) && t in calls && calls[t] == Done(outcome)
      ensures outcome in {OK, ErrClosed, ErrRender} && (outcome == ErrClosed ==> closed)
      ensures outcome == OK && binary ==> Along(old(Abs()), moment) && Along(moment, Abs()) && p in moment.slots
      ensures built.Some? ==> built.value in sups && !Unlaunched(sups[built.value].pc)
    {
      hide Along, Inv;
      BeginCall(t, AddCheck(p));
      ghost var s1 := Abs();
      AlongClosed(old(Abs()), s1);
      outcome, moment, built := Add(t, ioError);
      AlongTrans(old(Abs()), s1, Abs());
      if outcome == OK && binary {
        AlongTrans(old(Abs()), s1, moment);
      }
    }

    /**
     RemoveProject: at some moment of the call the slot of p was emptied, and the supervisor that
     was in it just before, if any, is cancelled when the call returns.
     */
    method RemoveProject(t: CallId, p: ProjectId) returns (ghost before: State, ghost moment: State)
      requires Inv(Abs()) && t !in calls
      modifies this
      ensures Along(old(Abs()), Abs()) && t in calls && calls[t] == Done(OK)
      ensures Along(old(Abs()), before) && Along(before, moment) && Along(moment, Abs())
      ensures moment.slots == before.slots - {p}
      ensures p in before.slots ==> before.slots[p] in sups && sups[before.slots[p]].cancelled
    {
      hide Along, Inv, Apply, Enabled, NextSups, Gap;
      ghost var s0 := Abs();
      BeginCall(t, RemoveTake(p));
      AlongClosed(s0, Abs());
      ghost var s1 := Abs();
      Pause(t);
      before := Abs();
      AlongTrans(s0, s1, before);
      RemoveTakeSlot(t);
      moment := Abs();
      AlongStep(s0, before, Advance(t), Abs());
      AlongSelf(moment);
      AlongSelf(before);
      AlongStep(before, before, Advance(t), Abs());
      if calls[t].Done? {
        return;
      }
      Pause(t);
      ghost var s3 := Abs();
      RemoveCancelTaken(t);
      AlongStep(moment, s3, Advance(t), Abs());
      AlongTrans(s0, moment, Abs());
    }

    /**
     Refresh, against the supervisor that the slot of p held at some moment of the call: nil outside
     render-only mode means that one, if any, is cancelled and over, so that it never has a child
     again, and that afterwards a supervisor of p was in the table; giving up on the context still
     leaves it cancelled.
     */
    method Refresh(t: CallId, p: ProjectId, ioFirst: bool, ioSecond: bool, patience: nat)
        returns (outcome: Outcome, ghost before: State, ghost moment: State)
      requires Inv(Abs()) && t !in calls
      modifies this
      ensures Along(old(Abs()), before) && Along(before, Abs()) && t in calls && calls[t] == Done(outcome)
      ensures outcome == ErrClosed ==> closed
      ensures outcome == OK && binary ==> Along(before, moment) && Along(moment, Abs()) && p in moment.slots
      ensures outcome == OK && binary && p in before.slots ==>
        before.slots[p] in sups && sups[before.slots[p]].cancelled && DoneClosed(sups[before.slots[p]].pc)
      ensures outcome == ErrContext ==>
        p in before.slots && before.slots[p] in sups && sups[before.slots[p]].cancelled
    {
      hide Along, Inv, Apply, Enabled, NextSups, NextSlots, Gap;
      ghost var s0 := Abs();
      BeginCall(t, RefreshCapture(p));
      AlongClosed(s0, Abs());
      ghost var s1 := Abs();
      Pause(t);
      before := Abs();
      AlongTrans(s0, s1, before);
      AlongSelf(before);
      RefreshCaptureSlot(t);
      moment := s0;
      ghost var s3 := Abs();
      AlongStep(before, before, Advance(t), Abs());
      if calls[t].Done? {
        return ErrClosed, before, s0;
      }
      ghost var built: Option<SupId>;
      if calls[t].AddCheck? {
        AlongClosed(before, s3);
        outcome, moment, built := Add(t, ioSecond);
      } else {
        outcome, moment := Replace(t, ioFirst, ioSecond, patience);
      }
      AlongTrans(before, s3, Abs());
      if outcome == OK && binary {
        AlongTrans(before, s3, moment);
      }
    }

    /** Refresh from its first render on: render, cancel the supervisor found, await it, free its slot, add. */
    method Replace(t: CallId, ioFirst: bool, ioSecond: bool, patience: nat) returns (outcome: Outcome, ghost moment: State)
      requires Inv(Abs()) && t in calls && calls[t].RefreshRender?
      modifies this
      ensures Along(old(Abs()), Abs()) && t in calls && calls[t] == Done(outcome)
      ensures outcome == ErrClosed ==> closed
      ensures outcome == OK && binary ==> Along(old(Abs()), moment) && Along(moment, Abs()) && old(calls)[t].p in moment.slots
      ensures var u := old(calls)[t].u;
        (outcome == OK && binary ==> u in sups && sups[u].cancelled && DoneClosed(sups[u].pc))
        && (outcome == ErrContext ==> u in sups && sups[u].cancelled)
    {
      hide Along, Inv, Apply, Enabled, NextSups, NextSlots, Gap;
      ghost var s0 := Abs();
      Pause(t);
      ghost var s1 := Abs();
      var unused := UnusedSup();
      var ok := RefreshRenderFile(t, unused, ioFirst);
      AlongStep(s0, s1, if ok then RenderOk(t, unused) else RenderFail(t), Abs());
      AlongClosed(s0, Abs());
      if !ok {
        return ErrRender, s0;
      }
      if !binary {
        return OK, s0;
      }
      ghost var s2 := Abs();
      outcome, moment := TearDown(t, ioSecond, patience);
      AlongTrans(s0, s2, Abs());
      if outcome == OK {
        AlongTrans(s0, s2, moment);
      }
    }

    /** Refresh from its cancel on. */
    method TearDown(t: CallId, ioSecond: bool, patience: nat) returns (outcome: Outcome, ghost moment: State)
      requires Inv(Abs()) && t in calls && calls[t].RefreshCancel?
      modifies this
      ensures Along(old(Abs()), Abs()) && t in calls && calls[t] == Done(outcome)
      ensures outcome == ErrClosed ==> closed
      ensures outcome == OK && binary ==> Along(old(Abs()), moment) && Along(moment, Abs()) && old(calls)[t].p in moment.slots
      ensures var u := old(calls)[t].u;
        u in sups && sups[u].cancelled && (outcome == OK ==> DoneClosed(sups[u].pc))
    {
      hide Along, Inv, Apply, Enabled, NextSups, NextSlots, Gap;
      ghost var s0 := Abs();
      Pause(t);
      ghost var s1 := Abs();
      RefreshCancelOld(t);
      ghost var s2 := Abs();
      AlongStep(s0, s1, Advance(t), Abs());
      var waited := 0;
      AlongSelf(s2);
      while waited < patience && !CanAdvance(Abs(), t)
        invariant Along(s2, Abs()) && t in calls && calls[t] == s2.calls[t] && Inv(Abs())
      {
        ghost var m := Abs();
        Pause(t);
        AlongTrans(s2, m, Abs());
        waited := waited + 1;
      }
      ghost var s3 := Abs();
      AlongTrans(s0, s2, s3);
      var expired := !CanAdvance(Abs(), t);
      RefreshSelect(t, expired);
      ghost var s4 := Abs();
      AlongStep(s0, s3, if expired then CtxExpire(t) else Advance(t), Abs());
      if expired {
        return ErrContext, s0;
      }
      Pause(t);
      ghost var s5 := Abs();
      AlongTrans(s0, s4, s5);
      RefreshFreeSlot(t);
      ghost var s6 := Abs();
      AlongStep(s0, s5, Advance(t), Abs());
      AlongClosed(s0, s6);
      ghost var built: Option<SupId>;
      ghost var u := s0.calls[t].u;
      outcome, moment, built := Add(t, ioSecond);
      AlongTrans(s0, s6, Abs());
      AlongLasting(s6, Abs(), u);
      if outcome == OK && binary {
        AlongTrans(s0, s6, moment);
      }
    }

    /**
     Stop, for as long as patience lasts: the table is empty for good and everything it took is
     cancelled. When it returns, nothing it took has a child or can start one; if no supervisor
     was in transit when it took the table, that holds of every supervisor there is.
     */
    method Stop(t: CallId, patience: nat) returns (returned: bool, ghost moment: State)
      requires Inv(Abs()) && t !in calls
      modifies this
      ensures Along(old(Abs()), moment) && Along(moment, Abs()) && closed && slots == map[]
      ensures TakenCancelled(moment, Abs())
      ensures returned ==> t in calls && calls[t] == Done(OK) && forall p <- moment.slots :: Harmless(Abs(), moment.slots[p])
      ensures returned && NoneInTransit(moment) ==> Quiet(Abs())
    {
      hide Along, Inv, Apply, Enabled, NextSups, NextSlots, Gap, Harmless, Quiet, NoneInTransit, TakenCancelled;
      ghost var s0 := Abs();
      BeginCall(t, StopTake);
      AlongClosed(s0, Abs());
      ghost var s1 := Abs();
      Pause(t);
      moment := Abs();
      AlongTrans(s0, s1, moment);
      StopTakeAll(t);
      AlongSelf(moment);
      AlongStep(moment, moment, Advance(t), Abs());
      ghost var took := Abs();
      CancelEach(t);
      ghost var s2 := Abs();
      AllTakenCancelled(moment, s2, took.calls[t].left);
      returned := AwaitGroup(t, patience);
      AlongTrans(took, s2, Abs());
      AlongTrans(moment, took, Abs());
      AlongClosed(took, Abs());
      StopLeaves(moment, s2, Abs());
      if returned {
        StopTaken(moment, Abs());
        if NoneInTransit(moment) {
          StopQuiet(moment, Abs(), t);
        }
      }
    }

    /** wg.Wait(), for as long as patience lasts. */
    method AwaitGroup(t: CallId, patience: nat) returns (returned: bool)
      requires Inv(Abs()) && t in calls && calls[t] == StopWait
      modifies this
      ensures Along(old(Abs()), Abs()) && t in calls
      ensures returned ==> calls[t] == Done(OK) && wg == 0
    {
      hide Along, Inv, Apply, Enabled, NextSups, NextSlots, Gap;
      ghost var s0 := Abs();
      AlongSelf(s0);
      var waited := 0;
      while waited < patience && wg != 0
        invariant Along(s0, Abs()) && t in calls && calls[t] == StopWait && Inv(Abs())
      {
        ghost var m := Abs();
        Pause(t);
        AlongTrans(s0, m, Abs());
        waited := waited + 1;
      }
      returned := wg == 0;
      if returned {
        ghost var m := Abs();
        StopWaitGroup(t);
        AlongStep(s0, m, Advance(t), Abs());
      }
    }

    /** The loop of Stop, with a gap before each cancel. */
    method CancelEach(t: CallId)
      requires Inv(Abs()) && t in calls && calls[t].StopCancel?
      modifies this
      ensures Along(old(Abs()), Abs()) && t in calls && calls[t] == StopWait && Inv(Abs())
      ensures forall u <- old(calls)[t].left :: u in sups && sups[u].cancelled
    {
      hide Along, Inv, Apply, Enabled, NextSups, NextSlots, Gap;
      ghost var s0 := Abs();
      AlongSelf(s0);
      var left := calls[t].left;
      ghost var done: set<SupId> := {};
      while left != {}
        invariant Along(s0, Abs()) && t in calls && calls[t] == StopCancel(left) && Inv(Abs())
        invariant done + left == old(calls)[t].left && forall u <- done :: u in sups && sups[u].cancelled
        decreases left
      {
        ghost var m := Abs();
        Pause(t);
        AlongTrans(s0, m, Abs());
        forall u <- done ensures u in sups && sups[u].cancelled {
          AlongLasting(m, Abs(), u);
        }
        ghost var some := Pick(left);
        var u :| u in left;
        ghost var m1 := Abs();
        StopCancelOne(t, u);
        AlongStep(s0, m1, CancelOne(t, u), Abs());
        left := left - {u};
        done := done + {u};
      }
      ghost var m := Abs();
      Pause(t);
      AlongTrans(s0, m, Abs());
      forall u <- done ensures u in sups && sups[u].cancelled {
        AlongLasting(m, Abs(), u);
      }
      ghost var m1 := Abs();
      StopCancelled(t);
      AlongStep(s0, m1, Advance(t), Abs());
    }
  }

  lemma AlongLasting(s: State, s': State, u: SupId)
    requires Along(s, s') && u in s.sups
    ensures u in s'.sups && Lasting(s.sups[u], s'.sups[u])
  {
  }

  lemma StopQuiet(s: State, s': State, t: CallId)
    requires Inv(s) && CanAdvance(s, t) && s.calls[t].StopTake? && NoneInTransit(s)
    requires Along(AdvanceCall(s, t), s') && t in s'.calls && s'.calls[t].Done?
    ensures Quiet(s')
  {
    StopBegins(s, t);
    AdvanceKept(s, t);
    hide Inv, AdvanceCall;
    var es :| IsRun(AdvanceCall(s, t), es) && After(AdvanceCall(s, t), es) == s';
    StoppingAlways(AdvanceCall(s, t), es, t);
  }

  /** Everything the table of s held is cancelled in s'. */
  predicate TakenCancelled(s: State, s': State) {
    forall p <- s.slots :: s.slots[p] in s'.sups && s'.sups[s.slots[p]].cancelled
  }

  lemma AllTakenCancelled(s: State, s': State, taken: set<SupId>)
    requires forall p <- s.slots :: s.slots[p] in taken
    requires forall u <- taken :: u in s'.sups && s'.sups[u].cancelled
    ensures TakenCancelled(s, s')
  {
    forall p <- s.slots ensures s.slots[p] in s'.sups && s'.sups[s.slots[p]].cancelled {
      var u: SupId := s.slots[p];
      assert u in taken;
    }
  }

  /** What Stop took stays cancelled, and the table stays empty. */
  lemma StopLeaves(s: State, m: State, s': State)
    requires Along(m, s') && s'.closed && TakenCancelled(s, m)
    ensures s'.slots == map[] && TakenCancelled(s, s')
  {
    forall p <- s.slots ensures s.slots[p] in s'.sups && s'.sups[s.slots[p]].cancelled {
      AlongLasting(m, s', s.slots[p]);
    }
  }

  lemma StopTaken(s: State, s': State)
    requires Inv(s) && Along(s, s') && s'.wg == 0 && TakenCancelled(s, s')
    ensures forall p <- s.slots :: Harmless(s', s.slots[p])
  {
    forall p <- s.slots ensures Harmless(s', s.slots[p]) {
      var u := s.slots[p];
      assert TabledIn(s, p, u);
      AlongLasting(s, s', u);
      ZeroWaitGroup(s', u);
    }
  }

  lemma GapAlong(s: State, s': State, t: CallId)
    requires Gap(s, s', t)
    ensures Along(s, s')
  {
  }

  lemma AlongClosed(s: State, s': State)
    requires Along(s, s')
    ensures s.closed ==> s'.closed
    ensures s'.binary == s.binary && Inv(s')
  {
  }

  lemma TakeAllEvent(s: State, t: CallId)
    requires Inv(s) && t in s.calls && s.calls[t].StopTake?
    ensures Enabled(s, Advance(t)) && Inv(Apply(s, Advance(t)))
    ensures Apply(s, Advance(t)) ==
      s.(closed := true, slots := map[], calls := s.calls[t := StopCancel(AllIn(s.slots))])
  {
    InvKept(s, Advance(t));
    hide Inv;
  }
}
