/** The one-child guarantee stops at RemoveProject, which cancels without waiting. */
module RelayLimits {
  import opened Wrappers
  import opened RelayProtocol
  import opened RelayTheorems
  import opened RelayLiveness

  /** An AddProject of p would go through, with call t and a new supervisor u. */
  predicate CanAdd(s: State, t: CallId, p: ProjectId, u: SupId) {
    && t !in s.calls && u !in s.sups && s.binary && p in s.db && !s.closed && p !in s.slots
    && !(s.started && s.rootDone)
  }

  predicate SameSetting(s: State, s': State) {
    && s'.db == s.db && s'.binary == s.binary && s'.closed == s.closed
    && s'.started == s.started && s'.rootDone == s.rootDone
  }

  /** Call t has come to c, and u, a supervisor of p with a live context, to y. */
  predicate Added(s: State, s': State, t: CallId, p: ProjectId, u: SupId, c: Call) {
    && u in s'.sups && s'.sups == s.sups[u := s'.sups[u]] && s'.calls == s.calls[t := c]
    && s'.sups[u].project == p && !CtxDone(s', u)
    && SameSetting(s, s')
  }

  /** A run in which only call t advances, and no RemoveProject begins. */
  predicate OnlyCall(es: seq<Event>, t: CallId) {
    forall e <- es :: (e.Begin? ==> !e.call.RemoveTake?) && (e.Advance? ==> e.t == t)
  }

  lemma AddBuilds(s: State, t: CallId, p: ProjectId, u: SupId) returns (es: seq<Event>)
    requires CanAdd(s, t, p, u)
    ensures IsRun(s, es) && Added(s, After(s, es), t, p, u, AddInsert(p, u)) && After(s, es).slots == s.slots
    ensures OnlyCall(es, t)
  {
    var s1 := Apply(s, Begin(t, AddCheck(p)));
    var s2 := Apply(s1, Advance(t));
    RunCons(s2, RenderOk(t, u), []);
    RunCons(s1, Advance(t), [RenderOk(t, u)]);
    RunCons(s, Begin(t, AddCheck(p)), [Advance(t)] + [RenderOk(t, u)]);
    es := [Begin(t, AddCheck(p))] + ([Advance(t)] + [RenderOk(t, u)]);
  }

  lemma InsertLaunches(s: State, t: CallId, p: ProjectId, u: SupId) returns (es: seq<Event>)
    requires t in s.calls && s.calls[t] == AddInsert(p, u) && !s.closed && p !in s.slots
    requires u in s.sups && s.sups[u].project == p && !CtxDone(s, u)
    ensures IsRun(s, es) && Added(s, After(s, es), t, p, u, Done(OK))
    ensures After(s, es).slots == s.slots[p := u] && After(s, es).sups[u].pc.Top?
    ensures OnlyCall(es, t)
  {
    var s1 := Apply(s, Advance(t));
    var s2 := Apply(s1, Advance(t));
    RunCons(s2, Advance(t), []);
    RunCons(s1, Advance(t), [Advance(t)]);
    RunCons(s, Advance(t), [Advance(t)] + [Advance(t)]);
    es := [Advance(t)] + ([Advance(t)] + [Advance(t)]);
  }

  lemma ChildStarts(s: State, u: SupId, t: CallId) returns (es: seq<Event>)
    requires u in s.sups && s.sups[u].pc.Top? && !CtxDone(s, u)
    ensures IsRun(s, es) && HasChild(After(s, es), s.sups[u].project, u) && SameSetting(s, After(s, es))
    ensures After(s, es).sups == s.sups[u := After(s, es).sups[u]]
    ensures After(s, es).calls == s.calls && After(s, es).slots == s.slots
    ensures OnlyCall(es, t)
  {
    var e := Goroutine(u, true);
    var s' := Apply(s, e);
    RunCons(s', e, []);
    RunCons(s, e, [e]);
    es := [e] + [e];
  }

  /** From its insertion on. */
  lemma InsertToChild(s: State, t: CallId, p: ProjectId, u: SupId) returns (es: seq<Event>)
    requires t in s.calls && s.calls[t] == AddInsert(p, u) && !s.closed && p !in s.slots
    requires u in s.sups && s.sups[u].project == p && !CtxDone(s, u)
    ensures IsRun(s, es) && HasChild(After(s, es), p, u) && SameSetting(s, After(s, es))
    ensures After(s, es).slots == s.slots[p := u] && After(s, es).sups == s.sups[u := After(s, es).sups[u]]
    ensures After(s, es).calls == s.calls[t := Done(OK)]
    ensures OnlyCall(es, t)
  {
    hide Apply, Enabled, CtxDone;
    var b := InsertLaunches(s, t, p, u);
    var s2 := After(s, b);
    var c := ChildStarts(s2, u, t);
    RunAppend(s, b, c);
    es := b + c;
  }

  /** One whole AddProject, and its supervisor on to its first child. */
  lemma AddStartsChild(s: State, t: CallId, p: ProjectId, u: SupId) returns (es: seq<Event>)
    requires CanAdd(s, t, p, u)
    ensures IsRun(s, es) && HasChild(After(s, es), p, u) && SameSetting(s, After(s, es))
    ensures After(s, es).slots == s.slots[p := u] && After(s, es).sups == s.sups[u := After(s, es).sups[u]]
    ensures After(s, es).calls == s.calls[t := Done(OK)]
    ensures OnlyCall(es, t)
  {
    var a := AddBuilds(s, t, p, u);
    hide Apply, Enabled, CtxDone;
    var s1 := After(s, a);
    var b := InsertToChild(s1, t, p, u);
    RunAppend(s, a, b);
    es := a + b;
  }

  lemma RemoveCancels(s: State, t: CallId, p: ProjectId) returns (es: seq<Event>)
    requires t !in s.calls && p in s.slots && s.slots[p] in s.sups
    ensures IsRun(s, es)
    ensures var s' := After(s, es);
      s' == s.(slots := s.slots - {p}, calls := s.calls[t := Done(OK)],
               sups := s.sups[s.slots[p] := s.sups[s.slots[p]].(cancelled := true)])
  {
    var s1 := Apply(s, Begin(t, RemoveTake(p)));
    var s2 := Apply(s1, Advance(t));
    RunCons(s2, Advance(t), []);
    RunCons(s1, Advance(t), [Advance(t)]);
    RunCons(s, Begin(t, RemoveTake(p)), [Advance(t)] + [Advance(t)]);
    es := [Begin(t, RemoveTake(p))] + ([Advance(t)] + [Advance(t)]);
  }

  /**
   Wherever AddProject(p) would go through, the calls Add, Remove, Add, each run to its end
   before the next begins, can leave two children of p alive: without the restriction to runs
   that never take p, OneChildPerProject is false.
   */
  lemma RemoveAllowsTwoChildren(s: State, p: ProjectId, t0: CallId, t1: CallId, t2: CallId, u: SupId, v: SupId)
    returns (es: seq<Event>)
    requires CanAdd(s, t0, p, u) && CanAdd(s, t2, p, v) && t1 !in s.calls
    requires t0 != t1 && t1 != t2 && t0 != t2 && u != v
    ensures IsRun(s, es) && HasChild(After(s, es), p, u) && HasChild(After(s, es), p, v)
  {
    hide Apply, Enabled;
    var a := AddStartsChild(s, t0, p, u);
    var s1 := After(s, a);
    var b := RemoveCancels(s1, t1, p);
    var s2 := After(s1, b);
    var c := AddStartsChild(s2, t2, p, v);
    RunAppend(s1, b, c);
    RunAppend(s, a, b + c);
    es := a + (b + c);
  }
}
