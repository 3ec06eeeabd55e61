/**
 The root context. Start installs it once; every supervisor whose call reads it from then on ends
 with it, and a supervisor whose call was earlier never does.
 */
module RelayRoot {
  import opened Wrappers
  import opened RelayProtocol
  import opened RelayInvariant
  import opened RelayTheorems
  import opened RelayLiveness

  /** Every supervisor built, and every call about to build one, has read the same of the root context. */
  predicate AllRead(s: State, rooted: bool) {
    && (forall u <- s.sups :: s.sups[u].rooted == rooted)
    && (forall t <- s.calls :: s.calls[t].AddRender? ==> s.calls[t].rooted == rooted)
  }

  lemma AllReadKept(s: State, e: Event)
    requires Enabled(s, e) && AllRead(s, s.started) && (e.SetRoot? ==> s.sups == map[] && s.calls == map[])
    ensures AllRead(Apply(s, e), Apply(s, e).started)
  {
    if e.Advance? {
      NextKeepsRoot(s, e.t);
    }
    hide NextSlots, NextSup, CanMove;
  }

  lemma NextKeepsRoot(s: State, t: CallId)
    requires CanAdvance(s, t)
    ensures NextCall(s, s.calls[t]).AddRender? ==> NextCall(s, s.calls[t]).rooted == s.started
    ensures NextSups(s, s.calls[t]).Keys == s.sups.Keys
    ensures forall u <- s.sups :: NextSups(s, s.calls[t])[u].rooted == s.sups[u].rooted
  {
  }

  /** While Start does not come in between, every supervisor reads of the root what the first one read. */
  lemma {:induction false} AllReadAlways(s: State, es: seq<Event>)
    requires IsRun(s, es) && AllRead(s, s.started) && SetRoot !in es
    ensures AllRead(After(s, es), s.started) && After(s, es).started == s.started
    decreases |es|
  {
    hide AllRead;
    if es != [] {
      AllReadKept(s, es[0]);
      StartedBy(s, es[0]);
      hide Apply, Enabled;
      AllReadAlways(Apply(s, es[0]), es[1..]);
    }
  }

  lemma StartedBy(s: State, e: Event)
    requires Enabled(s, e)
    ensures Apply(s, e).started <==> s.started || e == SetRoot
    ensures Apply(s, e).rootDone <==> s.rootDone || e == RootDone
    ensures e == SetRoot ==> !s.started
    ensures e == RootDone ==> s.started
  {
    hide NextCall, NextSups, NextSlots, RenderedCall, RenderedSups;
  }

  lemma {:induction false} FlagsAfter(s: State, es: seq<Event>)
    requires IsRun(s, es)
    ensures After(s, es).started <==> s.started || SetRoot in es
    ensures After(s, es).rootDone <==> s.rootDone || RootDone in es
    decreases |es|
  {
    if es != [] {
      StartedBy(s, es[0]);
      hide Apply, Enabled;
      FlagsAfter(Apply(s, es[0]), es[1..]);
      assert es == [es[0]] + es[1..];
    }
  }

  /** Start can come exactly once, and only after it can the root context be done. */
  lemma StartOnce(binary: bool, db: map<ProjectId, string>, es: seq<Event>)
    requires IsRun(Init(binary, db), es)
    ensures var s := After(Init(binary, db), es);
      && (Enabled(s, SetRoot) <==> SetRoot !in es) && (Enabled(s, RootDone) <==> SetRoot in es)
      && (s.rootDone <==> RootDone in es)
  {
    FlagsAfter(Init(binary, db), es);
  }

  /**
   In a manager that is started before it is used, the done root context reaches everybody: a
   supervisor's context is done exactly when it was cancelled or the root is done. A supervisor in
   the table then makes at most six more moves, in any continuation.
   */
  lemma RootReachesAll(binary: bool, db: map<ProjectId, string>, es: seq<Event>, u: SupId, later: seq<Event>)
    requires IsRun(Init(binary, db), [SetRoot] + es) && u in After(Init(binary, db), [SetRoot] + es).sups
    ensures var s := After(Init(binary, db), [SetRoot] + es);
      && (CtxDone(s, u) <==> s.sups[u].cancelled || RootDone in es)
      && (CtxDone(s, u) && Tabled(s.sups[u].pc) && IsRun(s, later) ==> Moves(s, later, u) <= 6)
  {
    var s0 := Init(binary, db);
    var s1 := Apply(s0, SetRoot);
    var s := After(s0, [SetRoot] + es);
    assert ([SetRoot] + es)[1..] == es && s1.started && AllRead(s1, true);
    InvFromStart(binary, db, [SetRoot] + es);
    assert SetRoot !in es by {
      OnlyOnce(s1, es);
    }
    AllReadAlways(s1, es);
    FlagsAfter(s1, es);
    hide Inv, Apply, Enabled;
    if CtxDone(s, u) && Tabled(s.sups[u].pc) && IsRun(s, later) {
      MovesAreBounded(s, later, u);
    }
  }

  lemma InvFromStart(binary: bool, db: map<ProjectId, string>, es: seq<Event>)
    requires IsRun(Init(binary, db), es)
    ensures Inv(After(Init(binary, db), es))
  {
    InvInit(binary, db);
    hide Inv, Apply, Enabled;
    InvAlways(Init(binary, db), es);
  }

  lemma {:induction false} OnlyOnce(s: State, es: seq<Event>)
    requires IsRun(s, es) && s.started
    ensures SetRoot !in es
    decreases |es|
  {
    if es != [] {
      StartedBy(s, es[0]);
      hide Apply, Enabled;
      OnlyOnce(Apply(s, es[0]), es[1..]);
      assert es == [es[0]] + es[1..];
    }
  }

  /** Whatever is built before Start never ends with the root: only a cancel of its own makes its context done. */
  lemma BuiltBeforeStart(binary: bool, db: map<ProjectId, string>, es: seq<Event>, u: SupId, later: seq<Event>)
    requires IsRun(Init(binary, db), es) && SetRoot !in es && u in After(Init(binary, db), es).sups
    requires IsRun(After(Init(binary, db), es), later)
    ensures var end := After(After(Init(binary, db), es), later);
      u in end.sups && (CtxDone(end, u) <==> end.sups[u].cancelled)
  {
    var s := After(Init(binary, db), es);
    AllReadAlways(Init(binary, db), es);
    InvFromStart(binary, db, es);
    hide Inv, Apply, Enabled;
    RootStays(s, later, u);
  }

  lemma {:induction false} RootStays(s: State, es: seq<Event>, u: SupId)
    requires Inv(s) && IsRun(s, es) && u in s.sups
    ensures u in After(s, es).sups && After(s, es).sups[u].rooted == s.sups[u].rooted
    decreases |es|
  {
    hide Inv, Apply, Enabled;
    if es != [] {
      InvKept(s, es[0]);
      SupFollows(s, es[0], u);
      RootStays(Apply(s, es[0]), es[1..], u);
    }
  }
}
