/**
 What one Refresh achieves when no other call works on the same project: a nil result means
 one supervisor running the config that the database rendered to, and a failed render never
 costs more than what the call had already given up.
 */
module RelayRefresh {
  import opened Wrappers
  import opened RelayProtocol
  import opened RelayInvariant
  import opened RelayTheorems

  function ProjectOf(c: Call): Option<ProjectId> {
    match c
    case AddCheck(p) => Some(p)
    case AddRender(p, _) => Some(p)
    case AddInsert(p, _) => Some(p)
    case AddLost(p, _, _) => Some(p)
    case AddDrop(p, _, _) => Some(p)
    case AddCount(p, _) => Some(p)
    case AddGo(p, _) => Some(p)
    case RemoveTake(p) => Some(p)
    case RemoveCancel(p, _) => Some(p)
    case RefreshCapture(p) => Some(p)
    case RefreshRender(p, _) => Some(p)
    case RefreshCancel(p, _) => Some(p)
    case RefreshAwait(p, _) => Some(p)
    case RefreshDelete(p, _) => Some(p)
    case _ => None
  }

  /** The event is call t's own, or has nothing to do with project p and is not Stop's doing. */
  predicate Solo(s: State, e: Event, t: CallId, p: ProjectId)
    requires Enabled(s, e)
  {
    && !(e.DbWrite? && e.p == p)
    && (Actor(e).Some? && Actor(e).value != t ==>
          ProjectOf(s.calls[Actor(e).value]).Some? && ProjectOf(s.calls[Actor(e).value]).value != p)
  }

  predicate SoloRun(s: State, es: seq<Event>, t: CallId, p: ProjectId)
    requires IsRun(s, es)
    decreases |es|
  {
    es == [] || (Solo(s, es[0], t, p) && SoloRun(Apply(s, es[0]), es[1..], t, p))
  }

  /** The slot holds u, not cancelled, whose children so far (if any) read the config cfg. */
  predicate Serves(s: State, p: ProjectId, u: SupId, cfg: Option<string>) {
    && p in s.slots && s.slots[p] == u && TabledIn(s, p, u) && !s.sups[u].cancelled
    && (s.sups[u].config.None? || s.sups[u].config == cfg)
  }

  predicate FileIs(s: State, p: ProjectId, cfg: Option<string>) {
    cfg.Some? && ConfigFile(s, p) == cfg
  }

  function DbConfig(s: State, p: ProjectId): Option<string> {
    if p in s.db then Some(s.db[p]) else None
  }

  predicate SlotIs(s: State, p: ProjectId, u: SupId) {
    p in s.slots && s.slots[p] == u
  }

  /**
   How far Refresh call t has come.  The supervisor found in the slot at the start is before,
   was says whether it was already cancelled then.
   */
  predicate Progress(s: State, t: CallId, p: ProjectId, cfg: Option<string>, before: Option<SupId>, was: bool) {
    && t in s.calls && s.binary && DbConfig(s, p) == cfg
    && (before.Some? ==> before.value in s.sups && (was ==> s.sups[before.value].cancelled))
    && match s.calls[t]
       case RefreshCapture(q) =>
         q == p && (if before.Some? then Untouched(s, p, before.value, was) else p !in s.slots)
       case RefreshRender(q, u) => q == p && before == Some(u) && Untouched(s, p, u, was)
       case RefreshCancel(q, u) => q == p && before == Some(u) && SlotIs(s, p, u) && FileIs(s, p, cfg)
       case RefreshAwait(q, u) => q == p && before == Some(u) && SlotIs(s, p, u) && FileIs(s, p, cfg) && s.sups[u].cancelled
       case RefreshDelete(q, u) => q == p && before == Some(u) && SlotIs(s, p, u) && FileIs(s, p, cfg) && GoneFor(s, before)
       case AddCheck(q) => q == p && p !in s.slots && GoneFor(s, before)
       case AddRender(q, _) => q == p && p !in s.slots && GoneFor(s, before)
       case AddInsert(q, u) =>
         q == p && p !in s.slots && FileIs(s, p, cfg) && GoneFor(s, before)
         && u in s.sups && s.sups[u].project == p && !s.sups[u].cancelled
       case AddLost(q, _, o) => q == p && o == ErrClosed
       case AddDrop(q, _, o) => q == p && o == ErrClosed
       case AddCount(q, u) => q == p && Serves(s, p, u, cfg) && FileIs(s, p, cfg)
       case AddGo(q, u) => q == p && Serves(s, p, u, cfg) && FileIs(s, p, cfg)
       case Done(o) =>
         (match o
          case OK => p in s.slots && Serves(s, p, s.slots[p], cfg) && FileIs(s, p, cfg) && !Unlaunched(s.sups[s.slots[p]].pc)
          case ErrRender => (before.Some? && Untouched(s, p, before.value, was)) || (p !in s.slots && GoneFor(s, before))
          case _ => true)
       case _ => false
  }

  /** Still tracked, and not cancelled by this call. */
  predicate Untouched(s: State, p: ProjectId, u: SupId, was: bool) {
    SlotIs(s, p, u) && TabledIn(s, p, u) && (!was ==> !s.sups[u].cancelled)
  }

  predicate GoneFor(s: State, before: Option<SupId>) {
    before.None? || (before.value in s.sups && s.sups[before.value].cancelled && DoneClosed(s.sups[before.value].pc))
  }

  // ----- events that are not t's leave all of this alone -----

  lemma OthersKeepSlot(s: State, e: Event, t: CallId, p: ProjectId)
    requires Inv(s) && Enabled(s, e) && Solo(s, e, t, p) && Actor(e) != Some(t)
    ensures p in Apply(s, e).slots <==> p in s.slots
    ensures p in s.slots ==> Apply(s, e).slots[p] == s.slots[p]
  {
    hide Inv, NextCall, NextSups, RenderedCall, RenderedSups;
  }

  lemma OthersKeepFiles(s: State, e: Event, t: CallId, p: ProjectId)
    requires Enabled(s, e) && Solo(s, e, t, p) && Actor(e) != Some(t)
    ensures ConfigFile(Apply(s, e), p) == ConfigFile(s, p)
  {
    hide NextCall, NextSups, NextSlots, RenderedCall, RenderedSups;
    if e.RenderOk? {
      assert Apply(s, e).files == s.files[s.calls[e.t].p := s.db[s.calls[e.t].p]];
      assert s.calls[e.t].p != p;
    } else {
      assert Apply(s, e).files == s.files;
    }
  }

  lemma EventKeepsDb(s: State, e: Event, t: CallId, p: ProjectId)
    requires Enabled(s, e) && Solo(s, e, t, p)
    ensures DbConfig(Apply(s, e), p) == DbConfig(s, p)
    ensures Apply(s, e).binary == s.binary
  {
    hide NextCall, NextSups, NextSlots, RenderedCall, RenderedSups;
  }

  lemma OthersDontCancel(s: State, e: Event, t: CallId, p: ProjectId, u: SupId)
    requires Inv(s) && Enabled(s, e) && Solo(s, e, t, p) && Actor(e) != Some(t)
    requires u in s.sups && s.sups[u].project == p
    ensures u in Apply(s, e).sups && Apply(s, e).sups[u].cancelled == s.sups[u].cancelled
    ensures Apply(s, e).sups[u].config != s.sups[u].config ==> Apply(s, e).sups[u].config == ConfigFile(s, p)
    ensures s.sups[u].pc.Placed? || s.sups[u].pc.Counted? ==> Apply(s, e).sups[u] == s.sups[u]
  {
    if Actor(e).Some? {
      CallOkOf(s, Actor(e).value);
    }
    hide Inv, NextCall, NextSlots, RenderedCall;
  }

  lemma EventKeepsGone(s: State, e: Event, before: Option<SupId>)
    requires Inv(s) && Enabled(s, e) && GoneFor(s, before)
    ensures GoneFor(Apply(s, e), before)
  {
    hide Inv, Apply;
    if before.Some? {
      SupFollows(s, e, before.value);
    }
  }

  lemma OthersKeepUntouched(s: State, e: Event, t: CallId, p: ProjectId, u: SupId, was: bool)
    requires Inv(s) && Enabled(s, e) && Solo(s, e, t, p) && Actor(e) != Some(t) && Untouched(s, p, u, was)
    ensures Untouched(Apply(s, e), p, u, was)
  {
    hide Inv, Apply, Solo;
    OthersKeepSlot(s, e, t, p);
    OthersDontCancel(s, e, t, p, u);
    SupFollows(s, e, u);
  }

  lemma OthersKeepServes(s: State, e: Event, t: CallId, p: ProjectId, u: SupId, cfg: Option<string>)
    requires Inv(s) && Enabled(s, e) && Solo(s, e, t, p) && Actor(e) != Some(t) && Serves(s, p, u, cfg) && FileIs(s, p, cfg)
    ensures Serves(Apply(s, e), p, u, cfg) && FileIs(Apply(s, e), p, cfg)
    ensures !Unlaunched(s.sups[u].pc) ==> !Unlaunched(Apply(s, e).sups[u].pc)
  {
    hide Inv, Apply, Solo;
    OthersKeepSlot(s, e, t, p);
    OthersDontCancel(s, e, t, p, u);
    OthersKeepFiles(s, e, t, p);
    SupFollows(s, e, u);
  }

  lemma OthersKeepProgress(s: State, e: Event, t: CallId, p: ProjectId, cfg: Option<string>, before: Option<SupId>, was: bool)
    requires Inv(s) && Enabled(s, e) && Solo(s, e, t, p) && Actor(e) != Some(t)
    requires Progress(s, t, p, cfg, before, was)
    ensures Progress(Apply(s, e), t, p, cfg, before, was)
  {
    hide Inv, Apply, Solo, Serves, Untouched, GoneFor;
    OtherCallsStay(s, e, t);
    OthersKeepSlot(s, e, t, p);
    OthersKeepFiles(s, e, t, p);
    EventKeepsDb(s, e, t, p);
    if before.Some? {
      SupFollows(s, e, before.value);
      if Untouched(s, p, before.value, was) {
        OthersKeepUntouched(s, e, t, p, before.value, was);
      }
    }
    if s.calls[t].AddInsert? {
      OthersDontCancel(s, e, t, p, s.calls[t].u);
      SupFollows(s, e, s.calls[t].u);
    }
    if GoneFor(s, before) {
      EventKeepsGone(s, e, before);
    }
    if p in s.slots && Serves(s, p, s.slots[p], cfg) && FileIs(s, p, cfg) {
      OthersKeepServes(s, e, t, p, s.slots[p], cfg);
    }
    ServesSlot(s, p, cfg);
    ServesSlot(Apply(s, e), p, cfg);
  }

  lemma ServesSlot(s: State, p: ProjectId, cfg: Option<string>)
    ensures forall u :: Serves(s, p, u, cfg) ==> SlotIs(s, p, u) && u in s.sups
  {
  }

  // ----- the steps of the Refresh call itself -----

  lemma CaptureProgress(s: State, t: CallId, p: ProjectId, cfg: Option<string>, before: Option<SupId>, was: bool)
    requires Inv(s) && Progress(s, t, p, cfg, before, was) && s.calls[t].RefreshCapture?
    ensures Progress(AdvanceCall(s, t), t, p, cfg, before, was)
  {
    hide Inv;
  }

  lemma RenderProgress(s: State, t: CallId, made: SupId, p: ProjectId, cfg: Option<string>, before: Option<SupId>, was: bool)
    requires Inv(s) && Progress(s, t, p, cfg, before, was) && Enabled(s, RenderOk(t, made))
    ensures Progress(Apply(s, RenderOk(t, made)), t, p, cfg, before, was)
  {
    hide Inv;
  }

  lemma RenderFailProgress(s: State, t: CallId, p: ProjectId, cfg: Option<string>, before: Option<SupId>, was: bool)
    requires Inv(s) && Progress(s, t, p, cfg, before, was) && Enabled(s, RenderFail(t))
    ensures Progress(Apply(s, RenderFail(t)), t, p, cfg, before, was)
  {
    hide Inv;
  }

  lemma TearDownProgress(s: State, t: CallId, p: ProjectId, cfg: Option<string>, before: Option<SupId>, was: bool)
    requires Inv(s) && Progress(s, t, p, cfg, before, was) && CanAdvance(s, t)
    requires s.calls[t].RefreshCancel? || s.calls[t].RefreshAwait? || s.calls[t].RefreshDelete?
    ensures Progress(AdvanceCall(s, t), t, p, cfg, before, was)
  {
    SupOkOf(s, before.value);
    hide Inv;
  }

  lemma AddProgress(s: State, t: CallId, p: ProjectId, cfg: Option<string>, before: Option<SupId>, was: bool)
    requires Inv(s) && Progress(s, t, p, cfg, before, was) && CanAdvance(s, t)
    requires s.calls[t].AddCheck? || s.calls[t].AddLost? || s.calls[t].AddDrop?
    ensures Progress(AdvanceCall(s, t), t, p, cfg, before, was)
  {
    CallOkOf(s, t);
    hide Inv;
  }

  lemma InsertProgress(s: State, t: CallId, p: ProjectId, cfg: Option<string>, before: Option<SupId>, was: bool)
    requires Inv(s) && Progress(s, t, p, cfg, before, was) && s.calls[t].AddInsert?
    ensures Progress(AdvanceCall(s, t), t, p, cfg, before, was)
  {
    CallOkOf(s, t);
    SupOkOf(s, s.calls[t].u);
    hide Inv;
  }

  lemma LaunchProgress(s: State, t: CallId, p: ProjectId, cfg: Option<string>, before: Option<SupId>, was: bool)
    requires Inv(s) && Progress(s, t, p, cfg, before, was) && (s.calls[t].AddCount? || s.calls[t].AddGo?)
    ensures Progress(AdvanceCall(s, t), t, p, cfg, before, was)
  {
    CallOkOf(s, t);
    hide Inv;
  }

  lemma OwnProgress(s: State, e: Event, t: CallId, p: ProjectId, cfg: Option<string>, before: Option<SupId>, was: bool)
    requires Inv(s) && Enabled(s, e) && Actor(e) == Some(t) && Progress(s, t, p, cfg, before, was)
    ensures Progress(Apply(s, e), t, p, cfg, before, was)
  {
    hide Inv, AdvanceCall;
    match e
    case RenderOk(_, made) => RenderProgress(s, t, made, p, cfg, before, was);
    case RenderFail(_) => RenderFailProgress(s, t, p, cfg, before, was);
    case CtxExpire(_) =>
    case Advance(_) =>
      var c := s.calls[t];
      if c.RefreshCapture? {
        CaptureProgress(s, t, p, cfg, before, was);
      } else if c.RefreshCancel? || c.RefreshAwait? || c.RefreshDelete? {
        TearDownProgress(s, t, p, cfg, before, was);
      } else if c.AddInsert? {
        InsertProgress(s, t, p, cfg, before, was);
      } else if c.AddCount? || c.AddGo? {
        LaunchProgress(s, t, p, cfg, before, was);
      } else {
        AddProgress(s, t, p, cfg, before, was);
      }
    case _ =>
  }

  lemma {:induction false} ProgressAlways(s: State, es: seq<Event>, t: CallId, p: ProjectId, cfg: Option<string>, before: Option<SupId>, was: bool)
    requires Inv(s) && IsRun(s, es) && SoloRun(s, es, t, p) && Progress(s, t, p, cfg, before, was)
    ensures Progress(After(s, es), t, p, cfg, before, was)
    decreases |es|
  {
    hide Inv, Apply, Progress, Solo, Enabled;
    if es != [] {
      InvKept(s, es[0]);
      if Actor(es[0]) == Some(t) {
        OwnProgress(s, es[0], t, p, cfg, before, was);
      } else {
        OthersKeepProgress(s, es[0], t, p, cfg, before, was);
      }
      ProgressAlways(Apply(s, es[0]), es[1..], t, p, cfg, before, was);
    }
  }

  lemma {:induction false} SoloNeverTakes(s: State, es: seq<Event>, t: CallId, p: ProjectId, cfg: Option<string>, before: Option<SupId>, was: bool)
    requires Inv(s) && IsRun(s, es) && SoloRun(s, es, t, p) && Progress(s, t, p, cfg, before, was)
    ensures NeverTaken(s, es, p)
    decreases |es|
  {
    hide Inv, Apply, Enabled;
    if es != [] {
      ProgressAlways(s, [es[0]], t, p, cfg, before, was);
      InvKept(s, es[0]);
      SoloNeverTakes(Apply(s, es[0]), es[1..], t, p, cfg, before, was);
    }
  }

  lemma ProgressStarts(s: State, t: CallId, p: ProjectId)
    requires Inv(s) && t in s.calls && s.calls[t] == RefreshCapture(p) && s.binary
    ensures Progress(s, t, p, DbConfig(s, p), if p in s.slots then Some(s.slots[p]) else None,
                     p in s.slots && s.slots[p] in s.sups && s.sups[s.slots[p]].cancelled)
  {
    assert p in s.slots ==> TabledIn(s, p, s.slots[p]);
    hide Inv;
  }

  /**
   Refresh is fresh: when it returns nil, the slot holds an uncancelled supervisor whose loop is
   running (unless the server's own root context is done), the config file is what the database
   rendered to when Refresh began, every child this supervisor has started read that config, and
   no other supervisor of p can own a child unless one that RemoveProject took earlier was still
   winding down.
   */
  lemma RefreshIsFresh(s: State, es: seq<Event>, t: CallId, p: ProjectId)
    requires Reachable(s) && s.binary && t in s.calls && s.calls[t] == RefreshCapture(p)
    requires IsRun(s, es) && SoloRun(s, es, t, p)
    requires t in After(s, es).calls && After(s, es).calls[t] == Done(OK)
    ensures var end := After(s, es);
      && p in end.slots && end.slots[p] in end.sups
      && p in s.db && p in end.files && end.files[p] == s.db[p]
      && var x := end.sups[end.slots[p]];
         && !x.cancelled && (Looping(x.pc) || (x.rooted && end.rootDone))
         && (x.config.None? || x.config == Some(s.db[p]))
         && (OneActive(s, p) ==> forall v :: ActiveIn(end, p, v) ==> v == end.slots[p])
  {
    ReachableInv(s);
    ProgressStarts(s, t, p);
    var before := if p in s.slots then Some(s.slots[p]) else None;
    var was := p in s.slots && s.slots[p] in s.sups && s.sups[s.slots[p]].cancelled;
    ProgressAlways(s, es, t, p, DbConfig(s, p), before, was);
    SoloNeverTakes(s, es, t, p, DbConfig(s, p), before, was);
    if OneActive(s, p) {
      OneActiveAlways(s, es, p);
    }
    InvAlways(s, es);
    StopNeverMeets(After(s, es), p);
    ReachableOver(s);
    OverWhenDoneAlways(s, es);
    hide Inv;
  }

  lemma StopNeverMeets(s: State, p: ProjectId)
    requires Inv(s) && p in s.slots
    ensures !s.closed
  {
  }

  /**
   A Refresh that fails to render leaves the supervisor it found tracked and uncancelled, or
   (when it is the second render, after the tear-down, that fails) leaves no supervisor in the
   slot, the old one being cancelled and over.
   */
  lemma RefreshFailsSafe(s: State, es: seq<Event>, t: CallId, p: ProjectId)
    requires Reachable(s) && s.binary && p in s.slots && s.slots[p] in s.sups && !s.sups[s.slots[p]].cancelled
    requires t in s.calls && s.calls[t] == RefreshCapture(p)
    requires IsRun(s, es) && SoloRun(s, es, t, p)
    requires t in After(s, es).calls && After(s, es).calls[t] == Done(ErrRender)
    ensures var end := After(s, es);
      var u := s.slots[p];
      && u in end.sups
      && ((p in end.slots && end.slots[p] == u && !end.sups[u].cancelled)
          || (p !in end.slots && end.sups[u].cancelled && end.sups[u].closes == 1))
  {
    ReachableInv(s);
    ProgressStarts(s, t, p);
    ProgressAlways(s, es, t, p, DbConfig(s, p), Some(s.slots[p]), false);
    InvAlways(s, es);
    SupOkOf(After(s, es), s.slots[p]);
    hide Inv;
  }
}
