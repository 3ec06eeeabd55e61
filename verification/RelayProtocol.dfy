/**
 The relay manager as a concurrent protocol.

 AddProject, RemoveProject, Refresh and Stop hold the manager's mutex only for short
 sections, so calls interleave between any two of them.  A state records every call in
 flight with the place it has reached, every supervisor ever built with the place its
 goroutine has reached, and the fields the mutex guards.  An event is one atomic step: a
 critical section, a cancel, a close, a wait-group update, or one step of a supervisor loop.
 Nothing restricts the order of events beyond Enabled.
 */
module RelayProtocol {
  import opened Wrappers

  type ProjectId = int
  type SupId = int
  type CallId = int

  /** Where a supervisor stands, from its construction to the end of its goroutine. */
  datatype SupPc =
    | Made        // built by spawn, not yet offered to the slot table
    | Lost        // refused by the slot table: a race loser
    | Dropped     // race loser whose done channel has been closed
    | Placed      // in the slot table, wg.Add still to come
    | Counted     // wg.Add done, goroutine not started
    | Top         // at the context test that heads the loop of Run
    | Starting    // past the test, about to exec
    | Child       // a child process is alive
    | Exited      // the child is gone (or never started), OnExit called
    | Backoff     // waiting before the next round
    | Returning   // Run has returned, done still open
    | Closed      // done closed, wg.Done still to come
    | Finished

  /** config is what the last child read from the project's config file when it started. */
  datatype Sup = Sup(project: ProjectId, rooted: bool, cancelled: bool, pc: SupPc,
                     config: Option<string>, starts: int, closes: int)

  datatype Outcome = OK | ErrClosed | ErrRender | ErrContext

  /** A call in flight, named after the next thing it does. */
  datatype Call =
    | AddCheck(p: ProjectId)
    | AddRender(p: ProjectId, rooted: bool)
    | AddInsert(p: ProjectId, u: SupId)
    | AddLost(p: ProjectId, u: SupId, outcome: Outcome)
    | AddDrop(p: ProjectId, u: SupId, outcome: Outcome)
    | AddCount(p: ProjectId, u: SupId)
    | AddGo(p: ProjectId, u: SupId)
    | RemoveTake(p: ProjectId)
    | RemoveCancel(p: ProjectId, u: SupId)
    | RefreshCapture(p: ProjectId)
    | RefreshRender(p: ProjectId, u: SupId)
    | RefreshCancel(p: ProjectId, u: SupId)
    | RefreshAwait(p: ProjectId, u: SupId)
    | RefreshDelete(p: ProjectId, u: SupId)
    | StopTake
    | StopCancel(left: set<SupId>)
    | StopWait
    | Done(outcome: Outcome)

  /**
   slots, closed and started are the fields guarded by the mutex; wg is the wait-group
   counter.  db holds, for each project, the config its rows would render to, and files the
   config last written to disk.  The flag binary is false in render-only mode.
   */
  datatype State = State(binary: bool, started: bool, rootDone: bool, closed: bool,
                         slots: map<ProjectId, SupId>, sups: map<SupId, Sup>,
                         calls: map<CallId, Call>, wg: int,
                         db: map<ProjectId, string>, files: map<ProjectId, string>)

  datatype Event =
    | Begin(t: CallId, call: Call)
    | Advance(t: CallId)                  // the call's next deterministic step
    | RenderOk(t: CallId, made: SupId)   // renderToFile succeeds; spawn builds supervisor made
    | RenderFail(t: CallId)               // renderToFile fails
    | CancelOne(t: CallId, u: SupId)      // Stop cancels one of the supervisors it took
    | CtxExpire(t: CallId)                // the context of a waiting Refresh is done
    | Goroutine(u: SupId, choice: bool)   // one step of the supervisor's goroutine
    | SetRoot
    | RootDone
    | DbWrite(p: ProjectId, config: Option<string>)

  function Init(binary: bool, db: map<ProjectId, string>): State {
    State(binary, false, false, false, map[], map[], map[], 0, db, map[])
  }

  predicate EntryPoint(c: Call) {
    c.AddCheck? || c.RemoveTake? || c.RefreshCapture? || c.StopTake?
  }

  /** The context handed to Run is done when cancel was called or its parent is done. */
  predicate CtxDone(s: State, u: SupId)
    requires u in s.sups
  {
    s.sups[u].cancelled || (s.sups[u].rooted && s.rootDone)
  }

  function At(s: State, t: CallId, c: Call): State {
    s.(calls := s.calls[t := c])
  }

  function Cancel(s: State, u: SupId): State
    requires u in s.sups
  {
    s.(sups := s.sups[u := s.sups[u].(cancelled := true)])
  }

  // ----- a call's deterministic steps: where it goes, and what it does to each field -----

  /** A waiting Refresh needs its channel closed, a waiting Stop needs the wait group at zero. */
  predicate CanMove(s: State, c: Call) {
    match c
    case AddRender(_, _) => false
    case RefreshRender(_, _) => false
    case RefreshAwait(_, u) => u in s.sups && s.sups[u].closes > 0
    case StopCancel(left) => left == {}
    case StopWait => s.wg == 0
    case Done(_) => false
    case _ => true
  }

  /** The supervisors in the table. */
  function AllIn(slots: map<ProjectId, SupId>): set<SupId> {
    set p | p in slots :: slots[p]
  }

  function NextCall(s: State, c: Call): Call {
    match c
    case AddCheck(p) =>
      if s.closed then Done(ErrClosed) else if p in s.slots then Done(OK) else AddRender(p, s.started)
    case AddInsert(p, u) =>
      if s.closed then AddLost(p, u, ErrClosed) else if p in s.slots then AddLost(p, u, OK) else AddCount(p, u)
    case AddLost(p, u, o) => AddDrop(p, u, o)
    case AddDrop(_, _, o) => Done(o)
    case AddCount(p, u) => AddGo(p, u)
    case AddGo(_, _) => Done(OK)
    case RemoveTake(p) => if p in s.slots then RemoveCancel(p, s.slots[p]) else Done(OK)
    case RemoveCancel(_, _) => Done(OK)
    case RefreshCapture(p) =>
      if s.closed then Done(ErrClosed) else if p in s.slots then RefreshRender(p, s.slots[p]) else AddCheck(p)
    case RefreshCancel(p, u) => RefreshAwait(p, u)
    case RefreshAwait(p, u) => RefreshDelete(p, u)
    case RefreshDelete(p, _) => AddCheck(p)
    case StopTake => StopCancel(AllIn(s.slots))
    case StopCancel(_) => StopWait
    case StopWait => Done(OK)
    case _ => c
  }

  /** Refresh empties the slot only when it still holds the supervisor it waited for. */
  function NextSlots(s: State, c: Call): map<ProjectId, SupId> {
    match c
    case AddInsert(p, u) => if !s.closed && p !in s.slots then s.slots[p := u] else s.slots
    case RemoveTake(p) => s.slots - {p}
    case RefreshDelete(p, u) => if p in s.slots && s.slots[p] == u then s.slots - {p} else s.slots
    case StopTake => map[]
    case _ => s.slots
  }

  /** The supervisor a call's next step moves. */
  function Touched(c: Call): Option<SupId> {
    match c
    case AddInsert(_, u) => Some(u)
    case AddLost(_, u, _) => Some(u)
    case AddDrop(_, u, _) => Some(u)
    case AddCount(_, u) => Some(u)
    case AddGo(_, u) => Some(u)
    case RemoveCancel(_, u) => Some(u)
    case RefreshCancel(_, u) => Some(u)
    case _ => None
  }

  function TouchedSup(s: State, c: Call, x: Sup): Sup {
    match c
    case AddInsert(p, _) => x.(pc := if s.closed || p in s.slots then Lost else Placed)
    case AddLost(_, _, _) => x.(cancelled := true)
    case AddDrop(_, _, _) => x.(pc := Dropped, closes := x.closes + 1)
    case AddCount(_, _) => x.(pc := Counted)
    case AddGo(_, _) => x.(pc := Top)
    case RemoveCancel(_, _) => x.(cancelled := true)
    case RefreshCancel(_, _) => x.(cancelled := true)
    case _ => x
  }

  function NextSups(s: State, c: Call): map<SupId, Sup> {
    match Touched(c)
    case None => s.sups
    case Some(u) => if u in s.sups then s.sups[u := TouchedSup(s, c, s.sups[u])] else s.sups
  }

  predicate CanAdvance(s: State, t: CallId) {
    t in s.calls && CanMove(s, s.calls[t])
  }

  function AdvanceCall(s: State, t: CallId): State
    requires CanAdvance(s, t)
  {
    var c := s.calls[t];
    s.(calls := s.calls[t := NextCall(s, c)], slots := NextSlots(s, c), sups := NextSups(s, c),
       closed := s.closed || c.StopTake?, wg := if c.AddCount? then s.wg + 1 else s.wg)
  }

  predicate Renders(c: Call) {
    c.AddRender? || c.RefreshRender?
  }

  /**
   renderToFile succeeds.  Render-only mode ends the call there.  Otherwise spawn builds its
   supervisor, and Refresh goes on to cancel the one it captured.
   */
  function RenderedCall(s: State, c: Call, made: SupId): Call {
    match c
    case AddRender(p, _) => if s.binary then AddInsert(p, made) else Done(OK)
    case RefreshRender(p, u) => if s.binary then RefreshCancel(p, u) else Done(OK)
    case _ => c
  }

  function RenderedSups(s: State, c: Call, made: SupId): map<SupId, Sup> {
    if c.AddRender? && s.binary then s.sups[made := Sup(c.p, c.rooted, false, Made, None, 0, 0)] else s.sups
  }

  function Rendered(s: State, t: CallId, made: SupId): State
    requires t in s.calls && Renders(s.calls[t]) && s.calls[t].p in s.db
  {
    var c := s.calls[t];
    s.(files := s.files[c.p := s.db[c.p]], calls := s.calls[t := RenderedCall(s, c, made)],
       sups := RenderedSups(s, c, made))
  }

  /** The steps of the launched goroutine: Run, then close(done), then wg.Done. */
  predicate CanStep(s: State, u: SupId, choice: bool) {
    u in s.sups &&
    match s.sups[u].pc
    case Top => true
    case Starting => true
    case Child => true
    case Exited => true
    case Backoff => choice || CtxDone(s, u)
    case Returning => true
    case Closed => true
    case _ => false
  }

  /**
   One step of the goroutine: done says whether its context is done, file is the project's
   config file, and choice resolves what the code leaves open: whether exec succeeds, and
   which ready arm of the backoff select is taken (true is the timer).
   */
  function NextSup(x: Sup, done: bool, file: Option<string>, choice: bool): Sup {
    match x.pc
    case Top => x.(pc := if done then Returning else Starting)
    case Starting => if choice then x.(pc := Child, config := file, starts := x.starts + 1) else x.(pc := Exited)
    case Child => x.(pc := Exited)
    case Exited => x.(pc := if done then Returning else Backoff)
    case Backoff => x.(pc := if choice then Top else Returning)
    case Returning => x.(pc := Closed, closes := x.closes + 1)
    case Closed => x.(pc := Finished)
    case _ => x
  }

  function ConfigFile(s: State, p: ProjectId): Option<string> {
    if p in s.files then Some(s.files[p]) else None
  }

  function StepGoroutine(s: State, u: SupId, choice: bool): State
    requires CanStep(s, u, choice)
  {
    var x := s.sups[u];
    var y := NextSup(x, CtxDone(s, u), ConfigFile(s, x.project), choice);
    s.(sups := s.sups[u := y], wg := if x.pc.Closed? then s.wg - 1 else s.wg)
  }

  predicate Enabled(s: State, e: Event) {
    match e
    case Begin(t, c) => t !in s.calls && EntryPoint(c)
    case Advance(t) => CanAdvance(s, t)
    case RenderOk(t, made) =>
      t in s.calls && Renders(s.calls[t]) && s.calls[t].p in s.db && made !in s.sups
    case RenderFail(t) => t in s.calls && Renders(s.calls[t])
    case CancelOne(t, u) => t in s.calls && s.calls[t].StopCancel? && u in s.calls[t].left && u in s.sups
    case CtxExpire(t) => t in s.calls && s.calls[t].RefreshAwait?
    case Goroutine(u, choice) => CanStep(s, u, choice)
    case SetRoot => !s.started
    case RootDone => s.started
    case DbWrite(_, _) => true
  }

  function Apply(s: State, e: Event): State
    requires Enabled(s, e)
  {
    match e
    case Begin(t, c) => At(s, t, c)
    case Advance(t) => AdvanceCall(s, t)
    case RenderOk(t, made) => Rendered(s, t, made)
    case RenderFail(t) => At(s, t, Done(ErrRender))
    case CancelOne(t, u) => At(Cancel(s, u), t, StopCancel(s.calls[t].left - {u}))
    case CtxExpire(t) => At(s, t, Done(ErrContext))
    case Goroutine(u, choice) => StepGoroutine(s, u, choice)
    case SetRoot => s.(started := true)
    case RootDone => s.(rootDone := true)
    case DbWrite(p, config) =>
      s.(db := if config.None? then s.db - {p} else s.db[p := config.value])
  }

  /** A run is a sequence of events, each enabled where it happens. */
  predicate IsRun(s: State, es: seq<Event>)
    decreases |es|
  {
    es == [] || (Enabled(s, es[0]) && IsRun(Apply(s, es[0]), es[1..]))
  }

  function After(s: State, es: seq<Event>): State
    requires IsRun(s, es)
    decreases |es|
  {
    if es == [] then s else After(Apply(s, es[0]), es[1..])
  }
}
