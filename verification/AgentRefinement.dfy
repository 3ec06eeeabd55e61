/**
 The agent as it runs is an agent of the drift protocol: a script of outcomes that tells the
 truth about the server's answers is played by protocol steps, one for each call and write, and
 ends where the loop ends. So what every protocol run keeps holds of the running agent.
 */
module AgentRefinement {
  import opened Wrappers
  import opened Ledger
  import opened LedgerInvariant
  import opened LedgerRows
  import opened Render
  import opened Drift
  import opened DriftTheorems
  import opened AgentRuntime
  import CV = ConfigVersion

  /** A step of the agent, and the tables it meets. */
  datatype Move = Move(db: Db, e: Event)

  ghost predicate CanMove(a: Agent, m: Move) {
    Sound(m.db) && Stored(m.db) && Enabled(a, m.e) && !m.e.Admin? && (a.pc.Applying? ==> CV.AllOk(a.pc.boot.tunnels))
  }

  ghost function Moved(c: Setup, a: Agent, m: Move): Agent
    requires CanMove(a, m)
  {
    AgentStep(c, m.db, a, m.e)
  }

  /** The moves lead agent a to agent b; between them admins may have changed the tables. */
  ghost predicate Plays(c: Setup, a: Agent, ms: seq<Move>, b: Agent)
    decreases |ms|
  {
    if ms == [] then a == b
    else CanMove(a, ms[0]) && Plays(c, Moved(c, a, ms[0]), ms[1..], b)
  }

  lemma {:induction false} PlaysAppend(c: Setup, a: Agent, ms: seq<Move>, m: Agent, ns: seq<Move>, b: Agent)
    requires Plays(c, a, ms, m) && Plays(c, m, ns, b)
    ensures Plays(c, a, ms + ns, b)
    decreases |ms|
  {
    hide CanMove, Moved;
    if ms == [] {
      assert ms + ns == ns;
    } else {
      assert (ms + ns)[1..] == ms[1..] + ns;
      PlaysAppend(c, Moved(c, a, ms[0]), ms[1..], m, ns, b);
    }
  }

  lemma PlaysOne(c: Setup, a: Agent, m: Move)
    requires CanMove(a, m)
    ensures Plays(c, a, [m], Moved(c, a, m))
  {
    hide CanMove, Moved;
    assert [m][1..] == [];
  }

  /** Moves keep version and file together. */
  lemma {:induction false} PlaysKeep(c: Setup, a: Agent, ms: seq<Move>, b: Agent)
    requires Plays(c, a, ms, b) && AgentOk(c, a)
    ensures AgentOk(c, b)
    decreases |ms|
  {
    hide AgentOk, AgentStep, Sound, Stored, Enabled;
    if ms != [] {
      AgentOkKept(c, ms[0].db, a, ms[0].e);
      PlaysKeep(c, Moved(c, a, ms[0]), ms[1..], b);
    }
  }

  // ----- scripts that tell the truth -----

  ghost predicate Told(c: Setup, o: Outcome, db: Db) {
    Sound(db) && Stored(db) && (o.Answered? ==> BootstrapReply(c, db) == Ok(o.boot))
  }

  /** dbs[k] are the tables when attempt k is made. */
  ghost predicate AllTold(c: Setup, outcomes: seq<Outcome>, dbs: seq<Db>) {
    |outcomes| == |dbs| && forall k :: 0 <= k < |outcomes| ==> Told(c, outcomes[k], dbs[k])
  }

  /** The tables at the heartbeat, at each bootstrap attempt after it, and at the write. */
  datatype Scene = Scene(beat: Db, boots: seq<Db>, write: Db)

  ghost predicate TickTold(c: Setup, version: string, t: Tick, s: Scene) {
    && Sound(s.beat) && Stored(s.beat) && Sound(s.write) && Stored(s.write)
    && (t.answer.Some? ==> HeartbeatReply(c, s.beat, version) == Ok(t.answer.value))
    && BootsOk(t.boots) && |t.boots| == |s.boots| && AllTold(c, t.boots, s.boots)
  }

  // ----- the bootstrap loop -----

  function AttemptEvent(o: Outcome): Event {
    match o
    case Answered(_) => BootAnswer
    case Rejected => BootFail(true)
    case Failed => BootFail(false)
    case _ => Cancel
  }

  function BootMoves(outcomes: seq<Outcome>, dbs: seq<Db>): seq<Move>
    requires |outcomes| == |dbs|
    decreases |outcomes|
  {
    if outcomes == [] then []
    else
      [Move(dbs[0], AttemptEvent(outcomes[0]))] + if outcomes[0].Failed? then BootMoves(outcomes[1..], dbs[1..]) else []
  }

  /** The agent once the retry loop has come to a result. */
  function Booted(a: Agent, r: Result<Boot, BootError>): Agent {
    match r
    case Err(_) => a.(pc := Exited)
    case Ok(boot) => GotBoot(a, boot)
  }

  function Attempted(a: Agent, o: Outcome): Agent
    requires a.pc.Booting?
  {
    match o
    case Answered(boot) => GotBoot(a, boot)
    case Failed => Retry(a)
    case _ => a.(pc := Exited)
  }

  lemma AttemptPlays(c: Setup, a: Agent, o: Outcome, db: Db)
    requires a.pc.Booting? && Told(c, o, db)
    ensures var m := Move(db, AttemptEvent(o));
      CanMove(a, m) && Moved(c, a, m) == Attempted(a, o)
  {
    hide Sound, Stored, BootstrapReply, HeartbeatReply;
  }

  /** Of the ten attempts those from here on are played by the moves. */
  lemma {:induction false} BootPlays(c: Setup, a: Agent, outcomes: seq<Outcome>, dbs: seq<Db>)
    requires a.pc.Booting? && a.pc.attempt + |outcomes| == MAX_ATTEMPTS + 1 && outcomes != [] && AllTold(c, outcomes, dbs)
    ensures Plays(c, a, BootMoves(outcomes, dbs), Booted(a, RetryResult(outcomes)))
    decreases |outcomes|
  {
    hide Told, Moved, CanMove;
    var m := Move(dbs[0], AttemptEvent(outcomes[0]));
    AttemptPlays(c, a, outcomes[0], dbs[0]);
    PlaysOne(c, a, m);
    if outcomes[0].Failed? && |outcomes| > 1 {
      BootPlays(c, Retry(a), outcomes[1..], dbs[1..]);
      PlaysAppend(c, a, [m], Retry(a), BootMoves(outcomes[1..], dbs[1..]), Booted(a, RetryResult(outcomes)));
    } else {
      assert outcomes[0].Failed? ==> outcomes[1..] == [] && dbs[1..] == [];
      assert BootMoves(outcomes, dbs) == [m];
    }
  }

  // ----- a tick -----

  function WriteEvent(ok: bool): Event {
    if ok then Apply else ApplyFail
  }

  function TickMoves(t: Tick, s: Scene): seq<Move>
    requires |t.boots| == |s.boots|
  {
    if t.answer == Some(true) then
      [Move(s.beat, Beat)] + BootMoves(t.boots, s.boots) +
      (if RetryResult(t.boots).Ok? then [Move(s.write, WriteEvent(t.writeOk))] else [])
    else [Move(s.beat, if t.answer.None? then BeatLost else Beat)]
  }

  /** The agent of the loop after one tick: waiting, or gone. */
  function AfterTick(c: Setup, a: Agent, t: Tick): Agent
    requires BootsOk(t.boots)
  {
    var (b, through) := Ticks(c, a, [t]);
    if through then b else b.(pc := Exited)
  }

  lemma BeatPlays(c: Setup, a: Agent, t: Tick, s: Scene)
    requires a.pc.Waiting? && TickTold(c, a.version, t, s)
    ensures t.answer.None? ==> Plays(c, a, [Move(s.beat, BeatLost)], a)
    ensures t.answer.Some? ==>
      Plays(c, a, [Move(s.beat, Beat)], if t.answer.value then a.(pc := Booting(1)) else a)
  {
    hide Sound, Stored, HeartbeatReply, BootsOk, AllTold, Plays;
    if t.answer.None? {
      PlaysOne(c, a, Move(s.beat, BeatLost));
    } else {
      PlaysOne(c, a, Move(s.beat, Beat));
    }
  }

  /** A write after the first leaves the agent waiting, whatever comes of it. */
  lemma WritePlays(c: Setup, a: Agent, boot: Boot, db: Db, ok: bool)
    requires a.pc.Waiting? && a.applied.Some? && Sound(db) && Stored(db) && CV.AllOk(boot.tunnels)
    ensures Plays(c, GotBoot(a, boot), [Move(db, WriteEvent(ok))], Applied(c, a, boot, ok))
  {
    hide Sound, Stored, CV.AllOk, RenderClient, Plays;
    PlaysOne(c, GotBoot(a, boot), Move(db, WriteEvent(ok)));
  }

  lemma TickPlays(c: Setup, a: Agent, t: Tick, s: Scene)
    requires a.pc.Waiting? && a.applied.Some? && TickTold(c, a.version, t, s)
    ensures Plays(c, a, TickMoves(t, s), AfterTick(c, a, t))
  {
    hide Plays, BootMoves, RetryResult, AllTold, Applied, HeartbeatReply, Sound, Stored;
    BeatPlays(c, a, t, s);
    OneTick(c, a, t);
    if t.answer == Some(true) {
      var a1 := a.(pc := Booting(1));
      var r := RetryResult(t.boots);
      var boots, beat := BootMoves(t.boots, s.boots), [Move(s.beat, Beat)];
      BootPlays(c, a1, t.boots, s.boots);
      PlaysAppend(c, a, beat, a1, boots, Booted(a1, r));
      ResultOk(t.boots);
      if r.Ok? {
        WritePlays(c, a, r.value, s.write, t.writeOk);
        PlaysAppend(c, a, beat + boots, Booted(a1, r), [Move(s.write, WriteEvent(t.writeOk))], AfterTick(c, a, t));
      } else {
        assert beat + boots + [] == beat + boots;
      }
    }
  }

  lemma OneTick(c: Setup, a: Agent, t: Tick)
    requires BootsOk(t.boots)
    ensures RetryResult(t.boots).Ok? ==> CV.AllOk(RetryResult(t.boots).value.tunnels)
    ensures t.answer != Some(true) ==> Ticks(c, a, [t]) == (a, true)
    ensures t.answer == Some(true) && RetryResult(t.boots).Err? ==> Ticks(c, a, [t]) == (a, false)
    ensures t.answer == Some(true) && RetryResult(t.boots).Ok? ==>
      Ticks(c, a, [t]) == (Applied(c, a, RetryResult(t.boots).value, t.writeOk), true)
  {
    ResultOk(t.boots);
    hide BootsOk, RetryResult, Applied;
    assert [t][1..] == [];
  }

  // ----- the loop -----

  /** Every tick that is reached tells the truth. */
  ghost predicate TicksTold(c: Setup, a: Agent, ts: seq<Tick>, ss: seq<Scene>)
    decreases |ts|
  {
    ts == [] ||
    (ss != [] && TickTold(c, a.version, ts[0], ss[0])
     && (AfterTick(c, a, ts[0]).pc.Waiting? ==> TicksTold(c, AfterTick(c, a, ts[0]), ts[1..], ss[1..])))
  }

  ghost function LoopMoves(c: Setup, a: Agent, ts: seq<Tick>, ss: seq<Scene>): seq<Move>
    requires TicksTold(c, a, ts, ss)
    decreases |ts|
  {
    if ts == [] then []
    else
      var b := AfterTick(c, a, ts[0]);
      TickMoves(ts[0], ss[0]) + if b.pc.Waiting? then LoopMoves(c, b, ts[1..], ss[1..]) else []
  }

  predicate AllBootsOk(ts: seq<Tick>) {
    forall k :: 0 <= k < |ts| ==> BootsOk(ts[k].boots)
  }

  /** The agent once the loop has ended: waiting when it came through all ticks, gone when it did not. */
  function AfterLoop(c: Setup, a: Agent, ts: seq<Tick>): Agent
    requires AllBootsOk(ts)
  {
    var (b, through) := Ticks(c, a, ts);
    if through then b else b.(pc := Exited)
  }

  lemma TickShape(c: Setup, a: Agent, t: Tick)
    requires BootsOk(t.boots) && a.pc.Waiting? && a.applied.Some?
    ensures var b := AfterTick(c, a, t); (b.pc.Waiting? || b.pc.Exited?) && b.applied.Some?
  {
    OneTick(c, a, t);
    hide BootsOk, RetryResult, Ticks, RenderClient;
  }

  lemma TickThenRest(c: Setup, a: Agent, ts: seq<Tick>)
    requires ts != [] && AllBootsOk(ts) && BootsOk(ts[0].boots) && a.pc.Waiting?
    ensures var b := AfterTick(c, a, ts[0]);
      AfterLoop(c, a, ts) == if b.pc.Waiting? then AfterLoop(c, b, ts[1..]) else b
  {
    OneTick(c, a, ts[0]);
    hide BootsOk, RetryResult, ApplyBoot;
  }

  lemma {:induction false} LoopPlays(c: Setup, a: Agent, ts: seq<Tick>, ss: seq<Scene>)
    requires a.pc.Waiting? && a.applied.Some? && AllBootsOk(ts) && TicksTold(c, a, ts, ss)
    ensures Plays(c, a, LoopMoves(c, a, ts, ss), AfterLoop(c, a, ts))
    decreases |ts|
  {
    hide Plays, TickMoves, AfterTick, TickTold, BootsOk;
    if ts == [] {
      PlaysNone(c, a);
      NoTicks(c, a);
    } else {
      TickBootsOk(c, a.version, ts[0], ss[0]);
      TickPlays(c, a, ts[0], ss[0]);
      TickShape(c, a, ts[0]);
      TickThenRest(c, a, ts);
      hide AfterLoop;
      var b := AfterTick(c, a, ts[0]);
      if b.pc.Waiting? {
        LoopPlays(c, b, ts[1..], ss[1..]);
        PlaysAppend(c, a, TickMoves(ts[0], ss[0]), b, LoopMoves(c, b, ts[1..], ss[1..]), AfterLoop(c, a, ts));
      } else {
        assert TickMoves(ts[0], ss[0]) + [] == TickMoves(ts[0], ss[0]);
      }
    }
  }

  lemma PlaysNone(c: Setup, a: Agent)
    ensures Plays(c, a, [], a)
  {
  }

  lemma NoTicks(c: Setup, a: Agent)
    ensures AfterLoop(c, a, []) == a
  {
  }

  lemma TickBootsOk(c: Setup, version: string, t: Tick, s: Scene)
    requires TickTold(c, version, t, s)
    ensures BootsOk(t.boots) && |t.boots| == |s.boots|
  {
  }

  // ----- the start -----

  /** The write, or what keeps it from being tried. */
  function StartMove(boot: Boot, bridgeOk: bool, writeOk: bool, db: Db): Move {
    Move(db, if boot.endpoint != "" && !bridgeOk then BridgeFail else WriteEvent(writeOk))
  }

  function StartMoves(first: seq<Outcome>, dbs: seq<Db>, bridgeOk: bool, writeOk: bool, db: Db): seq<Move>
    requires |first| == |dbs|
  {
    BootMoves(first, dbs) +
    match RetryResult(first)
    case Err(_) => []
    case Ok(boot) => [StartMove(boot, bridgeOk, writeOk, db)]
  }

  /** The same on disk and in the report; only an agent that never wrote a file may differ in its bridge. */
  predicate SameButGone(a: Agent, b: Agent) {
    && a.pc.Exited? && a.version == b.version && a.applied == b.applied && a.file == b.file
    && (a.applied.Some? ==> a.bridge == b.bridge)
  }

  lemma FirstWrite(c: Setup, boot: Boot, bridgeOk: bool, writeOk: bool, db: Db) returns (b: Agent)
    requires Sound(db) && Stored(db) && CV.AllOk(boot.tunnels)
    ensures Plays(c, GotBoot(NEW_AGENT, boot), [StartMove(boot, bridgeOk, writeOk, db)], b)
    ensures var a := NEW_AGENT.(pc := Waiting);
            var x := if boot.endpoint != "" then a.(bridge := Some(boot.endpoint)) else a;
            var ok := writeOk && RenderClient(c.tokenHash, boot, c.raw, Remote(c, x, boot)).Ok?;
      if boot.endpoint != "" && !bridgeOk then SameButGone(b, a)
      else if ok then b == Applied(c, x, boot, writeOk) && b.applied.Some? && b.pc.Waiting?
      else SameButGone(b, Applied(c, x, boot, writeOk))
  {
    hide Sound, Stored, CV.AllOk, RenderClient, Plays;
    var m := StartMove(boot, bridgeOk, writeOk, db);
    PlaysOne(c, GotBoot(NEW_AGENT, boot), m);
    b := Moved(c, GotBoot(NEW_AGENT, boot), m);
  }

  lemma StartPlays(c: Setup, first: seq<Outcome>, dbs: seq<Db>, bridgeOk: bool, writeOk: bool, db: Db) returns (b: Agent)
    requires BootsOk(first) && |first| == |dbs| && AllTold(c, first, dbs) && Sound(db) && Stored(db)
    ensures Plays(c, NEW_AGENT, StartMoves(first, dbs, bridgeOk, writeOk, db), b)
    ensures var (a, started) := Start(c, NEW_AGENT.(pc := Waiting), first, bridgeOk, writeOk);
      if started then b == a && b.applied.Some? && b.pc.Waiting? else SameButGone(b, a)
  {
    ResultOk(first);
    BootPlays(c, NEW_AGENT, first, dbs);
    hide Plays, BootMoves, RetryResult, AllTold, BootsOk, Applied, RenderClient, Sound, Stored, CV.AllOk;
    match RetryResult(first)
    case Err(_) =>
      b := NEW_AGENT.(pc := Exited);
      assert BootMoves(first, dbs) + [] == BootMoves(first, dbs);
    case Ok(boot) =>
      b := FirstWrite(c, boot, bridgeOk, writeOk, db);
      PlaysAppend(c, NEW_AGENT, BootMoves(first, dbs), GotBoot(NEW_AGENT, boot), [StartMove(boot, bridgeOk, writeOk, db)], b);
  }

  // ----- the whole run -----

  lemma NewAgentOk(c: Setup)
    ensures AgentOk(c, NEW_AGENT)
  {
  }

  /** What becomes of every call and write of a whole run; and the tables each of them meets. */
  datatype Script = Script(first: seq<Outcome>, bridgeOk: bool, writeOk: bool, ts: seq<Tick>)

  datatype Tables = Tables(boots: seq<Db>, write: Db, scenes: seq<Scene>)

  predicate ScriptOk(x: Script) {
    BootsOk(x.first) && AllBootsOk(x.ts)
  }

  function Begun(c: Setup, x: Script): (Agent, bool)
    requires ScriptOk(x)
  {
    Start(c, NEW_AGENT.(pc := Waiting), x.first, x.bridgeOk, x.writeOk)
  }

  /** What Runtime.Run makes of a new agent, by its contract. */
  function RunEnd(c: Setup, x: Script): (Agent, bool)
    requires ScriptOk(x)
  {
    var (a, started) := Begun(c, x);
    if started then Ticks(c, a, x.ts) else (a, false)
  }

  /** The script tells the truth about the server. */
  ghost predicate RunTold(c: Setup, x: Script, y: Tables) {
    && ScriptOk(x) && |x.first| == |y.boots| && AllTold(c, x.first, y.boots) && Sound(y.write) && Stored(y.write)
    && (var (a, started) := Begun(c, x); started ==> TicksTold(c, a, x.ts, y.scenes))
  }

  /** The agent's moves in a run, one for each call and write. */
  ghost function RunMoves(c: Setup, x: Script, y: Tables): seq<Move>
    requires RunTold(c, x, y)
  {
    var (a, started) := Begun(c, x);
    StartMoves(x.first, y.boots, x.bridgeOk, x.writeOk, y.write) +
    if started then LoopMoves(c, a, x.ts, y.scenes) else []
  }

  /** The protocol's agent b and the running agent after its run. */
  predicate SameEnd(b: Agent, end: Agent, ok: bool) {
    if ok then b == end && b.pc.Waiting? else SameButGone(b, end)
  }

  /**
   A whole run of the agent, from its first bootstrap to the end of its loop, is a run of the
   protocol's agent that ends in the same version, file and answer, waiting exactly when the loop
   came through. The file it leaves on disk and the version it would report are of one answer.
   */
  lemma RunIsProtocolRun(c: Setup, x: Script, y: Tables) returns (b: Agent)
    requires RunTold(c, x, y)
    ensures Plays(c, NEW_AGENT, RunMoves(c, x, y), b) && AgentOk(c, b)
    ensures AgentOk(c, RunEnd(c, x).0.(pc := Exited)) && SameEnd(b, RunEnd(c, x).0, RunEnd(c, x).1)
  {
    hide Plays, AgentOk, BootsOk, AllTold, TicksTold, Start, StartMoves, LoopMoves, Sound, Stored;
    b := StartPlays(c, x.first, y.boots, x.bridgeOk, x.writeOk, y.write);
    var ms := StartMoves(x.first, y.boots, x.bridgeOk, x.writeOk, y.write);
    var (a, started) := Begun(c, x);
    if started {
      LoopPlays(c, a, x.ts, y.scenes);
      LoopEnds(c, a, x.ts);
      PlaysAppend(c, NEW_AGENT, ms, a, LoopMoves(c, a, x.ts, y.scenes), AfterLoop(c, a, x.ts));
      b := AfterLoop(c, a, x.ts);
    } else {
      assert ms + [] == ms;
    }
    NewAgentOk(c);
    PlaysKeep(c, NEW_AGENT, RunMoves(c, x, y), b);
    SameOk(c, b, RunEnd(c, x).0);
  }

  lemma SameOk(c: Setup, a: Agent, b: Agent)
    requires AgentOk(c, a) && (a == b || SameButGone(a, b))
    ensures AgentOk(c, b.(pc := Exited))
  {
    hide BootOk, RenderClient;
    if a.applied.Some? {
      AllOkOf(c, a.applied.value);
    }
  }

  lemma {:induction false} LoopEnds(c: Setup, a: Agent, ts: seq<Tick>)
    requires AllBootsOk(ts) && a.pc.Waiting?
    ensures var (end, ok) := Ticks(c, a, ts);
      if ok then AfterLoop(c, a, ts) == end && end.pc.Waiting? else SameButGone(AfterLoop(c, a, ts), end)
    decreases |ts|
  {
    hide RetryResult, ApplyBoot;
    if ts != [] && ts[0].answer == Some(true) {
      assert BootsOk(ts[0].boots);
      ResultOk(ts[0].boots);
      if RetryResult(ts[0].boots).Ok? {
        LoopEnds(c, Applied(c, a, RetryResult(ts[0].boots).value, ts[0].writeOk), ts[1..]);
      }
    } else if ts != [] {
      LoopEnds(c, a, ts[1..]);
    }
  }

  // ----- tables that grow out of one another -----

  /** opss[k] is what admins do to the tables before move k; so each move meets what the last one left. */
  ghost predicate Linked(db: Db, ms: seq<Move>, opss: seq<seq<Op>>)
    decreases |ms|
  {
    |opss| == |ms| &&
    (ms == [] || (AllKnown(opss[0]) && ms[0].db == DbAfter(db, opss[0]) && Linked(ms[0].db, ms[1..], opss[1..])))
  }

  predicate AllKnown(ops: seq<Op>) {
    forall op <- ops :: KnownProtocols(op)
  }

  function Admins(ops: seq<Op>): seq<Event> {
    if ops == [] then [] else [Admin(ops[0])] + Admins(ops[1..])
  }

  /** All that happens, in order: the agent's moves and what admins do between them. */
  function Events(ms: seq<Move>, opss: seq<seq<Op>>): seq<Event>
    requires |opss| == |ms|
    decreases |ms|
  {
    if ms == [] then [] else Admins(opss[0]) + ([ms[0].e] + Events(ms[1..], opss[1..]))
  }

  function LastDb(db: Db, ms: seq<Move>): Db {
    if ms == [] then db else ms[|ms| - 1].db
  }

  lemma {:induction false} RunThen(c: Setup, w: World, es: seq<Event>, more: seq<Event>)
    requires Inv(c, w) && IsRun(c, w, es) && IsRun(c, After(c, w, es), more)
    ensures IsRun(c, w, es + more) && After(c, w, es + more) == After(c, After(c, w, es), more)
    decreases |es|
  {
    hide Inv, Enabled, Next;
    if es == [] {
      assert es + more == more;
    } else {
      assert (es + more)[1..] == es[1..] + more;
      InvKept(c, w, es[0]);
      RunThen(c, Next(c, w, es[0]), es[1..], more);
    }
  }

  lemma RunOne(c: Setup, w: World, e: Event)
    requires Inv(c, w) && Enabled(w.agent, e)
    ensures IsRun(c, w, [e]) && After(c, w, [e]) == Next(c, w, e)
  {
    InvKept(c, w, e);
    hide Inv, Enabled, Next;
    assert [e][1..] == [];
  }

  lemma AdminStep(c: Setup, w: World, op: Op)
    requires Inv(c, w) && KnownProtocols(op)
    ensures Enabled(w.agent, Admin(op)) && Next(c, w, Admin(op)) == World(Do(w.db, op).0, w.agent)
  {
    hide Sound, Stored, BootOk, RenderClient;
  }

  lemma {:induction false} AdminsRun(c: Setup, w: World, ops: seq<Op>)
    requires Inv(c, w) && AllKnown(ops)
    ensures IsRun(c, w, Admins(ops)) && After(c, w, Admins(ops)) == World(DbAfter(w.db, ops), w.agent)
    decreases |ops|
  {
    hide Inv, Enabled, Next, Do, KnownProtocols;
    if ops != [] {
      AdminStep(c, w, ops[0]);
      RunOne(c, w, Admin(ops[0]));
      var w1 := World(Do(w.db, ops[0]).0, w.agent);
      InvKept(c, w, Admin(ops[0]));
      AdminsRun(c, w1, ops[1..]);
      RunThen(c, w, [Admin(ops[0])], Admins(ops[1..]));
    }
  }

  lemma MoveStep(c: Setup, w: World, m: Move)
    requires Inv(c, w) && CanMove(w.agent, m) && m.db == w.db
    ensures Enabled(w.agent, m.e) && Next(c, w, m.e) == World(w.db, Moved(c, w.agent, m))
  {
    hide Sound, Stored, BootOk, AgentStep, Enabled;
  }

  /** Some requests, one move, and a run from there are one run. */
  lemma LinkedStep(c: Setup, w: World, ops: seq<Op>, m: Move, w2: World, rest: seq<Event>)
    requires Inv(c, w) && AllKnown(ops) && m.db == DbAfter(w.db, ops) && CanMove(w.agent, m)
    requires w2 == World(m.db, Moved(c, w.agent, m)) && Inv(c, w2) && IsRun(c, w2, rest)
    ensures IsRun(c, w, Admins(ops) + ([m.e] + rest))
    ensures After(c, w, Admins(ops) + ([m.e] + rest)) == After(c, w2, rest)
  {
    hide Inv, Enabled, Next, CanMove, Moved, AllKnown, IsRun, After, Admins, DbAfter;
    AdminsRun(c, w, ops);
    var w1 := After(c, w, Admins(ops));
    MoveStep(c, w1, m);
    RunOne(c, w1, m.e);
    RunThen(c, w1, [m.e], rest);
    RunThen(c, w, Admins(ops), [m.e] + rest);
  }

  lemma MoveKept(c: Setup, w: World, ops: seq<Op>, m: Move)
    requires Inv(c, w) && AllKnown(ops) && m.db == DbAfter(w.db, ops) && CanMove(w.agent, m)
    ensures Inv(c, World(m.db, Moved(c, w.agent, m)))
  {
    hide Inv, Enabled, Next, CanMove, Moved, AllKnown, IsRun, After, Admins, DbAfter;
    AdminsRun(c, w, ops);
    var w1 := After(c, w, Admins(ops));
    MoveStep(c, w1, m);
    InvKept(c, w1, m.e);
  }

  /** Moves whose tables are linked by ledger steps are a run of the protocol's world. */
  lemma {:induction false} LinkedIsRun(c: Setup, db: Db, a: Agent, ms: seq<Move>, opss: seq<seq<Op>>, b: Agent)
    requires Inv(c, World(db, a)) && Plays(c, a, ms, b) && Linked(db, ms, opss)
    ensures IsRun(c, World(db, a), Events(ms, opss)) && After(c, World(db, a), Events(ms, opss)) == World(LastDb(db, ms), b)
    decreases |ms|
  {
    hide Inv, Enabled, Next, CanMove, Moved, AllKnown, Admins, DbAfter;
    if ms != [] {
      var w := World(db, a);
      var w2 := World(ms[0].db, Moved(c, a, ms[0]));
      MoveKept(c, w, opss[0], ms[0]);
      LinkedIsRun(c, ms[0].db, Moved(c, a, ms[0]), ms[1..], opss[1..], b);
      hide IsRun, After;
      LinkedStep(c, w, opss[0], ms[0], w2, Events(ms[1..], opss[1..]));
    }
  }

  /**
   Agent end is where a run of the world from its start leaves the agent, and an answered heartbeat
   there says "no need" exactly when the config on disk is current, up to collision and newlines.
   */
  ghost predicate InWorld(c: Setup, es: seq<Event>, end: Agent, ok: bool) {
    && Inv(c, StartWorld([])) && IsRun(c, StartWorld([]), es)
    && var r := After(c, StartWorld([]), es);
       && SameEnd(r.agent, end, ok) && AgentOk(c, r.agent) && Stored(r.db)
       && (ok && HeartbeatReply(c, r.db, end.version).Ok?
           && Separable(c, end.applied.value.tunnels, SiteTunnels(r.db, c.site)) ==>
           (HeartbeatReply(c, r.db, end.version) == Ok(false) <==> Synced(c, World(r.db, end))))
  }

  lemma RunInWorld(c: Setup, x: Script, y: Tables, opss: seq<seq<Op>>)
    requires RunTold(c, x, y) && Linked(EMPTY, RunMoves(c, x, y), opss)
    ensures InWorld(c, Events(RunMoves(c, x, y), opss), RunEnd(c, x).0, RunEnd(c, x).1)
  {
    var b := RunIsProtocolRun(c, x, y);
    InvInit(c, []);
    hide RunTold, RunMoves, RunEnd, AgentOk, Plays, Linked, HeartbeatReply, Separable, Synced, SiteTunnels, IsRun, After, Events;
    assert DbAfter(EMPTY, []) == EMPTY;
    LinkedIsRun(c, EMPTY, NEW_AGENT, RunMoves(c, x, y), opss, b);
    DriftAlways(c, [], Events(RunMoves(c, x, y), opss));
  }

  /**
   The same said of the object: a new agent's whole run, whatever happens in it, and wherever its
   calls find the tables; and if those grow out of one another, in the protocol's world.
   */
  method Live(c: Setup, binary: string, x: Script, ghost y: Tables, ghost opss: seq<seq<Op>>)
      returns (agent: Runtime, ok: bool)
    requires RunTold(c, x, y)
    ensures fresh(agent) && agent.Valid() && (ok ==> agent.running == {}) && AgentOk(c, agent.Abs(Exited))
    ensures Linked(EMPTY, RunMoves(c, x, y), opss) ==> InWorld(c, Events(RunMoves(c, x, y), opss), agent.Abs(Waiting), ok)
  {
    hide AgentOk, Start, Ticks, BootsOk, AllTold, TicksTold, RunMoves, InWorld, Linked;
    agent := new Runtime(c, binary);
    ok := agent.Run(x.first, x.bridgeOk, x.writeOk, x.ts);
    ghost var b := RunIsProtocolRun(c, x, y);
    assert agent.Abs(Exited) == agent.Abs(Waiting).(pc := Exited);
    if Linked(EMPTY, RunMoves(c, x, y), opss) {
      RunInWorld(c, x, y, opss);
    }
  }
}
