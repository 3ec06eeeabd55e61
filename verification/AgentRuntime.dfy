/**
 The agent as it runs: its fields, the one supervisor it may have, the retry loop around the
 bootstrap call and the heartbeat loop. Calls, waits and the disk are a script of outcomes.
 */
module AgentRuntime {
  import opened Wrappers
  import opened Render
  import opened Drift
  import CV = ConfigVersion

  // ----- bootstrapWithRetry -----

  datatype Outcome = Answered(boot: Boot) | Rejected | Failed | CancelledInCall | CancelledInWait

  datatype BootError = BadToken | Cancelled | GaveUp

  /** The pause after attempt k + 1, in seconds: five, doubled each time, at most sixty. */
  function Backoff(k: nat): nat {
    if k == 0 then 5 else if 2 * Backoff(k - 1) > 60 then 60 else 2 * Backoff(k - 1)
  }

  function TotalWait(failures: nat): nat {
    if failures == 0 then 0 else TotalWait(failures - 1) + Backoff(failures - 1)
  }

  predicate AllFailed(outcomes: seq<Outcome>, k: nat)
    requires k <= |outcomes|
  {
    forall j :: 0 <= j < k ==> outcomes[j].Failed?
  }

  /** What the outcomes come to. */
  function RetryResult(outcomes: seq<Outcome>): Result<Boot, BootError>
    decreases |outcomes|
  {
    if outcomes == [] then Err(GaveUp)
    else
      match outcomes[0]
      case Answered(boot) => Ok(boot)
      case Rejected => Err(BadToken)
      case Failed => RetryResult(outcomes[1..])
      case _ => Err(Cancelled)
  }

  /** The plain failures before anything else happens. */
  function Failures(outcomes: seq<Outcome>): (k: nat)
    ensures k <= |outcomes|
    decreases |outcomes|
  {
    if outcomes != [] && outcomes[0].Failed? then 1 + Failures(outcomes[1..]) else 0
  }

  /** outcomes[k] is what becomes of attempt k + 1. */
  method BootstrapWithRetry(outcomes: seq<Outcome>) returns (r: Result<Boot, BootError>, waited: nat)
    requires |outcomes| == MAX_ATTEMPTS
    ensures r == RetryResult(outcomes) && waited == TotalWait(Failures(outcomes))
  {
    var backoff := 5;
    waited := 0;
    var attempt := 1;
    while attempt <= MAX_ATTEMPTS
      invariant 1 <= attempt <= MAX_ATTEMPTS + 1
      invariant RetryResult(outcomes) == RetryResult(outcomes[attempt - 1..])
      invariant Failures(outcomes) == attempt - 1 + Failures(outcomes[attempt - 1..])
      invariant backoff == Backoff(attempt - 1) && waited == TotalWait(attempt - 1)
    {
      assert outcomes[attempt - 1..][1..] == outcomes[attempt..];
      match outcomes[attempt - 1] {
        case Answered(boot) => return Ok(boot), waited;
        case Rejected => return Err(BadToken), waited;
        case CancelledInCall => return Err(Cancelled), waited;
        case CancelledInWait => return Err(Cancelled), waited;
        case Failed =>
      }
      waited := waited + backoff;
      backoff := backoff * 2;
      if backoff > 60 {
        backoff := 60;
      }
      attempt := attempt + 1;
    }
    return Err(GaveUp), waited;
  }

  lemma {:induction false} SkipFailures(outcomes: seq<Outcome>, k: nat)
    requires k <= |outcomes| && AllFailed(outcomes, k)
    ensures RetryResult(outcomes) == RetryResult(outcomes[k..]) && Failures(outcomes) == k + Failures(outcomes[k..])
  {
    if k > 0 {
      assert forall j :: 0 <= j < k - 1 ==> outcomes[1..][j] == outcomes[j + 1];
      SkipFailures(outcomes[1..], k - 1);
      assert outcomes[1..][k - 1..] == outcomes[k..];
    }
  }

  /**
   The agent boots exactly when an answer comes before any rejection or cancellation within ten
   attempts; it gives up exactly when all ten fail, after 435 seconds of waiting.
   */
  lemma RetryExact(outcomes: seq<Outcome>, boot: Boot)
    requires |outcomes| == MAX_ATTEMPTS
    ensures RetryResult(outcomes) == Ok(boot) <==>
      exists k: nat :: k < MAX_ATTEMPTS && AllFailed(outcomes, k) && outcomes[k] == Answered(boot)
    ensures RetryResult(outcomes) == Err(GaveUp) <==> AllFailed(outcomes, MAX_ATTEMPTS)
    ensures RetryResult(outcomes) == Err(GaveUp) ==> TotalWait(Failures(outcomes)) == 435
  {
    var k := FirstNotFailed(outcomes);
    SkipFailures(outcomes, k);
    TenWaits();
    forall j: nat | j < MAX_ATTEMPTS && AllFailed(outcomes, j) && outcomes[j] == Answered(boot) ensures j == k {
    }
  }

  lemma FirstNotFailed(outcomes: seq<Outcome>) returns (k: nat)
    ensures k <= |outcomes| && AllFailed(outcomes, k) && (k < |outcomes| ==> !outcomes[k].Failed?)
  {
    k := 0;
    while k < |outcomes| && outcomes[k].Failed?
      invariant k <= |outcomes| && AllFailed(outcomes, k)
    {
      k := k + 1;
    }
  }

  lemma TenWaits()
    ensures TotalWait(10) == 435
  {
    assert Backoff(2) == 20 && Backoff(4) == 60 && Backoff(6) == 60 && Backoff(8) == 60;
    assert TotalWait(2) == 15 && TotalWait(4) == 75 && TotalWait(6) == 195 && TotalWait(8) == 315;
  }

  // ----- the heartbeat loop -----

  /** One tick: the heartbeat is lost or answered; if the agent must bootstrap again, how that and the write go. */
  datatype Tick = Tick(answer: Option<bool>, boots: seq<Outcome>, writeOk: bool)

  /** The agent after an answer and an attempt to apply it. */
  function Applied(c: Setup, a: Agent, boot: Boot, writeOk: bool): Agent
    requires CV.AllOk(boot.tunnels)
  {
    if writeOk then ApplyBoot(c, a, boot).(pc := a.pc) else a
  }

  lemma {:induction false} ResultOk(outcomes: seq<Outcome>)
    requires forall k :: 0 <= k < |outcomes| && outcomes[k].Answered? ==> CV.AllOk(outcomes[k].boot.tunnels)
    ensures RetryResult(outcomes).Ok? ==> CV.AllOk(RetryResult(outcomes).value.tunnels)
  {
    if outcomes != [] {
      assert forall k :: 0 <= k < |outcomes| - 1 ==> outcomes[1..][k] == outcomes[k + 1];
      ResultOk(outcomes[1..]);
    }
  }

  predicate BootsOk(outcomes: seq<Outcome>) {
    |outcomes| == MAX_ATTEMPTS
    && forall k :: 0 <= k < |outcomes| && outcomes[k].Answered? ==> CV.AllOk(outcomes[k].boot.tunnels)
  }

  /** The agent after a run of ticks, and whether it came through all of them. */
  function Ticks(c: Setup, a: Agent, ts: seq<Tick>): (Agent, bool)
    requires forall k :: 0 <= k < |ts| ==> BootsOk(ts[k].boots)
    decreases |ts|
  {
    if ts == [] then (a, true)
    else if ts[0].answer != Some(true) then Ticks(c, a, ts[1..])
    else
      assert BootsOk(ts[0].boots);
      ResultOk(ts[0].boots);
      match RetryResult(ts[0].boots)
      case Err(_) => (a, false)
      case Ok(boot) => Ticks(c, Applied(c, a, boot, ts[0].writeOk), ts[1..])
  }

  /** The start of a run: the first bootstrap, the bridge, and the first apply, which must succeed. */
  function Start(c: Setup, a: Agent, first: seq<Outcome>, bridgeOk: bool, writeOk: bool): (Agent, bool)
    requires BootsOk(first)
  {
    ResultOk(first);
    match RetryResult(first)
    case Err(_) => (a, false)
    case Ok(boot) =>
      if boot.endpoint != "" && a.bridge.None? && !bridgeOk then (a, false)
      else
        var b := if boot.endpoint != "" && a.bridge.None? then a.(bridge := Some(boot.endpoint)) else a;
        (Applied(c, b, boot, writeOk), writeOk && RenderClient(c.tokenHash, boot, c.raw, Remote(c, b, boot)).Ok?)
  }

  class Runtime {
    const setup: Setup
    const binary: string

    var supCancel: Option<int>
    var supDone: Option<int>
    var curVersion: string
    var bridge: Option<string>
    var file: Option<ClientConfig>

    // The supervisor goroutines that are alive, those told to stop, the file each was started
    // on, and the answer the file was written from.
    ghost var running: set<int>
    ghost var told: set<int>
    ghost var startedOn: map<int, Option<ClientConfig>>
    ghost var applied: Option<Boot>
    var next: int

    ghost function Abs(pc: Pc): Agent
      reads this
    {
      Agent(pc, curVersion, applied, file, bridge)
    }

    /**
     At most one supervisor is alive: the published one. It has not been told to stop, and it
     was started on the file now on disk.
     */
    ghost predicate Valid()
      reads this
    {
      && supCancel == supDone
      && running == (if supDone.None? then {} else {supDone.value})
      && running !! told && running <= startedOn.Keys
      && (forall u <- running :: startedOn[u] == file)
      && (forall u <- startedOn :: u < next) && (forall u <- told :: u < next)
      && (binary == "" ==> supDone.None?)
    }

    constructor (setup: Setup, binary: string)
      ensures Valid() && Abs(Booting(1)) == NEW_AGENT && running == {} && this.setup == setup && this.binary == binary
    {
      this.setup, this.binary := setup, binary;
      supCancel, supDone, curVersion, bridge, file := None, None, "", None, None;
      running, told, startedOn, applied, next := {}, {}, map[], None, 0;
    }

    /** Publish the new supervisor, then start it. */
    method StartSupervisor()
      requires Valid() && supDone.None? && binary != ""
      modifies `supCancel, `supDone, `running, `startedOn, `next
      ensures Valid() && supDone == Some(old(next)) && running == {old(next)}
    {
      var u := next;
      next := next + 1;
      supCancel, supDone := Some(u), Some(u);
      running, startedOn := running + {u}, startedOn[u := file];
    }

    /** Take the published supervisor, cancel it, and wait until it is done. */
    method StopSupervisor()
      requires supCancel == supDone && running == (if supDone.None? then {} else {supDone.value})
      requires running <= startedOn.Keys && (forall u <- startedOn :: u < next) && (forall u <- told :: u < next)
      modifies `supCancel, `supDone, `running, `told
      ensures Valid() && supDone.None? && running == {}
      ensures told == old(told) + old(running)
    {
      var cancel, done := supCancel, supDone;
      supCancel, supDone := None, None;
      if cancel.Some? {
        told := told + {cancel.value};
      }
      if done.Some? {
        running := running - {done.value};
      }
    }

    /** Render, write, note the version; then replace the supervisor, unless there is no binary to run. */
    method ApplyBootstrap(boot: Boot, writeOk: bool, ghost pc: Pc) returns (ok: bool)
      requires Valid() && CV.AllOk(boot.tunnels)
      modifies this
      ensures Valid() && bridge == old(bridge)
      ensures Abs(pc) == Applied(setup, old(Abs(pc)), boot, writeOk)
      ensures ok <==> writeOk && RenderClient(setup.tokenHash, boot, setup.raw, Remote(setup, old(Abs(pc)), boot)).Ok?
      ensures ok ==> applied == Some(boot) && file.Some? && (binary != "" ==> supDone.Some? && running == {supDone.value})
      ensures !ok ==> supDone == old(supDone) && running == old(running)
    {
      hide RenderClient, CV.AllOk;
      var remote := boot.endpoint;
      if bridge.Some? {
        remote := setup.local;
      }
      var rendered := RenderRatholeClient(setup.tokenHash, boot, setup.raw, remote);
      if rendered.Err? {
        return false;
      }
      if !writeOk {
        return false;
      }
      file := Some(rendered.value);
      applied := Some(boot);
      curVersion := boot.version;
      if binary == "" {
        return true;
      }
      StopSupervisor();
      StartSupervisor();
      return true;
    }

    /**
     The whole run: first is what becomes of the first bootstrap, ts are the heartbeat ticks
     until the context ends. A run that comes through all ticks leaves no supervisor behind.
     */
    method Run(first: seq<Outcome>, bridgeOk: bool, writeOk: bool, ts: seq<Tick>) returns (ok: bool)
      requires Valid() && BootsOk(first) && forall k :: 0 <= k < |ts| ==> BootsOk(ts[k].boots)
      modifies this
      ensures Valid() && (ok ==> running == {})
      ensures var (a, started) := Start(setup, old(Abs(Waiting)), first, bridgeOk, writeOk);
        (Abs(Waiting), ok) == if started then Ticks(setup, a, ts) else (a, false)
    {
      ResultOk(first);
      var r, _ := BootstrapWithRetry(first);
      if r.Err? {
        return false;
      }
      var boot := r.value;
      if boot.endpoint != "" && bridge.None? {
        if !bridgeOk {
          return false;
        }
        bridge := Some(boot.endpoint);
      }
      ok := ApplyBootstrap(boot, writeOk, Waiting);
      if !ok {
        return false;
      }
      ok := Loop(ts);
    }

    method Loop(ts: seq<Tick>) returns (ok: bool)
      requires Valid() && forall k :: 0 <= k < |ts| ==> BootsOk(ts[k].boots)
      modifies this
      ensures Valid() && (ok ==> running == {})
      ensures (Abs(Waiting), ok) == Ticks(setup, old(Abs(Waiting)), ts)
    {
      var i := 0;
      while i < |ts|
        invariant 0 <= i <= |ts| && Valid()
        invariant Ticks(setup, old(Abs(Waiting)), ts) == Ticks(setup, Abs(Waiting), ts[i..])
      {
        assert ts[i..][1..] == ts[i + 1..];
        var tick := ts[i];
        i := i + 1;
        if tick.answer != Some(true) {
          continue;
        }
        ResultOk(tick.boots);
        var r, _ := BootstrapWithRetry(tick.boots);
        if r.Err? {
          return false;
        }
        var applied := ApplyBootstrap(r.value, tick.writeOk, Waiting);
      }
      StopSupervisor();
      return true;
    }
  }
}
