/**
 The restart loop of a supervised child: a doubling backoff capped at thirty seconds, which
 a child that lived for more than a minute resets.  All durations are in nanoseconds.
 */
module Supervisor {
  const SECOND: int := 1_000_000_000
  const MAX_BACKOFF: int := 30 * SECOND
  const LONG_RUN: int := 60 * SECOND

  /** What the world does in one round: the child's run, then the wait for the timer. */
  datatype Round = Round(cancelledBefore: bool,  // the context is done at the head of the loop
                         ran: nat,               // how long runOnce took
                         cancelledAfter: bool,   // the context is done when it returns
                         timerFires: bool,       // the select takes the timer arm
                         extra: nat)             // how much longer than the backoff that wait took

  /** The loop's variable, the clock since Run began, and what it has done so far. */
  datatype Loop = Loop(backoff: int, elapsed: int, waits: nat, exits: nat, ended: bool)

  const START: Loop := Loop(SECOND, 0, 0, 0, false)

  function AfterReset(backoff: int, ran: nat): int {
    if ran > LONG_RUN then SECOND else backoff
  }

  function Doubled(backoff: int): int {
    if backoff * 2 > MAX_BACKOFF then MAX_BACKOFF else backoff * 2
  }

  function NextLoop(l: Loop, r: Round): Loop {
    if l.ended || r.cancelledBefore then l.(ended := true)
    else
      var ranLoop := l.(elapsed := l.elapsed + r.ran, exits := l.exits + 1);
      if r.cancelledAfter then ranLoop.(ended := true)
      else
        var b := AfterReset(l.backoff, r.ran);
        if !r.timerFires then ranLoop.(backoff := b, ended := true)
        else ranLoop.(backoff := Doubled(b), elapsed := l.elapsed + r.ran + b + r.extra, waits := l.waits + 1)
  }

  function LoopAfter(l: Loop, rs: seq<Round>): Loop
    decreases |rs|
  {
    if rs == [] then l else LoopAfter(NextLoop(l, rs[0]), rs[1..])
  }

  /** Run, for as long as the rounds given last. */
  method Run(rs: seq<Round>) returns (l: Loop)
    ensures l == LoopAfter(START, rs)
  {
    var backoff, elapsed, waits, exits := SECOND, 0, 0, 0;
    var i := 0;
    while i < |rs|
      invariant 0 <= i <= |rs| && waits >= 0 && exits >= 0
      invariant LoopAfter(START, rs) == LoopAfter(Loop(backoff, elapsed, waits, exits, false), rs[i..])
    {
      var r := rs[i];
      assert rs[i..][1..] == rs[i + 1..];
      EndedStays(Loop(backoff, elapsed, waits, exits, true), rs[i + 1..]);
      if r.cancelledBefore {
        return Loop(backoff, elapsed, waits, exits, true);
      }
      elapsed := elapsed + r.ran;
      exits := exits + 1;
      EndedStays(Loop(backoff, elapsed, waits, exits, true), rs[i + 1..]);
      if r.cancelledAfter {
        return Loop(backoff, elapsed, waits, exits, true);
      }
      if r.ran > LONG_RUN {
        backoff := SECOND;
      }
      EndedStays(Loop(backoff, elapsed, waits, exits, true), rs[i + 1..]);
      if !r.timerFires {
        return Loop(backoff, elapsed, waits, exits, true);
      }
      elapsed := elapsed + backoff + r.extra;
      waits := waits + 1;
      backoff := backoff * 2;
      if backoff > MAX_BACKOFF {
        backoff := MAX_BACKOFF;
      }
      i := i + 1;
    }
    l := Loop(backoff, elapsed, waits, exits, false);
  }

  lemma {:induction false} EndedStays(l: Loop, rs: seq<Round>)
    requires l.ended
    ensures LoopAfter(l, rs) == l
    decreases |rs|
  {
    if rs != [] {
      EndedStays(l, rs[1..]);
    }
  }

  // ----- the amortised restart rate -----

  predicate OnLadder(backoff: int) {
    backoff in {SECOND, 2 * SECOND, 4 * SECOND, 8 * SECOND, 16 * SECOND, MAX_BACKOFF}
  }

  /** The credit a loop at this backoff must still have in hand, in fifths of a second. */
  function Credit(backoff: int): int {
    if backoff == SECOND then 300
    else if backoff == 2 * SECOND then 214
    else if backoff == 4 * SECOND then 133
    else if backoff == 8 * SECOND then 62
    else if backoff == 16 * SECOND then 11
    else 0
  }

  function Slack(l: Loop): int {
    5 * l.elapsed - 91 * SECOND * l.waits + 300 * SECOND
  }

  predicate Paced(l: Loop) {
    OnLadder(l.backoff) && Slack(l) >= Credit(l.backoff) * SECOND && l.waits <= l.exits <= l.waits + (if l.ended then 1 else 0)
  }

  lemma PacedKept(l: Loop, r: Round)
    requires Paced(l)
    ensures Paced(NextLoop(l, r))
  {
  }

  lemma {:induction false} PacedAlways(l: Loop, rs: seq<Round>)
    requires Paced(l)
    ensures Paced(LoopAfter(l, rs))
    decreases |rs|
  {
    if rs != [] {
      PacedKept(l, rs[0]);
      PacedAlways(NextLoop(l, rs[0]), rs[1..]);
    }
  }

  /**
   However long or short the children live, n completed waits take at least (91n - 300)/5
   seconds, and the backoff never leaves the ladder 1, 2, 4, 8, 16, 30.
   */
  lemma RestartRate(rs: seq<Round>)
    ensures var l := LoopAfter(START, rs);
      && 5 * l.elapsed >= 91 * SECOND * l.waits - 300 * SECOND
      && OnLadder(l.backoff)
      && l.waits <= l.exits <= l.waits + 1
  {
    PacedAlways(START, rs);
  }

  // ----- the ladder -----

  /** Seconds waited after the n-th short run in a row, counting from zero. */
  function Rung(n: nat): int {
    if n < 5 then [1, 2, 4, 8, 16][n] else 30
  }

  /** The child ran and ended by itself, and the timer fired. */
  predicate Full(r: Round) {
    !r.cancelledBefore && !r.cancelledAfter && r.timerFires
  }

  /** Round i is the last whose child lived for more than a minute; zero if there is none. */
  predicate LastLong(rs: seq<Round>, i: nat) {
    && (i == 0 || (i < |rs| && rs[i].ran > 60_000_000_000))
    && forall j :: i < j < |rs| ==> rs[j].ran <= 60_000_000_000
  }

  /** The loop is still on, has waited after each of these rounds, and would wait next what the ladder says. */
  predicate Climbed(l: Loop, waits: nat, rung: nat) {
    !l.ended && l.waits == l.exits == waits && l.backoff == 1_000_000_000 * Rung(rung)
  }

  /** In uncancelled rounds the wait is read off the rounds since the last long run, which starts the ladder again. */
  lemma {:induction false} BackoffExact(rs: seq<Round>, i: nat)
    requires (forall r <- rs :: Full(r)) && LastLong(rs, i)
    ensures Climbed(LoopAfter(START, rs), |rs|, if rs == [] then 0 else |rs| - i)
  {
    if rs != [] {
      var n := |rs| - 1;
      assert rs == rs[..n] + [rs[n]] && [rs[n]][1..] == [];
      LoopAppend(START, rs[..n], [rs[n]]);
      assert Full(rs[n]);
      if i < n {
        BackoffExact(rs[..n], i);
      } else {
        var j := LongBefore(rs[..n]);
        BackoffExact(rs[..n], j);
      }
    }
  }

  lemma {:induction false} LongBefore(rs: seq<Round>) returns (i: nat)
    ensures LastLong(rs, i)
  {
    i := 0;
    if rs != [] {
      var n := |rs| - 1;
      if rs[n].ran > 60_000_000_000 {
        i := n;
      } else {
        i := LongBefore(rs[..n]);
      }
    }
  }

  /**
   How long a further round takes: the child's run, then one second if it lived for more than a
   minute, else what the ladder says, then whatever the timer comes late.
   */
  lemma WaitExact(rs: seq<Round>, i: nat, r: Round)
    requires (forall x <- rs :: Full(x)) && LastLong(rs, i) && Full(r)
    ensures LoopAfter(START, rs + [r]).elapsed ==
      LoopAfter(START, rs).elapsed + r.ran + r.extra
      + 1_000_000_000 * if r.ran > 60_000_000_000 || rs == [] then 1 else Rung(|rs| - i)
  {
    BackoffExact(rs, i);
    LoopAppend(START, rs, [r]);
    assert [r][1..] == [];
  }

  lemma LoopFirst(l: Loop, rs: seq<Round>)
    requires rs != []
    ensures LoopAfter(l, rs) == LoopAfter(NextLoop(l, rs[0]), rs[1..])
  {
  }

  /**
   The first round that is not full ends the loop for good: a context done before the run allows no
   further exit, one done later that one exit and no further wait.
   */
  lemma CancelEnds(rs: seq<Round>, i: nat)
    requires i < |rs| && (forall r <- rs[..i] :: Full(r)) && !Full(rs[i])
    ensures var l := LoopAfter(START, rs);
      && l.ended && l.waits == i
      && l.exits == (if rs[i].cancelledBefore then i else i + 1)
      && l.elapsed == LoopAfter(START, rs[..i]).elapsed + if rs[i].cancelledBefore then 0 else rs[i].ran
  {
    var j := LongBefore(rs[..i]);
    BackoffExact(rs[..i], j);
    var l := LoopAfter(START, rs[..i]);
    assert rs == rs[..i] + rs[i..] && rs[i..][0] == rs[i];
    hide LoopAfter, LastLong, AfterReset, Doubled, Rung;
    LoopAppend(START, rs[..i], rs[i..]);
    LoopFirst(l, rs[i..]);
    EndedStays(NextLoop(l, rs[i]), rs[i..][1..]);
  }

  // ----- the bound is tight -----

  function Quick(ran: nat): Round {
    Round(false, ran, false, true, 0)
  }

  /** Five rounds up the ladder, the first after a run that just resets the backoff. */
  function Climb(ran: nat): seq<Round> {
    [Quick(ran), Quick(0), Quick(0), Quick(0), Quick(0)]
  }

  function Climbs(k: nat): seq<Round> {
    if k == 0 then [] else (if k == 1 then Climb(0) else Climbs(k - 1) + Climb(LONG_RUN + 1))
  }

  lemma ClimbCosts(l: Loop, ran: nat)
    requires !l.ended && (ran > LONG_RUN || l.backoff == SECOND)
    ensures LoopAfter(l, Climb(ran))
         == Loop(MAX_BACKOFF, l.elapsed + ran + 31 * SECOND, l.waits + 5, l.exits + 5, false)
  {
    var c := Climb(ran);
    var l1 := NextLoop(l, c[0]);
    var l2 := NextLoop(l1, c[1]);
    var l3 := NextLoop(l2, c[2]);
    var l4 := NextLoop(l3, c[3]);
    var l5 := NextLoop(l4, c[4]);
    assert c[1..][1..][1..][1..][1..] == [];
    assert LoopAfter(l4, c[1..][1..][1..][1..]) == l5;
    assert LoopAfter(l3, c[1..][1..][1..]) == l5;
    assert LoopAfter(l2, c[1..][1..]) == l5;
    assert LoopAfter(l1, c[1..]) == l5;
  }

  lemma {:induction false} LoopAppend(l: Loop, a: seq<Round>, b: seq<Round>)
    ensures LoopAfter(l, a + b) == LoopAfter(LoopAfter(l, a), b)
    decreases |a|
  {
    if a == [] {
      assert a + b == b;
    } else {
      assert (a + b)[1..] == a[1..] + b;
      LoopAppend(NextLoop(l, a[0]), a[1..], b);
    }
  }

  /** After 5k waits the bound is missed by one nanosecond per later climb, and no better rate holds. */
  lemma {:induction false} RateIsTight(k: nat)
    requires k >= 1
    ensures var l := LoopAfter(START, Climbs(k));
      l.waits == 5 * k && 5 * l.elapsed == 91 * SECOND * l.waits - 300 * SECOND + 5 * (k - 1) && !l.ended
  {
    if k == 1 {
      ClimbCosts(START, 0);
    } else {
      RateIsTight(k - 1);
      LoopAppend(START, Climbs(k - 1), Climb(LONG_RUN + 1));
      ClimbCosts(LoopAfter(START, Climbs(k - 1)), LONG_RUN + 1);
    }
  }

  /** When the children exit, by the clock that starts with Run. */
  function ExitTimes(l: Loop, rs: seq<Round>): seq<int>
    decreases |rs|
  {
    if rs == [] then []
    else
      var rest := ExitTimes(NextLoop(l, rs[0]), rs[1..]);
      if l.ended || rs[0].cancelledBefore then rest else [l.elapsed + rs[0].ran] + rest
  }

  lemma {:induction false} ExitsCounted(l: Loop, rs: seq<Round>)
    ensures LoopAfter(l, rs).exits == l.exits + |ExitTimes(l, rs)|
    decreases |rs|
  {
    if rs != [] {
      ExitsCounted(NextLoop(l, rs[0]), rs[1..]);
    }
  }
}
