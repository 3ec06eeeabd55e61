/**
 Two short runs from the empty tables after which two live services hold one port: one through
 a forced delete, one through a change of a port range.
 */
module LedgerLimits {
  import opened Wrappers
  import opened Text
  import opened Names
  import opened PortRange
  import opened Ledger
  import opened LedgerInvariant

  // ----- two runs -----

  const LOW: string := FormatRange(10, 12)
  const HIGH: string := FormatRange(20, 22)
  const A: Project := Project("a", "A", LOW, "endpoint", "rathole", true, false)
  const B: Project := Project("b", "B", LOW, "endpoint", "rathole", true, false)
  const S: Site := Site(1, "s", false)
  const V: Service := Service(1, "v", "localhost", 22, "tcp", Some(11), false)
  const BODY: ServiceBody := ServiceBody("localhost", 22, None)
  const MOVE: ProjectBody := ProjectBody("", HIGH, None, None, None)

  lemma Ranges()
    ensures ParsePortRange(LOW) == Ok((10, 12)) && ParsePortRange(HIGH) == Ok((20, 22)) && LOW != "" && HIGH != ""
  {
    RangeRoundTrip(10, 12);
    RangeRoundTrip(20, 22);
  }

  /** Project a, its site s, and a service on port 11, the first above the control port. */
  const STEM: seq<Op> := [OpCreateProject("a", "A", LOW, "endpoint", "rathole"), OpCreateSite("a", "s", "S"),
                          OpCreateService("a", "s", "v", BODY)]
  const STEM_DB: Db := Db(map[1 := A], map[1 := S], map[1 := V], 2, 2, 2)

  lemma StemRuns()
    ensures DbAfter(EMPTY, STEM) == STEM_DB
  {
    Ranges();
    hide ParsePortRange, FormatRange;
    var d1 := Db(map[1 := A], map[], map[], 2, 1, 1);
    var d2 := Db(map[1 := A], map[1 := S], map[], 2, 2, 1);
    assert Do(EMPTY, STEM[0]).0 == d1 by {
      assert forall q :: !Meets(EMPTY, q, 10, 12, 0);
    }
    assert Do(d1, STEM[1]).0 == d2;
    assert Do(d2, STEM[2]).0 == STEM_DB by {
      assert UsedPorts(d2, 1) == {};
    }
    DbAfterThree(EMPTY, STEM);
  }

  lemma DbAfterThree(db: Db, ops: seq<Op>)
    requires |ops| == 3
    ensures DbAfter(db, ops) == Do(Do(Do(db, ops[0]).0, ops[1]).0, ops[2]).0
  {
    hide Do;
    var d1 := Do(db, ops[0]).0;
    var d2 := Do(d1, ops[1]).0;
    assert DbAfter(db, ops) == DbAfter(d1, ops[1..]) == DbAfter(d2, ops[1..][1..]);
    assert ops[1..][1..][1..] == [];
  }

  lemma {:induction false} DbAfterConcat(db: Db, a: seq<Op>, b: seq<Op>)
    ensures DbAfter(db, a + b) == DbAfter(DbAfter(db, a), b)
    decreases |a|
  {
    hide Do;
    if a == [] {
      assert a + b == b;
    } else {
      assert (a + b)[1..] == a[1..] + b;
      DbAfterConcat(Do(db, a[0]).0, a[1..], b);
    }
  }

  ghost predicate PortTwice(db: Db) {
    exists v, w :: LiveService(db.services, v) && LiveService(db.services, w) && v != w
                   && PortOf(db.services, v).Some? && PortOf(db.services, v) == PortOf(db.services, w)
  }

  const FORCED: seq<Op> := [OpDeleteSite("a", "s", true), OpCreateSite("a", "t", "T"), OpCreateService("a", "t", "w", BODY)]
  const FORCED_DB: Db := Db(map[1 := A], map[1 := Site(1, "s", true), 2 := Site(1, "t", false)],
                            map[1 := V, 2 := Service(2, "w", "localhost", 22, "tcp", Some(11), false)], 2, 3, 3)

  /** A forced site delete leaves its service live, and the allocator hands its port out again. */
  lemma ForcedDeleteSharesPort()
    ensures DbAfter(EMPTY, STEM + FORCED) == FORCED_DB && PortTwice(FORCED_DB)
  {
    StemRuns();
    DbAfterConcat(EMPTY, STEM, FORCED);
    DropRuns();
    StaleRuns();
    hide Do;
    DbAfterThree(STEM_DB, FORCED);
    assert LiveService(FORCED_DB.services, 1) && LiveService(FORCED_DB.services, 2);
  }

  lemma DropRuns()
    ensures Do(Do(STEM_DB, FORCED[0]).0, FORCED[1]).0 == STALE_DB
  {
    hide ParsePortRange, FormatRange;
    var d1 := STEM_DB.(sites := map[1 := Site(1, "s", true)]);
    assert Do(STEM_DB, FORCED[0]).0 == d1;
    assert Do(d1, FORCED[1]).0 == STALE_DB;
  }

  const STALE_DB: Db := Db(map[1 := A], map[1 := Site(1, "s", true), 2 := Site(1, "t", false)], map[1 := V], 2, 3, 2)

  lemma StaleRuns()
    ensures Do(STALE_DB, FORCED[2]).0 == FORCED_DB
  {
    Ranges();
    hide ParsePortRange, FormatRange;
    assert FindSite(STALE_DB, 1, "t", 2) == Some(2);
    assert UsedPorts(STALE_DB, 1) == {};
  }

  const MOVED: seq<Op> := [OpUpdateProject("a", ["relay_port_range"], MOVE), OpCreateProject("b", "B", LOW, "endpoint", "rathole"),
                           OpCreateSite("b", "t", "T")]
  const MOVED_DB: Db := Db(map[1 := A.(portRange := HIGH), 2 := B], map[1 := S, 2 := Site(2, "t", false)], map[1 := V], 3, 3, 2)
  const CREATE_W: Op := OpCreateService("b", "t", "w", BODY)

  /** A range moves away from a service's port, and a new project takes the range and hands the port out. */
  lemma RangeUpdateSharesPort()
    ensures DbAfter(EMPTY, STEM + MOVED) == MOVED_DB && PortTwice(DbAfter(EMPTY, STEM + MOVED + [CREATE_W]))
  {
    StemRuns();
    MovedRuns();
    DbAfterConcat(EMPTY, STEM, MOVED);
    DbAfterConcat(EMPTY, STEM + MOVED, [CREATE_W]);
    CreateWRuns();
    hide Do;
    assert [CREATE_W][1..] == [];
    assert LiveService(LAST_DB.services, 1) && LiveService(LAST_DB.services, 2);
  }

  const LAST_DB: Db := MOVED_DB.(services := map[1 := V, 2 := Service(2, "w", "localhost", 22, "tcp", Some(11), false)],
                                 nextService := 3)

  lemma CreateWRuns()
    ensures Do(MOVED_DB, CREATE_W).0 == LAST_DB
  {
    Ranges();
    hide ParsePortRange, FormatRange;
    assert FindProject(MOVED_DB, "b", 2) == Some(2);
    assert FindSite(MOVED_DB, 2, "t", 2) == Some(2);
    assert UsedPorts(MOVED_DB, 2) == {};
  }

  lemma MovedRuns()
    ensures DbAfter(STEM_DB, MOVED) == MOVED_DB
  {
    Ranges();
    hide ParsePortRange, FormatRange;
    var d1 := STEM_DB.(projects := map[1 := A.(portRange := HIGH)]);
    var d2 := d1.(projects := map[1 := A.(portRange := HIGH), 2 := B], nextProject := 3);
    assert Do(STEM_DB, MOVED[0]).0 == d1 by {
      assert forall q :: !Meets(STEM_DB, q, 20, 22, 1);
    }
    assert Do(d1, MOVED[1]).0 == d2 by {
      assert forall q :: !Meets(d1, q, 10, 12, 0);
    }
    assert Do(d2, MOVED[2]).0 == MOVED_DB by {
      assert FindProject(d2, "b", 2) == Some(2);
    }
    DbAfterThree(STEM_DB, MOVED);
  }
}
