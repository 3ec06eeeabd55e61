/**
 The config version: a hash over a canonical text of a site's port-bearing services. The hash
 is any function of that text; what is proved is how far the text determines the services.
 */
module ConfigVersion {
  import opened Wrappers
  import opened Text
  import opened Names
  import opened PortRange
  import opened Sorting
  import L = Ledger

  datatype Row = Row(slug: string, relayPort: int, addr: string, port: int, proto: string)

  /** Rows as the handlers store them: a valid slug, 16-bit ports, a known protocol, any address. */
  predicate RowOk(r: Row) {
    Slug(r.slug) && 0 <= r.relayPort <= MAX_PORT && 0 <= r.port <= MAX_PORT && r.proto in {"tcp", "udp"}
  }

  predicate AllOk(rows: seq<Row>) {
    forall k :: 0 <= k < |rows| ==> RowOk(rows[k])
  }

  // ----- the text -----

  function Line(r: Row): string
    requires RowOk(r)
  {
    r.slug + "|" + Dec(r.relayPort) + "|" + r.addr + "|" + Dec(r.port) + "|" + r.proto
  }

  function Encode(rows: seq<Row>): string
    requires AllOk(rows)
  {
    if rows == [] then "" else Line(rows[0]) + "\n" + Encode(rows[1..])
  }

  /** A line is read from both ends, so the address keeps its bars. */
  function DecodeLine(line: string): Option<Row> {
    var parts := Split(line, '|');
    var n := |parts|;
    if n < 5 then None
    else
      var relay, port := ParseUint(parts[1], MAX_PORT), ParseUint(parts[n - 2], MAX_PORT);
      if relay.None? || port.None? then None
      else Some(Row(parts[0], relay.value, Join(parts[2..n - 2], '|'), port.value, parts[n - 1]))
  }

  function DecodeLines(lines: seq<string>): (r: Option<seq<Row>>)
    ensures r.Some? ==> |r.value| == |lines|
  {
    if lines == [] then Some([])
    else
      match (DecodeLine(lines[0]), DecodeLines(lines[1..]))
      case (Some(row), Some(rows)) => Some([row] + rows)
      case _ => None
  }

  function Decode(s: string): Option<seq<Row>> {
    var lines := Split(s, '\n');
    if lines[|lines| - 1] != "" then None else DecodeLines(lines[..|lines| - 1])
  }

  // ----- reading a line back -----

  lemma {:induction false} SplitAppend(a: string, b: string, sep: char)
    ensures Split(a + [sep] + b, sep) == Split(a, sep) + Split(b, sep)
  {
    if a == "" {
      assert a + [sep] + b == [sep] + b;
      assert ([sep] + b)[1..] == b;
      assert Split("", sep) == [""];
    } else {
      SplitAppend(a[1..], b, sep);
      AppendStep(a, b, sep);
    }
  }

  lemma AppendStep(a: string, b: string, sep: char)
    requires a != "" && Split(a[1..] + [sep] + b, sep) == Split(a[1..], sep) + Split(b, sep)
    ensures Split(a + [sep] + b, sep) == Split(a, sep) + Split(b, sep)
  {
    hide Split;
    var s := a + [sep] + b;
    assert s[1..] == a[1..] + [sep] + b && s[0] == a[0];
    var x, y := Split(a[1..], sep), Split(b, sep);
    SplitCons(a, x, sep);
    SplitCons(s, x + y, sep);
    if a[0] == sep {
      assert [""] + (x + y) == ([""] + x) + y;
    } else {
      assert [[a[0]] + x[0]] + (x + y)[1..] == ([[a[0]] + x[0]] + x[1..]) + y;
    }
  }

  lemma SplitCons(s: string, rest: seq<string>, sep: char)
    requires s != "" && rest == Split(s[1..], sep)
    ensures rest != [] && Split(s, sep) == if s[0] == sep then [""] + rest else [[s[0]] + rest[0]] + rest[1..]
  {
  }

  lemma SlugLineFree(s: string)
    requires Slug(s)
    ensures Free(s, '|') && Free(s, '\n')
  {
    SlugFree(s, '|');
    SlugFree(s, '\n');
  }

  lemma LineParts(r: Row)
    requires RowOk(r)
    ensures Split(Line(r), '|') == [r.slug, Dec(r.relayPort)] + Split(r.addr, '|') + [Dec(r.port), r.proto]
  {
    SlugLineFree(r.slug);
    DigitsFree(Dec(r.relayPort), '|');
    DigitsFree(Dec(r.port), '|');
    assert Free(r.proto, '|');
    FiveParts(r.slug, Dec(r.relayPort), r.addr, Dec(r.port), r.proto);
  }

  lemma FiveParts(a: string, b: string, c: string, d: string, e: string)
    requires Free(a, '|') && Free(b, '|') && Free(d, '|') && Free(e, '|')
    ensures Split(a + "|" + b + "|" + c + "|" + d + "|" + e, '|') == [a, b] + Split(c, '|') + [d, e]
  {
    hide *;
    SplitFree(a, '|');
    SplitFree(b, '|');
    SplitFree(d, '|');
    SplitFree(e, '|');
    SplitAppend(a, b, '|');
    SplitAppend(a + "|" + b, c, '|');
    SplitAppend(a + "|" + b + "|" + c, d, '|');
    SplitAppend(a + "|" + b + "|" + c + "|" + d, e, '|');
  }

  /** Whatever bars the address holds, its line is read back. */
  lemma LineRoundTrip(r: Row)
    requires RowOk(r)
    ensures DecodeLine(Line(r)) == Some(r)
  {
    LineParts(r);
    var addr := Split(r.addr, '|');
    var parts := Split(Line(r), '|');
    assert parts[2..|parts| - 2] == addr;
    JoinSplit(r.addr, '|');
    hide Split, Join, Dec, Line, Slug;
    ParseFormat(r.relayPort, MAX_PORT);
    ParseFormat(r.port, MAX_PORT);
  }

  lemma FreeBar(a: string, b: string, c: char)
    requires c != '|'
    ensures Free(a + "|" + b, c) <==> Free(a, c) && Free(b, c)
  {
    var s := a + "|" + b;
    assert forall i :: 0 <= i < |a| ==> s[i] == a[i];
    assert forall i :: 0 <= i < |b| ==> s[|a| + 1 + i] == b[i];
    assert Free(s, c) ==> Free(b, c) by {
      assert forall i :: 0 <= i < |b| ==> b[i] == s[|a| + 1 + i];
    }
  }

  lemma LineFree(r: Row)
    requires RowOk(r)
    ensures Free(Line(r), '\n') <==> Free(r.addr, '\n')
  {
    var (a, b, d) := (r.slug, Dec(r.relayPort), Dec(r.port));
    SlugLineFree(a);
    DigitsFree(b, '\n');
    DigitsFree(d, '\n');
    assert Free(r.proto, '\n');
    hide Dec, Slug, Free, RowOk;
    FreeBar(a, b, '\n');
    FreeBar(a + "|" + b, r.addr, '\n');
    FreeBar(a + "|" + b + "|" + r.addr, d, '\n');
    FreeBar(a + "|" + b + "|" + r.addr + "|" + d, r.proto, '\n');
  }

  // ----- reading the text back -----

  predicate NewlineFree(rows: seq<Row>) {
    forall k :: 0 <= k < |rows| ==> Free(rows[k].addr, '\n')
  }

  lemma {:induction false} SplitOneIsFree(s: string, sep: char)
    requires |Split(s, sep)| == 1
    ensures Free(s, sep)
  {
    JoinSplit(s, sep);
  }

  lemma OneLine(r: Row)
    requires RowOk(r)
    ensures |Split(Line(r), '\n')| == 1 <==> Free(r.addr, '\n')
  {
    LineFree(r);
    if |Split(Line(r), '\n')| == 1 {
      SplitOneIsFree(Line(r), '\n');
    }
    if Free(Line(r), '\n') {
      SplitFree(Line(r), '\n');
    }
  }

  /** One line a row, and one more for every newline an address brings in. */
  lemma {:induction false} LineCount(rows: seq<Row>)
    requires AllOk(rows)
    ensures |Split(Encode(rows), '\n')| >= |rows| + 1
    ensures |Split(Encode(rows), '\n')| == |rows| + 1 <==> NewlineFree(rows)
    decreases |rows|
  {
    if rows == [] {
      assert Split("", '\n') == [""];
    } else {
      LineCount(rows[1..]);
      SplitAppend(Line(rows[0]), Encode(rows[1..]), '\n');
      OneLine(rows[0]);
      hide Line, Split, RowOk, Free;
      assert forall k :: 0 < k < |rows| ==> rows[k] == rows[1..][k - 1];
      assert NewlineFree(rows) <==> Free(rows[0].addr, '\n') && NewlineFree(rows[1..]);
    }
  }

  function Lines(rows: seq<Row>): seq<string>
    requires AllOk(rows)
  {
    if rows == [] then [] else [Line(rows[0])] + Lines(rows[1..])
  }

  lemma {:induction false} LinesRoundTrip(rows: seq<Row>)
    requires AllOk(rows)
    ensures DecodeLines(Lines(rows)) == Some(rows)
  {
    hide RowOk, Line, DecodeLine;
    if rows != [] {
      LinesRoundTrip(rows[1..]);
      LineRoundTrip(rows[0]);
      assert rows == [rows[0]] + rows[1..];
    }
  }

  lemma {:induction false} EncodeSplits(rows: seq<Row>)
    requires AllOk(rows) && NewlineFree(rows)
    ensures Split(Encode(rows), '\n') == Lines(rows) + [""]
  {
    if rows != [] {
      EncodeSplits(rows[1..]);
      LineFree(rows[0]);
      SplitFirst(Line(rows[0]), Encode(rows[1..]), '\n');
    }
  }

  /** The text can be read back exactly when no address holds a newline. */
  lemma EncodingExact(rows: seq<Row>)
    requires AllOk(rows)
    ensures Decode(Encode(rows)) == Some(rows) <==> NewlineFree(rows)
  {
    LineCount(rows);
    if NewlineFree(rows) {
      EncodeSplits(rows);
      LinesRoundTrip(rows);
      assert (Lines(rows) + [""])[..|Lines(rows)|] == Lines(rows);
    }
  }

  // ----- sorting by slug -----

  function BySlug(a: Row, b: Row): bool {
    Less(a.slug, b.slug)
  }

  lemma BySlugIsOrder()
    ensures WeakOrder(BySlug)
  {
    forall x: Row, y: Row | BySlug(x, y) ensures !BySlug(y, x) {
      LessTrichotomy(x.slug, y.slug);
    }
    forall x: Row, y: Row, z: Row | !BySlug(x, y) && !BySlug(y, z) ensures !BySlug(x, z) {
      LessTrichotomy(x.slug, y.slug);
      LessTrichotomy(y.slug, z.slug);
      if BySlug(x, z) {
        if Less(y.slug, x.slug) {
          LessTransitive(y.slug, x.slug, z.slug);
        }
      }
    }
  }

  ghost predicate SlugsDistinct(rows: seq<Row>) {
    forall i, j :: 0 <= i < j < |rows| ==> rows[i].slug != rows[j].slug
  }

  lemma DistinctSeparate(rows: seq<Row>)
    requires SlugsDistinct(rows)
    ensures Separates(BySlug, rows)
  {
    forall x, y | x in rows && y in rows && x != y ensures BySlug(x, y) || BySlug(y, x) {
      LessTrichotomy(x.slug, y.slug);
    }
  }

  lemma SortedOk(rows: seq<Row>)
    ensures AllOk(rows) <==> AllOk(Sort(BySlug, rows))
    ensures NewlineFree(rows) <==> NewlineFree(Sort(BySlug, rows))
  {
    var s := Sort(BySlug, rows);
    SortPermutes(BySlug, rows);
    forall k: nat | k < |rows| ensures rows[k] in s {
      SameElements(rows, s, k);
    }
    forall k: nat | k < |s| ensures s[k] in rows {
      SameElements(s, rows, k);
    }
    hide RowOk, Free, Sort;
    assert AllOk(rows) <==> forall r <- rows :: RowOk(r);
    assert AllOk(s) <==> forall r <- s :: RowOk(r);
    assert NewlineFree(rows) <==> forall r <- rows :: Free(r.addr, '\n');
    assert NewlineFree(s) <==> forall r <- s :: Free(r.addr, '\n');
  }

  /** The text that is hashed. */
  function Preimage(rows: seq<Row>): string
    requires AllOk(rows)
  {
    SortedOk(rows);
    Encode(Sort(BySlug, rows))
  }

  /**
   For rows with distinct slugs and no newline in an address: the hashed text is the same
   exactly when the rows are the same, in whatever order they come.
   */
  lemma PreimageExact(a: seq<Row>, b: seq<Row>)
    requires AllOk(a) && AllOk(b) && SlugsDistinct(a) && SlugsDistinct(b) && NewlineFree(a) && NewlineFree(b)
    ensures Preimage(a) == Preimage(b) <==> multiset(a) == multiset(b)
  {
    BySlugIsOrder();
    DistinctSeparate(a);
    SortedOk(a);
    SortedOk(b);
    SortPermutes(BySlug, a);
    SortPermutes(BySlug, b);
    if multiset(a) == multiset(b) {
      SortForgetsOrder(BySlug, a, b);
    }
    if Preimage(a) == Preimage(b) {
      EncodingExact(Sort(BySlug, a));
      EncodingExact(Sort(BySlug, b));
    }
  }

  /** The hashed text lists each row once, by ascending slug. */
  lemma PreimageOrder(rows: seq<Row>)
    requires AllOk(rows)
    ensures exists s :: AllOk(s) && multiset(s) == multiset(rows) && Ascending(s) && Preimage(rows) == Encode(s)
  {
    var s := Sort(BySlug, rows);
    BySlugIsOrder();
    SortSorts(BySlug, rows);
    SortPermutes(BySlug, rows);
    SortedOk(rows);
    forall i, j | 0 <= i < j < |s| ensures s[i].slug == s[j].slug || Less(s[i].slug, s[j].slug) {
      LessTrichotomy(s[i].slug, s[j].slug);
      assert !BySlug(s[j], s[i]);
    }
    assert Ascending(s);
  }

  predicate Ascending(rows: seq<Row>) {
    forall i, j :: 0 <= i < j < |rows| ==> rows[i].slug == rows[j].slug || Less(rows[i].slug, rows[j].slug)
  }

  /** Row order never matters, newlines or not. */
  lemma PreimageForgetsOrder(a: seq<Row>, b: seq<Row>)
    requires AllOk(a) && AllOk(b) && SlugsDistinct(a) && multiset(a) == multiset(b)
    ensures Preimage(a) == Preimage(b)
  {
    BySlugIsOrder();
    DistinctSeparate(a);
    SortForgetsOrder(BySlug, a, b);
  }

  const POSER: Row := Row("a", 1, "x|2|tcp\nb|3|y", 4, "tcp")
  const FIRST: Row := Row("a", 1, "x", 2, "tcp")
  const SECOND: Row := Row("b", 3, "y", 4, "tcp")

  /** With a newline in an address, one service can pose as two. */
  lemma NewlineCollision()
    ensures RowOk(POSER) && RowOk(FIRST) && RowOk(SECOND) && AllOk([POSER]) && AllOk([FIRST, SECOND])
    ensures SlugsDistinct([FIRST, SECOND]) && Preimage([POSER]) == Preimage([FIRST, SECOND])
  {
    assert Slug("a") && Slug("b");
    assert FIRST.slug[0] != SECOND.slug[0];
    var rows := [FIRST, SECOND];
    assert AllOk(rows) && AllOk([POSER]);
    OneRow(POSER);
    TwoRows(FIRST, SECOND);
    PoserLine();
  }

  lemma OneRow(r: Row)
    requires RowOk(r)
    ensures AllOk([r]) && Preimage([r]) == Line(r) + "\n"
  {
    hide RowOk, Line;
    assert [r][1..] == [];
    assert Sort(BySlug, [r]) == [r];
    assert Encode([]) == "";
    assert Encode([r]) == Line(r) + "\n" + "" == Line(r) + "\n";
  }

  lemma TwoRows(p: Row, q: Row)
    requires RowOk(p) && RowOk(q) && Less(p.slug, q.slug)
    ensures AllOk([p, q]) && Preimage([p, q]) == Line(p) + "\n" + (Line(q) + "\n")
  {
    OneRow(q);
    LessTrichotomy(p.slug, q.slug);
    hide RowOk, Line, Less;
    assert [p, q][1..] == [q];
    assert [q][1..] == [];
    assert Sort(BySlug, [q]) == [q];
    assert Sort(BySlug, [p, q]) == [p, q];
  }

  lemma PoserLine()
    requires RowOk(POSER) && RowOk(FIRST) && RowOk(SECOND)
    ensures Line(POSER) == Line(FIRST) + "\n" + Line(SECOND)
  {
    SmallLine("a", 1, "x|2|tcp\nb|3|y", 4);
    SmallLine("a", 1, "x", 2);
    SmallLine("b", 3, "y", 4);
    hide Line, RowOk;
    assert "|" + "1" + "|" == "|1|" && "|" + "3" + "|" == "|3|";
    assert "|" + "2" + "|tcp" == "|2|tcp" && "|" + "4" + "|tcp" == "|4|tcp";
    OnePoserText();
    TwoLinesText();
  }

  lemma OnePoserText()
    ensures "a" + "|1|" + "x|2|tcp\nb|3|y" + "|4|tcp" == "a|1|x|2|tcp\nb|3|y|4|tcp"
  {
  }

  lemma TwoLinesText()
    ensures ("a" + "|1|" + "x" + "|2|tcp") + "\n" + ("b" + "|3|" + "y" + "|4|tcp") == "a|1|x|2|tcp\nb|3|y|4|tcp"
  {
    assert "a" + "|1|" + "x" + "|2|tcp" == "a|1|x|2|tcp";
    assert "b" + "|3|" + "y" + "|4|tcp" == "b|3|y|4|tcp";
  }

  lemma SmallLine(slug: string, m: nat, addr: string, n: nat)
    requires m < 10 && n < 10 && RowOk(Row(slug, m, addr, n, "tcp"))
    ensures Line(Row(slug, m, addr, n, "tcp")) == slug + ("|" + [DigitOf(m)] + "|") + addr + ("|" + [DigitOf(n)] + "|tcp")
    ensures [DigitOf(1)] == "1" && [DigitOf(2)] == "2" && [DigitOf(3)] == "3" && [DigitOf(4)] == "4"
  {
    assert Dec(m) == [DigitOf(m)] && Dec(n) == [DigitOf(n)];
    hide Dec, RowOk;
    var x, y := [DigitOf(m)], [DigitOf(n)];
    assert slug + "|" + x + "|" == slug + ("|" + x + "|");
    assert "|" + y + "|tcp" == "|" + y + "|" + "tcp";
    var p := slug + "|" + x + "|" + addr;
    assert p + "|" + y + "|" + "tcp" == p + ("|" + y + "|tcp");
  }

  // ----- the version -----

  function RowsOf(svcs: seq<L.Service>): seq<Row> {
    if svcs == [] then []
    else One(svcs[0]) + RowsOf(svcs[1..])
  }

  /** The row of a service that holds a port. */
  function One(s: L.Service): seq<Row> {
    if s.relayPort.None? then [] else [RowOf(s)]
  }

  function RowOf(s: L.Service): Row
    requires s.relayPort.Some?
  {
    Row(s.name, s.relayPort.value, s.addr, s.port, s.proto)
  }

  predicate ServiceOk(s: L.Service) {
    s.relayPort.Some? ==> RowOk(RowOf(s))
  }

  lemma {:induction false} RowsOk(svcs: seq<L.Service>)
    requires forall s <- svcs :: ServiceOk(s)
    ensures AllOk(RowsOf(svcs))
  {
    if svcs != [] {
      RowsOk(svcs[1..]);
      assert ServiceOk(svcs[0]);
    }
  }

  function Version(hash: string -> string, svcs: seq<L.Service>): string
    requires forall s <- svcs :: ServiceOk(s)
  {
    RowsOk(svcs);
    hash(Preimage(RowsOf(svcs)))
  }

  lemma {:induction false} RowsOfSnoc(svcs: seq<L.Service>, s: L.Service)
    ensures RowsOf(svcs + [s]) == RowsOf(svcs) + One(s)
  {
    hide One;
    if svcs == [] {
      assert [s][1..] == [];
      assert RowsOf([s]) == One(s) + [];
    } else {
      assert (svcs + [s])[1..] == svcs[1..] + [s];
      RowsOfSnoc(svcs[1..], s);
      assert One(svcs[0]) + (RowsOf(svcs[1..]) + One(s)) == One(svcs[0]) + RowsOf(svcs[1..]) + One(s);
    }
  }

  lemma {:induction false} EncodeSnoc(rows: seq<Row>, r: Row)
    requires AllOk(rows) && RowOk(r)
    ensures AllOk(rows + [r]) && Encode(rows + [r]) == Encode(rows) + (Line(r) + "\n")
  {
    hide RowOk, Line;
    if rows == [] {
      assert [r][1..] == [];
    } else {
      assert (rows + [r])[1..] == rows[1..] + [r];
      EncodeSnoc(rows[1..], r);
    }
  }

  /** Collect, sort, and write the rows one field at a time. */
  method ComputeConfigVersion(hash: string -> string, svcs: seq<L.Service>) returns (v: string)
    requires forall s <- svcs :: ServiceOk(s)
    ensures v == Version(hash, svcs)
  {
    var rows: seq<Row> := [];
    for i := 0 to |svcs|
      invariant rows == RowsOf(svcs[..i])
    {
      RowsOfSnoc(svcs[..i], svcs[i]);
      assert svcs[..i + 1] == svcs[..i] + [svcs[i]];
      if svcs[i].relayPort.Some? {
        rows := rows + [Row(svcs[i].name, svcs[i].relayPort.value, svcs[i].addr, svcs[i].port, svcs[i].proto)];
      }
    }
    assert svcs[..|svcs|] == svcs;
    RowsOk(svcs);
    SortedOk(rows);
    rows := Sort(BySlug, rows);
    var b := Write(rows);
    v := hash(b);
  }

  method Write(rows: seq<Row>) returns (b: string)
    requires AllOk(rows)
    ensures b == Encode(rows)
  {
    b := "";
    for i := 0 to |rows|
      invariant b == Encode(rows[..i])
    {
      var line := WriteRow(rows[i]);
      b := b + line;
      EncodeSnoc(rows[..i], rows[i]);
      assert rows[..i + 1] == rows[..i] + [rows[i]];
    }
    assert rows[..|rows|] == rows;
  }

  method WriteRow(r: Row) returns (b: string)
    requires RowOk(r)
    ensures b == Line(r) + "\n"
  {
    b := r.slug;
    b := b + "|";
    b := b + Dec(r.relayPort);
    b := b + "|";
    b := b + r.addr;
    b := b + "|";
    b := b + Dec(r.port);
    b := b + "|";
    b := b + r.proto;
    b := b + "\n";
  }
}
