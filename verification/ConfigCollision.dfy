/**
 Which lists of rows share their text with another list. Newlines in an address let one row
 pose as two, and so any two rows be posed as by one; nothing else makes texts collide.
 */
module ConfigCollision {
  import opened Text
  import opened Names
  import opened Sorting
  import opened ConfigVersion

  /** The one row whose line is the two lines of p and q. */
  function Merge(p: Row, q: Row): Row
    requires RowOk(p) && RowOk(q)
  {
    Row(p.slug, p.relayPort,
        p.addr + ("|" + Dec(p.port) + "|" + p.proto) + "\n" + (q.slug + "|" + Dec(q.relayPort) + "|") + q.addr,
        q.port, q.proto)
  }

  lemma Regroup(h: string, a: string, m: string, t: string, b: string, n: string)
    ensures h + (a + m + "\n" + t + b) + n == (h + a + m) + "\n" + (t + b + n)
  {
  }

  lemma LineGroups(r: Row)
    requires RowOk(r)
    ensures Line(r) == (r.slug + "|" + Dec(r.relayPort) + "|") + r.addr + ("|" + Dec(r.port) + "|" + r.proto)
  {
    assert r.relayPort >= 0 && r.port >= 0;
    hide Dec, RowOk;
    var x := r.slug + "|" + Dec(r.relayPort) + "|" + r.addr;
    assert x + "|" + Dec(r.port) + "|" + r.proto == x + ("|" + Dec(r.port) + "|" + r.proto);
  }

  lemma MergeLine(p: Row, q: Row)
    requires RowOk(p) && RowOk(q)
    ensures RowOk(Merge(p, q)) && Line(Merge(p, q)) == Line(p) + "\n" + Line(q)
  {
    LineGroups(p);
    LineGroups(q);
    LineGroups(Merge(p, q));
    hide Line, Dec, Slug;
    Regroup(p.slug + "|" + Dec(p.relayPort) + "|", p.addr, "|" + Dec(p.port) + "|" + p.proto,
            q.slug + "|" + Dec(q.relayPort) + "|", q.addr, "|" + Dec(q.port) + "|" + q.proto);
  }

  /** The row reads as two, in slug order. */
  ghost predicate Poses(r: Row) {
    exists p: Row, q: Row :: MergeOf(r, p, q)
  }

  ghost predicate MergeOf(r: Row, p: Row, q: Row) {
    RowOk(p) && RowOk(q) && Less(p.slug, q.slug) && r == Merge(p, q)
  }

  /** Another list of distinct slugs has the same text. */
  ghost predicate Collides(a: seq<Row>)
    requires AllOk(a)
  {
    exists b: seq<Row> :: SameText(a, b) && multiset(b) != multiset(a)
  }

  ghost predicate SameText(a: seq<Row>, b: seq<Row>)
    requires AllOk(a)
  {
    AllOk(b) && SlugsDistinct(b) && Preimage(b) == Preimage(a)
  }

  // ----- sorted lists -----

  lemma {:induction false} InsertDistinct(x: Row, s: seq<Row>)
    requires SlugsDistinct(s) && forall k :: 0 <= k < |s| ==> s[k].slug != x.slug
    ensures SlugsDistinct(Insert(BySlug, x, s))
  {
    if s != [] && BySlug(s[0], x) {
      InsertDistinct(x, s[1..]);
      InsertPermutes(BySlug, x, s[1..]);
      var rest := Insert(BySlug, x, s[1..]);
      forall k | 0 <= k < |rest| ensures rest[k].slug != s[0].slug {
        assert rest[k] in multiset{x} + multiset(s[1..]);
      }
    }
  }

  lemma {:induction false} SortDistinct(s: seq<Row>)
    requires SlugsDistinct(s)
    ensures SlugsDistinct(Sort(BySlug, s))
  {
    if s != [] {
      var rest := Sort(BySlug, s[1..]);
      SortDistinct(s[1..]);
      SortPermutes(BySlug, s[1..]);
      forall k: nat | k < |rest| ensures rest[k].slug != s[0].slug {
        SameElements(rest, s[1..], k);
      }
      InsertDistinct(s[0], rest);
    }
  }

  /** Slugs in strictly increasing order. */
  ghost predicate Ordered(s: seq<Row>) {
    Sorted(BySlug, s) && SlugsDistinct(s)
  }

  lemma OrderedText(s: seq<Row>)
    requires AllOk(s) && Ordered(s)
    ensures Preimage(s) == Encode(s)
  {
    BySlugIsOrder();
    DistinctSeparate(s);
    SortSorts(BySlug, s);
    SortPermutes(BySlug, s);
    SortedUnique(BySlug, s, Sort(BySlug, s));
  }

  lemma OrderedStarts(s: seq<Row>)
    requires Ordered(s) && |s| >= 2
    ensures Less(s[0].slug, s[1].slug)
  {
    LessTrichotomy(s[0].slug, s[1].slug);
  }

  /** A text of one line or more is that of a single row, which poses as the rest where there are more. */
  lemma {:induction false} Collapse(s: seq<Row>) returns (r: Row)
    requires AllOk(s) && s != []
    ensures RowOk(r) && r.slug == s[0].slug && Encode(s) == Line(r) + "\n"
    decreases |s|
  {
    if |s| == 1 {
      r := s[0];
      assert s[1..] == [];
      assert Line(r) + "\n" + "" == Line(r) + "\n";
    } else {
      var q := Collapse(s[1..]);
      r := Merge(s[0], q);
      MergeLine(s[0], q);
      hide RowOk, Line, Merge;
      assert Line(s[0]) + "\n" + (Line(q) + "\n") == (Line(s[0]) + "\n" + Line(q)) + "\n";
    }
  }

  // ----- both directions -----

  lemma SortedShape(a: seq<Row>)
    requires AllOk(a) && SlugsDistinct(a)
    ensures var s := Sort(BySlug, a);
      AllOk(s) && Ordered(s) && |s| == |a| && multiset(s) == multiset(a) && Preimage(a) == Encode(s)
  {
    var s := Sort(BySlug, a);
    SortedOk(a);
    SortDistinct(a);
    SortPermutes(BySlug, a);
    BySlugIsOrder();
    SortSorts(BySlug, a);
    SameSize(s, a);
  }

  lemma SameSize(a: seq<Row>, b: seq<Row>)
    requires multiset(a) == multiset(b)
    ensures |a| == |b|
  {
    assert |multiset(a)| == |a| && |multiset(b)| == |b|;
  }

  /** Any two rows, newlines or not, can be posed as by one. */
  lemma TwoRowsCollide(a: seq<Row>)
    requires AllOk(a) && SlugsDistinct(a) && |a| >= 2
    ensures Collides(a)
  {
    hide RowOk, Sort, Preimage, Encode, Ordered, SlugsDistinct, Merge;
    var s := Sort(BySlug, a);
    SortedShape(a);
    var b := [Merge(s[0], s[1])] + s[2..];
    MergedOrdered(s, b);
    MergedText(s, b);
    OrderedText(b);
    if multiset(b) == multiset(a) {
      SameSize(a, b);
    }
    assert SameText(a, b);
  }

  lemma MergedOrdered(s: seq<Row>, b: seq<Row>)
    requires AllOk(s) && Ordered(s) && |s| >= 2 && RowOk(s[0]) && RowOk(s[1]) && b == [Merge(s[0], s[1])] + s[2..]
    ensures AllOk(b) && Ordered(b) && SlugsDistinct(b)
  {
    MergeLine(s[0], s[1]);
    assert b[0].slug == s[0].slug;
    hide RowOk, Line, Less, Merge;
    assert forall k :: 1 <= k < |b| ==> b[k] == s[k + 1];
  }

  lemma MergedText(s: seq<Row>, b: seq<Row>)
    requires AllOk(s) && AllOk(b) && |s| >= 2 && RowOk(s[0]) && RowOk(s[1]) && b == [Merge(s[0], s[1])] + s[2..]
    ensures Encode(b) == Encode(s)
  {
    MergeLine(s[0], s[1]);
    hide RowOk, Line, Merge;
    assert b[1..] == s[2..] == s[1..][1..];
    var l, m, rest := Line(s[0]), Line(s[1]), Encode(s[2..]);
    assert (l + "\n" + m) + "\n" + rest == l + "\n" + (m + "\n" + rest);
  }

  lemma PoserCollides(r: Row)
    requires RowOk(r) && Poses(r)
    ensures AllOk([r]) && Collides([r])
  {
    var p: Row, q: Row :| MergeOf(r, p, q);
    MergeLine(p, q);
    OneRow(r);
    TwoRows(p, q);
    LessTrichotomy(p.slug, q.slug);
    hide RowOk, Line, Merge, Preimage, Less;
    assert Line(p) + "\n" + (Line(q) + "\n") == (Line(p) + "\n" + Line(q)) + "\n";
    assert |multiset([p, q])| == 2 && |multiset([r])| == 1;
    assert SameText([r], [p, q]);
  }

  /** What shares its text with a single row is that row, or shows that it poses. */
  lemma SingleMatch(r: Row, b: seq<Row>)
    requires RowOk(r) && AllOk(b) && SlugsDistinct(b) && Preimage(b) == Line(r) + "\n"
    ensures b == [r] || Poses(r)
  {
    hide RowOk, Sort, Preimage, Line, Merge;
    var t := Sort(BySlug, b);
    SortedShape(b);
    if |t| == 1 {
      assert t == [t[0]] && t[1..] == [] && Line(t[0]) + "\n" + "" == Line(t[0]) + "\n";
      LineInjective(t[0], r);
      assert b == [b[0]] && b[0] in multiset(t);
    } else if |t| >= 2 {
      TwoLinesMatch(r, t);
    }
  }

  lemma TwoLinesMatch(r: Row, t: seq<Row>)
    requires RowOk(r) && AllOk(t) && Ordered(t) && |t| >= 2 && Encode(t) == Line(r) + "\n"
    ensures Poses(r)
  {
    hide RowOk, Line, Merge, Less;
    OrderedStarts(t);
    var q := Collapse(t[1..]);
    MergeLine(t[0], q);
    assert Line(t[0]) + "\n" + (Line(q) + "\n") == (Line(t[0]) + "\n" + Line(q)) + "\n";
    LineInjective(Merge(t[0], q), r);
    assert MergeOf(r, t[0], q);
  }

  lemma LineInjective(p: Row, q: Row)
    requires RowOk(p) && RowOk(q) && Line(p) + "\n" == Line(q) + "\n"
    ensures p == q
  {
    hide RowOk, Line;
    assert (Line(p) + "\n")[..|Line(p)|] == Line(p) && (Line(q) + "\n")[..|Line(q)|] == Line(q);
    LineRoundTrip(p);
    LineRoundTrip(q);
  }

  lemma EmptyText(b: seq<Row>)
    requires AllOk(b) && Preimage(b) == ""
    ensures b == []
  {
    SortPermutes(BySlug, b);
    SortedOk(b);
    assert |multiset(b)| == |b| && |multiset(Sort(BySlug, b))| == |Sort(BySlug, b)|;
  }

  /**
   A list of rows shares its text with another list exactly when it has two rows or more, or its
   only row poses as two. So the rows that a text stands for are known for certain only up to one;
   lists without newlines are told apart among themselves (PreimageExact).
   */
  lemma CollisionExact(a: seq<Row>)
    requires AllOk(a) && SlugsDistinct(a)
    ensures Collides(a) <==> |a| >= 2 || (|a| == 1 && Poses(a[0]))
  {
    hide RowOk, Line, Preimage, Poses, SlugsDistinct;
    if |a| >= 2 {
      TwoRowsCollide(a);
    } else if |a| == 1 {
      assert a == [a[0]];
      OneRow(a[0]);
      if Poses(a[0]) {
        PoserCollides(a[0]);
      } else if b: seq<Row> :| SameText(a, b) && multiset(b) != multiset(a) {
        SingleMatch(a[0], b);
      }
    } else if b: seq<Row> :| SameText(a, b) && multiset(b) != multiset(a) {
      NoText();
      EmptyText(b);
    }
  }

  lemma NoText()
    ensures Preimage([]) == ""
  {
    assert Sort(BySlug, []) == [];
  }

  /** A row without a newline never poses. */
  lemma PoserHasNewline(r: Row)
    requires Poses(r)
    ensures !Free(r.addr, '\n')
  {
    var p: Row, q: Row :| MergeOf(r, p, q);
    var before := p.addr + ("|" + Dec(p.port) + "|" + p.proto);
    hide Dec, RowOk, Less;
    assert r.addr[|before|] == '\n';
  }
}
