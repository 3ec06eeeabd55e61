/** Parsing "min-max" port ranges. */
module PortRange {
  import opened Wrappers
  import opened Text

  /** unicode.IsSpace: the Latin-1 spaces and the other characters with the White_Space property. */
  predicate IsSpace(c: char) {
    var n := c as int;
    9 <= n <= 13 || n == 32 || n == 0x85 || n == 0xA0 || n == 0x1680 || 0x2000 <= n <= 0x200A
    || n == 0x2028 || n == 0x2029 || n == 0x202F || n == 0x205F || n == 0x3000
  }

  function TrimLeft(s: string): string {
    if s != "" && IsSpace(s[0]) then TrimLeft(s[1..]) else s
  }

  function TrimRight(s: string): string {
    if s != "" && IsSpace(s[|s| - 1]) then TrimRight(s[..|s| - 1]) else s
  }

  function TrimSpace(s: string): string {
    TrimRight(TrimLeft(s))
  }

  /** strings.SplitN(s, sep, 2): cut at the first separator only. */
  function SplitTwo(s: string, sep: char): Option<(string, string)> {
    if s == "" then None
    else if s[0] == sep then Some(("", s[1..]))
    else
      match SplitTwo(s[1..], sep)
      case None => None
      case Some(p) => Some(([s[0]] + p.0, p.1))
  }

  const MAX_PORT: nat := 65535

  datatype RangeError = NoDash | BadMin | BadMax | MinAboveMax | TooNarrow

  function ParsePortRange(s: string): Result<(nat, nat), RangeError> {
    match SplitTwo(s, '-')
    case None => Err(NoDash)
    case Some(parts) =>
      match ParseUint(TrimSpace(parts.0), MAX_PORT)
      case None => Err(BadMin)
      case Some(min) =>
        match ParseUint(TrimSpace(parts.1), MAX_PORT)
        case None => Err(BadMax)
        case Some(max) =>
          if min > max then Err(MinAboveMax) else if min == max then Err(TooNarrow) else Ok((min, max))
  }

  function FormatRange(min: nat, max: nat): string {
    Dec(min) + "-" + Dec(max)
  }

  /** What parses has room for a control port and at least one service port, both uint16. */
  lemma ParsedRangeHasRoom(s: string)
    ensures ParsePortRange(s).Ok? ==> ParsePortRange(s).value.0 < ParsePortRange(s).value.1 <= MAX_PORT
  {
  }

  lemma {:induction false} SplitTwoFirst(a: string, b: string, sep: char)
    requires Free(a, sep)
    ensures SplitTwo(a + [sep] + b, sep) == Some((a, b))
  {
    var s := a + [sep] + b;
    if a != "" {
      assert s[1..] == a[1..] + [sep] + b;
      SplitTwoFirst(a[1..], b, sep);
      assert [a[0]] + a[1..] == a;
    }
  }

  lemma DigitsUntrimmed(s: string)
    requires s != "" && Digits(s)
    ensures TrimSpace(s) == s
  {
    assert IsDigit(s[0]) && IsDigit(s[|s| - 1]);
  }

  /** A formatted range parses back exactly when it has room and fits. */
  lemma RangeRoundTrip(min: nat, max: nat)
    ensures ParsePortRange(FormatRange(min, max)).Ok? <==> min < max <= MAX_PORT
    ensures min < max <= MAX_PORT ==> ParsePortRange(FormatRange(min, max)) == Ok((min, max))
  {
    DigitsFree(Dec(min), '-');
    SplitTwoFirst(Dec(min), Dec(max), '-');
    DigitsUntrimmed(Dec(min));
    DigitsUntrimmed(Dec(max));
    ParseFormat(min, MAX_PORT);
    ParseFormat(max, MAX_PORT);
  }

  // ----- exactly which ranges parse -----

  /** The characters with the White_Space property. */
  predicate White(c: char) {
    c in " \t\n\U{000B}\U{000C}\r\U{0085}\U{00A0}\U{1680}\U{2000}\U{2001}\U{2002}\U{2003}"
    || c in "\U{2004}\U{2005}\U{2006}\U{2007}\U{2008}\U{2009}\U{200A}\U{2028}\U{2029}\U{202F}\U{205F}\U{3000}"
  }

  predicate Blank(s: string) {
    forall i :: 0 <= i < |s| ==> White(s[i])
  }

  lemma SpaceExact(c: char)
    ensures IsSpace(c) <==> White(c)
  {
  }

  lemma SpacesExact()
    ensures forall c :: IsSpace(c) <==> White(c)
  {
    hide IsSpace, White;
    forall c ensures IsSpace(c) <==> White(c) {
      SpaceExact(c);
    }
  }

  /** t is number n between spaces. */
  ghost predicate Padded(t: string, n: nat) {
    exists l, m, r :: t == l + m + r && Blank(l) && Blank(r) && Reads(m, n)
  }

  lemma {:induction false} TrimLeftShape(s: string) returns (l: string)
    ensures Blank(l) && s == l + TrimLeft(s)
    ensures TrimLeft(s) != "" ==> !IsSpace(TrimLeft(s)[0])
  {
    SpacesExact();
    hide IsSpace, White;
    if s != "" && IsSpace(s[0]) {
      var rest := TrimLeftShape(s[1..]);
      l := [s[0]] + rest;
      assert s == [s[0]] + s[1..];
    } else {
      l := "";
    }
  }

  lemma {:induction false} TrimRightShape(s: string) returns (r: string)
    ensures Blank(r) && s == TrimRight(s) + r
  {
    SpacesExact();
    hide IsSpace, White;
    if s != "" && IsSpace(s[|s| - 1]) {
      var rest := TrimRightShape(s[..|s| - 1]);
      r := rest + [s[|s| - 1]];
      assert s == s[..|s| - 1] + [s[|s| - 1]];
      assert TrimRight(s) + (rest + [s[|s| - 1]]) == TrimRight(s) + rest + [s[|s| - 1]];
    } else {
      r := "";
    }
  }

  lemma {:induction false} TrimLeftSkips(l: string, s: string)
    requires Blank(l) && s != "" && !IsSpace(s[0])
    ensures TrimLeft(l + s) == s
  {
    SpacesExact();
    hide IsSpace, White;
    if l == "" {
      assert l + s == s;
    } else {
      assert (l + s)[1..] == l[1..] + s;
      TrimLeftSkips(l[1..], s);
    }
  }

  lemma {:induction false} TrimRightSkips(s: string, r: string)
    requires Blank(r) && s != "" && !IsSpace(s[|s| - 1])
    ensures TrimRight(s + r) == s
  {
    SpacesExact();
    hide IsSpace, White;
    if r == "" {
      assert s + r == s;
    } else {
      assert (s + r)[..|s + r| - 1] == s + r[..|r| - 1];
      TrimRightSkips(s, r[..|r| - 1]);
    }
  }

  lemma ReadsDigits(s: string, n: nat)
    requires Reads(s, n)
    ensures s != "" && Digits(s)
  {
    var z: nat :| s == Zeros(z) + Dec(n);
  }

  lemma PaddedExact(t: string, n: nat)
    ensures ParseUint(TrimSpace(t), MAX_PORT) == Some(n) <==> n <= MAX_PORT && Padded(t, n)
  {
    var m := TrimSpace(t);
    var l := TrimLeftShape(t);
    var r := TrimRightShape(TrimLeft(t));
    hide TrimLeft, TrimRight, ParseUint, Reads, White;
    ParseUintExact(m, MAX_PORT, n);
    assert t == l + m + r;
    if x, y, u :| t == x + y + u && Blank(x) && Blank(u) && Reads(y, n) {
      ReadsDigits(y, n);
      DigitsTrimmed(x, y, u);
    }
  }

  lemma DigitsTrimmed(x: string, y: string, u: string)
    requires Blank(x) && Blank(u) && y != "" && Digits(y)
    ensures TrimSpace(x + y + u) == y
  {
    assert IsDigit(y[0]) && IsDigit(y[|y| - 1]);
    hide White;
    assert x + y + u == x + (y + u);
    TrimLeftSkips(x, y + u);
    TrimRightSkips(y, u);
  }

  /** s is two such numbers around a dash. */
  ghost predicate IsRange(s: string, min: nat, max: nat) {
    exists a, b :: s == a + "-" + b && Padded(a, min) && Padded(b, max)
  }

  lemma PaddedDashFree(t: string, n: nat)
    requires Padded(t, n)
    ensures Free(t, '-')
  {
    var l, m, r :| t == l + m + r && Blank(l) && Blank(r) && Reads(m, n);
    ReadsDigits(m, n);
    hide Reads;
    forall i | 0 <= i < |t| ensures t[i] != '-' {
      assert t[i] == if i < |l| then l[i] else if i < |l| + |m| then m[i - |l|] else r[i - |l| - |m|];
    }
  }

  lemma {:induction false} SplitTwoShape(s: string, sep: char)
    requires SplitTwo(s, sep).Some?
    ensures s == SplitTwo(s, sep).value.0 + [sep] + SplitTwo(s, sep).value.1
  {
    assert s == [s[0]] + s[1..];
    if s[0] != sep {
      SplitTwoShape(s[1..], sep);
    }
  }

  /** The ranges the parser takes: two numbers around a dash, with spaces and leading zeros at will, the second larger and at most 65535. */
  lemma RangeExact(s: string, min: nat, max: nat)
    ensures ParsePortRange(s) == Ok((min, max)) <==> min < max <= 65535 && IsRange(s, min, max)
  {
    hide TrimSpace, ParseUint, Padded;
    if SplitTwo(s, '-').Some? {
      var (a, b) := SplitTwo(s, '-').value;
      SplitTwoShape(s, '-');
      PaddedExact(a, min);
      PaddedExact(b, max);
    }
    if IsRange(s, min, max) {
      var a, b :| s == a + "-" + b && Padded(a, min) && Padded(b, max);
      PaddedDashFree(a, min);
      SplitTwoFirst(a, b, '-');
      PaddedExact(a, min);
      PaddedExact(b, max);
    }
  }
}
