/** Strings: splitting and joining at a separator, and decimal numbers. */
module Text {
  import opened Wrappers

  // ----- strings.Split and its inverse -----

  predicate Free(s: string, sep: char) {
    forall i :: 0 <= i < |s| ==> s[i] != sep
  }

  predicate AllFree(parts: seq<string>, sep: char) {
    forall k :: 0 <= k < |parts| ==> Free(parts[k], sep)
  }

  function Split(s: string, sep: char): (parts: seq<string>)
    ensures parts != [] && AllFree(parts, sep)
  {
    if s == "" then [""]
    else
      var rest := Split(s[1..], sep);
      if s[0] == sep then [""] + rest else [[s[0]] + rest[0]] + rest[1..]
  }

  function Join(parts: seq<string>, sep: char): string
    requires parts != []
  {
    if |parts| == 1 then parts[0] else parts[0] + [sep] + Join(parts[1..], sep)
  }

  lemma {:induction false} JoinSplit(s: string, sep: char)
    ensures Join(Split(s, sep), sep) == s
  {
    if s != "" {
      JoinSplit(s[1..], sep);
      var rest := Split(s[1..], sep);
      if s[0] == sep {
        assert ([""] + rest)[1..] == rest;
      } else {
        var parts := [[s[0]] + rest[0]] + rest[1..];
        assert parts[1..] == rest[1..];
        assert s == [s[0]] + s[1..];
      }
    }
  }

  lemma {:induction false} SplitFirst(a: string, b: string, sep: char)
    requires Free(a, sep)
    ensures Split(a + [sep] + b, sep) == [a] + Split(b, sep)
  {
    var s := a + [sep] + b;
    if a == "" {
      assert s[1..] == b;
    } else {
      assert s[1..] == a[1..] + [sep] + b;
      SplitFirst(a[1..], b, sep);
      assert [s[0]] + a[1..] == a;
    }
  }

  lemma {:induction false} SplitFree(a: string, sep: char)
    requires Free(a, sep)
    ensures Split(a, sep) == [a]
  {
    if a != "" {
      SplitFree(a[1..], sep);
      assert [a[0]] + a[1..] == a;
    }
  }

  lemma {:induction false} SplitJoin(parts: seq<string>, sep: char)
    requires parts != [] && AllFree(parts, sep)
    ensures Split(Join(parts, sep), sep) == parts
  {
    if |parts| == 1 {
      SplitFree(parts[0], sep);
    } else {
      SplitJoin(parts[1..], sep);
      SplitFirst(parts[0], Join(parts[1..], sep), sep);
    }
  }

  // ----- strconv.FormatUint and strconv.ParseUint, base ten -----

  predicate IsDigit(c: char) {
    '0' <= c <= '9'
  }

  predicate Digits(s: string) {
    forall i :: 0 <= i < |s| ==> IsDigit(s[i])
  }

  function DigitOf(n: nat): (c: char)
    requires n < 10
    ensures IsDigit(c)
  {
    ('0' as int + n) as char
  }

  function Dec(n: nat): (s: string)
    ensures s != "" && Digits(s)
  {
    if n < 10 then [DigitOf(n)] else Dec(n / 10) + [DigitOf(n % 10)]
  }

  function Value(s: string): nat
    requires Digits(s)
  {
    if s == "" then 0 else 10 * Value(s[..|s| - 1]) + (s[|s| - 1] as int - '0' as int)
  }

  function ParseUint(s: string, max: nat): Option<nat> {
    if s == "" || !Digits(s) || Value(s) > max then None else Some(Value(s))
  }

  lemma {:induction false} ValueOfDec(n: nat)
    ensures Value(Dec(n)) == n
  {
    if n >= 10 {
      ValueOfDec(n / 10);
      var s := Dec(n / 10) + [DigitOf(n % 10)];
      assert s[..|s| - 1] == Dec(n / 10);
    }
  }

  /** Reading back what was written. */
  lemma ParseFormat(n: nat, max: nat)
    ensures ParseUint(Dec(n), max) == if n <= max then Some(n) else None
  {
    ValueOfDec(n);
  }

  function Zeros(z: nat): string {
    seq(z, _ => '0')
  }

  lemma {:induction false} ValueOfZeros(z: nat)
    ensures Digits(Zeros(z)) && Value(Zeros(z)) == 0
  {
    if z > 0 {
      ValueOfZeros(z - 1);
      assert Zeros(z)[..z - 1] == Zeros(z - 1);
    }
  }

  lemma {:induction false} ValueSkipsZeros(z: nat, d: string)
    requires Digits(d)
    ensures Digits(Zeros(z) + d) && Value(Zeros(z) + d) == Value(d)
    decreases |d|
  {
    var s := Zeros(z) + d;
    ValueOfZeros(z);
    if d == "" {
      assert s == Zeros(z);
    } else {
      ValueSkipsZeros(z, d[..|d| - 1]);
      assert s[..|s| - 1] == Zeros(z) + d[..|d| - 1];
    }
  }

  /** Any digits are the decimal form of their value behind some zeros. */
  lemma {:induction false} DigitsShape(s: string) returns (z: nat)
    requires s != "" && Digits(s)
    ensures s == Zeros(z) + Dec(Value(s))
    decreases |s|
  {
    var front, c := s[..|s| - 1], s[|s| - 1];
    var d := c as int - '0' as int;
    assert s == front + [c] && [DigitOf(d)] == [c];
    if front == "" {
      z := 0;
    } else {
      z := DigitsShape(front);
      if Value(front) == 0 {
        assert Dec(0) == "0" && Zeros(z) + "0" == Zeros(z + 1);
        z := z + 1;
      } else {
        DecSnoc(Value(front), d);
      }
    }
  }

  lemma DecSnoc(v: nat, d: nat)
    requires v > 0 && d < 10
    ensures Dec(10 * v + d) == Dec(v) + [DigitOf(d)]
  {
  }

  ghost predicate Reads(s: string, n: nat) {
    exists z: nat :: s == Zeros(z) + Dec(n)
  }

  /** What parses, and as what: decimal digits, leading zeros allowed, up to the given limit. */
  lemma ParseUintExact(s: string, max: nat, n: nat)
    ensures ParseUint(s, max) == Some(n) <==> n <= max && Reads(s, n)
  {
    if s != "" && Digits(s) {
      var z := DigitsShape(s);
      assert Reads(s, Value(s));
    }
    if Reads(s, n) {
      var z: nat :| s == Zeros(z) + Dec(n);
      ValueSkipsZeros(z, Dec(n));
      ValueOfDec(n);
    }
  }

  lemma DecInjective(a: nat, b: nat)
    requires Dec(a) == Dec(b)
    ensures a == b
  {
    ValueOfDec(a);
    ValueOfDec(b);
  }

  lemma DigitsFree(s: string, sep: char)
    requires Digits(s) && !IsDigit(sep)
    ensures Free(s, sep)
  {
  }

  function Pow10(k: nat): nat {
    if k == 0 then 1 else 10 * Pow10(k - 1)
  }

  const MAX_UINT64: nat := 0xFFFF_FFFF_FFFF_FFFF

  lemma TwentyDigits()
    ensures MAX_UINT64 < Pow10(20)
  {
    assert Pow10(4) == 10_000;
    assert Pow10(8) == 10_000 * Pow10(4);
    assert Pow10(12) == 10_000 * Pow10(8);
    assert Pow10(16) == 10_000 * Pow10(12);
    assert Pow10(20) == 10_000 * Pow10(16);
  }

  function LastDigit(n: nat): char {
    DigitOf(n % 10)
  }

  function Front(n: nat): nat {
    n / 10
  }

  /** One turn of the digit loop, seen on the text still to be written and the text written. */
  lemma DigitStep(rest: nat, i: nat, tail: string)
    requires 0 < rest < Pow10(i)
    ensures i > 0 && Front(rest) < rest && Front(rest) < Pow10(i - 1)
    ensures Tail(Front(rest)) + ([LastDigit(rest)] + tail) == Tail(rest) + tail
  {
    assert rest < 10 ==> rest % 10 == rest;
  }

  function Tail(rest: nat): string {
    if rest == 0 then "" else Dec(rest)
  }

  /** The digit loop that fills a twenty-byte buffer from its end never runs off its front. */
  method Uint64ToString(v: nat) returns (s: string)
    requires v <= MAX_UINT64
    ensures s == Dec(v)
  {
    if v == 0 {
      assert "0" == [DigitOf(0)];
      return "0";
    }
    TwentyDigits();
    var b := new char[20](_ => '0');
    var i := FillDigits(b, v);
    s := b[i..];
  }

  method FillDigits(b: array<char>, v: nat) returns (i: nat)
    requires 0 < v < Pow10(b.Length)
    modifies b
    ensures i <= b.Length && b[i..] == Dec(v)
  {
    assert Tail(v) == Dec(v) && Tail(0) == "";
    hide Pow10, Dec, Tail, LastDigit, Front;
    i := b.Length;
    var rest: nat := v;
    while rest > 0
      invariant 0 <= i <= b.Length && rest < Pow10(i)
      invariant Tail(v) == Tail(rest) + b[i..]
      decreases rest
    {
      DigitStep(rest, i, b[i..]);
      i := i - 1;
      PutBefore(b, i, LastDigit(rest));
      rest := Front(rest);
    }
  }

  /** buf[i] = c, in front of what is written already. */
  method PutBefore(b: array<char>, i: nat, c: char)
    requires i < b.Length
    modifies b
    ensures b[i..] == [c] + old(b[i + 1..])
  {
    b[i] := c;
  }
}
