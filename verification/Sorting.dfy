/** Lexicographic order on strings, and stable sorting by any weak order. */
module Sorting {
  predicate Less(a: string, b: string) {
    if b == "" then false
    else if a == "" then true
    else if a[0] != b[0] then a[0] < b[0]
    else Less(a[1..], b[1..])
  }

  lemma {:induction false} LessTrichotomy(a: string, b: string)
    ensures Less(a, b) || Less(b, a) || a == b
    ensures !(Less(a, b) && Less(b, a)) && !Less(a, a)
  {
    if a != "" {
      LessTrichotomy(a[1..], if b == "" then "" else b[1..]);
      LessTrichotomy(a[1..], a[1..]);
      if b != "" && a[0] == b[0] {
        assert a == [a[0]] + a[1..] && b == [b[0]] + b[1..];
      }
    }
  }

  lemma {:induction false} LessTransitive(a: string, b: string, c: string)
    requires Less(a, b) && Less(b, c)
    ensures Less(a, c)
  {
    if a != "" && a[0] == b[0] == c[0] {
      LessTransitive(a[1..], b[1..], c[1..]);
    }
  }

  /** The strings agree up to k, and there a ends or has the smaller character. */
  predicate LessAt(a: string, b: string, k: nat) {
    k <= |a| && k < |b| && a[..k] == b[..k] && (k == |a| || a[k] < b[k])
  }

  lemma LessAtHead(a: string, b: string)
    requires a != "" && b != ""
    ensures forall k: nat :: LessAt(a, b, k) && k > 0 ==> a[0] == b[0] && LessAt(a[1..], b[1..], k - 1)
  {
    forall k: nat | LessAt(a, b, k) && k > 0 ensures a[0] == b[0] && LessAt(a[1..], b[1..], k - 1) {
      assert a[..k][0] == b[..k][0];
      assert a[1..][..k - 1] == a[..k][1..] && b[1..][..k - 1] == b[..k][1..];
    }
  }

  lemma {:induction false} LessExact(a: string, b: string)
    ensures Less(a, b) <==> exists k: nat :: LessAt(a, b, k)
  {
    if a == "" || b == "" {
      assert b != "" ==> LessAt(a, b, 0);
    } else {
      LessAtHead(a, b);
      assert a[0] < b[0] ==> LessAt(a, b, 0);
      LessExact(a[1..], b[1..]);
      if k: nat :| a[0] == b[0] && LessAt(a[1..], b[1..], k) {
        assert a[..k + 1] == [a[0]] + a[1..][..k] && b[..k + 1] == [b[0]] + b[1..][..k];
        assert LessAt(a, b, k + 1);
      }
    }
  }

  ghost predicate WeakOrder<T(!new)>(lt: (T, T) -> bool) {
    && (forall x, y :: lt(x, y) ==> !lt(y, x))
    && (forall x, y, z :: !lt(x, y) && !lt(y, z) ==> !lt(x, z))
  }

  /** No later element belongs before an earlier one. */
  ghost predicate Sorted<T>(lt: (T, T) -> bool, s: seq<T>) {
    forall i, j :: 0 <= i < j < |s| ==> !lt(s[j], s[i])
  }

  function Insert<T>(lt: (T, T) -> bool, x: T, s: seq<T>): seq<T> {
    if s != [] && lt(s[0], x) then [s[0]] + Insert(lt, x, s[1..]) else [x] + s
  }

  function Sort<T>(lt: (T, T) -> bool, s: seq<T>): seq<T> {
    if s == [] then [] else Insert(lt, s[0], Sort(lt, s[1..]))
  }

  lemma {:induction false} InsertPermutes<T>(lt: (T, T) -> bool, x: T, s: seq<T>)
    ensures multiset(Insert(lt, x, s)) == multiset{x} + multiset(s)
  {
    if s != [] && lt(s[0], x) {
      InsertPermutes(lt, x, s[1..]);
      assert s == [s[0]] + s[1..];
    }
  }

  lemma {:induction false} SortPermutes<T>(lt: (T, T) -> bool, s: seq<T>)
    ensures multiset(Sort(lt, s)) == multiset(s)
  {
    if s != [] {
      SortPermutes(lt, s[1..]);
      InsertPermutes(lt, s[0], Sort(lt, s[1..]));
      assert s == [s[0]] + s[1..];
    }
  }

  lemma SameElements<T>(s: seq<T>, t: seq<T>, k: nat)
    requires multiset(s) == multiset(t) && k < |s|
    ensures s[k] in t
  {
    assert s[k] in multiset(t);
  }

  lemma {:induction false} InsertSorts<T(!new)>(lt: (T, T) -> bool, x: T, s: seq<T>)
    requires WeakOrder(lt) && Sorted(lt, s)
    ensures Sorted(lt, Insert(lt, x, s))
  {
    if s != [] && lt(s[0], x) {
      InsertSorts(lt, x, s[1..]);
      InsertPermutes(lt, x, s[1..]);
      var rest := Insert(lt, x, s[1..]);
      forall k | 0 <= k < |rest| ensures !lt(rest[k], s[0]) {
        assert rest[k] in multiset{x} + multiset(s[1..]);
      }
    } else if s != [] {
      forall k | 0 <= k < |s| ensures !lt(s[k], x) {
        assert !lt(s[k], s[0]) || k == 0;
      }
    }
  }

  lemma {:induction false} SortSorts<T(!new)>(lt: (T, T) -> bool, s: seq<T>)
    requires WeakOrder(lt)
    ensures Sorted(lt, Sort(lt, s))
  {
    if s != [] {
      SortSorts(lt, s[1..]);
      InsertSorts(lt, s[0], Sort(lt, s[1..]));
    }
  }

  /** Any two elements of s that differ are ordered one way or the other. */
  ghost predicate Separates<T>(lt: (T, T) -> bool, s: seq<T>) {
    forall x, y :: x in s && y in s && x != y ==> lt(x, y) || lt(y, x)
  }

  /** Two sorted lists with the same elements start alike. */
  lemma SameHead<T>(lt: (T, T) -> bool, s: seq<T>, t: seq<T>)
    requires Sorted(lt, s) && Sorted(lt, t) && Separates(lt, s) && s != [] && t != [] && s[0] in t && t[0] in s
    ensures s[0] == t[0]
  {
    var j :| 0 <= j < |s| && s[j] == t[0];
    var k :| 0 <= k < |t| && t[k] == s[0];
  }

  lemma SameTail<T>(s: seq<T>, t: seq<T>)
    requires s != [] && t != [] && s[0] == t[0] && multiset(s) == multiset(t)
    ensures multiset(s[1..]) == multiset(t[1..])
  {
    assert s == [s[0]] + s[1..] && t == [t[0]] + t[1..];
    assert multiset(s[1..]) == multiset(s) - multiset{s[0]};
  }

  /** Sorting has one result when the order tells the elements apart, whatever the algorithm. */
  lemma {:induction false} SortedUnique<T>(lt: (T, T) -> bool, s: seq<T>, t: seq<T>)
    requires Sorted(lt, s) && Sorted(lt, t) && multiset(s) == multiset(t) && Separates(lt, s)
    ensures s == t
  {
    if s == [] {
      assert |multiset(t)| == 0;
    } else {
      SameElements(s, t, 0);
      SameElements(t, s, 0);
      SameHead(lt, s, t);
      SameTail(s, t);
      SortedUnique(lt, s[1..], t[1..]);
      assert s == [s[0]] + s[1..] && t == [t[0]] + t[1..];
    }
  }

  /** Two lists with the same elements sort alike. */
  lemma SortForgetsOrder<T(!new)>(lt: (T, T) -> bool, s: seq<T>, t: seq<T>)
    requires WeakOrder(lt) && multiset(s) == multiset(t) && Separates(lt, s)
    ensures Sort(lt, s) == Sort(lt, t)
  {
    SortSorts(lt, s);
    SortSorts(lt, t);
    SortPermutes(lt, s);
    SortPermutes(lt, t);
    forall x | x in Sort(lt, s) ensures x in s {
      assert x in multiset(s);
    }
    SortedUnique(lt, Sort(lt, s), Sort(lt, t));
  }
}
