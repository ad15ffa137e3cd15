/** Python's `sorted(xs, key=...)`: a stable sort by a key. The key is a
    number or a string; the sort below is an insertion sort, and the
    lemmas at the end show that its result is the one sequence that is
    ordered by the key and keeps the input order among equal keys, which
    is what Python's stable sort returns. */
module Sorting {
  import opened Text

  /** A value Python compares while sorting. A number is kept as ten times
      its value, which is exact for the integers and for the added tenths
      that the reports sort by. Python refuses to compare a number with a
      string; the order below puts numbers first, and no report mixes them. */
  datatype SortKey = Numeric(tenths: int) | Textual(s: string)

  /** `a < b` */
  predicate Before(a: SortKey, b: SortKey)
  {
    match a
    case Numeric(x) => (match b case Numeric(y) => x < y case Textual(_) => true)
    case Textual(x) => (match b case Numeric(_) => false case Textual(y) => Less(x, y))
  }

  /** `a <= b` */
  predicate NotAfter(a: SortKey, b: SortKey)
  {
    !Before(b, a)
  }

  lemma BeforeIrreflexive(a: SortKey)
    ensures !Before(a, a)
  {
    if a.Textual? { LessIrreflexive(a.s); }
  }

  lemma BeforeTransitive(a: SortKey, b: SortKey, c: SortKey)
    requires Before(a, b) && Before(b, c)
    ensures Before(a, c)
  {
    if a.Textual? && b.Textual? && c.Textual? { LessTransitive(a.s, b.s, c.s); }
  }

  lemma BeforeTotal(a: SortKey, b: SortKey)
    ensures a == b || Before(a, b) || Before(b, a)
  {
    if a.Textual? && b.Textual? { LessTotal(a.s, b.s); }
  }

  lemma BeforeAsymmetric(a: SortKey, b: SortKey)
    requires Before(a, b)
    ensures !Before(b, a)
  {
    if a.Textual? && b.Textual? { LessAsymmetric(a.s, b.s); }
  }

  lemma NotAfterTransitive(a: SortKey, b: SortKey, c: SortKey)
    requires NotAfter(a, b) && NotAfter(b, c)
    ensures NotAfter(a, c)
  {
    BeforeTotal(a, b);
    BeforeTotal(b, c);
    if Before(c, a) {
      if a == b { } else if b == c { } else {
        BeforeTransitive(a, b, c);
        BeforeAsymmetric(a, c);
      }
    }
  }

  /** Two keys that are each not after the other are the same key. */
  lemma NotAfterAntisymmetric(a: SortKey, b: SortKey)
    requires NotAfter(a, b) && NotAfter(b, a)
    ensures a == b
  {
    BeforeTotal(a, b);
  }

  ghost predicate SortedBy<T>(s: seq<T>, key: T -> SortKey)
  {
    forall i, j :: 0 <= i < j < |s| ==> NotAfter(key(s[i]), key(s[j]))
  }

  /** The elements of `s` whose key is `k`, in their order in `s`. */
  function Filter<T>(s: seq<T>, key: T -> SortKey, k: SortKey): seq<T>
  {
    if s == [] then [] else (if key(s[0]) == k then [s[0]] else []) + Filter(s[1..], key, k)
  }

  /** `x` placed in front of the first element whose key is not before its own. */
  function Insert<T>(x: T, s: seq<T>, key: T -> SortKey): seq<T>
  {
    if s == [] then [x]
    else if NotAfter(key(x), key(s[0])) then [x] + s
    else [s[0]] + Insert(x, s[1..], key)
  }

  /** `sorted(s, key=key)` */
  function SortBy<T>(s: seq<T>, key: T -> SortKey): seq<T>
  {
    if s == [] then [] else Insert(s[0], SortBy(s[1..], key), key)
  }

  lemma {:induction false} InsertElements<T>(x: T, s: seq<T>, key: T -> SortKey)
    ensures multiset(Insert(x, s, key)) == multiset(s) + multiset{x}
    ensures |Insert(x, s, key)| == |s| + 1
    decreases |s|
  {
    if s != [] && !NotAfter(key(x), key(s[0])) {
      InsertElements(x, s[1..], key);
      assert s == [s[0]] + s[1..];
    }
  }

  lemma {:induction false} InsertSorted<T>(x: T, s: seq<T>, key: T -> SortKey)
    requires SortedBy(s, key)
    ensures SortedBy(Insert(x, s, key), key)
    decreases |s|
  {
    var r := Insert(x, s, key);
    if s == [] {
    } else if NotAfter(key(x), key(s[0])) {
      forall i, j | 0 <= i < j < |r| ensures NotAfter(key(r[i]), key(r[j])) {
        if i == 0 && j > 1 {
          NotAfterTransitive(key(x), key(s[0]), key(s[j - 1]));
        }
      }
    } else {
      var t := Insert(x, s[1..], key);
      InsertSorted(x, s[1..], key);
      InsertElements(x, s[1..], key);
      BeforeTotal(key(x), key(s[0]));
      forall j | 0 <= j < |t| ensures NotAfter(key(s[0]), key(t[j])) {
        assert t[j] in multiset(t);
        if t[j] != x {
          assert t[j] in multiset(s[1..]);
          var m :| 0 <= m < |s[1..]| && s[1..][m] == t[j];
          assert s[m + 1] == t[j];
        } else {
          BeforeAsymmetric(key(s[0]), key(x));
        }
      }
      assert r == [s[0]] + t;
    }
  }

  /** `SortBy` returns the elements of its input, each as often as there. */
  lemma {:induction false} SortByPermutation<T>(s: seq<T>, key: T -> SortKey)
    ensures multiset(SortBy(s, key)) == multiset(s)
    ensures |SortBy(s, key)| == |s|
    decreases |s|
  {
    if s != [] {
      SortByPermutation(s[1..], key);
      InsertElements(s[0], SortBy(s[1..], key), key);
      assert s == [s[0]] + s[1..];
    }
  }

  /** `SortBy` orders its result by the key. */
  lemma {:induction false} SortBySorted<T>(s: seq<T>, key: T -> SortKey)
    ensures SortedBy(SortBy(s, key), key)
    decreases |s|
  {
    if s != [] {
      SortBySorted(s[1..], key);
      InsertSorted(s[0], SortBy(s[1..], key), key);
    }
  }

  lemma {:induction false} FilterInsert<T>(x: T, s: seq<T>, key: T -> SortKey, k: SortKey)
    ensures Filter(Insert(x, s, key), key, k) == (if key(x) == k then [x] else []) + Filter(s, key, k)
    decreases |s|
  {
    if s != [] && !NotAfter(key(x), key(s[0])) {
      FilterInsert(x, s[1..], key, k);
      BeforeIrreflexive(key(x));
      var r := Insert(x, s, key);
      assert r == [s[0]] + Insert(x, s[1..], key);
      assert r[1..] == Insert(x, s[1..], key);
    } else if s != [] {
      var r := Insert(x, s, key);
      assert r[1..] == s;
    }
  }

  /** `SortBy` is stable: the elements that share a key keep their order. */
  lemma {:induction false} SortByStable<T>(s: seq<T>, key: T -> SortKey, k: SortKey)
    ensures Filter(SortBy(s, key), key, k) == Filter(s, key, k)
    decreases |s|
  {
    if s != [] {
      SortByStable(s[1..], key, k);
      FilterInsert(s[0], SortBy(s[1..], key), key, k);
    }
  }

  lemma {:induction false} FilterHasKey<T>(s: seq<T>, key: T -> SortKey, k: SortKey, i: nat)
    requires i < |Filter(s, key, k)|
    ensures key(Filter(s, key, k)[i]) == k
    ensures Filter(s, key, k)[i] in s
    decreases |s|
  {
    if key(s[0]) == k && i == 0 {
    } else {
      var j := if key(s[0]) == k then i - 1 else i;
      FilterHasKey(s[1..], key, k, j);
      assert Filter(s, key, k)[i] == Filter(s[1..], key, k)[j];
    }
  }

  lemma {:induction false} FilterOfHead<T>(s: seq<T>, key: T -> SortKey)
    requires s != []
    ensures Filter(s, key, key(s[0])) != []
  {
  }

  /** Sorting is determined by order and stability: two sequences ordered by
      the key in which every key's elements appear in the same order are
      equal. So `SortBy` computes exactly what Python's stable sort does. */
  lemma {:induction false} SortedStableUnique<T>(a: seq<T>, b: seq<T>, key: T -> SortKey)
    requires SortedBy(a, key) && SortedBy(b, key)
    requires forall k :: Filter(a, key, k) == Filter(b, key, k)
    ensures a == b
    decreases |a|
  {
    if a == [] {
      if b != [] {
        FilterOfHead(b, key);
      }
    } else if b == [] {
      FilterOfHead(a, key);
    } else {
      var ka, kb := key(a[0]), key(b[0]);
      FilterOfHead(a, key);
      FilterOfHead(b, key);
      FilterHasKey(b, key, ka, 0);
      FilterHasKey(a, key, kb, 0);
      var y := Filter(b, key, ka)[0];
      var m :| 0 <= m < |b| && b[m] == y;
      BeforeIrreflexive(ka);
      assert NotAfter(kb, ka) by { if m > 0 { assert NotAfter(key(b[0]), key(b[m])); } }
      var x := Filter(a, key, kb)[0];
      var n :| 0 <= n < |a| && a[n] == x;
      assert NotAfter(ka, kb) by { if n > 0 { assert NotAfter(key(a[0]), key(a[n])); } }
      NotAfterAntisymmetric(ka, kb);
      assert Filter(a, key, ka) == [a[0]] + Filter(a[1..], key, ka);
      assert Filter(b, key, ka) == [b[0]] + Filter(b[1..], key, ka);
      assert a[0] == b[0];
      forall k ensures Filter(a[1..], key, k) == Filter(b[1..], key, k) {
        assert Filter(a, key, k) == Filter(b, key, k);
        assert Filter(a, key, k) == (if ka == k then [a[0]] else []) + Filter(a[1..], key, k);
        assert Filter(b, key, k) == (if ka == k then [b[0]] else []) + Filter(b[1..], key, k);
        if ka == k {
          assert Filter(a[1..], key, k) == Filter(a, key, k)[1..];
          assert Filter(b[1..], key, k) == Filter(b, key, k)[1..];
        } else {
          assert Filter(a[1..], key, k) == Filter(a, key, k);
          assert Filter(b[1..], key, k) == Filter(b, key, k);
        }
      }
      SortedStableUnique(a[1..], b[1..], key);
      assert a == [a[0]] + a[1..] && b == [b[0]] + b[1..];
    }
  }

  // ---------------------------------------------------------------------
  // sorted() over strings: the keys of a dict or the members of a set

  function StringKey(s: string): SortKey
  {
    Textual(s)
  }

  /** `sorted(xs)` for a list of strings. */
  function SortStrings(xs: seq<string>): seq<string>
  {
    SortBy(xs, StringKey)
  }

  ghost predicate Distinct<T>(xs: seq<T>)
  {
    forall i, j :: 0 <= i < j < |xs| ==> xs[i] != xs[j]
  }

  lemma {:induction false} FilterDistinct(xs: seq<string>, k: SortKey)
    requires Distinct(xs)
    ensures Filter(xs, StringKey, k) == if k.Textual? && k.s in xs then [k.s] else []
    decreases |xs|
  {
    if xs != [] {
      FilterDistinct(xs[1..], k);
      assert xs[0] !in xs[1..];
      if k.Textual? && k.s in xs && k.s != xs[0] {
        assert k.s in xs[1..];
      }
    }
  }

  /** Sorting distinct strings lists each of them once, in strictly
      ascending order. */
  lemma SortStringsAscending(xs: seq<string>)
    requires Distinct(xs)
    ensures multiset(SortStrings(xs)) == multiset(xs)
    ensures forall i, j :: 0 <= i < j < |SortStrings(xs)| ==> Less(SortStrings(xs)[i], SortStrings(xs)[j])
  {
    var r := SortStrings(xs);
    SortByPermutation(xs, StringKey);
    SortBySorted(xs, StringKey);
    forall i, j | 0 <= i < j < |r| ensures Less(r[i], r[j]) {
      assert NotAfter(StringKey(r[i]), StringKey(r[j]));
      if r[i] == r[j] {
        var k := StringKey(r[i]);
        SortByStable(xs, StringKey, k);
        FilterDistinct(xs, k);
        FilterTwo(r, StringKey, k, i, j);
      }
      LessTotal(r[i], r[j]);
    }
  }

  lemma {:induction false} FilterTwo<T>(s: seq<T>, key: T -> SortKey, k: SortKey, i: int, j: int)
    requires 0 <= i < j < |s| && key(s[i]) == k && key(s[j]) == k
    ensures |Filter(s, key, k)| >= 2
    decreases |s|
  {
    if i > 0 {
      FilterTwo(s[1..], key, k, i - 1, j - 1);
    } else {
      FilterOne(s[1..], key, k, j - 1);
    }
  }

  lemma {:induction false} FilterOne<T>(s: seq<T>, key: T -> SortKey, k: SortKey, j: int)
    requires 0 <= j < |s| && key(s[j]) == k
    ensures |Filter(s, key, k)| >= 1
    decreases |s|
  {
    if j > 0 {
      FilterOne(s[1..], key, k, j - 1);
    }
  }

  /** The sorted order of distinct strings depends only on which strings
      they are, not on the order they were inserted in: rendering a
      registry in sorted key order is reproducible. */
  lemma SortStringsDeterminate(a: seq<string>, b: seq<string>)
    requires Distinct(a) && Distinct(b)
    requires forall x :: x in a <==> x in b
    ensures SortStrings(a) == SortStrings(b)
  {
    SortBySorted(a, StringKey);
    SortBySorted(b, StringKey);
    forall k ensures Filter(SortStrings(a), StringKey, k) == Filter(SortStrings(b), StringKey, k) {
      SortByStable(a, StringKey, k);
      SortByStable(b, StringKey, k);
      FilterDistinct(a, k);
      FilterDistinct(b, k);
    }
    SortedStableUnique(SortStrings(a), SortStrings(b), StringKey);
  }

  /** `sorted(xs)` lists the same strings as `xs`. */
  lemma SortStringsMembers(xs: seq<string>)
    ensures |SortStrings(xs)| == |xs|
    ensures forall x :: x in SortStrings(xs) <==> x in xs
  {
    SortByPermutation(xs, StringKey);
    assert forall x :: x in SortStrings(xs) <==> x in multiset(SortStrings(xs));
    assert forall x :: x in xs <==> x in multiset(xs);
  }

  /** The distinct strings of `xs`, each where it first occurs: the
      members of a Python `set` filled by `add`. */
  function Dedup(xs: seq<string>): (r: seq<string>)
    ensures forall x :: x in r <==> x in xs
    ensures Distinct(r)
    decreases |xs|
  {
    if xs == [] then []
    else
      var r := Dedup(xs[..|xs| - 1]);
      var x := xs[|xs| - 1];
      assert forall y :: y in xs <==> y in xs[..|xs| - 1] || y == x;
      if x in r then r else r + [x]
  }

  /** `sorted(s)` for the set `s` of the strings in `xs`: each member once,
      in strictly ascending order. */
  function SortedSet(xs: seq<string>): (r: seq<string>)
    ensures forall x :: x in r <==> x in xs
    ensures forall i, j :: 0 <= i < j < |r| ==> Less(r[i], r[j])
  {
    var d := Dedup(xs);
    SortStringsAscending(d);
    SortStringsMembers(d);
    SortStrings(d)
  }

  /** `sorted(s)` depends only on the members of `s`, not on the order in
      which they were added. */
  lemma SortedSetDeterminate(xs: seq<string>, ys: seq<string>)
    requires forall x :: x in xs <==> x in ys
    ensures SortedSet(xs) == SortedSet(ys)
  {
    SortStringsDeterminate(Dedup(xs), Dedup(ys));
  }
}
