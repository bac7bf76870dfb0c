/** Generic facts about sequences used by the query engine and the renderers:
    sums of a per-element measure, duplicate-freedom, and prefixes. */
module Seqs {

  /** The sum of `f` over the elements of `s`, the shape of the source's
      `stream().mapToLong(...).sum()` / `mapToDouble(...).sum()`. */
  function SumOf<T>(s: seq<T>, f: T -> int): int {
    if |s| == 0 then 0 else f(s[0]) + SumOf(s[1..], f)
  }

  lemma {:induction false} SumOfAppend<T>(a: seq<T>, b: seq<T>, f: T -> int)
    ensures SumOf(a + b, f) == SumOf(a, f) + SumOf(b, f)
  {
    if |a| == 0 {
      assert a + b == b;
    } else {
      assert (a + b)[1..] == a[1..] + b;
      SumOfAppend(a[1..], b, f);
    }
  }

  /** Taking one element out of a sum. */
  lemma SumOfRemove<T>(b: seq<T>, j: nat, f: T -> int)
    requires j < |b|
    ensures SumOf(b, f) == f(b[j]) + SumOf(b[..j] + b[j + 1..], f)
  {
    var front, back := b[..j], b[j + 1..];
    assert b == front + ([b[j]] + back);
    SumOfAppend(front, [b[j]] + back, f);
    assert ([b[j]] + back)[1..] == back;
    SumOfAppend(front, back, f);
  }

  lemma MultisetRemove<T>(a: seq<T>, b: seq<T>, j: nat)
    requires multiset(a) == multiset(b) && |a| > 0 && j < |b| && b[j] == a[0]
    ensures multiset(a[1..]) == multiset(b[..j] + b[j + 1..])
  {
    assert a == [a[0]] + a[1..];
    assert b == b[..j] + [b[j]] + b[j + 1..];
    assert multiset(b) == multiset(b[..j]) + multiset{b[j]} + multiset(b[j + 1..]);
    assert multiset(a) == multiset{a[0]} + multiset(a[1..]);
    var rest := multiset(b[..j] + b[j + 1..]);
    assert rest == multiset(b[..j]) + multiset(b[j + 1..]);
    forall y ensures multiset(a[1..])[y] == rest[y] {
      assert multiset(a)[y] == multiset{a[0]}[y] + multiset(a[1..])[y];
      assert multiset(b)[y] == multiset(b[..j])[y] + multiset{b[j]}[y] + multiset(b[j + 1..])[y];
    }
  }

  /** A sum does not depend on the order of the elements it adds up. */
  lemma {:induction false} SumOfPermutation<T>(a: seq<T>, b: seq<T>, f: T -> int)
    requires multiset(a) == multiset(b)
    ensures SumOf(a, f) == SumOf(b, f)
    decreases |a|
  {
    if |a| == 0 {
      assert |multiset(b)| == 0;
    } else {
      assert a[0] in multiset(b);
      var j :| 0 <= j < |b| && b[j] == a[0];
      MultisetRemove(a, b, j);
      SumOfPermutation(a[1..], b[..j] + b[j + 1..], f);
      SumOfRemove(b, j, f);
    }
  }

  /** When every term lies in [lo, hi], so does the average. */
  lemma {:induction false} SumOfBounds<T>(s: seq<T>, f: T -> int, lo: int, hi: int)
    requires forall x :: x in s ==> lo <= f(x) <= hi
    ensures lo * |s| <= SumOf(s, f) <= hi * |s|
  {
    if |s| > 0 {
      SumOfBounds(s[1..], f, lo, hi);
      assert s[0] in s;
      assert lo * |s| == lo + lo * |s[1..]| && hi * |s| == hi + hi * |s[1..]|;
    }
  }

  /** No element occurs twice. */
  predicate Distinct<T(==)>(s: seq<T>) {
    forall i, j :: 0 <= i < j < |s| ==> s[i] != s[j]
  }

  /** In a duplicate-free sequence every element has multiplicity one. */
  lemma {:induction false} DistinctOccursOnce<T>(s: seq<T>, x: T)
    requires Distinct(s) && x in s
    ensures multiset(s)[x] == 1
  {
    assert s == [s[0]] + s[1..];
    if s[0] == x {
      assert x !in s[1..];
    } else {
      DistinctOccursOnce(s[1..], x);
    }
  }

  /** A duplicate-free sequence has as many elements as its set of elements. */
  lemma {:induction false} DistinctCardinality<T>(s: seq<T>)
    requires Distinct(s)
    ensures |set x | x in s| == |s|
  {
    if |s| > 0 {
      DistinctCardinality(s[1..]);
      var rest := set x | x in s[1..];
      assert (set x | x in s) == {s[0]} + rest;
      assert s[0] !in rest;
    } else {
      assert (set x | x in s) == {};
    }
  }

  /** The first `n` elements, or all of them when there are fewer
      (`stream().limit(n).toList()`). */
  function Take<T>(n: nat, s: seq<T>): (r: seq<T>)
    ensures |r| == (if |s| < n then |s| else n)
    ensures forall i :: 0 <= i < |r| ==> r[i] == s[i]
  {
    if |s| <= n then s else s[..n]
  }

  /** The sequences `f` gives for the elements of `s`, one after the other. */
  function FlatMap<T, U>(s: seq<T>, f: T -> seq<U>): seq<U> {
    if |s| == 0 then [] else f(s[0]) + FlatMap(s[1..], f)
  }

  lemma {:induction false} FlatMapAppend<T, U>(a: seq<T>, b: seq<T>, f: T -> seq<U>)
    ensures FlatMap(a + b, f) == FlatMap(a, f) + FlatMap(b, f)
  {
    if |a| == 0 {
      assert a + b == b;
    } else {
      assert (a + b)[1..] == a[1..] + b;
      FlatMapAppend(a[1..], b, f);
    }
  }

  /** When every piece has width `w`, the pieces lie side by side: element
      `j` of piece `i` sits at position `w * i + j`. */
  lemma {:induction false} FlatMapAt<T, U>(s: seq<T>, f: T -> seq<U>, w: nat, i: nat, j: nat)
    requires forall x :: |f(x)| == w
    requires i < |s| && j < w
    ensures |FlatMap(s, f)| == w * |s|
    ensures w * i + j < |FlatMap(s, f)|
    ensures FlatMap(s, f)[w * i + j] == f(s[i])[j]
  {
    var head, rest := f(s[0]), FlatMap(s[1..], f);
    assert FlatMap(s, f) == head + rest;
    FlatMapLength(s, f, w);
    if i == 0 {
      assert (head + rest)[j] == head[j];
    } else {
      var k := w * (i - 1) + j;
      FlatMapAt(s[1..], f, w, i - 1, j);
      assert s[1..][i - 1] == s[i];
      assert w * i + j == w + k by {
        assert w * i == w * (i - 1) + w;
      }
      assert (head + rest)[w + k] == rest[k];
    }
  }

  lemma {:induction false} FlatMapLength<T, U>(s: seq<T>, f: T -> seq<U>, w: nat)
    requires forall x :: |f(x)| == w
    ensures |FlatMap(s, f)| == w * |s|
  {
    if |s| > 0 {
      FlatMapLength(s[1..], f, w);
      assert w * |s| == w + w * (|s| - 1);
    }
  }
}
