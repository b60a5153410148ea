/** Sequence helpers shared by the views: distinct values in first-occurrence
    order (`[...new Set(xs)]`) and sums (`reduce((sum, x) => sum + f(x), 0)`). */
module Seqs {

  /** No element occurs twice. */
  predicate NoDup<T(==)>(s: seq<T>) {
    forall i, j :: 0 <= i < j < |s| ==> s[i] != s[j]
  }

  /** `[...new Set(s)]`: a `Set` keeps its elements in insertion order and
      ignores an element it already holds. */
  function Dedup<T(==)>(s: seq<T>): (r: seq<T>)
    ensures forall i :: 0 <= i < |r| ==> r[i] in s
    ensures forall i :: 0 <= i < |s| ==> s[i] in r
    ensures NoDup(r)
    ensures |r| <= |s|
  {
    if s == [] then []
    else
      var d, x := Dedup(s[..|s| - 1]), s[|s| - 1];
      if x in d then d else d + [x]
  }

  /** The index at which `x` first occurs in `s`. */
  function FirstIndex<T(==)>(s: seq<T>, x: T): (k: nat)
    requires x in s
    ensures k < |s| && s[k] == x && x !in s[..k]
  {
    if s[0] == x then 0 else 1 + FirstIndex(s[1..], x)
  }

  lemma {:induction false} FirstIndexAppend<T>(s: seq<T>, x: T, y: T)
    requires y in s
    ensures FirstIndex(s + [x], y) == FirstIndex(s, y)
  {
    if s[0] != y {
      assert (s + [x])[1..] == s[1..] + [x];
      FirstIndexAppend(s[1..], x, y);
    }
  }

  lemma FirstIndexCons<T>(h: T, s: seq<T>, x: T)
    requires x in [h] + s && h != x
    ensures x in s && FirstIndex([h] + s, x) == 1 + FirstIndex(s, x)
  {
    assert ([h] + s)[1..] == s;
  }

  lemma FirstIndexTail<T>(s: seq<T>, x: T)
    requires x in s && s[0] != x
    ensures x in s[1..] && FirstIndex(s, x) == 1 + FirstIndex(s[1..], x)
  {
    var k :| 0 <= k < |s| && s[k] == x;
    assert s[1..][k - 1] == x;
  }

  /** `Dedup` lists the distinct elements in the order of their first occurrences. */
  lemma {:induction false} DedupFirstOccurrenceOrder<T>(s: seq<T>)
    ensures forall i, j :: 0 <= i < j < |Dedup(s)| ==>
      FirstIndex(s, Dedup(s)[i]) < FirstIndex(s, Dedup(s)[j])
  {
    if s != [] {
      var s', x := s[..|s| - 1], s[|s| - 1];
      assert s == s' + [x];
      var d' := Dedup(s');
      DedupFirstOccurrenceOrder(s');
      forall y | y in s' ensures FirstIndex(s, y) == FirstIndex(s', y) {
        FirstIndexAppend(s', x, y);
      }
      if x !in d' {
        assert Dedup(s) == d' + [x];
        assert x !in s';
        assert FirstIndex(s, x) == |s'|;
        forall i, j | 0 <= i < j < |Dedup(s)|
          ensures FirstIndex(s, Dedup(s)[i]) < FirstIndex(s, Dedup(s)[j])
        {
          if j < |d'| {
            assert Dedup(s)[i] == d'[i] && Dedup(s)[j] == d'[j];
          } else {
            assert Dedup(s)[i] == d'[i] && d'[i] in s';
            assert FirstIndex(s', d'[i]) < |s'|;
          }
        }
      }
    }
  }

  /** `s.reduce((sum, x) => sum + f(x), 0)` over integers. */
  function Sum<T>(s: seq<T>, f: T -> int): int {
    if s == [] then 0 else Sum(s[..|s| - 1], f) + f(s[|s| - 1])
  }

  /** `s.reduce((sum, x) => sum + x, 0)` over reals. */
  function SumReal(s: seq<real>): real {
    if s == [] then 0.0 else SumReal(s[..|s| - 1]) + s[|s| - 1]
  }

  lemma {:induction false} SumConcat<T>(a: seq<T>, b: seq<T>, f: T -> int)
    ensures Sum(a + b, f) == Sum(a, f) + Sum(b, f)
  {
    if b != [] {
      assert (a + b)[..|a + b| - 1] == a + b[..|b| - 1];
      SumConcat(a, b[..|b| - 1], f);
    } else {
      assert a + b == a;
    }
  }

  /** The constant weight 1, so that `Sum(s, One)` counts. */
  function One<T>(x: T): int { 1 }

  lemma {:induction false} SumOneIsLength<T>(s: seq<T>)
    ensures Sum(s, One) == |s|
  {
    if s != [] {
      SumOneIsLength(s[..|s| - 1]);
    }
  }

  /** The sum is bounded by the count times each bound on the elements. */
  lemma {:induction false} SumRealBounds(s: seq<real>, lo: real, hi: real)
    requires forall i :: 0 <= i < |s| ==> lo <= s[i] <= hi
    ensures |s| as real * lo <= SumReal(s) <= |s| as real * hi
  {
    if s != [] {
      SumRealBounds(s[..|s| - 1], lo, hi);
    }
  }

  /** `xs.length > 0 ? sum / xs.length : 0` */
  function Mean(xs: seq<real>): real {
    if |xs| == 0 then 0.0 else SumReal(xs) / |xs| as real
  }

  /** A mean of values lying in [lo, hi] lies in [lo, hi]. */
  lemma {:induction false} MeanBounds(xs: seq<real>, lo: real, hi: real)
    requires |xs| > 0
    requires forall i :: 0 <= i < |xs| ==> lo <= xs[i] <= hi
    ensures lo <= Mean(xs) <= hi
  {
    var n := |xs| as real;
    SumRealBounds(xs, lo, hi);
    assert Mean(xs) * n == SumReal(xs);
  }
}
