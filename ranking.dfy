/** The ranking used by the market view: `Array.prototype.sort` with a comparator
    `(a, b) => key(b) - key(a)` (descending by one key, stable since ES2019),
    followed by `slice(0, 10)`.

    The sort is specified by a stable insertion sort, `SortDesc`; the lemma
    `StableSortUnique` shows that any sort that is descending and keeps the
    relative order of equal keys yields exactly `SortDesc`, so the choice of
    algorithm inside the JavaScript engine does not matter. */
module Ranking {
  import opened Seqs
  import Js

  /** `key` never increases along `s`. */
  predicate SortedDesc<T>(s: seq<T>, key: T -> int) {
    forall i, j :: 0 <= i < j < |s| ==> key(s[i]) >= key(s[j])
  }

  /** The elements of `s` whose key is `v`, in their order in `s`. */
  function WithKey<T>(s: seq<T>, key: T -> int, v: int): seq<T> {
    if s == [] then []
    else WithKey(s[..|s| - 1], key, v) + (if key(s[|s| - 1]) == v then [s[|s| - 1]] else [])
  }

  /** Sorting by `key` is stable: for every key value, the elements carrying it
      appear in the same relative order as in the input. */
  ghost predicate StableFor<T>(r: seq<T>, s: seq<T>, key: T -> int) {
    forall v :: WithKey(r, key, v) == WithKey(s, key, v)
  }

  /** Where a stable descending insertion puts `x`: just after the last element
      whose key is at least `key(x)`. */
  function InsertPos<T>(s: seq<T>, x: T, key: T -> int): (p: nat)
    ensures p <= |s|
    ensures forall i :: p <= i < |s| ==> key(s[i]) < key(x)
    ensures 0 < p ==> key(s[p - 1]) >= key(x)
  {
    if s == [] then 0
    else if key(s[|s| - 1]) >= key(x) then |s|
    else InsertPos(s[..|s| - 1], x, key)
  }

  function Insert<T>(s: seq<T>, x: T, key: T -> int): seq<T> {
    var p := InsertPos(s, x, key);
    s[..p] + [x] + s[p..]
  }

  /** Stable sort, descending by `key`. */
  function SortDesc<T>(s: seq<T>, key: T -> int): (r: seq<T>)
    ensures |r| == |s|
  {
    if s == [] then [] else Insert(SortDesc(s[..|s| - 1], key), s[|s| - 1], key)
  }

  /** The sort is descending ... */
  lemma {:induction false} SortDescSorted<T>(s: seq<T>, key: T -> int)
    ensures SortedDesc(SortDesc(s, key), key)
  {
    if s != [] {
      SortDescSorted(s[..|s| - 1], key);
      InsertKeepsSorted(SortDesc(s[..|s| - 1], key), s[|s| - 1], key);
    }
  }

  /** ... and a permutation of its input. */
  lemma {:induction false} SortDescPermutation<T>(s: seq<T>, key: T -> int)
    ensures multiset(SortDesc(s, key)) == multiset(s)
  {
    if s != [] {
      SortDescPermutation(s[..|s| - 1], key);
      InsertMultiset(SortDesc(s[..|s| - 1], key), s[|s| - 1], key);
      assert s == s[..|s| - 1] + [s[|s| - 1]];
    }
  }

  /** Element `k` of `Insert(t, x, key)`, by position relative to the insertion point. */
  lemma {:induction false} InsertAt<T>(t: seq<T>, x: T, key: T -> int)
    ensures |Insert(t, x, key)| == |t| + 1
    ensures forall k :: 0 <= k < InsertPos(t, x, key) ==> Insert(t, x, key)[k] == t[k]
    ensures Insert(t, x, key)[InsertPos(t, x, key)] == x
    ensures forall k :: InsertPos(t, x, key) < k <= |t| ==> Insert(t, x, key)[k] == t[k - 1]
  {
  }

  lemma {:induction false} InsertKeepsSorted<T>(t: seq<T>, x: T, key: T -> int)
    requires SortedDesc(t, key)
    ensures SortedDesc(Insert(t, x, key), key)
  {
    var p := InsertPos(t, x, key);
    var r := Insert(t, x, key);
    InsertAt(t, x, key);
    forall i, j | 0 <= i < j < |r| ensures key(r[i]) >= key(r[j]) {
      if j < p {
        assert r[i] == t[i] && r[j] == t[j];
      } else if j == p {
        assert r[i] == t[i];
        assert key(t[i]) >= key(t[p - 1]);
      } else if i < p {
        assert r[i] == t[i] && r[j] == t[j - 1];
      } else if i == p {
        assert r[j] == t[j - 1];
      } else {
        assert r[i] == t[i - 1] && r[j] == t[j - 1];
      }
    }
  }

  lemma {:induction false} InsertMultiset<T>(t: seq<T>, x: T, key: T -> int)
    ensures multiset(Insert(t, x, key)) == multiset(t) + multiset{x}
  {
    var p := InsertPos(t, x, key);
    assert t == t[..p] + t[p..];
  }

  lemma {:induction false} InsertSum<T>(t: seq<T>, x: T, key: T -> int, f: T -> int)
    ensures Sum(Insert(t, x, key), f) == Sum(t, f) + f(x)
  {
    var p := InsertPos(t, x, key);
    assert t == t[..p] + t[p..];
    SumConcat(t[..p] + [x], t[p..], f);
    SumConcat(t[..p], [x], f);
    SumConcat(t[..p], t[p..], f);
    assert [x][..0] == [];
  }

  /** The position that `InsertPos` finds is characterised by the two facts it
      ensures. */
  lemma {:induction false} InsertPosAt<T>(s: seq<T>, x: T, key: T -> int, q: nat)
    requires q <= |s|
    requires forall i :: q <= i < |s| ==> key(s[i]) < key(x)
    requires q == 0 || key(s[q - 1]) >= key(x)
    ensures InsertPos(s, x, key) == q
  {
    if s != [] && q < |s| {
      InsertPosAt(s[..|s| - 1], x, key, q);
    }
  }

  lemma {:induction false} WithKeyConcat<T>(a: seq<T>, b: seq<T>, key: T -> int, v: int)
    ensures WithKey(a + b, key, v) == WithKey(a, key, v) + WithKey(b, key, v)
  {
    if b == [] {
      assert a + b == a;
    } else {
      assert (a + b)[..|a + b| - 1] == a + b[..|b| - 1];
      WithKeyConcat(a, b[..|b| - 1], key, v);
    }
  }

  lemma {:induction false} WithKeyAbsent<T>(s: seq<T>, key: T -> int, v: int)
    requires forall i :: 0 <= i < |s| ==> key(s[i]) != v
    ensures WithKey(s, key, v) == []
  {
    if s != [] {
      WithKeyAbsent(s[..|s| - 1], key, v);
    }
  }

  lemma {:induction false} WithKeySingle<T>(x: T, key: T -> int, v: int)
    ensures WithKey([x], key, v) == if key(x) == v then [x] else []
  {
    assert [x][..0] == [];
  }

  /** Inserting `x` adds it at the end of its own key class and changes no other. */
  lemma {:induction false} WithKeyInsert<T>(t: seq<T>, x: T, key: T -> int, v: int)
    ensures WithKey(Insert(t, x, key), key, v)
         == WithKey(t, key, v) + (if key(x) == v then [x] else [])
  {
    var p := InsertPos(t, x, key);
    assert t == t[..p] + t[p..];
    WithKeyInsertAt(t[..p], x, t[p..], key, v);
  }

  /** Putting `x` in front of elements with smaller keys adds it at the end of
      its key class. */
  lemma {:induction false} WithKeyInsertAt<T>(a: seq<T>, x: T, b: seq<T>, key: T -> int, v: int)
    requires forall i :: 0 <= i < |b| ==> key(b[i]) < key(x)
    ensures WithKey(a + [x] + b, key, v)
         == WithKey(a + b, key, v) + (if key(x) == v then [x] else [])
  {
    WithKeyConcat(a, b, key, v);
    WithKeySplice(a, x, b, key, v);
    if key(x) == v {
      WithKeyAbsent(b, key, v);
    }
  }

  lemma {:induction false} WithKeySplice<T>(a: seq<T>, x: T, b: seq<T>, key: T -> int, v: int)
    ensures WithKey(a + [x] + b, key, v)
         == WithKey(a, key, v) + (if key(x) == v then [x] else []) + WithKey(b, key, v)
  {
    WithKeyConcat(a + [x], b, key, v);
    WithKeyConcat(a, [x], key, v);
    WithKeySingle(x, key, v);
  }

  /** `SortDesc` is stable. */
  lemma {:induction false} SortDescStable<T>(s: seq<T>, key: T -> int)
    ensures StableFor(SortDesc(s, key), s, key)
  {
    if s != [] {
      var s', x := s[..|s| - 1], s[|s| - 1];
      SortDescStable(s', key);
      forall v ensures WithKey(SortDesc(s, key), key, v) == WithKey(s, key, v) {
        WithKeyInsert(SortDesc(s', key), x, key, v);
      }
    }
  }

  /** The last index of `r` holding key `v`, or -1. */
  function LastWithKey<T>(r: seq<T>, key: T -> int, v: int): (q: int)
    ensures -1 <= q < |r|
    ensures 0 <= q ==> key(r[q]) == v
    ensures forall i :: q < i < |r| ==> key(r[i]) != v
  {
    if r == [] then -1
    else if key(r[|r| - 1]) == v then |r| - 1
    else LastWithKey(r[..|r| - 1], key, v)
  }

  /** Removing one element keeps a sequence descending. */
  lemma {:induction false} DropKeepsSorted<T>(r: seq<T>, q: nat, key: T -> int)
    requires q < |r| && SortedDesc(r, key)
    ensures SortedDesc(r[..q] + r[q + 1..], key)
  {
    var r' := r[..q] + r[q + 1..];
    forall i, j | 0 <= i < j < |r'| ensures key(r'[i]) >= key(r'[j]) {
      var i0 := if i < q then i else i + 1;
      var j0 := if j < q then j else j + 1;
      assert r'[i] == r[i0] && r'[j] == r[j0] && i0 < j0;
    }
  }

  /** The key classes of `r` split around index `q`, with and without `r[q]`. */
  lemma {:induction false} WithKeyAround<T>(r: seq<T>, q: nat, key: T -> int, w: int)
    requires q < |r|
    ensures WithKey(r, key, w)
         == WithKey(r[..q], key, w) + WithKey([r[q]], key, w) + WithKey(r[q + 1..], key, w)
    ensures WithKey(r[..q] + r[q + 1..], key, w) == WithKey(r[..q], key, w) + WithKey(r[q + 1..], key, w)
  {
    assert r == r[..q] + [r[q]] + r[q + 1..];
    WithKeyConcat(r[..q] + [r[q]], r[q + 1..], key, w);
    WithKeyConcat(r[..q], [r[q]], key, w);
    WithKeyConcat(r[..q], r[q + 1..], key, w);
  }

  /** In a stable arrangement `r` of `s`, the last element of `s` is the last
      element of `r` with its key, and dropping the two leaves a stable
      arrangement of the rest. */
  lemma {:induction false} DropLastOfKey<T>(s: seq<T>, r: seq<T>, key: T -> int) returns (q: nat)
    requires s != [] && StableFor(r, s, key)
    ensures q < |r| && r[q] == s[|s| - 1]
    ensures forall i :: q < i < |r| ==> key(r[i]) != key(r[q])
    ensures StableFor(r[..q] + r[q + 1..], s[..|s| - 1], key)
  {
    var s', x := s[..|s| - 1], s[|s| - 1];
    var v := key(x);
    assert WithKey(s, key, v) == WithKey(s', key, v) + [x];
    var q0 := LastWithKey(r, key, v);
    if q0 < 0 {
      WithKeyAbsent(r, key, v);
      assert false;
    }
    q := q0;
    WithKeyAround(r, q, key, v);
    WithKeyAbsent(r[q + 1..], key, v);
    WithKeySingle(r[q], key, v);
    var l := WithKey(r, key, v);
    assert l == WithKey(r[..q], key, v) + [r[q]];
    assert l == WithKey(s', key, v) + [x];
    assert l[|l| - 1] == r[q] && l[|l| - 1] == x;
    assert WithKey(r[..q], key, v) == WithKey(s', key, v) by {
      assert (WithKey(r[..q], key, v) + [r[q]])[..|l| - 1] == WithKey(r[..q], key, v);
      assert (WithKey(s', key, v) + [x])[..|l| - 1] == WithKey(s', key, v);
    }
    forall w ensures WithKey(r[..q] + r[q + 1..], key, w) == WithKey(s', key, w) {
      DropLastOfKeyAt(s, r, q, key, w);
    }
  }

  lemma {:induction false} DropLastOfKeyAt<T>(s: seq<T>, r: seq<T>, q: nat, key: T -> int, w: int)
    requires s != [] && StableFor(r, s, key)
    requires q < |r| && r[q] == s[|s| - 1]
    requires WithKey(r[q + 1..], key, key(r[q])) == []
    requires WithKey(r[..q], key, key(r[q])) == WithKey(s[..|s| - 1], key, key(r[q]))
    ensures WithKey(r[..q] + r[q + 1..], key, w) == WithKey(s[..|s| - 1], key, w)
  {
    var s', x := s[..|s| - 1], s[|s| - 1];
    WithKeyAround(r, q, key, w);
    WithKeySingle(r[q], key, w);
    assert WithKey(r, key, w) == WithKey(s, key, w);
    if w != key(x) {
      var a, b := WithKey(r[..q], key, w), WithKey(r[q + 1..], key, w);
      assert WithKey(s, key, w) == WithKey(s', key, w) + [] == WithKey(s', key, w);
      assert WithKey(r, key, w) == a + [] + b == a + b;
    } else {
      assert WithKey(r[..q] + r[q + 1..], key, w) == WithKey(r[..q], key, w) + [];
    }
  }

  /** Putting an element back where it was taken out restores the sequence. */
  lemma {:induction false} Reinsert<T>(r: seq<T>, q: nat, key: T -> int)
    requires q < |r|
    requires InsertPos(r[..q] + r[q + 1..], r[q], key) == q
    ensures Insert(r[..q] + r[q + 1..], r[q], key) == r
  {
    var r' := r[..q] + r[q + 1..];
    assert r'[..q] == r[..q] && r'[q..] == r[q + 1..];
    assert r == r[..q] + [r[q]] + r[q + 1..];
  }

  /** An arrangement with no elements of any key is empty. */
  lemma {:induction false} StableOfEmpty<T>(r: seq<T>, key: T -> int)
    requires StableFor(r, [], key)
    ensures r == []
  {
    if r != [] {
      var v := key(r[0]);
      assert [r[0]] + r[1..] == r;
      WithKeyConcat([r[0]], r[1..], key, v);
      WithKeySingle(r[0], key, v);
      assert false;
    }
  }

  /** Any descending, stable arrangement of `s` is `SortDesc(s)`: a sort is
      determined by being descending and stable, whatever algorithm runs it. */
  lemma {:induction false} StableSortUnique<T>(s: seq<T>, r: seq<T>, key: T -> int)
    requires SortedDesc(r, key)
    requires StableFor(r, s, key)
    ensures r == SortDesc(s, key)
  {
    if s == [] {
      StableOfEmpty(r, key);
    } else {
      var s', x := s[..|s| - 1], s[|s| - 1];
      var q := DropLastOfKey(s, r, key);
      var r' := r[..q] + r[q + 1..];
      DropKeepsSorted(r, q, key);
      StableSortUnique(s', r', key);
      forall i | q <= i < |r'| ensures key(r'[i]) < key(x) {
        assert r'[i] == r[i + 1];
        assert key(r[i + 1]) <= key(r[q]);
      }
      if q > 0 {
        assert r'[q - 1] == r[q - 1];
      }
      InsertPosAt(r', x, key, q);
      Reinsert(r, q, key);
    }
  }

  /** A sequence already in descending order is left as it is. */
  lemma {:induction false} SortDescOfSorted<T>(s: seq<T>, key: T -> int)
    requires SortedDesc(s, key)
    ensures SortDesc(s, key) == s
  {
    if s != [] {
      var s', x := s[..|s| - 1], s[|s| - 1];
      SortDescOfSorted(s', key);
      InsertPosAt(s', x, key, |s'|);
    }
  }

  /** Two keys that agree on every element give the same order. */
  lemma {:induction false} SortDescAgreeingKeys<T>(s: seq<T>, k1: T -> int, k2: T -> int)
    requires forall i :: 0 <= i < |s| ==> k1(s[i]) == k2(s[i])
    ensures SortDesc(s, k1) == SortDesc(s, k2)
  {
    var r := SortDesc(s, k2);
    SortDescPermutation(s, k2);
    SortDescSorted(s, k2);
    forall i | 0 <= i < |r| ensures k1(r[i]) == k2(r[i]) {
      assert r[i] in multiset(s);
    }
    forall v ensures WithKey(r, k1, v) == WithKey(s, k1, v) {
      WithKeyAgree(r, k1, k2, v);
      WithKeyAgree(s, k1, k2, v);
      SortDescStable(s, k2);
    }
    StableSortUnique(s, r, k1);
  }

  lemma {:induction false} WithKeyAgree<T>(s: seq<T>, k1: T -> int, k2: T -> int, v: int)
    requires forall i :: 0 <= i < |s| ==> k1(s[i]) == k2(s[i])
    ensures WithKey(s, k1, v) == WithKey(s, k2, v)
  {
    if s != [] {
      WithKeyAgree(s[..|s| - 1], k1, k2, v);
    }
  }

  /** Sorting does not change any sum over the elements. */
  lemma {:induction false} SortDescSum<T>(s: seq<T>, key: T -> int, f: T -> int)
    ensures Sum(SortDesc(s, key), f) == Sum(s, f)
  {
    if s != [] {
      var s', x := s[..|s| - 1], s[|s| - 1];
      SortDescSum(s', key, f);
      InsertSum(SortDesc(s', key), x, key, f);
    }
  }

  /** No two elements share a name. */
  predicate DistinctBy<T, U(==)>(s: seq<T>, name: T -> U) {
    forall i, j :: 0 <= i < j < |s| ==> name(s[i]) != name(s[j])
  }

  /** Sorting keeps names distinct. */
  lemma {:induction false} SortDescDistinct<T, U>(s: seq<T>, key: T -> int, name: T -> U)
    requires DistinctBy(s, name)
    ensures DistinctBy(SortDesc(s, key), name)
  {
    var r := SortDesc(s, key);
    SortDescPermutation(s, key);
    forall i, j | 0 <= i < j < |r| ensures name(r[i]) != name(r[j]) {
      if name(r[i]) == name(r[j]) {
        assert r[i] in multiset(s) && r[j] in multiset(s);
        var a :| 0 <= a < |s| && s[a] == r[i];
        var b :| 0 <= b < |s| && s[b] == r[j];
        assert a == b;
        assert r[i] == r[j];
        TwoIndicesTwoCopies(r, i, j);
        TwoCopiesTwoIndices(s, r[i]);
        assert false;
      }
    }
  }

  lemma {:induction false} TwoIndicesTwoCopies<T>(s: seq<T>, i: int, j: int)
    requires 0 <= i < j < |s| && s[i] == s[j]
    ensures multiset(s)[s[i]] >= 2
  {
    assert s == s[..i] + [s[i]] + s[i + 1..j] + [s[j]] + s[j + 1..];
  }

  lemma {:induction false} TwoCopiesTwoIndices<T>(s: seq<T>, x: T)
    requires multiset(s)[x] >= 2
    ensures exists i, j :: 0 <= i < j < |s| && s[i] == x && s[j] == x
  {
    var i :| 0 <= i < |s| && s[i] == x;
    assert s == s[..i] + [x] + s[i + 1..];
    assert multiset(s[..i] + s[i + 1..])[x] >= 1;
    assert x in s[..i] || x in s[i + 1..];
    if x in s[..i] {
      var k :| 0 <= k < i && s[..i][k] == x;
      assert s[k] == x;
    } else {
      var k :| 0 <= k < |s| - i - 1 && s[i + 1..][k] == x;
      assert s[i + 1 + k] == x;
    }
  }

  /** `[...s].sort((a, b) => key(b) - key(a)).slice(0, 10)` */
  function Top10<T>(s: seq<T>, key: T -> int): (r: seq<T>)
    ensures |r| == Js.Min(10, |s|)
    ensures SortedDesc(r, key)
    ensures multiset(r) <= multiset(s)
    ensures forall x, y :: x in r && y in multiset(s) - multiset(r) ==> key(y) <= key(x)
    ensures forall v :: WithKey(r, key, v) <= WithKey(s, key, v)
  {
    var n := Js.Min(10, |s|);
    PrefixOfSorted(SortDesc(s, key), s, key, n);
    SortDescStable(s, key);
    WithKeyPrefix(SortDesc(s, key), n, key);
    SortDesc(s, key)[..n]
  }

  /** Of the elements carrying one key, a prefix of `t` keeps the first ones. */
  lemma WithKeyPrefix<T>(t: seq<T>, n: nat, key: T -> int)
    requires n <= |t|
    ensures forall v :: WithKey(t[..n], key, v) <= WithKey(t, key, v)
  {
    forall v ensures WithKey(t[..n], key, v) <= WithKey(t, key, v) {
      assert t == t[..n] + t[n..];
      WithKeyConcat(t[..n], t[n..], key, v);
    }
  }

  /** A prefix of a descending arrangement of `s` is descending, is part of `s`,
      and no element of `s` left out of it has a larger key than one in it. */
  lemma {:induction false} PrefixOfSorted<T>(sorted: seq<T>, s: seq<T>, key: T -> int, n: nat)
    requires sorted == SortDesc(s, key) && n <= |s|
    ensures SortedDesc(sorted[..n], key)
    ensures multiset(sorted[..n]) <= multiset(s)
    ensures forall x, y :: x in sorted[..n] && y in multiset(s) - multiset(sorted[..n]) ==> key(y) <= key(x)
  {
    SortDescPermutation(s, key);
    SortDescSorted(s, key);
    PrefixRest(sorted, n);
    PrefixDominates(sorted, key, n);
  }

  lemma {:induction false} PrefixRest<T>(t: seq<T>, n: nat)
    requires n <= |t|
    ensures multiset(t) - multiset(t[..n]) == multiset(t[n..])
    ensures multiset(t[..n]) <= multiset(t)
  {
    assert t == t[..n] + t[n..];
  }

  lemma {:induction false} PrefixDominates<T>(t: seq<T>, key: T -> int, n: nat)
    requires n <= |t| && SortedDesc(t, key)
    ensures SortedDesc(t[..n], key)
    ensures forall x, y :: x in t[..n] && y in multiset(t[n..]) ==> key(y) <= key(x)
  {
    forall x, y | x in t[..n] && y in multiset(t[n..]) ensures key(y) <= key(x) {
      var i :| 0 <= i < n && t[..n][i] == x;
      assert y in t[n..];
      var j :| 0 <= j < |t| - n && t[n..][j] == y;
      assert t[i] == x && t[n + j] == y;
    }
  }

  lemma {:induction false} SortDescSnoc<T>(s: seq<T>, i: nat, key: T -> int)
    requires i < |s|
    ensures SortDesc(s[..i + 1], key) == Insert(SortDesc(s[..i], key), s[i], key)
  {
    assert s[..i + 1][..i] == s[..i];
  }

  lemma {:induction false} InsertFromElements<T>(t: seq<T>, x: T, key: T -> int, j: nat, r: seq<T>)
    requires j <= |t| && |r| == |t| + 1
    requires InsertPos(t, x, key) == j
    requires forall k :: 0 <= k < j ==> r[k] == t[k]
    requires r[j] == x
    requires forall k :: j < k <= |t| ==> r[k] == t[k - 1]
    ensures r == Insert(t, x, key)
  {
    InsertAt(t, x, key);
  }

  /** Inserts `a[i]` into the sorted prefix `a[..i]` by shifting larger-indexed
      elements with smaller keys one place to the right. */
  method InsertInPlace<T>(a: array<T>, i: nat, key: T -> int)
    requires i < a.Length
    modifies a
    ensures a[..i + 1] == Insert(old(a[..i]), old(a[i]), key)
    ensures forall k :: i < k < a.Length ==> a[k] == old(a[k])
  {
    ghost var prefix := a[..i];
    var x := a[i];
    var j := i;
    while j > 0 && key(a[j - 1]) < key(x)
      invariant 0 <= j <= i
      invariant forall k :: 0 <= k < j ==> a[k] == prefix[k]
      invariant forall k :: j < k <= i ==> a[k] == prefix[k - 1]
      invariant forall k :: i < k < a.Length ==> a[k] == old(a[k])
      invariant forall k :: j <= k < i ==> key(prefix[k]) < key(x)
    {
      a[j] := a[j - 1];
      j := j - 1;
    }
    a[j] := x;
    InsertPosAt(prefix, x, key, j);
    InsertFromElements(prefix, x, key, j, a[..i + 1]);
  }

  /** Sorts `a` in place, descending by `key`, stably (insertion sort). */
  method SortInPlace<T>(a: array<T>, key: T -> int)
    modifies a
    ensures a[..] == SortDesc(old(a[..]), key)
  {
    ghost var a0 := a[..];
    var i := 0;
    while i < a.Length
      invariant 0 <= i <= a.Length
      invariant a[..i] == SortDesc(a0[..i], key)
      invariant forall k :: i <= k < a.Length ==> a[k] == a0[k]
    {
      InsertInPlace(a, i, key);
      SortDescSnoc(a0, i, key);
      i := i + 1;
    }
    assert a[..] == a[..a.Length] && a0 == a0[..a.Length];
  }
}
