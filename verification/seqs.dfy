/**
  Sequence operations the dashboard's table transformations are built from:
  row filtering, summing a column, de-duplicating a key column, sorting
  by a numeric column in descending order and taking the first rows.
 */
module Seqs {

  function Min(a: int, b: int): int
  {
    if a <= b then a else b
  }

  /** `r` can be obtained from `s` by deleting elements, keeping the order of the rest. */
  ghost predicate SubsequenceOf<T>(r: seq<T>, s: seq<T>)
    decreases |s|
  {
    if r == [] then true
    else if s == [] then false
    else (r[0] == s[0] && SubsequenceOf(r[1..], s[1..])) || SubsequenceOf(r, s[1..])
  }

  lemma {:induction false} SubsequenceOfSelf<T>(s: seq<T>)
    ensures SubsequenceOf(s, s)
    decreases |s|
  {
    if s != [] {
      SubsequenceOfSelf(s[1..]);
    }
  }

  lemma {:induction false} SubsequenceTransitive<T>(a: seq<T>, b: seq<T>, c: seq<T>)
    requires SubsequenceOf(a, b) && SubsequenceOf(b, c)
    ensures SubsequenceOf(a, c)
    decreases |c|
  {
    if a == [] {
    } else if b[0] == c[0] && SubsequenceOf(b[1..], c[1..]) {
      if a[0] == b[0] && SubsequenceOf(a[1..], b[1..]) {
        SubsequenceTransitive(a[1..], b[1..], c[1..]);
      } else {
        SubsequenceTransitive(a, b[1..], c[1..]);
      }
    } else {
      SubsequenceTransitive(a, b, c[1..]);
    }
  }

  /** The rows of `s` that satisfy `p`, in their original order (a boolean mask). */
  function Filter<T(!new)>(s: seq<T>, p: T -> bool): (r: seq<T>)
    ensures forall x :: multiset(r)[x] == if p(x) then multiset(s)[x] else 0
    ensures forall x :: x in r <==> x in s && p(x)
    ensures SubsequenceOf(r, s)
    ensures |r| <= |s|
  {
    if s == [] then []
    else
      var rest := Filter(s[1..], p);
      assert s == [s[0]] + s[1..];
      if p(s[0]) then [s[0]] + rest else rest
  }

  /** The sum of column `f` over the rows of `s`. */
  function SumBy<T>(s: seq<T>, f: T -> int): int
  {
    if s == [] then 0 else f(s[0]) + SumBy(s[1..], f)
  }

  lemma {:induction false} SumByConcat<T>(a: seq<T>, b: seq<T>, f: T -> int)
    ensures SumBy(a + b, f) == SumBy(a, f) + SumBy(b, f)
  {
    if a == [] {
      assert a + b == b;
    } else {
      assert a + b == [a[0]] + (a[1..] + b);
      SumByConcat(a[1..], b, f);
    }
  }

  /** Reordering the rows of a table does not change a column sum. */
  lemma {:induction false} SumByPermutation<T>(a: seq<T>, b: seq<T>, f: T -> int)
    requires multiset(a) == multiset(b)
    ensures SumBy(a, f) == SumBy(b, f)
    decreases |a|
  {
    if a == [] {
      assert |b| == |multiset(b)| == 0;
    } else {
      var x := a[0];
      assert x in multiset(b);
      var i :| 0 <= i < |b| && b[i] == x;
      var b' := b[..i] + b[i + 1..];
      assert b == b[..i] + ([x] + b[i + 1..]);
      assert a == [x] + a[1..];
      assert multiset(b) == multiset(b[..i]) + multiset{x} + multiset(b[i + 1..]);
      assert multiset(a) == multiset{x} + multiset(a[1..]);
      assert multiset(b') == multiset(b[..i]) + multiset(b[i + 1..]);
      assert multiset(b') == multiset(b) - multiset{x};
      assert multiset(a[1..]) == multiset(a) - multiset{x};
      SumByPermutation(a[1..], b', f);
      SumByConcat(b[..i], [x] + b[i + 1..], f);
      SumByConcat([x], b[i + 1..], f);
      SumByConcat(b[..i], b[i + 1..], f);
    }
  }

  predicate NoDuplicates<T(==)>(s: seq<T>)
  {
    forall i, j :: 0 <= i < j < |s| ==> s[i] != s[j]
  }

  /** The head of a duplicate-free sequence does not recur in its tail. */
  lemma HeadNotInTail<T>(s: seq<T>)
    requires s != [] && NoDuplicates(s)
    ensures s[0] !in s[1..]
  {
    forall i | 0 <= i < |s[1..]|
      ensures s[1..][i] != s[0]
    {
      assert s[1..][i] == s[i + 1];
    }
  }

  lemma NoDuplicatesTail<T>(s: seq<T>)
    requires s != [] && NoDuplicates(s)
    ensures NoDuplicates(s[1..])
  {
    forall i, j | 0 <= i < j < |s[1..]|
      ensures s[1..][i] != s[1..][j]
    {
      assert s[1..][i] == s[i + 1] && s[1..][j] == s[j + 1];
    }
  }

  /** The distinct values of `s`, each once (a `unique()` of the column). */
  function Distinct<T(==,!new)>(s: seq<T>): (r: seq<T>)
    ensures NoDuplicates(r)
    ensures forall x :: x in r <==> x in s
    ensures |r| <= |s|
  {
    if s == [] then []
    else
      var rest := Distinct(s[1..]);
      assert s == [s[0]] + s[1..];
      if s[0] in rest then rest else [s[0]] + rest
  }

  /** Rows are in non-increasing order of column `key`. */
  ghost predicate SortedDesc<T>(s: seq<T>, key: T -> int)
  {
    forall i, j :: 0 <= i < j < |s| ==> key(s[i]) >= key(s[j])
  }

  function Insert<T>(x: T, s: seq<T>, key: T -> int): (r: seq<T>)
    requires SortedDesc(s, key)
    ensures SortedDesc(r, key)
    ensures multiset(r) == multiset(s) + multiset{x}
  {
    if s == [] || key(x) >= key(s[0]) then [x] + s
    else
      var rest := Insert(x, s[1..], key);
      assert s == [s[0]] + s[1..];
      HeadDominates(s[0], x, s[1..], rest, key);
      [s[0]] + rest
  }

  /** Prepending `h` to a sorted `rest` whose rows come from `x` and `t` keeps it sorted. */
  lemma HeadDominates<T>(h: T, x: T, t: seq<T>, rest: seq<T>, key: T -> int)
    requires SortedDesc([h] + t, key)
    requires key(x) < key(h)
    requires SortedDesc(rest, key)
    requires multiset(rest) == multiset(t) + multiset{x}
    ensures SortedDesc([h] + rest, key)
  {
    forall j | 0 <= j < |rest|
      ensures key(h) >= key(rest[j])
    {
      assert rest[j] in multiset(rest);
      if rest[j] != x {
        assert rest[j] in multiset(t);
        var k :| 0 <= k < |t| && t[k] == rest[j];
        assert ([h] + t)[0] == h && ([h] + t)[k + 1] == t[k];
      }
    }
    var r := [h] + rest;
    forall i, j | 0 <= i < j < |r|
      ensures key(r[i]) >= key(r[j])
    {
      if i > 0 {
        assert r[i] == rest[i - 1] && r[j] == rest[j - 1];
      } else {
        assert r[j] == rest[j - 1];
      }
    }
  }

  /** The rows of `s` reordered by non-increasing `key` (a non-stable
      `sort_values(ascending=False)`: the order among equal keys is left open). */
  function SortDesc<T>(s: seq<T>, key: T -> int): (r: seq<T>)
    ensures SortedDesc(r, key)
    ensures multiset(r) == multiset(s)
  {
    if s == [] then []
    else
      assert s == [s[0]] + s[1..];
      Insert(s[0], SortDesc(s[1..], key), key)
  }

  /** `sort_values(ascending=False).head(n)`: the first `n` rows after sorting. */
  function TopN<T>(s: seq<T>, key: T -> int, n: nat): (r: seq<T>)
    ensures |r| == Min(n, |s|)
    ensures SortedDesc(r, key)
    ensures multiset(r) <= multiset(s)
    ensures forall x, y :: x in r && y in multiset(s) - multiset(r) ==> key(x) >= key(y)
  {
    var sorted := SortDesc(s, key);
    var k := Min(n, |s|);
    assert |sorted| == |multiset(sorted)| == |s|;
    PrefixDominates(sorted, key, k);
    sorted[..k]
  }

  /** In a sorted table the first `k` rows dominate the remaining ones. */
  lemma PrefixDominates<T>(sorted: seq<T>, key: T -> int, k: nat)
    requires SortedDesc(sorted, key)
    requires k <= |sorted|
    ensures SortedDesc(sorted[..k], key)
    ensures multiset(sorted[..k]) <= multiset(sorted)
    ensures forall x, y :: x in sorted[..k] && y in multiset(sorted) - multiset(sorted[..k]) ==> key(x) >= key(y)
  {
    var r := sorted[..k];
    var tail := sorted[k..];
    assert sorted == r + tail;
    assert multiset(sorted) == multiset(r) + multiset(tail);
    assert multiset(sorted) - multiset(r) == multiset(tail);
    forall x, y | x in r && y in multiset(tail)
      ensures key(x) >= key(y)
    {
      PairDominates(sorted, key, k, x, y);
    }
  }

  lemma PairDominates<T>(sorted: seq<T>, key: T -> int, k: nat, x: T, y: T)
    requires SortedDesc(sorted, key)
    requires k <= |sorted|
    requires x in sorted[..k] && y in sorted[k..]
    ensures key(x) >= key(y)
  {
    var i :| 0 <= i < k && sorted[..k][i] == x;
    var j :| 0 <= j < |sorted| - k && sorted[k..][j] == y;
    assert sorted[i] == x && sorted[k + j] == y;
  }

  lemma {:induction false} ZeroSum<T>(s: seq<T>, g: T -> int)
    requires forall i :: 0 <= i < |s| ==> g(s[i]) == 0
    ensures SumBy(s, g) == 0
  {
    if s != [] {
      ZeroSum(s[1..], g);
    }
  }

  /** A 0/1 column with at most one 1 sums to at most 1. */
  lemma {:induction false} AtMostOneHit<T>(s: seq<T>, g: T -> int)
    requires forall i :: 0 <= i < |s| ==> 0 <= g(s[i]) <= 1
    requires forall i, j :: 0 <= i < j < |s| ==> g(s[i]) == 0 || g(s[j]) == 0
    ensures SumBy(s, g) <= 1
  {
    if s != [] {
      if g(s[0]) == 1 {
        forall i | 0 <= i < |s[1..]|
          ensures g(s[1..][i]) == 0
        {
          assert s[1..][i] == s[i + 1];
        }
        ZeroSum(s[1..], g);
      } else {
        AtMostOneHit(s[1..], g);
      }
    }
  }

  /** A non-negative column with two 1s sums to at least 2. */
  lemma {:induction false} TwoHits<T>(s: seq<T>, g: T -> int, i: int, j: int)
    requires forall k :: 0 <= k < |s| ==> 0 <= g(s[k])
    requires 0 <= i < j < |s| && g(s[i]) == 1 && g(s[j]) == 1
    ensures SumBy(s, g) >= 2
  {
    NonNegativeSum(s[1..], g);
    if i == 0 {
      OneHit(s[1..], g, j - 1);
    } else {
      TwoHits(s[1..], g, i - 1, j - 1);
    }
  }

  lemma {:induction false} OneHit<T>(s: seq<T>, g: T -> int, j: int)
    requires forall k :: 0 <= k < |s| ==> 0 <= g(s[k])
    requires 0 <= j < |s| && g(s[j]) == 1
    ensures SumBy(s, g) >= 1
  {
    NonNegativeSum(s[1..], g);
    if j > 0 {
      OneHit(s[1..], g, j - 1);
    }
  }

  lemma {:induction false} NonNegativeSum<T>(s: seq<T>, g: T -> int)
    requires forall k :: 0 <= k < |s| ==> 0 <= g(s[k])
    ensures SumBy(s, g) >= 0
  {
    if s != [] {
      NonNegativeSum(s[1..], g);
    }
  }

  /** Reordering rows whose column `f` has no repeated value leaves it without repeats. */
  lemma KeysDistinctPermutation<T, K>(a: seq<T>, b: seq<T>, f: T -> K)
    requires multiset(a) == multiset(b)
    requires forall i, j :: 0 <= i < j < |a| ==> f(a[i]) != f(a[j])
    ensures forall i, j :: 0 <= i < j < |b| ==> f(b[i]) != f(b[j])
  {
    forall i, j | 0 <= i < j < |b|
      ensures f(b[i]) != f(b[j])
    {
      if f(b[i]) == f(b[j]) {
        var k := f(b[i]);
        var hit := (x: T) => if f(x) == k then 1 else 0;
        SumByPermutation(a, b, hit);
        TwoHits(b, hit, i, j);
        AtMostOneHit(a, hit);
        assert false;
      }
    }
  }
}
