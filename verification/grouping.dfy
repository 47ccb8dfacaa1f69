/**
  Group-by with a sum and a row count per group, as `groupby(col).agg(...)`
  computes it. Rows whose key is missing (`key(x) == None`) belong to no
  group, which is how a group-by drops missing keys.
 */
module Grouping {
  import opened Records
  import opened Seqs

  /** One group: its key, the sum of the value column and the number of rows. */
  datatype Group<K> = Group(key: K, total: int, count: nat)

  function TotalOf<K>(g: Group<K>): int { g.total }
  function CountOf<K>(g: Group<K>): int { g.count }
  function One<T>(x: T): int { 1 }

  /** The present keys of `s`, in row order, with repetitions. */
  function KeysOf<T, K(!new)>(s: seq<T>, key: T -> Option<K>): (ks: seq<K>)
    ensures forall k :: k in ks <==> exists i :: 0 <= i < |s| && key(s[i]) == Some(k)
  {
    if s == [] then []
    else
      var rest := KeysOf(s[1..], key);
      assert forall i :: 1 <= i < |s| ==> s[i] == s[1..][i - 1];
      match key(s[0])
      case Some(k) => [k] + rest
      case None => rest
  }

  /** The summed value column over the rows keyed `k`. */
  function TotalFor<T, K(==)>(s: seq<T>, key: T -> Option<K>, value: T -> int, k: K): int
  {
    if s == [] then 0
    else (if key(s[0]) == Some(k) then value(s[0]) else 0) + TotalFor(s[1..], key, value, k)
  }

  /** The number of rows keyed `k`. */
  function CountFor<T, K(==)>(s: seq<T>, key: T -> Option<K>, k: K): nat
  {
    if s == [] then 0
    else (if key(s[0]) == Some(k) then 1 else 0) + CountFor(s[1..], key, k)
  }

  /** The summed value column over the rows that have a key at all. */
  function PresentTotal<T, K>(s: seq<T>, key: T -> Option<K>, value: T -> int): int
  {
    if s == [] then 0
    else (if key(s[0]).Some? then value(s[0]) else 0) + PresentTotal(s[1..], key, value)
  }

  /** One group row per key of `ks`. */
  function GroupRows<T, K(==)>(s: seq<T>, key: T -> Option<K>, value: T -> int, ks: seq<K>): (r: seq<Group<K>>)
    ensures |r| == |ks|
    ensures forall i :: 0 <= i < |r| ==> r[i].key == ks[i]
    ensures forall i :: 0 <= i < |r| ==>
      r[i].total == TotalFor(s, key, value, r[i].key) && r[i].count == CountFor(s, key, r[i].key)
  {
    if ks == [] then []
    else [Group(ks[0], TotalFor(s, key, value, ks[0]), CountFor(s, key, ks[0]))] + GroupRows(s, key, value, ks[1..])
  }

  ghost predicate KeysDistinct<K>(r: seq<Group<K>>)
  {
    forall i, j :: 0 <= i < j < |r| ==> r[i].key != r[j].key
  }

  /** The keys that have a row in `r`. */
  ghost function GroupKeys<K>(r: seq<Group<K>>): set<K>
  {
    set i | 0 <= i < |r| :: r[i].key
  }

  /** The keys present in the table `s`. */
  ghost function PresentKeys<T, K>(s: seq<T>, key: T -> Option<K>): set<K>
  {
    set i | 0 <= i < |s| && key(s[i]).Some? :: key(s[i]).value
  }

  /** Group `g` carries the sum and the row count of its key's rows in `s`. */
  ghost predicate Summarizes<T, K>(s: seq<T>, key: T -> Option<K>, value: T -> int, g: Group<K>)
  {
    g.total == TotalFor(s, key, value, g.key) && 1 <= g.count == CountFor(s, key, g.key)
  }

  /** `groupby(key).agg(sum of value, count)`: one row per distinct present key. */
  function GroupBy<T, K(==,!new)>(s: seq<T>, key: T -> Option<K>, value: T -> int): (r: seq<Group<K>>)
    ensures KeysDistinct(r)
    ensures GroupKeys(r) == PresentKeys(s, key)
    ensures forall i :: 0 <= i < |r| ==> Summarizes(s, key, value, r[i])
  {
    var ks := Distinct(KeysOf(s, key));
    var r := GroupRows(s, key, value, ks);
    forall i | 0 <= i < |r|
      ensures 1 <= r[i].count
    {
      assert ks[i] in KeysOf(s, key);
      var j :| 0 <= j < |s| && key(s[j]) == Some(ks[i]);
      CountPositive(s, key, ks[i], j);
    }
    forall k | k in PresentKeys(s, key)
      ensures k in GroupKeys(r)
    {
      var j :| 0 <= j < |s| && key(s[j]).Some? && key(s[j]).value == k;
      assert k in ks;
      var i :| 0 <= i < |ks| && ks[i] == k;
      assert r[i].key == k;
    }
    forall k | k in GroupKeys(r)
      ensures k in PresentKeys(s, key)
    {
      var i :| 0 <= i < |r| && r[i].key == k;
      assert ks[i] in KeysOf(s, key);
    }
    r
  }

  function KeyOf<K>(g: Group<K>): K { g.key }

  /** A reordering of a group-by result is still one: each key once, the same
      keys, every group intact. */
  lemma PermutedGroups<T, K(!new)>(s: seq<T>, key: T -> Option<K>, value: T -> int, g: seq<Group<K>>, r: seq<Group<K>>)
    requires multiset(g) == multiset(r)
    requires KeysDistinct(g)
    requires forall i :: 0 <= i < |g| ==> Summarizes(s, key, value, g[i])
    ensures KeysDistinct(r)
    ensures GroupKeys(r) == GroupKeys(g)
    ensures forall i :: 0 <= i < |r| ==> Summarizes(s, key, value, r[i])
  {
    KeysDistinctPermutation(g, r, KeyOf);
    forall i | 0 <= i < |r|
      ensures Summarizes(s, key, value, r[i]) && r[i].key in GroupKeys(g)
    {
      assert r[i] in multiset(g);
      var j :| 0 <= j < |g| && g[j] == r[i];
    }
    forall k | k in GroupKeys(g)
      ensures k in GroupKeys(r)
    {
      var j :| 0 <= j < |g| && g[j].key == k;
      assert g[j] in multiset(r);
      var i :| 0 <= i < |r| && r[i] == g[j];
    }
  }

  /** `groupby(key).agg(...).sort_values(ascending=False)` on the summed column. */
  function SortedGroupBy<T, K(==,!new)>(s: seq<T>, key: T -> Option<K>, value: T -> int): (r: seq<Group<K>>)
    ensures SortedDesc(r, TotalOf)
    ensures KeysDistinct(r)
    ensures GroupKeys(r) == PresentKeys(s, key)
    ensures forall i :: 0 <= i < |r| ==> Summarizes(s, key, value, r[i])
    ensures multiset(r) == multiset(GroupBy(s, key, value))
  {
    var g := GroupBy(s, key, value);
    var r := SortDesc(g, TotalOf);
    PermutedGroups(s, key, value, g, r);
    r
  }

  lemma {:induction false} CountPositive<T, K>(s: seq<T>, key: T -> Option<K>, k: K, j: int)
    requires 0 <= j < |s| && key(s[j]) == Some(k)
    ensures CountFor(s, key, k) >= 1
  {
    if j > 0 {
      CountPositive(s[1..], key, k, j - 1);
    }
  }

  /** The value of row `x` if its key is one of `ks`, once per occurrence of that key. */
  function Hits<T, K(==)>(x: T, key: T -> Option<K>, value: T -> int, ks: seq<K>): int
  {
    if ks == [] then 0
    else (if key(x) == Some(ks[0]) then value(x) else 0) + Hits(x, key, value, ks[1..])
  }

  lemma {:induction false} HitsOnce<T, K>(x: T, key: T -> Option<K>, value: T -> int, ks: seq<K>)
    requires NoDuplicates(ks)
    ensures Hits(x, key, value, ks) == if key(x).Some? && key(x).value in ks then value(x) else 0
  {
    if ks != [] {
      assert NoDuplicates(ks[1..]) by {
        forall i, j | 0 <= i < j < |ks[1..]|
          ensures ks[1..][i] != ks[1..][j]
        {
          assert ks[1..][i] == ks[i + 1] && ks[1..][j] == ks[j + 1];
        }
      }
      HitsOnce(x, key, value, ks[1..]);
      assert ks == [ks[0]] + ks[1..];
    }
  }

  /** Peeling the first row off the table peels its value off exactly the groups it hits. */
  lemma {:induction false} RowsPeel<T, K>(s: seq<T>, key: T -> Option<K>, value: T -> int, ks: seq<K>)
    requires s != []
    ensures SumBy(GroupRows(s, key, value, ks), TotalOf) ==
      Hits(s[0], key, value, ks) + SumBy(GroupRows(s[1..], key, value, ks), TotalOf)
  {
    if ks != [] {
      RowsPeel(s, key, value, ks[1..]);
    }
  }

  lemma {:induction false} RowsOfEmpty<T, K>(s: seq<T>, key: T -> Option<K>, value: T -> int, ks: seq<K>)
    requires s == []
    ensures SumBy(GroupRows(s, key, value, ks), TotalOf) == 0
  {
    if ks != [] {
      RowsOfEmpty(s, key, value, ks[1..]);
    }
  }

  /** Over a duplicate-free list of keys covering every present key, the group
      totals add up to the total of the keyed rows. */
  lemma {:induction false} RowsTotal<T, K>(s: seq<T>, key: T -> Option<K>, value: T -> int, ks: seq<K>)
    requires NoDuplicates(ks)
    requires forall i :: 0 <= i < |s| && key(s[i]).Some? ==> key(s[i]).value in ks
    ensures SumBy(GroupRows(s, key, value, ks), TotalOf) == PresentTotal(s, key, value)
  {
    if s == [] {
      RowsOfEmpty(s, key, value, ks);
    } else {
      RowsPeel(s, key, value, ks);
      HitsOnce(s[0], key, value, ks);
      assert forall i :: 0 <= i < |s[1..]| ==> s[1..][i] == s[i + 1];
      RowsTotal(s[1..], key, value, ks);
    }
  }

  lemma {:induction false} CountsAreUnitTotals<T, K>(s: seq<T>, key: T -> Option<K>, value: T -> int, ks: seq<K>)
    ensures SumBy(GroupRows(s, key, value, ks), CountOf) == SumBy(GroupRows(s, key, One, ks), TotalOf)
  {
    if ks != [] {
      CountIsUnitTotal(s, key, ks[0]);
      CountsAreUnitTotals(s, key, value, ks[1..]);
    }
  }

  lemma {:induction false} CountIsUnitTotal<T, K>(s: seq<T>, key: T -> Option<K>, k: K)
    ensures CountFor(s, key, k) == TotalFor(s, key, One, k)
  {
    if s != [] {
      CountIsUnitTotal(s[1..], key, k);
    }
  }

  /** Grouping loses no value: the group totals add up to the total over all
      rows with a key, and the group counts to the number of such rows. */
  lemma GroupByPreservesSums<T, K(!new)>(s: seq<T>, key: T -> Option<K>, value: T -> int)
    ensures SumBy(SortedGroupBy(s, key, value), TotalOf) == PresentTotal(s, key, value)
    ensures SumBy(SortedGroupBy(s, key, value), CountOf) == PresentTotal(s, key, One)
  {
    SumByPermutation(SortedGroupBy(s, key, value), GroupBy(s, key, value), TotalOf);
    SumByPermutation(SortedGroupBy(s, key, value), GroupBy(s, key, value), CountOf);
    var ks := Distinct(KeysOf(s, key));
    forall i | 0 <= i < |s| && key(s[i]).Some?
      ensures key(s[i]).value in ks
    {
      assert key(s[i]).value in KeysOf(s, key);
    }
    RowsTotal(s, key, value, ks);
    RowsTotal(s, key, One, ks);
    CountsAreUnitTotals(s, key, value, ks);
  }
}
