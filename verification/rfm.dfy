/**
  The RFM summary: the mean of each RFM column over the selected customers,
  and the five best customers by each column.
 */
module Rfm {
  import opened Records
  import opened Seqs

  function RecencyOf(x: RfmRecord): int { x.recency }
  function FrequencyOf(x: RfmRecord): int { x.frequency }
  function MonetaryOf(x: RfmRecord): int { x.monetary }
  /** Ranking key for "most recent first": the smaller the recency, the larger the key. */
  function Freshness(x: RfmRecord): int { -x.recency }

  /** How many rows each ranking shows. */
  const TopCount: nat := 5

  /** The arithmetic mean of column `f`, exact; there is none for an empty table. */
  function Mean<T>(s: seq<T>, f: T -> int): (m: Option<real>)
    ensures s == [] <==> m == None
    ensures m.Some? ==> m.value * (|s| as real) == SumBy(s, f) as real
  {
    if s == [] then None else Some(SumBy(s, f) as real / |s| as real)
  }

  lemma {:induction false} SumBounds<T>(s: seq<T>, f: T -> int, lo: int, hi: int)
    requires forall i :: 0 <= i < |s| ==> lo <= f(s[i]) <= hi
    ensures |s| * lo <= SumBy(s, f) <= |s| * hi
  {
    if s != [] {
      SumBounds(s[1..], f, lo, hi);
    }
  }

  /** The mean of a non-empty column lies between any bounds of the column. */
  lemma MeanWithinBounds<T>(s: seq<T>, f: T -> int, lo: int, hi: int)
    requires s != []
    requires forall i :: 0 <= i < |s| ==> lo <= f(s[i]) <= hi
    ensures lo as real <= Mean(s, f).value <= hi as real
  {
    SumBounds(s, f, lo, hi);
    BoundsOfQuotient(Mean(s, f).value, |s|, SumBy(s, f), lo, hi);
  }

  lemma BoundsOfQuotient(m: real, n: int, sum: int, lo: int, hi: int)
    requires n > 0 && m * (n as real) == sum as real
    requires n * lo <= sum <= n * hi
    ensures lo as real <= m <= hi as real
  {
    ProductAsReal(n, lo);
    ProductAsReal(n, hi);
    LowerBound(m, n as real, sum as real, lo as real);
    UpperBound(m, n as real, sum as real, hi as real);
  }

  lemma ProductAsReal(a: int, b: int)
    ensures (a * b) as real == (a as real) * (b as real)
  {
  }

  lemma LowerBound(m: real, n: real, sum: real, c: real)
    requires n > 0.0 && m * n == sum && n * c <= sum
    ensures c <= m
  {
    assert (m - c) * n >= 0.0;
  }

  lemma UpperBound(m: real, n: real, sum: real, c: real)
    requires n > 0.0 && m * n == sum && sum <= n * c
    ensures m <= c
  {
    assert (c - m) * n >= 0.0;
  }

  /** The three averages shown above the rankings; each is missing when no
      customer is selected. */
  datatype RfmSummary = RfmSummary(avgRecency: Option<real>, avgFrequency: Option<real>, avgMonetary: Option<real>)

  function Summarize(rfm: seq<RfmRecord>): (r: RfmSummary)
    ensures rfm == [] <==> r.avgRecency.None?
    ensures rfm == [] <==> r.avgFrequency.None?
    ensures rfm == [] <==> r.avgMonetary.None?
    ensures rfm != [] ==>
      && r.avgRecency.value * (|rfm| as real) == SumBy(rfm, RecencyOf) as real
      && r.avgFrequency.value * (|rfm| as real) == SumBy(rfm, FrequencyOf) as real
      && r.avgMonetary.value * (|rfm| as real) == SumBy(rfm, MonetaryOf) as real
  {
    RfmSummary(Mean(rfm, RecencyOf), Mean(rfm, FrequencyOf), Mean(rfm, MonetaryOf))
  }

  /** `sort_values(by="Recency").head(5)`: the five most recent customers. */
  function TopByRecency(rfm: seq<RfmRecord>): (r: seq<RfmRecord>)
    ensures |r| == Min(TopCount, |rfm|)
    ensures forall i, j :: 0 <= i < j < |r| ==> r[i].recency <= r[j].recency
    ensures multiset(r) <= multiset(rfm)
    ensures forall x, y :: x in r && y in multiset(rfm) - multiset(r) ==> x.recency <= y.recency
    // the first row is the most recent customer of all
    ensures r != [] ==> forall y :: y in rfm ==> r[0].recency <= y.recency
  {
    var r := TopN(rfm, Freshness, TopCount);
    forall y | y in rfm && r != []
      ensures r[0].recency <= y.recency
    {
      assert Freshness(r[0]) >= Freshness(y) by {
        FirstDominates(rfm, r, Freshness, y);
      }
    }
    r
  }

  /** The head of a top-n ranking dominates every row of the table. */
  lemma FirstDominates<T>(s: seq<T>, r: seq<T>, key: T -> int, y: T)
    requires r != [] && y in s
    requires SortedDesc(r, key)
    requires multiset(r) <= multiset(s)
    requires forall a, b :: a in r && b in multiset(s) - multiset(r) ==> key(a) >= key(b)
    ensures key(r[0]) >= key(y)
  {
    if y in multiset(r) {
      var i :| 0 <= i < |r| && r[i] == y;
    } else {
      assert y in multiset(s) - multiset(r);
    }
  }

  /** `sort_values(by="Frequency", ascending=False).head(5)`. */
  function TopByFrequency(rfm: seq<RfmRecord>): (r: seq<RfmRecord>)
    ensures |r| == Min(TopCount, |rfm|)
    ensures forall i, j :: 0 <= i < j < |r| ==> r[i].frequency >= r[j].frequency
    ensures multiset(r) <= multiset(rfm)
    ensures forall x, y :: x in r && y in multiset(rfm) - multiset(r) ==> x.frequency >= y.frequency
  {
    TopN(rfm, FrequencyOf, TopCount)
  }

  /** `sort_values(by="Monetary", ascending=False).head(5)`. */
  function TopByMonetary(rfm: seq<RfmRecord>): (r: seq<RfmRecord>)
    ensures |r| == Min(TopCount, |rfm|)
    ensures forall i, j :: 0 <= i < j < |r| ==> r[i].monetary >= r[j].monetary
    ensures multiset(r) <= multiset(rfm)
    ensures forall x, y :: x in r && y in multiset(rfm) - multiset(r) ==> x.monetary >= y.monetary
  {
    TopN(rfm, MonetaryOf, TopCount)
  }
}
