/** The latency percentiles of the two evaluators (cmd/eval/main.go, cmd/beir_eval/main.go). */
module Percentile {
  import opened OrderStatistics

  /** The nearest-rank percentile: at least `p` percent of the values are at most `r`, and less than `p` percent
      are below it. Outside 1..100 it is the smallest or the largest value. */
  predicate IsNearestRank(values: seq<real>, p: int, r: real) {
    && r in values
    && 100 * Count(values, r, false) >= (if p > 100 then 100 else p) * |values|
    && (Count(values, r, true) == 0 || 100 * Count(values, r, true) < p * |values|)
  }

  lemma {:induction false} CountLess(values: seq<real>, r: real, s: real)
    requires r < s
    ensures Count(values, r, false) <= Count(values, s, true)
    ensures s in values ==> Count(values, r, false) < |values|
  {
    if values != [] {
      var n := |values| - 1;
      CountLess(values[..n], r, s);
      assert values == values[..n] + [values[n]];
      CountAtMost(values[..n], r);
    }
  }

  lemma {:induction false} CountAtMost(values: seq<real>, r: real)
    ensures Count(values, r, false) <= |values|
    ensures r in values ==> Count(values, r, false) > 0
  {
    if values != [] {
      var n := |values| - 1;
      CountAtMost(values[..n], r);
      assert values == values[..n] + [values[n]];
    }
  }

  /** There is only one, so the two evaluators report the same percentiles. */
  lemma NearestRankIsUnique(values: seq<real>, p: int, r: real, s: real)
    requires IsNearestRank(values, p, r) && IsNearestRank(values, p, s)
    ensures r == s
  {
    CountAtMost(values, r);
    CountAtMost(values, s);
    if r < s {
      NotBoth(values, p, r, s);
    } else if s < r {
      NotBoth(values, p, s, r);
    }
  }

  lemma NotBoth(values: seq<real>, p: int, r: real, s: real)
    requires r < s && r in values && s in values
    ensures !(IsNearestRank(values, p, r) && IsNearestRank(values, p, s))
  {
    CountLess(values, r, s);
    CountAtMost(values, r);
    assert p > 100 ==> 100 * Count(values, r, false) < 100 * |values|;
  }

  function NominalRank(p: int, n: nat): int {
    Ceil(p as real / 100.0 * n as real) - 1
  }

  lemma NominalRankMeets(p: int, n: nat)
    ensures 100 * NominalRank(p, n) < p * n <= 100 * (NominalRank(p, n) + 1)
    ensures n > 0 && p <= 0 ==> NominalRank(p, n) < 0
    ensures p >= 100 ==> NominalRank(p, n) >= n - 1
  {
    var x := p as real / 100.0 * n as real;
    assert x * 100.0 == (p * n) as real;
    var r := NominalRank(p, n);
    assert r as real < x <= (r + 1) as real;
    Scale(p, n);
  }

  lemma Scale(p: int, n: nat)
    ensures p >= 100 ==> p * n >= 100 * n
    ensures p <= 0 ==> p * n <= 0
    ensures p <= 100 ==> p * n <= 100 * n
  {
    assert p <= 100 ==> (100 - p) * n >= 0;
  }

  function Clamped(rank: int, n: nat): (r: nat)
    requires n > 0
    ensures r < n
  {
    if rank < 0 then 0 else if rank >= n then n - 1 else rank
  }

  /** The counting, with `pn` for p * n. */
  lemma RankCounts(p: int, n: nat, pn: int, nominal: int, atMost: int, below: int)
    requires n > 0 && 100 * nominal < pn <= 100 * (nominal + 1)
    requires (p <= 0 ==> nominal < 0) && (p >= 100 ==> nominal >= n - 1)
    requires p <= 100 ==> pn <= 100 * n
    requires Clamped(nominal, n) < atMost && 0 <= below <= Clamped(nominal, n)
    ensures 100 * atMost >= if p > 100 then 100 * n else pn
    ensures below == 0 || 100 * below < pn
  {
  }

  /** The value at that position of the sorted ones, kept within bounds. */
  lemma RankMeets(values: seq<real>, sorted: seq<real>, p: int)
    requires multiset(values) == multiset(sorted) && Ascending(sorted) && |sorted| == |values| > 0
    ensures IsNearestRank(values, p, sorted[Clamped(NominalRank(p, |values|), |values|)])
  {
    hide NominalRank, Ascending, Count;
    var n := |values|;
    var rank := Clamped(NominalRank(p, n), n);
    OrderStatistic(values, sorted, rank);
    CountBounds(values, sorted[rank]);
    NominalRankMeets(p, n);
    Scale(p, n);
    var r := sorted[rank];
    RankCounts(p, n, p * n, NominalRank(p, n), Count(values, r, false), Count(values, r, true));
  }

  /** percentile of cmd/eval. */
  method PercentileEval(values: seq<real>, p: int) returns (r: real)
    ensures values == [] ==> r == 0.0
    ensures values != [] ==> IsNearestRank(values, p, r)
  {
    hide IsNearestRank, Ascending, Count, NominalRank;
    if |values| == 0 {
      return 0.0;
    }
    var arr := Sorted(values);
    assert |arr| == |multiset(arr)| == |multiset(values)| == |values|;
    var rank := NominalRank(p, |arr|);
    RankMeets(values, arr, p);
    NominalRankMeets(p, |arr|);
    if p <= 0 {
      return arr[0];
    }
    if p >= 100 {
      return arr[|arr| - 1];
    }
    if rank < 0 {
      rank := 0;
    }
    if rank >= |arr| {
      rank := |arr| - 1;
    }
    return arr[rank];
  }

  /** percentile of cmd/beir_eval. */
  method PercentileBeir(values: seq<real>, p: int) returns (r: real)
    ensures values == [] ==> r == 0.0
    ensures values != [] ==> IsNearestRank(values, p, r)
  {
    hide IsNearestRank, Ascending, Count, NominalRank;
    if |values| == 0 {
      return 0.0;
    }
    var copied := Sorted(values);
    assert |copied| == |multiset(copied)| == |multiset(values)| == |values|;
    var idx := NominalRank(p, |copied|);
    RankMeets(values, copied, p);
    if idx < 0 {
      idx := 0;
    }
    if idx >= |copied| {
      idx := |copied| - 1;
    }
    return copied[idx];
  }
}
