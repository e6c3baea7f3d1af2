/** Sorted copies, and the sorted position of a value as a count over the unsorted values. */
module OrderStatistics {

  /** How many values are at most, or strictly below, `t`. */
  function Count(values: seq<real>, t: real, strict: bool): nat {
    if values == [] then 0 else
      var last := values[|values| - 1];
      Count(values[..|values| - 1], t, strict) + if last < t || (last == t && !strict) then 1 else 0
  }

  lemma {:induction false} CountAppend(a: seq<real>, b: seq<real>, t: real, strict: bool)
    ensures Count(a + b, t, strict) == Count(a, t, strict) + Count(b, t, strict)
  {
    if b == [] {
      assert a + b == a;
    } else {
      var n := |b| - 1;
      CountAppend(a, b[..n], t, strict);
      assert (a + b)[..|a| + n] == a + b[..n];
    }
  }

  lemma Without(b: seq<real>, j: nat)
    requires j < |b|
    ensures multiset(b) == multiset(b[..j] + b[j + 1..]) + multiset{b[j]}
  {
    assert b == b[..j] + [b[j]] + b[j + 1..];
  }

  lemma CountWithout(b: seq<real>, j: nat, t: real, strict: bool)
    requires j < |b|
    ensures Count(b, t, strict) == Count(b[..j] + b[j + 1..], t, strict) + Count([b[j]], t, strict)
  {
    hide Count;
    assert b == b[..j] + ([b[j]] + b[j + 1..]);
    CountAppend(b[..j], b[j + 1..], t, strict);
    CountAppend(b[..j], [b[j]] + b[j + 1..], t, strict);
    CountAppend([b[j]], b[j + 1..], t, strict);
  }

  lemma Find(b: seq<real>, x: real) returns (j: nat)
    requires x in multiset(b)
    ensures j < |b| && b[j] == x
  {
    j :| 0 <= j < |b| && b[j] == x;
  }

  lemma {:induction false} CountPerm(a: seq<real>, b: seq<real>, t: real, strict: bool)
    requires multiset(a) == multiset(b)
    ensures Count(a, t, strict) == Count(b, t, strict)
  {
    hide Count;
    assert |a| == |multiset(a)| == |multiset(b)| == |b|;
    if a == [] {
      assert b == [];
    } else {
      var n := |a| - 1;
      assert a[..n] + a[n + 1..] == a[..n];
      Without(a, n);
      var j := Find(b, a[n]);
      Without(b, j);
      assert multiset(a[..n]) == multiset(a) - multiset{a[n]};
      assert multiset(b[..j] + b[j + 1..]) == multiset(b) - multiset{b[j]};
      CountPerm(a[..n], b[..j] + b[j + 1..], t, strict);
      CountWithout(a, n, t, strict);
      CountWithout(b, j, t, strict);
    }
  }

  predicate Ascending(s: seq<real>) {
    forall i, j :: 0 <= i < j < |s| ==> s[i] <= s[j]
  }

  lemma {:induction false} CountRange(s: seq<real>, t: real)
    ensures Count(s, t, true) <= |s|
    ensures (forall i :: 0 <= i < |s| ==> s[i] <= t) ==> Count(s, t, false) == |s|
    ensures (forall i :: 0 <= i < |s| ==> s[i] >= t) ==> Count(s, t, true) == 0
  {
    if s != [] {
      CountRange(s[..|s| - 1], t);
    }
  }

  lemma {:induction false} CountTimes(s: seq<real>, t: real)
    ensures Count(s, t, false) == Count(s, t, true) + multiset(s)[t]
  {
    if s != [] {
      CountTimes(s[..|s| - 1], t);
      assert s == s[..|s| - 1] + [s[|s| - 1]];
    }
  }

  lemma CountBounds(s: seq<real>, t: real)
    ensures Count(s, t, true) <= |s|
    ensures (forall i :: 0 <= i < |s| ==> s[i] <= t) ==> Count(s, t, false) == |s|
    ensures (forall i :: 0 <= i < |s| ==> s[i] >= t) ==> Count(s, t, true) == 0
    ensures Count(s, t, false) == Count(s, t, true) + multiset(s)[t]
  {
    CountRange(s, t);
    CountTimes(s, t);
  }

  lemma RankAtMost(sorted: seq<real>, rank: nat)
    requires Ascending(sorted) && rank < |sorted|
    ensures Count(sorted, sorted[rank], false) >= rank + 1
  {
    hide Count;
    var low, high := sorted[..rank + 1], sorted[rank + 1..];
    assert sorted == low + high;
    CountAppend(low, high, sorted[rank], false);
    CountBounds(low, sorted[rank]);
  }

  lemma RankBelow(sorted: seq<real>, rank: nat)
    requires Ascending(sorted) && rank < |sorted|
    ensures Count(sorted, sorted[rank], true) <= rank
  {
    hide Count;
    var below, above := sorted[..rank], sorted[rank..];
    assert sorted == below + above;
    CountAppend(below, above, sorted[rank], true);
    CountBounds(below, sorted[rank]);
    CountBounds(above, sorted[rank]);
  }

  /** Element `rank` of the sorted values, as a count over the values in any order. */
  lemma OrderStatistic(values: seq<real>, sorted: seq<real>, rank: nat)
    requires multiset(values) == multiset(sorted) && Ascending(sorted) && rank < |sorted|
    ensures sorted[rank] in values
    ensures rank + 1 <= Count(values, sorted[rank], false) <= rank + multiset(values)[sorted[rank]]
  {
    hide Count, Ascending;
    var t := sorted[rank];
    assert t in multiset(sorted);
    CountPerm(values, sorted, t, false);
    CountPerm(values, sorted, t, true);
    RankAtMost(sorted, rank);
    RankBelow(sorted, rank);
    CountBounds(values, t);
  }

  lemma CountNext(values: seq<real>, t: real, n: nat)
    requires n < |values|
    ensures Count(values[..n + 1], t, false) == Count(values[..n], t, false) + if values[n] <= t then 1 else 0
  {
    assert values[..n + 1][..n] == values[..n];
  }

  /** A sorted copy (Go's sort package). */
  method Sorted(values: seq<real>) returns (r: seq<real>)
    ensures multiset(r) == multiset(values) && Ascending(r)
  {
    r := [];
    for i := 0 to |values|
      invariant multiset(r) == multiset(values[..i]) && Ascending(r)
    {
      assert values[..i + 1] == values[..i] + [values[i]];
      r := Inserted(r, values[i]);
    }
    assert values[..|values|] == values;
  }

  method Inserted(sorted: seq<real>, x: real) returns (r: seq<real>)
    requires Ascending(sorted)
    ensures Ascending(r) && multiset(r) == multiset(sorted) + multiset{x}
  {
    hide Ascending;
    var i := 0;
    while i < |sorted| && sorted[i] < x
      invariant 0 <= i <= |sorted| && forall j :: 0 <= j < i ==> sorted[j] < x
    {
      i := i + 1;
    }
    r := sorted[..i] + [x] + sorted[i..];
    InsertedIsAscending(sorted, x, i);
    InsertedElements(sorted, x, i);
  }

  lemma InsertedElements(sorted: seq<real>, x: real, i: nat)
    requires i <= |sorted|
    ensures multiset(sorted[..i] + [x] + sorted[i..]) == multiset(sorted) + multiset{x}
  {
    assert sorted == sorted[..i] + sorted[i..];
  }

  lemma InsertedIsAscending(sorted: seq<real>, x: real, i: nat)
    requires Ascending(sorted) && i <= |sorted|
    requires (forall j :: 0 <= j < i ==> sorted[j] < x) && (i < |sorted| ==> x <= sorted[i])
    ensures Ascending(sorted[..i] + [x] + sorted[i..])
  {
    var r := sorted[..i] + [x] + sorted[i..];
    forall j, k | 0 <= j < k < |r| ensures r[j] <= r[k] {
      var j', k' := if j < i then j else j - 1, if k < i then k else k - 1;
      assert j != i ==> r[j] == sorted[j'];
      assert k != i ==> r[k] == sorted[k'];
    }
  }

  /** The least integer that is at least `x` (math.Ceil). */
  function Ceil(x: real): (r: int)
    ensures x <= r as real < x + 1.0
  {
    -((-x).Floor)
  }
}
