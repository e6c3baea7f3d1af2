/** Occurrence numbers in sequences, and sizes of index sets. */
module Counting {

  predicate NoDup<T(==)>(s: seq<T>) {
    forall i, j :: 0 <= i < j < |s| ==> s[i] != s[j]
  }

  /** How many times s[i] occurs before position i. */
  function Occ<T(==)>(s: seq<T>, i: nat): nat
    requires i < |s|
  {
    multiset(s[..i])[s[i]]
  }

  lemma TakeNext<T>(s: seq<T>, n: nat)
    requires n < |s|
    ensures multiset(s[..n + 1]) == multiset(s[..n]) + multiset{s[n]}
  {
    assert s[..n + 1] == s[..n] + [s[n]];
  }

  lemma {:induction false} OccLess<T>(s: seq<T>, i: nat, n: nat)
    requires i < n <= |s|
    ensures Occ(s, i) < multiset(s[..n])[s[i]]
    decreases n
  {
    TakeNext(s, n - 1);
    if i < n - 1 {
      OccLess(s, i, n - 1);
    }
  }

  /** Equal elements have different occurrence numbers. */
  lemma OccInjective<T>(s: seq<T>, i: nat, j: nat)
    requires i < |s| && j < |s| && s[i] == s[j] && Occ(s, i) == Occ(s, j)
    ensures i == j
  {
    if i < j {
      OccLess(s, i, j);
    } else if j < i {
      OccLess(s, j, i);
    }
  }

  /** Every occurrence number below the count is taken. */
  lemma {:induction false} OccReached<T>(s: seq<T>, x: T, k: nat, n: nat) returns (i: nat)
    requires n <= |s| && k < multiset(s[..n])[x]
    ensures i < n && s[i] == x && Occ(s, i) == k
    decreases n
  {
    TakeNext(s, n - 1);
    if k < multiset(s[..n - 1])[x] {
      i := OccReached(s, x, k, n - 1);
    } else {
      i := n - 1;
    }
  }

  function Min(a: nat, b: nat): nat {
    if a <= b then a else b
  }

  /** The first `m` occurrences of x in s. */
  ghost function FirstFew<T>(s: seq<T>, x: T, m: nat): set<nat> {
    set i: nat | i < |s| && s[i] == x && Occ(s, i) < m
  }

  /** The occurrences of x in s after the first `m`. */
  ghost function Later<T>(s: seq<T>, x: T, m: nat): set<nat> {
    set i: nat | i < |s| && s[i] == x && Occ(s, i) >= m
  }

  lemma FirstFewStep<T>(s: seq<T>, x: T, m: nat)
    requires s != []
    ensures FirstFew(s, x, m) == FirstFew(s[..|s| - 1], x, m)
                                 + if s[|s| - 1] == x && Occ(s, |s| - 1) < m then {|s| - 1} else {}
  {
    var t := s[..|s| - 1];
    forall i: nat | i < |t| ensures t[i] == s[i] && Occ(s, i) == Occ(t, i) {
      assert t[..i] == s[..i];
    }
    hide Occ;
  }

  lemma {:induction false} CountFirstFew<T>(s: seq<T>, x: T, m: nat)
    ensures |FirstFew(s, x, m)| == Min(multiset(s)[x], m)
  {
    hide FirstFew;
    if s == [] {
      EmptyFirstFew(s, x, m);
    } else {
      var n := |s| - 1;
      CountFirstFew(s[..n], x, m);
      FirstFewStep(s, x, m);
      InRange(s[..n], x, m);
      assert s[..n + 1] == s;
      TakeNext(s, n);
    }
  }

  lemma EmptyFirstFew<T>(s: seq<T>, x: T, m: nat)
    requires s == []
    ensures FirstFew(s, x, m) == {}
  {
  }

  lemma InRange<T>(s: seq<T>, x: T, m: nat)
    ensures forall i :: i in FirstFew(s, x, m) ==> i < |s|
  {
  }

  lemma CountLater<T>(s: seq<T>, x: T, m: nat)
    ensures |Later(s, x, m)| == multiset(s)[x] - Min(multiset(s)[x], m)
  {
    var all := multiset(s)[x];
    CountFirstFew(s, x, m);
    CountFirstFew(s, x, all);
    forall i: nat | i < |s| && s[i] == x ensures Occ(s, i) < all {
      assert s[..|s|] == s;
      OccLess(s, i, |s|);
    }
    assert FirstFew(s, x, all) == FirstFew(s, x, m) + Later(s, x, m);
    assert FirstFew(s, x, m) !! Later(s, x, m);
  }

  /** Naming the elements of an index set by distinct names keeps its size. */
  lemma {:induction false} ImageSize<T>(indices: set<nat>, names: seq<T>)
    requires NoDup(names) && forall i :: i in indices ==> i < |names|
    ensures |set i | i in indices :: names[i]| == |indices|
  {
    if indices != {} {
      var k :| k in indices;
      ImageSize(indices - {k}, names);
      var image := set i | i in indices - {k} :: names[i];
      assert names[k] !in image;
      assert (set i | i in indices :: names[i]) == image + {names[k]};
    }
  }

  /** The indices below n. */
  function Below(n: nat): (r: set<nat>)
    ensures forall i: int :: i in r <==> 0 <= i < n
    ensures |r| == n
  {
    if n == 0 then {} else Below(n - 1) + {n - 1}
  }

  lemma SubsetSize<T>(a: set<T>, b: set<T>)
    requires a <= b
    ensures |a| <= |b|
  {
    assert b == a + (b - a);
  }

  lemma DistinctBelow(values: seq<nat>, n: nat)
    requires NoDup(values) && forall i :: 0 <= i < |values| ==> values[i] < n
    ensures |values| <= n
  {
    ImageSize(Below(|values|), values);
    SubsetSize(set i | i in Below(|values|) :: values[i], Below(n));
  }
}
