/** Retrieval metrics of the two evaluators (cmd/eval/main.go, cmd/beir_eval/main.go). Numbers are reals. */
module Metrics {
  import opened Text

  /** 1 / log2(i + 2), known only as positive and strictly falling. */
  type Discount = nat -> real

  ghost predicate IsDiscount(d: Discount) {
    && (forall i: nat :: d(i) > 0.0)
    && (forall i: nat, j: nat :: i < j ==> d(i) > d(j))
  }

  function Gain(rel: int, d: real): real {
    if rel <= 0 then 0.0 else rel as real * d
  }

  function Dcg(rels: seq<int>, d: Discount): real {
    if rels == [] then 0.0 else Dcg(rels[..|rels| - 1], d) + Gain(rels[|rels| - 1], d(|rels| - 1))
  }

  function Idcg(n: nat, d: Discount): real {
    if n == 0 then 0.0 else Idcg(n - 1, d) + d(n - 1)
  }

  function IdealCount(rels: seq<int>, total: int): nat {
    if total <= 0 then 0 else if total > |rels| then |rels| else total
  }

  /** The quotient before any clamp. */
  function RawNdcg(rels: seq<int>, total: int, d: Discount): real {
    var ideal := Idcg(IdealCount(rels, total), d);
    if rels == [] || total <= 0 || ideal == 0.0 then 0.0 else Dcg(rels, d) / ideal
  }

  /** The loops of calcNDCG, the same in both evaluators. */
  method DcgOverIdcg(rels: seq<int>, total: int, d: Discount) returns (ndcg: real)
    requires IsDiscount(d)
    ensures ndcg == RawNdcg(rels, total, d)
  {
    if |rels| == 0 || total <= 0 {
      return 0.0;
    }
    var dcg := 0.0;
    for i := 0 to |rels|
      invariant dcg == Dcg(rels[..i], d)
    {
      assert rels[..i + 1][..i] == rels[..i];
      if rels[i] <= 0 {
        continue;
      }
      dcg := dcg + rels[i] as real * d(i);
    }
    assert rels[..|rels|] == rels;
    var idealCount := total;
    if idealCount > |rels| {
      idealCount := |rels|;
    }
    var idcg := 0.0;
    for i := 0 to idealCount
      invariant idcg == Idcg(i, d)
    {
      idcg := idcg + d(i);
    }
    if idcg == 0.0 {
      return 0.0;
    }
    return dcg / idcg;
  }

  method CalcNdcg(rels: seq<int>, total: int, d: Discount) returns (ndcg: real)
    requires IsDiscount(d)
    ensures ndcg == if RawNdcg(rels, total, d) > 1.0 then 1.0 else RawNdcg(rels, total, d)
  {
    ndcg := DcgOverIdcg(rels, total, d);
    if ndcg > 1.0 {
      return 1.0;
    }
  }

  // ---------------------------------------------------------------- the rearrangement inequality

  predicate Binary(rels: seq<int>) {
    forall i :: 0 <= i < |rels| ==> rels[i] == 0 || rels[i] == 1
  }

  function Ones(rels: seq<int>): nat {
    if rels == [] then 0 else Ones(rels[..|rels| - 1]) + if rels[|rels| - 1] == 1 then 1 else 0
  }

  /** All hits come first. */
  predicate OnesFirst(rels: seq<int>) {
    forall i :: 0 <= i < |rels| ==> (rels[i] == 1 <==> i < Ones(rels))
  }

  lemma {:induction false} IdcgMono(a: nat, b: nat, d: Discount)
    requires IsDiscount(d) && a <= b
    ensures Idcg(a, d) <= Idcg(b, d)
    ensures a < b ==> Idcg(a, d) < Idcg(b, d)
    ensures Idcg(a, d) >= 0.0
    decreases b
  {
    if a < b {
      IdcgMono(a, b - 1, d);
    } else if a > 0 {
      IdcgMono(a - 1, a - 1, d);
    }
  }

  lemma {:induction false} OnesAtMost(rels: seq<int>)
    ensures Ones(rels) <= |rels|
  {
    if rels != [] {
      OnesAtMost(rels[..|rels| - 1]);
    }
  }

  /** h hits are worth at most h hits at the top, and exactly that only when they are at the top. */
  lemma {:induction false} DcgAtMostIdeal(rels: seq<int>, d: Discount)
    requires Binary(rels) && IsDiscount(d)
    ensures Dcg(rels, d) <= Idcg(Ones(rels), d)
    ensures Dcg(rels, d) == Idcg(Ones(rels), d) <==> OnesFirst(rels)
  {
    if rels == [] {
      assert OnesFirst(rels) && Dcg(rels, d) == Idcg(Ones(rels), d) == 0.0;
    } else {
      hide Dcg, Idcg, Ones, Gain, OnesFirst, IsDiscount;
      var n := |rels| - 1;
      var before := rels[..n];
      DcgAtMostIdeal(before, d);
      OnesAtMost(before);
      OnesFirstNext(rels);
      DcgNext(rels, d);
      LastGain(rels, d);
      DiscountFalls(d, Ones(before), n);
      IdcgNext(Ones(before), d);
    }
  }

  lemma LastGain(rels: seq<int>, d: Discount)
    requires rels != [] && Binary(rels)
    ensures var n := |rels| - 1;
            && Gain(rels[n], d(n)) == (if rels[n] == 1 then d(n) else 0.0)
            && Ones(rels) == Ones(rels[..n]) + if rels[n] == 1 then 1 else 0
  {
  }

  lemma DiscountFalls(d: Discount, i: nat, j: nat)
    requires IsDiscount(d) && i <= j
    ensures d(i) >= d(j) && (d(i) == d(j) <==> i == j)
  {
  }

  lemma IdcgNext(n: nat, d: Discount)
    ensures Idcg(n + 1, d) == Idcg(n, d) + d(n)
  {
  }

  lemma OnesFirstNext(rels: seq<int>)
    requires rels != []
    ensures OnesFirst(rels) <==>
            OnesFirst(rels[..|rels| - 1]) && (rels[|rels| - 1] == 1 ==> Ones(rels[..|rels| - 1]) == |rels| - 1)
  {
    var n := |rels| - 1;
    var before := rels[..n];
    OnesAtMost(before);
    assert forall i :: 0 <= i < n ==> before[i] == rels[i];
    assert Ones(rels) == Ones(before) + if rels[n] == 1 then 1 else 0;
    if OnesFirst(before) && (rels[n] == 1 ==> Ones(before) == n) {
      assert OnesFirst(rels);
    }
    if OnesFirst(rels) {
      if rels[n] == 1 {
        assert n < Ones(rels);
      }
      forall i | 0 <= i < n ensures before[i] == 1 <==> i < Ones(before) {
        assert rels[i] == 1 <==> i < Ones(rels);
      }
    }
  }

  /** nDCG lies between 0 and 1 whenever no more hits are counted than there are relevant documents, and
      it is 1 exactly for an ideal list. */
  lemma NdcgBounds(rels: seq<int>, total: nat, d: Discount)
    requires Binary(rels) && IsDiscount(d) && Ones(rels) <= total
    ensures 0.0 <= RawNdcg(rels, total, d) <= 1.0
    ensures rels != [] && total > 0 ==>
              (RawNdcg(rels, total, d) == 1.0 <==> Ones(rels) == IdealCount(rels, total) && OnesFirst(rels))
  {
    OnesAtMost(rels);
    DcgAtMostIdeal(rels, d);
    DcgNonnegative(rels, d);
    if rels != [] && total > 0 {
      IdcgMono(0, IdealCount(rels, total), d);
      IdcgMono(Ones(rels), IdealCount(rels, total), d);
      Quotient(Dcg(rels, d), Idcg(IdealCount(rels, total), d));
    }
  }

  lemma Quotient(a: real, b: real)
    requires 0.0 <= a <= b && b > 0.0
    ensures 0.0 <= a / b <= 1.0
    ensures a / b == 1.0 <==> a == b
  {
    assert a / b * b == a;
  }

  lemma {:induction false} DcgNonnegative(rels: seq<int>, d: Discount)
    requires Binary(rels) && IsDiscount(d)
    ensures Dcg(rels, d) >= 0.0
  {
    if rels != [] {
      DcgNonnegative(rels[..|rels| - 1], d);
    }
  }

  // ---------------------------------------------------------------- cmd/eval

  datatype Reference = Reference(id: string, source: string, content: string)

  datatype Scores = Scores(recall: real, precision: real, hit: real, mrr: real, ndcg: real, labeled: bool)

  /** normalizeForMatch: any function on strings will do. */
  type Norm = string -> string

  function GoldSet(gold: seq<string>, norm: Norm): (r: set<string>)
    ensures forall g :: g in r <==> g != "" && exists i :: 0 <= i < |gold| && norm(gold[i]) == g
  {
    set g | g in gold && norm(g) != "" :: norm(g)
  }

  /** Go strings are bytes: a long content is cut after 256 of them, even inside a character. */
  function ReferenceKey(r: Reference, norm: Norm): seq<nat> {
    var content := Bytes(norm(r.content));
    if norm(r.id) != "" then Bytes(norm(r.id))
    else if norm(r.source) != "" then Bytes(norm(r.source))
    else if |content| > 256 then content[..256]
    else content
  }

  /** The first name that is not empty tells references apart, but for contents that agree in 256 bytes. */
  lemma KeyTellsApart(r: Reference, q: Reference, norm: Norm)
    ensures norm(r.id) != "" && norm(q.id) != "" ==>
              (ReferenceKey(r, norm) == ReferenceKey(q, norm) <==> norm(r.id) == norm(q.id))
    ensures norm(r.id) == norm(q.id) == "" && norm(r.source) != "" && norm(q.source) != "" ==>
              (ReferenceKey(r, norm) == ReferenceKey(q, norm) <==> norm(r.source) == norm(q.source))
    ensures norm(r.id) == norm(q.id) == "" && norm(r.source) == norm(q.source) == "" ==>
              var a, b := Bytes(norm(r.content)), Bytes(norm(q.content));
              ReferenceKey(r, norm) == ReferenceKey(q, norm) <==>
              a == b || (|a| >= 256 && |b| >= 256 && a[..256] == b[..256])
    ensures ReferenceKey(r, norm) == [] <==> norm(r.id) == "" && norm(r.source) == "" && norm(r.content) == ""
  {
    hide Bytes, ByteLen;
    BytesInjective(norm(r.id), norm(q.id));
    BytesInjective(norm(r.source), norm(q.source));
    var a, b := Bytes(norm(r.content)), Bytes(norm(q.content));
    assert a[..|a|] == a && b[..|b|] == b;
    NoBytes(norm(r.id));
    NoBytes(norm(r.source));
    NoBytes(norm(r.content));
  }

  lemma NoBytes(s: string)
    ensures Bytes(s) == [] <==> s == ""
  {
  }

  /** Whether one gold item matches a reference. */
  predicate Hits(g: string, r: Reference, norm: Norm) {
    exists t :: t in [norm(r.id), norm(r.source), norm(r.content)] && t != "" && (t == g || Index(t, g) >= 0)
  }

  function Matches(gold: set<string>, r: Reference, norm: Norm): set<string> {
    set g | g in gold && Hits(g, r, norm)
  }

  /** `g` stands somewhere in `t`. */
  ghost predicate HeldBy(g: string, t: string) {
    exists a, b :: t == a + g + b
  }

  /** The gold item stands in a name of the reference, not the other way round. */
  lemma HitsIff(g: string, r: Reference, norm: Norm)
    ensures Hits(g, r, norm) <==>
            || (norm(r.id) != "" && HeldBy(g, norm(r.id)))
            || (norm(r.source) != "" && HeldBy(g, norm(r.source)))
            || (norm(r.content) != "" && HeldBy(g, norm(r.content)))
  {
    hide Index;
    FoundIff(g, norm(r.id));
    FoundIff(g, norm(r.source));
    FoundIff(g, norm(r.content));
    var targets := [norm(r.id), norm(r.source), norm(r.content)];
    assert targets[0] in targets && targets[1] in targets && targets[2] in targets;
  }

  lemma FoundIff(g: string, t: string)
    ensures t == g || Index(t, g) >= 0 <==> HeldBy(g, t)
  {
    hide Index;
    var i := Index(t, g);
    if t == g {
      assert t == "" + g + "";
    } else if i >= 0 {
      assert t == t[..i] + g + t[i + |g|..];
    }
    if HeldBy(g, t) {
      var a, b :| t == a + g + b;
      assert OccursAt(t, g, |a|);
    }
  }

  method MatchGoldToReference(gold: set<string>, r: Reference, norm: Norm) returns (matches: set<string>)
    ensures matches == Matches(gold, r, norm)
    ensures forall g :: g in matches <==>
                && g in gold
                && (|| (norm(r.id) != "" && HeldBy(g, norm(r.id)))
                    || (norm(r.source) != "" && HeldBy(g, norm(r.source)))
                    || (norm(r.content) != "" && HeldBy(g, norm(r.content))))
  {
    hide Hits, HeldBy;
    forall g ensures Hits(g, r, norm) <==>
                     || (norm(r.id) != "" && HeldBy(g, norm(r.id)))
                     || (norm(r.source) != "" && HeldBy(g, norm(r.source)))
                     || (norm(r.content) != "" && HeldBy(g, norm(r.content)))
    {
      HitsIff(g, r, norm);
    }
    matches := {};
    var todo := gold;
    while todo != {}
      invariant todo <= gold && matches == Matches(gold - todo, r, norm)
      decreases |todo|
    {
      var g :| g in todo;
      var hit := MatchTargets(g, r, norm);
      if hit {
        matches := matches + {g};
      }
      todo := todo - {g};
    }
    assert gold - todo == gold;
  }

  /** The loop over the three names. */
  method MatchTargets(g: string, r: Reference, norm: Norm) returns (hit: bool)
    ensures hit == Hits(g, r, norm)
  {
    hide Index;
    var targets := [norm(r.id), norm(r.source), norm(r.content)];
    for i := 0 to |targets|
      invariant forall k :: 0 <= k < i ==> targets[k] == "" || (targets[k] != g && Index(targets[k], g) < 0)
    {
      if targets[i] == "" {
        continue;
      }
      if targets[i] == g || Index(targets[i], g) >= 0 {
        assert targets[i] in targets;
        return true;
      }
    }
    assert forall t :: t in targets ==> t == targets[0] || t == targets[1] || t == targets[2];
    return false;
  }

  /** The references with a key that none before them has. */
  function Distinct(refs: seq<Reference>, norm: Norm): seq<Reference> {
    if refs == [] then []
    else
      var n := |refs| - 1;
      var key := ReferenceKey(refs[n], norm);
      Distinct(refs[..n], norm)
      + if key != [] && forall j :: 0 <= j < n ==> ReferenceKey(refs[j], norm) != key then [refs[n]] else []
  }

  method Deduplicate(refs: seq<Reference>, norm: Norm) returns (retrieved: seq<Reference>)
    ensures retrieved == Distinct(refs, norm)
  {
    hide ReferenceKey;
    retrieved := [];
    var seen: set<seq<nat>> := {};
    for i := 0 to |refs|
      invariant retrieved == Distinct(refs[..i], norm)
      invariant forall key :: key in seen <==> key != [] && exists j :: 0 <= j < i && ReferenceKey(refs[j], norm) == key
    {
      assert refs[..i + 1][..i] == refs[..i];
      var key := ReferenceKey(refs[i], norm);
      if key == [] {
        continue;
      }
      if key in seen {
        continue;
      }
      seen := seen + {key};
      retrieved := retrieved + [refs[i]];
    }
    assert refs[..|refs|] == refs;
  }

  /** No two of the references have the same key, and none has an empty one. */
  predicate KeysApart(refs: seq<Reference>, norm: Norm) {
    && (forall i, j :: 0 <= i < j < |refs| ==> ReferenceKey(refs[i], norm) != ReferenceKey(refs[j], norm))
    && forall i :: 0 <= i < |refs| ==> ReferenceKey(refs[i], norm) != []
  }

  predicate HasKey(refs: seq<Reference>, norm: Norm, key: seq<nat>) {
    exists i :: 0 <= i < |refs| && ReferenceKey(refs[i], norm) == key
  }

  /** Of every key but the empty one exactly one reference is kept. */
  lemma {:induction false} DistinctKeys(refs: seq<Reference>, norm: Norm)
    ensures KeysApart(Distinct(refs, norm), norm)
    ensures forall key :: key != [] ==> (HasKey(Distinct(refs, norm), norm, key) <==> HasKey(refs, norm, key))
  {
    hide ReferenceKey, Distinct, KeysApart, HasKey;
    NoKeys(norm);
    if refs != [] {
      var n := |refs| - 1;
      var before, r := refs[..n], refs[n];
      var key := ReferenceKey(r, norm);
      assert refs == before + [r];
      DistinctKeys(before, norm);
      DistinctNext(before, r, norm);
      forall k | k != []
        ensures HasKey(refs, norm, k) <==> HasKey(before, norm, k) || k == key
        ensures HasKey(Distinct(before, norm) + [r], norm, k) <==> HasKey(before, norm, k) || k == key
      {
        HasKeyNext(before, r, norm, k);
        HasKeyNext(Distinct(before, norm), r, norm, k);
      }
      if key != [] && !HasKey(before, norm, key) {
        StillApart(Distinct(before, norm), r, norm);
      }
    }
  }

  lemma NoKeys(norm: Norm)
    ensures Distinct([], norm) == [] && KeysApart([], norm)
  {
  }

  lemma DistinctNext(refs: seq<Reference>, r: Reference, norm: Norm)
    ensures Distinct(refs + [r], norm)
            == if ReferenceKey(r, norm) == [] || HasKey(refs, norm, ReferenceKey(r, norm)) then Distinct(refs, norm)
               else Distinct(refs, norm) + [r]
  {
    hide ReferenceKey;
    var all := refs + [r];
    assert all[..|refs|] == refs && all[|refs|] == r;
    assert forall j :: 0 <= j < |refs| ==> all[j] == refs[j];
  }

  lemma StillApart(refs: seq<Reference>, r: Reference, norm: Norm)
    requires KeysApart(refs, norm) && ReferenceKey(r, norm) != [] && !HasKey(refs, norm, ReferenceKey(r, norm))
    ensures KeysApart(refs + [r], norm)
  {
    hide ReferenceKey;
  }

  lemma HasKeyNext(refs: seq<Reference>, r: Reference, norm: Norm, key: seq<nat>)
    ensures HasKey(refs + [r], norm, key) <==> HasKey(refs, norm, key) || ReferenceKey(r, norm) == key
  {
    hide ReferenceKey;
    var all := refs + [r];
    assert all[|refs|] == r;
    assert forall i :: 0 <= i < |refs| ==> all[i] == refs[i];
  }

  /** The gold items matched by any of the references. */
  function Covered(gold: set<string>, refs: seq<Reference>, norm: Norm): set<string> {
    if refs == [] then {} else Covered(gold, refs[..|refs| - 1], norm) + Matches(gold, refs[|refs| - 1], norm)
  }

  /** A reference is relevant when it matches a gold item that none before it has matched. */
  function Relevance(gold: set<string>, refs: seq<Reference>, norm: Norm): (r: seq<int>)
    ensures |r| == |refs| && Binary(r)
  {
    if refs == [] then []
    else
      var before := refs[..|refs| - 1];
      Relevance(gold, before, norm)
      + [if Matches(gold, refs[|refs| - 1], norm) <= Covered(gold, before, norm) then 0 else 1]
  }

  lemma {:induction false} CoveredIff(gold: set<string>, refs: seq<Reference>, norm: Norm, g: string)
    ensures g in Covered(gold, refs, norm) <==> g in gold && exists i :: 0 <= i < |refs| && Hits(g, refs[i], norm)
  {
    hide Hits;
    if refs != [] {
      var n := |refs| - 1;
      CoveredIff(gold, refs[..n], norm, g);
    }
  }

  /** A reference counts exactly when it matches a gold item that no reference before it matches. */
  lemma {:induction false} RelevanceIff(gold: set<string>, refs: seq<Reference>, norm: Norm, i: nat)
    requires i < |refs|
    ensures Relevance(gold, refs, norm)[i] == 1 <==>
            exists g :: g in gold && Hits(g, refs[i], norm) && forall j :: 0 <= j < i ==> !Hits(g, refs[j], norm)
  {
    hide Hits;
    var n := |refs| - 1;
    var before := refs[..n];
    if i < n {
      RelevanceIff(gold, before, norm, i);
    } else {
      forall g ensures g in Covered(gold, before, norm) <==>
                       g in gold && exists j :: 0 <= j < |before| && Hits(g, before[j], norm)
      {
        CoveredIff(gold, before, norm, g);
      }
    }
  }

  /** Each hit uses up a gold item. */
  lemma {:induction false} HitsConsumeGold(gold: set<string>, refs: seq<Reference>, norm: Norm)
    ensures Ones(Relevance(gold, refs, norm)) <= |Covered(gold, refs, norm)| <= |gold|
    ensures Covered(gold, refs, norm) <= gold
    ensures Ones(Relevance(gold, refs, norm)) == 0 <==> Covered(gold, refs, norm) == {}
  {
    hide Hits;
    if refs == [] {
      assert Relevance(gold, refs, norm) == [];
    } else {
      var before, r := refs[..|refs| - 1], refs[|refs| - 1];
      HitsConsumeGold(gold, before, norm);
      var rels := Relevance(gold, refs, norm);
      assert rels[..|rels| - 1] == Relevance(gold, before, norm);
      var old', new' := Covered(gold, before, norm), Covered(gold, refs, norm);
      Sizes(old', new');
      Sizes(new', gold);
    }
  }

  lemma Sizes<T>(a: set<T>, b: set<T>)
    requires a <= b
    ensures |a| <= |b| && (a != b ==> |a| < |b|)
  {
    assert b == a + (b - a);
    assert b - a == {} ==> a == b;
  }

  /** What the evaluator should report for the distinct references and a non-empty gold set. */
  ghost predicate IsReport(gold: set<string>, refs: seq<Reference>, norm: Norm, d: Discount, s: Scores)
    requires gold != {} && refs != []
  {
    var covered, rels := Covered(gold, refs, norm), Relevance(gold, refs, norm);
    && s.labeled
    && s.recall == |covered| as real / |gold| as real && 0.0 <= s.recall <= 1.0
    && s.precision == Ones(rels) as real / |refs| as real && 0.0 <= s.precision <= 1.0
    && (if covered == {} then s.hit == 0.0 && s.mrr == 0.0
        else s.hit == 1.0 && exists i :: IsFirstMatch(gold, refs, norm, i) && s.mrr == 1.0 / (i + 1) as real)
    && s.ndcg == RawNdcg(rels, |gold|, d) && 0.0 <= s.ndcg <= 1.0
  }

  /** The first reference that matches anything. */
  ghost predicate IsFirstMatch(gold: set<string>, refs: seq<Reference>, norm: Norm, i: nat) {
    && i < |refs| && Matches(gold, refs[i], norm) != {}
    && forall j :: 0 <= j < i ==> Matches(gold, refs[j], norm) == {}
  }

  /** The loop's state after the references `refs`. */
  ghost predicate Scanned(gold: set<string>, refs: seq<Reference>, norm: Norm,
                          relevant: nat, firstRank: int, rels: seq<int>, matched: set<string>) {
    Tallied(gold, refs, norm, relevant, rels, matched) && Ranked(gold, refs, norm, relevant, firstRank)
  }

  ghost predicate Tallied(gold: set<string>, refs: seq<Reference>, norm: Norm, relevant: nat, rels: seq<int>,
                          matched: set<string>) {
    rels == Relevance(gold, refs, norm) && matched == Covered(gold, refs, norm) && relevant == Ones(rels)
  }

  ghost predicate Ranked(gold: set<string>, refs: seq<Reference>, norm: Norm, relevant: nat, firstRank: int) {
    && (firstRank == -1 ==> forall j :: 0 <= j < |refs| ==> Matches(gold, refs[j], norm) == {})
    && (firstRank == -1 <==> relevant == 0)
    && (firstRank != -1 ==> firstRank >= 1 && IsFirstMatch(gold, refs, norm, firstRank - 1))
  }

  lemma TallyNext(gold: set<string>, refs: seq<Reference>, norm: Norm, n: nat, relevant: nat, rels: seq<int>,
                  matched: set<string>)
    requires n < |refs| && Tallied(gold, refs[..n], norm, relevant, rels, matched)
    ensures var m := Matches(gold, refs[n], norm);
            if m <= matched then Tallied(gold, refs[..n + 1], norm, relevant, rels + [0], matched)
            else Tallied(gold, refs[..n + 1], norm, relevant + 1, rels + [1], matched + m)
  {
    hide Matches;
    assert refs[..n + 1][..n] == refs[..n];
    var m := Matches(gold, refs[n], norm);
    assert (rels + [0])[..|rels|] == rels && (rels + [1])[..|rels|] == rels;
    if m <= matched {
      assert matched + m == matched;
    }
  }

  lemma RankNext(gold: set<string>, refs: seq<Reference>, norm: Norm, n: nat, relevant: nat, firstRank: int,
                 matched: set<string>)
    requires n < |refs| && Ranked(gold, refs[..n], norm, relevant, firstRank) && (relevant == 0 <==> matched == {})
    ensures if Matches(gold, refs[n], norm) <= matched then Ranked(gold, refs[..n + 1], norm, relevant, firstRank)
            else Ranked(gold, refs[..n + 1], norm, relevant + 1, if firstRank == -1 then n + 1 else firstRank)
  {
    hide Matches;
  }

  lemma ScanNext(gold: set<string>, refs: seq<Reference>, norm: Norm, n: nat,
                 relevant: nat, firstRank: int, rels: seq<int>, matched: set<string>)
    requires n < |refs| && Scanned(gold, refs[..n], norm, relevant, firstRank, rels, matched)
    ensures var m := Matches(gold, refs[n], norm);
            if m <= matched then Scanned(gold, refs[..n + 1], norm, relevant, firstRank, rels + [0], matched)
            else Scanned(gold, refs[..n + 1], norm, relevant + 1, if firstRank == -1 then n + 1 else firstRank,
                         rels + [1], matched + m)
  {
    HitsConsumeGold(gold, refs[..n], norm);
    assert relevant == 0 <==> matched == {};
    hide Matches, Tallied, Ranked;
    TallyNext(gold, refs, norm, n, relevant, rels, matched);
    RankNext(gold, refs, norm, n, relevant, firstRank, matched);
  }

  /** retrievalMetrics of cmd/eval. The clamp inside CalcNdcg never acts. */
  method RetrievalMetrics(goldDocs: seq<string>, refs: seq<Reference>, norm: Norm, d: Discount) returns (s: Scores)
    requires IsDiscount(d)
    ensures GoldSet(goldDocs, norm) == {} ==> s == Scores(0.0, 0.0, 0.0, 0.0, 0.0, false)
    ensures GoldSet(goldDocs, norm) != {} && Distinct(refs, norm) == [] ==> s == Scores(0.0, 0.0, 0.0, 0.0, 0.0, true)
    ensures GoldSet(goldDocs, norm) != {} && Distinct(refs, norm) != [] ==>
              IsReport(GoldSet(goldDocs, norm), Distinct(refs, norm), norm, d, s)
  {
    hide Scanned, Distinct, Matches, IsDiscount;
    if |goldDocs| == 0 {
      return Scores(0.0, 0.0, 0.0, 0.0, 0.0, false);
    }
    var gold := GoldSet(goldDocs, norm);
    if |gold| == 0 {
      return Scores(0.0, 0.0, 0.0, 0.0, 0.0, false);
    }
    var retrieved := Deduplicate(refs, norm);
    if |retrieved| == 0 {
      return Scores(0.0, 0.0, 0.0, 0.0, 0.0, true);
    }
    var relevant, firstRank, rels, matched := ScanAll(gold, retrieved, norm);
    var recall := |matched| as real / |gold| as real;
    var precision := relevant as real / |retrieved| as real;
    var hit, mrr := 0.0, 0.0;
    if relevant > 0 {
      hit := 1.0;
      assert firstRank != -1 by {
        RankKnown(gold, retrieved, norm, relevant, firstRank, rels, matched);
      }
      mrr := 1.0 / firstRank as real;
    }
    var ndcg := CalcNdcg(rels, |gold|, d);
    s := Scores(recall, precision, hit, mrr, ndcg, true);
    ReportMeets(gold, retrieved, norm, d, relevant, firstRank, rels, matched, s);
  }

  /** The loop over the retrieved references. */
  method ScanAll(gold: set<string>, retrieved: seq<Reference>, norm: Norm)
    returns (relevant: nat, firstRank: int, rels: seq<int>, matched: set<string>)
    ensures Scanned(gold, retrieved, norm, relevant, firstRank, rels, matched)
    ensures firstRank == -1 || firstRank >= 1
  {
    hide Scanned, Matches;
    relevant, firstRank, rels, matched := 0, -1, [], {};
    ScanNone(gold, norm);
    for idx := 0 to |retrieved|
      invariant Scanned(gold, retrieved[..idx], norm, relevant, firstRank, rels, matched)
      invariant firstRank == -1 || firstRank >= 1
    {
      ScanNext(gold, retrieved, norm, idx, relevant, firstRank, rels, matched);
      var m := MatchGoldToReference(gold, retrieved[idx], norm);
      if m <= matched {
        rels := rels + [0];
      } else {
        relevant := relevant + 1;
        rels := rels + [1];
        if firstRank == -1 {
          firstRank := idx + 1;
        }
        matched := matched + m;
      }
    }
    assert retrieved[..|retrieved|] == retrieved;
  }

  lemma ScanNone(gold: set<string>, norm: Norm)
    ensures forall refs: seq<Reference> :: refs == [] ==> Scanned(gold, refs, norm, 0, -1, [], {})
  {
  }

  lemma RankKnown(gold: set<string>, refs: seq<Reference>, norm: Norm,
                  relevant: nat, firstRank: int, rels: seq<int>, matched: set<string>)
    requires Scanned(gold, refs, norm, relevant, firstRank, rels, matched)
    ensures firstRank == -1 <==> relevant == 0
  {
  }

  lemma Fraction(a: nat, b: nat)
    requires a <= b && b > 0
    ensures 0.0 <= a as real / b as real <= 1.0
  {
    Quotient(a as real, b as real);
  }

  lemma ReportMeets(gold: set<string>, refs: seq<Reference>, norm: Norm, d: Discount,
                    relevant: nat, firstRank: int, rels: seq<int>, matched: set<string>, s: Scores)
    requires IsDiscount(d) && gold != {} && refs != []
    requires Scanned(gold, refs, norm, relevant, firstRank, rels, matched)
    requires s.labeled && s.recall == |matched| as real / |gold| as real
              && s.precision == relevant as real / |refs| as real
    requires if relevant > 0 then s.hit == 1.0 && firstRank >= 1 && s.mrr == 1.0 / firstRank as real
              else s.hit == s.mrr == 0.0
    requires s.ndcg == if RawNdcg(rels, |gold|, d) > 1.0 then 1.0 else RawNdcg(rels, |gold|, d)
    ensures IsReport(gold, refs, norm, d, s)
  {
    hide IsDiscount, RawNdcg, Covered, Relevance, Matches, Ones;
    HitsConsumeGold(gold, refs, norm);
    OnesAtMost(rels);
    NdcgBounds(rels, |gold|, d);
    Fraction(|matched|, |gold|);
    Fraction(relevant, |refs|);
    if relevant > 0 {
      assert IsFirstMatch(gold, refs, norm, firstRank - 1);
    }
  }

  // ---------------------------------------------------------------- cmd/beir_eval

  /** The BEIR evaluator's list: every occurrence of a gold id counts. */
  function BeirRelevance(gold: set<string>, ids: seq<string>): (r: seq<int>)
    ensures |r| == |ids| && Binary(r) && forall i :: 0 <= i < |r| ==> (r[i] == 1 <==> ids[i] in gold)
  {
    seq(|ids|, i requires 0 <= i < |ids| => if ids[i] in gold then 1 else 0)
  }

  /** The same with only the first occurrence of each gold id counted. */
  function FirstRelevance(gold: set<string>, ids: seq<string>): (r: seq<int>)
    ensures |r| == |ids| && Binary(r) && forall i :: 0 <= i < |r| ==>
              (r[i] == 1 <==> ids[i] in gold && ids[i] !in ids[..i])
  {
    seq(|ids|, i requires 0 <= i < |ids| => if ids[i] in gold && ids[i] !in ids[..i] then 1 else 0)
  }

  predicate GoldTwice(gold: set<string>, ids: seq<string>) {
    exists i, j :: 0 <= i < j < |ids| && ids[i] == ids[j] && ids[i] in gold
  }

  lemma {:induction false} FirstHitsConsumeGold(gold: set<string>, ids: seq<string>)
    ensures Ones(FirstRelevance(gold, ids)) == |set g | g in gold && g in ids|
  {
    hide FirstRelevance;
    if ids == [] {
      assert FirstRelevance(gold, ids) == [] && (set g | g in gold && g in ids) == {};
    } else {
      var n := |ids| - 1;
      var before := ids[..n];
      FirstHitsConsumeGold(gold, before);
      FirstNext(gold, ids);
      FirstMet(gold, before, ids[n]);
      assert ids == before + [ids[n]];
    }
  }

  lemma FirstNext(gold: set<string>, ids: seq<string>)
    requires ids != []
    ensures var n := |ids| - 1;
            Ones(FirstRelevance(gold, ids)) ==
            Ones(FirstRelevance(gold, ids[..n])) + if ids[n] in gold && ids[n] !in ids[..n] then 1 else 0
  {
    var n := |ids| - 1;
    var before, rels := ids[..n], FirstRelevance(gold, ids);
    assert rels[..n] == FirstRelevance(gold, before) by {
      assert forall i :: 0 <= i < n ==> before[..i] == ids[..i];
    }
  }

  lemma FirstMet(gold: set<string>, before: seq<string>, id: string)
    ensures |set g | g in gold && g in before + [id]|
            == |set g | g in gold && g in before| + if id in gold && id !in before then 1 else 0
  {
    var was, met := set g | g in gold && g in before, set g | g in gold && g in before + [id];
    assert met == if id in gold then was + {id} else was;
  }

  /** More relevant places are worth more. */
  lemma {:induction false} DcgMono(a: seq<int>, b: seq<int>, d: Discount)
    requires IsDiscount(d) && Binary(a) && Binary(b) && |a| == |b| && forall i :: 0 <= i < |a| ==> a[i] <= b[i]
    ensures Dcg(a, d) <= Dcg(b, d)
    ensures Dcg(a, d) == Dcg(b, d) <==> a == b
  {
    hide Gain, Dcg, IsDiscount;
    if a != [] {
      var n := |a| - 1;
      DcgMono(a[..n], b[..n], d);
      DiscountPositive(d, n);
      GainMono(a[n], b[n], d(n));
      DcgNext(a, d);
      DcgNext(b, d);
      assert a == a[..n] + [a[n]] && b == b[..n] + [b[n]];
    } else {
      assert b == [];
    }
  }

  lemma DcgNext(rels: seq<int>, d: Discount)
    requires rels != []
    ensures Dcg(rels, d) == Dcg(rels[..|rels| - 1], d) + Gain(rels[|rels| - 1], d(|rels| - 1))
  {
  }

  lemma DiscountPositive(d: Discount, i: nat)
    requires IsDiscount(d)
    ensures d(i) > 0.0
  {
  }

  lemma GainMono(x: int, y: int, dv: real)
    requires 0 <= x <= y <= 1 && dv > 0.0
    ensures Gain(x, dv) <= Gain(y, dv) && (Gain(x, dv) == Gain(y, dv) <==> x == y)
  {
  }

  /** Without the deduplication of the other evaluator, the BEIR nDCG is inflated exactly when a gold id
      is retrieved twice. Counting first occurrences only, it never exceeds 1. */
  lemma BeirNdcgExactIff(gold: set<string>, ids: seq<string>, d: Discount)
    requires IsDiscount(d) && gold != {}
    ensures RawNdcg(BeirRelevance(gold, ids), |gold|, d) >= RawNdcg(FirstRelevance(gold, ids), |gold|, d)
    ensures RawNdcg(BeirRelevance(gold, ids), |gold|, d) == RawNdcg(FirstRelevance(gold, ids), |gold|, d) <==>
            !GoldTwice(gold, ids)
    ensures 0.0 <= RawNdcg(FirstRelevance(gold, ids), |gold|, d) <= 1.0
    ensures !GoldTwice(gold, ids) ==> RawNdcg(BeirRelevance(gold, ids), |gold|, d) <= 1.0
  {
    var b, f := BeirRelevance(gold, ids), FirstRelevance(gold, ids);
    FirstHitsConsumeGold(gold, ids);
    var met := set g | g in gold && g in ids;
    Sizes(met, gold);
    NdcgBounds(f, |gold|, d);
    DcgMono(f, b, d);
    SameListsIff(gold, ids);
    if ids != [] {
      var ideal := Idcg(IdealCount(b, |gold|), d);
      IdcgMono(0, IdealCount(b, |gold|), d);
      Scaled(Dcg(f, d), Dcg(b, d), ideal);
    }
  }

  lemma Scaled(a: real, b: real, c: real)
    requires a <= b && c > 0.0
    ensures a / c <= b / c && (a / c == b / c <==> a == b)
  {
    assert a / c * c == a && b / c * c == b;
    if a < b {
      assert (b / c - a / c) * c > 0.0;
    }
  }

  lemma SameListsIff(gold: set<string>, ids: seq<string>)
    ensures FirstRelevance(gold, ids) == BeirRelevance(gold, ids) <==> !GoldTwice(gold, ids)
  {
    var b, f := BeirRelevance(gold, ids), FirstRelevance(gold, ids);
    forall j | 0 <= j < |ids| && f[j] != b[j] ensures GoldTwice(gold, ids) {
      var i :| 0 <= i < j && ids[..j][i] == ids[j];
    }
    if GoldTwice(gold, ids) {
      var i, j :| 0 <= i < j < |ids| && ids[i] == ids[j] && ids[i] in gold;
      assert ids[..j][i] == ids[j];
      assert f[j] == 0 && b[j] == 1;
    }
  }

  /** nDCG stays within 1 under every falling discount. */
  ghost predicate NeverAboveOne(rels: seq<int>, total: nat) {
    forall d: Discount :: IsDiscount(d) ==> RawNdcg(rels, total, d) <= 1.0
  }

  /** A discount that hardly falls: above 1 everywhere, and at most 1 + 1/(n + 1). */
  function Flat(n: nat): Discount {
    (i: nat) => 1.0 + FlatExcess(n, i)
  }

  function FlatExcess(n: nat, i: nat): real {
    1.0 / ((n + 1) * (i + 1)) as real
  }

  lemma FlatFalls(n: nat, i: nat, j: nat)
    requires i < j
    ensures FlatExcess(n, i) > FlatExcess(n, j) > 0.0
  {
    var a, b := (n + 1) * (i + 1), (n + 1) * (j + 1);
    assert b - a == (n + 1) * (j - i) > 0;
    Reciprocals(a as real, b as real);
  }

  lemma Reciprocals(a: real, b: real)
    requires 0.0 < a < b
    ensures 1.0 / a > 1.0 / b > 0.0
  {
    assert 1.0 / a * a == 1.0 && 1.0 / b * b == 1.0;
    assert 1.0 / b * a < 1.0 / b * b;
  }

  lemma FlatMeets(n: nat)
    ensures IsDiscount(Flat(n))
    ensures forall i: nat :: 1.0 < Flat(n)(i) <= 1.0 + 1.0 / (n + 1) as real
  {
    hide FlatExcess;
    assert FlatExcess(n, 0) == 1.0 / (n + 1) as real by {
      FlatAtZero(n);
    }
    forall i: nat, j: nat | i < j ensures FlatExcess(n, i) > FlatExcess(n, j) > 0.0 {
      FlatFalls(n, i, j);
    }
    forall i: nat ensures 0.0 < FlatExcess(n, i) <= FlatExcess(n, 0) {
      FlatFalls(n, i, i + 1);
      if i > 0 {
        FlatFalls(n, 0, i);
      }
    }
  }

  lemma FlatAtZero(n: nat)
    ensures FlatExcess(n, 0) == 1.0 / (n + 1) as real
  {
  }

  /** Hits are worth more than one each under a discount above 1. */
  lemma {:induction false} DcgAtLeast(rels: seq<int>, d: Discount)
    requires Binary(rels) && forall i: nat :: d(i) > 1.0
    ensures Dcg(rels, d) >= Ones(rels) as real
  {
    if rels != [] {
      DcgAtLeast(rels[..|rels| - 1], d);
    }
  }

  lemma {:induction false} IdcgAtMost(k: nat, d: Discount, top: real)
    requires forall i: nat :: d(i) <= top
    ensures Idcg(k, d) <= k as real * top
  {
    if k > 0 {
      IdcgAtMost(k - 1, d, top);
      assert k as real * top == (k - 1) as real * top + top;
    }
  }

  lemma FlatIdeal(n: nat)
    requires n > 0
    ensures 0.0 < Idcg(n, Flat(n)) < (n + 1) as real
  {
    hide Idcg, Flat;
    FlatMeets(n);
    IdcgAtMost(n, Flat(n), 1.0 + 1.0 / (n + 1) as real);
    LessThanOneMore(n);
    IdcgMono(0, n, Flat(n));
  }

  lemma AboveOne(a: real, b: real)
    requires a > b > 0.0
    ensures a / b > 1.0
  {
    assert a / b * b == a;
    assert (a / b - 1.0) * b > 0.0;
  }

  /** More hits than relevant documents break the bound under some discount. */
  lemma TooManyHits(rels: seq<int>, total: nat)
    requires Binary(rels) && 0 < total < Ones(rels)
    ensures RawNdcg(rels, total, Flat(total)) > 1.0
  {
    hide Dcg, Idcg, Flat, Ones;
    FlatIsLarge(total);
    OnesAtMost(rels);
    DcgAtLeast(rels, Flat(total));
    FlatIdeal(total);
    AboveOne(Dcg(rels, Flat(total)), Idcg(total, Flat(total)));
  }

  lemma FlatIsLarge(n: nat)
    ensures forall i: nat :: Flat(n)(i) > 1.0
  {
    hide Flat;
    FlatMeets(n);
  }

  lemma LessThanOneMore(n: nat)
    ensures n as real * (1.0 + 1.0 / (n + 1) as real) < (n + 1) as real
  {
    var x := (n + 1) as real;
    assert 1.0 / x * x == 1.0;
    assert (x - 1.0) * (1.0 + 1.0 / x) == x - 1.0 / x;
  }

  /** The bound of 1 holds for all discounts exactly when no more hits are counted than there are relevant
      documents. */
  lemma NdcgBoundedIff(rels: seq<int>, total: nat)
    requires Binary(rels) && total > 0
    ensures NeverAboveOne(rels, total) <==> Ones(rels) <= total
  {
    hide RawNdcg, IsDiscount, Ones, Flat;
    if Ones(rels) <= total {
      forall d: Discount | IsDiscount(d) ensures RawNdcg(rels, total, d) <= 1.0 {
        NdcgBounds(rels, total, d);
      }
    } else {
      FlatMeets(total);
      TooManyHits(rels, total);
    }
  }

  /** So the BEIR nDCG is at most 1 exactly when gold ids fill no more of the retrieved places than there are gold
      ids; a repeated one alone does no harm. */
  lemma BeirNdcgBoundedIff(gold: set<string>, ids: seq<string>)
    requires gold != {}
    ensures NeverAboveOne(BeirRelevance(gold, ids), |gold|) <==> Ones(BeirRelevance(gold, ids)) <= |gold|
  {
    NdcgBoundedIff(BeirRelevance(gold, ids), |gold|);
  }

  /** One gold document retrieved twice scores above 1. */
  lemma BeirNdcgCanExceedOne(d: Discount)
    requires IsDiscount(d)
    ensures RawNdcg(BeirRelevance({"a"}, ["a", "a"]), 1, d) > 1.0
  {
    var rels := BeirRelevance({"a"}, ["a", "a"]);
    assert rels == [1, 1] && rels[..1] == [1] && [1][..0] == [];
    assert Dcg([1], d) == d(0);
    assert Dcg(rels, d) == d(0) + d(1);
    assert Idcg(1, d) == d(0);
    Scaled(d(0), d(0) + d(1), d(0));
    assert d(0) / d(0) == 1.0;
  }

  /** retrievalMetrics of cmd/beir_eval. */
  method BeirMetrics(goldDocs: seq<string>, retrieved: seq<string>, norm: Norm, d: Discount) returns (s: Scores)
    requires IsDiscount(d)
    ensures GoldSet(goldDocs, norm) == {} || retrieved == [] ==> s == Scores(0.0, 0.0, 0.0, 0.0, 0.0, true)
    ensures GoldSet(goldDocs, norm) != {} && retrieved != [] ==>
              var gold, ids := GoldSet(goldDocs, norm), Normalized(retrieved, norm);
              var met := set g | g in gold && g in ids;
              && s.recall == |met| as real / |gold| as real
              && s.precision == |met| as real / |retrieved| as real
              && s.hit == (if met == {} then 0.0 else 1.0)
              && (met == {} ==> s.mrr == 0.0)
              && (met != {} ==> exists i: nat :: IsFirstHit(gold, ids, i) && s.mrr == 1.0 / (i + 1) as real)
              && s.ndcg == RawNdcg(BeirRelevance(gold, ids), |gold|, d)
  {
    hide IsDiscount;
    if |goldDocs| == 0 {
      return Scores(0.0, 0.0, 0.0, 0.0, 0.0, true);
    }
    var gold := GoldSet(goldDocs, norm);
    if |gold| == 0 || |retrieved| == 0 {
      return Scores(0.0, 0.0, 0.0, 0.0, 0.0, true);
    }
    var matched, relevant, firstRank, rels := BeirScan(gold, retrieved, norm);
    var recall := |matched| as real / |gold| as real;
    var precision := relevant as real / |retrieved| as real;
    var hit, mrr := 0.0, 0.0;
    if relevant > 0 {
      hit := 1.0;
      mrr := 1.0 / firstRank as real;
    }
    var ndcg := DcgOverIdcg(rels, |gold|, d);
    s := Scores(recall, precision, hit, mrr, ndcg, true);
  }

  /** What the loop has gathered from a prefix of the ids. */
  ghost predicate BeirScanned(gold: set<string>, ids: seq<string>, matched: set<string>, relevant: nat, firstRank: int,
                              rels: seq<int>) {
    && matched == (set g | g in gold && g in ids)
    && relevant == |matched|
    && (firstRank == -1 <==> matched == {})
    && (firstRank != -1 ==> 1 <= firstRank <= |ids| && IsFirstHit(gold, ids, firstRank - 1))
    && rels == BeirRelevance(gold, ids)
  }

  predicate IsFirstHit(gold: set<string>, ids: seq<string>, i: int) {
    0 <= i < |ids| && ids[i] in gold && forall j :: 0 <= j < i ==> ids[j] !in gold
  }

  lemma BeirHit(gold: set<string>, ids: seq<string>, id: string, matched: set<string>, relevant: nat, firstRank: int,
                rels: seq<int>)
    requires BeirScanned(gold, ids, matched, relevant, firstRank, rels)
    ensures id !in gold ==> BeirScanned(gold, ids + [id], matched, relevant, firstRank, rels + [0])
    ensures id in matched ==> BeirScanned(gold, ids + [id], matched, relevant, firstRank, rels + [1])
    ensures id in gold && id !in matched ==>
              BeirScanned(gold, ids + [id], matched + {id}, relevant + 1,
                          if firstRank == -1 then |ids| + 1 else firstRank,
                          rels + [1])
  {
    var more := ids + [id];
    assert BeirRelevance(gold, more) == rels + [if id in gold then 1 else 0];
    assert (set g | g in gold && g in more) == if id in gold then matched + {id} else matched;
    assert firstRank == -1 ==> forall j :: 0 <= j < |ids| ==> ids[j] !in matched;
  }

  /** The loop over the retrieved ids. */
  method BeirScan(gold: set<string>, retrieved: seq<string>, norm: Norm)
    returns (matched: set<string>, relevant: nat, firstRank: int, rels: seq<int>)
    ensures BeirScanned(gold, Normalized(retrieved, norm), matched, relevant, firstRank, rels)
  {
    hide BeirScanned;
    matched, relevant, firstRank, rels := {}, 0, -1, [];
    BeirScanNone(gold, norm);
    for idx := 0 to |retrieved|
      invariant BeirScanned(gold, Normalized(retrieved[..idx], norm), matched, relevant, firstRank, rels)
    {
      var docId := norm(retrieved[idx]);
      BeirHit(gold, Normalized(retrieved[..idx], norm), docId, matched, relevant, firstRank, rels);
      assert Normalized(retrieved[..idx + 1], norm) == Normalized(retrieved[..idx], norm) + [docId];
      if docId in gold {
        rels := rels + [1];
        if docId !in matched {
          matched := matched + {docId};
          relevant := relevant + 1;
          if firstRank == -1 {
            firstRank := idx + 1;
          }
        }
      } else {
        rels := rels + [0];
      }
    }
    assert retrieved[..|retrieved|] == retrieved;
  }

  lemma BeirScanNone(gold: set<string>, norm: Norm)
    ensures BeirScanned(gold, Normalized([], norm), {}, 0, -1, [])
  {
  }

  function Normalized(ids: seq<string>, norm: Norm): (r: seq<string>)
    ensures |r| == |ids| && forall i :: 0 <= i < |r| ==> r[i] == norm(ids[i])
  {
    seq(|ids|, i requires 0 <= i < |ids| => norm(ids[i]))
  }
}
