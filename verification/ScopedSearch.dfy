/** Over-fetch and filter: the search restricted to some knowledge bases
    (internal/container/retriever_provider.go). */
module ScopedSearch {

  /** A candidate; `kb` is "" when its metadata names no knowledge base. Nil candidates are Nil. */
  datatype Doc = Nil | Doc(id: string, kb: string)

  predicate MatchKb(scope: set<string>, d: Doc) {
    d.Doc? && d.kb != "" && d.kb in scope
  }

  /** The matching documents of a ranking, in order. */
  function Matching(scope: set<string>, docs: seq<Doc>): (r: seq<Doc>)
    ensures |r| <= |docs|
  {
    if docs == [] then []
    else if MatchKb(scope, docs[|docs| - 1]) then Matching(scope, docs[..|docs| - 1]) + [docs[|docs| - 1]]
    else Matching(scope, docs[..|docs| - 1])
  }

  function Take(docs: seq<Doc>, n: int): seq<Doc> {
    if n <= 0 then [] else if n >= |docs| then docs else docs[..n]
  }

  lemma {:induction false} MatchingAppend(scope: set<string>, a: seq<Doc>, b: seq<Doc>)
    ensures Matching(scope, a + b) == Matching(scope, a) + Matching(scope, b)
    decreases |b|
  {
    hide MatchKb;
    if b == [] {
      assert a + b == a;
    } else {
      var n := |b| - 1;
      MatchingAppend(scope, a, b[..n]);
      assert (a + b)[..|a + b| - 1] == a + b[..n];
    }
  }

  /** filterDocs: all matches, or the first topK of them. */
  function Filtered(scope: set<string>, docs: seq<Doc>, topK: int): seq<Doc> {
    if topK > 0 then Take(Matching(scope, docs), topK) else Matching(scope, docs)
  }

  // ---------------------------------------------------------------- what a scoped result is

  /** `r` holds documents of `scope` only, taken from the places `at` of the list, and every document of `scope` there
      is among them, unless topK of them have been found before it. */
  ghost predicate ScopedPick(scope: set<string>, docs: seq<Doc>, topK: int, r: seq<Doc>, at: seq<nat>) {
    && |at| == |r|
    && (forall k :: 0 <= k < |r| ==> at[k] < |docs| && r[k] == docs[at[k]])
    && (forall j, k :: 0 <= j < k < |at| ==> at[j] < at[k])
    && (forall k :: 0 <= k < |r| ==> r[k].Doc? && r[k].kb != "" && r[k].kb in scope)
    && (topK > 0 ==> |r| <= topK)
    && (forall i :: 0 <= i < |docs| && docs[i].Doc? && docs[i].kb != "" && docs[i].kb in scope ==>
          i in at || (topK > 0 && |at| == topK && at[topK - 1] < i))
  }

  ghost predicate ScopedPicked(scope: set<string>, docs: seq<Doc>, topK: int, r: seq<Doc>) {
    exists at :: ScopedPick(scope, docs, topK, r, at)
  }

  /** The places of the matching documents. */
  ghost function Places(scope: set<string>, docs: seq<Doc>): (at: seq<nat>)
    ensures |at| == |Matching(scope, docs)|
  {
    if docs == [] then []
    else if MatchKb(scope, docs[|docs| - 1]) then Places(scope, docs[..|docs| - 1]) + [|docs| - 1]
    else Places(scope, docs[..|docs| - 1])
  }

  lemma {:induction false} PlacesPick(scope: set<string>, docs: seq<Doc>)
    ensures ScopedPick(scope, docs, 0, Matching(scope, docs), Places(scope, docs))
  {
    if docs != [] {
      PlacesPick(scope, docs[..|docs| - 1]);
    }
  }

  /** What filterDocs returns, told by the knowledge bases of the documents alone. */
  lemma FilteredPicks(scope: set<string>, docs: seq<Doc>, topK: int)
    ensures ScopedPicked(scope, docs, topK, Filtered(scope, docs, topK))
  {
    PlacesPick(scope, docs);
    var at := Places(scope, docs);
    if topK > 0 && topK < |at| {
      assert ScopedPick(scope, docs, topK, Filtered(scope, docs, topK), at[..topK]);
    } else {
      assert ScopedPick(scope, docs, topK, Filtered(scope, docs, topK), at);
    }
  }

  lemma {:induction false} SamePlaces(scope: set<string>, docs: seq<Doc>, topK: int, r: seq<Doc>, at: seq<nat>,
                                      r': seq<Doc>, at': seq<nat>, k: nat)
    requires ScopedPick(scope, docs, topK, r, at) && ScopedPick(scope, docs, topK, r', at')
    requires k < |at| && k < |at'|
    ensures at[k] == at'[k]
  {
    if k > 0 {
      forall j | 0 <= j < k
        ensures at[j] == at'[j]
      {
        SamePlaces(scope, docs, topK, r, at, r', at', j);
      }
    }
    assert at[k] !in at[..k] && at'[k] !in at'[..k];
    assert r[k] == docs[at[k]] && r'[k] == docs[at'[k]];
  }

  lemma NextIsNew(at: seq<nat>, at': seq<nat>)
    requires |at| < |at'| && at == at'[..|at|]
    requires forall j, k :: 0 <= j < k < |at'| ==> at'[j] < at'[k]
    ensures at'[|at|] !in at
  {
    assert forall j :: 0 <= j < |at| ==> at[j] == at'[j];
  }

  lemma NoFewer(scope: set<string>, docs: seq<Doc>, topK: int, r: seq<Doc>, at: seq<nat>,
                r': seq<Doc>, at': seq<nat>)
    requires ScopedPick(scope, docs, topK, r, at) && ScopedPick(scope, docs, topK, r', at')
    ensures |at'| <= |at|
  {
    if |at| < |at'| {
      var n := |at|;
      forall k | 0 <= k < n
        ensures at[k] == at'[k]
      {
        SamePlaces(scope, docs, topK, r, at, r', at', k);
      }
      NextIsNew(at, at');
      assert false;
    }
  }

  /** No other list is such a pick: the description fixes the result. */
  lemma PickIsUnique(scope: set<string>, docs: seq<Doc>, topK: int, r: seq<Doc>)
    ensures ScopedPicked(scope, docs, topK, r) <==> r == Filtered(scope, docs, topK)
  {
    FilteredPicks(scope, docs, topK);
    var f := Filtered(scope, docs, topK);
    if ScopedPicked(scope, docs, topK, r) {
      var at :| ScopedPick(scope, docs, topK, r, at);
      var fat :| ScopedPick(scope, docs, topK, f, fat);
      NoFewer(scope, docs, topK, r, at, f, fat);
      NoFewer(scope, docs, topK, f, fat, r, at);
      forall k | 0 <= k < |r|
        ensures r[k] == f[k]
      {
        SamePlaces(scope, docs, topK, r, at, f, fat, k);
      }
    }
  }

  // ---------------------------------------------------------------- the windows

  /** The number of candidates asked for first, and the one the search may go up to. */
  function FirstWindow(topK: int): (w: int)
    ensures w >= 200
  {
    if topK * 50 < 200 then 200 else topK * 50
  }

  function LastWindow(topK: int): (w: int)
    ensures w >= 5000
  {
    if FirstWindow(topK) >= 5000 then FirstWindow(topK) else 5000
  }

  /** The window that decides: a topK that is not positive is met by any number of matches. */
  function SearchWindow(topK: int): (w: int)
    ensures w >= 200
  {
    if topK > 0 then LastWindow(topK) else 200
  }

  function KeywordWindow(topK: int): (w: int)
    ensures w >= 100
  {
    if topK * 20 < 100 then 100 else topK * 20
  }

  /** A vector store whose ranking for the query at hand is fixed. */
  class ScopedVectorDb {
    const ranking: seq<Doc>
    const scope: set<string>

    constructor (ranking: seq<Doc>, scope: set<string>)
      ensures this.ranking == ranking && this.scope == scope
    {
      this.ranking := ranking;
      this.scope := scope;
    }

    /** The base search: the first n of the ranking, fewer if there are not as many. */
    method BaseSearch(n: int) returns (docs: seq<Doc>)
      requires n >= 0
      ensures docs == Take(ranking, n)
    {
      var k := n;
      if k > |ranking| {
        k := |ranking|;
      }
      docs := ranking[..k];
    }

    method FilterDocs(docs: seq<Doc>, topK: int) returns (filtered: seq<Doc>)
      ensures filtered == Filtered(scope, docs, topK)
      ensures ScopedPicked(scope, docs, topK, filtered)
    {
      hide ScopedPicked;
      FilteredPicks(scope, docs, topK);
      filtered := [];
      for i := 0 to |docs|
        invariant filtered == Matching(scope, docs[..i])
        invariant topK > 0 ==> |filtered| < topK
      {
        assert docs[..i + 1][..i] == docs[..i];
        if !MatchKb(scope, docs[i]) {
          continue;
        }
        filtered := filtered + [docs[i]];
        if topK > 0 && |filtered| >= topK {
          assert docs == docs[..i + 1] + docs[i + 1..];
          MatchingAppend(scope, docs[..i + 1], docs[i + 1..]);
          return;
        }
      }
      assert docs[..|docs|] == docs;
    }

    method Search(topK: int) returns (r: seq<Doc>)
      ensures r == Filtered(scope, Take(ranking, SearchWindow(topK)), topK)
      ensures var w := if topK <= 0 then 200 else if topK <= 100 then 5000 else 50 * topK;
              ScopedPicked(scope, ranking[..if w < |ranking| then w else |ranking|], topK, r)
    {
      hide ScopedPicked;
      FilteredPicks(scope, Take(ranking, SearchWindow(topK)), topK);
      assert ranking[..|ranking|] == ranking;
      var candidateK := topK * 50;
      if candidateK < 200 {
        candidateK := 200;
      }
      var docs := BaseSearch(candidateK);
      var filtered := FilterDocs(docs, topK);
      if |filtered| >= topK || candidateK >= 5000 {
        WindowGrows(scope, ranking, FirstWindow(topK), LastWindow(topK), topK);
        return filtered;
      }
      docs := BaseSearch(5000);
      r := FilterDocs(docs, topK);
    }

    /** The keyword search has one window only. */
    method SearchKeyword(topK: int) returns (r: seq<Doc>)
      ensures r == Filtered(scope, Take(ranking, KeywordWindow(topK)), topK)
      ensures var w := if topK <= 5 then 100 else 20 * topK;
              ScopedPicked(scope, ranking[..if w < |ranking| then w else |ranking|], topK, r)
    {
      hide ScopedPicked;
      FilteredPicks(scope, Take(ranking, KeywordWindow(topK)), topK);
      assert ranking[..|ranking|] == ranking;
      var candidateK := topK * 20;
      if candidateK < 100 {
        candidateK := 100;
      }
      var docs := BaseSearch(candidateK);
      r := FilterDocs(docs, topK);
    }
  }

  /** Enough matches in a window are the same in every larger one. */
  lemma WindowGrows(scope: set<string>, ranking: seq<Doc>, a: int, b: int, topK: int)
    requires 0 <= a <= b && (|Filtered(scope, Take(ranking, a), topK)| >= topK || a == b)
    ensures topK > 0 ==> Take(Matching(scope, Take(ranking, a)), topK) == Take(Matching(scope, Take(ranking, b)), topK)
  {
    var x, y := Take(ranking, a), Take(ranking, b);
    assert y == x + y[|x|..];
    MatchingAppend(scope, x, y[|x|..]);
  }

  /** A window gives the beginning of the ideal scoped ranking, and all that is asked of it exactly when the window
      holds enough matches or every match there is. */
  lemma WindowVersusIdeal(scope: set<string>, ranking: seq<Doc>, topK: int, w: int)
    requires w >= 0
    ensures Filtered(scope, Take(ranking, w), topK) <= Filtered(scope, ranking, topK)
    ensures Filtered(scope, Take(ranking, w), topK) == Filtered(scope, ranking, topK)
            <==> || (topK > 0 && |Matching(scope, Take(ranking, w))| >= topK)
                 || forall i :: w <= i < |ranking| ==> !MatchKb(scope, ranking[i])
  {
    hide MatchKb, Matching;
    if w < |ranking| {
      var rest := ranking[w..];
      assert ranking == ranking[..w] + rest;
      MatchingAppend(scope, ranking[..w], rest);
      NoneMatch(scope, rest);
      assert forall i :: 0 <= i < |rest| ==> rest[i] == ranking[w + i];
      assert forall i :: w <= i < |ranking| ==> ranking[i] == rest[i - w];
      if topK > 0 {
        TakeMore(Matching(scope, ranking[..w]), Matching(scope, rest), topK);
      }
    }
  }

  /** The scoped search against the ideal scoped ranking. */
  lemma SearchVersusIdeal(scope: set<string>, ranking: seq<Doc>, topK: int)
    ensures Filtered(scope, Take(ranking, SearchWindow(topK)), topK) <= Filtered(scope, ranking, topK)
    ensures var w := SearchWindow(topK);
            Filtered(scope, Take(ranking, w), topK) == Filtered(scope, ranking, topK)
            <==> || (topK > 0 && |Matching(scope, Take(ranking, w))| >= topK)
                 || forall i :: w <= i < |ranking| ==> !MatchKb(scope, ranking[i])
  {
    hide MatchKb, Matching, SearchWindow, Filtered, Take;
    WindowVersusIdeal(scope, ranking, topK, SearchWindow(topK));
  }

  /** The scoped keyword search against the ideal of its own ranking. */
  lemma KeywordVersusIdeal(scope: set<string>, ranking: seq<Doc>, topK: int)
    ensures Filtered(scope, Take(ranking, KeywordWindow(topK)), topK) <= Filtered(scope, ranking, topK)
    ensures var w := KeywordWindow(topK);
            Filtered(scope, Take(ranking, w), topK) == Filtered(scope, ranking, topK)
            <==> || (topK > 0 && |Matching(scope, Take(ranking, w))| >= topK)
                 || forall i :: w <= i < |ranking| ==> !MatchKb(scope, ranking[i])
  {
    hide MatchKb, Matching, KeywordWindow, Filtered, Take;
    WindowVersusIdeal(scope, ranking, topK, KeywordWindow(topK));
  }

  lemma TakeMore(a: seq<Doc>, b: seq<Doc>, n: int)
    requires n > 0
    ensures Take(a, n) <= Take(a + b, n)
    ensures Take(a, n) == Take(a + b, n) <==> |a| >= n || b == []
  {
  }

  lemma {:induction false} NoneMatch(scope: set<string>, docs: seq<Doc>)
    ensures Matching(scope, docs) == [] <==> forall i :: 0 <= i < |docs| ==> !MatchKb(scope, docs[i])
  {
    hide MatchKb;
    if docs != [] {
      NoneMatch(scope, docs[..|docs| - 1]);
    }
  }

  /** So a corpus of at most 5000 documents, or of 50 * topK, is always searched completely. */
  lemma SmallCorpusIsExact(scope: set<string>, ranking: seq<Doc>, topK: int)
    requires topK > 0 && (|ranking| <= 5000 || |ranking| <= 50 * topK)
    ensures Filtered(scope, Take(ranking, SearchWindow(topK)), topK) == Filtered(scope, ranking, topK)
  {
    hide MatchKb, Matching;
    SearchVersusIdeal(scope, ranking, topK);
  }
}
