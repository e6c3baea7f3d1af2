/** Reciprocal-rank fusion and the graph boost (internal/container/retriever_provider.go). Scores are reals. */
module RankFusion {
  import opened Text

  /** A retrieved document. A nil document is one with the empty id: both are skipped but keep their rank. */
  datatype Doc = Doc(id: string, content: string, score: real)

  const VECTOR_WEIGHT: real := 1.0
  const KEYWORD_WEIGHT: real := 0.8

  /** The contribution of rank `rank`, counted from one. */
  function Share(weight: real, rank: nat): (r: real)
    requires rank > 0
    ensures weight > 0.0 ==> r > 0.0
  {
    weight / (60.0 + rank as real)
  }

  /** The contributions to `id` of the first n documents of one source. */
  function ScoreIn(docs: seq<Doc>, n: nat, id: string, weight: real): real
    requires n <= |docs|
  {
    if n == 0 then 0.0
    else ScoreIn(docs, n - 1, id, weight) + if docs[n - 1].id == id then Share(weight, n) else 0.0
  }

  function HitsIn(docs: seq<Doc>, n: nat, id: string): nat
    requires n <= |docs|
  {
    if n == 0 then 0 else HitsIn(docs, n - 1, id) + if docs[n - 1].id == id then 1 else 0
  }

  /** The content known for `id` after its occurrences among the first n documents, `before` being
      known already: the first one that is not empty. */
  function ContentIn(docs: seq<Doc>, n: nat, id: string, before: string): string
    requires n <= |docs|
  {
    if n == 0 then before
    else
      var c := ContentIn(docs, n - 1, id, before);
      if docs[n - 1].id == id && c == "" then docs[n - 1].content else c
  }

  function Score(v: seq<Doc>, k: seq<Doc>, id: string): real {
    ScoreIn(v, |v|, id, VECTOR_WEIGHT) + ScoreIn(k, |k|, id, KEYWORD_WEIGHT)
  }

  function Hits(v: seq<Doc>, k: seq<Doc>, id: string): nat {
    HitsIn(v, |v|, id) + HitsIn(k, |k|, id)
  }

  function ContentOf(v: seq<Doc>, k: seq<Doc>, id: string): string {
    ContentIn(k, |k|, id, ContentIn(v, |v|, id, ""))
  }

  /** A document that may be returned: with content, or confirmed by more than one hit. */
  predicate Eligible(v: seq<Doc>, k: seq<Doc>, id: string) {
    id != "" && Hits(v, k, id) > 0 && (TrimSpace(ContentOf(v, k, id)) != "" || Hits(v, k, id) > 1)
  }

  /** Document `i` is the first one of that id with any content. */
  predicate FirstContent(docs: seq<Doc>, id: string, i: nat) {
    && i < |docs| && docs[i].id == id && docs[i].content != ""
    && forall j :: 0 <= j < i && docs[j].id == id ==> docs[j].content == ""
  }

  predicate NoContent(docs: seq<Doc>, id: string) {
    forall j :: 0 <= j < |docs| && docs[j].id == id ==> docs[j].content == ""
  }

  predicate FoundTwice(docs: seq<Doc>, id: string) {
    exists i, j :: 0 <= i < j < |docs| && docs[i].id == id && docs[j].id == id
  }

  ghost predicate HasContent(docs: seq<Doc>, id: string, c: string) {
    (c == "" && NoContent(docs, id)) || exists i: nat :: FirstContent(docs, id, i) && docs[i].content == c
  }

  /** The content taken over is the first one that is not empty, vector results first. */
  lemma {:induction false} ContentIs(v: seq<Doc>, k: seq<Doc>, n: nat, id: string)
    requires n <= |k|
    ensures HasContent(v + k[..n], id, ContentIn(k, n, id, ContentIn(v, |v|, id, "")))
  {
    if n == 0 {
      VectorContentIs(v, |v|, id);
      assert v[..|v|] == v && v + k[..0] == v;
    } else {
      ContentIs(v, k, n - 1, id);
      assert v + k[..n] == v + k[..n - 1] + [k[n - 1]];
      ContentNext(v + k[..n - 1], k[n - 1], id, ContentIn(k, n - 1, id, ContentIn(v, |v|, id, "")));
    }
  }

  lemma {:induction false} VectorContentIs(v: seq<Doc>, n: nat, id: string)
    requires n <= |v|
    ensures HasContent(v[..n], id, ContentIn(v, n, id, ""))
  {
    if n > 0 {
      VectorContentIs(v, n - 1, id);
      assert v[..n] == v[..n - 1] + [v[n - 1]];
      ContentNext(v[..n - 1], v[n - 1], id, ContentIn(v, n - 1, id, ""));
    }
  }

  lemma ContentNext(docs: seq<Doc>, d: Doc, id: string, c: string)
    requires HasContent(docs, id, c)
    ensures HasContent(docs + [d], id, if d.id == id && c == "" then d.content else c)
  {
    var more := docs + [d];
    assert more[|docs|] == d && forall i :: 0 <= i < |docs| ==> more[i] == docs[i];
    if c != "" {
      var i: nat :| FirstContent(docs, id, i) && docs[i].content == c;
      assert FirstContent(more, id, i);
    } else if d.id == id && d.content != "" {
      assert FirstContent(more, id, |docs|);
    }
  }

  /** How often an id occurs, up to twice. */
  lemma {:induction false} HitsIff(docs: seq<Doc>, n: nat, id: string)
    requires n <= |docs|
    ensures HitsIn(docs, n, id) > 0 <==> exists i :: 0 <= i < n && docs[i].id == id
    ensures HitsIn(docs, n, id) > 1 <==> FoundTwice(docs[..n], id)
  {
    if n > 0 {
      HitsIff(docs, n - 1, id);
      var before, all := docs[..n - 1], docs[..n];
      assert all == before + [docs[n - 1]];
      if docs[n - 1].id == id && HitsIn(docs, n - 1, id) > 0 {
        var i :| 0 <= i < n - 1 && docs[i].id == id;
        assert all[i].id == id && all[n - 1].id == id;
      }
      if FoundTwice(before, id) {
        var i, j :| 0 <= i < j < n - 1 && before[i].id == id && before[j].id == id;
        assert all[i].id == id && all[j].id == id;
      }
    }
  }

  lemma {:induction false} HitsAppend(v: seq<Doc>, k: seq<Doc>, n: nat, id: string)
    requires n <= |v + k|
    ensures HitsIn(v + k, n, id) == if n <= |v| then HitsIn(v, n, id) else HitsIn(v, |v|, id) + HitsIn(k, n - |v|, id)
  {
    if n > 0 {
      HitsAppend(v, k, n - 1, id);
    }
  }

  lemma BothHits(v: seq<Doc>, k: seq<Doc>, id: string)
    ensures Hits(v, k, id) > 0 <==> exists i :: 0 <= i < |v + k| && (v + k)[i].id == id
    ensures Hits(v, k, id) > 1 <==> FoundTwice(v + k, id)
  {
    var all := v + k;
    HitsAppend(v, k, |all|, id);
    HitsIff(all, |all|, id);
    assert all[..|all|] == all;
  }

  /** What a fusion may return, in terms of all documents found: an id found twice, or one whose first content is not
      blank. */
  lemma EligibleIff(v: seq<Doc>, k: seq<Doc>, id: string)
    ensures Eligible(v, k, id) <==>
            && id != ""
            && (FoundTwice(v + k, id)
                || exists i: nat :: FirstContent(v + k, id, i) && TrimSpace((v + k)[i].content) != "")
    ensures HasContent(v + k, id, ContentOf(v, k, id))
  {
    hide HitsIn, TrimSpace, ContentIn;
    BothHits(v, k, id);
    ContentIs(v, k, |k|, id);
    assert k[..|k|] == k;
    BlankIsBlank();
    var c := ContentOf(v, k, id);
    if i: nat :| FirstContent(v + k, id, i) {
      assert HasContent(v + k, id, c) && c == (v + k)[i].content by {
        OneFirst(v + k, id, c, i);
      }
    } else {
      assert c == "";
    }
  }

  lemma BlankIsBlank()
    ensures TrimSpace("") == ""
  {
  }

  lemma OneFirst(docs: seq<Doc>, id: string, c: string, i: nat)
    requires HasContent(docs, id, c) && FirstContent(docs, id, i)
    ensures c == docs[i].content
  {
    if j: nat :| FirstContent(docs, id, j) && docs[j].content == c {
      assert i == j;
    }
  }

  predicate SortedDown(docs: seq<Doc>) {
    forall i, j :: 0 <= i < j < |docs| ==> docs[i].score >= docs[j].score
  }

  predicate DistinctDocs(docs: seq<Doc>) {
    forall i, j :: 0 <= i < j < |docs| ==> docs[i].id != docs[j].id
  }

  /** What a fusion must be: the best topK eligible documents with their fused scores, best first. Equal
      scores may come in any order, as map iteration and sort.Slice leave them. */
  ghost predicate IsFusion(v: seq<Doc>, k: seq<Doc>, topK: nat, fused: seq<Doc>) {
    && SortedDown(fused) && DistinctDocs(fused) && |fused| <= topK
    && (forall i :: 0 <= i < |fused| ==>
          && Eligible(v, k, fused[i].id) && fused[i].score == Score(v, k, fused[i].id)
          && fused[i].content == ContentOf(v, k, fused[i].id))
    && (forall id :: Eligible(v, k, id) && (forall i :: 0 <= i < |fused| ==> fused[i].id != id) ==>
          |fused| == topK && forall i :: 0 <= i < |fused| ==> fused[i].score >= Score(v, k, id))
  }

  // ---------------------------------------------------------------- the fusion loops

  /** rankedDoc, with the score that is given to its document later. */
  datatype Ranked = Ranked(doc: Doc, score: real, hits: nat)

  /** The table's entry for `id` after nv documents of `v` and nk of `k`. */
  predicate EntryOk(m: map<string, Ranked>, id: string, v: seq<Doc>, nv: nat, k: seq<Doc>, nk: nat)
    requires nv <= |v| && nk <= |k|
  {
    var hits := HitsIn(v, nv, id) + HitsIn(k, nk, id);
    && (id in m <==> id != "" && hits > 0)
    && (id in m ==>
          && m[id].hits == hits
          && m[id].score == ScoreIn(v, nv, id, VECTOR_WEIGHT) + ScoreIn(k, nk, id, KEYWORD_WEIGHT)
          && m[id].doc.id == id
          && m[id].doc.content == ContentIn(k, nk, id, ContentIn(v, nv, id, "")))
  }

  ghost predicate Accumulated(m: map<string, Ranked>, v: seq<Doc>, nv: nat, k: seq<Doc>, nk: nat)
    requires nv <= |v| && nk <= |k|
  {
    forall id :: EntryOk(m, id, v, nv, k, nk)
  }

  /** One iteration of `add`. */
  function Added(m: map<string, Ranked>, doc: Doc, weight: real, rank: nat): map<string, Ranked>
    requires rank > 0
  {
    if doc.id == "" then m
    else
      var e := if doc.id !in m then Ranked(doc, 0.0, 0)
               else if m[doc.id].doc.content == "" && doc.content != "" then m[doc.id].(doc := doc)
               else m[doc.id];
      m[doc.id := e.(score := e.score + Share(weight, rank), hits := e.hits + 1)]
  }

  lemma AddVector(m: map<string, Ranked>, v: seq<Doc>, n: nat, k: seq<Doc>)
    requires n < |v| && Accumulated(m, v, n, k, 0)
    ensures Accumulated(Added(m, v[n], VECTOR_WEIGHT, n + 1), v, n + 1, k, 0)
  {
    hide EntryOk, Added;
    var m', n' := Added(m, v[n], VECTOR_WEIGHT, n + 1), n + 1;
    forall id ensures EntryOk(m', id, v, n', k, 0) {
      assert EntryOk(m, id, v, n, k, 0);
      AddVectorAt(m, v, n, k, id);
    }
  }

  lemma AddVectorAt(m: map<string, Ranked>, v: seq<Doc>, n: nat, k: seq<Doc>, id: string)
    requires n < |v| && EntryOk(m, id, v, n, k, 0)
    ensures EntryOk(Added(m, v[n], VECTOR_WEIGHT, n + 1), id, v, n + 1, k, 0)
  {
    hide Share;
    NoHitsNothing(v, n, id, VECTOR_WEIGHT, "");
  }

  lemma AddKeyword(m: map<string, Ranked>, v: seq<Doc>, k: seq<Doc>, n: nat)
    requires n < |k| && Accumulated(m, v, |v|, k, n)
    ensures Accumulated(Added(m, k[n], KEYWORD_WEIGHT, n + 1), v, |v|, k, n + 1)
  {
    hide EntryOk, Added;
    var m', n' := Added(m, k[n], KEYWORD_WEIGHT, n + 1), n + 1;
    forall id ensures EntryOk(m', id, v, |v|, k, n') {
      assert EntryOk(m, id, v, |v|, k, n);
      AddKeywordAt(m, v, k, n, id);
    }
  }

  lemma AddKeywordAt(m: map<string, Ranked>, v: seq<Doc>, k: seq<Doc>, n: nat, id: string)
    requires n < |k| && EntryOk(m, id, v, |v|, k, n)
    ensures EntryOk(Added(m, k[n], KEYWORD_WEIGHT, n + 1), id, v, |v|, k, n + 1)
  {
    hide Share;
    NoHitsNothing(v, |v|, id, VECTOR_WEIGHT, "");
    NoHitsNothing(k, n, id, KEYWORD_WEIGHT, ContentIn(v, |v|, id, ""));
  }

  /** An id not met yet has no score and no content. */
  lemma {:induction false} NoHitsNothing(docs: seq<Doc>, n: nat, id: string, weight: real, before: string)
    requires n <= |docs|
    ensures HitsIn(docs, n, id) == 0 ==> ScoreIn(docs, n, id, weight) == 0.0 && ContentIn(docs, n, id, before) == before
  {
    if n > 0 {
      NoHitsNothing(docs, n - 1, id, weight, before);
    }
  }

  method AddAll(m: map<string, Ranked>, docs: seq<Doc>, weight: real) returns (r: map<string, Ranked>)
    ensures r == AddedAll(m, docs, |docs|, weight)
  {
    r := m;
    for rank := 0 to |docs|
      invariant r == AddedAll(m, docs, rank, weight)
    {
      var doc := docs[rank];
      if doc.id == "" {
        continue;
      }
      var entry: Ranked;
      if doc.id !in r {
        entry := Ranked(doc, 0.0, 0);
      } else {
        entry := r[doc.id];
        if entry.doc.content == "" && doc.content != "" {
          entry := entry.(doc := doc);
        }
      }
      entry := entry.(score := entry.score + weight * 1.0 / (60.0 + (rank + 1) as real));
      entry := entry.(hits := entry.hits + 1);
      r := r[doc.id := entry];
    }
  }

  function AddedAll(m: map<string, Ranked>, docs: seq<Doc>, n: nat, weight: real): map<string, Ranked>
    requires n <= |docs|
  {
    if n == 0 then m else Added(AddedAll(m, docs, n - 1, weight), docs[n - 1], weight, n)
  }

  lemma {:induction false} AddedVectors(v: seq<Doc>, n: nat, k: seq<Doc>)
    requires n <= |v|
    ensures Accumulated(AddedAll(map[], v, n, VECTOR_WEIGHT), v, n, k, 0)
  {
    hide Added, Accumulated;
    if n == 0 {
      NothingAccumulated(v, k);
    } else {
      AddedVectors(v, n - 1, k);
      AddVector(AddedAll(map[], v, n - 1, VECTOR_WEIGHT), v, n - 1, k);
    }
  }

  lemma NothingAccumulated(v: seq<Doc>, k: seq<Doc>)
    ensures Accumulated(map[], v, 0, k, 0)
  {
  }

  lemma {:induction false} AddedKeywords(m: map<string, Ranked>, v: seq<Doc>, k: seq<Doc>, n: nat)
    requires n <= |k| && Accumulated(m, v, |v|, k, 0)
    ensures Accumulated(AddedAll(m, k, n, KEYWORD_WEIGHT), v, |v|, k, n)
  {
    hide Added, Accumulated;
    if n > 0 {
      AddedKeywords(m, v, k, n - 1);
      AddKeyword(AddedAll(m, k, n - 1, KEYWORD_WEIGHT), v, k, n - 1);
    }
  }

  /** The eligible documents of the table, each once, with their scores. */
  ghost predicate Listed(m: map<string, Ranked>, list: seq<Doc>, todo: set<string>) {
    && DistinctDocs(list)
    && (forall i :: 0 <= i < |list| ==>
          && list[i].id in m && list[i].id !in todo && Kept(m[list[i].id])
          && list[i] == m[list[i].id].doc.(score := m[list[i].id].score))
    && (forall id :: id in m && id !in todo && Kept(m[id]) ==> exists i :: 0 <= i < |list| && list[i].id == id)
  }

  predicate Kept(e: Ranked) {
    TrimSpace(e.doc.content) != "" || e.hits > 1
  }

  lemma ListNext(m: map<string, Ranked>, list: seq<Doc>, todo: set<string>, id: string)
    requires id in todo && todo <= m.Keys && Listed(m, list, todo) && m[id].doc.id == id
    ensures Listed(m, if Kept(m[id]) then list + [m[id].doc.(score := m[id].score)] else list, todo - {id})
  {
    hide Kept;
    var more := if Kept(m[id]) then list + [m[id].doc.(score := m[id].score)] else list;
    forall x | x in m && x !in todo - {id} && Kept(m[x]) ensures exists i :: 0 <= i < |more| && more[i].id == x {
      if x == id {
        assert more[|list|].id == x;
      } else {
        var i :| 0 <= i < |list| && list[i].id == x;
        assert more[i].id == x;
      }
    }
  }

  method Collect(m: map<string, Ranked>) returns (list: seq<Doc>)
    requires forall id :: id in m ==> m[id].doc.id == id
    ensures Listed(m, list, {})
  {
    hide Listed, TrimSpace;
    list := [];
    var todo := m.Keys;
    assert Listed(m, list, todo) by {
      NothingListed(m);
    }
    while todo != {}
      invariant todo <= m.Keys && Listed(m, list, todo)
      decreases |todo|
    {
      var id :| id in todo;
      ListNext(m, list, todo, id);
      todo := todo - {id};
      var item := m[id];
      if TrimSpace(item.doc.content) == "" {
        if item.hits <= 1 {
          continue;
        }
      }
      list := list + [item.doc.(score := item.score)];
    }
  }

  lemma NothingListed(m: map<string, Ranked>)
    ensures Listed(m, [], m.Keys)
  {
  }

  /** Puts one document in its place in a sorted list. */
  method Insert(sorted: seq<Doc>, d: Doc) returns (r: seq<Doc>)
    requires SortedDown(sorted)
    ensures SortedDown(r) && multiset(r) == multiset(sorted) + multiset{d}
  {
    var i := |sorted|;
    while i > 0 && sorted[i - 1].score < d.score
      invariant 0 <= i <= |sorted|
      invariant forall j :: i <= j < |sorted| ==> sorted[j].score < d.score
    {
      i := i - 1;
    }
    r := sorted[..i] + ([d] + sorted[i..]);
    Inserted(sorted, d, i);
  }

  lemma Inserted(sorted: seq<Doc>, d: Doc, i: nat)
    requires SortedDown(sorted) && i <= |sorted|
    requires forall j :: i <= j < |sorted| ==> sorted[j].score < d.score
    requires i > 0 ==> sorted[i - 1].score >= d.score
    ensures SortedDown(sorted[..i] + ([d] + sorted[i..]))
    ensures multiset(sorted[..i] + ([d] + sorted[i..])) == multiset(sorted) + multiset{d}
  {
    hide SortedDown;
    var front, back := sorted[..i], sorted[i..];
    assert sorted == front + back;
    InsertedOrder(sorted, d, i, front, back);
    assert SortedDown([d] + back) by {
      AppendSorted([d], back);
    }
    AppendSorted(front, [d] + back);
  }

  lemma InsertedOrder(sorted: seq<Doc>, d: Doc, i: nat, front: seq<Doc>, back: seq<Doc>)
    requires SortedDown(sorted) && i <= |sorted| && front == sorted[..i] && back == sorted[i..]
    requires forall j :: i <= j < |sorted| ==> sorted[j].score < d.score
    requires i > 0 ==> sorted[i - 1].score >= d.score
    ensures SortedDown(front) && SortedDown(back) && SortedDown([d])
    ensures forall x, y :: x in [d] && y in back ==> x.score >= y.score
    ensures forall x, y :: x in front && y in [d] + back ==> x.score >= y.score
  {
    forall j | 0 <= j < |back| ensures back[j].score <= d.score {
      assert back[j] == sorted[i + j];
    }
  }

  lemma AppendSorted(a: seq<Doc>, b: seq<Doc>)
    requires SortedDown(a) && SortedDown(b)
    requires forall x, y :: x in a && y in b ==> x.score >= y.score
    ensures SortedDown(a + b)
  {
    forall i, j | 0 <= i < j < |a + b| ensures (a + b)[i].score >= (a + b)[j].score {
      assert i < |a| ==> (a + b)[i] in a;
      assert j >= |a| ==> (a + b)[j] in b;
    }
  }

  /** The sort by falling score. */
  method SortDown(list: seq<Doc>) returns (sorted: seq<Doc>)
    ensures SortedDown(sorted) && multiset(sorted) == multiset(list)
  {
    sorted := [];
    for n := 0 to |list|
      invariant SortedDown(sorted) && multiset(sorted) == multiset(list[..n])
    {
      assert list[..n + 1] == list[..n] + [list[n]];
      sorted := Insert(sorted, list[n]);
    }
    assert list[..|list|] == list;
  }

  /** Every document of a fusion was found, has the first content found for it, and is not a blank single hit. */
  predicate Sound(found: seq<Doc>, d: Doc) {
    && d.id != "" && (exists i :: 0 <= i < |found| && found[i].id == d.id)
    && (FoundTwice(found, d.id) || TrimSpace(d.content) != "")
  }

  lemma FusionIsSound(v: seq<Doc>, k: seq<Doc>, topK: nat, fused: seq<Doc>)
    requires IsFusion(v, k, topK, fused)
    ensures forall i :: 0 <= i < |fused| ==>
                Sound(v + k, fused[i]) && HasContent(v + k, fused[i].id, fused[i].content)
  {
    hide ContentOf, Hits, TrimSpace, FoundTwice;
    forall i | 0 <= i < |fused|
      ensures Sound(v + k, fused[i]) && HasContent(v + k, fused[i].id, fused[i].content)
    {
      EligibleIff(v, k, fused[i].id);
      BothHits(v, k, fused[i].id);
    }
  }

  method Fuse(vectorDocs: seq<Doc>, keywordDocs: seq<Doc>, topK: nat) returns (fused: seq<Doc>)
    ensures IsFusion(vectorDocs, keywordDocs, topK, fused)
    ensures forall i :: 0 <= i < |fused| ==>
                && Sound(vectorDocs + keywordDocs, fused[i])
                && HasContent(vectorDocs + keywordDocs, fused[i].id, fused[i].content)
  {
    hide Accumulated, Listed, IsFusion, SortedDown, Added, Sound, HasContent;
    var ranked := AddAll(map[], vectorDocs, VECTOR_WEIGHT);
    AddedVectors(vectorDocs, |vectorDocs|, keywordDocs);
    ghost var half := ranked;
    ranked := AddAll(ranked, keywordDocs, KEYWORD_WEIGHT);
    AddedKeywords(half, vectorDocs, keywordDocs, |keywordDocs|);
    OwnIds(ranked, vectorDocs, keywordDocs);
    var list := Collect(ranked);
    var sorted := SortDown(list);
    var n := topK;
    if n > |sorted| {
      n := |sorted|;
    }
    fused := [];
    for i := 0 to n
      invariant fused == sorted[..i]
    {
      fused := fused + [sorted[i]];
    }
    FusionMeets(vectorDocs, keywordDocs, ranked, list, sorted, topK, n);
    FusionIsSound(vectorDocs, keywordDocs, topK, fused);
  }

  lemma OwnIds(m: map<string, Ranked>, v: seq<Doc>, k: seq<Doc>)
    requires Accumulated(m, v, |v|, k, |k|)
    ensures forall id :: id in m ==> m[id].doc.id == id
  {
    forall id | id in m ensures m[id].doc.id == id {
      assert EntryOk(m, id, v, |v|, k, |k|);
    }
  }

  /** A sorted list of what was collected, cut at topK, is a fusion. */
  lemma FusionMeets(v: seq<Doc>, k: seq<Doc>, m: map<string, Ranked>, list: seq<Doc>, sorted: seq<Doc>, topK: nat,
                    n: nat)
    requires Accumulated(m, v, |v|, k, |k|) && Listed(m, list, {})
    requires SortedDown(sorted) && multiset(sorted) == multiset(list)
    requires n == if topK > |sorted| then |sorted| else topK
    ensures IsFusion(v, k, topK, sorted[..n])
  {
    hide Eligible, Accumulated, Listed, Score, ContentOf;
    ListedIds(v, k, m, list);
    SameElements(list, sorted);
    var fused := sorted[..n];
    forall id | Eligible(v, k, id) && (forall i :: 0 <= i < |fused| ==> fused[i].id != id)
      ensures |fused| == topK && forall i :: 0 <= i < |fused| ==> fused[i].score >= Score(v, k, id)
    {
      var d :| d in list && d.id == id;
      assert d in sorted;
      var j :| 0 <= j < |sorted| && sorted[j] == d;
      assert forall i :: 0 <= i < n ==> fused[i] == sorted[i];
    }
    forall i | 0 <= i < |fused| ensures fused[i] in list {
      assert sorted[i] in sorted;
    }
  }

  lemma ListedIds(v: seq<Doc>, k: seq<Doc>, m: map<string, Ranked>, list: seq<Doc>)
    requires Accumulated(m, v, |v|, k, |k|) && Listed(m, list, {})
    ensures DistinctDocs(list)
    ensures forall d :: d in list ==>
              Eligible(v, k, d.id) && d.score == Score(v, k, d.id) && d.content == ContentOf(v, k, d.id)
    ensures forall id :: Eligible(v, k, id) ==> exists d :: d in list && d.id == id
  {
    hide TrimSpace, ContentIn, ScoreIn, HitsIn;
    forall d | d in list ensures Eligible(v, k, d.id) && d.score == Score(v, k, d.id)
        && d.content == ContentOf(v, k, d.id) {
      assert EntryOk(m, d.id, v, |v|, k, |k|);
    }
    forall id | Eligible(v, k, id) ensures exists d :: d in list && d.id == id {
      assert EntryOk(m, id, v, |v|, k, |k|);
      assert id in m && Kept(m[id]);
      var i :| 0 <= i < |list| && list[i].id == id;
      assert list[i] in list;
    }
  }

  lemma SameElements(a: seq<Doc>, b: seq<Doc>)
    requires multiset(a) == multiset(b) && DistinctDocs(a)
    ensures DistinctDocs(b)
    ensures forall d :: d in a <==> d in b
  {
    forall d ensures d in a <==> d in b {
      assert d in a <==> d in multiset(a);
      assert d in b <==> d in multiset(b);
    }
    forall i, j | 0 <= i < j < |b| ensures b[i].id != b[j].id {
      Twice(b, i, j);
      Once(a, b[i]);
      assert b[i] in a && b[j] in a;
    }
  }

  lemma Twice(s: seq<Doc>, i: nat, j: nat)
    requires i < j < |s|
    ensures s[i] == s[j] ==> multiset(s)[s[i]] >= 2
  {
    assert s == s[..j] + [s[j]] + s[j + 1..];
    assert s[..j][i] == s[i];
    assert s[i] in multiset(s[..j]);
  }

  lemma {:induction false} Once(s: seq<Doc>, d: Doc)
    requires DistinctDocs(s)
    ensures multiset(s)[d] <= 1
  {
    if s != [] {
      var n := |s| - 1;
      Once(s[..n], d);
      assert s == s[..n] + [s[n]];
      assert s[n] !in s[..n];
      assert s[n] !in multiset(s[..n]);
    }
  }

  // ---------------------------------------------------------------- what the scores mean

  /** No two documents of one source share an id; nil documents have none. */
  predicate DistinctNamed(docs: seq<Doc>) {
    forall i, j :: 0 <= i < j < |docs| && docs[i].id != "" ==> docs[i].id != docs[j].id
  }

  predicate OnlyAt(docs: seq<Doc>, id: string, i: nat) {
    i < |docs| && docs[i].id == id && forall j :: 0 <= j < |docs| && j != i ==> docs[j].id != id
  }

  predicate Found(docs: seq<Doc>, id: string) {
    exists i :: 0 <= i < |docs| && docs[i].id == id
  }

  /** A document met once in a source scores there by its rank alone. */
  lemma {:induction false} ScoreByRank(docs: seq<Doc>, n: nat, id: string, weight: real, i: nat)
    requires n <= |docs| && OnlyAt(docs, id, i)
    ensures ScoreIn(docs, n, id, weight) == if i < n then Share(weight, i + 1) else 0.0
    ensures HitsIn(docs, n, id) == if i < n then 1 else 0
  {
    hide Share;
    if n > 0 {
      ScoreByRank(docs, n - 1, id, weight, i);
    }
  }

  lemma {:induction false} NotFound(docs: seq<Doc>, n: nat, id: string, weight: real)
    requires n <= |docs| && !Found(docs, id)
    ensures ScoreIn(docs, n, id, weight) == 0.0 && HitsIn(docs, n, id) == 0
  {
    if n > 0 {
      NotFound(docs, n - 1, id, weight);
    }
  }

  lemma FoundOnce(docs: seq<Doc>, id: string) returns (i: nat)
    requires DistinctNamed(docs) && Found(docs, id) && id != ""
    ensures OnlyAt(docs, id, i)
  {
    i :| 0 <= i < |docs| && docs[i].id == id;
  }

  /** What rank i in the vector results and rank j in the keyword results are worth, counted from one. */
  lemma ScoreOfRanks(v: seq<Doc>, k: seq<Doc>, id: string, i: nat, j: nat)
    ensures OnlyAt(v, id, i) && OnlyAt(k, id, j) ==>
              Score(v, k, id) == 1.0 / (60.0 + (i + 1) as real) + 0.8 / (60.0 + (j + 1) as real)
    ensures OnlyAt(v, id, i) && !Found(k, id) ==> Score(v, k, id) == 1.0 / (60.0 + (i + 1) as real)
    ensures !Found(v, id) && OnlyAt(k, id, j) ==> Score(v, k, id) == 0.8 / (60.0 + (j + 1) as real)
  {
    hide ScoreIn, HitsIn;
    if OnlyAt(v, id, i) {
      ScoreByRank(v, |v|, id, VECTOR_WEIGHT, i);
    }
    if OnlyAt(k, id, j) {
      ScoreByRank(k, |k|, id, KEYWORD_WEIGHT, j);
    }
    if !Found(v, id) {
      NotFound(v, |v|, id, VECTOR_WEIGHT);
    }
    if !Found(k, id) {
      NotFound(k, |k|, id, KEYWORD_WEIGHT);
    }
  }

  /** A better rank is worth strictly more. */
  lemma BetterRank(weight: real, r: nat, s: nat)
    requires weight > 0.0 && 0 < r < s
    ensures Share(weight, r) > Share(weight, s)
  {
    var x, y := 60.0 + r as real, 60.0 + s as real;
    assert weight / x * x == weight && weight / y * y == weight;
    if weight / x <= weight / y {
      assert weight / y * y >= weight / x * y;
      assert weight / x * y > weight / x * x;
    }
  }

  /** A document ahead of another in both sources scores strictly higher. */
  lemma AheadInBoth(v: seq<Doc>, k: seq<Doc>, a: string, b: string, va: nat, vb: nat, ka: nat, kb: nat)
    requires OnlyAt(v, a, va) && OnlyAt(v, b, vb) && OnlyAt(k, a, ka) && OnlyAt(k, b, kb)
    requires va < vb && ka < kb
    ensures Score(v, k, a) > Score(v, k, b)
  {
    hide Share, ScoreIn;
    ScoreByRank(v, |v|, a, VECTOR_WEIGHT, va);
    ScoreByRank(v, |v|, b, VECTOR_WEIGHT, vb);
    ScoreByRank(k, |k|, a, KEYWORD_WEIGHT, ka);
    ScoreByRank(k, |k|, b, KEYWORD_WEIGHT, kb);
    BetterRank(VECTOR_WEIGHT, va + 1, vb + 1);
    BetterRank(KEYWORD_WEIGHT, ka + 1, kb + 1);
  }

  /** With sources of at most `limit` documents, every document found by both scores above every
      document found by one. */
  ghost predicate AgreementWins(limit: nat) {
    forall v: seq<Doc>, k: seq<Doc>, a: string, b: string ::
      DistinctNamed(v) && DistinctNamed(k) && |v| <= limit && |k| <= limit && a != "" && b != ""
      && Found(v, a) && Found(k, a) && (Found(v, b) <==> !Found(k, b))
      ==> Score(v, k, a) > Score(v, k, b)
  }

  lemma ShareBounds(rank: nat, limit: nat)
    requires 1 <= rank <= limit
    ensures Share(VECTOR_WEIGHT, rank) <= Share(VECTOR_WEIGHT, 1)
              && Share(KEYWORD_WEIGHT, rank) <= Share(VECTOR_WEIGHT, 1)
    ensures Share(VECTOR_WEIGHT, rank) >= Share(VECTOR_WEIGHT, limit)
              && Share(KEYWORD_WEIGHT, rank) >= Share(KEYWORD_WEIGHT, limit)
  {
    hide Share;
    if rank > 1 {
      BetterRank(VECTOR_WEIGHT, 1, rank);
      BetterRank(KEYWORD_WEIGHT, 1, rank);
    }
    if rank < limit {
      BetterRank(VECTOR_WEIGHT, rank, limit);
      BetterRank(KEYWORD_WEIGHT, rank, limit);
    }
    assert Share(KEYWORD_WEIGHT, 1) < Share(VECTOR_WEIGHT, 1) by {
      FirstShares();
    }
  }

  lemma FirstShares()
    ensures Share(KEYWORD_WEIGHT, 1) == 0.8 / 61.0 && Share(VECTOR_WEIGHT, 1) == 1.0 / 61.0
  {
  }

  /** 1/(60+L) + 0.8/(60+L) against 1/61. */
  lemma WorstAgreement(limit: nat)
    requires limit > 0
    ensures Share(VECTOR_WEIGHT, limit) + Share(KEYWORD_WEIGHT, limit) > Share(VECTOR_WEIGHT, 1) <==> limit <= 49
  {
    var y := 60.0 + limit as real;
    assert 1.0 / y * y == 1.0 && 0.8 / y * y == 0.8;
    var sum := 1.0 / y + 0.8 / y;
    assert sum * y == 1.8;
    if limit <= 49 {
      assert 1.0 / 61.0 * y <= 1.0 / 61.0 * 109.0 < 1.8;
      Cancel(1.0 / 61.0, sum, y);
    } else {
      assert 1.0 / 61.0 * y >= 1.0 / 61.0 * 110.0 > 1.8;
      Cancel(sum, 1.0 / 61.0, y);
    }
  }

  lemma Cancel(a: real, b: real, y: real)
    requires y > 0.0 && a * y < b * y
    ensures a < b
  {
    assert (b - a) * y > 0.0;
  }

  /** What a document found by both, and one found by one, are worth at least and at most. */
  lemma WorstAndBest(v: seq<Doc>, k: seq<Doc>, a: string, b: string, limit: nat)
    requires DistinctNamed(v) && DistinctNamed(k) && |v| <= limit && |k| <= limit && a != "" && b != ""
    requires Found(v, a) && Found(k, a) && (Found(v, b) <==> !Found(k, b))
    ensures limit > 0 && Score(v, k, a) >= Share(VECTOR_WEIGHT, limit) + Share(KEYWORD_WEIGHT, limit)
    ensures Score(v, k, b) <= Share(VECTOR_WEIGHT, 1)
  {
    hide Share, ScoreIn, DistinctNamed;
    var va := FoundOnce(v, a);
    var ka := FoundOnce(k, a);
    ScoreByRank(v, |v|, a, VECTOR_WEIGHT, va);
    ScoreByRank(k, |k|, a, KEYWORD_WEIGHT, ka);
    ShareBounds(va + 1, limit);
    ShareBounds(ka + 1, limit);
    if Found(v, b) {
      var vb := FoundOnce(v, b);
      ScoreByRank(v, |v|, b, VECTOR_WEIGHT, vb);
      NotFound(k, |k|, b, KEYWORD_WEIGHT);
      ShareBounds(vb + 1, limit);
    } else {
      var kb := FoundOnce(k, b);
      ScoreByRank(k, |k|, b, KEYWORD_WEIGHT, kb);
      NotFound(v, |v|, b, VECTOR_WEIGHT);
      ShareBounds(kb + 1, limit);
    }
  }

  lemma BothAboveOne(v: seq<Doc>, k: seq<Doc>, a: string, b: string, limit: nat)
    requires DistinctNamed(v) && DistinctNamed(k) && |v| <= limit && |k| <= limit && a != "" && b != "" && limit <= 49
    requires Found(v, a) && Found(k, a) && (Found(v, b) <==> !Found(k, b))
    ensures Score(v, k, a) > Score(v, k, b)
  {
    hide Share, Score, DistinctNamed;
    WorstAndBest(v, k, a, b, limit);
    WorstAgreement(limit);
  }

  /** Longer than "a" and "b", and different for every tag and number. */
  function Name(tag: char, n: nat): (r: string)
    ensures |r| == n + 2 && r[0] == tag
  {
    if n == 0 then [tag, tag] else Name(tag, n - 1) + [tag]
  }

  function Fillers(tag: char, n: nat): (r: seq<Doc>)
    ensures |r| == n && forall i :: 0 <= i < n ==> r[i].id == Name(tag, i)
  {
    seq(n, i requires 0 <= i < n => Doc(Name(tag, i), "x", 0.0))
  }

  /** Distinct documents: "b" first, "a" last. */
  function LongVector(limit: nat): (r: seq<Doc>)
    requires limit >= 2
    ensures |r| == limit
  {
    [Doc("b", "x", 0.0)] + Fillers('v', limit - 2) + [Doc("a", "x", 0.0)]
  }

  /** Distinct documents other than those, and "a" last. */
  function LongKeyword(limit: nat): (r: seq<Doc>)
    requires limit >= 2
    ensures |r| == limit
  {
    Fillers('k', limit - 1) + [Doc("a", "x", 0.0)]
  }

  predicate AllDistinct(docs: seq<Doc>) {
    DistinctNamed(docs) && forall i :: 0 <= i < |docs| ==> docs[i].id != ""
  }

  lemma LongListsMeet(limit: nat)
    requires limit >= 2
    ensures AllDistinct(LongVector(limit)) && AllDistinct(LongKeyword(limit))
    ensures OnlyAt(LongVector(limit), "a", limit - 1) && OnlyAt(LongKeyword(limit), "a", limit - 1)
    ensures OnlyAt(LongVector(limit), "b", 0) && !Found(LongKeyword(limit), "b")
  {
    var v, k := LongVector(limit), LongKeyword(limit);
    forall i | 0 <= i < |v| ensures v[i].id == if i == 0 then "b" else if i == limit - 1 then "a"
        else Name('v', i - 1) {
    }
    forall i | 0 <= i < |k| ensures k[i].id == if i == limit - 1 then "a" else Name('k', i) {
    }
  }

  lemma LongListScores(limit: nat)
    requires limit >= 2
    ensures Score(LongVector(limit), LongKeyword(limit), "a")
              == Share(VECTOR_WEIGHT, limit) + Share(KEYWORD_WEIGHT, limit)
    ensures Score(LongVector(limit), LongKeyword(limit), "b") == Share(VECTOR_WEIGHT, 1)
  {
    hide Share, ScoreIn, LongVector, LongKeyword;
    var v, k := LongVector(limit), LongKeyword(limit);
    LongListsMeet(limit);
    ScoreByRank(v, |v|, "a", VECTOR_WEIGHT, limit - 1);
    ScoreByRank(k, |k|, "a", KEYWORD_WEIGHT, limit - 1);
    ScoreByRank(v, |v|, "b", VECTOR_WEIGHT, 0);
    NotFound(k, |k|, "b", KEYWORD_WEIGHT);
  }

  lemma FoundAt(docs: seq<Doc>, id: string, i: nat)
    requires OnlyAt(docs, id, i)
    ensures Found(docs, id)
  {
  }

  /** Two sources of `limit` > 49 distinct documents: "a" is last in both, "b" first in one. */
  lemma LongListsBreakAgreement(limit: nat)
    requires limit > 49
    ensures !AgreementWins(limit)
  {
    hide Share, Score, LongVector, LongKeyword, OnlyAt, DistinctNamed, Found;
    var v, k := LongVector(limit), LongKeyword(limit);
    LongListsMeet(limit);
    LongListScores(limit);
    WorstAgreement(limit);
    FoundAt(v, "a", limit - 1);
    FoundAt(k, "a", limit - 1);
    FoundAt(v, "b", 0);
    assert !(Score(v, k, "a") > Score(v, k, "b"));
  }

  /** Agreement of the two sources outweighs every single hit exactly up to lists of 49 documents. */
  lemma AgreementWinsIff(limit: nat)
    ensures AgreementWins(limit) <==> limit <= 49
  {
    if limit <= 49 {
      forall v: seq<Doc>, k: seq<Doc>, a: string, b: string |
        DistinctNamed(v) && DistinctNamed(k) && |v| <= limit && |k| <= limit && a != "" && b != ""
        && Found(v, a) && Found(k, a) && (Found(v, b) <==> !Found(k, b))
        ensures Score(v, k, a) > Score(v, k, b)
      {
        BothAboveOne(v, k, a, b, limit);
      }
    } else {
      LongListsBreakAgreement(limit);
    }
  }

  /** retrieveWithHybrid asks each source for 2 * topK documents. So for topK <= 24 no document found by
      one source stands before, or crowds out, one found by both. */
  lemma BothComeFirst(v: seq<Doc>, k: seq<Doc>, topK: nat, fused: seq<Doc>, a: string, j: nat)
    requires IsFusion(v, k, topK, fused) && DistinctNamed(v) && DistinctNamed(k)
    requires |v| <= 2 * topK && |k| <= 2 * topK && topK <= 24
    requires a != "" && Found(v, a) && Found(k, a)
    requires j < |fused| && (Found(v, fused[j].id) <==> !Found(k, fused[j].id))
    ensures exists i :: 0 <= i < j && fused[i].id == a
  {
    hide DistinctNamed, Score;
    BothEligible(v, k, a);
    assert (forall i :: 0 <= i < |fused| ==> fused[i].id != a) ==> fused[j].score >= Score(v, k, a);
    BothAboveOne(v, k, a, fused[j].id, 2 * topK);
    var i :| 0 <= i < |fused| && fused[i].id == a;
    assert i != j && !(j < i);
  }

  lemma BothEligible(v: seq<Doc>, k: seq<Doc>, a: string)
    requires DistinctNamed(v) && DistinctNamed(k) && a != "" && Found(v, a) && Found(k, a)
    ensures Eligible(v, k, a)
  {
    hide TrimSpace, ContentIn, Share;
    var va := FoundOnce(v, a);
    var ka := FoundOnce(k, a);
    ScoreByRank(v, |v|, a, VECTOR_WEIGHT, va);
    ScoreByRank(k, |k|, a, KEYWORD_WEIGHT, ka);
  }

  // ---------------------------------------------------------------- the graph boost

  function ClampScore(s: real): (r: real)
    ensures 0.0 <= r <= 1.0 && (0.0 <= s <= 1.0 ==> r == s) && (s < 0.0 ==> r == 0.0) && (s > 1.0 ==> r == 1.0)
  {
    if s > 1.0 then 1.0 else if s < 0.0 then 0.0 else s
  }

  function Boosted(d: Doc, graph: set<string>): Doc {
    if d.id in graph then d.(score := ClampScore(d.score * 1.2)) else d
  }

  function BoostAll(docs: seq<Doc>, graph: set<string>): (r: seq<Doc>)
    ensures |r| == |docs| && forall i :: 0 <= i < |r| ==> r[i] == Boosted(docs[i], graph)
  {
    seq(|docs|, i requires 0 <= i < |docs| => Boosted(docs[i], graph))
  }

  /** The boost of documents the graph confirms, and the second sort. */
  method Boost(fused: seq<Doc>, graph: set<string>) returns (r: seq<Doc>)
    requires SortedDown(fused)
    ensures SortedDown(r) && multiset(r) == multiset(BoostAll(fused, graph))
  {
    hide SortedDown, ClampScore;
    r := fused;
    if graph != {} {
      r := [];
      for i := 0 to |fused|
        invariant r == BoostAll(fused, graph)[..i]
      {
        var doc := fused[i];
        if doc.id in graph {
          doc := doc.(score := ClampScore(doc.score * 1.2));
        }
        r := r + [doc];
      }
      assert r == BoostAll(fused, graph);
      r := SortDown(r);
    } else {
      assert BoostAll(fused, graph) == fused by {
        NoBoost(fused);
      }
    }
  }

  lemma NoBoost(fused: seq<Doc>)
    ensures BoostAll(fused, {}) == fused
  {
  }

  lemma ScoreRange(v: seq<Doc>, k: seq<Doc>, id: string)
    requires DistinctNamed(v) && DistinctNamed(k) && id != ""
    ensures 0.0 <= Score(v, k, id) <= 2.0 / 61.0
  {
    hide Share, ScoreIn, DistinctNamed;
    FirstShares();
    if Found(v, id) {
      var i := FoundOnce(v, id);
      ScoreByRank(v, |v|, id, VECTOR_WEIGHT, i);
      ShareBounds(i + 1, i + 1);
    } else {
      NotFound(v, |v|, id, VECTOR_WEIGHT);
    }
    if Found(k, id) {
      var i := FoundOnce(k, id);
      ScoreByRank(k, |k|, id, KEYWORD_WEIGHT, i);
      ShareBounds(i + 1, i + 1);
    } else {
      NotFound(k, |k|, id, KEYWORD_WEIGHT);
    }
  }

  /** On fused scores of distinct lists the clamp never acts: a boost is exactly a factor of 1.2, so a
      confirmed document never falls behind one it was not behind before. */
  lemma ClampIsDead(v: seq<Doc>, k: seq<Doc>, topK: nat, fused: seq<Doc>, graph: set<string>, i: nat)
    requires IsFusion(v, k, topK, fused) && DistinctNamed(v) && DistinctNamed(k) && i < |fused|
    ensures Boosted(fused[i], graph).score == if fused[i].id in graph then fused[i].score * 1.2 else fused[i].score
    ensures fused[i].id in graph ==> forall j :: i < j < |fused| ==>
              Boosted(fused[i], graph).score >= Boosted(fused[j], graph).score
  {
    hide Score, DistinctNamed, TrimSpace;
    forall j | 0 <= j < |fused| ensures 0.0 <= fused[j].score <= 2.0 / 61.0 {
      ScoreRange(v, k, fused[j].id);
    }
    hide Eligible;
  }

  // ---------------------------------------------------------------- agreement under the boost

  /** The score of a document after the boost. */
  function FinalScore(v: seq<Doc>, k: seq<Doc>, id: string, graph: set<string>): real {
    if id in graph then ClampScore(Score(v, k, id) * 1.2) else Score(v, k, id)
  }

  /** Whatever the graph confirms, every document found by both stays above every document found by one. */
  ghost predicate AgreementOutlastsBoost(limit: nat) {
    forall v: seq<Doc>, k: seq<Doc>, a: string, b: string, graph: set<string> ::
      DistinctNamed(v) && DistinctNamed(k) && |v| <= limit && |k| <= limit && a != "" && b != ""
      && Found(v, a) && Found(k, a) && (Found(v, b) <==> !Found(k, b))
      ==> FinalScore(v, k, a, graph) > FinalScore(v, k, b, graph)
  }

  /** 1.8/(60+L) against 1.2/61. */
  lemma WorstBoosted(limit: nat)
    requires limit > 0
    ensures Share(VECTOR_WEIGHT, limit) + Share(KEYWORD_WEIGHT, limit) > Share(VECTOR_WEIGHT, 1) * 1.2 <==> limit <= 31
  {
    var y := 60.0 + limit as real;
    assert 1.0 / y * y == 1.0 && 0.8 / y * y == 0.8;
    var sum := 1.0 / y + 0.8 / y;
    assert sum * y == 1.8;
    var best := 1.0 / 61.0 * 1.2;
    if limit <= 31 {
      assert best * y <= best * 91.0 < 1.8;
      Cancel(best, sum, y);
    } else {
      assert best * y >= best * 92.0 > 1.8;
      Cancel(sum, best, y);
    }
  }

  lemma BoostedStill(v: seq<Doc>, k: seq<Doc>, a: string, b: string, graph: set<string>, limit: nat)
    requires DistinctNamed(v) && DistinctNamed(k) && |v| <= limit && |k| <= limit && a != "" && b != "" && limit <= 31
    requires Found(v, a) && Found(k, a) && (Found(v, b) <==> !Found(k, b))
    ensures FinalScore(v, k, a, graph) > FinalScore(v, k, b, graph)
  {
    hide Share, Score, DistinctNamed;
    WorstAndBest(v, k, a, b, limit);
    WorstBoosted(limit);
    ScoreRange(v, k, a);
    ScoreRange(v, k, b);
  }

  /** The boost halves the room: agreement is safe from it exactly up to lists of 31 documents. */
  lemma AgreementOutlastsBoostIff(limit: nat)
    ensures AgreementOutlastsBoost(limit) <==> limit <= 31
  {
    hide FinalScore, DistinctNamed, Found;
    if limit <= 31 {
      forall v: seq<Doc>, k: seq<Doc>, a: string, b: string, graph: set<string> |
        DistinctNamed(v) && DistinctNamed(k) && |v| <= limit && |k| <= limit && a != "" && b != ""
        && Found(v, a) && Found(k, a) && (Found(v, b) <==> !Found(k, b))
        ensures FinalScore(v, k, a, graph) > FinalScore(v, k, b, graph)
      {
        BoostedStill(v, k, a, b, graph, limit);
      }
    } else {
      BoostBreaksAgreement(limit);
    }
  }

  lemma BoostBreaksAgreement(limit: nat)
    requires limit > 31
    ensures !AgreementOutlastsBoost(limit)
  {
    hide Share, Score, LongVector, LongKeyword, OnlyAt, DistinctNamed, Found;
    var v, k := LongVector(limit), LongKeyword(limit);
    LongListsMeet(limit);
    LongListScores(limit);
    WorstBoosted(limit);
    FoundAt(v, "a", limit - 1);
    FoundAt(k, "a", limit - 1);
    FoundAt(v, "b", 0);
    ScoreRange(v, k, "b");
    assert !(FinalScore(v, k, "a", {"b"}) > FinalScore(v, k, "b", {"b"}));
  }

  /** So for topK <= 15 the order of BothComeFirst holds in the boosted ranking as well. */
  lemma BothStayFirst(v: seq<Doc>, k: seq<Doc>, topK: nat, fused: seq<Doc>, graph: set<string>, r: seq<Doc>, a: string,
                      j: nat)
    requires IsFusion(v, k, topK, fused) && DistinctNamed(v) && DistinctNamed(k)
    requires SortedDown(r) && multiset(r) == multiset(BoostAll(fused, graph))
    requires |v| <= 2 * topK && |k| <= 2 * topK && topK <= 15
    requires a != "" && Found(v, a) && Found(k, a)
    requires j < |r| && (Found(v, r[j].id) <==> !Found(k, r[j].id))
    ensures exists i :: 0 <= i < j && r[i].id == a
  {
    hide DistinctNamed, Score, Found, IsFusion, SortedDown, Boosted, BoostAll, FinalScore;
    var x := Unboosted(fused, graph, r, j);
    BothComeFirst(v, k, topK, fused, a, x);
    var y :| 0 <= y < x && fused[y].id == a;
    var i := Reboosted(fused, graph, r, y);
    BoostedIs(v, k, topK, fused, graph, x);
    BoostedIs(v, k, topK, fused, graph, y);
    BoostedStill(v, k, a, fused[x].id, graph, 2 * topK);
    HigherIsEarlier(r, i, j);
  }

  lemma BoostedIs(v: seq<Doc>, k: seq<Doc>, topK: nat, fused: seq<Doc>, graph: set<string>, x: nat)
    requires IsFusion(v, k, topK, fused) && x < |fused|
    ensures Boosted(fused[x], graph).id == fused[x].id && fused[x].id != ""
    ensures Boosted(fused[x], graph).score == FinalScore(v, k, fused[x].id, graph)
  {
  }

  lemma HigherIsEarlier(r: seq<Doc>, i: nat, j: nat)
    requires SortedDown(r) && i < |r| && j < |r| && r[i].score > r[j].score
    ensures i < j
  {
  }

  /** Where a document of the boosted ranking comes from, and where one of the fusion goes. */
  lemma Unboosted(fused: seq<Doc>, graph: set<string>, r: seq<Doc>, j: nat) returns (x: nat)
    requires multiset(r) == multiset(BoostAll(fused, graph)) && j < |r|
    ensures x < |fused| && r[j] == Boosted(fused[x], graph) && r[j].id == fused[x].id
  {
    assert r[j] in multiset(r);
    x :| 0 <= x < |fused| && BoostAll(fused, graph)[x] == r[j];
  }

  lemma Reboosted(fused: seq<Doc>, graph: set<string>, r: seq<Doc>, y: nat) returns (i: nat)
    requires multiset(r) == multiset(BoostAll(fused, graph)) && y < |fused|
    ensures i < |r| && r[i] == Boosted(fused[y], graph) && r[i].id == fused[y].id
  {
    assert BoostAll(fused, graph)[y] in multiset(BoostAll(fused, graph));
    i :| 0 <= i < |r| && r[i] == BoostAll(fused, graph)[y];
  }
}
