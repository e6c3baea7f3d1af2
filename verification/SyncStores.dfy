/** incrementalSync and fullReindex on the chunk table and the vector store (internal/handler/api.go). */
module SyncStores {
  import opened Counting
  import opened IncrementalSync

  /** What the vector store keeps beside the embedding itself. */
  datatype Vector = Vector(doc: string, index: nat, content: string)

  datatype SyncResult = SyncResult(added: nat, removed: nat, retained: nat)

  type Rows = map<string, Chunk>
  type Vectors = map<string, Vector>

  /** Every row sits under its id, and its hash, if it has one, is that of its content. */
  predicate Consistent(rows: Rows) {
    forall id :: id in rows ==>
      rows[id].id == id && (rows[id].hash == Missing || rows[id].hash == ContentHash(rows[id].content))
  }

  ghost function DocIds(rows: Rows, doc: string): set<string> {
    set id | id in rows && rows[id].doc == doc
  }

  ghost function VectorIds(vectors: Vectors, doc: string): set<string> {
    set id | id in vectors && vectors[id].doc == doc
  }

  ghost function WithContent(rows: Rows, doc: string, c: string): set<string> {
    set id | id in rows && rows[id].doc == doc && rows[id].content == c
  }

  /** The chunks of one document, each once. */
  predicate Enumerates(chunks: seq<Chunk>, rows: Rows, doc: string) {
    && DistinctIds(chunks)
    && (forall i :: 0 <= i < |chunks| ==>
          chunks[i].id in rows && rows[chunks[i].id] == chunks[i] && chunks[i].doc == doc)
    && (forall id :: id in rows && rows[id].doc == doc ==> exists i :: 0 <= i < |chunks| && chunks[i].id == id)
  }

  /** New ids: distinct and unused. */
  predicate FreshIds(ids: seq<string>, n: nat, rows: Rows, vectors: Vectors) {
    n <= |ids| && NoDup(ids) && forall j :: 0 <= j < |ids| ==> ids[j] !in rows && ids[j] !in vectors
  }

  function NewRow(doc: string, contents: seq<string>, idx: nat, id: string): Chunk
    requires idx < |contents|
  {
    Chunk(id, doc, idx, contents[idx], ContentHash(contents[idx]))
  }

  function NewVector(doc: string, contents: seq<string>, idx: nat): Vector
    requires idx < |contents|
  {
    Vector(doc, idx, contents[idx])
  }

  predicate InRangeOf(added: seq<nat>, contents: seq<string>) {
    forall j :: 0 <= j < |added| ==> added[j] < |contents|
  }

  /** `after` is `before` with the first n new chunks, the j-th one for content number added[j]. */
  ghost predicate RowsPlus(before: Rows, after: Rows, doc: string, contents: seq<string>, added: seq<nat>,
                           ids: seq<string>, n: nat)
    requires n <= |added| && n <= |ids| && InRangeOf(added, contents)
  {
    && after.Keys == before.Keys + (set j | 0 <= j < n :: ids[j])
    && (forall id :: id in before && id !in ids ==> after[id] == before[id])
    && (forall j :: 0 <= j < n ==> after[ids[j]] == NewRow(doc, contents, added[j], ids[j]))
  }

  ghost predicate VectorsPlus(before: Vectors, after: Vectors, doc: string, contents: seq<string>, added: seq<nat>,
                              ids: seq<string>, n: nat)
    requires n <= |added| && n <= |ids| && InRangeOf(added, contents)
  {
    && after.Keys == before.Keys + (set j | 0 <= j < n :: ids[j])
    && (forall id :: id in before && id !in ids ==> after[id] == before[id])
    && (forall j :: 0 <= j < n ==> after[ids[j]] == NewVector(doc, contents, added[j]))
  }

  /** An id in both stores belongs to the same document in both. */
  ghost predicate SameOwner(rows: Rows, vectors: Vectors) {
    forall id :: id in rows && id in vectors ==> rows[id].doc == vectors[id].doc
  }

  /** The ids of the document that only one store has, as a failed write leaves them. */
  ghost function Drift(rows: Rows, vectors: Vectors, doc: string): set<string> {
    (DocIds(rows, doc) - VectorIds(vectors, doc)) + (VectorIds(vectors, doc) - DocIds(rows, doc))
  }

  /** The document's rows hold the new contents, with multiplicity, under the same ids in both stores, and no
      other document has changed in either. */
  ghost predicate InSync(r0: Rows, v0: Vectors, r1: Rows, v1: Vectors, doc: string, contents: seq<string>) {
    Written(r0, v0, r1, v1, doc, contents) && Drift(r1, v1, doc) == {}
  }

  /** Every new row carries the position of its content, and its vector the same position and content. */
  ghost predicate NewOnes(r0: Rows, r1: Rows, v1: Vectors, doc: string, contents: seq<string>) {
    forall id :: id in DocIds(r1, doc) && id !in r0 ==>
      && r1[id].index < |contents| && contents[r1[id].index] == r1[id].content
      && id in v1 && v1[id] == Vector(doc, r1[id].index, r1[id].content)
  }

  /** No two new rows stand for the same position. */
  ghost predicate NewPositionsApart(r0: Rows, r1: Rows, doc: string) {
    forall x, y :: x in DocIds(r1, doc) && x !in r0 && y in DocIds(r1, doc) && y !in r0 && x != y ==>
      r1[x].index != r1[y].index
  }

  /** Where both stores have a chunk of the document, they have the same content. */
  ghost predicate SameContents(rows: Rows, vectors: Vectors, doc: string) {
    forall id :: id in DocIds(rows, doc) && id in vectors ==> vectors[id].content == rows[id].content
  }

  /** The same but for the ids that only one store has. */
  ghost predicate Written(r0: Rows, v0: Vectors, r1: Rows, v1: Vectors, doc: string, contents: seq<string>) {
    && Consistent(r1)
    && (forall id :: id in DocIds(r1, doc) ==> r1[id].hash != Missing)
    && (forall c :: |WithContent(r1, doc, c)| == multiset(contents)[c])
    && NewOnes(r0, r1, v1, doc, contents) && NewPositionsApart(r0, r1, doc)
    && (forall id :: id in r0 && r0[id].doc != doc ==> id in r1 && r1[id] == r0[id])
    && (forall id :: id in r1 && r1[id].doc != doc ==> id in r0)
    && (forall id :: id in v0 && v0[id].doc != doc ==> id in v1 && v1[id] == v0[id])
    && (forall id :: id in v1 && v1[id].doc != doc ==> id in v0)
  }

  ghost predicate SameEntry(v0: Vectors, v1: Vectors, id: string) {
    (id in v0 <==> id in v1) && (id in v0 ==> v1[id] == v0[id])
  }

  /** Of every content as many stored chunks survive as the old and the new contents share, all as they were in
      both stores; drift is repaired exactly in the removed rows, and none is added; the result counts what was
      added, removed and retained. */
  ghost predicate Frugal(r0: Rows, v0: Vectors, r1: Rows, v1: Vectors, doc: string, contents: seq<string>,
                         res: SyncResult) {
    && (forall c :: |WithContent(r0, doc, c) * r1.Keys| == Min(|WithContent(r0, doc, c)|, multiset(contents)[c]))
    && (forall id :: id in DocIds(r0, doc) && id in r1 ==> r1[id] == r0[id] && SameEntry(v0, v1, id))
    && Drift(r1, v1, doc) == Drift(r0, v0, doc) - (DocIds(r0, doc) - r1.Keys)
    && res.retained == |DocIds(r0, doc) * r1.Keys|
    && res.removed == |DocIds(r0, doc) - r1.Keys|
    && res.added == |DocIds(r1, doc) - r0.Keys|
  }

  // ---------------------------------------------------------------- counting stored chunks

  /** The ids at an index set of an enumeration. */
  ghost function IdsOf(chunks: seq<Chunk>, indices: set<nat>): set<string>
    requires forall i :: i in indices ==> i < |chunks|
  {
    set i | i in indices :: chunks[i].id
  }

  function Names(chunks: seq<Chunk>): (r: seq<string>)
    ensures |r| == |chunks| && forall i :: 0 <= i < |r| ==> r[i] == chunks[i].id
  {
    seq(|chunks|, i requires 0 <= i < |chunks| => chunks[i].id)
  }

  lemma IdsOfSize(chunks: seq<Chunk>, indices: set<nat>)
    requires DistinctIds(chunks) && forall i :: i in indices ==> i < |chunks|
    ensures |IdsOf(chunks, indices)| == |indices|
  {
    ImageSize(indices, Names(chunks));
    assert IdsOf(chunks, indices) == set i | i in indices :: Names(chunks)[i];
  }

  /** With hashes present, the rows of content c are the stored chunks of its hash. */
  lemma StoredOf(chunks: seq<Chunk>, rows: Rows, doc: string, c: string, m: nat)
    requires Consistent(rows) && Enumerates(chunks, rows, doc)
    requires forall i :: 0 <= i < |chunks| ==> chunks[i].hash != Missing
    requires m >= multiset(StoredHashes(chunks))[Of(c)]
    ensures WithContent(rows, doc, c) == IdsOf(chunks, FirstFew(StoredHashes(chunks), Of(c), m))
  {
    var os := StoredHashes(chunks);
    var few := FirstFew(os, Of(c), m);
    assert os[..|os|] == os;
    forall i: nat | i < |os| && os[i] == Of(c) ensures i in few {
      OccLess(os, i, |os|);
    }
    forall id | id in WithContent(rows, doc, c) ensures id in IdsOf(chunks, few) {
      var i :| 0 <= i < |chunks| && chunks[i].id == id;
      assert os[i] == Of(c);
    }
  }

  lemma CountStored(chunks: seq<Chunk>, rows: Rows, doc: string, c: string)
    requires Consistent(rows) && Enumerates(chunks, rows, doc)
    requires forall i :: 0 <= i < |chunks| ==> chunks[i].hash != Missing
    ensures |WithContent(rows, doc, c)| == multiset(StoredHashes(chunks))[Of(c)]
  {
    hide Occ, Consistent, FirstFew;
    var os := StoredHashes(chunks);
    var m := multiset(os)[Of(c)];
    FewInRange(os, Of(c), m);
    StoredOf(chunks, rows, doc, c, m);
    IdsOfSize(chunks, FirstFew(os, Of(c), m));
    CountFirstFew(os, Of(c), m);
  }

  lemma FewInRange<T>(s: seq<T>, x: T, m: nat)
    ensures forall i :: i in FirstFew(s, x, m) ==> i < |s| && s[i] == x
    ensures forall i :: i in Later(s, x, m) ==> i < |s| && s[i] == x
  {
  }

  lemma {:induction false} HashCounts(contents: seq<string>, c: string)
    ensures multiset(HashesOf(contents))[Of(c)] == multiset(contents)[c]
  {
    if contents == [] {
      assert HashesOf(contents) == [];
    } else {
      var n := |contents| - 1;
      HashCounts(contents[..n], c);
      assert contents == contents[..n] + [contents[n]];
      assert HashesOf(contents) == HashesOf(contents[..n]) + [ContentHash(contents[n])];
    }
  }

  // ---------------------------------------------------------------- what a diff leaves behind

  ghost function IdSet(ids: seq<string>): set<string> {
    set id | id in ids
  }

  lemma RowPlace(chunks: seq<Chunk>, rows: Rows, doc: string, id: string, c: string) returns (i: nat)
    requires Consistent(rows) && Enumerates(chunks, rows, doc) && id in WithContent(rows, doc, c)
    requires forall i :: 0 <= i < |chunks| ==> chunks[i].hash != Missing
    ensures i < |chunks| && chunks[i].id == id && StoredHashes(chunks)[i] == Of(c)
  {
    i :| 0 <= i < |chunks| && chunks[i].id == id;
  }

  lemma PlaceRow(chunks: seq<Chunk>, rows: Rows, doc: string, i: nat, c: string)
    requires Consistent(rows) && Enumerates(chunks, rows, doc) && i < |chunks| && StoredHashes(chunks)[i] == Of(c)
    requires chunks[i].hash != Missing
    ensures chunks[i].id in WithContent(rows, doc, c)
  {
  }

  lemma KeptPlace(chunks: seq<Chunk>, contents: seq<string>, d: DiffResult, i: nat, c: string)
    requires d.Diff? && IsDiff(chunks, contents, d) && DistinctIds(chunks)
    requires i < |chunks| && StoredHashes(chunks)[i] == Of(c)
    ensures chunks[i].id in d.removed <==>
            i !in FirstFew(StoredHashes(chunks), Of(c), multiset(HashesOf(contents))[Of(c)])
  {
    hide Occ, HashesOf, NoDup, StoredHashes;
  }

  /** Of content c, the surviving rows are the first occurrences, as many as the new contents hold. */
  lemma KeptOf(chunks: seq<Chunk>, rows: Rows, doc: string, contents: seq<string>, d: DiffResult, c: string)
    requires Consistent(rows) && Enumerates(chunks, rows, doc) && d.Diff? && IsDiff(chunks, contents, d)
    requires forall i :: 0 <= i < |chunks| ==> chunks[i].hash != Missing
    ensures forall i :: i in FirstFew(StoredHashes(chunks), Of(c), multiset(HashesOf(contents))[Of(c)]) ==> i < |chunks|
    ensures WithContent(rows, doc, c) - IdSet(d.removed)
            == IdsOf(chunks, FirstFew(StoredHashes(chunks), Of(c), multiset(HashesOf(contents))[Of(c)]))
  {
    assert DistinctIds(chunks);
    hide Occ, HashesOf, NoDup, WithContent, IsDiff, Consistent, Enumerates, FirstFew;
    var os := StoredHashes(chunks);
    var m := multiset(HashesOf(contents))[Of(c)];
    var few := FirstFew(os, Of(c), m);
    FewInRange(os, Of(c), m);
    forall id | id in WithContent(rows, doc, c) - IdSet(d.removed) ensures id in IdsOf(chunks, few) {
      var i := RowPlace(chunks, rows, doc, id, c);
      KeptPlace(chunks, contents, d, i, c);
    }
    forall id | id in IdsOf(chunks, few) ensures id in WithContent(rows, doc, c) && id !in d.removed {
      var i :| i in few && chunks[i].id == id;
      KeptPlace(chunks, contents, d, i, c);
      PlaceRow(chunks, rows, doc, i, c);
    }
  }

  lemma CountKept(chunks: seq<Chunk>, rows: Rows, doc: string, contents: seq<string>, d: DiffResult, c: string)
    requires Consistent(rows) && Enumerates(chunks, rows, doc) && d.Diff? && IsDiff(chunks, contents, d)
    requires forall i :: 0 <= i < |chunks| ==> chunks[i].hash != Missing
    ensures |WithContent(rows, doc, c) - IdSet(d.removed)|
              == Min(multiset(StoredHashes(chunks))[Of(c)], multiset(contents)[c])
  {
    hide Consistent, IsDiff, FirstFew, WithContent, IdsOf;
    var os, m := StoredHashes(chunks), multiset(HashesOf(contents))[Of(c)];
    KeptOf(chunks, rows, doc, contents, d, c);
    IdsOfSize(chunks, FirstFew(os, Of(c), m));
    CountFirstFew(os, Of(c), m);
    HashCounts(contents, c);
  }

  /** The new ids given to content c. */
  ghost function NewIds(contents: seq<string>, added: seq<nat>, ids: seq<string>, c: string): set<string>
    requires |added| <= |ids| && InRangeOf(added, contents)
  {
    set j | 0 <= j < |added| && contents[added[j]] == c :: ids[j]
  }

  lemma CountNew(chunks: seq<Chunk>, contents: seq<string>, d: DiffResult, ids: seq<string>, c: string)
    requires d.Diff? && IsDiff(chunks, contents, d) && NoDup(ids) && |d.added| <= |ids| && InRangeOf(d.added, contents)
    ensures |NewIds(contents, d.added, ids, c)|
            == multiset(contents)[c] - Min(multiset(contents)[c], multiset(StoredHashes(chunks))[Of(c)])
  {
    hide Occ;
    var ns, o := HashesOf(contents), multiset(StoredHashes(chunks))[Of(c)];
    var places: set<nat> := set j: nat | j < |d.added| && contents[d.added[j]] == c;
    ImageSize(places, ids);
    assert NewIds(contents, d.added, ids, c) == set j | j in places :: ids[j];
    ImageSizeNat(places, d.added);
    NewPlaces(chunks, contents, d, c, places);
    CountLater(ns, Of(c), o);
    HashCounts(contents, c);
  }

  lemma ImageSizeNat(indices: set<nat>, values: seq<nat>)
    requires NoDup(values) && forall i :: i in indices ==> i < |values|
    ensures |set i | i in indices :: values[i]| == |indices|
  {
    ImageSize(indices, values);
  }

  lemma NewPlaces(chunks: seq<Chunk>, contents: seq<string>, d: DiffResult, c: string, places: set<nat>)
    requires d.Diff? && IsDiff(chunks, contents, d) && InRangeOf(d.added, contents)
    requires places == set j: nat | j < |d.added| && contents[d.added[j]] == c
    ensures (set i | i in places :: d.added[i]) == Later(HashesOf(contents), Of(c),
              multiset(StoredHashes(chunks))[Of(c)])
  {
    hide Occ, NoDup;
    var later := Later(HashesOf(contents), Of(c), multiset(StoredHashes(chunks))[Of(c)]);
    var image := set i | i in places :: d.added[i];
    forall k | k in image ensures k in later {
      var i :| i in places && d.added[i] == k;
      assert k in d.added;
    }
    forall k | k in later ensures k in image {
      var i: nat :| i < |d.added| && d.added[i] == k;
      assert i in places;
    }
  }

  lemma ContentAfter(r0: Rows, r1: Rows, doc: string, contents: seq<string>, gone: set<string>, added: seq<nat>,
                     ids: seq<string>, c: string)
    requires |added| <= |ids| && InRangeOf(added, contents) && NoDup(ids) && forall j :: 0 <= j < |ids| ==>
              ids[j] !in r0
    requires RowsPlus(r0 - gone, r1, doc, contents, added, ids, |added|)
    ensures WithContent(r1, doc, c) == (WithContent(r0, doc, c) - gone) + NewIds(contents, added, ids, c)
    ensures (WithContent(r0, doc, c) - gone) !! NewIds(contents, added, ids, c)
  {
    hide NoDup;
    forall id | id in WithContent(r1, doc, c) ensures id in (WithContent(r0, doc, c) - gone)
        + NewIds(contents, added, ids, c) {
      if id in r0 {
        assert id !in ids;
      } else {
        var j :| 0 <= j < |added| && ids[j] == id;
      }
    }
  }

  /** The heart of the sync: per content, what survives and what is new add up to what is wanted. */
  lemma ContentsMatch(chunks: seq<Chunk>, r0: Rows, r1: Rows, doc: string, contents: seq<string>, d: DiffResult,
                      ids: seq<string>, c: string)
    requires Consistent(r0) && Enumerates(chunks, r0, doc) && d.Diff? && IsDiff(chunks, contents, d)
    requires forall i :: 0 <= i < |chunks| ==> chunks[i].hash != Missing
    requires |d.added| <= |ids| && InRangeOf(d.added, contents) && NoDup(ids) && forall j :: 0 <= j < |ids| ==>
              ids[j] !in r0
    requires RowsPlus(r0 - IdSet(d.removed), r1, doc, contents, d.added, ids, |d.added|)
    ensures |WithContent(r1, doc, c)| == multiset(contents)[c]
    ensures |WithContent(r0, doc, c) * r1.Keys| == Min(|WithContent(r0, doc, c)|, multiset(contents)[c])
  {
    hide IsDiff, RowsPlus, NoDup, NewIds, Consistent, Enumerates;
    CountKept(chunks, r0, doc, contents, d, c);
    CountNew(chunks, contents, d, ids, c);
    CountStored(chunks, r0, doc, c);
    ContentAfter(r0, r1, doc, contents, IdSet(d.removed), d.added, ids, c);
    SurvivorsAre(r0, r1, doc, contents, IdSet(d.removed), d.added, ids, c);
  }

  lemma SurvivorsAre(r0: Rows, r1: Rows, doc: string, contents: seq<string>, gone: set<string>, added: seq<nat>,
                     ids: seq<string>, c: string)
    requires |added| <= |ids| && InRangeOf(added, contents) && forall j :: 0 <= j < |ids| ==> ids[j] !in r0
    requires RowsPlus(r0 - gone, r1, doc, contents, added, ids, |added|)
    ensures WithContent(r0, doc, c) * r1.Keys == WithContent(r0, doc, c) - gone
  {
  }

  /** All new contents, for a document with no usable chunks. */
  function AllIndices(n: nat): (r: seq<nat>)
    ensures |r| == n && NoDup(r) && forall i :: 0 <= i < n ==> r[i] == i
  {
    seq(n, i => i)
  }

  lemma AllAreNew(contents: seq<string>)
    ensures IsDiff([], contents, Diff([], [], AllIndices(|contents|)))
  {
    hide Occ;
    var all := AllIndices(|contents|);
    forall j: int ensures j in all <==> 0 <= j < |contents| {
      if 0 <= j < |contents| {
        assert all[j] == j;
      }
    }
    assert StoredHashes([]) == [];
  }

  lemma FrameAfter(r0: Rows, v0: Vectors, r1: Rows, v1: Vectors, doc: string, contents: seq<string>,
                   goneRows: set<string>, goneVectors: set<string>, added: seq<nat>, ids: seq<string>)
    requires Consistent(r0) && |added| <= |ids| && InRangeOf(added, contents) && FreshIds(ids, |added|, r0, v0)
    requires NoDup(added)
    requires goneRows <= DocIds(r0, doc) && OwnVectors(v0, doc, goneVectors)
    requires forall id :: id in DocIds(r0, doc) - goneRows ==> r0[id].hash != Missing
    requires RowsPlus(r0 - goneRows, r1, doc, contents, added, ids, |added|)
    requires VectorsPlus(v0 - goneVectors, v1, doc, contents, added, ids, |added|)
    requires forall c :: |WithContent(r1, doc, c)| == multiset(contents)[c]
    ensures Written(r0, v0, r1, v1, doc, contents)
    ensures DocIds(r1, doc) == (DocIds(r0, doc) - goneRows) + NewSet(ids, |added|)
    ensures VectorIds(v1, doc) == (VectorIds(v0, doc) - goneVectors) + NewSet(ids, |added|)
  {
    hide WithContent, RowsPlus, VectorsPlus, NewOnes, NewPositionsApart, NoDup;
    RowsAfter(r0, r1, doc, contents, goneRows, added, ids);
    VectorsAfter(v0, v1, doc, contents, goneVectors, added, ids);
    NewOnesAfter(r0, v0, r1, v1, doc, contents, goneRows, goneVectors, added, ids);
    NewOnesApart(r0, r1, doc, contents, goneRows, added, ids);
  }

  lemma NewOnesApart(r0: Rows, r1: Rows, doc: string, contents: seq<string>, gone: set<string>, added: seq<nat>,
                     ids: seq<string>)
    requires |added| <= |ids| && InRangeOf(added, contents) && NoDup(added)
    requires RowsPlus(r0 - gone, r1, doc, contents, added, ids, |added|)
    ensures NewPositionsApart(r0, r1, doc)
  {
    forall x, y | x in DocIds(r1, doc) && x !in r0 && y in DocIds(r1, doc) && y !in r0 && x != y
      ensures r1[x].index != r1[y].index
    {
      var i :| 0 <= i < |added| && ids[i] == x;
      var j :| 0 <= j < |added| && ids[j] == y;
      assert r1[ids[i]].index == added[i] && r1[ids[j]].index == added[j];
    }
  }

  lemma NewOnesAfter(r0: Rows, v0: Vectors, r1: Rows, v1: Vectors, doc: string, contents: seq<string>,
                     goneRows: set<string>, goneVectors: set<string>, added: seq<nat>, ids: seq<string>)
    requires |added| <= |ids| && InRangeOf(added, contents)
    requires RowsPlus(r0 - goneRows, r1, doc, contents, added, ids, |added|)
    requires VectorsPlus(v0 - goneVectors, v1, doc, contents, added, ids, |added|)
    ensures NewOnes(r0, r1, v1, doc, contents)
  {
    forall id | id in DocIds(r1, doc) && id !in r0
      ensures r1[id].index < |contents| && contents[r1[id].index] == r1[id].content
      ensures id in v1 && v1[id] == Vector(doc, r1[id].index, r1[id].content)
    {
      var j :| 0 <= j < |added| && ids[j] == id;
      assert r1[ids[j]] == NewRow(doc, contents, added[j], ids[j]);
      assert v1[ids[j]] == NewVector(doc, contents, added[j]);
    }
  }

  /** Stores that agree on the contents still do, once every surviving row is as it was. */
  lemma ContentsStillAgree(r0: Rows, v0: Vectors, r1: Rows, v1: Vectors, doc: string, contents: seq<string>)
    requires Written(r0, v0, r1, v1, doc, contents) && SameContents(r0, v0, doc)
    requires forall id ::
               id in r0 && id in DocIds(r1, doc) ==>
                 id in DocIds(r0, doc) && r1[id] == r0[id] && SameEntry(v0, v1, id)
    ensures SameContents(r1, v1, doc)
  {
  }

  lemma ContentsAfterSync(r0: Rows, v0: Vectors, r1: Rows, v1: Vectors, doc: string, contents: seq<string>,
                          res: SyncResult)
    requires Written(r0, v0, r1, v1, doc, contents) && Frugal(r0, v0, r1, v1, doc, contents, res)
    ensures SameContents(r0, v0, doc) ==> SameContents(r1, v1, doc)
  {
    if SameContents(r0, v0, doc) {
      SurvivorsWereHere(r0, v0, r1, v1, doc, contents);
      ContentsStillAgree(r0, v0, r1, v1, doc, contents);
    }
  }

  lemma AllNewAgree(r0: Rows, v0: Vectors, r1: Rows, v1: Vectors, doc: string, contents: seq<string>)
    requires Written(r0, v0, r1, v1, doc, contents) && DocIds(r0, doc) !! r1.Keys
    ensures SameContents(r1, v1, doc)
  {
  }

  /** No row of another document has come to this one. */
  lemma SurvivorsWereHere(r0: Rows, v0: Vectors, r1: Rows, v1: Vectors, doc: string, contents: seq<string>)
    requires Written(r0, v0, r1, v1, doc, contents)
    ensures forall id :: id in r0 && id in DocIds(r1, doc) ==> id in DocIds(r0, doc)
  {
  }

  /** No other document has a vector under these ids. */
  ghost predicate OwnVectors(vectors: Vectors, doc: string, ids: set<string>) {
    forall id :: id in ids && id in vectors ==> vectors[id].doc == doc
  }

  ghost function NewSet(ids: seq<string>, n: nat): set<string>
    requires n <= |ids|
  {
    set j | 0 <= j < n :: ids[j]
  }

  lemma RowsAfter(r0: Rows, r1: Rows, doc: string, contents: seq<string>, gone: set<string>, added: seq<nat>,
                  ids: seq<string>)
    requires Consistent(r0) && |added| <= |ids| && InRangeOf(added, contents) && forall j :: 0 <= j < |ids| ==>
              ids[j] !in r0
    requires gone <= DocIds(r0, doc) && forall id :: id in DocIds(r0, doc) - gone ==> r0[id].hash != Missing
    requires RowsPlus(r0 - gone, r1, doc, contents, added, ids, |added|)
    ensures Consistent(r1) && forall id :: id in DocIds(r1, doc) ==> r1[id].hash != Missing
    ensures DocIds(r1, doc) == (DocIds(r0, doc) - gone) + NewSet(ids, |added|)
    ensures forall id :: id in r0 && r0[id].doc != doc ==> id in r1 && r1[id] == r0[id]
    ensures forall id :: id in r1 && r1[id].doc != doc ==> id in r0
  {
    forall id | id in r1 ensures
      if id in r0 then id !in gone && r1[id] == r0[id]
          else exists j :: 0 <= j < |added| && ids[j] == id && r1[id] == NewRow(doc, contents, added[j], id)
    {
      if id !in r0 {
        var j :| 0 <= j < |added| && ids[j] == id;
      }
    }
  }

  lemma VectorsAfter(v0: Vectors, v1: Vectors, doc: string, contents: seq<string>, gone: set<string>, added: seq<nat>,
                     ids: seq<string>)
    requires |added| <= |ids| && InRangeOf(added, contents) && forall j :: 0 <= j < |ids| ==> ids[j] !in v0
    requires OwnVectors(v0, doc, gone)
    requires VectorsPlus(v0 - gone, v1, doc, contents, added, ids, |added|)
    ensures VectorIds(v1, doc) == (VectorIds(v0, doc) - gone) + NewSet(ids, |added|)
    ensures forall id :: id in v0 && v0[id].doc != doc ==> id in v1 && v1[id] == v0[id]
    ensures forall id :: id in v1 && v1[id].doc != doc ==> id in v0
    ensures forall id :: id !in gone && id !in ids ==> SameEntry(v0, v1, id)
  {
    forall id | id in v1 ensures
      if id in v0 then id !in gone && v1[id] == v0[id]
          else exists j :: 0 <= j < |added| && ids[j] == id && v1[id].doc == doc
    {
      if id !in v0 {
        var j :| 0 <= j < |added| && ids[j] == id;
      }
    }
  }

  /** Chunks that already match the contents need no change at all. */
  lemma NothingToDo(chunks: seq<Chunk>, rows: Rows, doc: string, contents: seq<string>, d: DiffResult)
    requires Consistent(rows) && Enumerates(chunks, rows, doc) && d.Diff? && IsDiff(chunks, contents, d)
    requires forall i :: 0 <= i < |chunks| ==> chunks[i].hash != Missing
    requires forall c :: |WithContent(rows, doc, c)| == multiset(contents)[c]
    ensures d.removed == [] && d.added == []
  {
    hide WithContent, NoDup, Enumerates, Occ;
    assert |d.removed| > 0 ==> d.removed[0] in d.removed;
    assert |d.added| > 0 ==> d.added[0] in d.added;
    var os, ns := StoredHashes(chunks), HashesOf(contents);
    forall c ensures multiset(os)[Of(c)] == multiset(ns)[Of(c)] {
      CountStored(chunks, rows, doc, c);
      HashCounts(contents, c);
    }
    forall i: nat | i < |os| ensures Occ(os, i) < multiset(ns)[os[i]] {
      assert os[..|os|] == os;
      OccLess(os, i, |os|);
      assert os[i] == Of(os[i].content);
    }
    forall j: nat | j < |ns| ensures Occ(ns, j) < multiset(os)[ns[j]] {
      assert ns[..|ns|] == ns;
      OccLess(ns, j, |ns|);
      assert ns[j] == Of(contents[j]);
    }
    assert forall id :: id !in d.removed;
    assert forall j :: j !in d.added;
  }

  lemma EnumeratedHashes(chunks: seq<Chunk>, rows: Rows, doc: string)
    requires Enumerates(chunks, rows, doc)
    ensures (forall i :: 0 <= i < |chunks| ==> chunks[i].hash != Missing)
            <==> forall id :: id in DocIds(rows, doc) ==> rows[id].hash != Missing
  {
    forall i | 0 <= i < |chunks| ensures chunks[i].id in DocIds(rows, doc) && rows[chunks[i].id] == chunks[i] {}
  }

  lemma DistinctOf(chunks: seq<Chunk>, rows: Rows, doc: string)
    requires Enumerates(chunks, rows, doc)
    ensures DistinctIds(chunks)
  {
  }

  lemma IdSetSize(ids: seq<string>)
    requires NoDup(ids)
    ensures |IdSet(ids)| == |ids|
  {
    ImageSize(Below(|ids|), ids);
    assert IdSet(ids) == set i | i in Below(|ids|) :: ids[i];
  }

  lemma DiffFits(chunks: seq<Chunk>, rows: Rows, doc: string, contents: seq<string>, d: DiffResult)
    requires Enumerates(chunks, rows, doc) && d.Diff? && IsDiff(chunks, contents, d)
    ensures InRangeOf(d.added, contents) && |d.added| <= |contents|
    ensures IdSet(d.removed) <= DocIds(rows, doc)
    ensures IdSet(d.retained) == DocIds(rows, doc) - IdSet(d.removed)
  {
    hide Occ, NoDup;
    forall j | 0 <= j < |d.added| ensures d.added[j] < |contents| {
      assert d.added[j] in d.added;
    }
    DistinctBelow(d.added, |contents|);
    hide HashesOf, StoredHashes;
    RetainedOrRemoved(chunks, rows, doc, contents, d);
  }

  lemma RetainedOrRemoved(chunks: seq<Chunk>, rows: Rows, doc: string, contents: seq<string>, d: DiffResult)
    requires Enumerates(chunks, rows, doc) && d.Diff? && IsDiff(chunks, contents, d)
    ensures IdSet(d.removed) <= DocIds(rows, doc)
    ensures IdSet(d.retained) == DocIds(rows, doc) - IdSet(d.removed)
  {
    hide Occ, NoDup;
    forall id | id in DocIds(rows, doc) ensures id in d.retained <==> id !in d.removed {
      var i: nat :| i < |chunks| && chunks[i].id == id;
    }
  }

  lemma PlusNothing(rows: Rows, vectors: Vectors, doc: string, contents: seq<string>, added: seq<nat>, ids: seq<string>)
    requires added == []
    ensures RowsPlus(rows, rows, doc, contents, added, ids, 0)
              && VectorsPlus(vectors, vectors, doc, contents, added, ids, 0)
  {
  }

  lemma SyncDone(chunks: seq<Chunk>, r0: Rows, v0: Vectors, r1: Rows, v1: Vectors, doc: string, contents: seq<string>,
                 d: DiffResult, ids: seq<string>)
    requires Consistent(r0) && SameOwner(r0, v0)
    requires Enumerates(chunks, r0, doc) && d.Diff? && IsDiff(chunks, contents, d)
    requires forall i :: 0 <= i < |chunks| ==> chunks[i].hash != Missing
    requires FreshIds(ids, |contents|, r0, v0) && |d.added| <= |contents| && InRangeOf(d.added, contents)
    requires RowsPlus(r0 - IdSet(d.removed), r1, doc, contents, d.added, ids, |d.added|)
    requires VectorsPlus(v0 - IdSet(d.removed), v1, doc, contents, d.added, ids, |d.added|)
    ensures Written(r0, v0, r1, v1, doc, contents)
    ensures Frugal(r0, v0, r1, v1, doc, contents, SyncResult(|d.added|, |d.removed|, |d.retained|))
  {
    hide Frugal;
    hide Consistent, IsDiff, Enumerates, RowsPlus, VectorsPlus, Written, WithContent, DocIds, VectorIds, NoDup;
    hide Drift, SameEntry, SameOwner, OwnVectors, IdSet, NewSet, InRangeOf;
    AllContentsMatch(chunks, r0, r1, doc, contents, d, ids);
    DiffFits(chunks, r0, doc, contents, d);
    EnumeratedHashes(chunks, r0, doc);
    NoDups(chunks, contents, d);
    SyncWritten(r0, v0, r1, v1, doc, contents, IdSet(d.removed), d.added, ids);
    SyncFrugal(chunks, r0, v0, r1, v1, doc, contents, d, ids);
  }

  lemma SyncWritten(r0: Rows, v0: Vectors, r1: Rows, v1: Vectors, doc: string, contents: seq<string>,
                    gone: set<string>, added: seq<nat>, ids: seq<string>)
    requires Consistent(r0) && SameOwner(r0, v0) && gone <= DocIds(r0, doc)
    requires forall id :: id in DocIds(r0, doc) ==> r0[id].hash != Missing
    requires |added| <= |ids| && InRangeOf(added, contents) && FreshIds(ids, |added|, r0, v0) && NoDup(added)
    requires RowsPlus(r0 - gone, r1, doc, contents, added, ids, |added|)
    requires VectorsPlus(v0 - gone, v1, doc, contents, added, ids, |added|)
    requires forall c :: |WithContent(r1, doc, c)| == multiset(contents)[c]
    ensures Written(r0, v0, r1, v1, doc, contents)
  {
    hide Consistent, IsDiff, Enumerates, RowsPlus, VectorsPlus, Written, WithContent, DocIds, VectorIds, NoDup;
    hide Drift, SameEntry, SameOwner, OwnVectors, IdSet, NewSet, InRangeOf;
    Owned(r0, v0, doc, gone);
    FrameAfter(r0, v0, r1, v1, doc, contents, gone, gone, added, ids);
  }

  lemma SyncFrugal(chunks: seq<Chunk>, r0: Rows, v0: Vectors, r1: Rows, v1: Vectors, doc: string, contents: seq<string>,
                   d: DiffResult, ids: seq<string>)
    requires Consistent(r0) && SameOwner(r0, v0) && d.Diff? && IsDiff(chunks, contents, d)
    requires forall id :: id in DocIds(r0, doc) ==> r0[id].hash != Missing
    requires FreshIds(ids, |contents|, r0, v0) && |d.added| <= |contents| && InRangeOf(d.added, contents)
    requires RowsPlus(r0 - IdSet(d.removed), r1, doc, contents, d.added, ids, |d.added|)
    requires VectorsPlus(v0 - IdSet(d.removed), v1, doc, contents, d.added, ids, |d.added|)
    requires IdSet(d.removed) <= DocIds(r0, doc) && IdSet(d.retained) == DocIds(r0, doc) - IdSet(d.removed)
    requires forall c :: |WithContent(r0, doc, c) * r1.Keys| == Min(|WithContent(r0, doc, c)|, multiset(contents)[c])
    ensures Frugal(r0, v0, r1, v1, doc, contents, SyncResult(|d.added|, |d.removed|, |d.retained|))
  {
    hide Consistent, IsDiff, Enumerates, RowsPlus, VectorsPlus, Written, WithContent, DocIds, VectorIds, NoDup;
    hide Drift, SameEntry, SameOwner, OwnVectors, IdSet, NewSet, InRangeOf;
    Tally(r0, v0, r1, v1, doc, contents, chunks, d, ids);
  }

  lemma AllContentsMatch(chunks: seq<Chunk>, r0: Rows, r1: Rows, doc: string, contents: seq<string>, d: DiffResult,
                         ids: seq<string>)
    requires Consistent(r0) && Enumerates(chunks, r0, doc) && d.Diff? && IsDiff(chunks, contents, d)
    requires forall i :: 0 <= i < |chunks| ==> chunks[i].hash != Missing
    requires |d.added| <= |ids| && InRangeOf(d.added, contents) && NoDup(ids) && forall j :: 0 <= j < |ids| ==>
              ids[j] !in r0
    requires RowsPlus(r0 - IdSet(d.removed), r1, doc, contents, d.added, ids, |d.added|)
    ensures forall c :: |WithContent(r1, doc, c)| == multiset(contents)[c]
    ensures forall c :: |WithContent(r0, doc, c) * r1.Keys| == Min(|WithContent(r0, doc, c)|, multiset(contents)[c])
  {
    hide Consistent, IsDiff, Enumerates, RowsPlus, WithContent, NoDup;
    forall c
      ensures |WithContent(r1, doc, c)| == multiset(contents)[c]
      ensures |WithContent(r0, doc, c) * r1.Keys| == Min(|WithContent(r0, doc, c)|, multiset(contents)[c])
    {
      ContentsMatch(chunks, r0, r1, doc, contents, d, ids, c);
    }
  }

  lemma Owned(rows: Rows, vectors: Vectors, doc: string, ids: set<string>)
    requires SameOwner(rows, vectors) && ids <= DocIds(rows, doc)
    ensures OwnVectors(vectors, doc, ids)
  {
    assert forall id :: id in DocIds(rows, doc) && id in vectors ==> vectors[id].doc == doc;
  }

  lemma Tally(r0: Rows, v0: Vectors, r1: Rows, v1: Vectors, doc: string, contents: seq<string>, chunks: seq<Chunk>,
              d: DiffResult, ids: seq<string>)
    requires Consistent(r0) && SameOwner(r0, v0) && d.Diff? && IsDiff(chunks, contents, d)
    requires forall id :: id in DocIds(r0, doc) ==> r0[id].hash != Missing
    requires FreshIds(ids, |contents|, r0, v0) && |d.added| <= |contents| && InRangeOf(d.added, contents)
    requires RowsPlus(r0 - IdSet(d.removed), r1, doc, contents, d.added, ids, |d.added|)
    requires VectorsPlus(v0 - IdSet(d.removed), v1, doc, contents, d.added, ids, |d.added|)
    requires IdSet(d.removed) <= DocIds(r0, doc) && IdSet(d.retained) == DocIds(r0, doc) - IdSet(d.removed)
    ensures forall id :: id in DocIds(r0, doc) && id in r1 ==> r1[id] == r0[id] && SameEntry(v0, v1, id)
    ensures Drift(r1, v1, doc) == Drift(r0, v0, doc) - (DocIds(r0, doc) - r1.Keys)
    ensures |d.retained| == |DocIds(r0, doc) * r1.Keys|
    ensures |d.removed| == |DocIds(r0, doc) - r1.Keys|
    ensures |d.added| == |DocIds(r1, doc) - r0.Keys|
  {
    hide IsDiff, NoDup, RowsPlus, VectorsPlus, DocIds, VectorIds, NewSet, Consistent, SameOwner, Drift, SameEntry;
    NoDups(chunks, contents, d);
    IdSetSize(d.retained);
    IdSetSize(d.removed);
    NewSetSize(ids, |d.added|);
    Sets(r0, v0, r1, v1, doc, contents, IdSet(d.removed), d.added, ids);
  }

  lemma Sets(r0: Rows, v0: Vectors, r1: Rows, v1: Vectors, doc: string, contents: seq<string>, gone: set<string>,
             added: seq<nat>, ids: seq<string>)
    requires Consistent(r0) && SameOwner(r0, v0) && gone <= DocIds(r0, doc)
    requires forall id :: id in DocIds(r0, doc) ==> r0[id].hash != Missing
    requires FreshIds(ids, |added|, r0, v0) && InRangeOf(added, contents)
    requires RowsPlus(r0 - gone, r1, doc, contents, added, ids, |added|)
    requires VectorsPlus(v0 - gone, v1, doc, contents, added, ids, |added|)
    ensures DocIds(r0, doc) * r1.Keys == DocIds(r0, doc) - gone && DocIds(r0, doc) - r1.Keys == gone
    ensures DocIds(r1, doc) - r0.Keys == NewSet(ids, |added|)
    ensures forall id :: id in DocIds(r0, doc) && id in r1 ==> r1[id] == r0[id] && SameEntry(v0, v1, id)
    ensures Drift(r1, v1, doc) == Drift(r0, v0, doc) - (DocIds(r0, doc) - r1.Keys)
  {
    Owned(r0, v0, doc, gone);
    NewSetFresh(ids, |added|, r0);
    NewVectorsFresh(ids, |added|, v0);
    hide RowsPlus, VectorsPlus, NewSet, Consistent, SameOwner, SameEntry, Drift;
    VectorsAfter(v0, v1, doc, contents, gone, added, ids);
    RowsAfter(r0, r1, doc, contents, gone, added, ids);
    KeysAfter(r0, r1, doc, contents, gone, added, ids);
    RowSets(r0, r1, doc, gone, NewSet(ids, |added|));
    forall id | id in DocIds(r0, doc) && id in r1 ensures r1[id] == r0[id] && SameEntry(v0, v1, id) {
      assert id !in gone;
      assert id !in ids;
    }
    DriftAfter(r0, v0, r1, v1, doc, gone, NewSet(ids, |added|));
  }

  lemma NewVectorsFresh(ids: seq<string>, n: nat, vectors: Vectors)
    requires n <= |ids| && forall j :: 0 <= j < |ids| ==> ids[j] !in vectors
    ensures NewSet(ids, n) !! vectors.Keys
  {
  }

  lemma DriftAfter(r0: Rows, v0: Vectors, r1: Rows, v1: Vectors, doc: string, gone: set<string>, fresh': set<string>)
    requires gone <= DocIds(r0, doc) && fresh' !! r0.Keys && fresh' !! v0.Keys
    requires DocIds(r1, doc) == (DocIds(r0, doc) - gone) + fresh'
    requires VectorIds(v1, doc) == (VectorIds(v0, doc) - gone) + fresh'
    ensures Drift(r1, v1, doc) == Drift(r0, v0, doc) - gone
  {
    assert forall id :: id in DocIds(r0, doc) ==> id in r0;
    assert forall id :: id in VectorIds(v0, doc) ==> id in v0;
    hide DocIds, VectorIds;
  }

  lemma RowSets(r0: Rows, r1: Rows, doc: string, gone: set<string>, fresh': set<string>)
    requires gone <= DocIds(r0, doc) && fresh' !! r0.Keys && DocIds(r1, doc) == (DocIds(r0, doc) - gone) + fresh'
    requires forall id :: id in r0 ==> (id in r1 <==> id !in gone)
    ensures DocIds(r0, doc) * r1.Keys == DocIds(r0, doc) - gone && DocIds(r0, doc) - r1.Keys == gone
    ensures DocIds(r1, doc) - r0.Keys == fresh'
  {
    assert forall id :: id in DocIds(r0, doc) ==> id in r0;
  }

  lemma NoDups(chunks: seq<Chunk>, contents: seq<string>, d: DiffResult)
    requires d.Diff? && IsDiff(chunks, contents, d)
    ensures NoDup(d.retained) && NoDup(d.removed) && NoDup(d.added)
  {
  }

  lemma KeysAfter(r0: Rows, r1: Rows, doc: string, contents: seq<string>, gone: set<string>, added: seq<nat>,
                  ids: seq<string>)
    requires |added| <= |ids| && InRangeOf(added, contents) && forall j :: 0 <= j < |ids| ==> ids[j] !in r0
    requires RowsPlus(r0 - gone, r1, doc, contents, added, ids, |added|)
    ensures forall id :: id in r0 ==> (id in r1 <==> id !in gone) && (id in r1 ==> r1[id] == r0[id])
  {
  }

  lemma NewSetSize(ids: seq<string>, n: nat)
    requires NoDup(ids) && n <= |ids|
    ensures |NewSet(ids, n)| == n
  {
    ImageSize(Below(n), ids);
    assert NewSet(ids, n) == set i | i in Below(n) :: ids[i];
  }

  lemma NewSetFresh(ids: seq<string>, n: nat, rows: Rows)
    requires n <= |ids| && forall j :: 0 <= j < |ids| ==> ids[j] !in rows
    ensures NewSet(ids, n) !! rows.Keys
  {
  }

  lemma AllWritten(r0: Rows, r1: Rows, doc: string, contents: seq<string>, ids: seq<string>, c: string)
    requires |contents| <= |ids| && NoDup(ids) && forall j :: 0 <= j < |ids| ==> ids[j] !in r0
    requires RowsPlus(r0 - DocIds(r0, doc), r1, doc, contents, AllIndices(|contents|), ids, |contents|)
    ensures |WithContent(r1, doc, c)| == multiset(contents)[c]
  {
    hide RowsPlus, NoDup, NewIds, IsDiff;
    var gone, added := DocIds(r0, doc), AllIndices(|contents|);
    AllAreNew(contents);
    CountNew([], contents, Diff([], [], added), ids, c);
    assert StoredHashes([]) == [];
    ContentAfter(r0, r1, doc, contents, gone, added, ids, c);
    assert WithContent(r0, doc, c) - gone == {};
  }

  lemma ReindexDone(r0: Rows, v0: Vectors, r1: Rows, v1: Vectors, doc: string, contents: seq<string>, ids: seq<string>)
    requires Consistent(r0) && FreshIds(ids, |contents|, r0, v0)
    requires RowsPlus(r0 - DocIds(r0, doc), r1, doc, contents, AllIndices(|contents|), ids, |contents|)
    requires VectorsPlus(v0 - VectorIds(v0, doc), v1, doc, contents, AllIndices(|contents|), ids, |contents|)
    ensures InSync(r0, v0, r1, v1, doc, contents) && DocIds(r0, doc) !! r1.Keys && SameContents(r1, v1, doc)
  {
    hide Consistent, RowsPlus, VectorsPlus, Written, NoDup, WithContent, SameContents;
    var gone, added := DocIds(r0, doc), AllIndices(|contents|);
    forall c ensures |WithContent(r1, doc, c)| == multiset(contents)[c] {
      AllWritten(r0, r1, doc, contents, ids, c);
    }
    FrameAfter(r0, v0, r1, v1, doc, contents, gone, VectorIds(v0, doc), added, ids);
    KeysAfter(r0, r1, doc, contents, gone, added, ids);
    AllNewAgree(r0, v0, r1, v1, doc, contents);
  }

  /** After a sync, the diff against the same contents is empty: a second sync changes nothing. */
  lemma SecondDiffIsEmpty(r0: Rows, v0: Vectors, r1: Rows, v1: Vectors, doc: string, contents: seq<string>,
                          chunks: seq<Chunk>, d: DiffResult)
    requires Written(r0, v0, r1, v1, doc, contents) && Enumerates(chunks, r1, doc) && d.Diff?
              && IsDiff(chunks, contents, d)
    ensures d.removed == [] && d.added == []
  {
    hide IsDiff, WithContent, Consistent;
    EnumeratedHashes(chunks, r1, doc);
    NothingToDo(chunks, r1, doc, contents, d);
  }

  // ---------------------------------------------------------------- the stores

  class Stores {
    var rows: map<string, Chunk>
    var vectors: map<string, Vector>

    /** The document's rows; their order does not matter to anything proved here. */
    method GetByDoc(doc: string) returns (chunks: seq<Chunk>)
      requires Consistent(rows)
      ensures Enumerates(chunks, rows, doc)
    {
      chunks := [];
      var todo := set id | id in rows && rows[id].doc == doc;
      while todo != {}
        invariant todo <= DocIds(rows, doc)
        invariant DistinctIds(chunks)
        invariant forall i :: 0 <= i < |chunks| ==>
                    chunks[i].id in rows && rows[chunks[i].id] == chunks[i] && chunks[i].doc == doc
                        && chunks[i].id !in todo
        invariant forall id :: id in DocIds(rows, doc) && id !in todo ==>
                  exists i :: 0 <= i < |chunks| && chunks[i].id == id
        decreases |todo|
      {
        var id :| id in todo;
        ghost var before := chunks;
        chunks := chunks + [rows[id]];
        assert chunks[|before|].id == id;
        forall x | x in DocIds(rows, doc) && x !in todo ensures exists i :: 0 <= i < |chunks| && chunks[i].id == x {
          var i :| 0 <= i < |before| && before[i].id == x;
          assert chunks[i].id == x;
        }
        todo := todo - {id};
      }
      forall id | id in rows && rows[id].doc == doc ensures exists i :: 0 <= i < |chunks| && chunks[i].id == id {
        assert id in DocIds(rows, doc);
      }
    }

    method DeleteVectors(ids: seq<string>)
      modifies this`vectors
      ensures vectors == old(vectors) - IdSet(ids)
    {
      for n := 0 to |ids|
        invariant vectors == old(vectors) - IdSet(ids[..n])
      {
        assert IdSet(ids[..n + 1]) == IdSet(ids[..n]) + {ids[n]};
        vectors := vectors - {ids[n]};
      }
      assert ids[..|ids|] == ids;
    }

    method DeleteRows(ids: seq<string>)
      modifies this`rows
      ensures rows == old(rows) - IdSet(ids)
    {
      rows := map id | id in rows && id !in ids :: rows[id];
    }

    /** Deletes a document from both stores. */
    method DeleteDocument(doc: string)
      modifies this
      ensures rows == old(rows) - DocIds(old(rows), doc)
      ensures vectors == old(vectors) - VectorIds(old(vectors), doc)
    {
      vectors := map id | id in vectors && vectors[id].doc != doc :: vectors[id];
      rows := map id | id in rows && rows[id].doc != doc :: rows[id];
    }

    /** Upsert of the new vectors. */
    method Upsert(doc: string, contents: seq<string>, added: seq<nat>, ids: seq<string>)
      requires |added| <= |ids| && InRangeOf(added, contents) && NoDup(ids)
      modifies this`vectors
      ensures VectorsPlus(old(vectors), vectors, doc, contents, added, ids, |added|)
    {
      for n := 0 to |added|
        invariant VectorsPlus(old(vectors), vectors, doc, contents, added, ids, n)
      {
        vectors := vectors[ids[n] := NewVector(doc, contents, added[n])];
      }
    }

    /** BatchCreate of the new rows. */
    method BatchCreate(doc: string, contents: seq<string>, added: seq<nat>, ids: seq<string>)
      requires |added| <= |ids| && InRangeOf(added, contents) && NoDup(ids)
      modifies this`rows
      ensures RowsPlus(old(rows), rows, doc, contents, added, ids, |added|)
    {
      for n := 0 to |added|
        invariant RowsPlus(old(rows), rows, doc, contents, added, ids, n)
      {
        rows := rows[ids[n] := NewRow(doc, contents, added[n], ids[n])];
      }
    }

    /** The fall-back when a stored chunk has no hash: everything of the document is written anew, which also
        brings stores that have drifted apart together again. */
    method FullReindex(doc: string, contents: seq<string>, ids: seq<string>) returns (res: SyncResult)
      requires Consistent(rows)
      requires FreshIds(ids, |contents|, rows, vectors)
      modifies this
      ensures InSync(old(rows), old(vectors), rows, vectors, doc, contents)
      ensures res == SyncResult(|contents|, 0, 0)
      ensures DocIds(old(rows), doc) !! rows.Keys && SameContents(rows, vectors, doc)
    {
      hide Consistent, DocIds, VectorIds, WithContent, RowsPlus, VectorsPlus, Written, NoDup, Drift, SameContents;
      ghost var r0, v0 := rows, vectors;
      DeleteDocument(doc);
      var added := AllIndices(|contents|);
      Upsert(doc, contents, added, ids);
      BatchCreate(doc, contents, added, ids);
      ReindexDone(r0, v0, rows, vectors, doc, contents, ids);
      return SyncResult(|contents|, 0, 0);
    }

    /** The sync of one document whose text now gives the chunks `contents`; `ids` are the UUIDs drawn. */
    method IncrementalSync(doc: string, contents: seq<string>, ids: seq<string>) returns (res: SyncResult)
      requires Consistent(rows) && SameOwner(rows, vectors)
      requires FreshIds(ids, |contents|, rows, vectors)
      modifies this
      ensures Written(old(rows), old(vectors), rows, vectors, doc, contents)
      ensures if forall id :: id in DocIds(old(rows), doc) ==> old(rows)[id].hash != Missing
              then Frugal(old(rows), old(vectors), rows, vectors, doc, contents, res)
              else
                && res == SyncResult(|contents|, 0, 0) && DocIds(old(rows), doc) !! rows.Keys
                && Drift(rows, vectors, doc) == {}
      ensures SameContents(old(rows), old(vectors), doc) ==> SameContents(rows, vectors, doc)
      ensures (forall id :: id in DocIds(old(rows), doc) ==> old(rows)[id].hash != Missing)
              && (forall c :: |WithContent(old(rows), doc, c)| == multiset(contents)[c])
              ==> rows == old(rows) && vectors == old(vectors) && res.added == res.removed == 0
    {
      hide Consistent, DocIds, VectorIds, WithContent, RowsPlus, VectorsPlus, Written, Frugal, IsDiff, NoDup,
          Enumerates;
      hide SameOwner, Drift, SameContents;
      ghost var r0, v0 := rows, vectors;
      var chunks := GetByDoc(doc);
      EnumeratedHashes(chunks, r0, doc);
      var d := DiffChunksByOccurrence(chunks, contents) by {
        DistinctOf(chunks, r0, doc);
      }
      if d.NoHash? {
        res := FullReindex(doc, contents, ids);
        return;
      }
      DiffFits(chunks, r0, doc, contents, d);
      res := SyncResult(|d.added|, |d.removed|, |d.retained|);
      if |d.removed| > 0 {
        DeleteVectors(d.removed);
        DeleteRows(d.removed);
      }
      assert |d.removed| == 0 ==> IdSet(d.removed) == {};
      assert rows == r0 - IdSet(d.removed) && vectors == v0 - IdSet(d.removed);
      if |d.added| > 0 {
        Upsert(doc, contents, d.added, ids);
        BatchCreate(doc, contents, d.added, ids);
      } else {
        PlusNothing(rows, vectors, doc, contents, d.added, ids);
      }
      SyncDone(chunks, r0, v0, rows, vectors, doc, contents, d, ids);
      ContentsAfterSync(r0, v0, rows, vectors, doc, contents, res);
      if forall c :: |WithContent(r0, doc, c)| == multiset(contents)[c] {
        NothingToDo(chunks, r0, doc, contents, d);
      }
    }
  }
}
