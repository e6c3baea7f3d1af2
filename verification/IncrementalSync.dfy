/** Chunk-level incremental sync of one document on the two stores (internal/handler/api.go). */
module IncrementalSync {
  import opened Counting

  /** The SHA-256 of a content, taken to be injective; old rows may have none. */
  datatype Hash = Missing | Of(content: string)

  function ContentHash(content: string): Hash {
    Of(content)
  }

  datatype Chunk = Chunk(id: string, doc: string, index: nat, content: string, hash: Hash)

  /** The formatted key "hash#occurrence". */
  datatype Key = Key(hash: Hash, occurrence: nat)

  function KeyAt(hs: seq<Hash>, i: nat): Key
    requires i < |hs|
  {
    Key(hs[i], Occ(hs, i))
  }

  function HashesOf(contents: seq<string>): (r: seq<Hash>)
    ensures |r| == |contents| && forall i :: 0 <= i < |r| ==> r[i] == ContentHash(contents[i])
  {
    seq(|contents|, i requires 0 <= i < |contents| => ContentHash(contents[i]))
  }

  function StoredHashes(chunks: seq<Chunk>): (r: seq<Hash>)
    ensures |r| == |chunks| && forall i :: 0 <= i < |r| ==> r[i] == chunks[i].hash
  {
    seq(|chunks|, i requires 0 <= i < |chunks| => chunks[i].hash)
  }

  predicate DistinctIds(chunks: seq<Chunk>) {
    forall i, j :: 0 <= i < j < |chunks| ==> chunks[i].id != chunks[j].id
  }

  /** Go's read of a missing map entry. */
  function Get(m: map<Hash, nat>, h: Hash): nat {
    if h in m then m[h] else 0
  }

  /** The counters of the numbering loops after n hashes. */
  ghost predicate Counted(counts: map<Hash, nat>, hs: seq<Hash>, n: nat)
    requires n <= |hs|
  {
    forall h :: Get(counts, h) == multiset(hs[..n])[h]
  }

  /** `m` numbers exactly the first n hashes. */
  ghost predicate Numbers(m: map<Key, nat>, hs: seq<Hash>, n: nat)
    requires n <= |hs|
  {
    && (forall i: nat :: i < n ==> KeyAt(hs, i) in m && m[KeyAt(hs, i)] == i)
    && (forall k :: k in m ==> m[k] < n && KeyAt(hs, m[k]) == k)
  }

  lemma NumberNext(m: map<Key, nat>, counts: map<Hash, nat>, hs: seq<Hash>, n: nat)
    requires n < |hs| && Counted(counts, hs, n) && Numbers(m, hs, n)
    ensures Get(counts, hs[n]) == Occ(hs, n)
    ensures Counted(counts[hs[n] := Occ(hs, n) + 1], hs, n + 1)
    ensures Numbers(m[KeyAt(hs, n) := n], hs, n + 1)
  {
    TakeNext(hs, n);
    forall i: nat | i < n ensures KeyAt(hs, i) != KeyAt(hs, n) {
      if hs[i] == hs[n] {
        OccLess(hs, i, n);
      }
    }
  }

  /** A key is numbered exactly when its occurrence number is below the count of its hash. */
  lemma NumberedIff(m: map<Key, nat>, hs: seq<Hash>, k: Key)
    requires Numbers(m, hs, |hs|)
    ensures k in m <==> k.occurrence < multiset(hs)[k.hash]
  {
    assert hs[..|hs|] == hs;
    if k in m {
      OccLess(hs, m[k], |hs|);
    }
    if k.occurrence < multiset(hs)[k.hash] {
      var i := OccReached(hs, k.hash, k.occurrence, |hs|);
      assert KeyAt(hs, i) == k;
    }
  }

  datatype DiffResult =
    | Diff(retained: seq<string>, removed: seq<string>, added: seq<nat>)
    | NoHash(id: string)

  /** What the diff must say: of every hash the first min(old, new) stored chunks stay, the stored ones
      after that go, and the new ones after that are added. */
  ghost predicate IsDiff(old': seq<Chunk>, contents: seq<string>, d: DiffResult)
    requires d.Diff?
  {
    var os, ns := StoredHashes(old'), HashesOf(contents);
    && NoDup(d.retained) && NoDup(d.removed) && NoDup(d.added)
    && (forall id :: id in d.retained <==>
          exists i: nat :: i < |old'| && old'[i].id == id && Occ(os, i) < multiset(ns)[os[i]])
    && (forall id :: id in d.removed <==>
          exists i: nat :: i < |old'| && old'[i].id == id && Occ(os, i) >= multiset(ns)[os[i]])
    && (forall j :: j in d.added <==> 0 <= j < |contents| && Occ(ns, j) >= multiset(os)[ns[j]])
  }

  method NumberNew(contents: seq<string>) returns (m: map<Key, nat>)
    ensures Numbers(m, HashesOf(contents), |contents|)
  {
    hide Numbers, Counted;
    var counts: map<Hash, nat> := map[];
    m := map[];
    ghost var hs := HashesOf(contents);
    StartNumbering(hs);
    for i := 0 to |contents|
      invariant Counted(counts, hs, i) && Numbers(m, hs, i)
    {
      NumberNext(m, counts, hs, i);
      var hash := ContentHash(contents[i]);
      var occurrence := Get(counts, hash);
      counts := counts[hash := occurrence + 1];
      m := m[Key(hash, occurrence) := i];
    }
  }

  lemma StartNumbering(hs: seq<Hash>)
    ensures Counted(map[], hs, 0) && Numbers(map[], hs, 0)
  {
    assert hs[..0] == [];
  }

  /** The stored side of the numbering, with the check for rows without a hash. */
  method NumberOld(chunks: seq<Chunk>) returns (m: map<Key, nat>, bad: DiffResult)
    ensures (exists i :: 0 <= i < |chunks| && chunks[i].hash == Missing) ==>
              bad.NoHash? && exists i :: 0 <= i < |chunks| && chunks[i].hash == Missing && bad.id == chunks[i].id
    ensures (forall i :: 0 <= i < |chunks| ==> chunks[i].hash != Missing) ==>
              bad.Diff? && Numbers(m, StoredHashes(chunks), |chunks|)
  {
    hide Numbers, Counted;
    var counts: map<Hash, nat> := map[];
    m := map[];
    bad := Diff([], [], []);
    ghost var hs := StoredHashes(chunks);
    StartNumbering(hs);
    for i := 0 to |chunks|
      invariant Counted(counts, hs, i) && Numbers(m, hs, i)
      invariant forall j :: 0 <= j < i ==> chunks[j].hash != Missing
      invariant bad.Diff?
    {
      if chunks[i].hash == Missing {
        return m, NoHash(chunks[i].id);
      }
      NumberNext(m, counts, hs, i);
      var occurrence := Get(counts, chunks[i].hash);
      counts := counts[chunks[i].hash := occurrence + 1];
      m := m[Key(chunks[i].hash, occurrence) := i];
    }
  }

  /** `ks` lists the keys of S, each once. */
  ghost predicate Lists(ks: seq<Key>, S: set<Key>) {
    NoDup(ks) && forall k :: k in ks <==> k in S
  }

  lemma ListsNext(ks: seq<Key>, S: set<Key>, k: Key)
    requires Lists(ks, S) && k !in S
    ensures Lists(ks + [k], S + {k})
  {
  }

  /** The ids stored under the listed keys. */
  ghost predicate IdsAt(ids: seq<string>, chunks: seq<Chunk>, m: map<Key, nat>, ks: seq<Key>) {
    |ids| == |ks| && forall i :: 0 <= i < |ks| ==> ks[i] in m && m[ks[i]] < |chunks| && ids[i] == chunks[m[ks[i]]].id
  }

  /** Map iteration order is arbitrary. */
  method DiffChunksByOccurrence(chunks: seq<Chunk>, contents: seq<string>) returns (d: DiffResult)
    requires DistinctIds(chunks)
    ensures d.Diff? <==> forall i :: 0 <= i < |chunks| ==> chunks[i].hash != Missing
    ensures d.Diff? ==> IsDiff(chunks, contents, d)
    ensures d.NoHash? ==> exists i :: 0 <= i < |chunks| && chunks[i].hash == Missing && d.id == chunks[i].id
  {
    hide Numbers, IsDiff, Lists, Occ, KeyAt, Parted;
    var newKeys := NumberNew(contents);
    var oldKeys, bad := NumberOld(chunks);
    if bad.NoHash? {
      return bad;
    }
    OldIndices(oldKeys, chunks);
    var retained, removed, rest := Partition(chunks, oldKeys, newKeys);
    assert rest == newKeys - oldKeys.Keys by {
      PartedRest(chunks, oldKeys, newKeys, retained, removed, rest);
    }
    var added := Remaining(rest);
    d := Diff(retained, removed, added);
    DiffMeets(chunks, contents, oldKeys, newKeys, d);
  }

  lemma OldIndices(m: map<Key, nat>, chunks: seq<Chunk>)
    requires Numbers(m, StoredHashes(chunks), |chunks|)
    ensures forall k :: k in m ==> m[k] < |chunks|
  {
  }

  /** The old keys in `done` are split: those of the new keys are retained and taken off `rest`. */
  ghost predicate Parted(chunks: seq<Chunk>, m: map<Key, nat>, newKeys: map<Key, nat>, done: set<Key>,
                         retained: seq<string>, removed: seq<string>, rest: map<Key, nat>) {
    && rest == newKeys - done
    && (exists ks :: Lists(ks, done * newKeys.Keys) && IdsAt(retained, chunks, m, ks))
    && (exists ks :: Lists(ks, done - newKeys.Keys) && IdsAt(removed, chunks, m, ks))
  }

  lemma PartedNext(chunks: seq<Chunk>, m: map<Key, nat>, newKeys: map<Key, nat>, done: set<Key>,
                   retained: seq<string>, removed: seq<string>, rest: map<Key, nat>, key: Key)
    requires Parted(chunks, m, newKeys, done, retained, removed, rest)
    requires key !in done && key in m && m[key] < |chunks|
    ensures var id := chunks[m[key]].id;
            if key in rest then Parted(chunks, m, newKeys, done + {key}, retained + [id], removed, rest - {key})
            else Parted(chunks, m, newKeys, done + {key}, retained, removed + [id], rest)
  {
    hide Lists, IdsAt;
    SplitNext(done, newKeys.Keys, key);
    var kept :| Lists(kept, done * newKeys.Keys) && IdsAt(retained, chunks, m, kept);
    var gone :| Lists(gone, done - newKeys.Keys) && IdsAt(removed, chunks, m, gone);
    if key in rest {
      ListsNext(kept, done * newKeys.Keys, key);
      IdsNext(retained, chunks, m, kept, key);
      assert rest - {key} == newKeys - (done + {key});
      assert Lists(kept + [key], (done + {key}) * newKeys.Keys);
      assert Lists(gone, (done + {key}) - newKeys.Keys);
    } else {
      ListsNext(gone, done - newKeys.Keys, key);
      IdsNext(removed, chunks, m, gone, key);
      assert rest == newKeys - (done + {key});
      assert Lists(kept, (done + {key}) * newKeys.Keys);
      assert Lists(gone + [key], (done + {key}) - newKeys.Keys);
    }
  }

  lemma PartedNone(chunks: seq<Chunk>, m: map<Key, nat>, newKeys: map<Key, nat>)
    ensures Parted(chunks, m, newKeys, {}, [], [], newKeys)
  {
    hide Lists, IdsAt;
    var none: set<Key> := {};
    assert none * newKeys.Keys == {} && none - newKeys.Keys == {} && newKeys - {} == newKeys;
    ListsNone();
    IdsNone(chunks, m);
  }

  /** The loop over the old keys. */
  method Partition(chunks: seq<Chunk>, oldKeys: map<Key, nat>, newKeys: map<Key, nat>)
    returns (retained: seq<string>, removed: seq<string>, rest: map<Key, nat>)
    requires forall k :: k in oldKeys ==> oldKeys[k] < |chunks|
    ensures Parted(chunks, oldKeys, newKeys, oldKeys.Keys, retained, removed, rest)
  {
    hide Parted;
    retained, removed, rest := [], [], newKeys;
    var todo := oldKeys.Keys;
    ghost var done: set<Key> := {};
    PartedNone(chunks, oldKeys, newKeys);
    while todo != {}
      invariant todo + done == oldKeys.Keys && todo !! done
      invariant Parted(chunks, oldKeys, newKeys, done, retained, removed, rest)
      decreases |todo|
    {
      var key :| key in todo;
      var id := chunks[oldKeys[key]].id;
      PartedNext(chunks, oldKeys, newKeys, done, retained, removed, rest, key);
      if key in rest {
        retained := retained + [id];
        rest := rest - {key};
      } else {
        removed := removed + [id];
      }
      todo, done := todo - {key}, done + {key};
    }
    assert done == oldKeys.Keys;
  }

  lemma SplitNext(done: set<Key>, keys: set<Key>, key: Key)
    ensures key in keys ==> (done + {key}) * keys == done * keys + {key} && (done + {key}) - keys == done - keys
    ensures key !in keys ==> (done + {key}) * keys == done * keys && (done + {key}) - keys == done - keys + {key}
  {
  }

  lemma IdsNone(chunks: seq<Chunk>, m: map<Key, nat>)
    ensures IdsAt([], chunks, m, [])
  {
  }

  lemma IdsNext(ids: seq<string>, chunks: seq<Chunk>, m: map<Key, nat>, ks: seq<Key>, key: Key)
    requires IdsAt(ids, chunks, m, ks) && key in m && m[key] < |chunks|
    ensures IdsAt(ids + [chunks[m[key]].id], chunks, m, ks + [key])
  {
  }

  lemma PartedRest(chunks: seq<Chunk>, oldKeys: map<Key, nat>, newKeys: map<Key, nat>,
                   retained: seq<string>, removed: seq<string>, rest: map<Key, nat>)
    requires Parted(chunks, oldKeys, newKeys, oldKeys.Keys, retained, removed, rest)
    ensures rest == newKeys - oldKeys.Keys
  {
  }

  lemma ListsNone()
    ensures Lists([], {})
  {
  }

  /** The values of what is left of the new keys. */
  method Remaining(rest: map<Key, nat>) returns (added: seq<nat>)
    ensures exists ks :: Lists(ks, rest.Keys) && ValuesAt(added, rest, ks)
  {
    hide Lists;
    added := [];
    var todo := rest.Keys;
    ghost var ks: seq<Key> := [];
    ListsNone();
    assert rest.Keys - todo == {};
    while todo != {}
      invariant todo <= rest.Keys
      invariant Lists(ks, rest.Keys - todo) && ValuesAt(added, rest, ks)
      decreases |todo|
    {
      var key :| key in todo;
      ListsNext(ks, rest.Keys - todo, key);
      assert rest.Keys - todo + {key} == rest.Keys - (todo - {key});
      ks := ks + [key];
      added := added + [rest[key]];
      todo := todo - {key};
    }
    assert rest.Keys - todo == rest.Keys;
  }

  ghost predicate ValuesAt(values: seq<nat>, m: map<Key, nat>, ks: seq<Key>) {
    |values| == |ks| && forall i :: 0 <= i < |ks| ==> ks[i] in m && values[i] == m[ks[i]]
  }

  /** Ids listed through keys: one per stored chunk whose key is in S. */
  lemma ListedIds(ids: seq<string>, chunks: seq<Chunk>, m: map<Key, nat>, ks: seq<Key>, S: set<Key>)
    requires DistinctIds(chunks) && Numbers(m, StoredHashes(chunks), |chunks|)
    requires Lists(ks, S) && IdsAt(ids, chunks, m, ks)
    ensures NoDup(ids)
    ensures forall id :: id in ids <==>
              exists i: nat :: i < |chunks| && chunks[i].id == id && KeyAt(StoredHashes(chunks), i) in S
  {
    hide Occ;
    var os := StoredHashes(chunks);
    forall a, b | 0 <= a < b < |ids| ensures ids[a] != ids[b] {
      assert KeyAt(os, m[ks[a]]) == ks[a] && KeyAt(os, m[ks[b]]) == ks[b];
    }
    forall i: nat | i < |chunks| && KeyAt(os, i) in S ensures chunks[i].id in ids {
      var n :| 0 <= n < |ks| && ks[n] == KeyAt(os, i);
      assert m[ks[n]] == i;
      assert ids[n] == chunks[i].id;
    }
    forall n | 0 <= n < |ids| ensures exists i: nat :: i < |chunks| && chunks[i].id == ids[n] && KeyAt(os, i) in S {
      assert KeyAt(os, m[ks[n]]) == ks[n] && ks[n] in ks;
    }
  }

  lemma ListedValues(values: seq<nat>, m: map<Key, nat>, hs: seq<Hash>, ks: seq<Key>, rest: map<Key, nat>,
                     gone: set<Key>)
    requires Numbers(m, hs, |hs|) && rest == m - gone
    requires Lists(ks, rest.Keys) && ValuesAt(values, rest, ks)
    ensures NoDup(values)
    ensures forall j :: j in values <==> 0 <= j < |hs| && KeyAt(hs, j) !in gone
  {
    hide Occ;
    forall a, b | 0 <= a < b < |values| ensures values[a] != values[b] {
      assert KeyAt(hs, m[ks[a]]) == ks[a] && KeyAt(hs, m[ks[b]]) == ks[b];
    }
    forall j: nat | j < |hs| && KeyAt(hs, j) !in gone ensures j in values {
      assert KeyAt(hs, j) in rest;
      var n :| 0 <= n < |ks| && ks[n] == KeyAt(hs, j);
      assert values[n] == j;
    }
    forall n | 0 <= n < |values| ensures 0 <= values[n] < |hs| && KeyAt(hs, values[n]) !in gone {
      assert KeyAt(hs, m[ks[n]]) == ks[n] && ks[n] in ks;
    }
  }

  lemma DiffMeets(chunks: seq<Chunk>, contents: seq<string>, oldKeys: map<Key, nat>, newKeys: map<Key, nat>,
                  d: DiffResult)
    requires DistinctIds(chunks)
    requires Numbers(oldKeys, StoredHashes(chunks), |chunks|) && Numbers(newKeys, HashesOf(contents), |contents|)
    requires d.Diff?
    requires Parted(chunks, oldKeys, newKeys, oldKeys.Keys, d.retained, d.removed, newKeys - oldKeys.Keys)
    requires exists ks :: Lists(ks, (newKeys - oldKeys.Keys).Keys) && ValuesAt(d.added, newKeys - oldKeys.Keys, ks)
    ensures IsDiff(chunks, contents, d)
  {
    hide Lists, Numbers, NoDup, IdsAt, ValuesAt, DistinctIds, Parted, Occ;
    var os, ns := StoredHashes(chunks), HashesOf(contents);
    var ks1, ks2 := PartedLists(chunks, oldKeys, newKeys, oldKeys.Keys, d.retained, d.removed, newKeys - oldKeys.Keys);
    var ks3 :| Lists(ks3, (newKeys - oldKeys.Keys).Keys) && ValuesAt(d.added, newKeys - oldKeys.Keys, ks3);
    ListedIds(d.retained, chunks, oldKeys, ks1, oldKeys.Keys * newKeys.Keys);
    ListedIds(d.removed, chunks, oldKeys, ks2, oldKeys.Keys - newKeys.Keys);
    ListedValues(d.added, newKeys, ns, ks3, newKeys - oldKeys.Keys, oldKeys.Keys);
    OwnKeys(oldKeys, os);
    forall i: nat | i < |os| ensures KeyAt(os, i) in newKeys <==> Occ(os, i) < multiset(ns)[os[i]] {
      NumberedIff(newKeys, ns, KeyAt(os, i));
    }
    forall j: nat | j < |ns| ensures KeyAt(ns, j) in oldKeys <==> Occ(ns, j) < multiset(os)[ns[j]] {
      NumberedIff(oldKeys, os, KeyAt(ns, j));
    }
  }

  lemma PartedLists(chunks: seq<Chunk>, m: map<Key, nat>, newKeys: map<Key, nat>, done: set<Key>,
                    retained: seq<string>, removed: seq<string>, rest: map<Key, nat>)
    returns (kept: seq<Key>, gone: seq<Key>)
    requires Parted(chunks, m, newKeys, done, retained, removed, rest)
    ensures Lists(kept, done * newKeys.Keys) && IdsAt(retained, chunks, m, kept)
    ensures Lists(gone, done - newKeys.Keys) && IdsAt(removed, chunks, m, gone)
  {
    hide Lists, IdsAt;
    kept :| Lists(kept, done * newKeys.Keys) && IdsAt(retained, chunks, m, kept);
    gone :| Lists(gone, done - newKeys.Keys) && IdsAt(removed, chunks, m, gone);
  }

  lemma OwnKeys(m: map<Key, nat>, hs: seq<Hash>)
    requires Numbers(m, hs, |hs|)
    ensures forall i: nat :: i < |hs| ==> KeyAt(hs, i) in m
  {
  }
}
