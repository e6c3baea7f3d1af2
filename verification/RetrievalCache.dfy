/** The retrieval cache on Redis (internal/rediscache/retrieval_cache.go): cached results, and for each
    knowledge base a set of the keys of the results that mention it. Every operation is atomic. */
module RetrievalCache {
  import opened Text
  import opened Wrappers

  import opened Counting

  // ---------------------------------------------------------------- data

  /** `base` is the metadata's knowledge_base_id, when that is a string. */
  datatype Document = Document(content: string, base: Option<string>)

  datatype RetrievalResult = RetrievalResult(documents: seq<Document>)

  datatype Expiry = Never | At(time: real)

  datatype Entry = Entry(result: RetrievalResult, until: Expiry)

  datatype Members = Members(keys: set<string>, until: Expiry)

  /** The two kinds of Redis keys. An entry past its expiry is as good as absent. */
  datatype Redis = Redis(results: map<string, Entry>, index: map<string, Members>)

  predicate Alive(e: Expiry, now: real) {
    e.Never? || now < e.time
  }

  /** `e` lasts at least as long as `f`. */
  predicate OutLasts(e: Expiry, f: Expiry) {
    e.Never? || (f.At? && f.time <= e.time)
  }

  /** The knowledge bases a result mentions. */
  function Mentions(result: RetrievalResult): set<string> {
    set i | 0 <= i < |result.documents| && HasBase(result.documents[i]) :: TrimSpace(result.documents[i].base.value)
  }

  predicate HasBase(doc: Document) {
    doc.base.Some? && TrimSpace(doc.base.value) != ""
  }

  predicate Hit(s: Redis, key: string, now: real) {
    key in s.results && Alive(s.results[key].until, now)
  }

  /** SMEMBERS of the index of `base`. */
  function Listed(index: map<string, Members>, base: string, now: real): set<string> {
    if base in index && Alive(index[base].until, now) then index[base].keys else {}
  }

  // ---------------------------------------------------------------- what the operations do

  /** The index once `key` has been added to, and the expiry set on, the sets of `bases`. An EXPIRE with a
      time that is not positive deletes. */
  function Indexed(index: map<string, Members>, bases: set<string>, key: string, ttl: real,
                   now: real): map<string, Members> {
    map base | base in index.Keys + bases && (base in bases ==> ttl > 0.0) ::
      if base in bases then Members(Listed(index, base, now) + {key}, At(now + ttl)) else index[base]
  }

  /** A SET without a positive time never expires. */
  function SetExpiry(ttl: real, now: real): Expiry {
    if ttl > 0.0 then At(now + ttl) else Never
  }

  function AfterSet(s: Redis, key: string, result: RetrievalResult, ttl: real, now: real): Redis {
    Redis(s.results[key := Entry(result, SetExpiry(ttl, now))], Indexed(s.index, Mentions(result), key, ttl, now))
  }

  function AfterInvalidate(s: Redis, base: string, now: real): Redis {
    if base == "" then s else Redis(s.results - Listed(s.index, base, now), s.index - {base})
  }

  /** The cache as the service holds it. */
  class RetrievalCacheStore {
    var results: map<string, Entry>
    var index: map<string, Members>

    function State(): Redis
      reads this
    {
      Redis(results, index)
    }

    constructor ()
      ensures State() == Redis(map[], map[])
    {
      results, index := map[], map[];
    }

    method GetRetrievalResult(cacheKey: string, now: real) returns (r: Option<RetrievalResult>)
      ensures r.Some? <==> Hit(State(), TrimSpace(cacheKey), now)
      ensures r.Some? ==> r.value == State().results[TrimSpace(cacheKey)].result
    {
      var key := TrimSpace(cacheKey);
      if key !in results || !Alive(results[key].until, now) {
        return None;
      }
      return Some(results[key].result);
    }

    method SetRetrievalResult(cacheKey: string, result: Option<RetrievalResult>, ttl: real, now: real)
      modifies this
      ensures State() == match result
                         case None => old(State())
                         case Some(r) => AfterSet(old(State()), TrimSpace(cacheKey), r, ttl, now)
    {
      if result.None? {
        return;
      }
      var key := TrimSpace(cacheKey);
      results := results[key := Entry(result.value, SetExpiry(ttl, now))];
      var bases := KnowledgeBaseIdsFromResult(result);
      ghost var was := index;
      ghost var done: set<string> := {};
      assert Indexed(was, {}, key, ttl, now) == was;
      for i := 0 to |bases|
        invariant results == old(results)[key := Entry(result.value, SetExpiry(ttl, now))]
        invariant done == set b | b in bases[..i]
        invariant index == Indexed(was, done, key, ttl, now)
      {
        var base := TrimSpace(bases[i]);
        assert base == bases[i] && base in Mentions(result.value) by {
          MentionsTrimmed(result.value, bases[i]);
        }
        IndexedOneMore(was, done, base, key, ttl, now);
        AddMember(base, key, now);
        Expire(base, ttl, now);
        done := done + {base};
      }
      assert done == Mentions(result.value);
    }

    /** SADD. */
    method AddMember(base: string, key: string, now: real)
      modifies this`index
      ensures index == Added(old(index), base, key, now)
    {
      if base in index && Alive(index[base].until, now) {
        index := index[base := Members(index[base].keys + {key}, index[base].until)];
      } else {
        index := index[base := Members({key}, Never)];
        assert Listed(old(index), base, now) + {key} == {key};
      }
    }

    /** EXPIRE, on a set that is there. */
    method Expire(base: string, ttl: real, now: real)
      requires base in index && Alive(index[base].until, now)
      modifies this`index
      ensures index == Expiring(old(index), base, ttl, now)
    {
      if ttl > 0.0 {
        index := index[base := Members(index[base].keys, At(now + ttl))];
      } else {
        index := index - {base};
      }
    }

    method InvalidateKnowledgeBase(knowledgeBaseId: string, now: real)
      modifies this
      ensures State() == AfterInvalidate(old(State()), TrimSpace(knowledgeBaseId), now)
    {
      var id := TrimSpace(knowledgeBaseId);
      if id == "" {
        return;
      }
      TrimTwice(knowledgeBaseId);
      var indexKey := TrimSpace(id);
      var keys := Listed(index, indexKey, now);
      if |keys| > 0 {
        results := results - keys;
      }
      assert keys == {} ==> results == results - keys;
      index := index - {indexKey};
    }

    /** The order in which Go's map gives the ids back is arbitrary. */
    static method KnowledgeBaseIdsFromResult(result: Option<RetrievalResult>) returns (bases: seq<string>)
      ensures NoDup(bases)
      ensures (set b | b in bases) == if result.None? then {} else Mentions(result.value)
    {
      if result.None? {
        return [];
      }
      var docs := result.value.documents;
      var ids: set<string> := {};
      for i := 0 to |docs|
        invariant ids == set j | 0 <= j < i && HasBase(docs[j]) :: TrimSpace(docs[j].base.value)
      {
        var base := if docs[i].base.Some? then TrimSpace(docs[i].base.value) else "";
        if base == "" {
          continue;
        }
        ids := ids + {base};
      }
      assert ids == Mentions(result.value);
      bases := [];
      while ids != {}
        invariant NoDup(bases) && forall i :: 0 <= i < |bases| ==> bases[i] !in ids
        invariant (set b | b in bases) + ids == Mentions(result.value)
      {
        var base :| base in ids;
        bases := bases + [base];
        ids := ids - {base};
      }
    }
  }

  function Added(index: map<string, Members>, base: string, key: string, now: real): map<string, Members> {
    index[base := Members(Listed(index, base, now) + {key},
                          if base in index && Alive(index[base].until, now) then index[base].until else Never)]
  }

  function Expiring(index: map<string, Members>, base: string, ttl: real, now: real): map<string, Members>
    requires base in index
  {
    if ttl > 0.0 then index[base := Members(index[base].keys, At(now + ttl))] else index - {base}
  }

  lemma IndexedOneMore(index: map<string, Members>, bases: set<string>, base: string, key: string, ttl: real, now: real)
    ensures Expiring(Added(Indexed(index, bases, key, ttl, now), base, key, now), base, ttl, now)
            == Indexed(index, bases + {base}, key, ttl, now)
  {
  }

  lemma MentionsTrimmed(result: RetrievalResult, base: string)
    ensures base in Mentions(result) ==> TrimSpace(base) == base && base != ""
  {
    if base in Mentions(result) {
      var i :| 0 <= i < |result.documents| && HasBase(result.documents[i])
          && base == TrimSpace(result.documents[i].base.value);
      TrimTwice(result.documents[i].base.value);
    }
  }

  // ---------------------------------------------------------------- the invariant

  /** Every live result is listed in a live, no earlier expiring index of every base it mentions. */
  ghost predicate Covered(s: Redis, now: real) {
    forall key, base :: Hit(s, key, now) && base in Mentions(s.results[key].result) ==> Covers(s, key, base, now)
  }

  predicate Covers(s: Redis, key: string, base: string, now: real)
    requires key in s.results
  {
    key in Listed(s.index, base, now) && OutLasts(s.index[base].until, s.results[key].until)
  }

  /** No live result mentions `base`. */
  ghost predicate Forgotten(s: Redis, base: string, now: real) {
    forall key :: Hit(s, key, now) ==> base !in Mentions(s.results[key].result)
  }

  /** The invariant is exactly what it takes for every later invalidation to work. */
  lemma CoveredIff(s: Redis, now: real)
    ensures Covered(s, now) <==>
            forall base, t :: t >= now && base != "" ==> Forgotten(AfterInvalidate(s, base, t), base, t)
  {
    if !Covered(s, now) {
      var key, base :| Hit(s, key, now) && base in Mentions(s.results[key].result) && !Covers(s, key, base, now);
      MentionsTrimmed(s.results[key].result, base);
      var t := if key in Listed(s.index, base, now) then s.index[base].until.time else now;
      assert Hit(AfterInvalidate(s, base, t), key, t);
      assert !Forgotten(AfterInvalidate(s, base, t), base, t);
    }
  }

  lemma CoveredLater(s: Redis, now: real, t: real)
    requires Covered(s, now) && t >= now
    ensures Covered(s, t)
  {
    forall key, base | Hit(s, key, t) && base in Mentions(s.results[key].result) ensures Covers(s, key, base, t) {
      assert Hit(s, key, now);
      assert Covers(s, key, base, now);
    }
  }

  /** Storing a result keeps the invariant exactly when no live result that shares a base with the new one
      outlasts it. */
  lemma SetKeepsCoveredIff(s: Redis, key: string, result: RetrievalResult, ttl: real, now: real)
    requires Covered(s, now)
    ensures Covered(AfterSet(s, key, result, ttl, now), now) <==>
            || Mentions(result) == {}
            || (ttl > 0.0 && forall other :: Hit(s, other, now) && other != key ==>
                  Mentions(s.results[other].result) !! Mentions(result)
                      || OutLasts(At(now + ttl), s.results[other].until))
  {
    var z := AfterSet(s, key, result, ttl, now);
    if Mentions(result) == {} {
    } else if ttl <= 0.0 {
      var base :| base in Mentions(result);
      assert Hit(z, key, now) && !Covers(z, key, base, now);
    } else {
      forall other | Hit(s, other, now) && other != key && Covered(z, now)
        ensures Mentions(s.results[other].result) !! Mentions(result) || OutLasts(At(now + ttl), s.results[other].until)
      {
        assert Hit(z, other, now);
        forall base | base in Mentions(s.results[other].result) && base in Mentions(result)
          ensures OutLasts(At(now + ttl), s.results[other].until)
        {
          assert Covers(z, other, base, now);
        }
      }
    }
  }

  lemma InvalidateKeepsCovered(s: Redis, base: string, now: real)
    requires Covered(s, now)
    ensures Covered(AfterInvalidate(s, base, now), now)
  {
    var z := AfterInvalidate(s, base, now);
    forall key, b | Hit(z, key, now) && b in Mentions(z.results[key].result) ensures Covers(z, key, b, now) {
      assert Hit(s, key, now) && Covers(s, key, b, now);
    }
  }

  // ---------------------------------------------------------------- runs

  datatype Action =
    | Put(key: string, result: RetrievalResult, ttl: real, at: real)
    | Drop(base: string, at: real)

  function Step(s: Redis, a: Action): Redis {
    match a
    case Put(key, result, ttl, at) => AfterSet(s, TrimSpace(key), result, ttl, at)
    case Drop(base, at) => AfterInvalidate(s, TrimSpace(base), at)
  }

  function Exec(run: seq<Action>): Redis {
    if run == [] then Redis(map[], map[]) else Step(Exec(run[..|run| - 1]), run[|run| - 1])
  }

  /** The clock never runs backwards, up to and including `now`. */
  predicate Chronological(run: seq<Action>, now: real) {
    && (forall i, j :: 0 <= i < j < |run| ==> run[i].at <= run[j].at)
    && forall i :: 0 <= i < |run| ==> run[i].at <= now
  }

  /** Positive lifetimes that never shrink; one fixed lifetime is the usual case. */
  predicate Steady(run: seq<Action>) {
    && (forall i :: 0 <= i < |run| && run[i].Put? ==> run[i].ttl > 0.0)
    && forall i, j :: 0 <= i < j < |run| && run[i].Put? && run[j].Put? ==> run[i].ttl <= run[j].ttl
  }

  predicate IsPut(run: seq<Action>, i: int, key: string) {
    0 <= i < |run| && run[i].Put? && TrimSpace(run[i].key) == key
  }

  /** run[i] stored `key`, nothing has overwritten it since, and no base it mentions has been invalidated. */
  predicate Current(run: seq<Action>, i: int, key: string) {
    && IsPut(run, i, key)
    && (forall j :: i < j < |run| ==> !IsPut(run, j, key))
    && (forall j :: i < j < |run| && run[j].Drop? ==> TrimSpace(run[j].base) !in Mentions(run[i].result))
  }

  /** A live entry is the latest one stored under its key, within its lifetime and not invalidated. */
  ghost predicate Fresh(run: seq<Action>, key: string, now: real) {
    Hit(Exec(run), key, now) ==>
      exists i :: Current(run, i, key) && Exec(run).results[key] == Entry(run[i].result, At(run[i].at + run[i].ttl))
  }

  lemma {:induction false} HitIsFresh(run: seq<Action>, key: string, now: real)
    requires Chronological(run, now) && Steady(run)
    ensures Fresh(run, key, now)
    decreases |run|, 0
  {
    hide AfterSet, AfterInvalidate, Exec, Mentions, TrimSpace;
    if Hit(Exec(run), key, now) {
      if run == [] {
        ExecNone();
      } else {
        var n := |run| - 1;
        var before, a := run[..n], run[n];
        ExecNext(run);
        if a.Put? && TrimSpace(a.key) == key {
          PutStored(Exec(before), a);
          assert Current(run, n, key);
        } else {
          StepLeaves(Exec(before), a, key);
          HitIsFresh(before, key, now);
          var i :| Current(before, i, key) && Exec(before).results[key]
              == Entry(run[i].result, At(run[i].at + run[i].ttl));
          if a.Drop? {
            ReachableIsCovered(before, a.at);
            DropRemoves(Exec(before), a, key, now);
          }
          CurrentStill(run, i, key);
        }
      }
    }
  }

  lemma CurrentStill(run: seq<Action>, i: int, key: string)
    requires run != []
    requires Current(run[..|run| - 1], i, key) && !IsPut(run, |run| - 1, key)
    requires run[|run| - 1].Drop? ==> TrimSpace(run[|run| - 1].base) !in Mentions(run[i].result)
    ensures Current(run, i, key)
  {
    hide Mentions, TrimSpace;
    forall j | i < j < |run| ensures !IsPut(run, j, key) {
      if j < |run| - 1 {
        assert IsPut(run, j, key) == IsPut(run[..|run| - 1], j, key);
      }
    }
    forall j | i < j < |run| && run[j].Drop? ensures TrimSpace(run[j].base) !in Mentions(run[i].result) {
      if j < |run| - 1 {
        assert run[..|run| - 1][j] == run[j];
      }
    }
  }

  lemma ExecNone()
    ensures Exec([]) == Redis(map[], map[])
  {
  }

  lemma ExecNext(run: seq<Action>)
    requires run != []
    ensures Exec(run) == Step(Exec(run[..|run| - 1]), run[|run| - 1])
  {
  }

  lemma PutStored(s: Redis, a: Action)
    requires a.Put?
    ensures TrimSpace(a.key) in Step(s, a).results
    ensures Step(s, a).results[TrimSpace(a.key)] == Entry(a.result, SetExpiry(a.ttl, a.at))
  {
  }

  /** A step changes no entry but the one it stores: the others stay as they are or go. */
  lemma StepLeaves(s: Redis, a: Action, key: string)
    requires !(a.Put? && TrimSpace(a.key) == key)
    ensures key in Step(s, a).results ==> key in s.results && Step(s, a).results[key] == s.results[key]
  {
  }

  lemma DropRemoves(s: Redis, a: Action, key: string, now: real)
    requires Covered(s, a.at) && a.at <= now && a.Drop? && Hit(Step(s, a), key, now)
    ensures key in s.results && TrimSpace(a.base) !in Mentions(s.results[key].result)
  {
    assert Hit(s, key, a.at);
    MentionsTrimmed(s.results[key].result, TrimSpace(a.base));
  }

  /** In every reachable state, whatever was stored, overwritten, expired or invalidated before. */
  lemma {:induction false} ReachableIsCovered(run: seq<Action>, now: real)
    requires Chronological(run, now) && Steady(run)
    ensures Covered(Exec(run), now)
    decreases |run|, 1
  {
    hide AfterSet, AfterInvalidate, Exec, Mentions, TrimSpace;
    if run == [] {
      ExecNone();
    } else {
      var n := |run| - 1;
      var before, a := run[..n], run[n];
      ExecNext(run);
      ReachableIsCovered(before, a.at);
      var s := Exec(before);
      if a.Put? {
        forall other | Hit(s, other, a.at) ensures OutLasts(At(a.at + a.ttl), s.results[other].until) {
          HitIsFresh(before, other, a.at);
          var i :| Current(before, i, other) && s.results[other]
              == Entry(before[i].result, At(before[i].at + before[i].ttl));
          assert before[i] == run[i];
        }
        SetKeepsCoveredIff(s, TrimSpace(a.key), a.result, a.ttl, a.at);
      } else {
        InvalidateKeepsCovered(s, TrimSpace(a.base), a.at);
      }
      CoveredLater(Exec(run), a.at, now);
    }
  }

  /** After InvalidateKnowledgeBase no live result mentions the base. */
  lemma InvalidationIsComplete(run: seq<Action>, base: string, now: real)
    requires Chronological(run, now) && Steady(run) && TrimSpace(base) != ""
    ensures Forgotten(Exec(run + [Drop(base, now)]), TrimSpace(base), now)
  {
    var more := run + [Drop(base, now)];
    assert more[..|run|] == run;
    ReachableIsCovered(run, now);
    CoveredIff(Exec(run), now);
  }

  // ---------------------------------------------------------------- when a result is found

  /** A key is only ever listed under bases that some result stored under it mentioned. */
  lemma {:induction false} ListedWasPut(run: seq<Action>, base: string, key: string)
    requires base in Exec(run).index && key in Exec(run).index[base].keys
    ensures exists j :: IsPut(run, j, key) && base in Mentions(run[j].result)
  {
    hide Mentions, TrimSpace;
    var n := |run| - 1;
    var before, a := run[..n], run[n];
    if a.Put? && TrimSpace(a.key) == key && base in Mentions(a.result) {
      assert IsPut(run, n, key);
    } else {
      ListedWasPut(before, base, key);
      var j :| IsPut(before, j, key) && base in Mentions(before[j].result);
      assert IsPut(run, j, key) && run[j] == before[j];
    }
  }

  /** run[i] is the latest under `key`, and since then no base has been invalidated that any result stored
      under the key so far mentions. */
  predicate Untouched(run: seq<Action>, i: int, key: string) {
    && IsPut(run, i, key)
    && (forall j :: i < j < |run| ==> !IsPut(run, j, key))
    && (forall h, j :: 0 <= h <= i < j < |run| && IsPut(run, h, key) && run[j].Drop? ==>
          TrimSpace(run[j].base) !in Mentions(run[h].result))
  }

  /** Within its lifetime such a result is found, so the cache loses nothing else. */
  lemma {:induction false} UntouchedIsHit(run: seq<Action>, i: nat, key: string, now: real)
    requires Chronological(run, now) && Untouched(run, i, key) && run[i].ttl > 0.0 && now < run[i].at + run[i].ttl
    ensures Hit(Exec(run), key, now) && Exec(run).results[key].result == run[i].result
  {
    hide Exec, Mentions, TrimSpace, AfterSet, Indexed;
    var n := |run| - 1;
    var before, a := run[..n], run[n];
    ExecNext(run);
    if i == n {
      PutStored(Exec(before), a);
    } else {
      forall j | 0 <= j < n ensures IsPut(before, j, key) == IsPut(run, j, key) && before[j] == run[j] {
      }
      UntouchedIsHit(before, i, key, now);
      if a.Drop? {
        var base := TrimSpace(a.base);
        if base in Exec(before).index && key in Exec(before).index[base].keys {
          ListedWasPut(before, base, key);
        }
      } else {
        assert !IsPut(run, n, key);
        PutLeaves(Exec(before), a, key);
      }
    }
  }

  lemma PutLeaves(s: Redis, a: Action, key: string)
    requires a.Put? && TrimSpace(a.key) != key && key in s.results
    ensures key in Step(s, a).results && Step(s, a).results[key] == s.results[key]
  {
  }

  const STALE: RetrievalResult := RetrievalResult([Document("text", Some("k"))])

  /** With a lifetime that shrinks, a result outlives the index that lists it and survives the invalidation. */
  lemma ShrinkingLifetimeLeavesStale()
    ensures !Forgotten(Exec([Put("a", STALE, 100.0, 0.0), Put("b", STALE, 1.0, 0.0), Drop("k", 2.0)]), "k", 2.0)
  {
    var first, second, third := Put("a", STALE, 100.0, 0.0), Put("b", STALE, 1.0, 0.0), Drop("k", 2.0);
    assert Mentions(STALE) == {"k"} by {
      assert HasBase(STALE.documents[0]) && TrimSpace(STALE.documents[0].base.value) == "k";
    }
    ExecOne(first, second, third);
    assert Hit(Exec([first, second, third]), "a", 2.0);
  }

  lemma ExecOne(a: Action, b: Action, c: Action)
    ensures Exec([a, b, c]) == Step(Step(Step(Redis(map[], map[]), a), b), c)
  {
    hide AfterSet, AfterInvalidate, Step;
    assert [a, b, c][..2] == [a, b] && [a, b][..1] == [a] && [a][..0] == [];
    assert Exec([a]) == Step(Redis(map[], map[]), a);
    assert Exec([a, b]) == Step(Exec([a]), b);
  }
}
