/** The semantic chunker from its similarities on (internal/document/semantic_chunker.go). */
module Semantic {
  import opened Text
  import opened Subsequence
  import opened Chunker
  import opened OrderStatistics

  // ---------------------------------------------------------------- joining with blanks

  /** strings.Join(parts, " "). */
  function Join(parts: seq<string>): string {
    JoinWith(parts, " ")
  }

  lemma {:induction false} JoinErased(parts: seq<string>, E: set<char>)
    requires ' ' in E
    ensures Erase(Join(parts), E) == Erase(Flatten(parts), E)
  {
    if parts == [] {
    } else if |parts| == 1 {
      One(parts[0]);
      assert parts == [parts[0]];
    } else {
      var n := |parts| - 1;
      JoinErased(parts[..n], E);
      FlattenNext(parts, n);
      assert parts[..n + 1] == parts;
      EraseAppend(Flatten(parts[..n]), parts[n], E);
      Spaced(Join(parts[..n]), parts[n], E);
    }
  }

  lemma Spaced(a: string, b: string, E: set<char>)
    requires ' ' in E
    ensures Erase(a + " " + b, E) == Erase(a, E) + Erase(b, E)
  {
    EraseAppend(a + " ", b, E);
    EraseAppend(a, " ", E);
    EraseAll(" ", E);
  }

  predicate AreRuns(runs: seq<seq<string>>, parts: seq<string>, blocks: seq<string>) {
    && Concat(runs) == parts
    && |runs| == |blocks|
    && forall i :: 0 <= i < |runs| ==> runs[i] != [] && blocks[i] == Join(runs[i])
  }

  /** Joining the joined runs joins the parts. */
  lemma {:induction false} JoinJoined(runs: seq<seq<string>>, parts: seq<string>, blocks: seq<string>)
    requires AreRuns(runs, parts, blocks)
    ensures Join(blocks) == Join(parts)
    ensures runs != [] ==> parts != []
  {
    if runs != [] {
      var n := |runs| - 1;
      JoinJoined(runs[..n], Concat(runs[..n]), blocks[..n]);
      assert blocks == blocks[..n] + [blocks[n]];
      if n > 0 {
        JoinAppend(Concat(runs[..n]), runs[n], " ");
        JoinAppend(blocks[..n], [blocks[n]], " ");
      } else {
        assert Concat(runs) == runs[0] && blocks == [Join(runs[0])];
      }
    }
  }

  // ---------------------------------------------------------------- breakpoints

  /** The positions, counted from 1, of the similarities that are at most `t`, in order. */
  predicate IsBreaks(sims: seq<real>, t: real, breaks: seq<int>) {
    StrictlyRising(breaks) && FindsOnly(sims, t, breaks) && FindsAll(sims, t, breaks)
  }

  predicate FindsAll(sims: seq<real>, t: real, breaks: seq<int>) {
    forall k :: 0 <= k < |sims| && sims[k] <= t ==> k + 1 in breaks
  }

  predicate FindsOnly(sims: seq<real>, t: real, breaks: seq<int>) {
    forall i :: 0 <= i < |breaks| ==> 1 <= breaks[i] <= |sims| && sims[breaks[i] - 1] <= t
  }

  predicate StrictlyRising(breaks: seq<int>) {
    forall i, j :: 0 <= i < j < |breaks| ==> breaks[i] < breaks[j]
  }

  lemma FindsAllNext(sims: seq<real>, t: real, breaks: seq<int>, n: nat)
    requires n < |sims| && FindsAll(sims[..n], t, breaks)
    ensures FindsAll(sims[..n + 1], t, if sims[n] <= t then breaks + [n + 1] else breaks)
  {
    var more := if sims[n] <= t then breaks + [n + 1] else breaks;
    forall k | 0 <= k < n + 1 && sims[k] <= t ensures k + 1 in more {
      if k < n {
        assert sims[..n][k] == sims[k];
      }
    }
  }

  lemma FindsOnlyNext(sims: seq<real>, t: real, breaks: seq<int>, n: nat)
    requires n < |sims| && FindsOnly(sims[..n], t, breaks) && StrictlyRising(breaks)
    ensures var more := if sims[n] <= t then breaks + [n + 1] else breaks;
            FindsOnly(sims[..n + 1], t, more) && StrictlyRising(more)
  {
    OnlyBefore(sims, t, breaks, n);
  }

  lemma OnlyBefore(sims: seq<real>, t: real, breaks: seq<int>, n: nat)
    requires n <= |sims| && FindsOnly(sims[..n], t, breaks)
    ensures forall i :: 0 <= i < |breaks| ==> 1 <= breaks[i] <= n && sims[breaks[i] - 1] <= t
  {
    forall i | 0 <= i < |breaks| ensures 1 <= breaks[i] <= n && sims[breaks[i] - 1] <= t {
      assert sims[..n][breaks[i] - 1] == sims[breaks[i] - 1];
    }
  }

  lemma BreakNext(sims: seq<real>, t: real, breaks: seq<int>, n: nat)
    requires n < |sims| && IsBreaks(sims[..n], t, breaks)
    ensures IsBreaks(sims[..n + 1], t, if sims[n] <= t then breaks + [n + 1] else breaks)
  {
    hide FindsAll, FindsOnly, StrictlyRising;
    FindsAllNext(sims, t, breaks, n);
    FindsOnlyNext(sims, t, breaks, n);
  }

  /** Go's conversion of a float to an int: towards zero. */
  function Truncated(x: real): (i: int)
    ensures x >= 0.0 ==> i as real <= x < i as real + 1.0
    ensures x <= 0.0 ==> x <= i as real < x + 1.0
  {
    if x >= 0.0 then x.Floor else -((-x).Floor)
  }

  /** The position the percentile names among `m` sorted values; below zero the source indexes out of range. */
  function Rank(m: nat, p: real): (r: nat)
    requires m > 0 && Truncated(m as real * p) >= 0
    ensures r < m
    ensures p >= 0.0 ==> r as real <= m as real * p && (m as real * p < r as real + 1.0 || r == m - 1)
    ensures p < 0.0 ==> r == 0
  {
    assert p >= 0.0 ==> m as real * p >= 0.0;
    assert p < 0.0 ==> m as real * p < 0.0;
    var i := Truncated(m as real * p);
    if i >= m then m - 1 else i
  }

  // ---------------------------------------------------------------- grouping

  predicate Rising(breaks: seq<int>) {
    forall i, j :: 0 <= i < j < |breaks| ==> breaks[i] <= breaks[j]
  }

  predicate NoneNegative(breaks: seq<int>) {
    forall i :: 0 <= i < |breaks| ==> breaks[i] >= 0
  }

  /** The groups up to the last breakpoint, and where the next one begins. */
  function Grouped(sentences: seq<string>, breaks: seq<int>): (r: (seq<string>, nat))
    requires NoneNegative(breaks)
    ensures r.1 <= |sentences|
  {
    if breaks == [] then ([], 0) else
      var (groups, prev) := Grouped(sentences, breaks[..|breaks| - 1]);
      var last := breaks[|breaks| - 1];
      var bp := if last > |sentences| then |sentences| else last;
      (if bp > prev then groups + [Join(sentences[prev..bp])] else groups, bp)
  }

  function GroupsOf(sentences: seq<string>, breaks: seq<int>): seq<string>
    requires NoneNegative(breaks)
  {
    if breaks == [] then [Join(sentences)] else
      var (groups, prev) := Grouped(sentences, breaks);
      if prev < |sentences| then groups + [Join(sentences[prev..])] else groups
  }

  lemma GroupedNext(sentences: seq<string>, breaks: seq<int>, n: nat)
    requires NoneNegative(breaks) && n < |breaks|
    ensures NoneNegative(breaks[..n]) && NoneNegative(breaks[..n + 1])
    ensures var (groups, prev) := Grouped(sentences, breaks[..n]);
            var bp := if breaks[n] > |sentences| then |sentences| else breaks[n];
            Grouped(sentences, breaks[..n + 1]) == (if bp > prev then groups + [Join(sentences[prev..bp])]
                else groups, bp)
  {
    assert breaks[..n + 1][..n] == breaks[..n];
  }

  /** Where group `k` begins. */
  function Start(breaks: seq<int>, k: nat): int
    requires k <= |breaks|
  {
    if k == 0 then 0 else breaks[k - 1]
  }

  predicate Lies(sentences: seq<string>, group: string, from: int, to: int) {
    0 <= from < to <= |sentences| && group == Join(sentences[from..to])
  }

  /** The first groups lie between neighbouring breakpoints. */
  predicate CutBefore(sentences: seq<string>, breaks: seq<int>, groups: seq<string>, m: nat) {
    && m <= |breaks| && m <= |groups|
    && forall k :: 0 <= k < m ==> Lies(sentences, groups[k], Start(breaks, k), breaks[k])
  }

  /** With `m` breakpoints before the end of the list, one more group lies behind the last of them. */
  predicate CutInto(sentences: seq<string>, breaks: seq<int>, groups: seq<string>, m: nat) {
    && CutBefore(sentences, breaks, groups, m) && |groups| == m + 1
    && (forall i :: 0 <= i < |breaks| ==> (breaks[i] < |sentences| <==> i < m))
    && Lies(sentences, groups[m], Start(breaks, m), |sentences|)
  }

  /** The groups are what lies between the breakpoints. */
  ghost predicate CutAtBreaks(sentences: seq<string>, breaks: seq<int>, groups: seq<string>) {
    exists m :: CutInto(sentences, breaks, groups, m)
  }

  /** Breakpoints as findBreakpoints gives them: rising, from 1 on. */
  predicate Positions(breaks: seq<int>) {
    StrictlyRising(breaks) && forall i :: 0 <= i < |breaks| ==> breaks[i] >= 1
  }

  lemma CutMore(sentences: seq<string>, breaks: seq<int>, b: int, groups: seq<string>, more: seq<string>, m: nat)
    requires CutBefore(sentences, breaks, groups, m) && groups <= more
    ensures CutBefore(sentences, breaks + [b], more, m)
    ensures m == |breaks| && m < |more| && Lies(sentences, more[m], Start(breaks, m), b) ==>
              CutBefore(sentences, breaks + [b], more, m + 1)
  {
    hide Lies;
    forall k | 0 <= k < m ensures Lies(sentences, more[k], Start(breaks + [b], k), (breaks + [b])[k]) {
      assert Lies(sentences, groups[k], Start(breaks, k), breaks[k]);
    }
  }

  lemma {:induction false} GroupedBefore(sentences: seq<string>, breaks: seq<int>)
    requires sentences != [] && Positions(breaks) && forall i :: 0 <= i < |breaks| ==> breaks[i] < |sentences|
    ensures var (groups, prev) := Grouped(sentences, breaks);
            |groups| == |breaks| && prev == Start(breaks, |breaks|) && CutBefore(sentences, breaks, groups, |breaks|)
  {
    hide Join, CutBefore;
    if breaks == [] {
      NoGroups(sentences);
    } else {
      var n := |breaks| - 1;
      GroupedBefore(sentences, breaks[..n]);
      var (groups, prev) := Grouped(sentences, breaks[..n]);
      assert breaks == breaks[..n] + [breaks[n]];
      CutMore(sentences, breaks[..n], breaks[n], groups, Grouped(sentences, breaks).0, n);
    }
  }

  lemma NoGroups(sentences: seq<string>)
    ensures CutBefore(sentences, [], [], 0)
  {
  }

  /** The first breakpoint beyond the end closes the last group there. */
  lemma GroupedCloses(sentences: seq<string>, breaks: seq<int>, b: int)
    requires sentences != [] && Positions(breaks + [b]) && b >= |sentences|
    requires forall i :: 0 <= i < |breaks| ==> breaks[i] < |sentences|
    ensures NoneNegative(breaks + [b])
    ensures CutInto(sentences, breaks + [b], Grouped(sentences, breaks + [b]).0, |breaks|)
    ensures Grouped(sentences, breaks + [b]).1 == |sentences|
  {
    hide Join, CutBefore, Lies, CutInto, StrictlyRising;
    PositionsBefore(breaks, b);
    GroupedBefore(sentences, breaks);
    var (groups, prev) := Grouped(sentences, breaks);
    assert prev < |sentences|;
    Closes(sentences, breaks, b, groups, prev);
    assert (breaks + [b])[..|breaks|] == breaks;
  }

  lemma Closes(sentences: seq<string>, breaks: seq<int>, b: int, groups: seq<string>, prev: nat)
    requires CutBefore(sentences, breaks, groups, |breaks|) && |groups| == |breaks|
    requires prev == Start(breaks, |breaks|) && prev < |sentences| <= b
    requires forall i :: 0 <= i < |breaks| ==> breaks[i] < |sentences|
    ensures CutInto(sentences, breaks + [b], groups + [Join(sentences[prev..|sentences|])], |breaks|)
  {
    hide Join, CutBefore, Lies;
    CutMore(sentences, breaks, b, groups, groups + [Join(sentences[prev..|sentences|])], |breaks|);
    LastLies(sentences, prev);
  }

  lemma PositionsBefore(breaks: seq<int>, b: int)
    requires Positions(breaks + [b])
    ensures Positions(breaks) && b >= 1
  {
    var all := breaks + [b];
    assert all[|breaks|] == b;
    assert forall i :: 0 <= i < |breaks| ==> all[i] == breaks[i];
  }

  lemma CutStays(sentences: seq<string>, breaks: seq<int>, b: int, groups: seq<string>, m: nat)
    requires CutInto(sentences, breaks, groups, m) && m < |breaks| && b >= |sentences|
    ensures CutInto(sentences, breaks + [b], groups, m)
  {
    hide Lies;
    CutMore(sentences, breaks, b, groups, groups, m);
  }

  /** Breakpoints beyond the end close the last group there, once. */
  lemma {:induction false} GroupedBeyond(sentences: seq<string>, breaks: seq<int>, m: nat)
    requires sentences != [] && Positions(breaks) && m < |breaks|
    requires forall i :: 0 <= i < |breaks| ==> (breaks[i] < |sentences| <==> i < m)
    ensures CutInto(sentences, breaks, Grouped(sentences, breaks).0, m)
    ensures Grouped(sentences, breaks).1 == |sentences|
    decreases |breaks|
  {
    hide Join, CutInto;
    var n := |breaks| - 1;
    assert breaks == breaks[..n] + [breaks[n]];
    if m == n {
      GroupedCloses(sentences, breaks[..n], breaks[n]);
    } else {
      GroupedBeyond(sentences, breaks[..n], m);
      CutStays(sentences, breaks[..n], breaks[n], Grouped(sentences, breaks[..n]).0, m);
    }
  }

  lemma LastLies(sentences: seq<string>, from: nat)
    requires from < |sentences|
    ensures Lies(sentences, Join(sentences[from..|sentences|]), from, |sentences|)
  {
  }

  lemma Beyond(breaks: seq<int>, n: nat) returns (m: nat)
    requires StrictlyRising(breaks)
    ensures m <= |breaks| && forall i :: 0 <= i < |breaks| ==> (breaks[i] < n <==> i < m)
  {
    m := 0;
    while m < |breaks| && breaks[m] < n
      invariant m <= |breaks| && forall i :: 0 <= i < m ==> breaks[i] < n
    {
      m := m + 1;
    }
  }

  lemma CutsGrow(sentences: seq<string>, breaks: seq<int>, groups: seq<string>, more: seq<string>, m: nat)
    requires CutBefore(sentences, breaks, groups, m) && groups <= more
    ensures CutBefore(sentences, breaks, more, m)
  {
    hide Lies;
    forall k | 0 <= k < m ensures Lies(sentences, more[k], Start(breaks, k), breaks[k]) {
      assert Lies(sentences, groups[k], Start(breaks, k), breaks[k]);
    }
  }

  /** The sentences are cut exactly at the breakpoints. */
  lemma GroupsCut(sentences: seq<string>, breaks: seq<int>)
    requires sentences != [] && Positions(breaks)
    ensures CutAtBreaks(sentences, breaks, GroupsOf(sentences, breaks))
  {
    hide Join, CutBefore, Grouped;
    var n, groups := |sentences|, GroupsOf(sentences, breaks);
    var m := Beyond(breaks, n);
    assert sentences[..n] == sentences;
    if breaks == [] {
      GroupedNone(sentences);
      NoGroups(sentences);
      CutsGrow(sentences, [], [], groups, 0);
      assert CutInto(sentences, breaks, groups, 0);
    } else if m < |breaks| {
      GroupedBeyond(sentences, breaks, m);
      assert CutInto(sentences, breaks, groups, m);
    } else {
      GroupedBefore(sentences, breaks);
      var (before, prev) := Grouped(sentences, breaks);
      assert sentences[prev..n] == sentences[prev..];
      CutsGrow(sentences, breaks, before, groups, m);
      assert CutInto(sentences, breaks, groups, m);
    }
  }

  /** groupSentences. Sorted breakpoints cut the sentences into consecutive groups; the source indexes with
      whatever it is given, so negative ones are out. */
  method GroupSentences(sentences: seq<string>, breaks: seq<int>) returns (groups: seq<string>)
    requires NoneNegative(breaks)
    ensures groups == GroupsOf(sentences, breaks)
    ensures Rising(breaks) ==> Join(groups) == Join(sentences)
    ensures Rising(breaks) && sentences != [] ==> exists runs :: AreRuns(runs, sentences, groups)
  {
    hide Grouped, AreRuns, Join;
    if |breaks| == 0 {
      groups := [Join(sentences)];
      WholeRun(sentences);
      return;
    }
    groups := [];
    ghost var runs: seq<seq<string>> := [];
    var prev := 0;
    GroupedNone(sentences);
    assert sentences[..prev] == [];
    for i := 0 to |breaks|
      invariant 0 <= prev <= |sentences| && (groups, prev) == Grouped(sentences, breaks[..i])
      invariant prev <= if i == 0 then 0 else breaks[i - 1]
      invariant Rising(breaks) ==> AreRuns(runs, sentences[..prev], groups)
    {
      var bp := breaks[i];
      if bp > |sentences| {
        bp := |sentences|;
      }
      GroupedNext(sentences, breaks, i);
      if bp > prev {
        RunNext(runs, sentences, groups, prev, bp);
        runs := runs + [sentences[prev..bp]];
        groups := groups + [Join(sentences[prev..bp])];
      }
      prev := bp;
    }
    assert breaks[..|breaks|] == breaks;
    if prev < |sentences| {
      assert sentences[prev..|sentences|] == sentences[prev..];
      RunNext(runs, sentences, groups, prev, |sentences|);
      runs := runs + [sentences[prev..]];
      groups := groups + [Join(sentences[prev..])];
    }
    assert sentences[..|sentences|] == sentences;
    if Rising(breaks) {
      JoinJoined(runs, sentences, groups);
    }
  }

  lemma GroupedNone(sentences: seq<string>)
    ensures Grouped(sentences, []) == ([], 0) && AreRuns([], [], [])
  {
  }

  lemma WholeRun(sentences: seq<string>)
    ensures Join([Join(sentences)]) == Join(sentences)
    ensures sentences != [] ==> AreRuns([sentences], sentences, [Join(sentences)])
  {
    assert Concat([sentences][..0]) == [];
  }

  lemma RunNext(runs: seq<seq<string>>, parts: seq<string>, blocks: seq<string>, a: nat, b: nat)
    requires a < b <= |parts|
    ensures AreRuns(runs, parts[..a], blocks) ==>
              AreRuns(runs + [parts[a..b]], parts[..b], blocks + [Join(parts[a..b])])
  {
    var more := runs + [parts[a..b]];
    assert more[..|runs|] == runs;
    assert parts[..b] == parts[..a] + parts[a..b];
  }

  // ---------------------------------------------------------------- merging small groups

  predicate NoneEmpty(parts: seq<string>) {
    forall i :: 0 <= i < |parts| ==> parts[i] != ""
  }

  /** Without its last part the run stays below `min`. */
  predicate Grown(run: seq<string>, min: int) {
    forall k :: 1 <= k < |run| ==> |Join(run[..k])| < min
  }

  /** The greedy blocks: consecutive runs of parts, each but the last of at least `min` characters, and none
      longer than it takes. */
  predicate IsGreedy(runs: seq<seq<string>>, parts: seq<string>, blocks: seq<string>, min: int) {
    && AreRuns(runs, parts, blocks)
    && (forall i :: 0 <= i < |runs| ==> Grown(runs[i], min))
    && forall i :: 0 <= i < |blocks| - 1 ==> |blocks[i]| >= min
  }

  /** The state of the loop: closed blocks, all large enough, and the current one. */
  ghost predicate Merging(runs: seq<seq<string>>, run: seq<string>, parts: seq<string>, merged: seq<string>,
                          current: string, min: int) {
    && AreRuns(runs, Concat(runs), merged)
    && Concat(runs) + run == parts
    && current == Join(run)
    && (run == [] ==> parts == [])
    && (run != [] ==> current != "")
    && Grown(run, min)
    && (forall i :: 0 <= i < |runs| ==> Grown(runs[i], min))
    && forall i :: 0 <= i < |merged| ==> |merged[i]| >= min
  }

  lemma MergeExtends(runs: seq<seq<string>>, run: seq<string>, parts: seq<string>, merged: seq<string>, current: string,
                     min: int, part: string)
    requires Merging(runs, run, parts, merged, current, min) && part != "" && (run == [] || |current| < min)
    ensures Merging(runs, run + [part], parts + [part], merged, if run == [] then part else current + " " + part, min)
  {
    var more := run + [part];
    assert more[..|run|] == run;
    assert Concat(runs) + more == parts + [part];
    forall k | 1 <= k < |more| ensures |Join(more[..k])| < min {
      if k < |run| {
        assert more[..k] == run[..k];
      }
    }
  }

  lemma MergeCloses(runs: seq<seq<string>>, run: seq<string>, parts: seq<string>, merged: seq<string>, current: string,
                    min: int, part: string)
    requires Merging(runs, run, parts, merged, current, min) && part != "" && run != [] && |current| >= min
    ensures Merging(runs + [run], [part], parts + [part], merged + [current], part, min)
  {
    var more := runs + [run];
    assert more[..|runs|] == runs;
    assert Concat(more) == parts;
  }

  lemma MergeEnds(runs: seq<seq<string>>, run: seq<string>, parts: seq<string>, merged: seq<string>, current: string,
                  min: int)
    requires Merging(runs, run, parts, merged, current, min)
    ensures current == "" ==> IsGreedy(runs, parts, merged, min)
    ensures current != "" ==> IsGreedy(runs + [run], parts, merged + [current], min)
  {
    if current == "" {
      assert runs != [] ==> Concat(runs) != [] by {
        JoinJoined(runs, Concat(runs), merged);
      }
      assert runs == [];
    } else {
      var more := runs + [run];
      assert more[..|runs|] == runs;
      assert run != [];
    }
  }

  /** The closed blocks and the current one. */
  function Blocks(chunks: seq<string>, min: int): (seq<string>, string) {
    if chunks == [] then ([], "") else
      var (merged, current) := Blocks(chunks[..|chunks| - 1], min);
      var chunk := chunks[|chunks| - 1];
      if current == "" then (merged, chunk)
      else if |current| < min then (merged, current + " " + chunk)
      else (merged + [current], chunk)
  }

  function MergedBlocks(chunks: seq<string>, min: int): seq<string> {
    var (merged, current) := Blocks(chunks, min);
    if current == "" then merged else merged + [current]
  }

  lemma BlocksNext(chunks: seq<string>, min: int, n: nat)
    requires n < |chunks|
    ensures var (merged, current) := Blocks(chunks[..n], min);
            Blocks(chunks[..n + 1], min) == if current == "" then (merged, chunks[n])
                                            else if |current| < min then (merged, current + " " + chunks[n])
                                            else (merged + [current], chunks[n])
  {
    assert chunks[..n + 1][..n] == chunks[..n];
  }

  lemma BlocksNone(min: int)
    ensures Blocks([], min) == ([], "")
  {
  }

  /** The first loop of balanceChunks. An empty part that would start a block is lost with its blank. */
  method MergeSmall(chunks: seq<string>, min: int, ghost E: set<char>) returns (merged: seq<string>)
    requires ' ' in E
    ensures merged == MergedBlocks(chunks, min)
    ensures forall i :: 0 <= i < |merged| - 1 ==> |merged[i]| >= min
    ensures NoneEmpty(merged)
    ensures Erase(Flatten(merged), E) == Erase(Flatten(chunks), E)
    ensures NoneEmpty(chunks) ==> Join(merged) == Join(chunks) && exists runs :: IsGreedy(runs, chunks, merged, min)
  {
    hide Merging, Erase, Flatten, IsGreedy, Blocks;
    BlocksNone(min);
    merged := [];
    var current := "";
    ghost var runs: seq<seq<string>> := [];
    ghost var run: seq<string> := [];
    MergeStarts(min);
    for i := 0 to |chunks|
      invariant NoneEmpty(merged) && forall k :: 0 <= k < |merged| ==> |merged[k]| >= min
      invariant (merged, current) == Blocks(chunks[..i], min)
      invariant Erase(Flatten(merged) + current, E) == Erase(Flatten(chunks[..i]), E)
      invariant NoneEmpty(chunks) ==> Merging(runs, run, chunks[..i], merged, current, min)
    {
      var chunk := chunks[i];
      BlocksNext(chunks, min, i);
      TextNext(chunks, i, merged, current, E);
      assert chunks[..i + 1] == chunks[..i] + [chunk];
      if NoneEmpty(chunks) {
        RunOf(runs, run, chunks[..i], merged, current, min);
      }
      if current == "" {
        if NoneEmpty(chunks) {
          MergeExtends(runs, run, chunks[..i], merged, current, min, chunk);
        }
        run := run + [chunk];
        current := chunk;
        continue;
      }
      var combined := current + " " + chunk;
      if |current| < min {
        if NoneEmpty(chunks) {
          MergeExtends(runs, run, chunks[..i], merged, current, min, chunk);
        }
        run := run + [chunk];
        current := combined;
      } else {
        if NoneEmpty(chunks) {
          MergeCloses(runs, run, chunks[..i], merged, current, min, chunk);
        }
        runs := runs + [run];
        run := [chunk];
        merged := merged + [current];
        current := chunk;
      }
    }
    assert chunks[..|chunks|] == chunks;
    if NoneEmpty(chunks) {
      MergeEnds(runs, run, chunks, merged, current, min);
    }
    if current != "" {
      runs := runs + [run];
      FlattenLast(merged, current);
      merged := merged + [current];
    } else {
      assert Flatten(merged) + current == Flatten(merged);
    }
    if NoneEmpty(chunks) {
      GreedyKeepsText(runs, chunks, merged, min);
    }
  }

  lemma GreedyKeepsText(runs: seq<seq<string>>, parts: seq<string>, blocks: seq<string>, min: int)
    requires IsGreedy(runs, parts, blocks, min)
    ensures Join(blocks) == Join(parts)
  {
    JoinJoined(runs, parts, blocks);
  }

  lemma MergeStarts(min: int)
    ensures Merging([], [], [], [], "", min)
    ensures Flatten([]) == ""
  {
  }

  lemma RunOf(runs: seq<seq<string>>, run: seq<string>, parts: seq<string>, merged: seq<string>, current: string,
              min: int)
    requires Merging(runs, run, parts, merged, current, min)
    ensures current == "" <==> run == []
  {
  }

  lemma FlattenLast(parts: seq<string>, last: string)
    ensures Flatten(parts + [last]) == Flatten(parts) + last
  {
    FlattenAppend(parts, [last]);
    One(last);
  }

  /** All three ways of taking on a chunk leave the text as it is but for blanks. */
  lemma TextNext(chunks: seq<string>, i: nat, merged: seq<string>, current: string, E: set<char>)
    requires i < |chunks| && ' ' in E
    requires Erase(Flatten(merged) + current, E) == Erase(Flatten(chunks[..i]), E)
    ensures var want := Erase(Flatten(chunks[..i + 1]), E);
            && (current == "" ==> Erase(Flatten(merged) + chunks[i], E) == want)
            && Erase(Flatten(merged) + (current + " " + chunks[i]), E) == want
            && Erase(Flatten(merged + [current]) + chunks[i], E) == want
  {
    hide Erase, Flatten;
    var chunk := chunks[i];
    FlattenNext(chunks, i);
    EraseAppend(Flatten(chunks[..i]), chunk, E);
    EraseAppend(Flatten(merged) + current, chunk, E);
    FlattenLast(merged, current);
    Spaced(current, chunk, E);
    EraseAppend(Flatten(merged), current + " " + chunk, E);
    EraseAppend(Flatten(merged), current, E);
    assert current == "" ==> Flatten(merged) + current == Flatten(merged);
  }

  // ---------------------------------------------------------------- cutting large blocks

  lemma {:induction false} TrimLeftErased(s: string, E: set<char>)
    requires forall x :: IsSpace(x) ==> x in E
    ensures Erase(TrimLeft(s), E) == Erase(s, E)
  {
    if s != "" && IsSpace(s[0]) {
      TrimLeftErased(s[1..], E);
    }
  }

  lemma {:induction false} TrimRightErased(s: string, E: set<char>)
    requires forall x :: IsSpace(x) ==> x in E
    ensures Erase(TrimRight(s), E) == Erase(s, E)
  {
    hide IsSpace, Erase;
    if s != "" && IsSpace(s[|s| - 1]) {
      var n := |s| - 1;
      TrimRightErased(s[..n], E);
      EraseAppend(s[..n], [s[n]], E);
      EraseAll([s[n]], E);
      assert s == s[..n] + [s[n]];
      assert Erase(s[..n], E) + "" == Erase(s[..n], E);
    }
  }

  lemma TrimSpaceErased(s: string, E: set<char>)
    requires forall x :: IsSpace(x) ==> x in E
    ensures Erase(TrimSpace(s), E) == Erase(s, E)
  {
    TrimLeftErased(s, E);
    TrimRightErased(TrimLeft(s), E);
  }

  /** Everything that cutting and trimming may take away: blanks and the separators of the text splitter. */
  ghost predicate Droppable(E: set<char>) {
    (forall x :: IsSpace(x) ==> x in E) && Covers(E, SEPARATORS)
  }

  /** `out` holds the text of `parts`, in order, but for droppable characters. */
  ghost predicate Holds(parts: seq<string>, out: seq<string>, E: set<char>) {
    IsSub(Erase(Flatten(parts), E), Erase(Flatten(out), E))
  }

  lemma HoldsMore(parts: seq<string>, i: nat, out: seq<string>, more: seq<string>, E: set<char>)
    requires i < |parts| && Holds(parts[..i], out, E) && IsSub(Erase(parts[i], E), Erase(Flatten(more), E))
    ensures Holds(parts[..i + 1], out + more, E)
  {
    hide Erase, IsSub, Flatten;
    FlattenNext(parts, i);
    FlattenAppend(out, more);
    EraseAppend(Flatten(parts[..i]), parts[i], E);
    EraseAppend(Flatten(out), Flatten(more), E);
    SubAppend(Erase(Flatten(parts[..i]), E), Erase(Flatten(out), E), Erase(parts[i], E), Erase(Flatten(more), E));
  }

  /** `i` of the parts, without the blank ones, are kept as they are or trimmed. */
  lemma HoldsKept(parts: seq<string>, i: nat, out: seq<string>, E: set<char>)
    requires Droppable(E) && i < |parts| && Holds(parts[..i], out, E)
    ensures Holds(parts[..i + 1], out + [parts[i]], E)
    ensures Holds(parts[..i + 1], out + [TrimSpace(parts[i])], E)
    ensures TrimSpace(parts[i]) == "" ==> Holds(parts[..i + 1], out, E)
  {
    hide Erase, IsSub, Flatten, TrimSpace, Holds, IsSpace, Covers;
    TrimSpaceErased(parts[i], E);
    SubRefl(Erase(parts[i], E));
    One(parts[i]);
    One(TrimSpace(parts[i]));
    HoldsMore(parts, i, out, [parts[i]], E);
    HoldsMore(parts, i, out, [TrimSpace(parts[i])], E);
    if TrimSpace(parts[i]) == "" {
      assert Flatten([]) == "" by {
        NoPieces();
      }
      HoldsMore(parts, i, out, [], E);
      assert out + [] == out;
    }
  }

  lemma HoldsNothing(E: set<char>)
    ensures Holds([], [], E)
  {
  }

  /** The fixed overlap leaves the text splitter a way to cut the text. */
  predicate Splittable(size: int, text: string) {
    size > 0 && Ends(Config(size, 50), text, SEPARATORS)
  }

  /** A block fits, or can be cut. */
  predicate Cuttable(max: int, block: string) {
    |block| <= max || Splittable(max, block)
  }

  lemma LargeMaximumCuts(max: int, text: string)
    requires max > 50
    ensures Splittable(max, text)
  {
    SmallOverlapEnds(Config(max, 50), text, SEPARATORS);
  }

  /** Every text can be cut exactly with a maximum above the fixed overlap. */
  lemma SplittableIff(max: int)
    ensures (forall text: string :: Splittable(max, text)) <==> max > 50
  {
    hide Ends, Covers, SEPARATORS, SEPARATOR_CHARS;
    SeparatorsCovered();
    if max > 50 {
      forall text: string ensures Splittable(max, text) {
        LargeMaximumCuts(max, text);
      }
    } else if max > 0 {
      AlwaysEndsIff(Config(max, 50), SEPARATORS, SEPARATOR_CHARS, 'x');
      var text: string :| !Ends(Config(max, 50), text, SEPARATORS);
      assert !Splittable(max, text);
    } else {
      assert !Splittable(max, "");
    }
  }

  /** A block of 51 characters without separators, with the smallest chunk size the settings accept. */
  lemma FiftyCannotCut()
    ensures !Cuttable(50, Times('x', 51))
  {
    hide Ends, Covers, SEPARATORS, SEPARATOR_CHARS;
    SeparatorsCovered();
    LargeOverlapNeverEnds(Config(50, 50), Times('x', 51), SEPARATORS, SEPARATOR_CHARS, 'x');
  }

  // ---------------------------------------------------------------- dropping blank chunks

  /** `out` holds exactly the parts that are not blank, found at the places `at`. */
  ghost predicate KeptAt(parts: seq<string>, out: seq<string>, at: seq<nat>) {
    && |at| == |out|
    && (forall j, k :: 0 <= j < k < |at| ==> at[j] < at[k])
    && (forall k :: 0 <= k < |at| ==> at[k] < |parts| && out[k] == parts[at[k]])
    && forall i: nat :: i in at <==> i < |parts| && TrimSpace(parts[i]) != ""
  }

  /** The parts that are not blank, in order. */
  ghost predicate NonBlank(parts: seq<string>, out: seq<string>) {
    exists at :: KeptAt(parts, out, at)
  }

  /** The same parts, trimmed. */
  ghost predicate NonBlankTrimmed(parts: seq<string>, out: seq<string>) {
    exists kept :: NonBlank(parts, kept) && Trims(kept, out)
  }

  predicate Trims(kept: seq<string>, out: seq<string>) {
    |kept| == |out| && forall k :: 0 <= k < |out| ==> out[k] == TrimSpace(kept[k])
  }

  lemma NonBlankNone()
    ensures NonBlank([], [])
  {
    assert KeptAt([], [], []);
  }

  lemma NonBlankNext(parts: seq<string>, i: nat, out: seq<string>)
    requires i < |parts| && NonBlank(parts[..i], out)
    ensures NonBlank(parts[..i + 1], if TrimSpace(parts[i]) == "" then out else out + [parts[i]])
  {
    hide TrimSpace;
    var at :| KeptAt(parts[..i], out, at);
    if TrimSpace(parts[i]) == "" {
      assert KeptAt(parts[..i + 1], out, at);
    } else {
      assert KeptAt(parts[..i + 1], out + [parts[i]], at + [i]);
    }
  }

  /** What balanceChunks puts in the place of one merged block. */
  ghost predicate Balances(max: int, block: string, out: seq<string>) {
    if |block| <= max then out == [block]
    else NonBlank(SplitText(Config(max, 50), block, SEPARATORS), out)
  }

  /** The result of balanceChunks, block by block. */
  ghost predicate BalancedFrom(max: int, blocks: seq<string>, outs: seq<seq<string>>, result: seq<string>) {
    && |outs| == |blocks| && result == Concat(outs)
    && forall i :: 0 <= i < |blocks| ==> Balances(max, blocks[i], outs[i])
  }

  ghost predicate Balanced(max: int, blocks: seq<string>, result: seq<string>) {
    exists outs :: BalancedFrom(max, blocks, outs, result)
  }

  lemma BalancedNone(max: int)
    ensures Balanced(max, [], [])
  {
    assert BalancedFrom(max, [], [], []);
  }

  lemma BalancedNext(max: int, blocks: seq<string>, i: nat, result: seq<string>, out: seq<string>)
    requires i < |blocks| && Balanced(max, blocks[..i], result) && Balances(max, blocks[i], out)
    ensures Balanced(max, blocks[..i + 1], result + out)
  {
    hide Balances;
    var outs :| BalancedFrom(max, blocks[..i], outs, result);
    var more := outs + [out];
    assert more[..i] == outs;
    forall k | 0 <= k < i + 1 ensures Balances(max, blocks[..i + 1][k], more[k]) {
      assert k < i ==> Balances(max, blocks[..i][k], outs[k]);
    }
    assert BalancedFrom(max, blocks[..i + 1], more, result + out);
  }

  predicate AllFit(max: int, blocks: seq<string>) {
    forall i :: 0 <= i < |blocks| ==> |blocks[i]| <= max
  }

  lemma {:induction false} EachStays(max: int, blocks: seq<string>, outs: seq<seq<string>>, result: seq<string>)
    requires BalancedFrom(max, blocks, outs, result) && AllFit(max, blocks)
    ensures result == blocks
    decreases |blocks|
  {
    if blocks != [] {
      var n := |blocks| - 1;
      EachStays(max, blocks[..n], outs[..n], Concat(outs[..n]));
      assert Balances(max, blocks[n], outs[n]);
    }
  }

  /** Where every block fits, the blocks are the result. */
  lemma FittingBlocksStay(max: int, blocks: seq<string>, result: seq<string>)
    requires Balanced(max, blocks, result) && AllFit(max, blocks)
    ensures result == blocks
  {
    var outs :| BalancedFrom(max, blocks, outs, result);
    EachStays(max, blocks, outs, result);
  }

  /** The chunk of the text splitter that balanceChunks and the fallback use: config and separators are fixed. */
  method SubChunks(size: int, text: string, ghost E: set<char>) returns (chunks: seq<string>)
    requires Splittable(size, text) && Droppable(E)
    ensures NonBlank(SplitText(Config(size, 50), text, SEPARATORS), chunks)
    ensures IsSub(Erase(text, E), Erase(Flatten(chunks), E))
    ensures AllWithin(chunks, size + 11 * 50)
  {
    hide Erase, IsSub, Flatten, TrimSpace, Holds, SplitText, Covers, AllWithin, Ends, NonBlank, IsGreedySplit;
    var c := Config(size, 50);
    var splitter := new RecursiveCharacterChunker(c);
    var parts := splitter.Run(text, SEPARATORS);
    SplitTextKeeps(c, text, SEPARATORS, E);
    DefaultSizes(c, text);
    chunks := [];
    HoldsNothing(E);
    NoneWithin(size + 11 * 50);
    NonBlankNone();
    for i := 0 to |parts|
      invariant Holds(parts[..i], chunks, E) && AllWithin(chunks, size + 11 * 50)
      invariant NonBlank(parts[..i], chunks)
    {
      NonBlankNext(parts, i, chunks);
      HoldsKept(parts, i, chunks, E);
      OneWithin(parts, i, size + 11 * 50);
      if TrimSpace(parts[i]) == "" {
        continue;
      }
      BothWithin(chunks, [parts[i]], size + 11 * 50);
      chunks := chunks + [parts[i]];
    }
    assert parts[..|parts|] == parts;
    HoldsIs(parts, chunks, E);
    SubTrans(Erase(text, E), Erase(Flatten(parts), E), Erase(Flatten(chunks), E));
  }

  lemma HoldsIs(parts: seq<string>, out: seq<string>, E: set<char>)
    ensures Holds(parts, out, E) <==> IsSub(Erase(Flatten(parts), E), Erase(Flatten(out), E))
  {
  }

  lemma NoneWithin(n: int)
    ensures AllWithin([], n)
  {
  }

  lemma OneWithin(parts: seq<string>, i: nat, n: int)
    requires i < |parts| && AllWithin(parts, n)
    ensures AllWithin([parts[i]], n)
  {
  }

  lemma Within(s: string, n: int)
    requires 0 < |s| <= n
    ensures AllWithin([s], n)
  {
  }

  // ---------------------------------------------------------------- the chunker

  class SemanticChunker {
    var maxChunkSize: int
    var minChunkSize: int
    var similarityThreshold: real
    var percentileThreshold: real

    /** NewSemanticChunker. */
    constructor (maxChunkSize: int)
      ensures this.maxChunkSize == maxChunkSize && minChunkSize == 50
      ensures similarityThreshold == 0.0 && percentileThreshold == 0.25
    {
      this.maxChunkSize, minChunkSize := maxChunkSize, 50;
      similarityThreshold, percentileThreshold := 0.0, 0.25;
    }

    /** The percentile names a position, where it is used. */
    predicate Indexable(similarities: seq<real>)
      reads this
    {
      similarityThreshold > 0.0 || similarities == [] || Truncated(|similarities| as real * percentileThreshold) >= 0
    }

    /** What the breakpoints are: all of one threshold, which the percentile takes from the similarities
        themselves. */
    ghost predicate AreBreakpoints(similarities: seq<real>, breaks: seq<int>)
      requires Indexable(similarities)
      reads this
    {
      if similarities == [] then breaks == []
      else if similarityThreshold > 0.0 then IsBreaks(similarities, similarityThreshold, breaks)
      else
        var rank := Rank(|similarities|, percentileThreshold);
        exists t :: t in similarities && IsBreaks(similarities, t, breaks)
                    && rank + 1 <= |breaks| <= rank + multiset(similarities)[t]
    }

    method FindBreakpoints(similarities: seq<real>) returns (breaks: seq<int>)
      requires Indexable(similarities)
      ensures AreBreakpoints(similarities, breaks)
    {
      hide IsBreaks, Count, Ascending, Rank;
      if |similarities| == 0 {
        BreakNone(similarityThreshold);
        return [];
      }
      var threshold := similarityThreshold;
      if similarityThreshold <= 0.0 {
        var sorted := Sorted(similarities);
        assert |sorted| == |multiset(sorted)| == |multiset(similarities)| == |similarities|;
        var idx := Rank(|similarities|, percentileThreshold);
        threshold := sorted[idx];
        OrderStatistic(similarities, sorted, idx);
      }
      breaks := Below(similarities, threshold);
      assert similarityThreshold <= 0.0 ==> threshold in similarities;
    }

    static method Below(similarities: seq<real>, threshold: real) returns (breaks: seq<int>)
      ensures IsBreaks(similarities, threshold, breaks) && |breaks| == Count(similarities, threshold, false)
    {
      hide IsBreaks, Count;
      breaks := [];
      BreakNone(threshold);
      for i := 0 to |similarities|
        invariant IsBreaks(similarities[..i], threshold, breaks)
                  && |breaks| == Count(similarities[..i], threshold, false)
      {
        BreakNext(similarities, threshold, breaks, i);
        CountNext(similarities, threshold, i);
        if similarities[i] <= threshold {
          breaks := breaks + [i + 1];
        }
      }
      assert similarities[..|similarities|] == similarities;
    }

    /** Every merged block fits or can be cut. A maximum above the fixed overlap always suffices. */
    predicate Balanceable(chunks: seq<string>)
      reads this
    {
      forall block :: block in MergedBlocks(chunks, minChunkSize) ==> Cuttable(maxChunkSize, block)
    }

    method BalanceChunks(chunks: seq<string>, ghost E: set<char>) returns (result: seq<string>)
      requires Balanceable(chunks) && Droppable(E)
      ensures Balanced(maxChunkSize, MergedBlocks(chunks, minChunkSize), result)
      ensures AllFit(maxChunkSize, MergedBlocks(chunks, minChunkSize)) ==>
                && result == MergedBlocks(chunks, minChunkSize)
                && Erase(Flatten(result), E) == Erase(Flatten(chunks), E)
                && (NoneEmpty(chunks) ==>
                      Join(result) == Join(chunks) && exists runs :: IsGreedy(runs, chunks, result, minChunkSize))
      ensures Holds(chunks, result, E)
      ensures AllWithin(result, maxChunkSize + 11 * 50)
    {
      hide Erase, IsSub, Flatten, TrimSpace, Holds, Covers, AllWithin, IsGreedy, MergedBlocks, Splittable, NonBlank,
        Balanced, Join, AllFit;
      var merged := MergeSmall(chunks, minChunkSize, E);
      result := CutLarge(maxChunkSize, merged, E);
      if AllFit(maxChunkSize, merged) {
        FittingBlocksStay(maxChunkSize, merged, result);
      }
      HoldsIs(merged, result, E);
      HoldsIs(chunks, result, E);
    }

    /** The second loop of balanceChunks. */
    static method CutLarge(max: int, merged: seq<string>, ghost E: set<char>) returns (result: seq<string>)
      requires (forall block :: block in merged ==> Cuttable(max, block)) && NoneEmpty(merged) && Droppable(E)
      ensures Balanced(max, merged, result)
      ensures Holds(merged, result, E)
      ensures AllWithin(result, max + 11 * 50)
    {
      hide Erase, IsSub, Flatten, TrimSpace, Holds, Covers, AllWithin, Splittable, NonBlank, Balanced;
      result := [];
      BalancedNone(max);
      HoldsNothing(E);
      NoneWithin(max + 11 * 50);
      for i := 0 to |merged|
        invariant Holds(merged[..i], result, E) && AllWithin(result, max + 11 * 50)
        invariant Balanced(max, merged[..i], result)
      {
        var chunk := merged[i];
        if |chunk| <= max {
          HoldsKept(merged, i, result, E);
          Within(chunk, max + 11 * 50);
          BothWithin(result, [chunk], max + 11 * 50);
          BalancedNext(max, merged, i, result, [chunk]);
          result := result + [chunk];
        } else {
          assert chunk in merged && Cuttable(max, chunk);
          var subChunks := SubChunks(max, chunk, E);
          HoldsMore(merged, i, result, subChunks, E);
          BothWithin(result, subChunks, max + 11 * 50);
          BalancedNext(max, merged, i, result, subChunks);
          result := result + subChunks;
        }
      }
      assert merged[..|merged|] == merged;
    }

    /** Whatever has to be cut on the way can be. */
    ghost predicate Chunkable(content: string, sentences: seq<string>, similarities: seq<real>)
      requires Indexable(similarities)
      reads this
    {
      if |sentences| < 3 then Splittable(maxChunkSize, content)
      else forall breaks :: AreBreakpoints(similarities, breaks) && NoneNegative(breaks) ==>
             Balanceable(GroupsOf(sentences, breaks))
    }

    /** The documents, step by step: the sentences cut at the breakpoints, the small groups merged, the large blocks
        cut, the rest trimmed. */
    ghost predicate IsChunking(sentences: seq<string>, similarities: seq<real>, documents: seq<string>)
      requires Indexable(similarities)
      reads this
    {
      exists breaks, groups, final ::
        && AreBreakpoints(similarities, breaks)
        && CutAtBreaks(sentences, breaks, groups)
        && Balanced(maxChunkSize, MergedBlocks(groups, minChunkSize), final)
        && NonBlankTrimmed(final, documents)
    }

    /** Chunk from its sentences and their similarities on: the text is kept, in order, but for blanks and
        separators, and no chunk outgrows the maximum by more than eleven overlaps. */
    method Chunk(content: string, sentences: seq<string>, similarities: seq<real>, ghost E: set<char>)
      returns (documents: seq<string>)
      requires Indexable(similarities) && Chunkable(content, sentences, similarities) && Droppable(E)
      ensures |sentences| < 3 ==> NonBlank(SplitText(Config(maxChunkSize, 50), content, SEPARATORS), documents)
      ensures |sentences| >= 3 ==> IsChunking(sentences, similarities, documents)
      ensures IsSub(Erase(if |sentences| < 3 then content else Flatten(sentences), E), Flatten(documents))
      ensures AllWithin(documents, maxChunkSize + 11 * 50)
      ensures |sentences| >= 3 ==> forall i :: 0 <= i < |documents| ==> TrimSpace(documents[i]) == documents[i]
    {
      hide Erase, IsSub, Flatten, TrimSpace, Holds, Covers, AllWithin, IsBreaks, Truncated, Rank, Splittable, GroupsOf,
        MergedBlocks, Balanced, NonBlank, NonBlankTrimmed, CutAtBreaks;
      if |sentences| < 3 {
        documents := SubChunks(maxChunkSize, content, E);
        EraseSub(Flatten(documents), E);
        SubTrans(Erase(content, E), Erase(Flatten(documents), E), Flatten(documents));
        return;
      }
      var breaks := FindBreakpoints(similarities);
      BreaksRise(similarities, breaks);
      var raw := GroupSentences(sentences, breaks);
      var final := BalanceChunks(raw, E);
      documents := Trimmed(final, maxChunkSize + 11 * 50, E);
      AllHeld(sentences, raw, final, documents, E);
      GroupsCut(sentences, breaks);
    }

    /** The loop over the final chunks. */
    static method Trimmed(final: seq<string>, ghost n: int, ghost E: set<char>) returns (documents: seq<string>)
      requires AllWithin(final, n) && Droppable(E)
      ensures NonBlankTrimmed(final, documents)
      ensures Holds(final, documents, E) && AllWithin(documents, n)
      ensures forall i :: 0 <= i < |documents| ==> TrimSpace(documents[i]) == documents[i]
    {
      hide Erase, IsSub, Flatten, TrimSpace, Holds, Covers, AllWithin, NonBlank;
      documents := [];
      ghost var kept: seq<string> := [];
      HoldsNothing(E);
      NoneWithin(n);
      NonBlankNone();
      for i := 0 to |final|
        invariant NonBlank(final[..i], kept) && Trims(kept, documents)
        invariant Holds(final[..i], documents, E) && AllWithin(documents, n)
        invariant forall j :: 0 <= j < |documents| ==> TrimSpace(documents[j]) == documents[j]
      {
        var text := TrimSpace(final[i]);
        NonBlankNext(final, i, kept);
        TrimTwice(final[i]);
        HoldsKept(final, i, documents, E);
        if text == "" {
          continue;
        }
        TrimmedWithin(final, i, n);
        BothWithin(documents, [text], n);
        kept := kept + [final[i]];
        documents := documents + [text];
      }
      assert final[..|final|] == final;
    }
  }

  lemma BreakNone(t: real)
    ensures IsBreaks([], t, []) && Count([], t, false) == 0
  {
  }

  lemma BreaksRise(similarities: seq<real>, breaks: seq<int>)
    requires breaks == [] || exists t :: IsBreaks(similarities, t, breaks)
    ensures Rising(breaks) && NoneNegative(breaks) && Positions(breaks)
  {
  }

  /** With a maximum above the fixed overlap there is nothing to require. */
  lemma LargeMaximumChunks(chunker: SemanticChunker, content: string, sentences: seq<string>, similarities: seq<real>)
    requires chunker.maxChunkSize > 50 && chunker.Indexable(similarities)
    ensures chunker.Chunkable(content, sentences, similarities)
  {
    hide Splittable, MergedBlocks, GroupsOf;
    forall text ensures Splittable(chunker.maxChunkSize, text) {
      LargeMaximumCuts(chunker.maxChunkSize, text);
    }
  }

  /** The chunker can take every document. */
  ghost predicate ChunksEverything(chunker: SemanticChunker)
    reads chunker
  {
    forall content: string, sentences: seq<string>, similarities: seq<real> ::
      chunker.Indexable(similarities) ==> chunker.Chunkable(content, sentences, similarities)
  }

  /** It can exactly with a maximum above the fixed overlap; otherwise some document never ends. */
  lemma ChunksEverythingIff(chunker: SemanticChunker)
    ensures ChunksEverything(chunker) <==> chunker.maxChunkSize > 50
  {
    hide Splittable, MergedBlocks, GroupsOf;
    if chunker.maxChunkSize > 50 {
      forall content: string, sentences: seq<string>, similarities: seq<real> | chunker.Indexable(similarities)
        ensures chunker.Chunkable(content, sentences, similarities)
      {
        LargeMaximumChunks(chunker, content, sentences, similarities);
      }
    } else {
      SplittableIff(chunker.maxChunkSize);
      var text: string :| !Splittable(chunker.maxChunkSize, text);
      var none: seq<real> := [];
      assert chunker.Indexable(none) && !chunker.Chunkable(text, [], none);
    }
  }

  lemma TrimShorter(s: string)
    ensures |TrimSpace(s)| <= |s|
  {
  }

  lemma TrimmedWithin(parts: seq<string>, i: nat, n: int)
    requires i < |parts| && AllWithin(parts, n) && TrimSpace(parts[i]) != ""
    ensures AllWithin([TrimSpace(parts[i])], n)
  {
    TrimShorter(parts[i]);
  }

  lemma AllHeld(sentences: seq<string>, raw: seq<string>, final: seq<string>, documents: seq<string>, E: set<char>)
    requires ' ' in E && Join(raw) == Join(sentences) && Holds(raw, final, E) && Holds(final, documents, E)
    ensures IsSub(Erase(Flatten(sentences), E), Flatten(documents))
  {
    hide Erase, IsSub, Flatten;
    JoinErased(raw, E);
    JoinErased(sentences, E);
    var text := Erase(Flatten(raw), E);
    SubTrans(text, Erase(Flatten(final), E), Erase(Flatten(documents), E));
    EraseSub(Flatten(documents), E);
    SubTrans(text, Erase(Flatten(documents), E), Flatten(documents));
  }
}
