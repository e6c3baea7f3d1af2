/** The recursive text splitter (internal/document/loader.go). */
module Chunker {
  import opened Text
  import opened Subsequence
  import opened Windows

  datatype Config = Config(size: int, overlap: int)

  predicate Proper(c: Config) {
    c.size > 0
  }

  /** What the overlap adds to a chunk. */
  function Extra(c: Config): nat {
    if c.overlap < 0 then 0 else c.overlap
  }

  /** strings.Split for a non-empty separator. */
  function Split(text: string, sep: string): (r: seq<string>)
    requires sep != ""
    ensures r != []
    decreases |text|
  {
    var i := Index(text, sep);
    if i < 0 then [text] else [text[..i]] + Split(text[i + |sep|..], sep)
  }

  function Pieces(c: Config, text: string, sep: string): seq<string> {
    if sep == "" then ByCharCount(text, c.size, c.overlap) else Split(text, sep)
  }

  function Fits(c: Config, current: string, s: string, sep: string): bool {
    |current| + |s| + ByteLen(sep) <= c.size
  }

  function Joined(current: string, s: string, sep: string): string {
    (if current != "" then current + sep else current) + s
  }

  function Flush(current: string): seq<string> {
    if current == "" then [] else [current]
  }

  /** The merging loop from `current` on. */
  function Merge(c: Config, pieces: seq<string>, sep: string, rest: seq<string>, current: string): seq<string>
    decreases |rest|, 1, |pieces|
  {
    if pieces == [] then Flush(current)
    else
      var s := pieces[0];
      if Fits(c, current, s, sep) then Merge(c, pieces[1..], sep, rest, Joined(current, s, sep))
      else if |s| > c.size && rest != [] then Flush(current) + SplitText(c, s, rest)
          + Merge(c, pieces[1..], sep, rest, "")
      else Flush(current) + Merge(c, pieces[1..], sep, rest, s)
  }

  function Tail(s: string, n: int): (r: string)
    ensures |r| == (if n <= 0 then 0 else if n < |s| then n else |s|) && r == s[|s| - |r|..]
  {
    if n >= |s| then s else if n <= 0 then "" else s[|s| - n..]
  }

  function AddOverlap(c: Config, chunks: seq<string>): (r: seq<string>)
    ensures |r| == |chunks|
    ensures c.overlap <= 0 || |chunks| <= 1 ==> r == chunks
    ensures c.overlap > 0 && |chunks| > 1 ==>
              forall i :: 0 <= i < |r| ==> r[i] == if i == 0 then chunks[0]
                  else Tail(chunks[i - 1], c.overlap) + chunks[i]
  {
    if c.overlap <= 0 || |chunks| <= 1 then chunks
    else seq(|chunks|, i requires 0 <= i < |chunks| => if i == 0 then chunks[0]
        else Tail(chunks[i - 1], c.overlap) + chunks[i])
  }

  function SplitText(c: Config, text: string, seps: seq<string>): seq<string>
    decreases |seps|, 0
  {
    if seps == [] then ByCharCount(text, c.size, c.overlap)
    else AddOverlap(c, Merge(c, Pieces(c, text, seps[0]), seps[0], seps[1..], ""))
  }

  // ---------------------------------------------------------------- the chunks are greedy runs

  function DropEmpty(run: seq<string>): seq<string> {
    if run == [] || run[0] != "" then run else DropEmpty(run[1..])
  }

  /** The text of a run of pieces: joined again, but for empty pieces in front. */
  function RunText(run: seq<string>, sep: string): string {
    JoinWith(DropEmpty(run), sep)
  }

  /** A run is one piece that is cut again, or pieces each of which still fits behind those before it. */
  predicate IsRun(c: Config, run: seq<string>, sep: string, rest: seq<string>) {
    && run != []
    && (|run[0]| > c.size && rest != [] ==> |run| == 1)
    && forall j :: 0 < j < |run| ==> |RunText(run[..j], sep)| + |run[j]| + ByteLen(sep) <= c.size
  }

  predicate CutAgain(c: Config, run: seq<string>, rest: seq<string>) {
    run != [] && |run[0]| > c.size && rest != []
  }

  /** Runs, and none that could have taken the first piece of the next one. */
  predicate AreGreedy(c: Config, runs: seq<seq<string>>, sep: string, rest: seq<string>) {
    && (forall k :: 0 <= k < |runs| ==> IsRun(c, runs[k], sep, rest))
    && forall k :: 0 < k < |runs| && !CutAgain(c, runs[k - 1], rest) ==>
                     |RunText(runs[k - 1], sep)| + |runs[k][0]| + ByteLen(sep) > c.size
  }

  /** One chunk for a run that has any text, and the chunks of a piece that is cut again. */
  function ChunksOf(c: Config, runs: seq<seq<string>>, sep: string, rest: seq<string>): seq<string> {
    if runs == [] then []
    else
      (if CutAgain(c, runs[0], rest) then SplitText(c, runs[0][0], rest)
       else if RunText(runs[0], sep) == "" then [] else [RunText(runs[0], sep)])
      + ChunksOf(c, runs[1..], sep, rest)
  }

  /** What splitText returns for the pieces of the first separator. */
  ghost predicate IsGreedySplit(c: Config, pieces: seq<string>, sep: string, rest: seq<string>, result: seq<string>) {
    exists runs :: Concat(runs) == pieces && AreGreedy(c, runs, sep, rest)
                   && result == AddOverlap(c, ChunksOf(c, runs, sep, rest))
  }

  /** The runs, of which `run` is the beginning of the first. */
  ghost function Runs(c: Config, pieces: seq<string>, sep: string, rest: seq<string>,
                      run: seq<string>): seq<seq<string>>
    decreases |pieces|
  {
    if pieces == [] then (if run == [] then [] else [run])
    else
      var s, tail := pieces[0], pieces[1..];
      if run != [] && |RunText(run, sep)| + |s| + ByteLen(sep) <= c.size then Runs(c, tail, sep, rest, run + [s])
      else if |s| > c.size && rest != [] then
        (if run == [] then [] else [run]) + ([[s]] + Runs(c, tail, sep, rest, []))
      else (if run == [] then [] else [run]) + Runs(c, tail, sep, rest, [s])
  }

  lemma {:induction false} DropEmptyMore(run: seq<string>, s: string)
    ensures DropEmpty(run + [s]) == if DropEmpty(run) == [] then DropEmpty([s]) else DropEmpty(run) + [s]
  {
    if run == [] {
      assert run + [s] == [s];
    } else if run[0] == "" {
      assert (run + [s])[1..] == run[1..] + [s];
      DropEmptyMore(run[1..], s);
    }
  }

  lemma {:induction false} DropEmptyFirst(run: seq<string>)
    ensures DropEmpty(run) != [] ==> DropEmpty(run)[0] != ""
  {
    if run != [] && run[0] == "" {
      DropEmptyFirst(run[1..]);
    }
  }

  lemma {:induction false} FirstInJoin(parts: seq<string>, sep: string)
    requires parts != []
    ensures |JoinWith(parts, sep)| >= |parts[0]|
  {
    if |parts| > 1 {
      FirstInJoin(parts[..|parts| - 1], sep);
    }
  }

  /** Taking on a piece is what the loop does to its current chunk. */
  lemma RunTextMore(run: seq<string>, s: string, sep: string)
    ensures RunText(run + [s], sep) == Joined(RunText(run, sep), s, sep)
  {
    hide DropEmpty;
    DropEmptyMore(run, s);
    DropEmptyFirst(run);
    var kept := DropEmpty(run);
    if kept == [] {
      OneText(s, sep);
    } else {
      FirstInJoin(kept, sep);
      assert (kept + [s])[..|kept|] == kept;
    }
  }

  lemma OneText(s: string, sep: string)
    ensures RunText([s], sep) == s && RunText([], sep) == ""
  {
    assert [s][1..] == [];
    assert DropEmpty([s]) == if s == "" then [] else [s];
  }

  /** The chunk that is being built, before its first piece empty. */
  lemma RunTextNone(sep: string)
    ensures RunText([], sep) == ""
  {
  }

  /** The merging loop closes one run after the other. */
  lemma {:induction false} MergeRuns(c: Config, pieces: seq<string>, sep: string, rest: seq<string>, run: seq<string>)
    requires !CutAgain(c, run, rest)
    ensures Merge(c, pieces, sep, rest, RunText(run, sep)) == ChunksOf(c, Runs(c, pieces, sep, rest, run), sep, rest)
    decreases |pieces|
  {
    hide SplitText, RunText, ByteLen;
    RunTextNone(sep);
    if pieces == [] {
      assert [run][1..] == [];
    } else {
      var s, tail := pieces[0], pieces[1..];
      assert pieces[0..] == pieces;
      MergeNext(c, pieces, 0, sep, rest, RunText(run, sep));
      RunTextMore(run, s, sep);
      OneText(s, sep);
      assert run == [] ==> run + [s] == [s];
      if run != [] && Fits(c, RunText(run, sep), s, sep) {
        MergeRuns(c, tail, sep, rest, run + [s]);
      } else if |s| > c.size && rest != [] {
        MergeRuns(c, tail, sep, rest, []);
        CloseRun(c, run, [[s]] + Runs(c, tail, sep, rest, []), sep, rest);
        CutRun(c, s, Runs(c, tail, sep, rest, []), sep, rest);
      } else {
        MergeRuns(c, tail, sep, rest, [s]);
        CloseRun(c, run, Runs(c, tail, sep, rest, [s]), sep, rest);
      }
    }
  }

  lemma CloseRun(c: Config, run: seq<string>, runs: seq<seq<string>>, sep: string, rest: seq<string>)
    requires !CutAgain(c, run, rest)
    ensures ChunksOf(c, (if run == [] then [] else [run]) + runs, sep, rest)
            == Flush(RunText(run, sep)) + ChunksOf(c, runs, sep, rest)
  {
    hide SplitText;
    RunTextNone(sep);
    if run == [] {
      assert [] + runs == runs;
    } else {
      assert ([run] + runs)[1..] == runs;
    }
  }

  lemma CutRun(c: Config, s: string, runs: seq<seq<string>>, sep: string, rest: seq<string>)
    requires |s| > c.size && rest != []
    ensures ChunksOf(c, [[s]] + runs, sep, rest) == SplitText(c, s, rest) + ChunksOf(c, runs, sep, rest)
  {
    hide SplitText;
    assert ([[s]] + runs)[1..] == runs;
  }

  lemma GreedyFront(c: Config, run: seq<string>, runs: seq<seq<string>>, sep: string, rest: seq<string>)
    requires IsRun(c, run, sep, rest) && AreGreedy(c, runs, sep, rest)
    requires runs != [] && !CutAgain(c, run, rest) ==>
               runs[0] != [] && |RunText(run, sep)| + |runs[0][0]| + ByteLen(sep) > c.size
    ensures AreGreedy(c, [run] + runs, sep, rest)
    ensures Concat([run] + runs) == run + Concat(runs)
  {
    hide RunText, ByteLen, IsRun, CutAgain, Concat;
    ConcatFront(run, runs);
  }

  lemma RunGrows(c: Config, run: seq<string>, s: string, sep: string, rest: seq<string>)
    requires IsRun(c, run, sep, rest) && !CutAgain(c, run, rest)
    requires |RunText(run, sep)| + |s| + ByteLen(sep) <= c.size
    ensures IsRun(c, run + [s], sep, rest) && !CutAgain(c, run + [s], rest)
  {
    hide RunText, ByteLen;
    var more := run + [s];
    forall j | 0 < j < |more| ensures |RunText(more[..j], sep)| + |more[j]| + ByteLen(sep) <= c.size {
      assert more[..j] == run[..j];
      assert run[..|run|] == run;
    }
  }

  /** Those runs are greedy, and together they are the pieces. */
  lemma {:induction false} RunsAre(c: Config, pieces: seq<string>, sep: string, rest: seq<string>, run: seq<string>)
    requires run == [] || (IsRun(c, run, sep, rest) && !CutAgain(c, run, rest))
    ensures var runs := Runs(c, pieces, sep, rest, run);
            && Concat(runs) == run + pieces
            && AreGreedy(c, runs, sep, rest)
            && (run != [] ==> runs != [] && run <= runs[0])
    decreases |pieces|
  {
    hide RunText, ByteLen, AreGreedy, Concat;
    NoRuns(c, sep, rest);
    if pieces == [] {
      if run != [] {
        GreedyFront(c, run, [], sep, rest);
        assert [run] + [] == [run];
      }
    } else {
      var s, tail := pieces[0], pieces[1..];
      if run != [] && |RunText(run, sep)| + |s| + ByteLen(sep) <= c.size {
        RunGrows(c, run, s, sep, rest);
        RunsAre(c, tail, sep, rest, run + [s]);
        assert run + [s] + tail == run + pieces;
      } else {
        var again := |s| > c.size && rest != [];
        RunsAre(c, tail, sep, rest, if again then [] else [s]);
        var next := Runs(c, tail, sep, rest, if again then [] else [s]);
        if again {
          GreedyFront(c, [s], next, sep, rest);
          next := [[s]] + next;
        }
        assert next[0] != [] && next[0][0] == s && Concat(next) == pieces && AreGreedy(c, next, sep, rest);
        if run != [] {
          GreedyFront(c, run, next, sep, rest);
        } else {
          assert [] + next == next && run + pieces == pieces;
        }
      }
    }
  }

  lemma NoRuns(c: Config, sep: string, rest: seq<string>)
    ensures Concat([]) == [] && AreGreedy(c, [], sep, rest)
  {
  }

  /** What the splitter makes of the pieces of its first separator: as few chunks as the order of the pieces and the
      size allow. */
  lemma SplitIsGreedy(c: Config, text: string, sep: string, rest: seq<string>)
    ensures IsGreedySplit(c, Pieces(c, text, sep), sep, rest, SplitText(c, text, [sep] + rest))
  {
    hide Merge, Pieces, AddOverlap, AreGreedy, ChunksOf, Concat;
    var pieces := Pieces(c, text, sep);
    assert ([sep] + rest)[1..] == rest;
    RunsAre(c, pieces, sep, rest, []);
    MergeRuns(c, pieces, sep, rest, []);
    RunTextNone(sep);
    assert [] + pieces == pieces;
  }

  lemma GreedyTail(c: Config, runs: seq<seq<string>>, sep: string, rest: seq<string>)
    requires runs != [] && AreGreedy(c, runs, sep, rest)
    ensures IsRun(c, runs[0], sep, rest) && AreGreedy(c, runs[1..], sep, rest)
    ensures Concat(runs) == runs[0] + Concat(runs[1..])
    ensures |runs| > 1 ==> runs[1] != [] && |Concat(runs)| > |runs[0]| && Concat(runs)[|runs[0]|] == runs[1][0]
    ensures |runs| > 1 && !CutAgain(c, runs[0], rest) ==>
              |RunText(runs[0], sep)| + |Concat(runs)[|runs[0]|]| + ByteLen(sep) > c.size
    ensures |runs| == 1 ==> Concat(runs) == runs[0]
  {
    hide RunText, ByteLen, CutAgain, Concat;
    ConcatFront(runs[0], runs[1..]);
    assert runs == [runs[0]] + runs[1..];
    NoRuns(c, sep, rest);
    if |runs| > 1 {
      ConcatFront(runs[1], runs[2..]);
      assert runs[1..] == [runs[1]] + runs[2..];
      assert IsRun(c, runs[1], sep, rest);
    }
  }

  lemma LongerRun(run: seq<string>, longer: seq<string>, a: seq<string>, b: seq<string>)
    requires run + a == longer + b && 0 < |run| < |longer|
    ensures longer[..|run|] == run && longer[0] == run[0] && longer[|run|] == (run + a)[|run|]
  {
    assert (run + a)[..|run|] == run && (longer + b)[..|run|] == longer[..|run|];
    assert (longer + b)[0] == longer[0];
  }

  /** Of two greedy ways to cut up the same pieces neither closes its first run before the other. */
  lemma FirstRunNotShorter(c: Config, a: seq<seq<string>>, b: seq<seq<string>>, sep: string, rest: seq<string>)
    requires a != [] && b != [] && Concat(a) == Concat(b) && AreGreedy(c, a, sep, rest) && AreGreedy(c, b, sep, rest)
    ensures |a[0]| >= |b[0]|
  {
    hide RunText, ByteLen, Concat, AreGreedy;
    GreedyTail(c, a, sep, rest);
    GreedyTail(c, b, sep, rest);
    var j := |a[0]|;
    if j < |b[0]| {
      LongerRun(a[0], b[0], Concat(a[1..]), Concat(b[1..]));
    }
  }

  lemma {:induction false} SameRuns(c: Config, a: seq<seq<string>>, b: seq<seq<string>>, sep: string, rest: seq<string>)
    requires Concat(a) == Concat(b) && AreGreedy(c, a, sep, rest) && AreGreedy(c, b, sep, rest)
    ensures a == b
    decreases |a|
  {
    hide RunText, ByteLen, Concat, AreGreedy;
    NoRuns(c, sep, rest);
    if a == [] || b == [] {
      if a != [] {
        GreedyTail(c, a, sep, rest);
      }
      if b != [] {
        GreedyTail(c, b, sep, rest);
      }
    } else {
      FirstRunNotShorter(c, a, b, sep, rest);
      FirstRunNotShorter(c, b, a, sep, rest);
      GreedyTail(c, a, sep, rest);
      GreedyTail(c, b, sep, rest);
      assert a[0] == Concat(a)[..|a[0]|] == b[0];
      assert Concat(a[1..]) == Concat(a)[|a[0]|..] == Concat(b[1..]);
      SameRuns(c, a[1..], b[1..], sep, rest);
      assert a == [a[0]] + a[1..] && b == [b[0]] + b[1..];
    }
  }

  /** There is only one greedy split, and the splitter returns it. */
  lemma SplitTextIsTheGreedySplit(c: Config, text: string, sep: string, rest: seq<string>, result: seq<string>)
    ensures IsGreedySplit(c, Pieces(c, text, sep), sep, rest, result) <==> result == SplitText(c, text, [sep] + rest)
  {
    hide AddOverlap, AreGreedy, ChunksOf, Concat, SplitText, Pieces;
    SplitIsGreedy(c, text, sep, rest);
    var pieces, whole := Pieces(c, text, sep), SplitText(c, text, [sep] + rest);
    if IsGreedySplit(c, pieces, sep, rest, result) {
      var a :| Concat(a) == pieces && AreGreedy(c, a, sep, rest) && result == AddOverlap(c, ChunksOf(c, a, sep, rest));
      var b :| Concat(b) == pieces && AreGreedy(c, b, sep, rest) && whole == AddOverlap(c, ChunksOf(c, b, sep, rest));
      SameRuns(c, a, b, sep, rest);
    }
  }

  // ---------------------------------------------------------------- short texts

  /** Splitting and joining give the text back, and no piece holds the separator. */
  lemma {:induction false} SplitRoundTrip(text: string, sep: string)
    requires sep != ""
    ensures JoinWith(Split(text, sep), sep) == text
    ensures forall i :: 0 <= i < |Split(text, sep)| ==> Index(Split(text, sep)[i], sep) < 0
    decreases |text|
  {
    hide Index;
    var i := Index(text, sep);
    if i >= 0 {
      var tail := text[i + |sep|..];
      SplitRoundTrip(tail, sep);
      JoinAppend([text[..i]], Split(tail, sep), sep);
      assert text == text[..i] + sep + tail;
      forall q: nat | OccursAt(text[..i], sep, q) ensures OccursAt(text, sep, q) && q < i {
        assert text[..i][q..q + |sep|] == text[q..q + |sep|];
      }
      IndexNone(text[..i], sep);
    }
  }

  /** Without the separators in front. */
  function StripLead(text: string, sep: string): string
    requires sep != ""
    decreases |text|
  {
    if sep <= text then StripLead(text[|sep|..], sep) else text
  }

  lemma {:induction false} LeadIsEmptyPieces(text: string, sep: string)
    requires sep != ""
    ensures RunText(Split(text, sep), sep) == StripLead(text, sep)
    decreases |text|
  {
    hide Index;
    if sep <= text {
      assert text[0..|sep|] == sep;
      assert OccursAt(text, sep, 0);
      IndexIs(text, sep, 0);
      LeadIsEmptyPieces(text[|sep|..], sep);
      assert ([""] + Split(text[|sep|..], sep))[1..] == Split(text[|sep|..], sep);
    } else {
      SplitRoundTrip(text, sep);
      var pieces := Split(text, sep);
      if text == "" {
        OneText("", sep);
      } else {
        assert pieces[0] != "";
      }
    }
  }

  /** Pieces that fit together make one run. */
  lemma {:induction false} AllInOneRun(c: Config, pieces: seq<string>, sep: string, rest: seq<string>, run: seq<string>)
    requires ByteLen(sep) == |sep| && |JoinWith(run + pieces, sep)| <= c.size
    ensures Runs(c, pieces, sep, rest, run) == if run + pieces == [] then [] else [run + pieces]
    decreases |pieces|
  {
    hide RunText, ByteLen;
    if pieces == [] {
      assert run + [] == run;
    } else {
      var s, tail := pieces[0], pieces[1..];
      assert run + pieces == run + [s] + tail;
      if run != [] {
        RunFits(run, s, tail, sep);
        AllInOneRun(c, tail, sep, rest, run + [s]);
      } else {
        assert [] + pieces == pieces && [s] + tail == pieces;
        FirstInJoin(pieces, sep);
        AllInOneRun(c, tail, sep, rest, [s]);
      }
    }
  }

  lemma {:induction false} TextNotLonger(run: seq<string>, sep: string)
    ensures |RunText(run, sep)| <= |JoinWith(run, sep)|
  {
    if run != [] && run[0] == "" {
      TextNotLonger(run[1..], sep);
      if |run| > 1 {
        assert run == [run[0]] + run[1..];
        JoinAppend([run[0]], run[1..], sep);
      }
    }
  }

  lemma RunFits(run: seq<string>, s: string, tail: seq<string>, sep: string)
    requires run != []
    ensures |RunText(run, sep)| + |s| + |sep| <= |JoinWith(run + [s] + tail, sep)|
  {
    hide RunText;
    TextNotLonger(run, sep);
    JoinAppend(run, [s], sep);
    if tail != [] {
      JoinAppend(run + [s], tail, sep);
    } else {
      assert run + [s] + tail == run + [s];
    }
  }

  /** A text that fits is not cut at all: it is one chunk, without the separators in front of it. */
  lemma ShortTextIsOneChunk(c: Config, text: string, sep: string, rest: seq<string>)
    requires sep != "" && ByteLen(sep) == |sep| && |text| <= c.size
    ensures SplitText(c, text, [sep] + rest) == if StripLead(text, sep) == "" then [] else [StripLead(text, sep)]
  {
    hide Merge, ByteLen, RunText, Split;
    var pieces := Split(text, sep);
    SplitRoundTrip(text, sep);
    assert [] + pieces == pieces;
    AllInOneRun(c, pieces, sep, rest, []);
    RunTextNone(sep);
    MergeRuns(c, pieces, sep, rest, []);
    LeadIsEmptyPieces(text, sep);
    FirstInJoin(pieces, sep);
    assert [pieces][1..] == [];
    assert ([sep] + rest)[1..] == rest;
  }

  // ---------------------------------------------------------------- where the loops end

  /** Every window loop that splitText comes to ends: those of the empty separator, of no separators at all, and
      those met in cutting again a piece that is too long. */
  predicate Ends(c: Config, text: string, seps: seq<string>)
    decreases |seps|
  {
    if seps == [] then LoopEnds(|text|, c.size, c.overlap)
    else
      && (seps[0] == "" ==> LoopEnds(|text|, c.size, c.overlap))
      && (seps[1..] != [] ==>
            forall i :: 0 <= i < |Pieces(c, text, seps[0])| && |Pieces(c, text, seps[0])[i]| > c.size ==>
              Ends(c, Pieces(c, text, seps[0])[i], seps[1..]))
  }

  /** With an overlap below the size, on every text. */
  lemma {:induction false} SmallOverlapEnds(c: Config, text: string, seps: seq<string>)
    requires Proper(c) && c.overlap < c.size
    ensures Ends(c, text, seps)
    decreases |seps|
  {
    hide Pieces;
    if seps != [] && seps[1..] != [] {
      var pieces := Pieces(c, text, seps[0]);
      forall i | 0 <= i < |pieces| && |pieces[i]| > c.size ensures Ends(c, pieces[i], seps[1..]) {
        SmallOverlapEnds(c, pieces[i], seps[1..]);
      }
    }
  }

  // ---------------------------------------------------------------- the loops

  class RecursiveCharacterChunker {
    const config: Config

    constructor (config: Config)
      ensures this.config == config
    {
      this.config := config;
    }

    /** splitText. */
    method Run(text: string, separators: seq<string>) returns (result: seq<string>)
      requires Ends(config, text, separators)
      ensures result == SplitText(config, text, separators)
      ensures separators == [] ==> result == ByCharCount(text, config.size, config.overlap)
      ensures separators != [] ==>
                IsGreedySplit(config, Pieces(config, text, separators[0]), separators[0], separators[1..], result)
      decreases |separators|
    {
      hide Merge, Split, Pieces, ByCharCount, AddOverlap, IsGreedySplit;
      if separators != [] {
        assert separators == [separators[0]] + separators[1..];
        SplitIsGreedy(config, text, separators[0], separators[1..]);
      }
      if |separators| == 0 {
        result := SplitByCharCount(text, config.size, config.overlap);
        return;
      }
      var separator, remaining := separators[0], separators[1..];
      var splits := Cut(text, separator);
      var chunks: seq<string> := [];
      var currentChunk := "";
      ghost var whole := Merge(config, splits, separator, remaining, "");
      for n := 0 to |splits|
        invariant chunks + Merge(config, splits[n..], separator, remaining, currentChunk) == whole
      {
        var split := splits[n];
        MergeNext(config, splits, n, separator, remaining, currentChunk);
        ghost var before, held := chunks, currentChunk;
        if |currentChunk| + |split| + ByteLen(separator) <= config.size {
          if currentChunk != "" {
            currentChunk := currentChunk + separator;
          }
          currentChunk := currentChunk + split;
        } else {
          if currentChunk != "" {
            chunks := chunks + [currentChunk];
          }
          assert chunks == before + Flush(held);
          if |split| > config.size && |remaining| > 0 {
            var subChunks := Run(split, remaining);
            chunks := chunks + subChunks;
            currentChunk := "";
          } else {
            currentChunk := split;
          }
        }
        Reassociate(before, held, chunks, currentChunk, config, splits, n, separator, remaining);
      }
      MergeEnd(config, splits, separator, remaining, currentChunk);
      if currentChunk != "" {
        chunks := chunks + [currentChunk];
      }
      assert chunks == whole;
      result := Overlapped(chunks);
    }

    method Cut(text: string, separator: string) returns (splits: seq<string>)
      requires separator == "" ==> LoopEnds(|text|, config.size, config.overlap)
      ensures splits == Pieces(config, text, separator)
    {
      if separator == "" {
        splits := SplitByCharCount(text, config.size, config.overlap);
      } else {
        splits := Split(text, separator);
      }
    }

    /** addOverlap. */
    method Overlapped(chunks: seq<string>) returns (result: seq<string>)
      ensures result == AddOverlap(config, chunks)
    {
      if config.overlap <= 0 || |chunks| <= 1 {
        return chunks;
      }
      result := [chunks[0]];
      for i := 1 to |chunks|
        invariant |result| == i
        invariant forall k :: 0 <= k < i ==> result[k] == if k == 0 then chunks[0]
                  else Tail(chunks[k - 1], config.overlap) + chunks[k]
      {
        var prev := chunks[i - 1];
        var overlapStart := |prev| - config.overlap;
        if overlapStart < 0 {
          overlapStart := 0;
        }
        assert prev[overlapStart..] == Tail(prev, config.overlap);
        result := result + [prev[overlapStart..] + chunks[i]];
      }
      ghost var want := AddOverlap(config, chunks);
      forall k | 0 <= k < |chunks| ensures result[k] == want[k] {
        assert result[k] == if k == 0 then chunks[0] else Tail(chunks[k - 1], config.overlap) + chunks[k];
        assert want[k] == if k == 0 then chunks[0] else Tail(chunks[k - 1], config.overlap) + chunks[k];
      }
    }
  }

  lemma MergeNext(c: Config, pieces: seq<string>, n: nat, sep: string, rest: seq<string>, current: string)
    requires n < |pieces|
    ensures Merge(c, pieces[n..], sep, rest, current) ==
            if Fits(c, current, pieces[n], sep)
            then Merge(c, pieces[n + 1..], sep, rest, Joined(current, pieces[n], sep))
            else if |pieces[n]| > c.size && rest != [] then
              Flush(current) + SplitText(c, pieces[n], rest) + Merge(c, pieces[n + 1..], sep, rest, "")
            else Flush(current) + Merge(c, pieces[n + 1..], sep, rest, pieces[n])
  {
    hide SplitText;
    assert pieces[n..][1..] == pieces[n + 1..];
  }

  lemma MergeEnd(c: Config, pieces: seq<string>, sep: string, rest: seq<string>, current: string)
    ensures Merge(c, pieces[|pieces|..], sep, rest, current) == Flush(current)
  {
  }

  lemma Reassociate(before: seq<string>, held: string, chunks: seq<string>, current: string, c: Config,
                    pieces: seq<string>, n: nat, sep: string, rest: seq<string>)
    requires n < |pieces|
    requires if Fits(c, held, pieces[n], sep) then chunks == before && current == Joined(held, pieces[n], sep)
             else if |pieces[n]| > c.size && rest != [] then
               chunks == before + Flush(held) + SplitText(c, pieces[n], rest) && current == ""
             else chunks == before + Flush(held) && current == pieces[n]
    ensures before + Merge(c, pieces[n..], sep, rest, held) == chunks + Merge(c, pieces[n + 1..], sep, rest, current)
  {
    hide Merge, SplitText;
    MergeNext(c, pieces, n, sep, rest, held);
  }

  // ---------------------------------------------------------------- no text is lost

  /** `E` holds all characters of all separators. */
  predicate Covers(E: set<char>, seps: seq<string>) {
    forall i :: 0 <= i < |seps| ==> forall x :: x in seps[i] ==> x in E
  }

  lemma {:induction false} SplitKeeps(text: string, sep: string, E: set<char>)
    requires sep != "" && forall x :: x in sep ==> x in E
    ensures Erase(Flatten(Split(text, sep)), E) == Erase(text, E)
    decreases |text|
  {
    hide Erase, Flatten, Index;
    var i := Index(text, sep);
    if i < 0 {
      One(text);
    } else {
      var tail := text[i + |sep|..];
      SplitKeeps(tail, sep, E);
      One(text[..i]);
      FlattenAppend([text[..i]], Split(tail, sep));
      EraseAppend(text[..i], Flatten(Split(tail, sep)), E);
      assert text == text[..i] + (sep + tail);
      EraseAppend(text[..i], sep + tail, E);
      EraseAppend(sep, tail, E);
      EraseAll(sep, E);
    }
  }

  lemma One(s: string)
    ensures Flatten([s]) == s
  {
    assert [s][1..] == [];
  }

  /** Windows hold the text; without overlap they are the text. */
  lemma {:induction false} SlicesKeep(t: string, size: nat, step: nat, i: nat)
    requires 0 < step <= size && i <= |t|
    ensures InText(Spans(|t|, size, step, i), |t|)
    ensures IsSub(t[i..], Flatten(Slices(t, Spans(|t|, size, step, i))))
    ensures step == size ==> t[i..] == Flatten(Slices(t, Spans(|t|, size, step, i)))
    decreases |t| - i
  {
    hide IsSub, Flatten, Spans, Slices;
    SpansShape(|t|, size, step, i);
    var s := Slices(t, Spans(|t|, size, step, i));
    if i >= |t| {
      NoPieces();
      assert t[i..] == "" && s == [];
    } else if i + size >= |t| {
      SlicesFrom(t, size, step, i);
      One(t[i..]);
      SubRefl(t[i..]);
    } else {
      SlicesKeep(t, size, step, i + step);
      SlicesFrom(t, size, step, i);
      var r := Slices(t, Spans(|t|, size, step, i + step));
      FirstSliceKeeps(t, size, step, i, r);
    }
  }

  lemma SpansFrom(n: nat, size: nat, step: nat, i: nat)
    requires 0 < step <= size && i < n
    ensures InText(Spans(n, size, step, i), n) && InText(Spans(n, size, step, i + step), n)
    ensures Spans(n, size, step, i) ==
            if i + size >= n then [Span(i, n)] else [Span(i, i + size)] + Spans(n, size, step, i + step)
  {
    SpansShape(n, size, step, i);
    SpansShape(n, size, step, i + step);
  }

  lemma OneSlice(t: string, s: Span, tail: seq<Span>)
    requires s.from < s.to <= |t| && InText(tail, |t|)
    ensures InText([s], |t|) && InText([s] + tail, |t|)
    ensures Slices(t, [s]) == [t[s.from..s.to]]
    ensures Slices(t, [s] + tail) == [t[s.from..s.to]] + Slices(t, tail)
  {
  }

  lemma SlicesFrom(t: string, size: nat, step: nat, i: nat)
    requires 0 < step <= size && i < |t|
    ensures InText(Spans(|t|, size, step, i), |t|) && InText(Spans(|t|, size, step, i + step), |t|)
    ensures i + size >= |t| ==> Slices(t, Spans(|t|, size, step, i)) == [t[i..]]
    ensures i + size < |t| ==>
              Slices(t, Spans(|t|, size, step, i)) == [t[i..i + size]] + Slices(t, Spans(|t|, size, step, i + step))
  {
    hide Spans, Slices;
    SpansFrom(|t|, size, step, i);
    if i + size >= |t| {
      OneSlice(t, Span(i, |t|), []);
      assert t[i..|t|] == t[i..];
    } else {
      OneSlice(t, Span(i, i + size), Spans(|t|, size, step, i + step));
    }
  }

  lemma FirstSliceKeeps(t: string, size: nat, step: nat, i: nat, r: seq<string>)
    requires 0 < step <= size && i + size < |t|
    requires IsSub(t[i + step..], Flatten(r))
    ensures IsSub(t[i..], Flatten([t[i..i + size]] + r))
    ensures step == size && t[i + step..] == Flatten(r) ==> t[i..] == Flatten([t[i..i + size]] + r)
  {
    hide IsSub, Flatten;
    FlattenAppend([t[i..i + size]], r);
    One(t[i..i + size]);
    var head, shared := t[i..i + step], t[i + step..i + size];
    assert t[i..] == head + t[i + step..];
    assert t[i..i + size] == head + shared;
    SubRefl(head);
    SubNothing(shared);
    SubAppend(head, head, "", shared);
    assert head + "" == head;
    SubAppend(head, t[i..i + size], t[i + step..], Flatten(r));
  }

  lemma NoPieces()
    ensures Flatten([]) == "" && IsSub("", "")
  {
  }

  lemma SubNothing(b: string)
    ensures IsSub("", b)
  {
  }

  lemma PiecesKeep(c: Config, text: string, sep: string, E: set<char>)
    requires Proper(c) && c.overlap >= 0 && forall x :: x in sep ==> x in E
    ensures IsSub(Erase(text, E), Erase(Flatten(Pieces(c, text, sep)), E))
    ensures c.overlap == 0 ==> Erase(text, E) == Erase(Flatten(Pieces(c, text, sep)), E)
  {
    hide IsSub, Erase, Flatten, Split, Spans;
    if sep == "" {
      SlicesKeep(text, c.size, StepOf(c.size, c.overlap), 0);
      assert text[0..] == text;
      EraseMono(text, Flatten(ByCharCount(text, c.size, c.overlap)), E);
    } else {
      SplitKeeps(text, sep, E);
      SubRefl(Erase(text, E));
    }
  }

  /** The overlap only adds text. */
  lemma {:induction false} OverlapAdds(a: seq<string>, b: seq<string>)
    requires |a| == |b| && forall i :: 0 <= i < |a| ==> IsSub(a[i], b[i])
    ensures IsSub(Flatten(a), Flatten(b))
  {
    hide IsSub;
    if a == [] {
      NoPieces();
    } else {
      OverlapAdds(a[1..], b[1..]);
      SubAppend(a[0], b[0], Flatten(a[1..]), Flatten(b[1..]));
    }
  }

  lemma AddOverlapKeeps(c: Config, chunks: seq<string>)
    ensures IsSub(Flatten(chunks), Flatten(AddOverlap(c, chunks)))
    ensures c.overlap <= 0 ==> AddOverlap(c, chunks) == chunks
  {
    hide IsSub, Flatten;
    var r := AddOverlap(c, chunks);
    forall i | 0 <= i < |chunks| ensures IsSub(chunks[i], r[i]) {
      SubRefl(chunks[i]);
      if r[i] != chunks[i] {
        SubPrefix(chunks[i], Tail(chunks[i - 1], c.overlap), chunks[i]);
      }
    }
    OverlapAdds(chunks, r);
  }

  lemma JoinedKeeps(current: string, s: string, sep: string, E: set<char>)
    requires forall x :: x in sep ==> x in E
    ensures Erase(Joined(current, s, sep), E) == Erase(current, E) + Erase(s, E)
  {
    hide Erase;
    EraseAll(sep, E);
    EraseAppend(current, sep, E);
    EraseAppend(if current != "" then current + sep else current, s, E);
  }

  lemma FlushKeeps(current: string)
    ensures Flatten(Flush(current)) == current
  {
    if current != "" {
      One(current);
    }
  }

  /** The merging loop keeps what is pending and all pieces to come, at every level of the recursion. */
  lemma {:induction false} MergeKeeps(c: Config, pieces: seq<string>, sep: string, rest: seq<string>, current: string,
                                      E: set<char>)
    requires Proper(c) && c.overlap >= 0 && Covers(E, [sep] + rest)
    ensures IsSub(Erase(current, E) + Erase(Flatten(pieces), E),
              Erase(Flatten(Merge(c, pieces, sep, rest, current)), E))
    ensures c.overlap == 0 ==>
              Erase(current, E) + Erase(Flatten(pieces), E) == Erase(Flatten(Merge(c, pieces, sep, rest, current)), E)
    decreases |rest|, 1, |pieces|
  {
    hide Erase, IsSub, Merge, SplitText, Joined, Covers;
    assert forall x :: x in sep ==> x in E by {
      CoversFirst(E, sep, rest);
    }
    if pieces == [] {
      MergeEnd(c, pieces, sep, rest, current);
      FlushKeeps(current);
      assert pieces[0..] == pieces;
      assert Erase(Flatten(pieces), E) == "" by {
        EraseAll("", E);
      }
      SubRefl(Erase(current, E));
      assert Erase(current, E) + "" == Erase(current, E);
    } else {
      var s, tail := pieces[0], pieces[1..];
      assert pieces[0..] == pieces;
      MergeNext(c, pieces, 0, sep, rest, current);
      EraseAppend(s, Flatten(tail), E);
      if Fits(c, current, s, sep) {
        MergeKeeps(c, tail, sep, rest, Joined(current, s, sep), E);
        JoinedKeeps(current, s, sep, E);
        assert Erase(current, E) + Erase(s, E) + Erase(Flatten(tail), E)
            == Erase(current, E) + (Erase(s, E) + Erase(Flatten(tail), E));
      } else if |s| > c.size && rest != [] {
        CoversRest(E, sep, rest);
        SplitTextKeeps(c, s, rest, E);
        MergeKeeps(c, tail, sep, rest, "", E);
        EraseAll("", E);
        assert "" + Erase(Flatten(tail), E) == Erase(Flatten(tail), E);
        Compose(current, SplitText(c, s, rest), Merge(c, tail, sep, rest, ""), Erase(s, E), Erase(Flatten(tail), E), E);
      } else {
        MergeKeeps(c, tail, sep, rest, s, E);
        NoPieces();
        EraseAll("", E);
        SubNothing("");
        assert Flush(current) + [] == Flush(current);
        Compose(current, [], Merge(c, tail, sep, rest, s), "", Erase(s, E) + Erase(Flatten(tail), E), E);
        assert "" + (Erase(s, E) + Erase(Flatten(tail), E)) == Erase(s, E) + Erase(Flatten(tail), E);
      }
    }
  }

  lemma CoversFirst(E: set<char>, sep: string, rest: seq<string>)
    requires Covers(E, [sep] + rest)
    ensures forall x :: x in sep ==> x in E
  {
    assert ([sep] + rest)[0] == sep;
  }

  lemma CoversRest(E: set<char>, sep: string, rest: seq<string>)
    requires Covers(E, [sep] + rest)
    ensures Covers(E, rest)
  {
    forall i | 0 <= i < |rest| ensures forall x :: x in rest[i] ==> x in E {
      assert ([sep] + rest)[i + 1] == rest[i];
    }
  }

  /** Putting together what is kept of the pending text, of one piece and of the rest. */
  lemma Compose(current: string, mid: seq<string>, rest: seq<string>, a: string, b: string, E: set<char>)
    requires IsSub(a, Erase(Flatten(mid), E)) && IsSub(b, Erase(Flatten(rest), E))
    ensures IsSub(Erase(current, E) + (a + b), Erase(Flatten(Flush(current) + mid + rest), E))
    ensures a == Erase(Flatten(mid), E) && b == Erase(Flatten(rest), E) ==>
              Erase(current, E) + (a + b) == Erase(Flatten(Flush(current) + mid + rest), E)
  {
    hide Erase, IsSub, Flatten;
    FlattenAppend(Flush(current) + mid, rest);
    FlattenAppend(Flush(current), mid);
    FlushKeeps(current);
    EraseAppend(current + Flatten(mid), Flatten(rest), E);
    EraseAppend(current, Flatten(mid), E);
    SubRefl(Erase(current, E));
    SubAppend(a, Erase(Flatten(mid), E), b, Erase(Flatten(rest), E));
    SubAppend(Erase(current, E), Erase(current, E), a + b, Erase(Flatten(mid), E) + Erase(Flatten(rest), E));
    assert Erase(current, E) + Erase(Flatten(mid), E) + Erase(Flatten(rest), E)
        == Erase(current, E) + (Erase(Flatten(mid), E) + Erase(Flatten(rest), E));
  }

  lemma {:induction false} SplitTextKeeps(c: Config, text: string, seps: seq<string>, E: set<char>)
    requires Proper(c) && c.overlap >= 0 && Covers(E, seps)
    ensures IsSub(Erase(text, E), Erase(Flatten(SplitText(c, text, seps)), E))
    ensures c.overlap == 0 ==> Erase(text, E) == Erase(Flatten(SplitText(c, text, seps)), E)
    decreases |seps|, 0
  {
    hide Erase, IsSub, Flatten, Merge, Pieces, AddOverlap, Covers;
    if seps == [] {
      PiecesKeep(c, text, "", E);
      assert Pieces(c, text, "") == ByCharCount(text, c.size, c.overlap) by {
        PiecesOfNothing(c, text);
      }
    } else {
      var sep, rest := seps[0], seps[1..];
      assert seps == [sep] + rest;
      CoversFirst(E, sep, rest);
      var pieces := Pieces(c, text, sep);
      PiecesKeep(c, text, sep, E);
      MergeKeeps(c, pieces, sep, rest, "", E);
      EraseAll("", E);
      assert "" + Erase(Flatten(pieces), E) == Erase(Flatten(pieces), E);
      var merged := Merge(c, pieces, sep, rest, "");
      AddOverlapKeeps(c, merged);
      EraseMono(Flatten(merged), Flatten(AddOverlap(c, merged)), E);
      SubTrans(Erase(text, E), Erase(Flatten(pieces), E), Erase(Flatten(merged), E));
      SubTrans(Erase(text, E), Erase(Flatten(merged), E), Erase(Flatten(AddOverlap(c, merged)), E));
    }
  }

  lemma PiecesOfNothing(c: Config, text: string)
    ensures Pieces(c, text, "") == ByCharCount(text, c.size, c.overlap)
  {
  }

  /** The splitter loses no text: but for characters of separators, the input is a subsequence of the
      concatenated chunks, and without overlap it is exactly their concatenation. */
  lemma NoTextLost(c: Config, text: string, seps: seq<string>, E: set<char>)
    requires Proper(c) && c.overlap >= 0 && Covers(E, seps)
    ensures IsSub(Erase(text, E), Flatten(SplitText(c, text, seps)))
    ensures c.overlap == 0 ==> Erase(Flatten(SplitText(c, text, seps)), E) == Erase(text, E)
  {
    hide Erase, IsSub, Flatten, SplitText, Covers;
    SplitTextKeeps(c, text, seps, E);
    EraseSub(Flatten(SplitText(c, text, seps)), E);
    SubTrans(Erase(text, E), Erase(Flatten(SplitText(c, text, seps)), E), Flatten(SplitText(c, text, seps)));
  }

  // ---------------------------------------------------------------- chunk sizes

  /** The separators in use end with the empty one, which cuts by character count. */
  predicate EndsEmpty(seps: seq<string>) {
    seps != [] ==> seps[|seps| - 1] == ""
  }

  function Bound(c: Config, levels: nat): int {
    c.size + levels * Extra(c)
  }

  predicate AllWithin(chunks: seq<string>, n: int) {
    forall i :: 0 <= i < |chunks| ==> 0 < |chunks[i]| <= n
  }

  lemma BoundGrows(c: Config, levels: nat)
    requires Proper(c)
    ensures Bound(c, levels) >= c.size
    ensures Bound(c, levels + 1) == Bound(c, levels) + Extra(c)
  {
    var x := Extra(c);
    assert (levels + 1) * x == levels * x + x;
    assert levels * x >= 0;
  }

  lemma ByCharCountSizes(c: Config, text: string)
    requires Proper(c)
    ensures AllWithin(ByCharCount(text, c.size, c.overlap), c.size)
  {
    SpansShape(|text|, c.size, StepOf(c.size, c.overlap), 0);
  }

  lemma BothWithin(a: seq<string>, b: seq<string>, n: int)
    requires AllWithin(a, n) && AllWithin(b, n)
    ensures AllWithin(a + b, n)
  {
  }

  lemma Weaken(a: seq<string>, m: int, n: int)
    requires AllWithin(a, m) && m <= n
    ensures AllWithin(a, n)
  {
  }

  lemma {:induction false} MergeSizes(c: Config, pieces: seq<string>, sep: string, rest: seq<string>, current: string)
    requires Proper(c) && |current| <= c.size && EndsEmpty([sep] + rest)
    requires rest == [] ==> forall i :: 0 <= i < |pieces| ==> |pieces[i]| <= c.size
    ensures AllWithin(Merge(c, pieces, sep, rest, current), Bound(c, |rest|))
    decreases |rest|, 1, |pieces|
  {
    hide Merge, SplitText, AllWithin, Bound;
    BoundGrows(c, |rest|);
    assert pieces[0..] == pieces;
    assert AllWithin(Flush(current), Bound(c, |rest|)) by {
      FlushWithin(current, Bound(c, |rest|));
    }
    if pieces == [] {
      MergeEnd(c, pieces, sep, rest, current);
    } else {
      var s, tail := pieces[0], pieces[1..];
      MergeNext(c, pieces, 0, sep, rest, current);
      if Fits(c, current, s, sep) {
        MergeSizes(c, tail, sep, rest, Joined(current, s, sep));
      } else if |s| > c.size && rest != [] {
        assert rest[|rest| - 1] == ([sep] + rest)[|rest|];
        SplitTextSizes(c, s, rest);
        MergeSizes(c, tail, sep, rest, "");
        BothWithin(Flush(current), SplitText(c, s, rest), Bound(c, |rest|));
        BothWithin(Flush(current) + SplitText(c, s, rest), Merge(c, tail, sep, rest, ""), Bound(c, |rest|));
      } else {
        MergeSizes(c, tail, sep, rest, s);
        BothWithin(Flush(current), Merge(c, tail, sep, rest, s), Bound(c, |rest|));
      }
    }
  }

  lemma FlushWithin(current: string, n: int)
    requires |current| <= n
    ensures AllWithin(Flush(current), n)
  {
  }

  lemma OverlapSizes(c: Config, chunks: seq<string>, n: int)
    requires Proper(c) && AllWithin(chunks, n)
    ensures AllWithin(AddOverlap(c, chunks), n + Extra(c))
  {
    var r := AddOverlap(c, chunks);
    forall i | 0 <= i < |r| ensures 0 < |r[i]| <= n + Extra(c) {
      assert r[i] == chunks[i] || r[i] == Tail(chunks[i - 1], c.overlap) + chunks[i];
    }
  }

  /** No chunk is empty, and none is longer than the chunk size plus one overlap for every level of
      separators: the overlap is added again at each level of the recursion. */
  lemma {:induction false} SplitTextSizes(c: Config, text: string, seps: seq<string>)
    requires Proper(c) && EndsEmpty(seps)
    ensures AllWithin(SplitText(c, text, seps), Bound(c, |seps|))
    decreases |seps|, 0
  {
    hide Merge, AddOverlap, AllWithin, Bound, Split, ByCharCount;
    ByCharCountSizes(c, text);
    if seps == [] {
      BoundGrows(c, 0);
      Weaken(ByCharCount(text, c.size, c.overlap), c.size, Bound(c, 0));
    } else {
      var sep, rest := seps[0], seps[1..];
      assert seps == [sep] + rest;
      if rest == [] {
        PiecesWithin(ByCharCount(text, c.size, c.overlap), c.size);
      }
      MergeSizes(c, Pieces(c, text, sep), sep, rest, "");
      OverlapSizes(c, Merge(c, Pieces(c, text, sep), sep, rest, ""), Bound(c, |rest|));
      BoundGrows(c, |rest|);
    }
  }

  lemma PiecesWithin(chunks: seq<string>, n: int)
    requires AllWithin(chunks, n)
    ensures forall i :: 0 <= i < |chunks| ==> |chunks[i]| <= n
  {
  }

  /** The separators NewRecursiveCharacterChunker sets. */
  const SEPARATORS: seq<string> :=
    ["\n\n", "\n", "\U{3002}", "\U{FF01}", "\U{FF1F}", "\U{FF1B}", ".", "!", "?", " ", ""]

  /** So with the separators in use no chunk exceeds the chunk size by more than eleven overlaps. */
  lemma DefaultSizes(c: Config, text: string)
    requires Proper(c)
    ensures AllWithin(SplitText(c, text, SEPARATORS), c.size + 11 * Extra(c))
  {
    hide SplitText;
    SplitTextSizes(c, text, SEPARATORS);
  }

  /** And a text that fits comes back as one chunk, without the empty lines in front of it. */
  lemma ShortTextIsKept(c: Config, text: string)
    requires |text| <= c.size
    ensures SplitText(c, text, SEPARATORS) == if StripLead(text, "\n\n") == "" then [] else [StripLead(text, "\n\n")]
    ensures text != "" && !("\n\n" <= text) ==> SplitText(c, text, SEPARATORS) == [text]
  {
    hide SplitText;
    assert SEPARATORS == ["\n\n"] + SEPARATORS[1..];
    ShortTextIsOneChunk(c, text, "\n\n", SEPARATORS[1..]);
  }

  // ---------------------------------------------------------------- when the text is kept

  function Times(x: char, n: nat): (r: string)
    ensures |r| == n && forall i :: 0 <= i < n ==> r[i] == x
  {
    if n == 0 then "" else [x] + Times(x, n - 1)
  }

  /** The window loop keeps every text on which it ends. */
  ghost predicate WindowsKeepText(size: nat, overlap: int)
    requires size > 0
  {
    forall text: string :: LoopEnds(|text|, size, overlap) ==> IsSub(text, Flatten(ByCharCount(text, size, overlap)))
  }

  /** Exactly for the overlaps that are not negative: a negative one steps over characters, here over all after
      the first window. */
  lemma WindowsKeepTextIff(size: nat, overlap: int)
    requires size > 0
    ensures WindowsKeepText(size, overlap) <==> overlap >= 0
  {
    hide IsSub, Flatten;
    if overlap >= 0 {
      forall text: string ensures IsSub(text, Flatten(ByCharCount(text, size, overlap))) {
        SlicesKeep(text, size, StepOf(size, overlap), 0);
        assert text[0..] == text;
      }
    } else {
      var text := Times('x', size - overlap);
      OnlyWindow(text, size, overlap);
      One(text[..size]);
      ShorterIsNotSub(text, text[..size]);
      assert LoopEnds(|text|, size, overlap);
    }
  }

  lemma ShorterIsNotSub(a: string, b: string)
    requires |b| < |a|
    ensures !IsSub(a, b)
  {
    if IsSub(a, b) {
      SubLength(a, b);
    }
  }

  /** A text just as long as the step has one window. */
  lemma OnlyWindow(text: string, size: nat, overlap: int)
    requires 0 < size && overlap < 0 && |text| == size - overlap
    ensures ByCharCount(text, size, overlap) == [text[..size]]
  {
    var step := size - overlap;
    assert Spans(|text|, size, step, step) == [];
    assert Spans(|text|, size, step, 0) == [Span(0, size)];
  }

  /** splitText keeps every text on which it ends, but for the characters of `E`. */
  ghost predicate KeepsText(c: Config, seps: seq<string>, E: set<char>)
    requires Proper(c)
  {
    forall text: string :: Ends(c, text, seps) ==> IsSub(Erase(text, E), Flatten(SplitText(c, text, seps)))
  }

  /** Exactly for the overlaps that are not negative, if the separators end with the empty one, as those in use
      do, and there is any character but theirs. */
  lemma KeepsTextIff(c: Config, seps: seq<string>, E: set<char>, x: char)
    requires Proper(c) && EndsEmpty(seps) && Covers(E, seps) && x !in E
    ensures KeepsText(c, seps, E) <==> c.overlap >= 0
  {
    hide IsSub, Flatten, Erase, SplitText, Covers, Ends;
    if c.overlap >= 0 {
      forall text: string ensures IsSub(Erase(text, E), Flatten(SplitText(c, text, seps))) {
        NoTextLost(c, text, seps, E);
      }
    } else {
      var text := Times(x, c.size - c.overlap);
      SmallOverlapEnds(c, text, seps);
      GapInSplit(c, text, seps, E, x);
      One(text[..c.size]);
      NothingErased(text, E);
      ShorterIsNotSub(text, text[..c.size]);
    }
  }

  lemma {:induction false} NothingErased(s: string, E: set<char>)
    requires forall i :: 0 <= i < |s| ==> s[i] !in E
    ensures Erase(s, E) == s
  {
    if s != "" {
      NothingErased(s[1..], E);
    }
  }

  /** No separator occurs in a text without its characters. */
  lemma NothingToSplit(text: string, sep: string, x: char)
    requires sep != "" && x !in sep && forall i :: 0 <= i < |text| ==> text[i] == x
    ensures Split(text, sep) == [text]
  {
    hide Index;
    assert sep[0] in sep;
    forall q: nat ensures !OccursAt(text, sep, q) {
      if q + |sep| <= |text| {
        assert text[q..q + |sep|][0] == text[q];
      }
    }
  }

  /** With a negative overlap, of such a text as long as the step only the first window is left. */
  lemma {:induction false} GapInSplit(c: Config, text: string, seps: seq<string>, E: set<char>, x: char)
    requires Proper(c) && c.overlap < 0 && |text| == c.size - c.overlap && forall i :: 0 <= i < |text| ==> text[i] == x
    requires EndsEmpty(seps) && Covers(E, seps) && x !in E
    ensures SplitText(c, text, seps) == [text[..c.size]]
    decreases |seps|
  {
    hide ByCharCount, Split, Covers;
    OnlyWindow(text, c.size, c.overlap);
    if seps != [] {
      var sep, rest := seps[0], seps[1..];
      assert seps == [sep] + rest;
      CoversFirst(E, sep, rest);
      CoversRest(E, sep, rest);
      if sep == "" {
        OneFits(c, text[..c.size], rest);
      } else {
        NothingToSplit(text, sep, x);
        assert rest != [] && rest[|rest| - 1] == seps[|seps| - 1];
        GapInSplit(c, text, rest, E, x);
        OneTooLong(c, text, sep, rest);
      }
    }
  }

  lemma OneFits(c: Config, s: string, rest: seq<string>)
    requires Proper(c) && s != "" && |s| <= c.size
    ensures Merge(c, [s], "", rest, "") == [s]
  {
    hide SplitText;
    assert [s][1..] == [];
    assert Fits(c, "", s, "") && Joined("", s, "") == s;
    assert Merge(c, [], "", rest, s) == [s];
  }

  lemma OneTooLong(c: Config, s: string, sep: string, rest: seq<string>)
    requires Proper(c) && |s| > c.size && rest != []
    ensures Merge(c, [s], sep, rest, "") == SplitText(c, s, rest)
  {
    hide SplitText;
    assert [s][1..] == [];
  }

  // ---------------------------------------------------------------- when cutting always ends

  /** A long text without separators has to be cut by the window loop in the end. */
  lemma {:induction false} LargeOverlapNeverEnds(c: Config, text: string, seps: seq<string>, E: set<char>, x: char)
    requires Proper(c) && c.overlap >= c.size && |text| > c.size && forall i :: 0 <= i < |text| ==> text[i] == x
    requires EndsEmpty(seps) && Covers(E, seps) && x !in E
    ensures !Ends(c, text, seps)
    decreases |seps|
  {
    hide ByCharCount, Split, Covers;
    if seps != [] && seps[0] != "" {
      var sep, rest := seps[0], seps[1..];
      assert seps == [sep] + rest;
      CoversFirst(E, sep, rest);
      CoversRest(E, sep, rest);
      NothingToSplit(text, sep, x);
      assert rest != [] && rest[|rest| - 1] == seps[|seps| - 1];
      LargeOverlapNeverEnds(c, text, rest, E, x);
      assert Pieces(c, text, sep)[0] == text;
    }
  }

  /** splitText ends on every text exactly for an overlap below the size. */
  lemma AlwaysEndsIff(c: Config, seps: seq<string>, E: set<char>, x: char)
    requires Proper(c) && EndsEmpty(seps) && Covers(E, seps) && x !in E
    ensures (forall text: string :: Ends(c, text, seps)) <==> c.overlap < c.size
  {
    hide Ends, Covers;
    if c.overlap < c.size {
      forall text: string ensures Ends(c, text, seps) {
        SmallOverlapEnds(c, text, seps);
      }
    } else {
      LargeOverlapNeverEnds(c, Times(x, c.size + 1), seps, E, x);
    }
  }

  /** The characters of the separators in use. */
  const SEPARATOR_CHARS: set<char> := {'\n', '\U{3002}', '\U{FF01}', '\U{FF1F}', '\U{FF1B}', '.', '!', '?', ' '}

  lemma SeparatorsCovered()
    ensures Covers(SEPARATOR_CHARS, SEPARATORS) && EndsEmpty(SEPARATORS) && 'x' !in SEPARATOR_CHARS
  {
  }
}
