/** The three fixed-size window loops: internal/docreader/local_engine.go, docker/mineru/app.py and
    splitByCharCount in internal/document/loader.go. */
module Windows {
  import opened Text

  datatype Span = Span(from: nat, to: nat)

  /** The windows of the loops over a text of n characters, from position i on. */
  function Spans(n: nat, size: nat, step: nat, i: nat): (r: seq<Span>)
    requires size > 0 && step > 0
    decreases n - i
  {
    if i >= n then []
    else if i + size >= n then [Span(i, n)]
    else [Span(i, i + size)] + Spans(n, size, step, i + step)
  }

  function Slices(t: string, spans: seq<Span>): (r: seq<string>)
    requires InText(spans, |t|)
    ensures |r| == |spans| && forall k :: 0 <= k < |r| ==> r[k] == t[spans[k].from..spans[k].to]
  {
    seq(|spans|, k requires 0 <= k < |spans| => t[spans[k].from..spans[k].to])
  }

  predicate InText(spans: seq<Span>, n: nat) {
    forall k :: 0 <= k < |spans| ==> spans[k].from < spans[k].to <= n
  }

  /** The windows run over the whole text: a step apart, every one but the last of full size, the last
      one and no other ending at the end. */
  lemma {:induction false} SpansShape(n: nat, size: nat, step: nat, i: nat)
    requires size > 0 && step > 0
    ensures var s := Spans(n, size, step, i);
            && InText(s, n)
            && (s == [] <==> i >= n)
            && (forall k :: 0 <= k < |s| ==> s[k].from == i + k * step)
            && (forall k :: 0 <= k < |s| - 1 ==> s[k].to == s[k].from + size < n)
            && (s != [] && step <= size ==> s[|s| - 1].to == n)
            && (forall k :: 0 <= k < |s| ==> s[k].to - s[k].from <= size)
    decreases n - i
  {
    var s := Spans(n, size, step, i);
    if i < n && i + size < n {
      SpansShape(n, size, step, i + step);
      var r := Spans(n, size, step, i + step);
      assert s == [Span(i, i + size)] + r;
      forall k | 0 <= k < |s| ensures s[k].from == i + k * step && s[k].from < s[k].to <= n
          && s[k].to - s[k].from <= size {
        if k > 0 {
          assert s[k] == r[k - 1];
          assert (k - 1) * step + step == k * step;
        }
      }
      forall k | 0 <= k < |s| - 1 ensures s[k].to == s[k].from + size < n {
        if k > 0 {
          assert s[k] == r[k - 1];
        }
      }
      assert s[|s| - 1] == if r == [] then s[0] else r[|r| - 1];
    }
  }

  /** Neighbours share exactly `size - step` characters. */
  lemma NeighboursShare(n: nat, size: nat, step: nat, k: nat)
    requires 0 < step <= size && k + 1 < |Spans(n, size, step, 0)|
    ensures var s := Spans(n, size, step, 0); s[k].to - s[k + 1].from == size - step
  {
    SpansShape(n, size, step, 0);
    assert (k + 1) * step == k * step + step;
  }

  /** Every window after the first is longer than the overlap. */
  predicate Trimmable(spans: seq<Span>, n: nat, overlap: nat) {
    InText(spans, n) && forall k :: 0 < k < |spans| ==> spans[k].from + overlap <= spans[k].to
  }

  /** The first m windows without what each shares with the one before it. */
  function Fresh(t: string, spans: seq<Span>, overlap: nat, m: nat): string
    requires Trimmable(spans, |t|, overlap) && m <= |spans|
  {
    if m == 0 then ""
    else if m == 1 then t[spans[0].from..spans[0].to]
    else Fresh(t, spans, overlap, m - 1) + t[spans[m - 1].from + overlap..spans[m - 1].to]
  }

  lemma OverlapFits(n: nat, size: nat, step: nat)
    requires 0 < step <= size
    ensures Trimmable(Spans(n, size, step, 0), n, size - step)
  {
    SpansShape(n, size, step, 0);
    var s := Spans(n, size, step, 0);
    forall k | 0 < k < |s| ensures s[k].from + (size - step) <= s[k].to {
      NeighboursShare(n, size, step, k - 1);
      assert s[k - 1].to < n;
    }
  }

  /** Dropping the overlap rebuilds the text: the windows leave no gap. */
  lemma DroppingOverlapRebuilds(t: string, size: nat, step: nat)
    requires 0 < step <= size
    ensures Trimmable(Spans(|t|, size, step, 0), |t|, size - step)
    ensures Fresh(t, Spans(|t|, size, step, 0), size - step, |Spans(|t|, size, step, 0)|) == t
  {
    hide Spans, Trimmable, Fresh;
    OverlapFits(|t|, size, step);
    SpansShape(|t|, size, step, 0);
    var s := Spans(|t|, size, step, 0);
    if s != [] {
      FreshUpTo(t, size, step, |s|);
    } else {
      FreshNone(t, s, size - step);
    }
  }

  lemma FreshNone(t: string, spans: seq<Span>, overlap: nat)
    requires Trimmable(spans, |t|, overlap)
    ensures Fresh(t, spans, overlap, 0) == ""
  {
  }

  lemma {:induction false} FreshUpTo(t: string, size: nat, step: nat, m: nat)
    requires 0 < step <= size && 0 < m <= |Spans(|t|, size, step, 0)|
    requires Trimmable(Spans(|t|, size, step, 0), |t|, size - step)
    ensures Fresh(t, Spans(|t|, size, step, 0), size - step, m) == t[..Spans(|t|, size, step, 0)[m - 1].to]
    decreases m
  {
    hide Spans, Fresh;
    var s := Spans(|t|, size, step, 0);
    FreshNext(t, s, size - step, m);
    if m == 1 {
      SpansShape(|t|, size, step, 0);
      assert s[0].from == 0;
    } else {
      FreshUpTo(t, size, step, m - 1);
      NeighboursShare(|t|, size, step, m - 2);
      var a, b := s[m - 2].to, s[m - 1].to;
      assert t[..a] + t[a..b] == t[..b];
    }
  }

  lemma FreshNext(t: string, spans: seq<Span>, overlap: nat, m: nat)
    requires Trimmable(spans, |t|, overlap) && 0 < m <= |spans|
    ensures Fresh(t, spans, overlap, m) ==
            if m == 1 then t[spans[0].from..spans[0].to]
            else Fresh(t, spans, overlap, m - 1) + t[spans[m - 1].from + overlap..spans[m - 1].to]
  {
  }

  // ---------------------------------------------------------------- the loops

  /** The window parameters after the checks both document readers make. */
  function Normalize(chunkSize: int, chunkOverlap: int): (r: (nat, nat))
    ensures r.0 > 0 && r.1 < r.0
    ensures r.0 == (if chunkSize > 0 then chunkSize else 500)
    ensures chunkOverlap < 0 ==> r.1 == 0
    ensures 0 <= chunkOverlap < r.0 ==> r.1 == chunkOverlap
    ensures chunkOverlap >= r.0 ==> 5 * r.1 <= r.0 < 5 * (r.1 + 1)
  {
    var size := if chunkSize <= 0 then 500 else chunkSize;
    var overlap := if chunkOverlap < 0 then 0 else chunkOverlap;
    (size, if overlap >= size then size / 5 else overlap)
  }

  datatype ParsedChunk = ParsedChunk(content: string, number: nat, start: nat, end: nat)

  /** The windows of a text that are not blank, trimmed and numbered. */
  function Parsed(t: string, spans: seq<Span>, trim: string -> string): (r: seq<ParsedChunk>)
    requires InText(spans, |t|)
  {
    if spans == [] then []
    else
      var last := spans[|spans| - 1];
      var before := Parsed(t, spans[..|spans| - 1], trim);
      var content := trim(t[last.from..last.to]);
      if content == "" then before else before + [ParsedChunk(content, |before|, last.from, last.to)]
  }

  /** Chunk after chunk comes from the windows number `at`, and every other window is blank. */
  ghost predicate ComesFrom(t: string, spans: seq<Span>, trim: string -> string, chunks: seq<ParsedChunk>, at: seq<nat>)
    requires InText(spans, |t|)
  {
    && |at| == |chunks|
    && (forall j, k :: 0 <= j < k < |at| ==> at[j] < at[k])
    && (forall k :: 0 <= k < |at| ==>
          && at[k] < |spans| && chunks[k].number == k
          && chunks[k].start == spans[at[k]].from && chunks[k].end == spans[at[k]].to
          && chunks[k].content == trim(t[chunks[k].start..chunks[k].end]) && chunks[k].content != "")
    && forall w: nat :: w < |spans| && w !in at ==> trim(t[spans[w].from..spans[w].to]) == ""
  }

  /** The chunks are the windows that are not blank, trimmed, in order, numbered, and with their positions. */
  ghost predicate IsParse(t: string, spans: seq<Span>, trim: string -> string, chunks: seq<ParsedChunk>) {
    InText(spans, |t|) && exists at :: ComesFrom(t, spans, trim, chunks, at)
  }

  lemma {:induction false} ParsedIsParse(t: string, spans: seq<Span>, trim: string -> string)
    requires InText(spans, |t|)
    ensures IsParse(t, spans, trim, Parsed(t, spans, trim))
  {
    if spans == [] {
      assert ComesFrom(t, spans, trim, [], []);
    } else {
      var n := |spans| - 1;
      ParsedIsParse(t, spans[..n], trim);
      var before, all := Parsed(t, spans[..n], trim), Parsed(t, spans, trim);
      var at :| ComesFrom(t, spans[..n], trim, before, at);
      assert spans == spans[..n] + [spans[n]];
      hide ComesFrom;
      BlankNext(t, spans[..n], spans[n], trim, before, at);
      ChunkNext(t, spans[..n], spans[n], trim, before, at);
    }
  }

  lemma BlankNext(t: string, done: seq<Span>, w: Span, trim: string -> string, chunks: seq<ParsedChunk>, at: seq<nat>)
    requires InText(done, |t|) && w.from < w.to <= |t| && ComesFrom(t, done, trim, chunks, at)
    ensures InText(done + [w], |t|)
    ensures trim(t[w.from..w.to]) == "" ==> ComesFrom(t, done + [w], trim, chunks, at)
  {
  }

  lemma ChunkNext(t: string, done: seq<Span>, w: Span, trim: string -> string, chunks: seq<ParsedChunk>, at: seq<nat>)
    requires InText(done, |t|) && w.from < w.to <= |t| && ComesFrom(t, done, trim, chunks, at)
    ensures InText(done + [w], |t|)
    ensures var content := trim(t[w.from..w.to]);
            content != "" ==>
              ComesFrom(t, done + [w], trim, chunks + [ParsedChunk(content, |chunks|, w.from, w.to)], at + [|done|])
  {
    var more := at + [|done|];
    assert more[|at|] == |done| && forall k :: 0 <= k < |at| ==> more[k] == at[k];
  }

  function Contents(chunks: seq<ParsedChunk>): (r: seq<string>)
    ensures |r| == |chunks| && forall k :: 0 <= k < |r| ==> r[k] == chunks[k].content
  {
    seq(|chunks|, k requires 0 <= k < |chunks| => chunks[k].content)
  }

  /** The windows of the trimmed text, each trimmed. */
  function ParseOf(text: string, chunkSize: int, chunkOverlap: int, trim: string -> string): seq<ParsedChunk> {
    var (size, overlap) := Normalize(chunkSize, chunkOverlap);
    var t := trim(text);
    SpansShape(|t|, size, size - overlap, 0);
    Parsed(t, Spans(|t|, size, size - overlap, 0), trim)
  }

  lemma ParseIsParse(text: string, chunkSize: int, chunkOverlap: int, trim: string -> string)
    ensures var (size, overlap) := Normalize(chunkSize, chunkOverlap);
            IsParse(trim(text), Spans(|trim(text)|, size, size - overlap, 0), trim,
                    ParseOf(text, chunkSize, chunkOverlap, trim))
  {
    hide IsParse;
    var (size, overlap) := Normalize(chunkSize, chunkOverlap);
    SpansShape(|trim(text)|, size, size - overlap, 0);
    ParsedIsParse(trim(text), Spans(|trim(text)|, size, size - overlap, 0), trim);
  }

  lemma ParsedNext(t: string, done: seq<Span>, w: Span, trim: string -> string)
    requires InText(done, |t|) && w.from < w.to <= |t|
    ensures InText(done + [w], |t|)
    ensures Parsed(t, done + [w], trim)
            == Parsed(t, done, trim)
               + if trim(t[w.from..w.to]) == "" then []
                   else [ParsedChunk(trim(t[w.from..w.to]), |Parsed(t, done, trim)|, w.from, w.to)]
  {
    assert (done + [w])[..|done|] == done;
  }

  lemma SpansNext(n: nat, size: nat, step: nat, done: seq<Span>, start: nat)
    requires size > 0 && step > 0 && start < n
    requires done + Spans(n, size, step, start) == Spans(n, size, step, 0)
    ensures var end := if start + size > n then n else start + size;
            && done + [Span(start, end)] + (if end == n then [] else Spans(n, size, step, start + step))
                == Spans(n, size, step, 0)
  {
  }

  /** Where the loops of both readers stand: `result` is the parse of the windows before position `at`. */
  ghost predicate Scanned(t: string, size: nat, step: nat, trim: string -> string, at: nat, result: seq<ParsedChunk>)
    requires size > 0 && step > 0
  {
    exists done :: InText(done, |t|) && done + Spans(|t|, size, step, at) == Spans(|t|, size, step, 0)
        && result == Parsed(t, done, trim)
  }

  lemma ScanStart(t: string, size: nat, step: nat, trim: string -> string)
    requires size > 0 && step > 0
    ensures Scanned(t, size, step, trim, 0, [])
  {
    hide Spans;
    var none: seq<Span> := [];
    assert none + Spans(|t|, size, step, 0) == Spans(|t|, size, step, 0);
    assert Parsed(t, none, trim) == [];
  }

  lemma ScanStep(t: string, size: nat, step: nat, trim: string -> string, start: nat, result: seq<ParsedChunk>)
    requires size > 0 && step > 0 && start < |t| && Scanned(t, size, step, trim, start, result)
    ensures var end := if start + size > |t| then |t| else start + size;
            var content := trim(t[start..end]);
            Scanned(t, size, step, trim, if end == |t| then |t| else start + step,
                    if content == "" then result else result + [ParsedChunk(content, |result|, start, end)])
  {
    hide Spans, Parsed;
    var done :| InText(done, |t|) && done + Spans(|t|, size, step, start) == Spans(|t|, size, step, 0)
        && result == Parsed(t, done, trim);
    var end := if start + size > |t| then |t| else start + size;
    SpansNext(|t|, size, step, done, start);
    ParsedNext(t, done, Span(start, end), trim);
    var more := done + [Span(start, end)];
    assert Spans(|t|, size, step, |t|) == [] by {
      SpansShape(|t|, size, step, |t|);
    }
    assert more + Spans(|t|, size, step, if end == |t| then |t| else start + step) == Spans(|t|, size, step, 0);
  }

  lemma ScanEnd(text: string, chunkSize: int, chunkOverlap: int, trim: string -> string, at: nat, r: seq<ParsedChunk>)
    requires var (size, overlap) := Normalize(chunkSize, chunkOverlap);
             at >= |trim(text)| && Scanned(trim(text), size, size - overlap, trim, at, r)
    ensures r == ParseOf(text, chunkSize, chunkOverlap, trim)
  {
    hide Parsed;
    var t := trim(text);
    var (size, overlap) := Normalize(chunkSize, chunkOverlap);
    var done :| InText(done, |t|) && done + Spans(|t|, size, size - overlap, at) == Spans(|t|, size, size - overlap, 0)
        && r == Parsed(t, done, trim);
    assert done + [] == done;
  }

  /** chunkText. The guard against a step that is not positive is dead code. */
  method ChunkText(text: string, chunkSize: int, chunkOverlap: int) returns (result: seq<ParsedChunk>)
    ensures result == ParseOf(text, chunkSize, chunkOverlap, TrimSpace)
    ensures var (size, overlap) := Normalize(chunkSize, chunkOverlap);
            IsParse(TrimSpace(text), Spans(|TrimSpace(text)|, size, size - overlap, 0), TrimSpace, result)
  {
    hide Scanned, ParseOf, TrimSpace, IsParse;
    ParseIsParse(text, chunkSize, chunkOverlap, TrimSpace);
    var t := TrimSpace(text);
    result := [];
    var size := chunkSize;
    if size <= 0 {
      size := 500;
    }
    var overlap := chunkOverlap;
    if overlap < 0 {
      overlap := 0;
    }
    if overlap >= size {
      overlap := size / 5;
    }
    var step := size - overlap;
    assert (size, overlap) == Normalize(chunkSize, chunkOverlap) && step > 0;
    ScanStart(t, size, step, TrimSpace);
    if t == "" {
      ScanEnd(text, chunkSize, chunkOverlap, TrimSpace, 0, result);
      return;
    }
    var start := 0;
    ghost var at := 0;
    while start < |t|
      invariant 0 <= start == at
      invariant Scanned(t, size, step, TrimSpace, at, result)
      decreases |t| - start
    {
      var end := start + size;
      if end > |t| {
        end := |t|;
      }
      ScanStep(t, size, step, TrimSpace, start, result);
      var chunk := TrimSpace(t[start..end]);
      if chunk != "" {
        result := result + [ParsedChunk(chunk, |result|, start, end)];
      }
      if end == |t| {
        at := |t|;
        break;
      }
      start := start + step;
      at := start;
    }
    ScanEnd(text, chunkSize, chunkOverlap, TrimSpace, at, result);
  }

  /** _chunk_text: the same windows under Python's strip, of which only the contents are kept. */
  method ChunkTextPython(text: string, chunkSize: int, chunkOverlap: int) returns (chunks: seq<string>)
    ensures chunks == Contents(ParseOf(text, chunkSize, chunkOverlap, Strip))
  {
    hide Scanned, ParseOf, Strip;
    var t := Strip(text);
    chunks := [];
    ghost var same: seq<ParsedChunk> := [];
    var size := if chunkSize <= 0 then 500 else chunkSize;
    var overlap := if chunkOverlap < 0 then 0 else chunkOverlap;
    if overlap >= size {
      overlap := size / 5;
    }
    var step := size - overlap;
    assert (size, overlap) == Normalize(chunkSize, chunkOverlap) && step > 0;
    ScanStart(t, size, step, Strip);
    if t == "" {
      ScanEnd(text, chunkSize, chunkOverlap, Strip, 0, same);
      return;
    }
    var start := 0;
    ghost var at := 0;
    while start < |t|
      invariant 0 <= start == at
      invariant Scanned(t, size, step, Strip, at, same) && chunks == Contents(same)
      decreases |t| - start
    {
      var end := if start + size < |t| then start + size else |t|;
      ScanStep(t, size, step, Strip, start, same);
      var chunk := Strip(t[start..end]);
      if chunk != "" {
        chunks := chunks + [chunk];
        same := same + [ParsedChunk(chunk, |same|, start, end)];
      }
      if end == |t| {
        at := |t|;
        break;
      }
      start := start + step;
      at := start;
    }
    ScanEnd(text, chunkSize, chunkOverlap, Strip, at, same);
  }

  // ---------------------------------------------------------------- when the readers agree

  /** The readers give the same contents for every size and overlap. */
  ghost predicate ReadersAgree(text: string) {
    forall size: int, overlap: int ::
      Contents(ParseOf(text, size, overlap, TrimSpace)) == Contents(ParseOf(text, size, overlap, Strip))
  }

  lemma {:induction false} ParsedAlike(t: string, spans: seq<Span>)
    requires InText(spans, |t|) && NoSeparatorControl(t)
    ensures Parsed(t, spans, TrimSpace) == Parsed(t, spans, Strip)
  {
    hide TrimSpace, Strip;
    if spans != [] {
      var last := spans[|spans| - 1];
      ParsedAlike(t, spans[..|spans| - 1]);
      StripIsTrimSpace(t[last.from..last.to]);
    }
  }

  /** A window that is not blank is among the results. */
  lemma {:induction false} ParsedHas(t: string, spans: seq<Span>, trim: string -> string, k: nat)
    requires InText(spans, |t|) && k < |spans| && trim(t[spans[k].from..spans[k].to]) != ""
    ensures trim(t[spans[k].from..spans[k].to]) in Contents(Parsed(t, spans, trim))
  {
    var n := |spans| - 1;
    var before, all := Parsed(t, spans[..n], trim), Parsed(t, spans, trim);
    if k < n {
      ParsedHas(t, spans[..n], trim, k);
      var j :| 0 <= j < |before| && Contents(before)[j] == trim(t[spans[k].from..spans[k].to]);
      assert Contents(all)[j] == Contents(before)[j];
    } else {
      assert Contents(all)[|before|] == trim(t[spans[k].from..spans[k].to]);
    }
  }

  /** No stripped window starts with one of Python's blanks. */
  lemma {:induction false} StrippedStarts(t: string, spans: seq<Span>)
    requires InText(spans, |t|)
    ensures forall c :: c in Contents(Parsed(t, spans, Strip)) ==> c != "" && !IsPythonSpace(c[0])
  {
    hide Strip;
    if spans != [] {
      var n := |spans| - 1;
      StrippedStarts(t, spans[..n]);
      StripStart(t[spans[n].from..spans[n].to]);
      var before, all := Parsed(t, spans[..n], Strip), Parsed(t, spans, Strip);
      forall j | 0 <= j < |all| ensures Contents(all)[j] != "" && !IsPythonSpace(Contents(all)[j][0]) {
        if j < |before| {
          assert Contents(all)[j] == Contents(before)[j];
          assert Contents(before)[j] in Contents(before);
        }
      }
    }
  }

  /** Windows of one character, a step of one apart: every position. */
  lemma SingleSpans(n: nat, k: nat)
    requires k < n
    ensures k < |Spans(n, 1, 1, 0)| && Spans(n, 1, 1, 0)[k] == Span(k, k + 1)
  {
    hide Spans;
    SpansShape(n, 1, 1, 0);
    var s := Spans(n, 1, 1, 0);
    assert s[|s| - 1].from == |s| - 1;
    if k < |s| {
      assert s[k].from == k;
    }
  }

  lemma TrimOne(c: char)
    requires !IsSpace(c)
    ensures TrimSpace([c]) == [c]
  {
  }

  /** With windows of one character Go keeps a separator that Python drops. */
  lemma SeparatorTellsApart(text: string, c: char)
    requires c in text && IsSeparatorControl(c)
    ensures Contents(ParseOf(text, 1, 0, TrimSpace)) != Contents(ParseOf(text, 1, 0, Strip))
  {
    hide TrimSpace, Strip, Spans, Parsed, Contents;
    TrimSpaceKeeps(text, c);
    var t, u := TrimSpace(text), Strip(text);
    var k :| 0 <= k < |t| && t[k] == c;
    SpansShape(|t|, 1, 1, 0);
    SpansShape(|u|, 1, 1, 0);
    SingleSpans(|t|, k);
    assert t[k..k + 1] == [c];
    TrimOne(c);
    ParsedHas(t, Spans(|t|, 1, 1, 0), TrimSpace, k);
    StrippedStarts(u, Spans(|u|, 1, 1, 0));
    assert [c] in Contents(ParseOf(text, 1, 0, TrimSpace));
    assert IsPythonSpace([c][0]);
    assert [c] !in Contents(ParseOf(text, 1, 0, Strip));
  }

  /** The Python reader keeps pace with the Go reader exactly on texts without U+001C to U+001F, which only
      Python counts as blanks. */
  lemma ReadersAgreeIff(text: string)
    ensures ReadersAgree(text) <==> NoSeparatorControl(text)
  {
    hide TrimSpace, Strip, Spans, Parsed, Contents;
    if NoSeparatorControl(text) {
      StripIsTrimSpace(text);
      TrimmedClean(text);
      forall size: int, overlap: int
        ensures Contents(ParseOf(text, size, overlap, TrimSpace)) == Contents(ParseOf(text, size, overlap, Strip))
      {
        var (sz, ov) := Normalize(size, overlap);
        var t := TrimSpace(text);
        SpansShape(|t|, sz, sz - ov, 0);
        ParsedAlike(t, Spans(|t|, sz, sz - ov, 0));
      }
    } else {
      var i :| 0 <= i < |text| && IsSeparatorControl(text[i]);
      SeparatorTellsApart(text, text[i]);
    }
  }

  lemma TrimmedClean(text: string)
    requires NoSeparatorControl(text)
    ensures NoSeparatorControl(TrimSpace(text))
  {
    TrimSub(text);
    TrimSub(TrimLeft(text));
    forall i | 0 <= i < |TrimSpace(text)| ensures !IsSeparatorControl(TrimSpace(text)[i]) {
      assert TrimSpace(text)[i] in TrimSpace(text);
    }
  }

  /** A text of one such character, with the sizes in use. */
  lemma ReadersDisagree()
    ensures Contents(ParseOf("\U{1C}", 500, 50, TrimSpace)) == ["\U{1C}"]
    ensures Contents(ParseOf("\U{1C}", 500, 50, Strip)) == []
  {
    var text := "\U{1C}";
    TrimOne(text[0]);
    assert Spans(1, 500, 450, 0) == [Span(0, 1)];
    assert text[0..1] == text;
    assert [Span(0, 1)][..0] == [];
    assert Strip(text) == "";
    assert Spans(0, 500, 450, 0) == [];
  }

  // ---------------------------------------------------------------- splitByCharCount

  /** The step of the loop. An overlap of at least the size leaves none; then the loop ends only on a text that
      fits one window, where the step does not matter. */
  function StepOf(size: int, overlap: int): (step: nat)
    ensures step > 0 && (overlap < size ==> step == size - overlap)
    ensures size > 0 && overlap >= 0 ==> step <= size
  {
    if overlap < size then size - overlap else 1
  }

  /** Windows of no size: one blank for every step. */
  function Blanks(n: int, step: nat): seq<string>
    requires step > 0
    decreases n
  {
    if n <= 0 then [] else [""] + Blanks(n - step, step)
  }

  /** The windows of the text. A negative size ends on the empty text only. */
  function ByCharCount(text: string, size: int, overlap: int): seq<string> {
    if size > 0 then
      SpansShape(|text|, size, StepOf(size, overlap), 0);
      Slices(text, Spans(|text|, size, StepOf(size, overlap), 0))
    else if size == 0 then
      Blanks(|text|, StepOf(size, overlap))
    else
      []
  }

  /** Whether the loop, at position i of a text of n characters, leaves normally within `fuel` more rounds:
      it is past the end, or its window reaches it. A negative position, or a window that would end before it
      begins, is an index out of range. */
  predicate Leaves(n: nat, size: int, overlap: int, i: int, fuel: nat)
    decreases fuel
  {
    || i >= n
    || (i >= 0 && size >= 0
        && (i + size >= n || (fuel > 0 && Leaves(n, size, overlap, i + size - overlap, fuel - 1))))
  }

  predicate LoopEnds(n: nat, size: int, overlap: int) {
    n == 0 || (size >= 0 && (overlap < size || n <= size))
  }

  lemma {:induction false} LeavesIn(n: nat, size: nat, overlap: int, i: nat, fuel: nat)
    requires overlap < size && n <= i + fuel
    ensures Leaves(n, size, overlap, i, fuel)
    decreases fuel
  {
    if i < n && i + size < n {
      LeavesIn(n, size, overlap, i + size - overlap, fuel - 1);
    }
  }

  lemma LeavesAtOnce(n: nat, size: int, overlap: int, fuel: nat)
    requires n == 0 || (size >= 0 && n <= size)
    ensures Leaves(n, size, overlap, 0, fuel)
  {
  }

  lemma BackwardWindow(n: nat, size: int, overlap: int, fuel: nat)
    requires n > 0 && size < 0
    ensures !Leaves(n, size, overlap, 0, fuel)
  {
  }

  lemma {:induction false} NeverLeaves(n: nat, size: nat, overlap: int, fuel: nat)
    requires size <= overlap && size < n
    ensures !Leaves(n, size, overlap, 0, fuel)
    decreases fuel
  {
    if overlap == size && fuel > 0 {
      NeverLeaves(n, size, overlap, fuel - 1);
    }
  }

  /** Started at position i, the loop ends normally. */
  ghost predicate EventuallyLeaves(n: nat, size: int, overlap: int, i: int) {
    exists fuel: nat :: Leaves(n, size, overlap, i, fuel)
  }

  /** The loop ends normally exactly on the empty text and, for a size that is not negative, when the overlap is
      below the size or the text fits one window. */
  lemma LoopEndsIff(n: nat, size: int, overlap: int)
    ensures EventuallyLeaves(n, size, overlap, 0) <==> LoopEnds(n, size, overlap)
  {
    hide Leaves;
    if n == 0 || (size >= 0 && n <= size) {
      LeavesAtOnce(n, size, overlap, n);
    } else if size < 0 {
      forall fuel: nat ensures !Leaves(n, size, overlap, 0, fuel) {
        BackwardWindow(n, size, overlap, fuel);
      }
    } else if overlap < size {
      LeavesIn(n, size, overlap, 0, n);
    } else {
      forall fuel: nat ensures !Leaves(n, size, overlap, 0, fuel) {
        NeverLeaves(n, size, overlap, fuel);
      }
    }
  }

  /** Where that loop stands: `chunks` are the windows before position `at`. */
  ghost predicate CutSoFar(text: string, size: nat, step: nat, at: nat, chunks: seq<string>)
    requires step > 0
  {
    if size > 0 then CutSpans(text, size, step, at, chunks)
    else chunks + Blanks(|text| - at, step) == Blanks(|text|, step)
  }

  ghost predicate CutSpans(text: string, size: nat, step: nat, at: nat, chunks: seq<string>)
    requires size > 0 && step > 0
  {
    exists done :: InText(done, |text|) && done + Spans(|text|, size, step, at) == Spans(|text|, size, step, 0)
        && chunks == Slices(text, done)
  }

  lemma CutStart(text: string, size: nat, step: nat)
    requires step > 0
    ensures CutSoFar(text, size, step, 0, [])
  {
    if size > 0 {
      hide Spans;
      var none: seq<Span> := [];
      assert none + Spans(|text|, size, step, 0) == Spans(|text|, size, step, 0);
      assert Slices(text, none) == [];
    }
  }

  lemma CutStep(text: string, size: nat, step: nat, at: nat, chunks: seq<string>)
    requires step > 0 && at < |text| && CutSoFar(text, size, step, at, chunks)
    ensures var end := if at + size > |text| then |text| else at + size;
            CutSoFar(text, size, step, if end == |text| then |text| else at + step, chunks + [text[at..end]])
  {
    if size > 0 {
      CutSpansStep(text, size, step, at, chunks);
    } else {
      assert text[at..at] == "";
      assert Blanks(|text| - at, step) == [""] + Blanks(|text| - (at + step), step);
      assert chunks + ([""] + Blanks(|text| - (at + step), step)) == chunks + [""] + Blanks(|text| - (at + step), step);
    }
  }

  lemma CutSpansStep(text: string, size: nat, step: nat, at: nat, chunks: seq<string>)
    requires size > 0 && step > 0 && at < |text| && CutSpans(text, size, step, at, chunks)
    ensures var end := if at + size > |text| then |text| else at + size;
            CutSpans(text, size, step, if end == |text| then |text| else at + step, chunks + [text[at..end]])
  {
    hide Spans, Slices;
    var done :| InText(done, |text|) && done + Spans(|text|, size, step, at) == Spans(|text|, size, step, 0)
        && chunks == Slices(text, done);
    var end := if at + size > |text| then |text| else at + size;
    SpansNext(|text|, size, step, done, at);
    var more := done + [Span(at, end)];
    assert chunks + [text[at..end]] == Slices(text, more);
    assert Spans(|text|, size, step, |text|) == [] by {
      SpansShape(|text|, size, step, |text|);
    }
    assert more + Spans(|text|, size, step, if end == |text| then |text| else at + step)
        == Spans(|text|, size, step, 0);
  }

  lemma CutEnd(text: string, size: nat, overlap: int, at: nat, chunks: seq<string>)
    requires at >= |text| && CutSoFar(text, size, StepOf(size, overlap), at, chunks)
    ensures chunks == ByCharCount(text, size, overlap)
  {
    hide Slices;
    var step := StepOf(size, overlap);
    if size > 0 {
      var done :| InText(done, |text|) && done + Spans(|text|, size, step, at) == Spans(|text|, size, step, 0)
                  && chunks == Slices(text, done);
      assert done + [] == done;
    } else {
      assert chunks + [] == chunks;
    }
  }

  lemma NothingToCut(size: int, overlap: int)
    ensures ByCharCount("", size, overlap) == []
  {
  }

  /** splitByCharCount, wherever its loop ends. A negative overlap makes the step larger than the window. */
  method SplitByCharCount(text: string, chunkSize: int, chunkOverlap: int) returns (chunks: seq<string>)
    requires LoopEnds(|text|, chunkSize, chunkOverlap)
    ensures chunks == ByCharCount(text, chunkSize, chunkOverlap)
  {
    hide CutSoFar, Spans, Slices, ByCharCount;
    ghost var size: nat := if chunkSize < 0 then 0 else chunkSize;
    ghost var step := StepOf(size, chunkOverlap);
    CutStart(text, size, step);
    chunks := [];
    var i := 0;
    ghost var at := 0;
    while i < |text|
      invariant 0 <= i == at
      invariant CutSoFar(text, size, step, at, chunks)
      invariant |text| == 0 ==> chunks == []
      decreases |text| - i
    {
      var end := i + chunkSize;
      if end > |text| {
        end := |text|;
      }
      CutStep(text, size, step, i, chunks);
      chunks := chunks + [text[i..end]];
      if end >= |text| {
        at := |text|;
        break;
      }
      i := i + (chunkSize - chunkOverlap);
      at := i;
    }
    if |text| == 0 {
      NothingToCut(chunkSize, chunkOverlap);
    } else {
      CutEnd(text, size, chunkOverlap, at, chunks);
    }
  }
}
