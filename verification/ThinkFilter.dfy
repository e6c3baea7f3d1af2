/** The streaming and the one-shot filter for reasoning blocks (internal/filter/think.go). */
module ThinkFilter {
  import opened Text

  const OPEN_TAG: string := "<think>"
  const CLOSE_TAG: string := "</think>"

  // ---------------------------------------------------------------- reference definition

  /** One pass over a whole text that starts outside a block: every block from an opening tag to
      the next closing tag is removed, and an unclosed last block is dropped. */
  function Outside(t: string): string
    decreases |t|, 0
  {
    var i := Index(t, OPEN_TAG);
    if i < 0 then t else t[..i] + Inside(t[i + |OPEN_TAG|..])
  }

  /** The same for a text that starts inside a block. */
  function Inside(t: string): string
    decreases |t|, 0
  {
    var j := Index(t, CLOSE_TAG);
    if j < 0 then "" else Outside(t[j + |CLOSE_TAG|..])
  }

  /** What the one pass gives for text `t` met in mode `inThink`. */
  function Resume(inThink: bool, t: string): string {
    if inThink then Inside(t) else Outside(t)
  }

  lemma TagLengths()
    ensures |OPEN_TAG| == 7 && |CLOSE_TAG| == 8
  {
  }

  // ---------------------------------------------------------------- partial tags

  /** The loop of couldBePartialClose and findPartialOpen: the least n >= i such that the first n
      characters of `tag` (fewer than all of it) end `s`, or 0. */
  function ShortestPartial(s: string, tag: string, i: nat): (n: nat)
    requires i >= 1
    ensures n != 0 ==> i <= n < |tag| && n <= |s| && s[|s| - n..] == tag[..n]
    ensures forall k :: i <= k < |tag| && k <= |s| && s[|s| - k..] == tag[..k] ==> 0 < n <= k
    decreases |tag| - i
  {
    if i >= |tag| || i > |s| then 0
    else if s[|s| - i..] == tag[..i] then i
    else ShortestPartial(s, tag, i + 1)
  }

  predicate CouldBePartialClose(s: string) {
    ShortestPartial(s, CLOSE_TAG, 1) != 0
  }

  function FindPartialOpen(s: string): int {
    var n := ShortestPartial(s, OPEN_TAG, 1);
    if n == 0 then -1 else |s| - n
  }

  /** No proper prefix of `tag` longer than `n` ends `s`. */
  ghost predicate NoPartialBeyond(s: string, tag: string, n: nat) {
    forall k :: n < k < |tag| && k <= |s| ==> s[|s| - k..] != tag[..k]
  }

  /** If `s` holds no occurrence of `tag` and no proper prefix of `tag` starts in the first |p|
      characters of s = p + w and runs to its end, no occurrence can start there whatever follows. */
  lemma NoStraddle(p: string, w: string, tag: string, rest: string)
    requires Index(p + w, tag) < 0
    requires NoPartialBeyond(p + w, tag, |w|)
    ensures forall q: nat :: q < |p| ==> !OccursAt(p + (w + rest), tag, q)
  {
    hide Index;
    var s := p + w;
    assert s + rest == p + (w + rest);
    forall q: nat | q < |p| ensures !OccursAt(s + rest, tag, q) {
      assert !OccursAt(s, tag, q);
      if q + |tag| <= |s| {
        assert (s + rest)[q..q + |tag|] == s[q..q + |tag|];
      } else if q + |tag| <= |s + rest| {
        var k := |s| - q;
        assert (s + rest)[q..q + |tag|][..k] == s[|s| - k..];
      }
    }
  }

  /** The opening tag has one '<', its first character: only one of its prefixes can end a text. */
  lemma OnePartialOpen(s: string, n: nat, k: nat)
    requires 0 < n < k < |OPEN_TAG| && k <= |s|
    requires s[|s| - n..] == OPEN_TAG[..n]
    ensures s[|s| - k..] != OPEN_TAG[..k]
  {
    assert s[|s| - n] == s[|s| - n..][0] == OPEN_TAG[..n][0] == '<';
    assert s[|s| - k..][k - n] == s[|s| - n];
    assert OPEN_TAG[..k][k - n] == OPEN_TAG[k - n];
  }

  lemma NoLongerPartial(s: string, n: nat)
    requires n == ShortestPartial(s, OPEN_TAG, 1)
    ensures NoPartialBeyond(s, OPEN_TAG, n)
  {
    hide ShortestPartial, OPEN_TAG;
    forall k | n < k < |OPEN_TAG| && k <= |s| ensures s[|s| - k..] != OPEN_TAG[..k] {
      if n != 0 {
        OnePartialOpen(s, n, k);
      }
    }
  }

  /** Text with no opening tag starting in its front part passes that part through. */
  lemma OutsideSkip(p: string, x: string)
    requires forall q: nat :: q < |p| ==> !OccursAt(p + x, OPEN_TAG, q)
    ensures Outside(p + x) == p + Outside(x)
  {
    hide Index, OPEN_TAG, CLOSE_TAG, Inside;
    IndexSkip(p, x, OPEN_TAG);
    var i := Index(x, OPEN_TAG);
    if i >= 0 {
      assert (p + x)[..|p| + i] == p + x[..i];
      assert (p + x)[|p| + i + |OPEN_TAG|..] == x[i + |OPEN_TAG|..];
    }
  }

  /** Text inside a block with no closing tag starting in its front part loses that part. */
  lemma InsideSkip(p: string, x: string)
    requires forall q: nat :: q < |p| ==> !OccursAt(p + x, CLOSE_TAG, q)
    ensures Inside(p + x) == Inside(x)
  {
    hide Index, OPEN_TAG, CLOSE_TAG, Outside;
    IndexSkip(p, x, CLOSE_TAG);
    var j := Index(x, CLOSE_TAG);
    if j >= 0 {
      assert (p + x)[|p| + j + |CLOSE_TAG|..] == x[j + |CLOSE_TAG|..];
    }
  }

  // ---------------------------------------------------------------- the filter object

  /** Whatever text follows, output `out` and going on from (`inThink`, `buffer`) gives what the one
      pass gives from mode `from` on `text` and that same rest. */
  ghost predicate Continues(out: string, inThink: bool, buffer: string, from: bool, text: string) {
    forall rest: string :: out + Resume(inThink, buffer + rest) == Resume(from, text + rest)
  }

  /** What may be held back between two calls: outside a block only a proper prefix of the opening
      tag, inside a block only text that may end in a part of the closing tag. */
  predicate Settled(inThink: bool, buffer: string) {
    if inThink then Index(buffer, CLOSE_TAG) < 0 && (buffer == "" || CouldBePartialClose(buffer))
    else |buffer| < |OPEN_TAG| && buffer == OPEN_TAG[..|buffer|]
  }

  lemma ContinuesRefl(from: bool, text: string)
    ensures Continues("", from, text, from, text)
  {
    hide Resume;
  }

  lemma SettledEmpty()
    ensures Settled(true, "") && Settled(false, "")
  {
    hide Index;
  }

  lemma SettledInside(buffer: string)
    requires Index(buffer, CLOSE_TAG) < 0 && CouldBePartialClose(buffer)
    ensures Settled(true, buffer)
  {
  }

  lemma SettledOutside(buffer: string, n: nat)
    requires n == ShortestPartial(buffer, OPEN_TAG, 1) != 0
    ensures Settled(false, buffer[|buffer| - n..])
  {
    hide ShortestPartial, Index;
    assert n < |OPEN_TAG| && buffer[|buffer| - n..] == OPEN_TAG[..n];
    hide OPEN_TAG;
  }

  lemma Extend(before: string, mode: bool, held: string, from: bool, text: string,
               out: string, mode': bool, held': string)
    requires Continues(before, mode, held, from, text)
    requires Continues(out, mode', held', mode, held)
    ensures Continues(before + out, mode', held', from, text)
  {
    hide Continues;
    assert held + "" == held && text + "" == text;
    ContinuesChain(before, mode, held, from, text, out, mode', held', "");
  }

  /** Going on is transitive, also across text that arrives in between. */
  lemma ContinuesChain(before: string, mode: bool, held: string, from: bool, text: string,
                       out: string, mode': bool, held': string, chunk: string)
    requires Continues(before, mode, held, from, text)
    requires Continues(out, mode', held', mode, held + chunk)
    ensures Continues(before + out, mode', held', from, text + chunk)
  {
    hide Resume;
    forall rest: string
      ensures before + out + Resume(mode', held' + rest) == Resume(from, text + chunk + rest)
    {
      assert out + Resume(mode', held' + rest) == Resume(mode, held + chunk + rest);
      assert held + chunk + rest == held + (chunk + rest);
      assert text + chunk + rest == text + (chunk + rest);
      assert before + Resume(mode, held + (chunk + rest)) == Resume(from, text + (chunk + rest));
    }
  }

  lemma StepClose(buffer: string)
    requires Index(buffer, CLOSE_TAG) >= 0
    ensures Continues("", false, buffer[Index(buffer, CLOSE_TAG) + |CLOSE_TAG|..], true, buffer)
  {
    hide Index, OPEN_TAG, CLOSE_TAG, Outside;
    var j := Index(buffer, CLOSE_TAG);
    forall rest: string
      ensures "" + Resume(false, buffer[j + |CLOSE_TAG|..] + rest) == Resume(true, buffer + rest)
    {
      IndexExtend(buffer, rest, CLOSE_TAG);
      assert (buffer + rest)[j + |CLOSE_TAG|..] == buffer[j + |CLOSE_TAG|..] + rest;
    }
  }

  lemma StepDiscard(buffer: string)
    requires Index(buffer, CLOSE_TAG) < 0 && !CouldBePartialClose(buffer)
    ensures Continues("", true, "", true, buffer)
  {
    hide Index, OPEN_TAG, CLOSE_TAG, Outside, Inside;
    forall rest: string ensures "" + Resume(true, "" + rest) == Resume(true, buffer + rest) {
      assert buffer + "" == buffer && "" + rest == rest;
      forall k | 0 < k < |CLOSE_TAG| && k <= |buffer| ensures buffer[|buffer| - k..] != CLOSE_TAG[..k] {
        hide ShortestPartial;
      }
      NoStraddle(buffer, "", CLOSE_TAG, rest);
      InsideSkip(buffer, rest);
    }
  }

  lemma StepOpen(buffer: string)
    requires Index(buffer, OPEN_TAG) >= 0
    ensures Continues(buffer[..Index(buffer, OPEN_TAG)], true,
                      buffer[Index(buffer, OPEN_TAG) + |OPEN_TAG|..], false, buffer)
  {
    hide Index, OPEN_TAG, CLOSE_TAG, Inside;
    var i := Index(buffer, OPEN_TAG);
    forall rest: string
      ensures buffer[..i] + Resume(true, buffer[i + |OPEN_TAG|..] + rest) == Resume(false, buffer + rest)
    {
      IndexExtend(buffer, rest, OPEN_TAG);
      assert (buffer + rest)[i + |OPEN_TAG|..] == buffer[i + |OPEN_TAG|..] + rest;
      assert (buffer + rest)[..i] == buffer[..i];
    }
  }

  lemma EmitAt(p: string, w: string, rest: string)
    requires Index(p + w, OPEN_TAG) < 0
    requires NoPartialBeyond(p + w, OPEN_TAG, |w|)
    ensures p + Resume(false, w + rest) == Resume(false, p + w + rest)
  {
    hide Index, OPEN_TAG, CLOSE_TAG, Inside, Outside, OccursAt, NoPartialBeyond;
    NoStraddle(p, w, OPEN_TAG, rest);
    OutsideSkip(p, w + rest);
    assert p + w + rest == p + (w + rest);
  }

  /** Emitting everything but the last n characters, n being what findPartialOpen keeps. */
  lemma StepEmit(buffer: string, n: nat)
    requires Index(buffer, OPEN_TAG) < 0
    requires n == ShortestPartial(buffer, OPEN_TAG, 1)
    ensures n <= |buffer|
    ensures Continues(buffer[..|buffer| - n], false, buffer[|buffer| - n..], false, buffer)
  {
    hide Index, OPEN_TAG, CLOSE_TAG, Resume, ShortestPartial, Continues, NoPartialBeyond;
    var p, w := buffer[..|buffer| - n], buffer[|buffer| - n..];
    assert p + w == buffer;
    NoLongerPartial(buffer, n);
    EmitAll(p, w);
  }

  lemma EmitAll(p: string, w: string)
    requires Index(p + w, OPEN_TAG) < 0
    requires NoPartialBeyond(p + w, OPEN_TAG, |w|)
    ensures Continues(p, false, w, false, p + w)
  {
    hide Index, OPEN_TAG, CLOSE_TAG, Resume, NoPartialBeyond;
    forall rest: string ensures p + Resume(false, w + rest) == Resume(false, p + w + rest) {
      EmitAt(p, w, rest);
    }
  }

  class ThinkTagStreamFilter {
    var inThink: bool
    var buffer: string

    constructor ()
      ensures !inThink && buffer == ""
    {
      inThink, buffer := false, "";
    }

    /** One chunk in, the text that may already be shown out. */
    method Filter(chunk: string) returns (output: string)
      modifies this
      ensures Continues(output, inThink, buffer, old(inThink), old(buffer) + chunk)
      ensures Settled(inThink, buffer)
    {
      hide Index, Continues, Settled, OPEN_TAG, CLOSE_TAG, ShortestPartial;
      ghost var from, text := inThink, buffer + chunk;
      buffer := buffer + chunk;
      output := "";
      ContinuesRefl(from, text);
      SettledEmpty();
      assert |OPEN_TAG| > 0 && |CLOSE_TAG| > 0 by {
        TagLengths();
      }
      while |buffer| > 0
        invariant Continues(output, inThink, buffer, from, text)
        invariant buffer == "" ==> Settled(inThink, buffer)
        decreases |buffer|
      {
        ghost var out0, mode0, held0 := output, inThink, buffer;
        if inThink {
          var closeIdx := Index(buffer, CLOSE_TAG);
          if closeIdx >= 0 {
            StepClose(buffer);
            buffer := buffer[closeIdx + |CLOSE_TAG|..];
            inThink := false;
          } else {
            if CouldBePartialClose(buffer) {
              SettledInside(buffer);
              break;
            }
            StepDiscard(buffer);
            buffer := "";
          }
          Extend(out0, mode0, held0, from, text, "", inThink, buffer);
          assert out0 + "" == output;
        } else {
          var openIdx := Index(buffer, OPEN_TAG);
          if openIdx >= 0 {
            StepOpen(buffer);
            output := output + buffer[..openIdx];
            buffer := buffer[openIdx + |OPEN_TAG|..];
            inThink := true;
            Extend(out0, mode0, held0, from, text, held0[..openIdx], inThink, buffer);
          } else {
            ghost var n := ShortestPartial(buffer, OPEN_TAG, 1);
            StepEmit(buffer, n);
            Extend(out0, mode0, held0, from, text, buffer[..|buffer| - n], false, buffer[|buffer| - n..]);
            var partialIdx := FindPartialOpen(buffer);
            if partialIdx >= 0 {
              SettledOutside(buffer, n);
              output := output + buffer[..partialIdx];
              buffer := buffer[partialIdx..];
              break;
            }
            assert buffer[..|buffer|] == buffer && buffer[|buffer|..] == "";
            output := output + buffer;
            buffer := "";
          }
        }
      }
    }

    /** The end of the stream: the held-back text, unless a block is still open. */
    method Flush() returns (remaining: string)
      modifies this
      ensures remaining == if old(inThink) then "" else old(buffer)
      ensures buffer == "" && inThink == old(inThink)
      ensures Settled(old(inThink), old(buffer)) ==> remaining == Resume(old(inThink), old(buffer))
    {
      remaining := buffer;
      buffer := "";
      if inThink {
        return "";
      }
      if Settled(false, remaining) {
        assert Index(remaining, OPEN_TAG) < 0;
      }
    }
  }

  /** A whole stream. However the text is cut into chunks, the output is that of the one pass; and
      after every chunk the output so far is as long as it can be: any text that is certain to begin
      the final output, whatever chunks still come, has already been put out. */
  method RunStream(chunks: seq<string>) returns (output: string, partials: seq<string>)
    ensures output == Outside(Flatten(chunks))
    ensures |partials| == |chunks|
    ensures forall i :: 0 <= i < |chunks| ==> IsLongestCertain(partials[i], Flatten(chunks[..i + 1]))
  {
    hide Continues, Settled, IsLongestCertain, Outside, Flatten;
    var f := new ThinkTagStreamFilter();
    output := "";
    partials := [];
    StreamStart();
    for n := 0 to |chunks|
      invariant Settled(f.inThink, f.buffer)
      invariant Continues(output, f.inThink, f.buffer, false, Flatten(chunks[..n]))
      invariant |partials| == n
      invariant forall i :: 0 <= i < n ==> IsLongestCertain(partials[i], Flatten(chunks[..i + 1]))
    {
      ghost var before, mode, held := output, f.inThink, f.buffer;
      var out := f.Filter(chunks[n]);
      output := output + out;
      FlattenNext(chunks, n);
      ContinuesChain(before, mode, held, false, Flatten(chunks[..n]), out, f.inThink, f.buffer, chunks[n]);
      OutputIsLongest(output, f.inThink, f.buffer, Flatten(chunks[..n + 1]));
      partials := partials + [output];
    }
    ghost var mode, held, sent := f.inThink, f.buffer, output;
    var last := f.Flush();
    output := output + last;
    assert chunks[..|chunks|] == chunks;
    StreamEnd(sent, mode, held, Flatten(chunks));
  }

  lemma StreamStart()
    ensures Settled(false, "") && Continues("", false, "", false, Flatten([]))
  {
    SettledEmpty();
    ContinuesRefl(false, "");
  }

  lemma StreamEnd(sent: string, mode: bool, held: string, text: string)
    requires Continues(sent, mode, held, false, text)
    ensures sent + Resume(mode, held) == Outside(text)
  {
    hide Index, Outside, Inside;
    assert held + "" == held && text + "" == text;
    assert sent + Resume(mode, held + "") == Resume(false, text + "");
  }

  /** `p` begins the one-pass output of `text` + rest for every rest. */
  ghost predicate IsCertain(p: string, text: string) {
    forall rest: string :: p <= Outside(text + rest)
  }

  /** `p` is the longest text that begins the one-pass output of `text` + rest for every rest. */
  ghost predicate IsLongestCertain(p: string, text: string) {
    && IsCertain(p, text)
    && (forall q: string :: IsCertain(q, text) ==> q <= p)
  }

  /** Holding text back is never needless: some continuation turns all of it into a block. */
  lemma OutputIsLongest(out: string, inThink: bool, buffer: string, text: string)
    requires Settled(inThink, buffer)
    requires Continues(out, inThink, buffer, false, text)
    ensures IsLongestCertain(out, text)
  {
    forall rest: string ensures out <= Outside(text + rest) {
      assert out + Resume(inThink, buffer + rest) == Resume(false, text + rest);
    }
    var rest := if inThink then "" else OPEN_TAG[|buffer|..];
    assert Resume(inThink, buffer + rest) == "" by {
      if inThink {
        assert buffer + rest == buffer;
      } else {
        assert buffer + rest == OPEN_TAG;
        assert OccursAt(OPEN_TAG, OPEN_TAG, 0);
        IndexIs(OPEN_TAG, OPEN_TAG, 0);
        assert OPEN_TAG[|OPEN_TAG|..] == "";
      }
    }
    assert out + Resume(inThink, buffer + rest) == Resume(false, text + rest);
    assert Outside(text + rest) == out;
  }
}
