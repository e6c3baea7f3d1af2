/** The non-streaming StripThinkTags (internal/filter/think.go) and how it relates to the stream. */
module ThinkStrip {
  import opened Text
  import opened ThinkFilter

  /** The class \s of Go's regular expressions. */
  predicate IsRegexSpace(c: char) {
    c == '\t' || c == '\n' || c == '\U{C}' || c == '\r' || c == ' '
  }

  /** `s` without its whitespace. */
  function Squash(s: string): string {
    if s == "" then "" else (if IsSpace(s[0]) then "" else [s[0]]) + Squash(s[1..])
  }

  function DropRegexSpace(s: string): (r: string)
    ensures |r| <= |s|
  {
    if s == "" || !IsRegexSpace(s[0]) then s else DropRegexSpace(s[1..])
  }

  /** t[i..e] is an opening tag, some text and a closing tag: a match of the pattern before its \s*. */
  ghost predicate IsMatch(t: string, i: nat, e: nat) {
    && i + |OPEN_TAG| + |CLOSE_TAG| <= e <= |t|
    && OccursAt(t, OPEN_TAG, i)
    && OccursAt(t, CLOSE_TAG, e - |CLOSE_TAG|)
  }

  datatype Span = NoMatch | Match(from: nat, to: nat)

  /** Where the pattern matches first. */
  function FirstMatch(t: string): (m: Span)
    ensures m.Match? ==> m.from + |OPEN_TAG| + |CLOSE_TAG| <= m.to <= |t|
  {
    var i := Index(t, OPEN_TAG);
    if i < 0 then NoMatch
    else
      var j := Index(t[i + |OPEN_TAG|..], CLOSE_TAG);
      if j < 0 then NoMatch else Match(i, i + |OPEN_TAG| + j + |CLOSE_TAG|)
  }

  /** The match is the leftmost one, and the shortest of those starting there; without it there is none. */
  lemma FirstMatchIsLeftmostShortest(t: string)
    ensures FirstMatch(t).Match? ==>
              && IsMatch(t, FirstMatch(t).from, FirstMatch(t).to)
              && forall i: nat, e: nat :: IsMatch(t, i, e) ==>
                   FirstMatch(t).from <= i && (i == FirstMatch(t).from ==> FirstMatch(t).to <= e)
    ensures FirstMatch(t).NoMatch? ==> forall i: nat, e: nat :: !IsMatch(t, i, e)
  {
    hide Index, OPEN_TAG, CLOSE_TAG;
    var i := Index(t, OPEN_TAG);
    if i >= 0 {
      var from := i + |OPEN_TAG|;
      forall q: nat | q >= from ensures OccursAt(t, CLOSE_TAG, q) <==> OccursAt(t[from..], CLOSE_TAG, q - from) {
        if q + |CLOSE_TAG| <= |t| {
          assert t[from..][q - from..q - from + |CLOSE_TAG|] == t[q..q + |CLOSE_TAG|];
        }
      }
      var j := Index(t[from..], CLOSE_TAG);
      if j >= 0 {
        assert OccursAt(t, CLOSE_TAG, from + j);
        forall e: nat | IsMatch(t, i, e) ensures from + j + |CLOSE_TAG| <= e {
          assert OccursAt(t[from..], CLOSE_TAG, e - |CLOSE_TAG| - from);
        }
      }
    }
  }

  function ReplaceAll(t: string): string
    decreases |t|
  {
    var m := FirstMatch(t);
    if m.NoMatch? then t else t[..m.from] + ReplaceAll(DropRegexSpace(t[m.to..]))
  }

  function StripThinkTags(text: string): string {
    TrimSpace(ReplaceAll(text))
  }

  /** Every opening tag met outside a block has a closing tag after it. */
  predicate AllClosed(t: string)
    decreases |t|
  {
    var m := FirstMatch(t);
    Index(t, OPEN_TAG) < 0 || (m.Match? && AllClosed(t[m.to..]))
  }

  lemma {:induction false} SquashAppend(a: string, b: string)
    ensures Squash(a + b) == Squash(a) + Squash(b)
  {
    if a == "" {
      assert a + b == b;
    } else {
      assert (a + b)[1..] == a[1..] + b;
      SquashAppend(a[1..], b);
    }
  }

  lemma {:induction false} SquashTrimLeft(s: string)
    ensures Squash(TrimLeft(s)) == Squash(s)
  {
    if s != "" && IsSpace(s[0]) {
      SquashTrimLeft(s[1..]);
    }
  }

  lemma {:induction false} SquashTrimRight(s: string)
    ensures Squash(TrimRight(s)) == Squash(s)
  {
    if s != "" && IsSpace(s[|s| - 1]) {
      SquashTrimRight(s[..|s| - 1]);
      var last := [s[|s| - 1]];
      assert s == s[..|s| - 1] + last;
      SquashAppend(s[..|s| - 1], last);
      assert last[1..] == "";
    }
  }

  /** Leading whitespace that \s* eats neither hides nor makes a tag. */
  lemma {:induction false} DropSpaceHarmless(t: string)
    ensures AllClosed(DropRegexSpace(t)) == AllClosed(t)
    ensures Squash(Outside(DropRegexSpace(t))) == Squash(Outside(t))
  {
    hide Index, Inside, AllClosed, Outside;
    if t != "" && IsRegexSpace(t[0]) {
      DropSpaceHarmless(t[1..]);
      OneSpace(t[..1], t[1..]);
      assert t == t[..1] + t[1..];
      SquashAppend(t[..1], Outside(t[1..]));
      assert t[..1][1..] == "";
    }
  }

  lemma OneSpace(p: string, x: string)
    requires |p| == 1 && IsRegexSpace(p[0])
    ensures AllClosed(p + x) == AllClosed(x)
    ensures Outside(p + x) == p + Outside(x)
  {
    hide Index, Inside, Outside;
    assert !OccursAt(p + x, OPEN_TAG, 0) by {
      if |p + x| >= |OPEN_TAG| {
        assert (p + x)[0..|OPEN_TAG|][0] != OPEN_TAG[0];
      }
    }
    OutsideSkip(p, x);
    IndexSkip(p, x, OPEN_TAG);
    ClosedSkip(p, x);
  }

  lemma ClosedSkip(p: string, x: string)
    requires Index(p + x, OPEN_TAG) == if Index(x, OPEN_TAG) < 0 then -1 else |p| + Index(x, OPEN_TAG)
    ensures AllClosed(p + x) == AllClosed(x)
  {
    hide Index, OPEN_TAG, CLOSE_TAG;
    var i := Index(x, OPEN_TAG);
    if i >= 0 {
      assert (p + x)[|p| + i + |OPEN_TAG|..] == x[i + |OPEN_TAG|..];
      var m := FirstMatch(x);
      if m.Match? {
        assert (p + x)[|p| + m.to..] == x[m.to..];
      }
    }
  }

  /** One block removed by the one pass. */
  lemma OutsideMatch(t: string)
    requires FirstMatch(t).Match?
    ensures Outside(t) == t[..FirstMatch(t).from] + Outside(t[FirstMatch(t).to..])
  {
    hide Index, OPEN_TAG, CLOSE_TAG;
    var m := FirstMatch(t);
    var from := m.from + |OPEN_TAG|;
    assert t[from..][m.to - from..] == t[m.to..];
  }

  lemma SquashKeepsTag(t: string, i: nat)
    requires OccursAt(t, OPEN_TAG, i)
    ensures |Squash(t)| >= |Squash(t[..i])| + 1
  {
    hide Squash;
    assert t == t[..i] + t[i..];
    SquashAppend(t[..i], t[i..]);
    assert t[i..][0] == t[i..i + |OPEN_TAG|][0] == '<';
    SquashHead(t[i..]);
  }

  lemma SquashHead(s: string)
    requires s != "" && !IsSpace(s[0])
    ensures |Squash(s)| >= 1
  {
  }

  /** The two filters on one text, whitespace aside: equal on closed texts; on any other the one-shot
      filter keeps strictly more, at least the tag of the unclosed block. */
  lemma {:induction false} ReplaceVersusOnePass(t: string)
    ensures AllClosed(t) ==> Squash(ReplaceAll(t)) == Squash(Outside(t))
    ensures !AllClosed(t) ==> |Squash(ReplaceAll(t))| > |Squash(Outside(t))|
    decreases |t|
  {
    hide Index, OPEN_TAG, CLOSE_TAG, Squash, Inside, FirstMatch;
    var m := FirstMatch(t);
    if m.Match? {
      hide Outside;
      var tail := t[m.to..];
      assert |tail| < |t| by {
        TagLengths();
      }
      DropSpaceHarmless(tail);
      ReplaceVersusOnePass(DropRegexSpace(tail));
      OutsideMatch(t);
      SquashAppend(t[..m.from], ReplaceAll(DropRegexSpace(tail)));
      SquashAppend(t[..m.from], Outside(tail));
      assert AllClosed(t) == AllClosed(tail) by {
        MatchHasOpen(t);
      }
    } else {
      UnmatchedTail(t);
    }
  }

  lemma MatchHasOpen(t: string)
    requires FirstMatch(t).Match?
    ensures Index(t, OPEN_TAG) >= 0
  {
  }

  lemma UnmatchedTail(t: string)
    requires FirstMatch(t).NoMatch?
    ensures AllClosed(t) ==> Squash(t) == Squash(Outside(t))
    ensures !AllClosed(t) ==> |Squash(t)| > |Squash(Outside(t))|
  {
    hide Index, OPEN_TAG, CLOSE_TAG, Squash;
    var i := Index(t, OPEN_TAG);
    if i >= 0 {
      assert Outside(t) == t[..i] + "" == t[..i];
      SquashKeepsTag(t, i);
    }
  }

  /** Stream and one-shot filter agree up to whitespace exactly when every block is closed. */
  lemma StripAgreesIffClosed(text: string)
    ensures Squash(StripThinkTags(text)) == Squash(Outside(text)) <==> AllClosed(text)
  {
    hide Squash, Outside, TrimLeft, TrimRight, AllClosed, ReplaceAll;
    SquashTrimLeft(ReplaceAll(text));
    SquashTrimRight(TrimLeft(ReplaceAll(text)));
    ReplaceVersusOnePass(text);
  }

  // ---------------------------------------------------------------- the text that is left, to the character

  /** A block with the text before it and the whitespace after it. */
  datatype Block = Block(before: string, inside: string, blanks: string)

  function Written(blocks: seq<Block>, last: string): string {
    if blocks == [] then last
    else
      var Block(before, inside, blanks) := blocks[0];
      before + (OPEN_TAG + (inside + (CLOSE_TAG + (blanks + Written(blocks[1..], last)))))
  }

  /** What is around the blocks and their whitespace. */
  function Around(blocks: seq<Block>, last: string): string {
    if blocks == [] then last else blocks[0].before + Around(blocks[1..], last)
  }

  predicate AllBlank(s: string) {
    forall i :: 0 <= i < |s| ==> IsRegexSpace(s[i])
  }

  predicate StartsBlank(s: string) {
    s != "" && IsRegexSpace(s[0])
  }

  /** The blocks are closed, start at the first opening and end at the first closing tag, and have all whitespace
      behind them; no complete block is left in the end. */
  ghost predicate AreBlocks(blocks: seq<Block>, last: string) {
    && FirstMatch(last).NoMatch?
    && (blocks != [] ==> !StartsBlank(last))
    && forall k :: 0 <= k < |blocks| ==>
                     && Index(blocks[k].before, OPEN_TAG) < 0
                     && Index(blocks[k].inside, CLOSE_TAG) < 0
                     && AllBlank(blocks[k].blanks)
                     && (k > 0 ==> !StartsBlank(blocks[k].before))
  }

  /** A tag whose first character occurs in it only once does not begin before it is written out. */
  lemma TagStarts(p: string, tag: string, rest: string)
    requires tag != "" && (forall i :: 0 < i < |tag| ==> tag[i] != tag[0]) && Index(p, tag) < 0
    ensures Index(p + (tag + rest), tag) == |p|
  {
    hide Index;
    var t := p + (tag + rest);
    assert t[|p|..|p| + |tag|] == tag;
    forall q: nat | q < |p| ensures !OccursAt(t, tag, q) {
      if q + |tag| <= |p| {
        assert t[q..q + |tag|] == p[q..q + |tag|];
        assert !OccursAt(p, tag, q);
      } else {
        assert t[q..q + |tag|][|p| - q] == t[|p|] == tag[0];
      }
    }
    IndexIs(t, tag, |p|);
  }

  lemma FirstOfBlocks(b: Block, rest: string)
    requires Index(b.before, OPEN_TAG) < 0 && Index(b.inside, CLOSE_TAG) < 0
    ensures var t := b.before + (OPEN_TAG + (b.inside + (CLOSE_TAG + rest)));
            && FirstMatch(t) == Match(|b.before|, |b.before| + |OPEN_TAG| + |b.inside| + |CLOSE_TAG|)
            && t[FirstMatch(t).to..] == rest
  {
    hide Index;
    var tail := b.inside + (CLOSE_TAG + rest);
    TagStarts(b.before, OPEN_TAG, tail);
    TagStarts(b.inside, CLOSE_TAG, rest);
    assert (b.before + (OPEN_TAG + tail))[|b.before| + |OPEN_TAG|..] == tail;
  }

  lemma {:induction false} DropsBlanks(blanks: string, rest: string)
    requires AllBlank(blanks) && !StartsBlank(rest)
    ensures DropRegexSpace(blanks + rest) == rest
  {
    if blanks == "" {
      assert blanks + rest == rest;
    } else {
      assert (blanks + rest)[1..] == blanks[1..] + rest;
      DropsBlanks(blanks[1..], rest);
    }
  }

  lemma {:induction false} ReplaceKeepsAround(blocks: seq<Block>, last: string)
    requires AreBlocks(blocks, last)
    ensures ReplaceAll(Written(blocks, last)) == Around(blocks, last)
    ensures blocks != [] && !StartsBlank(blocks[0].before) ==> !StartsBlank(Written(blocks, last))
    decreases |blocks|
  {
    hide FirstMatch, Index;
    if blocks != [] {
      var b, rest := blocks[0], Written(blocks[1..], last);
      assert AreBlocks(blocks[1..], last);
      ReplaceKeepsAround(blocks[1..], last);
      FirstOfBlocks(b, b.blanks + rest);
      assert |blocks| > 1 ==> !StartsBlank(blocks[1].before);
      DropsBlanks(b.blanks, rest);
      var t := Written(blocks, last);
      assert t[..|b.before|] == b.before;
      assert OPEN_TAG[0] == '<';
    }
  }

  lemma {:induction false} BlanksInFront(s: string) returns (blanks: string)
    ensures AllBlank(blanks) && s == blanks + DropRegexSpace(s) && !StartsBlank(DropRegexSpace(s))
  {
    blanks := "";
    if StartsBlank(s) {
      blanks := BlanksInFront(s[1..]);
      blanks := [s[0]] + blanks;
    }
  }

  /** The text around and inside the first match holds no tag that would have matched earlier. */
  lemma FirstMatchParts(t: string)
    requires FirstMatch(t).Match?
    ensures var m := FirstMatch(t);
            var inside := t[m.from + |OPEN_TAG|..m.to - |CLOSE_TAG|];
            && t == t[..m.from] + (OPEN_TAG + (inside + (CLOSE_TAG + t[m.to..])))
            && Index(t[..m.from], OPEN_TAG) < 0 && Index(inside, CLOSE_TAG) < 0
  {
    hide Index, OPEN_TAG, CLOSE_TAG;
    var m := FirstMatch(t);
    var rest := t[m.from + |OPEN_TAG|..];
    TagLengths();
    NoTagBefore(t, OPEN_TAG);
    NoTagBefore(rest, CLOSE_TAG);
    var j := Index(rest, CLOSE_TAG);
    assert rest[..j] == t[m.from + |OPEN_TAG|..m.to - |CLOSE_TAG|];
    assert rest == rest[..j] + (CLOSE_TAG + t[m.to..]);
  }

  lemma NoTagBefore(t: string, tag: string)
    requires tag != "" && Index(t, tag) >= 0
    ensures Index(t[..Index(t, tag)], tag) < 0
  {
    hide Index;
    var i := Index(t, tag);
    forall q: nat | OccursAt(t[..i], tag, q) ensures OccursAt(t, tag, q) && q < i {
      assert t[..i][q..q + |tag|] == t[q..q + |tag|];
    }
    IndexNone(t[..i], tag);
  }

  lemma MoreBlocks(b: Block, blocks: seq<Block>, last: string)
    requires AreBlocks(blocks, last) && AllBlank(b.blanks) && !StartsBlank(Written(blocks, last))
    requires Index(b.before, OPEN_TAG) < 0 && Index(b.inside, CLOSE_TAG) < 0
    ensures AreBlocks([b] + blocks, last)
    ensures Written([b] + blocks, last)
            == b.before + (OPEN_TAG + (b.inside + (CLOSE_TAG + (b.blanks + Written(blocks, last)))))
  {
    hide Index, FirstMatch;
    var all := [b] + blocks;
    assert all[1..] == blocks;
  }

  /** Every text is such a row of blocks. */
  lemma {:induction false} EveryTextHasBlocks(t: string) returns (blocks: seq<Block>, last: string)
    ensures AreBlocks(blocks, last) && Written(blocks, last) == t
    decreases |t|
  {
    hide FirstMatch, AreBlocks, Written, Index, OPEN_TAG, CLOSE_TAG;
    var m := FirstMatch(t);
    if m.NoMatch? {
      blocks, last := [], t;
      NoBlocks(t);
    } else {
      TagLengths();
      FirstMatchParts(t);
      var blanks := BlanksInFront(t[m.to..]);
      blocks, last := EveryTextHasBlocks(DropRegexSpace(t[m.to..]));
      var b := Block(t[..m.from], t[m.from + |OPEN_TAG|..m.to - |CLOSE_TAG|], blanks);
      MoreBlocks(b, blocks, last);
      blocks := [b] + blocks;
    }
  }

  lemma NoBlocks(t: string)
    requires FirstMatch(t).NoMatch?
    ensures AreBlocks([], t) && Written([], t) == t
  {
  }

  /** The one-shot filter, to the character: every text is a row of blocks with text around them, and what is left is
      the text around them, trimmed. */
  lemma StripKeepsTheTextAround(text: string)
    ensures exists blocks, last ::
              && AreBlocks(blocks, last) && Written(blocks, last) == text
              && StripThinkTags(text) == TrimSpace(Around(blocks, last))
  {
    hide AreBlocks, Written, Around, TrimSpace, ReplaceAll;
    var blocks, last := EveryTextHasBlocks(text);
    ReplaceKeepsAround(blocks, last);
  }

  /** However a text is written as such a row. */
  lemma StripIsAround(blocks: seq<Block>, last: string)
    requires AreBlocks(blocks, last)
    ensures StripThinkTags(Written(blocks, last)) == TrimSpace(Around(blocks, last))
  {
    hide AreBlocks, Written, Around, TrimSpace, ReplaceAll;
    ReplaceKeepsAround(blocks, last);
  }

  // ---------------------------------------------------------------- and what the stream leaves of the same text

  /** The text around the blocks, with their whitespace. */
  function AroundAll(blocks: seq<Block>, last: string): string {
    if blocks == [] then last else blocks[0].before + (blocks[0].blanks + AroundAll(blocks[1..], last))
  }

  /** A block that is never closed reaches to the end. */
  function BeforeOpen(last: string): string {
    if Index(last, OPEN_TAG) < 0 then last else last[..Index(last, OPEN_TAG)]
  }

  lemma {:induction false} OutsideBlanks(blanks: string, rest: string)
    requires AllBlank(blanks)
    ensures Outside(blanks + rest) == blanks + Outside(rest)
  {
    hide Outside, Inside, Index, AllClosed, IsRegexSpace;
    if blanks == "" {
      assert blanks + rest == rest;
    } else {
      var first, more := blanks[..1], blanks[1..];
      OutsideBlanks(more, rest);
      OneSpace(first, more + rest);
      assert blanks + rest == first + (more + rest);
      assert first + (more + Outside(rest)) == blanks + Outside(rest);
    }
  }

  /** The stream, to the character: all the text around the blocks, their whitespace with it, up to a block that is
      never closed. */
  lemma {:induction false} StreamKeepsTheTextAround(blocks: seq<Block>, last: string)
    requires AreBlocks(blocks, last)
    ensures Outside(Written(blocks, last)) == AroundAll(blocks, BeforeOpen(last))
    decreases |blocks|
  {
    if blocks == [] {
      LastBlock(last);
    } else {
      hide FirstMatch, Index, Outside;
      var b, rest := blocks[0], Written(blocks[1..], last);
      assert AreBlocks(blocks[1..], last);
      StreamKeepsTheTextAround(blocks[1..], last);
      FirstOfBlocks(b, b.blanks + rest);
      OutsideMatch(Written(blocks, last));
      OutsideBlanks(b.blanks, rest);
      assert Written(blocks, last)[..|b.before|] == b.before;
    }
  }

  lemma LastBlock(last: string)
    requires FirstMatch(last).NoMatch?
    ensures Outside(last) == BeforeOpen(last)
  {
    hide Index;
    var i := Index(last, OPEN_TAG);
    if i >= 0 {
      assert Inside(last[i + |OPEN_TAG|..]) == "";
      assert last[..i] + "" == last[..i];
    }
  }
}
