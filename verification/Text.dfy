/** Strings and lists of strings, as the other modules need them. */
module Text {

  /** Concatenation of all pieces, in order. */
  function Flatten(pieces: seq<string>): (r: string) {
    if pieces == [] then "" else pieces[0] + Flatten(pieces[1..])
  }

  lemma {:induction false} FlattenAppend(a: seq<string>, b: seq<string>)
    ensures Flatten(a + b) == Flatten(a) + Flatten(b)
  {
    if a == [] {
      assert a + b == b;
    } else {
      assert (a + b)[1..] == a[1..] + b;
      FlattenAppend(a[1..], b);
    }
  }

  lemma FlattenNext(pieces: seq<string>, n: nat)
    requires n < |pieces|
    ensures Flatten(pieces[..n + 1]) == Flatten(pieces[..n]) + pieces[n]
  {
    FlattenAppend(pieces[..n], [pieces[n]]);
    assert pieces[..n + 1] == pieces[..n] + [pieces[n]];
    assert [pieces[n]][1..] == [];
  }

  /** strings.Join. */
  function JoinWith(parts: seq<string>, sep: string): string {
    if parts == [] then ""
    else if |parts| == 1 then parts[0]
    else JoinWith(parts[..|parts| - 1], sep) + sep + parts[|parts| - 1]
  }

  lemma {:induction false} JoinAppend(a: seq<string>, b: seq<string>, sep: string)
    requires a != [] && b != []
    ensures JoinWith(a + b, sep) == JoinWith(a, sep) + sep + JoinWith(b, sep)
  {
    var n := |b| - 1;
    assert (a + b)[..|a| + n] == a + b[..n];
    if n > 0 {
      JoinAppend(a, b[..n], sep);
      assert JoinWith(a + b, sep) == JoinWith(a, sep) + sep + JoinWith(b[..n], sep) + sep + b[n];
      assert JoinWith(a, sep) + sep + JoinWith(b[..n], sep) + sep + b[n]
          == JoinWith(a, sep) + sep + (JoinWith(b[..n], sep) + sep + b[n]);
    } else {
      assert a + b[..n] == a;
    }
  }

  /** All runs, one after the other. */
  function Concat(runs: seq<seq<string>>): seq<string> {
    if runs == [] then [] else Concat(runs[..|runs| - 1]) + runs[|runs| - 1]
  }

  lemma {:induction false} ConcatFront(run: seq<string>, runs: seq<seq<string>>)
    ensures Concat([run] + runs) == run + Concat(runs)
  {
    var all := [run] + runs;
    if runs == [] {
      assert all[..0] == [];
    } else {
      var n := |runs| - 1;
      assert all[..n + 1] == [run] + runs[..n];
      ConcatFront(run, runs[..n]);
    }
  }

  predicate OccursAt(s: string, tag: string, i: nat) {
    i + |tag| <= |s| && s[i..i + |tag|] == tag
  }

  /** Position of the first occurrence of `tag`, or -1 (Go's strings.Index). */
  function Index(s: string, tag: string): (i: int)
    ensures -1 <= i <= |s|
    ensures i >= 0 ==> OccursAt(s, tag, i) && forall q: nat :: q < i ==> !OccursAt(s, tag, q)
    ensures i == -1 ==> forall q: nat :: !OccursAt(s, tag, q)
  {
    if |s| < |tag| then -1
    else if s[..|tag|] == tag then assert OccursAt(s, tag, 0); 0
    else if s == "" then -1
    else
      var r := Index(s[1..], tag);
      assert forall q: nat :: q > 0 ==> (OccursAt(s, tag, q) <==> OccursAt(s[1..], tag, q - 1)) by {
        forall q: nat | q > 0 ensures OccursAt(s, tag, q) <==> OccursAt(s[1..], tag, q - 1) {
          if q + |tag| <= |s| {
            assert s[1..][q - 1..q - 1 + |tag|] == s[q..q + |tag|];
          }
        }
      }
      assert !OccursAt(s, tag, 0);
      if r < 0 then -1 else r + 1
  }

  /** The first occurrence is unique, so Index finds it. */
  lemma IndexIs(s: string, tag: string, i: nat)
    requires OccursAt(s, tag, i)
    requires forall q: nat :: q < i ==> !OccursAt(s, tag, q)
    ensures Index(s, tag) == i
  {
    hide Index;
    var r := Index(s, tag);
    if r != -1 {
      assert !(r < i);
    }
  }

  lemma IndexNone(s: string, tag: string)
    requires forall q: nat :: !OccursAt(s, tag, q)
    ensures Index(s, tag) == -1
  {
  }

  /** Dropping a front part in which no occurrence starts only shifts the index. */
  lemma IndexSkip(p: string, x: string, tag: string)
    requires forall q: nat :: q < |p| ==> !OccursAt(p + x, tag, q)
    ensures Index(p + x, tag) == if Index(x, tag) < 0 then -1 else |p| + Index(x, tag)
  {
    hide Index;
    forall q: nat | q >= |p| ensures OccursAt(p + x, tag, q) <==> OccursAt(x, tag, q - |p|) {
      if q + |tag| <= |p + x| {
        assert (p + x)[q..q + |tag|] == x[q - |p|..q - |p| + |tag|];
      }
    }
    var r := Index(x, tag);
    if r >= 0 {
      assert OccursAt(p + x, tag, |p| + r);
      IndexIs(p + x, tag, |p| + r);
    } else {
      IndexNone(p + x, tag);
    }
  }

  /** More text after an occurrence does not move the first one. */
  lemma IndexExtend(s: string, rest: string, tag: string)
    requires Index(s, tag) >= 0
    ensures Index(s + rest, tag) == Index(s, tag)
  {
    hide Index;
    var i := Index(s, tag);
    assert (s + rest)[i..i + |tag|] == s[i..i + |tag|];
    forall q: nat | q < i ensures !OccursAt(s + rest, tag, q) {
      assert (s + rest)[q..q + |tag|] == s[q..q + |tag|];
      assert !OccursAt(s, tag, q);
    }
    IndexIs(s + rest, tag, i);
  }

  /** unicode.IsSpace. */
  predicate IsSpace(c: char) {
    || '\U{9}' <= c <= '\U{D}' || c == ' ' || c == '\U{85}' || c == '\U{A0}' || c == '\U{1680}'
    || '\U{2000}' <= c <= '\U{200A}' || c == '\U{2028}' || c == '\U{2029}' || c == '\U{202F}'
    || c == '\U{205F}' || c == '\U{3000}'
  }

  function TrimLeft(s: string): (r: string)
    ensures |r| <= |s|
  {
    if s == "" || !IsSpace(s[0]) then s else TrimLeft(s[1..])
  }

  function TrimRight(s: string): (r: string)
    ensures |r| <= |s|
  {
    if s == "" || !IsSpace(s[|s| - 1]) then s else TrimRight(s[..|s| - 1])
  }

  /** strings.TrimSpace. */
  function TrimSpace(s: string): string {
    TrimRight(TrimLeft(s))
  }

  lemma {:induction false} TrimLeftStart(s: string)
    ensures TrimLeft(s) == "" || !IsSpace(TrimLeft(s)[0])
  {
    if s != "" && IsSpace(s[0]) {
      TrimLeftStart(s[1..]);
    }
  }

  lemma {:induction false} TrimRightEnds(s: string)
    ensures TrimRight(s) <= s && (TrimRight(s) == "" || !IsSpace(TrimRight(s)[|TrimRight(s)| - 1]))
  {
    if s != "" && IsSpace(s[|s| - 1]) {
      TrimRightEnds(s[..|s| - 1]);
    }
  }

  /** Trimming a trimmed text changes nothing. */
  lemma TrimTwice(s: string)
    ensures TrimSpace(TrimSpace(s)) == TrimSpace(s)
  {
    TrimLeftStart(s);
    TrimRightEnds(TrimLeft(s));
  }

  predicate AllSpace(s: string) {
    forall i :: 0 <= i < |s| ==> IsSpace(s[i])
  }

  lemma {:induction false} TrimLeftCuts(s: string) returns (l: string)
    ensures AllSpace(l) && s == l + TrimLeft(s)
  {
    l := "";
    if s != "" && IsSpace(s[0]) {
      l := TrimLeftCuts(s[1..]);
      l := [s[0]] + l;
    }
  }

  lemma {:induction false} TrimRightCuts(s: string) returns (r: string)
    ensures AllSpace(r) && s == TrimRight(s) + r
  {
    r := "";
    if s != "" && IsSpace(s[|s| - 1]) {
      r := TrimRightCuts(s[..|s| - 1]);
      r := r + [s[|s| - 1]];
    }
  }

  /** Trimming takes blanks off both ends, and all of them. */
  lemma TrimSpaceIs(s: string)
    ensures exists l, r :: AllSpace(l) && AllSpace(r) && s == l + TrimSpace(s) + r
    ensures TrimSpace(s) == "" || (!IsSpace(TrimSpace(s)[0]) && !IsSpace(TrimSpace(s)[|TrimSpace(s)| - 1]))
  {
    var l := TrimLeftCuts(s);
    var r := TrimRightCuts(TrimLeft(s));
    assert s == l + TrimSpace(s) + r;
    TrimLeftStart(s);
    TrimRightEnds(TrimLeft(s));
  }

  // ---------------------------------------------------------------- UTF-8

  /** Bytes of a character in UTF-8. */
  function Utf8Size(x: char): nat {
    if x < '\U{80}' then 1 else if x < '\U{800}' then 2 else if x < '\U{10000}' then 3 else 4
  }

  /** Go's len of a string. */
  function ByteLen(s: string): (n: nat)
    ensures n >= |s|
  {
    if s == "" then 0 else Utf8Size(s[0]) + ByteLen(s[1..])
  }

  /** A character in UTF-8. */
  function Encoded(x: char): (r: seq<nat>)
    ensures |r| == Utf8Size(x)
  {
    var n := x as int;
    if n < 0x80 then [n]
    else if n < 0x800 then [0xC0 + n / 0x40, 0x80 + n % 0x40]
    else if n < 0x10000 then [0xE0 + n / 0x1000, 0x80 + n / 0x40 % 0x40, 0x80 + n % 0x40]
    else [0xF0 + n / 0x40000, 0x80 + n / 0x1000 % 0x40, 0x80 + n / 0x40 % 0x40, 0x80 + n % 0x40]
  }

  /** The bytes of a Go string. */
  function Bytes(s: string): (r: seq<nat>)
    ensures |r| == ByteLen(s)
  {
    if s == "" then [] else Encoded(s[0]) + Bytes(s[1..])
  }

  /** The encoding of a character says where it ends. */
  lemma EncodedApart(x: char, y: char, a: seq<nat>, b: seq<nat>)
    requires Encoded(x) + a == Encoded(y) + b
    ensures x == y && a == b
  {
    assert (Encoded(x) + a)[0] == Encoded(x)[0] && (Encoded(y) + b)[0] == Encoded(y)[0];
    assert |Encoded(x)| == |Encoded(y)|;
    var n := |Encoded(x)|;
    assert Encoded(x) == (Encoded(x) + a)[..n] == Encoded(y);
    assert a == (Encoded(x) + a)[n..];
    SameEncoding(x, y);
  }

  /** Six bits a byte. */
  lemma Digits(n: nat)
    ensures n == n / 0x40 * 0x40 + n % 0x40
    ensures n == n / 0x1000 * 0x1000 + n / 0x40 % 0x40 * 0x40 + n % 0x40
    ensures n == n / 0x40000 * 0x40000 + n / 0x1000 % 0x40 * 0x1000 + n / 0x40 % 0x40 * 0x40 + n % 0x40
  {
    assert n / 0x40 / 0x40 == n / 0x1000 && n / 0x1000 / 0x40 == n / 0x40000;
    assert n / 0x40 == n / 0x1000 * 0x40 + n / 0x40 % 0x40;
    assert n / 0x1000 == n / 0x40000 * 0x40 + n / 0x1000 % 0x40;
  }

  /** The character an encoding stands for. */
  function Decoded(e: seq<int>): int {
    if |e| == 1 then e[0]
    else if |e| == 2 then (e[0] - 0xC0) * 0x40 + e[1] - 0x80
    else if |e| == 3 then (e[0] - 0xE0) * 0x1000 + (e[1] - 0x80) * 0x40 + e[2] - 0x80
    else if |e| == 4 then (e[0] - 0xF0) * 0x40000 + (e[1] - 0x80) * 0x1000 + (e[2] - 0x80) * 0x40 + e[3] - 0x80
    else -1
  }

  lemma DecodesEncoded(x: char)
    ensures Decoded(Encoded(x)) == x as int
  {
    Digits(x as int);
  }

  lemma SameEncoding(x: char, y: char)
    requires Encoded(x) == Encoded(y)
    ensures x == y
  {
    hide Encoded, Decoded;
    DecodesEncoded(x);
    DecodesEncoded(y);
  }

  /** Different texts have different bytes. */
  lemma {:induction false} BytesInjective(s: string, t: string)
    ensures Bytes(s) == Bytes(t) <==> s == t
  {
    hide Encoded, ByteLen;
    if s != "" && t != "" && Bytes(s) == Bytes(t) {
      EncodedApart(s[0], t[0], Bytes(s[1..]), Bytes(t[1..]));
      BytesInjective(s[1..], t[1..]);
    }
  }

  // ---------------------------------------------------------------- Python's notion of blanks

  /** str.isspace: all of unicode.IsSpace, and the four information separators as well. */
  predicate IsPythonSpace(c: char) {
    IsSpace(c) || IsSeparatorControl(c)
  }

  predicate IsSeparatorControl(c: char) {
    '\U{1C}' <= c <= '\U{1F}'
  }

  function StripLeft(s: string): (r: string)
    ensures |r| <= |s|
  {
    if s == "" || !IsPythonSpace(s[0]) then s else StripLeft(s[1..])
  }

  function StripRight(s: string): (r: string)
    ensures |r| <= |s|
  {
    if s == "" || !IsPythonSpace(s[|s| - 1]) then s else StripRight(s[..|s| - 1])
  }

  /** str.strip. */
  function Strip(s: string): string {
    StripRight(StripLeft(s))
  }

  predicate NoSeparatorControl(s: string) {
    forall i :: 0 <= i < |s| ==> !IsSeparatorControl(s[i])
  }

  lemma {:induction false} TrimsAgree(s: string)
    requires NoSeparatorControl(s)
    ensures StripLeft(s) == TrimLeft(s) && StripRight(s) == TrimRight(s)
    ensures NoSeparatorControl(TrimLeft(s))
  {
    if s != "" {
      TrimsAgree(s[1..]);
      TrimsAgree(s[..|s| - 1]);
    }
  }

  /** Without information separators the two languages trim alike. */
  lemma StripIsTrimSpace(s: string)
    requires NoSeparatorControl(s)
    ensures Strip(s) == TrimSpace(s)
  {
    TrimsAgree(s);
    TrimsAgree(TrimLeft(s));
  }

  /** Trimming takes away nothing but blanks. */
  lemma {:induction false} TrimKeeps(s: string, c: char)
    requires c in s && !IsSpace(c)
    ensures c in TrimLeft(s) && c in TrimRight(s)
  {
    var n := |s| - 1;
    assert s == [s[0]] + s[1..] && s == s[..n] + [s[n]];
    if IsSpace(s[0]) {
      TrimKeeps(s[1..], c);
    }
    if IsSpace(s[n]) {
      TrimKeeps(s[..n], c);
    }
  }

  lemma TrimSpaceKeeps(s: string, c: char)
    requires c in s && !IsSpace(c)
    ensures c in TrimSpace(s)
  {
    TrimKeeps(s, c);
    TrimKeeps(TrimLeft(s), c);
  }

  lemma {:induction false} StripLeftStart(s: string)
    ensures StripLeft(s) == "" || !IsPythonSpace(StripLeft(s)[0])
  {
    if s != "" && IsPythonSpace(s[0]) {
      StripLeftStart(s[1..]);
    }
  }

  lemma {:induction false} StripRightPrefix(s: string)
    ensures StripRight(s) <= s
  {
    if s != "" && IsPythonSpace(s[|s| - 1]) {
      StripRightPrefix(s[..|s| - 1]);
    }
  }

  lemma StripStart(s: string)
    ensures Strip(s) == "" || !IsPythonSpace(Strip(s)[0])
  {
    StripLeftStart(s);
    StripRightPrefix(StripLeft(s));
  }

  /** All characters of a trimmed text come from the text. */
  lemma {:induction false} TrimSub(s: string)
    ensures forall c :: c in TrimLeft(s) ==> c in s
    ensures forall c :: c in TrimRight(s) ==> c in s
  {
    if s != "" {
      TrimSub(s[1..]);
      TrimSub(s[..|s| - 1]);
    }
  }
}
