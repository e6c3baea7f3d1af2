/** Subsequences of strings, and strings with some characters erased. */
module Subsequence {

  /** `a` is `b` with some characters left out. */
  predicate IsSub(a: string, b: string) {
    a == "" || (b != "" && if a[0] == b[0] then IsSub(a[1..], b[1..]) else IsSub(a, b[1..]))
  }

  lemma {:induction false} SubRefl(a: string)
    ensures IsSub(a, a)
  {
    if a != "" {
      SubRefl(a[1..]);
    }
  }

  lemma {:induction false} SubDrop(a: string, b: string)
    requires a != "" && IsSub(a, b)
    ensures IsSub(a[1..], b)
    decreases |b|, 0
  {
    if a[0] == b[0] {
      SubCons(a[1..], b[0], b[1..]);
      assert [b[0]] + b[1..] == b;
    } else {
      SubDrop(a, b[1..]);
      SubCons(a[1..], b[0], b[1..]);
      assert [b[0]] + b[1..] == b;
    }
  }

  lemma {:induction false} SubCons(a: string, x: char, b: string)
    requires IsSub(a, b)
    ensures IsSub(a, [x] + b)
    decreases |b|, 1
  {
    assert ([x] + b)[1..] == b;
    if a != "" && a[0] == x {
      SubDrop(a, b);
    }
  }

  lemma {:induction false} SubPrefix(a: string, p: string, b: string)
    requires IsSub(a, b)
    ensures IsSub(a, p + b)
    decreases |p|
  {
    if p == "" {
      assert p + b == b;
    } else {
      SubPrefix(a, p[1..], b);
      SubCons(a, p[0], p[1..] + b);
      assert [p[0]] + (p[1..] + b) == p + b;
    }
  }

  lemma {:induction false} SubAppend(a: string, b: string, c: string, d: string)
    requires IsSub(a, b) && IsSub(c, d)
    ensures IsSub(a + c, b + d)
    decreases |b|
  {
    if a == "" {
      assert a + c == c;
      SubPrefix(c, b, d);
    } else {
      assert (b + d)[1..] == b[1..] + d;
      if a[0] == b[0] {
        SubAppend(a[1..], b[1..], c, d);
        assert (a + c)[1..] == a[1..] + c;
      } else {
        SubAppend(a, b[1..], c, d);
      }
    }
  }

  lemma {:induction false} SubTrans(a: string, b: string, c: string)
    requires IsSub(a, b) && IsSub(b, c)
    ensures IsSub(a, c)
    decreases |c|
  {
    if a != "" {
      assert c == [c[0]] + c[1..];
      if b[0] != c[0] {
        SubTrans(a, b, c[1..]);
        SubCons(a, c[0], c[1..]);
      } else if a[0] == b[0] {
        SubTrans(a[1..], b[1..], c[1..]);
      } else {
        SubTrans(a, b[1..], c[1..]);
        SubCons(a, c[0], c[1..]);
      }
    }
  }

  /** `s` without the characters of `E`. */
  function Erase(s: string, E: set<char>): string {
    if s == "" then "" else (if s[0] in E then "" else [s[0]]) + Erase(s[1..], E)
  }

  lemma {:induction false} EraseAppend(a: string, b: string, E: set<char>)
    ensures Erase(a + b, E) == Erase(a, E) + Erase(b, E)
  {
    if a == "" {
      assert a + b == b;
    } else {
      assert (a + b)[1..] == a[1..] + b;
      EraseAppend(a[1..], b, E);
    }
  }

  lemma {:induction false} EraseAll(a: string, E: set<char>)
    requires forall x :: x in a ==> x in E
    ensures Erase(a, E) == ""
  {
    if a != "" {
      EraseAll(a[1..], E);
    }
  }

  lemma {:induction false} EraseSub(a: string, E: set<char>)
    ensures IsSub(Erase(a, E), a)
  {
    if a != "" {
      EraseSub(a[1..], E);
      assert [a[0]] + a[1..] == a;
      if a[0] in E {
        assert Erase(a, E) == Erase(a[1..], E);
        SubCons(Erase(a[1..], E), a[0], a[1..]);
      } else {
        assert Erase(a, E)[1..] == Erase(a[1..], E);
      }
    }
  }

  lemma {:induction false} EraseMono(a: string, b: string, E: set<char>)
    requires IsSub(a, b)
    ensures IsSub(Erase(a, E), Erase(b, E))
    decreases |b|
  {
    if a != "" {
      if a[0] == b[0] {
        EraseMono(a[1..], b[1..], E);
        if a[0] in E {
          assert Erase(a, E) == Erase(a[1..], E) && Erase(b, E) == Erase(b[1..], E);
        } else {
          assert Erase(a, E)[1..] == Erase(a[1..], E) && Erase(b, E)[1..] == Erase(b[1..], E);
        }
      } else {
        EraseMono(a, b[1..], E);
        if b[0] in E {
          assert Erase(b, E) == Erase(b[1..], E);
        } else {
          SubCons(Erase(a, E), b[0], Erase(b[1..], E));
        }
      }
    }
  }

  lemma {:induction false} SubLength(a: string, b: string)
    requires IsSub(a, b)
    ensures |a| <= |b|
  {
    if a != "" {
      if a[0] == b[0] {
        SubLength(a[1..], b[1..]);
      } else {
        SubLength(a, b[1..]);
      }
    }
  }
}
