/** The tracker of repeated tool calls (internal/service/runtime_agent.go): it keeps ten calls, yet warns as if
    it kept all of them. */
module ToolTracker {
  import opened Text

  datatype Call = Call(name: string, args: string)

  datatype Warning = Silent | SameArguments(name: string, count: nat) | SameTool(name: string, count: nat)

  const LIMIT := 10

  /** What one of the two rules compares: the tool alone, or with its trimmed arguments. */
  function Key(c: Call, withArgs: bool): (string, string) {
    (c.name, if withArgs then TrimSpace(c.args) else "")
  }

  /** How many calls at the end agree with the last one. */
  function Run(calls: seq<Call>, withArgs: bool): (r: nat)
    ensures r <= |calls| && (r == 0 <==> calls == [])
  {
    if calls == [] then 0 else
      var n := |calls| - 1;
      if n > 0 && Key(calls[n - 1], withArgs) == Key(calls[n], withArgs) then Run(calls[..n], withArgs) + 1 else 1
  }

  /** The last `n` calls are of one tool and, if that matters, have the same arguments but for blanks around them. */
  predicate LastAgree(calls: seq<Call>, n: nat, withArgs: bool) {
    && n <= |calls|
    && forall i :: |calls| - n <= i < |calls| ==>
                     && calls[i].name == calls[|calls| - 1].name
                     && (withArgs ==> TrimSpace(calls[i].args) == TrimSpace(calls[|calls| - 1].args))
  }

  /** The run at the end is as long as calls agree. */
  lemma {:induction false} RunIff(calls: seq<Call>, n: nat, withArgs: bool)
    requires n >= 1
    ensures Run(calls, withArgs) >= n <==> LastAgree(calls, n, withArgs)
    decreases |calls|
  {
    hide TrimSpace;
    if calls != [] && n > 1 {
      var m := |calls| - 1;
      RunIff(calls[..m], n - 1, withArgs);
      if LastAgree(calls, n, withArgs) {
        assert calls[m - 1] == calls[..m][m - 1];
      }
    }
  }

  predicate Repeats(calls: seq<Call>) {
    Run(calls, true) >= 3 || Run(calls, false) >= 5
  }

  /** Some earlier call has already completed a repetition. */
  predicate Warned(calls: seq<Call>) {
    exists k :: 0 <= k <= |calls| && Repeats(calls[..k])
  }

  /** The answer to the last of `calls`, with every call since the last reset remembered. */
  function Expected(calls: seq<Call>): Warning
    requires calls != []
  {
    var n := |calls| - 1;
    if Warned(calls[..n]) then Silent
    else if Run(calls, true) >= 3 then SameArguments(calls[n].name, Run(calls, true))
    else if Run(calls, false) >= 5 then SameTool(calls[n].name, Run(calls, false))
    else Silent
  }

  /** So there is at most one warning between resets, and it counts exactly three or five calls. */
  lemma FirstWarningOnly(calls: seq<Call>)
    requires calls != []
    ensures Expected(calls).SameArguments? ==> Expected(calls).count == 3
    ensures Expected(calls).SameTool? ==> Expected(calls).count == 5
    ensures Expected(calls) != Silent <==> Repeats(calls) && forall k :: 0 <= k < |calls| ==> !Repeats(calls[..k])
  {
    var n := |calls| - 1;
    UnwarnedIsShort(calls);
    forall k | 0 <= k < |calls| ensures Repeats(calls[..k]) ==> Warned(calls[..n]) {
      assert calls[..n][..k] == calls[..k];
    }
    assert Warned(calls[..n]) ==> exists k :: 0 <= k < |calls| && Repeats(calls[..k]) by {
      if Warned(calls[..n]) {
        var k :| 0 <= k <= n && Repeats(calls[..n][..k]);
        assert calls[..n][..k] == calls[..k];
      }
    }
  }

  /** The two rules, in terms of the calls: three calls of one tool with the same arguments, or five of one tool. */
  lemma WarnsIff(calls: seq<Call>)
    requires calls != []
    ensures Expected(calls) != Silent <==>
            && (LastAgree(calls, 3, true) || LastAgree(calls, 5, false))
            && forall k :: 0 <= k < |calls| ==> !LastAgree(calls[..k], 3, true) && !LastAgree(calls[..k], 5, false)
    ensures Expected(calls) != Silent ==>
              Expected(calls) == if LastAgree(calls, 3, true) then SameArguments(calls[|calls| - 1].name, 3)
                                 else SameTool(calls[|calls| - 1].name, 5)
  {
    hide LastAgree, Run;
    FirstWarningOnly(calls);
    RunIff(calls, 3, true);
    RunIff(calls, 5, false);
    forall k | 0 <= k < |calls|
      ensures Repeats(calls[..k]) <==> LastAgree(calls[..k], 3, true) || LastAgree(calls[..k], 5, false)
    {
      RunIff(calls[..k], 3, true);
      RunIff(calls[..k], 5, false);
    }
  }

  /** All agreeing calls at the end: a run, from the back. */
  lemma {:induction false} RunIs(calls: seq<Call>, withArgs: bool, count: nat)
    requires 0 < count <= |calls|
    requires forall i :: |calls| - count <= i < |calls| ==> Key(calls[i], withArgs) == Key(calls[|calls| - 1], withArgs)
    requires count == |calls| || Key(calls[|calls| - count - 1], withArgs) != Key(calls[|calls| - 1], withArgs)
    ensures Run(calls, withArgs) == count
  {
    hide Key;
    var n := |calls| - 1;
    if count > 1 {
      assert Key(calls[n - 1], withArgs) == Key(calls[n], withArgs);
      RunIs(calls[..n], withArgs, count - 1);
    }
  }

  /** A window at the end sees the run up to its own length. */
  lemma {:induction false} RunInWindow(calls: seq<Call>, withArgs: bool, w: nat)
    requires w <= |calls|
    ensures Run(calls[|calls| - w..], withArgs) == if Run(calls, withArgs) <= w then Run(calls, withArgs) else w
  {
    hide Key;
    if w > 0 {
      var n := |calls| - 1;
      var window := calls[|calls| - w..];
      assert window[..w - 1] == calls[..n][n - (w - 1)..];
      RunInWindow(calls[..n], withArgs, w - 1);
    }
  }

  function LastTen(calls: seq<Call>): seq<Call> {
    if |calls| > LIMIT then calls[|calls| - LIMIT..] else calls
  }

  lemma WarnedNext(calls: seq<Call>)
    requires calls != []
    ensures Warned(calls) <==> Warned(calls[..|calls| - 1]) || Repeats(calls)
  {
    hide Repeats;
    var n := |calls| - 1;
    assert calls[..n + 1] == calls;
    forall k | 0 <= k <= n ensures Repeats(calls[..n][..k]) == Repeats(calls[..k]) {
      assert calls[..n][..k] == calls[..k];
    }
  }

  lemma UnwarnedIsShort(calls: seq<Call>)
    requires calls != []
    ensures !Warned(calls[..|calls| - 1]) ==> Run(calls, true) <= 3 && Run(calls, false) <= 5
  {
    var before := calls[..|calls| - 1];
    assert before[..|before|] == before;
    assert !Warned(before) ==> !Repeats(before);
  }

  /** The last ten calls tell whether there is a repetition, and the first one is seen in full. */
  lemma TenAreEnough(calls: seq<Call>)
    requires calls != []
    ensures Repeats(LastTen(calls)) <==> Repeats(calls)
    ensures !Warned(calls[..|calls| - 1]) ==>
              && Run(LastTen(calls), true) == Run(calls, true)
              && Run(LastTen(calls), false) == Run(calls, false)
  {
    hide Run, Key, Warned;
    var window := LastTen(calls);
    assert calls[|calls| - |window|..] == window;
    RunInWindow(calls, true, |window|);
    RunInWindow(calls, false, |window|);
    UnwarnedIsShort(calls);
  }

  lemma LastTenNext(calls: seq<Call>, c: Call)
    ensures LastTen(calls + [c]) == LastTen(LastTen(calls) + [c])
  {
  }

  lemma LastTenShape(calls: seq<Call>)
    ensures LastTen(calls) == if |calls| > LIMIT then calls[|calls| - LIMIT..] else calls
    ensures calls != [] ==> LastTen(calls) != []
  {
  }

  class ToolCallTracker {
    var history: seq<Call>
    var warned: bool
    /** All calls since the last reset. */
    ghost var calls: seq<Call>

    ghost predicate Valid()
      reads this
    {
      history == LastTen(calls) && warned == Warned(calls)
    }

    constructor ()
      ensures Valid() && calls == []
    {
      history, warned, calls := [], false, [];
    }

    /** Ten calls are enough: the answer is the one that all calls since the last reset give. */
    method Record(name: string, args: string) returns (w: Warning)
      requires Valid()
      modifies this
      ensures Valid() && calls == old(calls) + [Call(name, args)]
      ensures w == Expected(calls)
    {
      hide Run, Key, Warned, LastTen;
      LastTenNext(calls, Call(name, args));
      LastTenShape(history + [Call(name, args)]);
      history := history + [Call(name, args)];
      if |history| > LIMIT {
        history := history[|history| - LIMIT..];
      }
      calls := calls + [Call(name, args)];
      assert calls[..|calls| - 1] == old(calls);
      WarnedNext(calls);
      TenAreEnough(calls);
      var sameCount := CountBack(history, true);
      if sameCount >= 3 && !warned {
        warned := true;
        return SameArguments(name, sameCount);
      }
      var consecutive := CountBack(history, false);
      if consecutive >= 5 && !warned {
        warned := true;
        return SameTool(name, consecutive);
      }
      return Silent;
    }

    /** The loop from the back that both rules run. */
    static method CountBack(history: seq<Call>, withArgs: bool) returns (count: nat)
      requires history != []
      ensures count == Run(history, withArgs)
    {
      hide Key;
      var last := history[|history| - 1];
      count := 0;
      var i := |history| - 1;
      while i >= 0 && Key(history[i], withArgs) == Key(last, withArgs)
        invariant -1 <= i < |history| && count == |history| - 1 - i
        invariant forall k :: i < k < |history| ==> Key(history[k], withArgs) == Key(last, withArgs)
      {
        count := count + 1;
        i := i - 1;
      }
      RunIs(history, withArgs, count);
    }

    method Reset()
      modifies this
      ensures Valid() && calls == []
    {
      history, warned, calls := [], false, [];
    }
  }
}
