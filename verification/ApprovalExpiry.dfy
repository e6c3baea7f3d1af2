/** What the expiry of an approval does not prevent, and how often a tool body runs
    (internal/approval/manager.go, internal/service/runtime_agent.go). */
module ApprovalExpiry {
  import opened Wrappers

  import opened Approval
  import opened ApprovalRuns

  lemma LockIgnoresClock(s: Sys, pid: nat, now: real)
    requires Enabled(s, Lock(pid))
    ensures LockStep(s.(now := now), pid) == LockStep(s, pid).(now := now)
  {
  }

  /** Decide does not look at ExpiresAt: how much time has passed makes no difference to what a decision writes. */
  lemma ClockDoesNotDecide(s: Sys, pid: nat, dt: real)
    requires dt >= 0.0
    ensures Step(Step(s, Tick(dt)), Lock(pid)) == Step(s, Lock(pid)).(now := s.now + dt)
  {
    hide LockStep;
    assert Enabled(s.(now := s.now + dt), Lock(pid)) == Enabled(s, Lock(pid));
    if Enabled(s, Lock(pid)) {
      LockIgnoresClock(s, pid, s.now + dt);
    }
  }

  /** A tool call whose approval is given after its expiry, with the waiter's timer not served yet. */
  function LateApproval(): seq<Action> {
    [StartTool(1, SAMPLE, true, "a"), Lookup(1), Snap(1)]
    + [Tick(400.0), StartDecide(2, "a", YES), Lock(2)]
    + [Send(2), ReceiveBranch(1), ActOnDecision(1)]
  }

  /** So the body can run later than the approval lasts: until its timer branch is taken, a pending approval
      is open. */
  lemma ToolCanRunLate()
    ensures var s := Reached(300.0, LateApproval());
            && "a" in s.items && s.items["a"].approval.status == Approved && s.now > s.items["a"].approval.expiresAt
            && s.ran == [Execution(1, SAMPLE, true, Some("a"))]
  {
    hide Exec, Step;
    var s0 := Init(300.0);
    var s1 := Step(Step(Step(s0, StartTool(1, SAMPLE, true, "a")), Lookup(1)), Snap(1));
    Late1();
    var s2 := Step(Step(Step(s1, Tick(400.0)), StartDecide(2, "a", YES)), Lock(2));
    Late2(s1);
    Late3(s2);
    Late4(Step(s2, Send(2)));
    Late5(Step(Step(s2, Send(2)), ReceiveBranch(1)));
    var a, b := [StartTool(1, SAMPLE, true, "a"), Lookup(1), Snap(1)], [Tick(400.0), StartDecide(2, "a", YES), Lock(2)];
    var c := [Send(2), ReceiveBranch(1), ActOnDecision(1)];
    ExecAppend(s0, a + b, c);
    ExecAppend(s0, a, b);
    Exec3(s0, a[0], a[1], a[2]);
    Exec3(s1, b[0], b[1], b[2]);
    Exec3(s2, c[0], c[1], c[2]);
  }

  predicate GateAt(s: Sys, pc: Pc, decider: Option<Pc>, e: Entry, now: real) {
    && s.procs == (if decider.None? then map[1 := Proc(Gate(SAMPLE), pc)]
                   else map[1 := Proc(Gate(SAMPLE), pc), 2 := Proc(Caller, decider.value)])
    && s.items == map["a" := e] && s.now == now && s.ran == []
  }

  lemma Late1()
    ensures GateAt(Step(Step(Step(Init(300.0), StartTool(1, SAMPLE, true, "a")), Lookup(1)), Snap(1)),
                   InSelect("a", 300.0), None, SampleEntry(None, None), 0.0)
  {
    hide LockStep, SendStep, ReceiveStep, ActStep, StartDecideStep;
  }

  lemma Late2(s: Sys)
    requires GateAt(s, InSelect("a", 300.0), None, SampleEntry(None, None), 0.0)
    ensures GateAt(Step(Step(Step(s, Tick(400.0)), StartDecide(2, "a", YES)), Lock(2)), InSelect("a", 300.0),
                   Some(AtSend("a", YES.(at := Some(400.0)), ToDecide)), SampleEntry(Some(400.0), None), 400.0)
  {
    hide SendStep, ReceiveStep, SnapStep, ActStep, StartToolStep;
  }

  lemma Late3(s: Sys)
    requires GateAt(s, InSelect("a", 300.0), Some(AtSend("a", YES.(at := Some(400.0)), ToDecide)),
                    SampleEntry(Some(400.0), None), 400.0)
    ensures GateAt(Step(s, Send(2)), InSelect("a", 300.0), Some(DecideDone("a", Written)),
                   SampleEntry(Some(400.0), Some(YES.(at := Some(400.0)))), 400.0)
  {
    hide LockStep, ReceiveStep, SnapStep, ActStep, StartToolStep, StartDecideStep;
  }

  lemma Late4(s: Sys)
    requires GateAt(s, InSelect("a", 300.0), Some(DecideDone("a", Written)),
                    SampleEntry(Some(400.0), Some(YES.(at := Some(400.0)))), 400.0)
    ensures GateAt(Step(s, ReceiveBranch(1)), WaitDone("a", Got(YES.(at := Some(400.0)), FromChannel)),
                   Some(DecideDone("a", Written)), SampleEntry(Some(400.0), None), 400.0)
  {
    hide LockStep, SendStep, SnapStep, ActStep, StartToolStep, StartDecideStep;
  }

  lemma Late5(s: Sys)
    requires GateAt(s, WaitDone("a", Got(YES.(at := Some(400.0)), FromChannel)), Some(DecideDone("a", Written)),
                    SampleEntry(Some(400.0), None), 400.0)
    ensures var t := Step(s, ActOnDecision(1));
            && t.items == map["a" := SampleEntry(Some(400.0), None)] && t.now == 400.0
            && t.ran == [Execution(1, SAMPLE, true, Some("a"))]
  {
    hide LockStep, SendStep, SnapStep, ReceiveStep, StartToolStep, StartDecideStep;
  }

  // ---------------------------------------------------------------- when a tool can still run late

  /** This step runs the body of gate `pid`, on its approval, after that approval has expired. */
  predicate RunsLate(t: Sys, a: Action, pid: nat) {
    && a == ActOnDecision(pid) && Enabled(t, a)
    && |Step(t, a).ran| == |t.ran| + 1
    && var e := Step(t, a).ran[|t.ran|];
       && Step(t, a).ran == t.ran + [e] && e.pid == pid
       && e.approval.Some? && e.approval.value in t.items && t.now > t.items[e.approval.value].approval.expiresAt
  }

  /** Some continuation, by any callers, comes to such a step. */
  ghost predicate CanRunLate(s: Sys, pid: nat) {
    exists more, a :: RunsLate(Exec(s, more), a, pid)
  }

  predicate IsGate(s: Sys, pid: nat) {
    pid in s.procs && s.procs[pid].role.Gate?
  }

  /** The gate can still be answered with an approval, or has been: nobody has decided, or the approval is there
      to be read from the record, or its value is in the channel or about to be sent. */
  predicate Open(s: Sys, pid: nat)
    requires IsGate(s, pid)
  {
    match s.procs[pid].pc
    case AtLookup(id) => id in s.items && MayApprove(s.items[id].approval.status)
    case AtSnapshot(id) => id in s.items && MayApprove(s.items[id].approval.status)
    case InSelect(id, _) =>
      && id in s.items
      && (s.items[id].approval.status == Pending
          || (s.items[id].approval.status == Approved
              && (s.items[id].chan.Some? || (id in s.sends && s.sends[id] == []))))
    case WaitDone(id, Got(d, _)) => d.verdict == Approve
    case _ => false
  }

  predicate MayApprove(status: Status) {
    status == Pending || status == Approved
  }

  // ---------------------------------------------------------------- what is closed stays closed

  /** A step of others that leaves the gate's approval and channel alone. */
  lemma SameView(s: Sys, t: Sys, pid: nat)
    requires IsGate(s, pid) && pid in t.procs && t.procs[pid] == s.procs[pid]
    requires PcId(s.procs[pid].pc).Some? ==>
               var id := PcId(s.procs[pid].pc).value;
               && (id in s.items <==> id in t.items) && (id in s.items ==> t.items[id] == s.items[id])
               && (id in s.sends <==> id in t.sends) && (id in s.sends ==> t.sends[id] == s.sends[id])
    ensures Open(t, pid) == Open(s, pid)
  {
  }

  lemma LockKeepsClosed(s: Sys, pid: nat, q: nat)
    requires Inv(s) && IsGate(s, pid) && !Open(s, pid) && Enabled(s, Lock(q))
    ensures IsGate(LockStep(s, q), pid) && !Open(LockStep(s, q), pid)
  {
    InvProc(s, q);
    hide Inv;
    if q == pid {
      OwnLockKeepsClosed(s, pid);
    } else {
      hide ProcOk;
      LockMoves(s, q);
      LockedItems(s, q);
      hide LockStep, Enabled;
    }
  }

  lemma OwnLockKeepsClosed(s: Sys, pid: nat)
    requires IsGate(s, pid) && ProcOk(s, pid) && Enabled(s, Lock(pid))
    ensures IsGate(LockStep(s, pid), pid) && !Open(LockStep(s, pid), pid)
  {
    hide Locked, SetResultOf;
  }

  /** Only a pending approval is changed, and no channel is. */
  lemma LockedItems(s: Sys, q: nat)
    requires Enabled(s, Lock(q))
    ensures var t := LockStep(s, q);
            && t.items.Keys == s.items.Keys && t.sends == s.sends
            && forall id :: id in s.items ==>
                 && t.items[id].chan == s.items[id].chan
                 && (s.items[id].approval.status != Pending ==> t.items[id] == s.items[id])
  {
  }

  lemma SendKeepsClosed(s: Sys, pid: nat, q: nat)
    requires Inv(s) && IsGate(s, pid) && !Open(s, pid) && Enabled(s, Send(q))
    ensures IsGate(SendStep(s, q), pid) && !Open(SendStep(s, q), pid)
  {
    InvProc(s, q);
    hide Inv;
    if q == pid {
      OwnSendKeepsClosed(s, pid);
    } else {
      assert s.procs[q].pc.id in s.sends && s.sends[s.procs[q].pc.id] == [];
      hide ProcOk;
      SendMoves(s, q);
      SentItems(s, q);
      hide SendStep, Enabled;
    }
  }

  lemma OwnSendKeepsClosed(s: Sys, pid: nat)
    requires IsGate(s, pid) && ProcOk(s, pid) && Enabled(s, Send(pid))
    ensures IsGate(SendStep(s, pid), pid) && !Open(SendStep(s, pid), pid)
  {
    hide Sent;
  }

  /** Only one channel is changed, and its approval is decided. */
  lemma SentItems(s: Sys, q: nat)
    requires Enabled(s, Send(q))
    ensures var t := SendStep(s, q);
            && t.items.Keys == s.items.Keys && t.sends.Keys == s.sends.Keys
            && (forall id :: id in s.items ==> t.items[id].approval == s.items[id].approval)
            && (forall id :: id in s.items && id != s.procs[q].pc.id ==> t.items[id] == s.items[id])
            && (forall id :: id in s.sends && id != s.procs[q].pc.id ==> t.sends[id] == s.sends[id])
  {
  }

  lemma InvItem(s: Sys, id: string)
    requires Inv(s) && id in s.items
    ensures ItemOk(s, id)
  {
  }

  lemma ReceiveKeepsClosed(s: Sys, pid: nat, q: nat)
    requires Inv(s) && IsGate(s, pid) && !Open(s, pid) && Enabled(s, ReceiveBranch(q))
    ensures IsGate(ReceiveStep(s, q), pid) && !Open(ReceiveStep(s, q), pid)
  {
    InvProc(s, q);
    InvItem(s, s.procs[q].pc.id);
    hide Inv;
  }

  lemma SnapKeepsClosed(s: Sys, pid: nat)
    requires IsGate(s, pid) && ProcOk(s, pid) && !Open(s, pid) && Enabled(s, Snap(pid))
    ensures IsGate(SnapStep(s, pid), pid) && !Open(SnapStep(s, pid), pid)
  {
  }

  lemma ActKeepsClosed(s: Sys, pid: nat)
    requires IsGate(s, pid) && Enabled(s, ActOnDecision(pid))
    ensures IsGate(ActStep(s, pid), pid) && !Open(ActStep(s, pid), pid)
  {
  }

  /** The gate's own steps that leave the manager alone. */
  lemma OwnKeepsClosed(s: Sys, pid: nat, a: Action)
    requires Inv(s) && IsGate(s, pid) && !Open(s, pid) && Enabled(s, a)
    requires a in [Lookup(pid), Snap(pid), TimerBranch(pid), CancelBranch(pid), ActOnDecision(pid)]
    ensures IsGate(Step(s, a), pid) && !Open(Step(s, a), pid)
  {
    InvProc(s, pid);
    hide Inv, LockStep, SendStep, ReceiveStep, SnapStep, ActStep, StartToolStep, StartDecideStep;
    if a.Snap? {
      SnapKeepsClosed(s, pid);
    } else if a.ActOnDecision? {
      ActKeepsClosed(s, pid);
    } else {
      hide ProcOk;
      QuietKeepsClosed(s, pid, a);
    }
  }

  lemma QuietKeepsClosed(s: Sys, pid: nat, a: Action)
    requires IsGate(s, pid) && !Open(s, pid) && Enabled(s, a)
    requires a in [Lookup(pid), TimerBranch(pid), CancelBranch(pid)]
    ensures IsGate(Step(s, a), pid) && !Open(Step(s, a), pid)
  {
    hide LockStep, SendStep, ReceiveStep, SnapStep, ActStep, StartToolStep, StartDecideStep;
  }

  lemma OthersKeepClosed(s: Sys, pid: nat, a: Action)
    requires Inv(s) && IsGate(s, pid) && !Open(s, pid) && Enabled(s, a)
    requires !Writes(a)
    requires a !in [Lookup(pid), Snap(pid), TimerBranch(pid), CancelBranch(pid), ActOnDecision(pid)]
    ensures IsGate(Step(s, a), pid) && !Open(Step(s, a), pid)
  {
    InvProc(s, pid);
    hide Inv, Open;
    if Creates(a) {
      CreatorsLeave(s, pid, a);
    } else {
      hide ProcOk;
      OthersLeave(s, pid, a);
    }
    hide Step, ProcOk;
    SameView(s, Step(s, a), pid);
  }

  lemma OthersLeave(s: Sys, pid: nat, a: Action)
    requires pid in s.procs && Enabled(s, a) && !Writes(a) && !Creates(a)
    requires a !in [Lookup(pid), Snap(pid), TimerBranch(pid), CancelBranch(pid), ActOnDecision(pid)]
    ensures var t := Step(s, a);
            pid in t.procs && t.procs[pid] == s.procs[pid] && t.items == s.items && t.sends == s.sends
  {
    hide Step;
    if a.Tick? {
      TickLeaves(s, a.dt);
    } else {
      StepMoves(s, a);
      assert a.pid != pid;
    }
  }

  lemma TickLeaves(s: Sys, dt: real)
    ensures var t := Step(s, Tick(dt)); t.procs == s.procs && t.items == s.items && t.sends == s.sends && t.ran == s.ran
  {
  }

  /** A new approval is not the one the gate waits for. */
  lemma CreatorsLeave(s: Sys, pid: nat, a: Action)
    requires IsGate(s, pid) && ProcOk(s, pid) && Enabled(s, a) && Creates(a)
    ensures var t := Step(s, a);
            && pid in t.procs && t.procs[pid] == s.procs[pid]
            && (PcId(s.procs[pid].pc).Some? ==>
                  var id := PcId(s.procs[pid].pc).value;
                  && id in s.items && id in t.items && t.items[id] == s.items[id]
                  && (id in s.sends <==> id in t.sends) && (id in s.sends ==> t.sends[id] == s.sends[id]))
  {
    hide PcOk;
  }

  lemma StepKeepsClosed(s: Sys, pid: nat, a: Action)
    requires Inv(s) && IsGate(s, pid) && !Open(s, pid)
    ensures IsGate(Step(s, a), pid) && !Open(Step(s, a), pid)
  {
    hide Inv, Open, LockStep, SendStep, ReceiveStep, SnapStep, ActStep, StartToolStep, StartDecideStep;
    if Enabled(s, a) {
      if a.Lock? {
        LockKeepsClosed(s, pid, a.pid);
      } else if a.Send? {
        SendKeepsClosed(s, pid, a.pid);
      } else if a.ReceiveBranch? {
        ReceiveKeepsClosed(s, pid, a.pid);
      } else if a in [Lookup(pid), Snap(pid), TimerBranch(pid), CancelBranch(pid), ActOnDecision(pid)] {
        OwnKeepsClosed(s, pid, a);
      } else {
        OthersKeepClosed(s, pid, a);
      }
    }
  }

  lemma {:induction false} ExecKeepsClosed(s: Sys, pid: nat, more: seq<Action>)
    requires Inv(s) && IsGate(s, pid) && !Open(s, pid)
    ensures IsGate(Exec(s, more), pid) && !Open(Exec(s, more), pid)
    decreases |more|
  {
    hide Inv, Open, Step;
    if more != [] {
      StepKeepsClosed(s, pid, more[0]);
      StepKeepsInv(s, more[0]);
      ExecKeepsClosed(Step(s, more[0]), pid, more[1..]);
    }
  }

  lemma LateIsOpen(t: Sys, a: Action, pid: nat)
    requires IsGate(t, pid) && RunsLate(t, a, pid)
    ensures Open(t, pid)
  {
  }

  // ---------------------------------------------------------------- what is open can be approved

  /** How far the gate is from an approving answer. */
  function Distance(s: Sys, pid: nat): nat
    requires IsGate(s, pid)
  {
    match s.procs[pid].pc
    case AtLookup(_) => 5
    case AtSnapshot(_) => 4
    case InSelect(id, _) =>
      if id in s.items && s.items[id].approval.status == Pending then 3
      else if id in s.items && s.items[id].chan.None? then 2
      else 1
    case _ => 0
  }

  lemma {:induction false} FreshPid(used: set<nat>) returns (q: nat)
    ensures q !in used && forall x :: x in used ==> x < q
  {
    if used == {} {
      q := 0;
    } else {
      var x :| x in used;
      var r := FreshPid(used - {x});
      q := if r > x then r else x + 1;
      assert forall y :: y in used ==> y == x || y in used - {x};
    }
  }

  lemma LookupCloser(s: Sys, pid: nat)
    requires IsGate(s, pid) && Open(s, pid) && s.procs[pid].pc.AtLookup?
    ensures var t := Step(s, Lookup(pid)); IsGate(t, pid) && Open(t, pid) && Distance(t, pid) < Distance(s, pid)
  {
  }

  lemma SnapCloser(s: Sys, pid: nat)
    requires IsGate(s, pid) && Open(s, pid) && s.procs[pid].pc.AtSnapshot?
    ensures var t := Step(s, Snap(pid)); IsGate(t, pid) && Open(t, pid) && Distance(t, pid) < Distance(s, pid)
  {
  }

  lemma ReceiveCloser(s: Sys, pid: nat)
    requires Inv(s) && IsGate(s, pid) && Open(s, pid) && s.procs[pid].pc.InSelect? && Distance(s, pid) == 1
    ensures var t := Step(s, ReceiveBranch(pid)); IsGate(t, pid) && Open(t, pid) && Distance(t, pid) < Distance(s, pid)
  {
    hide LockStep, SendStep, SnapStep, ActStep, StartToolStep, StartDecideStep;
    InvItem(s, s.procs[pid].pc.id);
    hide Inv;
  }

  lemma SendCloser(s: Sys, pid: nat) returns (w: nat)
    requires Inv(s) && IsGate(s, pid) && Open(s, pid) && s.procs[pid].pc.InSelect? && Distance(s, pid) == 2
    ensures var t := Step(s, Send(w)); IsGate(t, pid) && Open(t, pid) && Distance(t, pid) < Distance(s, pid)
  {
    hide LockStep, ReceiveStep, SnapStep, ActStep, StartToolStep, StartDecideStep;
    var id := s.procs[pid].pc.id;
    InvItem(s, id);
    hide Inv;
    w := s.writer[id];
  }

  /** A new caller approves. */
  const APPROVAL: Decision := Decision(Approve, "", "", None)

  lemma DecideCloser(s: Sys, pid: nat, q: nat)
    requires Inv(s) && IsGate(s, pid) && Open(s, pid) && s.procs[pid].pc.InSelect? && Distance(s, pid) == 3
    requires q !in s.procs
    ensures var t := Step(Step(s, StartDecide(q, s.procs[pid].pc.id, APPROVAL)), Lock(q));
            IsGate(t, pid) && Open(t, pid) && Distance(t, pid) < Distance(s, pid)
  {
    hide SendStep, ReceiveStep, SnapStep, ActStep, StartToolStep;
    InvItem(s, s.procs[pid].pc.id);
    hide Inv;
  }

  lemma OpenAdvances(s: Sys, pid: nat) returns (acts: seq<Action>)
    requires Inv(s) && IsGate(s, pid) && Open(s, pid) && Distance(s, pid) > 0
    ensures var t := Exec(s, acts); IsGate(t, pid) && Open(t, pid) && Distance(t, pid) < Distance(s, pid)
  {
    hide Inv, Step, Exec, Open;
    var pc := s.procs[pid].pc;
    if pc.AtLookup? {
      LookupCloser(s, pid);
      acts := [Lookup(pid)];
    } else if pc.AtSnapshot? {
      SnapCloser(s, pid);
      acts := [Snap(pid)];
    } else if Distance(s, pid) == 1 {
      ReceiveCloser(s, pid);
      acts := [ReceiveBranch(pid)];
    } else if Distance(s, pid) == 2 {
      var w := SendCloser(s, pid);
      acts := [Send(w)];
    } else {
      var q := FreshPid(s.procs.Keys);
      DecideCloser(s, pid, q);
      var a := StartDecide(q, pc.id, APPROVAL);
      acts := [a] + [Lock(q)];
      ExecCons(s, a, [Lock(q)]);
      ExecSingle(Step(s, a), Lock(q));
      return;
    }
    ExecSingle(s, acts[0]);
  }

  lemma ExecSingle(s: Sys, a: Action)
    ensures Exec(s, [a]) == Step(s, a)
  {
    hide Step;
    assert [a][1..] == [];
  }

  /** An approving answer and enough time. */
  lemma ApprovedRunsLate(s: Sys, pid: nat)
    requires Inv(s) && IsGate(s, pid) && Open(s, pid) && Distance(s, pid) == 0
    ensures CanRunLate(s, pid)
  {
    hide LockStep, SendStep, ReceiveStep, SnapStep, StartToolStep, StartDecideStep;
    InvProc(s, pid);
    hide Inv;
    var id := s.procs[pid].pc.id;
    var expiry := s.items[id].approval.expiresAt;
    var dt := if expiry >= s.now then expiry - s.now + 1.0 else 0.0;
    ExecSingle(s, Tick(dt));
    assert RunsLate(Exec(s, [Tick(dt)]), ActOnDecision(pid), pid);
  }

  lemma {:induction false} OpenRunsLate(s: Sys, pid: nat)
    requires Inv(s) && IsGate(s, pid) && Open(s, pid)
    ensures CanRunLate(s, pid)
    decreases Distance(s, pid)
  {
    hide Inv, Open, Exec, RunsLate, Distance;
    if Distance(s, pid) == 0 {
      ApprovedRunsLate(s, pid);
    } else {
      var acts := OpenAdvances(s, pid);
      ExecKeepsInv(s, acts);
      OpenRunsLate(Exec(s, acts), pid);
      var more, a :| RunsLate(Exec(Exec(s, acts), more), a, pid);
      ExecAppend(s, acts, more);
      assert RunsLate(Exec(s, acts + more), a, pid);
    }
  }

  /** In every reachable state, exactly the open gates can still run their tool after the approval has expired. */
  lemma CanRunLateIff(ttl: real, acts: seq<Action>, pid: nat)
    requires IsGate(Reached(ttl, acts), pid)
    ensures CanRunLate(Reached(ttl, acts), pid) <==> Open(Reached(ttl, acts), pid)
  {
    hide Inv, Open, Exec, RunsLate, Reached;
    var s := Reached(ttl, acts);
    ReachedInv(ttl, acts);
    if Open(s, pid) {
      OpenRunsLate(s, pid);
    } else {
      forall more, a ensures !RunsLate(Exec(s, more), a, pid) {
        ExecKeepsClosed(s, pid, more);
        if RunsLate(Exec(s, more), a, pid) {
          LateIsOpen(Exec(s, more), a, pid);
        }
      }
    }
  }

  // ---------------------------------------------------------------- one run for each gate

  /** Every process that has run its body is done, and has run it once. */
  ghost predicate RunOnce(s: Sys) {
    && (forall i :: 0 <= i < |s.ran| ==> Finished(s, s.ran[i].pid))
    && forall i, j :: 0 <= i < j < |s.ran| ==> s.ran[i].pid != s.ran[j].pid
  }

  predicate Finished(s: Sys, pid: nat) {
    pid in s.procs && s.procs[pid].pc == ToolRan
  }

  /** `t` has one more body run than `s`, by a process that this finishes. */
  predicate OneMore(s: Sys, t: Sys) {
    && |t.ran| == |s.ran| + 1 && t.ran[..|s.ran|] == s.ran
    && !Finished(s, t.ran[|s.ran|].pid) && Finished(t, t.ran[|s.ran|].pid)
  }

  lemma StepRuns(s: Sys, a: Action)
    ensures Step(s, a).ran == s.ran || OneMore(s, Step(s, a))
  {
    hide LockStep, SendStep, ReceiveStep, SnapStep, StartDecideStep, NewApproval;
    if Enabled(s, a) && !a.StartTool? && !a.ActOnDecision? {
      QuietStep(s, a);
    }
  }

  lemma QuietStep(s: Sys, a: Action)
    requires Enabled(s, a) && !a.StartTool? && !a.ActOnDecision?
    ensures Step(s, a).ran == s.ran
  {
    hide Locked, Sent, Received, Normalized, NewApproval;
  }

  /** A finished process stays as it is. */
  lemma FinishedStays(s: Sys, a: Action, pid: nat)
    requires Finished(s, pid)
    ensures Finished(Step(s, a), pid)
  {
    if Enabled(s, a) && !a.Tick? && !a.CreateDirect? {
      hide Step;
      StepMoves(s, a);
      assert a.pid != pid;
    }
  }

  lemma StepRunsOnce(s: Sys, a: Action)
    requires RunOnce(s)
    ensures RunOnce(Step(s, a))
  {
    hide Step;
    StepRuns(s, a);
    var t := Step(s, a);
    forall i | 0 <= i < |t.ran| ensures Finished(t, t.ran[i].pid) {
      if i < |s.ran| {
        assert t.ran[i] == t.ran[..|s.ran|][i] == s.ran[i];
        FinishedStays(s, a, s.ran[i].pid);
      }
    }
    forall i, j | 0 <= i < j < |t.ran| ensures t.ran[i].pid != t.ran[j].pid {
      assert t.ran[i] == t.ran[..|s.ran|][i] == s.ran[i];
      assert j < |s.ran| ==> t.ran[j] == t.ran[..|s.ran|][j] == s.ran[j];
    }
  }

  lemma {:induction false} ExecRunsOnce(s: Sys, acts: seq<Action>)
    requires RunOnce(s)
    ensures RunOnce(Exec(s, acts))
    decreases |acts|
  {
    hide RunOnce, Step;
    if acts != [] {
      StepRunsOnce(s, acts[0]);
      ExecRunsOnce(Step(s, acts[0]), acts[1..]);
    }
  }

  /** In every run one approval lets at most one tool body run, and one tool call runs at most once. */
  lemma OneRunPerApproval(ttl: real, acts: seq<Action>, i: nat, j: nat)
    requires i < j < |Reached(ttl, acts).ran|
    ensures var ran := Reached(ttl, acts).ran;
            ran[i].pid != ran[j].pid && (ran[i].approval.Some? ==> ran[i].approval != ran[j].approval)
  {
    hide Exec;
    var s := Reached(ttl, acts);
    ReachedInv(ttl, acts);
    ExecRunsOnce(Init(ttl), acts);
    assert ExecutionOk(s, s.ran[i]) && ExecutionOk(s, s.ran[j]);
  }

  // ---------------------------------------------------------------- when two waiters agree

  /** Two finished waits of one approval give the same answer exactly when both or neither come from a timer, or
      the approval is recorded as expired. */
  lemma WaitsAgreeIff(ttl: real, acts: seq<Action>, p: nat, q: nat, id: string,
                      d: Decision, via: Via, e: Decision, via': Via)
    requires p in Reached(ttl, acts).procs && Reached(ttl, acts).procs[p].pc == WaitDone(id, Got(d, via))
    requires q in Reached(ttl, acts).procs && Reached(ttl, acts).procs[q].pc == WaitDone(id, Got(e, via'))
    ensures d.verdict == e.verdict <==>
            || (via.FromTimer? <==> via'.FromTimer?)
            || (id in Reached(ttl, acts).items && Reached(ttl, acts).items[id].approval.status == Expired)
  {
    hide Exec;
    var s := Reached(ttl, acts);
    ReachedInv(ttl, acts);
    assert ProcOk(s, p) && ProcOk(s, q);
  }

  // ---------------------------------------------------------------- nothing expires early

  /** The decision was taken at or after the expiry of its approval. */
  predicate AfterExpiry(s: Sys, id: string, d: Decision) {
    id in s.items && d.at.Some? && s.items[id].approval.expiresAt <= d.at.value <= s.now
  }

  /** An approval expires one lifetime after its creation, and is recorded as expired no earlier. */
  predicate ExpiresOnTime(s: Sys, id: string)
    requires id in s.items
  {
    var a := s.items[id].approval;
    && a.createdAt <= s.now && a.expiresAt == a.createdAt + s.ttl
    && (a.status == Expired ==> AfterExpiry(s, id, DecisionOf(a)))
  }

  predicate TimerOnTime(s: Sys, pc: Pc) {
    match pc
    case AtLock(id, d, after) => if after == ToWait then AfterExpiry(s, id, d) else d.verdict != Expire
    case AtSend(id, d, ToWait) => AfterExpiry(s, id, d)
    case AtSnapshot(id) => id in s.items
    case InSelect(id, expiresAt) => id in s.items && expiresAt == s.items[id].approval.expiresAt
    case WaitDone(id, Got(d, FromTimer)) => AfterExpiry(s, id, d)
    case _ => true
  }

  ghost predicate NothingEarly(s: Sys) {
    && (forall id :: id in s.items ==> ExpiresOnTime(s, id))
    && (forall pid :: pid in s.procs ==> TimerOnTime(s, s.procs[pid].pc))
  }

  /** Time goes on and approvals keep their expiry. */
  predicate Later(s: Sys, t: Sys) {
    && s.now <= t.now && s.ttl == t.ttl
    && forall id :: id in s.items ==> id in t.items && t.items[id].approval.expiresAt == s.items[id].approval.expiresAt
  }

  lemma StaysOnTime(s: Sys, t: Sys, pc: Pc)
    requires Later(s, t) && TimerOnTime(s, pc)
    ensures TimerOnTime(t, pc)
  {
  }

  lemma StepIsLater(s: Sys, a: Action)
    ensures Later(s, Step(s, a))
  {
    if Enabled(s, a) && !Creates(a) && !Writes(a) && !a.Tick? {
      StepKeepsClock(s, a);
      hide Step;
      StepMoves(s, a);
    }
  }

  lemma StepKeepsClock(s: Sys, a: Action)
    requires Enabled(s, a) && !a.Tick?
    ensures Step(s, a).now == s.now && Step(s, a).ttl == s.ttl
  {
    hide Locked, Sent, Received, Normalized, NewApproval;
  }

  lemma LockerOnTime(s: Sys, pid: nat)
    requires Enabled(s, Lock(pid)) && TimerOnTime(s, s.procs[pid].pc)
    ensures TimerOnTime(LockStep(s, pid), LockStep(s, pid).procs[pid].pc)
  {
    hide StatusFor;
  }

  lemma SenderOnTime(s: Sys, pid: nat)
    requires Enabled(s, Send(pid)) && TimerOnTime(s, s.procs[pid].pc)
    ensures TimerOnTime(SendStep(s, pid), SendStep(s, pid).procs[pid].pc)
  {
    hide StatusFor;
  }

  lemma OtherMoverOnTime(s: Sys, a: Action)
    requires Enabled(s, a) && (a.Snap? || a.ReceiveBranch? || a.ActOnDecision?) && TimerOnTime(s, s.procs[a.pid].pc)
    ensures TimerOnTime(Step(s, a), Step(s, a).procs[a.pid].pc)
  {
    hide DecisionOf;
  }

  lemma PlainMoverOnTime(s: Sys, a: Action)
    requires Enabled(s, a) && (a.Lookup? || a.TimerBranch? || a.CancelBranch?) && TimerOnTime(s, s.procs[a.pid].pc)
    ensures TimerOnTime(Step(s, a), Step(s, a).procs[a.pid].pc)
  {
  }

  lemma StarterOnTime(s: Sys, a: Action)
    requires Enabled(s, a) && (a.StartDecide? || a.StartWait? || a.StartTool?)
    ensures TimerOnTime(Step(s, a), Step(s, a).procs[a.pid].pc)
  {
    hide NewApproval;
  }

  /** The one process that moves is on time again. */
  lemma MoverOnTime(s: Sys, a: Action)
    requires Enabled(s, a) && !a.Tick? && !a.CreateDirect? && NothingEarly(s)
    ensures a.pid in Step(s, a).procs && TimerOnTime(Step(s, a), Step(s, a).procs[a.pid].pc)
  {
    hide TimerOnTime, ExpiresOnTime, LockStep, SendStep, ReceiveStep, SnapStep, ActStep, StartToolStep,
      StartDecideStep;
    StepMoves(s, a);
    assert a.pid in s.procs ==> TimerOnTime(s, s.procs[a.pid].pc);
    if a.Lock? {
      LockerOnTime(s, a.pid);
    } else if a.Send? {
      SenderOnTime(s, a.pid);
    } else if a.Snap? || a.ReceiveBranch? || a.ActOnDecision? {
      OtherMoverOnTime(s, a);
    } else if a.Lookup? || a.TimerBranch? || a.CancelBranch? {
      PlainMoverOnTime(s, a);
    } else {
      StarterOnTime(s, a);
    }
  }

  lemma RecordStaysOnTime(s: Sys, t: Sys, id: string)
    requires Later(s, t) && id in s.items && ExpiresOnTime(s, id) && t.items[id].approval == s.items[id].approval
    ensures ExpiresOnTime(t, id)
  {
  }

  lemma CreatedOnTime(s: Sys, a: Action, id: string)
    requires Enabled(s, a) && Creates(a) && id in Step(s, a).items
    ensures id in s.items ==> Step(s, a).items[id] == s.items[id]
    ensures id !in s.items ==> ExpiresOnTime(Step(s, a), id)
  {
  }

  lemma LockedOnTime(s: Sys, pid: nat, id: string)
    requires Enabled(s, Lock(pid)) && TimerOnTime(s, s.procs[pid].pc) && id in s.items && ExpiresOnTime(s, id)
    ensures ExpiresOnTime(LockStep(s, pid), id)
  {
  }

  lemma SentOnTime(s: Sys, a: Action, id: string)
    requires Enabled(s, a) && (a.Send? || a.ReceiveBranch?) && id in Step(s, a).items
    ensures id in s.items && Step(s, a).items[id].approval == s.items[id].approval
  {
  }

  lemma ItemsOnTime(s: Sys, a: Action, id: string)
    requires Enabled(s, a) && NothingEarly(s) && id in Step(s, a).items
    ensures ExpiresOnTime(Step(s, a), id)
  {
    hide ExpiresOnTime, TimerOnTime, Later, LockStep, SendStep, ReceiveStep, SnapStep, ActStep, StartToolStep,
      StartDecideStep, WithApproval;
    StepIsLater(s, a);
    if Creates(a) {
      CreatedOnTime(s, a, id);
    } else if a.Lock? {
      LockIds(s, a.pid);
      LockedOnTime(s, a.pid, id);
    } else if a.Send? || a.ReceiveBranch? {
      SentOnTime(s, a, id);
    } else if !a.Tick? {
      StepMoves(s, a);
    }
    if id in s.items && !a.Lock? {
      RecordStaysOnTime(s, Step(s, a), id);
    }
  }

  lemma LockIds(s: Sys, pid: nat)
    requires Enabled(s, Lock(pid))
    ensures LockStep(s, pid).items.Keys == s.items.Keys
  {
  }

  lemma StepKeepsOnTime(s: Sys, a: Action)
    requires NothingEarly(s)
    ensures NothingEarly(Step(s, a))
  {
    if Enabled(s, a) {
      var t := Step(s, a);
      forall id | id in t.items ensures ExpiresOnTime(t, id) {
        ItemsOnTime(s, a, id);
      }
      StepIsLater(s, a);
      forall pid | pid in t.procs ensures TimerOnTime(t, t.procs[pid].pc) {
        if a.Tick? || a.CreateDirect? {
          StaysOnTime(s, t, s.procs[pid].pc);
        } else if pid == a.pid {
          MoverOnTime(s, a);
        } else {
          StepMoves(s, a);
          StaysOnTime(s, t, s.procs[pid].pc);
        }
      }
    }
  }

  lemma {:induction false} ExecKeepsOnTime(s: Sys, acts: seq<Action>)
    requires NothingEarly(s)
    ensures NothingEarly(Exec(s, acts))
    decreases |acts|
  {
    hide NothingEarly, Step;
    if acts != [] {
      StepKeepsOnTime(s, acts[0]);
      ExecKeepsOnTime(Step(s, acts[0]), acts[1..]);
    }
  }

  /** No wait answers "expire", from wherever it has it, and no record says so, before one lifetime has gone by since
      the approval was created. */
  lemma NeverExpiresEarly(ttl: real, acts: seq<Action>, id: string)
    requires id in Reached(ttl, acts).items
    ensures var s := Reached(ttl, acts);
            var a := s.items[id].approval;
            && (a.status == Expired ==> a.at.Some? && a.createdAt + ttl <= a.at.value <= s.now)
            && forall pid, d, via :: pid in s.procs && s.procs[pid].pc == WaitDone(id, Got(d, via))
                                     && d.verdict == Expire ==>
                                       d.at.Some? && a.createdAt + ttl <= d.at.value <= s.now
  {
    hide Exec;
    var s := Reached(ttl, acts);
    ReachedInv(ttl, acts);
    ExecKeepsOnTime(Init(ttl), acts);
    KeepsLifetime(Init(ttl), acts);
    assert ExpiresOnTime(s, id);
    forall pid, d, via | pid in s.procs && s.procs[pid].pc == WaitDone(id, Got(d, via)) && d.verdict == Expire
      ensures AfterExpiry(s, id, d)
    {
      assert ProcOk(s, pid) && TimerOnTime(s, s.procs[pid].pc);
    }
  }

  lemma {:induction false} KeepsLifetime(s: Sys, acts: seq<Action>)
    ensures Exec(s, acts).ttl == s.ttl
    decreases |acts|
  {
    hide Step;
    if acts != [] {
      StepIsLater(s, acts[0]);
      KeepsLifetime(Step(s, acts[0]), acts[1..]);
    }
  }
}
