/** Every interleaving of the approval manager's callers and of the tool gate
    (internal/approval/manager.go, internal/service/runtime_agent.go). */
module ApprovalRuns {
  import opened Wrappers

  import opened Approval

  // ---------------------------------------------------------------- processes and steps

  /** Where a Wait got its decision from. */
  datatype Via = FromSnapshot | FromChannel | FromTimer

  datatype WaitResult = Got(d: Decision, via: Via) | WaitNotFound | Cancelled

  /** A plain caller of the manager, or the gate around one tool call (its arguments are `call.toolInput`). */
  datatype Role = Caller | Gate(call: Request)

  /** What a setDecision returns into: Decide, or the timer branch of a Wait. */
  datatype After = ToDecide | ToWait

  datatype Pc =
    | AtLock(id: string, d: Decision, after: After)
    | AtSend(id: string, d: Decision, after: After)
    | AtLookup(id: string)
    | AtSnapshot(id: string)
    | InSelect(id: string, expiresAt: real)
    | DecideDone(id: string, result: SetResult)
    | WaitDone(id: string, outcome: WaitResult)
    | ToolRan
    | ToolBlocked

  datatype Proc = Proc(role: Role, pc: Pc)

  /** A tool body executed by process `pid`; `approval` is None where the gate lets the call pass, because there
      is no approval manager (`managed`) or the tool needs no approval. */
  datatype Execution = Execution(pid: nat, call: Request, managed: bool, approval: Option<string>)

  /** The manager's map, the processes and the clock; and, for the statements only: all values ever put
      into each channel, who wrote each decision, which gate created each approval, the tool bodies run
      and the number of sends that found a full channel. */
  datatype Sys = Sys(items: map<string, Entry>, procs: map<nat, Proc>, now: real, ttl: real,
                     sends: map<string, seq<Decision>>, writer: map<string, nat>,
                     maker: map<string, nat>, ran: seq<Execution>, lost: nat)

  function Init(ttl: real): Sys {
    Sys(map[], map[], 0.0, ttl, map[], map[], map[], [], 0)
  }

  datatype Action =
    | Tick(dt: real)
    | CreateDirect(id: string, req: Request)
    | StartDecide(pid: nat, id: string, decision: Decision)
    | StartWait(pid: nat, id: string)
    | StartTool(pid: nat, call: Request, managed: bool, id: string)
    | Lock(pid: nat)
    | Send(pid: nat)
    | Lookup(pid: nat)
    | Snap(pid: nat)
    | ReceiveBranch(pid: nat)
    | TimerBranch(pid: nat)
    | CancelBranch(pid: nat)
    | ActOnDecision(pid: nat)

  function SetPc(s: Sys, pid: nat, pc: Pc): Sys
    requires pid in s.procs
  {
    s.(procs := s.procs[pid := s.procs[pid].(pc := pc)])
  }

  /** Create by any caller or by the gate of process `pid`. */
  function WithApproval(s: Sys, id: string, req: Request): Sys {
    s.(items := s.items[id := Entry(NewApproval(id, req, s.now, s.ttl), None)], sends := s.sends[id := []])
  }

  /** An action takes effect only where the program can perform it; elsewhere it changes nothing, so
      that every sequence of actions is an interleaving. */
  predicate Enabled(s: Sys, a: Action) {
    match a
    case Tick(dt) => dt >= 0.0
    case CreateDirect(id, req) => id !in s.items && req.action != ""
    case StartDecide(pid, id, d) => pid !in s.procs
    case StartWait(pid, id) => pid !in s.procs
    case StartTool(pid, call, managed, id) => pid !in s.procs && id !in s.items
    case Lock(pid) => pid in s.procs && s.procs[pid].pc.AtLock?
    case Send(pid) => pid in s.procs && s.procs[pid].pc.AtSend? && s.procs[pid].pc.id in s.items
    case Lookup(pid) => pid in s.procs && s.procs[pid].pc.AtLookup?
    case Snap(pid) => pid in s.procs && s.procs[pid].pc.AtSnapshot? && s.procs[pid].pc.id in s.items
    case ReceiveBranch(pid) =>
      pid in s.procs && s.procs[pid].pc.InSelect? && s.procs[pid].pc.id in s.items
          && s.items[s.procs[pid].pc.id].chan.Some?
    case TimerBranch(pid) => pid in s.procs && s.procs[pid].pc.InSelect? && s.now >= s.procs[pid].pc.expiresAt
    case CancelBranch(pid) => pid in s.procs && s.procs[pid].pc.InSelect?
    case ActOnDecision(pid) => pid in s.procs && s.procs[pid].role.Gate? && s.procs[pid].pc.WaitDone?
  }

  function StartDecideStep(s: Sys, pid: nat, id: string, decision: Decision): Sys {
    if decision.verdict != Approve && decision.verdict != Reject then
      s.(procs := s.procs[pid := Proc(Caller, DecideDone(id, InvalidDecision))])
    else
      s.(procs := s.procs[pid := Proc(Caller, AtLock(id, Normalized(decision, s.now), ToDecide))])
  }

  function StartToolStep(s: Sys, pid: nat, call: Request, managed: bool, id: string): Sys {
    if !managed || call.action == "" then
      s.(procs := s.procs[pid := Proc(Gate(call), ToolRan)], ran := s.ran + [Execution(pid, call, managed, None)])
    else
      WithApproval(s, id, call).(procs := s.procs[pid := Proc(Gate(call), AtLookup(id))], maker := s.maker[id := pid])
  }

  /** What a process does once its setDecision has returned. */
  function Returned(id: string, d: Decision, after: After, r: SetResult): Pc {
    match after
    case ToDecide => DecideDone(id, r)
    case ToWait => WaitDone(id, Got(d, FromTimer))
  }

  function LockStep(s: Sys, pid: nat): Sys
    requires Enabled(s, Lock(pid))
  {
    var AtLock(id, d, after) := s.procs[pid].pc;
    var r := SetResultOf(s.items, id);
    if r == Written then
      SetPc(s, pid, AtSend(id, d, after)).(items := Locked(s.items, id, d, StatusFor(d.verdict)),
          writer := s.writer[id := pid])
    else
      SetPc(s, pid, Returned(id, d, after, r))
  }

  function SendStep(s: Sys, pid: nat): Sys
    requires Enabled(s, Send(pid))
  {
    var AtSend(id, d, after) := s.procs[pid].pc;
    var room := s.items[id].chan == None;
    SetPc(s, pid, Returned(id, d, after, Written)).(
      items := Sent(s.items, id, d),
      sends := if room && id in s.sends then s.sends[id := s.sends[id] + [d]] else s.sends,
      lost := if room then s.lost else s.lost + 1)
  }

  function SnapStep(s: Sys, pid: nat): Sys
    requires Enabled(s, Snap(pid))
  {
    var id := s.procs[pid].pc.id;
    var a := s.items[id].approval;
    SetPc(s, pid, if a.status != Pending then WaitDone(id, Got(DecisionOf(a), FromSnapshot))
        else InSelect(id, a.expiresAt))
  }

  function ReceiveStep(s: Sys, pid: nat): Sys
    requires Enabled(s, ReceiveBranch(pid))
  {
    var id := s.procs[pid].pc.id;
    SetPc(s, pid, WaitDone(id, Got(s.items[id].chan.value, FromChannel))).(items := Received(s.items, id))
  }

  /** waitForApproval after Wait, and the tool call itself when it says to proceed. */
  function ActStep(s: Sys, pid: nat): Sys
    requires Enabled(s, ActOnDecision(pid))
  {
    var Proc(Gate(call), WaitDone(id, r)) := s.procs[pid];
    if r.Got? && r.d.verdict == Approve then
      SetPc(s, pid, ToolRan).(ran := s.ran + [Execution(pid, call, true, Some(id))])
    else
      SetPc(s, pid, ToolBlocked)
  }

  function Step(s: Sys, a: Action): Sys {
    if !Enabled(s, a) then s else
    match a
    case Tick(dt) => s.(now := s.now + dt)
    case CreateDirect(id, req) => WithApproval(s, id, req)
    case StartDecide(pid, id, d) => StartDecideStep(s, pid, id, d)
    case StartWait(pid, id) => s.(procs := s.procs[pid := Proc(Caller, AtLookup(id))])
    case StartTool(pid, call, managed, id) => StartToolStep(s, pid, call, managed, id)
    case Lock(pid) => LockStep(s, pid)
    case Send(pid) => SendStep(s, pid)
    case Lookup(pid) =>
      var id := s.procs[pid].pc.id;
      SetPc(s, pid, if id in s.items then AtSnapshot(id) else WaitDone(id, WaitNotFound))
    case Snap(pid) => SnapStep(s, pid)
    case ReceiveBranch(pid) => ReceiveStep(s, pid)
    case TimerBranch(pid) =>
      SetPc(s, pid, AtLock(s.procs[pid].pc.id, Decision(Expire, "", "", Some(s.now)), ToWait))
    case CancelBranch(pid) => SetPc(s, pid, WaitDone(s.procs[pid].pc.id, Cancelled))
    case ActOnDecision(pid) => ActStep(s, pid)
  }

  function Exec(s: Sys, acts: seq<Action>): Sys
    decreases |acts|
  {
    if acts == [] then s else Exec(Step(s, acts[0]), acts[1..])
  }

  // ---------------------------------------------------------------- what a step can touch

  predicate Creates(a: Action) {
    a.StartTool? || a.CreateDirect?
  }

  /** Steps on the manager's map or a channel. */
  predicate Writes(a: Action) {
    a.Lock? || a.Send? || a.ReceiveBranch?
  }

  /** From `s` to `t` only process `pid` has moved or come, and no tool run is forgotten. */
  predicate OnlyMoved(s: Sys, t: Sys, pid: nat) {
    pid in t.procs && t.procs == s.procs[pid := t.procs[pid]] && s.ran <= t.ran
  }

  lemma LockMoves(s: Sys, pid: nat)
    requires Enabled(s, Lock(pid))
    ensures OnlyMoved(s, LockStep(s, pid), pid)
  {
    hide Locked;
  }

  lemma SendMoves(s: Sys, pid: nat)
    requires Enabled(s, Send(pid))
    ensures OnlyMoved(s, SendStep(s, pid), pid)
  {
    hide Sent;
  }

  lemma ReceiveMoves(s: Sys, pid: nat)
    requires Enabled(s, ReceiveBranch(pid))
    ensures OnlyMoved(s, ReceiveStep(s, pid), pid)
  {
    hide Received;
  }

  lemma SnapMoves(s: Sys, pid: nat)
    requires Enabled(s, Snap(pid))
    ensures var t := SnapStep(s, pid); OnlyMoved(s, t, pid) && t.items == s.items && t.sends == s.sends
  {
  }

  lemma ActMoves(s: Sys, pid: nat)
    requires Enabled(s, ActOnDecision(pid))
    ensures var t := ActStep(s, pid); OnlyMoved(s, t, pid) && t.items == s.items && t.sends == s.sends
  {
  }

  lemma StartToolMoves(s: Sys, pid: nat, call: Request, managed: bool, id: string)
    requires Enabled(s, StartTool(pid, call, managed, id))
    ensures OnlyMoved(s, StartToolStep(s, pid, call, managed, id), pid)
  {
    hide NewApproval;
  }

  lemma StartDecideMoves(s: Sys, pid: nat, id: string, d: Decision)
    requires pid !in s.procs
    ensures var t := StartDecideStep(s, pid, id, d); OnlyMoved(s, t, pid) && t.items == s.items && t.sends == s.sends
  {
    hide Normalized;
  }

  lemma StepMoves(s: Sys, a: Action)
    requires Enabled(s, a) && !a.Tick? && !a.CreateDirect?
    ensures OnlyMoved(s, Step(s, a), a.pid)
    ensures !Creates(a) && !Writes(a) ==> Step(s, a).items == s.items && Step(s, a).sends == s.sends
  {
    hide LockStep, SendStep, ReceiveStep, SnapStep, ActStep, StartToolStep, StartDecideStep, OnlyMoved;
    match a
    case StartDecide(pid, id, d) => StartDecideMoves(s, pid, id, d);
    case StartTool(pid, call, managed, id) => StartToolMoves(s, pid, call, managed, id);
    case Lock(pid) => LockMoves(s, pid);
    case Send(pid) => SendMoves(s, pid);
    case ReceiveBranch(pid) => ReceiveMoves(s, pid);
    case Snap(pid) => SnapMoves(s, pid);
    case ActOnDecision(pid) => ActMoves(s, pid);
    case _ => PlainMoves(s, a);
  }

  lemma PlainMoves(s: Sys, a: Action)
    requires Enabled(s, a) && (a.StartWait? || a.Lookup? || a.TimerBranch? || a.CancelBranch?)
    ensures OnlyMoved(s, Step(s, a), a.pid) && Step(s, a).items == s.items && Step(s, a).sends == s.sends
  {
  }

  // ---------------------------------------------------------------- the invariant

  /** The channel's story for one decided approval: its writer is still on the way to the send, or the
      one send has happened and carried the recorded decision. */
  predicate DecidedOk(s: Sys, id: string)
    requires id in s.items && id in s.sends
  {
    var d := DecisionOf(s.items[id].approval);
    var w := id in s.writer && s.writer[id] in s.procs && s.procs[s.writer[id]].pc.AtSend?
        && s.procs[s.writer[id]].pc.id == id;
    && id in s.writer
    && ((w && s.procs[s.writer[id]].pc.d == d && s.items[id].chan == None && s.sends[id] == [])
        || (s.sends[id] == [d] && (s.items[id].chan == None || s.items[id].chan == Some(d))))
  }

  predicate ItemOk(s: Sys, id: string)
    requires id in s.items
  {
    var a := s.items[id].approval;
    && a.id == id && a.hash == ActionHash(a.req)
    && id in s.sends
    && if a.status == Pending
       then a.at == None && a.reason == "" && a.decider == "" && s.items[id].chan == None && s.sends[id] == []
       else DecidedOk(s, id)
  }

  predicate Decisive(v: Verdict) {
    v == Approve || v == Reject || v == Expire
  }

  predicate PcOk(s: Sys, pid: nat, pc: Pc) {
    match pc
    case AtLock(id, d, after) => Decisive(d.verdict) && (after == ToWait ==> d.verdict == Expire && id in s.items)
    case AtSend(id, d, after) =>
      && Decisive(d.verdict) && (after == ToWait ==> d.verdict == Expire)
      && id in s.items && s.items[id].approval.status != Pending
      && id in s.writer && s.writer[id] == pid && id in s.sends && s.sends[id] == []
    case AtSnapshot(id) => id in s.items
    case InSelect(id, expiresAt) => id in s.items && expiresAt == s.items[id].approval.expiresAt
    case WaitDone(id, Got(d, via)) =>
      if via == FromTimer then d.verdict == Expire
      else id in s.items && s.items[id].approval.status != Pending && d == DecisionOf(s.items[id].approval)
    case _ => true
  }

  function PcId(pc: Pc): Option<string> {
    match pc
    case ToolRan => None
    case ToolBlocked => None
    case _ => Some(pc.id)
  }

  /** The approval a gate waits for is the one it created for its call. */
  predicate MadeFor(s: Sys, id: string, pid: nat, call: Request) {
    && call.action != "" && id in s.items && s.items[id].approval.req == call
    && id in s.maker && s.maker[id] == pid
  }

  predicate ProcOk(s: Sys, pid: nat)
    requires pid in s.procs
  {
    var p := s.procs[pid];
    && PcOk(s, pid, p.pc)
    && (p.role.Gate? && PcId(p.pc).Some? ==> MadeFor(s, PcId(p.pc).value, pid, p.role.call))
  }

  predicate ExecutionOk(s: Sys, e: Execution) {
    match e.approval
    case None => !e.managed || e.call.action == ""
    case Some(id) => e.managed && MadeFor(s, id, e.pid, e.call) && s.items[id].approval.status == Approved
  }

  ghost predicate Inv(s: Sys) {
    && (forall id :: id in s.items ==> ItemOk(s, id))
    && (forall pid :: pid in s.procs ==> ProcOk(s, pid))
    && (forall i :: 0 <= i < |s.ran| ==> ExecutionOk(s, s.ran[i]))
    && s.lost == 0
  }

  /** What a step can do to the past: tool runs stay, no approval disappears, what Create wrote stays,
      and a decided record stays as it is. */
  ghost predicate Grows(s: Sys, t: Sys) {
    && s.ran <= t.ran
    && forall id :: id in s.items ==>
      && id in t.items
      && t.items[id].approval.req == s.items[id].approval.req
      && t.items[id].approval.hash == s.items[id].approval.hash
      && t.items[id].approval.createdAt == s.items[id].approval.createdAt
      && t.items[id].approval.expiresAt == s.items[id].approval.expiresAt
      && (s.items[id].approval.status != Pending ==> t.items[id].approval == s.items[id].approval)
  }

  // ---------------------------------------------------------------- every step keeps it

  /** Starting a process or moving one that is not about to send, nothing else changing. */
  lemma PutProcKeepsInv(s: Sys, pid: nat, p: Proc)
    requires Inv(s)
    requires pid in s.procs ==> !s.procs[pid].pc.AtSend?
    requires ProcOk(s.(procs := s.procs[pid := p]), pid)
    ensures Inv(s.(procs := s.procs[pid := p]))
  {
    var t := s.(procs := s.procs[pid := p]);
    forall id | id in t.items ensures ItemOk(t, id) {
      assert ItemOk(s, id);
    }
    forall q | q in t.procs ensures ProcOk(t, q) {
      if q != pid {
        assert ProcOk(s, q);
      }
    }
    forall i | 0 <= i < |t.ran| ensures ExecutionOk(t, t.ran[i]) {
      assert ExecutionOk(s, s.ran[i]);
    }
  }

  lemma WithApprovalItem(s: Sys, id: string, req: Request, x: string)
    requires id !in s.items && (x == id || (x in s.items && ItemOk(s, x)))
    ensures x in WithApproval(s, id, req).items && ItemOk(WithApproval(s, id, req), x)
  {
  }

  lemma WithApprovalProc(s: Sys, id: string, req: Request, q: nat)
    requires id !in s.items && q in s.procs && ProcOk(s, q)
    ensures q in WithApproval(s, id, req).procs && ProcOk(WithApproval(s, id, req), q)
  {
  }

  lemma WithApprovalRun(s: Sys, id: string, req: Request, e: Execution)
    requires id !in s.items && ExecutionOk(s, e)
    ensures ExecutionOk(WithApproval(s, id, req), e)
  {
  }

  lemma WithApprovalKeepsInv(s: Sys, id: string, req: Request)
    requires Inv(s) && id !in s.items
    ensures Inv(WithApproval(s, id, req))
  {
    hide ItemOk, ProcOk, ExecutionOk;
    var t := WithApproval(s, id, req);
    forall x | x in t.items ensures ItemOk(t, x) {
      WithApprovalItem(s, id, req, x);
    }
    forall q | q in t.procs ensures ProcOk(t, q) {
      WithApprovalProc(s, id, req, q);
    }
    forall i | 0 <= i < |t.ran| ensures ExecutionOk(t, t.ran[i]) {
      WithApprovalRun(s, id, req, s.ran[i]);
    }
  }

  lemma MakerKeepsInv(s: Sys, id: string, pid: nat)
    requires Inv(s)
    requires forall q :: q in s.procs && s.procs[q].role.Gate? ==> PcId(s.procs[q].pc) != Some(id)
    requires forall i :: 0 <= i < |s.ran| ==> s.ran[i].approval != Some(id)
    ensures Inv(s.(maker := s.maker[id := pid]))
  {
    var t := s.(maker := s.maker[id := pid]);
    forall x | x in t.items ensures ItemOk(t, x) {
      assert ItemOk(s, x);
    }
    forall q | q in t.procs ensures ProcOk(t, q) {
      assert ProcOk(s, q);
    }
    forall i | 0 <= i < |t.ran| ensures ExecutionOk(t, t.ran[i]) {
      assert ExecutionOk(s, s.ran[i]);
    }
  }

  lemma NobodyWaitsFor(s: Sys, id: string)
    requires Inv(s) && id !in s.items
    ensures forall q :: q in s.procs && s.procs[q].role.Gate? ==> PcId(s.procs[q].pc) != Some(id)
    ensures forall i :: 0 <= i < |s.ran| ==> s.ran[i].approval != Some(id)
  {
    hide ItemOk, PcOk;
    forall q | q in s.procs && s.procs[q].role.Gate? ensures PcId(s.procs[q].pc) != Some(id) {
      assert ProcOk(s, q);
    }
    forall i | 0 <= i < |s.ran| ensures s.ran[i].approval != Some(id) {
      assert ExecutionOk(s, s.ran[i]);
    }
  }

  lemma RunAtOnceKeepsInv(s: Sys, pid: nat, call: Request, managed: bool)
    requires Inv(s) && pid !in s.procs && (!managed || call.action == "")
    ensures Inv(s.(procs := s.procs[pid := Proc(Gate(call), ToolRan)],
                   ran := s.ran + [Execution(pid, call, managed, None)]))
  {
    hide Inv;
    PutProcKeepsInv(s, pid, Proc(Gate(call), ToolRan));
    AppendRunKeepsInv(s.(procs := s.procs[pid := Proc(Gate(call), ToolRan)]), Execution(pid, call, managed, None));
  }

  lemma AskFirstKeepsInv(s: Sys, pid: nat, call: Request, id: string)
    requires Inv(s) && pid !in s.procs && id !in s.items && call.action != ""
    ensures Inv(WithApproval(s, id, call).(procs := s.procs[pid := Proc(Gate(call), AtLookup(id))],
                                           maker := s.maker[id := pid]))
  {
    hide Inv;
    NobodyWaitsFor(s, id);
    WithApprovalKeepsInv(s, id, call);
    var t := WithApproval(s, id, call);
    MakerKeepsInv(t, id, pid);
    PutProcKeepsInv(t.(maker := t.maker[id := pid]), pid, Proc(Gate(call), AtLookup(id)));
  }

  lemma StartToolKeepsInv(s: Sys, pid: nat, call: Request, managed: bool, id: string)
    requires Inv(s) && Enabled(s, StartTool(pid, call, managed, id))
    ensures Inv(StartToolStep(s, pid, call, managed, id))
  {
    hide Inv, NewApproval;
    if !managed || call.action == "" {
      RunAtOnceKeepsInv(s, pid, call, managed);
    } else {
      AskFirstKeepsInv(s, pid, call, id);
    }
  }

  lemma AppendRunKeepsInv(s: Sys, e: Execution)
    requires Inv(s) && ExecutionOk(s, e)
    ensures Inv(s.(ran := s.ran + [e]))
  {
    var t := s.(ran := s.ran + [e]);
    forall x | x in t.items ensures ItemOk(t, x) {
      assert ItemOk(s, x);
    }
    forall q | q in t.procs ensures ProcOk(t, q) {
      assert ProcOk(s, q);
    }
    forall i | 0 <= i < |t.ran| ensures ExecutionOk(t, t.ran[i]) {
      if i < |s.ran| {
        assert ExecutionOk(s, s.ran[i]);
      }
    }
  }

  lemma LockKeepsInv(s: Sys, pid: nat)
    requires Inv(s) && Enabled(s, Lock(pid))
    ensures Inv(LockStep(s, pid))
  {
    assert ProcOk(s, pid);
    var AtLock(id, d, after) := s.procs[pid].pc;
    if SetResultOf(s.items, id) == Written {
      WriteKeepsInv(s, pid);
    } else {
      var r := SetResultOf(s.items, id);
      PutProcKeepsInv(s, pid, s.procs[pid].(pc := Returned(id, d, after, r)));
    }
  }

  /** A Lock that finds its approval pending. */
  predicate FindsPending(s: Sys, pid: nat) {
    Enabled(s, Lock(pid)) && SetResultOf(s.items, s.procs[pid].pc.id) == Written
  }

  lemma WriteItem(s: Sys, pid: nat, x: string)
    requires FindsPending(s, pid) && ProcOk(s, pid) && x in s.items && ItemOk(s, x)
    ensures x in LockStep(s, pid).items && ItemOk(LockStep(s, pid), x)
  {
    var AtLock(id, d, after) := s.procs[pid].pc;
    RecordRoundTrip(s.items[id].approval, d);
  }

  lemma WriteProc(s: Sys, pid: nat, q: nat)
    requires FindsPending(s, pid) && ProcOk(s, pid) && q in s.procs && ProcOk(s, q)
    requires ItemOk(s, s.procs[pid].pc.id)
    ensures q in LockStep(s, pid).procs && ProcOk(LockStep(s, pid), q)
  {
  }

  lemma WriteRun(s: Sys, pid: nat, i: nat)
    requires FindsPending(s, pid) && i < |s.ran| && ExecutionOk(s, s.ran[i])
    ensures ExecutionOk(LockStep(s, pid), s.ran[i])
  {
  }

  lemma WriteFrame(s: Sys, pid: nat)
    requires FindsPending(s, pid)
    ensures var t := LockStep(s, pid);
            t.items.Keys == s.items.Keys && t.procs.Keys == s.procs.Keys && t.ran == s.ran && t.lost == s.lost
  {
  }

  lemma WriteKeepsInv(s: Sys, pid: nat)
    requires Inv(s) && FindsPending(s, pid)
    ensures Inv(LockStep(s, pid))
  {
    hide ItemOk, ProcOk, ExecutionOk, LockStep;
    var t := LockStep(s, pid);
    assert ProcOk(s, pid) && ItemOk(s, s.procs[pid].pc.id);
    WriteFrame(s, pid);
    forall x | x in t.items ensures ItemOk(t, x) {
      WriteItem(s, pid, x);
    }
    forall q | q in t.procs ensures ProcOk(t, q) {
      WriteProc(s, pid, q);
    }
    forall i | 0 <= i < |t.ran| ensures ExecutionOk(t, t.ran[i]) {
      WriteRun(s, pid, i);
    }
  }

  lemma SendItem(s: Sys, pid: nat, x: string)
    requires Enabled(s, Send(pid)) && ProcOk(s, pid) && x in s.items && ItemOk(s, x)
    ensures x in SendStep(s, pid).items && ItemOk(SendStep(s, pid), x)
  {
  }

  lemma SendProc(s: Sys, pid: nat, q: nat)
    requires Enabled(s, Send(pid)) && ProcOk(s, pid) && q in s.procs && ProcOk(s, q)
    requires ItemOk(s, s.procs[pid].pc.id)
    ensures q in SendStep(s, pid).procs && ProcOk(SendStep(s, pid), q)
  {
  }

  lemma SendRun(s: Sys, pid: nat, i: nat)
    requires Enabled(s, Send(pid)) && ProcOk(s, pid) && i < |s.ran| && ExecutionOk(s, s.ran[i])
    ensures ExecutionOk(SendStep(s, pid), s.ran[i])
  {
  }

  lemma SendFrame(s: Sys, pid: nat)
    requires Enabled(s, Send(pid)) && ProcOk(s, pid) && ItemOk(s, s.procs[pid].pc.id)
    ensures var t := SendStep(s, pid);
            t.items.Keys == s.items.Keys && t.procs.Keys == s.procs.Keys && t.ran == s.ran && t.lost == s.lost
  {
  }

  lemma SendKeepsInv(s: Sys, pid: nat)
    requires Inv(s) && Enabled(s, Send(pid))
    ensures Inv(SendStep(s, pid))
  {
    hide ItemOk, ProcOk, ExecutionOk, SendStep;
    var t := SendStep(s, pid);
    var id := s.procs[pid].pc.id;
    assert ProcOk(s, pid) && ItemOk(s, id);
    SendFrame(s, pid);
    forall x | x in t.items ensures ItemOk(t, x) {
      SendItem(s, pid, x);
    }
    forall q | q in t.procs ensures ProcOk(t, q) {
      SendProc(s, pid, q);
    }
    forall i | 0 <= i < |t.ran| ensures ExecutionOk(t, t.ran[i]) {
      SendRun(s, pid, i);
    }
  }

  lemma ReceiveItem(s: Sys, pid: nat, x: string)
    requires Enabled(s, ReceiveBranch(pid)) && ProcOk(s, pid) && x in s.items && ItemOk(s, x)
    ensures x in ReceiveStep(s, pid).items && ItemOk(ReceiveStep(s, pid), x)
  {
  }

  lemma ReceiveProc(s: Sys, pid: nat, q: nat)
    requires Enabled(s, ReceiveBranch(pid)) && ProcOk(s, pid) && q in s.procs && ProcOk(s, q)
    requires ItemOk(s, s.procs[pid].pc.id)
    ensures q in ReceiveStep(s, pid).procs && ProcOk(ReceiveStep(s, pid), q)
  {
  }

  lemma ReceiveRun(s: Sys, pid: nat, i: nat)
    requires Enabled(s, ReceiveBranch(pid)) && ProcOk(s, pid) && i < |s.ran| && ExecutionOk(s, s.ran[i])
    ensures ExecutionOk(ReceiveStep(s, pid), s.ran[i])
  {
  }

  lemma ReceiveFrame(s: Sys, pid: nat)
    requires Enabled(s, ReceiveBranch(pid)) && ProcOk(s, pid) && ItemOk(s, s.procs[pid].pc.id)
    ensures var t := ReceiveStep(s, pid);
            t.items.Keys == s.items.Keys && t.procs.Keys == s.procs.Keys && t.ran == s.ran && t.lost == s.lost
  {
  }

  lemma ReceiveKeepsInv(s: Sys, pid: nat)
    requires Inv(s) && Enabled(s, ReceiveBranch(pid))
    ensures Inv(ReceiveStep(s, pid))
  {
    hide ItemOk, ProcOk, ExecutionOk, ReceiveStep;
    var t := ReceiveStep(s, pid);
    var id := s.procs[pid].pc.id;
    assert ProcOk(s, pid) && ItemOk(s, id);
    ReceiveFrame(s, pid);
    forall x | x in t.items ensures ItemOk(t, x) {
      ReceiveItem(s, pid, x);
    }
    forall q | q in t.procs ensures ProcOk(t, q) {
      ReceiveProc(s, pid, q);
    }
    forall i | 0 <= i < |t.ran| ensures ExecutionOk(t, t.ran[i]) {
      ReceiveRun(s, pid, i);
    }
  }

  lemma ActKeepsInv(s: Sys, pid: nat)
    requires Inv(s) && Enabled(s, ActOnDecision(pid))
    ensures Inv(ActStep(s, pid))
  {
    InvProc(s, pid);
    hide Inv;
    var Proc(Gate(call), WaitDone(id, r)) := s.procs[pid];
    if r.Got? && r.d.verdict == Approve {
      RunApprovedKeepsInv(s, pid, call, id);
    } else {
      PutProcKeepsInv(s, pid, s.procs[pid].(pc := ToolBlocked));
    }
  }

  lemma RunApprovedKeepsInv(s: Sys, pid: nat, call: Request, id: string)
    requires Inv(s) && pid in s.procs && s.procs[pid].role == Gate(call) && !s.procs[pid].pc.AtSend?
    requires MadeFor(s, id, pid, call) && s.items[id].approval.status == Approved
    ensures Inv(s.(procs := s.procs[pid := s.procs[pid].(pc := ToolRan)],
                   ran := s.ran + [Execution(pid, call, true, Some(id))]))
  {
    hide Inv;
    var t := s.(ran := s.ran + [Execution(pid, call, true, Some(id))]);
    AppendRunKeepsInv(s, Execution(pid, call, true, Some(id)));
    PutProcKeepsInv(t, pid, s.procs[pid].(pc := ToolRan));
  }

  lemma TickKeepsInv(s: Sys, dt: real)
    requires Inv(s)
    ensures Inv(s.(now := s.now + dt))
  {
    var t := s.(now := s.now + dt);
    forall x | x in t.items ensures ItemOk(t, x) {
      assert ItemOk(s, x);
    }
    forall q | q in t.procs ensures ProcOk(t, q) {
      assert ProcOk(s, q);
    }
    forall i | 0 <= i < |t.ran| ensures ExecutionOk(t, t.ran[i]) {
      assert ExecutionOk(s, s.ran[i]);
    }
  }

  lemma StepKeepsInv(s: Sys, a: Action)
    requires Inv(s)
    ensures Inv(Step(s, a))
  {
    hide Inv;
    if Enabled(s, a) {
      match a
      case Tick(dt) => TickKeepsInv(s, dt);
      case CreateDirect(id, req) => WithApprovalKeepsInv(s, id, req);
      case StartTool(pid, call, managed, id) => StartToolKeepsInv(s, pid, call, managed, id);
      case Lock(pid) => LockKeepsInv(s, pid);
      case Send(pid) => SendKeepsInv(s, pid);
      case ReceiveBranch(pid) => ReceiveKeepsInv(s, pid);
      case ActOnDecision(pid) => ActKeepsInv(s, pid);
      case _ => LocalKeepsInv(s, a);
    }
  }

  /** The steps that only start or move their own process. */
  lemma LocalKeepsInv(s: Sys, a: Action)
    requires Inv(s) && Enabled(s, a)
    requires a.StartDecide? || a.StartWait? || a.Lookup? || a.Snap? || a.TimerBranch? || a.CancelBranch?
    ensures Inv(Step(s, a))
  {
    hide Inv;
    var pid := a.pid;
    if pid in s.procs {
      InvProc(s, pid);
    }
    if a.StartDecide? {
      var d := a.decision;
      PutProcKeepsInv(s, pid, Proc(Caller,
        if d.verdict != Approve && d.verdict != Reject then DecideDone(a.id, InvalidDecision)
        else AtLock(a.id, Normalized(d, s.now), ToDecide)));
    } else if a.StartWait? {
      PutProcKeepsInv(s, pid, Proc(Caller, AtLookup(a.id)));
    } else {
      MoveOk(s, a);
      PutProcKeepsInv(s, pid, Step(s, a).procs[pid]);
    }
  }

  lemma InvProc(s: Sys, pid: nat)
    requires Inv(s) && pid in s.procs
    ensures ProcOk(s, pid)
  {
  }

  lemma MoveOk(s: Sys, a: Action)
    requires Enabled(s, a) && (a.Lookup? || a.Snap? || a.TimerBranch? || a.CancelBranch?)
    requires ProcOk(s, a.pid)
    ensures a.pid in Step(s, a).procs
    ensures Step(s, a) == s.(procs := s.procs[a.pid := Step(s, a).procs[a.pid]])
    ensures ProcOk(Step(s, a), a.pid)
  {
    hide LockStep, SendStep, ReceiveStep, ActStep, StartToolStep, StartDecideStep;
  }

  lemma LockGrows(s: Sys, pid: nat)
    requires Enabled(s, Lock(pid))
    ensures Grows(s, LockStep(s, pid))
  {
  }

  lemma SendGrows(s: Sys, pid: nat)
    requires Enabled(s, Send(pid))
    ensures Grows(s, SendStep(s, pid))
  {
  }

  lemma ReceiveGrows(s: Sys, pid: nat)
    requires Enabled(s, ReceiveBranch(pid))
    ensures Grows(s, ReceiveStep(s, pid))
  {
  }

  lemma CreateGrows(s: Sys, a: Action)
    requires Enabled(s, a) && Creates(a)
    ensures Grows(s, Step(s, a))
  {
    hide NewApproval;
  }

  lemma StepGrows(s: Sys, a: Action)
    ensures Grows(s, Step(s, a))
  {
    if Enabled(s, a) {
      if Creates(a) {
        CreateGrows(s, a);
      } else if a.Lock? {
        LockGrows(s, a.pid);
      } else if a.Send? {
        SendGrows(s, a.pid);
      } else if a.ReceiveBranch? {
        ReceiveGrows(s, a.pid);
      } else if !a.Tick? {
        hide Step;
        StepMoves(s, a);
      }
    }
  }

  lemma InitInv(ttl: real)
    ensures Inv(Init(ttl))
  {
  }

  lemma {:induction false} ExecKeepsInv(s: Sys, acts: seq<Action>)
    requires Inv(s)
    ensures Inv(Exec(s, acts)) && Grows(s, Exec(s, acts))
    decreases |acts|
  {
    hide Inv, Step;
    if acts != [] {
      StepKeepsInv(s, acts[0]);
      StepGrows(s, acts[0]);
      ExecKeepsInv(Step(s, acts[0]), acts[1..]);
    }
  }

  // ---------------------------------------------------------------- what holds in every run

  /** The state after any interleaving of any number of calls, from a new manager. */
  function Reached(ttl: real, acts: seq<Action>): Sys {
    Exec(Init(ttl), acts)
  }

  lemma ReachedInv(ttl: real, acts: seq<Action>)
    ensures Inv(Reached(ttl, acts))
  {
    InitInv(ttl);
    ExecKeepsInv(Init(ttl), acts);
  }

  /** An approval leaves pending at most once: from the first decision on, nothing in its record changes. */
  lemma DecidedForever(ttl: real, acts: seq<Action>, more: seq<Action>, id: string)
    requires id in Reached(ttl, acts).items
    requires Reached(ttl, acts).items[id].approval.status != Pending
    ensures id in Exec(Reached(ttl, acts), more).items
    ensures Exec(Reached(ttl, acts), more).items[id].approval == Reached(ttl, acts).items[id].approval
  {
    hide Exec, Inv;
    ReachedInv(ttl, acts);
    ExecKeepsInv(Reached(ttl, acts), more);
  }

  /** At most one value ever enters an approval's channel, it is the recorded decision, and no send is
      ever lost: the default branch of setDecision's select is dead code. */
  lemma OneSendCarriesTheDecision(ttl: real, acts: seq<Action>, id: string)
    requires id in Reached(ttl, acts).items
    ensures var s := Reached(ttl, acts);
            && id in s.sends
            && (s.sends[id] == [] || s.sends[id] == [DecisionOf(s.items[id].approval)])
            && (s.sends[id] != [] ==> s.items[id].approval.status != Pending)
            && (s.items[id].chan.Some? ==> s.sends[id] == [s.items[id].chan.value])
    ensures Reached(ttl, acts).lost == 0
    ensures forall pid :: pid in Reached(ttl, acts).procs && IsSending(Reached(ttl, acts), pid, id) ==>
              Reached(ttl, acts).items[id].chan == None
    ensures Reached(ttl, acts).items[id].approval.status != Pending && Reached(ttl, acts).sends[id] == [] ==>
              exists pid :: pid in Reached(ttl, acts).procs && IsSending(Reached(ttl, acts), pid, id)
  {
    hide Exec;
    var s := Reached(ttl, acts);
    ReachedInv(ttl, acts);
    assert ItemOk(s, id);
    forall pid | pid in s.procs && IsSending(s, pid, id) ensures s.items[id].chan == None {
      assert ProcOk(s, pid);
    }
    assert id in s.writer ==> (IsSending(s, s.writer[id], id) || !IsSending(s, s.writer[id], id));
  }

  /** The process stands between the unlock and the send of setDecision. */
  predicate IsSending(s: Sys, pid: nat, id: string) {
    pid in s.procs && s.procs[pid].pc.AtSend? && s.procs[pid].pc.id == id
  }

  /** A decision that Wait took from the record or from the channel, and every approval or rejection
      it returns, is the stored one, then and for ever after. */
  lemma WaitReturnsTheStoredDecision(ttl: real, acts: seq<Action>, more: seq<Action>, pid: nat, id: string,
                                     d: Decision, via: Via)
    requires pid in Reached(ttl, acts).procs
    requires Reached(ttl, acts).procs[pid].pc == WaitDone(id, Got(d, via))
    requires via != FromTimer || d.verdict == Approve || d.verdict == Reject
    ensures var s := Exec(Reached(ttl, acts), more);
            id in s.items && DecisionOf(s.items[id].approval) == d
                && s.items[id].approval.status == StatusFor(d.verdict)
  {
    hide Exec;
    ReachedInv(ttl, acts);
    assert ProcOk(Reached(ttl, acts), pid);
    DecidedForever(ttl, acts, more, id);
  }

  /** A tool body runs only where its gate lets every call pass, or when the approval that this very call
      created is recorded as approved, with the hash of the call including its arguments, for ever after. */
  lemma ToolRunsOnlyApproved(ttl: real, acts: seq<Action>, more: seq<Action>, i: nat)
    requires i < |Reached(ttl, acts).ran|
    ensures var e := Reached(ttl, acts).ran[i];
            var s := Exec(Reached(ttl, acts), more);
            if !e.managed || e.call.action == "" then e.approval == None
            else
              && e.approval.Some?
              && var id := e.approval.value;
                 && id in s.items && s.items[id].approval.status == Approved
                 && s.items[id].approval.req == e.call
                 && (forall other: Request ::
                       s.items[id].approval.hash == ActionHash(other) <==> SameAction(e.call, other))
                 && id in s.maker && s.maker[id] == e.pid
  {
    hide Exec;
    var s := Reached(ttl, acts);
    ReachedInv(ttl, acts);
    assert ExecutionOk(s, s.ran[i]);
    ExecKeepsInv(s, more);
    var t := Exec(s, more);
    assert t.ran[i] == s.ran[i];
    assert ExecutionOk(t, t.ran[i]);
    if s.ran[i].approval.Some? {
      assert ItemOk(t, s.ran[i].approval.value);
    }
  }

  /** A process inside Wait, the further from its return the higher. */
  function Remaining(pc: Pc): nat {
    match pc
    case AtLookup(_) => 5
    case AtSnapshot(_) => 4
    case InSelect(_, _) => 3
    case AtLock(_, _, ToWait) => 2
    case AtSend(_, _, ToWait) => 1
    case _ => 0
  }

  /** Nothing but time and the process itself. */
  predicate OnlyOwn(acts: seq<Action>, pid: nat) {
    forall a :: a in acts ==>
      || a == Lookup(pid) || a == Snap(pid) || a == TimerBranch(pid) || a == Lock(pid) || a == Send(pid)
      || (a.Tick? && a.dt >= 0.0)
  }

  lemma OneAdvance(s: Sys, pid: nat) returns (acts: seq<Action>)
    requires Inv(s) && pid in s.procs && Remaining(s.procs[pid].pc) > 0
    ensures OnlyOwn(acts, pid) && pid in Exec(s, acts).procs
    ensures Remaining(Exec(s, acts).procs[pid].pc) < Remaining(s.procs[pid].pc)
    ensures Remaining(Exec(s, acts).procs[pid].pc) == 0 ==> Exec(s, acts).procs[pid].pc.WaitDone?
  {
    hide Exec, Step, Inv, ProcOk;
    InvProc(s, pid);
    var pc := s.procs[pid].pc;
    if pc.InSelect? {
      var wait := if pc.expiresAt > s.now then pc.expiresAt - s.now else 0.0;
      acts := [Tick(wait), TimerBranch(pid), Tick(0.0)];
      Exec3(s, acts[0], acts[1], acts[2]);
      SelectAdvances(s, pid, wait);
    } else {
      var a := OwnStep(pid, pc);
      acts := [a, Tick(0.0), Tick(0.0)];
      Exec3(s, a, acts[1], acts[2]);
      OwnStepAdvances(s, pid);
      TickMovesNobody(Step(s, a));
      TickMovesNobody(Step(Step(s, a), Tick(0.0)));
    }
  }

  function OwnStep(pid: nat, pc: Pc): Action {
    if pc.AtLookup? then Lookup(pid)
    else if pc.AtSnapshot? then Snap(pid)
    else if pc.AtLock? then Lock(pid)
    else Send(pid)
  }

  lemma TickMovesNobody(s: Sys)
    ensures Step(s, Tick(0.0)).procs == s.procs
  {
  }

  lemma OwnStepAdvances(s: Sys, pid: nat)
    requires pid in s.procs && ProcOk(s, pid)
    requires Remaining(s.procs[pid].pc) > 0 && !s.procs[pid].pc.InSelect?
    ensures var t := Step(s, OwnStep(pid, s.procs[pid].pc));
            && pid in t.procs && Remaining(t.procs[pid].pc) < Remaining(s.procs[pid].pc)
            && (Remaining(t.procs[pid].pc) == 0 ==> t.procs[pid].pc.WaitDone?)
  {
    hide Step;
    var pc := s.procs[pid].pc;
    if pc.AtLookup? || pc.AtSnapshot? {
      ReadAdvances(s, pid);
    } else {
      WriteAdvances(s, pid);
    }
  }

  lemma ReadAdvances(s: Sys, pid: nat)
    requires pid in s.procs && ProcOk(s, pid) && (s.procs[pid].pc.AtLookup? || s.procs[pid].pc.AtSnapshot?)
    ensures var t := Step(s, OwnStep(pid, s.procs[pid].pc));
            && pid in t.procs && Remaining(t.procs[pid].pc) < Remaining(s.procs[pid].pc)
            && (Remaining(t.procs[pid].pc) == 0 ==> t.procs[pid].pc.WaitDone?)
  {
  }

  lemma WriteAdvances(s: Sys, pid: nat)
    requires pid in s.procs && ProcOk(s, pid)
    requires s.procs[pid].pc.AtLock? || s.procs[pid].pc.AtSend?
    requires s.procs[pid].pc.after == ToWait
    ensures var t := Step(s, OwnStep(pid, s.procs[pid].pc));
            && pid in t.procs && Remaining(t.procs[pid].pc) < Remaining(s.procs[pid].pc)
            && (Remaining(t.procs[pid].pc) == 0 ==> t.procs[pid].pc.WaitDone?)
  {
    hide Locked, Sent;
  }

  lemma SelectAdvances(s: Sys, pid: nat, wait: real)
    requires pid in s.procs && s.procs[pid].pc.InSelect? && wait >= 0.0 && s.now + wait >= s.procs[pid].pc.expiresAt
    ensures var t := Step(Step(Step(s, Tick(wait)), TimerBranch(pid)), Tick(0.0));
            pid in t.procs && Remaining(t.procs[pid].pc) == 2
  {
  }

  /** No Wait is ever stuck: from every reachable state it can return by its own steps and the clock
      alone, whatever the other callers did or fail to do. */
  lemma WaitCanAlwaysReturn(ttl: real, acts: seq<Action>, pid: nat)
    requires pid in Reached(ttl, acts).procs && Remaining(Reached(ttl, acts).procs[pid].pc) > 0
    ensures exists own :: OnlyOwn(own, pid) && pid in Exec(Reached(ttl, acts), own).procs
                          && Exec(Reached(ttl, acts), own).procs[pid].pc.WaitDone?
  {
    hide Exec;
    ReachedInv(ttl, acts);
    var own := FinishWait(Reached(ttl, acts), pid);
  }

  lemma {:induction false} FinishWait(s: Sys, pid: nat) returns (own: seq<Action>)
    requires Inv(s) && pid in s.procs && Remaining(s.procs[pid].pc) > 0
    ensures OnlyOwn(own, pid) && pid in Exec(s, own).procs && Exec(s, own).procs[pid].pc.WaitDone?
    decreases Remaining(s.procs[pid].pc)
  {
    hide Exec, Inv;
    own := OneAdvance(s, pid);
    var t := Exec(s, own);
    if Remaining(t.procs[pid].pc) > 0 {
      ExecKeepsInv(s, own);
      var rest := FinishWait(t, pid);
      ExecAppend(s, own, rest);
      own := own + rest;
    }
  }

  /** Wait's timer branch always answers "expire" and ignores setDecision's error. The stored status is
      then, and stays, expired exactly when no approval or rejection had been written before its turn. */
  lemma TimerExpiresIffUndecided(ttl: real, acts: seq<Action>, more: seq<Action>, pid: nat, id: string, d: Decision)
    requires pid in Reached(ttl, acts).procs
    requires Reached(ttl, acts).procs[pid].pc == AtLock(id, d, ToWait)
    ensures var s := Reached(ttl, acts);
            && id in s.items
            && var t := Exec(Step(s, Lock(pid)), more);
               id in t.items && (t.items[id].approval.status == Expired <==>
                                   s.items[id].approval.status != Approved && s.items[id].approval.status != Rejected)
  {
    hide Exec, Inv, Step, Reached;
    var s := Reached(ttl, acts);
    ReachedInv(ttl, acts);
    InvProc(s, pid);
    LockDecides(s, pid, id, d);
    StepKeepsInv(s, Lock(pid));
    ExecKeepsInv(Step(s, Lock(pid)), more);
  }

  lemma LockDecides(s: Sys, pid: nat, id: string, d: Decision)
    requires pid in s.procs && ProcOk(s, pid) && s.procs[pid].pc == AtLock(id, d, ToWait)
    ensures var t := Step(s, Lock(pid));
            && id in s.items && id in t.items && t.items[id].approval.status != Pending
            && t.items[id].approval.status == if s.items[id].approval.status == Pending then Expired
                else s.items[id].approval.status
  {
  }

  lemma ExecCons(s: Sys, a: Action, rest: seq<Action>)
    ensures Exec(s, [a] + rest) == Exec(Step(s, a), rest)
  {
    hide Step;
    assert ([a] + rest)[1..] == rest;
  }

  lemma {:induction false} ExecAppend(s: Sys, a: seq<Action>, b: seq<Action>)
    ensures Exec(s, a + b) == Exec(Exec(s, a), b)
    decreases |a|
  {
    hide Step;
    if a == [] {
      assert a + b == b;
    } else {
      ExecAppend(Step(s, a[0]), a[1..], b);
      assert (a + b)[1..] == a[1..] + b;
    }
  }

  lemma Exec3(s: Sys, a: Action, b: Action, c: Action)
    ensures Exec(s, [a, b, c]) == Step(Step(Step(s, a), b), c)
  {
    hide Step;
    assert [a, b, c] == [a] + [b, c] && [b, c] == [b] + [c] && [c] == [c] + [];
    ExecCons(s, a, [b, c]);
    ExecCons(Step(s, a), b, [c]);
    ExecCons(Step(Step(s, a), b), c, []);
  }

  const SAMPLE: Request := Request(1, "u", "s", "chat_stream", "delete_document", "delete_document", "{}", "")
  const YES: Decision := Decision(Approve, "u", "", None)

  /** What both sample runs look at: the approval, three processes and the clock. */
  predicate Looks(s: Sys, e: Entry, one: Pc, two: Option<Pc>, three: Option<Pc>, now: real) {
    && "a" in s.items && s.items["a"] == e && "a" in s.sends
    && 1 in s.procs && s.procs[1].pc == one
    && (if two == None then 2 !in s.procs else 2 in s.procs && s.procs[2] == Proc(Caller, two.value))
    && (if three == None then 3 !in s.procs else 3 in s.procs && s.procs[3] == Proc(Caller, three.value))
    && s.now == now
  }

  function SampleEntry(at: Option<real>, chan: Option<Decision>): Entry {
    var a := NewApproval("a", SAMPLE, 0.0, 300.0);
    Entry(if at == None then a else Record(a, YES.(at := at), Approved), chan)
  }

  /** Two Waits on one approval, made by processes 1 and 2, and the one Decide of process 3. */
  function Disagreement(): seq<Action> {
    [CreateDirect("a", SAMPLE), StartWait(1, "a"), StartWait(2, "a")]
    + [Lookup(1), Lookup(2), Snap(1)]
    + [Snap(2), StartDecide(3, "a", YES), Lock(3)]
    + [Send(3), ReceiveBranch(1), Tick(300.0)]
    + [TimerBranch(2), Lock(2), Tick(0.0)]
  }

  /** They can return different decisions: both are in their select when the approval is given, the
      first takes the value from the channel, and only the timer is left for the second. */
  lemma TwoWaitsCanDisagree()
    ensures var s := Reached(300.0, Disagreement());
            && 1 in s.procs && s.procs[1].pc == WaitDone("a", Got(YES.(at := Some(0.0)), FromChannel))
            && 2 in s.procs && s.procs[2].pc == WaitDone("a", Got(Decision(Expire, "", "", Some(300.0)), FromTimer))
            && "a" in s.items && s.items["a"].approval.status == Approved
  {
    hide Exec, Step, Looks;
    var s0 := Init(300.0);
    var e0, e1 := SampleEntry(None, None), SampleEntry(Some(0.0), None);
    var d := YES.(at := Some(0.0));
    var sel := InSelect("a", 300.0);
    var s1 := Step(Step(Step(s0, CreateDirect("a", SAMPLE)), StartWait(1, "a")), StartWait(2, "a"));
    assert Looks(s1, e0, AtLookup("a"), Some(AtLookup("a")), None, 0.0) by { Disagree1(); }
    var s2 := Step(Step(Step(s1, Lookup(1)), Lookup(2)), Snap(1));
    Disagree2(s1);
    var s3 := Step(Step(Step(s2, Snap(2)), StartDecide(3, "a", YES)), Lock(3));
    Disagree3(s2);
    var s4 := Step(Step(Step(s3, Send(3)), ReceiveBranch(1)), Tick(300.0));
    Disagree4(s3);
    var s5 := Step(Step(Step(s4, TimerBranch(2)), Lock(2)), Tick(0.0));
    Disagree5(s4);
    FiveBatches(s0, [CreateDirect("a", SAMPLE), StartWait(1, "a"), StartWait(2, "a")], [Lookup(1), Lookup(2), Snap(1)],
                [Snap(2), StartDecide(3, "a", YES), Lock(3)], [Send(3), ReceiveBranch(1), Tick(300.0)],
                [TimerBranch(2), Lock(2), Tick(0.0)]);
  }

  lemma Disagree1()
    ensures var s := Step(Step(Step(Init(300.0), CreateDirect("a", SAMPLE)), StartWait(1, "a")), StartWait(2, "a"));
            Looks(s, SampleEntry(None, None), AtLookup("a"), Some(AtLookup("a")), None, 0.0)
  {
    hide LockStep, SendStep, ReceiveStep, SnapStep, ActStep, StartToolStep, StartDecideStep;
  }

  lemma Disagree2(s: Sys)
    requires Looks(s, SampleEntry(None, None), AtLookup("a"), Some(AtLookup("a")), None, 0.0)
    ensures Looks(Step(Step(Step(s, Lookup(1)), Lookup(2)), Snap(1)), SampleEntry(None, None),
                  InSelect("a", 300.0), Some(AtSnapshot("a")), None, 0.0)
  {
    hide LockStep, SendStep, ReceiveStep, ActStep, StartToolStep, StartDecideStep;
  }

  lemma Disagree3(s: Sys)
    requires Looks(s, SampleEntry(None, None), InSelect("a", 300.0), Some(AtSnapshot("a")), None, 0.0)
    ensures Looks(Step(Step(Step(s, Snap(2)), StartDecide(3, "a", YES)), Lock(3)), SampleEntry(Some(0.0), None),
                  InSelect("a", 300.0), Some(InSelect("a", 300.0)),
                  Some(AtSend("a", YES.(at := Some(0.0)), ToDecide)), 0.0)
  {
    hide SendStep, ReceiveStep, ActStep, StartToolStep;
  }

  lemma Disagree4(s: Sys)
    requires Looks(s, SampleEntry(Some(0.0), None), InSelect("a", 300.0), Some(InSelect("a", 300.0)),
                   Some(AtSend("a", YES.(at := Some(0.0)), ToDecide)), 0.0)
    ensures Looks(Step(Step(Step(s, Send(3)), ReceiveBranch(1)), Tick(300.0)), SampleEntry(Some(0.0), None),
                  WaitDone("a", Got(YES.(at := Some(0.0)), FromChannel)), Some(InSelect("a", 300.0)),
                  Some(DecideDone("a", Written)), 300.0)
  {
    hide Step;
    Disagree4Send(s);
    Disagree4Receive(Step(s, Send(3)));
  }

  lemma Disagree4Send(s: Sys)
    requires Looks(s, SampleEntry(Some(0.0), None), InSelect("a", 300.0), Some(InSelect("a", 300.0)),
                   Some(AtSend("a", YES.(at := Some(0.0)), ToDecide)), 0.0)
    ensures Looks(Step(s, Send(3)), SampleEntry(Some(0.0), Some(YES.(at := Some(0.0)))), InSelect("a", 300.0),
                  Some(InSelect("a", 300.0)), Some(DecideDone("a", Written)), 0.0)
  {
    hide LockStep, ReceiveStep, SnapStep, ActStep, StartToolStep, StartDecideStep;
  }

  lemma Disagree4Receive(s: Sys)
    requires Looks(s, SampleEntry(Some(0.0), Some(YES.(at := Some(0.0)))), InSelect("a", 300.0),
                   Some(InSelect("a", 300.0)), Some(DecideDone("a", Written)), 0.0)
    ensures Looks(Step(Step(s, ReceiveBranch(1)), Tick(300.0)), SampleEntry(Some(0.0), None),
                  WaitDone("a", Got(YES.(at := Some(0.0)), FromChannel)), Some(InSelect("a", 300.0)),
                  Some(DecideDone("a", Written)), 300.0)
  {
    hide LockStep, SendStep, SnapStep, ActStep, StartToolStep, StartDecideStep;
  }

  lemma Disagree5(s: Sys)
    requires Looks(s, SampleEntry(Some(0.0), None), WaitDone("a", Got(YES.(at := Some(0.0)), FromChannel)),
                   Some(InSelect("a", 300.0)), Some(DecideDone("a", Written)), 300.0)
    ensures var t := Step(Step(Step(s, TimerBranch(2)), Lock(2)), Tick(0.0));
            && 1 in t.procs && t.procs[1].pc == WaitDone("a", Got(YES.(at := Some(0.0)), FromChannel))
            && 2 in t.procs && t.procs[2].pc == WaitDone("a", Got(Decision(Expire, "", "", Some(300.0)), FromTimer))
            && "a" in t.items && t.items["a"].approval.status == Approved
  {
    hide SendStep, ReceiveStep, SnapStep, ActStep, StartToolStep, StartDecideStep;
  }

  lemma FiveBatches(s: Sys, a: seq<Action>, b: seq<Action>, c: seq<Action>, d: seq<Action>, e: seq<Action>)
    requires |a| == |b| == |c| == |d| == |e| == 3
    ensures Exec(s, a + b + c + d + e) ==
            var s1 := Step(Step(Step(s, a[0]), a[1]), a[2]);
            var s2 := Step(Step(Step(s1, b[0]), b[1]), b[2]);
            var s3 := Step(Step(Step(s2, c[0]), c[1]), c[2]);
            var s4 := Step(Step(Step(s3, d[0]), d[1]), d[2]);
            Step(Step(Step(s4, e[0]), e[1]), e[2])
  {
    hide Exec, Step;
    ExecAppend(s, a + b + c + d, e);
    ExecAppend(s, a + b + c, d);
    ExecAppend(s, a + b, c);
    ExecAppend(s, a, b);
    assert a == [a[0], a[1], a[2]] && b == [b[0], b[1], b[2]] && c == [c[0], c[1], c[2]];
    assert d == [d[0], d[1], d[2]] && e == [e[0], e[1], e[2]];
    Exec3(s, a[0], a[1], a[2]);
    Exec3(Exec(s, a), b[0], b[1], b[2]);
    Exec3(Exec(s, a + b), c[0], c[1], c[2]);
    Exec3(Exec(s, a + b + c), d[0], d[1], d[2]);
    Exec3(Exec(s, a + b + c + d), e[0], e[1], e[2]);
  }
}
