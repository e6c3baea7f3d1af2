/** The approval manager (internal/approval/manager.go), one atomic section at a time. */
module Approval {
  import opened Wrappers

  datatype Status = Pending | Approved | Rejected | Expired

  datatype Verdict = Approve | Reject | Expire | Other(text: string)

  /** A time of None is Go's zero time. */
  datatype Decision = Decision(verdict: Verdict, decider: string, reason: string, at: Option<real>)

  datatype Request = Request(tenant: int, user: string, session: string, source: string, action: string,
                             toolName: string, toolInput: string, reason: string)

  /** SHA-256 of the JSON of these six fields, taken to be injective. */
  datatype Hash = Hash(tenant: int, user: string, source: string, action: string, toolName: string, toolInput: string)

  datatype Approval = Approval(id: string, req: Request, hash: Hash, createdAt: real, expiresAt: real,
                               status: Status, at: Option<real>, reason: string, decider: string)

  /** One approvalState: the record and its channel of capacity one. */
  datatype Entry = Entry(approval: Approval, chan: Option<Decision>)

  datatype CreateResult = Created(approval: Approval) | ActionRequired

  datatype SetResult = Written | NotFound | AlreadyDecided | InvalidDecision

  datatype Validation = ActionMatches | NoSuchApproval | WrongStatus(status: Status) | PastExpiry | WrongAction

  function ActionHash(req: Request): Hash {
    Hash(req.tenant, req.user, req.source, req.action, req.toolName, req.toolInput)
  }

  /** Two requests for the same action: by the same user of the same tenant, from the same source, with the same
      tool and the same arguments. */
  predicate SameAction(a: Request, b: Request) {
    && a.tenant == b.tenant && a.user == b.user && a.source == b.source
    && a.action == b.action && a.toolName == b.toolName && a.toolInput == b.toolInput
  }

  /** The hash tells two requests apart exactly when one of these six fields differs. */
  lemma HashIffSameAction(a: Request, b: Request)
    ensures ActionHash(a) == ActionHash(b) <==>
            && a.tenant == b.tenant && a.user == b.user && a.source == b.source
            && a.action == b.action && a.toolName == b.toolName && a.toolInput == b.toolInput
    ensures ActionHash(a) == ActionHash(b) <==> SameAction(a, b)
  {
  }

  /** Session and stated reason do not matter; the arguments do. */
  lemma OtherInputOtherHash(req: Request, session: string, reason: string, toolInput: string)
    ensures ActionHash(req.(session := session, reason := reason)) == ActionHash(req)
    ensures toolInput != req.toolInput ==> ActionHash(req.(toolInput := toolInput)) != ActionHash(req)
  {
  }

  function NewApproval(id: string, req: Request, now: real, ttl: real): Approval {
    Approval(id, req, ActionHash(req), now, now + ttl, Pending, None, "", "")
  }

  /** What the locked part of setDecision writes. */
  function Record(a: Approval, d: Decision, status: Status): Approval {
    a.(status := status, at := d.at, reason := d.reason, decider := d.decider)
  }

  function StatusFor(v: Verdict): Status {
    match v
    case Approve => Approved
    case Reject => Rejected
    case Expire => Expired
    case Other(_) => Pending
  }

  /** decisionFromApproval. */
  function DecisionOf(a: Approval): Decision {
    var verdict := match a.status
      case Approved => Approve
      case Rejected => Reject
      case Expired => Expire
      case Pending => Other("");
    Decision(verdict, a.decider, a.reason, a.at)
  }

  function SetResultOf(items: map<string, Entry>, id: string): SetResult {
    if id !in items then NotFound
    else if items[id].approval.status != Pending then AlreadyDecided
    else Written
  }

  function Locked(items: map<string, Entry>, id: string, d: Decision, status: Status): map<string, Entry> {
    if SetResultOf(items, id) != Written then items
    else items[id := items[id].(approval := Record(items[id].approval, d, status))]
  }

  /** The non-blocking send: lost when the channel is full. */
  function Sent(items: map<string, Entry>, id: string, d: Decision): map<string, Entry>
    requires id in items
  {
    if items[id].chan == None then items[id := items[id].(chan := Some(d))] else items
  }

  function Received(items: map<string, Entry>, id: string): map<string, Entry>
    requires id in items
  {
    items[id := items[id].(chan := None)]
  }

  /** Decide's own checks and defaults, before it calls setDecision. */
  function Normalized(d: Decision, now: real): Decision {
    if d.at == None then d.(at := Some(now)) else d
  }

  /** A decision taken back from the record is the one written into it. */
  lemma RecordRoundTrip(a: Approval, d: Decision)
    requires d.verdict == Approve || d.verdict == Reject || d.verdict == Expire
    ensures DecisionOf(Record(a, d, StatusFor(d.verdict))) == d
    ensures Record(a, d, StatusFor(d.verdict)).req == a.req && Record(a, d, StatusFor(d.verdict)).hash == a.hash
    ensures var r := Record(a, d, StatusFor(d.verdict));
            r.id == a.id && r.createdAt == a.createdAt && r.expiresAt == a.expiresAt
    ensures StatusFor(d.verdict) == Approved <==> d.verdict == Approve
    ensures StatusFor(d.verdict) == Rejected <==> d.verdict == Reject
  {
  }

  class Manager {
    const ttl: real
    var items: map<string, Entry>

    /** Every record is filed under its id and carries the hash of the request it was made for. */
    ghost predicate Valid()
      reads this
    {
      forall id :: id in items ==>
                     items[id].approval.id == id && items[id].approval.hash == ActionHash(items[id].approval.req)
    }

    constructor (ttl: real)
      ensures Valid() && items == map[]
      ensures this.ttl > 0.0 && (ttl > 0.0 ==> this.ttl == ttl) && (ttl <= 0.0 ==> this.ttl == 300.0)
    {
      this.ttl := if ttl <= 0.0 then 300.0 else ttl;
      items := map[];
    }

    /** `id` is the UUID drawn for the new approval. */
    method Create(req: Request, id: string, now: real) returns (r: CreateResult)
      requires Valid() && id !in items
      modifies this`items
      ensures Valid()
      ensures req.action == "" ==> r == ActionRequired && items == old(items)
      ensures req.action != "" ==>
                && r == Created(NewApproval(id, req, now, ttl))
                && items == old(items)[id := Entry(r.approval, None)]
      ensures r.Created? ==>
                && r.approval.req == req && r.approval.id == id && r.approval.status == Pending
                && r.approval.createdAt == now && r.approval.expiresAt == now + ttl
      ensures forall other: Request :: r.Created? ==>
                (r.approval.hash == ActionHash(other) <==> SameAction(req, other))
    {
      if req.action == "" {
        return ActionRequired;
      }
      var approval := NewApproval(id, req, now, ttl);
      items := items[id := Entry(approval, None)];
      return Created(approval);
    }

    /** setDecision up to the unlock. */
    method SetDecisionLocked(id: string, d: Decision, status: Status) returns (r: SetResult)
      requires Valid()
      modifies this`items
      ensures Valid()
      ensures r == SetResultOf(old(items), id)
      ensures items == Locked(old(items), id, d, status)
    {
      if id !in items {
        return NotFound;
      }
      if items[id].approval.status != Pending {
        return AlreadyDecided;
      }
      var approval := items[id].approval;
      approval := approval.(status := status);
      approval := approval.(at := d.at);
      approval := approval.(reason := d.reason);
      approval := approval.(decider := d.decider);
      items := items[id := items[id].(approval := approval)];
      return Written;
    }

    /** setDecision's select after the unlock. */
    method SetDecisionSend(id: string, d: Decision) returns (sent: bool)
      requires Valid() && id in items
      modifies this`items
      ensures Valid()
      ensures items == Sent(old(items), id, d)
      ensures sent <==> old(items)[id].chan == None
    {
      if items[id].chan == None {
        items := items[id := items[id].(chan := Some(d))];
        return true;
      }
      return false;
    }

    /** Decide when nobody else runs between the two parts of setDecision. */
    method Decide(id: string, decision: Decision, now: real) returns (r: SetResult)
      requires Valid()
      modifies this`items
      ensures Valid()
      ensures decision.verdict != Approve && decision.verdict != Reject ==>
                r == InvalidDecision && items == old(items)
      ensures decision.verdict == Approve || decision.verdict == Reject ==>
                var d := Normalized(decision, now);
                && r == SetResultOf(old(items), id)
                && items == if r != Written then old(items)
                            else Sent(Locked(old(items), id, d, StatusFor(d.verdict)), id, d)
      ensures r == Written ==>
                && id in old(items) && old(items)[id].approval.status == Pending
                && items.Keys == old(items).Keys
                && var a := items[id].approval;
                   && a.status == (if decision.verdict == Approve then Approved else Rejected)
                   && a.at == Some(if decision.at.Some? then decision.at.value else now)
                   && a.reason == decision.reason && a.decider == decision.decider
                   && a.req == old(items)[id].approval.req
    {
      if decision.verdict != Approve && decision.verdict != Reject {
        return InvalidDecision;
      }
      var d := decision;
      if d.at == None {
        d := d.(at := Some(now));
      }
      var status := Approved;
      if d.verdict == Reject {
        status := Rejected;
      }
      r := SetDecisionLocked(id, d, status);
      if r == Written {
        var _ := SetDecisionSend(id, d);
      }
    }

    /** Wait's snapshot: the recorded decision, if the approval is no longer pending. */
    method Snapshot(id: string) returns (decided: Option<Decision>)
      requires id in items
      ensures items[id].approval.status == Pending ==> decided == None
      ensures items[id].approval.status != Pending ==> decided == Some(DecisionOf(items[id].approval))
    {
      var approval := items[id].approval;
      if approval.status != Pending {
        return Some(DecisionOf(approval));
      }
      return None;
    }

    /** Wait's receive branch, possible only while the channel holds a value. */
    method Receive(id: string) returns (d: Decision)
      requires Valid() && id in items && items[id].chan.Some?
      modifies this`items
      ensures Valid()
      ensures Some(d) == old(items)[id].chan
      ensures items == Received(old(items), id)
    {
      d := items[id].chan.value;
      items := items[id := items[id].(chan := None)];
    }

    /** Approved is only what was asked for: the same tool with the same arguments, by the same user. */
    method ValidateApproved(id: string, req: Request, now: real) returns (v: Validation)
      requires Valid()
      ensures v == ActionMatches <==>
                && id in items
                && items[id].approval.status == Approved
                && now <= items[id].approval.expiresAt
                && SameAction(items[id].approval.req, req)
      ensures id !in items ==> v == NoSuchApproval
      ensures id in items && items[id].approval.status != Approved ==> v == WrongStatus(items[id].approval.status)
      ensures id in items && items[id].approval.status == Approved ==>
                (v == PastExpiry <==> now > items[id].approval.expiresAt)
      ensures id in items && items[id].approval.status == Approved && now <= items[id].approval.expiresAt ==>
                (v == WrongAction <==> !SameAction(items[id].approval.req, req))
    {
      if id !in items {
        return NoSuchApproval;
      }
      var approval := items[id].approval;
      if approval.status != Approved {
        return WrongStatus(approval.status);
      }
      if now > approval.expiresAt {
        return PastExpiry;
      }
      if approval.hash != ActionHash(req) {
        return WrongAction;
      }
      return ActionMatches;
    }
  }
}
