/** Upgrade proposals: approved by a threshold of listed approvers, executed after a delay. */
module Governance {
  import opened Common
  import opened Ledger

  datatype Role = Admin | Approver | Executor

  datatype Status = Pending | Approved | Rejected | Executed | Cancelled

  datatype Proposal = Proposal(
    proposer: Address, threshold: nat, approvers: seq<Address>, approvalsCount: nat,
    status: Status, createdAt: nat, executionTime: nat, executed: bool)

  /** An approval is recorded under the proposal and the approver. */
  datatype State = State(
    roles: map<Address, Role>, counter: nat, proposals: map<nat, Proposal>, approvals: set<(nat, Address)>)

  datatype Error =
    | Unauthorized | InvalidProposal | TimelockNotExpired | ProposalNotApproved
    | InvalidThreshold | DuplicateApproval | ProposalNotFound | Aborted

  datatype Call =
    | Propose(proposer: Address, threshold: nat, approvers: seq<Address>, delay: nat)
    | Approve(id: nat, approver: Address)
    | Enact(id: nat, executor: Address)
    | Reject(id: nat, rejector: Address)
    | Cancel(id: nat, admin: Address)
    /** The embedding contract's own handling of roles. */
    | SetRoles(roles: map<Address, Role>)

  type TimedCall = Timed<Call>

  /** Lower ranks may do what higher ones may. */
  function Rank(role: Role): nat {
    match role
    case Admin => 0
    case Approver => 1
    case Executor => 2
  }

  /** Anyone without a recorded role counts as an executor. */
  predicate HasRole(s: State, who: Address, required: Role) {
    Rank(if who in s.roles then s.roles[who] else Executor) <= Rank(required)
  }

  function DoPropose(s: State, now: nat, c: Call): Result<State, Error>
    requires c.Propose?
  {
    if !HasRole(s, c.proposer, Admin) then Failure(Aborted)
    else if c.threshold == 0 || c.threshold > |c.approvers| then Failure(InvalidThreshold)
    else if s.counter + 1 >= U64 || now + c.delay >= U64 then Failure(Aborted)
    else
      var p := Proposal(c.proposer, c.threshold, c.approvers, 0, Pending, now, now + c.delay, false);
      Success(s.(counter := s.counter + 1, proposals := s.proposals[s.counter + 1 := p]))
  }

  function DoApprove(s: State, id: nat, approver: Address): Result<State, Error> {
    if !HasRole(s, approver, Approver) then Failure(Aborted)
    else if id !in s.proposals then Failure(ProposalNotFound)
    else
      var p := s.proposals[id];
      if p.status != Pending then Failure(InvalidProposal)
      else if approver !in p.approvers then Failure(Unauthorized)
      else if (id, approver) in s.approvals then Failure(DuplicateApproval)
      else
        var count := p.approvalsCount + 1;
        var status := if count >= p.threshold then Approved else p.status;
        Success(s.(approvals := s.approvals + {(id, approver)},
                   proposals := s.proposals[id := p.(approvalsCount := count, status := status)]))
  }

  function DoEnact(s: State, now: nat, id: nat, executor: Address): Result<State, Error> {
    if !HasRole(s, executor, Executor) then Failure(Aborted)
    else if id !in s.proposals then Failure(ProposalNotFound)
    else
      var p := s.proposals[id];
      if p.status != Approved then Failure(ProposalNotApproved)
      else if now < p.executionTime then Failure(TimelockNotExpired)
      else Success(s.(proposals := s.proposals[id := p.(executed := true, status := Executed)]))
  }

  function DoReject(s: State, id: nat, rejector: Address): Result<State, Error> {
    if !HasRole(s, rejector, Approver) then Failure(Aborted)
    else if id !in s.proposals then Failure(ProposalNotFound)
    else if s.proposals[id].status != Pending then Failure(InvalidProposal)
    else Success(s.(proposals := s.proposals[id := s.proposals[id].(status := Rejected)]))
  }

  /** Only execution stands in the way of a cancellation. */
  function DoCancel(s: State, id: nat, admin: Address): Result<State, Error> {
    if !HasRole(s, admin, Admin) then Failure(Aborted)
    else if id !in s.proposals then Failure(ProposalNotFound)
    else if s.proposals[id].executed then Failure(InvalidProposal)
    else Success(s.(proposals := s.proposals[id := s.proposals[id].(status := Cancelled)]))
  }

  function Execute(s: State, e: TimedCall): Result<State, Error> {
    match e.call
    case Propose(_, _, _, _) => DoPropose(s, e.now, e.call)
    case Approve(id, approver) => DoApprove(s, id, approver)
    case Enact(id, executor) => DoEnact(s, e.now, id, executor)
    case Reject(id, rejector) => DoReject(s, id, rejector)
    case Cancel(id, admin) => DoCancel(s, id, admin)
    case SetRoles(roles) => Success(s.(roles := roles))
  }

  function Step(s: State, e: TimedCall): State {
    if Execute(s, e).Success? then Execute(s, e).value else s
  }

  function Run(s: State, calls: seq<TimedCall>): State
    decreases |calls|
  {
    if calls == [] then s else Step(Run(s, calls[..|calls| - 1]), calls[|calls| - 1])
  }

  // ---------------------------------------------------------------- who may do what

  /** Anyone may act as executor, approvers are the recorded approvers and admins, and only a recorded
      admin acts as admin. */
  lemma RolesAreNested(s: State, who: Address)
    ensures HasRole(s, who, Executor)
    ensures HasRole(s, who, Approver) <==> who in s.roles && (s.roles[who] == Approver || s.roles[who] == Admin)
    ensures HasRole(s, who, Admin) <==> who in s.roles && s.roles[who] == Admin
  {
  }

  predicate OpenProposal(p: Proposal, now: nat, c: Call)
    requires c.Propose?
  {
    && p.status.Pending? && p.approvalsCount == 0 && !p.executed
    && p.threshold == c.threshold && p.approvers == c.approvers
    && p.createdAt == now && p.executionTime == now + c.delay
  }

  /** An admin's proposal is accepted exactly when its threshold is between one and the length of its
      list and neither counter nor clock overflows; it opens pending, with no approval, under the next
      number. */
  lemma ProposalIsAcceptedIff(s: State, now: nat, c: Call)
    requires c.Propose? && HasRole(s, c.proposer, Admin)
    ensures DoPropose(s, now, c).Success? <==>
      1 <= c.threshold <= |c.approvers| && s.counter + 1 < U64 && now + c.delay < U64
    ensures DoPropose(s, now, c).Success? ==>
      var after := DoPropose(s, now, c).value;
      && after.counter == s.counter + 1 && after.counter in after.proposals
      && after.proposals - {after.counter} == s.proposals - {after.counter}
      && OpenProposal(after.proposals[after.counter], now, c)
      && after.approvals == s.approvals && after.roles == s.roles
  {
  }

  /** An approved proposal can be executed by anyone from its execution time on, and by nobody before. */
  lemma ExecutableIff(s: State, now: nat, id: nat, executor: Address)
    ensures DoEnact(s, now, id, executor).Success? <==>
      id in s.proposals && s.proposals[id].status.Approved? && s.proposals[id].executionTime <= now
  {
    RolesAreNested(s, executor);
  }

  /** An approval is accepted exactly from a listed approver with at least an approver's role who has not approved
      before, while the proposal is pending; it adds the approver to the record and one to the count, and the proposal
      is approved from the threshold on. */
  lemma ApprovableIff(s: State, id: nat, approver: Address)
    ensures DoApprove(s, id, approver).Success? <==>
      && approver in s.roles && s.roles[approver] != Executor
      && id in s.proposals && s.proposals[id].status.Pending?
      && approver in s.proposals[id].approvers && (id, approver) !in s.approvals
    ensures DoApprove(s, id, approver).Success? ==>
      var t, p := DoApprove(s, id, approver).value, s.proposals[id];
      && t.approvals == s.approvals + {(id, approver)} && t.counter == s.counter && t.roles == s.roles
      && id in t.proposals && t.proposals - {id} == s.proposals - {id}
      && t.proposals[id].approvalsCount == p.approvalsCount + 1
      && (t.proposals[id].status.Approved? <==> p.approvalsCount + 1 >= p.threshold)
  {
    RolesAreNested(s, approver);
  }

  /** A rejection is accepted exactly from an approver or admin while the proposal is pending, a cancellation exactly
      from an admin while it is not executed. */
  lemma ClosableIff(s: State, id: nat, who: Address)
    ensures DoReject(s, id, who).Success? <==>
      who in s.roles && s.roles[who] != Executor && id in s.proposals && s.proposals[id].status.Pending?
    ensures DoCancel(s, id, who).Success? <==>
      who in s.roles && s.roles[who] == Admin && id in s.proposals && !s.proposals[id].executed
  {
    RolesAreNested(s, who);
  }

  // ---------------------------------------------------------------- what every state keeps

  function RecordedApprovers(approvals: set<(nat, Address)>, id: nat): set<Address> {
    set entry <- approvals | entry.0 == id :: entry.1
  }

  lemma OneMoreApprover(approvals: set<(nat, Address)>, id: nat, approver: Address, other: nat)
    requires (id, approver) !in approvals
    ensures var after := RecordedApprovers(approvals + {(id, approver)}, other);
      && after == RecordedApprovers(approvals, other) + (if other == id then {approver} else {})
      && |after| == |RecordedApprovers(approvals, other)| + (if other == id then 1 else 0)
  {
    var before, after := RecordedApprovers(approvals, other), RecordedApprovers(approvals + {(id, approver)}, other);
    forall a: Address
      ensures a in after <==> a in before || (other == id && a == approver)
    {
      assert a in before <==> (other, a) in approvals;
      assert a in after <==> (other, a) in approvals + {(id, approver)};
    }
    if other == id {
      assert approver !in before by { assert approver in before <==> (other, approver) in approvals; }
      assert after == before + {approver};
    } else {
      assert after == before;
    }
  }

  function Different(list: seq<Address>): set<Address> {
    set a <- list
  }

  /** The count is the number of different approvers on record, all of them listed; a pending proposal
      is short of its threshold and an approved or executed one is exactly at it. */
  ghost predicate Sound(p: Proposal, recorded: set<Address>) {
    && 1 <= p.threshold <= |p.approvers|
    && recorded <= Different(p.approvers)
    && p.approvalsCount == |recorded| <= p.threshold
    && (p.status.Pending? ==> p.approvalsCount < p.threshold)
    && (p.status.Approved? || p.status.Executed? ==> p.approvalsCount == p.threshold)
    && (p.executed <==> p.status.Executed?)
    && p.createdAt <= p.executionTime
  }

  ghost predicate AllSound(s: State) {
    && (forall id <- s.proposals :: id <= s.counter && Sound(s.proposals[id], RecordedApprovers(s.approvals, id)))
    && (forall entry <- s.approvals :: entry.0 in s.proposals)
  }

  lemma ProposeKeepsSound(s: State, now: nat, c: Call)
    requires AllSound(s) && c.Propose? && DoPropose(s, now, c).Success?
    ensures AllSound(DoPropose(s, now, c).value)
  {
    var id := s.counter + 1;
    assert RecordedApprovers(s.approvals, id) == {};
  }

  lemma ApproveKeepsSound(s: State, id: nat, approver: Address)
    requires AllSound(s) && DoApprove(s, id, approver).Success?
    ensures AllSound(DoApprove(s, id, approver).value)
  {
    hide RecordedApprovers;
    var after := DoApprove(s, id, approver).value;
    forall other <- after.proposals
      ensures other <= after.counter && Sound(after.proposals[other], RecordedApprovers(after.approvals, other))
    {
      OneMoreApprover(s.approvals, id, approver, other);
    }
  }

  lemma NewStatusKeepsSound(s: State, id: nat, status: Status)
    requires AllSound(s) && id in s.proposals && MayBecome(s.proposals[id].status, status)
    requires status.Rejected? || status.Cancelled? || (status.Executed? && s.proposals[id].status.Approved?)
    ensures var p := s.proposals[id].(status := status, executed := status.Executed?);
      AllSound(s.(proposals := s.proposals[id := p]))
  {
    hide RecordedApprovers, Different;
  }

  lemma OtherStepsKeepSound(s: State, e: TimedCall)
    requires AllSound(s) && Execute(s, e).Success? && !e.call.Propose? && !e.call.Approve?
    ensures AllSound(Step(s, e))
  {
    hide RecordedApprovers, Different, HasRole;
    match e.call {
      case Enact(id, _) => NewStatusKeepsSound(s, id, Executed);
      case Reject(id, _) => NewStatusKeepsSound(s, id, Rejected);
      case Cancel(id, _) => NewStatusKeepsSound(s, id, Cancelled);
      case SetRoles(_) =>
    }
  }

  /** In every reachable state every proposal is sound. */
  lemma {:induction false} RunKeepsSound(s: State, calls: seq<TimedCall>)
    requires AllSound(s)
    ensures AllSound(Run(s, calls))
    decreases |calls|
  {
    hide AllSound, DoApprove, DoPropose, DoEnact, DoReject, DoCancel;
    if calls != [] {
      var m, last := Run(s, calls[..|calls| - 1]), calls[|calls| - 1];
      RunKeepsSound(s, calls[..|calls| - 1]);
      if Execute(m, last).Success? {
        match last.call {
          case Propose(_, _, _, _) => ProposeKeepsSound(m, last.now, last.call);
          case Approve(id, approver) => ApproveKeepsSound(m, id, approver);
          case _ => OtherStepsKeepSound(m, last);
        }
      }
    }
  }

  lemma StartIsSound(roles: map<Address, Role>)
    ensures AllSound(State(roles, 0, map[], {}))
  {
  }

  lemma Cardinality(a: set<Address>, b: set<Address>)
    requires a <= b
    ensures |a| <= |b|
  {
    if a == {} {
    } else {
      var x :| x in a;
      Cardinality(a - {x}, b - {x});
    }
  }

  /** The threshold is checked against the length of the list, repeats included. A list naming fewer
      different approvers than the threshold can therefore never be approved. */
  lemma ApprovalNeedsDistinctApprovers(s: State, calls: seq<TimedCall>, id: nat)
    requires AllSound(s) && id in Run(s, calls).proposals
    ensures var p := Run(s, calls).proposals[id];
      p.status.Approved? || p.status.Executed? ==> p.threshold <= |Different(p.approvers)|
  {
    hide Run, RecordedApprovers, Different;
    RunKeepsSound(s, calls);
    var m := Run(s, calls);
    Cardinality(RecordedApprovers(m.approvals, id), Different(m.proposals[id].approvers));
  }

  // ---------------------------------------------------------------- what a proposal's life looks like

  /** Statuses a proposal may still reach. */
  predicate MayBecome(from: Status, to: Status) {
    from == to
    || match from
       case Pending => true
       case Approved => to.Executed? || to.Cancelled?
       case Rejected => to.Cancelled?
       case Executed => false
       case Cancelled => false
  }

  /** How a proposal may change. */
  predicate Follows(p: Proposal, q: Proposal) {
    && MayBecome(p.status, q.status)
    && q.proposer == p.proposer && q.threshold == p.threshold && q.approvers == p.approvers
    && q.createdAt == p.createdAt && q.executionTime == p.executionTime
    && p.approvalsCount <= q.approvalsCount
  }

  lemma StepFollows(s: State, e: TimedCall, id: nat)
    requires AllSound(s) && id in s.proposals
    ensures id in Step(s, e).proposals && Follows(s.proposals[id], Step(s, e).proposals[id])
  {
    hide RecordedApprovers, Different, HasRole;
    assert Sound(s.proposals[id], RecordedApprovers(s.approvals, id));
    hide AllSound;
  }

  /** What it takes to bring a proposal to a status: the right call by someone with the right role. */
  predicate Causes(s: State, e: TimedCall, id: nat, status: Status)
    requires id in s.proposals
  {
    var p := s.proposals[id];
    match status
    case Pending => false
    case Approved =>
      && e.call.Approve? && e.call.id == id && p.status.Pending?
      && e.call.approver in p.approvers && HasRole(s, e.call.approver, Approver)
      && p.approvalsCount + 1 == p.threshold
    case Rejected => e.call.Reject? && e.call.id == id && p.status.Pending? && HasRole(s, e.call.rejector, Approver)
    case Executed => e.call.Enact? && e.call.id == id && p.status.Approved? && e.now >= p.executionTime
    case Cancelled => e.call.Cancel? && e.call.id == id && !p.executed && HasRole(s, e.call.admin, Admin)
  }

  /** No status changes in any other way. */
  lemma StatusHasCause(s: State, e: TimedCall, id: nat)
    requires AllSound(s) && id in s.proposals
    ensures id in Step(s, e).proposals
    ensures Step(s, e).proposals[id].status != s.proposals[id].status ==>
      Causes(s, e, id, Step(s, e).proposals[id].status)
  {
    hide RecordedApprovers, Different, HasRole;
    assert Sound(s.proposals[id], RecordedApprovers(s.approvals, id));
    assert id <= s.counter;
    hide AllSound;
  }

  /** Terms never change; an executed proposal stays executed, a rejected one can only be cancelled, a
      cancelled one stays so: neither is ever approved or executed. */
  lemma {:induction false} LifeOfAProposal(s: State, calls: seq<TimedCall>, id: nat)
    requires AllSound(s) && id in s.proposals
    ensures id in Run(s, calls).proposals && Follows(s.proposals[id], Run(s, calls).proposals[id])
    decreases |calls|
  {
    hide AllSound, Step;
    if calls != [] {
      var front := calls[..|calls| - 1];
      LifeOfAProposal(s, front, id);
      RunKeepsSound(s, front);
      StepFollows(Run(s, front), calls[|calls| - 1], id);
    }
  }

  /** Call k of the run executed the proposal, once approved and its delay over. */
  ghost predicate ExecutedBy(s: State, calls: seq<TimedCall>, id: nat, k: nat) {
    && k < |calls| && calls[k].call.Enact? && calls[k].call.id == id
    && var before := Run(s, calls[..k]);
       id in before.proposals && before.proposals[id].status.Approved? && calls[k].now >= before.proposals[id].executionTime
  }

  /** Whatever is executed in a run was executed by a call that came no sooner than its creation plus
      its delay, when it held exactly its threshold of approvals. */
  lemma {:induction false} ExecutionWaits(s: State, calls: seq<TimedCall>, id: nat)
    requires AllSound(s) && id in Run(s, calls).proposals && Run(s, calls).proposals[id].status.Executed?
    requires id in s.proposals ==> !s.proposals[id].status.Executed?
    ensures exists k: nat :: ExecutedBy(s, calls, id, k)
    decreases |calls|
  {
    hide AllSound, Step, ExecutedBy;
    var n := |calls| - 1;
    var front := calls[..n];
    var m := Run(s, front);
    RunKeepsSound(s, front);
    if id in m.proposals && m.proposals[id].status.Executed? {
      ExecutionWaits(s, front, id);
      var k: nat :| ExecutedBy(s, front, id, k);
      ExecutedEarlier(s, calls, id, k);
    } else if id in m.proposals {
      StatusHasCause(m, calls[n], id);
      ExecutedLast(s, calls, id);
    } else {
      NewProposalsArePending(m, calls[n], id);
      assert false;
    }
  }

  lemma ExecutedEarlier(s: State, calls: seq<TimedCall>, id: nat, k: nat)
    requires calls != [] && ExecutedBy(s, calls[..|calls| - 1], id, k)
    ensures ExecutedBy(s, calls, id, k)
  {
    hide Run;
    assert calls[..|calls| - 1][..k] == calls[..k];
  }

  lemma ExecutedLast(s: State, calls: seq<TimedCall>, id: nat)
    requires calls != [] && id in Run(s, calls[..|calls| - 1]).proposals
    requires Causes(Run(s, calls[..|calls| - 1]), calls[|calls| - 1], id, Executed)
    ensures ExecutedBy(s, calls, id, |calls| - 1)
  {
    hide Run;
  }

  lemma NewProposalsArePending(s: State, e: TimedCall, id: nat)
    requires id !in s.proposals && id in Step(s, e).proposals
    ensures Step(s, e).proposals[id].status.Pending?
  {
  }

  // ---------------------------------------------------------------- where proposals come from

  predicate Proposes(s: State, e: TimedCall) {
    e.call.Propose? && Execute(s, e).Success?
  }

  /** Proposals accepted in a run. */
  function ProposalCount(s: State, calls: seq<TimedCall>): nat
    decreases |calls|
  {
    if calls == [] then 0
    else
      var front, last := calls[..|calls| - 1], calls[|calls| - 1];
      ProposalCount(s, front) + (if Proposes(Run(s, front), last) then 1 else 0)
  }

  /** Call k of the run made the proposal, as its proposals numbered from one, and its terms are the call's. */
  ghost predicate ProposedBy(s: State, calls: seq<TimedCall>, id: nat, p: Proposal, k: nat) {
    && k < |calls| && Proposes(Run(s, calls[..k]), calls[k])
    && id == ProposalCount(s, calls[..k]) + 1
    && var c := calls[k].call;
       && HasRole(Run(s, calls[..k]), c.proposer, Admin) && p.proposer == c.proposer
       && p.threshold == c.threshold && p.approvers == c.approvers
       && p.createdAt == calls[k].now && p.executionTime == calls[k].now + c.delay
  }

  lemma StepProposes(s: State, e: TimedCall, id: nat)
    requires AllSound(s)
    ensures Step(s, e).counter == s.counter + (if Proposes(s, e) then 1 else 0)
    ensures id in Step(s, e).proposals <==> id in s.proposals || (Proposes(s, e) && id == s.counter + 1)
    ensures id in Step(s, e).proposals && id !in s.proposals ==>
      && OpenProposal(Step(s, e).proposals[id], e.now, e.call)
      && HasRole(s, e.call.proposer, Admin) && Step(s, e).proposals[id].proposer == e.call.proposer
  {
    hide RecordedApprovers, Different, HasRole, Sound;
    if e.call.Propose? && HasRole(s, e.call.proposer, Admin) {
      ProposalIsAcceptedIff(s, e.now, e.call);
    }
  }

  lemma ProposedEarlier(s: State, calls: seq<TimedCall>, id: nat, p: Proposal, q: Proposal, k: nat)
    requires calls != [] && ProposedBy(s, calls[..|calls| - 1], id, p, k) && Follows(p, q)
    ensures ProposedBy(s, calls, id, q, k)
  {
    hide Run, ProposalCount;
    assert calls[..|calls| - 1][..k] == calls[..k];
  }

  /** In every run from deployment the proposals are numbered one to their count, without gaps, each made by
      the admin's call with that number, whose terms it still has. */
  lemma {:induction false} ProposalsAreNumbered(roles: map<Address, Role>, calls: seq<TimedCall>, id: nat)
    ensures var s := State(roles, 0, map[], {});
      var t := Run(s, calls);
      && t.counter == ProposalCount(s, calls)
      && (id in t.proposals <==> 1 <= id <= ProposalCount(s, calls))
      && (id in t.proposals ==> exists k: nat :: ProposedBy(s, calls, id, t.proposals[id], k))
    decreases |calls|
  {
    hide Step, AllSound, Proposes, ProposedBy;
    var s := State(roles, 0, map[], {});
    if calls != [] {
      var n := |calls| - 1;
      var front := calls[..n];
      var m, t := Run(s, front), Run(s, calls);
      ProposalsAreNumbered(roles, front, id);
      StartIsSound(roles);
      RunKeepsSound(s, front);
      StepProposes(m, calls[n], id);
      if id in m.proposals {
        var k: nat :| ProposedBy(s, front, id, m.proposals[id], k);
        StepFollows(m, calls[n], id);
        ProposedEarlier(s, calls, id, m.proposals[id], t.proposals[id], k);
      } else if id in t.proposals {
        ProposedLast(s, calls, id, t.proposals[id]);
      }
    }
  }

  lemma ProposedLast(s: State, calls: seq<TimedCall>, id: nat, p: Proposal)
    requires calls != [] && Proposes(Run(s, calls[..|calls| - 1]), calls[|calls| - 1])
    requires id == ProposalCount(s, calls[..|calls| - 1]) + 1
    requires OpenProposal(p, calls[|calls| - 1].now, calls[|calls| - 1].call)
    requires HasRole(Run(s, calls[..|calls| - 1]), calls[|calls| - 1].call.proposer, Admin)
    requires p.proposer == calls[|calls| - 1].call.proposer
    ensures ProposedBy(s, calls, id, p, |calls| - 1)
  {
    hide Run, ProposalCount, Execute, HasRole;
  }

  /** The same calls on the stored proposals. */
  class Manager {
    var roles: map<Address, Role>
    var counter: nat
    var proposals: map<nat, Proposal>
    var approvals: set<(nat, Address)>

    ghost function Stored(): State
      reads this
    {
      State(roles, counter, proposals, approvals)
    }

    constructor (roles: map<Address, Role>)
      ensures Stored() == State(roles, 0, map[], {})
    {
      this.roles, counter, proposals, approvals := roles, 0, map[], {};
    }

    /** The storage after a call is the specification's on success and untouched on failure. */
    ghost predicate Did(spec: Result<State, Error>, before: State, error: Option<Error>)
      reads this
    {
      match spec
      case Success(after) => Stored() == after && error.None?
      case Failure(e) => Stored() == before && error == Some(e)
    }

    method ProposeUpgrade(proposer: Address, threshold: nat, approvers: seq<Address>, delay: nat, now: nat)
      returns (id: nat, error: Option<Error>)
      modifies this
      ensures Did(DoPropose(old(Stored()), now, Propose(proposer, threshold, approvers, delay)), old(Stored()), error)
      ensures error.None? ==> id == old(counter) + 1
    {
      id := 0;
      if Rank(if proposer in roles then roles[proposer] else Executor) > Rank(Admin) {
        return id, Some(Aborted);
      }
      if threshold == 0 || threshold > |approvers| {
        return id, Some(InvalidThreshold);
      }
      if counter + 1 >= U64 || now + delay >= U64 {
        return id, Some(Aborted);
      }
      id := counter + 1;
      proposals := proposals[id := Proposal(proposer, threshold, approvers, 0, Pending, now, now + delay, false)];
      counter := id;
      error := None;
    }

    method ApproveProposal(id: nat, approver: Address) returns (error: Option<Error>)
      modifies this
      ensures Did(DoApprove(old(Stored()), id, approver), old(Stored()), error)
    {
      if Rank(if approver in roles then roles[approver] else Executor) > Rank(Approver) {
        return Some(Aborted);
      }
      if id !in proposals {
        return Some(ProposalNotFound);
      }
      var p := proposals[id];
      if p.status != Pending {
        return Some(InvalidProposal);
      }
      if approver !in p.approvers {
        return Some(Unauthorized);
      }
      if (id, approver) in approvals {
        return Some(DuplicateApproval);
      }
      approvals := approvals + {(id, approver)};
      p := p.(approvalsCount := p.approvalsCount + 1);
      if p.approvalsCount >= p.threshold {
        p := p.(status := Approved);
      }
      proposals := proposals[id := p];
      error := None;
    }

    method ExecuteProposal(id: nat, executor: Address, now: nat) returns (error: Option<Error>)
      modifies this
      ensures Did(DoEnact(old(Stored()), now, id, executor), old(Stored()), error)
    {
      if Rank(if executor in roles then roles[executor] else Executor) > Rank(Executor) {
        return Some(Aborted);
      }
      if id !in proposals {
        return Some(ProposalNotFound);
      }
      var p := proposals[id];
      if p.status != Approved {
        return Some(ProposalNotApproved);
      }
      if now < p.executionTime {
        return Some(TimelockNotExpired);
      }
      p := p.(executed := true);
      p := p.(status := Executed);
      proposals := proposals[id := p];
      error := None;
    }

    method RejectProposal(id: nat, rejector: Address) returns (error: Option<Error>)
      modifies this
      ensures Did(DoReject(old(Stored()), id, rejector), old(Stored()), error)
    {
      if Rank(if rejector in roles then roles[rejector] else Executor) > Rank(Approver) {
        return Some(Aborted);
      }
      if id !in proposals {
        return Some(ProposalNotFound);
      }
      var p := proposals[id];
      if p.status != Pending {
        return Some(InvalidProposal);
      }
      proposals := proposals[id := p.(status := Rejected)];
      error := None;
    }

    method CancelProposal(id: nat, admin: Address) returns (error: Option<Error>)
      modifies this
      ensures Did(DoCancel(old(Stored()), id, admin), old(Stored()), error)
    {
      if Rank(if admin in roles then roles[admin] else Executor) > Rank(Admin) {
        return Some(Aborted);
      }
      if id !in proposals {
        return Some(ProposalNotFound);
      }
      var p := proposals[id];
      if p.executed {
        return Some(InvalidProposal);
      }
      proposals := proposals[id := p.(status := Cancelled)];
      error := None;
    }
  }
}
