/**
 One service request: submission, approval cycles, resubmission, cancellation, fulfilment
 and its ticket, under a service whose approval settings stay as they are.
 */
module ServiceRequests {
  import opened Wrappers
  import opened ApprovalGates

  type UserId = nat
  type TicketId = nat
  type Answers = string

  datatype Status =
    | Submitted | AwaitingApproval | Approved | Rejected | ChangesRequested | InFulfillment | Completed | Cancelled

  datatype ApprovalStep = ApprovalStep(approver: Option<UserId>, status: StepStatus, decidedBy: Option<UserId>)

  /** approvers lists the configured steps by ordinal; deciders are the users who may decide approvals at all. */
  datatype Service = Service(
    mode: Mode, approvers: seq<Option<UserId>>, ticketOnFulfillment: bool, deciders: set<UserId>)

  datatype Request = Request(status: Status, answers: Answers, steps: seq<ApprovalStep>, ticket: Option<TicketId>)

  datatype Op =
    | UpdateAnswers(answers: Answers)
    | Cancel
    | Decide(actor: UserId, step: nat, decision: Decision)
    | StartFulfillment(newTicket: TicketId)
    | GenerateTicket(newTicket: TicketId)
    | Complete

  datatype Refusal = Forbidden | Conflict | NotFound | OwnRequest

  predicate NeedsApproval(s: Service) {
    s.mode != Ungated && s.approvers != []
  }

  function NewCycle(s: Service): seq<ApprovalStep> {
    seq(|s.approvers|, i requires 0 <= i < |s.approvers| => ApprovalStep(s.approvers[i], Undecided, None))
  }

  function Statuses(steps: seq<ApprovalStep>): seq<StepStatus> {
    seq(|steps|, i requires 0 <= i < |steps| => steps[i].status)
  }

  function Submit(s: Service, answers: Answers): Request {
    if NeedsApproval(s) then Request(AwaitingApproval, answers, NewCycle(s), None)
    else Request(Submitted, answers, [], None)
  }

  function StatusFor(g: Gate): Status {
    match g
    case GatePassed => Approved
    case GateRejected => Rejected
    case GateChangesRequested => ChangesRequested
    case GatePending => AwaitingApproval
  }

  predicate GateOpen(s: Service, r: Request) {
    Evaluate(s.mode, Statuses(r.steps)) == GatePassed
  }

  function Decided(s: Service, r: Request, actor: UserId, step: nat, d: Decision): Request
    requires step < |r.steps|
  {
    var steps := r.steps[step := r.steps[step].(status := StepStatus.Decided(d), decidedBy := Some(actor))];
    r.(steps := steps, status := StatusFor(StepDecisionOutcome(s.mode, Statuses(steps), d)))
  }

  function WithTicket(r: Request, t: TicketId): Request {
    if r.ticket.Some? then r else r.(ticket := Some(t))
  }

  function Next(s: Service, requester: UserId, r: Request, op: Op): Result<Request, Refusal> {
    match op
    case UpdateAnswers(answers) =>
      if r.status == ChangesRequested then
        if NeedsApproval(s) then Ok(r.(answers := answers, steps := NewCycle(s), status := AwaitingApproval))
        else Ok(r.(answers := answers))
      else if r.status == Submitted then Ok(r.(answers := answers))
      else Err(Conflict)
    case Cancel =>
      if r.status == Completed || r.status == Rejected || r.status == Cancelled || r.status == InFulfillment then Err(Conflict)
      else Ok(r.(status := Cancelled))
    case Decide(actor, step, d) =>
      if actor !in s.deciders then Err(Forbidden)
      else if r.status != AwaitingApproval then Err(Conflict)
      else if step >= |r.steps| then Err(NotFound)
      else if r.steps[step].status != Undecided then Err(Conflict)
      else if r.steps[step].approver == Some(requester) then Err(OwnRequest)
      else Ok(Decided(s, r, actor, step, d))
    case StartFulfillment(t) =>
      if (r.status != Approved && r.status != Submitted) || !GateOpen(s, r) then Err(Conflict)
      else Ok((if s.ticketOnFulfillment then WithTicket(r, t) else r).(status := InFulfillment))
    case GenerateTicket(t) =>
      if r.status == Completed || r.status == Cancelled || r.status == Rejected || !GateOpen(s, r) then Err(Conflict)
      else Ok(WithTicket(r, t))
    case Complete =>
      if r.status != InFulfillment then Err(Conflict) else Ok(r.(status := Completed))
  }

  /** What an operation returns and leaves behind. */
  ghost predicate Performed(s: Service, requester: UserId, before: Request, after: Request, op: Op, r: Result<(), Refusal>) {
    match Next(s, requester, before, op)
    case Ok(next) => r == Ok(()) && after == next
    case Err(e) => r == Err(e) && after == before
  }

  // ------------------------------------------------------------------
  // The service
  // ------------------------------------------------------------------

  class ServiceRequest {
    const service: Service
    const requester: UserId
    var status: Status
    var answers: Answers
    var steps: seq<ApprovalStep>
    var ticket: Option<TicketId>

    ghost function View(): Request
      reads this
    {
      Request(status, answers, steps, ticket)
    }

    constructor (service: Service, requester: UserId, answers: Answers)
      ensures this.service == service && this.requester == requester
      ensures View() == Submit(service, answers)
    {
      this.service, this.requester, this.answers := service, requester, answers;
      status, steps, ticket := Submitted, [], None;
      new;
      if service.mode != Ungated && |service.approvers| > 0 {
        CreateSteps();
        status := AwaitingApproval;
      }
    }

    method CreateSteps()
      modifies this`steps
      ensures steps == NewCycle(service)
    {
      steps := [];
      for i := 0 to |service.approvers|
        invariant steps == NewCycle(service)[..i]
      {
        steps := steps + [ApprovalStep(service.approvers[i], Undecided, None)];
      }
    }

    method ListStatuses() returns (statuses: seq<StepStatus>)
      ensures statuses == Statuses(steps)
    {
      statuses := [];
      for i := 0 to |steps|
        invariant statuses == Statuses(steps)[..i]
      {
        statuses := statuses + [steps[i].status];
      }
    }

    method TransitionStatus(from: Status, to: Status) returns (moved: bool)
      modifies this`status
      ensures moved <==> old(status) == from
      ensures status == if moved then to else old(status)
    {
      moved := status == from;
      if moved {
        status := to;
      }
    }

    method UpdateAnswers(answers: Answers) returns (r: Result<(), Refusal>)
      modifies this
      ensures Performed(service, requester, old(View()), View(), Op.UpdateAnswers(answers), r)
    {
      if status != Submitted && status != ChangesRequested {
        return Err(Conflict);
      }
      this.answers := answers;
      if status == ChangesRequested && service.mode != Ungated && |service.approvers| > 0 {
        CreateSteps();
        status := AwaitingApproval;
      }
      return Ok(());
    }

    method Cancel() returns (r: Result<(), Refusal>)
      modifies this
      ensures Performed(service, requester, old(View()), View(), Op.Cancel, r)
    {
      if status == Completed || status == Rejected || status == Cancelled {
        return Err(Conflict);
      }
      if status == InFulfillment || status == Completed {
        return Err(Conflict);
      }
      var _ := TransitionStatus(status, Cancelled);
      return Ok(());
    }

    /** The requester is compared with the step's assigned approver only, not with the one who decides. */
    method DecideApproval(actor: UserId, step: nat, d: Decision) returns (r: Result<(), Refusal>)
      modifies this
      ensures Performed(service, requester, old(View()), View(), Decide(actor, step, d), r)
    {
      if actor !in service.deciders {
        return Err(Forbidden);
      }
      if status != AwaitingApproval {
        return Err(Conflict);
      }
      if step >= |steps| {
        return Err(NotFound);
      }
      if steps[step].status != Undecided {
        return Err(Conflict);
      }
      if steps[step].approver == Some(requester) {
        return Err(OwnRequest);
      }
      steps := steps[step := steps[step].(status := StepStatus.Decided(d), decidedBy := Some(actor))];
      var statuses := ListStatuses();
      var outcome := StepDecisionOutcome(service.mode, statuses, d);
      if outcome != GatePending {
        var _ := TransitionStatus(AwaitingApproval, StatusFor(outcome));
      }
      return Ok(());
    }

    method StartFulfillment(newTicket: TicketId) returns (r: Result<(), Refusal>)
      modifies this
      ensures Performed(service, requester, old(View()), View(), Op.StartFulfillment(newTicket), r)
    {
      if status != Approved && status != Submitted {
        return Err(Conflict);
      }
      if service.mode != Ungated {
        var statuses := ListStatuses();
        if Evaluate(service.mode, statuses) != GatePassed {
          return Err(Conflict);
        }
      }
      var _ := TransitionStatus(status, InFulfillment);
      if service.ticketOnFulfillment && ticket == None {
        var _ := GenerateTicket(newTicket);
      }
      return Ok(());
    }

    method GenerateTicket(newTicket: TicketId) returns (r: Result<(), Refusal>)
      modifies this
      ensures Performed(service, requester, old(View()), View(), Op.GenerateTicket(newTicket), r)
    {
      if status == Completed || status == Cancelled || status == Rejected {
        return Err(Conflict);
      }
      if service.mode != Ungated {
        var statuses := ListStatuses();
        if Evaluate(service.mode, statuses) != GatePassed {
          return Err(Conflict);
        }
      }
      if ticket == None {
        ticket := Some(newTicket);
      }
      return Ok(());
    }

    method Complete() returns (r: Result<(), Refusal>)
      modifies this
      ensures Performed(service, requester, old(View()), View(), Op.Complete, r)
    {
      if status != InFulfillment {
        return Err(Conflict);
      }
      var _ := TransitionStatus(InFulfillment, Completed);
      return Ok(());
    }
  }

  // ------------------------------------------------------------------
  // Runs
  // ------------------------------------------------------------------

  /** The request, and for each decided step the answers it was decided on. */
  datatype Tracked = Tracked(request: Request, decidedOn: map<nat, Answers>)

  /** A refused operation changes nothing. */
  function Advance(s: Service, requester: UserId, t: Tracked, op: Op): Tracked {
    match Next(s, requester, t.request, op)
    case Err(_) => t
    case Ok(r) =>
      Tracked(r, if op.Decide? then t.decidedOn[op.step := t.request.answers]
                 else if t.request.status == ChangesRequested && r.status == AwaitingApproval then map[]
                 else t.decidedOn)
  }

  function Run(s: Service, requester: UserId, answers: Answers, ops: seq<Op>): Tracked {
    if ops == [] then Tracked(Submit(s, answers), map[])
    else Advance(s, requester, Run(s, requester, answers, ops[..|ops| - 1]), ops[|ops| - 1])
  }

  lemma OneMore(s: Service, requester: UserId, answers: Answers, ops: seq<Op>, op: Op)
    ensures Run(s, requester, answers, ops + [op]) == Advance(s, requester, Run(s, requester, answers, ops), op)
  {
    assert (ops + [op])[..|ops|] == ops;
  }

  predicate OneDecides(s: Service) {
    s.mode == Single || s.mode == Any
  }

  ghost predicate StepsSound(s: Service, requester: UserId, t: Tracked) {
    var steps := t.request.steps;
    && |steps| == |s.approvers|
    && (forall i :: 0 <= i < |steps| ==> steps[i].approver == s.approvers[i])
    && (forall i :: 0 <= i < |steps| && steps[i].status != Undecided ==>
          && steps[i].approver != Some(requester) && i in t.decidedOn && t.decidedOn[i] == t.request.answers
          && steps[i].decidedBy.Some? && steps[i].decidedBy.value in s.deciders)
    && (forall i :: 0 <= i < |steps| && steps[i].decidedBy.Some? ==> steps[i].status != Undecided)
    && (OneDecides(s) ==>
          forall i, j :: 0 <= i < j < |steps| ==> steps[i].status == Undecided || steps[j].status == Undecided)
    && (t.request.status == AwaitingApproval ==>
          forall i :: 0 <= i < |steps| ==>
            steps[i].status == Undecided || (s.mode == All && steps[i].status == StepStatus.Decided(Approve)))
  }

  ghost predicate Valid(s: Service, requester: UserId, t: Tracked) {
    && (if NeedsApproval(s)
        then StepsSound(s, requester, t) && t.request.status != Submitted
        else t.request.steps == []
             && t.request.status in {Submitted, InFulfillment, Completed, Cancelled})
    && (t.request.status in {Approved, InFulfillment, Completed} ==> GateOpen(s, t.request))
    && (t.request.status in {AwaitingApproval, Rejected, ChangesRequested} ==> !GateOpen(s, t.request))
    && (t.request.ticket.Some? ==> GateOpen(s, t.request))
  }

  lemma NewCycleIsClosed(s: Service)
    requires NeedsApproval(s)
    ensures Evaluate(s.mode, Statuses(NewCycle(s))) != GatePassed
  {
    var statuses := Statuses(NewCycle(s));
    assert statuses[0] in statuses;
    if FirstDecided(statuses).Some? {
      var i := FirstDecidedIsSome(statuses);
    }
  }

  /** In every reachable decision the shortcut gives the gate. */
  lemma DecisionAgrees(s: Service, requester: UserId, t: Tracked, actor: UserId, step: nat, d: Decision)
    requires Valid(s, requester, t) && Next(s, requester, t.request, Decide(actor, step, d)).Ok?
    ensures
      var statuses := Statuses(Decided(s, t.request, actor, step, d).steps);
      StepDecisionOutcome(s.mode, statuses, d) == Evaluate(s.mode, statuses)
  {
    ShortcutAgrees(s.mode, Statuses(Decided(s, t.request, actor, step, d).steps), step);
  }

  lemma DecideKeeps(s: Service, requester: UserId, t: Tracked, actor: UserId, step: nat, d: Decision)
    requires Valid(s, requester, t) && Next(s, requester, t.request, Decide(actor, step, d)).Ok?
    ensures Valid(s, requester, Advance(s, requester, t, Decide(actor, step, d)))
  {
    DecisionAgrees(s, requester, t, actor, step, d);
    var statuses := Statuses(Decided(s, t.request, actor, step, d).steps);
    if OneDecides(s) {
      FirstDecidedAt(statuses, step);
    }
  }

  lemma AdvanceKeeps(s: Service, requester: UserId, t: Tracked, op: Op)
    requires Valid(s, requester, t)
    ensures Valid(s, requester, Advance(s, requester, t, op))
  {
    if NeedsApproval(s) {
      NewCycleIsClosed(s);
    }
    if op.Decide? && Next(s, requester, t.request, op).Ok? {
      DecideKeeps(s, requester, t, op.actor, op.step, op.decision);
    }
  }

  lemma {:induction false} RunKeeps(s: Service, requester: UserId, answers: Answers, ops: seq<Op>)
    ensures Valid(s, requester, Run(s, requester, answers, ops))
    decreases |ops|
  {
    if ops == [] {
      if NeedsApproval(s) { NewCycleIsClosed(s); }
    } else {
      RunKeeps(s, requester, answers, ops[..|ops| - 1]);
      AdvanceKeeps(s, requester, Run(s, requester, answers, ops[..|ops| - 1]), ops[|ops| - 1]);
    }
  }

  /**
   In every reachable request, an approved, fulfilling or completed one has a passed gate and so has one
   with a ticket; with one deciding approver at most one step of the cycle is decided; no step assigned to the
   requester is decided; every decision was made by someone permitted, on the answers the request has now.
   */
  lemma ReachableRequestsAreGated(s: Service, requester: UserId, answers: Answers, ops: seq<Op>)
    ensures
      var t := Run(s, requester, answers, ops);
      var steps := t.request.steps;
      && (t.request.status in {Approved, InFulfillment, Completed} || t.request.ticket.Some? ==> GateOpen(s, t.request))
      && (t.request.status in {AwaitingApproval, Rejected, ChangesRequested} ==> !GateOpen(s, t.request))
      && (OneDecides(s) ==>
            forall i, j :: 0 <= i < j < |steps| ==> steps[i].status == Undecided || steps[j].status == Undecided)
      && (forall i :: 0 <= i < |steps| && steps[i].status != Undecided ==>
            && steps[i].approver != Some(requester) && i in t.decidedOn && t.decidedOn[i] == t.request.answers
            && steps[i].decidedBy.Some? && steps[i].decidedBy.value in s.deciders)
  {
    RunKeeps(s, requester, answers, ops);
  }

  /** Whatever decision is accepted in whatever reachable state, the shortcut and the gate agree. */
  lemma ReachableDecisionsAgree(
      s: Service, requester: UserId, answers: Answers, ops: seq<Op>, actor: UserId, step: nat, d: Decision)
    requires Next(s, requester, Run(s, requester, answers, ops).request, Decide(actor, step, d)).Ok?
    ensures
      var statuses := Statuses(Decided(s, Run(s, requester, answers, ops).request, actor, step, d).steps);
      StepDecisionOutcome(s.mode, statuses, d) == Evaluate(s.mode, statuses)
  {
    RunKeeps(s, requester, answers, ops);
    DecisionAgrees(s, requester, Run(s, requester, answers, ops), actor, step, d);
  }

  // ------------------------------------------------------------------
  // Which decision leads to which status
  // ------------------------------------------------------------------

  /** Some step holds the decision. */
  ghost predicate HasDecision(r: Request, d: Decision) {
    exists i :: 0 <= i < |r.steps| && r.steps[i].status == StepStatus.Decided(d)
  }

  /** A request that has been refused or sent back has a step that says so. */
  ghost predicate StatusHasCause(r: Request) {
    && (r.status == Rejected ==> HasDecision(r, Reject))
    && (r.status == ChangesRequested ==> HasDecision(r, RequestChanges))
  }

  /** The status an accepted decision leaves behind. */
  lemma DecisionSetsStatus(s: Service, requester: UserId, r: Request, actor: UserId, step: nat, d: Decision)
    requires Next(s, requester, r, Decide(actor, step, d)).Ok?
    ensures
      var after := Next(s, requester, r, Decide(actor, step, d)).value;
      && (d == Reject ==> after.status == Rejected)
      && (d == RequestChanges ==> after.status == ChangesRequested)
      && (d == Approve ==> after.status == Approved || after.status == AwaitingApproval)
      && step < |r.steps| == |after.steps|
      && after.steps[step] == ApprovalStep(r.steps[step].approver, StepStatus.Decided(d), Some(actor))
      && (forall k :: 0 <= k < |r.steps| && k != step ==> after.steps[k] == r.steps[k])
      && after.answers == r.answers && after.ticket == r.ticket
  {
  }

  lemma AdvanceKeepsCause(s: Service, requester: UserId, t: Tracked, op: Op)
    requires StatusHasCause(t.request)
    ensures StatusHasCause(Advance(s, requester, t, op).request)
  {
    if op.Decide? && Next(s, requester, t.request, op).Ok? {
      DecisionSetsStatus(s, requester, t.request, op.actor, op.step, op.decision);
    }
  }

  lemma {:induction false} RunKeepsCause(s: Service, requester: UserId, answers: Answers, ops: seq<Op>)
    ensures StatusHasCause(Run(s, requester, answers, ops).request)
    decreases |ops|
  {
    if ops != [] {
      RunKeepsCause(s, requester, answers, ops[..|ops| - 1]);
      AdvanceKeepsCause(s, requester, Run(s, requester, answers, ops[..|ops| - 1]), ops[|ops| - 1]);
    }
  }

  /**
   In every reachable state: a REJECTED request has a step decided REJECT and a CHANGES_REQUESTED one a step decided
   so; an accepted decision makes the request REJECTED or CHANGES_REQUESTED as it says, and an approval leaves it
   APPROVED, with the gate passed, or still awaiting approval, with the gate closed.
   */
  lemma DecisionsLeadToStatus(
      s: Service, requester: UserId, answers: Answers, ops: seq<Op>, actor: UserId, step: nat, d: Decision)
    ensures var r := Run(s, requester, answers, ops).request;
      && (r.status == Rejected ==> HasDecision(r, Reject))
      && (r.status == ChangesRequested ==> HasDecision(r, RequestChanges))
    ensures
      var r := Run(s, requester, answers, ops).request;
      Next(s, requester, r, Decide(actor, step, d)).Ok? ==>
        var after := Next(s, requester, r, Decide(actor, step, d)).value;
        match d
        case Reject => after.status == Rejected
        case RequestChanges => after.status == ChangesRequested
        case Approve => after.status == if GateOpen(s, after) then Approved else AwaitingApproval
  {
    RunKeepsCause(s, requester, answers, ops);
    RunKeeps(s, requester, answers, ops);
    var t := Run(s, requester, answers, ops);
    if Next(s, requester, t.request, Decide(actor, step, d)).Ok? {
      DecisionSetsStatus(s, requester, t.request, actor, step, d);
      DecideKeeps(s, requester, t, actor, step, d);
    }
  }

  // ------------------------------------------------------------------
  // When each request is accepted, and what it changes
  // ------------------------------------------------------------------

  /** Only the status differs. */
  ghost predicate OnlyStatus(before: Request, after: Request, status: Status) {
    after.status == status && after.answers == before.answers && after.steps == before.steps && after.ticket == before.ticket
  }

  /** Answers change before any work starts, and after requested changes, when a gated service asks every approver anew. */
  lemma AnswersChangeIff(s: Service, requester: UserId, r: Request, answers: Answers)
    ensures
      match Next(s, requester, r, UpdateAnswers(answers))
      case Err(e) => e == Conflict && r.status != Submitted && r.status != ChangesRequested
      case Ok(after) =>
        && (r.status == Submitted || r.status == ChangesRequested)
        && after.answers == answers && after.ticket == r.ticket
        && if r.status == ChangesRequested && s.mode != Ungated && s.approvers != [] then
             && after.status == AwaitingApproval && |after.steps| == |s.approvers|
             && forall i :: 0 <= i < |s.approvers| ==> after.steps[i] == ApprovalStep(s.approvers[i], Undecided, None)
           else after.status == r.status && after.steps == r.steps
  {}

  /** A request is cancelled exactly before its fulfilment starts, unless it was rejected or cancelled. */
  lemma CancelledIff(s: Service, requester: UserId, r: Request)
    ensures
      match Next(s, requester, r, Cancel)
      case Err(e) => e == Conflict && r.status in {Completed, Rejected, Cancelled, InFulfillment}
      case Ok(after) => r.status in {Submitted, AwaitingApproval, Approved, ChangesRequested} && OnlyStatus(r, after, Cancelled)
  {}

  /** Why a decision is refused: the first of these reasons that holds, and no other. */
  lemma DecisionRefusals(s: Service, requester: UserId, r: Request, actor: UserId, step: nat, d: Decision)
    ensures
      match Next(s, requester, r, Decide(actor, step, d))
      case Err(Forbidden) => actor !in s.deciders
      case Err(NotFound) => actor in s.deciders && r.status == AwaitingApproval && step >= |r.steps|
      case Err(OwnRequest) =>
        && actor in s.deciders && r.status == AwaitingApproval && step < |r.steps|
        && r.steps[step].status == Undecided && r.steps[step].approver == Some(requester)
      case Err(Conflict) =>
        actor in s.deciders && (r.status != AwaitingApproval || (step < |r.steps| && r.steps[step].status != Undecided))
      case Ok(_) =>
        && actor in s.deciders && r.status == AwaitingApproval && step < |r.steps|
        && r.steps[step].status == Undecided && r.steps[step].approver != Some(requester)
  {}

  lemma SubmittedGate(s: Service, requester: UserId, t: Tracked)
    requires Valid(s, requester, t) && t.request.status == Submitted
    ensures GateOpen(s, t.request) <==> s.mode == Ungated || s.mode == All
  {}

  /**
   In every reachable state fulfilment starts exactly from APPROVED, or from SUBMITTED where nothing needs approval;
   it brings the ticket with it if the service says so.
   */
  lemma FulfillmentStartsIff(s: Service, requester: UserId, answers: Answers, ops: seq<Op>, newTicket: TicketId)
    ensures
      var r := Run(s, requester, answers, ops).request;
      var startable := r.status == Approved || (r.status == Submitted && (s.mode == Ungated || s.mode == All));
      match Next(s, requester, r, StartFulfillment(newTicket))
      case Err(e) => e == Conflict && !startable
      case Ok(after) =>
        && startable
        && after.status == InFulfillment && after.answers == r.answers && after.steps == r.steps
        && after.ticket == if s.ticketOnFulfillment && r.ticket == None then Some(newTicket) else r.ticket
  {
    RunKeeps(s, requester, answers, ops);
    var t := Run(s, requester, answers, ops);
    if t.request.status == Submitted {
      SubmittedGate(s, requester, t);
    }
  }

  /**
   In every reachable state a ticket is generated exactly for a request that is approved or being fulfilled, or
   submitted where nothing needs approval; the first ticket stays.
   */
  lemma TicketIsGeneratedIff(s: Service, requester: UserId, answers: Answers, ops: seq<Op>, newTicket: TicketId)
    ensures
      var r := Run(s, requester, answers, ops).request;
      var gated := r.status == Submitted && s.mode != Ungated && s.mode != All;
      match Next(s, requester, r, GenerateTicket(newTicket))
      case Err(e) =>
        e == Conflict && (r.status !in {Submitted, Approved, InFulfillment} || gated)
      case Ok(after) =>
        && r.status in {Submitted, Approved, InFulfillment} && !gated
        && after.status == r.status && after.answers == r.answers && after.steps == r.steps
        && after.ticket == if r.ticket == None then Some(newTicket) else r.ticket
  {
    RunKeeps(s, requester, answers, ops);
    var t := Run(s, requester, answers, ops);
    if t.request.status == Submitted {
      SubmittedGate(s, requester, t);
    }
  }

  /** Only a request in fulfilment is completed. */
  lemma CompletedIff(s: Service, requester: UserId, r: Request)
    ensures
      match Next(s, requester, r, Complete)
      case Err(e) => e == Conflict && r.status != InFulfillment
      case Ok(after) => r.status == InFulfillment && OnlyStatus(r, after, Completed)
  {}

  /** Completed, rejected and cancelled requests accept nothing, and a ticket once generated stays. */
  lemma EndsAcceptNothing(s: Service, requester: UserId, r: Request, op: Op)
    requires r.status in {Completed, Rejected, Cancelled}
    ensures Next(s, requester, r, op).Err?
  {}

  lemma TicketStays(s: Service, requester: UserId, r: Request, op: Op)
    requires r.ticket.Some? && Next(s, requester, r, op).Ok?
    ensures Next(s, requester, r, op).value.ticket == r.ticket
  {}

  /** Completed, rejected and cancelled requests never change again. */
  lemma {:induction false} EndsAreFinal(s: Service, requester: UserId, answers: Answers, ops: seq<Op>, more: seq<Op>)
    requires Run(s, requester, answers, ops).request.status in {Completed, Rejected, Cancelled}
    ensures Run(s, requester, answers, ops + more).request == Run(s, requester, answers, ops).request
    decreases |more|
  {
    if more == [] {
      assert ops + more == ops;
    } else {
      EndsAreFinal(s, requester, answers, ops, more[..|more| - 1]);
      OneMore(s, requester, answers, ops + more[..|more| - 1], more[|more| - 1]);
      EndsAcceptNothing(s, requester, Run(s, requester, answers, ops).request, more[|more| - 1]);
      assert ops + more == ops + more[..|more| - 1] + [more[|more| - 1]];
    }
  }

  /** A ticket once generated stays the request's ticket. */
  lemma {:induction false} TicketsStay(s: Service, requester: UserId, answers: Answers, ops: seq<Op>, more: seq<Op>)
    requires Run(s, requester, answers, ops).request.ticket.Some?
    ensures Run(s, requester, answers, ops + more).request.ticket == Run(s, requester, answers, ops).request.ticket
    decreases |more|
  {
    if more == [] {
      assert ops + more == ops;
    } else {
      TicketsStay(s, requester, answers, ops, more[..|more| - 1]);
      OneMore(s, requester, answers, ops + more[..|more| - 1], more[|more| - 1]);
      var r := Run(s, requester, answers, ops + more[..|more| - 1]).request;
      if Next(s, requester, r, more[|more| - 1]).Ok? {
        TicketStays(s, requester, r, more[|more| - 1]);
      }
      assert ops + more == ops + more[..|more| - 1] + [more[|more| - 1]];
    }
  }

  // ------------------------------------------------------------------
  // Which requests can be fulfilled
  // ------------------------------------------------------------------

  /** The steps that must be decided are not assigned to the requester. */
  ghost predicate Approvable(s: Service, requester: UserId) {
    match s.mode
    case Ungated => true
    case All => Some(requester) !in s.approvers
    case _ => exists a :: a in s.approvers && a != Some(requester)
  }

  ghost predicate OnlyDecider(r: Request, u: UserId) {
    forall i :: 0 <= i < |r.steps| && r.steps[i].status != Undecided ==> r.steps[i].decidedBy == Some(u)
  }

  /** An open gate over steps has a decided one. */
  lemma GateOpenHasDecision(s: Service, requester: UserId, t: Tracked) returns (i: nat)
    requires Valid(s, requester, t) && GateOpen(s, t.request) && NeedsApproval(s)
    ensures i < |t.request.steps| && t.request.steps[i].status != Undecided
  {
    var statuses := Statuses(t.request.steps);
    if s.mode == All {
      i := 0;
      assert statuses[0] in statuses;
    } else {
      i := FirstDecidedIsSome(statuses);
    }
  }

  lemma GateOpenNeedsApprovable(s: Service, requester: UserId, t: Tracked)
    requires Valid(s, requester, t) && GateOpen(s, t.request)
    ensures Approvable(s, requester)
  {
    var statuses := Statuses(t.request.steps);
    if s.mode == All {
      forall i | 0 <= i < |t.request.steps| ensures s.approvers[i] != Some(requester) {
        assert statuses[i] in statuses;
      }
    } else if s.mode != Ungated {
      var i := FirstDecidedIsSome(statuses);
      assert t.request.steps[i].approver in s.approvers;
    }
  }

  /** Approvals of the first n steps by one user, in order. */
  function Approvals(actor: UserId, n: nat): (ops: seq<Op>)
    ensures |ops| == n
  {
    if n == 0 then [] else Approvals(actor, n - 1) + [Decide(actor, n - 1, Approve)]
  }

  /** The first n steps of an ALL chain are approved, by one user. */
  ghost predicate FirstApproved(s: Service, r: Request, actor: UserId, n: nat) {
    && |r.steps| == |s.approvers|
    && r.status == (if n < |s.approvers| then AwaitingApproval else Approved)
    && forall i :: 0 <= i < |r.steps| ==>
         r.steps[i] == if i < n then ApprovalStep(s.approvers[i], StepStatus.Decided(Approve), Some(actor))
                       else ApprovalStep(s.approvers[i], Undecided, None)
  }

  lemma ApproveNext(s: Service, requester: UserId, r: Request, actor: UserId, n: nat)
    requires s.mode == All && Some(requester) !in s.approvers && actor in s.deciders
    requires n < |s.approvers| && FirstApproved(s, r, actor, n)
    ensures Next(s, requester, r, Decide(actor, n, Approve)).Ok?
    ensures FirstApproved(s, Next(s, requester, r, Decide(actor, n, Approve)).value, actor, n + 1)
  {
    var decided := Decided(s, r, actor, n, Approve);
    var statuses := Statuses(decided.steps);
    assert s.approvers[n] in s.approvers;
    if n + 1 < |s.approvers| {
      assert statuses[n + 1] in statuses;
    } else {
      assert forall x :: x in statuses ==> x == StepStatus.Decided(Approve);
    }
  }

  lemma {:induction false} ApprovalsInOrder(s: Service, requester: UserId, answers: Answers, actor: UserId, n: nat)
    requires s.mode == All && s.approvers != [] && Some(requester) !in s.approvers && actor in s.deciders
    requires n <= |s.approvers|
    ensures FirstApproved(s, Run(s, requester, answers, Approvals(actor, n)).request, actor, n)
    decreases n
  {
    if n > 0 {
      ApprovalsInOrder(s, requester, answers, actor, n - 1);
      OneMore(s, requester, answers, Approvals(actor, n - 1), Decide(actor, n - 1, Approve));
      ApproveNext(s, requester, Run(s, requester, answers, Approvals(actor, n - 1)).request, actor, n - 1);
    }
  }

  /** A run in which one permitted user, whoever that is, alone approves an approvable request. */
  lemma ApprovableIsApproved(s: Service, requester: UserId, answers: Answers, actor: UserId) returns (ops: seq<Op>)
    requires Approvable(s, requester) && NeedsApproval(s) && actor in s.deciders
    ensures var r := Run(s, requester, answers, ops).request; r.status == Approved && OnlyDecider(r, actor)
  {
    if s.mode == All {
      ops := Approvals(actor, |s.approvers|);
      ApprovalsInOrder(s, requester, answers, actor, |s.approvers|);
    } else {
      var a :| a in s.approvers && a != Some(requester);
      var i :| 0 <= i < |s.approvers| && s.approvers[i] == a;
      OneMore(s, requester, answers, [], Decide(actor, i, Approve));
      ops := [] + [Decide(actor, i, Approve)];
      FirstDecidedAt(Statuses(Decided(s, Submit(s, answers), actor, i, Approve).steps), i);
    }
  }

  lemma ApprovableIsFulfilled(s: Service, requester: UserId, answers: Answers) returns (ops: seq<Op>)
    requires Approvable(s, requester) && (NeedsApproval(s) ==> s.deciders != {})
    ensures Run(s, requester, answers, ops).request.status == InFulfillment
  {
    ops := [];
    if NeedsApproval(s) {
      var actor :| actor in s.deciders;
      ops := ApprovableIsApproved(s, requester, answers, actor);
    }
    RunKeeps(s, requester, answers, ops);
    OneMore(s, requester, answers, ops, StartFulfillment(0));
    ops := ops + [StartFulfillment(0)];
  }

  /**
   A request can reach fulfilment exactly when someone may decide, if approval is needed, and its service is
   ungated, or requires all steps and none is assigned to the requester, or needs one and some step is not.
   So SINGLE and ANY without steps can never be fulfilled, while ALL without steps needs no approval.
   */
  lemma FulfillableIff(s: Service, requester: UserId, answers: Answers)
    ensures (exists ops :: Run(s, requester, answers, ops).request.status == InFulfillment)
      <==> Approvable(s, requester) && (NeedsApproval(s) ==> s.deciders != {})
  {
    if Approvable(s, requester) && (NeedsApproval(s) ==> s.deciders != {}) {
      var ops := ApprovableIsFulfilled(s, requester, answers);
    } else {
      forall ops ensures Run(s, requester, answers, ops).request.status != InFulfillment {
        RunKeeps(s, requester, answers, ops);
        if Run(s, requester, answers, ops).request.status == InFulfillment {
          GateOpenNeedsApprovable(s, requester, Run(s, requester, answers, ops));
          var i := GateOpenHasDecision(s, requester, Run(s, requester, answers, ops));
        }
      }
    }
  }

  // ------------------------------------------------------------------
  // Requesters who decide on their own request
  // ------------------------------------------------------------------

  /** After the run, some step has been decided by the user. */
  ghost predicate DecidedSome(s: Service, requester: UserId, answers: Answers, ops: seq<Op>, u: UserId) {
    var steps := Run(s, requester, answers, ops).request.steps;
    exists i :: 0 <= i < |steps| && steps[i].decidedBy == Some(u)
  }

  lemma FirstDecisionIsFree(s: Service, requester: UserId, answers: Answers, actor: UserId, i: nat) returns (ops: seq<Op>)
    requires NeedsApproval(s) && actor in s.deciders && i < |s.approvers| && s.approvers[i] != Some(requester)
    ensures DecidedSome(s, requester, answers, ops, actor)
  {
    OneMore(s, requester, answers, [], Decide(actor, i, Approve));
    ops := [] + [Decide(actor, i, Approve)];
    assert Run(s, requester, answers, ops).request.steps[i].decidedBy == Some(actor);
  }

  lemma DecidersArePermitted(s: Service, requester: UserId, answers: Answers, ops: seq<Op>, actor: UserId)
    requires DecidedSome(s, requester, answers, ops, actor)
    ensures NeedsApproval(s) && actor in s.deciders && exists a :: a in s.approvers && a != Some(requester)
  {
    RunKeeps(s, requester, answers, ops);
    var steps := Run(s, requester, answers, ops).request.steps;
    var i :| 0 <= i < |steps| && steps[i].decidedBy == Some(actor);
    assert steps[i].approver in s.approvers;
  }

  /**
   A requester can decide a step of his own request exactly when he may decide approvals at all and some
   step is not assigned to him.
   */
  lemma SelfDecisionIff(s: Service, requester: UserId, answers: Answers)
    ensures (exists ops :: DecidedSome(s, requester, answers, ops, requester))
      <==> NeedsApproval(s) && requester in s.deciders && exists a :: a in s.approvers && a != Some(requester)
  {
    if NeedsApproval(s) && requester in s.deciders && exists a :: a in s.approvers && a != Some(requester) {
      var a :| a in s.approvers && a != Some(requester);
      var i :| 0 <= i < |s.approvers| && s.approvers[i] == a;
      var ops := FirstDecisionIsFree(s, requester, answers, requester, i);
    } else {
      forall ops ensures !DecidedSome(s, requester, answers, ops, requester) {
        if DecidedSome(s, requester, answers, ops, requester) {
          DecidersArePermitted(s, requester, answers, ops, requester);
        }
      }
    }
  }

  /** He can be the only one to decide a request that is approved exactly when he may decide and it is approvable. */
  lemma SelfApprovalIff(s: Service, requester: UserId, answers: Answers)
    requires NeedsApproval(s)
    ensures (exists ops :: Run(s, requester, answers, ops).request.status == Approved
                && OnlyDecider(Run(s, requester, answers, ops).request, requester))
      <==> requester in s.deciders && Approvable(s, requester)
  {
    if requester in s.deciders && Approvable(s, requester) {
      var ops := ApprovableIsApproved(s, requester, answers, requester);
    } else {
      forall ops | Run(s, requester, answers, ops).request.status == Approved
        ensures !OnlyDecider(Run(s, requester, answers, ops).request, requester)
      {
        var t := Run(s, requester, answers, ops);
        RunKeeps(s, requester, answers, ops);
        GateOpenNeedsApprovable(s, requester, t);
        var i := GateOpenHasDecision(s, requester, t);
        assert t.request.steps[i].decidedBy.value in s.deciders;
      }
    }
  }
}
