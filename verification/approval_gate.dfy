/** The approval gate of a service request, and the shortcut taken when one step is decided. */
module ApprovalGates {
  import opened Wrappers

  datatype Mode = Ungated | Single | All | Any

  datatype Decision = Approve | Reject | RequestChanges

  datatype StepStatus = Undecided | Decided(decision: Decision)

  datatype Gate = GatePending | GatePassed | GateRejected | GateChangesRequested

  function GateOf(d: Decision): Gate {
    match d
    case Approve => GatePassed
    case Reject => GateRejected
    case RequestChanges => GateChangesRequested
  }

  function FirstDecided(statuses: seq<StepStatus>): Option<Decision> {
    if statuses == [] then None
    else if statuses[0].Decided? then Some(statuses[0].decision)
    else FirstDecided(statuses[1..])
  }

  function Evaluate(mode: Mode, statuses: seq<StepStatus>): Gate {
    match mode
    case Ungated => GatePassed
    case All =>
      if Decided(Reject) in statuses then GateRejected
      else if Decided(RequestChanges) in statuses then GateChangesRequested
      else if forall s :: s in statuses ==> s == Decided(Approve) then GatePassed
      else GatePending
    case _ =>
      match FirstDecided(statuses)
      case Some(d) => GateOf(d)
      case None => GatePending
  }

  function StepDecisionOutcome(mode: Mode, statuses: seq<StepStatus>, d: Decision): Gate {
    match d
    case Approve => if Evaluate(mode, statuses) == GatePassed then GatePassed else GatePending
    case _ => GateOf(d)
  }

  lemma {:induction false} FirstDecidedAt(statuses: seq<StepStatus>, i: nat)
    requires i < |statuses| && statuses[i].Decided?
    requires forall j :: 0 <= j < i ==> statuses[j] == Undecided
    ensures FirstDecided(statuses) == Some(statuses[i].decision)
    decreases i
  {
    if i > 0 {
      FirstDecidedAt(statuses[1..], i - 1);
    }
  }

  lemma {:induction false} FirstDecidedIsSome(statuses: seq<StepStatus>) returns (i: nat)
    requires FirstDecided(statuses).Some?
    ensures i < |statuses| && statuses[i] == Decided(FirstDecided(statuses).value)
    ensures forall j :: 0 <= j < i ==> statuses[j] == Undecided
    decreases |statuses|
  {
    if statuses[0].Decided? {
      i := 0;
    } else {
      var rest := FirstDecidedIsSome(statuses[1..]);
      i := rest + 1;
      assert forall j :: 1 <= j < i ==> statuses[j] == statuses[1..][j - 1];
    }
  }

  /** The earliest decision, if any, is d. */
  ghost predicate DecidedFirst(statuses: seq<StepStatus>, d: Decision) {
    exists i :: 0 <= i < |statuses| && statuses[i] == Decided(d) && forall j :: 0 <= j < i ==> statuses[j] == Undecided
  }

  ghost predicate NoneDecided(statuses: seq<StepStatus>) {
    forall i :: 0 <= i < |statuses| ==> statuses[i] == Undecided
  }

  lemma {:induction false} NoneDecidedIff(statuses: seq<StepStatus>)
    ensures FirstDecided(statuses) == None <==> NoneDecided(statuses)
    decreases |statuses|
  {
    if statuses != [] {
      NoneDecidedIff(statuses[1..]);
      assert forall i :: 1 <= i < |statuses| ==> statuses[i] == statuses[1..][i - 1];
    }
  }

  lemma DecidedFirstIff(statuses: seq<StepStatus>, d: Decision)
    ensures FirstDecided(statuses) == Some(d) <==> DecidedFirst(statuses, d)
  {
    if FirstDecided(statuses) == Some(d) {
      var i := FirstDecidedIsSome(statuses);
    } else if DecidedFirst(statuses, d) {
      var i :| 0 <= i < |statuses| && statuses[i] == Decided(d) && forall j :: 0 <= j < i ==> statuses[j] == Undecided;
      FirstDecidedAt(statuses, i);
    }
  }

  /**
   On any input at all, the shortcut agrees with the gate exactly when: no gate applies and the decision is an
   approval; or one step decides, and the earliest decision is this one, or there is none and this is an approval;
   or all steps decide, and no step is decided worse than this one, which a decision other than an approval must
   also have among the steps.
   */
  lemma ShortcutAgreesIff(mode: Mode, statuses: seq<StepStatus>, d: Decision)
    ensures StepDecisionOutcome(mode, statuses, d) == Evaluate(mode, statuses) <==>
      match mode
      case Ungated => d == Approve
      case All => (
        match d
        case Approve => forall x :: x in statuses ==> x == Undecided || x == Decided(Approve)
        case RequestChanges => Decided(RequestChanges) in statuses && Decided(Reject) !in statuses
        case Reject => Decided(Reject) in statuses)
      case _ => DecidedFirst(statuses, d) || (d == Approve && NoneDecided(statuses))
  {
    DecidedFirstIff(statuses, d);
    NoneDecidedIff(statuses);
    if mode == All && d == Approve && !(forall x :: x in statuses ==> x == Undecided || x == Decided(Approve)) {
      var x :| x in statuses && x != Undecided && x != Decided(Approve);
      assert x == Decided(Reject) || x == Decided(RequestChanges);
    }
  }

  /** A lone decision, or an approval beside approvals in ALL mode, always agrees. */
  lemma ShortcutAgrees(mode: Mode, statuses: seq<StepStatus>, i: nat)
    requires mode != Ungated && i < |statuses| && statuses[i].Decided?
    requires forall j :: 0 <= j < |statuses| && j != i ==>
      statuses[j] == Undecided || (mode == All && statuses[j] == Decided(Approve))
    ensures StepDecisionOutcome(mode, statuses, statuses[i].decision) == Evaluate(mode, statuses)
  {
    ShortcutAgreesIff(mode, statuses, statuses[i].decision);
    if mode != All {
      FirstDecidedAt(statuses, i);
    } else {
      assert statuses[i] in statuses;
    }
  }
}
