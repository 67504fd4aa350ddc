/**
 One SLA target row, what the engine does to it (evaluate, pause, resume, complete) and what
 a workflow's sla_start and sla_stop do to it. The ledger beside it is history the system does
 not store: how much business time the target really spent RUNNING, how much wall-clock time
 it spent PAUSED, how much business time pauses that came too late left uncounted, and what
 sla_start took away by ending a pause without moving the deadline.
 */
module SlaTarget {
  import opened Wrappers
  import opened BusinessCalendar

  const MS_PER_MINUTE := 60_000

  datatype TargetType = Response | Resolution

  datatype TargetState = Running | Paused | Met | Breached

  datatype Policy = Policy(
    responseMinutes: nat, resolutionMinutes: nat,
    pauseOnPending: bool, pauseOnHold: bool,
    restartResolutionOnReopen: bool, warningThresholdPercent: nat)

  datatype Target = Target(
    kind: TargetType, policy: Policy, state: TargetState,
    startedAt: int, dueAt: int, pausedAt: Option<int>, accumulatedPauseMs: nat,
    completedAt: Option<int>, breachedAt: Option<int>, warningNotifiedAt: Option<int>,
    version: nat)
  {
    predicate Active() { state == Running || state == Paused }
  }

  datatype Alert = Warning | Breach

  function Minutes(policy: Policy, kind: TargetType): nat {
    if kind == Response then policy.responseMinutes else policy.resolutionMinutes
  }

  function BudgetMs(t: Target): nat {
    Minutes(t.policy, t.kind) * MS_PER_MINUTE
  }

  function Started(c: Calendar, policy: Policy, kind: TargetType, at: int): Target {
    Target(kind, policy, Running, at, AddBusinessMs(c, at, Minutes(policy, kind) * MS_PER_MINUTE),
           None, 0, None, None, None, 1)
  }

  /** Elapsed share of the budget has reached the warning threshold, compared without division. */
  predicate WarningReached(c: Calendar, t: Target, now: int) {
    var total := BudgetMs(t);
    if total == 0 then 100 >= t.policy.warningThresholdPercent
    else (total - RemainingBusinessMs(c, now, t.dueAt)) * 100 >= t.policy.warningThresholdPercent * total
  }

  function AlertDue(c: Calendar, t: Target, now: int): Option<Alert> {
    if t.state != Running then None
    else if now >= t.dueAt then Some(Breach)
    else if t.warningNotifiedAt.None? && WarningReached(c, t, now) then Some(Warning)
    else None
  }

  function Evaluated(c: Calendar, t: Target, now: int): Target {
    match AlertDue(c, t, now)
    case None => t
    case Some(Breach) => t.(state := Breached, breachedAt := Some(now), version := t.version + 1)
    case Some(Warning) => t.(warningNotifiedAt := Some(now), version := t.version + 1)
  }

  function PausedAt(t: Target, now: int): Target {
    t.(state := Paused, pausedAt := Some(now), version := t.version + 1)
  }

  function Resumed(c: Calendar, t: Target, now: int): Target {
    if t.pausedAt.None? then t
    else
      var paused := t.pausedAt.value;
      t.(state := Running, pausedAt := None,
         dueAt := AddBusinessMs(c, now, RemainingBusinessMs(c, paused, t.dueAt)),
         accumulatedPauseMs := t.accumulatedPauseMs + (if now > paused then now - paused else 0),
         version := t.version + 1)
  }

  function Completed(c: Calendar, t: Target, now: int): Target {
    var running := if t.state == Paused then Resumed(c, t, now) else t;
    running.(state := Met, completedAt := Some(now), version := running.version + 1)
  }

  /** A workflow's sla_start on an active target: the pause is dropped, the deadline stays. */
  function ForceStarted(t: Target): Target {
    t.(state := Running, pausedAt := None, version := t.version + 1)
  }

  /** A workflow's sla_stop on an active target, not evaluated and not resumed first. */
  function ForceStopped(t: Target, now: int): Target {
    t.(state := Met, completedAt := Some(now), version := t.version + 1)
  }

  // ------------------------------------------------------------------
  // History
  // ------------------------------------------------------------------

  /** cutMs and unbookedMs are the business and wall-clock time of pauses that sla_start ended. */
  datatype Ledger = Ledger(ranMs: nat, awayMs: nat, lateMs: nat, cutMs: nat, unbookedMs: nat, stopped: bool)

  const BLANK := Ledger(0, 0, 0, 0, 0, false)

  /** Time passes from one instant to a later one. */
  function Elapsed(c: Calendar, t: Target, l: Ledger, from: int, to: int): Ledger
    requires from <= to
  {
    match t.state
    case Running => l.(ranMs := l.ranMs + RemainingBusinessMs(c, from, to))
    case Paused => l.(awayMs := l.awayMs + (to - from))
    case _ => l
  }

  /** A pause taken after the deadline leaves the business time since then uncounted. */
  function Missed(c: Calendar, t: Target, l: Ledger, now: int): Ledger {
    l.(lateMs := l.lateMs + RemainingBusinessMs(c, t.dueAt, now))
  }

  /** An sla_start on a paused target charges it for the business time since the pause, or since its deadline. */
  function CutOff(c: Calendar, t: Target, l: Ledger, now: int): Ledger {
    if t.pausedAt.None? then l
    else
      var paused := t.pausedAt.value;
      l.(cutMs := l.cutMs + RemainingBusinessMs(c, if paused < t.dueAt then paused else t.dueAt, now),
         unbookedMs := l.unbookedMs + (if now > paused then now - paused else 0))
  }

  /** The instant from which an active target's remaining time is read. */
  function Reference(t: Target, now: int): int {
    if t.pausedAt.Some? then t.pausedAt.value else now
  }

  ghost predicate WellFormed(c: Calendar, t: Target, now: int) {
    && t.startedAt <= now
    && t.startedAt <= t.dueAt
    && (t.Active() && Reference(t, now) < t.dueAt ==> c.open(t.dueAt - 1))
    && (t.state == Paused ==> t.pausedAt.Some?)
    && (t.state == Running || t.state == Breached ==> t.pausedAt.None?)
    && (t.pausedAt.Some? ==> t.startedAt <= t.pausedAt.value <= now)
    && (t.state == Met <==> t.completedAt.Some?)
    && (t.state == Met && t.pausedAt.Some? ==> t.pausedAt.value <= t.completedAt.value)
    && (t.state == Breached <==> t.breachedAt.Some?)
  }

  /** Read at an instant, what ran and was cut off plus what remains is the budget plus what late pauses missed. */
  ghost predicate Balanced(c: Calendar, t: Target, l: Ledger, at: int) {
    l.ranMs + l.cutMs + RemainingBusinessMs(c, at, t.dueAt)
    == BudgetMs(t) + l.lateMs + RemainingBusinessMs(c, t.dueAt, at)
  }

  /** The row's pause total and what sla_start did not book are the wall-clock time of closed pauses. */
  ghost predicate Booked(t: Target, l: Ledger) {
    t.accumulatedPauseMs + l.unbookedMs == l.awayMs
  }

  /** The same for a row whose pause is still open, or was when a workflow stopped it. */
  ghost predicate BalancedInPause(c: Calendar, t: Target, l: Ledger, until: int) {
    && t.pausedAt.Some?
    && l.ranMs + l.cutMs + RemainingBusinessMs(c, t.pausedAt.value, t.dueAt) == BudgetMs(t) + l.lateMs
    && t.accumulatedPauseMs + l.unbookedMs + (until - t.pausedAt.value) == l.awayMs
  }

  /** The conservation law. */
  ghost predicate Conserved(c: Calendar, t: Target, l: Ledger, now: int) {
    match t.state
    case Running => Balanced(c, t, l, now) && Booked(t, l)
    case Paused => BalancedInPause(c, t, l, now)
    case Met =>
      && t.completedAt.Some?
      && (if t.pausedAt.Some? then BalancedInPause(c, t, l, t.completedAt.value)
          else Balanced(c, t, l, t.completedAt.value) && Booked(t, l))
    case Breached => BudgetMs(t) + l.lateMs <= l.ranMs + l.cutMs && Booked(t, l)
  }

  ghost predicate Accounted(c: Calendar, t: Target, l: Ledger, now: int) {
    WellFormed(c, t, now) && Conserved(c, t, l, now)
  }

  lemma StartAccounted(c: Calendar, policy: Policy, kind: TargetType, at: int)
    requires Live(c)
    ensures Accounted(c, Started(c, policy, kind, at), BLANK, at)
  {
    AddReachesEarliest(c, at, Minutes(policy, kind) * MS_PER_MINUTE);
  }

  lemma ElapsedAccounted(c: Calendar, t: Target, l: Ledger, from: int, to: int)
    requires from <= to && Accounted(c, t, l, from)
    ensures Accounted(c, t, Elapsed(c, t, l, from, to), to)
  {
    if t.state == Running {
      SplitSigned(c, from, to, t.dueAt);
    }
  }

  lemma EvaluateAccounted(c: Calendar, t: Target, l: Ledger, now: int)
    requires Accounted(c, t, l, now)
    ensures Accounted(c, Evaluated(c, t, now), l, now)
    ensures Evaluated(c, t, now).state == Running ==> now < t.dueAt
  {
  }

  /** With nothing missed, evaluating a RUNNING target finds a breach exactly when its budget has run out. */
  lemma BreachIsExact(c: Calendar, t: Target, l: Ledger, now: int)
    requires Accounted(c, t, l, now) && t.state == Running && l.lateMs == 0
    ensures Evaluated(c, t, now).state == Breached <==> BudgetMs(t) <= l.ranMs + l.cutMs
  {
    if now < t.dueAt {
      assert RemainingBusinessMs(c, now, t.dueAt) >= 1;
    }
  }

  /** With nothing missed, a warning is due before the deadline exactly at the policy's share of the budget. */
  lemma WarningIsExact(c: Calendar, t: Target, l: Ledger, now: int)
    requires Accounted(c, t, l, now) && t.state == Running && l.lateMs == 0 && now < t.dueAt && BudgetMs(t) > 0
    ensures AlertDue(c, t, now) == Some(Warning) <==>
      t.warningNotifiedAt.None? && (l.ranMs + l.cutMs) * 100 >= t.policy.warningThresholdPercent * BudgetMs(t)
  {
    assert BudgetMs(t) - RemainingBusinessMs(c, now, t.dueAt) == l.ranMs + l.cutMs;
  }

  /** A target without a budget warns, while its deadline is ahead at all, if its threshold is within the whole. */
  lemma ZeroBudgetWarnsIff(c: Calendar, t: Target, now: int)
    requires t.state == Running && now < t.dueAt && BudgetMs(t) == 0
    ensures AlertDue(c, t, now) == Some(Warning) <==> t.warningNotifiedAt.None? && t.policy.warningThresholdPercent <= 100
  {}

  lemma PauseAccounted(c: Calendar, t: Target, l: Ledger, now: int)
    requires Accounted(c, t, l, now) && t.state == Running
    ensures Accounted(c, PausedAt(t, now), Missed(c, t, l, now), now)
    ensures now <= t.dueAt ==> Missed(c, t, l, now) == l
  {
  }

  lemma ResumeAccounted(c: Calendar, t: Target, l: Ledger, now: int)
    requires Live(c) && Accounted(c, t, l, now) && t.state == Paused
    ensures Accounted(c, Resumed(c, t, now), l, now)
    ensures t.pausedAt.value < t.dueAt ==> t.dueAt <= Resumed(c, t, now).dueAt
    ensures t.pausedAt.value < t.dueAt ==> now < Resumed(c, t, now).dueAt
  {
    var paused := t.pausedAt.value;
    AddReachesEarliest(c, now, RemainingBusinessMs(c, paused, t.dueAt));
    if paused < t.dueAt {
      LaterStartEndsNoEarlier(c, paused, now, t.dueAt);
    }
  }

  lemma CompleteAccounted(c: Calendar, t: Target, l: Ledger, now: int)
    requires Live(c) && Accounted(c, t, l, now) && t.Active()
    ensures Accounted(c, Completed(c, t, now), l, now)
  {
    if t.state == Paused {
      ResumeAccounted(c, t, l, now);
    }
  }

  // ------------------------------------------------------------------
  // What each write changes of the row
  // ------------------------------------------------------------------

  /** What no write changes. */
  ghost predicate SameTarget(a: Target, b: Target) {
    a.kind == b.kind && a.policy == b.policy && a.startedAt == b.startedAt
  }

  /** A new target is RUNNING since its start, with nothing recorded yet and all of its budget ahead. */
  lemma StartsWithItsBudget(c: Calendar, policy: Policy, kind: TargetType, at: int)
    requires Live(c)
    ensures
      var t := Started(c, policy, kind, at);
      && t.kind == kind && t.policy == policy && t.state == Running && t.startedAt == at && t.version == 1
      && t.pausedAt == None && t.completedAt == None && t.breachedAt == None && t.warningNotifiedAt == None
      && t.accumulatedPauseMs == 0
      && RemainingBusinessMs(c, at, t.dueAt)
         == (if kind == Response then policy.responseMinutes else policy.resolutionMinutes) * 60_000
  {
    AddReachesEarliest(c, at, Minutes(policy, kind) * MS_PER_MINUTE);
  }

  /**
   An evaluation writes only to RUNNING rows: from the deadline on the breach and its time, before it the first
   warning and its time.
   */
  lemma EvaluationWrites(c: Calendar, t: Target, now: int)
    ensures
      var after := Evaluated(c, t, now);
      && SameTarget(t, after) && after.dueAt == t.dueAt && after.pausedAt == t.pausedAt
      && after.accumulatedPauseMs == t.accumulatedPauseMs && after.completedAt == t.completedAt
      && (t.state == Running && t.dueAt <= now ==>
            && after.state == Breached && after.breachedAt == Some(now)
            && after.warningNotifiedAt == t.warningNotifiedAt && after.version == t.version + 1)
      && (t.state != Running || now < t.dueAt ==> after.state == t.state && after.breachedAt == t.breachedAt)
      && (t.state != Running || t.warningNotifiedAt.Some? ==> after.warningNotifiedAt == t.warningNotifiedAt)
      && (t.state == Running && now < t.dueAt && after.warningNotifiedAt != t.warningNotifiedAt ==>
            after.warningNotifiedAt == Some(now) && after.version == t.version + 1)
      && (after.state == t.state && after.warningNotifiedAt == t.warningNotifiedAt ==> after == t)
  {}

  /** A pause records its time and a resumption the length of the pause; a completion records its time. */
  lemma PauseAndCompletionWrites(c: Calendar, t: Target, now: int)
    ensures
      var after := PausedAt(t, now);
      && SameTarget(t, after) && after.state == Paused && after.pausedAt == Some(now) && after.dueAt == t.dueAt
      && after.accumulatedPauseMs == t.accumulatedPauseMs && after.completedAt == t.completedAt
      && after.breachedAt == t.breachedAt && after.warningNotifiedAt == t.warningNotifiedAt && after.version == t.version + 1
    ensures t.pausedAt.Some? && t.pausedAt.value <= now ==>
      var after := Resumed(c, t, now);
      && SameTarget(t, after) && after.state == Running && after.pausedAt == None
      && after.accumulatedPauseMs == t.accumulatedPauseMs + (now - t.pausedAt.value) && after.completedAt == t.completedAt
      && after.breachedAt == t.breachedAt && after.warningNotifiedAt == t.warningNotifiedAt && after.version == t.version + 1
    ensures
      var after := Completed(c, t, now);
      && SameTarget(t, after) && after.state == Met && after.completedAt == Some(now)
      && after.breachedAt == t.breachedAt && after.warningNotifiedAt == t.warningNotifiedAt
      && (t.state != Paused ==>
            && after.dueAt == t.dueAt && after.pausedAt == t.pausedAt
            && after.accumulatedPauseMs == t.accumulatedPauseMs && after.version == t.version + 1)
      && (t.state == Paused && t.pausedAt.Some? ==> after.pausedAt == None && after.version == t.version + 2)
  {}

  /** sla_start drops the pause, sla_stop records the completion; neither touches the deadline or the pause total. */
  lemma WorkflowWrites(t: Target, now: int)
    ensures
      var after := ForceStarted(t);
      && SameTarget(t, after) && after.state == Running && after.pausedAt == None && after.dueAt == t.dueAt
      && after.accumulatedPauseMs == t.accumulatedPauseMs && after.completedAt == t.completedAt
      && after.breachedAt == t.breachedAt && after.warningNotifiedAt == t.warningNotifiedAt && after.version == t.version + 1
    ensures
      var after := ForceStopped(t, now);
      && SameTarget(t, after) && after.state == Met && after.completedAt == Some(now) && after.pausedAt == t.pausedAt
      && after.dueAt == t.dueAt && after.accumulatedPauseMs == t.accumulatedPauseMs
      && after.breachedAt == t.breachedAt && after.warningNotifiedAt == t.warningNotifiedAt && after.version == t.version + 1
  {}

  // ------------------------------------------------------------------
  // Workflow actions
  // ------------------------------------------------------------------

  lemma ForceStartAccounted(c: Calendar, t: Target, l: Ledger, now: int)
    requires Accounted(c, t, l, now) && t.Active()
    ensures Accounted(c, ForceStarted(t), CutOff(c, t, l, now), now)
  {
    if t.state == Paused {
      SplitSigned(c, t.pausedAt.value, now, t.dueAt);
      if t.dueAt < t.pausedAt.value {
        ClosedCountsNothing(c, t.pausedAt.value, t.dueAt);
      }
    }
  }

  lemma ForceStopAccounted(c: Calendar, t: Target, l: Ledger, now: int)
    requires Accounted(c, t, l, now) && t.Active()
    ensures Accounted(c, ForceStopped(t, now), l.(stopped := true), now)
  {}

  /**
   sla_start and sla_stop leave no pause to resume, so the budget must balance at the instant they come.
   It does exactly when the target was RUNNING or no business time has passed since it was paused, and the
   pause total stays right exactly when it was RUNNING or no time has passed at all.
   */
  lemma WorkflowActionKeepsLawIff(c: Calendar, t: Target, l: Ledger, now: int)
    requires Accounted(c, t, l, now) && t.Active() && (t.state == Paused ==> t.pausedAt.value <= t.dueAt)
    ensures Balanced(c, t, l, now) <==> t.state == Running || RemainingBusinessMs(c, t.pausedAt.value, now) == 0
    ensures Booked(t, l) <==> t.state == Running || now == t.pausedAt.value
    ensures Accounted(c, ForceStarted(t), l, now) <==> t.state == Running || now == t.pausedAt.value
  {
    ForceStartAccounted(c, t, l, now);
  }

  /** A target that a workflow stops was inside its budget exactly when it was PAUSED or its deadline lay ahead. */
  lemma WorkflowStopIsInBudgetIff(c: Calendar, t: Target, l: Ledger, now: int)
    requires Accounted(c, t, l, now) && t.Active() && l.lateMs == 0
    requires t.state == Paused ==> t.pausedAt.value < t.dueAt
    ensures l.ranMs + l.cutMs < BudgetMs(t) <==> t.state == Paused || now < t.dueAt
  {
    var from := Reference(t, now);
    if from < t.dueAt {
      assert RemainingBusinessMs(c, from, t.dueAt) >= 1;
    }
  }

  /**
   The law does fail: paused at once, a target that a workflow starts at or after its deadline is BREACHED
   without having run at all.
   */
  lemma WorkflowStartBreachesUnused(c: Calendar, policy: Policy, kind: TargetType, at: int, now: int)
    requires Live(c) && AddBusinessMs(c, at, Minutes(policy, kind) * MS_PER_MINUTE) <= now
    ensures
      var start := Timer(Started(c, policy, kind, at), BLANK, at);
      && at <= now
      && var s := Act(c, Act(c, Act(c, start, Pause, at), WorkflowStart, now), Evaluate, now);
         s.target.state == Breached && s.ledger.ranMs == 0
  {
    AddReachesEarliest(c, at, Minutes(policy, kind) * MS_PER_MINUTE);
  }

  // ------------------------------------------------------------------
  // Runs of a single target
  // ------------------------------------------------------------------

  datatype Action = Evaluate | Pause | Resume | WorkflowStart | WorkflowStop

  type Acts = seq<(Action, int)>

  datatype Timer = Timer(target: Target, ledger: Ledger, now: int)

  /** The engine pauses only RUNNING targets and resumes only PAUSED ones; workflows reach only active ones. */
  function Act(c: Calendar, s: Timer, action: Action, at: int): Timer
    requires s.now <= at
  {
    var t := s.target;
    var l := Elapsed(c, t, s.ledger, s.now, at);
    match action
    case Evaluate => Timer(Evaluated(c, t, at), l, at)
    case Pause => if t.state == Running then Timer(PausedAt(t, at), Missed(c, t, l, at), at) else Timer(t, l, at)
    case Resume => Timer(if t.state == Paused then Resumed(c, t, at) else t, l, at)
    case WorkflowStart => if t.Active() then Timer(ForceStarted(t), CutOff(c, t, l, at), at) else Timer(t, l, at)
    case WorkflowStop => if t.Active() then Timer(ForceStopped(t, at), l.(stopped := true), at) else Timer(t, l, at)
  }

  /** What an action makes of the row, time having passed first: nothing where the row is in no state for it. */
  lemma ActionsReachTheirStates(c: Calendar, s: Timer, at: int)
    requires s.now <= at
    ensures forall action: Action :: Act(c, s, action, at).now == at
    ensures Act(c, s, Evaluate, at).target == Evaluated(c, s.target, at)
    ensures Act(c, s, Pause, at).target == if s.target.state == Running then PausedAt(s.target, at) else s.target
    ensures Act(c, s, Resume, at).target == if s.target.state == Paused then Resumed(c, s.target, at) else s.target
    ensures Act(c, s, WorkflowStart, at).target == if s.target.Active() then ForceStarted(s.target) else s.target
    ensures Act(c, s, WorkflowStop, at).target == if s.target.Active() then ForceStopped(s.target, at) else s.target
    ensures Act(c, s, WorkflowStop, at).ledger.stopped == (s.target.Active() || s.ledger.stopped)
  {}

  ghost predicate Ordered(now: int, run: Acts)
    decreases |run|
  {
    run == [] || (now <= run[0].1 && Ordered(run[0].1, run[1..]))
  }

  ghost function ActAll(c: Calendar, s: Timer, run: Acts): Timer
    requires Ordered(s.now, run)
    decreases |run|
  {
    if run == [] then s else ActAll(c, Act(c, s, run[0].0, run[0].1), run[1..])
  }

  lemma ActsOneByOne(c: Calendar, s: Timer, action: Action, at: int, run: Acts)
    requires Ordered(s.now, [(action, at)] + run)
    ensures ([(action, at)] + run)[1..] == run && Ordered(at, run)
    ensures ActAll(c, s, [(action, at)] + run) == ActAll(c, Act(c, s, action, at), run)
    ensures ActAll(c, s, []) == s
  {
    assert ([(action, at)] + run)[1..] == run;
  }

  lemma ActAccounted(c: Calendar, s: Timer, action: Action, at: int)
    requires Live(c) && s.now <= at && Accounted(c, s.target, s.ledger, s.now)
    ensures var s' := Act(c, s, action, at); Accounted(c, s'.target, s'.ledger, s'.now)
  {
    ElapsedAccounted(c, s.target, s.ledger, s.now, at);
    var l := Elapsed(c, s.target, s.ledger, s.now, at);
    match action
    case Evaluate => EvaluateAccounted(c, s.target, l, at);
    case Pause => if s.target.state == Running { PauseAccounted(c, s.target, l, at); }
    case Resume => if s.target.state == Paused { ResumeAccounted(c, s.target, l, at); }
    case WorkflowStart => if s.target.Active() { ForceStartAccounted(c, s.target, l, at); }
    case WorkflowStop => if s.target.Active() { ForceStopAccounted(c, s.target, l, at); }
  }

  lemma {:induction false} RunAccounted(c: Calendar, s: Timer, run: Acts)
    requires Live(c) && Ordered(s.now, run) && Accounted(c, s.target, s.ledger, s.now)
    ensures var s' := ActAll(c, s, run); Accounted(c, s'.target, s'.ledger, s'.now)
    decreases |run|
  {
    if run != [] {
      ActAccounted(c, s, run[0].0, run[0].1);
      RunAccounted(c, Act(c, s, run[0].0, run[0].1), run[1..]);
    }
  }

  /**
   After any run of pauses, resumes, evaluations and workflow actions, business time spent RUNNING plus the
   time that remains, plus what workflow starts cut off, is the budget plus what late pauses missed; so it is
   the budget exactly when those two agree. The stored pause total is the wall-clock time of closed pauses
   exactly when no workflow start left one unbooked.
   */
  lemma BusinessTimeConserved(c: Calendar, policy: Policy, kind: TargetType, at: int, run: Acts)
    requires Live(c) && Ordered(at, run)
    ensures
      var s := ActAll(c, Timer(Started(c, policy, kind, at), BLANK, at), run);
      var t, l := s.target, s.ledger;
      var spent := l.ranMs + RemainingBusinessMs(c, Reference(t, s.now), t.dueAt);
      var pausedFor := t.accumulatedPauseMs + (if t.pausedAt.Some? then s.now - t.pausedAt.value else 0);
      && (t.Active() && (t.state == Running ==> s.now <= t.dueAt) ==>
        && spent + l.cutMs == BudgetMs(t) + l.lateMs
        && (spent == BudgetMs(t) <==> l.cutMs == l.lateMs)
        && (pausedFor == l.awayMs <==> l.unbookedMs == 0))
      && (t.state == Breached ==> BudgetMs(t) <= l.ranMs + l.cutMs)
  {
    StartAccounted(c, policy, kind, at);
    RunAccounted(c, Timer(Started(c, policy, kind, at), BLANK, at), run);
  }

  const ALWAYS_OPEN := Calendar(t => true, t => t)

  lemma {:induction false} AlwaysOpenCounts(a: int, b: int)
    requires a <= b
    ensures RemainingBusinessMs(ALWAYS_OPEN, a, b) == b - a
    decreases b - a
  {
    if a < b {
      AlwaysOpenCounts(a, b - 1);
    }
  }

  /** Pausing without evaluating first loses exactly the time by which the pause came too late. */
  lemma LatePauseMisses(policy: Policy, kind: TargetType, at: int, overrun: nat)
    ensures
      var c := ALWAYS_OPEN;
      var start := Started(c, policy, kind, at);
      && start.dueAt == at + BudgetMs(start)
      && var s := Act(c, Timer(start, BLANK, at), Pause, start.dueAt + overrun);
         && s.target.state == Paused
         && s.ledger.ranMs + RemainingBusinessMs(c, Reference(s.target, s.now), s.target.dueAt)
            == BudgetMs(start) + overrun
  {
    var c := ALWAYS_OPEN;
    assert Live(c);
    var start := Started(c, policy, kind, at);
    AddReachesEarliest(c, at, BudgetMs(start));
    AlwaysOpenCounts(at, start.dueAt);
    AlwaysOpenCounts(at, start.dueAt + overrun);
  }
}
