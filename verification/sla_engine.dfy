/**
 The SLA timers of one ticket: the target rows, oldest first, and the warning and
 breach events emitted for them. The functions say what each engine call does to
 both, and what a workflow's SLA actions do; the class does it row by row.
 */
module SlaEngine {
  import opened Wrappers
  import opened BusinessCalendar
  import opened SlaTarget
  import opened TicketStatuses

  datatype AlertEvent = AlertEvent(target: nat, alert: Alert, at: int)

  datatype Timers = Timers(targets: seq<Target>, log: seq<AlertEvent>)

  function EvaluatedAll(c: Calendar, ts: seq<Target>, now: int): seq<Target> {
    seq(|ts|, i requires 0 <= i < |ts| => Evaluated(c, ts[i], now))
  }

  function AlertsDue(c: Calendar, ts: seq<Target>, now: int): seq<Option<Alert>> {
    seq(|ts|, i requires 0 <= i < |ts| => AlertDue(c, ts[i], now))
  }

  function Sent(i: nat, alert: Option<Alert>, now: int): seq<AlertEvent> {
    if alert.Some? then [AlertEvent(i, alert.value, now)] else []
  }

  /** Events for the alerts due of the first n targets, in order. */
  function AllSent(due: seq<Option<Alert>>, now: int, n: nat): seq<AlertEvent>
    requires n <= |due|
  {
    if n == 0 then [] else AllSent(due, now, n - 1) + Sent(n - 1, due[n - 1], now)
  }

  function AfterEvaluation(c: Calendar, s: Timers, now: int): Timers {
    Timers(EvaluatedAll(c, s.targets, now), s.log + AllSent(AlertsDue(c, s.targets, now), now, |s.targets|))
  }

  function AfterTimerListed(c: Calendar, s: Timers, i: nat, now: int): Timers {
    if i < |s.targets| then
      Timers(s.targets[i := Evaluated(c, s.targets[i], now)],
             s.log + Sent(i, AlertDue(c, s.targets[i], now), now))
    else s
  }

  predicate ShouldPause(status: TicketStatus, policy: Policy) {
    match status
    case Pending => policy.pauseOnPending
    case OnHold => policy.pauseOnHold
    case _ => false
  }

  function Synced(c: Calendar, t: Target, status: TicketStatus, now: int): Target {
    if t.state == Running && ShouldPause(status, t.policy) then PausedAt(t, now)
    else if t.state == Paused && !ShouldPause(status, t.policy) then Resumed(c, t, now)
    else t
  }

  function SyncedAll(c: Calendar, ts: seq<Target>, status: TicketStatus, now: int): seq<Target> {
    seq(|ts|, i requires 0 <= i < |ts| => Synced(c, ts[i], status, now))
  }

  /** Index of the first active target of a kind, or |ts|. */
  function FirstActive(ts: seq<Target>, kind: TargetType): (i: nat)
    ensures i <= |ts|
    ensures i < |ts| ==> ts[i].Active() && ts[i].kind == kind
    ensures forall k :: 0 <= k < i ==> !(ts[k].Active() && ts[k].kind == kind)
  {
    if ts == [] || (ts[0].Active() && ts[0].kind == kind) then 0 else 1 + FirstActive(ts[1..], kind)
  }

  function CompletedFirst(c: Calendar, ts: seq<Target>, kind: TargetType, now: int): seq<Target> {
    var i := FirstActive(ts, kind);
    if i < |ts| then ts[i := Completed(c, ts[i], now)] else ts
  }

  /** The policy of the newest RESOLUTION target. */
  function LatestResolutionPolicy(ts: seq<Target>): Option<Policy> {
    if ts == [] then None
    else if ts[|ts| - 1].kind == Resolution then Some(ts[|ts| - 1].policy)
    else LatestResolutionPolicy(ts[..|ts| - 1])
  }

  function Reopened(c: Calendar, ts: seq<Target>, now: int): seq<Target> {
    match LatestResolutionPolicy(ts)
    case Some(policy) =>
      if policy.restartResolutionOnReopen then ts + [Started(c, policy, Resolution, now)] else ts
    case None => ts
  }

  /** Targets of a new ticket; none when no published policy matches it. */
  function AfterCreation(c: Calendar, matched: Option<Policy>, at: int): Timers {
    match matched
    case None => Timers([], [])
    case Some(policy) =>
      Timers([Started(c, policy, Response, at), Started(c, policy, Resolution, at)], [])
  }

  function Settled(c: Calendar, ts: seq<Target>, previous: TicketStatus, status: TicketStatus, now: int): seq<Target> {
    var completed := if status == Solved then CompletedFirst(c, ts, Resolution, now) else ts;
    var reopened := if previous == Solved && status == Open then Reopened(c, completed, now) else completed;
    SyncedAll(c, reopened, status, now)
  }

  function AfterStatusChange(c: Calendar, s: Timers, previous: TicketStatus, status: TicketStatus, now: int): Timers {
    var evaluated := AfterEvaluation(c, s, now);
    AfterEvaluation(c, Timers(Settled(c, evaluated.targets, previous, status, now), evaluated.log), now)
  }

  function AfterPublicComment(c: Calendar, s: Timers, byRequester: bool, now: int): Timers {
    if byRequester then s
    else AfterEvaluation(c, Timers(CompletedFirst(c, s.targets, Response, now), s.log), now)
  }

  /** A workflow's sla_start: the first active target of the kind. */
  function ForceStartedFirst(ts: seq<Target>, kind: TargetType): seq<Target> {
    var i := FirstActive(ts, kind);
    if i < |ts| then ts[i := ForceStarted(ts[i])] else ts
  }

  /** A workflow's sla_stop: the first active target of the kind. */
  function ForceStoppedFirst(ts: seq<Target>, kind: TargetType, now: int): seq<Target> {
    var i := FirstActive(ts, kind);
    if i < |ts| then ts[i := ForceStopped(ts[i], now)] else ts
  }

  // ------------------------------------------------------------------
  // The engine
  // ------------------------------------------------------------------

  class TicketTimers {
    const calendar: Calendar
    var targets: seq<Target>
    var log: seq<AlertEvent>

    ghost function View(): Timers
      reads this
    {
      Timers(targets, log)
    }

    /** A ticket is created NEW, so its targets start unpaused. */
    constructor (calendar: Calendar, matched: Option<Policy>, createdAt: int)
      ensures this.calendar == calendar
      ensures View() == AfterCreation(calendar, matched, createdAt)
    {
      this.calendar := calendar;
      targets, log := [], [];
      new;
      if matched.Some? {
        CreateTarget(matched.value, Response, createdAt);
        CreateTarget(matched.value, Resolution, createdAt);
        SyncPauseState(New, createdAt);
      }
    }

    method CreateTarget(policy: Policy, kind: TargetType, startedAt: int)
      modifies this`targets
      ensures targets == old(targets) + [Started(calendar, policy, kind, startedAt)]
    {
      var minutes := if kind == Response then policy.responseMinutes else policy.resolutionMinutes;
      var dueAt := AddBusinessMs(calendar, startedAt, minutes * MS_PER_MINUTE);
      targets := targets + [Target(kind, policy, Running, startedAt, dueAt, None, 0, None, None, None, 1)];
    }

    method FindActiveTarget(kind: TargetType) returns (i: nat)
      ensures i == FirstActive(targets, kind)
    {
      i := 0;
      while i < |targets| && !(targets[i].Active() && targets[i].kind == kind)
        invariant i <= |targets|
        invariant forall k :: 0 <= k < i ==> !(targets[k].Active() && targets[k].kind == kind)
      {
        i := i + 1;
      }
    }

    method PauseTarget(i: nat, now: int)
      requires i < |targets|
      modifies this`targets
      ensures targets == old(targets)[i := PausedAt(old(targets)[i], now)]
    {
      var target := targets[i];
      targets := targets[i := target.(pausedAt := Some(now), state := Paused, version := target.version + 1)];
    }

    method ResumeTarget(i: nat, now: int)
      requires i < |targets|
      modifies this`targets
      ensures targets == old(targets)[i := Resumed(calendar, old(targets)[i], now)]
    {
      var target := targets[i];
      if target.pausedAt.None? {
        return;
      }
      var remaining := RemainingBusinessMs(calendar, target.pausedAt.value, target.dueAt);
      var dueAt := AddBusinessMs(calendar, now, remaining);
      var pauseMs := if now - target.pausedAt.value > 0 then now - target.pausedAt.value else 0;
      targets := targets[i := target.(
        accumulatedPauseMs := target.accumulatedPauseMs + pauseMs, dueAt := dueAt,
        pausedAt := None, state := Running, version := target.version + 1)];
    }

    method CompleteTarget(kind: TargetType, now: int)
      modifies this`targets
      ensures targets == CompletedFirst(calendar, old(targets), kind, now)
    {
      var i := FindActiveTarget(kind);
      if i == |targets| {
        return;
      }
      if targets[i].state == Paused && targets[i].pausedAt.Some? {
        ResumeTarget(i, now);
      }
      assert targets[i].Active() && targets[i].kind == kind;
      var current := FindActiveTarget(kind);
      if current == |targets| {
        return;
      }
      var target := targets[current];
      targets := targets[current := target.(
        completedAt := Some(now), state := Met, version := target.version + 1)];
    }

    method HandleReopen(now: int)
      modifies this`targets
      ensures targets == Reopened(calendar, old(targets), now)
    {
      var n: nat := |targets|;
      assert targets[..n] == targets;
      while n > 0 && targets[n - 1].kind != Resolution
        invariant n <= |targets|
        invariant LatestResolutionPolicy(targets) == LatestResolutionPolicy(targets[..n])
      {
        n := n - 1;
        assert targets[..n + 1][..n] == targets[..n];
      }
      if n == 0 || !targets[n - 1].policy.restartResolutionOnReopen {
        return;
      }
      CreateTarget(targets[n - 1].policy, Resolution, now);
    }

    method SyncPauseState(status: TicketStatus, now: int)
      modifies this`targets
      ensures targets == SyncedAll(calendar, old(targets), status, now)
    {
      var i := 0;
      while i < |targets|
        invariant i <= |targets| == |old(targets)|
        invariant forall j :: 0 <= j < i ==> targets[j] == Synced(calendar, old(targets)[j], status, now)
        invariant forall j :: i <= j < |targets| ==> targets[j] == old(targets)[j]
      {
        var shouldPause := ShouldPause(status, targets[i].policy);
        if shouldPause && targets[i].state == Running {
          PauseTarget(i, now);
        } else if !shouldPause && targets[i].state == Paused {
          ResumeTarget(i, now);
        }
        i := i + 1;
      }
    }

    method EvaluateSingleTarget(i: nat, now: int)
      requires i < |targets|
      modifies this`targets, this`log
      ensures View() == AfterTimerListed(calendar, old(View()), i, now)
    {
      var target := targets[i];
      if target.state != Running {
        return;
      }
      var totalMs := BudgetMs(target);
      var remaining := RemainingBusinessMs(calendar, now, target.dueAt);
      var reached := if totalMs == 0 then 100 >= target.policy.warningThresholdPercent
                     else (totalMs - remaining) * 100 >= target.policy.warningThresholdPercent * totalMs;
      if target.warningNotifiedAt.None? && reached && now < target.dueAt {
        targets := targets[i := target.(warningNotifiedAt := Some(now), version := target.version + 1)];
        log := log + [AlertEvent(i, Warning, now)];
      }
      if now >= target.dueAt {
        targets := targets[i := target.(breachedAt := Some(now), state := Breached, version := target.version + 1)];
        log := log + [AlertEvent(i, Breach, now)];
      }
    }

    method EvaluateTargetsForTicket(now: int)
      modifies this`targets, this`log
      ensures View() == AfterEvaluation(calendar, old(View()), now)
    {
      var i := 0;
      while i < |targets|
        invariant i <= |targets| == |old(targets)|
        invariant forall j :: 0 <= j < i ==> targets[j] == Evaluated(calendar, old(targets)[j], now)
        invariant forall j :: i <= j < |targets| ==> targets[j] == old(targets)[j]
        invariant log == old(log) + AllSent(AlertsDue(calendar, old(targets), now), now, i)
      {
        EvaluateSingleTarget(i, now);
        i := i + 1;
      }
    }

    method OnTicketStatusChanged(previous: TicketStatus, status: TicketStatus, now: int)
      modifies this`targets, this`log
      ensures View() == AfterStatusChange(calendar, old(View()), previous, status, now)
    {
      EvaluateTargetsForTicket(now);
      if status == Solved {
        CompleteTarget(Resolution, now);
      }
      if previous == Solved && status == Open {
        HandleReopen(now);
      }
      SyncPauseState(status, now);
      EvaluateTargetsForTicket(now);
    }

    method OnPublicAgentComment(byRequester: bool, now: int)
      modifies this`targets, this`log
      ensures View() == AfterPublicComment(calendar, old(View()), byRequester, now)
    {
      if byRequester {
        return;
      }
      CompleteTarget(Response, now);
      EvaluateTargetsForTicket(now);
    }

    /** The workflow action sla_start or sla_stop, which writes the row past the engine. */
    method ExecuteWorkflowAction(isStop: bool, kind: TargetType, now: int) returns (found: bool)
      modifies this`targets
      ensures found <==> FirstActive(old(targets), kind) < |old(targets)|
      ensures targets == if isStop then ForceStoppedFirst(old(targets), kind, now) else ForceStartedFirst(old(targets), kind)
    {
      var i := FindActiveTarget(kind);
      found := i < |targets|;
      if !found {
        return;
      }
      var target := targets[i];
      if isStop {
        targets := targets[i := target.(completedAt := Some(now), state := Met, version := target.version + 1)];
      } else {
        targets := targets[i := target.(state := Running, pausedAt := None, version := target.version + 1)];
      }
    }

    /** The remaining time shown for each active target, read after evaluating the ticket. */
    method GetTicketSlaStatus(now: int) returns (remaining: seq<Option<nat>>)
      modifies this`targets, this`log
      ensures View() == AfterEvaluation(calendar, old(View()), now)
      ensures |remaining| == |targets|
      ensures forall i :: 0 <= i < |targets| ==>
        remaining[i] == if targets[i].Active()
                        then Some(RemainingBusinessMs(calendar, Reference(targets[i], now), targets[i].dueAt))
                        else None
    {
      EvaluateTargetsForTicket(now);
      remaining := [];
      for i := 0 to |targets|
        invariant |remaining| == i
        invariant forall j :: 0 <= j < i ==>
          remaining[j] == if targets[j].Active()
                          then Some(RemainingBusinessMs(calendar, Reference(targets[j], now), targets[j].dueAt))
                          else None
      {
        var t := targets[i];
        if t.state == Running || t.state == Paused {
          var reference := if t.pausedAt.Some? then t.pausedAt.value else now;
          remaining := remaining + [Some(RemainingBusinessMs(calendar, reference, t.dueAt))];
        } else {
          remaining := remaining + [None];
        }
      }
    }
  }
}
