/**
 Whole runs of the SLA engine over one ticket's life, with the history of each target
 (its ledger) kept beside the rows.
 */
module SlaRuns {
  import opened Wrappers
  import opened BusinessCalendar
  import opened SlaTarget
  import opened SlaEngine
  import opened TicketStatuses

  /** Calls of the engine, and what workflow actions write past it: a ticket status, sla_start, sla_stop. */
  datatype Call =
    | StatusChanged(status: TicketStatus)
    | PublicComment(byRequester: bool)
    | StatusViewed
    | TimerListed(index: nat)
    | StatusWritten(status: TicketStatus)
    | SlaStart(kind: TargetType)
    | SlaStop(kind: TargetType)

  /** status is the stored status of the ticket, which the engine may not have been told of. */
  datatype Desk = Desk(status: TicketStatus, now: int, timers: Timers, ledgers: seq<Ledger>)

  function Opened(c: Calendar, matched: Option<Policy>, at: int): Desk {
    var timers := AfterCreation(c, matched, at);
    Desk(New, at, timers, seq(|timers.targets|, _ => BLANK))
  }

  /** Only requests are held to the table of status moves. */
  predicate Permitted(d: Desk, call: Call, at: int) {
    && d.now <= at
    && |d.ledgers| == |d.timers.targets|
    && (call.StatusChanged? ==> AllowedTransition(d.status, call.status))
  }

  function AfterCall(c: Calendar, d: Desk, call: Call, at: int): Timers {
    match call
    case StatusChanged(status) => AfterStatusChange(c, d.timers, d.status, status, at)
    case PublicComment(byRequester) => AfterPublicComment(c, d.timers, byRequester, at)
    case StatusViewed => AfterEvaluation(c, d.timers, at)
    case TimerListed(index) => AfterTimerListed(c, d.timers, index, at)
    case StatusWritten(_) => d.timers
    case SlaStart(kind) => d.timers.(targets := ForceStartedFirst(d.timers.targets, kind))
    case SlaStop(kind) => d.timers.(targets := ForceStoppedFirst(d.timers.targets, kind, at))
  }

  /** Every ledger ages with its target; a target added by the call starts a blank one. */
  function Aged(c: Calendar, ts: seq<Target>, ls: seq<Ledger>, from: int, to: int, n: nat): seq<Ledger>
    requires |ls| == |ts| && from <= to
  {
    seq(n, i requires 0 <= i < n =>
      if i < |ts| then Elapsed(c, ts[i], ls[i], from, to) else BLANK)
  }

  /** What the ledgers note of a workflow action. */
  function Noted(c: Calendar, ts: seq<Target>, ls: seq<Ledger>, call: Call, at: int): seq<Ledger>
    requires |ts| <= |ls|
  {
    match call
    case SlaStart(kind) =>
      var i := FirstActive(ts, kind);
      if i < |ts| then ls[i := CutOff(c, ts[i], ls[i], at)] else ls
    case SlaStop(kind) =>
      var i := FirstActive(ts, kind);
      if i < |ts| then ls[i := ls[i].(stopped := true)] else ls
    case _ => ls
  }

  function Next(c: Calendar, d: Desk, call: Call, at: int): (after: Desk)
    requires Permitted(d, call, at)
  {
    var timers := AfterCall(c, d, call, at);
    var ts := d.timers.targets;
    var n := if |ts| < |timers.targets| then |timers.targets| else |ts|;
    Desk(if call.StatusChanged? || call.StatusWritten? then call.status else d.status, at, timers,
         Noted(c, ts, Aged(c, ts, d.ledgers, d.now, at, n), call, at))
  }

  // ------------------------------------------------------------------
  // One target
  // ------------------------------------------------------------------

  /** What holds of each target at all times: conservation with nothing missed, and timely outcomes. */
  ghost predicate Sound(c: Calendar, t: Target, l: Ledger, now: int) {
    && Accounted(c, t, l, now)
    && l.lateMs == 0
    && (t.state == Paused ==> t.pausedAt.value < t.dueAt)
    && (l.stopped ==> t.state == Met)
    && (t.state == Met && t.kind == Resolution && !l.stopped ==>
          t.completedAt.value < t.dueAt && l.ranMs + l.cutMs < BudgetMs(t))
  }

  lemma EvaluatedSound(c: Calendar, t: Target, l: Ledger, now: int)
    requires Sound(c, t, l, now)
    ensures Sound(c, Evaluated(c, t, now), l, now)
    ensures Evaluated(c, t, now).state == Running ==> now < t.dueAt
  {
    EvaluateAccounted(c, t, l, now);
  }

  lemma SyncedSound(c: Calendar, t: Target, l: Ledger, status: TicketStatus, now: int)
    requires Live(c) && Sound(c, t, l, now)
    requires t.state == Running && ShouldPause(status, t.policy) ==> now < t.dueAt
    ensures Sound(c, Synced(c, t, status, now), l, now)
    ensures t.Active() ==> t.dueAt <= Synced(c, t, status, now).dueAt
  {
    if t.state == Running {
      PauseAccounted(c, t, l, now);
    } else if t.state == Paused {
      ResumeAccounted(c, t, l, now);
    }
  }

  lemma CompletedSound(c: Calendar, t: Target, l: Ledger, now: int)
    requires Live(c) && Sound(c, t, l, now) && t.Active()
    requires t.state == Running && t.kind == Resolution ==> now < t.dueAt
    ensures Sound(c, Completed(c, t, now), l, now)
    ensures t.dueAt <= Completed(c, t, now).dueAt
  {
    CompleteAccounted(c, t, l, now);
    if t.state == Paused {
      ResumeAccounted(c, t, l, now);
    }
    var done := Completed(c, t, now);
    if t.kind == Resolution {
      AddReachesEarliest(c, now, RemainingBusinessMs(c, Reference(t, now), t.dueAt));
      CountsMonotone(c, now, done.dueAt - 1, done.dueAt);
    }
  }

  // ------------------------------------------------------------------
  // All targets of the ticket
  // ------------------------------------------------------------------

  ghost predicate AllSound(c: Calendar, ts: seq<Target>, ls: seq<Ledger>, now: int) {
    |ls| == |ts| && forall i :: 0 <= i < |ts| ==> Sound(c, ts[i], ls[i], now)
  }

  ghost predicate RunningInTime(ts: seq<Target>, now: int) {
    forall i :: 0 <= i < |ts| ==> ts[i].state == Running ==> now < ts[i].dueAt
  }

  ghost predicate OneActivePerKind(ts: seq<Target>) {
    forall i, j :: 0 <= i < j < |ts| ==> ts[i].Active() && ts[j].Active() ==> ts[i].kind != ts[j].kind
  }

  ghost predicate NoneActive(ts: seq<Target>, kind: TargetType) {
    forall i :: 0 <= i < |ts| ==> !(ts[i].Active() && ts[i].kind == kind)
  }

  /** The same targets later: nothing revived, finished rows untouched, deadlines never earlier. */
  ghost predicate Advanced(before: seq<Target>, after: seq<Target>) {
    && |before| <= |after|
    && forall i :: 0 <= i < |before| ==>
         && after[i].kind == before[i].kind
         && after[i].policy == before[i].policy
         && (!before[i].Active() ==> after[i] == before[i])
         && (before[i].Active() ==> before[i].dueAt <= after[i].dueAt)
  }

  lemma EvaluationSound(c: Calendar, ts: seq<Target>, ls: seq<Ledger>, now: int)
    requires AllSound(c, ts, ls, now)
    ensures AllSound(c, EvaluatedAll(c, ts, now), ls, now)
    ensures RunningInTime(EvaluatedAll(c, ts, now), now)
    ensures Advanced(ts, EvaluatedAll(c, ts, now))
  {
    forall i | 0 <= i < |ts|
      ensures Sound(c, Evaluated(c, ts[i], now), ls[i], now)
      ensures Evaluated(c, ts[i], now).state == Running ==> now < ts[i].dueAt
    {
      EvaluatedSound(c, ts[i], ls[i], now);
    }
  }

  lemma CompletionSound(c: Calendar, ts: seq<Target>, ls: seq<Ledger>, kind: TargetType, now: int)
    requires Live(c) && AllSound(c, ts, ls, now)
    requires kind == Resolution ==> RunningInTime(ts, now)
    ensures AllSound(c, CompletedFirst(c, ts, kind, now), ls, now)
    ensures Advanced(ts, CompletedFirst(c, ts, kind, now))
    ensures RunningInTime(ts, now) ==> RunningInTime(CompletedFirst(c, ts, kind, now), now)
  {
    var i := FirstActive(ts, kind);
    if i < |ts| {
      CompletedSound(c, ts[i], ls[i], now);
    }
  }

  lemma SyncSound(c: Calendar, ts: seq<Target>, ls: seq<Ledger>, status: TicketStatus, now: int)
    requires Live(c) && AllSound(c, ts, ls, now)
    requires status == Open || RunningInTime(ts, now)
    ensures AllSound(c, SyncedAll(c, ts, status, now), ls, now)
    ensures Advanced(ts, SyncedAll(c, ts, status, now))
  {
    forall i | 0 <= i < |ts|
      ensures Sound(c, Synced(c, ts[i], status, now), ls[i], now)
      ensures ts[i].Active() ==> ts[i].dueAt <= Synced(c, ts[i], status, now).dueAt
    {
      SyncedSound(c, ts[i], ls[i], status, now);
    }
  }

  lemma ReopenSound(c: Calendar, ts: seq<Target>, ls: seq<Ledger>, now: int)
    requires Live(c) && AllSound(c, ts, ls, now)
    ensures |ts| <= |Reopened(c, ts, now)| <= |ts| + 1
    ensures AllSound(c, Reopened(c, ts, now), ls + seq(|Reopened(c, ts, now)| - |ts|, _ => BLANK), now)
    ensures Advanced(ts, Reopened(c, ts, now))
  {
    var policy := LatestResolutionPolicy(ts);
    if policy.Some? {
      StartAccounted(c, policy.value, Resolution, now);
    }
  }

  lemma ForcedSound(c: Calendar, t: Target, l: Ledger, now: int)
    requires Sound(c, t, l, now) && t.Active()
    ensures Sound(c, ForceStarted(t), CutOff(c, t, l, now), now)
    ensures Sound(c, ForceStopped(t, now), l.(stopped := true), now)
  {
    ForceStartAccounted(c, t, l, now);
    ForceStopAccounted(c, t, l, now);
  }

  lemma AdvancedTransitive(a: seq<Target>, b: seq<Target>, z: seq<Target>)
    requires Advanced(a, b) && Advanced(b, z)
    ensures Advanced(a, z)
  {
  }

  // ------------------------------------------------------------------
  // Alerts
  // ------------------------------------------------------------------

  function AlertsFor(log: seq<AlertEvent>, i: nat): seq<Alert> {
    if log == [] then []
    else
      var last := log[|log| - 1];
      AlertsFor(log[..|log| - 1], i) + (if last.target == i then [last.alert] else [])
  }

  lemma {:induction false} AlertsForAppends(a: seq<AlertEvent>, b: seq<AlertEvent>, i: nat)
    ensures AlertsFor(a + b, i) == AlertsFor(a, i) + AlertsFor(b, i)
    decreases |b|
  {
    if b == [] {
      assert a + b == a;
    } else {
      assert (a + b)[..|a + b| - 1] == a + b[..|b| - 1];
      AlertsForAppends(a, b[..|b| - 1], i);
    }
  }

  function AsSeq(alert: Option<Alert>): seq<Alert> {
    if alert.Some? then [alert.value] else []
  }

  lemma SentFor(k: nat, alert: Option<Alert>, now: int, i: nat)
    ensures AlertsFor(Sent(k, alert, now), i) == if i == k then AsSeq(alert) else []
  {
    assert Sent(k, alert, now) != [] ==> Sent(k, alert, now)[..0] == [];
  }

  lemma OneMoreSent(earlier: seq<AlertEvent>, k: nat, alert: Option<Alert>, now: int, i: nat)
    requires AlertsFor(earlier, i) == [] || i < k
    ensures AlertsFor(earlier + Sent(k, alert, now), i) == if i == k then AsSeq(alert) else AlertsFor(earlier, i)
  {
    AlertsForAppends(earlier, Sent(k, alert, now), i);
    SentFor(k, alert, now, i);
  }

  lemma {:induction false} AllSentFor(due: seq<Option<Alert>>, now: int, n: nat, i: nat)
    requires n <= |due|
    ensures AlertsFor(AllSent(due, now, n), i) == if i < n then AsSeq(due[i]) else []
    decreases n
  {
    if n > 0 {
      var earlier := AllSent(due, now, n - 1);
      AllSentFor(due, now, n - 1, i);
      calc {
        AlertsFor(AllSent(due, now, n), i);
        AlertsFor(earlier + Sent(n - 1, due[n - 1], now), i);
        { OneMoreSent(earlier, n - 1, due[n - 1], now, i); }
        if i == n - 1 then AsSeq(due[n - 1]) else AlertsFor(earlier, i);
      }
    }
  }

  /** The alerts a row's fields say were sent: at most one warning, at most one breach, in that order. */
  function Recorded(t: Target): seq<Alert> {
    (if t.warningNotifiedAt.Some? then [Warning] else []) + (if t.state == Breached then [Breach] else [])
  }

  function RecordedAt(ts: seq<Target>, i: nat): seq<Alert> {
    if i < |ts| then Recorded(ts[i]) else []
  }

  ghost predicate LogMatches(s: Timers) {
    forall i: nat :: AlertsFor(s.log, i) == RecordedAt(s.targets, i)
  }

  ghost predicate SameAlerts(before: seq<Target>, after: seq<Target>) {
    forall i: nat :: RecordedAt(before, i) == RecordedAt(after, i)
  }

  lemma EvaluationRecords(c: Calendar, t: Target, now: int)
    ensures Recorded(Evaluated(c, t, now)) == Recorded(t) + AsSeq(AlertDue(c, t, now))
  {
  }

  lemma EvaluationLogged(c: Calendar, s: Timers, now: int)
    requires LogMatches(s)
    ensures LogMatches(AfterEvaluation(c, s, now))
  {
    var ts := s.targets;
    var after := AfterEvaluation(c, s, now);
    forall i: nat ensures AlertsFor(after.log, i) == RecordedAt(after.targets, i) {
      AlertsForAppends(s.log, AllSent(AlertsDue(c, ts, now), now, |ts|), i);
      AllSentFor(AlertsDue(c, ts, now), now, |ts|, i);
      if i < |ts| {
        EvaluationRecords(c, ts[i], now);
      }
    }
  }

  lemma ListingLogged(c: Calendar, s: Timers, k: nat, now: int)
    requires LogMatches(s)
    ensures LogMatches(AfterTimerListed(c, s, k, now))
  {
    if k < |s.targets| {
      var sent := Sent(k, AlertDue(c, s.targets[k], now), now);
      var after := AfterTimerListed(c, s, k, now);
      forall i: nat ensures AlertsFor(after.log, i) == RecordedAt(after.targets, i) {
        AlertsForAppends(s.log, sent, i);
        SentFor(k, AlertDue(c, s.targets[k], now), now, i);
        EvaluationRecords(c, s.targets[k], now);
      }
    }
  }

  lemma CompletionSameAlerts(c: Calendar, ts: seq<Target>, kind: TargetType, now: int)
    ensures SameAlerts(ts, CompletedFirst(c, ts, kind, now))
  {
    var i := FirstActive(ts, kind);
    if i < |ts| {
      assert Recorded(Completed(c, ts[i], now)) == Recorded(ts[i]);
    }
  }

  lemma SyncSameAlerts(c: Calendar, ts: seq<Target>, status: TicketStatus, now: int)
    ensures SameAlerts(ts, SyncedAll(c, ts, status, now))
  {
    forall i: nat ensures RecordedAt(ts, i) == RecordedAt(SyncedAll(c, ts, status, now), i) {
      if i < |ts| {
        assert Recorded(Synced(c, ts[i], status, now)) == Recorded(ts[i]);
      }
    }
  }

  /** Completing, reopening and pausing leave the alert fields of every row alone. */
  lemma SettledSameAlerts(c: Calendar, ts: seq<Target>, previous: TicketStatus, status: TicketStatus, now: int)
    ensures SameAlerts(ts, Settled(c, ts, previous, status, now))
  {
    var completed := if status == Solved then CompletedFirst(c, ts, Resolution, now) else ts;
    CompletionSameAlerts(c, ts, Resolution, now);
    var reopened := if previous == Solved && status == Open then Reopened(c, completed, now) else completed;
    SyncSameAlerts(c, reopened, status, now);
    forall i: nat ensures RecordedAt(ts, i) == RecordedAt(SyncedAll(c, reopened, status, now), i) {
      assert RecordedAt(completed, i) == RecordedAt(reopened, i);
    }
  }

  // ------------------------------------------------------------------
  // Every reachable state
  // ------------------------------------------------------------------

  ghost predicate Invariant(c: Calendar, d: Desk) {
    AllSound(c, d.timers.targets, d.ledgers, d.now) && LogMatches(d.timers)
  }

  lemma OpenedInvariant(c: Calendar, matched: Option<Policy>, at: int)
    requires Live(c)
    ensures Invariant(c, Opened(c, matched, at)) && OneActivePerKind(Opened(c, matched, at).timers.targets)
    ensures Opened(c, matched, at).status == New && |Opened(c, matched, at).timers.targets| == if matched.Some? then 2 else 0
  {
    if matched.Some? {
      StartAccounted(c, matched.value, Response, at);
      StartAccounted(c, matched.value, Resolution, at);
    }
  }

  lemma AgedSound(c: Calendar, ts: seq<Target>, ls: seq<Ledger>, from: int, to: int)
    requires from <= to && AllSound(c, ts, ls, from)
    ensures AllSound(c, ts, Aged(c, ts, ls, from, to, |ts|), to)
  {
    forall i | 0 <= i < |ts| ensures Sound(c, ts[i], Elapsed(c, ts[i], ls[i], from, to), to) {
      ElapsedAccounted(c, ts[i], ls[i], from, to);
    }
  }

  lemma SettledSound(c: Calendar, ts: seq<Target>, ls: seq<Ledger>, previous: TicketStatus, status: TicketStatus, now: int)
    requires Live(c) && AllSound(c, ts, ls, now) && RunningInTime(ts, now)
    ensures
      var ts' := Settled(c, ts, previous, status, now);
      && |ts| <= |ts'| <= |ts| + 1
      && AllSound(c, ts', ls + seq(|ts'| - |ts|, _ => BLANK), now)
      && Advanced(ts, ts')
  {
    var completed := if status == Solved then CompletedFirst(c, ts, Resolution, now) else ts;
    CompletionSound(c, ts, ls, Resolution, now);
    var reopened := if previous == Solved && status == Open then Reopened(c, completed, now) else completed;
    if previous == Solved && status == Open {
      ReopenSound(c, completed, ls, now);
    }
    var ls' := ls + seq(|reopened| - |ts|, _ => BLANK);
    SyncSound(c, reopened, ls', status, now);
    AdvancedTransitive(ts, completed, reopened);
    AdvancedTransitive(ts, reopened, SyncedAll(c, reopened, status, now));
  }

  /** Evaluate, settle, evaluate again: the rows after a status change. */
  lemma StatusChangeSound(c: Calendar, ts: seq<Target>, ls: seq<Ledger>, previous: TicketStatus, status: TicketStatus, at: int)
    requires Live(c) && AllSound(c, ts, ls, at)
    ensures
      var after := EvaluatedAll(c, Settled(c, EvaluatedAll(c, ts, at), previous, status, at), at);
      && |ts| <= |after|
      && AllSound(c, after, ls + seq(|after| - |ts|, _ => BLANK), at)
      && Advanced(ts, after)
  {
    EvaluationSound(c, ts, ls, at);
    var evaluated := EvaluatedAll(c, ts, at);
    SettledSound(c, evaluated, ls, previous, status, at);
    var settled := Settled(c, evaluated, previous, status, at);
    EvaluationSound(c, settled, ls + seq(|settled| - |ts|, _ => BLANK), at);
    AdvancedTransitive(ts, evaluated, settled);
    AdvancedTransitive(ts, settled, EvaluatedAll(c, settled, at));
  }

  lemma StatusChangeKeeps(c: Calendar, d: Desk, status: TicketStatus, at: int)
    requires Live(c) && Invariant(c, d) && Permitted(d, StatusChanged(status), at)
    ensures var d' := Next(c, d, StatusChanged(status), at);
      Invariant(c, d') && Advanced(d.timers.targets, d'.timers.targets)
  {
    var ts := d.timers.targets;
    var ls := Aged(c, ts, d.ledgers, d.now, at, |ts|);
    AgedSound(c, ts, d.ledgers, d.now, at);
    StatusChangeSound(c, ts, ls, d.status, status, at);
    StatusChangeLogged(c, d.timers, d.status, status, at);
    AgedExtends(c, ts, d.ledgers, d.now, at, |AfterStatusChange(c, d.timers, d.status, status, at).targets|);
  }

  lemma AgedExtends(c: Calendar, ts: seq<Target>, ls: seq<Ledger>, from: int, to: int, n: nat)
    requires |ls| == |ts| && from <= to && |ts| <= n
    ensures Aged(c, ts, ls, from, to, |ts|) + seq(n - |ts|, _ => BLANK) == Aged(c, ts, ls, from, to, n)
  {}

  lemma StatusChangeLogged(c: Calendar, s: Timers, previous: TicketStatus, status: TicketStatus, at: int)
    requires LogMatches(s)
    ensures LogMatches(AfterStatusChange(c, s, previous, status, at))
  {
    EvaluationLogged(c, s, at);
    var evaluated := AfterEvaluation(c, s, at);
    SettledSameAlerts(c, evaluated.targets, previous, status, at);
    EvaluationLogged(c, Timers(Settled(c, evaluated.targets, previous, status, at), evaluated.log), at);
  }

  lemma CommentKeeps(c: Calendar, d: Desk, byRequester: bool, at: int)
    requires Live(c) && Invariant(c, d) && Permitted(d, PublicComment(byRequester), at)
    ensures var d' := Next(c, d, PublicComment(byRequester), at);
      Invariant(c, d') && Advanced(d.timers.targets, d'.timers.targets)
  {
    var ts := d.timers.targets;
    var ls := Aged(c, ts, d.ledgers, d.now, at, |ts|);
    AgedSound(c, ts, d.ledgers, d.now, at);
    if !byRequester {
      var completed := CompletedFirst(c, ts, Response, at);
      CompletionSound(c, ts, ls, Response, at);
      EvaluationSound(c, completed, ls, at);
      AdvancedTransitive(ts, completed, EvaluatedAll(c, completed, at));
      CompletionSameAlerts(c, ts, Response, at);
      EvaluationLogged(c, Timers(completed, d.timers.log), at);
    }
  }

  lemma ViewKeeps(c: Calendar, d: Desk, at: int)
    requires Live(c) && Invariant(c, d) && Permitted(d, StatusViewed, at)
    ensures var d' := Next(c, d, StatusViewed, at);
      Invariant(c, d') && Advanced(d.timers.targets, d'.timers.targets)
  {
    var ts := d.timers.targets;
    AgedSound(c, ts, d.ledgers, d.now, at);
    EvaluationSound(c, ts, Aged(c, ts, d.ledgers, d.now, at, |ts|), at);
    EvaluationLogged(c, d.timers, at);
  }

  lemma ListingKeeps(c: Calendar, d: Desk, index: nat, at: int)
    requires Live(c) && Invariant(c, d) && Permitted(d, TimerListed(index), at)
    ensures var d' := Next(c, d, TimerListed(index), at);
      Invariant(c, d') && Advanced(d.timers.targets, d'.timers.targets)
  {
    var ts := d.timers.targets;
    var ls := Aged(c, ts, d.ledgers, d.now, at, |ts|);
    AgedSound(c, ts, d.ledgers, d.now, at);
    ListingLogged(c, d.timers, index, at);
    if index < |ts| {
      EvaluatedSound(c, ts[index], ls[index], at);
    }
  }

  lemma OneRowKeeps(c: Calendar, ts: seq<Target>, ls: seq<Ledger>, i: nat, t: Target, l: Ledger, now: int)
    requires AllSound(c, ts, ls, now) && i < |ts| && ts[i].Active() && Sound(c, t, l, now)
    requires t.kind == ts[i].kind && t.policy == ts[i].policy && t.dueAt == ts[i].dueAt && Recorded(t) == Recorded(ts[i])
    ensures AllSound(c, ts[i := t], ls[i := l], now) && Advanced(ts, ts[i := t]) && SameAlerts(ts, ts[i := t])
  {
  }

  lemma ForcedRowsKeep(c: Calendar, ts: seq<Target>, ls: seq<Ledger>, call: Call, now: int)
    requires AllSound(c, ts, ls, now) && (call.SlaStart? || call.SlaStop?)
    ensures
      var ts' := if call.SlaStart? then ForceStartedFirst(ts, call.kind) else ForceStoppedFirst(ts, call.kind, now);
      AllSound(c, ts', Noted(c, ts, ls, call, now), now) && Advanced(ts, ts') && SameAlerts(ts, ts')
  {
    var i := FirstActive(ts, call.kind);
    if i < |ts| {
      ForcedSound(c, ts[i], ls[i], now);
      if call.SlaStart? {
        OneRowKeeps(c, ts, ls, i, ForceStarted(ts[i]), CutOff(c, ts[i], ls[i], now), now);
      } else {
        OneRowKeeps(c, ts, ls, i, ForceStopped(ts[i], now), ls[i].(stopped := true), now);
      }
    }
  }

  /** What a workflow writes past the engine. */
  lemma WorkflowKeeps(c: Calendar, d: Desk, call: Call, at: int)
    requires Live(c) && Invariant(c, d) && Permitted(d, call, at)
    requires call.StatusWritten? || call.SlaStart? || call.SlaStop?
    ensures var d' := Next(c, d, call, at);
      Invariant(c, d') && Advanced(d.timers.targets, d'.timers.targets)
  {
    var ts := d.timers.targets;
    AgedSound(c, ts, d.ledgers, d.now, at);
    if !call.StatusWritten? {
      ForcedRowsKeep(c, ts, Aged(c, ts, d.ledgers, d.now, at, |ts|), call, at);
    }
  }

  lemma CallKeeps(c: Calendar, d: Desk, call: Call, at: int)
    requires Live(c) && Invariant(c, d) && Permitted(d, call, at)
    ensures Invariant(c, Next(c, d, call, at))
    ensures Advanced(d.timers.targets, Next(c, d, call, at).timers.targets)
  {
    match call
    case StatusChanged(status) => StatusChangeKeeps(c, d, status, at);
    case PublicComment(byRequester) => CommentKeeps(c, d, byRequester, at);
    case StatusViewed => ViewKeeps(c, d, at);
    case TimerListed(index) => ListingKeeps(c, d, index, at);
    case _ => WorkflowKeeps(c, d, call, at);
  }

  type Run = seq<(Call, int)>

  ghost predicate Legal(c: Calendar, d: Desk, run: Run)
    decreases |run|
  {
    run == [] || (Permitted(d, run[0].0, run[0].1) && Legal(c, Next(c, d, run[0].0, run[0].1), run[1..]))
  }

  ghost function After(c: Calendar, d: Desk, run: Run): Desk
    requires Legal(c, d, run)
    decreases |run|
  {
    if run == [] then d else After(c, Next(c, d, run[0].0, run[0].1), run[1..])
  }

  lemma {:induction false} RunKeeps(c: Calendar, d: Desk, run: Run)
    requires Live(c) && Invariant(c, d) && Legal(c, d, run)
    ensures Invariant(c, After(c, d, run))
    ensures Advanced(d.timers.targets, After(c, d, run).timers.targets)
    decreases |run|
  {
    if run != [] {
      var d' := Next(c, d, run[0].0, run[0].1);
      CallKeeps(c, d, run[0].0, run[0].1);
      RunKeeps(c, d', run[1..]);
      AdvancedTransitive(d.timers.targets, d'.timers.targets, After(c, d, run).timers.targets);
    }
  }

  // ------------------------------------------------------------------
  // What every run guarantees
  // ------------------------------------------------------------------

  /** The business-time promise of one target; what workflow starts cut off counts as if it had run. */
  ghost predicate Promise(c: Calendar, t: Target, l: Ledger, now: int) {
    var budget, used := BudgetMs(t), l.ranMs + l.cutMs;
    match t.state
    case Running =>
      && (now <= t.dueAt ==> used + RemainingBusinessMs(c, now, t.dueAt) == budget)
      && t.accumulatedPauseMs + l.unbookedMs == l.awayMs
    case Paused =>
      && t.pausedAt.Some? && t.pausedAt.value < t.dueAt
      && used + RemainingBusinessMs(c, t.pausedAt.value, t.dueAt) == budget
      && t.accumulatedPauseMs + l.unbookedMs + (now - t.pausedAt.value) == l.awayMs
    case Met =>
      && t.completedAt.Some?
      && (t.kind == Resolution && !l.stopped ==> t.completedAt.value < t.dueAt && used < budget)
    case Breached => t.breachedAt.Some? && t.completedAt.None? && budget <= used
  }

  /**
   On every run, workflow actions included: RUNNING business time plus remaining time, plus what workflow
   starts cut off, is the budget; a RESOLUTION that no workflow stopped is MET only inside its budget; and
   nothing is BREACHED before using it up.
   */
  lemma EveryRunKeepsPromises(c: Calendar, matched: Option<Policy>, at: int, run: Run, i: nat)
    requires Live(c) && Legal(c, Opened(c, matched, at), run)
    requires i < |After(c, Opened(c, matched, at), run).timers.targets|
    ensures var d := After(c, Opened(c, matched, at), run);
      |d.ledgers| == |d.timers.targets| && Promise(c, d.timers.targets[i], d.ledgers[i], d.now)
  {
    OpenedInvariant(c, matched, at);
    RunKeeps(c, Opened(c, matched, at), run);
  }

  /** Nothing has been cut off or left unbooked. */
  ghost predicate Unharmed(ls: seq<Ledger>) {
    forall i :: 0 <= i < |ls| ==> ls[i].cutMs == 0 && ls[i].unbookedMs == 0
  }

  /** An sla_start reaches a target that has been PAUSED for some time. */
  predicate Harms(d: Desk, call: Call, at: int) {
    call.SlaStart?
    && var i := FirstActive(d.timers.targets, call.kind);
       i < |d.timers.targets| && d.timers.targets[i].state == Paused
       && d.timers.targets[i].pausedAt.Some? && d.timers.targets[i].pausedAt.value < at
  }

  ghost predicate NeverHarms(c: Calendar, d: Desk, run: Run)
    requires Legal(c, d, run)
    decreases |run|
  {
    run == [] || (!Harms(d, run[0].0, run[0].1) && NeverHarms(c, Next(c, d, run[0].0, run[0].1), run[1..]))
  }

  lemma AgeingHarmsNone(c: Calendar, ts: seq<Target>, ls: seq<Ledger>, from: int, to: int, n: nat)
    requires |ls| == |ts| && from <= to && |ts| <= n
    ensures Unharmed(Aged(c, ts, ls, from, to, n)) <==> Unharmed(ls)
  {
    var aged := Aged(c, ts, ls, from, to, n);
    assert forall i :: 0 <= i < |ts| ==> aged[i].cutMs == ls[i].cutMs && aged[i].unbookedMs == ls[i].unbookedMs;
  }

  lemma NotingHarmsIff(c: Calendar, ts: seq<Target>, ls: seq<Ledger>, kind: TargetType, at: int)
    requires AllSound(c, ts, ls, at)
    ensures
      var i := FirstActive(ts, kind);
      Unharmed(Noted(c, ts, ls, SlaStart(kind), at)) <==>
        Unharmed(ls) && !(i < |ts| && ts[i].state == Paused && ts[i].pausedAt.Some? && ts[i].pausedAt.value < at)
  {
    var i := FirstActive(ts, kind);
    if i < |ts| {
      var noted := Noted(c, ts, ls, SlaStart(kind), at);
      assert Sound(c, ts[i], ls[i], at);
      assert noted[i] == CutOff(c, ts[i], ls[i], at);
      assert ls == noted[i := ls[i]];
    }
  }

  lemma StoppingHarmsNone(c: Calendar, ts: seq<Target>, ls: seq<Ledger>, kind: TargetType, at: int)
    requires |ls| == |ts|
    ensures Unharmed(Noted(c, ts, ls, SlaStop(kind), at)) <==> Unharmed(ls)
  {
    var i := FirstActive(ts, kind);
    if i < |ts| {
      var noted := Noted(c, ts, ls, SlaStop(kind), at);
      assert noted[i] == ls[i].(stopped := true);
      assert forall k :: 0 <= k < |ls| ==> noted[k].cutMs == ls[k].cutMs && noted[k].unbookedMs == ls[k].unbookedMs;
    }
  }

  lemma CallHarmsIff(c: Calendar, d: Desk, call: Call, at: int)
    requires Invariant(c, d) && Permitted(d, call, at)
    ensures Unharmed(Next(c, d, call, at).ledgers) <==> Unharmed(d.ledgers) && !Harms(d, call, at)
  {
    var ts := d.timers.targets;
    var n := |Next(c, d, call, at).ledgers|;
    AgeingHarmsNone(c, ts, d.ledgers, d.now, at, n);
    if call.SlaStart? {
      AgedSound(c, ts, d.ledgers, d.now, at);
      NotingHarmsIff(c, ts, Aged(c, ts, d.ledgers, d.now, at, n), call.kind, at);
    } else if call.SlaStop? {
      StoppingHarmsNone(c, ts, Aged(c, ts, d.ledgers, d.now, at, n), call.kind, at);
    }
  }

  lemma {:induction false} RunHarmsIff(c: Calendar, d: Desk, run: Run)
    requires Live(c) && Invariant(c, d) && Legal(c, d, run)
    ensures Unharmed(After(c, d, run).ledgers) <==> Unharmed(d.ledgers) && NeverHarms(c, d, run)
    decreases |run|
  {
    if run != [] {
      CallHarmsIff(c, d, run[0].0, run[0].1);
      CallKeeps(c, d, run[0].0, run[0].1);
      RunHarmsIff(c, Next(c, d, run[0].0, run[0].1), run[1..]);
    }
  }

  /**
   So the plain budgets and pause totals hold at the end of a run exactly when no sla_start of the run
   reached a target that had been PAUSED for any time.
   */
  lemma BudgetsArePlainIff(c: Calendar, matched: Option<Policy>, at: int, run: Run)
    requires Live(c) && Legal(c, Opened(c, matched, at), run)
    ensures Unharmed(After(c, Opened(c, matched, at), run).ledgers) <==> NeverHarms(c, Opened(c, matched, at), run)
  {
    OpenedInvariant(c, matched, at);
    RunHarmsIff(c, Opened(c, matched, at), run);
  }

  /** Calls that evaluate target i. */
  predicate LooksAt(call: Call, i: nat) {
    call == StatusViewed || call == TimerListed(i)
  }

  /** A look at a RUNNING target finds it BREACHED exactly when it has used up its budget, cuts included. */
  lemma BreachesAreExact(c: Calendar, matched: Option<Policy>, at: int, run: Run, look: Call, now: int, i: nat)
    requires Live(c) && Legal(c, Opened(c, matched, at), run) && LooksAt(look, i)
    requires var d := After(c, Opened(c, matched, at), run);
      Permitted(d, look, now) && i < |d.timers.targets| && d.timers.targets[i].state == Running
    ensures
      var d := After(c, Opened(c, matched, at), run);
      var d' := Next(c, d, look, now);
      d'.timers.targets[i].state == Breached <==>
        BudgetMs(d.timers.targets[i]) <= d'.ledgers[i].ranMs + d'.ledgers[i].cutMs
  {
    OpenedInvariant(c, matched, at);
    RunKeeps(c, Opened(c, matched, at), run);
    var d := After(c, Opened(c, matched, at), run);
    AgedSound(c, d.timers.targets, d.ledgers, d.now, now);
    BreachIsExact(c, d.timers.targets[i], Elapsed(c, d.timers.targets[i], d.ledgers[i], d.now, now), now);
  }

  // ------------------------------------------------------------------
  // Which targets are PAUSED
  // ------------------------------------------------------------------

  /** Active targets are PAUSED exactly on a PENDING or ON_HOLD ticket whose status their policy pauses on. */
  ghost predicate PausesMatch(ts: seq<Target>, status: TicketStatus) {
    forall i :: 0 <= i < |ts| && ts[i].Active() ==>
      (ts[i].state == Paused <==>
        (status == Pending && ts[i].policy.pauseOnPending) || (status == OnHold && ts[i].policy.pauseOnHold))
  }

  lemma EvaluationKeepsPauses(c: Calendar, ts: seq<Target>, status: TicketStatus, now: int)
    requires PausesMatch(ts, status)
    ensures PausesMatch(EvaluatedAll(c, ts, now), status)
  {
    forall i | 0 <= i < |ts| && Evaluated(c, ts[i], now).Active()
      ensures ts[i].Active() && Evaluated(c, ts[i], now).state == ts[i].state
      ensures Evaluated(c, ts[i], now).policy == ts[i].policy
    {
    }
  }

  lemma SyncMatchesPauses(c: Calendar, ts: seq<Target>, status: TicketStatus, now: int)
    requires forall i :: 0 <= i < |ts| && ts[i].state == Paused ==> ts[i].pausedAt.Some?
    ensures PausesMatch(SyncedAll(c, ts, status, now), status)
  {
  }

  lemma SettlingKeepsPauseTimes(c: Calendar, ts: seq<Target>, previous: TicketStatus, status: TicketStatus, now: int)
    requires forall i :: 0 <= i < |ts| && ts[i].state == Paused ==> ts[i].pausedAt.Some?
    ensures PausesMatch(Settled(c, ts, previous, status, now), status)
  {
    var completed := if status == Solved then CompletedFirst(c, ts, Resolution, now) else ts;
    var reopened := if previous == Solved && status == Open then Reopened(c, completed, now) else completed;
    SyncMatchesPauses(c, reopened, status, now);
  }

  /** Whatever came before, a request leaves the pauses as its status asks. */
  lemma RequestMatchesPauses(c: Calendar, d: Desk, status: TicketStatus, now: int)
    requires Invariant(c, d) && Permitted(d, StatusChanged(status), now)
    ensures PausesMatch(Next(c, d, StatusChanged(status), now).timers.targets, status)
  {
    var ts := d.timers.targets;
    forall i | 0 <= i < |ts| ensures ts[i].state == Paused ==> ts[i].pausedAt.Some? {
      assert Sound(c, ts[i], d.ledgers[i], d.now);
    }
    var evaluated := EvaluatedAll(c, ts, now);
    SettlingKeepsPauseTimes(c, evaluated, d.status, status, now);
    EvaluationKeepsPauses(c, Settled(c, evaluated, d.status, status, now), status, now);
  }

  predicate FromWorkflow(call: Call) {
    call.StatusWritten? || call.SlaStart? || call.SlaStop?
  }

  lemma EngineCallKeepsPauses(c: Calendar, d: Desk, call: Call, at: int)
    requires Invariant(c, d) && Permitted(d, call, at) && !FromWorkflow(call)
    requires PausesMatch(d.timers.targets, d.status)
    ensures var d' := Next(c, d, call, at); PausesMatch(d'.timers.targets, d'.status)
  {
    var ts := d.timers.targets;
    match call
    case StatusChanged(status) => RequestMatchesPauses(c, d, status, at);
    case PublicComment(_) =>
      assert PausesMatch(CompletedFirst(c, ts, Response, at), d.status);
      EvaluationKeepsPauses(c, CompletedFirst(c, ts, Response, at), d.status, at);
    case _ => EvaluationKeepsPauses(c, ts, d.status, at);
  }

  ghost predicate EngineOnly(run: Run) {
    forall i :: 0 <= i < |run| ==> !FromWorkflow(run[i].0)
  }

  lemma {:induction false} EngineRunKeepsPauses(c: Calendar, d: Desk, run: Run)
    requires Live(c) && Invariant(c, d) && Legal(c, d, run) && EngineOnly(run)
    requires PausesMatch(d.timers.targets, d.status)
    ensures var d' := After(c, d, run); PausesMatch(d'.timers.targets, d'.status)
    decreases |run|
  {
    if run != [] {
      EngineCallKeepsPauses(c, d, run[0].0, run[0].1);
      CallKeeps(c, d, run[0].0, run[0].1);
      assert forall i :: 0 <= i < |run[1..]| ==> run[1..][i] == run[i + 1];
      EngineRunKeepsPauses(c, Next(c, d, run[0].0, run[0].1), run[1..]);
    }
  }

  lemma RequestPausesLast(c: Calendar, d: Desk, status: TicketStatus, now: int, more: Run)
    requires Live(c) && Invariant(c, d) && Permitted(d, StatusChanged(status), now) && EngineOnly(more)
    requires Legal(c, Next(c, d, StatusChanged(status), now), more)
    ensures var d' := After(c, Next(c, d, StatusChanged(status), now), more); PausesMatch(d'.timers.targets, d'.status)
  {
    RequestMatchesPauses(c, d, status, now);
    CallKeeps(c, d, StatusChanged(status), now);
    EngineRunKeepsPauses(c, Next(c, d, StatusChanged(status), now), more);
  }

  /**
   On any run, from a request until a workflow writes next: an active target is PAUSED exactly when the ticket
   is PENDING and its policy has pauseOnPending, or ON_HOLD and it has pauseOnHold.
   */
  lemma PausesFollowTheStatus(
      c: Calendar, matched: Option<Policy>, at: int, run: Run, status: TicketStatus, now: int, more: Run)
    requires Live(c) && Legal(c, Opened(c, matched, at), run)
    requires Permitted(After(c, Opened(c, matched, at), run), StatusChanged(status), now) && EngineOnly(more)
    requires Legal(c, Next(c, After(c, Opened(c, matched, at), run), StatusChanged(status), now), more)
    ensures
      var d := After(c, Next(c, After(c, Opened(c, matched, at), run), StatusChanged(status), now), more);
      forall i :: 0 <= i < |d.timers.targets| && d.timers.targets[i].Active() ==>
        (d.timers.targets[i].state == Paused <==>
          || (d.status == Pending && d.timers.targets[i].policy.pauseOnPending)
          || (d.status == OnHold && d.timers.targets[i].policy.pauseOnHold))
  {
    OpenedInvariant(c, matched, at);
    RunKeeps(c, Opened(c, matched, at), run);
    RequestPausesLast(c, After(c, Opened(c, matched, at), run), status, now, more);
  }

  /** In a run without workflow writes that holds from the creation of the ticket on. */
  lemma EngineRunsPauseByStatus(c: Calendar, matched: Option<Policy>, at: int, run: Run)
    requires Live(c) && Legal(c, Opened(c, matched, at), run) && EngineOnly(run)
    ensures var d := After(c, Opened(c, matched, at), run); PausesMatch(d.timers.targets, d.status)
  {
    OpenedInvariant(c, matched, at);
    EngineRunKeepsPauses(c, Opened(c, matched, at), run);
  }

  // ------------------------------------------------------------------
  // One active target per kind
  // ------------------------------------------------------------------

  predicate RestartsResolution(ts: seq<Target>) {
    var policy := LatestResolutionPolicy(ts);
    policy.Some? && policy.value.restartResolutionOnReopen && policy.value.resolutionMinutes > 0
  }

  /** Target i is the newest RESOLUTION. */
  ghost predicate IsNewestResolution(ts: seq<Target>, i: int) {
    0 <= i < |ts| && ts[i].kind == Resolution && forall k :: i < k < |ts| ==> ts[k].kind != Resolution
  }

  lemma {:induction false} LatestPolicyIsNewest(ts: seq<Target>, i: int)
    requires IsNewestResolution(ts, i)
    ensures LatestResolutionPolicy(ts) == Some(ts[i].policy)
    decreases |ts|
  {
    if i < |ts| - 1 {
      LatestPolicyIsNewest(ts[..|ts| - 1], i);
    }
  }

  lemma {:induction false} NoLatestPolicyIff(ts: seq<Target>)
    ensures LatestResolutionPolicy(ts) == None <==> forall i :: 0 <= i < |ts| ==> ts[i].kind != Resolution
    decreases |ts|
  {
    if ts != [] {
      var rest := ts[..|ts| - 1];
      NoLatestPolicyIff(rest);
      assert forall i :: 0 <= i < |rest| ==> rest[i] == ts[i];
    }
  }

  lemma {:induction false} HasNewestResolution(ts: seq<Target>, k: int) returns (i: int)
    requires 0 <= k < |ts| && ts[k].kind == Resolution
    ensures IsNewestResolution(ts, i)
    decreases |ts| - k
  {
    i := k;
    if !IsNewestResolution(ts, k) {
      var later :| k < later < |ts| && ts[later].kind == Resolution;
      i := HasNewestResolution(ts, later);
    }
  }

  /** A reopening restarts exactly when the newest RESOLUTION's policy asks for it and has a budget. */
  lemma RestartsIff(ts: seq<Target>)
    ensures RestartsResolution(ts) <==>
      (exists i :: IsNewestResolution(ts, i) && ts[i].policy.restartResolutionOnReopen && ts[i].policy.resolutionMinutes > 0)
  {
    NoLatestPolicyIff(ts);
    if k :| 0 <= k < |ts| && ts[k].kind == Resolution {
      var i := HasNewestResolution(ts, k);
      LatestPolicyIsNewest(ts, i);
    }
  }

  /**
   A request reopens the ticket while a RESOLUTION target is still active, and the newest one's policy
   restarts with a budget.
   */
  predicate Duplicates(c: Calendar, d: Desk, call: Call, at: int) {
    && call == StatusChanged(Open) && d.status == Solved
    && FirstActive(EvaluatedAll(c, d.timers.targets, at), Resolution) < |d.timers.targets|
    && RestartsResolution(d.timers.targets)
  }

  /** No row becomes active, and none is added. */
  ghost predicate NoneRevived(before: seq<Target>, after: seq<Target>) {
    |before| == |after| && forall i :: 0 <= i < |before| ==>
      after[i].kind == before[i].kind && (after[i].Active() ==> before[i].Active())
  }

  lemma NoneRevivedKeeps(before: seq<Target>, after: seq<Target>)
    requires NoneRevived(before, after)
    ensures OneActivePerKind(before) ==> OneActivePerKind(after)
    ensures forall kind :: NoneActive(before, kind) ==> NoneActive(after, kind)
  {}

  lemma {:induction false} EvaluationKeepsPolicy(c: Calendar, ts: seq<Target>, now: int)
    ensures LatestResolutionPolicy(EvaluatedAll(c, ts, now)) == LatestResolutionPolicy(ts)
    decreases |ts|
  {
    if ts != [] {
      var n := |ts| - 1;
      assert EvaluatedAll(c, ts, now)[..n] == EvaluatedAll(c, ts[..n], now);
      EvaluationKeepsPolicy(c, ts[..n], now);
    }
  }

  /** An active target that is not overdue stays active when synchronised with an OPEN ticket and evaluated. */
  lemma OpenKeepsActive(c: Calendar, t: Target, l: Ledger, now: int)
    requires Live(c) && Sound(c, t, l, now) && t.Active() && (t.state == Running ==> now < t.dueAt)
    ensures Evaluated(c, Synced(c, t, Open, now), now).Active()
    ensures Evaluated(c, Synced(c, t, Open, now), now).kind == t.kind
  {
    if t.state == Paused {
      ResumeAccounted(c, t, l, now);
    }
  }

  lemma RestartIsActiveIff(c: Calendar, policy: Policy, now: int)
    requires Live(c)
    ensures Evaluated(c, Synced(c, Started(c, policy, Resolution, now), Open, now), now).Active()
      <==> policy.resolutionMinutes > 0
  {
    AddReachesEarliest(c, now, policy.resolutionMinutes * MS_PER_MINUTE);
  }

  /** The rows after a request has reopened a SOLVED ticket. */
  function ReopenedRows(c: Calendar, ts: seq<Target>, now: int): seq<Target> {
    EvaluatedAll(c, SyncedAll(c, Reopened(c, EvaluatedAll(c, ts, now), now), Open, now), now)
  }

  lemma ReopeningGivesRows(c: Calendar, s: Timers, now: int)
    ensures AfterStatusChange(c, s, Solved, Open, now).targets == ReopenedRows(c, s.targets, now)
  {
    assert AfterEvaluation(c, s, now).targets == EvaluatedAll(c, s.targets, now);
  }

  /** Every row is evaluated, resumed and evaluated; a restarted RESOLUTION comes last. */
  lemma ReopenedRowsAre(c: Calendar, ts: seq<Target>, now: int)
    ensures
      var after, policy := ReopenedRows(c, ts, now), LatestResolutionPolicy(ts);
      && |ts| <= |after|
      && (forall i :: 0 <= i < |ts| ==> after[i] == Evaluated(c, Synced(c, Evaluated(c, ts[i], now), Open, now), now))
      && (if policy.Some? && policy.value.restartResolutionOnReopen then
            |after| == |ts| + 1
            && after[|ts|] == Evaluated(c, Synced(c, Started(c, policy.value, Resolution, now), Open, now), now)
          else |after| == |ts|)
  {
    EvaluationKeepsPolicy(c, ts, now);
  }

  lemma ReopeningDuplicates(c: Calendar, ts: seq<Target>, ls: seq<Ledger>, at: int)
    requires Live(c) && AllSound(c, ts, ls, at)
    requires FirstActive(EvaluatedAll(c, ts, at), Resolution) < |ts| && RestartsResolution(ts)
    ensures !OneActivePerKind(ReopenedRows(c, ts, at))
  {
    EvaluationSound(c, ts, ls, at);
    ReopenedRowsAre(c, ts, at);
    var evaluated, after := EvaluatedAll(c, ts, at), ReopenedRows(c, ts, at);
    var i := FirstActive(evaluated, Resolution);
    OpenKeepsActive(c, evaluated[i], ls[i], at);
    RestartIsActiveIff(c, LatestResolutionPolicy(ts).value, at);
    assert after[i].Active() && after[|ts|].Active() && after[i].kind == after[|ts|].kind == Resolution;
  }

  lemma FirstRowsReviveNone(c: Calendar, ts: seq<Target>, at: int)
    ensures |ts| <= |ReopenedRows(c, ts, at)|
    ensures NoneRevived(EvaluatedAll(c, ts, at), ReopenedRows(c, ts, at)[..|ts|])
  {
    ReopenedRowsAre(c, ts, at);
    var evaluated, after := EvaluatedAll(c, ts, at), ReopenedRows(c, ts, at);
    forall i | 0 <= i < |ts|
      ensures after[..|ts|][i].kind == evaluated[i].kind && (after[..|ts|][i].Active() ==> evaluated[i].Active())
    {
      assert after[i] == Evaluated(c, Synced(c, evaluated[i], Open, at), at);
    }
  }

  lemma OneMoreRow(ts: seq<Target>, last: Target)
    requires OneActivePerKind(ts) && (last.Active() ==> NoneActive(ts, last.kind))
    ensures OneActivePerKind(ts + [last])
  {}

  lemma ReopeningKeepsOneActive(c: Calendar, ts: seq<Target>, at: int)
    requires Live(c) && OneActivePerKind(ts)
    requires FirstActive(EvaluatedAll(c, ts, at), Resolution) == |ts| || !RestartsResolution(ts)
    ensures OneActivePerKind(ReopenedRows(c, ts, at))
  {
    EvaluationRevivesNone(c, ts, at);
    NoneRevivedKeeps(ts, EvaluatedAll(c, ts, at));
    FirstRowsReviveNone(c, ts, at);
    var after := ReopenedRows(c, ts, at);
    NoneRevivedKeeps(EvaluatedAll(c, ts, at), after[..|ts|]);
    ReopenedRowsAre(c, ts, at);
    if |ts| < |after| {
      RestartIsActiveIff(c, LatestResolutionPolicy(ts).value, at);
      OneMoreRow(after[..|ts|], after[|ts|]);
      assert after == after[..|ts|] + [after[|ts|]];
    } else {
      assert after == after[..|ts|];
    }
  }

  lemma EvaluationRevivesNone(c: Calendar, ts: seq<Target>, now: int)
    ensures NoneRevived(ts, EvaluatedAll(c, ts, now))
  {}

  lemma SettlingRevivesNone(c: Calendar, ts: seq<Target>, previous: TicketStatus, status: TicketStatus, now: int)
    requires !(previous == Solved && status == Open)
    ensures NoneRevived(ts, Settled(c, ts, previous, status, now))
    ensures status == Solved && OneActivePerKind(ts) ==> NoneActive(Settled(c, ts, previous, status, now), Resolution)
  {
    var completed := if status == Solved then CompletedFirst(c, ts, Resolution, now) else ts;
    assert NoneRevived(ts, completed);
    if status == Solved && OneActivePerKind(ts) {
      assert NoneActive(completed, Resolution);
    }
  }

  /** Nothing but a reopening request adds or revives a row. */
  lemma OtherCallsReviveNone(c: Calendar, d: Desk, call: Call, at: int)
    requires Permitted(d, call, at) && !(call == StatusChanged(Open) && d.status == Solved)
    ensures NoneRevived(d.timers.targets, AfterCall(c, d, call, at).targets)
  {
    var ts := d.timers.targets;
    EvaluationRevivesNone(c, ts, at);
    match call
    case StatusChanged(status) =>
      SettlingRevivesNone(c, EvaluatedAll(c, ts, at), d.status, status, at);
      EvaluationRevivesNone(c, Settled(c, EvaluatedAll(c, ts, at), d.status, status, at), at);
    case PublicComment(_) =>
      EvaluationRevivesNone(c, CompletedFirst(c, ts, Response, at), at);
    case _ =>
  }

  /** A call leaves two active targets of one kind exactly when it reopens over an active RESOLUTION. */
  lemma CallKeepsOneActiveIff(c: Calendar, d: Desk, call: Call, at: int)
    requires Live(c) && Invariant(c, d) && OneActivePerKind(d.timers.targets) && Permitted(d, call, at)
    ensures OneActivePerKind(Next(c, d, call, at).timers.targets) <==> !Duplicates(c, d, call, at)
  {
    var ts := d.timers.targets;
    if call == StatusChanged(Open) && d.status == Solved {
      ReopeningGivesRows(c, d.timers, at);
      if Duplicates(c, d, call, at) {
        AgedSound(c, ts, d.ledgers, d.now, at);
        ReopeningDuplicates(c, ts, Aged(c, ts, d.ledgers, d.now, at, |ts|), at);
      } else {
        ReopeningKeepsOneActive(c, ts, at);
      }
    } else {
      OtherCallsReviveNone(c, d, call, at);
      NoneRevivedKeeps(ts, AfterCall(c, d, call, at).targets);
    }
  }

  ghost predicate AlwaysOneActive(c: Calendar, d: Desk, run: Run)
    requires Legal(c, d, run)
    decreases |run|
  {
    OneActivePerKind(d.timers.targets)
    && (run == [] || AlwaysOneActive(c, Next(c, d, run[0].0, run[0].1), run[1..]))
  }

  ghost predicate NeverDuplicates(c: Calendar, d: Desk, run: Run)
    requires Legal(c, d, run)
    decreases |run|
  {
    run == [] || (!Duplicates(c, d, run[0].0, run[0].1) && NeverDuplicates(c, Next(c, d, run[0].0, run[0].1), run[1..]))
  }

  lemma {:induction false} RunKeepsOneActiveIff(c: Calendar, d: Desk, run: Run)
    requires Live(c) && Invariant(c, d) && OneActivePerKind(d.timers.targets) && Legal(c, d, run)
    ensures AlwaysOneActive(c, d, run) <==> NeverDuplicates(c, d, run)
    decreases |run|
  {
    if run != [] {
      CallKeepsOneActiveIff(c, d, run[0].0, run[0].1);
      CallKeeps(c, d, run[0].0, run[0].1);
      if !Duplicates(c, d, run[0].0, run[0].1) {
        RunKeepsOneActiveIff(c, Next(c, d, run[0].0, run[0].1), run[1..]);
      }
    }
  }

  /**
   A run has at most one active target per kind all along exactly when no request in it reopens the ticket
   over an active RESOLUTION under a restarting policy.
   */
  lemma OneActivePerKindIff(c: Calendar, matched: Option<Policy>, at: int, run: Run)
    requires Live(c) && Legal(c, Opened(c, matched, at), run)
    ensures AlwaysOneActive(c, Opened(c, matched, at), run) <==> NeverDuplicates(c, Opened(c, matched, at), run)
  {
    OpenedInvariant(c, matched, at);
    RunKeepsOneActiveIff(c, Opened(c, matched, at), run);
  }

  /** A workflow writes SOLVED, which the engine is not told, while a RESOLUTION is active. */
  predicate SolvesSilently(d: Desk, call: Call) {
    call == StatusWritten(Solved) && FirstActive(d.timers.targets, Resolution) < |d.timers.targets|
  }

  ghost predicate NeverSolvesSilently(c: Calendar, d: Desk, run: Run)
    requires Legal(c, d, run)
    decreases |run|
  {
    run == [] || (!SolvesSilently(d, run[0].0) && NeverSolvesSilently(c, Next(c, d, run[0].0, run[0].1), run[1..]))
  }

  ghost predicate SolvedIsDone(d: Desk) {
    d.status == Solved ==> NoneActive(d.timers.targets, Resolution)
  }

  /** A request that solves the ticket, or finds it solved and leaves it so, leaves no active RESOLUTION. */
  lemma SolvingIsDone(c: Calendar, d: Desk, call: Call, at: int)
    requires Live(c) && Invariant(c, d) && OneActivePerKind(d.timers.targets) && Permitted(d, call, at)
    requires SolvedIsDone(d) && !SolvesSilently(d, call)
    ensures SolvedIsDone(Next(c, d, call, at)) && !Duplicates(c, d, call, at)
  {
    var ts := d.timers.targets;
    var evaluated := EvaluatedAll(c, ts, at);
    EvaluationRevivesNone(c, ts, at);
    NoneRevivedKeeps(ts, evaluated);
    if call == StatusChanged(Solved) && d.status != Solved {
      SettlingRevivesNone(c, evaluated, d.status, Solved, at);
      var settled := Settled(c, evaluated, d.status, Solved, at);
      EvaluationRevivesNone(c, settled, at);
      NoneRevivedKeeps(settled, EvaluatedAll(c, settled, at));
    } else if d.status == Solved && call != StatusChanged(Open) {
      OtherCallsReviveNone(c, d, call, at);
      NoneRevivedKeeps(ts, AfterCall(c, d, call, at).targets);
    }
  }

  lemma {:induction false} QuietRuns(c: Calendar, d: Desk, run: Run)
    requires Live(c) && Invariant(c, d) && OneActivePerKind(d.timers.targets) && SolvedIsDone(d) && Legal(c, d, run)
    requires NeverSolvesSilently(c, d, run)
    ensures NeverDuplicates(c, d, run) && SolvedIsDone(After(c, d, run)) && OneActivePerKind(After(c, d, run).timers.targets)
    decreases |run|
  {
    if run != [] {
      SolvingIsDone(c, d, run[0].0, run[0].1);
      CallKeepsOneActiveIff(c, d, run[0].0, run[0].1);
      CallKeeps(c, d, run[0].0, run[0].1);
      QuietRuns(c, Next(c, d, run[0].0, run[0].1), run[1..]);
    }
  }

  /**
   While no workflow writes SOLVED over an active RESOLUTION, there is at most one active target per kind,
   and a SOLVED ticket has no active RESOLUTION for a reopening to duplicate.
   */
  lemma EveryRunHasOneActivePerKind(c: Calendar, matched: Option<Policy>, at: int, run: Run)
    requires Live(c) && Legal(c, Opened(c, matched, at), run) && NeverSolvesSilently(c, Opened(c, matched, at), run)
    ensures var d := After(c, Opened(c, matched, at), run);
      && OneActivePerKind(d.timers.targets)
      && (d.status == Solved ==> NoneActive(d.timers.targets, Resolution))
  {
    OpenedInvariant(c, matched, at);
    QuietRuns(c, Opened(c, matched, at), run);
  }

  /** Otherwise the next request may duplicate it: a silent SOLVED, reopened at once, under any restarting policy. */
  lemma SilentSolveDuplicates(c: Calendar, policy: Policy, at: int)
    requires Live(c) && policy.restartResolutionOnReopen && policy.resolutionMinutes > 0
    ensures
      var d := Opened(c, Some(policy), at);
      && SolvesSilently(d, StatusWritten(Solved))
      && var solved := Next(c, d, StatusWritten(Solved), at);
         Permitted(solved, StatusChanged(Open), at)
         && !OneActivePerKind(Next(c, solved, StatusChanged(Open), at).timers.targets)
  {
    var d := Opened(c, Some(policy), at);
    var solved := Next(c, d, StatusWritten(Solved), at);
    OpenedInvariant(c, Some(policy), at);
    CallKeeps(c, d, StatusWritten(Solved), at);
    AddReachesEarliest(c, at, policy.resolutionMinutes * MS_PER_MINUTE);
    var ts := d.timers.targets;
    assert ts[1].kind == Resolution && ts[1].Active() && Evaluated(c, ts[1], at).Active();
    assert EvaluatedAll(c, ts, at)[1].Active();
    assert LatestResolutionPolicy(ts) == Some(policy);
    CallKeepsOneActiveIff(c, solved, StatusChanged(Open), at);
  }

  // ------------------------------------------------------------------
  // Alerts and outcomes
  // ------------------------------------------------------------------

  lemma RecordedShape(s: Timers, i: nat)
    requires LogMatches(s)
    ensures
      var sent := AlertsFor(s.log, i);
      && (sent == [] || sent == [Warning] || sent == [Breach] || sent == [Warning, Breach])
      && (Breach in sent <==> i < |s.targets| && s.targets[i].state == Breached)
      && (Warning in sent <==> i < |s.targets| && s.targets[i].warningNotifiedAt.Some?)
  {
    assert AlertsFor(s.log, i) == RecordedAt(s.targets, i);
  }

  /** Each target sends at most one warning and at most one breach, the warning first, and its row says which. */
  lemma EveryRunAlertsOnce(c: Calendar, matched: Option<Policy>, at: int, run: Run, i: nat)
    requires Live(c) && Legal(c, Opened(c, matched, at), run)
    ensures
      var d := After(c, Opened(c, matched, at), run);
      var sent := AlertsFor(d.timers.log, i);
      && (sent == [] || sent == [Warning] || sent == [Breach] || sent == [Warning, Breach])
      && (Breach in sent <==> i < |d.timers.targets| && d.timers.targets[i].state == Breached)
      && (Warning in sent <==> i < |d.timers.targets| && d.timers.targets[i].warningNotifiedAt.Some?)
  {
    OpenedInvariant(c, matched, at);
    RunKeeps(c, Opened(c, matched, at), run);
    RecordedShape(After(c, Opened(c, matched, at), run).timers, i);
  }

  /** MET and BREACHED rows never change again, and no active row's deadline ever moves earlier. */
  lemma OutcomesAreFinal(c: Calendar, matched: Option<Policy>, at: int, run: Run, more: Run)
    requires Live(c) && Legal(c, Opened(c, matched, at), run)
    requires Legal(c, After(c, Opened(c, matched, at), run), more)
    ensures
      var d := After(c, Opened(c, matched, at), run);
      Advanced(d.timers.targets, After(c, d, more).timers.targets)
  {
    OpenedInvariant(c, matched, at);
    RunKeeps(c, Opened(c, matched, at), run);
    RunKeeps(c, After(c, Opened(c, matched, at), run), more);
  }

  /**
   The agent's public comment completes RESPONSE before evaluating it: the target is MET after its
   deadline exactly when it was still RUNNING, unevaluated, with the deadline behind it.
   */
  lemma CommentCompletesLateIff(c: Calendar, d: Desk, at: int)
    requires Live(c) && Invariant(c, d) && Permitted(d, PublicComment(false), at)
    requires FirstActive(d.timers.targets, Response) < |d.timers.targets|
    ensures
      var i := FirstActive(d.timers.targets, Response);
      var before, after := d.timers.targets[i], AfterPublicComment(c, d.timers, false, at).targets[i];
      && after.state == Met && after.completedAt == Some(at)
      && (after.dueAt <= at <==> before.state == Running && before.dueAt <= at)
  {
    var ts := d.timers.targets;
    var i := FirstActive(ts, Response);
    AgedSound(c, ts, d.ledgers, d.now, at);
    if ts[i].state == Paused {
      ResumeAccounted(c, ts[i], Aged(c, ts, d.ledgers, d.now, at, |ts|)[i], at);
    }
  }

  /** Such a late MET does happen: a first answer any time after the deadline. */
  lemma ResponseCanBeMetLate(policy: Policy, at: int, overrun: nat)
    ensures
      var d := Opened(ALWAYS_OPEN, Some(policy), at);
      var dueAt := at + policy.responseMinutes * MS_PER_MINUTE;
      && Permitted(d, PublicComment(false), dueAt + overrun)
      && var d' := Next(ALWAYS_OPEN, d, PublicComment(false), dueAt + overrun);
         && d'.timers.targets[0].state == Met
         && d'.timers.targets[0].dueAt == dueAt
         && d'.timers.targets[0].completedAt == Some(dueAt + overrun)
  {
    var c := ALWAYS_OPEN;
    assert Live(c);
    var d := Opened(c, Some(policy), at);
    var start := Started(c, policy, Response, at);
    AddReachesEarliest(c, at, BudgetMs(start));
    AlwaysOpenCounts(at, start.dueAt);
    assert FirstActive(d.timers.targets, Response) == 0;
  }
}
