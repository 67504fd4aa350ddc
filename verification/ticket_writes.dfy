/**
 Concurrent writers of one ticket. A request loads the row and applies its command in memory;
 its transaction first reads the row again for the event payload and then swaps the row in
 if the stored version is still the expected one. A workflow action reads the row and later
 writes its columns unconditionally. Any writer may act between these steps.
 */
module TicketWrites {
  import opened Wrappers
  import opened TicketStatuses
  import opened TicketAggregates

  datatype View = View(status: TicketStatus, assignee: Option<UserId>, group: Option<GroupId>)

  function ViewOf(row: Row): View {
    View(row.status, row.assignee, row.group)
  }

  datatype EventKind = StatusChanged | Assigned

  datatype Event = Event(kind: EventKind, before: View, after: View, version: nat, automated: bool)

  /** Events of a committed update, given the row read before it and the row after it. */
  function EventsFor(previous: Row, updated: Row): seq<Event> {
    var before, after := ViewOf(previous), ViewOf(updated);
    (if before.status != after.status then [Event(StatusChanged, before, after, updated.version, false)] else [])
    + (if before.assignee != after.assignee || before.group != after.group
       then [Event(Assigned, before, after, updated.version, false)] else [])
  }

  /** The row and outbox after a swap, if the stored version is the expected one. */
  function Swapped(stored: Row, outbox: seq<Event>, props: Row, expected: nat, previous: Row): Option<(Row, seq<Event>)> {
    if stored.version == expected then Some((props, outbox + EventsFor(previous, props))) else None
  }

  /** The columns a workflow's status action writes; the row it read earlier supplies what it does not change. */
  function StatusWritten(stored: Row, seen: Row, status: TicketStatus, now: int): Row {
    stored.(status := status,
            solvedAt := if status == Solved then Some(now) else seen.solvedAt,
            closedAt := if status == Closed then Some(now) else seen.closedAt,
            version := stored.version + 1)
  }

  function AssignmentWritten(stored: Row, assignee: Option<UserId>, group: Option<GroupId>): Row {
    stored.(assignee := assignee, group := group, version := stored.version + 1)
  }

  function AutomationEvent(kind: EventKind, seen: Row, updated: Row): Event {
    Event(kind, ViewOf(seen), ViewOf(updated), updated.version, true)
  }

  class TicketStore {
    var stored: Row
    var outbox: seq<Event>

    constructor (row: Row)
      ensures stored == row && outbox == []
    {
      stored, outbox := row, [];
    }

    method UpdateWithClient(props: Row, expected: nat) returns (r: Result<Row, Refusal>)
      modifies this`stored
      ensures if old(stored).version == expected
        then stored == props && r == Ok(props)
        else stored == old(stored) && r == Err(VersionConflict(stored.version))
    {
      if stored.version != expected {
        return Err(VersionConflict(stored.version));
      }
      stored := props;
      return Ok(stored);
    }

    /** What follows the transaction's first read of the row. */
    method UpdateWithAudit(props: Row, expected: nat, previous: Row) returns (r: Result<Row, Refusal>)
      modifies this
      ensures match Swapped(old(stored), old(outbox), props, expected, previous)
        case Some(after) => stored == after.0 && outbox == after.1 && r == Ok(props)
        case None => stored == old(stored) && outbox == old(outbox) && r == Err(VersionConflict(stored.version))
    {
      r := UpdateWithClient(props, expected);
      if r.Err? {
        return;
      }
      var updated := r.value;
      if previous.status != updated.status {
        outbox := outbox + [Event(StatusChanged, ViewOf(previous), ViewOf(updated), updated.version, false)];
      }
      if previous.assignee != updated.assignee || previous.group != updated.group {
        outbox := outbox + [Event(Assigned, ViewOf(previous), ViewOf(updated), updated.version, false)];
      }
    }

    /** A workflow's status action, after its read of the row. */
    method ChangeStatus(seen: Row, status: TicketStatus, now: int)
      modifies this
      ensures if seen.status == status then stored == old(stored) && outbox == old(outbox)
        else stored == StatusWritten(old(stored), seen, status, now)
             && outbox == old(outbox) + [AutomationEvent(StatusChanged, seen, stored)]
    {
      if seen.status == status {
        return;
      }
      var solvedAt := if status == Solved then Some(now) else seen.solvedAt;
      var closedAt := if status == Closed then Some(now) else seen.closedAt;
      stored := stored.(status := status, solvedAt := solvedAt, closedAt := closedAt, version := stored.version + 1);
      outbox := outbox + [Event(StatusChanged, ViewOf(seen), ViewOf(stored), stored.version, true)];
    }

    /** A workflow's assign action, after its read of the row. */
    method AssignByWorkflow(seen: Row, assignee: Option<UserId>, group: Option<GroupId>)
      modifies this
      ensures stored == AssignmentWritten(old(stored), assignee, group)
      ensures outbox == old(outbox) + [AutomationEvent(Assigned, seen, stored)]
    {
      stored := stored.(assignee := assignee, group := group, version := stored.version + 1);
      outbox := outbox + [Event(Assigned, ViewOf(seen), ViewOf(stored), stored.version, true)];
    }
  }

  // ------------------------------------------------------------------
  // Interleaved runs
  // ------------------------------------------------------------------

  datatype Request = Request(cmd: Command, expected: nat, now: int)

  datatype Writer =
    | Idle
    | Loaded(request: Request, props: Row)
    | Ready(request: Request, props: Row, previous: Row)
    | Observed(seen: Row)

  /** A write that took effect. */
  datatype Change =
    | Requested(request: Request)
    | StatusSet(seen: Row, status: TicketStatus, now: int)
    | AssignmentSet(assignee: Option<UserId>, group: Option<GroupId>)

  /** committed holds the writes that took effect, oldest first. */
  datatype System = System(stored: Row, outbox: seq<Event>, writers: map<nat, Writer>, committed: seq<Change>)

  datatype Step =
    | Load(writer: nat, request: Request)
    | ReadPrevious(writer: nat)
    | Commit(writer: nat)
    | Observe(writer: nat)
    | WriteStatus(writer: nat, status: TicketStatus, now: int)
    | WriteAssignment(writer: nat, assignee: Option<UserId>, group: Option<GroupId>)

  function At(s: System, w: nat): Writer {
    if w in s.writers then s.writers[w] else Idle
  }

  /** A step that does not fit the writer's progress, or whose command is refused, changes nothing. */
  function Next(s: System, step: Step): System {
    var writer := At(s, step.writer);
    var idle := s.writers[step.writer := Idle];
    match step
    case Load(w, q) =>
      var applied := Applied(s.stored, q.cmd, q.expected, q.now);
      if writer.Idle? && applied.Ok? then s.(writers := s.writers[w := Loaded(q, applied.value)]) else s
    case ReadPrevious(w) =>
      if writer.Loaded? then s.(writers := s.writers[w := Ready(writer.request, writer.props, s.stored)]) else s
    case Commit(w) =>
      if !writer.Ready? then s
      else
        (match Swapped(s.stored, s.outbox, writer.props, writer.request.expected, writer.previous)
         case None => s.(writers := idle)
         case Some(after) => System(after.0, after.1, idle, s.committed + [Requested(writer.request)]))
    case Observe(w) =>
      if writer.Idle? then s.(writers := s.writers[w := Observed(s.stored)]) else s
    case WriteStatus(_, status, now) =>
      if !writer.Observed? then s
      else if writer.seen.status == status then s.(writers := idle)
      else
        var updated := StatusWritten(s.stored, writer.seen, status, now);
        System(updated, s.outbox + [AutomationEvent(StatusChanged, writer.seen, updated)], idle,
               s.committed + [StatusSet(writer.seen, status, now)])
    case WriteAssignment(_, assignee, group) =>
      if !writer.Observed? then s
      else
        var updated := AssignmentWritten(s.stored, assignee, group);
        System(updated, s.outbox + [AutomationEvent(Assigned, writer.seen, updated)], idle,
               s.committed + [AssignmentSet(assignee, group)])
  }

  function Run(s: System, steps: seq<Step>): System {
    if steps == [] then s else Next(Run(s, steps[..|steps| - 1]), steps[|steps| - 1])
  }

  function Start(row: Row): System {
    System(row, [], map[], [])
  }

  // ------------------------------------------------------------------
  // One write after another
  // ------------------------------------------------------------------

  /** The row after a write, if it is accepted on its own. */
  function Effect(row: Row, c: Change): Option<Row> {
    match c
    case Requested(q) =>
      (match Applied(row, q.cmd, q.expected, q.now)
       case Ok(after) => Some(after)
       case Err(_) => None)
    case StatusSet(seen, status, now) => Some(StatusWritten(row, seen, status, now))
    case AssignmentSet(assignee, group) => Some(AssignmentWritten(row, assignee, group))
  }

  /** The row after performing the writes one at a time, if every one of them is accepted. */
  function Serial(row: Row, changes: seq<Change>): Option<Row> {
    if changes == [] then Some(row)
    else
      var before := Serial(row, changes[..|changes| - 1]);
      if before.None? then None else Effect(before.value, changes[|changes| - 1])
  }

  // ------------------------------------------------------------------
  // The invariant
  // ------------------------------------------------------------------

  /** While a request's expected version is still stored, its copy is its command applied to the stored row. */
  ghost predicate Fresh(stored: Row, writer: Writer) {
    match writer
    case Loaded(q, props) =>
      && q.expected <= stored.version
      && (q.expected == stored.version ==> Applied(stored, q.cmd, q.expected, q.now) == Ok(props))
    case Ready(q, props, previous) =>
      && q.expected <= previous.version <= stored.version
      && (previous.version == stored.version ==> previous == stored)
      && (q.expected == stored.version ==> Applied(stored, q.cmd, q.expected, q.now) == Ok(props))
    case _ => true
  }

  ghost predicate Valid(row: Row, s: System) {
    && (forall w :: w in s.writers ==> Fresh(s.stored, s.writers[w]))
    && Serial(row, s.committed) == Some(s.stored)
    && Told(row, s)
  }

  lemma WritesRaiseVersion(row: Row, c: Change)
    requires Effect(row, c).Some?
    ensures var after := Effect(row, c).value;
      if c.Requested? && c.request.cmd == Transition(row.status) then after == row else after.version == row.version + 1
  {
    if c.Requested? {
      CommandsRaiseVersionIff(row, c.request.cmd, c.request.expected, c.request.now);
    }
  }

  /** What a committed write does to the stored row, seen by itself. */
  lemma CommitsAreEffects(row: Row, s: System, step: Step)
    requires Valid(row, s) && Next(s, step).committed != s.committed
    ensures var t := Next(s, step);
      && |t.committed| == |s.committed| + 1 && t.committed[..|s.committed|] == s.committed
      && Effect(s.stored, t.committed[|s.committed|]) == Some(t.stored)
  {
    var t := Next(s, step);
    assert t.committed[..|s.committed|] == s.committed;
  }

  lemma FreshKeeps(row: Row, s: System, step: Step)
    requires Valid(row, s)
    ensures forall w :: w in Next(s, step).writers ==> Fresh(Next(s, step).stored, Next(s, step).writers[w])
  {
    var t := Next(s, step);
    if t.committed != s.committed {
      CommitsAreEffects(row, s, step);
      WritesRaiseVersion(s.stored, t.committed[|s.committed|]);
    }
  }

  lemma NextKeeps(row: Row, s: System, step: Step)
    requires Valid(row, s)
    ensures Valid(row, Next(s, step))
  {
    var t := Next(s, step);
    FreshKeeps(row, s, step);
    if t.committed != s.committed {
      CommitsAreEffects(row, s, step);
      NextTells(row, s, step);
    }
  }

  lemma {:induction false} RunKeeps(row: Row, steps: seq<Step>)
    ensures Valid(row, Run(Start(row), steps))
    decreases |steps|
  {
    if steps != [] {
      RunKeeps(row, steps[..|steps| - 1]);
      NextKeeps(row, Run(Start(row), steps[..|steps| - 1]), steps[|steps| - 1]);
    }
  }

  /**
   Every interleaving leaves the row that the committed writes would leave one at a time, in commit
   order, each request being accepted on exactly the row the write before it left: no request's
   change is lost or based on anything else.
   */
  lemma InterleavingsAreSerial(row: Row, steps: seq<Step>)
    ensures var s := Run(Start(row), steps);
      Serial(row, s.committed) == Some(s.stored)
  {
    RunKeeps(row, steps);
  }

  // ------------------------------------------------------------------
  // Versions
  // ------------------------------------------------------------------

  /** Writes that changed the row: all but requested moves to the status the ticket already had. */
  function Changes(row: Row, changes: seq<Change>): nat {
    if changes == [] || Serial(row, changes).None? then 0
    else
      var earlier, last := changes[..|changes| - 1], changes[|changes| - 1];
      Changes(row, earlier) +
      (if last.Requested? && last.request.cmd == Transition(Serial(row, earlier).value.status) then 0 else 1)
  }

  lemma {:induction false} SerialVersions(row: Row, changes: seq<Change>)
    requires Serial(row, changes).Some?
    ensures Serial(row, changes).value.version == row.version + Changes(row, changes)
    decreases |changes|
  {
    if changes != [] {
      var earlier := changes[..|changes| - 1];
      SerialVersions(row, earlier);
      WritesRaiseVersion(Serial(row, earlier).value, changes[|changes| - 1]);
    }
  }

  /** The stored version counts the committed changes. */
  lemma VersionCountsChanges(row: Row, steps: seq<Step>)
    ensures var s := Run(Start(row), steps);
      s.stored.version == row.version + Changes(row, s.committed)
  {
    RunKeeps(row, steps);
    SerialVersions(row, Run(Start(row), steps).committed);
  }

  lemma {:induction false} SerialPrefix(row: Row, changes: seq<Change>, i: nat)
    requires Serial(row, changes).Some? && i <= |changes|
    ensures Serial(row, changes[..i]).Some?
    ensures Serial(row, changes[..i]).value.version <= Serial(row, changes).value.version
    ensures i < |changes| && changes[i].Requested?
              && changes[i].request.cmd != Transition(Serial(row, changes[..i]).value.status) ==>
              Serial(row, changes[..i]).value.version < Serial(row, changes).value.version
    decreases |changes|
  {
    if i == |changes| {
      assert changes[..i] == changes;
    } else {
      var earlier := changes[..|changes| - 1];
      assert earlier[..i] == changes[..i];
      SerialPrefix(row, earlier, i);
      assert i == |earlier| ==> changes[..i] == earlier;
      WritesRaiseVersion(Serial(row, earlier).value, changes[|changes| - 1]);
    }
  }

  lemma ExpectsTheVersionBefore(row: Row, changes: seq<Change>, k: nat)
    requires Serial(row, changes).Some? && k < |changes| && changes[k].Requested?
    ensures Serial(row, changes[..k]).Some? && Serial(row, changes[..k]).value.version == changes[k].request.expected
  {
    SerialPrefix(row, changes, k + 1);
    assert changes[..k + 1][..k] == changes[..k];
  }

  /** Of two committed requests the later expects a later version, unless the earlier changed nothing. */
  lemma NoTwoChangesFromOneVersion(row: Row, steps: seq<Step>, i: nat, j: nat)
    requires var done := Run(Start(row), steps).committed; i < j < |done| && done[i].Requested? && done[j].Requested?
    ensures
      var done := Run(Start(row), steps).committed;
      && Serial(row, done[..i]).Some?
      && done[i].request.expected <= done[j].request.expected
      && (done[i].request.cmd != Transition(Serial(row, done[..i]).value.status) ==>
            done[i].request.expected < done[j].request.expected)
  {
    RunKeeps(row, steps);
    var done := Run(Start(row), steps).committed;
    ExpectsTheVersionBefore(row, done, i);
    ExpectsTheVersionBefore(row, done, j);
    assert done[..j][..i] == done[..i];
    SerialPrefix(row, done[..j], i);
  }

  // ------------------------------------------------------------------
  // Timestamps
  // ------------------------------------------------------------------

  /** A workflow's status that agrees with the timestamps of the row the workflow read. */
  ghost predicate StampedMove(seen: TicketStatus, status: TicketStatus) {
    match status
    case Solved => seen != Closed
    case Closed => seen == Solved || seen == Closed
    case _ => seen != Solved && seen != Closed
  }

  /**
   A workflow's status write leaves timestamps that agree with the status exactly when it neither takes a ticket
   out of SOLVED or CLOSED nor closes one that was not solved; of the stored row it changes nothing else.
   */
  lemma StatusWriteKeepsStampsIff(stored: Row, seen: Row, status: TicketStatus, now: int)
    requires Stamped(seen)
    ensures
      var after := StatusWritten(stored, seen, status, now);
      && (Stamped(after) <==> StampedMove(seen.status, status))
      && after.status == status
      && (status == Solved ==> after.solvedAt == Some(now)) && (status != Solved ==> after.solvedAt == seen.solvedAt)
      && (status == Closed ==> after.closedAt == Some(now)) && (status != Closed ==> after.closedAt == seen.closedAt)
      && SameAssignment(stored, after) && SameDetails(stored, after) && after.version == stored.version + 1
  {}

  ghost predicate StampedMoves(changes: seq<Change>) {
    forall k :: 0 <= k < |changes| && changes[k].StatusSet? ==> StampedMove(changes[k].seen.status, changes[k].status)
  }

  ghost predicate AllStamped(s: System) {
    Stamped(s.stored) && forall w :: w in s.writers && s.writers[w].Observed? ==> Stamped(s.writers[w].seen)
  }

  lemma NextKeepsStamps(row: Row, s: System, step: Step)
    requires Valid(row, s) && AllStamped(s) && StampedMoves(Next(s, step).committed)
    ensures AllStamped(Next(s, step))
  {
    var t := Next(s, step);
    if t.committed != s.committed {
      CommitsAreEffects(row, s, step);
      var c := t.committed[|s.committed|];
      match c
      case Requested(q) => CommandsKeepStamps(s.stored, q.cmd, q.expected, q.now);
      case StatusSet(seen, status, now) => StatusWriteKeepsStampsIff(s.stored, seen, status, now);
      case AssignmentSet(_, _) =>
    }
  }

  lemma {:induction false} RunKeepsStamps(row: Row, steps: seq<Step>)
    requires Stamped(row) && StampedMoves(Run(Start(row), steps).committed)
    ensures AllStamped(Run(Start(row), steps))
    decreases |steps|
  {
    if steps != [] {
      var s := Run(Start(row), steps[..|steps| - 1]);
      RunKeeps(row, steps[..|steps| - 1]);
      if Next(s, steps[|steps| - 1]).committed != s.committed {
        CommitsAreEffects(row, s, steps[|steps| - 1]);
      }
      assert forall k :: 0 <= k < |s.committed| ==> s.committed[k] == Next(s, steps[|steps| - 1]).committed[k];
      RunKeepsStamps(row, steps[..|steps| - 1]);
      NextKeepsStamps(row, s, steps[|steps| - 1]);
    }
  }

  /**
   Under any interleaving without such a workflow write, solvedAt is set exactly on SOLVED and CLOSED tickets
   and closedAt exactly on CLOSED ones.
   */
  lemma StampsFollowTheStatus(row: Row, steps: seq<Step>)
    requires Stamped(row) && StampedMoves(Run(Start(row), steps).committed)
    ensures
      var stored := Run(Start(row), steps).stored;
      && (stored.solvedAt.Some? <==> stored.status == Solved || stored.status == Closed)
      && (stored.closedAt.Some? <==> stored.status == Closed)
  {
    RunKeepsStamps(row, steps);
  }

  ghost predicate NoStatusSet(changes: seq<Change>) {
    forall k :: 0 <= k < |changes| ==> !changes[k].StatusSet?
  }

  /** Requests move a ticket only along the table, and never out of CLOSED. */
  lemma SerialMoves(row: Row, changes: seq<Change>, k: nat)
    requires Serial(row, changes).Some? && NoStatusSet(changes) && k < |changes|
    ensures Serial(row, changes[..k]).Some? && Serial(row, changes[..k + 1]).Some?
    ensures
      var from, to := Serial(row, changes[..k]).value.status, Serial(row, changes[..k + 1]).value.status;
      from == to || ListedMove(from, to)
  {
    SerialPrefix(row, changes, k);
    SerialPrefix(row, changes, k + 1);
    assert changes[..k + 1][..k] == changes[..k];
    var c := changes[k];
    if c.Requested? {
      var before, cmd := Serial(row, changes[..k]).value, c.request.cmd;
      match cmd {
        case Transition(status) =>
          if status != before.status { TransitionsSetStatus(before, status, c.request.now); }
        case Update(_, _, _, _, _, _, _, _) => UpdatesSetGivenFields(before, cmd, c.request.now);
        case _ => AssignmentsSetBoth(before, cmd, c.request.now);
      }
    }
  }

  /** Under any interleaving without workflow status writes, the stored status only ever takes listed moves. */
  lemma RequestsMoveAlongTheTable(row: Row, steps: seq<Step>, k: nat)
    requires NoStatusSet(Run(Start(row), steps).committed) && k < |Run(Start(row), steps).committed|
    ensures
      var done := Run(Start(row), steps).committed;
      && Serial(row, done[..k]).Some? && Serial(row, done[..k + 1]).Some?
      && var from, to := Serial(row, done[..k]).value.status, Serial(row, done[..k + 1]).value.status;
         from == to || ListedMove(from, to)
  {
    RunKeeps(row, steps);
    SerialMoves(row, Run(Start(row), steps).committed, k);
  }

  /** No committed request assigns a ticket to a group. */
  lemma NoRequestAssignsAGroup(row: Row, steps: seq<Step>, k: nat)
    requires var done := Run(Start(row), steps).committed;
      k < |done| && done[k].Requested? && done[k].request.cmd.Assign?
    ensures var cmd := Run(Start(row), steps).committed[k].request.cmd;
      !(cmd.group.Set? && cmd.group.value.Some?)
  {
    RunKeeps(row, steps);
    var done := Run(Start(row), steps).committed;
    SerialPrefix(row, done, k + 1);
    assert done[..k + 1][..k] == done[..k];
  }

  // ------------------------------------------------------------------
  // Replaying the events
  // ------------------------------------------------------------------

  function Replayed(v: View, e: Event): View {
    match e.kind
    case StatusChanged => v.(status := e.after.status)
    case Assigned => v.(assignee := e.after.assignee, group := e.after.group)
  }

  function Replay(v: View, events: seq<Event>): View {
    if events == [] then v else Replayed(Replay(v, events[..|events| - 1]), events[|events| - 1])
  }

  /** The event changes something, from the values its predecessors left. */
  ghost predicate Continues(v: View, events: seq<Event>, k: nat)
    requires k < |events|
  {
    var current := Replay(v, events[..k]);
    match events[k].kind
    case StatusChanged => events[k].before.status == current.status != events[k].after.status
    case Assigned =>
      && events[k].before.assignee == current.assignee && events[k].before.group == current.group
      && (current.assignee != events[k].after.assignee || current.group != events[k].after.group)
  }

  ghost predicate RequestsContinue(v: View, events: seq<Event>) {
    forall k :: 0 <= k < |events| ==> events[k].automated || Continues(v, events, k)
  }

  ghost predicate Told(row: Row, s: System) {
    Replay(ViewOf(row), s.outbox) == ViewOf(s.stored) && RequestsContinue(ViewOf(row), s.outbox)
  }

  lemma ReplayOneMore(v: View, events: seq<Event>, e: Event)
    ensures Replay(v, events + [e]) == Replayed(Replay(v, events), e)
  {
    assert (events + [e])[..|events|] == events;
  }

  lemma ContinuesWithin(v: View, events: seq<Event>, more: seq<Event>, k: nat)
    requires k < |events|
    ensures Continues(v, events + more, k) == Continues(v, events, k)
  {
    assert (events + more)[..k] == events[..k];
  }

  lemma OneMoreContinues(v: View, events: seq<Event>, e: Event)
    requires RequestsContinue(v, events)
    requires e.automated || Continues(v, events + [e], |events|)
    ensures RequestsContinue(v, events + [e])
  {
    forall k | 0 <= k < |events| ensures (events + [e])[k].automated || Continues(v, events + [e], k) {
      ContinuesWithin(v, events, [e], k);
    }
  }

  lemma ReplayUpdate(v: View, events: seq<Event>, previous: Row, updated: Row)
    requires Replay(v, events) == ViewOf(previous) && RequestsContinue(v, events)
    ensures var all := events + EventsFor(previous, updated);
      Replay(v, all) == ViewOf(updated) && RequestsContinue(v, all)
  {
    var latest := EventsFor(previous, updated);
    if latest == [] {
      assert events + latest == events;
    } else {
      var first := events + [latest[0]];
      assert first[..|events|] == events;
      ReplayOneMore(v, events, latest[0]);
      OneMoreContinues(v, events, latest[0]);
      if |latest| == 2 {
        var second := first + [latest[1]];
        assert second[..|first|] == first;
        ReplayOneMore(v, first, latest[1]);
        OneMoreContinues(v, first, latest[1]);
        assert events + latest == second;
      } else {
        assert events + latest == first;
      }
    }
  }

  lemma NextTells(row: Row, s: System, step: Step)
    requires Valid(row, s) && Next(s, step).committed != s.committed
    ensures Told(row, Next(s, step))
  {
    var v, writer, t := ViewOf(row), At(s, step.writer), Next(s, step);
    if step.Commit? {
      ReplayUpdate(v, s.outbox, s.stored, writer.props);
    } else {
      var e := AutomationEvent(if step.WriteStatus? then StatusChanged else Assigned, writer.seen, t.stored);
      ReplayOneMore(v, s.outbox, e);
      OneMoreContinues(v, s.outbox, e);
    }
  }

  /**
   Under any interleaving, replaying the outbox from the first row gives the stored status, assignee
   and group; and each request's event tells of a change from what the events before it left.
   */
  lemma ReplayGivesTheStoredRow(row: Row, steps: seq<Step>)
    ensures var s := Run(Start(row), steps);
      && Replay(ViewOf(row), s.outbox) == ViewOf(s.stored)
      && forall k :: 0 <= k < |s.outbox| && !s.outbox[k].automated ==> Continues(ViewOf(row), s.outbox, k)
  {
    RunKeeps(row, steps);
  }

  /** A workflow action's event starts from what the events before it left exactly when its read is still current. */
  lemma AutomationContinuesIff(row: Row, steps: seq<Step>, w: nat, status: TicketStatus, now: int)
    requires var s := Run(Start(row), steps); At(s, w).Observed? && At(s, w).seen.status != status
    ensures
      var s := Run(Start(row), steps);
      var t := Next(s, WriteStatus(w, status, now));
      && |t.outbox| == |s.outbox| + 1
      && t.outbox[|s.outbox|].before.status == At(s, w).seen.status
      && (t.outbox[|s.outbox|].before.status == Replay(ViewOf(row), t.outbox[..|s.outbox|]).status
          <==> At(s, w).seen.status == s.stored.status)
  {
    var s := Run(Start(row), steps);
    RunKeeps(row, steps);
    assert Next(s, WriteStatus(w, status, now)).outbox[..|s.outbox|] == s.outbox;
  }

  /** The view an event has of a row. */
  ghost predicate Sees(v: View, row: Row) {
    v.status == row.status && v.assignee == row.assignee && v.group == row.group
  }

  /**
   A request that commits appends one event for a changed status and one for a changed assignment, each with the
   stored row before and after it and its version; one that comes too late appends none and changes nothing.
   */
  lemma CommitsAppendTheirEvents(row: Row, steps: seq<Step>, w: nat)
    requires At(Run(Start(row), steps), w).Ready?
    ensures
      var s, t := Run(Start(row), steps), Next(Run(Start(row), steps), Commit(w));
      var n := |s.outbox|;
      && At(t, w).Idle?
      && (At(s, w).request.expected != s.stored.version ==>
            t.stored == s.stored && t.outbox == s.outbox && t.committed == s.committed)
      && (At(s, w).request.expected == s.stored.version ==>
            && t.committed == s.committed + [Requested(At(s, w).request)]
            && n <= |t.outbox| && t.outbox[..n] == s.outbox
            && |t.outbox| == n + (if s.stored.status != t.stored.status then 1 else 0)
                 + (if s.stored.assignee != t.stored.assignee || s.stored.group != t.stored.group then 1 else 0)
            && forall k :: n <= k < |t.outbox| ==>
                 && Sees(t.outbox[k].before, s.stored) && Sees(t.outbox[k].after, t.stored)
                 && t.outbox[k].version == t.stored.version && !t.outbox[k].automated)
  {
    RunKeeps(row, steps);
  }

  /** A workflow's assignment sets assignee and group of the stored row, whatever its version, and appends one event. */
  lemma WorkflowsAssign(row: Row, steps: seq<Step>, w: nat, assignee: Option<UserId>, group: Option<GroupId>)
    requires At(Run(Start(row), steps), w).Observed?
    ensures
      var s, t := Run(Start(row), steps), Next(Run(Start(row), steps), WriteAssignment(w, assignee, group));
      && At(t, w).Idle? && t.stored.assignee == assignee && t.stored.group == group
      && SameProgress(s.stored, t.stored) && SameDetails(s.stored, t.stored) && t.stored.version == s.stored.version + 1
      && |t.outbox| == |s.outbox| + 1 && t.outbox[..|s.outbox|] == s.outbox
      && t.committed == s.committed + [AssignmentSet(assignee, group)]
      && var e := t.outbox[|s.outbox|];
         && e.kind == Assigned && e.automated && e.version == t.stored.version
         && Sees(e.before, At(s, w).seen) && Sees(e.after, t.stored)
  {}

  /** A workflow's status, unless it is the one that was read, is written whatever the stored version, with one event. */
  lemma WorkflowsSetStatus(row: Row, steps: seq<Step>, w: nat, status: TicketStatus, now: int)
    requires At(Run(Start(row), steps), w).Observed?
    ensures
      var s, t := Run(Start(row), steps), Next(Run(Start(row), steps), WriteStatus(w, status, now));
      if At(s, w).seen.status == status then t.stored == s.stored && t.outbox == s.outbox && t.committed == s.committed
      else
        && t.stored.status == status && t.stored.version == s.stored.version + 1
        && SameAssignment(s.stored, t.stored) && SameDetails(s.stored, t.stored)
        && |t.outbox| == |s.outbox| + 1 && t.outbox[..|s.outbox|] == s.outbox
        && t.committed == s.committed + [StatusSet(At(s, w).seen, status, now)]
        && var e := t.outbox[|s.outbox|];
           && e.kind == StatusChanged && e.automated && e.version == t.stored.version
           && Sees(e.before, At(s, w).seen) && Sees(e.after, t.stored)
  {}

  lemma RunOneMore(row: Row, steps: seq<Step>, step: Step)
    ensures Run(Start(row), steps + [step]) == Next(Run(Start(row), steps), step)
  {
    assert (steps + [step])[..|steps|] == steps;
  }

  /** It need not be: a request may solve the ticket between a workflow action's read and its write. */
  lemma AutomationCanMisreport(row: Row, now: int)
    requires row.status == Open
    ensures
      var q := Request(Transition(Solved), row.version, now);
      var s := Run(Start(row), [Observe(0), Load(1, q), ReadPrevious(1), Commit(1), WriteStatus(0, Pending, now)]);
      && |s.outbox| == 2
      && s.outbox[0].after.status == Solved
      && s.outbox[1].before.status == Open && s.outbox[1].after.status == Pending
      && s.stored.status == Pending
  {
    var q := Request(Transition(Solved), row.version, now);
    var steps := [Observe(0), Load(1, q), ReadPrevious(1), Commit(1)];
    RunOneMore(row, [], Observe(0));
    RunOneMore(row, [] + [Observe(0)], Load(1, q));
    RunOneMore(row, [] + [Observe(0)] + [Load(1, q)], ReadPrevious(1));
    RunOneMore(row, [] + [Observe(0)] + [Load(1, q)] + [ReadPrevious(1)], Commit(1));
    assert steps == [] + [Observe(0)] + [Load(1, q)] + [ReadPrevious(1)] + [Commit(1)];
    RunOneMore(row, steps, WriteStatus(0, Pending, now));
    assert steps + [WriteStatus(0, Pending, now)]
        == [Observe(0), Load(1, q), ReadPrevious(1), Commit(1), WriteStatus(0, Pending, now)];
  }
}
