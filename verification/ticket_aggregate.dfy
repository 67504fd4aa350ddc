/**
 The ticket aggregate: commands change a loaded row in memory, each checked against the
 version its caller expects and raising it by one.
 */
module TicketAggregates {
  import opened Wrappers
  import opened TicketStatuses

  type UserId = nat
  type GroupId = nat

  /** A request field that was left out, or given (possibly as null, when T is an Option). */
  datatype Change<T> = Keep | Set(value: T) {
    function Over(current: T): T {
      if Set? then value else current
    }
  }

  datatype Row = Row(
    status: TicketStatus,
    assignee: Option<UserId>,
    group: Option<GroupId>,
    title: string,
    description: string,
    priority: nat,
    channel: nat,
    kind: nat,
    dueDate: Option<int>,
    solvedAt: Option<int>,
    closedAt: Option<int>,
    version: nat)

  /** Text is given as trimmed. */
  datatype Command =
    | Transition(status: TicketStatus)
    | Update(title: Change<string>, description: Change<string>, priority: Change<nat>, channel: Change<nat>,
             kind: Change<nat>, assignee: Change<Option<UserId>>, group: Change<Option<GroupId>>, dueDate: Change<Option<int>>)
    | Assign(assignee: Change<Option<UserId>>, group: Change<Option<GroupId>>)
    | Unassign

  datatype Refusal = VersionConflict(current: nat) | InvalidTransition | ClosedTicket | BlankText | GroupsUnsupported

  function Transitioned(row: Row, status: TicketStatus, now: int): Row {
    row.(status := status,
         solvedAt := if status == Solved then Some(now) else if status == Open then None else row.solvedAt,
         closedAt := if status == Closed then Some(now) else row.closedAt,
         version := row.version + 1)
  }

  /** The row the aggregate makes of a loaded row. */
  function Commanded(row: Row, cmd: Command, expected: nat, now: int): Result<Row, Refusal> {
    if row.version != expected then Err(VersionConflict(row.version))
    else
      match cmd
      case Transition(status) =>
        if status == row.status then Ok(row)
        else if !AllowedTransition(row.status, status) then Err(InvalidTransition)
        else Ok(Transitioned(row, status, now))
      case Update(title, description, priority, channel, kind, assignee, group, dueDate) =>
        if title == Set("") || description == Set("") then Err(BlankText)
        else Ok(row.(title := title.Over(row.title), description := description.Over(row.description),
                     priority := priority.Over(row.priority), channel := channel.Over(row.channel),
                     kind := kind.Over(row.kind), assignee := assignee.Over(row.assignee),
                     group := group.Over(row.group), dueDate := dueDate.Over(row.dueDate),
                     version := row.version + 1))
      case Assign(assignee, group) =>
        if row.status == Closed then Err(ClosedTicket)
        else Ok(row.(assignee := assignee.Over(row.assignee), group := group.Over(row.group), version := row.version + 1))
      case Unassign =>
        if row.status == Closed then Err(ClosedTicket)
        else Ok(row.(assignee := None, group := None, version := row.version + 1))
  }

  /** The service refuses groups before it asks the aggregate. */
  function Applied(row: Row, cmd: Command, expected: nat, now: int): Result<Row, Refusal> {
    if cmd.Assign? && cmd.group.Set? && cmd.group.value.Some? then Err(GroupsUnsupported)
    else Commanded(row, cmd, expected, now)
  }

  class TicketAggregate {
    var row: Row

    constructor (row: Row)
      ensures this.row == row
    {
      this.row := row;
    }

    method TransitionTo(status: TicketStatus, expected: nat, now: int) returns (r: Result<(), Refusal>)
      modifies this
      ensures match Commanded(old(row), Transition(status), expected, now)
        case Ok(after) => r == Ok(()) && row == after
        case Err(e) => r == Err(e) && row == old(row)
    {
      if row.version != expected {
        return Err(VersionConflict(row.version));
      }
      if row.status == status {
        return Ok(());
      }
      if !AllowedTransition(row.status, status) {
        return Err(InvalidTransition);
      }
      row := row.(status := status);
      if status == Solved {
        row := row.(solvedAt := Some(now));
      } else if status == Closed {
        row := row.(closedAt := Some(now));
      } else if status == Open && row.solvedAt.Some? {
        row := row.(solvedAt := None);
      }
      row := row.(version := row.version + 1);
      return Ok(());
    }

    method UpdateFields(cmd: Command, expected: nat) returns (r: Result<(), Refusal>)
      requires cmd.Update?
      modifies this
      ensures match Commanded(old(row), cmd, expected, 0)
        case Ok(after) => r == Ok(()) && row == after
        case Err(e) => r == Err(e)
    {
      var props := row;
      if row.version != expected {
        return Err(VersionConflict(row.version));
      }
      if cmd.title.Set? {
        if cmd.title.value == "" {
          return Err(BlankText);
        }
        props := props.(title := cmd.title.value);
      }
      if cmd.description.Set? {
        if cmd.description.value == "" {
          return Err(BlankText);
        }
        props := props.(description := cmd.description.value);
      }
      props := props.(priority := cmd.priority.Over(props.priority));
      props := props.(channel := cmd.channel.Over(props.channel));
      props := props.(kind := cmd.kind.Over(props.kind));
      props := props.(assignee := cmd.assignee.Over(props.assignee));
      props := props.(group := cmd.group.Over(props.group));
      props := props.(dueDate := cmd.dueDate.Over(props.dueDate));
      row := props.(version := props.version + 1);
      return Ok(());
    }

    method Assign(assignee: Change<Option<UserId>>, group: Change<Option<GroupId>>, expected: nat) returns (r: Result<(), Refusal>)
      modifies this
      ensures match Commanded(old(row), Command.Assign(assignee, group), expected, 0)
        case Ok(after) => r == Ok(()) && row == after
        case Err(e) => r == Err(e) && row == old(row)
    {
      if row.version != expected {
        return Err(VersionConflict(row.version));
      }
      if row.status == Closed {
        return Err(ClosedTicket);
      }
      if assignee.Set? {
        row := row.(assignee := assignee.value);
      }
      if group.Set? {
        row := row.(group := group.value);
      }
      row := row.(version := row.version + 1);
      return Ok(());
    }

    method Unassign(expected: nat) returns (r: Result<(), Refusal>)
      modifies this
      ensures match Commanded(old(row), Command.Unassign, expected, 0)
        case Ok(after) => r == Ok(()) && row == after
        case Err(e) => r == Err(e) && row == old(row)
    {
      if row.version != expected {
        return Err(VersionConflict(row.version));
      }
      if row.status == Closed {
        return Err(ClosedTicket);
      }
      row := row.(assignee := None, group := None, version := row.version + 1);
      return Ok(());
    }
  }

  /** A command leaves the row alone or raises its version by one; only a move to the same status does the former. */
  lemma CommandsRaiseVersionIff(row: Row, cmd: Command, expected: nat, now: int)
    requires Commanded(row, cmd, expected, now).Ok?
    ensures var after := Commanded(row, cmd, expected, now).value;
      && expected == row.version
      && (if cmd == Transition(row.status) then after == row else after.version == row.version + 1)
  {}

  // ------------------------------------------------------------------
  // What commands do, field by field
  // ------------------------------------------------------------------

  /** The fields no command changes but where it says so. */
  ghost predicate SameDetails(a: Row, b: Row) {
    && a.title == b.title && a.description == b.description && a.priority == b.priority
    && a.channel == b.channel && a.kind == b.kind && a.dueDate == b.dueDate
  }

  ghost predicate SameAssignment(a: Row, b: Row) {
    a.assignee == b.assignee && a.group == b.group
  }

  ghost predicate SameProgress(a: Row, b: Row) {
    a.status == b.status && a.solvedAt == b.solvedAt && a.closedAt == b.closedAt
  }

  /** A field is the given value if one was given, and otherwise stays. */
  ghost predicate Follows<T>(c: Change<T>, before: T, after: T) {
    match c
    case Keep => after == before
    case Set(v) => after == v
  }

  /** Every command is refused first of all, and with the stored version, when it expects another one. */
  lemma StaleCommandsAreRefused(row: Row, cmd: Command, expected: nat, now: int)
    ensures (expected != row.version) <==>
      (Commanded(row, cmd, expected, now).Err? && Commanded(row, cmd, expected, now).error.VersionConflict?)
    ensures expected != row.version ==> Commanded(row, cmd, expected, now) == Err(VersionConflict(row.version))
  {}

  /**
   An accepted transition to another status sets it; solvedAt is stamped on entering SOLVED and cleared on
   OPEN, closedAt is stamped on CLOSED. It is refused exactly off the table.
   */
  lemma TransitionsSetStatus(row: Row, status: TicketStatus, now: int)
    requires status != row.status
    ensures
      match Commanded(row, Transition(status), row.version, now)
      case Err(e) => e == InvalidTransition && !ListedMove(row.status, status)
      case Ok(after) =>
        && ListedMove(row.status, status)
        && after.status == status
        && (status == Solved ==> after.solvedAt == Some(now))
        && (status == Open ==> after.solvedAt == None)
        && (status != Solved && status != Open ==> after.solvedAt == row.solvedAt)
        && (status == Closed ==> after.closedAt == Some(now))
        && (status != Closed ==> after.closedAt == row.closedAt)
        && SameAssignment(row, after) && SameDetails(row, after) && after.version == row.version + 1
  {}

  /** An accepted update changes the fields given, to the values given; only blank text is refused. */
  lemma UpdatesSetGivenFields(row: Row, cmd: Command, now: int)
    requires cmd.Update?
    ensures
      match Commanded(row, cmd, row.version, now)
      case Err(e) => e == BlankText && (cmd.title == Set("") || cmd.description == Set(""))
      case Ok(after) =>
        && cmd.title != Set("") && cmd.description != Set("")
        && Follows(cmd.title, row.title, after.title) && Follows(cmd.description, row.description, after.description)
        && Follows(cmd.priority, row.priority, after.priority) && Follows(cmd.channel, row.channel, after.channel)
        && Follows(cmd.kind, row.kind, after.kind) && Follows(cmd.dueDate, row.dueDate, after.dueDate)
        && Follows(cmd.assignee, row.assignee, after.assignee) && Follows(cmd.group, row.group, after.group)
        && SameProgress(row, after) && after.version == row.version + 1
  {}

  /** An accepted assignment changes assignee and group as given, an unassignment clears both; CLOSED refuses them. */
  lemma AssignmentsSetBoth(row: Row, cmd: Command, now: int)
    requires cmd.Assign? || cmd.Unassign?
    ensures
      match Commanded(row, cmd, row.version, now)
      case Err(e) => e == ClosedTicket && row.status == Closed
      case Ok(after) =>
        && row.status != Closed
        && (cmd.Assign? ==> Follows(cmd.assignee, row.assignee, after.assignee) && Follows(cmd.group, row.group, after.group))
        && (cmd.Unassign? ==> after.assignee == None && after.group == None)
        && SameProgress(row, after) && SameDetails(row, after) && after.version == row.version + 1
  {}

  // ------------------------------------------------------------------
  // Timestamps and statuses
  // ------------------------------------------------------------------

  /** solvedAt is set exactly on SOLVED and CLOSED tickets, closedAt exactly on CLOSED ones. */
  ghost predicate Stamped(row: Row) {
    && (row.solvedAt.Some? <==> row.status == Solved || row.status == Closed)
    && (row.closedAt.Some? <==> row.status == Closed)
  }

  lemma CommandsKeepStamps(row: Row, cmd: Command, expected: nat, now: int)
    requires Stamped(row) && Commanded(row, cmd, expected, now).Ok?
    ensures Stamped(Commanded(row, cmd, expected, now).value)
  {}

  /** The service refuses to assign a ticket to a group, and leaves every other command to the aggregate. */
  lemma GroupsAreRefusedIff(row: Row, cmd: Command, expected: nat, now: int)
    ensures
      if cmd.Assign? && exists g :: cmd.group == Set(Some(g))
      then Applied(row, cmd, expected, now) == Err(GroupsUnsupported)
      else Applied(row, cmd, expected, now) == Commanded(row, cmd, expected, now)
  {
    if cmd.Assign? && cmd.group.Set? && cmd.group.value.Some? {
      assert cmd.group == Set(Some(cmd.group.value.value));
    }
  }
}
