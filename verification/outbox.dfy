/**
 The transactional outbox: workers claim batches of events under a lease, then record success
 or failure without checking that they still hold it; operators replay; old rows are deleted.
 Recording a failure reads the event first and writes later, so other steps may come between.
 Times are milliseconds on one clock.
 */
module Outbox {
  import opened Wrappers

  type Id = nat
  type Worker = nat

  const MS_PER_DAY := 86_400_000
  const LONGEST_BACKOFF_MS := 3_600_000

  datatype State = Pending | Claimed | Processed | Failed | DeadLettered

  datatype Lease = Lease(owner: Worker, expiresAt: int)

  datatype Event = Event(
    tenant: nat,
    state: State,
    attemptCount: nat,
    availableAt: int,
    lease: Option<Lease>,
    processedAt: Option<int>)

  type Events = map<Id, Event>

  predicate Claimable(e: Event, now: int) {
    || (e.state == Pending && e.availableAt <= now)
    || (e.state == Claimed && e.lease.Some? && e.lease.value.expiresAt <= now)
  }

  /** What one claim may take: the claimable rows nobody else has locked, oldest first, up to the batch size. */
  ghost predicate MayPick(events: Events, picked: set<Id>, batchSize: nat, locked: set<Id>, now: int) {
    && |picked| <= batchSize
    && (forall id :: id in picked ==> id in events && id !in locked && Claimable(events[id], now))
    && (forall id, p :: id in events && id !in locked && id !in picked && Claimable(events[id], now) && p in picked ==>
          events[p].availableAt <= events[id].availableAt)
    && ((exists id :: id in events && id !in locked && id !in picked && Claimable(events[id], now)) ==> |picked| == batchSize)
  }

  function Picked(events: Events, picked: set<Id>, lease: Lease): Events {
    map id | id in events ::
      if id in picked then events[id].(state := Claimed, lease := Some(lease)) else events[id]
  }

  function Done(e: Event, now: int): Event {
    e.(state := Processed, processedAt := Some(now), lease := None)
  }

  function PowerOfTwo(n: nat): nat {
    if n == 0 then 1 else 2 * PowerOfTwo(n - 1)
  }

  function BackoffMs(attempt: nat, jitter: nat): nat {
    var ms := PowerOfTwo(attempt) * 1000 + jitter;
    if ms < LONGEST_BACKOFF_MS then ms else LONGEST_BACKOFF_MS
  }

  lemma {:induction false} PowerGrows(m: nat, n: nat)
    requires m < n
    ensures 1 <= PowerOfTwo(m) && 2 * PowerOfTwo(m) <= PowerOfTwo(n)
    decreases n
  {
    if m + 1 < n {
      PowerGrows(m, n - 1);
    } else if m > 0 {
      PowerGrows(m - 1, m);
    }
  }

  /** Later attempts never wait less, whatever jitter of up to a second either drew, and never over an hour. */
  lemma BackoffNeverShrinks(m: nat, n: nat, jitter: nat, later: nat)
    requires m < n && jitter <= 1000
    ensures 0 < BackoffMs(m, jitter) <= BackoffMs(n, later) <= LONGEST_BACKOFF_MS
  {
    PowerGrows(m, n);
  }

  /** The event after a failure recorded from the row as it was read. */
  function FailedFrom(e: Event, seen: Event, maxAttempts: nat, now: int, jitter: nat): Event {
    var attempt := seen.attemptCount + 1;
    var dead := attempt >= maxAttempts;
    e.(attemptCount := attempt,
       state := if dead then DeadLettered else Failed,
       availableAt := if dead then seen.availableAt else now + BackoffMs(attempt, jitter),
       lease := None)
  }

  function Replayed(e: Event, now: int): Event {
    e.(state := Pending, availableAt := now, attemptCount := 0, lease := None)
  }

  predicate Expired(e: Event, daysToKeep: nat, now: int) {
    e.state == Processed && e.processedAt.Some? && e.processedAt.value <= now - daysToKeep * MS_PER_DAY
  }

  function Cleaned(events: Events, daysToKeep: nat, now: int): Events {
    map id | id in events && !Expired(events[id], daysToKeep, now) :: events[id]
  }

  // ------------------------------------------------------------------
  // The repository
  // ------------------------------------------------------------------

  class OutboxRepository {
    var events: Events

    constructor ()
      ensures events == map[]
    {
      events := map[];
    }

    method AppendOutboxEvent(id: Id, tenant: nat, now: int)
      requires id !in events
      modifies this
      ensures events == old(events)[id := Event(tenant, Pending, 0, now, None, None)]
    {
      events := events[id := Event(tenant, Pending, 0, now, None, None)];
    }

    /** The oldest of a set of events. */
    method Oldest(ids: set<Id>) returns (oldest: Id)
      requires ids != {} && ids <= events.Keys
      ensures oldest in ids && forall id :: id in ids ==> events[oldest].availableAt <= events[id].availableAt
    {
      var rest := ids;
      oldest :| oldest in rest;
      while rest != {}
        invariant rest <= ids && oldest in ids
        invariant forall id :: id in ids - rest ==> events[oldest].availableAt <= events[id].availableAt
      {
        var id :| id in rest;
        if events[id].availableAt < events[oldest].availableAt {
          oldest := id;
        }
        rest := rest - {id};
      }
    }

    method ClaimPendingBatch(batchSize: nat, leaseMs: nat, owner: Worker, locked: set<Id>, startedAt: int, now: int)
      returns (picked: set<Id>)
      modifies this
      ensures MayPick(old(events), picked, batchSize, locked, now)
      ensures events == Picked(old(events), picked, Lease(owner, startedAt + leaseMs))
    {
      var lease := Lease(owner, startedAt + leaseMs);
      var all := events;
      var claimable := set id | id in all && id !in locked && Claimable(all[id], now);
      picked := {};
      while claimable != {} && |picked| < batchSize
        invariant |picked| <= batchSize && events == old(events) == all && picked !! claimable
        invariant forall id :: id in picked || id in claimable <==> id in all && id !in locked && Claimable(all[id], now)
        invariant forall p, id :: p in picked && id in claimable ==> all[p].availableAt <= all[id].availableAt
        decreases claimable
      {
        var next := Oldest(claimable);
        picked, claimable := picked + {next}, claimable - {next};
      }
      events := map id | id in all ::
        if id in picked then all[id].(state := Claimed, lease := Some(lease)) else all[id];
    }

    method MarkProcessed(id: Id, tenant: nat, now: int) returns (found: bool)
      modifies this
      ensures found <==> id in old(events) && old(events)[id].tenant == tenant
      ensures events == if found then old(events)[id := Done(old(events)[id], now)] else old(events)
    {
      found := id in events && events[id].tenant == tenant;
      if found {
        events := events[id := events[id].(state := Processed, processedAt := Some(now), lease := None)];
      }
    }

    /** The write of recordAttemptFailure, given the row it read. */
    method WriteFailure(id: Id, seen: Event, maxAttempts: nat, now: int, jitter: nat) returns (deadLettered: bool)
      requires id in events
      modifies this
      ensures events == old(events)[id := FailedFrom(old(events)[id], seen, maxAttempts, now, jitter)]
      ensures deadLettered <==> events[id].state == DeadLettered
    {
      var nextAttempt := seen.attemptCount + 1;
      deadLettered := nextAttempt >= maxAttempts;
      var nextAvailableAt := now + BackoffMs(nextAttempt, jitter);
      events := events[id := events[id].(
        attemptCount := nextAttempt,
        state := if deadLettered then DeadLettered else Failed,
        availableAt := if deadLettered then seen.availableAt else nextAvailableAt,
        lease := None)];
    }

    method ReplayOutboxEvent(id: Id, tenant: nat, now: int) returns (found: bool)
      modifies this
      ensures found <==> id in old(events) && old(events)[id].tenant == tenant
      ensures events == if found then old(events)[id := Replayed(old(events)[id], now)] else old(events)
    {
      found := id in events && events[id].tenant == tenant;
      if found {
        events := events[id := events[id].(state := Pending, availableAt := now, attemptCount := 0, lease := None)];
      }
    }

    method CleanupOldEvents(daysToKeep: nat, now: int) returns (count: nat)
      modifies this
      ensures events == Cleaned(old(events), daysToKeep, now)
      ensures count == |old(events)| - |events|
    {
      var cutoff := now - daysToKeep * MS_PER_DAY;
      var before := events;
      var doomed := set id | id in before && before[id].state == Processed
                             && before[id].processedAt.Some? && before[id].processedAt.value <= cutoff;
      events := before - doomed;
      assert before.Keys == events.Keys + doomed;
      count := |doomed|;
    }
  }

  // ------------------------------------------------------------------
  // Runs
  // ------------------------------------------------------------------

  datatype Failure = Failure(id: Id, seen: Event)

  /** The table, the failures read but not yet written, and the time of the last step. */
  datatype System = System(events: Events, reading: map<Worker, Failure>, now: int)

  datatype Op =
    | Append(id: Id, tenant: nat, at: int)
    | Claim(picked: set<Id>, batchSize: nat, leaseMs: nat, owner: Worker, locked: set<Id>, startedAt: int, at: int)
    | MarkProcessed(id: Id, tenant: nat, at: int)
    | ReadForFailure(worker: Worker, id: Id, tenant: nat, at: int)
    | WriteFailure(worker: Worker, jitter: nat, at: int)
    | Replay(id: Id, tenant: nat, at: int)
    | Cleanup(daysToKeep: nat, at: int)

  predicate Owned(events: Events, id: Id, tenant: nat) {
    id in events && events[id].tenant == tenant
  }

  /** An operation that its row or its worker does not allow changes nothing but the time. */
  ghost function Next(s: System, maxAttempts: nat, op: Op): System {
    var t := s.(now := op.at);
    match op
    case Append(id, tenant, at) =>
      if id in s.events then t else t.(events := s.events[id := Event(tenant, Pending, 0, at, None, None)])
    case Claim(picked, batchSize, leaseMs, owner, locked, startedAt, at) =>
      if MayPick(s.events, picked, batchSize, locked, at)
      then t.(events := Picked(s.events, picked, Lease(owner, startedAt + leaseMs))) else t
    case MarkProcessed(id, tenant, at) =>
      if Owned(s.events, id, tenant) then t.(events := s.events[id := Done(s.events[id], at)]) else t
    case ReadForFailure(worker, id, tenant, _) =>
      if Owned(s.events, id, tenant) then t.(reading := s.reading[worker := Failure(id, s.events[id])]) else t
    case WriteFailure(worker, jitter, at) =>
      if worker in s.reading && s.reading[worker].id in s.events then
        var f := s.reading[worker];
        t.(events := s.events[f.id := FailedFrom(s.events[f.id], f.seen, maxAttempts, at, jitter)],
           reading := s.reading - {worker})
      else t
    case Replay(id, tenant, at) =>
      if Owned(s.events, id, tenant) then t.(events := s.events[id := Replayed(s.events[id], at)]) else t
    case Cleanup(daysToKeep, at) => t.(events := Cleaned(s.events, daysToKeep, at))
  }

  ghost function After(maxAttempts: nat, start: int, ops: seq<Op>): System {
    if ops == [] then System(map[], map[], start)
    else Next(After(maxAttempts, start, ops[..|ops| - 1]), maxAttempts, ops[|ops| - 1])
  }

  ghost predicate Clocked(start: int, ops: seq<Op>) {
    && (forall i :: 0 <= i < |ops| ==> start <= ops[i].at && (ops[i].Claim? ==> ops[i].startedAt <= ops[i].at))
    && (forall i, j :: 0 <= i < j < |ops| ==> ops[i].at <= ops[j].at)
  }

  // ------------------------------------------------------------------
  // What every event keeps
  // ------------------------------------------------------------------

  ghost predicate EventSound(e: Event, maxAttempts: nat, now: int) {
    && (e.lease.Some? <==> e.state == Claimed)
    && (e.state == Failed ==> 1 <= e.attemptCount < maxAttempts)
    && (e.state == DeadLettered ==> e.attemptCount >= maxAttempts)
    && (e.state == Pending || e.state == Claimed ==> e.attemptCount == 0)
    && (e.state == Processed ==> e.processedAt.Some? && e.processedAt.value <= now)
  }

  ghost predicate Sound(s: System, maxAttempts: nat) {
    forall id :: id in s.events ==> EventSound(s.events[id], maxAttempts, s.now)
  }

  lemma NextKeeps(s: System, maxAttempts: nat, op: Op)
    requires Sound(s, maxAttempts) && s.now <= op.at
    ensures Sound(Next(s, maxAttempts, op), maxAttempts)
  {}

  lemma {:induction false} AfterSound(maxAttempts: nat, start: int, ops: seq<Op>)
    requires Clocked(start, ops)
    ensures Sound(After(maxAttempts, start, ops), maxAttempts)
    ensures After(maxAttempts, start, ops).now == if ops == [] then start else ops[|ops| - 1].at
    decreases |ops|
  {
    if ops != [] {
      AfterSound(maxAttempts, start, ops[..|ops| - 1]);
      NextKeeps(After(maxAttempts, start, ops[..|ops| - 1]), maxAttempts, ops[|ops| - 1]);
    }
  }

  /**
   In every reachable table: lease fields are set exactly while CLAIMED; FAILED events are below the
   attempt limit and DEAD_LETTERED ones at or above it; and an event that may be claimed has no failed
   attempt on record, because a FAILED event only becomes claimable again by a replay that resets its count.
   */
  lemma {:induction false} ReachableEventsAreSound(maxAttempts: nat, start: int, ops: seq<Op>, id: Id)
    requires Clocked(start, ops) && id in After(maxAttempts, start, ops).events
    ensures
      var e := After(maxAttempts, start, ops).events[id];
      && (e.lease.Some? <==> e.state == Claimed)
      && (e.state == Failed ==> 1 <= e.attemptCount < maxAttempts)
      && (e.state == DeadLettered ==> e.attemptCount >= maxAttempts)
      && (forall now :: Claimable(e, now) ==> e.attemptCount == 0)
  {
    AfterSound(maxAttempts, start, ops);
  }

  // ------------------------------------------------------------------
  // Leases
  // ------------------------------------------------------------------

  ghost predicate ClaimsNow(s: System, op: Op, id: Id) {
    op.Claim? && id in op.picked && MayPick(s.events, op.picked, op.batchSize, op.locked, op.at)
  }

  /** A processed, failure or replay step on the event. */
  ghost predicate SettlesNow(s: System, op: Op, id: Id) {
    match op
    case MarkProcessed(i, _, _) => i == id
    case Replay(i, _, _) => i == id
    case WriteFailure(w, _, _) => w in s.reading && s.reading[w].id == id
    case _ => false
  }

  ghost predicate Claims(maxAttempts: nat, start: int, ops: seq<Op>, k: nat, id: Id)
    requires k < |ops|
  {
    ClaimsNow(After(maxAttempts, start, ops[..k]), ops[k], id)
  }

  ghost predicate Settles(maxAttempts: nat, start: int, ops: seq<Op>, k: nat, id: Id)
    requires k < |ops|
  {
    SettlesNow(After(maxAttempts, start, ops[..k]), ops[k], id)
  }

  lemma StepAt(maxAttempts: nat, start: int, ops: seq<Op>, k: nat)
    requires k < |ops|
    ensures After(maxAttempts, start, ops[..k + 1]) == Next(After(maxAttempts, start, ops[..k]), maxAttempts, ops[k])
  {
    assert ops[..k + 1][..k] == ops[..k];
  }

  /** The event is claimed, under the lease that ends at a given time or past that time. */
  ghost predicate Held(s: System, id: Id, end: int) {
    && id in s.events && s.events[id].state == Claimed && s.events[id].lease.Some?
    && (s.events[id].lease.value.expiresAt == end || end <= s.now)
  }

  lemma ClaimHolds(s: System, maxAttempts: nat, op: Op, id: Id)
    requires ClaimsNow(s, op, id)
    ensures Held(Next(s, maxAttempts, op), id, op.startedAt + op.leaseMs)
  {}

  lemma StaysHeld(s: System, maxAttempts: nat, op: Op, id: Id, end: int)
    requires Held(s, id, end) && s.now <= op.at && !SettlesNow(s, op, id)
    ensures Held(Next(s, maxAttempts, op), id, end)
  {}

  lemma {:induction false} LeaseHolds(maxAttempts: nat, start: int, ops: seq<Op>, i: nat, j: nat, id: Id)
    requires Clocked(start, ops) && i < j <= |ops| && Claims(maxAttempts, start, ops, i, id)
    requires forall k :: i < k < j ==> !Settles(maxAttempts, start, ops, k, id)
    ensures Held(After(maxAttempts, start, ops[..j]), id, ops[i].startedAt + ops[i].leaseMs)
    decreases j
  {
    StepAt(maxAttempts, start, ops, j - 1);
    var before := After(maxAttempts, start, ops[..j - 1]);
    if j > i + 1 {
      LeaseHolds(maxAttempts, start, ops, i, j - 1, id);
      assert !Settles(maxAttempts, start, ops, j - 1, id);
      AfterSound(maxAttempts, start, ops[..j - 1]);
      StaysHeld(before, maxAttempts, ops[j - 1], id, ops[i].startedAt + ops[i].leaseMs);
    } else {
      ClaimHolds(before, maxAttempts, ops[i], id);
    }
  }

  /**
   However many workers run, two claims of one event with no processed, failure or replay step on it
   between them are at least the first claim's lease apart.
   */
  lemma ClaimsAreALeaseApart(maxAttempts: nat, start: int, ops: seq<Op>, i: nat, j: nat, id: Id)
    requires Clocked(start, ops) && i < j < |ops|
    requires Claims(maxAttempts, start, ops, i, id) && Claims(maxAttempts, start, ops, j, id)
    requires forall k :: i < k < j ==> !Settles(maxAttempts, start, ops, k, id)
    ensures ops[i].startedAt + ops[i].leaseMs <= ops[j].at
  {
    LeaseHolds(maxAttempts, start, ops, i, j, id);
    AfterSound(maxAttempts, start, ops[..j]);
  }

  // ------------------------------------------------------------------
  // Deletion
  // ------------------------------------------------------------------

  /** The processing time of a PROCESSED event is that of some earlier operation that marked it. */
  lemma {:induction false} ProcessedWasMarked(maxAttempts: nat, start: int, ops: seq<Op>, id: Id) returns (k: nat)
    requires var s := After(maxAttempts, start, ops); id in s.events && s.events[id].state == Processed
    ensures k < |ops| && ops[k].MarkProcessed? && ops[k].id == id
    ensures After(maxAttempts, start, ops).events[id].processedAt == Some(ops[k].at)
    decreases |ops|
  {
    var last := ops[|ops| - 1];
    var before := After(maxAttempts, start, ops[..|ops| - 1]);
    if last.MarkProcessed? && last.id == id && Owned(before.events, id, last.tenant) {
      k := |ops| - 1;
    } else {
      k := ProcessedWasMarked(maxAttempts, start, ops[..|ops| - 1], id);
    }
  }

  /** An event leaves the table only by a cleanup at least daysToKeep days after it was marked processed. */
  lemma OnlyOldProcessedEventsLeave(maxAttempts: nat, start: int, ops: seq<Op>, k: nat, id: Id) returns (marked: nat)
    requires k < |ops| && id in After(maxAttempts, start, ops[..k]).events
    requires id !in After(maxAttempts, start, ops[..k + 1]).events
    ensures ops[k].Cleanup? && After(maxAttempts, start, ops[..k]).events[id].state == Processed
    ensures marked < k && ops[marked].MarkProcessed? && ops[marked].id == id
    ensures ops[marked].at + ops[k].daysToKeep * MS_PER_DAY <= ops[k].at
  {
    StepAt(maxAttempts, start, ops, k);
    marked := ProcessedWasMarked(maxAttempts, start, ops[..k], id);
  }

  // ------------------------------------------------------------------
  // What each step does to the table
  // ------------------------------------------------------------------

  /** Only the event id may differ, and it stays that tenant's. */
  ghost predicate OnlyAt(before: Events, after: Events, id: Id) {
    && after.Keys == before.Keys && id in before && after[id].tenant == before[id].tenant
    && forall k :: k in before && k != id ==> after[k] == before[k]
  }

  ghost predicate OwnedBy(events: Events, id: Id, tenant: nat) {
    id in events && events[id].tenant == tenant
  }

  /** An appended event can be claimed from its creation on; a known id is left alone. */
  lemma AppendsAreClaimableAtOnce(s: System, maxAttempts: nat, id: Id, tenant: nat, at: int, t: int)
    ensures
      var after := Next(s, maxAttempts, Append(id, tenant, at)).events;
      if id in s.events then after == s.events
      else
        && after.Keys == s.events.Keys + {id} && (forall k :: k in s.events ==> after[k] == s.events[k])
        && after[id].tenant == tenant && after[id].attemptCount == 0
        && (Claimable(after[id], t) <==> at <= t)
  {}

  /** Claimed events go to their owner until the lease ends, and can be claimed again exactly from then on. */
  lemma ClaimsGiveALease(s: System, maxAttempts: nat, op: Op, t: int)
    requires op.Claim? && MayPick(s.events, op.picked, op.batchSize, op.locked, op.at)
    ensures
      var after := Next(s, maxAttempts, op).events;
      && after.Keys == s.events.Keys
      && (forall id :: id in s.events && id !in op.picked ==> after[id] == s.events[id])
      && forall id :: id in op.picked ==>
           && after[id].state == Claimed && after[id].lease.Some? && after[id].lease.value.owner == op.owner
           && after[id].tenant == s.events[id].tenant && after[id].attemptCount == s.events[id].attemptCount
           && (Claimable(after[id], t) <==> op.startedAt + op.leaseMs <= t)
  {}

  /** Events that are processed, failed or dead are never claimable. */
  lemma SettledAreNotClaimable(e: Event, t: int)
    ensures e.state == Processed || e.state == Failed || e.state == DeadLettered ==> !Claimable(e, t)
  {}

  /** Success is recorded for the tenant's own event only, with its time. */
  lemma SuccessIsRecorded(s: System, maxAttempts: nat, id: Id, tenant: nat, at: int)
    ensures
      var after := Next(s, maxAttempts, MarkProcessed(id, tenant, at)).events;
      if !OwnedBy(s.events, id, tenant) then after == s.events
      else
        && OnlyAt(s.events, after, id)
        && after[id].state == Processed && after[id].processedAt == Some(at) && after[id].lease == None
        && after[id].attemptCount == s.events[id].attemptCount
  {}

  /** A replay of the tenant's own event makes it as claimable as a new one, without failed attempts. */
  lemma ReplaysStartOver(s: System, maxAttempts: nat, id: Id, tenant: nat, at: int, t: int)
    ensures
      var after := Next(s, maxAttempts, Replay(id, tenant, at)).events;
      if !OwnedBy(s.events, id, tenant) then after == s.events
      else
        && OnlyAt(s.events, after, id)
        && after[id].state == Pending && after[id].attemptCount == 0 && after[id].lease == None
        && (Claimable(after[id], t) <==> at <= t)
  {}

  /** A failure counts one more attempt than the row read; at the limit the event is dead, below it waits. */
  lemma FailuresCountOn(s: System, maxAttempts: nat, worker: Worker, jitter: nat, at: int)
    requires worker in s.reading && s.reading[worker].id in s.events
    ensures
      var f, after := s.reading[worker], Next(s, maxAttempts, WriteFailure(worker, jitter, at)).events;
      && OnlyAt(s.events, after, f.id) && worker !in Next(s, maxAttempts, WriteFailure(worker, jitter, at)).reading
      && after[f.id].attemptCount == f.seen.attemptCount + 1 && after[f.id].lease == None
      && (f.seen.attemptCount + 1 >= maxAttempts ==>
            after[f.id].state == DeadLettered && after[f.id].availableAt == f.seen.availableAt)
      && (f.seen.attemptCount + 1 < maxAttempts ==>
            after[f.id].state == Failed && after[f.id].availableAt == at + BackoffMs(f.seen.attemptCount + 1, jitter))
  {}

  /** A failure is written from the tenant's own event as it was when it was read. */
  lemma FailuresAreReadFirst(s: System, maxAttempts: nat, worker: Worker, id: Id, tenant: nat, at: int)
    ensures
      var after := Next(s, maxAttempts, ReadForFailure(worker, id, tenant, at));
      && after.events == s.events
      && (if OwnedBy(s.events, id, tenant) then worker in after.reading && after.reading[worker] == Failure(id, s.events[id])
          else after.reading == s.reading)
  {}

  /** The wait doubles from one second, plus the jitter, until it is an hour. */
  lemma BackoffDoubles(n: nat, jitter: nat)
    ensures BackoffMs(0, jitter) == if 1000 + jitter < 3_600_000 then 1000 + jitter else 3_600_000
    ensures BackoffMs(n + 1, 0) == if 2 * BackoffMs(n, 0) < 3_600_000 then 2 * BackoffMs(n, 0) else 3_600_000
    ensures BackoffMs(n, jitter) == if BackoffMs(n, 0) + jitter < 3_600_000 then BackoffMs(n, 0) + jitter else 3_600_000
  {}

  /** A cleanup removes exactly the events marked processed at least daysToKeep days before it. */
  lemma CleanupRemovesExactly(maxAttempts: nat, start: int, ops: seq<Op>, daysToKeep: nat, at: int, id: Id)
    requires Clocked(start, ops)
    ensures
      var before := After(maxAttempts, start, ops);
      var after := Next(before, maxAttempts, Cleanup(daysToKeep, at));
      && (id in after.events <==>
            && id in before.events
            && !(&& before.events[id].state == Processed && before.events[id].processedAt.Some?
                 && before.events[id].processedAt.value + daysToKeep * 86_400_000 <= at))
      && (id in after.events ==> after.events[id] == before.events[id])
  {
    AfterSound(maxAttempts, start, ops);
  }
}
