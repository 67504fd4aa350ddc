# SupportDesk: a verified model

SupportDesk keeps its state in database rows that service methods change. This project models
the parts of it whose correctness spans many calls, as Dafny classes whose methods do what the
service methods do, next to functions that say what each call does to the state, and proves
properties of every run. `dafny verify dfyconfig.toml` checks all of it.

A state-changing method is proved equal to its function; the theorems are about the functions
and about sequences of calls. A refused call changes nothing. Clocks, random identifiers, the
permission checks of controllers and the results of validators come in as parameters.

| files | what they model |
|---|---|
| `business_calendar`, `business_hours_clock`, `clock_lookups`, `clock_adding`, `clock_counting` | business time as a set of milliseconds, the clock that walks local days and windows, and exactly when its walks are right |
| `sla_target`, `sla_engine`, `sla_runs` | SLA targets of a ticket: start, pause, resume, complete, reopen, evaluate, and a workflow's sla_start and sla_stop; whole runs with a ledger of business time |
| `ticket_status`, `ticket_aggregate`, `ticket_writes` | optimistic ticket writes, interleaved with each other and with workflow actions, and the events they append |
| `category_tree` | the service catalogue's category tree and its recursive query |
| `fixed_window`, `login_lockout`, `rate_limit` | fixed-window counters: login lockout and the authentication rate limiter |
| `refresh_tokens` | refresh-token families, sessions, logout, password changes |
| `approval_gate`, `service_request` | approval gates and the service-request state machine |
| `publication`, `sla_config`, `sla_matcher`, `workflow_config` | drafts, publication and retirement of SLA policies, business schedules and workflows; policy matching |
| `outbox` | outbox claims under leases, failures, replay, cleanup |
| `asset_parents` | the parent walk that guards asset hierarchies |
| `like_search`, `ticket_scope` | literal text search, and the search filter against the permission check |
| `decimal`, `unique_slug`, `references` | slugs and public references |

## What the proofs found

* The clock's own comments and tests promise overnight windows. Adding business time is right for
  every start and amount exactly when two things hold of the windows (`AddingIsRightIff`): where a
  day's windows run to midnight or past it, the next day's are over by the time they end, since the
  walk then jumps over the rest of that next day; and nothing is open only through a window of the
  day before. Open around the clock, a day is lost after each full day; open from 22:00 to 06:00,
  every other night is (`OvernightLosesANight`).
* Counting has a condition of its own: hours that a window spills past midnight are counted when the
  count begins before that midnight and left out when it begins after it (`SpillIsNotCounted`,
  `OvernightCountsFromItsDay`).
* A workflow's sla_start on a PAUSED target drops the pause without moving the deadline, and charges
  the target for time it did not run: the business-time law survives exactly when no time has passed
  since the pause (`WorkflowActionKeepsLawIff`), and a run keeps plain budgets exactly when no
  sla_start reaches a target paused for some time (`BudgetsArePlainIff`). A target can be BREACHED
  without having run at all (`WorkflowStartBreachesUnused`).
* A workflow can write SOLVED without telling the SLA engine. A request that then reopens the ticket
  adds a second active RESOLUTION target: exactly when one is still active and the newest one's
  policy restarts with a budget (`OneActivePerKindIff`, `SilentSolveDuplicates`).
* A public agent comment completes a RESPONSE target before evaluating it, so a RESPONSE can be MET
  after its deadline: exactly when it was still RUNNING with the deadline behind it
  (`CommentCompletesLateIff`). A RESOLUTION cannot, unless a workflow stops it (`WorkflowStopIsInBudgetIff`).
* The lockout admits up to max(T, 2T - 2) failed checks per window if it lasts at least as long as
  the window, and more otherwise (`FailureBoundHoldsIff`); the rate limiter admits up to 2L - 1
  attempts per window. Both bounds are reached.
* A move of a ticket to the status it already has commits without raising the version.
* A workflow that takes a ticket out of SOLVED leaves solvedAt set, and one that closes an unsolved
  ticket leaves it unset; requests never do (`StatusWriteKeepsStampsIff`, `StampsFollowTheStatus`).
* A workflow action writes a ticket without a version check, and its event may name a status that
  was no longer current (`AutomationContinuesIff`). Replaying the events still gives the stored row.
* A service with SINGLE or ANY approval and no steps accepts requests that can never be fulfilled,
  while ALL without steps needs no approval (`FulfillableIff`).
* The requester is compared with a step's assigned approver, never with the user who decides. A
  requester who may decide approvals can decide any step not assigned to himself, and approve his
  own request alone exactly when it can be approved at all (`SelfDecisionIff`, `SelfApprovalIff`).
* A FAILED outbox event is never claimed again without a replay, which resets its count; so an
  event that is claimed has no failed attempt on record (`ReachableEventsAreSound`).
* The parent walk follows one parent row per asset; with a second parent row it can accept a row
  that closes a cycle, exactly when some way up avoids the child (`WalkMayMissIff`).

## Model

| member | source | states |
|---|---|---|
| BusinessCalendar.AddReachesEarliest | apps/api/src/sla/domain/business-hours-clock.ts:33-83 | adding n business milliseconds gives the earliest later instant with n of them in between, on any calendar where business time never ends |
| BusinessCalendar.AddUndoesRemaining | apps/api/src/sla/sla-engine.service.ts:519-549 | adding back what remained before a deadline reaches the end of the same last business millisecond |
| BusinessHoursClock.Clock.AddBusinessMs | apps/api/src/sla/domain/business-hours-clock.ts:37-83 | the day-by-day loop with its bound and errors computes the walk that the theorems speak of |
| BusinessHoursClock.Clock.RemainingBusinessMs | apps/api/src/sla/domain/business-hours-clock.ts:89-129 | the counting loop with its bound computes the count that the theorems speak of |
| BusinessHoursClock.Clock.OpenIntervals | apps/api/src/sla/domain/business-hours-clock.ts:131-152 | the 400-day look ahead returns the windows of the next day that has one ending after the cursor |
| ClockCounting.CountedIsRemainingIff | apps/api/src/sla/domain/business-hours-clock.ts:85-129 | the count of a span, within the 50,000 iterations, is all its open milliseconds if and only if each is open through a window of the first day or a later one and no look ahead of 400 days came back empty before it |
| ClockCounting.CountedIsSince | apps/api/src/sla/domain/business-hours-clock.ts:85-129 | where the look ahead always finds an open day, the count of any span is exactly the time open through windows of its first day or later |
| ClockAdding.AddedIsEarliest | apps/api/src/sla/domain/business-hours-clock.ts:33-83 | with safe jumps and no spilled hours ahead on the first day, the clock returns the earliest instant with the amount asked for, or an error: negative amount, too little in the days it may walk, or nothing open for 400 days before the amount is reached |
| ClockAdding.AddingFromIsRightIff | apps/api/src/sla/domain/business-hours-clock.ts:44-79 | with safe jumps, adding from an instant is right for all amounts if and only if no later instant of its day is open only through the day before |
| ClockAdding.AddingIsRightIff | apps/api/src/sla/domain/business-hours-clock.ts:61-79 | adding is right for all starts and amounts if and only if no day that runs to midnight or past it is followed by a day open later than it ends, and nothing is open only through the day before |
| ClockAdding.DaytimeIsSafeIff | apps/api/src/sla/domain/business-hours-clock.ts:73-79 | for windows that end by midnight the condition is that no day reaching midnight precedes a day with windows |
| ClockAdding.MidnightIsMissed | apps/api/src/sla/domain/business-hours-clock.ts:73-79 | from any start, with no spilled hours ahead, on a day whose jump is unsafe, one millisecond more than the day has left is answered wrongly |
| ClockAdding.AroundTheClockLosesADay | apps/api/src/sla/domain/business-hours-clock.ts:73-79 | on a schedule open around the clock, a day and a millisecond falls due exactly a day late |
| ClockAdding.OvernightLosesANight | apps/api/src/sla/domain/business-hours-clock.ts:73-79 | open from 22:00 to 06:00 every night, eight hours and a millisecond from one evening skip the whole next night |
| ClockCounting.SpillIsNotCounted | apps/api/src/sla/domain/business-hours-clock.ts:131-161 | where the look ahead always finds an open day, a count misses nothing if and only if no instant of its first day in the span is open only through the day before |
| ClockCounting.OvernightCountsFromItsDay | apps/api/src/sla/domain/business-hours-clock.ts:131-161 | of a 22:00 to 06:00 night, what is left counts in full before midnight and as nothing after it |
| ClockAdding.ClockMatchesCalendar | apps/api/src/sla/domain/business-hours-clock.ts:33-83 | on schedules and starts that are added to rightly, and never dark for 400 days, the clock is the calendar the SLA theorems are proved for |
| SlaTarget.BusinessTimeConserved | apps/api/src/sla/sla-engine.service.ts:314-340 | over any run of pause, resume, evaluate, sla_start and sla_stop, running business time plus remaining time, plus what sla_starts cut off, less what an unevaluated pause missed, is the budget; accumulated pause time is the wall-clock sum of closed pauses, less those an sla_start ended |
| SlaTarget.WorkflowActionKeepsLawIff | apps/api/src/workflows/runtime/action-executors/sla-action.executor.ts:50-82 | a workflow's write keeps the budget balanced if and only if the target was RUNNING or no business time passed since its pause, and the pause total if and only if no time passed at all |
| SlaTarget.WorkflowStopIsInBudgetIff | apps/api/src/workflows/runtime/action-executors/sla-action.executor.ts:50-72 | a target stopped by a workflow was inside its budget if and only if it was PAUSED before its deadline or the deadline lay ahead |
| SlaTarget.WorkflowStartBreachesUnused | apps/api/src/workflows/runtime/action-executors/sla-action.executor.ts:73-82 | paused at once and started by a workflow after its deadline, a target is BREACHED with no running time |
| SlaTarget.WarningIsExact | apps/api/src/sla/sla-engine.service.ts:581-701 | with nothing missed, a warning is due before the deadline exactly when the business time that ran or was cut off is the policy's share of the budget |
| SlaTarget.StartsWithItsBudget | apps/api/src/sla/sla-engine.service.ts:314-340 | a new target is RUNNING with nothing recorded and its kind's minutes of business time ahead |
| SlaTarget.EvaluationWrites | apps/api/src/sla/sla-engine.service.ts:581-709 | an evaluation writes a breach exactly to RUNNING rows at or past their deadline and a first warning only before it, each with its time, and nothing else |
| SlaTarget.PauseAndCompletionWrites | apps/api/src/sla/sla-engine.service.ts:381-549 | a pause, a resumption and a completion write exactly their state, time, pause total and version |
| SlaTarget.ResumeAccounted | apps/api/src/sla/sla-engine.service.ts:519-549 | resuming re-plans the deadline so that the budget stays accounted for |
| SlaTarget.LatePauseMisses | apps/api/src/sla/sla-engine.service.ts:482-517 | without the evaluation that the callers do first, a late pause really loses time from the account |
| SlaEngine.TicketTimers.constructor | apps/api/src/sla/sla-engine.service.ts:255-312 | a matched policy starts one RESPONSE and one RESOLUTION target at their budgets |
| SlaEngine.TicketTimers.CreateTarget | apps/api/src/sla/sla-engine.service.ts:314-340 | appends a RUNNING target due its minutes of business time after its start |
| SlaEngine.TicketTimers.PauseTarget | apps/api/src/sla/sla-engine.service.ts:482-517 | only a RUNNING target is paused, at the given instant |
| SlaEngine.TicketTimers.ResumeTarget | apps/api/src/sla/sla-engine.service.ts:519-549 | a resumed target keeps its remaining business time and adds the wall-clock pause |
| SlaEngine.TicketTimers.CompleteTarget | apps/api/src/sla/sla-engine.service.ts:381-427 | the first active target of the kind becomes MET, resumed first if it was paused |
| SlaEngine.TicketTimers.HandleReopen | apps/api/src/sla/sla-engine.service.ts:429-457 | reopening starts a RESOLUTION target when the latest one's policy asks for it |
| SlaEngine.TicketTimers.SyncPauseState | apps/api/src/sla/sla-engine.service.ts:459-480 | every active target pauses or resumes as its policy says for the status |
| SlaEngine.TicketTimers.EvaluateSingleTarget | apps/api/src/sla/sla-engine.service.ts:581-709 | breach takes precedence over warning; the row and the emitted event agree |
| SlaEngine.TicketTimers.OnTicketStatusChanged | apps/api/src/sla/sla-engine.service.ts:127-152 | evaluate, complete or reopen, synchronise, evaluate again |
| SlaEngine.TicketTimers.OnPublicAgentComment | apps/api/src/sla/sla-engine.service.ts:154-172 | a comment by anyone but the requester completes RESPONSE, then evaluates |
| SlaEngine.TicketTimers.GetTicketSlaStatus | apps/api/src/sla/sla-engine.service.ts:174-197 | viewing evaluates the targets and reports the remaining business time of each |
| SlaEngine.TicketTimers.ExecuteWorkflowAction | apps/api/src/workflows/runtime/action-executors/sla-action.executor.ts:32-97 | sla_stop makes the first active target of the kind MET as it is, sla_start RUNNING without its pause and with its old deadline |
| SlaRuns.EveryRunKeepsPromises | apps/api/src/sla/sla-engine.service.ts:127-145 | over every run of engine calls and workflow writes: RUNNING business time plus remaining time, plus what sla_starts cut off, is the budget; a PAUSED target was paused before its deadline; a RESOLUTION that no workflow stopped is MET only before its deadline inside its budget; nothing is BREACHED before its budget is used or cut off |
| SlaRuns.BudgetsArePlainIff | apps/api/src/workflows/runtime/action-executors/sla-action.executor.ts:73-82 | at the end of a run nothing has been cut off or left unbooked if and only if no sla_start of the run reached a target paused for some time |
| SlaRuns.BreachesAreExact | apps/api/src/sla/sla-engine.service.ts:581-650 | a look at a RUNNING target finds it BREACHED exactly when the business time it ran, with what sla_starts cut off, has reached its budget |
| SlaRuns.PausesFollowTheStatus | apps/api/src/sla/sla-engine.service.ts:459-480 | on any run, from a request until a workflow writes next, an active target is PAUSED if and only if the ticket is PENDING and its policy has pauseOnPending, or ON_HOLD and it has pauseOnHold |
| SlaRuns.EngineRunsPauseByStatus | apps/api/src/sla/sla-engine.service.ts:255-312 | in a run without workflow writes the same holds from the creation of the ticket on |
| SlaRuns.RestartsIff | apps/api/src/sla/sla-engine.service.ts:429-457 | a reopening restarts with time to run if and only if the policy of the newest RESOLUTION target asks for it and has a budget |
| SlaRuns.OneActivePerKindIff | apps/api/src/sla/sla-engine.service.ts:429-457 | a run has at most one active target per kind all along if and only if no request in it reopens a SOLVED ticket while a RESOLUTION is active and the newest one's policy restarts with a budget |
| SlaRuns.EveryRunHasOneActivePerKind | apps/api/src/ticketing/tickets.service.ts:300-362 | while no workflow writes SOLVED over an active RESOLUTION there is at most one active target per kind, and none for RESOLUTION while the ticket is SOLVED |
| SlaRuns.SilentSolveDuplicates | apps/api/src/workflows/runtime/action-executors/change-status-action.executor.ts:65-75 | a workflow's SOLVED and a request's reopening give two active RESOLUTION targets under any restarting policy with a budget |
| SlaRuns.EveryRunAlertsOnce | apps/api/src/sla/sla-engine.service.ts:581-701 | each target emits at most one warning and at most one breach, the warning first, exactly as its row records |
| SlaRuns.OutcomesAreFinal | apps/api/src/sla/sla-engine.service.ts:381-427 | MET and BREACHED rows never change again and no active deadline ever moves earlier |
| SlaRuns.CommentCompletesLateIff | apps/api/src/sla/sla-engine.service.ts:154-172 | a RESPONSE is MET after its deadline exactly when it was RUNNING with the deadline behind it |
| SlaRuns.ResponseCanBeMetLate | apps/api/src/sla/sla-engine.service.ts:154-172 | for any policy and any overrun, a first answer that late is recorded as MET |
| TicketAggregates.TicketAggregate.TransitionTo | apps/api/src/ticketing/domain/ticket.aggregate.ts:199-225 | version check, transition table, solvedAt and closedAt, version up by one; a move to the same status changes nothing |
| TicketAggregates.TicketAggregate.UpdateFields | apps/api/src/ticketing/domain/ticket.aggregate.ts:227-282 | fields left out keep their values, blank text is refused, version up by one |
| TicketAggregates.TicketAggregate.Assign | apps/api/src/ticketing/domain/ticket.aggregate.ts:290-333 | closed tickets are refused, left-out fields keep their values |
| TicketAggregates.TicketAggregate.Unassign | apps/api/src/ticketing/domain/ticket.aggregate.ts:340-359 | clears assignee and group of a ticket that is not closed |
| TicketAggregates.CommandsRaiseVersionIff | apps/api/src/ticketing/domain/ticket.aggregate.ts:199-225 | an accepted command raises the version by one, except a move to the current status, which changes nothing |
| TicketAggregates.StaleCommandsAreRefused | apps/api/src/ticketing/domain/ticket.aggregate.ts:365-369 | every command is refused with the stored version if and only if it expects another |
| TicketAggregates.TransitionsSetStatus | apps/api/src/ticketing/domain/ticket.aggregate.ts:199-225 | an accepted transition takes a listed move, stamps solvedAt on SOLVED and closedAt on CLOSED, clears solvedAt on OPEN and changes nothing else; any other move is refused |
| TicketAggregates.UpdatesSetGivenFields | apps/api/src/ticketing/domain/ticket.aggregate.ts:227-282 | an accepted update changes exactly the fields given, to the values given; only blank text is refused |
| TicketAggregates.AssignmentsSetBoth | apps/api/src/ticketing/domain/ticket.aggregate.ts:290-359 | an accepted assignment sets what was given, an unassignment leaves neither assignee nor group, and nothing else changes; only CLOSED is refused |
| TicketStatuses.AllowedIff | apps/api/src/ticketing/domain/ticket.aggregate.ts:59-80 | the moves allowed are exactly the eleven listed ones and staying put |
| TicketWrites.TicketStore.UpdateWithAudit | apps/api/src/ticketing/tickets.repository.ts:184-256 | the row is swapped in only at the expected version, with one event per changed aspect |
| TicketWrites.TicketStore.ChangeStatus | apps/api/src/workflows/runtime/action-executors/change-status-action.executor.ts:55-115 | a workflow writes the status whatever the stored version and reports the status it read |
| TicketWrites.TicketStore.AssignByWorkflow | apps/api/src/workflows/runtime/action-executors/assign-action.executor.ts:68-125 | a workflow writes assignee and group whatever the stored version |
| TicketWrites.InterleavingsAreSerial | apps/api/src/ticketing/tickets.repository.ts:459-512 | under any interleaving the stored row is what the committed writes leave one at a time in commit order, each request accepted on exactly the row before it: no update is lost |
| TicketWrites.VersionCountsChanges | apps/api/src/ticketing/tickets.repository.ts:466-486 | the stored version is the first version plus the number of committed changes |
| TicketWrites.NoTwoChangesFromOneVersion | apps/api/src/ticketing/tickets.repository.ts:481-499 | two requests that change the row never commit from the same expected version |
| TicketWrites.RequestsMoveAlongTheTable | apps/api/src/ticketing/tickets.repository.ts:459-512 | under any interleaving without workflow status writes the stored status only ever takes listed moves |
| TicketWrites.StampsFollowTheStatus | apps/api/src/ticketing/tickets.repository.ts:459-512 | under any interleaving without an unstamped workflow move, solvedAt is set exactly on SOLVED and CLOSED tickets and closedAt exactly on CLOSED ones |
| TicketWrites.StatusWriteKeepsStampsIff | apps/api/src/workflows/runtime/action-executors/change-status-action.executor.ts:65-75 | a workflow's status write leaves timestamps that agree with the status if and only if it neither takes the ticket out of SOLVED or CLOSED nor closes one that was not solved |
| TicketWrites.CommitsAppendTheirEvents | apps/api/src/ticketing/tickets.repository.ts:200-253 | a request that commits appends one event per changed aspect, with the stored row before and after it and its version; a late one appends and changes nothing |
| TicketWrites.WorkflowsSetStatus | apps/api/src/workflows/runtime/action-executors/change-status-action.executor.ts:65-115 | a workflow's status, unless it is the one read, is written whatever the version, with one event |
| TicketWrites.WorkflowsAssign | apps/api/src/workflows/runtime/action-executors/assign-action.executor.ts:68-125 | a workflow's assignment sets assignee and group and nothing else but the version, with one event |
| TicketWrites.ReplayGivesTheStoredRow | apps/api/src/ticketing/tickets.repository.ts:200-253 | replaying status_changed and assigned events gives the stored status, assignee and group, and a request's event always tells of a change from what the events before it left |
| TicketWrites.AutomationContinuesIff | apps/api/src/workflows/runtime/action-executors/change-status-action.executor.ts:65-115 | a workflow's event starts from the replayed status exactly when the status it read is still stored |
| TicketWrites.AutomationCanMisreport | apps/api/src/workflows/runtime/action-executors/change-status-action.executor.ts:65-115 | a request can solve the ticket between the workflow's read and write, after which the event names the old status |
| CategoryTree.CategoryStore.ListDescendantIds | apps/api/src/catalog/catalog-categories.repository.ts:139-153 | the recursive query terminates and returns, each once, exactly the category and the live categories whose parent chain passes through it |
| CategoryTree.CategoryStore.CreateCategory | apps/api/src/catalog/catalog-categories.service.ts:28-70 | a new category is refused exactly when its parent is not live |
| CategoryTree.CategoryStore.UpdateCategory | apps/api/src/catalog/catalog-categories.service.ts:102-141 | a move is refused under itself, a missing parent or a descendant, and otherwise stored |
| CategoryTree.CategoryStore.DeleteCategory | apps/api/src/catalog/catalog-categories.service.ts:166-188 | only a live category without live children and services is deleted, and only softly |
| CategoryTree.MoveClosesCycleIff | apps/api/src/catalog/catalog-categories.service.ts:127-141 | a move between live categories breaks the tree if and only if the new parent is under the moved category |
| CategoryTree.UpdatesSetParent | apps/api/src/catalog/catalog-categories.service.ts:102-141 | an update keeps, clears or sets the parent as asked, and each refusal has exactly its cause |
| CategoryTree.DeletesLeavesOnly | apps/api/src/catalog/catalog-categories.service.ts:166-188 | a deletion keeps the row and its parent, and is refused exactly for missing categories, live children or services |
| CategoryTree.ReachableTreesAreSound | apps/api/src/catalog/catalog-categories.service.ts:102-188 | in every reachable tree the parent of a live category is live and no category is above itself |
| CategoryTree.DeletedStayAsTheyAre | apps/api/src/catalog/catalog-categories.service.ts:102-188 | rows are never removed, and a deleted category never changes again |
| FixedWindow.WindowHoldsTwiceTheCapLessOne | apps/api/src/auth/rate-limit/auth-rate-limit.service.ts:35-51 | of events counted by a fixed window, any window-long interval holds at most 2L - 1 with a count of at most L |
| LoginLockout.LoginAccount.RecordFailedLoginAttempt | apps/api/src/auth/session/auth-session.repository.ts:189-233 | window restart, count, and a lock exactly when the threshold is reached and no lock is running |
| LoginLockout.LoginAccount.Login | apps/api/src/auth/session/auth-session.service.ts:39-85 | a locked account is refused unchecked; a wrong password is recorded; success clears the counters |
| LoginLockout.OnlyCheckedAttemptsCount | apps/api/src/auth/session/auth-session.service.ts:58-90 | an attempt while locked, or with the right password of an inactive user, changes nothing of the account; a sign-in or a new password clears it |
| LoginLockout.LocksLast | apps/api/src/auth/session/auth-session.service.ts:58-62 | attempts while locked, however many, leave the lock and the counters as they are |
| LoginLockout.FailuresAreRecorded | apps/api/src/auth/session/auth-session.repository.ts:189-233 | which failures restart the window, count on, and lock, and until when |
| LoginLockout.FailuresAreBounded | apps/api/src/auth/session/auth-session.service.ts:58-85 | with a lockout no shorter than the window, any window-long interval holds at most max(T, 2T - 2) failed checks since the account was last cleared, and the one that reaches T is followed by none for the lockout's duration |
| LoginLockout.FailureBoundHoldsIff | apps/api/src/auth/session/auth-session.repository.ts:206-219 | that bound holds of every run if and only if the lockout is no shorter than the window |
| LoginLockout.FailureBoundIsReached | apps/api/src/auth/session/auth-session.repository.ts:206-219 | for every threshold above one some run puts 2T - 2 failures inside one window |
| LoginLockout.LockNeedsThresholdInWindow | apps/api/src/auth/session/auth-session.repository.ts:213-219 | under any policy an account is locked only after T failures inside one window, and for no longer than the lockout's duration after the last |
| RateLimit.AttemptStore.Increment | apps/api/src/auth/rate-limit/auth-rate-limit.service.ts:35-51 | an expired or missing bucket is replaced by a fresh one, any other counts up |
| RateLimit.RateLimiter.Consume | apps/api/src/auth/rate-limit/auth-rate-limit.service.ts:93-114 | allowed exactly while the bucket's count is within the limit; a denial names the least whole number of seconds, between 1 and the window, after which the bucket has expired |
| RateLimit.AdmitsFewerThanTwiceTheLimit | apps/api/src/auth/rate-limit/auth-rate-limit.service.ts:93-114 | over any run on any keys, a window-long interval admits at most 2L - 1 attempts on one key |
| RateLimit.TwiceTheLimitLessOneIsReached | apps/api/src/auth/rate-limit/auth-rate-limit.service.ts:35-51 | for every limit and window some run admits that many |
| RateLimit.RetryAfterIsExact | apps/api/src/auth/rate-limit/auth-rate-limit.service.ts:107-113 | after a denial the next attempt on the key is admitted exactly if it waits at least the seconds named |
| RefreshTokens.AuthStore.RefreshTokenPair | apps/api/src/auth/tokens/auth-token.service.ts:100-172 | rotation, reuse detection and the expiry checks, with the exact condition for a new pair |
| RefreshTokens.AuthStore.RevokeRefreshTokenFamily | apps/api/src/auth/tokens/auth-token.repository.ts:131-158 | every token of the family and every session it belongs to is revoked, nothing else |
| RefreshTokens.AuthStore.EndUserSessions | apps/api/src/auth/password/auth-password.repository.ts:81-125 | a password change revokes the user's sessions and tokens in the tenant, nothing else |
| RefreshTokens.AuthStore.Logout | apps/api/src/auth/session/auth-session.service.ts:141-177 | ends a session only of the current session's own tenant and user |
| RefreshTokens.ExchangedIff | apps/api/src/auth/tokens/auth-token.service.ts:113-153 | in every reachable store a presented token is exchanged if and only if it is known, ACTIVE, not expired, and its session neither revoked nor expired |
| RefreshTokens.ExchangeAddsTheChild | apps/api/src/auth/tokens/auth-token.service.ts:155-172 | an exchange makes the token ROTATED and adds its ACTIVE child with the given expiry, and changes nothing else |
| RefreshTokens.ChildIsExchangedNextIff | apps/api/src/auth/tokens/auth-token.service.ts:145-172 | the child is exchanged next if and only if neither it nor the session has expired |
| RefreshTokens.RefusedPresentations | apps/api/src/auth/tokens/auth-token.service.ts:113-153 | a refused token that is unknown or ACTIVE changes nothing; any other revokes exactly its family's tokens and session |
| RefreshTokens.LogoutEndsOwnSessionIff | apps/api/src/auth/session/auth-session.service.ts:141-177 | a logout revokes the named session if and only if it goes through an open session of the same tenant and user, and nothing else |
| RefreshTokens.FamiliesAreChains | apps/api/src/auth/tokens/auth-token.service.ts:145-162 | in every reachable store a family is one parent chain with one session, tenant and user, and only its last token can be ACTIVE |
| RefreshTokens.TokensRefreshOnce | apps/api/src/auth/tokens/auth-token.repository.ts:118-129 | no token is exchanged twice in any run |
| RefreshTokens.ReuseEndsTheFamily | apps/api/src/auth/tokens/auth-token.service.ts:124-143 | once a token that is not ACTIVE is presented, no token of its family or session is ever exchanged again |
| RefreshTokens.PasswordSetEndsFamilies | apps/api/src/auth/password-reset/auth-password-reset.repository.ts:186-235 | after a password is set, no family the user then has in that tenant is ever refreshed again |
| RefreshTokens.PasswordSetStopsExactly | apps/api/src/auth/password-reset/auth-password-reset.repository.ts:186-235 | setting a password stops exactly the user's tokens of that tenant; those of other tenants refresh as before |
| RefreshTokens.RotationDoesNotOutliveTheSession | apps/api/src/auth/tokens/auth-token.service.ts:145-153 | however often it rotates, a family is not refreshed at or after the expiry of the session it began with |
| ApprovalGates.ShortcutAgreesIff | apps/api/src/catalog/domain/approval-gate.ts:31-92 | on any input the step shortcut agrees with the gate exactly when: SINGLE or ANY, and the earliest decided step holds this decision, or none is decided and this is an approval; ALL, and this is an approval beside no other decision, a rejection found among the steps, or a request for changes found there beside no rejection; no gate, and this is an approval |
| ApprovalGates.ShortcutAgrees | apps/api/src/catalog/domain/approval-gate.ts:72-92 | a lone decision, or an approval beside approvals in ALL mode, always agrees |
| ServiceRequests.ServiceRequest.constructor | apps/api/src/catalog/catalog-requests.repository.ts:89-146 | a request with approval steps starts AWAITING_APPROVAL with all of them pending, any other SUBMITTED |
| ServiceRequests.ServiceRequest.UpdateAnswers | apps/api/src/catalog/catalog-requests.service.ts:266-369 | answers change only while editable; after requested changes a new approval cycle begins |
| ServiceRequests.ServiceRequest.DecideApproval | apps/api/src/catalog/catalog-requests.service.ts:454-500 | only a user who may decide, and only a pending step of an awaiting request that is not assigned to the requester; the request moves as the shortcut says |
| ServiceRequests.ServiceRequest.StartFulfillment | apps/api/src/catalog/catalog-requests.service.ts:660-692 | starts only from APPROVED or SUBMITTED with a passed gate, generating the ticket if configured |
| ServiceRequests.ServiceRequest.GenerateTicket | apps/api/src/catalog/catalog-requests.service.ts:751-784 | at most one ticket, and only behind a passed gate |
| ServiceRequests.ServiceRequest.Cancel | apps/api/src/catalog/catalog-requests.service.ts:375-398 | terminal and fulfilling requests are refused |
| ServiceRequests.ReachableDecisionsAgree | apps/api/src/catalog/catalog-requests.service.ts:486-497 | for every decision accepted in a reachable state the shortcut and the gate agree |
| ServiceRequests.DecisionsLeadToStatus | apps/api/src/catalog/catalog-requests.service.ts:486-570 | in every reachable state a REJECTED request has a step decided so and a CHANGES_REQUESTED one too; an accepted rejection rejects, a request for changes sends back, an approval approves exactly when it opens the gate |
| ServiceRequests.DecisionRefusals | apps/api/src/catalog/catalog-requests.service.ts:461-478 | each refusal of a decision has exactly its cause |
| ServiceRequests.AnswersChangeIff | apps/api/src/catalog/catalog-requests.service.ts:266-369 | answers change exactly while SUBMITTED or CHANGES_REQUESTED, and in the latter case a gated service asks every approver anew |
| ServiceRequests.FulfillmentStartsIff | apps/api/src/catalog/catalog-requests.service.ts:660-692 | in every reachable state fulfilment starts if and only if the request is APPROVED, or SUBMITTED where nothing needs approval, with a ticket if configured |
| ServiceRequests.TicketIsGeneratedIff | apps/api/src/catalog/catalog-requests.service.ts:751-784 | in every reachable state, when a ticket is generated; the first one stays |
| ServiceRequests.CancelledIff | apps/api/src/catalog/catalog-requests.service.ts:375-398 | a request is cancelled if and only if it is not rejected, cancelled, completed or being fulfilled |
| ServiceRequests.EndsAreFinal | apps/api/src/catalog/catalog-requests.service.ts:375-398 | completed, rejected and cancelled requests never change again |
| ServiceRequests.ReachableRequestsAreGated | apps/api/src/catalog/catalog-requests.service.ts:660-692 | approved, fulfilling and completed requests and those with a ticket have a passed gate; SINGLE and ANY cycles have at most one decided step; no step assigned to the requester is decided; every decision was made by a permitted user on the present answers |
| ServiceRequests.FulfillableIff | apps/api/src/catalog/domain/approval-gate.ts:31-60 | which services can fulfil a requester's request at all: exactly the ungated ones, ALL with no step assigned to the requester, and SINGLE or ANY with a step that is not, provided someone may decide where approval is needed |
| ServiceRequests.SelfDecisionIff | apps/api/src/catalog/catalog-requests.service.ts:461-484 | a requester can decide a step of an own request if and only if approval is needed, the requester may decide approvals, and some step is not assigned to the requester |
| ServiceRequests.SelfApprovalIff | apps/api/src/catalog/catalog-requests.service.ts:461-484 | a requester can alone bring an own gated request to APPROVED if and only if the requester may decide approvals and the request can be approved at all |
| Publication.PublishDraft | apps/api/src/sla/sla-policies.service.ts:287-311 | retires the published version, publishes the draft and names it |
| Publication.PublishKeeps | apps/api/src/sla/business-schedules.service.ts:229-253 | publishing keeps versions numbered 1 to n, one published version named by the active number, and content that left DRAFT |
| Publication.EditKeeps | apps/api/src/sla/sla-policies.service.ts:178-234 | so does editing, which touches only a draft and opens at most one, as the newest version |
| Publication.EditLeavesADraft | apps/api/src/sla/sla-policies.service.ts:178-234 | an edit leaves one draft of the new content, the newest version, and nothing else changed |
| Publication.PublishingReplaces | apps/api/src/sla/sla-policies.service.ts:287-311 | publishing leaves the draft as the only published version, named by the active number, all earlier ones retired with their contents |
| Publication.ResolvesIff | apps/api/src/sla/sla.repository.ts:55-70 | the lookup of the published version succeeds exactly when one was published, and finds the only one |
| SlaConfig.SlaConfigStore.PublishPolicy | apps/api/src/sla/sla-policies.service.ts:253-328 | refused without a draft, without a published schedule or with a taken priority |
| SlaConfig.SlaConfigStore.PublishSchedule | apps/api/src/sla/business-schedules.service.ts:211-253 | the draft schedule replaces the published one |
| SlaConfig.SlaConfigStore.UpdatePolicyDraft | apps/api/src/sla/sla-policies.service.ts:150-234 | edits the draft, or opens one from the latest version, after checking the minutes |
| SlaConfig.SlaConfigStore.CreatePolicy | apps/api/src/sla/sla-policies.service.ts:83-122 | a fresh key with positive targets gets version 1 as a draft |
| SlaConfig.SlaConfigStore.FindPublishedScheduleVersion | apps/api/src/sla/sla.repository.ts:55-70 | the published version the active number names, if any |
| SlaConfig.Run | apps/api/src/sla/sla-policies.service.ts:253-328 | in every reachable configuration all documents are sound, published policies of the tenant have distinct priorities and each one's schedule key resolves to a published schedule |
| SlaConfig.PolicyEditsSetGivenFields | apps/api/src/sla/sla-policies.service.ts:150-234 | an edit changes exactly the policy fields given, to the values given |
| SlaConfig.PolicyIsPublishedIff | apps/api/src/sla/sla-policies.service.ts:253-328 | a policy is published if and only if its newest version is a draft, the schedule that names has a published version and no other policy has a published one of its priority |
| SlaConfig.PublishedContentIsFrozen | apps/api/src/sla/sla-policies.service.ts:204-234 | published and retired policy versions keep their content for ever |
| SlaConfig.MatchIsUniqueAndHasItsSchedule | apps/api/src/sla/domain/sla-policy-matcher.ts:21-48 | a matching ticket gets the only match of least priority however policies are listed, with a published schedule and positive targets |
| SlaMatcher.SelectMatchingSlaPolicy | apps/api/src/sla/domain/sla-policy-matcher.ts:21-48 | returns a match of least priority, or none exactly when nothing matches |
| SlaMatcher.MatchesIff | apps/api/src/sla/domain/sla-policy-matcher.ts:21-48 | a policy matches if and only if each list it has names the ticket's value |
| WorkflowConfig.WorkflowStore.CreateWorkflow | apps/api/src/workflows/workflows.service.ts:102-173 | a fresh key, an unused positive priority and a valid definition give version 1 as a draft |
| WorkflowConfig.WorkflowStore.UpdateDraft | apps/api/src/workflows/workflows.service.ts:175-257 | edits the draft or opens one; the priority may change only to one no other live workflow has |
| WorkflowConfig.WorkflowStore.Clone | apps/api/src/workflows/workflows.service.ts:381-420 | without a draft, a chosen, the published or the latest version is copied to a new draft |
| WorkflowConfig.WorkflowStore.PublishWorkflow | apps/api/src/workflows/workflows.service.ts:259-338 | a valid draft replaces the published version |
| WorkflowConfig.WorkflowStore.Delete | apps/api/src/workflows/workflows.service.ts:551-580 | a live workflow is marked deleted and nothing else changes |
| WorkflowConfig.Run | apps/api/src/workflows/workflows.service.ts:102-339 | in every reachable store all workflows are sound, satisfy the draft rule and no two live ones share a priority |
| WorkflowConfig.EditsSetGivenFields | apps/api/src/workflows/workflows.service.ts:175-257 | an edit changes exactly the definition fields and the priority given |
| WorkflowConfig.ClonesCopyTheVersionAskedFor | apps/api/src/workflows/workflows.service.ts:381-420 | a clone is a copy of the version asked for, else of the published, else of the newest |
| WorkflowConfig.PublishesTheDraft | apps/api/src/workflows/workflows.service.ts:259-338 | a draft is published if and only if its workflow is live and it is valid |
| WorkflowConfig.PublishedDefinitionsAreFrozen | apps/api/src/workflows/workflows.service.ts:259-339 | a version once published keeps its number and definition whatever follows |
| Outbox.OutboxRepository.ClaimPendingBatch | apps/api/src/outbox/outbox.repository.ts:17-66 | takes the oldest claimable rows nobody has locked, up to the batch size, and leaves no claimable one behind a shorter batch |
| Outbox.OutboxRepository.WriteFailure | apps/api/src/outbox/outbox.repository.ts:97-122 | counts from the row that was read; dead-letters at the limit, backs off below it |
| Outbox.OutboxRepository.CleanupOldEvents | apps/api/src/outbox/outbox.repository.ts:172-185 | removes exactly the processed events old enough |
| Outbox.BackoffNeverShrinks | apps/api/src/outbox/outbox.repository.ts:97-103 | later attempts never wait less whatever the jitter, and never over an hour |
| Outbox.ReachableEventsAreSound | apps/api/src/outbox/outbox.repository.ts:68-122 | lease fields are set exactly while CLAIMED; FAILED is below the attempt limit and DEAD_LETTERED at or above it; a claimable event has no failed attempt on record |
| Outbox.ClaimsAreALeaseApart | apps/api/src/outbox/outbox.repository.ts:17-60 | two claims of one event with no processed, failure or replay step on it between them are at least the first one's lease apart |
| Outbox.OnlyOldProcessedEventsLeave | apps/api/src/outbox/outbox.repository.ts:172-185 | an event leaves only by a cleanup, at least daysToKeep days after the step that marked it processed |
| Outbox.CleanupRemovesExactly | apps/api/src/outbox/outbox.repository.ts:172-185 | in every reachable table a cleanup removes exactly the events marked processed at least daysToKeep days before |
| Outbox.ClaimsGiveALease | apps/api/src/outbox/outbox.repository.ts:17-66 | a claimed event can be claimed again exactly from the end of its lease |
| Outbox.ReplaysStartOver | apps/api/src/outbox/outbox.repository.ts:150-170 | a replay makes the tenant's own event as claimable as a new one, without failed attempts |
| Outbox.FailuresCountOn | apps/api/src/outbox/outbox.repository.ts:97-122 | a failure counts on from the row read, and kills at the limit or waits below it |
| Outbox.BackoffDoubles | apps/api/src/outbox/outbox.repository.ts:97-103 | the wait doubles from one second, plus the jitter, until it is an hour |
| AssetParents.AssetRelationships.AssertNoParentCycle | apps/api/src/assets/assets.repository.ts:706-733 | the walk terminates; it ends quietly only at an asset without a parent, and in alarm only at the child or at an asset seen before |
| AssetParents.AssetRelationships.CreateRelationship | apps/api/src/assets/assets.repository.ts:646-703 | self-references and duplicates are told apart, and a row is added only after a quiet walk |
| AssetParents.NewRowKeepsAcyclicIff | apps/api/src/assets/assets.repository.ts:713-714 | a new row keeps an acyclic hierarchy acyclic if and only if the child is not the parent or one of its ancestors |
| AssetParents.WalkIsExact | apps/api/src/assets/assets.repository.ts:706-733 | where ancestors have one parent row each, the walk refuses exactly the rows that would close a cycle |
| AssetParents.AlarmsAreTrue | apps/api/src/assets/assets.repository.ts:727-729 | in any acyclic hierarchy an alarm means that the child is an ancestor of the parent |
| AssetParents.WalkMayMissIff | apps/api/src/assets/assets.repository.ts:717-733 | in any acyclic hierarchy the walk may accept a row that closes a cycle exactly when the child is an ancestor and some way up avoids it |
| AssetParents.SecondParentHidesACycle | apps/api/src/assets/assets.repository.ts:717-733 | such a hierarchy exists |
| AssetParents.RunsStayAcyclic | apps/api/src/assets/assets.repository.ts:646-785 | while no asset is given a second parent row, every run of additions and removals keeps an acyclic forest |
| LikeSearch.EscapeIsOnePass | apps/api/src/ticketing/ticket-search.builder.ts:10-12 | the three successive replacements are a one-pass escape |
| LikeSearch.UnescapeRecovers | apps/api/src/ticketing/ticket-search.builder.ts:10-12 | removing the escapes gives the query back |
| LikeSearch.SearchIsLiteral | apps/api/src/ticketing/ticket-search.builder.ts:6-12 | LIKE with the escaped query between two wildcards matches a text exactly when the query is a substring of it, up to letter folding |
| TicketScope.BuildScopeOrClause | apps/api/src/ticketing/tickets.repository.ts:402-430 | the clause lets through exactly the tickets in scope |
| TicketScope.MayReadIff | apps/api/src/rbac/rbac.service.ts:46-70 | a ticket may be read exactly with PLATFORM or TENANT scope, or with OWN by its requester or assignee; GROUP and ORGANIZATION give no ticket |
| TicketScope.BuildWhereClause | apps/api/src/ticketing/tickets.repository.ts:332-400 | whatever the filters, the query asks for exactly the live tickets of the tenant that are in scope and wanted |
| TicketScope.ResolveListScopeFilter | apps/api/src/rbac/rbac.service.ts:76-117 | for every scope set the filter it returns, or its refusal, agrees with the permission check on every ticket |
| TicketScope.SearchTickets | apps/api/src/ticketing/tickets.controller.ts:297-350 | a search lists exactly the live tickets that the other filters want and that the actor may read one by one |
| Decimal.DigitsInjective | apps/api/src/assets/asset-categories.repository.ts:35-35 | different numbers print differently |
| Decimal.PaddedDigitsParse | apps/api/src/assets/assets.repository.ts:175-178 | parsing a padded reference number gives the number back, also past six digits |
| Decimal.PadsToSix | apps/api/src/assets/assets.repository.ts:175-178 | padding adds leading zeros only, up to six digits |
| UniqueSlugs.AssetCategories.UniqueSlug | apps/api/src/assets/asset-categories.repository.ts:26-38 | terminates after at most one probe more than there are stored slugs, with the first candidate that is not stored |
| UniqueSlugs.StoredCandidatesFit | apps/api/src/assets/asset-categories.repository.ts:26-38 | k candidates can only all be taken if k slugs are stored |
| References.ReferenceStore.GenerateTicket | apps/api/src/catalog/catalog-requests.repository.ts:585-690 | a request gets at most one ticket, numbered after its tenant's tickets |
| References.ReferenceStore.CreateTicket | apps/api/src/ticketing/tickets.repository.ts:93-110 | a ticket is numbered after its tenant's tickets |
| References.ReferenceStore.CreateTicketFromAsset | apps/api/src/assets/assets.repository.ts:864-901 | so is a ticket created from an asset |
| References.TicketReferencesAreExactly | apps/api/src/ticketing/tickets.repository.ts:99-106 | across all three creators a tenant's n tickets carry exactly TKT-1001 to TKT-(1000 + n) |
| References.TicketReferencesAreDistinct | apps/api/src/assets/assets.repository.ts:883-901 | no two tickets of a tenant share a reference |
| References.PaddedReferencesAreDistinct | apps/api/src/catalog/catalog-requests.repository.ts:96-97 | request and asset references of a tenant never repeat, also past six digits |
| References.PaddedReferencesAreExactly | apps/api/src/catalog/catalog-requests.repository.ts:96-97 | a tenant's n requests carry exactly REQ-000001 to REQ-n, its n assets exactly AST-000001 to AST-n |
| References.RequestGetsOneTicket | apps/api/src/catalog/catalog-requests.repository.ts:585-690 | a request gets a ticket only if it has none, one for its tenant, and remembers it |

## Left out

- Time zones, daylight saving, holiday lists and HH:mm parsing: the clock model takes the start of
  each local day, the day of each instant and each day's windows as functions.
- The ratio behind the SLA warning is compared without floating point.
- SLA targets of one ticket share one calendar; restarting on reopen reuses the policy of the newest
  RESOLUTION target. Starting targets again for a ticket with a pinned policy is not modelled.
- An engine call is one step, and a workflow's SLA action, whose query has no order, reaches the oldest active target of its kind.
- Windows start on their own local day and end before the end of the next one, as the parsed HH:mm pairs do.
- LoginLockout.FailuresAreBounded: a login is one step, so parallel checks of one account are not modelled.
- References.TicketReferencesAreExactly: creations are serial and rows are never removed; parallel creations rely on the database.
- Refreshes, approval decisions, answer updates, category changes and publications are single steps; only ticket writers and outbox workers interleave.
- Category, knowledge-base and catalogue slugs, names and display order; asset category parents, which the code checks only against themselves.
- Service settings that change while a request is open, request history rows, and the unused transition table of service requests.
- Validation of time zones and weekly hours in schedule edits, of workflow definitions, and of match lists against their enumerations; the draft rule of workflows is a parameter.
- Pausing and resuming workflows, the dispatcher, retries of workflow actions, and execution records.
- Password hashing, token signing, hashes and random identifiers: tokens and rows are named by position or by fresh identifiers.
- Permission checks of the service methods other than ticket search and approval decisions, audit rows, notifications and attachments.
- Trimming and letter folding of text beyond a per-character folding; length limits of columns.
- Pagination, sorting of lists, metrics and health checks would only add easy members.
