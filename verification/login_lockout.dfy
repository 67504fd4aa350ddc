/**
 Password login and its lockout: failures are counted in a fixed window, reaching the
 threshold locks the account, and a locked account is refused before its password is checked.
 */
module LoginLockout {
  import opened Wrappers
  import opened FixedWindow

  const MS_PER_MINUTE := 60_000

  datatype LockoutPolicy = LockoutPolicy(threshold: nat, windowMinutes: nat, lockoutMinutes: nat) {
    function WindowMs(): nat {
      windowMinutes * MS_PER_MINUTE
    }

    function LockoutMs(): nat {
      lockoutMinutes * MS_PER_MINUTE
    }
  }

  datatype Account = Account(failedLoginCount: nat, windowStartedAt: Option<int>, lockedUntil: Option<int>) {
    predicate LockedAt(now: int) {
      lockedUntil.Some? && now < lockedUntil.value
    }
  }

  datatype Outcome = RefusedLocked | RefusedPassword(justLocked: bool) | RefusedInactive | SignedIn

  const Clear := Account(0, None, None)

  function Failed(p: LockoutPolicy, a: Account, now: int): Account {
    var restarts := a.windowStartedAt.None? || a.windowStartedAt.value <= now - p.WindowMs();
    var count := if restarts then 1 else a.failedLoginCount + 1;
    Account(count,
            if restarts then Some(now) else a.windowStartedAt,
            if count >= p.threshold && !a.LockedAt(now) then Some(now + p.LockoutMs()) else a.lockedUntil)
  }

  function AfterLogin(p: LockoutPolicy, a: Account, passwordMatches: bool, active: bool, checkedAt: int, recordedAt: int): Account {
    if a.LockedAt(checkedAt) then a
    else if !passwordMatches then Failed(p, a, recordedAt)
    else if !active then a
    else Clear
  }

  class LoginAccount {
    const policy: LockoutPolicy
    var failedLoginCount: nat
    var windowStartedAt: Option<int>
    var lockedUntil: Option<int>

    ghost function View(): Account
      reads this
    {
      Account(failedLoginCount, windowStartedAt, lockedUntil)
    }

    constructor (policy: LockoutPolicy)
      ensures this.policy == policy && View() == Clear
    {
      this.policy := policy;
      failedLoginCount, windowStartedAt, lockedUntil := 0, None, None;
    }

    method RecordFailedLoginAttempt(now: int) returns (justLocked: bool)
      modifies this
      ensures View() == Failed(policy, old(View()), now)
      ensures justLocked <==> View().failedLoginCount >= policy.threshold && !old(View()).LockedAt(now)
    {
      var restarts := windowStartedAt == None || windowStartedAt.value <= now - policy.windowMinutes * MS_PER_MINUTE;
      windowStartedAt := if restarts then Some(now) else windowStartedAt;
      failedLoginCount := if restarts then 1 else failedLoginCount + 1;
      justLocked := failedLoginCount >= policy.threshold && (lockedUntil == None || lockedUntil.value <= now);
      if justLocked {
        lockedUntil := Some(now + policy.lockoutMinutes * MS_PER_MINUTE);
      }
    }

    /** Also what changing or resetting the password does. */
    method ClearFailedLoginAttempts()
      modifies this
      ensures View() == Clear
    {
      failedLoginCount, windowStartedAt, lockedUntil := 0, None, None;
    }

    method Login(passwordMatches: bool, active: bool, checkedAt: int, recordedAt: int) returns (o: Outcome)
      modifies this
      ensures View() == AfterLogin(policy, old(View()), passwordMatches, active, checkedAt, recordedAt)
      ensures o.RefusedLocked? || o.RefusedInactive? ==> View() == old(View())
      ensures o.SignedIn? ==> failedLoginCount == 0 && windowStartedAt == None && lockedUntil == None
      ensures o.RefusedLocked? <==> old(View()).LockedAt(checkedAt)
      ensures o.RefusedPassword? <==> !old(View()).LockedAt(checkedAt) && !passwordMatches
      ensures o.SignedIn? <==> !old(View()).LockedAt(checkedAt) && passwordMatches && active
    {
      if lockedUntil.Some? && lockedUntil.value > checkedAt {
        return RefusedLocked;
      }
      if !passwordMatches {
        var justLocked := RecordFailedLoginAttempt(recordedAt);
        return RefusedPassword(justLocked);
      }
      if !active {
        return RefusedInactive;
      }
      ClearFailedLoginAttempts();
      return SignedIn;
    }
  }

  // ------------------------------------------------------------------
  // Runs
  // ------------------------------------------------------------------

  datatype Event =
    | Attempt(passwordMatches: bool, active: bool, checkedAt: int, recordedAt: int)
    | PasswordSet(checkedAt: int, recordedAt: int)

  /** The account after a run, and the failed password checks since it was last cleared. */
  datatype Watched = Watched(account: Account, failures: seq<Entry>)

  ghost predicate Clocked(run: seq<Event>) {
    && (forall i :: 0 <= i < |run| ==> run[i].checkedAt <= run[i].recordedAt)
    && (forall i, j :: 0 <= i < j < |run| ==> run[i].recordedAt <= run[j].checkedAt)
  }

  function Next(p: LockoutPolicy, w: Watched, e: Event): Watched {
    match e
    case PasswordSet(_, _) => Watched(Clear, [])
    case Attempt(matches, active, checkedAt, recordedAt) =>
      var account := AfterLogin(p, w.account, matches, active, checkedAt, recordedAt);
      if w.account.LockedAt(checkedAt) then Watched(account, w.failures)
      else if !matches then Watched(account, w.failures + [Entry(recordedAt, account.failedLoginCount)])
      else if !active then Watched(account, w.failures)
      else Watched(account, [])
  }

  function After(p: LockoutPolicy, run: seq<Event>): Watched {
    if run == [] then Watched(Clear, []) else Next(p, After(p, run[..|run| - 1]), run[|run| - 1])
  }

  lemma OneMore(p: LockoutPolicy, run: seq<Event>, e: Event)
    ensures After(p, run + [e]) == Next(p, After(p, run), e)
  {
    assert (run + [e])[..|run|] == run;
  }

  /** A failure that reaches the threshold is followed by no other for the lockout's duration. */
  ghost predicate LocksAtThreshold(p: LockoutPolicy, log: seq<Entry>, k: nat)
    requires k < |log|
  {
    && 1 <= log[k].ordinal <= p.threshold
    && (log[k].ordinal == p.threshold && k + 1 < |log| ==> log[k].at + p.LockoutMs() <= log[k + 1].at)
  }

  ghost predicate Guarded(p: LockoutPolicy, log: seq<Entry>) {
    Counted(log, p.WindowMs()) && forall k :: 0 <= k < |log| ==> LocksAtThreshold(p, log, k)
  }

  ghost predicate Tracks(p: LockoutPolicy, w: Watched, now: int) {
    && Guarded(p, w.failures)
    && (w.failures == [] ==> w.account == Clear)
    && (w.failures != [] ==>
          && var last := |w.failures| - 1;
          && Follows(w.failures, p.WindowMs(), last) && LocksAtThreshold(p, w.failures, last)
          && w.failures[last].at <= now
          && w.account.failedLoginCount == w.failures[last].ordinal
          && w.account.windowStartedAt == Some(w.failures[StartOf(w.failures, last)].at)
          && (if w.failures[last].ordinal == p.threshold
              then w.account.lockedUntil == Some(w.failures[last].at + p.LockoutMs())
              else !w.account.LockedAt(w.failures[last].at)))
  }

  lemma NextTracks(p: LockoutPolicy, w: Watched, e: Event, now: int)
    requires p.threshold >= 1 && p.windowMinutes <= p.lockoutMinutes
    requires Tracks(p, w, now) && now <= e.checkedAt <= e.recordedAt
    ensures Tracks(p, Next(p, w, e), e.recordedAt)
  {
    var before, after := w.failures, Next(p, w, e).failures;
    if |after| == |before| + 1 {
      if before != [] {
        Ordered(before, p.WindowMs(), StartOf(before, |before| - 1), |before| - 1);
      }
      forall k | 0 <= k < |after| ensures Follows(after, p.WindowMs(), k) && LocksAtThreshold(p, after, k) {
        if k < |before| {
          assert Follows(before, p.WindowMs(), k) && LocksAtThreshold(p, before, k);
        }
      }
    }
  }

  lemma {:induction false} RunTracks(p: LockoutPolicy, run: seq<Event>, now: int)
    requires p.threshold >= 1 && p.windowMinutes <= p.lockoutMinutes
    requires Clocked(run) && forall i :: 0 <= i < |run| ==> run[i].recordedAt <= now
    ensures Tracks(p, After(p, run), now)
    decreases |run|
  {
    if run != [] {
      var last := run[|run| - 1];
      RunTracks(p, run[..|run| - 1], last.checkedAt);
      NextTracks(p, After(p, run[..|run| - 1]), last, last.checkedAt);
    }
  }

  /**
   A failure restarts the window if none is open or the open one has run out, and counts on otherwise; it locks
   the account for the lockout's duration if it reaches the threshold and no lock is running.
   */
  lemma FailuresAreRecorded(p: LockoutPolicy, a: Account, now: int)
    ensures
      var after := Failed(p, a, now);
      var open := a.windowStartedAt.Some? && now < a.windowStartedAt.value + p.windowMinutes * 60_000;
      && (open ==> after.failedLoginCount == a.failedLoginCount + 1 && after.windowStartedAt == a.windowStartedAt)
      && (!open ==> after.failedLoginCount == 1 && after.windowStartedAt == Some(now))
      && (after.failedLoginCount >= p.threshold && (a.lockedUntil == None || a.lockedUntil.value <= now) ==>
            after.lockedUntil == Some(now + p.lockoutMinutes * 60_000))
      && (after.failedLoginCount < p.threshold || (a.lockedUntil.Some? && now < a.lockedUntil.value) ==>
            after.lockedUntil == a.lockedUntil)
  {}

  /**
   An attempt while the account is locked, or with the right password of an inactive user, changes nothing of the
   account; a sign-in or a new password clears it.
   */
  lemma OnlyCheckedAttemptsCount(p: LockoutPolicy, run: seq<Event>, matches: bool, active: bool, checkedAt: int, recordedAt: int)
    ensures
      var before, after := After(p, run).account, After(p, run + [Attempt(matches, active, checkedAt, recordedAt)]).account;
      && (before.LockedAt(checkedAt) || (matches && !active) ==> after == before)
      && (!before.LockedAt(checkedAt) && matches && active ==>
            after.failedLoginCount == 0 && after.windowStartedAt == None && after.lockedUntil == None)
      && After(p, run + [PasswordSet(checkedAt, recordedAt)]).account == Account(0, None, None)
  {
    OneMore(p, run, Attempt(matches, active, checkedAt, recordedAt));
    OneMore(p, run, PasswordSet(checkedAt, recordedAt));
  }

  /** So nothing but the passing of time, or a new password, ends a lock. */
  lemma {:induction false} LocksLast(p: LockoutPolicy, run: seq<Event>, more: seq<Event>)
    requires forall i :: 0 <= i < |more| ==> more[i].Attempt? && After(p, run).account.LockedAt(more[i].checkedAt)
    ensures After(p, run + more).account == After(p, run).account
    decreases |more|
  {
    if more == [] {
      assert run + more == run;
    } else {
      var earlier, last := more[..|more| - 1], more[|more| - 1];
      LocksLast(p, run, earlier);
      OnlyCheckedAttemptsCount(p, run + earlier, last.passwordMatches, last.active, last.checkedAt, last.recordedAt);
      assert run + more == run + earlier + [last];
    }
  }

  /** Larger of T and 2T - 2. */
  function FailureBound(threshold: nat): int {
    if threshold <= 1 then threshold else 2 * threshold - 2
  }

  lemma GuardedHoldsFew(p: LockoutPolicy, log: seq<Entry>, from: int)
    requires p.threshold >= 1 && p.windowMinutes <= p.lockoutMinutes && Guarded(p, log)
    ensures |Within(log, from, p.WindowMs(), p.threshold)| <= FailureBound(p.threshold)
  {
    var window := p.WindowMs();
    var s := Within(log, from, window, p.threshold);
    if s != {} {
      var i, j := Ends(s);
      var k := OneRestart(log, window, i, j);
      forall m | i <= m < j ensures log[m].ordinal < p.threshold {
        assert LocksAtThreshold(p, log, m);
        Ordered(log, window, i, m);
        Ordered(log, window, m + 1, j);
      }
      assert LocksAtThreshold(p, log, j);
      assert k <= j ==> log[k - 1].ordinal < p.threshold;
      RangeSize(s, i, j + 1 - i);
    }
  }

  /** The failed password checks, since the account was last cleared, in the window-long interval from an instant. */
  function FailuresWithin(p: LockoutPolicy, run: seq<Event>, from: int): set<nat> {
    var log := After(p, run).failures;
    set k: nat | k < |log| && from <= log[k].at < from + p.WindowMs()
  }

  /**
   Any window-long interval holds at most max(T, 2T - 2) failed password checks since the account
   was last cleared, and none is made while it is locked.
   */
  lemma FailuresAreBounded(p: LockoutPolicy, run: seq<Event>, from: int)
    requires p.threshold >= 1 && p.windowMinutes <= p.lockoutMinutes && Clocked(run)
    ensures |FailuresWithin(p, run, from)| <= FailureBound(p.threshold)
    ensures var log := After(p, run).failures; forall k :: 0 <= k < |log| ==> LocksAtThreshold(p, log, k)
  {
    var log := After(p, run).failures;
    if run != [] {
      RunTracks(p, run, run[|run| - 1].recordedAt);
    }
    GuardedHoldsFew(p, log, from);
    forall k: nat | k < |log| ensures log[k].ordinal <= p.threshold {
      assert LocksAtThreshold(p, log, k);
    }
    assert FailuresWithin(p, run, from) == Within(log, from, p.WindowMs(), p.threshold);
  }

  /** What the account remembers under any policy: its window, its count, and why it is locked. */
  ghost predicate Remembers(p: LockoutPolicy, w: Watched, now: int) {
    && Counted(w.failures, p.WindowMs())
    && (w.failures == [] ==> w.account == Clear)
    && (w.failures != [] ==>
          && var last := |w.failures| - 1;
          && Follows(w.failures, p.WindowMs(), last)
          && w.failures[last].at <= now
          && w.account.failedLoginCount == w.failures[last].ordinal
          && w.account.windowStartedAt == Some(w.failures[StartOf(w.failures, last)].at)
          && (w.account.LockedAt(w.failures[last].at) ==>
                && w.account.lockedUntil == Some(w.failures[last].at + p.LockoutMs())
                && w.failures[last].ordinal >= p.threshold))
  }

  lemma NextRemembers(p: LockoutPolicy, w: Watched, e: Event, now: int)
    requires Remembers(p, w, now) && now <= e.checkedAt <= e.recordedAt
    ensures Remembers(p, Next(p, w, e), e.recordedAt)
  {
    var before, after := w.failures, Next(p, w, e).failures;
    if |after| == |before| + 1 {
      if before != [] {
        Ordered(before, p.WindowMs(), StartOf(before, |before| - 1), |before| - 1);
      }
      forall k | 0 <= k < |after| ensures Follows(after, p.WindowMs(), k) {
        if k < |before| {
          assert Follows(before, p.WindowMs(), k);
        }
      }
    }
  }

  lemma {:induction false} RunRemembers(p: LockoutPolicy, run: seq<Event>, now: int)
    requires Clocked(run) && forall i :: 0 <= i < |run| ==> run[i].recordedAt <= now
    ensures Remembers(p, After(p, run), now)
    decreases |run|
  {
    if run != [] {
      var last := run[|run| - 1];
      RunRemembers(p, run[..|run| - 1], last.checkedAt);
      NextRemembers(p, After(p, run[..|run| - 1]), last, last.checkedAt);
    }
  }

  /** Under any policy, an account is locked only by a full threshold of failures within one window. */
  lemma LockNeedsThresholdInWindow(p: LockoutPolicy, run: seq<Event>, now: int)
    requires Clocked(run) && After(p, run).account.LockedAt(now)
    requires forall i :: 0 <= i < |run| ==> run[i].recordedAt <= now
    ensures
      var log := After(p, run).failures;
      && log != [] && |log| >= p.threshold
      && (p.threshold > 1 ==> log[|log| - 1].at < log[|log| - p.threshold].at + p.WindowMs())
      && now < log[|log| - 1].at + p.LockoutMs()
  {
    RunRemembers(p, run, now);
    var log := After(p, run).failures;
    if p.threshold > 1 {
      CountsInsideWindow(log, p.WindowMs(), |log| - 1);
      Ordered(log, p.WindowMs(), StartOf(log, |log| - 1), |log| - p.threshold);
    }
  }

  // ------------------------------------------------------------------
  // The bound is reached
  // ------------------------------------------------------------------

  function Wrong(at: int): Event {
    Attempt(false, true, at, at)
  }

  function WrongTimes(at: int, n: nat): (run: seq<Event>)
    ensures |run| == n && forall i :: 0 <= i < n ==> run[i] == Wrong(at)
  {
    if n == 0 then [] else WrongTimes(at, n - 1) + [Wrong(at)]
  }

  function Repeatedly(p: LockoutPolicy, w: Watched, at: int, n: nat): Watched {
    if n == 0 then w else Next(p, Repeatedly(p, w, at, n - 1), Wrong(at))
  }

  lemma {:induction false} RunRepeats(p: LockoutPolicy, run: seq<Event>, at: int, n: nat)
    ensures After(p, run + WrongTimes(at, n)) == Repeatedly(p, After(p, run), at, n)
    decreases n
  {
    if n == 0 {
      assert run + WrongTimes(at, 0) == run;
    } else {
      RunRepeats(p, run, at, n - 1);
      OneMore(p, run + WrongTimes(at, n - 1), Wrong(at));
      assert run + WrongTimes(at, n) == run + WrongTimes(at, n - 1) + [Wrong(at)];
    }
  }

  /** Failures short of the threshold inside an open window only count up. */
  lemma {:induction false} CountsUp(p: LockoutPolicy, a: Account, log: seq<Entry>, at: int, n: nat)
    requires !a.LockedAt(at) && a.failedLoginCount + n < p.threshold
    requires a.windowStartedAt.Some? && at < a.windowStartedAt.value + p.WindowMs()
    ensures Repeatedly(p, Watched(a, log), at, n) ==
            Watched(a.(failedLoginCount := a.failedLoginCount + n), log + CountingUp(at, a.failedLoginCount + 1, n))
    decreases n
  {
    if n > 0 {
      CountsUp(p, a, log, at, n - 1);
    }
  }

  function SeriesOf(at: int, next: int, n: nat): seq<Event> {
    [Wrong(at)] + WrongTimes(next, n)
  }

  /** One failure, as many as stay unlocked just before the window closes, then a full threshold as it does. */
  function Straddle(p: LockoutPolicy): seq<Event>
    requires p.threshold >= 2
  {
    SeriesOf(0, p.WindowMs() - 1, p.threshold - 2) + SeriesOf(p.WindowMs(), p.WindowMs(), p.threshold - 2)
    + [Wrong(p.WindowMs())]
  }

  function StraddleLog(p: LockoutPolicy): seq<Entry>
    requires p.threshold >= 2
  {
    [Entry(0, 1)] + CountingUp(p.WindowMs() - 1, 2, p.threshold - 2)
    + [Entry(p.WindowMs(), 1)] + CountingUp(p.WindowMs(), 2, p.threshold - 2)
    + [Entry(p.WindowMs(), p.threshold)]
  }

  /** One failure at an instant and n more at another. */
  function Series(p: LockoutPolicy, w: Watched, at: int, next: int, n: nat): Watched {
    Repeatedly(p, Next(p, w, Wrong(at)), next, n)
  }

  /** On an unlocked account whose window, if any, is over, a series short of the threshold fills a new window. */
  lemma SeriesFills(p: LockoutPolicy, w: Watched, at: int, next: int, n: nat)
    requires !w.account.LockedAt(at) && at <= next < at + p.WindowMs() && 1 + n < p.threshold
    requires w.account.windowStartedAt.Some? ==> w.account.windowStartedAt.value + p.WindowMs() <= at
    ensures Series(p, w, at, next, n) ==
            Watched(Account(1 + n, Some(at), w.account.lockedUntil), w.failures + [Entry(at, 1)] + CountingUp(next, 2, n))
  {
    CountsUp(p, Account(1, Some(at), w.account.lockedUntil), w.failures + [Entry(at, 1)], next, n);
  }

  lemma RunSeries(p: LockoutPolicy, run: seq<Event>, at: int, next: int, n: nat)
    ensures After(p, run + SeriesOf(at, next, n)) == Series(p, After(p, run), at, next, n)
  {
    OneMore(p, run, Wrong(at));
    RunRepeats(p, run + [Wrong(at)], next, n);
    assert run + SeriesOf(at, next, n) == run + [Wrong(at)] + WrongTimes(next, n);
  }

  function StraddleState(p: LockoutPolicy): Watched
    requires p.threshold >= 2
  {
    var window, n := p.WindowMs(), p.threshold - 2;
    Next(p, Series(p, Series(p, Watched(Clear, []), 0, window - 1, n), window, window, n), Wrong(window))
  }

  lemma RunTwoSeries(p: LockoutPolicy, next: int, later: int, n: nat)
    ensures
      After(p, SeriesOf(0, next, n) + SeriesOf(later, later, n) + [Wrong(later)])
      == Next(p, Series(p, Series(p, Watched(Clear, []), 0, next, n), later, later, n), Wrong(later))
  {
    var first := SeriesOf(0, next, n);
    RunSeries(p, [], 0, next, n);
    assert [] + first == first;
    RunSeries(p, first, later, later, n);
    OneMore(p, first + SeriesOf(later, later, n), Wrong(later));
  }

  lemma StraddleReaches(p: LockoutPolicy)
    requires p.threshold >= 2
    ensures After(p, Straddle(p)) == StraddleState(p)
  {
    RunTwoSeries(p, p.WindowMs() - 1, p.WindowMs(), p.threshold - 2);
  }

  lemma StraddleLeaves(p: LockoutPolicy)
    requires p.threshold >= 2 && p.windowMinutes >= 1
    ensures StraddleState(p) ==
            Watched(Account(p.threshold, Some(p.WindowMs()), Some(p.WindowMs() + p.LockoutMs())), StraddleLog(p))
  {
    var window, n := p.WindowMs(), p.threshold - 2;
    SeriesFills(p, Watched(Clear, []), 0, window - 1, n);
    var first := Series(p, Watched(Clear, []), 0, window - 1, n);
    SeriesFills(p, first, window, window, n);
    var second := Series(p, first, window, window, n);
    assert second.failures + [Entry(window, p.threshold)] == StraddleLog(p);
  }

  lemma StraddleClocked(p: LockoutPolicy)
    requires p.threshold >= 2 && p.windowMinutes >= 1
    ensures Clocked(Straddle(p))
  {
    var run := Straddle(p);
    assert forall i :: 0 <= i < |run| ==>
      run[i] == Wrong(if i == 0 then 0 else if i < p.threshold - 1 then p.WindowMs() - 1 else p.WindowMs());
  }

  /** For every threshold above one, some run puts 2T - 2 failures inside one window. */
  lemma FailureBoundIsReached(p: LockoutPolicy)
    requires p.threshold >= 2 && p.windowMinutes >= 1
    ensures Clocked(Straddle(p))
    ensures FailureBound(p.threshold) <= |FailuresWithin(p, Straddle(p), p.WindowMs() - 1)|
  {
    StraddleClocked(p);
    StraddleReaches(p);
    StraddleLeaves(p);
    RangeFilled(FailuresWithin(p, Straddle(p), p.WindowMs() - 1), 1, 2 * p.threshold - 2);
  }

  lemma SingleFailureRelocks(p: LockoutPolicy) returns (run: seq<Event>)
    requires p.threshold == 1 && p.lockoutMinutes < p.windowMinutes
    ensures Clocked(run) && 2 <= |FailuresWithin(p, run, 0)|
  {
    var until := p.LockoutMs();
    OneMore(p, [], Wrong(0));
    assert [] + [Wrong(0)] == [Wrong(0)];
    OneMore(p, [Wrong(0)], Wrong(until));
    run := [Wrong(0)] + [Wrong(until)];
    assert After(p, run).failures == [Entry(0, 1)] + [Entry(until, 2)];
    RangeFilled(FailuresWithin(p, run, 0), 0, 2);
  }

  /** The straddling run and one failure more as the lock ends. */
  function Overrun(p: LockoutPolicy): seq<Event>
    requires p.threshold >= 2
  {
    Straddle(p) + [Wrong(p.WindowMs() + p.LockoutMs())]
  }

  lemma OverrunLeaves(p: LockoutPolicy)
    requires p.threshold >= 2 && p.lockoutMinutes < p.windowMinutes
    ensures After(p, Overrun(p)).failures == StraddleLog(p) + [Entry(p.WindowMs() + p.LockoutMs(), p.threshold + 1)]
  {
    StraddleReaches(p);
    StraddleLeaves(p);
    OneMore(p, Straddle(p), Wrong(p.WindowMs() + p.LockoutMs()));
  }

  lemma OverrunClocked(p: LockoutPolicy)
    requires p.threshold >= 2 && p.windowMinutes >= 1
    ensures Clocked(Overrun(p))
  {
    StraddleClocked(p);
    assert forall i :: 0 <= i < |Straddle(p)| ==> Straddle(p)[i].recordedAt <= p.WindowMs();
  }

  lemma StraddleLogWithin(p: LockoutPolicy, k: nat)
    requires p.threshold >= 2 && p.windowMinutes >= 1 && 1 <= k < |StraddleLog(p)|
    ensures p.WindowMs() - 1 <= StraddleLog(p)[k].at <= p.WindowMs()
  {}

  /** With a lockout shorter than the window the lock ends in time for one failure more. */
  lemma ShortLockoutsBreakTheBound(p: LockoutPolicy) returns (run: seq<Event>, from: int)
    requires p.threshold >= 1 && p.lockoutMinutes < p.windowMinutes
    ensures Clocked(run) && FailureBound(p.threshold) < |FailuresWithin(p, run, from)|
  {
    if p.threshold == 1 {
      run := SingleFailureRelocks(p);
      from := 0;
    } else {
      run, from := Overrun(p), p.WindowMs() - 1;
      OverrunClocked(p);
      OverrunLeaves(p);
      var log := After(p, run).failures;
      assert |log| == 2 * p.threshold;
      forall k: nat | 1 <= k < |log| ensures k in FailuresWithin(p, run, from) {
        if k < |log| - 1 { StraddleLogWithin(p, k); }
      }
      RangeFilled(FailuresWithin(p, run, from), 1, 2 * p.threshold - 1);
    }
  }

  /** The bound holds of every run exactly when the lockout is no shorter than the window. */
  lemma FailureBoundHoldsIff(p: LockoutPolicy)
    requires p.threshold >= 1
    ensures (forall run, from: int :: Clocked(run) ==> |FailuresWithin(p, run, from)| <= FailureBound(p.threshold))
      <==> p.windowMinutes <= p.lockoutMinutes
  {
    if p.windowMinutes <= p.lockoutMinutes {
      forall run, from: int | Clocked(run) ensures |FailuresWithin(p, run, from)| <= FailureBound(p.threshold) {
        FailuresAreBounded(p, run, from);
      }
    } else {
      var run, from := ShortLockoutsBreakTheBound(p);
    }
  }
}
