/**
 What addBusinessMs reaches on a schedule, and exactly when that is right.
 */
module ClockAdding {
  import opened Wrappers
  import opened BusinessCalendar
  import opened BusinessHoursClock
  import opened ClockLookups

  // ------------------------------------------------------------------
  // Adding
  // ------------------------------------------------------------------

  lemma NextDayAfter(s: Schedule, day: int, t: int)
    requires s.dayStart(day) <= t < s.dayStart(day + 2)
    ensures NextDay(s, t) == s.dayStart(if s.dayStart(day + 1) <= t then day + 2 else day + 1)
  {
    if t < s.dayStart(day + 1) {
      DayOfIs(s, day, t);
    } else {
      DayOfIs(s, day + 1, t);
    }
  }

  /** A used-up day leaves the walk where the day closes, and nothing is open from there to `to`. */
  lemma UsedUpAtClosing(c: Calendar, s: Schedule, cursor: int, found: int, n: int, p: Progress)
    requires View(c, s, cursor, found) && n > 0 && p.Left?
    requires Walked(c, OpenIntervalsOnAndAfter(s, cursor), cursor, n, Max(s.dayStart(found + 1), Closing(s, found)), p)
    ensures p.cursor == Closing(s, found) && cursor < p.cursor
  {
    var ws := OpenIntervalsOnAndAfter(s, cursor);
    assert ws[0] in ws;
    ClosingBounds(s, found);
  }

  lemma ViewReaches(c: Calendar, s: Schedule, cursor: int, found: int)
    requires View(c, s, cursor, found)
    ensures
      var to := Max(s.dayStart(found + 1), Closing(s, found));
      cursor < to && EndsBy(OpenIntervalsOnAndAfter(s, cursor), to)
  {
    ClosingBounds(s, found);
    DaysInOrder(s, s.dayOf(cursor) + 1, found + 1);
  }

  lemma DayStartIsOn(s: Schedule, d: int)
    ensures s.dayOf(s.dayStart(d)) == d
  {
    assert InOrder(s, d, d + 1);
    DayOfIs(s, d, s.dayStart(d));
  }

  /** Where the walk goes on after a day that is used up. */
  lemma NextMidnight(s: Schedule, found: int)
    ensures
      var closing, next := Closing(s, found), NextDay(s, Closing(s, found));
      && closing < next
      && s.dayOf(next) == (if s.dayStart(found + 1) <= closing then found + 2 else found + 1)
      && next == s.dayStart(s.dayOf(next))
  {
    ClosingBounds(s, found);
    NextDayAfter(s, found, Closing(s, found));
    DayStartIsOn(s, found + 1);
    DayStartIsOn(s, found + 2);
  }

  lemma DarkAfterClosing(c: Calendar, s: Schedule, cursor: int, found: int)
    requires Follows(c, s, s.dayOf(cursor), cursor) && SafeJump(s, found)
    requires cursor <= Closing(s, found) && s.dayStart(found + 1) <= Closing(s, found)
    ensures ClosedBetween(c, Closing(s, found), s.dayStart(found + 2))
  {
    ClosingBounds(s, found);
    ClosingBounds(s, found + 1);
    forall t | Closing(s, found) <= t < s.dayStart(found + 2) ensures !c.open(t) {
      DayOfIs(s, found + 1, t);
      assert EndsBy(s.windows(found + 1), t) && EndsBy(s.windows(found), t);
      NotOpenSince(s, s.dayOf(cursor), t);
    }
  }

  lemma JumpLeavesBehind(s: Schedule, first: int, found: int)
    requires SafeJump(s, found) && first <= found
    ensures Behind(s, first, NextDay(s, Closing(s, found)))
  {
    NextMidnight(s, found);
    if s.dayStart(found + 1) <= Closing(s, found) {
      ClosingBounds(s, found + 1);
    } else {
      ClosingBounds(s, found);
    }
  }

  /** From a used-up day the walk goes on at a midnight; with a safe jump it passes no open window. */
  lemma JumpSkipsNothing(c: Calendar, s: Schedule, cursor: int, found: int)
    requires Follows(c, s, s.dayOf(cursor), cursor) && SafeJump(s, found) && cursor <= Closing(s, found)
    requires ClosedBetween(c, Closing(s, found), Max(s.dayStart(found + 1), Closing(s, found)))
    ensures
      var next := NextDay(s, Closing(s, found));
      && Closing(s, found) < next && ClosedBetween(c, Closing(s, found), next) && found < s.dayOf(next)
  {
    NextMidnight(s, found);
    if s.dayStart(found + 1) <= Closing(s, found) {
      DarkAfterClosing(c, s, cursor, found);
    }
  }

  /** One iteration: the instant is found, or the rest is looked for from a later day, nothing lost between. */
  ghost predicate StepRight(c: Calendar, s: Schedule, cursor: int, n: nat, p: Progress) {
    match p
    case Done(at) => Earliest(c, cursor, n, at)
    case Left(last, rest) =>
      && cursor <= NextDay(s, last) && 0 < rest <= n
      && RemainingBusinessMs(c, cursor, NextDay(s, last)) == n - rest
      && s.dayOf(cursor) < s.dayOf(NextDay(s, last))
      && Follows(c, s, s.dayOf(NextDay(s, last)), NextDay(s, last))
  }

  lemma AddStep(c: Calendar, s: Schedule, cursor: int, n: int)
    requires Follows(c, s, s.dayOf(cursor), cursor) && SafeJumps(s) && n > 0
    requires OpenIntervalsOnAndAfter(s, cursor) != []
    ensures StepRight(c, s, cursor, n, Consume(OpenIntervalsOnAndAfter(s, cursor), cursor, n))
  {
    var found := Sees(c, s, cursor);
    var ws := OpenIntervalsOnAndAfter(s, cursor);
    ViewReaches(c, s, cursor, found);
    ConsumeWalks(c, ws, cursor, n, Max(s.dayStart(found + 1), Closing(s, found)));
    var p := Consume(ws, cursor, n);
    if p.Left? {
      UsedUpAtClosing(c, s, cursor, found, n, p);
      DayUsedUp(c, s, cursor, n, found, p.remaining);
    }
  }

  lemma DayUsedUp(c: Calendar, s: Schedule, cursor: int, n: int, found: int, rest: int)
    requires Follows(c, s, s.dayOf(cursor), cursor) && SafeJumps(s)
    requires s.dayOf(cursor) <= found && cursor <= Closing(s, found)
    requires ClosedBetween(c, Closing(s, found), Max(s.dayStart(found + 1), Closing(s, found)))
    requires 0 < rest <= n && RemainingBusinessMs(c, cursor, Closing(s, found)) == n - rest
    ensures StepRight(c, s, cursor, n, Left(Closing(s, found), rest))
  {
    assert SafeJump(s, found);
    JumpSkipsNothing(c, s, cursor, found);
    JumpLeavesBehind(s, s.dayOf(cursor), found);
    var closing, next := Closing(s, found), NextDay(s, Closing(s, found));
    ClosedCountsNothing(c, closing, next);
    Split(c, cursor, closing, next);
    BehindFollows(c, s, s.dayOf(cursor), cursor, next);
  }

  /** With less than the amount behind it, an instant after which nothing opens for the lookahead's days. */
  ghost predicate RunsDry(c: Calendar, s: Schedule, cursor: int, n: nat, m: int) {
    cursor <= m && RemainingBusinessMs(c, cursor, m) < n && ClosedBetween(c, m, s.dayStart(s.dayOf(m) + LOOKAHEAD_DAYS))
  }

  /** The earliest instant, or too little business time in the days the clock may walk or look ahead. */
  ghost predicate AddedRight(c: Calendar, s: Schedule, cursor: int, n: nat, fuel: nat, r: Result<int, ClockError>) {
    match r
    case Ok(u) => Earliest(c, cursor, n, u)
    case Err(NegativeAmount) => false
    case Err(NoOpenWindows) => exists m :: RunsDry(c, s, cursor, n, m)
    case Err(IterationBound) => RemainingBusinessMs(c, cursor, s.dayStart(s.dayOf(cursor) + fuel)) < n
  }

  lemma AddedOn(c: Calendar, s: Schedule, cursor: int, n: int, fuel: nat, next: int, rest: int, r: Result<int, ClockError>)
    requires fuel > 0 && cursor <= next && s.dayOf(cursor) < s.dayOf(next)
    requires 0 < rest <= n && RemainingBusinessMs(c, cursor, next) == n - rest
    requires AddedRight(c, s, next, rest, fuel - 1, r)
    ensures AddedRight(c, s, cursor, n, fuel, r)
  {
    match r
    case Ok(u) => EarliestAfter(c, cursor, next, n, u);
    case Err(NegativeAmount) =>
    case Err(NoOpenWindows) =>
      var m :| RunsDry(c, s, next, rest, m);
      Split(c, cursor, next, m);
      assert RunsDry(c, s, cursor, n, m);
    case Err(IterationBound) =>
      DaysInOrder(s, s.dayOf(cursor) + fuel, s.dayOf(next) + (fuel - 1));
      HorizonOn(c, cursor, n, next, rest, s.dayStart(s.dayOf(cursor) + fuel), s.dayStart(s.dayOf(next) + (fuel - 1)));
  }

  lemma HorizonOn(c: Calendar, cursor: int, n: int, next: int, rest: int, near: int, far: int)
    requires cursor <= next && near <= far && 0 < rest
    requires RemainingBusinessMs(c, cursor, next) == n - rest && RemainingBusinessMs(c, next, far) < rest
    ensures RemainingBusinessMs(c, cursor, near) < n
  {
    CountsMonotone(c, cursor, near, far);
    SplitSigned(c, cursor, next, far);
    if far < cursor {
      CountsMonotone(c, cursor, far, cursor);
    } else if far < next {
      CountsMonotone(c, cursor, far, next);
    }
  }

  lemma AddIterates(c: Calendar, s: Schedule, cursor: int, n: int, fuel: nat, p: Progress, r: Result<int, ClockError>)
    requires fuel > 0 && n > 0 && StepRight(c, s, cursor, n, p)
    requires p.Done? ==> r == Ok(p.at)
    requires p.Left? ==> AddedRight(c, s, NextDay(s, p.cursor), p.remaining, fuel - 1, r)
    ensures AddedRight(c, s, cursor, n, fuel, r)
  {
    if p.Left? {
      AddedOn(c, s, cursor, n, fuel, NextDay(s, p.cursor), p.remaining, r);
    }
  }

  lemma AddStops(c: Calendar, s: Schedule, cursor: int, n: int)
    requires n > 0
    ensures AddedRight(c, s, cursor, n, 0, Err(IterationBound))
  {}

  lemma AddRunsDry(c: Calendar, s: Schedule, cursor: int, n: int, fuel: nat)
    requires Follows(c, s, s.dayOf(cursor), cursor) && n > 0 && OpenIntervalsOnAndAfter(s, cursor) == []
    ensures AddedRight(c, s, cursor, n, fuel, Err(NoOpenWindows))
  {
    SeesNothing(c, s, cursor);
    assert RunsDry(c, s, cursor, n, cursor);
  }

  lemma {:induction false} AddWalks(c: Calendar, s: Schedule, cursor: int, n: int, fuel: nat)
    requires Follows(c, s, s.dayOf(cursor), cursor) && SafeJumps(s) && n > 0
    ensures AddedRight(c, s, cursor, n, fuel, AddFrom(s, cursor, n, fuel))
    decreases fuel
  {
    if fuel == 0 {
      AddStops(c, s, cursor, n);
    } else if OpenIntervalsOnAndAfter(s, cursor) == [] {
      AddRunsDry(c, s, cursor, n, fuel);
    } else {
      AddStep(c, s, cursor, n);
      var p := Consume(OpenIntervalsOnAndAfter(s, cursor), cursor, n);
      if p.Left? {
        AddWalks(c, s, NextDay(s, p.cursor), p.remaining, fuel - 1);
      }
      AddIterates(c, s, cursor, n, fuel, p, AddFrom(s, cursor, n, fuel));
    }
  }

  lemma AddedFollows(c: Calendar, s: Schedule, start: int, n: nat)
    requires Follows(c, s, s.dayOf(start), start) && SafeJumps(s)
    ensures AddedRight(c, s, start, n, MAX_ITERATIONS, Added(s, start, n))
  {
    if n > 0 {
      AddWalks(c, s, start, n, MAX_ITERATIONS);
    }
  }

  /** With safe jumps and no spill ahead the clock adds business time exactly, or says why it cannot. */
  lemma AddedIsEarliest(c: Calendar, s: Schedule, start: int, n: int)
    requires Means(c, s) && SafeJumps(s) && !SpillAhead(s, start)
    ensures n < 0 ==> Added(s, start, n) == Err(NegativeAmount)
    ensures n >= 0 ==> AddedRight(c, s, start, n, MAX_ITERATIONS, Added(s, start, n))
  {
    if n >= 0 {
      NoSpillFollows(c, s, start);
      AddedFollows(c, s, start, n);
    }
  }

  // ------------------------------------------------------------------
  // Exactly which schedules are added to rightly
  // ------------------------------------------------------------------

  lemma DryLater(c: Calendar, s: Schedule, t: int, n: nat, m: int, x: int)
    requires RunsDry(c, s, t, n, m) && t <= x < s.dayStart(s.dayOf(t) + 2) && c.open(x)
    ensures RemainingBusinessMs(c, t, x + 1) < n
  {
    DayOfMonotone(s, t, m);
    DaysInOrder(s, s.dayOf(t) + 2, s.dayOf(m) + LOOKAHEAD_DAYS);
    CountsMonotone(c, t, x + 1, m);
  }

  /** A right answer is no later than any open instant, within reach, that completes the amount. */
  lemma RightMeansBy(c: Calendar, s: Schedule, t: int, n: nat, fuel: nat, r: Result<int, ClockError>, x: int)
    requires AddedRight(c, s, t, n, fuel, r) && t <= x && c.open(x) && n <= RemainingBusinessMs(c, t, x + 1)
    requires x < s.dayStart(s.dayOf(t) + 2) && fuel > 1
    ensures r.Ok? && r.value <= x + 1
  {
    match r
    case Ok(u) =>
    case Err(NegativeAmount) =>
    case Err(NoOpenWindows) =>
      var m :| RunsDry(c, s, t, n, m);
      DryLater(c, s, t, n, m, x);
    case Err(IterationBound) =>
      DaysInOrder(s, s.dayOf(t) + 2, s.dayOf(t) + fuel);
      CountsMonotone(c, t, x + 1, s.dayStart(s.dayOf(t) + fuel));
  }

  lemma FirstAheadSuffices(ws: seq<Window>, cursor: int)
    requires ws != [] && ws[0].start < ws[0].end && cursor < ws[0].end
    ensures Consume(ws, cursor, 1) == Done(Max(ws[0].start, cursor) + 1)
  {
  }

  /** One millisecond more is found after the cursor, in the first window looked up. */
  lemma OneMoreMs(s: Schedule, cursor: int, fuel: nat)
    requires fuel > 0
    ensures
      var ws := OpenIntervalsOnAndAfter(s, cursor);
      AddFrom(s, cursor, 1, fuel) == if ws == [] then Err(NoOpenWindows) else Ok(Max(ws[0].start, cursor) + 1)
  {
    var ws := OpenIntervalsOnAndAfter(s, cursor);
    if ws != [] {
      var c := Since(s, s.dayOf(cursor));
      var found := Sees(c, s, cursor);
      assert ws[0] in ws;
      FirstAheadSuffices(ws, cursor);
    }
  }

  /** A day used up but for one millisecond is left for the next day's lookup. */
  lemma LastMsNextDay(s: Schedule, cursor: int, n: int, last: int, fuel: nat)
    requires OpenIntervalsOnAndAfter(s, cursor) != [] && fuel > 1
    requires Consume(OpenIntervalsOnAndAfter(s, cursor), cursor, n) == Left(last, 1)
    ensures
      var next := NextDay(s, last);
      var ws := OpenIntervalsOnAndAfter(s, next);
      AddFrom(s, cursor, n, fuel) == if ws == [] then Err(NoOpenWindows) else Ok(Max(ws[0].start, next) + 1)
  {
    OneMoreMs(s, NextDay(s, last), fuel - 1);
  }

  lemma SpillIsOverlooked(s: Schedule, t: int)
    requires OnlySpills(s, t)
    ensures forall w :: w in OpenIntervalsOnAndAfter(s, t) ==> t < w.start
  {
    var today := s.dayOf(t);
    var found := LookupFinds(s, t, today, LOOKAHEAD_DAYS);
    CoversWitness(s.windows(today), t);
    if found < today + LOOKAHEAD_DAYS {
      AheadKeeps(s.windows(found), t);
      assert DayFits(s, found);
      if today < found {
        DaysInOrder(s, today + 1, found);
      }
    }
  }

  /** The millisecond that begins in an uncovered spill is business time, and the clock answers a later one. */
  lemma SpilledStartIsWrong(c: Calendar, s: Schedule, t: int, fuel: nat)
    requires Means(c, s) && OnlySpills(s, t) && fuel > 1
    ensures !AddedRight(c, s, t, 1, fuel, AddFrom(s, t, 1, fuel))
  {
    assert IsOpenAt(s, t) && c.open(t);
    OneMoreMs(s, t, fuel);
    SpillIsOverlooked(s, t);
    DaysInOrder(s, s.dayOf(t) + 1, s.dayOf(t) + 2);
    var ws := OpenIntervalsOnAndAfter(s, t);
    assert ws == [] || ws[0] in ws;
    if AddedRight(c, s, t, 1, fuel, AddFrom(s, t, 1, fuel)) {
      RightMeansBy(c, s, t, 1, fuel, AddFrom(s, t, 1, fuel), t);
    }
  }

  /** No instant of the day completes one millisecond more than is left until its closing. */
  lemma NotDoneBy(c: Calendar, cursor: int, closing: int, to: int, at: int)
    requires cursor < closing <= to && ClosedBetween(c, closing, to) && at <= to
    ensures !Earliest(c, cursor, RemainingBusinessMs(c, cursor, closing) + 1, at)
  {
    Split(c, cursor, closing, to);
    ClosedCountsNothing(c, closing, to);
    CountsMonotone(c, cursor, at, to);
  }

  /** Asking for one millisecond more than is left uses the day up to its closing. */
  lemma OneIsLeft(c: Calendar, s: Schedule, cursor: int, d: int)
    requires View(c, s, cursor, d)
    ensures
      var n := RemainingBusinessMs(c, cursor, Closing(s, d)) + 1;
      Consume(OpenIntervalsOnAndAfter(s, cursor), cursor, n) == Left(Closing(s, d), 1)
  {
    var n := RemainingBusinessMs(c, cursor, Closing(s, d)) + 1;
    var to := Max(s.dayStart(d + 1), Closing(s, d));
    ViewReaches(c, s, cursor, d);
    ConsumeWalks(c, OpenIntervalsOnAndAfter(s, cursor), cursor, n, to);
    var p := Consume(OpenIntervalsOnAndAfter(s, cursor), cursor, n);
    ClosedAfterClosing(c, s, cursor, d);
    if p.Left? {
      UsedUpAtClosing(c, s, cursor, d, n, p);
    } else {
      NotDoneBy(c, cursor, Closing(s, d), to, p.at);
    }
  }

  lemma ClosedAfterClosing(c: Calendar, s: Schedule, cursor: int, d: int)
    requires View(c, s, cursor, d)
    ensures cursor < Closing(s, d) && ClosedBetween(c, Closing(s, d), Max(s.dayStart(d + 1), Closing(s, d)))
  {
    var ws := OpenIntervalsOnAndAfter(s, cursor);
    assert ws[0] in ws;
    ClosingBounds(s, d);
    forall t | Closing(s, d) <= t < Max(s.dayStart(d + 1), Closing(s, d)) ensures !c.open(t) {
      CoversWitness(ws, t);
    }
  }

  /** After an unsafe jump, something is open before the midnight jumped to. */
  lemma JumpedOver(c: Calendar, s: Schedule, d: int, t: int) returns (x: int)
    requires Follows(c, s, d, t) && t < s.dayStart(d + 1) && !SafeJump(s, d)
    ensures t < s.dayStart(d + 1) <= Closing(s, d) <= x < s.dayStart(d + 2) && c.open(x)
  {
    ClosingBounds(s, d);
    ClosingBounds(s, d + 1);
    var v :| v in s.windows(d + 1) && v.end == Closing(s, d + 1);
    x := Max(v.start, Closing(s, d));
    assert DayFits(s, d + 1);
    DayOfIs(s, d + 1, x);
    CoversWitness(s.windows(d + 1), x);
    assert OpenSince(s, d, x);
  }

  lemma LastMsOfDay(c: Calendar, s: Schedule, d: int, t: int)
    requires s.dayStart(d) <= t < s.dayStart(d + 1) <= Closing(s, d) && Follows(c, s, d, t)
    ensures s.dayOf(t) == d && View(c, s, t, d)
  {
    DayOfIs(s, d, t);
    ClosingBounds(s, d);
    AheadKeeps(s.windows(d), t);
    assert InOrder(s, d, d + 1);
    var w :| w in s.windows(d) && w.end == Closing(s, d);
    assert w in Ahead(s.windows(d), t);
    LookupHere(s, t, d, LOOKAHEAD_DAYS);
    ViewFrom(c, s, t, d);
  }

  lemma LookupHere(s: RawSchedule, cursor: int, day: int, left: nat)
    requires left > 0 && Ahead(s.windows(day), cursor) != []
    ensures Lookup(s, cursor, day, left) == Ahead(s.windows(day), cursor)
  {}

  lemma UsedUpButOne(c: Calendar, s: Schedule, d: int, t: int)
    requires s.dayStart(d) <= t < s.dayStart(d + 1) <= Closing(s, d) && Follows(c, s, d, t)
    ensures
      var ws := OpenIntervalsOnAndAfter(s, t);
      ws != [] && Consume(ws, t, RemainingBusinessMs(c, t, Closing(s, d)) + 1) == Left(Closing(s, d), 1)
  {
    LastMsOfDay(c, s, d, t);
    OneIsLeft(c, s, t, d);
  }

  /** The clock then looks for that millisecond only after the midnight after. */
  lemma MidnightIsOvershot(c: Calendar, s: Schedule, d: int, t: int, fuel: nat)
    requires s.dayStart(d) <= t < s.dayStart(d + 1) <= Closing(s, d) && Follows(c, s, d, t) && fuel > 1
    ensures
      var r := AddFrom(s, t, RemainingBusinessMs(c, t, Closing(s, d)) + 1, fuel);
      r.Ok? ==> s.dayStart(d + 2) < r.value
  {
    UsedUpButOne(c, s, d, t);
    NextMidnight(s, d);
    LastMsNextDay(s, t, RemainingBusinessMs(c, t, Closing(s, d)) + 1, Closing(s, d), fuel);
  }

  lemma Overshoots(c: Calendar, s: Schedule, d: int, t: int, fuel: nat) returns (x: int)
    requires Follows(c, s, d, t) && s.dayStart(d) <= t < s.dayStart(d + 1) && !SafeJump(s, d) && fuel > 1
    ensures t <= Closing(s, d) <= x < s.dayStart(d + 2) && c.open(x)
    ensures
      var r := AddFrom(s, t, RemainingBusinessMs(c, t, Closing(s, d)) + 1, fuel);
      r.Ok? ==> x + 1 < r.value
  {
    x := JumpedOver(c, s, d, t);
    MidnightIsOvershot(c, s, d, t, fuel);
  }

  lemma LaterIsWrong(c: Calendar, s: Schedule, t: int, closing: int, x: int, fuel: nat, r: Result<int, ClockError>)
    requires t <= closing <= x < s.dayStart(s.dayOf(t) + 2) && c.open(x) && fuel > 1
    requires r.Ok? ==> x + 1 < r.value
    ensures !AddedRight(c, s, t, RemainingBusinessMs(c, t, closing) + 1, fuel, r)
  {
    Split(c, t, closing, x + 1);
    if AddedRight(c, s, t, RemainingBusinessMs(c, t, closing) + 1, fuel, r) {
      RightMeansBy(c, s, t, RemainingBusinessMs(c, t, closing) + 1, fuel, r, x);
    }
  }

  /** So after an unsafe jump, business time is missed: whatever on day d the addition starts at. */
  lemma MidnightIsMissed(c: Calendar, s: Schedule, d: int, t: int, fuel: nat)
    requires Follows(c, s, d, t) && s.dayStart(d) <= t < s.dayStart(d + 1) && !SafeJump(s, d) && fuel > 1
    ensures
      var n := RemainingBusinessMs(c, t, Closing(s, d)) + 1;
      !AddedRight(c, s, t, n, fuel, AddFrom(s, t, n, fuel))
  {
    DayOfIs(s, d, t);
    var x := Overshoots(c, s, d, t, fuel);
    LaterIsWrong(c, s, t, Closing(s, d), x, fuel, AddFrom(s, t, RemainingBusinessMs(c, t, Closing(s, d)) + 1, fuel));
  }

  /** Adding from t is right for every amount. */
  ghost predicate AddsRightFrom(c: Calendar, s: Schedule, t: int) {
    forall n: nat :: AddedRight(c, s, t, n, MAX_ITERATIONS, Added(s, t, n))
  }

  /** With safe jumps, adding from t is right for every amount exactly when no spill lies ahead on t's day. */
  lemma AddingFromIsRightIff(c: Calendar, s: Schedule, t: int)
    requires Means(c, s) && SafeJumps(s)
    ensures AddsRightFrom(c, s, t) <==> !SpillAhead(s, t)
  {
    if SpillAhead(s, t) {
      var u :| t <= u < s.dayStart(s.dayOf(t) + 1) && OnlySpills(s, u);
      SpillAheadIsMissed(c, s, t, u);
    } else {
      forall n: nat ensures AddedRight(c, s, t, n, MAX_ITERATIONS, Added(s, t, n)) {
        AddedIsEarliest(c, s, t, n);
      }
    }
  }

  /** No answer is right for two calendars of which one misses what completes the amount in the other. */
  lemma NotRightForBoth(k: Calendar, c: Calendar, s: Schedule, t: int, u: int, fuel: nat, r: Result<int, ClockError>)
    requires t <= u < s.dayStart(s.dayOf(t) + 2) && c.open(u) && fuel > 1
    requires RemainingBusinessMs(k, t, u + 1) < RemainingBusinessMs(c, t, u + 1)
    requires AddedRight(k, s, t, RemainingBusinessMs(c, t, u + 1), fuel, r)
    ensures !AddedRight(c, s, t, RemainingBusinessMs(c, t, u + 1), fuel, r)
  {
    if AddedRight(c, s, t, RemainingBusinessMs(c, t, u + 1), fuel, r) {
      RightMeansBy(c, s, t, RemainingBusinessMs(c, t, u + 1), fuel, r, u);
      CountsMonotone(k, t, r.value, u + 1);
    }
  }

  lemma SpillIsSubtracted(c: Calendar, s: Schedule, t: int, u: int)
    requires Means(c, s) && t <= u < s.dayStart(s.dayOf(t) + 1) && OnlySpills(s, u)
    ensures c.open(u) && RemainingBusinessMs(Since(s, s.dayOf(t)), t, u + 1) < RemainingBusinessMs(c, t, u + 1)
  {
    SinceIsWithin(c, s, s.dayOf(t));
    DayOfIs(s, s.dayOf(t), u);
    assert IsOpenAt(s, u) && !Since(s, s.dayOf(t)).open(u);
    SubCalendarCounts(Since(s, s.dayOf(t)), c, t, u + 1);
  }

  lemma SpillAheadIsMissed(c: Calendar, s: Schedule, t: int, u: int)
    requires Means(c, s) && SafeJumps(s) && t <= u < s.dayStart(s.dayOf(t) + 1) && OnlySpills(s, u)
    ensures !AddsRightFrom(c, s, t)
  {
    var k, n := Since(s, s.dayOf(t)), RemainingBusinessMs(c, t, u + 1);
    AddedFollows(k, s, t, n);
    SpillIsSubtracted(c, s, t, u);
    DaysInOrder(s, s.dayOf(t) + 1, s.dayOf(t) + 2);
    NotRightForBoth(k, c, s, t, u, MAX_ITERATIONS, Added(s, t, n));
  }

  /**
   Adding business time is right for every start and amount exactly when every jump is safe and nothing
   is open only through a window of the day before: the condition is on the windows alone.
   */
  lemma AddingIsRightIff(c: Calendar, s: Schedule)
    requires Means(c, s)
    ensures (forall t :: AddsRightFrom(c, s, t)) <==> SafeJumps(s) && NothingSpills(s)
  {
    if !NothingSpills(s) {
      var t :| OnlySpills(s, t);
      SpilledStartIsWrong(c, s, t, MAX_ITERATIONS);
      assert !AddedRight(c, s, t, 1, MAX_ITERATIONS, Added(s, t, 1));
      assert !AddsRightFrom(c, s, t);
    } else if !SafeJumps(s) {
      var d :| !SafeJump(s, d);
      UnsafeJumpIsWrong(c, s, d);
    } else {
      forall t ensures AddsRightFrom(c, s, t) {
        assert !SpillAhead(s, t);
        AddingFromIsRightIff(c, s, t);
      }
    }
  }

  lemma UnsafeJumpIsWrong(c: Calendar, s: Schedule, d: int)
    requires Means(c, s) && NothingSpills(s) && !SafeJump(s, d)
    ensures !AddsRightFrom(c, s, s.dayStart(d))
  {
    var t := s.dayStart(d);
    assert InOrder(s, d, d + 1);
    DayStartIsOn(s, d);
    assert !SpillAhead(s, t);
    NoSpillFollows(c, s, t);
    MidnightIsMissed(c, s, d, t, MAX_ITERATIONS);
    var n := RemainingBusinessMs(c, t, Closing(s, d)) + 1;
    assert !AddedRight(c, s, t, n, MAX_ITERATIONS, Added(s, t, n));
  }

  ghost predicate Daytime(s: RawSchedule) {
    forall d :: Closing(s, d) <= s.dayStart(d + 1)
  }

  /** When all windows end by midnight, a jump is safe unless a day that reaches midnight precedes an open one. */
  lemma DaytimeIsSafeIff(s: Schedule)
    requires Daytime(s)
    ensures NothingSpills(s)
    ensures SafeJumps(s) <==> forall d :: Closing(s, d) == s.dayStart(d + 1) ==> s.windows(d + 1) == []
  {
    forall t ensures !OnlySpills(s, t) {
      CoversWitness(s.windows(s.dayOf(t) - 1), t);
      assert Closing(s, s.dayOf(t) - 1) <= s.dayStart(s.dayOf(t));
    }
    forall d ensures SafeJump(s, d) <==> (Closing(s, d) == s.dayStart(d + 1) ==> s.windows(d + 1) == []) {
      assert DayFits(s, d + 1) && Closing(s, d) <= s.dayStart(d + 1);
      if s.windows(d + 1) != [] {
        assert s.windows(d + 1)[0] in s.windows(d + 1);
      }
    }
  }

  // ------------------------------------------------------------------
  // What the SLA timers rely on
  // ------------------------------------------------------------------

  lemma NeverRunsDry(c: Calendar, s: Schedule, from: int, n: nat, m: int)
    requires Means(c, s) && NeverDark(s)
    ensures !RunsDry(c, s, from, n, m)
  {
    var today := s.dayOf(m);
    assert OpenDayAhead(s, today);
    var e :| today < e < today + LOOKAHEAD_DAYS && s.windows(e) != [];
    var w := s.windows(e)[0];
    assert w in s.windows(e);
    DaysInOrder(s, today + 1, e);
    DaysInOrder(s, e + 1, today + LOOKAHEAD_DAYS);
    DayOfIs(s, e, w.start);
    CoversWitness(s.windows(e), w.start);
    assert IsOpenAt(s, w.start) && c.open(w.start);
  }

  /** On schedules it serves rightly, the walk computes the calendar's functions. */
  lemma ClockMatchesCalendar(c: Calendar, s: Schedule, from: int, n: nat)
    requires Live(c) && Means(c, s) && SafeJumps(s) && !SpillAhead(s, from) && NeverDark(s)
    requires n <= RemainingBusinessMs(c, from, s.dayStart(s.dayOf(from) + MAX_ITERATIONS))
    ensures Added(s, from, n) == Ok(AddBusinessMs(c, from, n))
  {
    AddedIsEarliest(c, s, from, n);
    AddedRightMatches(c, s, from, n, MAX_ITERATIONS, Added(s, from, n));
  }

  lemma AddedRightMatches(c: Calendar, s: Schedule, from: int, n: nat, fuel: nat, r: Result<int, ClockError>)
    requires Live(c) && Means(c, s) && NeverDark(s) && AddedRight(c, s, from, n, fuel, r)
    requires n <= RemainingBusinessMs(c, from, s.dayStart(s.dayOf(from) + fuel))
    ensures r == Ok(AddBusinessMs(c, from, n))
  {
    if r.Ok? {
      EarliestIsAdded(c, from, n, r.value);
    } else if r == Err(NoOpenWindows) {
      var m :| RunsDry(c, s, from, n, m);
      NeverRunsDry(c, s, from, n, m);
    }
  }

  // ------------------------------------------------------------------
  // Two schedules that lose time
  // ------------------------------------------------------------------

  ghost predicate AroundTheClock(s: RawSchedule) {
    forall d {:trigger s.windows(d)} :: s.windows(d) == [Window(s.dayStart(d), s.dayStart(d + 1))]
  }

  lemma AroundTheClockIsOpen(c: Calendar, s: Schedule, t: int)
    requires Means(c, s) && AroundTheClock(s)
    ensures c.open(t) && OpenSince(s, s.dayOf(t), t)
  {
    CoversWitness(s.windows(s.dayOf(t)), t);
    assert Window(s.dayStart(s.dayOf(t)), s.dayStart(s.dayOf(t) + 1)) in s.windows(s.dayOf(t));
    assert IsOpenAt(s, t);
  }

  lemma AroundTheClockCounts(c: Calendar, s: Schedule, a: int, b: int)
    requires Means(c, s) && AroundTheClock(s) && a <= b
    ensures RemainingBusinessMs(c, a, b) == b - a
  {
    forall t ensures c.open(t) {
      AroundTheClockIsOpen(c, s, t);
    }
    OpenCountsAll(c, a, b);
  }

  lemma AroundTheClockFollows(c: Calendar, s: Schedule, d: int)
    requires Means(c, s) && AroundTheClock(s)
    ensures Follows(c, s, d, s.dayStart(d)) && Closing(s, d) == s.dayStart(d + 1)
  {
    forall t | s.dayStart(d) <= t ensures c.open(t) && OpenSince(s, d, t) {
      DayStartIsOn(s, d);
      DayOfMonotone(s, s.dayStart(d), t);
      AroundTheClockIsOpen(c, s, t);
    }
    assert InOrder(s, d, d + 1);
    ClosingBounds(s, d);
  }

  lemma AroundTheClockSees(s: Schedule, d: int)
    requires AroundTheClock(s)
    ensures OpenIntervalsOnAndAfter(s, s.dayStart(d)) == [Window(s.dayStart(d), s.dayStart(d + 1))]
    ensures s.dayStart(d) < s.dayStart(d + 1)
  {
    DayStartIsOn(s, d);
    assert InOrder(s, d, d + 1);
    var w := Window(s.dayStart(d), s.dayStart(d + 1));
    assert [w][1..] == [] && Ahead([w], s.dayStart(d)) == [w] + Ahead([], s.dayStart(d));
    LookupHere(s, s.dayStart(d), d, LOOKAHEAD_DAYS);
  }

  lemma AroundTheClockIsUsedUp(c: Calendar, s: Schedule, d: int)
    requires Means(c, s) && AroundTheClock(s)
    ensures
      var midnight, next := s.dayStart(d), s.dayStart(d + 1);
      Consume(OpenIntervalsOnAndAfter(s, midnight), midnight, next - midnight + 1) == Left(next, 1)
  {
    DaysInOrder(s, d, d + 1);
    AroundTheClockCounts(c, s, s.dayStart(d), s.dayStart(d + 1));
    AroundTheClockFollows(c, s, d);
    AroundTheClockSees(s, d);
    LastMsOfDay(c, s, d, s.dayStart(d));
    OneIsLeft(c, s, s.dayStart(d), d);
  }

  lemma AroundTheClockGoesOn(c: Calendar, s: Schedule, d: int)
    requires Means(c, s) && AroundTheClock(s)
    ensures NextDay(s, s.dayStart(d + 1)) == s.dayStart(d + 2)
  {
    AroundTheClockFollows(c, s, d);
    NextMidnight(s, d);
  }

  /** Open around the clock, a day and a millisecond of work asked for at midnight falls due a day too late. */
  lemma AroundTheClockLosesADay(c: Calendar, s: Schedule, d: int, fuel: nat)
    requires Means(c, s) && AroundTheClock(s) && fuel > 1
    ensures
      var midnight, next := s.dayStart(d), s.dayStart(d + 1);
      var r := AddFrom(s, midnight, next - midnight + 1, fuel);
      && RemainingBusinessMs(c, midnight, next + 1) == next - midnight + 1
      && r == Ok(s.dayStart(d + 2) + 1)
  {
    var midnight, next := s.dayStart(d), s.dayStart(d + 1);
    DaysInOrder(s, d, d + 1);
    AroundTheClockCounts(c, s, midnight, next + 1);
    AroundTheClockSees(s, d);
    AroundTheClockIsUsedUp(c, s, d);
    AroundTheClockGoesOn(c, s, d);
    AroundTheClockSees(s, d + 2);
    LastMsNextDay(s, midnight, next - midnight + 1, next, fuel);
  }

  lemma OvernightLooksUp(s: Schedule, d: int, cursor: int)
    requires s.windows(d) == [Night(d)] && s.dayOf(cursor) == d && cursor < Night(d).end
    ensures OpenIntervalsOnAndAfter(s, cursor) == [Night(d)]
  {
    assert [Night(d)][1..] == [] && Ahead([Night(d)], cursor) == [Night(d)] + Ahead([], cursor);
    LookupHere(s, cursor, d, LOOKAHEAD_DAYS);
  }

  lemma NightIsUsedUp(d: int)
    ensures Consume([Night(d)], Night(d).start, 8 * HOUR_MS + 1) == Left(Night(d).end, 1)
  {
    assert [Night(d)][1..] == [];
  }

  lemma AfterTheNight(d: int)
    ensures Overnight().dayOf(Night(d).start) == d
    ensures NextDay(Overnight(), Night(d).end) == DAY_MS * (d + 2) && Overnight().dayOf(DAY_MS * (d + 2)) == d + 2
  {
    assert Overnight().dayOf(Night(d).end) == d + 1;
  }

  lemma NightIsOn(d: int)
    ensures Overnight().windows(d) == [Night(d)]
    ensures IsOpenAt(Overnight(), Night(d).start)
  {
    assert Overnight().dayOf(Night(d).start) == d;
  }

  lemma SkipsToNight(s: Schedule, d: int, next: int, n: int, fuel: nat)
    requires OpenIntervalsOnAndAfter(s, Night(d).start) == [Night(d)] && fuel > 1
    requires Consume([Night(d)], Night(d).start, n) == Left(Night(d).end, 1) && NextDay(s, Night(d).end) == next
    requires OpenIntervalsOnAndAfter(s, next) == [Night(d + 2)] && next <= Night(d + 2).start
    ensures AddFrom(s, Night(d).start, n, fuel) == Ok(Night(d + 2).start + 1)
  {
    LastMsNextDay(s, Night(d).start, n, Night(d).end, fuel);
  }

  /**
   Eight hours and a millisecond, asked for as a night begins, skip the whole of the next night and fall
   due in the night after it.
   */
  lemma OvernightLosesANight(d: int, fuel: nat)
    requires fuel > 1
    ensures
      var s := Overnight();
      && AddFrom(s, Night(d).start, 8 * HOUR_MS + 1, fuel) == Ok(Night(d + 2).start + 1)
      && IsOpenAt(s, Night(d + 1).start)
  {
    var s := Overnight();
    AfterTheNight(d);
    NightIsOn(d);
    NightIsOn(d + 1);
    NightIsOn(d + 2);
    OvernightLooksUp(s, d, Night(d).start);
    NightIsUsedUp(d);
    OvernightLooksUp(s, d + 2, DAY_MS * (d + 2));
    SkipsToNight(s, d, DAY_MS * (d + 2), 8 * HOUR_MS + 1, fuel);
  }
}
