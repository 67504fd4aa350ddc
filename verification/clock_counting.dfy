/**
 What remainingBusinessMs counts of a schedule, and exactly when that is all of it.
 */
module ClockCounting {
  import opened BusinessCalendar
  import opened BusinessHoursClock
  import opened ClockLookups

  // ------------------------------------------------------------------
  // Counting
  // ------------------------------------------------------------------

  ghost predicate StartBefore(ws: seq<Window>, t: int) {
    forall w :: w in ws ==> w.start < t
  }

  /** The first window is behind the cursor, or what is open first ends with it, or at `end`. */
  lemma FirstTallied(c: Calendar, ws: seq<Window>, cursor: int, to: int, end: int)
    requires SortedWindows(ws) && Shows(c, ws, cursor, Min(to, end))
    requires ws != [] && cursor < end && EndsBy(ws, to) && StartBefore(ws, end)
    ensures
      var openStart, openEnd := Max(ws[0].start, cursor), Min(ws[0].end, end);
      if openStart < openEnd then Stretch(c, cursor, openStart, openEnd) && Shows(c, ws[1..], openEnd, Min(to, end))
      else Shows(c, ws[1..], cursor, Min(to, end))
    ensures SortedWindows(ws[1..]) && EndsBy(ws[1..], to) && StartBefore(ws[1..], end)
  {
    assert ws == [ws[0]] + ws[1..];
    NextStretch(c, ws, cursor, Min(to, end));
  }

  /** One window passed by the tally. */
  lemma TallyStep(c: Calendar, cursor: int, openStart: int, openEnd: int, next: int, total: int)
    requires Stretch(c, cursor, openStart, openEnd) && openEnd <= next
    ensures total + (openEnd - openStart) + RemainingBusinessMs(c, openEnd, next)
      == total + RemainingBusinessMs(c, cursor, next)
  {
    StretchCounts(c, cursor, openStart, openEnd, openEnd);
    Split(c, cursor, openEnd, next);
  }

  lemma {:induction false} TallyWalks(c: Calendar, ws: seq<Window>, end: int, t: Tally, to: int)
    requires SortedWindows(ws) && Shows(c, ws, t.cursor, Min(to, end)) && EndsBy(ws, to) && StartBefore(ws, end)
    ensures var t' := Tallied(ws, end, t);
      && t.cursor <= t'.cursor
      && t'.total == t.total + RemainingBusinessMs(c, t.cursor, t'.cursor)
    decreases |ws|
  {
    if ws != [] && t.cursor < end {
      var openStart, openEnd := Max(ws[0].start, t.cursor), Min(ws[0].end, end);
      FirstTallied(c, ws, t.cursor, to, end);
      if openStart < openEnd {
        var t1 := Tally(openEnd, t.total + openEnd - openStart);
        TallyWalks(c, ws[1..], end, t1, to);
        TallyStep(c, t.cursor, openStart, openEnd, Tallied(ws[1..], end, t1).cursor, t.total);
      } else {
        TallyWalks(c, ws[1..], end, t, to);
      }
    }
  }

  /** The windows are used up, and the cursor has not moved past the last of them. */
  lemma {:induction false} TallyUsesUp(ws: seq<Window>, end: int, t: Tally)
    requires forall w :: w in ws ==> w.start < w.end && w.start < end
    ensures var t' := Tallied(ws, end, t);
      && t.cursor <= t'.cursor
      && (t.cursor < t'.cursor ==> exists w :: w in ws && t'.cursor <= w.end)
      && (t'.cursor < end ==> EndsBy(ws, t'.cursor))
      && (ws != [] && t.cursor < end && t.cursor < ws[0].end ==> t.cursor < t'.cursor)
    decreases |ws|
  {
    if ws != [] && t.cursor < end {
      assert ws == [ws[0]] + ws[1..];
      var openStart, openEnd := Max(ws[0].start, t.cursor), Min(ws[0].end, end);
      TallyUsesUp(ws[1..], end, if openStart < openEnd then Tally(openEnd, t.total + openEnd - openStart) else t);
    }
  }

  lemma {:induction false} CountEnds(c: Calendar, ws: seq<Window>, end: int, t: Tally)
    requires t.cursor <= end
    ensures Tallied(ws, end, t).cursor <= end
    decreases |ws|
  {
    if ws != [] && t.cursor < end {
      var openStart, openEnd := Max(ws[0].start, t.cursor), Min(ws[0].end, end);
      CountEnds(c, ws[1..], end,
        if openStart < openEnd then Tally(openEnd, t.total + openEnd - openStart) else t);
    }
  }

  /** The part of a view that starts before `end`. */
  lemma ViewBefore(c: Calendar, s: Schedule, cursor: int, found: int, end: int)
    requires View(c, s, cursor, found) && cursor < end
    ensures
      var ws, to := Visible(s, cursor, end), Max(s.dayStart(found + 1), Closing(s, found));
      && SortedWindows(ws) && Shows(c, ws, cursor, Min(to, end))
      && (forall w :: w in ws ==> w.end <= to && w.start < end && cursor < w.end && w in s.windows(found))
      && (forall w :: w in s.windows(found) && w.start < end ==> w in ws || w.end <= cursor)
  {
    var all := OpenIntervalsOnAndAfter(s, cursor);
    ClosingBounds(s, found);
    StartingBeforeSorted(all, end);
    forall u | cursor <= u < Min(Max(s.dayStart(found + 1), Closing(s, found)), end)
      ensures c.open(u) <==> Covers(Visible(s, cursor, end), u)
    {
      StartingBeforeCovers(all, end, u);
    }
  }

  /** Nothing visible, though something was found: it starts no earlier than `end`. */
  lemma NothingVisible(c: Calendar, s: Schedule, cursor: int, end: int)
    requires Follows(c, s, s.dayOf(cursor), cursor) && cursor < end
    requires OpenIntervalsOnAndAfter(s, cursor) != [] && Visible(s, cursor, end) == []
    ensures ClosedBetween(c, cursor, end)
  {
    var found := Sees(c, s, cursor);
    ViewBefore(c, s, cursor, found, end);
    var all := OpenIntervalsOnAndAfter(s, cursor);
    assert all[0] in all && DayFits(s, found);
  }

  /** The walk has come to where a lookup finds nothing, and what it has counted is over. */
  ghost predicate Stalls(s: RawSchedule, first: int, e: int) {
    Behind(s, first, e) && OpenIntervalsOnAndAfter(s, e) == []
  }

  ghost predicate Unstalled(s: RawSchedule, first: int, from: int, to: int) {
    forall e :: from <= e < to ==> !Stalls(s, first, e)
  }

  ghost predicate OverIfBefore(ws: seq<Window>, end: int, t: int) {
    forall w :: w in ws && w.start < end ==> w.end <= t
  }

  /** All windows of days [first, frontier) that start before `end` are over at the cursor. */
  ghost predicate Passed(s: RawSchedule, first: int, cursor: int, end: int, frontier: int) {
    && first <= s.dayOf(cursor) <= frontier
    && forall d :: first <= d < frontier ==> OverIfBefore(s.windows(d), end, cursor)
  }

  lemma PassedIsBehind(s: Schedule, first: int, cursor: int, end: int, frontier: int)
    requires Passed(s, first, cursor, end, frontier) && cursor <= end
    ensures Behind(s, first, cursor)
  {
    var before := s.dayOf(cursor) - 1;
    assert DayFits(s, before);
    assert first <= before ==> OverIfBefore(s.windows(before), end, cursor);
  }

  lemma PassedIsClosed(s: Schedule, first: int, cursor: int, end: int, frontier: int)
    requires Passed(s, first, cursor, end, frontier) && end <= s.dayStart(frontier)
    ensures ClosedBetween(Since(s, first), cursor, end)
  {
    forall t | cursor <= t < end ensures !OpenSince(s, first, t) {
      DayOfBefore(s, frontier, t);
      DayOfMonotone(s, cursor, t);
      CoversWitness(s.windows(s.dayOf(t)), t);
      CoversWitness(s.windows(s.dayOf(t) - 1), t);
    }
  }

  lemma FoundIsAhead(s: Schedule, first: int, cursor: int, end: int, frontier: int, found: int)
    requires View(Since(s, first), s, cursor, found) && Passed(s, first, cursor, end, frontier)
    requires cursor < end && Visible(s, cursor, end) != []
    ensures frontier <= found
  {
    ViewBefore(Since(s, first), s, cursor, found, end);
    var ws := Visible(s, cursor, end);
    assert ws[0] in ws;
    assert found < frontier ==> OverIfBefore(s.windows(found), end, cursor);
  }

  lemma StepStaysNear(s: Schedule, cursor: int, found: int, cursor': int)
    requires cursor <= cursor' <= Max(s.dayStart(found + 1), Closing(s, found))
    ensures s.dayOf(cursor) <= s.dayOf(cursor') <= found + 1
  {
    ClosingBounds(s, found);
    DayOfMonotone(s, cursor, cursor');
    assert InOrder(s, found + 1, found + 2);
    DayOfBefore(s, found + 2, cursor');
  }

  lemma FoundIsUsedUp(s: Schedule, first: int, cursor: int, end: int, found: int, cursor': int)
    requires View(Since(s, first), s, cursor, found)
    requires cursor <= cursor' < end && EndsBy(Visible(s, cursor, end), cursor')
    ensures OverIfBefore(s.windows(found), end, cursor')
  {
    ViewBefore(Since(s, first), s, cursor, found, end);
  }

  /** While a window the walk is counting lasts, it cannot stall. */
  lemma NoStallBefore(s: Schedule, first: int, cursor: int, found: int, to: int)
    requires first <= s.dayOf(cursor) <= found < s.dayOf(cursor) + LOOKAHEAD_DAYS
    requires exists w :: w in s.windows(found) && to <= w.end
    ensures Unstalled(s, first, cursor, to)
  {
    var w :| w in s.windows(found) && to <= w.end;
    forall e | cursor <= e < to ensures !Stalls(s, first, e) {
      DayOfMonotone(s, cursor, e);
      assert DayFits(s, found);
      DayOfBefore(s, found + 2, e);
      if s.dayOf(e) <= found {
        var d := LookupFinds(s, e, s.dayOf(e), LOOKAHEAD_DAYS);
        assert d <= found;
      }
    }
  }

  /** The counting walk can go on, and the days it may still walk reach the end. */
  ghost predicate Ready(s: RawSchedule, first: int, cursor: int, end: int, frontier: int, fuel: nat) {
    && cursor <= end <= s.dayStart(frontier + fuel)
    && (cursor < end ==> Passed(s, first, cursor, end, frontier))
  }

  /** What a step from the cursor to cursor' leaves behind: the windows of the days up to `found`. */
  ghost predicate Stepped(s: RawSchedule, cursor: int, end: int, found: int, cursor': int) {
    && cursor < cursor' <= end
    && s.dayOf(cursor) <= found < s.dayOf(cursor) + LOOKAHEAD_DAYS
    && s.dayOf(cursor) <= s.dayOf(cursor') <= found + 1
    && OverBefore(s, s.dayOf(cursor), found, cursor)
    && (exists w :: w in s.windows(found) && cursor' <= w.end)
    && (cursor' < end ==> OverIfBefore(s.windows(found), end, cursor'))
  }

  lemma StepTallies(s: Schedule, first: int, t: Tally, end: int, found: int)
    requires View(Since(s, first), s, t.cursor, found) && t.cursor < end && Visible(s, t.cursor, end) != []
    ensures
      var t' := Tallied(Visible(s, t.cursor, end), end, t);
      && t.cursor < t'.cursor <= Max(s.dayStart(found + 1), Closing(s, found)) && t'.cursor <= end
      && t'.total == t.total + RemainingBusinessMs(Since(s, first), t.cursor, t'.cursor)
      && (exists w :: w in s.windows(found) && t'.cursor <= w.end)
      && (t'.cursor < end ==> EndsBy(Visible(s, t.cursor, end), t'.cursor))
  {
    var c, ws := Since(s, first), Visible(s, t.cursor, end);
    ViewBefore(c, s, t.cursor, found, end);
    assert ws[0] in ws;
    TallyWalks(c, ws, end, t, Max(s.dayStart(found + 1), Closing(s, found)));
    TallyUsesUp(ws, end, t);
    CountEnds(c, ws, end, t);
  }

  lemma StepFinds(s: Schedule, first: int, cursor: int, end: int, frontier: int) returns (found: int)
    requires cursor < end && Passed(s, first, cursor, end, frontier) && Visible(s, cursor, end) != []
    ensures View(Since(s, first), s, cursor, found) && frontier <= found
  {
    PassedIsBehind(s, first, cursor, end, frontier);
    BehindFollows(Since(s, first), s, first, cursor, cursor);
    found := Sees(Since(s, first), s, cursor);
    FoundIsAhead(s, first, cursor, end, frontier, found);
  }

  lemma Steps(s: Schedule, first: int, t: Tally, end: int, frontier: int) returns (t': Tally, found: int)
    requires t.cursor < end && Passed(s, first, t.cursor, end, frontier) && Visible(s, t.cursor, end) != []
    ensures t' == Tallied(Visible(s, t.cursor, end), end, t)
    ensures t'.total == t.total + RemainingBusinessMs(Since(s, first), t.cursor, t'.cursor)
    ensures frontier <= found && Stepped(s, t.cursor, end, found, t'.cursor)
  {
    found := StepFinds(s, first, t.cursor, end, frontier);
    t' := Tallied(Visible(s, t.cursor, end), end, t);
    StepTallies(s, first, t, end, found);
    StepStaysNear(s, t.cursor, found, t'.cursor);
    if t'.cursor < end {
      FoundIsUsedUp(s, first, t.cursor, end, found, t'.cursor);
    }
  }

  lemma StepPasses(s: Schedule, first: int, cursor: int, end: int, frontier: int, found: int, cursor': int)
    requires Passed(s, first, cursor, end, frontier) && Stepped(s, cursor, end, found, cursor')
    requires frontier <= found && cursor' < end
    ensures Passed(s, first, cursor', end, found + 1)
  {
    forall d | first <= d < found + 1 ensures OverIfBefore(s.windows(d), end, cursor') {
      if d < frontier {
        assert OverIfBefore(s.windows(d), end, cursor);
      } else if d < found {
        assert EndsBy(s.windows(d), cursor);
      }
    }
  }

  lemma StepIsReady(s: Schedule, first: int, cursor: int, end: int, fuel: nat, frontier: int, found: int, cursor': int)
    requires cursor < end && fuel > 0 && Ready(s, first, cursor, end, frontier, fuel)
    requires frontier <= found && Stepped(s, cursor, end, found, cursor')
    ensures Ready(s, first, cursor', end, found + 1, fuel - 1)
  {
    DaysInOrder(s, frontier + fuel, found + 1 + (fuel - 1));
    if cursor' < end {
      StepPasses(s, first, cursor, end, frontier, found, cursor');
    }
  }

  /** One iteration that sees windows: it counts what it passes. */
  lemma CountStep(s: Schedule, first: int, t: Tally, end: int, fuel: nat, frontier: int)
    returns (t': Tally, frontier': int)
    requires t.cursor < end && fuel > 0 && Ready(s, first, t.cursor, end, frontier, fuel)
    requires Visible(s, t.cursor, end) != []
    ensures t.cursor < t'.cursor && Ready(s, first, t'.cursor, end, frontier', fuel - 1)
    ensures t'.total == t.total + RemainingBusinessMs(Since(s, first), t.cursor, t'.cursor)
    ensures Unstalled(s, first, t.cursor, t'.cursor)
    ensures CountFrom(s, t, end, fuel) == CountFrom(s, t', end, fuel - 1)
  {
    var found: int;
    t', found := Steps(s, first, t, end, frontier);
    frontier' := found + 1;
    StepIsReady(s, first, t.cursor, end, fuel, frontier, found, t'.cursor);
    NoStallBefore(s, first, t.cursor, found, t'.cursor);
  }

  /** Everything before `stop` has been counted, and nothing is ahead or the walk stalls there. */
  ghost predicate Stopped(s: RawSchedule, first: int, cursor: int, stop: int, end: int, counted: int) {
    && cursor <= stop <= end
    && counted == RemainingBusinessMs(Since(s, first), cursor, stop)
    && Unstalled(s, first, cursor, stop)
    && (ClosedBetween(Since(s, first), stop, end) || (stop < end && Stalls(s, first, stop)))
  }

  lemma StopsHere(s: Schedule, first: int, cursor: int, end: int, frontier: int)
    requires cursor < end && Passed(s, first, cursor, end, frontier) && Visible(s, cursor, end) == []
    ensures Stopped(s, first, cursor, cursor, end, 0)
  {
    PassedIsBehind(s, first, cursor, end, frontier);
    if OpenIntervalsOnAndAfter(s, cursor) != [] {
      BehindFollows(Since(s, first), s, first, cursor, cursor);
      NothingVisible(Since(s, first), s, cursor, end);
    }
  }

  lemma StopsLater(s: Schedule, first: int, cursor: int, next: int, stop: int, end: int, counted: int)
    requires cursor <= next && Unstalled(s, first, cursor, next) && Stopped(s, first, next, stop, end, counted)
    ensures Stopped(s, first, cursor, stop, end, RemainingBusinessMs(Since(s, first), cursor, next) + counted)
  {
    Split(Since(s, first), cursor, next, stop);
  }

  lemma {:induction false} CountWalks(s: Schedule, first: int, t: Tally, end: int, fuel: nat, frontier: int)
    returns (stop: int)
    requires Ready(s, first, t.cursor, end, frontier, fuel)
    ensures Stopped(s, first, t.cursor, stop, end, CountFrom(s, t, end, fuel) - t.total)
    decreases fuel
  {
    stop := t.cursor;
    if t.cursor < end {
      if fuel == 0 {
        PassedIsClosed(s, first, t.cursor, end, frontier);
      } else if Visible(s, t.cursor, end) == [] {
        StopsHere(s, first, t.cursor, end, frontier);
      } else {
        var t', frontier' := CountStep(s, first, t, end, fuel, frontier);
        stop := CountWalks(s, first, t', end, fuel - 1, frontier');
        StopsLater(s, first, t.cursor, t'.cursor, stop, end, CountFrom(s, t', end, fuel - 1) - t'.total);
      }
    }
  }

  lemma CountStops(s: Schedule, from: int, until: int) returns (stop: int)
    requires from < until <= s.dayStart(s.dayOf(from) + MAX_ITERATIONS)
    ensures Stopped(s, s.dayOf(from), from, stop, until, Counted(s, from, until))
  {
    stop := CountWalks(s, s.dayOf(from), Tally(from, 0), until, MAX_ITERATIONS, s.dayOf(from));
  }

  /** Business time the walk from `from` can count: through windows of from's day or later, and before any stall. */
  ghost predicate Countable(s: RawSchedule, from: int, u: int) {
    OpenSince(s, s.dayOf(from), u) && Unstalled(s, s.dayOf(from), from, u + 1)
  }

  /**
   Remaining time is the business time of the schedule exactly when every open instant of the span is
   countable, for every span the clock's iteration bound lets it walk.
   */
  lemma CountedIsRemainingIff(c: Calendar, s: Schedule, from: int, until: int)
    requires Means(c, s) && until <= s.dayStart(s.dayOf(from) + MAX_ITERATIONS)
    ensures Counted(s, from, until) == RemainingBusinessMs(c, from, until)
      <==> forall u :: from <= u < until && c.open(u) ==> Countable(s, from, u)
  {
    if from < until {
      var k := Since(s, s.dayOf(from));
      var stop := CountStops(s, from, until);
      SinceIsWithin(c, s, s.dayOf(from));
      SubCalendarCounts(k, c, from, stop);
      Split(c, from, stop, until);
      if forall u :: from <= u < until && c.open(u) ==> Countable(s, from, u) {
        AllCounted(c, s, from, stop, until);
      } else {
        var u :| from <= u < until && c.open(u) && !Countable(s, from, u);
        if stop <= u {
          OpenCounts(c, stop, u, until);
        } else {
          assert !k.open(u);
        }
      }
    }
  }

  lemma OpenCounts(c: Calendar, a: int, u: int, b: int)
    requires a <= u < b && c.open(u)
    ensures RemainingBusinessMs(c, a, b) > 0
  {
    CountsMonotone(c, a, u + 1, b);
  }

  lemma AllCounted(c: Calendar, s: Schedule, from: int, stop: int, until: int)
    requires from <= stop <= until
    requires forall u :: from <= u < until && c.open(u) ==> Countable(s, from, u)
    requires ClosedBetween(Since(s, s.dayOf(from)), stop, until) || (stop < until && Stalls(s, s.dayOf(from), stop))
    ensures forall u :: from <= u < stop && c.open(u) ==> Since(s, s.dayOf(from)).open(u)
    ensures RemainingBusinessMs(c, stop, until) == 0
  {
    forall u | stop <= u < until ensures !c.open(u) {
      assert !Since(s, s.dayOf(from)).open(u) || !Unstalled(s, s.dayOf(from), from, u + 1);
      assert !Countable(s, from, u);
    }
    ClosedCountsNothing(c, stop, until);
  }

  lemma NeverDarkNeverStalls(s: Schedule, first: int, e: int)
    requires NeverDark(s)
    ensures !Stalls(s, first, e)
  {
    var today := s.dayOf(e);
    assert OpenDayAhead(s, today);
    var d :| today < d < today + LOOKAHEAD_DAYS && s.windows(d) != [];
    var w := s.windows(d)[0];
    assert w in s.windows(d) && DayFits(s, d);
    DaysInOrder(s, today + 1, d);
    var found := LookupFinds(s, e, today, LOOKAHEAD_DAYS);
  }

  /** Where the lookahead always finds an open day, the count is the time open through from's own day or later. */
  lemma CountedIsSince(s: Schedule, from: int, until: int)
    requires NeverDark(s) && until <= s.dayStart(s.dayOf(from) + MAX_ITERATIONS)
    ensures Counted(s, from, until) == RemainingBusinessMs(Since(s, s.dayOf(from)), from, until)
  {
    if from < until {
      var k := Since(s, s.dayOf(from));
      var stop := CountStops(s, from, until);
      NeverDarkNeverStalls(s, s.dayOf(from), stop);
      ClosedCountsNothing(k, stop, until);
      Split(k, from, stop, until);
    }
  }

  /** So spilled hours are left out exactly of the counts that begin on the day they spill into. */
  lemma SpillIsNotCounted(c: Calendar, s: Schedule, from: int, until: int)
    requires Means(c, s) && NeverDark(s) && until <= s.dayStart(s.dayOf(from) + MAX_ITERATIONS)
    ensures Counted(s, from, until) == RemainingBusinessMs(c, from, until)
      <==> forall u :: from <= u < until && s.dayOf(u) == s.dayOf(from) ==> !OnlySpills(s, u)
  {
    CountedIsSince(s, from, until);
    SinceIsWithin(c, s, s.dayOf(from));
    SubCalendarCounts(Since(s, s.dayOf(from)), c, from, until);
    forall u | from <= u < until
      ensures (c.open(u) ==> Since(s, s.dayOf(from)).open(u)) <==> (s.dayOf(u) == s.dayOf(from) ==> !OnlySpills(s, u))
    {
      DayOfMonotone(s, from, u);
      assert c.open(u) <==> IsOpenAt(s, u);
    }
  }

  /** The count of a night's hours is whole when it begins before midnight and nothing when it begins after. */
  lemma OvernightCountsFromItsDay(c: Calendar, d: int, from: int)
    requires Means(c, Overnight()) && Night(d).start <= from < Night(d).end
    ensures RemainingBusinessMs(c, from, Night(d).end) == Night(d).end - from
    ensures Counted(Overnight(), from, Night(d).end) == if from < DAY_MS * (d + 1) then Night(d).end - from else 0
  {
    var s := Overnight();
    OvernightIsLit(s);
    forall u | from <= u < Night(d).end ensures c.open(u) && (OpenSince(s, s.dayOf(from), u) <==> s.dayOf(from) == d) {
      NightDay(d, from);
      DayOfMonotone(s, from, u);
      NightIsOpen(s, d, u, s.dayOf(from));
    }
    OpenCountsAll(c, from, Night(d).end);
    DaysInOrder(s, s.dayOf(from) + 1, s.dayOf(from) + MAX_ITERATIONS);
    CountedIsSince(s, from, Night(d).end);
    if s.dayOf(from) == d {
      OpenCountsAll(Since(s, d), from, Night(d).end);
    } else {
      ClosedCountsNothing(Since(s, s.dayOf(from)), from, Night(d).end);
    }
  }

  lemma OvernightIsLit(s: Schedule)
    requires s == Overnight()
    ensures NeverDark(s)
  {
    forall d ensures OpenDayAhead(s, d) {
      assert s.windows(d + 1) != [];
    }
  }

  lemma CoversOne(w: Window, t: int)
    ensures Covers([w], t) <==> w.start <= t < w.end
  {
    assert [w][1..] == [];
  }

  lemma NightDay(d: int, u: int)
    requires Night(d).start <= u < Night(d).end
    ensures Overnight().dayOf(u) == if u < DAY_MS * (d + 1) then d else d + 1
  {
  }

  lemma NightIsOpen(s: Schedule, d: int, u: int, first: int)
    requires s == Overnight() && Night(d).start <= u < Night(d).end && first <= s.dayOf(u)
    ensures IsOpenAt(s, u) && (OpenSince(s, first, u) <==> first <= d)
  {
    NightDay(d, u);
    CoversOne(Night(d), u);
    CoversOne(Night(d + 1), u);
    assert s.windows(d) == [Night(d)];
    assert u >= DAY_MS * (d + 1) ==> s.windows(d + 1) == [Night(d + 1)];
  }
}
