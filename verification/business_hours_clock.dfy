/**
 The business-hours clock itself: local days, each with its opening windows in UTC
 milliseconds, walked day by day. Time zones and HH:mm parsing are behind `dayStart`,
 `dayOf` and `windows`; the walking, its bounds and its errors are the clock's own.
 */
module BusinessHoursClock {
  import opened Wrappers
  import opened BusinessCalendar

  const LOOKAHEAD_DAYS: nat := 400
  const MAX_ITERATIONS: nat := 50_000

  datatype Window = Window(start: int, end: int)

  datatype RawSchedule = RawSchedule(dayStart: int -> int, dayOf: int -> int, windows: int -> seq<Window>)

  datatype ClockError = NegativeAmount | NoOpenWindows | IterationBound

  // ------------------------------------------------------------------
  // Schedules
  // ------------------------------------------------------------------

  ghost predicate SortedWindows(ws: seq<Window>) {
    && (forall k :: 0 <= k < |ws| ==> ws[k].start < ws[k].end)
    && (forall j, k :: 0 <= j < k < |ws| ==> ws[j].start <= ws[k].start)
  }

  ghost predicate InOrder(s: RawSchedule, d: int, e: int) {
    d < e ==> s.dayStart(d) < s.dayStart(e)
  }

  /** Windows start on their day and may run into the next one, but not to its end. */
  ghost predicate DayFits(s: RawSchedule, d: int) {
    && SortedWindows(s.windows(d))
    && forall w :: w in s.windows(d) ==>
         s.dayStart(d) <= w.start < s.dayStart(d + 1) && w.start < w.end < s.dayStart(d + 2)
  }

  /** Local days tile the time line, and each has fitting windows, sorted by their start. */
  ghost predicate Tiled(s: RawSchedule) {
    && (forall d, e :: InOrder(s, d, e))
    && (forall t {:trigger s.dayOf(t)} :: s.dayStart(s.dayOf(t)) <= t < s.dayStart(s.dayOf(t) + 1))
    && (forall d {:trigger s.windows(d)} {:trigger DayFits(s, d)} :: DayFits(s, d))
  }

  const DAY_MS := 86_400_000
  const HOUR_MS := 3_600_000

  /** One window each day, on days of 24 hours. */
  function Nightly(opens: nat, closes: nat): (s: RawSchedule)
    requires opens < DAY_MS && opens < closes < 2 * DAY_MS
    ensures Tiled(s)
  {
    var s := RawSchedule(d => DAY_MS * d, t => t / DAY_MS, d => [Window(DAY_MS * d + opens, DAY_MS * d + closes)]);
    EvenDays(s, opens, closes);
    s
  }

  lemma EvenDays(s: RawSchedule, opens: nat, closes: nat)
    requires opens < DAY_MS && opens < closes < 2 * DAY_MS
    requires forall d {:trigger s.dayStart(d)} :: s.dayStart(d) == DAY_MS * d
    requires forall t {:trigger s.dayOf(t)} :: s.dayOf(t) == t / DAY_MS
    requires forall d {:trigger s.windows(d)} :: s.windows(d) == [Window(DAY_MS * d + opens, DAY_MS * d + closes)]
    ensures Tiled(s)
  {
    forall d ensures DayFits(s, d) {
      assert s.windows(d) == [Window(DAY_MS * d + opens, DAY_MS * d + closes)];
    }
    forall d, e ensures InOrder(s, d, e) {
      assert s.dayStart(d) == DAY_MS * d && s.dayStart(e) == DAY_MS * e;
    }
  }

  /** A schedule the clock can be given. */
  type Schedule = s: RawSchedule | Tiled(s) witness Nightly(0, DAY_MS)

  predicate Covers(ws: seq<Window>, t: int) {
    ws != [] && (ws[0].start <= t < ws[0].end || Covers(ws[1..], t))
  }

  predicate IsOpenAt(s: RawSchedule, t: int) {
    Covers(s.windows(s.dayOf(t) - 1), t) || Covers(s.windows(s.dayOf(t)), t)
  }

  /** The calendar has the schedule's business time. */
  ghost predicate Means(c: Calendar, s: RawSchedule) {
    forall t {:trigger IsOpenAt(s, t)} :: c.open(t) <==> IsOpenAt(s, t)
  }

  /** The last instant of a set of windows, or `floor` if that is later. */
  function LatestEnd(ws: seq<Window>, floor: int): (e: int)
    ensures floor <= e && forall w :: w in ws ==> w.end <= e
    ensures e == floor || exists w :: w in ws && w.end == e
  {
    if ws == [] then floor
    else
      assert ws == [ws[0]] + ws[1..];
      Max(ws[0].end, LatestEnd(ws[1..], floor))
  }

  /** When the windows of day d are over. */
  function Closing(s: RawSchedule, d: int): int {
    LatestEnd(s.windows(d), s.dayStart(d))
  }

  /** If day d runs to midnight or past it, the windows of the day after are over by then. */
  predicate SafeJump(s: RawSchedule, d: int) {
    s.dayStart(d + 1) <= Closing(s, d) ==> Closing(s, d + 1) <= Closing(s, d)
  }

  ghost predicate SafeJumps(s: RawSchedule) {
    forall d :: SafeJump(s, d)
  }

  /** Open only through a window of the day before. */
  predicate OnlySpills(s: RawSchedule, t: int) {
    Covers(s.windows(s.dayOf(t) - 1), t) && !Covers(s.windows(s.dayOf(t)), t)
  }

  ghost predicate NothingSpills(s: RawSchedule) {
    forall t :: !OnlySpills(s, t)
  }

  /** Some later instant of the same day is open only through a window of the day before. */
  ghost predicate SpillAhead(s: RawSchedule, t: int) {
    exists u :: t <= u < s.dayStart(s.dayOf(t) + 1) && OnlySpills(s, u)
  }

  ghost predicate OpenDayAhead(s: RawSchedule, d: int) {
    exists e :: d < e < d + LOOKAHEAD_DAYS && s.windows(e) != []
  }

  /** The lookahead always meets an open day. */
  ghost predicate NeverDark(s: RawSchedule) {
    forall d :: OpenDayAhead(s, d)
  }

  /** Open from 22:00 to 06:00 every night. */
  function Overnight(): (s: Schedule) {
    Nightly(22 * HOUR_MS, 30 * HOUR_MS)
  }

  function Night(d: int): Window {
    Window(DAY_MS * d + 22 * HOUR_MS, DAY_MS * d + 30 * HOUR_MS)
  }

  // ------------------------------------------------------------------
  // The walk
  // ------------------------------------------------------------------

  function Ahead(ws: seq<Window>, cursor: int): seq<Window> {
    if ws == [] then []
    else if ws[0].end > cursor then [ws[0]] + Ahead(ws[1..], cursor)
    else Ahead(ws[1..], cursor)
  }

  function StartingBefore(ws: seq<Window>, end: int): seq<Window> {
    if ws == [] then []
    else if ws[0].start < end then [ws[0]] + StartingBefore(ws[1..], end)
    else StartingBefore(ws[1..], end)
  }

  function Lookup(s: RawSchedule, cursor: int, day: int, left: nat): seq<Window>
    decreases left, cursor
  {
    if left == 0 then []
    else if Ahead(s.windows(day), cursor) != [] then Ahead(s.windows(day), cursor)
    else Lookup(s, cursor, day + 1, left - 1)
  }

  function OpenIntervalsOnAndAfter(s: RawSchedule, cursor: int): seq<Window> {
    Lookup(s, cursor, s.dayOf(cursor), LOOKAHEAD_DAYS)
  }

  function Visible(s: RawSchedule, cursor: int, end: int): seq<Window> {
    StartingBefore(OpenIntervalsOnAndAfter(s, cursor), end)
  }

  function Max(a: int, b: int): int { if a > b then a else b }

  function Min(a: int, b: int): int { if a < b then a else b }

  datatype Progress = Done(at: int) | Left(cursor: int, remaining: int)

  function Consume(ws: seq<Window>, cursor: int, remaining: int): Progress {
    if ws == [] then Left(cursor, remaining)
    else
      var openStart := Max(ws[0].start, cursor);
      if openStart >= ws[0].end then Consume(ws[1..], cursor, remaining)
      else if remaining <= ws[0].end - openStart then Done(openStart + remaining)
      else Consume(ws[1..], ws[0].end, remaining - (ws[0].end - openStart))
  }

  /** Midnight after the local day the walk stopped in. */
  function NextDay(s: RawSchedule, cursor: int): int {
    s.dayStart(s.dayOf(cursor) + 1)
  }

  function AddFrom(s: RawSchedule, cursor: int, remaining: int, fuel: nat): Result<int, ClockError>
    decreases fuel, cursor
  {
    if fuel == 0 then Err(IterationBound)
    else
      var intervals := OpenIntervalsOnAndAfter(s, cursor);
      if intervals == [] then Err(NoOpenWindows)
      else
        match Consume(intervals, cursor, remaining)
        case Done(at) => Ok(at)
        case Left(last, rest) => AddFrom(s, NextDay(s, last), rest, fuel - 1)
  }

  function Added(s: RawSchedule, start: int, businessMs: int): Result<int, ClockError> {
    if businessMs < 0 then Err(NegativeAmount)
    else if businessMs == 0 then Ok(start)
    else AddFrom(s, start, businessMs, MAX_ITERATIONS)
  }

  datatype Tally = Tally(cursor: int, total: int)

  function Tallied(ws: seq<Window>, end: int, t: Tally): Tally {
    if ws == [] || t.cursor >= end then t
    else
      var openStart, openEnd := Max(ws[0].start, t.cursor), Min(ws[0].end, end);
      Tallied(ws[1..], end, if openStart < openEnd then Tally(openEnd, t.total + openEnd - openStart) else t)
  }

  function CountFrom(s: RawSchedule, t: Tally, end: int, fuel: nat): int
    decreases fuel, end
  {
    if fuel == 0 || t.cursor >= end then t.total
    else
      var intervals := Visible(s, t.cursor, end);
      if intervals == [] then t.total
      else
        var t' := Tallied(intervals, end, t);
        CountFrom(s, if t'.cursor == t.cursor then Tally(NextDay(s, t.cursor), t.total) else t', end, fuel - 1)
  }

  function Counted(s: RawSchedule, from: int, until: int): int {
    if until <= from then 0 else CountFrom(s, Tally(from, 0), until, MAX_ITERATIONS)
  }

  // ------------------------------------------------------------------
  // The clock
  // ------------------------------------------------------------------

  class Clock {
    const schedule: RawSchedule

    constructor (schedule: RawSchedule)
      ensures this.schedule == schedule
    {
      this.schedule := schedule;
    }

    method OpenIntervals(cursor: int) returns (results: seq<Window>)
      ensures results == OpenIntervalsOnAndAfter(schedule, cursor)
    {
      results := [];
      var day := schedule.dayOf(cursor);
      for d := 0 to LOOKAHEAD_DAYS
        invariant results == []
        invariant Lookup(schedule, cursor, schedule.dayOf(cursor), LOOKAHEAD_DAYS)
               == Lookup(schedule, cursor, day, LOOKAHEAD_DAYS - d)
      {
        var dayIntervals := schedule.windows(day);
        for k := 0 to |dayIntervals|
          invariant results + Ahead(dayIntervals[k..], cursor) == Ahead(dayIntervals, cursor)
        {
          if dayIntervals[k].end > cursor {
            results := results + [dayIntervals[k]];
          }
        }
        if |results| > 0 {
          return;
        }
        day := day + 1;
      }
    }

    method OpenIntervalsUntil(cursor: int, until: int) returns (results: seq<Window>)
      ensures results == Visible(schedule, cursor, until)
    {
      var open := OpenIntervals(cursor);
      results := [];
      for k := 0 to |open|
        invariant results + StartingBefore(open[k..], until) == StartingBefore(open, until)
      {
        if open[k].start < until {
          results := results + [open[k]];
        }
      }
    }

    method AddBusinessMs(start: int, businessMs: int) returns (r: Result<int, ClockError>)
      ensures r == Added(schedule, start, businessMs)
    {
      if businessMs < 0 {
        return Err(NegativeAmount);
      }
      if businessMs == 0 {
        return Ok(start);
      }
      var remaining, cursor := businessMs, start;
      for i := 0 to MAX_ITERATIONS
        invariant AddFrom(schedule, start, businessMs, MAX_ITERATIONS)
               == AddFrom(schedule, cursor, remaining, MAX_ITERATIONS - i)
      {
        var intervals := OpenIntervals(cursor);
        if |intervals| == 0 {
          return Err(NoOpenWindows);
        }
        ghost var cursor0, remaining0 := cursor, remaining;
        for k := 0 to |intervals|
          invariant Consume(intervals, cursor0, remaining0) == Consume(intervals[k..], cursor, remaining)
        {
          var interval := intervals[k];
          var openStart := if interval.start > cursor then interval.start else cursor;
          if openStart < interval.end {
            var available := interval.end - openStart;
            if remaining <= available {
              return Ok(openStart + remaining);
            }
            remaining := remaining - available;
            cursor := interval.end;
          }
        }
        cursor := schedule.dayStart(schedule.dayOf(cursor) + 1);
      }
      return Err(IterationBound);
    }

    /** The inner loop of remainingBusinessMs. */
    method PassIntervals(intervals: seq<Window>, until: int, from: int, before: int) returns (cursor: int, total: int)
      ensures Tallied(intervals, until, Tally(from, before)) == Tally(cursor, total)
      ensures from <= cursor && (cursor == from ==> total == before)
    {
      cursor, total := from, before;
      for k := 0 to |intervals|
        invariant Tallied(intervals, until, Tally(from, before)) == Tallied(intervals[k..], until, Tally(cursor, total))
        invariant from <= cursor && (cursor == from ==> total == before)
      {
        if cursor >= until {
          return;
        }
        var openStart := if intervals[k].start > cursor then intervals[k].start else cursor;
        var openEnd := if intervals[k].end < until then intervals[k].end else until;
        if openStart < openEnd {
          total := total + openEnd - openStart;
          cursor := openEnd;
        }
      }
    }

    method RemainingBusinessMs(from: int, until: int) returns (total: int)
      ensures total == Counted(schedule, from, until)
    {
      total := 0;
      if until <= from {
        return;
      }
      var cursor := from;
      var i := 0;
      while i < MAX_ITERATIONS && cursor < until
        invariant i <= MAX_ITERATIONS
        invariant CountFrom(schedule, Tally(from, 0), until, MAX_ITERATIONS)
               == CountFrom(schedule, Tally(cursor, total), until, MAX_ITERATIONS - i)
      {
        var intervals := OpenIntervalsUntil(cursor, until);
        if |intervals| == 0 {
          break;
        }
        var before := cursor;
        cursor, total := PassIntervals(intervals, until, cursor, total);
        if cursor == before {
          cursor := schedule.dayStart(schedule.dayOf(cursor) + 1);
        }
        i := i + 1;
      }
    }
  }
}
