/**
 What one lookup of the clock sees, and how a day's windows are walked.
 */
module ClockLookups {
  import opened BusinessCalendar
  import opened BusinessHoursClock

  // ------------------------------------------------------------------
  // What one look ahead sees
  // ------------------------------------------------------------------

  /** On [from, to) exactly the windows ws are open. */
  ghost predicate Shows(c: Calendar, ws: seq<Window>, from: int, to: int) {
    forall t :: from <= t < to ==> (c.open(t) <==> Covers(ws, t))
  }

  ghost predicate EndsBy(ws: seq<Window>, t: int) {
    forall w :: w in ws ==> w.end <= t
  }

  lemma {:induction false} CoversWitness(ws: seq<Window>, t: int)
    ensures Covers(ws, t) <==> exists w :: w in ws && w.start <= t < w.end
  {
    if ws != [] {
      assert ws == [ws[0]] + ws[1..];
      CoversWitness(ws[1..], t);
    }
  }

  lemma {:induction false} AheadCovers(ws: seq<Window>, cursor: int, t: int)
    requires cursor <= t
    ensures Covers(ws, t) <==> Covers(Ahead(ws, cursor), t)
  {
    if ws != [] {
      AheadCovers(ws[1..], cursor, t);
      assert ([ws[0]] + Ahead(ws[1..], cursor))[1..] == Ahead(ws[1..], cursor);
    }
  }

  lemma {:induction false} AheadKeeps(ws: seq<Window>, cursor: int)
    ensures forall w :: w in Ahead(ws, cursor) <==> w in ws && w.end > cursor
  {
    if ws != [] {
      assert ws == [ws[0]] + ws[1..];
      AheadKeeps(ws[1..], cursor);
    }
  }

  lemma {:induction false} AheadSorted(ws: seq<Window>, cursor: int)
    requires SortedWindows(ws)
    ensures SortedWindows(Ahead(ws, cursor))
  {
    if ws != [] {
      AheadSorted(ws[1..], cursor);
      AheadKeeps(ws[1..], cursor);
      SortedCons(ws, Ahead(ws[1..], cursor));
    }
  }

  lemma SortedCons(ws: seq<Window>, rest: seq<Window>)
    requires ws != [] && SortedWindows(ws) && SortedWindows(rest)
    requires forall w :: w in rest ==> w in ws[1..]
    ensures SortedWindows([ws[0]] + rest)
  {
    forall k | 0 <= k < |rest| ensures ws[0].start <= rest[k].start {
      assert rest[k] in ws[1..];
    }
  }

  lemma {:induction false} StartingBeforeCovers(ws: seq<Window>, end: int, t: int)
    requires t < end
    ensures Covers(ws, t) <==> Covers(StartingBefore(ws, end), t)
  {
    if ws != [] {
      StartingBeforeCovers(ws[1..], end, t);
      assert ([ws[0]] + StartingBefore(ws[1..], end))[1..] == StartingBefore(ws[1..], end);
    }
  }

  lemma {:induction false} StartingBeforeSorted(ws: seq<Window>, end: int)
    requires SortedWindows(ws)
    ensures SortedWindows(StartingBefore(ws, end))
    ensures forall w :: w in StartingBefore(ws, end) <==> w in ws && w.start < end
  {
    if ws != [] {
      assert ws == [ws[0]] + ws[1..];
      StartingBeforeSorted(ws[1..], end);
      SortedCons(ws, StartingBefore(ws[1..], end));
    }
  }

  lemma DaysInOrder(s: Schedule, d: int, e: int)
    requires d <= e
    ensures s.dayStart(d) <= s.dayStart(e)
  {
    assert InOrder(s, d, e);
  }

  lemma DayOfIs(s: Schedule, d: int, t: int)
    requires s.dayStart(d) <= t < s.dayStart(d + 1)
    ensures s.dayOf(t) == d
  {
    assert InOrder(s, d + 1, s.dayOf(t)) && InOrder(s, s.dayOf(t) + 1, d);
  }

  lemma DayOfMonotone(s: Schedule, t: int, u: int)
    requires t <= u
    ensures s.dayOf(t) <= s.dayOf(u)
  {
    assert InOrder(s, s.dayOf(u) + 1, s.dayOf(t));
  }

  lemma DayOfBefore(s: Schedule, d: int, t: int)
    requires t < s.dayStart(d)
    ensures s.dayOf(t) < d
  {
    assert InOrder(s, d, s.dayOf(t));
  }

  lemma ClosingBounds(s: Schedule, d: int)
    ensures s.dayStart(d) <= Closing(s, d) < s.dayStart(d + 2)
    ensures EndsBy(s.windows(d), Closing(s, d))
    ensures s.windows(d) != [] ==> exists w :: w in s.windows(d) && w.end == Closing(s, d)
  {
    assert DayFits(s, d);
    assert InOrder(s, d, d + 2);
    if s.windows(d) != [] {
      assert s.windows(d)[0] in s.windows(d);
    }
  }

  /** The windows of days [from, to) are over at t. */
  ghost predicate OverBefore(s: RawSchedule, from: int, to: int, t: int) {
    forall d :: from <= d < to ==> EndsBy(s.windows(d), t)
  }

  /** The day whose windows a lookup returns: the first with a window that ends after the cursor. */
  lemma {:induction false} LookupFinds(s: RawSchedule, cursor: int, day: int, left: nat) returns (found: int)
    ensures day <= found <= day + left
    ensures OverBefore(s, day, found, cursor)
    ensures Lookup(s, cursor, day, left) == [] <==> found == day + left
    ensures found < day + left ==> Lookup(s, cursor, day, left) == Ahead(s.windows(found), cursor)
    decreases left
  {
    found := day;
    if left > 0 && Ahead(s.windows(day), cursor) == [] {
      AheadKeeps(s.windows(day), cursor);
      assert EndsBy(s.windows(day), cursor);
      found := LookupFinds(s, cursor, day + 1, left - 1);
    }
  }

  // ------------------------------------------------------------------
  // Which business time the walk knows of
  // ------------------------------------------------------------------

  /** Open through a window of day `first` or a later one. */
  predicate OpenSince(s: RawSchedule, first: int, t: int) {
    || (first <= s.dayOf(t) && Covers(s.windows(s.dayOf(t)), t))
    || (first < s.dayOf(t) && Covers(s.windows(s.dayOf(t) - 1), t))
  }

  function Since(s: RawSchedule, first: int): Calendar {
    Calendar(t => OpenSince(s, first, t), t => t)
  }

  /** From the cursor on, the calendar is open through the windows of day `first` and later. */
  ghost predicate Follows(c: Calendar, s: RawSchedule, first: int, cursor: int) {
    forall t :: cursor <= t ==> (c.open(t) <==> OpenSince(s, first, t))
  }

  /** No window of a day from `first` up to the day before the cursor's is still open. */
  ghost predicate Behind(s: RawSchedule, first: int, cursor: int) {
    first <= s.dayOf(cursor) && (first < s.dayOf(cursor) ==> EndsBy(s.windows(s.dayOf(cursor) - 1), cursor))
  }

  lemma BehindFollows(c: Calendar, s: Schedule, first: int, cursor: int, next: int)
    requires Follows(c, s, first, cursor) && cursor <= next && Behind(s, first, next)
    ensures Follows(c, s, s.dayOf(next), next)
  {
    forall t | next <= t ensures OpenSince(s, first, t) <==> OpenSince(s, s.dayOf(next), t) {
      DayOfMonotone(s, next, t);
      CoversWitness(s.windows(s.dayOf(t) - 1), t);
    }
  }

  /** A start with no spill ahead sees the whole calendar. */
  lemma NoSpillFollows(c: Calendar, s: Schedule, t: int)
    requires Means(c, s) && !SpillAhead(s, t)
    ensures Follows(c, s, s.dayOf(t), t)
  {
    forall u | t <= u ensures c.open(u) <==> OpenSince(s, s.dayOf(t), u) {
      DayOfMonotone(s, t, u);
      assert c.open(u) <==> IsOpenAt(s, u);
      if s.dayOf(u) == s.dayOf(t) {
        assert !OnlySpills(s, u);
      }
    }
  }

  lemma SinceIsWithin(c: Calendar, s: Schedule, first: int)
    requires Means(c, s)
    ensures forall u :: Since(s, first).open(u) ==> c.open(u)
  {
    forall u | Since(s, first).open(u) ensures c.open(u) {
      assert IsOpenAt(s, u);
    }
  }

  lemma {:induction false} SubCalendarCounts(k: Calendar, c: Calendar, a: int, b: int)
    requires forall u :: a <= u < b && k.open(u) ==> c.open(u)
    ensures RemainingBusinessMs(k, a, b) <= RemainingBusinessMs(c, a, b)
    ensures RemainingBusinessMs(k, a, b) == RemainingBusinessMs(c, a, b)
      <==> forall u :: a <= u < b && c.open(u) ==> k.open(u)
    decreases b - a
  {
    if a < b {
      SubCalendarCounts(k, c, a, b - 1);
    }
  }

  /** What the clock sees from an instant: the windows of the next open day, until they are over. */
  ghost predicate View(c: Calendar, s: Schedule, cursor: int, found: int) {
    var ws := OpenIntervalsOnAndAfter(s, cursor);
    var to := Max(s.dayStart(found + 1), Closing(s, found));
    && s.dayOf(cursor) <= found < s.dayOf(cursor) + LOOKAHEAD_DAYS
    && OverBefore(s, s.dayOf(cursor), found, cursor)
    && ws == Ahead(s.windows(found), cursor)
    && ws != []
    && SortedWindows(ws)
    && (forall w :: w in ws <==> w in s.windows(found) && cursor < w.end)
    && Shows(c, ws, cursor, to)
  }

  lemma NotOpenSince(s: RawSchedule, first: int, t: int)
    requires EndsBy(s.windows(s.dayOf(t)), t)
    requires first < s.dayOf(t) ==> EndsBy(s.windows(s.dayOf(t) - 1), t)
    ensures !OpenSince(s, first, t)
  {
    CoversWitness(s.windows(s.dayOf(t)), t);
    CoversWitness(s.windows(s.dayOf(t) - 1), t);
  }

  lemma StillDark(s: Schedule, cursor: int, found: int, t: int)
    requires OverBefore(s, s.dayOf(cursor), found, cursor) && cursor <= t < s.dayStart(found)
    ensures !OpenSince(s, s.dayOf(cursor), t)
  {
    DayOfMonotone(s, cursor, t);
    DayOfBefore(s, found, t);
    NotOpenSince(s, s.dayOf(cursor), t);
  }

  lemma OpenOnDay(s: Schedule, cursor: int, found: int, t: int)
    requires OverBefore(s, s.dayOf(cursor), found, cursor) && s.dayOf(cursor) <= found
    requires cursor <= t && s.dayStart(found) <= t < s.dayStart(found + 1)
    ensures OpenSince(s, s.dayOf(cursor), t) <==> Covers(s.windows(found), t)
  {
    DayOfIs(s, found, t);
    CoversWitness(s.windows(found - 1), t);
  }

  /** Past midnight, and until they are over, a day's windows cover everything. */
  lemma OpenPastMidnight(s: Schedule, first: int, found: int, t: int)
    requires first <= found && s.dayStart(found + 1) <= t < Closing(s, found)
    ensures OpenSince(s, first, t) && Covers(s.windows(found), t)
  {
    ClosingBounds(s, found);
    DayOfIs(s, found + 1, t);
    CoversWitness(s.windows(found), t);
    assert InOrder(s, found, found + 1) && DayFits(s, found);
  }

  lemma ShownAhead(s: Schedule, cursor: int, found: int, t: int)
    requires s.dayOf(cursor) <= found && OverBefore(s, s.dayOf(cursor), found, cursor)
    requires cursor <= t < Max(s.dayStart(found + 1), Closing(s, found))
    ensures OpenSince(s, s.dayOf(cursor), t) <==> Covers(Ahead(s.windows(found), cursor), t)
  {
    AheadCovers(s.windows(found), cursor, t);
    if t < s.dayStart(found) {
      StillDark(s, cursor, found, t);
      CoversWitness(s.windows(found), t);
    } else if t < s.dayStart(found + 1) {
      OpenOnDay(s, cursor, found, t);
    } else {
      OpenPastMidnight(s, s.dayOf(cursor), found, t);
    }
  }

  lemma ViewFrom(c: Calendar, s: Schedule, cursor: int, found: int)
    requires Follows(c, s, s.dayOf(cursor), cursor)
    requires s.dayOf(cursor) <= found < s.dayOf(cursor) + LOOKAHEAD_DAYS
    requires OverBefore(s, s.dayOf(cursor), found, cursor)
    requires OpenIntervalsOnAndAfter(s, cursor) == Ahead(s.windows(found), cursor) != []
    ensures View(c, s, cursor, found)
  {
    AheadKeeps(s.windows(found), cursor);
    AheadSorted(s.windows(found), cursor);
    forall t | cursor <= t < Max(s.dayStart(found + 1), Closing(s, found))
      ensures c.open(t) <==> Covers(Ahead(s.windows(found), cursor), t)
    {
      ShownAhead(s, cursor, found, t);
    }
  }

  lemma Sees(c: Calendar, s: Schedule, cursor: int) returns (found: int)
    requires Follows(c, s, s.dayOf(cursor), cursor) && OpenIntervalsOnAndAfter(s, cursor) != []
    ensures View(c, s, cursor, found)
  {
    found := LookupFinds(s, cursor, s.dayOf(cursor), LOOKAHEAD_DAYS);
    ViewFrom(c, s, cursor, found);
  }

  lemma DarkUntil(c: Calendar, s: Schedule, cursor: int, found: int)
    requires Follows(c, s, s.dayOf(cursor), cursor) && OverBefore(s, s.dayOf(cursor), found, cursor)
    ensures ClosedBetween(c, cursor, s.dayStart(found))
  {
    forall t | cursor <= t < s.dayStart(found) ensures !c.open(t) {
      StillDark(s, cursor, found, t);
    }
  }

  /** A fruitless lookup means that nothing opens for that many days. */
  lemma SeesNothing(c: Calendar, s: Schedule, cursor: int)
    requires Follows(c, s, s.dayOf(cursor), cursor) && OpenIntervalsOnAndAfter(s, cursor) == []
    ensures ClosedBetween(c, cursor, s.dayStart(s.dayOf(cursor) + LOOKAHEAD_DAYS))
  {
    var found := LookupFinds(s, cursor, s.dayOf(cursor), LOOKAHEAD_DAYS);
    DarkUntil(c, s, cursor, found);
  }

  // ------------------------------------------------------------------
  // Walking one day
  // ------------------------------------------------------------------

  lemma {:induction false} OpenCountsAll(c: Calendar, a: int, b: int)
    requires a <= b && forall t :: a <= t < b ==> c.open(t)
    ensures RemainingBusinessMs(c, a, b) == b - a
    decreases b - a
  {
    if a < b {
      OpenCountsAll(c, a, b - 1);
    }
  }

  lemma {:induction false} NothingBeforeFirst(ws: seq<Window>, t: int)
    requires SortedWindows(ws) && (ws != [] ==> t < ws[0].start)
    ensures !Covers(ws, t)
  {
    if ws != [] {
      NothingBeforeFirst(ws[1..], t);
    }
  }

  /** Business time from the cursor on is dark up to `openStart` and then unbroken up to `openEnd`. */
  ghost predicate Stretch(c: Calendar, cursor: int, openStart: int, openEnd: int) {
    && cursor <= openStart < openEnd
    && ClosedBetween(c, cursor, openStart)
    && forall t :: openStart <= t < openEnd ==> c.open(t)
  }

  lemma NextStretch(c: Calendar, ws: seq<Window>, cursor: int, to: int)
    requires SortedWindows(ws) && ws != [] && Shows(c, ws, cursor, to)
    ensures
      var openStart, openEnd := Max(ws[0].start, cursor), Min(ws[0].end, to);
      && (openStart < openEnd ==>
            Stretch(c, cursor, openStart, openEnd) && Shows(c, ws[1..], openEnd, to))
      && (openStart >= ws[0].end ==> Shows(c, ws[1..], cursor, to))
  {
    var openStart, openEnd := Max(ws[0].start, cursor), Min(ws[0].end, to);
    if openStart < openEnd {
      forall t | cursor <= t < openStart ensures !c.open(t) {
        NothingBeforeFirst(ws, t);
      }
    }
  }

  lemma StretchCounts(c: Calendar, cursor: int, openStart: int, openEnd: int, v: int)
    requires Stretch(c, cursor, openStart, openEnd) && cursor <= v <= openEnd
    ensures RemainingBusinessMs(c, cursor, v) == Max(0, v - openStart)
  {
    if v <= openStart {
      ClosedCountsNothing(c, cursor, v);
    } else {
      ClosedCountsNothing(c, cursor, openStart);
      OpenCountsAll(c, openStart, v);
      Split(c, cursor, openStart, v);
    }
  }

  lemma ReachedInside(c: Calendar, cursor: int, openStart: int, openEnd: int, n: int)
    requires Stretch(c, cursor, openStart, openEnd) && 0 < n <= openEnd - openStart
    ensures Earliest(c, cursor, n, openStart + n)
  {
    forall v | cursor <= v <= openStart + n
      ensures RemainingBusinessMs(c, cursor, v) == Max(0, v - openStart)
    {
      StretchCounts(c, cursor, openStart, openEnd, v);
    }
  }

  lemma EarliestAfter(c: Calendar, a: int, m: int, n: nat, u: int)
    requires a <= m && RemainingBusinessMs(c, a, m) < n
    requires Earliest(c, m, n - RemainingBusinessMs(c, a, m), u)
    ensures Earliest(c, a, n, u)
  {
    Split(c, a, m, u);
    forall v | a <= v < u ensures RemainingBusinessMs(c, a, v) < n {
      if v <= m {
        CountsMonotone(c, a, v, m);
      } else {
        Split(c, a, m, v);
      }
    }
  }

  /** A day's windows either lead to the instant or are used up, with the rest of the day dark. */
  ghost predicate Walked(c: Calendar, ws: seq<Window>, cursor: int, n: int, to: int, p: Progress)
    requires n >= 0
  {
    match p
    case Done(at) => at <= to && Earliest(c, cursor, n, at)
    case Left(last, rest) =>
      && cursor <= last <= to && 0 < rest
      && RemainingBusinessMs(c, cursor, last) == n - rest
      && ClosedBetween(c, last, to)
      && (last == cursor || exists w :: w in ws && w.end == last)
      && EndsBy(ws, last)
  }

  /** The first window is behind the cursor, or what is open first ends with it. */
  lemma FirstWindow(c: Calendar, ws: seq<Window>, cursor: int, to: int)
    requires SortedWindows(ws) && Shows(c, ws, cursor, to) && ws != [] && EndsBy(ws, to)
    ensures
      var w, openStart := ws[0], Max(ws[0].start, cursor);
      if w.end <= openStart then w.end <= cursor && Shows(c, ws[1..], cursor, to)
      else Stretch(c, cursor, openStart, w.end) && Shows(c, ws[1..], w.end, to)
    ensures SortedWindows(ws[1..]) && EndsBy(ws[1..], to) && ws[0].end <= to
  {
    assert ws == [ws[0]] + ws[1..];
    NextStretch(c, ws, cursor, to);
  }

  lemma DoneInFirst(c: Calendar, cursor: int, w: Window, n: int, to: int)
    requires Stretch(c, cursor, Max(w.start, cursor), w.end) && 0 < n <= w.end - Max(w.start, cursor) && w.end <= to
    ensures Max(w.start, cursor) + n <= to && Earliest(c, cursor, n, Max(w.start, cursor) + n)
  {
    ReachedInside(c, cursor, Max(w.start, cursor), w.end, n);
  }

  lemma {:induction false} ConsumeWalks(c: Calendar, ws: seq<Window>, cursor: int, n: int, to: int)
    requires SortedWindows(ws) && Shows(c, ws, cursor, to) && cursor <= to && n > 0 && EndsBy(ws, to)
    ensures Walked(c, ws, cursor, n, to, Consume(ws, cursor, n))
    decreases |ws|
  {
    if ws == [] {
      assert ClosedBetween(c, cursor, to);
    } else {
      var w := ws[0];
      var openStart := Max(w.start, cursor);
      FirstWindow(c, ws, cursor, to);
      if openStart >= w.end {
        ConsumeWalks(c, ws[1..], cursor, n, to);
        SkipOne(c, ws, cursor, n, to, Consume(ws[1..], cursor, n));
      } else if n <= w.end - openStart {
        DoneInFirst(c, cursor, w, n, to);
      } else {
        var used := w.end - openStart;
        StretchCounts(c, cursor, openStart, w.end, w.end);
        ConsumeWalks(c, ws[1..], w.end, n - used, to);
        UseOne(c, ws, cursor, n, to, used, Consume(ws[1..], w.end, n - used));
      }
    }
  }

  lemma SkipOne(c: Calendar, ws: seq<Window>, cursor: int, n: int, to: int, p: Progress)
    requires ws != [] && n > 0 && ws[0].end <= cursor && Walked(c, ws[1..], cursor, n, to, p)
    ensures Walked(c, ws, cursor, n, to, p)
  {
    assert ws == [ws[0]] + ws[1..];
  }

  lemma UseOne(c: Calendar, ws: seq<Window>, cursor: int, n: int, to: int, used: int, p: Progress)
    requires ws != [] && cursor <= ws[0].end <= to && 0 <= used < n
    requires RemainingBusinessMs(c, cursor, ws[0].end) == used
    requires Walked(c, ws[1..], ws[0].end, n - used, to, p)
    ensures Walked(c, ws, cursor, n, to, p)
  {
    assert ws == [ws[0]] + ws[1..];
    match p
    case Done(at) => EarliestAfter(c, cursor, ws[0].end, n, at);
    case Left(last, rest) => Split(c, cursor, ws[0].end, last);
  }
}
