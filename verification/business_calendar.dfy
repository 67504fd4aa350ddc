/**
 The business-hours clock as its callers rely on it. A calendar says which integer
 milliseconds are business time; `next` finds the first such millisecond at or after
 an instant, so that a schedule with openings ahead never runs dry.
 */
module BusinessCalendar {

  datatype Calendar = Calendar(open: int -> bool, next: int -> int)

  ghost predicate Live(c: Calendar) {
    forall t: int {:trigger c.next(t)} ::
      t <= c.next(t) && c.open(c.next(t)) && ClosedBetween(c, t, c.next(t))
  }

  ghost predicate ClosedBetween(c: Calendar, a: int, b: int) {
    forall u :: a <= u < b ==> !c.open(u)
  }

  /** Business milliseconds in [from, until); none when until <= from. */
  function RemainingBusinessMs(c: Calendar, from: int, until: int): (n: nat)
    decreases until - from
  {
    if until <= from then 0
    else RemainingBusinessMs(c, from, until - 1) + if c.open(until - 1) then 1 else 0
  }

  /** The instant reached from t after n business milliseconds. */
  function AddBusinessMs(c: Calendar, t: int, n: nat): int
    decreases n
  {
    if n == 0 then t else AddBusinessMs(c, c.next(t) + 1, n - 1)
  }

  /** u is the first instant from t on that has n business milliseconds behind it. */
  ghost predicate Earliest(c: Calendar, t: int, n: nat, u: int) {
    && t <= u
    && RemainingBusinessMs(c, t, u) == n
    && forall v :: t <= v < u ==> RemainingBusinessMs(c, t, v) < n
  }

  lemma {:induction false} Split(c: Calendar, a: int, m: int, b: int)
    requires a <= m <= b
    ensures RemainingBusinessMs(c, a, b) == RemainingBusinessMs(c, a, m) + RemainingBusinessMs(c, m, b)
    decreases b - m
  {
    if m < b {
      Split(c, a, m, b - 1);
    }
  }

  /** Additivity for any three instants, counting time that runs backwards as negative. */
  lemma SplitSigned(c: Calendar, a: int, m: int, b: int)
    requires a <= m
    ensures RemainingBusinessMs(c, a, m) + RemainingBusinessMs(c, m, b) - RemainingBusinessMs(c, b, m)
         == RemainingBusinessMs(c, a, b) - RemainingBusinessMs(c, b, a)
  {
    if m <= b {
      Split(c, a, m, b);
    } else if a <= b {
      Split(c, a, b, m);
    } else {
      Split(c, b, a, m);
    }
  }

  lemma {:induction false} ClosedCountsNothing(c: Calendar, a: int, b: int)
    requires ClosedBetween(c, a, b)
    ensures RemainingBusinessMs(c, a, b) == 0
    decreases b - a
  {
    if a < b {
      ClosedCountsNothing(c, a, b - 1);
    }
  }

  lemma CountsMonotone(c: Calendar, a: int, m: int, b: int)
    requires m <= b
    ensures RemainingBusinessMs(c, a, m) <= RemainingBusinessMs(c, a, b)
  {
    if a <= m {
      Split(c, a, m, b);
    }
  }

  lemma {:induction false} AddReachesEarliest(c: Calendar, t: int, n: nat)
    requires Live(c)
    ensures Earliest(c, t, n, AddBusinessMs(c, t, n))
    ensures n > 0 ==> t < AddBusinessMs(c, t, n) && c.open(AddBusinessMs(c, t, n) - 1)
    decreases n
  {
    if n > 0 {
      var first := c.next(t);
      var u := AddBusinessMs(c, first + 1, n - 1);
      AddReachesEarliest(c, first + 1, n - 1);
      ClosedCountsNothing(c, t, first);
      Split(c, t, first + 1, u);
      forall v | t <= v < u ensures RemainingBusinessMs(c, t, v) < n {
        if v <= first {
          CountsMonotone(c, t, v, first);
        } else {
          Split(c, t, first + 1, v);
        }
      }
    }
  }

  lemma EarliestIsAdded(c: Calendar, t: int, n: nat, u: int)
    requires Live(c) && Earliest(c, t, n, u)
    ensures u == AddBusinessMs(c, t, n)
  {
    AddReachesEarliest(c, t, n);
  }

  /** Adding what remained until an instant that ends business time leads back to it. */
  lemma AddUndoesRemaining(c: Calendar, t: int, d: int)
    requires Live(c) && t < d && c.open(d - 1)
    ensures AddBusinessMs(c, t, RemainingBusinessMs(c, t, d)) == d
  {
    var n := RemainingBusinessMs(c, t, d);
    forall v | t <= v < d ensures RemainingBusinessMs(c, t, v) < n {
      CountsMonotone(c, t, v, d - 1);
    }
    EarliestIsAdded(c, t, n, d);
  }

  /** Spending the same business time from a later start ends no earlier. */
  lemma LaterStartEndsNoEarlier(c: Calendar, p: int, now: int, d: int)
    requires Live(c) && p <= now && p < d && c.open(d - 1)
    ensures d <= AddBusinessMs(c, now, RemainingBusinessMs(c, p, d))
  {
    var n := RemainingBusinessMs(c, p, d);
    var u := AddBusinessMs(c, now, n);
    AddReachesEarliest(c, now, n);
    if u < d {
      Split(c, p, now, u);
      CountsMonotone(c, p, u, d - 1);
      assert false;
    }
  }
}
