/**
 Counters over fixed windows: a counter restarts at the first event at least one window
 after it last restarted, and counts up otherwise. A log keeps each event's time and the
 count it was given.
 */
module FixedWindow {

  datatype Entry = Entry(at: int, ordinal: nat)

  /** Index of the entry that restarted the counter for entry k. */
  function StartOf(log: seq<Entry>, k: nat): int
    requires k < |log|
  {
    k + 1 - log[k].ordinal
  }

  /** Entry k either counts on from its predecessor inside the window or restarts after it. */
  ghost predicate Follows(log: seq<Entry>, window: int, k: nat)
    requires k < |log|
  {
    && 1 <= log[k].ordinal <= k + 1
    && (k > 0 && 1 <= log[k - 1].ordinal <= k ==>
          && log[k - 1].at <= log[k].at
          && var start := StartOf(log, k - 1);
          if log[start].at + window <= log[k].at then log[k].ordinal == 1
          else log[k].ordinal == log[k - 1].ordinal + 1)
  }

  ghost predicate Counted(log: seq<Entry>, window: int) {
    forall k :: 0 <= k < |log| ==> Follows(log, window, k)
  }

  lemma {:induction false} Ordered(log: seq<Entry>, window: int, i: nat, j: nat)
    requires Counted(log, window) && i <= j < |log|
    ensures log[i].at <= log[j].at
    decreases j
  {
    if i < j {
      assert Follows(log, window, j) && Follows(log, window, j - 1);
      Ordered(log, window, i, j - 1);
    }
  }

  lemma CountsInsideWindow(log: seq<Entry>, window: int, k: nat)
    requires Counted(log, window) && k < |log| && log[k].ordinal > 1
    ensures log[k].ordinal <= k + 1 && log[k].at < log[StartOf(log, k)].at + window
  {
    assert Follows(log, window, k) && Follows(log, window, k - 1);
  }

  /**
   Entries less than a window apart span at most one restart; k is where it is (or the end),
   and an earlier restart cannot be among them.
   */
  lemma {:induction false} OneRestart(log: seq<Entry>, window: int, i: nat, j: nat) returns (k: nat)
    requires Counted(log, window) && i <= j < |log| && log[j].at < log[i].at + window
    ensures i < k <= j + 1
    ensures forall m :: i <= m < k ==> log[m].ordinal == log[i].ordinal + (m - i)
    ensures forall m :: k <= m <= j ==> log[m].ordinal == 1 + (m - k)
    ensures 1 <= log[i].ordinal && (k <= j ==> 2 <= log[i].ordinal)
    decreases j
  {
    assert Follows(log, window, i);
    if i == j {
      k := j + 1;
    } else {
      assert Follows(log, window, j) && Follows(log, window, j - 1);
      Ordered(log, window, j - 1, j);
      k := OneRestart(log, window, i, j - 1);
      if k == j {
        assert StartOf(log, j - 1) == i + 1 - log[i].ordinal;
        if log[j].ordinal != 1 {
          k := j + 1;
        }
      } else {
        Ordered(log, window, i, k);
        assert StartOf(log, j - 1) == k;
      }
    }
  }

  /** The entries whose time lies in [from, from + window) and whose count is at most cap. */
  function Within(log: seq<Entry>, from: int, window: int, cap: nat): set<nat> {
    set k: nat | k < |log| && from <= log[k].at < from + window && log[k].ordinal <= cap
  }

  /** n entries at one time, counting up. */
  function CountingUp(at: int, from: nat, n: nat): (log: seq<Entry>)
    ensures |log| == n && forall i :: 0 <= i < n ==> log[i] == Entry(at, from + i)
  {
    if n == 0 then [] else CountingUp(at, from, n - 1) + [Entry(at, from + n - 1)]
  }

  lemma {:induction false} RangeSize(s: set<nat>, lo: nat, n: nat)
    requires forall k :: k in s ==> lo <= k < lo + n
    ensures |s| <= n
    decreases n
  {
    if n > 0 {
      var rest := s - {lo + n - 1};
      RangeSize(rest, lo, n - 1);
    } else {
      assert s == {};
    }
  }

  lemma {:induction false} RangeFilled(s: set<nat>, lo: nat, n: nat)
    requires forall k: nat :: lo <= k < lo + n ==> k in s
    ensures n <= |s|
    decreases n
  {
    if n > 0 {
      var rest := s - {lo + n - 1};
      RangeFilled(rest, lo, n - 1);
      assert s == rest + {lo + n - 1};
    }
  }

  /** First and last of a non-empty set of indices. */
  lemma {:induction false} Ends(s: set<nat>) returns (lo: nat, hi: nat)
    requires s != {}
    ensures lo in s && hi in s && forall k :: k in s ==> lo <= k <= hi
    decreases |s|
  {
    var k :| k in s;
    if s == {k} {
      lo, hi := k, k;
    } else {
      var rest := s - {k};
      assert s == rest + {k};
      lo, hi := Ends(rest);
      lo, hi := if k < lo then k else lo, if k > hi then k else hi;
    }
  }

  /** A window-long interval holds at most 2 * cap - 1 entries whose count is at most cap. */
  lemma WindowHoldsTwiceTheCapLessOne(log: seq<Entry>, window: int, from: int, cap: nat)
    requires Counted(log, window) && cap >= 1
    ensures |Within(log, from, window, cap)| <= 2 * cap - 1
  {
    var s := Within(log, from, window, cap);
    if s != {} {
      var i, j := Ends(s);
      var k := OneRestart(log, window, i, j);
      var first := set m | m in s && m < k;
      var second := set m | m in s && m >= k;
      assert s == first + second;
      if k <= j {
        RangeSize(first, i, cap - 1);
      } else {
        RangeSize(first, i, cap);
        assert second == {};
      }
      RangeSize(second, k, cap);
    }
  }
}
