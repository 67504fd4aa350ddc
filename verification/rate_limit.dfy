/**
 The authentication rate limiter: one bucket of attempts per key, replaced by the first
 attempt at or after its expiry.
 */
module RateLimit {
  import opened Wrappers
  import opened FixedWindow

  type Key = string

  /** Times are milliseconds. */
  datatype Bucket = Bucket(count: nat, expiresAt: int)

  type Buckets = map<Key, Bucket>

  datatype Decision = Decision(allowed: bool, retryAfterSeconds: nat)

  function Incremented(buckets: Buckets, key: Key, expiresAt: int, now: int): Bucket {
    if key !in buckets || buckets[key].expiresAt <= now then Bucket(1, expiresAt)
    else buckets[key].(count := buckets[key].count + 1)
  }

  /** No bucket outlives a window that starts now. */
  ghost predicate Sane(buckets: Buckets, windowSeconds: nat, now: int) {
    forall key :: key in buckets ==> buckets[key].expiresAt <= now + windowSeconds * 1000
  }

  /** The least whole number of seconds after which the bucket has expired. */
  ghost predicate LeastWait(bucket: Bucket, now: int, seconds: nat) {
    && bucket.expiresAt <= now + seconds * 1000
    && forall s: nat :: s < seconds ==> now + s * 1000 < bucket.expiresAt
  }

  class AttemptStore {
    var buckets: Buckets

    constructor ()
      ensures buckets == map[]
    {
      buckets := map[];
    }

    method Increment(key: Key, expiresAt: int, now: int) returns (bucket: Bucket)
      modifies this
      ensures bucket == Incremented(old(buckets), key, expiresAt, now)
      ensures buckets == old(buckets)[key := bucket]
    {
      if key !in buckets || buckets[key].expiresAt <= now {
        bucket := Bucket(1, expiresAt);
        buckets := buckets[key := bucket];
        return;
      }
      buckets := buckets[key := buckets[key].(count := buckets[key].count + 1)];
      bucket := buckets[key];
    }
  }

  /** What consume decides and leaves behind, stated without its steps. */
  ghost predicate Consumed(before: Buckets, after: Buckets, d: Decision, key: Key, limit: nat, windowSeconds: nat, now: int) {
    var bucket := Incremented(before, key, now + windowSeconds * 1000, now);
    && after == before[key := bucket]
    && (d.allowed <==> bucket.count <= limit)
    && (d.allowed ==> d.retryAfterSeconds == 0)
    && (!d.allowed ==> 1 <= d.retryAfterSeconds <= windowSeconds && LeastWait(bucket, now, d.retryAfterSeconds))
  }

  class RateLimiter {
    const windowSeconds: nat
    const store: AttemptStore

    constructor (windowSeconds: nat)
      requires windowSeconds > 0
      ensures this.windowSeconds == windowSeconds && fresh(store) && store.buckets == map[]
    {
      this.windowSeconds := windowSeconds;
      store := new AttemptStore();
    }

    method Consume(key: Key, limit: nat, now: int) returns (d: Decision)
      requires windowSeconds > 0 && Sane(store.buckets, windowSeconds, now)
      modifies store
      ensures Consumed(old(store.buckets), store.buckets, d, key, limit, windowSeconds, now)
      ensures Sane(store.buckets, windowSeconds, now)
    {
      var expiresAt := now + windowSeconds * 1000;
      var bucket := store.Increment(key, expiresAt, now);
      if bucket.count <= limit {
        return Decision(true, 0);
      }
      var left := bucket.expiresAt - now;
      var ceiling := (left + 999) / 1000;
      d := Decision(false, if ceiling < 1 then 1 else ceiling);
    }
  }

  // ------------------------------------------------------------------
  // Runs
  // ------------------------------------------------------------------

  datatype Attempt = Attempt(key: Key, now: int)

  ghost predicate Clocked(run: seq<Attempt>) {
    forall i, j :: 0 <= i < j < |run| ==> run[i].now <= run[j].now
  }

  function After(run: seq<Attempt>, windowSeconds: nat): Buckets {
    if run == [] then map[]
    else
      var buckets, last := After(run[..|run| - 1], windowSeconds), run[|run| - 1];
      buckets[last.key := Incremented(buckets, last.key, last.now + windowSeconds * 1000, last.now)]
  }

  /** The attempts on one key, each with the count its bucket then had. */
  function Attempts(run: seq<Attempt>, windowSeconds: nat, key: Key): seq<Entry> {
    if run == [] then []
    else
      var earlier, last := Attempts(run[..|run| - 1], windowSeconds, key), run[|run| - 1];
      if last.key == key then earlier + [Entry(last.now, After(run, windowSeconds)[key].count)] else earlier
  }

  ghost predicate Tracks(buckets: Buckets, log: seq<Entry>, windowSeconds: nat, key: Key, now: int) {
    && Counted(log, windowSeconds * 1000)
    && (key in buckets <==> log != [])
    && (log != [] ==>
          && var last := |log| - 1;
          && Follows(log, windowSeconds * 1000, last)
          && log[last].at <= now
          && log[last].ordinal == buckets[key].count
          && buckets[key].expiresAt == log[StartOf(log, last)].at + windowSeconds * 1000)
  }

  lemma {:induction false} RunTracks(run: seq<Attempt>, windowSeconds: nat, key: Key, now: int)
    requires Clocked(run) && forall i :: 0 <= i < |run| ==> run[i].now <= now
    ensures Tracks(After(run, windowSeconds), Attempts(run, windowSeconds, key), windowSeconds, key, now)
    decreases |run|
  {
    if run != [] {
      var last := run[|run| - 1];
      RunTracks(run[..|run| - 1], windowSeconds, key, last.now);
      var earlier := Attempts(run[..|run| - 1], windowSeconds, key);
      var log := Attempts(run, windowSeconds, key);
      if last.key == key {
        forall k | 0 <= k < |log| ensures Follows(log, windowSeconds * 1000, k) {
          if k < |earlier| { assert Follows(earlier, windowSeconds * 1000, k); }
        }
      }
    }
  }

  lemma {:induction false} RunSane(run: seq<Attempt>, windowSeconds: nat, now: int)
    requires Clocked(run) && forall i :: 0 <= i < |run| ==> run[i].now <= now
    ensures Sane(After(run, windowSeconds), windowSeconds, now)
    decreases |run|
  {
    if run != [] {
      RunSane(run[..|run| - 1], windowSeconds, run[|run| - 1].now);
    }
  }

  /**
   Over any run, a window-long interval admits fewer than twice the limit on one key;
   each bucket admits the limit.
   */
  lemma AdmitsFewerThanTwiceTheLimit(run: seq<Attempt>, windowSeconds: nat, key: Key, limit: nat, from: int)
    requires Clocked(run) && limit >= 1
    ensures |Within(Attempts(run, windowSeconds, key), from, windowSeconds * 1000, limit)| <= 2 * limit - 1
  {
    if run != [] {
      RunTracks(run, windowSeconds, key, run[|run| - 1].now);
      WindowHoldsTwiceTheCapLessOne(Attempts(run, windowSeconds, key), windowSeconds * 1000, from, limit);
    } else {
      assert Within([], from, windowSeconds * 1000, limit) == {};
    }
  }

  function Repeated(a: Attempt, n: nat): (run: seq<Attempt>)
    ensures |run| == n && forall i :: 0 <= i < n ==> run[i] == a
  {
    if n == 0 then [] else Repeated(a, n - 1) + [a]
  }

  /** What a run leaves in one key's bucket and log. */
  ghost predicate Leaves(run: seq<Attempt>, windowSeconds: nat, key: Key, bucket: Bucket, log: seq<Entry>) {
    && key in After(run, windowSeconds) && After(run, windowSeconds)[key] == bucket
    && Attempts(run, windowSeconds, key) == log
  }

  lemma OneMore(run: seq<Attempt>, windowSeconds: nat, key: Key, bucket: Bucket, log: seq<Entry>, at: int)
    requires Leaves(run, windowSeconds, key, bucket, log)
    ensures
      var next := if bucket.expiresAt <= at then Bucket(1, at + windowSeconds * 1000)
                  else Bucket(bucket.count + 1, bucket.expiresAt);
      Leaves(run + [Attempt(key, at)], windowSeconds, key, next, log + [Entry(at, next.count)])
  {
    assert (run + [Attempt(key, at)])[..|run|] == run;
  }

  lemma {:induction false} Burst(run: seq<Attempt>, windowSeconds: nat, key: Key, bucket: Bucket, log: seq<Entry>,
                                 at: int, n: nat)
    requires Leaves(run, windowSeconds, key, bucket, log) && at < bucket.expiresAt
    ensures Leaves(run + Repeated(Attempt(key, at), n), windowSeconds, key,
                   Bucket(bucket.count + n, bucket.expiresAt), log + CountingUp(at, bucket.count + 1, n))
    decreases n
  {
    var a, up := Attempt(key, at), bucket.count + 1;
    if n == 0 {
      assert run + Repeated(a, 0) == run;
      assert log + CountingUp(at, up, 0) == log;
    } else {
      Burst(run, windowSeconds, key, bucket, log, at, n - 1);
      var shorter, shortLog := run + Repeated(a, n - 1), log + CountingUp(at, up, n - 1);
      assert run + Repeated(a, n) == shorter + [a];
      assert log + CountingUp(at, up, n) == shortLog + [Entry(at, bucket.count + n)];
      OneMore(shorter, windowSeconds, key, Bucket(bucket.count + n - 1, bucket.expiresAt), shortLog, at);
    }
  }

  /** One attempt, then the rest of the limit just before the bucket expires, then a full limit as it does. */
  function Straddle(key: Key, windowSeconds: nat, limit: nat): seq<Attempt>
    requires limit >= 1
  {
    [Attempt(key, 0)] + Repeated(Attempt(key, windowSeconds * 1000 - 1), limit - 1)
    + [Attempt(key, windowSeconds * 1000)] + Repeated(Attempt(key, windowSeconds * 1000), limit - 1)
  }

  lemma StraddleLeaves(key: Key, windowSeconds: nat, limit: nat)
    requires limit >= 1 && windowSeconds >= 1
    ensures Attempts(Straddle(key, windowSeconds, limit), windowSeconds, key) ==
            [Entry(0, 1)] + CountingUp(windowSeconds * 1000 - 1, 2, limit - 1)
            + [Entry(windowSeconds * 1000, 1)] + CountingUp(windowSeconds * 1000, 2, limit - 1)
  {
    var window := windowSeconds * 1000;
    var run, log := [Attempt(key, 0)], [Entry(0, 1)];
    assert run[..|run| - 1] == [];
    assert After(run, windowSeconds) == map[key := Bucket(1, window)];
    assert Leaves(run, windowSeconds, key, Bucket(1, window), log);
    Burst(run, windowSeconds, key, Bucket(1, window), log, window - 1, limit - 1);
    run, log := run + Repeated(Attempt(key, window - 1), limit - 1), log + CountingUp(window - 1, 2, limit - 1);
    OneMore(run, windowSeconds, key, Bucket(limit, window), log, window);
    run, log := run + [Attempt(key, window)], log + [Entry(window, 1)];
    Burst(run, windowSeconds, key, Bucket(1, window + window), log, window, limit - 1);
  }

  /** The bound is reached for every limit and window. */
  lemma TwiceTheLimitLessOneIsReached(key: Key, windowSeconds: nat, limit: nat)
    requires limit >= 1 && windowSeconds >= 1
    ensures Clocked(Straddle(key, windowSeconds, limit))
    ensures 2 * limit - 1 <= |Within(Attempts(Straddle(key, windowSeconds, limit), windowSeconds, key),
                                     windowSeconds * 1000 - 1, windowSeconds * 1000, limit)|
  {
    StraddleLeaves(key, windowSeconds, limit);
    var log := Attempts(Straddle(key, windowSeconds, limit), windowSeconds, key);
    RangeFilled(Within(log, windowSeconds * 1000 - 1, windowSeconds * 1000, limit), 1, 2 * limit - 1);
  }

  /** After a denial the very wait it names is what makes the next attempt on the key succeed. */
  lemma RetryAfterIsExact(before: Buckets, after: Buckets, d: Decision, key: Key, limit: nat, windowSeconds: nat, now: int,
                          seconds: nat)
    requires limit >= 1
    requires Consumed(before, after, d, key, limit, windowSeconds, now) && !d.allowed
    ensures
      Incremented(after, key, now + seconds * 1000 + windowSeconds * 1000, now + seconds * 1000).count <= limit
      <==> d.retryAfterSeconds <= seconds
  {
    assert LeastWait(after[key], now, d.retryAfterSeconds);
  }
}
