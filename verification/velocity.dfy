/** The login velocity rule: a Redis counter per user, incremented on every login and given an expiry when it is
    created. */
module Velocity {
  import opened Common

  /** The counter key of one user. */
  datatype Counter = Absent | Present(count: nat, expiry: Expiry)

  predicate Alive(c: Counter, now: int) { c.Present? && (c.expiry.Never? || now < c.expiry.t) }

  /** INCR: an expired key counts from zero and has no expiry until one is set. */
  function Incremented(c: Counter, now: int): (r: Counter)
    ensures r.Present? && r.count >= 1
  {
    if Alive(c, now) then Present(c.count + 1, c.expiry) else Present(1, Never)
  }

  function AfterLogin(c: Counter, now: int, window: int, expireOk: bool): (r: Counter)
    ensures r.Present?
  {
    var i := Incremented(c, now);
    if i.count == 1 && expireOk then Present(1, At(now + window)) else i
  }

  datatype Verdict = Score(flagged: bool) | RedisError

  class VelocityRule {
    const limit: int
    const window: int
    var counter: Counter

    constructor (limit: int, window: int)
      ensures this.limit == limit && this.window == window && counter == Absent
    {
      this.limit, this.window := limit, window;
      counter := Absent;
    }

    /** Evaluate for the user this counter belongs to; the result of EXPIRE is ignored. */
    method Evaluate(now: int, incrOk: bool, expireOk: bool) returns (v: Verdict)
      modifies this
      ensures !incrOk ==> v == RedisError && counter == old(counter)
      ensures incrOk ==> counter == AfterLogin(old(counter), now, window, expireOk) && v == Score(counter.count > limit)
    {
      if !incrOk { return RedisError; }
      counter := Incremented(counter, now);
      if counter.count == 1 && expireOk { counter := Present(1, At(now + window)); }
      return Score(counter.count > limit);
    }
  }

  // ---------------------------------------------------------------- runs of logins of one user

  /** The counter after the first `n` logins at the given times, when all Redis calls succeed. */
  function CounterAfter(times: seq<int>, window: int, n: nat): Counter
    requires n <= |times|
  {
    if n == 0 then Absent else AfterLogin(CounterAfter(times, window, n - 1), times[n - 1], window, true)
  }

  /** Whether login `m` of the run is flagged. */
  predicate Flagged(times: seq<int>, limit: int, window: int, m: nat)
    requires m < |times|
  {
    CounterAfter(times, window, m + 1).Present? && CounterAfter(times, window, m + 1).count > limit
  }

  ghost predicate Ordered(times: seq<int>) { forall i, j :: 0 <= i < j < |times| ==> times[i] <= times[j] }

  /** The first login of the counter period that login `m` falls into. */
  function Start(times: seq<int>, window: int, m: nat): (s: nat)
    requires m < |times|
    ensures s <= m
  {
    if m == 0 then 0
    else if times[m] < times[Start(times, window, m - 1)] + window then Start(times, window, m - 1)
    else m
  }

  lemma {:induction false} CounterExact(times: seq<int>, window: int, m: nat)
    requires m < |times| && window > 0
    ensures var s := Start(times, window, m);
            CounterAfter(times, window, m + 1) == Present(m - s + 1, At(times[s] + window))
  {
    if m > 0 { CounterExact(times, window, m - 1); }
  }

  /** A login is flagged exactly when it is beyond the limit-th of its period. */
  lemma FlaggedExact(times: seq<int>, limit: int, window: int, m: nat)
    requires m < |times| && window > 0
    ensures Flagged(times, limit, window, m) <==> m - Start(times, window, m) + 1 > limit
  {
    CounterExact(times, window, m);
  }

  // ---------------------------------------------------------------- counting

  function Unflagged(times: seq<int>, limit: int, window: int, lo: nat, hi: nat): nat
    requires lo <= hi <= |times|
    decreases hi - lo
  {
    if lo == hi then 0
    else Unflagged(times, limit, window, lo, hi - 1) + (if Flagged(times, limit, window, hi - 1) then 0 else 1)
  }

  ghost predicate SamePeriod(times: seq<int>, window: int, s: nat, lo: nat, hi: nat)
    requires hi <= |times|
  {
    forall m :: lo <= m < hi ==> Start(times, window, m) == s
  }

  /** Of the logins lo..hi of one period that starts at `s`, those up to the limit-th of the period are unflagged. */
  lemma {:induction false} PeriodCount(times: seq<int>, limit: int, window: int, s: nat, lo: nat, hi: nat)
    requires s <= lo <= hi <= |times| && window > 0 && SamePeriod(times, window, s, lo, hi)
    ensures Unflagged(times, limit, window, lo, hi) == Max(0, Min(hi - s, limit) - Min(lo - s, Max(limit, 0)))
    decreases hi - lo
  {
    hide Flagged, Start;
    if lo < hi {
      PeriodCount(times, limit, window, s, lo, hi - 1);
      FlaggedExact(times, limit, window, hi - 1);
    }
  }

  /** A whole period of n logins leaves exactly min(n, limit) of them unflagged. */
  lemma PeriodExact(times: seq<int>, limit: nat, window: int, s: nat, hi: nat)
    requires s <= hi <= |times| && window > 0 && SamePeriod(times, window, s, s, hi)
    ensures Unflagged(times, limit, window, s, hi) == Min(hi - s, limit)
  {
    PeriodCount(times, limit, window, s, s, hi);
  }

  lemma {:induction false} UnflaggedSplit(times: seq<int>, limit: int, window: int, lo: nat, mid: nat, hi: nat)
    requires lo <= mid <= hi <= |times|
    ensures Unflagged(times, limit, window, lo, hi) == Unflagged(times, limit, window, lo, mid) + Unflagged(times, limit, window, mid, hi)
    decreases hi - mid
  {
    hide Flagged;
    if mid < hi { UnflaggedSplit(times, limit, window, lo, mid, hi - 1); }
  }

  // ---------------------------------------------------------------- periods along the time line

  lemma {:induction false} StartStep(times: seq<int>, window: int, m: nat)
    requires 0 < m < |times| && window > 0
    ensures Start(times, window, m) == Start(times, window, m - 1) || Start(times, window, m) == m
    ensures Start(times, window, m) == m ==> times[m] >= times[Start(times, window, m - 1)] + window
    ensures times[m] < times[Start(times, window, m)] + window
  {
  }

  lemma {:induction false} WithinPeriod(times: seq<int>, window: int, m: nat)
    requires m < |times| && window > 0
    ensures times[m] < times[Start(times, window, m)] + window
    ensures Start(times, window, Start(times, window, m)) == Start(times, window, m)
  {
    if m > 0 { WithinPeriod(times, window, m - 1); }
  }

  /** From `lo` on, either one period covers everything up to `hi`, or a later login starts a new one. */
  lemma {:induction false} NextStart(times: seq<int>, window: int, lo: nat, hi: nat) returns (mid: nat)
    requires lo < hi <= |times| && window > 0
    ensures lo < mid <= hi && SamePeriod(times, window, Start(times, window, lo), lo, mid)
    ensures mid < hi ==> Start(times, window, mid) == mid && times[mid] >= times[Start(times, window, lo)] + window
    decreases hi
  {
    hide Start;
    if hi == lo + 1 {
      mid := hi;
    } else {
      mid := NextStart(times, window, lo, hi - 1);
      if mid == hi - 1 {
        StartStep(times, window, hi - 1);
        if Start(times, window, hi - 1) == Start(times, window, lo) { mid := hi; }
      }
    }
  }

  /** Any stretch of time one window long contains at most twice the limit of unflagged logins, whatever the
      login times. */
  lemma AtMostTwiceTheLimit(times: seq<int>, limit: int, window: int, lo: nat, hi: nat)
    requires Ordered(times) && window > 0 && lo <= hi <= |times|
    requires lo < hi ==> times[hi - 1] - times[lo] <= window
    ensures Unflagged(times, limit, window, lo, hi) <= 2 * Max(limit, 0)
  {
    hide Start, Flagged;
    if lo < hi {
      var s := Start(times, window, lo);
      var mid := NextStart(times, window, lo, hi);
      PeriodCount(times, limit, window, s, lo, mid);
      if mid < hi {
        WithinPeriod(times, window, lo);
        var end := NextStart(times, window, mid, hi);
        assert times[mid] > times[lo];
        PeriodCount(times, limit, window, mid, mid, hi);
        UnflaggedSplit(times, limit, window, lo, mid, hi);
      }
    }
  }

  /** The factor two is reached: a full period's worth at the start and another one window later. */
  lemma TwiceIsReached(limit: nat, window: int)
    requires limit > 0 && window > 0
    ensures var times := seq(2 * limit, i => if i < limit then 0 else window);
            && Ordered(times) && times[2 * limit - 1] - times[0] <= window
            && Unflagged(times, limit, window, 0, 2 * limit) == 2 * limit
  {
    var times := seq(2 * limit, i => if i < limit then 0 else window);
    forall m | 0 <= m < 2 * limit ensures Start(times, window, m) == if m < limit then 0 else limit { BurstStart(times, limit, window, m); }
    assert SamePeriod(times, window, 0, 0, limit) && SamePeriod(times, window, limit, limit, 2 * limit);
    PeriodExact(times, limit, window, 0, limit);
    PeriodExact(times, limit, window, limit, 2 * limit);
    UnflaggedSplit(times, limit, window, 0, limit, 2 * limit);
  }

  lemma {:induction false} BurstStart(times: seq<int>, limit: nat, window: int, m: nat)
    requires limit > 0 && window > 0 && |times| == 2 * limit && m < |times|
    requires forall i :: 0 <= i < |times| ==> times[i] == if i < limit then 0 else window
    ensures Start(times, window, m) == if m < limit then 0 else limit
  {
    if m > 0 { BurstStart(times, limit, window, m - 1); }
  }

  // ---------------------------------------------------------------- when EXPIRE fails

  function RunFrom(c: Counter, times: seq<int>, window: int): Counter
    decreases |times|
  {
    if times == [] then c else RunFrom(AfterLogin(c, times[0], window, true), times[1..], window)
  }

  /** A key whose EXPIRE failed never expires: it keeps counting, and from the limit on every login is flagged, at
      whatever times and however well Redis behaves afterwards. */
  lemma {:induction false} LostExpiryIsForever(c: Counter, times: seq<int>, window: int)
    requires c.Present? && c.count >= 1 && c.expiry.Never?
    ensures RunFrom(c, times, window) == Present(c.count + |times|, Never)
    decreases |times|
  {
    if times != [] { LostExpiryIsForever(AfterLogin(c, times[0], window, true), times[1..], window); }
  }
}
