/** The limiter of outgoing calls: grants at least an interval apart, and none later than that demands. */
module RateLimits {
  // What one call reads from the clock: on entry, and after its sleep.
  datatype Reading = Reading(now: real, woken: real)

  function Max(a: real, b: real): real {
    if a < b then b else a
  }

  /** When the call is let through: at once, or on waking. */
  function GrantedAt(nextAt: real, c: Reading): real {
    if nextAt > c.now then c.woken else c.now
  }

  function NextAt(nextAt: real, interval: real, c: Reading): real {
    Max(GrantedAt(nextAt, c), nextAt) + interval
  }

  /** The grants of successive calls under the lock. */
  function Grants(nextAt: real, interval: real, cs: seq<Reading>): seq<real>
    decreases |cs|
  {
    if cs == [] then [] else [GrantedAt(nextAt, cs[0])] + Grants(NextAt(nextAt, interval, cs[0]), interval, cs[1..])
  }

  class IntervalLimiter {
    const interval: real
    var nextAt: real

    constructor (ratePerSecond: real)
      requires ratePerSecond > 0.0
      ensures interval == 1.0 / ratePerSecond && nextAt == 0.0
    {
      interval := 1.0 / ratePerSecond;
      nextAt := 0.0;
    }

    /** woken is what the clock says after a sleep of the given delay; it is not read when there is no delay. */
    method Acquire(c: Reading) returns (delay: real, granted: real)
      modifies `nextAt
      ensures delay == Max(0.0, old(nextAt) - c.now)
      ensures granted == GrantedAt(old(nextAt), c) && nextAt == NextAt(old(nextAt), interval, c)
      ensures granted + interval <= nextAt && old(nextAt) + interval <= nextAt
    {
      var current := c.now;
      delay := Max(0.0, nextAt - current);
      if delay != 0.0 {
        current := c.woken;
      }
      granted := current;
      nextAt := Max(current, nextAt) + interval;
    }
  }

  // The clock never runs backwards, and calls follow one another under the lock.
  predicate Sequential(nextAt: real, interval: real, cs: seq<Reading>)
    decreases |cs|
  {
    cs == [] ||
    (&& cs[0].now <= cs[0].woken
     && (|cs| > 1 ==> GrantedAt(nextAt, cs[0]) <= cs[1].now)
     && Sequential(NextAt(nextAt, interval, cs[0]), interval, cs[1..]))
  }

  // No sleep ends before the time it was asked to last.
  predicate Punctual(nextAt: real, interval: real, cs: seq<Reading>)
    decreases |cs|
  {
    cs == [] ||
    (&& (nextAt > cs[0].now ==> cs[0].woken >= nextAt)
     && Punctual(NextAt(nextAt, interval, cs[0]), interval, cs[1..]))
  }

  // Every sleep ends exactly on time.
  predicate Exact(nextAt: real, interval: real, cs: seq<Reading>)
    decreases |cs|
  {
    cs == [] ||
    (&& (nextAt > cs[0].now ==> cs[0].woken == nextAt)
     && Exact(NextAt(nextAt, interval, cs[0]), interval, cs[1..]))
  }

  lemma {:induction false} NoGrantBefore(nextAt: real, interval: real, cs: seq<Reading>, j: nat)
    requires interval > 0.0 && Punctual(nextAt, interval, cs) && j < |Grants(nextAt, interval, cs)|
    ensures Grants(nextAt, interval, cs)[j] >= nextAt + j as real * interval
    decreases j
  {
    if j > 0 {
      NoGrantBefore(NextAt(nextAt, interval, cs[0]), interval, cs[1..], j - 1);
      assert j as real * interval == (j - 1) as real * interval + interval;
    }
  }

  /** Main result: with punctual sleeps the j-th grant comes at least j - i intervals after the i-th. */
  lemma {:induction false} GrantsAreSpaced(nextAt: real, interval: real, cs: seq<Reading>, i: nat, j: nat)
    requires interval > 0.0 && Punctual(nextAt, interval, cs) && i < j < |Grants(nextAt, interval, cs)|
    ensures Grants(nextAt, interval, cs)[j] - Grants(nextAt, interval, cs)[i] >= (j - i) as real * interval
    decreases i
  {
    var next := NextAt(nextAt, interval, cs[0]);
    if i > 0 {
      GrantsAreSpaced(next, interval, cs[1..], i - 1, j - 1);
    } else {
      NoGrantBefore(next, interval, cs[1..], j - 1);
      assert j as real * interval == (j - 1) as real * interval + interval;
    }
  }

  lemma QuotientBounds(n: int, length: real, interval: real)
    requires interval > 0.0 && n as real * interval <= length
    ensures n <= (length / interval).Floor
  {
    var q := length / interval;
    assert length == q * interval;
    assert q >= n as real;
  }

  /** Main result: a closed window of the given length holds at most floor(length / interval) + 1 grants. */
  lemma WindowIsBounded(nextAt: real, interval: real, cs: seq<Reading>, i: nat, j: nat, length: real)
    requires interval > 0.0 && Punctual(nextAt, interval, cs) && i <= j < |Grants(nextAt, interval, cs)|
    requires Grants(nextAt, interval, cs)[j] - Grants(nextAt, interval, cs)[i] <= length
    ensures j - i + 1 <= (length / interval).Floor + 1
  {
    if i < j {
      GrantsAreSpaced(nextAt, interval, cs, i, j);
    }
    QuotientBounds(j - i, length, interval);
  }

  /** Two grants in a row keep their distance exactly when the sleep of the second lasts or is not needed. */
  lemma SpacedIffPunctual(nextAt: real, interval: real, first: Reading, second: Reading)
    requires interval > 0.0 && (nextAt > first.now ==> first.woken >= nextAt)
    ensures
      var next := NextAt(nextAt, interval, first);
      GrantedAt(next, second) - GrantedAt(nextAt, first) >= interval <==> (next > second.now ==> second.woken >= next)
  {
  }

  // A schedule that lets every call through no earlier than it comes, and any two an interval apart.
  predicate Schedule(nextAt: real, interval: real, cs: seq<Reading>, times: seq<real>)
    decreases |cs|
  {
    && |times| == |cs|
    && (cs != [] ==>
          && times[0] >= cs[0].now && times[0] >= nextAt
          && Schedule(times[0] + interval, interval, cs[1..], times[1..]))
  }

  /** Main result: with exact sleeps the limiter is the earliest schedule, call by call. */
  lemma {:induction false} GrantsAreEarliest(nextAt: real, later: real, interval: real, cs: seq<Reading>, times: seq<real>)
    requires interval > 0.0 && nextAt <= later && Exact(nextAt, interval, cs) && Schedule(later, interval, cs, times)
    ensures |Grants(nextAt, interval, cs)| == |times|
    ensures forall i :: 0 <= i < |times| ==> Grants(nextAt, interval, cs)[i] <= times[i]
    decreases |cs|
  {
    if cs != [] {
      GrantsAreEarliest(NextAt(nextAt, interval, cs[0]), times[0] + interval, interval, cs[1..], times[1..]);
    }
  }

  /** The grants themselves are such a schedule, and they come in order. */
  lemma {:induction false} GrantsAreSchedule(nextAt: real, interval: real, cs: seq<Reading>)
    requires interval > 0.0 && Exact(nextAt, interval, cs) && Sequential(nextAt, interval, cs)
    ensures Schedule(nextAt, interval, cs, Grants(nextAt, interval, cs))
    decreases |cs|
  {
    if cs != [] {
      var rest := Grants(NextAt(nextAt, interval, cs[0]), interval, cs[1..]);
      GrantsAreSchedule(NextAt(nextAt, interval, cs[0]), interval, cs[1..]);
      assert Grants(nextAt, interval, cs)[1..] == rest;
    }
  }
}
