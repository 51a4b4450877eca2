/** The limits of one access token: every call passes the global limiter first and then waits for its own dialog. */
module DialogLimits {
  import opened Basics
  import opened RateLimits

  // A call that comes at this time, to a dialog or to none. bucket is the operation together with its dialog.
  datatype Call = Call(at: real, bucket: Option<string>)

  // The next moments the limiters permit; a dialog without an entry has not been called.
  datatype Limits = Limits(nextAt: real, dialogs: map<string, real>)

  datatype Rates = Rates(interval: real, dialogInterval: real)

  predicate Sound(r: Rates) {
    r.interval > 0.0 && r.dialogInterval > 0.0
  }

  function DialogNext(l: Limits, bucket: string): real {
    if bucket in l.dialogs then l.dialogs[bucket] else 0.0
  }

  /** When the global limiter lets the call through, with sleeps that last exactly as asked. */
  function Passed(l: Limits, c: Call): real {
    Max(c.at, l.nextAt)
  }

  /** When the call is sent: its dialog may hold it back after the global limiter has let it through. */
  function Sent(l: Limits, c: Call): real {
    if c.bucket.None? then Passed(l, c) else Max(Passed(l, c), DialogNext(l, c.bucket.value))
  }

  function After(r: Rates, l: Limits, c: Call): Limits {
    Limits(Passed(l, c) + r.interval,
           if c.bucket.None? then l.dialogs else l.dialogs[c.bucket.value := Sent(l, c) + r.dialogInterval])
  }

  /** The moments at which calls are sent, in the order in which they pass the global limiter. */
  function Sends(r: Rates, l: Limits, cs: seq<Call>): (times: seq<real>)
    ensures |times| == |cs|
    decreases |cs|
  {
    if cs == [] then [] else [Sent(l, cs[0])] + Sends(r, After(r, l, cs[0]), cs[1..])
  }

  function Passes(r: Rates, l: Limits, cs: seq<Call>): (times: seq<real>)
    ensures |times| == |cs|
    decreases |cs|
  {
    if cs == [] then [] else [Passed(l, cs[0])] + Passes(r, After(r, l, cs[0]), cs[1..])
  }

  // ---------------------------------------------------------------- what the limits promise

  lemma {:induction false} NotBefore(r: Rates, l: Limits, cs: seq<Call>, j: nat)
    requires Sound(r) && j < |cs|
    ensures Passes(r, l, cs)[j] >= l.nextAt
    ensures Sends(r, l, cs)[j] >= Passes(r, l, cs)[j]
    ensures cs[j].bucket.Some? ==> Sends(r, l, cs)[j] >= DialogNext(l, cs[j].bucket.value)
    ensures cs[j].bucket.None? ==> Sends(r, l, cs)[j] == Passes(r, l, cs)[j]
    decreases j
  {
    if j > 0 {
      NotBefore(r, After(r, l, cs[0]), cs[1..], j - 1);
    }
  }

  /** Main result: two calls to one dialog keep the dialog's interval, and two calls pass the global limiter apart. */
  lemma {:induction false} CallsAreSpaced(r: Rates, l: Limits, cs: seq<Call>, i: nat, j: nat)
    requires Sound(r) && i < j < |cs|
    ensures Passes(r, l, cs)[j] >= Passes(r, l, cs)[i] + r.interval
    ensures cs[i].bucket.Some? && cs[j].bucket == cs[i].bucket ==>
              Sends(r, l, cs)[j] >= Sends(r, l, cs)[i] + r.dialogInterval
    decreases i
  {
    var next := After(r, l, cs[0]);
    if i > 0 {
      CallsAreSpaced(r, next, cs[1..], i - 1, j - 1);
    } else {
      NotBefore(r, next, cs[1..], j - 1);
    }
  }

  // Every call finds its dialog free.
  predicate NobodyWaits(r: Rates, l: Limits, cs: seq<Call>) {
    Sends(r, l, cs) == Passes(r, l, cs)
  }

  // Any two messages are sent the global interval apart, whatever their order.
  predicate Spread(r: Rates, times: seq<real>) {
    forall i, j :: 0 <= i < j < |times| ==> times[j] >= times[i] + r.interval || times[i] >= times[j] + r.interval
  }

  /** As long as nobody waits for a dialog, messages are sent as far apart as the global limiter asks. */
  lemma SpreadWhileNobodyWaits(r: Rates, l: Limits, cs: seq<Call>)
    requires Sound(r) && NobodyWaits(r, l, cs)
    ensures Spread(r, Sends(r, l, cs))
  {
    forall i, j | 0 <= i < j < |cs| ensures Sends(r, l, cs)[j] >= Sends(r, l, cs)[i] + r.interval {
      CallsAreSpaced(r, l, cs, i, j);
    }
  }

  // Calls to one dialog pass the global limiter the dialog's interval apart, and none before its dialog is free.
  predicate Unhurried(r: Rates, l: Limits, cs: seq<Call>) {
    && (forall j :: 0 <= j < |cs| && cs[j].bucket.Some? ==> Passes(r, l, cs)[j] >= DialogNext(l, cs[j].bucket.value))
    && (forall i, j :: 0 <= i < j < |cs| && cs[i].bucket.Some? && cs[j].bucket == cs[i].bucket ==>
          Passes(r, l, cs)[j] >= Passes(r, l, cs)[i] + r.dialogInterval)
  }

  lemma FirstCall(r: Rates, l: Limits, cs: seq<Call>)
    requires cs != []
    ensures
      var next := After(r, l, cs[0]);
      NobodyWaits(r, l, cs) <==> Sent(l, cs[0]) == Passed(l, cs[0]) && NobodyWaits(r, next, cs[1..])
  {
    var next := After(r, l, cs[0]);
    assert Sends(r, l, cs)[1..] == Sends(r, next, cs[1..]) && Passes(r, l, cs)[1..] == Passes(r, next, cs[1..]);
    assert Sends(r, l, cs) == [Sends(r, l, cs)[0]] + Sends(r, l, cs)[1..];
    assert Passes(r, l, cs) == [Passes(r, l, cs)[0]] + Passes(r, l, cs)[1..];
  }

  lemma UnhurriedRest(r: Rates, l: Limits, cs: seq<Call>)
    requires cs != [] && Sent(l, cs[0]) == Passed(l, cs[0]) && Unhurried(r, l, cs)
    ensures Unhurried(r, After(r, l, cs[0]), cs[1..])
  {
    var next, rest := After(r, l, cs[0]), cs[1..];
    forall j | 0 <= j < |rest| && rest[j].bucket.Some?
      ensures Passes(r, next, rest)[j] >= DialogNext(next, rest[j].bucket.value)
    {
      assert Passes(r, next, rest)[j] == Passes(r, l, cs)[j + 1] && rest[j] == cs[j + 1];
    }
    forall i, j | 0 <= i < j < |rest| && rest[i].bucket.Some? && rest[j].bucket == rest[i].bucket
      ensures Passes(r, next, rest)[j] >= Passes(r, next, rest)[i] + r.dialogInterval
    {
      assert Passes(r, l, cs)[j + 1] >= Passes(r, l, cs)[i + 1] + r.dialogInterval;
    }
  }

  lemma {:induction false} UnhurriedDoNotWait(r: Rates, l: Limits, cs: seq<Call>)
    requires Unhurried(r, l, cs)
    ensures NobodyWaits(r, l, cs)
    decreases |cs|
  {
    if cs != [] {
      UnhurriedRest(r, l, cs);
      UnhurriedDoNotWait(r, After(r, l, cs[0]), cs[1..]);
      FirstCall(r, l, cs);
    }
  }

  /**
   * Main result: no call waits for its dialog, and so messages keep the global interval, if and only if the calls to
   * one dialog pass the global limiter no faster than the dialog allows.
   */
  lemma NobodyWaitsIff(r: Rates, l: Limits, cs: seq<Call>)
    requires Sound(r)
    ensures NobodyWaits(r, l, cs) <==> Unhurried(r, l, cs)
    ensures NobodyWaits(r, l, cs) ==> Spread(r, Sends(r, l, cs))
  {
    if Unhurried(r, l, cs) {
      UnhurriedDoNotWait(r, l, cs);
    }
    if NobodyWaits(r, l, cs) {
      SpreadWhileNobodyWaits(r, l, cs);
      forall j | 0 <= j < |cs| && cs[j].bucket.Some?
        ensures Passes(r, l, cs)[j] >= DialogNext(l, cs[j].bucket.value)
      {
        NotBefore(r, l, cs, j);
      }
      forall i, j | 0 <= i < j < |cs| && cs[i].bucket.Some? && cs[j].bucket == cs[i].bucket
        ensures Passes(r, l, cs)[j] >= Passes(r, l, cs)[i] + r.dialogInterval
      {
        CallsAreSpaced(r, l, cs, i, j);
      }
    }
  }

  /**
   * The wait for a dialog comes after the global limiter, so messages are not globally spaced: whenever a dialog's
   * interval is at least twice the global one, a call held back by its dialog is sent at the same moment as a later one.
   */
  lemma TwoAtOnce(r: Rates, x: string, y: string)
    requires Sound(r) && r.dialogInterval >= 2.0 * r.interval && x != y
    ensures
      var cs := [Call(0.0, Some(x)), Call(r.interval, Some(x)), Call(r.dialogInterval, Some(y))];
      && Sends(r, Limits(0.0, map[]), cs) == [0.0, r.dialogInterval, r.dialogInterval]
      && !Spread(r, Sends(r, Limits(0.0, map[]), cs))
  {
    var a, b, c := Call(0.0, Some(x)), Call(r.interval, Some(x)), Call(r.dialogInterval, Some(y));
    var l := Limits(0.0, map[]);
    var l1 := After(r, l, a);
    var l2 := After(r, l1, b);
    assert [a, b, c][1..] == [b, c] && [b, c][1..] == [c] && [c][1..] == [];
    assert Sends(r, l2, [c]) == [Sent(l2, c)] + Sends(r, After(r, l2, c), []);
    assert Sends(r, l1, [b, c]) == [Sent(l1, b)] + Sends(r, l2, [c]);
    var times := Sends(r, l, [a, b, c]);
    assert times[1] == times[2];
  }

  // ---------------------------------------------------------------- how many messages a window can hold

  // Times at these indices rise by at least the gap from one index to the next.
  predicate Apart(times: seq<real>, indices: set<nat>, gap: real) {
    && (forall i <- indices :: i < |times|)
    && (forall i, j :: i in indices && j in indices && i < j ==> times[j] >= times[i] + gap)
  }

  lemma {:induction false} Latest(indices: set<nat>) returns (m: nat)
    requires indices != {}
    ensures m in indices && forall i <- indices :: i <= m
    decreases |indices|
  {
    m :| m in indices;
    var rest := indices - {m};
    if rest != {} {
      var n := Latest(rest);
      forall i <- indices ensures i == m || i <= n {
        assert i == m || i in rest;
      }
      m := if m < n then n else m;
    } else {
      forall i <- indices ensures i == m {
        assert i !in rest;
      }
    }
  }

  // n gaps in a row.
  function Span(n: nat, gap: real): real {
    n as real * gap
  }

  lemma SpanGrows(n: nat, gap: real)
    ensures Span(0, gap) == 0.0 && Span(n + 1, gap) == Span(n, gap) + gap
  {
  }

  /** So many times apart from each other take so long. */
  lemma {:induction false} ApartTakesLong(times: seq<real>, indices: set<nat>, gap: real, start: real, last: nat)
    requires gap > 0.0 && Apart(times, indices, gap) && forall i <- indices :: times[i] >= start
    requires last in indices && forall i <- indices :: i <= last
    ensures times[last] >= start + Span(|indices| - 1, gap)
    decreases |indices|
  {
    hide Span;
    var rest := indices - {last};
    assert |indices| == |rest| + 1;
    if rest != {} {
      var before := Latest(rest);
      ApartTakesLong(times, rest, gap, start, before);
      SpanGrows(|rest| - 1, gap);
      assert times[last] >= times[before] + gap;
    } else {
      SpanGrows(0, gap);
    }
  }

  function Room(length: real, gap: real): int
    requires gap > 0.0
  {
    (length / gap).Floor + 1
  }

  lemma ApartAreFew(times: seq<real>, indices: set<nat>, gap: real, start: real, length: real)
    requires gap > 0.0 && length >= 0.0 && Apart(times, indices, gap)
    requires forall i <- indices :: start <= times[i] <= start + length
    ensures |indices| <= Room(length, gap)
  {
    if indices != {} {
      var last := Latest(indices);
      ApartTakesLong(times, indices, gap, start, last);
      QuotientBounds(|indices| - 1, length, gap);
    } else {
      QuotientBounds(0, length, gap);
    }
  }

  // The calls of the window that go to one of these dialogs.
  function InDialogs(cs: seq<Call>, window: set<nat>, buckets: set<string>): set<nat> {
    set i | i in window && i < |cs| && cs[i].bucket.Some? && cs[i].bucket.value in buckets
  }

  function Buckets(cs: seq<Call>): set<string> {
    set i | 0 <= i < |cs| && cs[i].bucket.Some? :: cs[i].bucket.value
  }

  lemma DialogIsFew(
      r: Rates, l: Limits, cs: seq<Call>, window: set<nat>, start: real, length: real, bucket: string)
    requires Sound(r) && length >= 0.0
    requires forall i <- window :: i < |cs| && start <= Sends(r, l, cs)[i] <= start + length
    ensures |InDialogs(cs, window, {bucket})| <= Room(length, r.dialogInterval)
  {
    hide Sends, Room;
    var own := InDialogs(cs, window, {bucket});
    forall i, j | i in own && j in own && i < j
      ensures Sends(r, l, cs)[j] >= Sends(r, l, cs)[i] + r.dialogInterval
    {
      CallsAreSpaced(r, l, cs, i, j);
    }
    ApartAreFew(Sends(r, l, cs), own, r.dialogInterval, start, length);
  }

  lemma DialogsSplit(cs: seq<Call>, window: set<nat>, buckets: set<string>, bucket: string)
    requires bucket in buckets
    ensures InDialogs(cs, window, buckets)
         == InDialogs(cs, window, buckets - {bucket}) + InDialogs(cs, window, {bucket})
  {
  }

  lemma OneMoreDialog(n: nat, room: int)
    ensures (n + 1) * room == n * room + room
  {
  }

  lemma {:induction false} DialogsAreFew(
      r: Rates, l: Limits, cs: seq<Call>, window: set<nat>, start: real, length: real, buckets: set<string>)
    requires Sound(r) && length >= 0.0
    requires forall i <- window :: i < |cs| && start <= Sends(r, l, cs)[i] <= start + length
    ensures |InDialogs(cs, window, buckets)| <= |buckets| * Room(length, r.dialogInterval)
    decreases |buckets|
  {
    if buckets == {} {
      assert InDialogs(cs, window, buckets) == {};
    } else {
      hide Sends, Room, InDialogs;
      var bucket :| bucket in buckets;
      var rest := buckets - {bucket};
      assert |buckets| == |rest| + 1;
      DialogsAreFew(r, l, cs, window, start, length, rest);
      DialogIsFew(r, l, cs, window, start, length, bucket);
      DialogsSplit(cs, window, buckets, bucket);
      AtMostBoth(InDialogs(cs, window, rest), InDialogs(cs, window, {bucket}));
      OneMoreDialog(|rest|, Room(length, r.dialogInterval));
    }
  }

  lemma {:induction false} AtMostBoth(a: set<nat>, b: set<nat>)
    ensures |a + b| <= |a| + |b|
  {
    assert a + b == a + (b - a) && |b - a| <= |b| by {
      assert b == (b - a) + (a * b);
    }
  }

  lemma NoDialog(cs: seq<Call>, window: set<nat>, i: nat)
    requires i in window && i < |cs| && i !in InDialogs(cs, window, Buckets(cs))
    ensures cs[i].bucket.None?
  {
  }

  /**
   * Main result: what does hold of a closed window of the given length: each dialog sends at most
   * floor(length / dialogInterval) + 1 messages in it, and calls without a dialog at most
   * floor(length / interval) + 1.
   */
  lemma WindowHolds(r: Rates, l: Limits, cs: seq<Call>, window: set<nat>, start: real, length: real)
    requires Sound(r) && length >= 0.0
    requires forall i <- window :: i < |cs| && start <= Sends(r, l, cs)[i] <= start + length
    ensures |window| <= |Buckets(cs)| * Room(length, r.dialogInterval) + Room(length, r.interval)
  {
    DialogsAreFew(r, l, cs, window, start, length, Buckets(cs));
    var plain := window - InDialogs(cs, window, Buckets(cs));
    forall i, j | i in plain && j in plain && i < j ensures Sends(r, l, cs)[j] >= Sends(r, l, cs)[i] + r.interval {
      NoDialog(cs, window, i);
      NoDialog(cs, window, j);
      CallsAreSpaced(r, l, cs, i, j);
      NotBefore(r, l, cs, i);
      NotBefore(r, l, cs, j);
    }
    ApartAreFew(Sends(r, l, cs), plain, r.interval, start, length);
    assert window == InDialogs(cs, window, Buckets(cs)) + plain;
    AtMostBoth(InDialogs(cs, window, Buckets(cs)), plain);
  }

  // ---------------------------------------------------------------- the limiter of one access token

  class MaxRateLimits {
    const overall: IntervalLimiter
    const dialogRate: real
    var dialogs: map<string, IntervalLimiter>

    ghost predicate Valid()
      reads this, overall, dialogs.Values
    {
      && dialogRate > 0.0 && overall.interval > 0.0
      && (forall k :: k in dialogs ==> dialogs[k] != overall && dialogs[k].interval == 1.0 / dialogRate)
      && (forall k, m :: k in dialogs && m in dialogs && k != m ==> dialogs[k] != dialogs[m])
    }

    function State(): Limits
      reads this, overall, dialogs.Values
    {
      Limits(overall.nextAt, map k | k in dialogs :: dialogs[k].nextAt)
    }

    constructor (globalRate: real, dialogRate: real)
      requires globalRate > 0.0 && dialogRate > 0.0
      ensures Valid() && fresh(overall) && State() == Limits(0.0, map[])
      ensures overall.interval == 1.0 / globalRate && this.dialogRate == dialogRate
    {
      overall := new IntervalLimiter(globalRate);
      this.dialogRate := dialogRate;
      dialogs := map[];
    }

    /**
     * Passes the global limiter and then the dialog's own, which is made on its first call. overallClock and
     * dialogClock are what the two limiters read from the clock.
     */
    method Acquire(operation: string, dialogKey: Option<string>, overallClock: Reading, dialogClock: Reading)
      returns (sent: real)
      requires Valid()
      modifies this`dialogs, overall, dialogs.Values
      ensures Valid() && fresh(dialogs.Values - old(dialogs.Values))
      ensures
        var l := old(State());
        var passed, nextAt := GrantedAt(l.nextAt, overallClock), NextAt(l.nextAt, overall.interval, overallClock);
        if dialogKey.None? then sent == passed && State() == Limits(nextAt, l.dialogs)
        else
          var bucket := operation + ":" + dialogKey.value;
          var before := DialogNext(l, bucket);
          && sent == GrantedAt(before, dialogClock)
          && State() == Limits(nextAt, l.dialogs[bucket := NextAt(before, 1.0 / dialogRate, dialogClock)])
    {
      var d, passed := overall.Acquire(overallClock);
      sent := passed;
      if dialogKey.Some? {
        sent := Wait(operation + ":" + dialogKey.value, dialogClock);
      }
    }

    /** Waits for one dialog's limiter, which is made on its first call. */
    method Wait(bucket: string, dialogClock: Reading) returns (sent: real)
      requires Valid()
      modifies this`dialogs, dialogs.Values
      ensures Valid() && fresh(dialogs.Values - old(dialogs.Values)) && overall.nextAt == old(overall.nextAt)
      ensures sent == GrantedAt(DialogNext(old(State()), bucket), dialogClock)
      ensures
        var before := DialogNext(old(State()), bucket);
        State().dialogs == old(State()).dialogs[bucket := NextAt(before, 1.0 / dialogRate, dialogClock)]
    {
      if bucket !in dialogs {
        var made := new IntervalLimiter(dialogRate);
        dialogs := dialogs[bucket := made];
      }
      var limiter := dialogs[bucket];
      var d;
      d, sent := limiter.Acquire(dialogClock);
    }
  }

  /** With exact sleeps the two readings of a call give exactly the moments of the model. */
  lemma ExactReadings(r: Rates, l: Limits, c: Call)
    requires Sound(r)
    ensures
      var overallClock := Reading(c.at, l.nextAt);
      && GrantedAt(l.nextAt, overallClock) == Passed(l, c)
      && NextAt(l.nextAt, r.interval, overallClock) == After(r, l, c).nextAt
      && (c.bucket.Some? ==>
            var before := DialogNext(l, c.bucket.value);
            var dialogClock := Reading(Passed(l, c), before);
            && GrantedAt(before, dialogClock) == Sent(l, c)
            && l.dialogs[c.bucket.value := NextAt(before, r.dialogInterval, dialogClock)] == After(r, l, c).dialogs)
  {
  }
}
