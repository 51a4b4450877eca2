/** Reminders of an initiative poll: who is due, and what batches of reminders add up to. */
module ReminderRows {
  import opened Basics
  import opened Polls

  datatype ReminderPolicy = ReminderPolicy(minInterval: Time, maxPerResident: int, stopBeforeDeadline: Time) {
    predicate Valid() {
      minInterval > 0 && maxPerResident > 0 && stopBeforeDeadline >= 0
    }
  }

  datatype ReminderRow = ReminderRow(pollId: Id, resident: Id, number: int, queuedAt: Time)

  datatype BatchRow = BatchRow(pollId: Id, targets: seq<Id>)

  // Reminders in order of insertion; batches by house and operation key.
  datatype ReminderLog = ReminderLog(rows: seq<ReminderRow>, batches: map<(Id, string), BatchRow>)

  predicate IsFor(row: ReminderRow, pollId: Id, resident: Id) {
    row.pollId == pollId && row.resident == resident
  }

  /** The row with the highest number. */
  function LastReminder(rows: seq<ReminderRow>, pollId: Id, resident: Id): Option<ReminderRow> {
    if rows == [] then None
    else
      var last, rest := rows[|rows| - 1], LastReminder(rows[..|rows| - 1], pollId, resident);
      if !IsFor(last, pollId, resident) || (rest.Some? && rest.value.number > last.number) then rest else Some(last)
  }

  function CountReminders(rows: seq<ReminderRow>, pollId: Id, resident: Id): nat {
    if rows == [] then 0
    else
      CountReminders(rows[..|rows| - 1], pollId, resident)
      + (if IsFor(rows[|rows| - 1], pollId, resident) then 1 else 0)
  }

  function NextNumber(rows: seq<ReminderRow>, pollId: Id, resident: Id): int {
    match LastReminder(rows, pollId, resident)
    case None => 1
    case Some(last) => last.number + 1
  }

  predicate IsDue(rows: seq<ReminderRow>, pollId: Id, resident: Id, now: Time, policy: ReminderPolicy) {
    && NextNumber(rows, pollId, resident) <= policy.maxPerResident
    && var last := LastReminder(rows, pollId, resident);
       last.Some? ==> now - last.value.queuedAt >= policy.minInterval
  }

  function DueAmong(rows: seq<ReminderRow>, pollId: Id, residents: seq<Id>, now: Time, policy: ReminderPolicy): seq<Id> {
    if residents == [] then []
    else
      var last := residents[|residents| - 1];
      DueAmong(rows, pollId, residents[..|residents| - 1], now, policy)
      + (if IsDue(rows, pollId, last, now, policy) then [last] else [])
  }

  /** The rows a batch adds for its targets. */
  function NewRows(rows: seq<ReminderRow>, pollId: Id, targets: seq<Id>, now: Time): seq<ReminderRow> {
    seq(|targets|, i requires 0 <= i < |targets| =>
      ReminderRow(pollId, targets[i], NextNumber(rows, pollId, targets[i]), now))
  }

  /** Candidates of the frozen audience who have not answered and can be reached. */
  function Silent(poll: PollState, candidates: seq<Id>, reachable: set<Id>): set<Id> {
    set r | r in candidates && r in poll.definition.eligible && CurrentChoice(poll.answers, r).None? && r in reachable
  }

  function Wanted(poll: PollState, candidates: seq<Id>, reachable: set<Id>): seq<Id> {
    Ascending(Silent(poll, candidates, reachable))
  }

  // The poll takes answers and its last stretch has not begun.
  predicate TakesReminders(poll: PollState, now: Time, policy: ReminderPolicy) {
    poll.status.Open? && now < poll.definition.closesAt - policy.stopBeforeDeadline
  }

  function Targets(
      log: ReminderLog, poll: PollState, candidates: seq<Id>, reachable: set<Id>, now: Time, policy: ReminderPolicy)
    : seq<Id>
  {
    DueAmong(log.rows, poll.definition.pollId, Wanted(poll, candidates, reachable), now, policy)
  }

  function WithBatch(log: ReminderLog, houseId: Id, key: string, pollId: Id, targets: seq<Id>, now: Time): ReminderLog {
    ReminderLog(log.rows + NewRows(log.rows, pollId, targets, now),
                log.batches[(houseId, key) := BatchRow(pollId, targets)])
  }

  // ---------------------------------------------------------------- facts about a batch

  predicate Rising(residents: seq<Id>) {
    forall i, j :: 0 <= i < j < |residents| ==> residents[i] < residents[j]
  }

  lemma {:induction false} DueAmongMembers(
      rows: seq<ReminderRow>, pollId: Id, residents: seq<Id>, now: Time, policy: ReminderPolicy)
    ensures forall r :: r in DueAmong(rows, pollId, residents, now, policy)
                   <==> r in residents && IsDue(rows, pollId, r, now, policy)
  {
    hide IsDue;
    if residents != [] {
      var n := |residents| - 1;
      DueAmongMembers(rows, pollId, residents[..n], now, policy);
      assert residents == residents[..n] + [residents[n]];
    }
  }

  lemma {:induction false} DueAmongOrdered(
      rows: seq<ReminderRow>, pollId: Id, residents: seq<Id>, now: Time, policy: ReminderPolicy)
    requires Rising(residents)
    ensures Rising(DueAmong(rows, pollId, residents, now, policy))
  {
    hide IsDue;
    if residents != [] {
      var n := |residents| - 1;
      var front := DueAmong(rows, pollId, residents[..n], now, policy);
      DueAmongOrdered(rows, pollId, residents[..n], now, policy);
      forall i | 0 <= i < |front| ensures front[i] < residents[n] {
        DueAmongMembers(rows, pollId, residents[..n], now, policy);
        assert front[i] in front;
        var k :| 0 <= k < n && residents[..n][k] == front[i];
        assert residents[k] < residents[n];
      }
      var due := DueAmong(rows, pollId, residents, now, policy);
      forall i, j | 0 <= i < j < |due| ensures due[i] < due[j] {
        assert due[i] == front[i];
        assert j < |front| ==> due[j] == front[j];
      }
    }
  }

  /** Who is reminded: exactly the reachable silent candidates of the audience who are due, each once. */
  lemma TargetsAre(
      log: ReminderLog, poll: PollState, candidates: seq<Id>, reachable: set<Id>, now: Time, policy: ReminderPolicy)
    ensures
      var targets := Targets(log, poll, candidates, reachable, now, policy);
      && (forall r :: r in targets <==>
            && r in candidates && r in poll.definition.eligible && CurrentChoice(poll.answers, r).None? && r in reachable
            && IsDue(log.rows, poll.definition.pollId, r, now, policy))
      && Rising(targets)
  {
    AscendingLists(Silent(poll, candidates, reachable));
    DueAmongMembers(log.rows, poll.definition.pollId, Wanted(poll, candidates, reachable), now, policy);
    DueAmongOrdered(log.rows, poll.definition.pollId, Wanted(poll, candidates, reachable), now, policy);
  }

  // ---------------------------------------------------------------- all batches under one policy

  /** Every reminder is its resident's next in number, within the limit, and late enough after the one before. */
  predicate Paced(rows: seq<ReminderRow>, policy: ReminderPolicy) {
    rows == [] ||
    (var last, front := rows[|rows| - 1], rows[..|rows| - 1];
     && Paced(front, policy)
     && IsDue(front, last.pollId, last.resident, last.queuedAt, policy)
     && last.number == NextNumber(front, last.pollId, last.resident))
  }

  lemma {:induction false} LastIsNumbered(rows: seq<ReminderRow>, policy: ReminderPolicy, pollId: Id, resident: Id)
    requires Paced(rows, policy)
    ensures
      match LastReminder(rows, pollId, resident)
      case None => CountReminders(rows, pollId, resident) == 0
      case Some(row) => row in rows && IsFor(row, pollId, resident)
                        && row.number == CountReminders(rows, pollId, resident) > 0
  {
    if rows != [] {
      LastIsNumbered(rows[..|rows| - 1], policy, pollId, resident);
      assert rows == rows[..|rows| - 1] + [rows[|rows| - 1]];
    }
  }

  lemma Appended(rows: seq<ReminderRow>, row: ReminderRow, policy: ReminderPolicy)
    requires Paced(rows, policy) && IsDue(rows, row.pollId, row.resident, row.queuedAt, policy)
    requires row.number == NextNumber(rows, row.pollId, row.resident)
    ensures Paced(rows + [row], policy)
  {
    assert (rows + [row])[..|rows|] == rows;
  }

  /** A row for one resident leaves the others' last reminders alone. */
  lemma OthersUntouched(rows: seq<ReminderRow>, row: ReminderRow, pollId: Id, resident: Id)
    requires !IsFor(row, pollId, resident)
    ensures LastReminder(rows + [row], pollId, resident) == LastReminder(rows, pollId, resident)
  {
    assert (rows + [row])[..|rows|] == rows;
  }

  lemma {:induction false} BatchKeepsPace(
      rows: seq<ReminderRow>, pollId: Id, targets: seq<Id>, now: Time, policy: ReminderPolicy)
    requires Paced(rows, policy)
    requires forall i, j :: 0 <= i < j < |targets| ==> targets[i] != targets[j]
    requires forall r <- targets :: IsDue(rows, pollId, r, now, policy)
    ensures Paced(rows + NewRows(rows, pollId, targets, now), policy)
    ensures forall r :: r !in targets ==>
              LastReminder(rows + NewRows(rows, pollId, targets, now), pollId, r) == LastReminder(rows, pollId, r)
  {
    if targets == [] {
      assert rows + NewRows(rows, pollId, targets, now) == rows;
    } else {
      var n := |targets| - 1;
      var front := targets[..n];
      BatchKeepsPace(rows, pollId, front, now, policy);
      var before := rows + NewRows(rows, pollId, front, now);
      var row := ReminderRow(pollId, targets[n], NextNumber(rows, pollId, targets[n]), now);
      assert rows + NewRows(rows, pollId, targets, now) == before + [row];
      assert targets[n] in targets && targets[n] !in front;
      assert LastReminder(before, pollId, targets[n]) == LastReminder(rows, pollId, targets[n]);
      Appended(before, row, policy);
      forall r | r !in targets ensures LastReminder(before + [row], pollId, r) == LastReminder(rows, pollId, r) {
        OthersUntouched(before, row, pollId, r);
      }
    }
  }

  datatype BatchMove = BatchMove(
    houseId: Id, key: string, poll: PollState, candidates: seq<Id>, reachable: set<Id>, now: Time)

  /** A known key adds nothing, and a poll that takes no reminders gets none. */
  function Apply(log: ReminderLog, m: BatchMove, policy: ReminderPolicy): ReminderLog {
    if (m.houseId, m.key) in log.batches || !TakesReminders(m.poll, m.now, policy) then log
    else
      WithBatch(log, m.houseId, m.key, m.poll.definition.pollId,
                Targets(log, m.poll, m.candidates, m.reachable, m.now, policy), m.now)
  }

  function Run(log: ReminderLog, ms: seq<BatchMove>, policy: ReminderPolicy): ReminderLog
    decreases |ms|
  {
    if ms == [] then log else Run(Apply(log, ms[0], policy), ms[1..], policy)
  }

  lemma {:induction false} RunKeepsPace(log: ReminderLog, ms: seq<BatchMove>, policy: ReminderPolicy)
    requires Paced(log.rows, policy)
    ensures Paced(Run(log, ms, policy).rows, policy)
    ensures log.rows <= Run(log, ms, policy).rows
    ensures forall at :: at in log.batches ==>
              at in Run(log, ms, policy).batches && Run(log, ms, policy).batches[at] == log.batches[at]
    decreases |ms|
  {
    if ms != [] {
      var m := ms[0];
      TargetsAre(log, m.poll, m.candidates, m.reachable, m.now, policy);
      BatchKeepsPace(log.rows, m.poll.definition.pollId, Targets(log, m.poll, m.candidates, m.reachable, m.now, policy),
                     m.now, policy);
      RunKeepsPace(Apply(log, m, policy), ms[1..], policy);
    }
  }

  lemma {:induction false} PacedEntry(rows: seq<ReminderRow>, policy: ReminderPolicy, i: nat)
    requires Paced(rows, policy) && i < |rows|
    ensures Paced(rows[..i], policy) && IsDue(rows[..i], rows[i].pollId, rows[i].resident, rows[i].queuedAt, policy)
    ensures rows[i].number == NextNumber(rows[..i], rows[i].pollId, rows[i].resident)
  {
    if i < |rows| - 1 {
      PacedEntry(rows[..|rows| - 1], policy, i);
      assert rows[..|rows| - 1][..i] == rows[..i];
    }
  }

  lemma {:induction false} LastSince(rows: seq<ReminderRow>, policy: ReminderPolicy, i: nat)
    requires Paced(rows, policy) && i < |rows| && policy.Valid()
    ensures
      var last := LastReminder(rows, rows[i].pollId, rows[i].resident);
      && last.Some? && last.value.number >= rows[i].number && last.value.queuedAt >= rows[i].queuedAt
      && (last.value.number > rows[i].number ==> last.value.queuedAt - rows[i].queuedAt >= policy.minInterval)
      && (last.value.number == rows[i].number ==> last.value == rows[i])
  {
    var n := |rows| - 1;
    if i < n {
      LastSince(rows[..n], policy, i);
    } else {
      LastIsNumbered(rows[..n], policy, rows[i].pollId, rows[i].resident);
    }
  }

  /**
   * Main result: over all batches of a policy a resident's reminders about a poll are numbered 1, 2, ... in
   * order, no further than the limit, and any two of them are at least the interval apart.
   */
  lemma RemindersArePaced(ms: seq<BatchMove>, policy: ReminderPolicy)
    requires policy.Valid()
    ensures
      var rows := Run(ReminderLog([], map[]), ms, policy).rows;
      && (forall i :: 0 <= i < |rows| ==>
            && rows[i].number == CountReminders(rows[..i], rows[i].pollId, rows[i].resident) + 1
            && rows[i].number <= policy.maxPerResident)
      && (forall i, j :: 0 <= i < j < |rows| && IsFor(rows[j], rows[i].pollId, rows[i].resident) ==>
            rows[i].number < rows[j].number && rows[j].queuedAt - rows[i].queuedAt >= policy.minInterval)
  {
    RunKeepsPace(ReminderLog([], map[]), ms, policy);
    var rows := Run(ReminderLog([], map[]), ms, policy).rows;
    forall i | 0 <= i < |rows|
      ensures rows[i].number == CountReminders(rows[..i], rows[i].pollId, rows[i].resident) + 1
      ensures rows[i].number <= policy.maxPerResident
    {
      PacedEntry(rows, policy, i);
      LastIsNumbered(rows[..i], policy, rows[i].pollId, rows[i].resident);
    }
    forall i, j | 0 <= i < j < |rows| && IsFor(rows[j], rows[i].pollId, rows[i].resident)
      ensures rows[i].number < rows[j].number && rows[j].queuedAt - rows[i].queuedAt >= policy.minInterval
    {
      PacedEntry(rows, policy, j);
      LastSince(rows[..j], policy, i);
    }
  }

  // Every reminder of the resident about the poll is at least the interval old.
  predicate LongAgo(rows: seq<ReminderRow>, pollId: Id, resident: Id, now: Time, policy: ReminderPolicy) {
    forall i :: 0 <= i < |rows| && IsFor(rows[i], pollId, resident) ==> now - rows[i].queuedAt >= policy.minInterval
  }

  /** Who is due: whoever was reminded less often than allowed, and not lately. */
  lemma DueIff(rows: seq<ReminderRow>, pollId: Id, resident: Id, now: Time, policy: ReminderPolicy)
    requires Paced(rows, policy) && policy.Valid()
    ensures IsDue(rows, pollId, resident, now, policy) <==>
              CountReminders(rows, pollId, resident) < policy.maxPerResident && LongAgo(rows, pollId, resident, now, policy)
    ensures NextNumber(rows, pollId, resident) == CountReminders(rows, pollId, resident) + 1
  {
    LastIsNumbered(rows, policy, pollId, resident);
    forall i | 0 <= i < |rows| && IsFor(rows[i], pollId, resident)
      ensures LastReminder(rows, pollId, resident).Some?
      ensures LastReminder(rows, pollId, resident).value.queuedAt >= rows[i].queuedAt
    {
      LastSince(rows, policy, i);
    }
  }

  // A candidate of the audience who has not answered, can be reached, and was not reminded too often or too lately.
  predicate ToRemind(log: ReminderLog, m: BatchMove, policy: ReminderPolicy, r: Id) {
    var pollId := m.poll.definition.pollId;
    && r in m.candidates && r in m.poll.definition.eligible && CurrentChoice(m.poll.answers, r).None? && r in m.reachable
    && CountReminders(log.rows, pollId, r) < policy.maxPerResident && LongAgo(log.rows, pollId, r, m.now, policy)
  }

  /**
   * Main result: a new batch of a poll that takes reminders reminds exactly the residents who are to be reminded, each
   * once, with the next number, now, and records them; on any other poll it does nothing.
   */
  lemma BatchRemindsExactly(log: ReminderLog, m: BatchMove, policy: ReminderPolicy)
    requires Paced(log.rows, policy) && policy.Valid() && (m.houseId, m.key) !in log.batches
    ensures
      var u, n, pollId := Apply(log, m, policy), |log.rows|, m.poll.definition.pollId;
      if m.poll.status.Open? && m.now < m.poll.definition.closesAt - policy.stopBeforeDeadline then
        && log.rows <= u.rows
        && (forall i :: n <= i < |u.rows| ==>
              && ToRemind(log, m, policy, u.rows[i].resident) && u.rows[i].pollId == pollId
              && u.rows[i].queuedAt == m.now
              && u.rows[i].number == CountReminders(log.rows, pollId, u.rows[i].resident) + 1)
        && (forall i, j :: n <= i < j < |u.rows| ==> u.rows[i].resident < u.rows[j].resident)
        && (forall r :: ToRemind(log, m, policy, r) ==> exists i :: n <= i < |u.rows| && u.rows[i].resident == r)
        && u.batches.Keys == log.batches.Keys + {(m.houseId, m.key)}
        && (forall at :: at in log.batches ==> u.batches[at] == log.batches[at])
        && u.batches[(m.houseId, m.key)].pollId == pollId
        && |u.batches[(m.houseId, m.key)].targets| == |u.rows| - n
        && (forall i :: n <= i < |u.rows| ==> u.batches[(m.houseId, m.key)].targets[i - n] == u.rows[i].resident)
      else u == log
  {
    hide Paced, Targets, ToRemind, NextNumber, CountReminders, Apply;
    AppliedRows(log, m, policy);
    if TakesReminders(m.poll, m.now, policy) {
      TargetsToRemind(log, m, policy);
      NumberedNext(log.rows, m.poll.definition.pollId, policy);
      var targets := Targets(log, m.poll, m.candidates, m.reachable, m.now, policy);
      var u, n := Apply(log, m, policy), |log.rows|;
      forall i | n <= i < |u.rows| ensures ToRemind(log, m, policy, u.rows[i].resident) {
        assert targets[i - n] in targets;
      }
      Reminded(u.rows, n, targets);
      hide Rising;
    }
  }

  /** The residents of the last rows, in order, are these. */
  lemma Reminded(rows: seq<ReminderRow>, n: nat, targets: seq<Id>)
    requires |rows| == n + |targets| && forall i :: n <= i < |rows| ==> rows[i].resident == targets[i - n]
    requires Rising(targets)
    ensures forall i, j :: n <= i < j < |rows| ==> rows[i].resident < rows[j].resident
    ensures forall r <- targets :: exists i :: n <= i < |rows| && rows[i].resident == r
  {
    forall r <- targets ensures exists i :: n <= i < |rows| && rows[i].resident == r {
      var k :| 0 <= k < |targets| && targets[k] == r;
      assert rows[n + k].resident == r;
    }
  }

  lemma AppliedRows(log: ReminderLog, m: BatchMove, policy: ReminderPolicy)
    requires (m.houseId, m.key) !in log.batches
    ensures !TakesReminders(m.poll, m.now, policy) ==> Apply(log, m, policy) == log
    ensures TakesReminders(m.poll, m.now, policy) ==>
      var u, n, pollId := Apply(log, m, policy), |log.rows|, m.poll.definition.pollId;
      var targets := Targets(log, m.poll, m.candidates, m.reachable, m.now, policy);
      && |u.rows| == n + |targets| && u.rows[..n] == log.rows
      && (forall i :: n <= i < |u.rows| ==>
            u.rows[i] == ReminderRow(pollId, targets[i - n], NextNumber(log.rows, pollId, targets[i - n]), m.now))
      && u.batches == log.batches[(m.houseId, m.key) := BatchRow(pollId, targets)]
  {
    hide Targets, NextNumber;
  }

  lemma TargetsToRemind(log: ReminderLog, m: BatchMove, policy: ReminderPolicy)
    requires Paced(log.rows, policy) && policy.Valid()
    ensures Rising(Targets(log, m.poll, m.candidates, m.reachable, m.now, policy))
    ensures forall r :: r in Targets(log, m.poll, m.candidates, m.reachable, m.now, policy)
                   <==> ToRemind(log, m, policy, r)
  {
    TargetsAre(log, m.poll, m.candidates, m.reachable, m.now, policy);
    hide Paced, Targets, IsDue, LongAgo, CurrentChoice, CountReminders, NextNumber;
    forall r ensures r in Targets(log, m.poll, m.candidates, m.reachable, m.now, policy)
                <==> ToRemind(log, m, policy, r) {
      DueIff(log.rows, m.poll.definition.pollId, r, m.now, policy);
    }
  }

  lemma NumberedNext(rows: seq<ReminderRow>, pollId: Id, policy: ReminderPolicy)
    requires Paced(rows, policy)
    ensures forall r :: NextNumber(rows, pollId, r) == CountReminders(rows, pollId, r) + 1
  {
    forall r ensures NextNumber(rows, pollId, r) == CountReminders(rows, pollId, r) + 1 {
      LastIsNumbered(rows, policy, pollId, r);
    }
  }

  /** A batch key that acted never acts again. */
  lemma KeyActsOnce(log: ReminderLog, m: BatchMove, ms: seq<BatchMove>, again: BatchMove, policy: ReminderPolicy)
    requires Paced(log.rows, policy) && TakesReminders(m.poll, m.now, policy)
    requires again.houseId == m.houseId && again.key == m.key
    ensures
      var u := Apply(log, m, policy);
      (m.houseId, m.key) in u.batches && Apply(Run(u, ms, policy), again, policy) == Run(u, ms, policy)
  {
    hide Paced, Targets, NewRows;
    RunKeepsPace(log, [m], policy);
    RunKeepsPace(Apply(log, m, policy), ms, policy);
  }

  /** Main result: a batch reminds nobody who has answered or whom the stop window protects, and its key acts once. */
  lemma BatchesSpareTheAnswered(log: ReminderLog, m: BatchMove, ms: seq<BatchMove>, policy: ReminderPolicy)
    requires Paced(log.rows, policy)
    ensures
      var u := Apply(log, m, policy);
      && (forall i :: |log.rows| <= i < |u.rows| ==>
            && u.rows[i].pollId == m.poll.definition.pollId && u.rows[i].queuedAt == m.now
            && m.now < m.poll.definition.closesAt - policy.stopBeforeDeadline
            && u.rows[i].resident in m.poll.definition.eligible
            && CurrentChoice(m.poll.answers, u.rows[i].resident).None?)
      && (TakesReminders(m.poll, m.now, policy) ==>
            && (m.houseId, m.key) in u.batches
            && forall again: BatchMove :: again.houseId == m.houseId && again.key == m.key ==>
                 Apply(Run(u, ms, policy), again, policy) == Run(u, ms, policy))
  {
    hide IsDue, Paced, CurrentChoice, DueAmong, Wanted, NextNumber;
    TargetsAre(log, m.poll, m.candidates, m.reachable, m.now, policy);
    if TakesReminders(m.poll, m.now, policy) {
      forall again: BatchMove | again.houseId == m.houseId && again.key == m.key
        ensures (m.houseId, m.key) in Apply(log, m, policy).batches
        ensures Apply(Run(Apply(log, m, policy), ms, policy), again, policy) == Run(Apply(log, m, policy), ms, policy)
      {
        KeyActsOnce(log, m, ms, again, policy);
      }
    }
  }
}
