/** The transaction that queues a batch of reminders. */
module ReminderStore {
  import opened Basics
  import opened Polls
  import opened OutboxRows
  import opened PollTables
  import opened InitiativeRows
  import opened ReminderRows
  import opened Database
  import PollStore
  import DeliveryQueue

  const MAX_BATCH_KEY := 250
  const QUOTED := 2000

  predicate IsCurrentPoll(b: Book, c: Id, houseId: Id, pollId: Id) {
    && HasInitiative(b, c, houseId)
    && b.rows[c].currentRevision in RevisionsOf(b, c) && RevisionsOf(b, c)[b.rows[c].currentRevision].pollId == pollId
  }

  /** The revision whose poll this is, while it is the current one of its initiative. */
  function CurrentRevision(b: Book, houseId: Id, pollId: Id): Option<InitiativeRevision> {
    var cases := set c | c in b.rows && IsCurrentPoll(b, c, houseId, pollId);
    if cases == {} then None else Some(RevisionsOf(b, Least(cases))[b.rows[Least(cases)].currentRevision])
  }

  function CheckBatch(
      t: Tables, b: Book, log: ReminderLog, pollId: Id, houseId: Id, version: int, now: Time, policy: ReminderPolicy,
      key: string)
    : Verdict<seq<Id>>
  {
    if key == "" || |key| > MAX_BATCH_KEY then Refuse(InvalidOperationKey)
    else if !PollStore.Visible(t, pollId, houseId) then Refuse(Conflict)
    else if (houseId, key) in log.batches then
      if log.batches[(houseId, key)].pollId == pollId then Replay(log.batches[(houseId, key)].targets)
      else Refuse(Conflict)
    else if Load(t, pollId).version != version || !TakesReminders(Load(t, pollId), now, policy) then Refuse(Conflict)
    else if CurrentRevision(b, houseId, pollId).None? then Refuse(Conflict)
    else Proceed
  }

  function ReminderText(wording: string): string {
    "Reminder of the initiative: " + (if |wording| > QUOTED then wording[..QUOTED] else wording)
  }

  function Notice(rows: seq<ReminderRow>, houseId: Id, pollId: Id, wording: string, resident: Id): DeliveryIntent {
    DeliveryIntent(houseId, Reminder(pollId, resident, NextNumber(rows, pollId, resident)), ReminderText(wording),
                   Some(resident), None, None, None, [])
  }

  function Notices(rows: seq<ReminderRow>, houseId: Id, pollId: Id, wording: string, residents: seq<Id>)
    : seq<DeliveryIntent>
  {
    seq(|residents|, i requires 0 <= i < |residents| => Notice(rows, houseId, pollId, wording, residents[i]))
  }

  /** A reminder goes to its resident alone, in private, once per number, and quotes the wording. */
  lemma NoticeSays(
      rows: seq<ReminderRow>, houseId: Id, pollId: Id, wording: string, resident: Id, other: Id)
    ensures
      var notice := Notice(rows, houseId, pollId, wording, resident);
      var quoted := if |wording| > QUOTED then wording[..QUOTED] else wording;
      && notice.houseId == houseId && notice.recipient == Some(resident) && notice.chat.None?
      && notice.editKey.None? && notice.fileKey.None? && notice.buttons == []
      && notice.operationKey == Reminder(pollId, resident, NextNumber(rows, pollId, resident))
      && |quoted| <= |notice.text| && notice.text[|notice.text| - |quoted|..] == quoted
      && (notice.operationKey == Notice(rows, houseId, pollId, wording, other).operationKey <==> resident == other)
  {
  }

  /** The wording comes from the current revision of an initiative of the house, the one whose poll this is. */
  lemma CurrentRevisionSays(b: Book, houseId: Id, pollId: Id)
    ensures CurrentRevision(b, houseId, pollId).Some? <==> exists c :: c in b.rows && IsCurrentPoll(b, c, houseId, pollId)
    ensures CurrentRevision(b, houseId, pollId).Some? ==>
              exists c :: c in b.rows && IsCurrentPoll(b, c, houseId, pollId) && b.rows[c].houseId == houseId
                          && CurrentRevision(b, houseId, pollId).value == RevisionsOf(b, c)[b.rows[c].currentRevision]
                          && CurrentRevision(b, houseId, pollId).value.pollId == pollId
  {
    var cases := set c | c in b.rows && IsCurrentPoll(b, c, houseId, pollId);
    if cases != {} {
      assert Least(cases) in cases;
    } else {
      forall c | c in b.rows ensures !IsCurrentPoll(b, c, houseId, pollId) {
        assert c !in cases;
      }
    }
  }

  /** A new key is taken exactly for an open poll of the house, at the version seen, before its last stretch begins. */
  lemma BatchAllowedIff(
      t: Tables, b: Book, log: ReminderLog, pollId: Id, houseId: Id, version: int, now: Time, policy: ReminderPolicy,
      key: string)
    ensures CheckBatch(t, b, log, pollId, houseId, version, now, policy, key) == Proceed <==>
      && 0 < |key| <= 250 && (houseId, key) !in log.batches
      && pollId in t.polls && t.polls[pollId].houseId == houseId && t.polls[pollId].version == version
      && t.polls[pollId].status.Open? && now < t.polls[pollId].closesAt - policy.stopBeforeDeadline
      && CurrentRevision(b, houseId, pollId).Some?
    ensures pollId in t.polls && t.polls[pollId].houseId == houseId && 0 < |key| <= 250
            && (houseId, key) in log.batches ==>
      CheckBatch(t, b, log, pollId, houseId, version, now, policy, key) ==
        if log.batches[(houseId, key)].pollId == pollId then Replay(log.batches[(houseId, key)].targets)
        else Refuse(Conflict)
  {
    hide CurrentRevision, OrderedAnswers, HistoryOf;
  }

  lemma NoticeIsPlain(
      chats: map<string, Id>, outbox: Outbox, rows: seq<ReminderRow>, houseId: Id, pollId: Id, wording: string,
      resident: Id)
    ensures DeliveryQueue.Refusal(chats, outbox, Notice(rows, houseId, pollId, wording, resident)).None?
    ensures Notice(rows, houseId, pollId, wording, resident).editKey.None?
  {
    assert |ReminderText(wording)| > 0;
  }

  lemma NoticeAdded(
      before: Outbox, after: Outbox, rows: seq<ReminderRow>, houseId: Id, pollId: Id, wording: string, resident: Id,
      newId: Id, now: Time)
    requires newId !in before
    requires
      var intent := Notice(rows, houseId, pollId, wording, resident);
      && (after == before || after == before[newId := NewDelivery(intent, now)])
      && HasDelivery(after, intent.houseId, intent.operationKey)
    ensures forall x :: KeyClash(after, Notice(rows, houseId, pollId, wording, x))
                   <==> KeyClash(before, Notice(rows, houseId, pollId, wording, x))
    ensures forall x :: Noticed(after, rows, houseId, pollId, x)
                   <==> Noticed(before, rows, houseId, pollId, x) || x == resident
  {
    forall x
      ensures KeyClash(after, Notice(rows, houseId, pollId, wording, x))
         <==> KeyClash(before, Notice(rows, houseId, pollId, wording, x))
      ensures Noticed(after, rows, houseId, pollId, x) <==> Noticed(before, rows, houseId, pollId, x) || x == resident
    {
      DeliveryQueue.KeysAfter(before, after, Notice(rows, houseId, pollId, wording, resident), newId, now,
                              Notice(rows, houseId, pollId, wording, x));
    }
  }

  // The resident's next reminder is in the outbox.
  predicate Noticed(outbox: Outbox, rows: seq<ReminderRow>, houseId: Id, pollId: Id, resident: Id) {
    HasDelivery(outbox, houseId, Reminder(pollId, resident, NextNumber(rows, pollId, resident)))
  }

  class FollowupRepository {
    const session: Session

    constructor (session: Session)
      ensures this.session == session
    {
      this.session := session;
    }

    /**
     * Queues one reminder for every candidate who is due, logs them and records the batch under its key; a
     * repeated key returns the recorded targets and adds nothing.
     */
    method EnqueueReminders(
        pollId: Id, houseId: Id, version: int, candidates: seq<Id>, reachable: set<Id>, now: Time, policy: ReminderPolicy,
        key: string, newIds: seq<Id>)
      returns (r: Result<seq<Id>, InitiativeError>)
      requires UniqueDeliveries(session.outbox) && DeliveryQueue.FreshIds(newIds, session.outbox)
      requires |newIds| >= |candidates|
      modifies session`outbox, session`reminders
      ensures UniqueDeliveries(session.outbox)
      ensures
        var log, outbox := old(session.reminders), old(session.outbox);
        match CheckBatch(session.polls, session.initiatives, log, pollId, houseId, version, now, policy, key)
        case Refuse(e) => r == Err(e) && session.reminders == log && session.outbox == outbox
        case Replay(targets) => r == Ok(targets) && session.reminders == log && session.outbox == outbox
        case Proceed =>
          var wording := CurrentRevision(session.initiatives, houseId, pollId).value.wording;
          var targets := Targets(log, Load(session.polls, pollId), candidates, reachable, now, policy);
          if exists x <- targets :: KeyClash(outbox, Notice(log.rows, houseId, pollId, wording, x)) then
            r == Err(NoticeRefused) && session.reminders == log && session.outbox == outbox
          else
            && r == Ok(targets) && session.reminders == WithBatch(log, houseId, key, pollId, targets, now)
            && DeliveryQueue.Adds(outbox, session.outbox, Notices(log.rows, houseId, pollId, wording, targets), now)
            && forall x <- targets :: Noticed(session.outbox, log.rows, houseId, pollId, x)
    {
      hide Load, UniqueDeliveries, Notice, NewRows, KeyClash, DeliveryQueue.Adds, CurrentRevision,
           TakesReminders, Wanted, Noticed, Notices;
      var verdict := CheckBatch(session.polls, session.initiatives, session.reminders, pollId, houseId, version, now,
                                policy, key);
      if verdict.Refuse? {
        return Err(verdict.error);
      }
      if verdict.Replay? {
        return Ok(verdict.result);
      }
      var log, outbox := session.reminders, session.outbox;
      var poll, revision := Load(session.polls, pollId), CurrentRevision(session.initiatives, houseId, pollId).value;
      LoadedId(session.polls, pollId);
      WantedFits(poll, candidates, reachable);
      var wanted := Wanted(poll, candidates, reachable);
      var ok, planned := QueueDue(pollId, houseId, revision.wording, wanted, now, policy, newIds);
      if !ok {
        session.reminders, session.outbox := log, outbox;
        return Err(NoticeRefused);
      }
      session.reminders := session.reminders.(
        batches := session.reminders.batches[(houseId, key) := BatchRow(pollId, planned)]);
      return Ok(planned);
    }

    /** Goes through the residents in order and reminds those who are due; stops at the first refused delivery. */
    method QueueDue(
        pollId: Id, houseId: Id, wording: string, wanted: seq<Id>, now: Time, policy: ReminderPolicy, newIds: seq<Id>)
      returns (ok: bool, planned: seq<Id>)
      requires UniqueDeliveries(session.outbox) && DeliveryQueue.FreshIds(newIds, session.outbox)
      requires |newIds| >= |wanted|
      requires Rising(wanted)
      modifies session`outbox, session`reminders
      ensures UniqueDeliveries(session.outbox)
      ensures
        var log, outbox := old(session.reminders), old(session.outbox);
        var targets := DueAmong(log.rows, pollId, wanted, now, policy);
        && (ok <==> forall x <- targets :: !KeyClash(outbox, Notice(log.rows, houseId, pollId, wording, x)))
        && (ok ==>
              && planned == targets
              && session.reminders == log.(rows := log.rows + NewRows(log.rows, pollId, targets, now))
              && DeliveryQueue.Adds(outbox, session.outbox, Notices(log.rows, houseId, pollId, wording, targets), now)
              && forall x <- targets :: Noticed(session.outbox, log.rows, houseId, pollId, x))
    {
      hide UniqueDeliveries, Notice, NewRows, KeyClash, DeliveryQueue.Adds, IsDue, NextNumber, Noticed,
           Notices;
      var log, outbox := session.reminders, session.outbox;
      planned := [];
      NoNewRows(log.rows, pollId, now);
      NoNotices(log.rows, houseId, pollId, wording, outbox, now);
      for i := 0 to |wanted|
        invariant UniqueDeliveries(session.outbox)
        invariant forall k :: i <= k < |newIds| ==> newIds[k] !in session.outbox
        invariant planned == DueAmong(log.rows, pollId, wanted[..i], now, policy)
        invariant session.reminders == log.(rows := log.rows + NewRows(log.rows, pollId, planned, now))
        invariant forall x <- planned ::
                    && !KeyClash(outbox, Notice(log.rows, houseId, pollId, wording, x))
                    && Noticed(session.outbox, log.rows, houseId, pollId, x)
        invariant forall x :: KeyClash(session.outbox, Notice(log.rows, houseId, pollId, wording, x))
                         <==> KeyClash(outbox, Notice(log.rows, houseId, pollId, wording, x))
        invariant DeliveryQueue.Adds(outbox, session.outbox, Notices(log.rows, houseId, pollId, wording, planned), now)
      {
        var resident := wanted[i];
        OneMoreWanted(log.rows, pollId, wanted, i, now, policy);
        StillLast(log.rows, pollId, wanted, i, now, policy);
        if IsDue(session.reminders.rows, pollId, resident, now, policy) {
          var row := ReminderRow(pollId, resident, NextNumber(session.reminders.rows, pollId, resident), now);
          var queued := QueueNotice(log.rows, houseId, pollId, wording, resident, now, newIds[i], planned, outbox);
          if !queued {
            DuePrefix(log.rows, pollId, wanted, i, now, policy);
            return false, planned;
          }
          OneMoreRow(log.rows, pollId, planned, resident, now);
          session.reminders := session.reminders.(rows := session.reminders.rows + [row]);
          planned := planned + [resident];
        }
      }
      assert wanted[..|wanted|] == wanted;
      return true, planned;
    }

    // Enqueues the notice of one resident, whose number the rows of this batch have not changed.
    method QueueNotice(
        rows: seq<ReminderRow>, houseId: Id, pollId: Id, wording: string, resident: Id, now: Time, newId: Id,
        ghost planned: seq<Id>, ghost start: Outbox)
      returns (ok: bool)
      requires UniqueDeliveries(session.outbox) && newId !in session.outbox
      requires DeliveryQueue.Adds(start, session.outbox, Notices(rows, houseId, pollId, wording, planned), now)
      modifies session`outbox
      ensures UniqueDeliveries(session.outbox)
      ensures forall id :: id in session.outbox ==> id in old(session.outbox) || id == newId
      ensures ok <==> !KeyClash(old(session.outbox), Notice(rows, houseId, pollId, wording, resident))
      ensures ok ==>
        && DeliveryQueue.Adds(start, session.outbox, Notices(rows, houseId, pollId, wording, planned + [resident]), now)
        && (forall x :: Noticed(session.outbox, rows, houseId, pollId, x)
               <==> Noticed(old(session.outbox), rows, houseId, pollId, x) || x == resident)
        && (forall x :: KeyClash(session.outbox, Notice(rows, houseId, pollId, wording, x))
               <==> KeyClash(old(session.outbox), Notice(rows, houseId, pollId, wording, x)))
    {
      hide UniqueDeliveries, Notice, KeyClash, DeliveryQueue.Adds, DeliveryQueue.Refusal, Noticed;
      var intent := Notice(rows, houseId, pollId, wording, resident);
      NoticeIsPlain(session.houseChats, session.outbox, rows, houseId, pollId, wording, resident);
      ghost var before := session.outbox;
      var queue := new DeliveryQueue.PostgresDeliveryQueue(session);
      var enqueued := queue.Enqueue(intent, now, newId);
      DeliveryQueue.EnqueuedOnce(before, session.outbox, intent, newId, enqueued, now);
      if enqueued.Err? {
        return false;
      }
      NoticeAdded(before, session.outbox, rows, houseId, pollId, wording, resident, newId, now);
      DeliveryQueue.OneMoreAdded(start, before, session.outbox, Notices(rows, houseId, pollId, wording, planned), intent,
                                 newId, now);
      assert Notices(rows, houseId, pollId, wording, planned + [resident])
          == Notices(rows, houseId, pollId, wording, planned) + [intent];
      return true;
    }
  }

  lemma NoNotices(rows: seq<ReminderRow>, houseId: Id, pollId: Id, wording: string, outbox: Outbox, now: Time)
    ensures DeliveryQueue.Adds(outbox, outbox, Notices(rows, houseId, pollId, wording, []), now)
  {
  }

  lemma OneMoreWanted(rows: seq<ReminderRow>, pollId: Id, wanted: seq<Id>, i: nat, now: Time, policy: ReminderPolicy)
    requires i < |wanted|
    ensures DueAmong(rows, pollId, wanted[..i + 1], now, policy)
         == DueAmong(rows, pollId, wanted[..i], now, policy)
            + (if IsDue(rows, pollId, wanted[i], now, policy) then [wanted[i]] else [])
  {
    assert wanted[..i + 1][..i] == wanted[..i];
  }

  lemma LoadedId(t: Tables, pollId: Id)
    requires pollId in t.polls
    ensures Load(t, pollId).definition.pollId == pollId
  {
  }

  lemma {:induction false} NoMoreThan(s: seq<Id>, t: seq<Id>)
    requires forall i, j :: 0 <= i < j < |s| ==> s[i] != s[j]
    requires forall x <- s :: x in t
    ensures |s| <= |t|
  {
    if s != [] {
      var n := |s| - 1;
      assert s[n] in s;
      var k :| 0 <= k < |t| && t[k] == s[n];
      var rest := t[..k] + t[k + 1..];
      forall x <- s[..n] ensures x in rest {
        assert x in s;
        var j :| 0 <= j < |t| && t[j] == x;
        assert j != k;
        assert rest[if j < k then j else j - 1] == x;
      }
      NoMoreThan(s[..n], rest);
    }
  }

  lemma WantedFits(poll: PollState, candidates: seq<Id>, reachable: set<Id>)
    ensures
      var wanted := Wanted(poll, candidates, reachable);
      |wanted| <= |candidates| && Rising(wanted)
  {
    AscendingLists(Silent(poll, candidates, reachable));
    NoMoreThan(Wanted(poll, candidates, reachable), candidates);
  }

  lemma NoNewRows(rows: seq<ReminderRow>, pollId: Id, now: Time)
    ensures rows + NewRows(rows, pollId, [], now) == rows
  {
  }

  lemma OneMoreRow(rows: seq<ReminderRow>, pollId: Id, targets: seq<Id>, resident: Id, now: Time)
    ensures rows + NewRows(rows, pollId, targets + [resident], now)
         == rows + NewRows(rows, pollId, targets, now)
            + [ReminderRow(pollId, resident, NextNumber(rows, pollId, resident), now)]
  {
  }

  /** The rows this batch has added so far say nothing about the next resident. */
  lemma StillLast(rows: seq<ReminderRow>, pollId: Id, wanted: seq<Id>, i: nat, now: Time, policy: ReminderPolicy)
    requires i < |wanted| && Rising(wanted)
    ensures
      var planned := DueAmong(rows, pollId, wanted[..i], now, policy);
      var after := rows + NewRows(rows, pollId, planned, now);
      && NextNumber(after, pollId, wanted[i]) == NextNumber(rows, pollId, wanted[i])
      && (IsDue(after, pollId, wanted[i], now, policy) <==> IsDue(rows, pollId, wanted[i], now, policy))
      && forall houseId, wording :: Notice(after, houseId, pollId, wording, wanted[i])
                                 == Notice(rows, houseId, pollId, wording, wanted[i])
  {
    DueAmongMembers(rows, pollId, wanted[..i], now, policy);
    assert wanted[i] !in wanted[..i];
    RowsOfOthers(rows, pollId, DueAmong(rows, pollId, wanted[..i], now, policy), wanted[i], now);
  }

  lemma {:induction false} RowsOfOthers(rows: seq<ReminderRow>, pollId: Id, targets: seq<Id>, resident: Id, now: Time)
    requires resident !in targets
    ensures LastReminder(rows + NewRows(rows, pollId, targets, now), pollId, resident)
         == LastReminder(rows, pollId, resident)
  {
    if targets == [] {
      NoNewRows(rows, pollId, now);
    } else {
      var n := |targets| - 1;
      RowsOfOthers(rows, pollId, targets[..n], resident, now);
      assert targets == targets[..n] + [targets[n]];
      OneMoreRow(rows, pollId, targets[..n], targets[n], now);
      OthersUntouched(rows + NewRows(rows, pollId, targets[..n], now),
                      ReminderRow(pollId, targets[n], NextNumber(rows, pollId, targets[n]), now), pollId, resident);
    }
  }

  lemma DuePrefix(rows: seq<ReminderRow>, pollId: Id, wanted: seq<Id>, i: nat, now: Time, policy: ReminderPolicy)
    requires i < |wanted| && Rising(wanted)
    requires IsDue(rows, pollId, wanted[i], now, policy)
    ensures wanted[i] in DueAmong(rows, pollId, wanted, now, policy)
  {
    DueAmongMembers(rows, pollId, wanted, now, policy);
  }
}
