/** Rows of the delivery outbox and the rule that folds waiting edits of one message into the newest. */
module OutboxRows {
  import opened Basics
  import opened Leases

  // Operation keys the source formats from ids are kept structured.
  datatype DeliveryKey =
    | Named(name: string)
    | Invite(pollId: Id, resident: Id)
    | InviteChoice(pollId: Id, resident: Id, pollVersion: int)
    | Reminder(pollId: Id, resident: Id, number: int)
    | Evidence(caseId: Id, pollId: Id, resident: Id)
    | DecisionNotice(pollId: Id)
    | DocumentFile(documentId: Id)

  datatype DeliveryIntent = DeliveryIntent(
    houseId: Id,
    operationKey: DeliveryKey,
    text: string,
    recipient: Option<Id>,
    chat: Option<string>,
    editKey: Option<DeliveryKey>,
    fileKey: Option<Id>,
    buttons: seq<(string, string)>)

  datatype ErrorCode = NoError | CoalescedByNewerEdit | PollRevisionCancelled | Reported(code: string)

  datatype DeliveryRow = DeliveryRow(
    content: DeliveryIntent,
    attachmentToken: Option<string>,
    messageId: Option<string>,
    error: ErrorCode,
    lease: Lease)

  type Outbox = map<Id, DeliveryRow>

  datatype DeliveryError =
    | InvalidDelivery | ChatOfAnotherHouse | EditTargetMismatch | KeyReused | LeaseLost

  predicate Acceptable(intent: DeliveryIntent) {
    && intent.operationKey != Named("")
    && (intent.text != "" || intent.fileKey.Some?)
    && intent.recipient.None? != intent.chat.None?
    && |intent.buttons| <= 7
    && forall b <- intent.buttons :: b.0 != "" && b.1 != "" && |b.1| <= 1024
  }

  predicate IsKeyed(row: DeliveryRow, houseId: Id, key: DeliveryKey) {
    row.content.houseId == houseId && row.content.operationKey == key
  }

  predicate HasDelivery(outbox: Outbox, houseId: Id, key: DeliveryKey) {
    exists id :: id in outbox && IsKeyed(outbox[id], houseId, key)
  }

  // The key of this delivery already denotes another content.
  predicate KeyClash(outbox: Outbox, intent: DeliveryIntent) {
    exists id :: id in outbox && IsKeyed(outbox[id], intent.houseId, intent.operationKey) && outbox[id].content != intent
  }

  predicate IsEditOf(row: DeliveryRow, houseId: Id, editKey: DeliveryKey) {
    row.content.houseId == houseId && row.content.editKey == Some(editKey)
  }

  function Superseded(row: DeliveryRow, why: ErrorCode): DeliveryRow {
    row.(error := why, lease := row.lease.(phase := Final(Verdict.Superseded)))
  }

  /** Every waiting edit of the same message gives way to the one about to be inserted. */
  function Coalesced(outbox: Outbox, houseId: Id, editKey: Option<DeliveryKey>): Outbox {
    if editKey.None? then outbox
    else
      map id | id in outbox ::
        if IsEditOf(outbox[id], houseId, editKey.value) && outbox[id].lease.phase.Pending?
        then Superseded(outbox[id], CoalescedByNewerEdit) else outbox[id]
  }

  function NewDelivery(intent: DeliveryIntent, now: Time): DeliveryRow {
    DeliveryRow(intent, None, None, NoError, NewLease(Pending, now))
  }

  /** Cancelling a poll withdraws its waiting invitations and reminders, but not edits of sent ones. */
  function Withdrawn(outbox: Outbox, houseId: Id, pollId: Id): Outbox {
    map id | id in outbox ::
      if outbox[id].content.houseId == houseId && outbox[id].lease.phase.Pending?
         && AsksFor(outbox[id].content.operationKey, pollId)
      then Superseded(outbox[id], PollRevisionCancelled) else outbox[id]
  }

  predicate AsksFor(key: DeliveryKey, pollId: Id) {
    (key.Invite? || key.Reminder?) && key.pollId == pollId
  }

  const REDACTED := "[removed after retention]"

  // Retention has reached a delivery that is over; one that waits for its attachment transport is spared.
  predicate Expires(row: DeliveryRow, before: Time) {
    && row.lease.availableAt < before && row.content.text != REDACTED
    && row.lease.phase.Final?
    && row.lease.phase.verdict in {Sent, Unreachable, Verdict.Failed, Dead, DeliveryUnknown, Verdict.Superseded}
  }

  function WithoutText(content: DeliveryIntent): DeliveryIntent {
    content.(text := REDACTED)
  }

  /** Retention overwrites the text of old deliveries and leaves the rest for audit. */
  function Redacted(outbox: Outbox, before: Time): Outbox {
    map id | id in outbox ::
      if Expires(outbox[id], before) then outbox[id].(content := WithoutText(outbox[id].content)) else outbox[id]
  }

  // ---------------------------------------------------------------- what the writes come to

  /** What a delivery must look like: keyed, with something to say, to one addressee, with proper buttons. */
  lemma AcceptableIff(i: DeliveryIntent)
    ensures Acceptable(i) <==>
      && i.operationKey != Named("") && (|i.text| > 0 || i.fileKey.Some?)
      && ((i.recipient.Some? && i.chat.None?) || (i.recipient.None? && i.chat.Some?))
      && |i.buttons| <= 7
      && forall k :: 0 <= k < |i.buttons| ==> |i.buttons[k].0| > 0 && 0 < |i.buttons[k].1| <= 1024
  {
  }

  /** A new delivery waits from now on, never tried, with its content as given. */
  lemma NewDeliverySays(intent: DeliveryIntent, now: Time, later: Time)
    ensures
      var row := NewDelivery(intent, now);
      && row.content == intent && row.attachmentToken.None? && row.messageId.None? && row.error.NoError?
      && row.lease.phase.Pending? && row.lease.attempts == 0 && row.lease.owner.None? && row.lease.until.None?
      && (Due(row.lease, later) <==> now <= later)
  {
  }

  /** Exactly the waiting edits of the message give way, with that reason; sent and claimed ones stay as they are. */
  lemma CoalescedSays(outbox: Outbox, houseId: Id, editKey: Option<DeliveryKey>)
    ensures
      var after := Coalesced(outbox, houseId, editKey);
      && after.Keys == outbox.Keys
      && forall id :: id in outbox ==>
           if editKey.Some? && outbox[id].content.houseId == houseId && outbox[id].content.editKey == editKey
              && outbox[id].lease.phase.Pending?
           then after[id].lease.phase == Final(Verdict.Superseded) && after[id].error == CoalescedByNewerEdit
                && after[id] == outbox[id].(error := after[id].error,
                                            lease := outbox[id].lease.(phase := after[id].lease.phase))
           else after[id] == outbox[id]
  {
  }

  /** A cancelled poll asks nobody any more: exactly its waiting invitations and reminders are dead, for ever. */
  lemma WithdrawnSays(outbox: Outbox, houseId: Id, pollId: Id)
    ensures
      var after := Withdrawn(outbox, houseId, pollId);
      && after.Keys == outbox.Keys
      && forall id :: id in outbox ==>
           var key := outbox[id].content.operationKey;
           if outbox[id].content.houseId == houseId && outbox[id].lease.phase.Pending?
              && ((key.Invite? && key.pollId == pollId) || (key.Reminder? && key.pollId == pollId))
           then after[id].lease.phase == Final(Verdict.Superseded) && after[id].error == PollRevisionCancelled
                && (forall t :: !Due(after[id].lease, t))
                && after[id] == outbox[id].(error := after[id].error,
                                            lease := outbox[id].lease.(phase := after[id].lease.phase))
           else after[id] == outbox[id]
  {
  }

  /** Retention takes exactly the text of deliveries that are over since before the boundary, and nothing else. */
  lemma RedactedSays(outbox: Outbox, before: Time)
    ensures
      var after := Redacted(outbox, before);
      && after.Keys == outbox.Keys
      && forall id :: id in outbox ==>
           var phase := outbox[id].lease.phase;
           && after[id] == outbox[id].(content := outbox[id].content.(text := after[id].content.text))
           && after[id].content.text ==
              if outbox[id].lease.availableAt < before && phase.Final?
                 && (phase.verdict.Sent? || phase.verdict.Unreachable? || phase.verdict.Failed? || phase.verdict.Dead?
                     || phase.verdict.DeliveryUnknown? || phase.verdict.Superseded?)
              then REDACTED else outbox[id].content.text
  {
  }

  predicate UniqueDeliveries(outbox: Outbox) {
    forall i, j :: i in outbox && j in outbox && i != j ==> !SameDelivery(outbox[i], outbox[j])
  }

  predicate SameDelivery(a: DeliveryRow, b: DeliveryRow) {
    a.content.houseId == b.content.houseId && a.content.operationKey == b.content.operationKey
  }
}

/** All runs of the outbox: enqueue with coalescing, claims, retries, settlements, cancellations and retention. */
module OutboxRuns {
  import opened Basics
  import opened Leases
  import opened OutboxRows

  // order lists the rows by insertion.
  datatype State = State(outbox: Outbox, order: seq<Id>)

  datatype Move =
    | Enqueue(id: Id, intent: DeliveryIntent, now: Time)
    | Claim(id: Id, worker: WorkerId, now: Time, leaseFor: Time)
    | Renew(id: Id, worker: WorkerId, now: Time, leaseFor: Time)
    | SaveToken(id: Id, worker: WorkerId, now: Time, token: string)
    | Settle(id: Id, worker: WorkerId, now: Time, verdict: Verdict, messageId: Option<string>, code: Option<string>)
    | Retry(id: Id, worker: WorkerId, now: Time, retryAfter: Time, code: Option<string>)
    | CancelPoll(houseId: Id, pollId: Id)
    | Redact(before: Time)

  /** A move whose guard fails changes nothing. */
  function Apply(s: State, m: Move): State {
    match m
    case Enqueue(id, intent, now) =>
      if id in s.outbox || HasDelivery(s.outbox, intent.houseId, intent.operationKey) then s
      else State(Coalesced(s.outbox, intent.houseId, intent.editKey)[id := NewDelivery(intent, now)], s.order + [id])
    case Claim(id, w, now, leaseFor) =>
      if id !in s.outbox || !Due(s.outbox[id].lease, now) then s
      else Put(s, id, s.outbox[id].(lease := Claimed(s.outbox[id].lease, w, now, leaseFor)))
    case CancelPoll(houseId, pollId) => s.(outbox := Withdrawn(s.outbox, houseId, pollId))
    case Redact(before) => s.(outbox := Redacted(s.outbox, before))
    case _ =>
      if m.id !in s.outbox || !Holds(s.outbox[m.id].lease, m.worker, m.now) then s
      else Put(s, m.id, Held(s.outbox[m.id], m))
  }

  // A worker reports nothing but what the messenger or the transport told it.
  function ErrorOf(code: Option<string>): ErrorCode {
    if code.None? then NoError else Reported(code.value)
  }

  /** What the holder of the lease may do to its row. */
  function Held(row: DeliveryRow, m: Move): DeliveryRow {
    match m
    case Renew(_, _, now, leaseFor) => row.(lease := Renewed(row.lease, now, leaseFor))
    case SaveToken(_, _, _, token) => row.(attachmentToken := Some(token))
    case Settle(_, _, _, verdict, messageId, code) =>
      row.(lease := Released(row.lease, Final(verdict), row.lease.availableAt), messageId := messageId,
           error := ErrorOf(code))
    case Retry(_, _, now, retryAfter, code) =>
      row.(lease := Released(row.lease, Pending, now + retryAfter), messageId := None, error := ErrorOf(code))
    case _ => row
  }

  function Put(s: State, id: Id, row: DeliveryRow): State {
    s.(outbox := s.outbox[id := row])
  }

  function Run(s: State, ms: seq<Move>): State
    decreases |ms|
  {
    if ms == [] then s else Run(Apply(s, ms[0]), ms[1..])
  }

  const EMPTY := State(map[], [])

  predicate NeverClaimed(row: DeliveryRow) {
    row.lease.phase.Pending? && row.lease.attempts == 0
  }

  predicate SameEdit(a: DeliveryRow, b: DeliveryRow) {
    a.content.houseId == b.content.houseId && a.content.editKey.Some? && a.content.editKey == b.content.editKey
  }

  // One row on its own: it was claimed before it works or waits again, and coalescing is final.
  predicate RowOk(row: DeliveryRow) {
    && (row.lease.phase.Processing? ==> row.lease.attempts > 0)
    && (row.error == CoalescedByNewerEdit ==> row.lease.phase == Final(Verdict.Superseded) && row.content.editKey.Some?)
  }

  predicate Listed(s: State) {
    && (forall i, j :: 0 <= i < j < |s.order| ==> s.order[i] != s.order[j])
    && (forall i :: 0 <= i < |s.order| ==> s.order[i] in s.outbox)
    && (forall id :: id in s.outbox ==> id in s.order)
  }

  // The i-th inserted delivery.
  function At(s: State, i: nat): DeliveryRow
    requires Listed(s) && i < |s.order|
  {
    s.outbox[s.order[i]]
  }

  // A later edit of the same message leaves no earlier one waiting unclaimed.
  predicate NewestWaits(s: State)
    requires Listed(s)
  {
    forall i, j :: 0 <= i < j < |s.order| && SameEdit(At(s, i), At(s, j)) ==> !NeverClaimed(At(s, i))
  }

  predicate HasNewerEdit(s: State, i: nat)
    requires Listed(s) && i < |s.order|
  {
    exists j :: i < j < |s.order| && SameEdit(At(s, i), At(s, j))
  }

  predicate CoalescedHaveNewer(s: State)
    requires Listed(s)
  {
    forall i :: 0 <= i < |s.order| && At(s, i).error == CoalescedByNewerEdit ==> HasNewerEdit(s, i)
  }

  ghost predicate Inv(s: State) {
    && Listed(s)
    && UniqueDeliveries(s.outbox)
    && (forall id :: id in s.outbox ==> RowOk(s.outbox[id]))
    && NewestWaits(s)
    && CoalescedHaveNewer(s)
  }

  // ---------------------------------------------------------------- every move keeps the invariant

  // The same delivery, whatever became of its text.
  predicate SameButText(a: DeliveryIntent, b: DeliveryIntent) {
    a.(text := b.text) == b
  }

  /** Moves that insert nothing: rows keep all but their text, none becomes unclaimed, none is coalesced. */
  predicate Updates(s: State, u: State) {
    && u.order == s.order && u.outbox.Keys == s.outbox.Keys
    && forall id :: id in s.outbox ==>
         && SameButText(u.outbox[id].content, s.outbox[id].content)
         && (NeverClaimed(u.outbox[id]) ==> NeverClaimed(s.outbox[id]))
         && (u.outbox[id].error == CoalescedByNewerEdit ==> s.outbox[id].error == CoalescedByNewerEdit)
         && (RowOk(s.outbox[id]) ==> RowOk(u.outbox[id]))
  }

  lemma UpdatesByOrder(s: State, u: State)
    requires Listed(s) && Updates(s, u)
    ensures Listed(u) && |u.order| == |s.order|
    ensures forall i :: 0 <= i < |u.order| ==>
              && SameButText(At(u, i).content, At(s, i).content)
              && (NeverClaimed(At(u, i)) ==> NeverClaimed(At(s, i)))
              && (At(u, i).error == CoalescedByNewerEdit ==> At(s, i).error == CoalescedByNewerEdit)
  {
    forall i | 0 <= i < |u.order| ensures u.order[i] in u.outbox {
      assert s.order[i] in s.outbox;
    }
  }

  lemma UpdatesKeepOrder(s: State, u: State)
    requires Listed(s) && NewestWaits(s) && CoalescedHaveNewer(s) && Updates(s, u)
    ensures Listed(u) && NewestWaits(u) && CoalescedHaveNewer(u)
  {
    UpdatesByOrder(s, u);
    hide Updates, At, NeverClaimed;
    forall i | 0 <= i < |u.order| && At(u, i).error == CoalescedByNewerEdit ensures HasNewerEdit(u, i) {
      assert HasNewerEdit(s, i);
      var j :| i < j < |s.order| && SameEdit(At(s, i), At(s, j));
      assert SameEdit(At(u, i), At(u, j));
    }
    forall i, j | 0 <= i < j < |u.order| && SameEdit(At(u, i), At(u, j)) ensures !NeverClaimed(At(u, i)) {
      assert SameEdit(At(s, i), At(s, j));
    }
  }

  lemma UpdatesKeepInv(s: State, u: State)
    requires Inv(s) && Updates(s, u)
    ensures Inv(u)
  {
    UpdatesKeepOrder(s, u);
    forall i, j | i in u.outbox && j in u.outbox && i != j ensures !SameDelivery(u.outbox[i], u.outbox[j]) {
      assert !SameDelivery(s.outbox[i], s.outbox[j]);
    }
  }

  lemma MoveUpdates(s: State, m: Move)
    requires !m.Enqueue? && forall id :: id in s.outbox ==> RowOk(s.outbox[id])
    ensures Updates(s, Apply(s, m))
  {
    hide HasDelivery, Coalesced;
  }

  lemma EnqueueKeepsListed(s: State, u: State, id: Id)
    requires Listed(s) && id !in s.outbox && u.order == s.order + [id] && u.outbox.Keys == s.outbox.Keys + {id}
    ensures Listed(u)
  {
    forall i, j | 0 <= i < j < |u.order| ensures u.order[i] != u.order[j] {
      assert u.order[i] == s.order[i] && s.order[i] in s.outbox;
    }
  }

  lemma EnqueueKeepsUnique(s: State, id: Id, intent: DeliveryIntent, now: Time)
    requires UniqueDeliveries(s.outbox)
    ensures UniqueDeliveries(Apply(s, Enqueue(id, intent, now)).outbox)
  {
    var u := Apply(s, Enqueue(id, intent, now));
    if u != s {
      forall i, j | i in u.outbox && j in u.outbox && i != j ensures !SameDelivery(u.outbox[i], u.outbox[j]) {
        if i != id && j != id {
          assert !SameDelivery(s.outbox[i], s.outbox[j]);
        } else {
          var k := if i == id then j else i;
          assert !IsKeyed(s.outbox[k], intent.houseId, intent.operationKey);
        }
      }
    }
  }

  /** What an effective enqueue does to the rows, by insertion order. */
  lemma EnqueueByOrder(s: State, id: Id, intent: DeliveryIntent, now: Time)
    requires Listed(s) && Apply(s, Enqueue(id, intent, now)) != s
    ensures
      var u, n := Apply(s, Enqueue(id, intent, now)), |s.order|;
      && Listed(u) && |u.order| == n + 1 && At(u, n) == NewDelivery(intent, now)
      && forall i :: 0 <= i < n ==>
           && At(u, i).content == At(s, i).content
           && (NeverClaimed(At(u, i)) ==> NeverClaimed(At(s, i)) && !SameEdit(At(u, i), At(u, n)))
           && (At(u, i).error == CoalescedByNewerEdit ==>
                 At(s, i).error == CoalescedByNewerEdit || SameEdit(At(u, i), At(u, n)))
  {
    var u := Apply(s, Enqueue(id, intent, now));
    EnqueueKeepsListed(s, u, id);
    hide Apply, HasDelivery;
    forall i | 0 <= i < |s.order|
      ensures At(u, i).content == At(s, i).content
      ensures NeverClaimed(At(u, i)) ==> NeverClaimed(At(s, i)) && !SameEdit(At(u, i), At(u, |s.order|))
      ensures At(u, i).error == CoalescedByNewerEdit ==>
                At(s, i).error == CoalescedByNewerEdit || SameEdit(At(u, i), At(u, |s.order|))
    {
      assert u.order[i] == s.order[i];
      RowAfterEnqueue(s, id, intent, now, s.order[i]);
    }
  }

  lemma RowAfterEnqueue(s: State, id: Id, intent: DeliveryIntent, now: Time, x: Id)
    requires Apply(s, Enqueue(id, intent, now)) != s && x in s.outbox
    ensures
      var u := Apply(s, Enqueue(id, intent, now));
      && x in u.outbox && id in u.outbox && u.outbox[id] == NewDelivery(intent, now) && x != id
      && u.outbox[x].content == s.outbox[x].content
      && (NeverClaimed(u.outbox[x]) ==> NeverClaimed(s.outbox[x]) && !SameEdit(u.outbox[x], u.outbox[id]))
      && (u.outbox[x].error == CoalescedByNewerEdit ==>
            s.outbox[x].error == CoalescedByNewerEdit || SameEdit(u.outbox[x], u.outbox[id]))
  {
    hide HasDelivery;
  }

  lemma EnqueueKeepsOrder(s: State, id: Id, intent: DeliveryIntent, now: Time)
    requires Listed(s) && NewestWaits(s) && CoalescedHaveNewer(s)
    ensures
      var u := Apply(s, Enqueue(id, intent, now));
      Listed(u) && NewestWaits(u) && CoalescedHaveNewer(u)
  {
    var u, n := Apply(s, Enqueue(id, intent, now)), |s.order|;
    if u != s {
      EnqueueByOrder(s, id, intent, now);
      hide Apply;
      forall i, j | 0 <= i < j < |u.order| && SameEdit(At(u, i), At(u, j)) ensures !NeverClaimed(At(u, i)) {
        if j < n {
          assert SameEdit(At(s, i), At(s, j));
        }
      }
      forall i | 0 <= i < |u.order| && At(u, i).error == CoalescedByNewerEdit ensures HasNewerEdit(u, i) {
        assert i < n;
        if At(s, i).error == CoalescedByNewerEdit {
          assert HasNewerEdit(s, i);
          var j :| i < j < n && SameEdit(At(s, i), At(s, j));
          assert SameEdit(At(u, i), At(u, j));
        } else {
          assert SameEdit(At(u, i), At(u, n));
        }
      }
    }
  }

  lemma EnqueueKeepsInv(s: State, id: Id, intent: DeliveryIntent, now: Time)
    requires Inv(s)
    ensures Inv(Apply(s, Enqueue(id, intent, now)))
  {
    EnqueueKeepsUnique(s, id, intent, now);
    EnqueueKeepsOrder(s, id, intent, now);
  }

  lemma {:induction false} RunKeepsInv(s: State, ms: seq<Move>)
    requires Inv(s)
    ensures Inv(Run(s, ms))
    decreases |ms|
  {
    if ms != [] {
      if ms[0].Enqueue? {
        EnqueueKeepsInv(s, ms[0].id, ms[0].intent, ms[0].now);
      } else {
        MoveUpdates(s, ms[0]);
        UpdatesKeepInv(s, Apply(s, ms[0]));
      }
      RunKeepsInv(Apply(s, ms[0]), ms[1..]);
    }
  }

  // ---------------------------------------------------------------- main results

  /**
   * Main result: after any run, a message has at most one edit that was never claimed and still waits,
   * it is the newest edit of that message, and the newest edit was never coalesced away.
   */
  lemma CoalescingKeepsNewest(ms: seq<Move>)
    ensures
      var s := Run(EMPTY, ms);
      && Listed(s)
      && (forall i, j :: 0 <= i < |s.order| && 0 <= j < |s.order| && SameEdit(At(s, i), At(s, j)) ==>
            NeverClaimed(At(s, i)) && NeverClaimed(At(s, j)) ==> i == j)
      && (forall i :: 0 <= i < |s.order| && NeverClaimed(At(s, i)) ==> !HasNewerEdit(s, i))
      && (forall i :: 0 <= i < |s.order| && !HasNewerEdit(s, i) ==> At(s, i).error != CoalescedByNewerEdit)
  {
    RunKeepsInv(EMPTY, ms);
    var s := Run(EMPTY, ms);
    forall i, j | 0 <= i < |s.order| && 0 <= j < |s.order| && SameEdit(At(s, i), At(s, j))
      ensures NeverClaimed(At(s, i)) && NeverClaimed(At(s, j)) ==> i == j
    {
      assert SameEdit(At(s, j), At(s, i));
    }
  }

  // Some move of the run redacts this delivery.
  predicate RedactedIn(s: State, ms: seq<Move>, id: Id)
    decreases |ms|
  {
    ms != [] &&
    ((ms[0].Redact? && id in s.outbox && Expires(s.outbox[id], ms[0].before)) || RedactedIn(Apply(s, ms[0]), ms[1..], id))
  }

  /** Main result: nothing but retention ever changes what a delivery says, and retention only its text. */
  lemma {:induction false} ContentKept(s: State, ms: seq<Move>, id: Id)
    requires id in s.outbox
    ensures id in Run(s, ms).outbox
    ensures Run(s, ms).outbox[id].content
         == if RedactedIn(s, ms, id) then WithoutText(s.outbox[id].content) else s.outbox[id].content
    decreases |ms|
  {
    if ms != [] {
      ContentKept(Apply(s, ms[0]), ms[1..], id);
      if ms[0].Redact? && Expires(s.outbox[id], ms[0].before) {
        RedactedOnce(Apply(s, ms[0]), ms[1..], id);
      }
    }
  }

  lemma {:induction false} RedactedOnce(s: State, ms: seq<Move>, id: Id)
    requires id in s.outbox && s.outbox[id].content.text == REDACTED
    ensures !RedactedIn(s, ms, id)
    decreases |ms|
  {
    if ms != [] {
      RedactedOnce(Apply(s, ms[0]), ms[1..], id);
    }
  }

  /** Main result: a settled or superseded delivery is never claimed again, nor changed in anything but its text. */
  lemma {:induction false} SettledForEver(s: State, ms: seq<Move>, id: Id)
    requires id in s.outbox && s.outbox[id].lease.phase.Final?
    ensures id in Run(s, ms).outbox
    ensures Run(s, ms).outbox[id] == s.outbox[id].(content := Run(s, ms).outbox[id].content)
    decreases |ms|
  {
    if ms != [] {
      SettledForEver(Apply(s, ms[0]), ms[1..], id);
    }
  }

  /** Main result: an operation key never comes to denote another delivery. */
  lemma KeyDenotesOneContent(s: State, ms: seq<Move>, id: Id, other: Id)
    requires Inv(s) && id in s.outbox && other in Run(s, ms).outbox
    requires SameDelivery(Run(s, ms).outbox[other], s.outbox[id])
    ensures other == id && SameButText(Run(s, ms).outbox[other].content, s.outbox[id].content)
  {
    ContentKept(s, ms, id);
    RunKeepsInv(s, ms);
  }

  /** Main result: repeating the key of a stored delivery for its own content is refused exactly if it was redacted. */
  lemma RepeatRefusedIffRedacted(s: State, ms: seq<Move>, id: Id)
    requires Inv(s) && id in s.outbox
    ensures KeyClash(Run(s, ms).outbox, s.outbox[id].content) <==> RedactedIn(s, ms, id)
  {
    var u, content := Run(s, ms), s.outbox[id].content;
    ContentKept(s, ms, id);
    RunKeepsInv(s, ms);
    assert IsKeyed(u.outbox[id], content.houseId, content.operationKey);
    if RedactedIn(s, ms, id) {
      RedactedHadText(s, ms, id);
    } else {
      forall other | other in u.outbox && IsKeyed(u.outbox[other], content.houseId, content.operationKey)
        ensures other == id
      {
        if other != id {
          assert false;
        }
      }
    }
  }

  /** And every delivery whose text is not the placeholder already has a run to this: sent, redacted, repeated. */
  lemma SentThenRedacted(intent: DeliveryIntent)
    requires intent.text != REDACTED
    ensures
      var once := Apply(EMPTY, Enqueue(1, intent, 0));
      var ms := [Claim(1, 7, 0, 60), Settle(1, 7, 1, Sent, None, None), Redact(1)];
      && Inv(once) && once.outbox == map[1 := NewDelivery(intent, 0)]
      && RedactedIn(once, ms, 1) && KeyClash(Run(once, ms).outbox, intent)
  {
    var once := Apply(EMPTY, Enqueue(1, intent, 0));
    var claim, sent, redact := Claim(1, 7, 0, 60), Settle(1, 7, 1, Sent, None, None), Redact(1);
    var ms := [claim, sent, redact];
    EnqueueKeepsInv(EMPTY, 1, intent, 0);
    assert once.outbox == map[1 := NewDelivery(intent, 0)];
    var a := Apply(once, claim);
    var b := Apply(a, sent);
    assert ms[1..] == [sent, redact] && [sent, redact][1..] == [redact];
    assert Expires(b.outbox[1], 1);
    assert RedactedIn(b, [redact], 1) && RedactedIn(a, [sent, redact], 1);
    RepeatRefusedIffRedacted(once, ms, 1);
  }

  lemma RedactedHadText(s: State, ms: seq<Move>, id: Id)
    requires id in s.outbox && RedactedIn(s, ms, id)
    ensures s.outbox[id].content.text != REDACTED
  {
    if s.outbox[id].content.text == REDACTED {
      RedactedOnce(s, ms, id);
    }
  }

  // ---------------------------------------------------------------- when two edits of a message wait

  predicate BothWait(a: DeliveryRow, b: DeliveryRow) {
    SameEdit(a, b) && a.lease.phase.Pending? && b.lease.phase.Pending?
  }

  // No message has two edits that wait.
  predicate Single(s: State) {
    forall i, j :: i in s.outbox && j in s.outbox && i != j ==> !BothWait(s.outbox[i], s.outbox[j])
  }

  // The lease holder puts an edit back while another edit of the same message waits.
  predicate RetriesBeside(s: State, m: Move) {
    && m.Retry? && m.id in s.outbox && Holds(s.outbox[m.id].lease, m.worker, m.now)
    && exists j :: j in s.outbox && j != m.id && SameEdit(s.outbox[m.id], s.outbox[j]) && s.outbox[j].lease.phase.Pending?
  }

  predicate StaysSingle(s: State, ms: seq<Move>)
    decreases |ms|
  {
    Single(s) && (ms == [] || StaysSingle(Apply(s, ms[0]), ms[1..]))
  }

  predicate RetriesBesideIn(s: State, ms: seq<Move>)
    decreases |ms|
  {
    ms != [] && (RetriesBeside(s, ms[0]) || RetriesBesideIn(Apply(s, ms[0]), ms[1..]))
  }

  // A move after which every row that waits has waited before, unchanged in what it edits.
  predicate NoneReturns(s: State, u: State) {
    u.outbox.Keys == s.outbox.Keys
    && forall id :: id in s.outbox ==>
         && SameButText(u.outbox[id].content, s.outbox[id].content)
         && (u.outbox[id].lease.phase.Pending? ==> s.outbox[id].lease.phase.Pending?)
  }

  lemma OthersReturnNothing(s: State, m: Move)
    requires !m.Enqueue? && !m.Retry?
    ensures NoneReturns(s, Apply(s, m))
  {
    hide HasDelivery, Coalesced;
  }

  lemma NoneReturnsKeeps(s: State, u: State)
    requires Single(s) && NoneReturns(s, u)
    ensures Single(u)
  {
    forall i, j | i in u.outbox && j in u.outbox && i != j ensures !BothWait(u.outbox[i], u.outbox[j]) {
      assert !BothWait(s.outbox[i], s.outbox[j]);
    }
  }

  lemma EnqueueKeepsSingle(s: State, m: Move)
    requires Single(s) && m.Enqueue?
    ensures Single(Apply(s, m))
  {
    var u := Apply(s, m);
    if u != s {
      forall i, j | i in u.outbox && j in u.outbox && i != j ensures !BothWait(u.outbox[i], u.outbox[j]) {
        if i != m.id && j != m.id {
          assert !BothWait(s.outbox[i], s.outbox[j]);
        }
      }
    }
  }

  lemma RetryDecidesSingle(s: State, m: Move)
    requires Single(s) && m.Retry?
    ensures Single(Apply(s, m)) <==> !RetriesBeside(s, m)
  {
    var u := Apply(s, m);
    if RetriesBeside(s, m) {
      var j :| j in s.outbox && j != m.id && SameEdit(s.outbox[m.id], s.outbox[j]) && s.outbox[j].lease.phase.Pending?;
      assert BothWait(u.outbox[m.id], u.outbox[j]);
    } else {
      forall i, j | i in u.outbox && j in u.outbox && i != j ensures !BothWait(u.outbox[i], u.outbox[j]) {
        assert !BothWait(s.outbox[i], s.outbox[j]) && !BothWait(s.outbox[j], s.outbox[i]);
      }
    }
  }

  lemma SingleStep(s: State, m: Move)
    requires Single(s)
    ensures Single(Apply(s, m)) <==> !RetriesBeside(s, m)
  {
    hide Single, Apply;
    if m.Enqueue? {
      EnqueueKeepsSingle(s, m);
    } else if m.Retry? {
      RetryDecidesSingle(s, m);
    } else {
      OthersReturnNothing(s, m);
      NoneReturnsKeeps(s, Apply(s, m));
    }
  }

  /**
   * Main result: at most one edit of a message waits for as long as, and only as long as, no lease holder puts an
   * edit back while another edit of the same message waits.
   */
  lemma {:induction false} SingleWhileNoneReturns(s: State, ms: seq<Move>)
    requires Single(s)
    ensures StaysSingle(s, ms) <==> !RetriesBesideIn(s, ms)
    decreases |ms|
  {
    hide Single, RetriesBeside, Apply;
    if ms != [] {
      SingleStep(s, ms[0]);
      if !RetriesBeside(s, ms[0]) {
        SingleWhileNoneReturns(Apply(s, ms[0]), ms[1..]);
      }
    }
  }

  // Sends one waiting delivery at the given time.
  function Send(id: Id, w: WorkerId, now: Time): seq<Move> {
    [Claim(id, w, now, 1), Settle(id, w, now, Sent, None, None)]
  }

  /** Main result: once two edits wait, the older content can be the last to reach the message. */
  lemma OlderCanBeSentLast(s: State, older: Id, newer: Id, w: WorkerId, now: Time)
    requires older in s.outbox && newer in s.outbox && older != newer && BothWait(s.outbox[older], s.outbox[newer])
    requires s.outbox[older].lease.availableAt <= now && s.outbox[newer].lease.availableAt <= now
    ensures
      var between := Run(s, Send(newer, w, now));
      && newer in between.outbox && between.outbox[newer].lease.phase == Final(Sent)
      && older in between.outbox && between.outbox[older] == s.outbox[older]
      && older in Run(between, Send(older, w, now)).outbox
      && Run(between, Send(older, w, now)).outbox[older].lease.phase == Final(Sent)
      && Run(between, Send(older, w, now)).outbox[older].content == s.outbox[older].content
  {
    SendSends(s, newer, w, now);
    SendSends(Run(s, Send(newer, w, now)), older, w, now);
  }

  lemma SendSends(s: State, id: Id, w: WorkerId, now: Time)
    requires id in s.outbox && s.outbox[id].lease.phase.Pending? && s.outbox[id].lease.availableAt <= now
    ensures
      var u := Run(s, Send(id, w, now));
      && u.outbox.Keys == s.outbox.Keys && u.outbox[id].lease.phase == Final(Sent)
      && u.outbox[id].content == s.outbox[id].content
      && forall other :: other in s.outbox && other != id ==> u.outbox[other] == s.outbox[other]
  {
    var claim, settle := Claim(id, w, now, 1), Settle(id, w, now, Sent, None, None);
    RunFirst(s, claim, [settle]);
    RunFirst(Apply(s, claim), settle, []);
    assert [claim, settle] == [claim] + [settle] && [settle] == [settle] + [];
  }

  /** A run from the empty outbox does come to two waiting edits, whatever two edits of a message it is given. */
  lemma RetriedEditWaitsBesideNewer(first: DeliveryIntent, second: DeliveryIntent)
    requires first.houseId == second.houseId && first.editKey == second.editKey && first.editKey.Some?
    requires first.operationKey != second.operationKey
    ensures
      var s := Run(EMPTY, [Enqueue(1, first, 0), Claim(1, 7, 0, 60), Enqueue(2, second, 1),
                           Retry(1, 7, 2, 5, Some("busy"))]);
      && 1 in s.outbox && 2 in s.outbox && BothWait(s.outbox[1], s.outbox[2])
      && s.outbox[1].content == first && s.outbox[2].content == second
      && !Single(s)
  {
    var m1, m2, m3 := Enqueue(1, first, 0), Claim(1, 7, 0, 60), Enqueue(2, second, 1);
    var m4 := Retry(1, 7, 2, 5, Some("busy"));
    var c := Apply(Apply(Apply(EMPTY, m1), m2), m3);
    OvertakenEdit(first, second);
    RunFour(EMPTY, m1, m2, m3, m4);
    hide Run;
    assert Apply(c, m4).outbox[2] == c.outbox[2];
  }

  /** The older edit is in work when the newer one arrives, and is not coalesced. */
  lemma OvertakenEdit(first: DeliveryIntent, second: DeliveryIntent)
    requires first.houseId == second.houseId && first.editKey == second.editKey && first.editKey.Some?
    requires first.operationKey != second.operationKey
    ensures
      var c := Apply(Apply(Apply(EMPTY, Enqueue(1, first, 0)), Claim(1, 7, 0, 60)), Enqueue(2, second, 1));
      && c.outbox.Keys == {1, 2} && c.outbox[2] == NewDelivery(second, 1)
      && c.outbox[1].content == first && Holds(c.outbox[1].lease, 7, 2)
  {
    var b := Apply(Apply(EMPTY, Enqueue(1, first, 0)), Claim(1, 7, 0, 60));
    assert Apply(b, Enqueue(2, second, 1)).outbox[1] == b.outbox[1];
  }

  lemma RunFour(s: State, m1: Move, m2: Move, m3: Move, m4: Move)
    ensures Run(s, [m1, m2, m3, m4]) == Apply(Apply(Apply(Apply(s, m1), m2), m3), m4)
  {
    hide Apply;
    RunFirst(s, m1, [m2, m3, m4]);
    RunFirst(Apply(s, m1), m2, [m3, m4]);
    RunFirst(Apply(Apply(s, m1), m2), m3, [m4]);
    RunFirst(Apply(Apply(Apply(s, m1), m2), m3), m4, []);
    assert [m1, m2, m3, m4] == [m1] + [m2, m3, m4] && [m2, m3, m4] == [m2] + [m3, m4];
    assert [m3, m4] == [m3] + [m4] && [m4] == [m4] + [];
  }

  lemma RunFirst(s: State, m: Move, rest: seq<Move>)
    ensures Run(s, [m] + rest) == Run(Apply(s, m), rest)
  {
    assert ([m] + rest)[1..] == rest;
  }
}
