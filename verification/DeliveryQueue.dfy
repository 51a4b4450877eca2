/** The transactional side of the outbox: enqueue with coalescing, claim, token, heartbeat, settlement. */
module DeliveryQueue {
  import opened Basics
  import opened Leases
  import opened OutboxRows
  import opened Database

  function Availability(outbox: Outbox): map<Id, Time> {
    map id | id in outbox :: outbox[id].lease.availableAt
  }

  function Claimable(outbox: Outbox, now: Time, locked: set<Id>): set<Id> {
    set id | id in outbox && id !in locked && Due(outbox[id].lease, now)
  }

  function Relet(outbox: Outbox, id: Id, lease: Lease): Outbox
    requires id in outbox
  {
    outbox[id := outbox[id].(lease := lease)]
  }

  predicate ChatIsHouses(chats: map<string, Id>, intent: DeliveryIntent) {
    intent.chat.Some? ==> intent.chat.value in chats && chats[intent.chat.value] == intent.houseId
  }

  // The message an edit refers to exists in the same house and chat.
  predicate EditTargetOk(outbox: Outbox, intent: DeliveryIntent) {
    intent.editKey.Some? ==>
      exists id :: id in outbox && IsKeyed(outbox[id], intent.houseId, intent.editKey.value)
                   && outbox[id].content.chat == intent.chat
  }

  function Refusal(chats: map<string, Id>, outbox: Outbox, intent: DeliveryIntent): Option<DeliveryError> {
    if !Acceptable(intent) then Some(InvalidDelivery)
    else if !ChatIsHouses(chats, intent) then Some(ChatOfAnotherHouse)
    else if !EditTargetOk(outbox, intent) then Some(EditTargetMismatch)
    else None
  }

  /** Why a delivery is refused before its key is looked at: its shape, its chat, or the message it is to edit. */
  lemma RefusalIff(chats: map<string, Id>, outbox: Outbox, i: DeliveryIntent)
    ensures
      var refusal := Refusal(chats, outbox, i);
      var housed := i.chat.None? || (i.chat.value in chats && chats[i.chat.value] == i.houseId);
      var edits := i.editKey.None? || exists id :: id in outbox && outbox[id].content.houseId == i.houseId
                                                   && outbox[id].content.operationKey == i.editKey.value
                                                   && outbox[id].content.chat == i.chat;
      && (refusal == Some(InvalidDelivery) <==> !Acceptable(i))
      && (refusal == Some(ChatOfAnotherHouse) <==> Acceptable(i) && !housed)
      && (refusal == Some(EditTargetMismatch) <==> Acceptable(i) && housed && !edits)
      && (refusal.None? <==> Acceptable(i) && housed && edits)
  {
    hide Acceptable;
  }

  predicate HoldsRow(outbox: Outbox, id: Id, worker: WorkerId, now: Time) {
    id in outbox && Holds(outbox[id].lease, worker, now)
  }

  class PostgresDeliveryQueue {
    const session: Session

    constructor (session: Session)
      ensures this.session == session
    {
      this.session := session;
    }

    /**
     * A new operation key inserts one waiting row, after the waiting edits of the same message gave way;
     * a known key returns its row when the content is the same and is refused otherwise.
     */
    method Enqueue(intent: DeliveryIntent, now: Time, newId: Id) returns (r: Result<Id, DeliveryError>)
      requires newId !in session.outbox && UniqueDeliveries(session.outbox)
      modifies session`outbox
      ensures UniqueDeliveries(session.outbox)
      ensures
        var before := old(session.outbox);
        var refusal := Refusal(session.houseChats, before, intent);
        if refusal.Some? then r == Err(refusal.value) && session.outbox == before
        else if HasDelivery(before, intent.houseId, intent.operationKey) then
          && session.outbox == before
          && exists id :: id in before && IsKeyed(before[id], intent.houseId, intent.operationKey)
                          && r == (if before[id].content == intent then Ok(id) else Err(KeyReused))
        else
          && r == Ok(newId)
          && session.outbox == Coalesced(before, intent.houseId, intent.editKey)[newId := NewDelivery(intent, now)]
    {
      if !Acceptable(intent) {
        return Err(InvalidDelivery);
      }
      if !ChatIsHouses(session.houseChats, intent) {
        return Err(ChatOfAnotherHouse);
      }
      if !EditTargetOk(session.outbox, intent) {
        return Err(EditTargetMismatch);
      }
      if HasDelivery(session.outbox, intent.houseId, intent.operationKey) {
        var id :| id in session.outbox && IsKeyed(session.outbox[id], intent.houseId, intent.operationKey);
        return if session.outbox[id].content == intent then Ok(id) else Err(KeyReused);
      }
      InsertKeepsUnique(session.outbox, newId, intent, now);
      session.outbox := Coalesced(session.outbox, intent.houseId, intent.editKey);
      session.outbox := session.outbox[newId := NewDelivery(intent, now)];
      return Ok(newId);
    }

    method Claim(worker: WorkerId, now: Time, leaseFor: Time, locked: set<Id>) returns (r: Option<Id>)
      modifies session`outbox
      ensures r.None? <==>
              forall id :: id in old(session.outbox) && Due(old(session.outbox)[id].lease, now) ==> id in locked
      ensures r.None? ==> session.outbox == old(session.outbox)
      ensures r.Some? ==>
        var id, outbox := r.value, old(session.outbox);
        && id in outbox && id !in locked && Due(outbox[id].lease, now)
        && (forall other :: other in outbox && other !in locked && Due(outbox[other].lease, now) ==>
              outbox[id].lease.availableAt < outbox[other].lease.availableAt
              || (outbox[id].lease.availableAt == outbox[other].lease.availableAt && id <= other))
        && session.outbox == outbox[id := outbox[id].(lease := Claimed(outbox[id].lease, worker, now, leaseFor))]
    {
      var candidates := Claimable(session.outbox, now, locked);
      assert forall id :: id in session.outbox && id !in locked && Due(session.outbox[id].lease, now) ==>
               id in candidates;
      if candidates == {} {
        return None;
      }
      var id := First(candidates, Availability(session.outbox));
      session.outbox := Relet(session.outbox, id, Claimed(session.outbox[id].lease, worker, now, leaseFor));
      return Some(id);
    }

    method SaveAttachmentToken(id: Id, worker: WorkerId, now: Time, token: string)
      returns (r: Result<(), DeliveryError>)
      modifies session`outbox
      ensures r == if token == "" then Err(InvalidDelivery)
                   else if HoldsRow(old(session.outbox), id, worker, now) then Ok(()) else Err(LeaseLost)
      ensures session.outbox == if r.Err? then old(session.outbox)
        else old(session.outbox)[id := old(session.outbox)[id].(attachmentToken := Some(token))]
    {
      if token == "" {
        return Err(InvalidDelivery);
      }
      if !HoldsRow(session.outbox, id, worker, now) {
        return Err(LeaseLost);
      }
      session.outbox := session.outbox[id := session.outbox[id].(attachmentToken := Some(token))];
      return Ok(());
    }

    method Heartbeat(id: Id, worker: WorkerId, now: Time, leaseFor: Time) returns (r: Result<(), DeliveryError>)
      modifies session`outbox
      ensures r == if HoldsRow(old(session.outbox), id, worker, now) then Ok(()) else Err(LeaseLost)
      ensures session.outbox == if r.Err? then old(session.outbox)
        else
          var row := old(session.outbox)[id];
          old(session.outbox)[id := row.(lease := Renewed(row.lease, now, leaseFor))]
    {
      if !HoldsRow(session.outbox, id, worker, now) {
        return Err(LeaseLost);
      }
      session.outbox := Relet(session.outbox, id, Renewed(session.outbox[id].lease, now, leaseFor));
      return Ok(());
    }

    method Settle(
        id: Id, worker: WorkerId, now: Time, phase: Phase, messageId: Option<string>, error: ErrorCode,
        retryAfter: Option<Time>)
      returns (r: Result<(), DeliveryError>)
      modifies session`outbox
      ensures r == if HoldsRow(old(session.outbox), id, worker, now) then Ok(()) else Err(LeaseLost)
      ensures session.outbox == if r.Err? then old(session.outbox)
        else
          var row := old(session.outbox)[id];
          var at := if retryAfter.Some? then now + retryAfter.value else row.lease.availableAt;
          old(session.outbox)[id :=
            row.(messageId := messageId, error := error, lease := Released(row.lease, phase, at))]
    {
      if !HoldsRow(session.outbox, id, worker, now) {
        return Err(LeaseLost);
      }
      var row := session.outbox[id];
      var at := row.lease.availableAt;
      if retryAfter.Some? {
        at := now + retryAfter.value;
      }
      session.outbox := session.outbox[id :=
        row.(messageId := messageId, error := error, lease := Released(row.lease, phase, at))];
      return Ok(());
    }
  }

  // ---------------------------------------------------------------- one delivery after another

  predicate FreshIds(ids: seq<Id>, outbox: Outbox) {
    && (forall i :: 0 <= i < |ids| ==> ids[i] !in outbox)
    && (forall i, j :: 0 <= i < j < |ids| ==> ids[i] != ids[j])
  }

  // Nothing but these deliveries was added, and no stored one was touched.
  predicate Adds(before: Outbox, after: Outbox, intents: seq<DeliveryIntent>, now: Time) {
    && (forall id :: id in before ==> id in after && after[id] == before[id])
    && (forall id :: id in after && id !in before ==>
          exists i :: 0 <= i < |intents| && after[id] == NewDelivery(intents[i], now))
  }

  // What one enqueue without an edit key does when nothing is wrong with its shape.
  predicate Enqueued(
      before: Outbox, after: Outbox, intent: DeliveryIntent, newId: Id, r: Result<Id, DeliveryError>, now: Time)
  {
    if HasDelivery(before, intent.houseId, intent.operationKey) then
      && after == before
      && exists id :: id in before && IsKeyed(before[id], intent.houseId, intent.operationKey)
                      && r == (if before[id].content == intent then Ok(id) else Err(KeyReused))
    else r == Ok(newId) && after == before[newId := NewDelivery(intent, now)]
  }

  lemma NothingAdded(outbox: Outbox, now: Time)
    ensures Adds(outbox, outbox, [], now)
  {
  }

  /** An enqueue fails exactly on a key clash, and otherwise leaves the delivery stored. */
  lemma EnqueuedOnce(
      before: Outbox, after: Outbox, intent: DeliveryIntent, newId: Id, r: Result<Id, DeliveryError>, now: Time)
    requires UniqueDeliveries(before) && Enqueued(before, after, intent, newId, r, now)
    ensures r.Err? <==> KeyClash(before, intent)
    ensures r.Ok? && newId !in before ==> after == before || after == before[newId := NewDelivery(intent, now)]
    ensures HasDelivery(after, intent.houseId, intent.operationKey)
  {
    if HasDelivery(before, intent.houseId, intent.operationKey) {
      var id :| id in before && IsKeyed(before[id], intent.houseId, intent.operationKey)
                && r == (if before[id].content == intent then Ok(id) else Err(KeyReused));
      forall other | other in before && IsKeyed(before[other], intent.houseId, intent.operationKey) ensures other == id {
        if other != id {
          assert false;
        }
      }
    } else {
      assert IsKeyed(after[newId], intent.houseId, intent.operationKey);
    }
  }

  lemma OneMoreAdded(
      start: Outbox, before: Outbox, after: Outbox, intents: seq<DeliveryIntent>, intent: DeliveryIntent, newId: Id,
      now: Time)
    requires Adds(start, before, intents, now) && newId !in before
    requires after == before || after == before[newId := NewDelivery(intent, now)]
    ensures Adds(start, after, intents + [intent], now)
  {
    var all := intents + [intent];
    assert all[|intents|] == intent;
    forall id | id in after && id !in start ensures exists i :: 0 <= i < |all| && after[id] == NewDelivery(all[i], now) {
      if id in before {
        var i :| 0 <= i < |intents| && before[id] == NewDelivery(intents[i], now);
        assert all[i] == intents[i];
      }
    }
  }

  /** What one more delivery means for any key. */
  lemma KeysAfter(before: Outbox, after: Outbox, intent: DeliveryIntent, newId: Id, now: Time, other: DeliveryIntent)
    requires newId !in before && (after == before || after == before[newId := NewDelivery(intent, now)])
    requires HasDelivery(after, intent.houseId, intent.operationKey)
    requires other.houseId == intent.houseId && other.operationKey == intent.operationKey ==> other == intent
    ensures HasDelivery(after, other.houseId, other.operationKey)
       <==> HasDelivery(before, other.houseId, other.operationKey) || other == intent
    ensures KeyClash(after, other) <==> KeyClash(before, other)
  {
    assert forall id :: id in before ==> id in after && after[id] == before[id];
    if HasDelivery(before, other.houseId, other.operationKey) {
      var id :| id in before && IsKeyed(before[id], other.houseId, other.operationKey);
      assert id in after && IsKeyed(after[id], other.houseId, other.operationKey);
    }
    if KeyClash(before, other) {
      var id :| id in before && IsKeyed(before[id], other.houseId, other.operationKey) && before[id].content != other;
      assert id in after && after[id] == before[id];
    }
  }

  lemma InsertKeepsUnique(outbox: Outbox, id: Id, intent: DeliveryIntent, now: Time)
    requires UniqueDeliveries(outbox) && id !in outbox
    requires !HasDelivery(outbox, intent.houseId, intent.operationKey)
    ensures UniqueDeliveries(Coalesced(outbox, intent.houseId, intent.editKey)[id := NewDelivery(intent, now)])
  {
    var u := Coalesced(outbox, intent.houseId, intent.editKey)[id := NewDelivery(intent, now)];
    forall i, j | i in u && j in u && i != j ensures !SameDelivery(u[i], u[j]) {
      if i != id && j != id {
        assert !SameDelivery(outbox[i], outbox[j]);
      } else {
        var k := if i == id then j else i;
        assert !IsKeyed(outbox[k], intent.houseId, intent.operationKey);
      }
    }
  }
}
