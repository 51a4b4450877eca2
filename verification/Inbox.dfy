/** Rows of the durable inbox: external updates and the domain events other handlers wait for. */
module InboxRows {
  import opened Basics
  import opened Leases

  datatype EventName =
    | CallbackReceived | OtherIngress
    | PollThresholdReached | PollExpired | ProblemDetected | InitiativeDetected | DocumentReady | OtherDomainEvent

  datatype Source = Max | Domain | Scheduler

  // The deduplication key of an event. Keys the source formats from ids are kept structured.
  datatype SourceKey =
    | External(key: string)
    | OfPoll(pollId: Id, event: EventName)
    | OfRevision(caseId: Id, revision: int)
    | OfDocument(documentId: Id)

  datatype Entity = Entity(entityId: Id, version: int, caseId: Option<Id>, causationId: Option<Id>)

  // An update that could not be normalised has no name and is stored as ignored.
  datatype InboxRow = InboxRow(
    source: Source,
    sourceKey: SourceKey,
    name: Option<EventName>,
    houseId: Option<Id>,
    entity: Option<Entity>,
    receivedAt: Time,
    lease: Lease)

  type Inbox = map<Id, InboxRow>

  predicate HasKey(inbox: Inbox, source: Source, key: SourceKey) {
    exists id :: id in inbox && inbox[id].source == source && inbox[id].sourceKey == key
  }

  /** INSERT ... ON CONFLICT (source, source_key) DO NOTHING. */
  function Saved(inbox: Inbox, id: Id, row: InboxRow): Inbox {
    if HasKey(inbox, row.source, row.sourceKey) then inbox else inbox[id := row]
  }

  predicate UniqueKeys(inbox: Inbox) {
    forall i, j :: i in inbox && j in inbox && SameKey(inbox[i], inbox[j]) ==> i == j
  }

  predicate SameKey(a: InboxRow, b: InboxRow) {
    a.source == b.source && a.sourceKey == b.sourceKey
  }

  function Leased(inbox: Inbox): map<Id, Lease> {
    map id | id in inbox :: inbox[id].lease
  }

  // A button press that a poll of this house closing at closesAt still has to wait for.
  predicate Outstanding(row: InboxRow, houseId: Id, closesAt: Time) {
    Relevant(row, houseId, closesAt) && (row.lease.phase.Pending? || row.lease.phase.Processing?)
  }

  predicate Relevant(row: InboxRow, houseId: Id, closesAt: Time) {
    && row.name == Some(CallbackReceived)
    && row.receivedAt < closesAt
    && (row.houseId == Some(houseId) || row.houseId.None?)
  }

  predicate Drained(inbox: Inbox, houseId: Id, closesAt: Time) {
    forall id :: id in inbox ==> !Outstanding(inbox[id], houseId, closesAt)
  }

  /** What keeps a deadline waiting: an unsettled press, received in time, of this house or of none. */
  lemma NotDrained(inbox: Inbox, houseId: Id, closesAt: Time)
    ensures !Drained(inbox, houseId, closesAt) <==>
            exists id :: id in inbox && inbox[id].name == Some(CallbackReceived) && inbox[id].receivedAt < closesAt
                         && (inbox[id].houseId.None? || inbox[id].houseId.value == houseId)
                         && !inbox[id].lease.phase.Final?
  {
  }

  function DomainRow(key: SourceKey, name: EventName, houseId: Id, entity: Entity, at: Time): InboxRow {
    InboxRow(Domain, key, Some(name), Some(houseId), Some(entity), at, NewLease(Pending, at))
  }

  /** Saving stores the row once, under a key nobody used, and touches no other row. */
  lemma SavedSays(inbox: Inbox, id: Id, row: InboxRow)
    requires id !in inbox
    ensures
      var known := exists i :: i in inbox && inbox[i].source == row.source && inbox[i].sourceKey == row.sourceKey;
      && (known ==> Saved(inbox, id, row) == inbox)
      && (!known ==> id in Saved(inbox, id, row) && Saved(inbox, id, row)[id] == row
                     && Saved(inbox, id, row).Keys == inbox.Keys + {id}
                     && forall i :: i in inbox ==> Saved(inbox, id, row)[i] == inbox[i])
  {
  }

  /** A domain event waits at once to be handled in its house, and no deadline ever waits for it. */
  lemma DomainRowSays(
      key: SourceKey, name: EventName, houseId: Id, entity: Entity, at: Time, anyHouse: Id, closesAt: Time)
    requires !name.CallbackReceived?
    ensures
      var row := DomainRow(key, name, houseId, entity, at);
      && row.source.Domain? && row.sourceKey == key && row.name == Some(name) && row.houseId == Some(houseId)
      && row.entity == Some(entity) && row.receivedAt == at && Due(row.lease, at) && row.lease.attempts == 0
      && !Relevant(row, anyHouse, closesAt)
  {
  }

  /** A key stays taken: saving the same event again, under any id, changes nothing. */
  lemma SavedOnce(inbox: Inbox, id: Id, row: InboxRow, again: Id, other: InboxRow)
    requires UniqueKeys(inbox) && id !in inbox
    requires other.source == row.source && other.sourceKey == row.sourceKey
    ensures UniqueKeys(Saved(inbox, id, row)) && HasKey(Saved(inbox, id, row), row.source, row.sourceKey)
    ensures Saved(Saved(inbox, id, row), again, other) == Saved(inbox, id, row)
  {
    if !HasKey(inbox, row.source, row.sourceKey) {
      assert inbox[id := row][id] == row;
    }
  }
}
