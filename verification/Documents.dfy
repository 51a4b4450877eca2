/** The document worker: one attempt at a time, with attempts bounded already when a row is taken. */
module Documents {
  import opened Basics
  import opened Leases
  import opened LeaseProtocol
  import opened InboxRows
  import opened OutboxRows
  import opened Database
  import DeliveryQueue

  datatype DocumentError = DocumentLeaseLost | DocumentChanged | DeliveryRefused

  type DocumentRows = map<Id, DocumentRow>

  datatype Taken = Nothing | GaveUp(id: Id) | Working(id: Id)

  function Creation(documents: DocumentRows): map<Id, Time> {
    map id | id in documents :: documents[id].createdAt
  }

  function Queued(documents: DocumentRows, now: Time, locked: set<Id>): set<Id> {
    set id | id in documents && id !in locked && (documents[id].lease.phase.Pending? || Expired(documents[id].lease, now))
  }

  function Relet(documents: DocumentRows, id: Id, lease: Lease): DocumentRows
    requires id in documents
  {
    documents[id := documents[id].(lease := lease)]
  }

  function LeasesOf(documents: DocumentRows): map<Id, Lease> {
    map id | id in documents :: documents[id].lease
  }

  predicate HoldsDocument(documents: DocumentRows, id: Id, worker: WorkerId, now: Time) {
    id in documents && Holds(documents[id].lease, worker, now)
  }

  function ReadyNotice(id: Id, row: DocumentRow, fileKey: Id, text: string): DeliveryIntent {
    DeliveryIntent(row.houseId, DocumentFile(id), text, Some(row.recipient), None, None, Some(fileKey), [])
  }

  function ReadyRow(row: DocumentRow, file: StoredFile, now: Time): DocumentRow {
    row.(file := Some(file), readyAt := Some(now), error := None,
         lease := Released(row.lease, Final(Ready), row.lease.availableAt))
  }

  function ReadyEvent(id: Id, row: DocumentRow, caseRevision: int, now: Time): InboxRow {
    DomainRow(OfDocument(id), DocumentReady, row.houseId, Entity(id, caseRevision, Some(row.caseId), Some(id)), now)
  }

  /** The file goes to the resident who asked for it, alone and in private, once per document. */
  lemma ReadyNoticeSays(id: Id, row: DocumentRow, fileKey: Id, text: string, other: Id)
    ensures
      var notice := ReadyNotice(id, row, fileKey, text);
      && notice.houseId == row.houseId && notice.recipient == Some(row.recipient) && notice.chat.None?
      && notice.fileKey == Some(fileKey) && notice.text == text && notice.editKey.None? && notice.buttons == []
      && (notice.operationKey == ReadyNotice(other, row, fileKey, text).operationKey <==> id == other)
  {
  }

  /** A published document is over, with its file, the moment it was ready and no error; nothing else of it changes. */
  lemma ReadyRowSays(row: DocumentRow, file: StoredFile, now: Time, later: Time)
    ensures
      var after := ReadyRow(row, file, now);
      && after.lease.phase == Final(Ready) && after.lease.owner.None? && !Due(after.lease, later)
      && after.file == Some(file) && after.readyAt == Some(now) && after.error.None?
      && after == row.(lease := after.lease, file := after.file, readyAt := after.readyAt, error := after.error)
  {
  }

  /** And is announced once, for its house and case, at the revision it was made from. */
  lemma ReadyEventSays(id: Id, row: DocumentRow, caseRevision: int, now: Time)
    ensures
      var event := ReadyEvent(id, row, caseRevision, now);
      && event.source.Domain? && event.sourceKey == OfDocument(id) && event.name == Some(DocumentReady)
      && event.houseId == Some(row.houseId) && event.receivedAt == now && Due(event.lease, now)
      && event.entity == Some(Entity(id, caseRevision, Some(row.caseId), Some(id)))
  {
  }

  function Capped(maxAttempts: nat): Queue {
    LeaseProtocol.Queue(maxAttempts, true)
  }

  // A protocol state with these leases in which the worker works on this document.
  predicate Busy(s: State, documents: DocumentRows, worker: WorkerId, id: Id) {
    s.rows == LeasesOf(documents) && worker in s.handles && s.handles[worker].row == id
  }

  // The outbox with this delivery in it, or as it was when its key was known.
  function Delivered(outbox: Outbox, intent: DeliveryIntent, now: Time, newId: Id): Outbox {
    if HasDelivery(outbox, intent.houseId, intent.operationKey) then outbox else outbox[newId := NewDelivery(intent, now)]
  }

  class DocumentWorker {
    const session: Session
    const worker: WorkerId
    const leaseFor: Time
    const maxAttempts: nat

    constructor (session: Session, worker: WorkerId, leaseFor: Time, maxAttempts: nat)
      requires leaseFor > 0 && maxAttempts >= 1
      ensures this.session == session && this.worker == worker
      ensures this.leaseFor == leaseFor && this.maxAttempts == maxAttempts
    {
      this.session, this.worker, this.leaseFor, this.maxAttempts := session, worker, leaseFor, maxAttempts;
    }

    /** Takes the oldest waiting or abandoned document, or gives it up when its attempts are used up. */
    method Take(now: Time, locked: set<Id>) returns (r: Taken)
      modifies session`documents
      ensures
        var documents := old(session.documents);
        r == Nothing <==> forall id :: id in documents && id !in locked ==>
                            !documents[id].lease.phase.Pending? && !Expired(documents[id].lease, now)
      ensures r == Nothing ==> session.documents == old(session.documents)
      ensures r != Nothing ==>
        && var id, documents := r.id, old(session.documents);
        && id in documents && id !in locked
        && (documents[id].lease.phase.Pending? || Expired(documents[id].lease, now))
        && (forall other :: other in documents && other !in locked
                            && (documents[other].lease.phase.Pending? || Expired(documents[other].lease, now)) ==>
              documents[id].createdAt < documents[other].createdAt
              || (documents[id].createdAt == documents[other].createdAt && id <= other))
        && (r.GaveUp? <==> documents[id].lease.attempts >= maxAttempts)
        && session.documents == documents[id :=
             if r.GaveUp? then
               documents[id].(error := Some("render_attempts_exhausted"),
                              lease := Released(documents[id].lease, Final(Failed), documents[id].lease.availableAt))
             else documents[id].(lease := Claimed(documents[id].lease, worker, now, leaseFor))]
        && forall s: State | s.rows == LeasesOf(documents) && worker !in s.handles ::
             Apply(Capped(maxAttempts), s, LeaseProtocol.Take(id, worker, now, leaseFor)).rows
             == LeasesOf(session.documents)
    {
      var candidates := Queued(session.documents, now, locked);
      forall id | id in session.documents && id !in locked && id !in candidates
        ensures !session.documents[id].lease.phase.Pending? && !Expired(session.documents[id].lease, now)
      {
      }
      if candidates == {} {
        return Nothing;
      }
      var id := First(candidates, Creation(session.documents));
      var row := session.documents[id];
      if row.lease.attempts >= maxAttempts {
        var lease := Released(row.lease, Final(Failed), row.lease.availableAt);
        session.documents := session.documents[id := row.(error := Some("render_attempts_exhausted"), lease := lease)];
        return GaveUp(id);
      }
      session.documents := Relet(session.documents, id, Claimed(row.lease, worker, now, leaseFor));
      return Working(id);
    }

    /** The heartbeat, and the check made once more before a rendered file is published. */
    method Renew(id: Id, now: Time) returns (r: Result<(), DocumentError>)
      modifies session`documents
      ensures r == if id in old(session.documents) && Holds(old(session.documents)[id].lease, worker, now) then Ok(())
                   else Err(DocumentLeaseLost)
      ensures session.documents == if r.Err? then old(session.documents)
        else
          var row := old(session.documents)[id];
          old(session.documents)[id := row.(lease := Renewed(row.lease, now, leaseFor))]
      ensures r.Ok? ==>
        forall s: State | Busy(s, old(session.documents), worker, id) ::
          Apply(Capped(maxAttempts), s, Beat(worker, now, leaseFor)).rows == LeasesOf(session.documents)
    {
      if !HoldsDocument(session.documents, id, worker, now) {
        return Err(DocumentLeaseLost);
      }
      session.documents := Relet(session.documents, id, Renewed(session.documents[id].lease, now, leaseFor));
      return Ok(());
    }

    /** Publishes the file, its delivery and its event together, or nothing of the three. */
    method Finish(id: Id, now: Time, snapshotHash: string, caseRevision: int, file: StoredFile, text: string,
                  newDelivery: Id, newEvent: Id)
      returns (r: Result<(), DocumentError>)
      requires UniqueDeliveries(session.outbox) && newDelivery !in session.outbox
      requires UniqueKeys(session.inbox) && newEvent !in session.inbox
      modifies session`documents, session`outbox, session`inbox
      ensures UniqueDeliveries(session.outbox) && UniqueKeys(session.inbox)
      ensures
        var documents, outbox := old(session.documents), old(session.outbox);
        if id !in documents || !Holds(documents[id].lease, worker, now) then r == Err(DocumentLeaseLost)
        else
          var row := documents[id];
          var notice := ReadyNotice(id, row, file.fileKey, text);
          if row.snapshotHash != snapshotHash || row.houseId != file.houseId then r == Err(DocumentChanged)
          else if KeyClash(outbox, notice) then r == Err(DeliveryRefused)
          else
            && r == Ok(())
            && session.documents == documents[id := ReadyRow(row, file, now)]
            && session.outbox == Delivered(outbox, notice, now, newDelivery)
            && session.inbox == Saved(old(session.inbox), newEvent, ReadyEvent(id, row, caseRevision, now))
      ensures r.Err? ==>
        && session.documents == old(session.documents) && session.outbox == old(session.outbox)
        && session.inbox == old(session.inbox)
      ensures r.Ok? ==>
        var at := old(session.documents)[id].lease.availableAt;
        forall s: State | Busy(s, old(session.documents), worker, id) ::
          Apply(Capped(maxAttempts), s, Settle(worker, now, Final(Ready), at)).rows == LeasesOf(session.documents)
    {
      hide DeliveryQueue.Refusal, UniqueDeliveries;
      if !HoldsDocument(session.documents, id, worker, now) {
        return Err(DocumentLeaseLost);
      }
      var row := session.documents[id];
      if row.snapshotHash != snapshotHash || row.houseId != file.houseId {
        return Err(DocumentChanged);
      }
      var notice := ReadyNotice(id, row, file.fileKey, text);
      NoticeIsPlain(session.houseChats, session.outbox, notice);
      var queue := new DeliveryQueue.PostgresDeliveryQueue(session);
      var enqueued := queue.Enqueue(notice, now, newDelivery);
      DeliveryQueue.EnqueuedOnce(old(session.outbox), session.outbox, notice, newDelivery, enqueued, now);
      if enqueued.Err? {
        return Err(DeliveryRefused);
      }
      session.documents := session.documents[id := ReadyRow(row, file, now)];
      var event := ReadyEvent(id, row, caseRevision, now);
      SavedOnce(session.inbox, newEvent, event, newEvent, event);
      session.inbox := Saved(session.inbox, newEvent, event);
      return Ok(());
    }

    /** Gives the document back, or up; a lost lease leaves it to its new owner. */
    method Fail(id: Id, now: Time, error: string)
      modifies session`documents
      ensures session.documents ==
        if id !in old(session.documents) || !Holds(old(session.documents)[id].lease, worker, now) then
          old(session.documents)
        else
          var row := old(session.documents)[id];
          var phase := if row.lease.attempts >= maxAttempts then Final(Failed) else Pending;
          old(session.documents)[id := row.(error := Some(if |error| <= 100 then error else error[..100]),
                                            lease := Released(row.lease, phase, row.lease.availableAt))]
      ensures id in old(session.documents) && Holds(old(session.documents)[id].lease, worker, now) ==>
        var lease := session.documents[id].lease;
        forall s: State | LeaseProtocol.Inv(Capped(maxAttempts), s) && Busy(s, old(session.documents), worker, id) ::
          Apply(Capped(maxAttempts), s, Settle(worker, now, lease.phase, lease.availableAt)).rows
          == LeasesOf(session.documents)
    {
      hide LeaseProtocol.Inv;
      if !HoldsDocument(session.documents, id, worker, now) {
        return;
      }
      var row := session.documents[id];
      var phase := if row.lease.attempts >= maxAttempts then Final(Failed) else Pending;
      var code := if |error| <= 100 then error else error[..100];
      forall s: State | LeaseProtocol.Inv(Capped(maxAttempts), s) && Busy(s, session.documents, worker, id)
        ensures s.handles[worker].attempts == row.lease.attempts
      {
        HolderIsLatest(Capped(maxAttempts), s, worker, now);
      }
      session.documents := session.documents[id :=
        row.(error := Some(code), lease := Released(row.lease, phase, row.lease.availableAt))];
    }
  }

  /** The notice of a file is never refused for its shape. */
  lemma NoticeIsPlain(chats: map<string, Id>, outbox: Outbox, notice: DeliveryIntent)
    requires notice.operationKey.DocumentFile? && notice.fileKey.Some? && notice.buttons == []
    requires notice.recipient.Some? && notice.chat.None? && notice.editKey.None?
    ensures DeliveryQueue.Refusal(chats, outbox, notice).None?
  {
  }
}
