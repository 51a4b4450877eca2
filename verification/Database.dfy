/** The database session that repositories share; one transaction is one atomic method. */
module Database {
  import opened Basics
  import opened CaseRows
  import opened InboxRows
  import opened InitiativeRows
  import opened Leases
  import opened OutboxRows
  import opened PollTables
  import opened ReminderRows

  datatype Audience = Audience(houseId: Id, members: set<Id>)

  datatype JobKey = NamedJob(name: string) | PollExpiry(pollId: Id) | ReminderDue(pollId: Id, number: int)

  datatype JobRow = JobRow(
    houseId: Id,
    operationKey: JobKey,
    eventName: EventName,
    entityId: Id,
    expectedVersion: int,
    dueAt: Time,
    error: Option<string>,
    lease: Lease)

  datatype StoredFile = StoredFile(
    houseId: Id,
    fileKey: Id,
    sha256: string,
    mimeType: string,
    sizeBytes: int,
    retainUntil: Time)

  datatype DocumentRow = DocumentRow(
    houseId: Id,
    caseId: Id,
    recipient: Id,
    snapshotHash: string,
    createdAt: Time,
    file: Option<StoredFile>,
    readyAt: Option<Time>,
    error: Option<string>,
    lease: Lease)

  // A failed transaction rolls back: the method returns an error and leaves every table as it was.
  class Session {
    var audiences: map<Id, Audience>
    var houseChats: map<string, Id>
    var files: map<Id, CaseFile>  // by house
    var inbox: Inbox
    var jobs: map<Id, JobRow>
    var outbox: Outbox
    var documents: map<Id, DocumentRow>
    var polls: Tables
    var actions: map<Id, PollAction>
    var initiatives: Book
    var reminders: ReminderLog

    constructor ()
      ensures initiatives == Book(map[], map[], map[], map[]) && reminders == ReminderLog([], map[])
      ensures audiences == map[] && houseChats == map[] && files == map[] && inbox == map[] && jobs == map[]
      ensures outbox == map[] && documents == map[] && actions == map[] && polls == Tables(map[], map[], map[], [])
    {
      audiences, houseChats, files, inbox, jobs := map[], map[], map[], map[], map[];
      outbox, documents, actions := map[], map[], map[];
      initiatives, reminders := Book(map[], map[], map[], map[]), ReminderLog([], map[]);
      polls := Tables(map[], map[], map[], []);
    }
  }
}
