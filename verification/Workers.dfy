/** The workers of the queues: what they do to a claimed row, step for step as the lease protocol allows. */
module Workers {
  import opened Basics
  import opened Leases
  import opened LeaseProtocol
  import opened InboxRows
  import opened OutboxRows
  import opened Database
  import InboxQueue
  import JobQueue
  import DeliveryQueue

  const SECOND: Time := 1_000_000

  function PowerOfTwo(n: nat): nat {
    if n == 0 then 1 else 2 * PowerOfTwo(n - 1)
  }

  /** The waiting time after a failed attempt. */
  function RetryDelay(attempts: nat): Time
    requires attempts > 0
  {
    var seconds := 5 * PowerOfTwo(attempts - 1);
    (if seconds < 60 then seconds else 60) * SECOND
  }

  /** The waiting time doubles from five seconds and stays at a minute from the fifth attempt on. */
  lemma {:induction false} RetryDelayGrows(attempts: nat)
    requires attempts > 0
    ensures 5 * SECOND <= RetryDelay(attempts) <= RetryDelay(attempts + 1) <= 60 * SECOND
    ensures attempts >= 5 ==> RetryDelay(attempts) == 60 * SECOND
    ensures attempts < 4 ==> RetryDelay(attempts + 1) == 2 * RetryDelay(attempts)
  {
    if attempts > 1 {
      RetryDelayGrows(attempts - 1);
    }
    if attempts == 5 {
      assert PowerOfTwo(4) == 2 * PowerOfTwo(3) == 4 * PowerOfTwo(2) == 16;
    }
  }

  function JobLeases(jobs: JobQueue.Jobs): map<Id, Lease> {
    map id | id in jobs :: jobs[id].lease
  }

  function DeliveryLeases(outbox: Outbox): map<Id, Lease> {
    map id | id in outbox :: outbox[id].lease
  }

  // A protocol state with these rows in which the worker is free.
  predicate Idle(s: State, rows: map<Id, Lease>, w: WorkerId) {
    s.rows == rows && w !in s.handles
  }

  // A protocol state with these rows in which the worker works on this one.
  predicate Busy(s: State, rows: map<Id, Lease>, w: WorkerId, id: Id, attempts: nat) {
    s.rows == rows && w in s.handles && s.handles[w].row == id && s.handles[w].attempts == attempts
  }

  function Waiting(maxAttempts: nat): Queue {
    LeaseProtocol.Queue(maxAttempts, false)
  }

  // ---------------------------------------------------------------- inbox

  class InboxWorker {
    const session: Session
    const worker: WorkerId
    const leaseFor: Time
    const maxAttempts: nat

    constructor (session: Session, worker: WorkerId, leaseFor: Time, maxAttempts: nat)
      requires leaseFor > 0 && maxAttempts >= 1
      ensures this.session == session && this.worker == worker
      ensures this.leaseFor == leaseFor && this.maxAttempts == maxAttempts
    {
      this.session, this.worker, this.leaseFor, this.maxAttempts := session, worker, leaseFor, maxAttempts;
    }

    method Next(now: Time, locked: set<Id>) returns (r: Result<Option<Id>, InboxQueue.InboxError>)
      modifies session`inbox
      ensures r.Err? || r.value.None? ==> session.inbox == old(session.inbox)
      ensures r.Ok? && r.value.Some? ==>
        && r.value.value in session.inbox
        && forall s: State | Idle(s, Leased(old(session.inbox)), worker) ::
          Busy(Apply(Waiting(maxAttempts), s, Take(r.value.value, worker, now, leaseFor)),
               Leased(session.inbox), worker, r.value.value, Leased(session.inbox)[r.value.value].attempts)
    {
      var store := new InboxQueue.InboxStore(session);
      r := store.Claim(worker, now, leaseFor, locked);
    }

    /** Prolongs a lease that is still held, which is the protocol's heartbeat. */
    method Heartbeat(id: Id, now: Time) returns (ok: bool)
      modifies session`inbox
      ensures ok <==> id in old(session.inbox) && Holds(old(session.inbox)[id].lease, worker, now)
      ensures session.inbox == if !ok then old(session.inbox)
        else InboxQueue.Relet(old(session.inbox), id, Renewed(old(session.inbox)[id].lease, now, leaseFor))
      ensures forall s: State, attempts: nat | Busy(s, Leased(old(session.inbox)), worker, id, attempts) ::
                && (ok <==> Fenced(s, worker, now))
                && Apply(Waiting(maxAttempts), s, Beat(worker, now, leaseFor)).rows == Leased(session.inbox)
    {
      var store := new InboxQueue.InboxStore(session);
      var renewed := store.Heartbeat(id, worker, now, leaseFor);
      ok := renewed.Ok?;
    }

    /** Finishes a handled event and fails the others; both are settlements the protocol allows. */
    method Conclude(id: Id, handled: bool, now: Time) returns (ok: bool)
      modifies session`inbox
      ensures ok <==> id in old(session.inbox) && Holds(old(session.inbox)[id].lease, worker, now)
      ensures !ok ==> session.inbox == old(session.inbox)
      ensures ok ==>
        var lease := old(session.inbox)[id].lease;
        var phase := if handled then Final(Done) else if lease.attempts < maxAttempts then Pending else Final(Dead);
        var at := if handled then lease.availableAt else now + 5 * SECOND;
        && session.inbox == InboxQueue.Relet(old(session.inbox), id, Released(lease, phase, at))
        && forall s: State, attempts: nat |
             LeaseProtocol.Inv(Waiting(maxAttempts), s) && Busy(s, Leased(old(session.inbox)), worker, id, attempts) ::
             Apply(Waiting(maxAttempts), s, LeaseProtocol.Settle(worker, now, phase, at)).rows == Leased(session.inbox)
    {
      hide LeaseProtocol.Inv;
      var store := new InboxQueue.InboxStore(session);
      ghost var before := session.inbox;
      if handled {
        var finished := store.Finish(id, worker, now);
        ok := finished.Ok?;
      } else {
        var failed := store.Fail(id, worker, now, 5 * SECOND, maxAttempts);
        ok := failed.Ok?;
      }
      if ok {
        forall s: State, attempts: nat |
          LeaseProtocol.Inv(Waiting(maxAttempts), s) && Busy(s, Leased(before), worker, id, attempts)
          ensures attempts == before[id].lease.attempts
        {
          HolderIsLatest(Waiting(maxAttempts), s, worker, now);
        }
      }
    }
  }

  // ---------------------------------------------------------------- jobs

  /** How the run of a claimed job ends: stale work is skipped. */
  datatype RunResult = Stale | Handled | Raised

  function AfterRun(result: RunResult, attempts: nat, maxAttempts: nat): Phase {
    match result
    case Stale => Final(SkippedStale)
    case Handled => Final(Done)
    case Raised => if attempts >= maxAttempts then Final(Dead) else Pending
  }

  // The present version of the job's entity, if there is one and its reader does not fail.
  datatype Reading = Version(current: Option<int>) | ReaderFailed

  // A job whose entity has another version than the one it was scheduled for is not run.
  function RunOf(expectedVersion: int, reading: Reading, raises: bool): RunResult {
    match reading
    case ReaderFailed => Raised
    case Version(current) => if current != Some(expectedVersion) then Stale else if raises then Raised else Handled
  }

  /**
   * A job is skipped exactly when its entity is known to have another version or none, done exactly when the version
   * fits and the run succeeds, and otherwise retried while attempts are left and buried with the last.
   */
  lemma JobEndsSo(expected: int, reading: Reading, raises: bool, attempts: nat, maxAttempts: nat)
    ensures
      var phase := AfterRun(RunOf(expected, reading, raises), attempts, maxAttempts);
      var fits := reading.Version? && reading.current.Some? && reading.current.value == expected;
      var fails := reading.ReaderFailed? || (fits && raises);
      && (phase == Final(SkippedStale) <==> reading.Version? && !fits)
      && (phase == Final(Done) <==> fits && !raises)
      && (phase == Final(Dead) <==> fails && attempts >= maxAttempts)
      && (phase.Pending? <==> fails && attempts < maxAttempts)
      && !phase.Processing?
  {
  }

  class JobScheduler {
    const session: Session
    const worker: WorkerId
    const leaseFor: Time
    const maxAttempts: nat

    constructor (session: Session, worker: WorkerId, leaseFor: Time, maxAttempts: nat)
      requires leaseFor > 0 && maxAttempts >= 1
      ensures this.session == session && this.worker == worker
      ensures this.leaseFor == leaseFor && this.maxAttempts == maxAttempts
    {
      this.session, this.worker, this.leaseFor, this.maxAttempts := session, worker, leaseFor, maxAttempts;
    }

    method Next(now: Time, locked: set<Id>) returns (r: Option<Id>)
      modifies session`jobs
      ensures r.None? ==> session.jobs == old(session.jobs)
      ensures r.Some? ==>
        && r.value in session.jobs && session.jobs[r.value].lease.attempts > 0
        && forall s: State | Idle(s, JobLeases(old(session.jobs)), worker) ::
             Busy(Apply(Waiting(maxAttempts), s, Take(r.value, worker, now, leaseFor)),
                  JobLeases(session.jobs), worker, r.value, session.jobs[r.value].lease.attempts)
    {
      var queue := new JobQueue.PostgresJobQueue(session);
      r := queue.Claim(worker, now, leaseFor, locked);
    }

    /** Prolongs a lease that is still held, which is the protocol's heartbeat. */
    method Heartbeat(id: Id, now: Time) returns (ok: bool)
      modifies session`jobs
      ensures ok <==> id in old(session.jobs) && Holds(old(session.jobs)[id].lease, worker, now)
      ensures session.jobs == if !ok then old(session.jobs)
        else JobQueue.Relet(old(session.jobs), id, Renewed(old(session.jobs)[id].lease, now, leaseFor))
      ensures forall s: State, attempts: nat | Busy(s, JobLeases(old(session.jobs)), worker, id, attempts) ::
                && (ok <==> Fenced(s, worker, now))
                && Apply(Waiting(maxAttempts), s, Beat(worker, now, leaseFor)).rows == JobLeases(session.jobs)
    {
      var store := new JobQueue.PostgresJobQueue(session);
      var renewed := store.Heartbeat(id, worker, now, leaseFor);
      ok := renewed.Ok?;
    }

    /**
     * Settles a claimed job by its run, with the attempts and the version the claim reported; a job whose entity has
     * moved on is skipped for good, and a failing reader counts as a failed run. The protocol allows the settlement.
     */
    method Conclude(
        id: Id, attempts: nat, expected: int, reading: Reading, raises: bool, now: Time, error: string)
      returns (ok: bool)
      requires attempts > 0
      modifies session`jobs
      ensures ok <==> id in old(session.jobs) && Holds(old(session.jobs)[id].lease, worker, now)
      ensures !ok ==> session.jobs == old(session.jobs)
      ensures ok ==>
        var row, result := old(session.jobs)[id], RunOf(expected, reading, raises);
        var phase := AfterRun(result, attempts, maxAttempts);
        var at := if phase.Pending? then now + RetryDelay(attempts) else row.lease.availableAt;
        && session.jobs == old(session.jobs)[id :=
             row.(error := if result.Raised? then Some(error) else None, lease := Released(row.lease, phase, at))]
        && forall s: State | Busy(s, JobLeases(old(session.jobs)), worker, id, attempts) ::
             Apply(Waiting(maxAttempts), s, LeaseProtocol.Settle(worker, now, phase, at)).rows == JobLeases(session.jobs)
      ensures ok ==>
        var phase := session.jobs[id].lease.phase;
        var fits := reading.Version? && reading.current == Some(expected);
        && (phase == Final(SkippedStale) <==> reading.Version? && !fits)
        && (phase == Final(Done) <==> fits && !raises)
        && (phase.Pending? || phase == Final(Dead) <==> reading.ReaderFailed? || (fits && raises))
        && (phase.Pending? ==> attempts < maxAttempts) && (phase == Final(Dead) ==> attempts >= maxAttempts)
    {
      var queue := new JobQueue.PostgresJobQueue(session);
      var result := RunOf(expected, reading, raises);
      JobEndsSo(expected, reading, raises, attempts, maxAttempts);
      var code := if result.Raised? then Some(error) else None;
      var delay := if result.Raised? && attempts < maxAttempts then Some(RetryDelay(attempts)) else None;
      var settled := queue.Settle(id, worker, now, AfterRun(result, attempts, maxAttempts), code, delay);
      ok := settled.Ok?;
    }
  }

  // ---------------------------------------------------------------- deliveries

  datatype Upload = Token | UploadInterrupted | UploadHttp(status: int) | SlotRefused(status: int) | FileRejected

  datatype Sending = Accepted(messageId: string) | SendInterrupted | Rejected(code: string, status: int)

  // What one attempt meets: the addressee, the edited message, the file transport, the upload, the send.
  datatype Attempt = Attempt(
    userKnown: bool,
    targetKnown: bool,
    hasTransport: bool,
    upload: Upload,
    chatValid: bool,
    sending: Sending)

  datatype Outcome = Settles(verdict: Verdict) | Retries

  predicate Busyness(status: int) {
    status == 429 || status >= 500
  }

  const NOT_READY := "attachment.not.ready"

  /** Which outcomes of an attempt are final. */
  function Delivered(content: DeliveryIntent, a: Attempt): Outcome {
    if content.recipient.Some? && !a.userKnown then Settles(Unreachable)
    else if content.editKey.Some? && !a.targetKnown then Retries
    else if content.fileKey.Some? && content.editKey.Some? then Settles(Failed)
    else if content.fileKey.Some? && !a.hasTransport then Settles(WaitingAttachment)
    else if content.fileKey.Some? && a.upload.UploadInterrupted? then Retries
    else if content.fileKey.Some? && (a.upload.UploadHttp? || a.upload.SlotRefused?) then
      if Busyness(a.upload.status) then Retries else Settles(Failed)
    else if content.fileKey.Some? && a.upload.FileRejected? then Settles(Failed)
    else if content.editKey.None? && content.recipient.None? && !a.chatValid then Settles(Failed)
    else AfterSend(a.sending)
  }

  function AfterSend(sending: Sending): Outcome {
    match sending
    case Accepted(_) => Settles(Sent)
    case SendInterrupted => Settles(DeliveryUnknown)
    case Rejected(code, status) =>
      if code == NOT_READY then Retries
      else if status == 403 then Settles(Unreachable)
      else if Busyness(status) then Retries
      else if status == 200 then Settles(DeliveryUnknown)
      else Settles(Failed)
  }

  // The message was handed to the messenger at all.
  predicate Reached(content: DeliveryIntent, a: Attempt) {
    && (content.recipient.Some? ==> a.userKnown) && (content.editKey.Some? ==> a.targetKnown && content.fileKey.None?)
    && (content.fileKey.Some? ==> a.hasTransport && a.upload.Token?)
    && (content.editKey.None? && content.recipient.None? ==> a.chatValid)
  }

  // A refusal that passes: the file is not ready, or the messenger is busy.
  predicate Passing(sending: Sending) {
    sending.Rejected? && (sending.code == NOT_READY || (sending.status != 403 && Busyness(sending.status)))
  }

  // The messenger may have accepted the message, even if the answer was lost.
  predicate MayHaveArrived(sending: Sending) {
    !sending.Rejected? || (sending.status == 200 && sending.code != NOT_READY)
  }

  predicate UploadPasses(upload: Upload) {
    upload.UploadInterrupted? || ((upload.UploadHttp? || upload.SlotRefused?) && Busyness(upload.status))
  }

  /**
   * An attempt whose message may have been accepted ends its delivery. An attempt is repeated exactly when the message
   * was refused for a passing reason, or was not handed over because its target or file has to wait.
   */
  lemma RetriesOnlyRefused(content: DeliveryIntent, a: Attempt)
    ensures Delivered(content, a).Retries? <==>
              || (Reached(content, a) && Passing(a.sending))
              || ((content.recipient.Some? ==> a.userKnown)
                  && (if content.editKey.Some? then !a.targetKnown
                      else content.fileKey.Some? && a.hasTransport && UploadPasses(a.upload)))
    ensures Delivered(content, a) == Settles(Sent) <==> Reached(content, a) && a.sending.Accepted?
    ensures Reached(content, a) && MayHaveArrived(a.sending) ==>
              Delivered(content, a) == Settles(if a.sending.Accepted? then Sent else DeliveryUnknown)
  {
  }

  // The messenger refuses for good reason to come back later.
  predicate ComesBack(code: string, status: int) {
    code == NOT_READY || (status != 403 && (status == 429 || status >= 500))
  }

  // Nothing about the addressee or the edited message stops the attempt before its file is looked at.
  predicate Addressed(content: DeliveryIntent, a: Attempt) {
    (content.recipient.None? || a.userKnown) && (content.editKey.None? || a.targetKnown)
  }

  /** Which attempt ends in which verdict. */
  lemma VerdictsAre(content: DeliveryIntent, a: Attempt)
    ensures
      var o, sent := Delivered(content, a), Reached(content, a);
      var withFile := Addressed(content, a) && content.fileKey.Some? && content.editKey.None?;
      && (sent <==> && Addressed(content, a) && (content.editKey.Some? ==> content.fileKey.None?)
                    && (content.fileKey.Some? ==> a.hasTransport && a.upload.Token?)
                    && (content.editKey.Some? || content.recipient.Some? || a.chatValid))
      && (o == Settles(Sent) <==> sent && a.sending.Accepted?)
      && (o == Settles(DeliveryUnknown) <==>
            sent && (a.sending.SendInterrupted?
                     || (a.sending.Rejected? && a.sending.status == 200 && a.sending.code != NOT_READY)))
      && (o == Settles(Unreachable) <==>
            || (content.recipient.Some? && !a.userKnown)
            || (sent && a.sending.Rejected? && a.sending.status == 403 && a.sending.code != NOT_READY))
      && (o == Settles(WaitingAttachment) <==> withFile && !a.hasTransport)
      && (o.Retries? <==>
            || (sent && a.sending.Rejected? && ComesBack(a.sending.code, a.sending.status))
            || ((content.recipient.None? || a.userKnown) && content.editKey.Some? && !a.targetKnown)
            || (withFile && a.hasTransport
                && (a.upload.UploadInterrupted?
                    || ((a.upload.UploadHttp? || a.upload.SlotRefused?)
                        && (a.upload.status == 429 || a.upload.status >= 500)))))
      && (o.Settles? ==> o.verdict in {Sent, DeliveryUnknown, Unreachable, WaitingAttachment, Verdict.Failed})
  {
  }

  /** A retry waits while attempts are left and is buried with the last; everything else is settled as it is. */
  lemma AttemptEndsSo(outcome: Outcome, attempts: nat, maxAttempts: nat)
    ensures
      var phase := AfterAttempt(outcome, attempts, maxAttempts);
      && (phase.Pending? <==> outcome.Retries? && attempts < maxAttempts)
      && (outcome.Retries? && attempts >= maxAttempts ==> phase == Final(Dead))
      && (outcome.Settles? ==> phase == Final(outcome.verdict))
  {
  }

  function AfterAttempt(outcome: Outcome, attempts: nat, maxAttempts: nat): Phase {
    match outcome
    case Settles(verdict) => Final(verdict)
    case Retries => if attempts < maxAttempts then Pending else Final(Dead)
  }

  class DeliveryWorker {
    const session: Session
    const worker: WorkerId
    const leaseFor: Time
    const maxAttempts: nat

    constructor (session: Session, worker: WorkerId, leaseFor: Time, maxAttempts: nat)
      requires leaseFor > 0 && maxAttempts >= 1
      ensures this.session == session && this.worker == worker
      ensures this.leaseFor == leaseFor && this.maxAttempts == maxAttempts
    {
      this.session, this.worker, this.leaseFor, this.maxAttempts := session, worker, leaseFor, maxAttempts;
    }

    method Next(now: Time, locked: set<Id>) returns (r: Option<Id>)
      modifies session`outbox
      ensures r.None? ==> session.outbox == old(session.outbox)
      ensures r.Some? ==>
        && r.value in session.outbox && session.outbox[r.value].lease.attempts > 0
        && forall s: State | Idle(s, DeliveryLeases(old(session.outbox)), worker) ::
             Busy(Apply(Waiting(maxAttempts), s, Take(r.value, worker, now, leaseFor)),
                  DeliveryLeases(session.outbox), worker, r.value, session.outbox[r.value].lease.attempts)
    {
      var queue := new DeliveryQueue.PostgresDeliveryQueue(session);
      r := queue.Claim(worker, now, leaseFor, locked);
    }

    /** Prolongs a lease that is still held, which is the protocol's heartbeat. */
    method Heartbeat(id: Id, now: Time) returns (ok: bool)
      modifies session`outbox
      ensures ok <==> id in old(session.outbox) && Holds(old(session.outbox)[id].lease, worker, now)
      ensures session.outbox == if !ok then old(session.outbox)
        else DeliveryQueue.Relet(old(session.outbox), id, Renewed(old(session.outbox)[id].lease, now, leaseFor))
      ensures forall s: State, attempts: nat | Busy(s, DeliveryLeases(old(session.outbox)), worker, id, attempts) ::
                && (ok <==> Fenced(s, worker, now))
                && Apply(Waiting(maxAttempts), s, Beat(worker, now, leaseFor)).rows == DeliveryLeases(session.outbox)
    {
      var store := new DeliveryQueue.PostgresDeliveryQueue(session);
      var renewed := store.Heartbeat(id, worker, now, leaseFor);
      ok := renewed.Ok?;
    }

    /** Keeps the token of an uploaded file for later attempts, only as the latest claimer of the delivery. */
    method KeepToken(id: Id, now: Time, token: string) returns (ok: bool)
      requires token != ""
      modifies session`outbox
      ensures ok <==> id in old(session.outbox) && Holds(old(session.outbox)[id].lease, worker, now)
      ensures session.outbox == if !ok then old(session.outbox)
        else old(session.outbox)[id := old(session.outbox)[id].(attachmentToken := Some(token))]
      ensures DeliveryLeases(session.outbox) == DeliveryLeases(old(session.outbox))
      ensures forall s: State, attempts: nat | Busy(s, DeliveryLeases(old(session.outbox)), worker, id, attempts) ::
                ok <==> Fenced(s, worker, now)
    {
      var queue := new DeliveryQueue.PostgresDeliveryQueue(session);
      var saved := queue.SaveAttachmentToken(id, worker, now, token);
      ok := saved.Ok?;
    }

    /**
     * Settles a claimed delivery by its outcome, with the attempts the claim reported: only a sent message has an id
     * and only another outcome an error; a stored attachment token stays for the next attempt. The protocol allows it.
     */
    method Conclude(id: Id, attempts: nat, outcome: Outcome, messageId: string, error: ErrorCode, now: Time)
      returns (ok: bool)
      requires attempts > 0
      modifies session`outbox
      ensures ok <==> id in old(session.outbox) && Holds(old(session.outbox)[id].lease, worker, now)
      ensures !ok ==> session.outbox == old(session.outbox)
      ensures ok ==>
        var row := old(session.outbox)[id];
        var phase := AfterAttempt(outcome, attempts, maxAttempts);
        var at := if phase.Pending? then now + RetryDelay(attempts) else row.lease.availableAt;
        && session.outbox == old(session.outbox)[id := row.(
             messageId := if outcome == Settles(Sent) then Some(messageId) else None,
             error := if outcome == Settles(Sent) then NoError else error,
             lease := Released(row.lease, phase, at))]
        && forall s: State | Busy(s, DeliveryLeases(old(session.outbox)), worker, id, attempts) ::
             Apply(Waiting(maxAttempts), s, LeaseProtocol.Settle(worker, now, phase, at)).rows
             == DeliveryLeases(session.outbox)
    {
      var queue := new DeliveryQueue.PostgresDeliveryQueue(session);
      var settled;
      match outcome {
        case Settles(verdict) =>
          if verdict == Sent {
            settled := queue.Settle(id, worker, now, Final(Sent), Some(messageId), NoError, None);
          } else {
            settled := queue.Settle(id, worker, now, Final(verdict), None, error, None);
          }
        case Retries =>
          if attempts >= maxAttempts {
            settled := queue.Settle(id, worker, now, Final(Dead), None, error, None);
          } else {
            settled := queue.Settle(id, worker, now, Pending, None, error, Some(RetryDelay(attempts)));
          }
      }
      ok := settled.Ok?;
    }
  }
}
