/** Scheduled jobs: enqueued once per operation key, leased when due. */
module JobQueue {
  import opened Basics
  import opened Leases
  import opened InboxRows
  import opened Database

  datatype JobError = InvalidJob | IngressCannotBeScheduled | JobConflict | JobLeaseLost

  datatype JobIntent = JobIntent(
    houseId: Id,
    operationKey: JobKey,
    eventName: EventName,
    entityId: Id,
    expectedVersion: int,
    dueAt: Time)

  type Jobs = map<Id, JobRow>

  predicate IsKeyed(row: JobRow, intent: JobIntent) {
    row.houseId == intent.houseId && row.operationKey == intent.operationKey
  }

  predicate SameJob(row: JobRow, intent: JobIntent) {
    && row.eventName == intent.eventName && row.entityId == intent.entityId
    && row.expectedVersion == intent.expectedVersion && row.dueAt == intent.dueAt
  }

  function NewJob(intent: JobIntent): JobRow {
    JobRow(intent.houseId, intent.operationKey, intent.eventName, intent.entityId, intent.expectedVersion,
           intent.dueAt, None, NewLease(Pending, intent.dueAt))
  }

  /** A new job waits until it is due, never tried, for the entity and version it was scheduled for. */
  lemma NewJobSays(intent: JobIntent, later: Time)
    ensures
      var row := NewJob(intent);
      && IsKeyed(row, intent) && SameJob(row, intent)
      && row.houseId == intent.houseId && row.operationKey == intent.operationKey
      && row.eventName == intent.eventName && row.entityId == intent.entityId
      && row.expectedVersion == intent.expectedVersion && row.dueAt == intent.dueAt && row.error.None?
      && row.lease.phase.Pending? && row.lease.attempts == 0 && row.lease.owner.None? && row.lease.until.None?
      && (Due(row.lease, later) <==> intent.dueAt <= later)
  {
  }

  predicate UniqueJobs(jobs: Jobs) {
    forall i, j :: i in jobs && j in jobs && i != j ==>
      !(jobs[i].houseId == jobs[j].houseId && jobs[i].operationKey == jobs[j].operationKey)
  }

  function Deadlines(jobs: Jobs): map<Id, Time> {
    map id | id in jobs :: jobs[id].dueAt
  }

  function Claimable(jobs: Jobs, now: Time, locked: set<Id>): set<Id> {
    set id | id in jobs && id !in locked && jobs[id].dueAt <= now && Due(jobs[id].lease, now)
  }

  function Relet(jobs: Jobs, id: Id, lease: Lease): Jobs
    requires id in jobs
  {
    jobs[id := jobs[id].(lease := lease)]
  }

  class PostgresJobQueue {
    const session: Session

    constructor (session: Session)
      ensures this.session == session
    {
      this.session := session;
    }

    /** One job per operation key; the key cannot come to mean another job. */
    method Enqueue(intent: JobIntent, newId: Id) returns (r: Result<Id, JobError>)
      requires newId !in session.jobs && UniqueJobs(session.jobs)
      modifies session`jobs
      ensures UniqueJobs(session.jobs)
      ensures
        var jobs := old(session.jobs);
        if intent.operationKey == NamedJob("") || intent.expectedVersion < 1 then r == Err(InvalidJob)
        else if intent.eventName.CallbackReceived? || intent.eventName.OtherIngress? then
          r == Err(IngressCannotBeScheduled)
        else if exists id :: id in jobs && IsKeyed(jobs[id], intent) then
          exists id :: id in jobs && IsKeyed(jobs[id], intent)
                       && r == (if jobs[id].eventName == intent.eventName && jobs[id].entityId == intent.entityId
                                   && jobs[id].expectedVersion == intent.expectedVersion
                                   && jobs[id].dueAt == intent.dueAt then Ok(id)
                                else Err(JobConflict))
        else r == Ok(newId)
      ensures session.jobs == if r == Ok(newId) then old(session.jobs)[newId := NewJob(intent)] else old(session.jobs)
    {
      if intent.operationKey == NamedJob("") || intent.expectedVersion < 1 {
        return Err(InvalidJob);
      }
      if intent.eventName.CallbackReceived? || intent.eventName.OtherIngress? {
        return Err(IngressCannotBeScheduled);
      }
      if exists id :: id in session.jobs && IsKeyed(session.jobs[id], intent) {
        var id :| id in session.jobs && IsKeyed(session.jobs[id], intent);
        return if SameJob(session.jobs[id], intent) then Ok(id) else Err(JobConflict);
      }
      session.jobs := session.jobs[newId := NewJob(intent)];
      return Ok(newId);
    }

    method Claim(worker: WorkerId, now: Time, leaseFor: Time, locked: set<Id>) returns (r: Option<Id>)
      modifies session`jobs
      ensures
        var jobs := old(session.jobs);
        r.None? <==> forall id :: id in jobs && jobs[id].dueAt <= now && Due(jobs[id].lease, now) ==> id in locked
      ensures r.None? ==> session.jobs == old(session.jobs)
      ensures r.Some? ==>
        var id, jobs := r.value, old(session.jobs);
        && id in jobs && id !in locked && jobs[id].dueAt <= now && Due(jobs[id].lease, now)
        && (forall other ::
              other in jobs && other !in locked && jobs[other].dueAt <= now && Due(jobs[other].lease, now) ==>
              jobs[id].dueAt < jobs[other].dueAt || (jobs[id].dueAt == jobs[other].dueAt && id <= other))
        && session.jobs == jobs[id := jobs[id].(lease := Claimed(jobs[id].lease, worker, now, leaseFor))]
    {
      var candidates := Claimable(session.jobs, now, locked);
      forall id | id in session.jobs && id !in locked && session.jobs[id].dueAt <= now && Due(session.jobs[id].lease, now)
        ensures id in candidates
      {
      }
      if candidates == {} {
        return None;
      }
      var id := First(candidates, Deadlines(session.jobs));
      session.jobs := Relet(session.jobs, id, Claimed(session.jobs[id].lease, worker, now, leaseFor));
      return Some(id);
    }

    method Settle(id: Id, worker: WorkerId, now: Time, phase: Phase, error: Option<string>, retryAfter: Option<Time>)
      returns (r: Result<(), JobError>)
      modifies session`jobs
      ensures r == if id in old(session.jobs) && Holds(old(session.jobs)[id].lease, worker, now) then Ok(())
                   else Err(JobLeaseLost)
      ensures session.jobs == if r.Err? then old(session.jobs)
        else
          var row := old(session.jobs)[id];
          var at := if retryAfter.Some? then now + retryAfter.value else row.lease.availableAt;
          old(session.jobs)[id := row.(error := error, lease := Released(row.lease, phase, at))]
    {
      if id !in session.jobs || !Holds(session.jobs[id].lease, worker, now) {
        return Err(JobLeaseLost);
      }
      var row := session.jobs[id];
      var at := row.lease.availableAt;
      if retryAfter.Some? {
        at := now + retryAfter.value;
      }
      session.jobs := session.jobs[id := row.(error := error, lease := Released(row.lease, phase, at))];
      return Ok(());
    }

    method Heartbeat(id: Id, worker: WorkerId, now: Time, leaseFor: Time) returns (r: Result<(), JobError>)
      modifies session`jobs
      ensures r == if id in old(session.jobs) && Holds(old(session.jobs)[id].lease, worker, now) then Ok(())
                   else Err(JobLeaseLost)
      ensures session.jobs == if r.Err? then old(session.jobs)
        else
          var row := old(session.jobs)[id];
          old(session.jobs)[id := row.(lease := Renewed(row.lease, now, leaseFor))]
    {
      if id !in session.jobs || !Holds(session.jobs[id].lease, worker, now) {
        return Err(JobLeaseLost);
      }
      session.jobs := Relet(session.jobs, id, Renewed(session.jobs[id].lease, now, leaseFor));
      return Ok(());
    }
  }
}
