/** The job queue, the scheduler and the poll store take exactly the steps of the runs of an expiry job. */
module ExpirySteps {
  import opened Basics
  import opened Leases
  import opened Polls
  import opened PollRuns
  import opened PollTables
  import opened PollStore
  import opened Database
  import opened ExpiryRuns
  import D = DrainSafety
  import DrainSteps
  import W = Workers
  import JobQueue

  /** The revision a job of this poll may still be run for: answers do not outdate it, a close or cancellation does. */
  function PresentRevision(t: Tables, pollId: Id, houseId: Id): Option<int> {
    if pollId in t.polls && t.polls[pollId].houseId == houseId && t.polls[pollId].status.Open? then
      Some(t.polls[pollId].subjectRevision)
    else None
  }

  predicate IsExpiryOf(job: JobRow, d: PollDefinition) {
    && job.entityId == d.pollId && job.houseId == d.houseId && job.expectedVersion == d.subjectRevision
    && job.dueAt == d.closesAt
  }

  // The rows of the poll, of the inbox and of its job are those of this system.
  ghost predicate Presents(session: Session, pollId: Id, jobId: Id, s: System)
    reads session
  {
    && DrainSteps.Shows(session.polls, session.inbox, pollId, s.drain)
    && jobId in session.jobs && session.jobs[jobId].lease == s.job
    && s.drain.poll.definition.pollId == pollId && IsExpiryOf(session.jobs[jobId], s.drain.poll.definition)
  }

  /** A claim that meets the job is a step of a worker that was free; any other leaves the job alone. */
  method ClaimJob(
      queue: JobQueue.PostgresJobQueue, worker: WorkerId, now: Time, leaseFor: Time, locked: set<Id>,
      ghost pollId: Id, ghost jobId: Id, ghost maxAttempts: nat, ghost s: System)
    returns (r: Option<Id>)
    requires Presents(queue.session, pollId, jobId, s) && now == s.drain.clock && worker !in s.trials
    modifies queue.session`jobs
    ensures Inv(s.drain.poll)
    ensures r != Some(jobId) ==> Presents(queue.session, pollId, jobId, s)
    ensures r == Some(jobId) ==>
      var next := Next(maxAttempts, s, Take(worker, leaseFor));
      && Presents(queue.session, pollId, jobId, next)
      && worker in next.trials && next.trials[worker] == Trial(queue.session.jobs[jobId].lease.attempts, Claimed)
  {
    hide Inv, Load, PollTables.Valid, PollState.Valid, Announced;
    D.IsValid(s.drain.poll);
    r := queue.Claim(worker, now, leaseFor, locked);
  }

  method RenewJob(
      queue: JobQueue.PostgresJobQueue, worker: WorkerId, now: Time, leaseFor: Time,
      pollId: Id, jobId: Id, ghost maxAttempts: nat, ghost s: System)
    requires Presents(queue.session, pollId, jobId, s) && now == s.drain.clock
    modifies queue.session`jobs
    ensures Inv(s.drain.poll)
    ensures Presents(queue.session, pollId, jobId, Next(maxAttempts, s, Beat(worker, leaseFor)))
  {
    hide Inv, Load, PollTables.Valid, PollState.Valid, Announced;
    D.IsValid(s.drain.poll);
    var renewed := queue.Heartbeat(jobId, worker, now, leaseFor);
  }

  /** The scheduler goes on exactly when the poll is still open, at the revision its job was made for. */
  method ReadPoll(
      session: Session, pollId: Id, jobId: Id, ghost worker: WorkerId, ghost maxAttempts: nat, ghost s: System)
    returns (reading: W.Reading)
    requires Presents(session, pollId, jobId, s)
    requires worker in s.trials && s.trials[worker].progress == Progress.Claimed
    ensures Inv(s.drain.poll)
    ensures
      var next, result := Next(maxAttempts, s, Read(worker)),
                          W.RunOf(session.jobs[jobId].expectedVersion, reading, false);
      && Presents(session, pollId, jobId, next) && worker in next.trials
      && next.trials[worker].progress == (if result.Stale? then Ran(W.Stale) else Current)
      && reading == W.Version(PresentRevision(session.polls, session.jobs[jobId].entityId, session.jobs[jobId].houseId))
  {
    hide Inv, PollTables.Valid, PollState.Valid, Announced;
    D.IsValid(s.drain.poll);
    var job := session.jobs[jobId];
    reading := W.Version(PresentRevision(session.polls, job.entityId, job.houseId));
  }

  /** A worker that found the poll open tries to close it; the attempt fails exactly when the store refuses. */
  method TryToClose(
      repository: PollRepository, pollId: Id, houseId: Id, now: Time, newEventId: Id,
      ghost worker: WorkerId, ghost jobId: Id, ghost maxAttempts: nat, ghost s: System)
    returns (r: Result<PollMutation, StoreError>)
    requires Presents(repository.session, pollId, jobId, s) && now == s.drain.clock
    requires worker in s.trials && s.trials[worker].progress == Current
    requires newEventId !in repository.session.inbox && houseId == s.drain.poll.definition.houseId
    modifies repository.session`polls, repository.session`inbox
    ensures Inv(s.drain.poll)
    ensures
      var next := Next(maxAttempts, s, Try(worker, newEventId, false));
      && Presents(repository.session, pollId, jobId, next)
      && worker in next.trials && next.trials[worker].progress == Ran(if r.Err? then W.Raised else W.Handled)
  {
    hide Inv, Load, PollTables.Valid, PollState.Valid, Announced, D.Apply, Finalize;
    D.IsValid(s.drain.poll);
    D.PollKept(s.drain, D.Close(newEventId));
    DrainSteps.HouseOf(repository.session.polls, pollId);
    DrainSteps.CloseIs(s.drain, pollId, newEventId);
    r := DrainSteps.ClosePoll(repository, pollId, houseId, now, newEventId, s.drain);
  }

  /** The scheduler settles the job by how its run ended, with the attempts its claim reported. */
  method SettleJob(
      scheduler: W.JobScheduler, now: Time, expected: int, reading: W.Reading, raises: bool, error: string,
      pollId: Id, jobId: Id, ghost s: System, attempts: nat)
    requires Presents(scheduler.session, pollId, jobId, s) && now == s.drain.clock && attempts > 0
    requires scheduler.worker in s.trials
    requires s.trials[scheduler.worker] == Trial(attempts, Ran(W.RunOf(expected, reading, raises)))
    modifies scheduler.session`jobs
    ensures Inv(s.drain.poll)
    ensures Presents(scheduler.session, pollId, jobId, Next(scheduler.maxAttempts, s, Settle(scheduler.worker)))
  {
    hide Inv, Load, PollTables.Valid, PollState.Valid, Announced, W.RetryDelay;
    D.IsValid(s.drain.poll);
    var ok := scheduler.Conclude(jobId, attempts, expected, reading, raises, now, error);
  }
}
