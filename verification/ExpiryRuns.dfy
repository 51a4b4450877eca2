/**
 * The job that closes a poll at its deadline, together with the inbox it has to wait for: scheduler workers claim the
 * job, read the poll, try to close it, retry while attempts are left and bury the job after the last.
 */
module ExpiryRuns {
  import opened Basics
  import opened Leases
  import opened InboxRows
  import opened Polls
  import opened PollRuns
  import opened DrainSafety
  import W = Workers

  // What a scheduler worker has done since its claim.
  datatype Progress = Claimed | Current | Ran(result: W.RunResult)

  datatype Trial = Trial(attempts: nat, progress: Progress)

  datatype System = System(drain: World, job: Lease, trials: map<WorkerId, Trial>)

  datatype Step =
    | Elsewhere(move: DrainSafety.Move)
    | Take(worker: WorkerId, leaseFor: Time)
    | Beat(worker: WorkerId, leaseFor: Time)
    | Read(worker: WorkerId)
    | Try(worker: WorkerId, newEventId: Id, raises: bool)
    | Settle(worker: WorkerId)
    | Abandon(worker: WorkerId)

  // The job is due at the deadline of its poll.
  function Started(d: PollDefinition, clock: Time): System {
    System(Start(d, clock), NewLease(Pending, d.closesAt), map[])
  }

  predicate Claimable(s: System) {
    s.drain.clock >= s.drain.poll.definition.closesAt && Due(s.job, s.drain.clock)
  }

  // An attempt on a poll that is open is refused while the inbox is not drained or the deadline is ahead.
  predicate Refused(w: World)
    requires w.poll.Valid()
  {
    && w.poll.status.Open?
    && (!Drained(w.inbox, w.poll.definition.houseId, w.poll.definition.closesAt) || Finalize(w.poll, w.clock).Err?)
  }

  /** One transaction of a scheduler worker, or any move of the inbox and its workers; only the job closes the poll. */
  function Next(maxAttempts: nat, s: System, m: Step): System
    requires s.drain.poll.Valid()
  {
    match m
    case Elsewhere(move) => if move.Close? then s else s.(drain := Apply(s.drain, move))
    case Take(worker, leaseFor) =>
      if worker in s.trials || !Claimable(s) then s
      else s.(job := Leases.Claimed(s.job, worker, s.drain.clock, leaseFor),
              trials := s.trials[worker := Trial(s.job.attempts + 1, Claimed)])
    case Beat(worker, leaseFor) =>
      if !Holds(s.job, worker, s.drain.clock) then s else s.(job := Renewed(s.job, s.drain.clock, leaseFor))
    case Read(worker) =>
      if worker !in s.trials || s.trials[worker].progress != Claimed then s
      else At(s, worker, if s.drain.poll.status.Open? then Current else Ran(W.Stale))
    case Try(worker, newEventId, raises) =>
      if worker !in s.trials || s.trials[worker].progress != Current || newEventId in s.drain.inbox then s
      else if raises || Refused(s.drain) then At(s, worker, Ran(W.Raised))
      else At(s.(drain := Apply(s.drain, Close(newEventId))), worker, Ran(W.Handled))
    case Settle(worker) =>
      if worker !in s.trials || !s.trials[worker].progress.Ran? then s
      else
        Left(if Holds(s.job, worker, s.drain.clock) then s.(job := Concluded(maxAttempts, s, worker)) else s, worker)
    case Abandon(worker) => Left(s, worker)
  }

  function At(s: System, worker: WorkerId, progress: Progress): System
    requires worker in s.trials
  {
    s.(trials := s.trials[worker := s.trials[worker].(progress := progress)])
  }

  function Left(s: System, worker: WorkerId): System {
    s.(trials := s.trials - {worker})
  }

  function Concluded(maxAttempts: nat, s: System, worker: WorkerId): Lease
    requires worker in s.trials && s.trials[worker].progress.Ran?
  {
    var trial := s.trials[worker];
    var phase := W.AfterRun(trial.progress.result, trial.attempts, maxAttempts);
    Released(s.job, phase, if phase.Pending? && trial.attempts > 0 then s.drain.clock + W.RetryDelay(trial.attempts)
                           else s.job.availableAt)
  }

  ghost function Runs(maxAttempts: nat, s: System, ms: seq<Step>): System
    requires Inv(s.drain.poll)
    decreases |ms|
  {
    if ms == [] then s
    else
      NextKeepsPoll(maxAttempts, s, ms[0]);
      Runs(maxAttempts, Next(maxAttempts, s, ms[0]), ms[1..])
  }

  lemma NextKeepsPoll(maxAttempts: nat, s: System, m: Step)
    requires Inv(s.drain.poll)
    ensures s.drain.poll.Valid() && Inv(Next(maxAttempts, s, m).drain.poll)
    ensures Next(maxAttempts, s, m).drain.poll.definition == s.drain.poll.definition
    ensures Next(maxAttempts, s, m).drain.clock >= s.drain.clock
  {
    IsValid(s.drain.poll);
    hide Inv, Apply, PollState.Valid, Finalize, Drained, W.RetryDelay, W.AfterRun;
    if m.Elsewhere? {
      PollKept(s.drain, m.move);
    } else if m.Try? {
      PollKept(s.drain, Close(m.newEventId));
    }
  }

  lemma RunsFirst(maxAttempts: nat, s: System, m: Step, rest: seq<Step>)
    requires Inv(s.drain.poll)
    ensures s.drain.poll.Valid() && Inv(Next(maxAttempts, s, m).drain.poll)
    ensures Runs(maxAttempts, s, [m] + rest) == Runs(maxAttempts, Next(maxAttempts, s, m), rest)
  {
    NextKeepsPoll(maxAttempts, s, m);
    hide Inv, Next;
    assert ([m] + rest)[1..] == rest;
  }

  // ---------------------------------------------------------------- once nobody is going to try again

  // A worker has claimed the job and not tried to close the poll yet.
  predicate Pends(s: System, worker: WorkerId) {
    worker in s.trials && !s.trials[worker].progress.Ran?
  }

  predicate Over(s: System) {
    s.job.phase.Final? && forall v :: v in s.trials ==> !Pends(s, v)
  }

  /** Only a try closes a poll by its deadline. */
  lemma ClosedByTry(maxAttempts: nat, s: System, m: Step)
    requires Inv(s.drain.poll) && !ClosedByDeadline(s.drain.poll) && !(m.Try? && Pends(s, m.worker))
    ensures s.drain.poll.Valid() && !ClosedByDeadline(Next(maxAttempts, s, m).drain.poll)
  {
    IsValid(s.drain.poll);
    hide Inv, PollState.Valid, RecordAnswer, Finalize, Saved, Drained, HasKey, W.RetryDelay, W.AfterRun;
    if m.Elsewhere? && m.move.Handle? && m.move.worker in s.drain.working
       && s.drain.working[m.move.worker].row in s.drain.inbox
    {
      var id := s.drain.working[m.move.worker].row;
      if VoteOf(s.drain, id, m.move.ballot).Some? {
        PressKept(s.drain, id, m.move.ballot.value);
      }
    }
  }

  lemma OverStays(maxAttempts: nat, s: System, m: Step)
    requires s.drain.poll.Valid() && Over(s)
    ensures Over(Next(maxAttempts, s, m))
  {
    hide PollState.Valid, Apply, Drained, Finalize, W.RetryDelay, W.AfterRun;
  }

  lemma {:induction false} NeverClosed(maxAttempts: nat, s: System, ms: seq<Step>)
    requires Inv(s.drain.poll) && Over(s) && !ClosedByDeadline(s.drain.poll)
    ensures !ClosedByDeadline(Runs(maxAttempts, s, ms).drain.poll)
    decreases |ms|
  {
    if ms != [] {
      NextKeepsPoll(maxAttempts, s, ms[0]);
      ClosedByTry(maxAttempts, s, ms[0]);
      OverStays(maxAttempts, s, ms[0]);
      hide Inv, Next, Over;
      NeverClosed(maxAttempts, Next(maxAttempts, s, ms[0]), ms[1..]);
    }
  }

  // ---------------------------------------------------------------- as long as somebody may

  // A row in work has a moment at which its lease runs out.
  predicate Timed(s: System) {
    && (s.job.phase.Processing? ==> s.job.until.Some?)
    && forall id :: id in s.drain.inbox && s.drain.inbox[id].lease.phase.Processing? ==>
         s.drain.inbox[id].lease.until.Some?
  }

  lemma MoveKeepsTimed(w: World, m: DrainSafety.Move, id: Id)
    requires w.poll.Valid() && id in Apply(w, m).inbox && Apply(w, m).inbox[id].lease.phase.Processing?
    requires id in w.inbox && w.inbox[id].lease.phase.Processing? ==> w.inbox[id].lease.until.Some?
    ensures Apply(w, m).inbox[id].lease.until.Some?
  {
    hide PollState.Valid, RecordAnswer, Finalize, Drained, HasKey;
  }

  lemma NextKeepsTimed(maxAttempts: nat, s: System, m: Step)
    requires s.drain.poll.Valid() && Timed(s)
    ensures Timed(Next(maxAttempts, s, m))
  {
    hide PollState.Valid, Apply, Finalize, Drained, W.RetryDelay;
    var u := Next(maxAttempts, s, m);
    forall id | id in u.drain.inbox && u.drain.inbox[id].lease.phase.Processing?
      ensures u.drain.inbox[id].lease.until.Some?
    {
      if m.Elsewhere? && !m.move.Close? {
        MoveKeepsTimed(s.drain, m.move, id);
      } else if m.Try? && u.drain == Apply(s.drain, Close(m.newEventId)) {
        MoveKeepsTimed(s.drain, Close(m.newEventId), id);
      }
    }
  }

  lemma {:induction false} RunsKeepTimed(maxAttempts: nat, s: System, ms: seq<Step>)
    requires Inv(s.drain.poll) && Timed(s)
    ensures Inv(Runs(maxAttempts, s, ms).drain.poll) && Timed(Runs(maxAttempts, s, ms))
    ensures Runs(maxAttempts, s, ms).drain.poll.definition == s.drain.poll.definition
    decreases |ms|
  {
    if ms != [] {
      NextKeepsPoll(maxAttempts, s, ms[0]);
      NextKeepsTimed(maxAttempts, s, ms[0]);
      hide Inv, Next, Timed;
      RunsKeepTimed(maxAttempts, Next(maxAttempts, s, ms[0]), ms[1..]);
    }
  }

  lemma {:induction false} RunsAppend(maxAttempts: nat, s: System, a: seq<Step>, b: seq<Step>)
    requires Inv(s.drain.poll)
    ensures Inv(Runs(maxAttempts, s, a).drain.poll)
    ensures Runs(maxAttempts, s, a + b) == Runs(maxAttempts, Runs(maxAttempts, s, a), b)
    decreases |a|
  {
    if a == [] {
      assert a + b == b;
    } else {
      NextKeepsPoll(maxAttempts, s, a[0]);
      hide Inv, Next;
      RunsAppend(maxAttempts, Next(maxAttempts, s, a[0]), a[1..], b);
      assert (a + b)[1..] == a[1..] + b;
    }
  }

  function Outs(w: World): set<Id> {
    set id | id in w.inbox && Outstanding(w.inbox[id], w.poll.definition.houseId, w.poll.definition.closesAt)
  }

  function DueIn(l: Lease, clock: Time): nat {
    var at := if l.phase.Processing? && l.until.Some? then l.until.value else l.availableAt;
    if at > clock then at - clock else 0
  }

  // Everything but time and this press is as it was, and the press is buried.
  predicate Buried(s: System, u: System, id: Id) {
    && id in s.drain.inbox && id in u.drain.inbox && u.drain.inbox[id].lease.phase.Final?
    && u == s.(drain := s.drain.(clock := u.drain.clock, inbox := s.drain.inbox[id := u.drain.inbox[id]]))
    && u.drain.clock >= s.drain.clock
  }

  /** A press that waits or was abandoned can be claimed in time and given up. */
  lemma CanBury(maxAttempts: nat, s: System, id: Id) returns (ms: seq<Step>)
    requires Inv(s.drain.poll) && Timed(s) && id in s.drain.inbox && !s.drain.inbox[id].lease.phase.Final?
    ensures Buried(s, Runs(maxAttempts, s, ms), id)
  {
    IsValid(s.drain.poll);
    var worker := Unused(s.drain.working.Keys);
    var tick := Elsewhere(Tick(DueIn(s.drain.inbox[id].lease, s.drain.clock)));
    var claim, fail := Elsewhere(Claim(worker, id, 1)), Elsewhere(Fail(worker, 0, 0));
    ms := [tick, claim, fail];
    RunsThree(maxAttempts, s, tick, claim, fail);
    hide Inv, Runs, PollState.Valid;
    GivenUp(maxAttempts, s, id, worker);
  }

  lemma GivenUp(maxAttempts: nat, s: System, id: Id, worker: WorkerId)
    requires s.drain.poll.Valid() && Timed(s) && id in s.drain.inbox && !s.drain.inbox[id].lease.phase.Final?
    requires worker !in s.drain.working
    ensures
      var t := Next(maxAttempts, s, Elsewhere(Tick(DueIn(s.drain.inbox[id].lease, s.drain.clock))));
      t.drain.poll == s.drain.poll &&
      var c := Next(maxAttempts, t, Elsewhere(Claim(worker, id, 1)));
      c.drain.poll == s.drain.poll && Buried(s, Next(maxAttempts, c, Elsewhere(Fail(worker, 0, 0))), id)
  {
    hide PollState.Valid;
    var t := Next(maxAttempts, s, Elsewhere(Tick(DueIn(s.drain.inbox[id].lease, s.drain.clock))));
    var c := Next(maxAttempts, t, Elsewhere(Claim(worker, id, 1)));
    var u := Next(maxAttempts, c, Elsewhere(Fail(worker, 0, 0)));
    assert c.drain.working == s.drain.working[worker := Work(id, false)];
    assert u.drain.working == s.drain.working;
    assert u.drain.inbox == s.drain.inbox[id := u.drain.inbox[id]];
  }

  lemma RunsThree(maxAttempts: nat, s: System, a: Step, b: Step, c: Step)
    requires Inv(s.drain.poll)
    ensures s.drain.poll.Valid() && Inv(Next(maxAttempts, s, a).drain.poll)
    ensures Next(maxAttempts, s, a).drain.poll.Valid()
    ensures Inv(Next(maxAttempts, Next(maxAttempts, s, a), b).drain.poll)
    ensures Next(maxAttempts, Next(maxAttempts, s, a), b).drain.poll.Valid()
    ensures Runs(maxAttempts, s, [a, b, c]) == Next(maxAttempts, Next(maxAttempts, Next(maxAttempts, s, a), b), c)
    ensures Inv(Runs(maxAttempts, s, [a, b, c]).drain.poll)
  {
    hide Inv, Next, PollState.Valid;
    RunsFirst(maxAttempts, s, a, [b, c]);
    RunsFirst(maxAttempts, Next(maxAttempts, s, a), b, [c]);
    RunsFirst(maxAttempts, Next(maxAttempts, Next(maxAttempts, s, a), b), c, []);
    assert [a] + [b, c] == [a, b, c] && [b] + [c] == [b, c] && [c] + [] == [c];
  }

  lemma BuriedIsLess(s: System, u: System, id: Id)
    requires Timed(s) && Buried(s, u, id) && id in Outs(s.drain)
    ensures Outs(u.drain) == Outs(s.drain) - {id} && Timed(u)
  {
  }

  // Everything but the inbox and time is as it was, and the inbox is drained for the poll.
  predicate Emptied(s: System, u: System) {
    && u.drain.poll == s.drain.poll && u.job == s.job && u.trials == s.trials && u.drain.clock >= s.drain.clock
    && Drained(u.drain.inbox, s.drain.poll.definition.houseId, s.drain.poll.definition.closesAt)
  }

  /** The inbox can always be drained, whatever happened to its presses. */
  lemma {:induction false} CanDrain(maxAttempts: nat, s: System) returns (ms: seq<Step>)
    requires Inv(s.drain.poll) && Timed(s)
    ensures Inv(Runs(maxAttempts, s, ms).drain.poll) && Emptied(s, Runs(maxAttempts, s, ms))
    decreases |Outs(s.drain)|
  {
    if Outs(s.drain) == {} {
      ms := [];
      assert forall id :: id in s.drain.inbox ==> id !in Outs(s.drain);
    } else {
      var id :| id in Outs(s.drain);
      var first := CanBury(maxAttempts, s, id);
      var u := Runs(maxAttempts, s, first);
      RunsKeepTimed(maxAttempts, s, first);
      BuriedIsLess(s, u, id);
      hide Inv, Runs, Timed, Outs;
      var rest := CanDrain(maxAttempts, u);
      RunsAppend(maxAttempts, s, first, rest);
      ms := first + rest;
    }
  }

  lemma TryCloses(maxAttempts: nat, s: System, worker: WorkerId, newEventId: Id)
    requires Inv(s.drain.poll) && s.drain.poll.status.Open? && s.drain.clock >= s.drain.poll.definition.closesAt
    requires Drained(s.drain.inbox, s.drain.poll.definition.houseId, s.drain.poll.definition.closesAt)
    requires worker in s.trials && s.trials[worker].progress == Current && newEventId !in s.drain.inbox
    ensures s.drain.poll.Valid() && ClosedByDeadline(Next(maxAttempts, s, Try(worker, newEventId, false)).drain.poll)
  {
    IsValid(s.drain.poll);
    DeadlineKept(s.drain.poll, s.drain.clock);
    hide Inv, PollState.Valid, Drained, Saved;
  }

  // The state in which a worker that has just claimed or read the job finds the way free.
  predicate Ready(s: System, newEventId: Id) {
    && s.drain.poll.status.Open? && s.drain.clock >= s.drain.poll.definition.closesAt && newEventId !in s.drain.inbox
    && Drained(s.drain.inbox, s.drain.poll.definition.houseId, s.drain.poll.definition.closesAt)
  }

  lemma PendingCloses(maxAttempts: nat, s: System, worker: WorkerId, newEventId: Id) returns (ms: seq<Step>)
    requires Inv(s.drain.poll) && Ready(s, newEventId) && Pends(s, worker)
    ensures ClosedByDeadline(Runs(maxAttempts, s, ms).drain.poll)
  {
    IsValid(s.drain.poll);
    var read, attempt := Read(worker), Try(worker, newEventId, false);
    hide Inv, PollState.Valid, Drained;
    if s.trials[worker].progress == Current {
      TryCloses(maxAttempts, s, worker, newEventId);
      ms := [attempt];
      hide Next;
      RunsFirst(maxAttempts, s, attempt, []);
      assert [attempt] + [] == ms;
    } else {
      var t := Next(maxAttempts, s, read);
      TryCloses(maxAttempts, t, worker, newEventId);
      ms := [read, attempt];
      hide Next;
      RunsFirst(maxAttempts, s, read, [attempt]);
      RunsFirst(maxAttempts, t, attempt, []);
      assert [read] + [attempt] == ms && [attempt] + [] == [attempt];
    }
  }

  lemma ClaimCloses(maxAttempts: nat, s: System, newEventId: Id) returns (ms: seq<Step>)
    requires Inv(s.drain.poll) && Ready(s, newEventId) && Claimable(s)
    ensures ClosedByDeadline(Runs(maxAttempts, s, ms).drain.poll)
  {
    IsValid(s.drain.poll);
    var worker := Unused(s.trials.Keys);
    hide Inv, PollState.Valid, Drained, Runs;
    var take := Take(worker, 60);
    var t := Next(maxAttempts, s, take);
    assert Pends(t, worker) && Ready(t, newEventId);
    var rest := PendingCloses(maxAttempts, t, worker, newEventId);
    hide Next;
    ms := [take] + rest;
    RunsFirst(maxAttempts, s, take, rest);
  }

  // How long to wait until the job can be claimed, if it ever can.
  function Wait(s: System): nat {
    var ahead := s.drain.poll.definition.closesAt - s.drain.clock;
    if ahead > DueIn(s.job, s.drain.clock) then ahead else DueIn(s.job, s.drain.clock)
  }

  lemma WaitedEnough(maxAttempts: nat, s: System, newEventId: Id) returns (u: System)
    requires Inv(s.drain.poll) && s.drain.poll.Valid() && Timed(s) && s.drain.poll.status.Open?
    requires newEventId !in s.drain.inbox
    requires Drained(s.drain.inbox, s.drain.poll.definition.houseId, s.drain.poll.definition.closesAt)
    ensures u == Next(maxAttempts, s, Elsewhere(Tick(Wait(s)))) && Ready(u, newEventId)
    ensures u.job == s.job && u.trials == s.trials && u.drain.poll == s.drain.poll
    ensures !s.job.phase.Final? ==> Claimable(u)
  {
    hide Inv, PollState.Valid, Drained;
    u := Next(maxAttempts, s, Elsewhere(Tick(Wait(s))));
  }

  /** From any state in which somebody may still try, the poll can be closed by its deadline. */
  lemma CanClose(maxAttempts: nat, s: System) returns (ms: seq<Step>)
    requires Inv(s.drain.poll) && Timed(s) && s.drain.poll.status.Open? && !Over(s)
    ensures ClosedByDeadline(Runs(maxAttempts, s, ms).drain.poll)
  {
    var first := CanDrain(maxAttempts, s);
    var e := Runs(maxAttempts, s, first);
    RunsKeepTimed(maxAttempts, s, first);
    IsValid(e.drain.poll);
    var newEventId := Unused(e.drain.inbox.Keys);
    var tick := Elsewhere(Tick(Wait(e)));
    hide Inv, Runs, Next, PollState.Valid, Timed, Drained, Claimable, Ready;
    var u := WaitedEnough(maxAttempts, e, newEventId);
    var rest: seq<Step>;
    if !s.job.phase.Final? {
      rest := ClaimCloses(maxAttempts, u, newEventId);
    } else {
      var worker :| worker in s.trials && Pends(s, worker);
      rest := PendingCloses(maxAttempts, u, worker, newEventId);
    }
    RunsFirst(maxAttempts, e, tick, rest);
    RunsAppend(maxAttempts, s, first, [tick] + rest);
    ms := first + ([tick] + rest);
  }

  lemma StartedIsTimed(d: PollDefinition, clock: Time)
    requires d.Valid()
    ensures Inv(Started(d, clock).drain.poll) && Timed(Started(d, clock))
  {
    InitialInv(d);
    hide Inv;
  }

  /**
   * Main result: in whatever state a run has left it, an open poll can still be closed by its deadline if and only if
   * its job is not settled or a worker that claimed the job has yet to try. A job that was buried on an inbox that
   * did not drain in time leaves its poll open for ever, unless late votes meet the quota.
   */
  lemma ClosableIff(maxAttempts: nat, d: PollDefinition, clock: Time, past: seq<Step>)
    requires d.Valid()
    ensures Inv(Started(d, clock).drain.poll)
    ensures
      var s := Runs(maxAttempts, Started(d, clock), past);
      Inv(s.drain.poll) &&
      (s.drain.poll.status.Open? ==>
        ((exists ms :: ClosedByDeadline(Runs(maxAttempts, s, ms).drain.poll))
         <==> !s.job.phase.Final? || exists v :: v in s.trials && Pends(s, v)))
  {
    StartedIsTimed(d, clock);
    RunsKeepTimed(maxAttempts, Started(d, clock), past);
    var s := Runs(maxAttempts, Started(d, clock), past);
    hide Inv, Runs, Timed, Started;
    if s.drain.poll.status.Open? {
      if Over(s) {
        forall ms ensures !ClosedByDeadline(Runs(maxAttempts, s, ms).drain.poll) {
          NeverClosed(maxAttempts, s, ms);
        }
      } else {
        var ms := CanClose(maxAttempts, s);
      }
    }
  }

  // ---------------------------------------------------------------- a deadline that is missed

  // A press was stored in time and nobody handles it; the job has failed so often and is free again or buried.
  predicate Stuck(s: System, d: PollDefinition, maxAttempts: nat, failed: nat) {
    && s.drain.poll == Initial(d) && s.drain.clock >= d.closesAt && s.trials == map[]
    && s.drain.inbox.Keys == {1} && Outstanding(s.drain.inbox[1], d.houseId, d.closesAt)
    && s.job.attempts == failed && s.job.phase == (if failed < maxAttempts then Pending else Final(Dead))
    && (failed < maxAttempts ==> s.job.availableAt <= s.drain.clock)
  }

  lemma PressArrives(d: PollDefinition, maxAttempts: nat)
    requires d.Valid() && maxAttempts > 0
    ensures Inv(Started(d, d.closesAt - 1).drain.poll)
    ensures
      var press := Elsewhere(Receive(1, "press", Some(CallbackReceived), Some(d.houseId), d.closesAt - 1));
      Stuck(Runs(maxAttempts, Started(d, d.closesAt - 1), [press, Elsewhere(Tick(1))]), d, maxAttempts, 0)
  {
    StartedIsTimed(d, d.closesAt - 1);
    var s := Started(d, d.closesAt - 1);
    var press := Elsewhere(Receive(1, "press", Some(CallbackReceived), Some(d.houseId), d.closesAt - 1));
    IsValid(s.drain.poll);
    RunsFirst(maxAttempts, s, press, [Elsewhere(Tick(1))]);
    RunsFirst(maxAttempts, Next(maxAttempts, s, press), Elsewhere(Tick(1)), []);
    assert [press] + [Elsewhere(Tick(1))] == [press, Elsewhere(Tick(1))];
    assert [Elsewhere(Tick(1))] + [] == [Elsewhere(Tick(1))];
    hide Inv, PollState.Valid;
  }

  const ROUND := [Take(0, 60), Read(0), Try(0, 2, false), Settle(0), Elsewhere(Tick(60_000_000))]

  /** The job is claimed, the poll read as open, and the attempt refused. */
  lemma TryFails(d: PollDefinition, maxAttempts: nat, s: System, failed: nat) returns (c: System)
    requires s.drain.poll.Valid() && Stuck(s, d, maxAttempts, failed) && failed < maxAttempts
    ensures Next(maxAttempts, s, Take(0, 60)).drain.poll == s.drain.poll
    ensures Next(maxAttempts, Next(maxAttempts, s, Take(0, 60)), Read(0)).drain.poll == s.drain.poll
    ensures c == Next(maxAttempts, Next(maxAttempts, Next(maxAttempts, s, Take(0, 60)), Read(0)), Try(0, 2, false))
    ensures c.drain == s.drain && c.trials == map[0 := Trial(failed + 1, Ran(W.Raised))]
    ensures Holds(c.job, 0, c.drain.clock) && c.job.attempts == failed + 1
  {
    hide PollState.Valid, Finalize;
    var t := Next(maxAttempts, s, Take(0, 60));
    assert t.trials == map[0 := Trial(failed + 1, Claimed)];
    var r := Next(maxAttempts, t, Read(0));
    assert r.trials == map[0 := Trial(failed + 1, Current)];
    c := Next(maxAttempts, r, Try(0, 2, false));
    assert c.trials == map[0 := Trial(failed + 1, Ran(W.Raised))];
  }

  /** The failure is settled, and a minute later the job may be claimed again unless it was the last attempt. */
  lemma FailureSettles(d: PollDefinition, maxAttempts: nat, s: System, c: System, failed: nat) returns (u: System)
    requires s.drain.poll.Valid() && Stuck(s, d, maxAttempts, failed) && failed < maxAttempts
    requires c.drain == s.drain && c.trials == map[0 := Trial(failed + 1, Ran(W.Raised))]
    requires Holds(c.job, 0, c.drain.clock) && c.job.attempts == failed + 1
    ensures Next(maxAttempts, c, Settle(0)).drain.poll == s.drain.poll
    ensures u == Next(maxAttempts, Next(maxAttempts, c, Settle(0)), Elsewhere(Tick(60_000_000)))
    ensures Stuck(u, d, maxAttempts, failed + 1)
  {
    W.RetryDelayGrows(failed + 1);
    hide PollState.Valid, W.RetryDelay;
    var e := Next(maxAttempts, c, Settle(0));
    assert e.trials == map[];
    u := Next(maxAttempts, e, Elsewhere(Tick(60_000_000)));
  }

  lemma RoundFails(d: PollDefinition, maxAttempts: nat, s: System, failed: nat)
    requires Stuck(s, d, maxAttempts, failed) && failed < maxAttempts && Inv(s.drain.poll)
    ensures Inv(Runs(maxAttempts, s, ROUND).drain.poll)
    ensures Stuck(Runs(maxAttempts, s, ROUND), d, maxAttempts, failed + 1)
  {
    IsValid(s.drain.poll);
    hide Inv, PollState.Valid, Next, Stuck, Runs;
    var c := TryFails(d, maxAttempts, s, failed);
    var u := FailureSettles(d, maxAttempts, s, c, failed);
    var take, read, tried, settle, tick := ROUND[0], ROUND[1], ROUND[2], ROUND[3], ROUND[4];
    RunsThree(maxAttempts, s, take, read, tried);
    RunsAppend(maxAttempts, s, [take, read, tried], [settle, tick]);
    RunsFirst(maxAttempts, c, settle, [tick]);
    var e := Next(maxAttempts, c, settle);
    RunsFirst(maxAttempts, e, tick, []);
    NothingRuns(maxAttempts, u);
    assert [take, read, tried] + [settle, tick] == ROUND;
    assert [settle] + [tick] == [settle, tick] && [tick] + [] == [tick];
  }

  lemma NothingRuns(maxAttempts: nat, s: System)
    requires Inv(s.drain.poll)
    ensures Runs(maxAttempts, s, []) == s
  {
  }

  lemma {:induction false} RoundsFail(d: PollDefinition, maxAttempts: nat, s: System, failed: nat)
    returns (ms: seq<Step>)
    requires d.Valid() && Stuck(s, d, maxAttempts, failed) && failed <= maxAttempts && Inv(s.drain.poll)
    ensures Inv(Runs(maxAttempts, s, ms).drain.poll)
    ensures Stuck(Runs(maxAttempts, s, ms), d, maxAttempts, maxAttempts)
    decreases maxAttempts - failed
  {
    if failed == maxAttempts {
      ms := [];
    } else {
      RoundFails(d, maxAttempts, s, failed);
      var u := Runs(maxAttempts, s, ROUND);
      hide Inv, Stuck, Runs;
      var rest := RoundsFail(d, maxAttempts, u, failed + 1);
      RunsAppend(maxAttempts, s, ROUND, rest);
      ms := ROUND + rest;
    }
  }

  /**
   * This does happen, to every poll and with every number of attempts: one press that nobody handles in time buries
   * the job, and the poll is never closed by its deadline.
   */
  lemma DeadlineMissed(d: PollDefinition, maxAttempts: nat) returns (ms: seq<Step>)
    requires d.Valid() && maxAttempts > 0
    ensures Inv(Started(d, d.closesAt - 1).drain.poll)
    ensures
      var s := Runs(maxAttempts, Started(d, d.closesAt - 1), ms);
      && Inv(s.drain.poll) && s.job.phase == Final(Dead) && s.job.attempts == maxAttempts
      && s.drain.poll == Initial(d) && s.drain.clock >= d.closesAt
      && forall after :: !ClosedByDeadline(Runs(maxAttempts, s, after).drain.poll)
  {
    PressArrives(d, maxAttempts);
    var press := Elsewhere(Receive(1, "press", Some(CallbackReceived), Some(d.houseId), d.closesAt - 1));
    var first := [press, Elsewhere(Tick(1))];
    var start := Started(d, d.closesAt - 1);
    StartedIsTimed(d, d.closesAt - 1);
    RunsKeepTimed(maxAttempts, start, first);
    hide Inv, Started;
    var rest := RoundsFail(d, maxAttempts, Runs(maxAttempts, start, first), 0);
    RunsAppend(maxAttempts, start, first, rest);
    ms := first + rest;
    var s := Runs(maxAttempts, start, ms);
    hide Runs;
    forall after ensures !ClosedByDeadline(Runs(maxAttempts, s, after).drain.poll) {
      NeverClosed(maxAttempts, s, after);
    }
  }
}
