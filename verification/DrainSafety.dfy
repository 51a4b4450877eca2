/**
 * The inbox and one poll together: button presses arrive, workers lease, handle and settle them, leases
 * run out, workers crash, and the deadline closes the poll once the inbox is drained.
 */
module DrainSafety {
  import opened Basics
  import opened Leases
  import opened InboxRows
  import opened Polls
  import opened PollRuns
  import opened PollTables
  import opened InboxQueue

  // A worker between its claim and its settlement.
  datatype Work = Work(row: Id, handled: bool)

  // Whom a button press resolves to when it is handled; a press may resolve to no vote on this poll.
  datatype Ballot = Ballot(actor: Id, choice: VoteChoice)

  // The first committed handling of a button press, and whether the poll was still open then.
  datatype Commit = Commit(ballot: Option<Ballot>, status: Option<AnswerStatus>, pollWasOpen: bool)

  // afterClose are the rows inserted once the poll was no longer open.
  datatype World = World(
    clock: Time,
    inbox: Inbox,
    poll: PollState,
    working: map<WorkerId, Work>,
    commits: map<Id, Commit>,
    afterClose: set<Id>)

  datatype Move =
    | Tick(elapsed: nat)
    | Receive(id: Id, key: string, name: Option<EventName>, houseId: Option<Id>, receivedAt: Time)
    | Publish(id: Id, row: InboxRow)
    | Claim(worker: WorkerId, id: Id, leaseFor: Time)
    | Renew(worker: WorkerId, leaseFor: Time)
    | Handle(worker: WorkerId, ballot: Option<Ballot>, newEventId: Id)
    | Finish(worker: WorkerId)
    | Fail(worker: WorkerId, retryAfter: Time, maxAttempts: nat)
    | Crash(worker: WorkerId)
    | Close(newEventId: Id)

  function ReceivedRow(m: Move): InboxRow
    requires m.Receive?
  {
    InboxRow(Max, External(m.key), m.name, m.houseId, None, m.receivedAt,
             NewLease(if m.name.Some? then Pending else Final(Ignored), m.receivedAt))
  }

  // An effective receipt: the stamp was taken at or before the insert.
  predicate Inserts(w: World, m: Move) {
    m.Receive? && m.id !in w.inbox && m.receivedAt <= w.clock && !HasKey(w.inbox, Max, External(m.key))
  }

  // An effective publication: another transaction saves a waiting event of its own, which is no press.
  predicate Publishes(w: World, m: Move) {
    && m.Publish? && m.id !in w.inbox && !HasKey(w.inbox, m.row.source, m.row.sourceKey)
    && m.row.name != Some(CallbackReceived) && m.row.lease.phase.Pending?
  }

  predicate HoldsWork(w: World, worker: WorkerId) {
    worker in w.working && w.working[worker].row in w.inbox
    && Holds(w.inbox[w.working[worker].row].lease, worker, w.clock)
  }

  /** One atomic transaction; a move whose guard fails changes nothing. */
  function Apply(w: World, m: Move): World
    requires w.poll.Valid()
  {
    match m
    case Tick(elapsed) => w.(clock := w.clock + elapsed)
    case Receive(id, _, _, _, _) =>
      if !Inserts(w, m) then w
      else w.(inbox := w.inbox[id := ReceivedRow(m)],
              afterClose := if w.poll.status.Open? then w.afterClose else w.afterClose + {id})
    case Publish(id, row) =>
      if !Publishes(w, m) then w
      else w.(inbox := w.inbox[id := row],
              afterClose := if w.poll.status.Open? then w.afterClose else w.afterClose + {id})
    case Claim(worker, id, leaseFor) =>
      if worker in w.working || id !in w.inbox || !Due(w.inbox[id].lease, w.clock) then w
      else w.(inbox := Relet(w.inbox, id, Claimed(w.inbox[id].lease, worker, w.clock, leaseFor)),
              working := w.working[worker := Work(id, false)])
    case Renew(worker, leaseFor) =>
      if !HoldsWork(w, worker) then w
      else
        var id := w.working[worker].row;
        w.(inbox := Relet(w.inbox, id, Renewed(w.inbox[id].lease, w.clock, leaseFor)))
    case Handle(worker, ballot, newEventId) =>
      if worker !in w.working || w.working[worker].row !in w.inbox then w
      else Handled(w, worker, ballot, newEventId)
    case Finish(worker) => LetGo(if HoldsWork(w, worker) && w.working[worker].handled
                                 then Settle(w, worker, Final(Done), None) else w, worker)
    case Fail(worker, retryAfter, maxAttempts) =>
      LetGo(if !HoldsWork(w, worker) then w
            else Settle(w, worker, FailPhase(w, worker, maxAttempts), Some(retryAfter)), worker)
    case Crash(worker) => LetGo(w, worker)
    case Close(newEventId) =>
      if !w.poll.status.Open? || !Drained(w.inbox, w.poll.definition.houseId, w.poll.definition.closesAt)
         || Finalize(w.poll, w.clock).Err? || newEventId in w.inbox then w
      else
        var closed := Finalize(w.poll, w.clock).value.state;
        w.(poll := closed,
           inbox := Saved(w.inbox, newEventId, PollEventRow(closed, PollExpired, closed.definition.pollId, w.clock)))
  }

  function FailPhase(w: World, worker: WorkerId, maxAttempts: nat): Phase
    requires HoldsWork(w, worker)
  {
    if w.inbox[w.working[worker].row].lease.attempts >= maxAttempts then Final(Dead) else Pending
  }

  function Settle(w: World, worker: WorkerId, phase: Phase, retryAfter: Option<Time>): World
    requires HoldsWork(w, worker)
  {
    var id := w.working[worker].row;
    var lease := w.inbox[id].lease;
    var at := if retryAfter.Some? then w.clock + retryAfter.value else lease.availableAt;
    w.(inbox := Relet(w.inbox, id, Released(lease, phase, at)))
  }

  function LetGo(w: World, worker: WorkerId): World {
    w.(working := w.working - {worker})
  }

  // A press votes on this poll only if it belongs to the poll's house, or to no house yet.
  function VoteOf(w: World, id: Id, ballot: Option<Ballot>): Option<Ballot>
    requires id in w.inbox
  {
    var row := w.inbox[id];
    if row.name == Some(CallbackReceived) && (row.houseId == Some(w.poll.definition.houseId) || row.houseId.None?)
    then ballot else None
  }

  /** The handler runs in its own transaction and does not look at the lease. */
  function Handled(w: World, worker: WorkerId, ballot: Option<Ballot>, newEventId: Id): World
    requires w.poll.Valid() && worker in w.working && w.working[worker].row in w.inbox
  {
    var id := w.working[worker].row;
    var vote := VoteOf(w, id, ballot);
    var next := w.(working := w.working[worker := Work(id, true)]);
    if vote.None? then Remember(next, id, Commit(None, None, w.poll.status.Open?))
    else
      var m := RecordAnswer(w.poll, vote.value.actor, vote.value.choice, id, w.inbox[id].receivedAt);
      var announced :=
        if m.events == [] || newEventId in w.inbox then w.inbox
        else Saved(w.inbox, newEventId, PollEventRow(m.state, PollThresholdReached, id, w.inbox[id].receivedAt));
      Remember(next.(poll := m.state, inbox := announced), id,
               Commit(vote, Some(m.result.value.status), w.poll.status.Open?))
  }

  function Remember(w: World, id: Id, c: Commit): World {
    if id in w.commits then w else w.(commits := w.commits[id := c])
  }

  function Start(d: PollDefinition, clock: Time): World {
    World(clock, map[], Initial(d), map[], map[], {})
  }

  ghost function Run(w: World, ms: seq<Move>): World
    requires Inv(w.poll)
    decreases |ms|
  {
    if ms == [] then w
    else
      PollKept(w, ms[0]);
      Run(Apply(w, ms[0]), ms[1..])
  }

  // ---------------------------------------------------------------- the invariant

  predicate ClosedByDeadline(s: PollState) {
    s.status.Closed? && !s.thresholdEmitted
  }

  // What the resident of a counted press was told.
  predicate Accounted(c: Commit, row: InboxRow, d: PollDefinition) {
    c.pollWasOpen && c.ballot.Some? && c.ballot.value.actor in d.eligible && d.opensAt <= row.receivedAt < d.closesAt
    ==> c.status == Some(Recorded) || c.status == Some(Changed) || c.status == Some(Duplicate)
  }

  predicate Settled(w: World, id: Id)
    requires id in w.inbox
  {
    var lease := w.inbox[id].lease;
    lease.phase.Final? && (lease.phase == Final(Done) ==> id in w.commits && w.commits[id].pollWasOpen)
  }

  // Commits and settled rows agree.
  ghost predicate CommitsAgree(w: World) {
    && (forall id :: id in w.commits ==> id in w.inbox && Accounted(w.commits[id], w.inbox[id], w.poll.definition))
    && (forall id :: id in w.inbox && w.inbox[id].lease.phase == Final(Done) ==> id in w.commits)
    && (forall v :: v in w.working && w.working[v].handled ==> w.working[v].row in w.commits)
    && (w.poll.status.Open? ==> forall id :: id in w.commits ==> w.commits[id].pollWasOpen)
  }

  // Once the deadline has closed the poll, everything it had to wait for is settled.
  ghost predicate Waited(w: World) {
    ClosedByDeadline(w.poll) ==>
      && w.clock >= w.poll.definition.closesAt
      && forall id :: id in w.inbox && id !in w.afterClose && Awaited(w, id) ==> Settled(w, id)
  }

  predicate Awaited(w: World, id: Id)
    requires id in w.inbox
  {
    Relevant(w.inbox[id], w.poll.definition.houseId, w.poll.definition.closesAt)
  }

  ghost predicate Good(w: World) {
    Inv(w.poll) && CommitsAgree(w) && Waited(w)
  }

  // ---------------------------------------------------------------- the poll

  lemma VoteKept(s: PollState, actor: Id, choice: VoteChoice, id: Id, at: Time)
    requires Inv(s)
    ensures
      var m := RecordAnswer(s, actor, choice, id, at);
      && Inv(m.state) && m.state.definition == s.definition && m.result.Some?
      && (!s.status.Open? ==> m.state == s)
      && (ClosedByDeadline(m.state) ==> m.state == s)
      && (s.status.Open? && actor in s.definition.eligible && s.definition.opensAt <= at < s.definition.closesAt ==>
            m.result.value.status in {Recorded, Changed, Duplicate})
  {
    StepKeepsInv(s, Vote(actor, choice, id, at));
  }

  /** The commit of a handled press is accounted for, and only the deadline closes by deadline. */
  lemma PressKept(w: World, id: Id, vote: Ballot)
    requires Inv(w.poll) && id in w.inbox
    ensures w.poll.Valid()
    ensures
      var m := RecordAnswer(w.poll, vote.actor, vote.choice, id, w.inbox[id].receivedAt);
      && Inv(m.state) && m.state.definition == w.poll.definition && m.result.Some?
      && (!w.poll.status.Open? ==> m.state == w.poll)
      && (m.state.status.Open? ==> w.poll.status.Open?)
      && (ClosedByDeadline(m.state) ==> m.state == w.poll)
      && Accounted(Commit(Some(vote), Some(m.result.value.status), w.poll.status.Open?), w.inbox[id], w.poll.definition)
  {
    VoteKept(w.poll, vote.actor, vote.choice, id, w.inbox[id].receivedAt);
  }

  lemma DeadlineKept(s: PollState, now: Time)
    requires Inv(s) && Finalize(s, now).Ok?
    ensures Inv(Finalize(s, now).value.state) && Finalize(s, now).value.state.definition == s.definition
    ensures s.status.Open? ==> now >= s.definition.closesAt && ClosedByDeadline(Finalize(s, now).value.state)
  {
    StepKeepsInv(s, Deadline(now));
  }

  lemma PollKept(w: World, m: Move)
    requires Inv(w.poll)
    ensures Inv(Apply(w, m).poll) && Apply(w, m).poll.definition == w.poll.definition
    ensures !w.poll.status.Open? ==> Apply(w, m).poll == w.poll
    ensures Apply(w, m).clock >= w.clock
  {
    IsValid(w.poll);
    hide Inv, RecordAnswer, Finalize, Saved, Drained, HasKey, PollState.Valid;
    if m.Handle? && m.worker in w.working && w.working[m.worker].row in w.inbox {
      var id := w.working[m.worker].row;
      if VoteOf(w, id, m.ballot).Some? {
        PressKept(w, id, m.ballot.value);
      }
    } else if m.Close? && Finalize(w.poll, w.clock).Ok? {
      DeadlineKept(w.poll, w.clock);
    }
  }

  lemma IsValid(s: PollState)
    requires Inv(s)
    ensures s.Valid()
  {
  }

  // ---------------------------------------------------------------- the rows

  // Rows never change what they are, only their lease; settled rows do not change at all.
  predicate RowsKept(before: Inbox, after: Inbox) {
    forall id :: id in before ==> id in after && after[id].(lease := before[id].lease) == before[id]
                                  && (before[id].lease.phase.Final? ==> after[id] == before[id])
  }

  lemma LeasesKeepRows(w: World, m: Move)
    requires w.poll.Valid() && (m.Claim? || m.Renew? || m.Finish? || m.Fail? || m.Tick? || m.Crash?)
    ensures RowsKept(w.inbox, Apply(w, m).inbox)
  {
    hide PollState.Valid, HasKey, Drained, FailPhase;
  }

  lemma InsertsKeepRows(w: World, m: Move)
    requires w.poll.Valid() && (m.Receive? || m.Publish? || m.Handle? || m.Close?)
    ensures RowsKept(w.inbox, Apply(w, m).inbox)
  {
    hide PollState.Valid, RecordAnswer, Finalize, Drained, HasKey, PollEventRow;
  }

  lemma ApplyKeepsRows(w: World, m: Move)
    requires w.poll.Valid()
    ensures RowsKept(w.inbox, Apply(w, m).inbox)
  {
    hide RowsKept, Apply, PollState.Valid;
    if m.Receive? || m.Publish? || m.Handle? || m.Close? {
      InsertsKeepRows(w, m);
    } else {
      LeasesKeepRows(w, m);
    }
  }

  // ---------------------------------------------------------------- every move keeps the invariant

  // Everything but a handled press and the close itself.
  predicate Plain(m: Move) {
    !m.Handle? && !m.Close?
  }

  // What a plain move can do, as far as the invariant goes.
  predicate PlainStep(w: World, u: World) {
    && u.poll == w.poll && u.commits == w.commits && u.clock >= w.clock
    && RowsKept(w.inbox, u.inbox)
    && w.afterClose <= u.afterClose
    && (forall id :: id in u.inbox && id !in w.inbox ==>
          u.inbox[id].lease.phase != Final(Done) && (w.poll.status.Open? || id in u.afterClose))
    && (forall v :: v in u.working && u.working[v].handled ==> v in w.working && u.working[v] == w.working[v])
    && (forall id :: id in w.inbox && u.inbox[id].lease.phase == Final(Done) ==>
          w.inbox[id].lease.phase == Final(Done) || exists v :: v in w.working && w.working[v] == Work(id, true))
  }

  lemma PlainInserts(w: World, m: Move)
    requires w.poll.Valid() && (m.Receive? || m.Publish?)
    ensures PlainStep(w, Apply(w, m))
  {
    ApplyKeepsRows(w, m);
    hide PollState.Valid, HasKey, RowsKept;
  }

  lemma PlainLeases(w: World, m: Move)
    requires w.poll.Valid() && Plain(m) && !m.Receive? && !m.Publish?
    ensures PlainStep(w, Apply(w, m))
  {
    ApplyKeepsRows(w, m);
    hide PollState.Valid, RowsKept, FailPhase;
    if m.Finish? && HoldsWork(w, m.worker) && w.working[m.worker].handled {
      assert w.working[m.worker] == Work(w.working[m.worker].row, true);
    }
  }

  lemma PlainSteps(w: World, m: Move)
    requires w.poll.Valid() && Plain(m)
    ensures PlainStep(w, Apply(w, m))
  {
    hide PlainStep, Apply, PollState.Valid;
    if m.Receive? || m.Publish? {
      PlainInserts(w, m);
    } else {
      PlainLeases(w, m);
    }
  }

  lemma PlainKeepsGood(w: World, u: World)
    requires Good(w) && PlainStep(w, u)
    ensures CommitsAgree(u) && Waited(u)
  {
    hide Inv;
  }

  // What handling a press can do to the rows: at most one new, waiting event row.
  predicate EventAdded(w: World, u: World) {
    && RowsKept(w.inbox, u.inbox)
    && (forall id :: id in u.inbox && id !in w.inbox ==> u.inbox[id].lease.phase != Final(Done))
    && (forall id :: id in w.inbox && u.inbox[id].lease.phase == Final(Done) ==> w.inbox[id].lease.phase == Final(Done))
  }

  // And to everything else: at most one new commit, and the press is marked as handled.
  predicate CommitAdded(w: World, u: World) {
    && u.poll.definition == w.poll.definition
    && (u.poll.status.Open? ==> w.poll.status.Open?)
    && (forall id :: id in w.commits ==> id in u.commits && u.commits[id] == w.commits[id])
    && (forall id :: id in u.commits && id !in w.commits ==>
          id in w.inbox && Accounted(u.commits[id], w.inbox[id], w.poll.definition)
          && u.commits[id].pollWasOpen == w.poll.status.Open?)
    && (forall v :: v in u.working && u.working[v].handled ==>
          u.working[v].row in u.commits || (v in w.working && u.working[v] == w.working[v]))
  }

  lemma EventsAdded(w: World, m: Move)
    requires w.poll.Valid() && m.Handle?
    ensures EventAdded(w, Apply(w, m))
  {
    ApplyKeepsRows(w, m);
    hide PollState.Valid, RecordAnswer, Finalize, Drained, HasKey, RowsKept;
  }

  lemma CommitsAdded(w: World, m: Move)
    requires Inv(w.poll) && m.Handle?
    ensures w.poll.Valid() && CommitAdded(w, Apply(w, m))
  {
    IsValid(w.poll);
    hide Inv, PollState.Valid, RecordAnswer, Finalize, Drained, HasKey, Saved, PollEventRow, Accounted;
    if m.worker in w.working && w.working[m.worker].row in w.inbox {
      var id := w.working[m.worker].row;
      var vote := VoteOf(w, id, m.ballot);
      if vote.Some? {
        PressKept(w, id, vote.value);
        PressAdds(w, m, id, vote.value);
      } else {
        NobodyAccounted(w, id);
      }
    }
  }

  lemma NobodyAccounted(w: World, id: Id)
    requires id in w.inbox
    ensures Accounted(Commit(None, None, w.poll.status.Open?), w.inbox[id], w.poll.definition)
  {
  }

  lemma PressAdds(w: World, m: Move, id: Id, vote: Ballot)
    requires w.poll.Valid() && m.Handle? && m.worker in w.working && w.working[m.worker].row == id && id in w.inbox
    requires VoteOf(w, id, m.ballot) == Some(vote)
    requires
      var next := RecordAnswer(w.poll, vote.actor, vote.choice, id, w.inbox[id].receivedAt);
      && next.result.Some? && next.state.definition == w.poll.definition
      && (next.state.status.Open? ==> w.poll.status.Open?)
      && Accounted(Commit(Some(vote), Some(next.result.value.status), w.poll.status.Open?), w.inbox[id],
                   w.poll.definition)
    ensures CommitAdded(w, Apply(w, m))
  {
    hide PollState.Valid, RecordAnswer, Finalize, Drained, HasKey, Saved, PollEventRow, Accounted, VoteOf;
  }

  lemma HandleKeepsRecorded(w: World, u: World)
    requires CommitsAgree(w) && EventAdded(w, u) && CommitAdded(w, u)
    ensures CommitsAgree(u)
  {
  }

  lemma HandleKeepsWaited(w: World, m: Move)
    requires Inv(w.poll) && Waited(w) && m.Handle?
    ensures Waited(Apply(w, m))
  {
    IsValid(w.poll);
    ApplyKeepsRows(w, m);
    PollKept(w, m);
    hide Inv, PollState.Valid, RecordAnswer, Finalize, Drained, HasKey;
    if m.worker in w.working && w.working[m.worker].row in w.inbox {
      var id := w.working[m.worker].row;
      if VoteOf(w, id, m.ballot).Some? {
        PressKept(w, id, m.ballot.value);
      }
    }
  }

  lemma CloseKeepsGood(w: World, m: Move)
    requires Good(w) && m.Close?
    ensures CommitsAgree(Apply(w, m)) && Waited(Apply(w, m))
  {
    IsValid(w.poll);
    ApplyKeepsRows(w, m);
    hide Inv, PollState.Valid, RecordAnswer, Finalize, HasKey;
    if Finalize(w.poll, w.clock).Ok? {
      DeadlineKept(w.poll, w.clock);
    }
  }

  lemma ApplyKeepsGood(w: World, m: Move)
    requires Good(w)
    ensures Good(Apply(w, m))
  {
    hide Apply, CommitsAgree, Waited;
    PollKept(w, m);
    if Plain(m) {
      IsValid(w.poll);
      PlainSteps(w, m);
      PlainKeepsGood(w, Apply(w, m));
    } else if m.Handle? {
      IsValid(w.poll);
      EventsAdded(w, m);
      CommitsAdded(w, m);
      HandleKeepsRecorded(w, Apply(w, m));
      HandleKeepsWaited(w, m);
    } else {
      CloseKeepsGood(w, m);
    }
  }

  lemma {:induction false} RunKeepsGood(w: World, ms: seq<Move>)
    requires Good(w)
    ensures Good(Run(w, ms)) && Run(w, ms).poll.definition == w.poll.definition
    decreases |ms|
  {
    if ms != [] {
      hide Good, Apply;
      GoodIsInv(w);
      PollKept(w, ms[0]);
      ApplyKeepsGood(w, ms[0]);
      RunKeepsGood(Apply(w, ms[0]), ms[1..]);
    }
  }

  lemma GoodIsInv(w: World)
    requires Good(w)
    ensures Inv(w.poll) && w.poll.Valid()
  {
  }

  lemma StartIsGood(d: PollDefinition, clock: Time)
    requires d.Valid()
    ensures Good(Start(d, clock))
  {
    InitialInv(d);
    hide Inv;
  }

  // ---------------------------------------------------------------- main results

  // The press was settled as done, and the resident behind it had been answered while the poll was open.
  predicate AnsweredInTime(w: World, id: Id)
    requires id in w.inbox
  {
    var d, row := w.poll.definition, w.inbox[id];
    && id in w.commits
    && w.commits[id].pollWasOpen
    && (w.commits[id].ballot.Some? && w.commits[id].ballot.value.actor in d.eligible
        && d.opensAt <= row.receivedAt < d.closesAt ==>
          w.commits[id].status in {Some(Recorded), Some(Changed), Some(Duplicate)})
  }

  // A press that can vote on this poll: from its house, or from a chat that belongs to none.
  predicate MayVote(row: InboxRow, d: PollDefinition) {
    row.name == Some(CallbackReceived) && (row.houseId.None? || row.houseId.value == d.houseId)
  }

  /** Whatever the handler would count as a vote, the deadline waits for if it was received in time. */
  lemma VotesAreAwaited(w: World, id: Id, ballot: Ballot)
    requires id in w.inbox
    ensures VoteOf(w, id, Some(ballot)).Some? <==> MayVote(w.inbox[id], w.poll.definition)
    ensures Awaited(w, id) <==> MayVote(w.inbox[id], w.poll.definition)
                                && w.inbox[id].receivedAt < w.poll.definition.closesAt
  {
  }

  /**
   * Main result: in every run, once the deadline has closed the poll, each press that could vote on it, was received
   * in time and stored before the close is settled; if it is done, its vote was answered before the close, and an
   * eligible vote in the window was never turned away.
   */
  lemma DeadlineWaitsForPresses(d: PollDefinition, clock: Time, ms: seq<Move>)
    requires d.Valid()
    ensures Inv(Start(d, clock).poll)
    ensures
      var w := Run(Start(d, clock), ms);
      ClosedByDeadline(w.poll) ==>
        forall id ::
          id in w.inbox && id !in w.afterClose && MayVote(w.inbox[id], d) && w.inbox[id].receivedAt < d.closesAt ==>
          && w.inbox[id].lease.phase.Final?
          && (w.inbox[id].lease.phase == Final(Done) ==> AnsweredInTime(w, id))
  {
    StartIsGood(d, clock);
    GoodIsInv(Start(d, clock));
    RunKeepsGood(Start(d, clock), ms);
    hide Inv;
    var w := Run(Start(d, clock), ms);
    forall id | id in w.inbox ensures
      Awaited(w, id) <==> MayVote(w.inbox[id], d) && w.inbox[id].receivedAt < d.closesAt
    {
      VotesAreAwaited(w, id, Ballot(0, Yes));
    }
  }

  /** Main result: after the close no move changes the poll or any press it had waited for. */
  lemma {:induction false} ClosedForEver(w: World, ms: seq<Move>)
    requires Good(w) && ClosedByDeadline(w.poll)
    ensures Inv(w.poll) && Run(w, ms).poll == w.poll
    ensures forall id :: id in w.inbox && id !in w.afterClose && Awaited(w, id) ==>
              id in Run(w, ms).inbox && Run(w, ms).inbox[id] == w.inbox[id]
    decreases |ms|
  {
    GoodIsInv(w);
    if ms != [] {
      ApplyKeepsGood(w, ms[0]);
      PollKept(w, ms[0]);
      ApplyKeepsRows(w, ms[0]);
      AfterCloseGrows(w, ms[0]);
      hide Inv, Apply, CommitsAgree;
      ClosedForEver(Apply(w, ms[0]), ms[1..]);
    }
  }

  lemma AfterCloseGrows(w: World, m: Move)
    requires w.poll.Valid()
    ensures forall id :: id in Apply(w, m).afterClose ==> id in w.afterClose || id !in w.inbox
  {
    hide PollState.Valid, RecordAnswer, Finalize, Drained, HasKey;
  }

  // A press stored now although it was received before the poll's deadline.
  predicate Backdates(w: World, m: Move) {
    Inserts(w, m) && Relevant(ReceivedRow(m), w.poll.definition.houseId, w.poll.definition.closesAt)
  }

  ghost predicate BackdatesIn(w: World, ms: seq<Move>)
    requires Inv(w.poll)
    decreases |ms|
  {
    ms != [] &&
    (PollKept(w, ms[0]);
     Backdates(w, ms[0]) || BackdatesIn(Apply(w, ms[0]), ms[1..]))
  }

  ghost predicate StaysDrained(w: World, ms: seq<Move>)
    requires Inv(w.poll)
    decreases |ms|
  {
    && Drained(w.inbox, w.poll.definition.houseId, w.poll.definition.closesAt)
    && (ms == [] ||
        (PollKept(w, ms[0]);
         StaysDrained(Apply(w, ms[0]), ms[1..])))
  }

  lemma DrainedStep(w: World, m: Move)
    requires w.poll.Valid() && !w.poll.status.Open?
    requires Drained(w.inbox, w.poll.definition.houseId, w.poll.definition.closesAt)
    ensures
      Drained(Apply(w, m).inbox, w.poll.definition.houseId, w.poll.definition.closesAt) <==> !Backdates(w, m)
  {
    ApplyKeepsRows(w, m);
    hide PollState.Valid, RecordAnswer, Finalize, HasKey;
    if Backdates(w, m) {
      assert Outstanding(Apply(w, m).inbox[m.id], w.poll.definition.houseId, w.poll.definition.closesAt);
    }
  }

  /**
   * Main result: receipts are stamped before they are stored, so a press can still appear after the
   * close. The closed poll's inbox stays drained exactly when no receipt is stored that late.
   */
  lemma {:induction false} StaysDrainedIff(w: World, ms: seq<Move>)
    requires Good(w) && ClosedByDeadline(w.poll)
    requires Drained(w.inbox, w.poll.definition.houseId, w.poll.definition.closesAt)
    ensures Inv(w.poll) && (StaysDrained(w, ms) <==> !BackdatesIn(w, ms))
    decreases |ms|
  {
    GoodIsInv(w);
    if ms != [] {
      var next := Apply(w, ms[0]);
      ApplyKeepsGood(w, ms[0]);
      PollKept(w, ms[0]);
      DrainedStep(w, ms[0]);
      hide Good, Inv, Apply, Drained, Backdates;
      if !Backdates(w, ms[0]) {
        StaysDrainedIff(next, ms[1..]);
      }
    }
  }

  /** Stamping at the moment of the insert is enough: then nothing received in time is stored late. */
  lemma PunctualReceiptsAreSafe(w: World, m: Move)
    requires Good(w) && ClosedByDeadline(w.poll) && (m.Receive? ==> m.receivedAt == w.clock)
    ensures !Backdates(w, m)
  {
    hide Inv;
  }

  /** And the vote of a press stored late is lost: it is answered as closed although received in time. */
  lemma BackdatedVoteIsLost(w: World, m: Move, actor: Id, choice: VoteChoice)
    requires Good(w) && ClosedByDeadline(w.poll) && Backdates(w, m)
    requires actor in w.poll.definition.eligible && w.poll.definition.opensAt <= m.receivedAt
    requires m.id !in w.poll.processed
    ensures w.poll.Valid() && RecordAnswer(w.poll, actor, choice, m.id, m.receivedAt)
                              == Refused(w.poll, AlreadyClosed, None)
  {
    GoodIsInv(w);
  }

  function LateReceipt(d: PollDefinition): Move {
    Receive(2, "press", Some(CallbackReceived), Some(d.houseId), d.closesAt - 1)
  }

  /**
   * This does happen, in every poll: closed at its deadline on an empty inbox, it turns away a press stamped just
   * before the deadline and stored just after the close, though the vote would have counted before it.
   */
  lemma LateReceiptLosesItsVote(d: PollDefinition, actor: Id, choice: VoteChoice)
    requires d.Valid() && actor in d.eligible
    ensures Inv(Start(d, d.closesAt).poll)
    ensures
      var w := Run(Start(d, d.closesAt), [Close(1)]);
      && Good(w) && ClosedByDeadline(w.poll) && Backdates(w, LateReceipt(d))
      && RecordAnswer(Initial(d), actor, choice, 2, d.closesAt - 1).state != Initial(d)
      && RecordAnswer(w.poll, actor, choice, 2, d.closesAt - 1) == Refused(w.poll, AlreadyClosed, None)
  {
    var start := Start(d, d.closesAt);
    StartIsGood(d, d.closesAt);
    GoodIsInv(start);
    RunKeepsGood(start, [Close(1)]);
    DeadlineKept(start.poll, d.closesAt);
    var w := Run(start, [Close(1)]);
    assert w == Apply(start, Close(1)) by {
      PollKept(start, Close(1));
      assert [Close(1)][1..] == [];
    }
    VoteCountsIff(Initial(d), actor, choice, 2, d.closesAt - 1);
    assert w.poll.processed == {};
    BackdatedVoteIsLost(w, LateReceipt(d), actor, choice);
  }
}
