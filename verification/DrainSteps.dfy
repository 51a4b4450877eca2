/** The stores of polls and inbox take exactly the moves of the drain model, one transaction a move. */
module DrainSteps {
  import opened Basics
  import opened Leases
  import opened InboxRows
  import opened Polls
  import opened PollRuns
  import opened PollTables
  import opened PollStore
  import opened InboxQueue
  import opened DrainSafety

  // The stored rows are those of this world.
  ghost predicate Shows(t: Tables, inbox: Inbox, pollId: Id, w: World) {
    Consistent(t, inbox) && pollId in t.polls && Load(t, pollId) == w.poll && inbox == w.inbox && Inv(w.poll)
  }

  // The same source keys of domain events, on which the announcements of polls rest.
  ghost predicate SameAnnouncements(before: Inbox, after: Inbox) {
    forall p, name | name in {PollThresholdReached, PollExpired} ::
      HasKey(after, Domain, OfPoll(p, name)) == HasKey(before, Domain, OfPoll(p, name))
  }

  /** A world that moved on in its inbox alone is still shown. */
  lemma StillShown(t: Tables, before: Inbox, after: Inbox, pollId: Id, w: World, next: World)
    requires Shows(t, before, pollId, w) && next.poll == w.poll && next.inbox == after
    requires UniqueKeys(after) && SameAnnouncements(before, after)
    ensures Shows(t, after, pollId, next)
  {
    hide Inv, PollTables.Valid, Load, HasKey, UniqueKeys;
  }

  lemma ReletKeepsKeys(inbox: Inbox, id: Id, lease: Lease)
    requires id in inbox && UniqueKeys(inbox)
    ensures UniqueKeys(Relet(inbox, id, lease)) && SameAnnouncements(inbox, Relet(inbox, id, lease))
  {
    var u := Relet(inbox, id, lease);
    forall source, key ensures HasKey(u, source, key) == HasKey(inbox, source, key) {
      if HasKey(inbox, source, key) {
        var i :| i in inbox && inbox[i].source == source && inbox[i].sourceKey == key;
        assert u[i].source == source && u[i].sourceKey == key;
      }
    }
    forall i, j | i in u && j in u && SameKey(u[i], u[j]) ensures i == j {
      assert SameKey(inbox[i], inbox[j]);
    }
  }

  lemma InsertKeepsKeys(inbox: Inbox, id: Id, row: InboxRow)
    requires id !in inbox && UniqueKeys(inbox) && !HasKey(inbox, row.source, row.sourceKey)
    requires row.source != Domain || !row.sourceKey.OfPoll?
    ensures UniqueKeys(inbox[id := row]) && SameAnnouncements(inbox, inbox[id := row])
  {
    SavedOnce(inbox, id, row, id, row);
    assert Saved(inbox, id, row) == inbox[id := row];
    forall p, name ensures HasKey(inbox[id := row], Domain, OfPoll(p, name)) == HasKey(inbox, Domain, OfPoll(p, name)) {
      KeyAfterSave(inbox, id, row, Domain, OfPoll(p, name));
    }
  }

  /** Storing an update is a receipt, or nothing when its key is stored already. */
  method ReceiveUpdate(
      store: InboxStore, key: string, name: Option<EventName>, houseId: Option<Id>, receivedAt: Time, newId: Id,
      ghost pollId: Id, ghost w: World)
    requires Shows(store.session.polls, store.session.inbox, pollId, w)
    requires newId !in store.session.inbox && receivedAt <= w.clock
    modifies store.session`inbox
    ensures Inv(w.poll)
    ensures Shows(store.session.polls, store.session.inbox, pollId,
                  Apply(w, Receive(newId, key, name, houseId, receivedAt)))
  {
    IsValid(w.poll);
    hide Inv, PollTables.Valid, Load, PollState.Valid, HasKey, UniqueKeys, SameAnnouncements;
    ghost var before, move := store.session.inbox, Receive(newId, key, name, houseId, receivedAt);
    var inserted := store.SaveInboxEvent(key, name, houseId, receivedAt, newId);
    if inserted {
      InsertKeepsKeys(before, newId, ReceivedRow(move));
      StillShown(store.session.polls, before, store.session.inbox, pollId, w, Apply(w, move));
    }
  }

  lemma ClaimIs(w: World, worker: WorkerId, id: Id, leaseFor: Time)
    requires w.poll.Valid() && worker !in w.working && id in w.inbox && Due(w.inbox[id].lease, w.clock)
    ensures
      var next := Apply(w, Claim(worker, id, leaseFor));
      && next.poll == w.poll && next.inbox == Relet(w.inbox, id, Claimed(w.inbox[id].lease, worker, w.clock, leaseFor))
      && worker in next.working && next.working[worker] == Work(id, false)
  {
    hide PollState.Valid, Relet;
  }

  /** A successful claim is a claim by a worker that was free; any other leaves the inbox alone. */
  method ClaimPress(
      store: InboxStore, worker: WorkerId, now: Time, leaseFor: Time, locked: set<Id>, ghost pollId: Id, ghost w: World)
    returns (r: Result<Option<Id>, InboxError>)
    requires Shows(store.session.polls, store.session.inbox, pollId, w) && now == w.clock && worker !in w.working
    modifies store.session`inbox
    ensures Inv(w.poll)
    ensures r.Err? || r.value.None? ==> Shows(store.session.polls, store.session.inbox, pollId, w)
    ensures r.Ok? && r.value.Some? ==>
      var next := Apply(w, Claim(worker, r.value.value, leaseFor));
      && Shows(store.session.polls, store.session.inbox, pollId, next)
      && worker in next.working && next.working[worker] == Work(r.value.value, false)
  {
    IsValid(w.poll);
    hide Inv, PollTables.Valid, Load, PollState.Valid, HasKey, UniqueKeys, SameAnnouncements, Relet, Apply;
    ghost var before := store.session.inbox;
    r := store.Claim(worker, now, leaseFor, locked);
    if r.Ok? && r.value.Some? {
      var id := r.value.value;
      ClaimIs(w, worker, id, leaseFor);
      ReletKeepsKeys(before, id, Claimed(before[id].lease, worker, now, leaseFor));
      StillShown(store.session.polls, before, store.session.inbox, pollId, w, Apply(w, Claim(worker, id, leaseFor)));
    }
  }

  method RenewPress(
      store: InboxStore, id: Id, worker: WorkerId, now: Time, leaseFor: Time, ghost pollId: Id, ghost w: World)
    returns (r: Result<(), InboxError>)
    requires Shows(store.session.polls, store.session.inbox, pollId, w) && now == w.clock
    requires worker in w.working && w.working[worker].row == id
    modifies store.session`inbox
    ensures Inv(w.poll) && (r.Ok? <==> HoldsWork(w, worker))
    ensures Shows(store.session.polls, store.session.inbox, pollId, Apply(w, Renew(worker, leaseFor)))
  {
    IsValid(w.poll);
    hide Inv, PollTables.Valid, Load, PollState.Valid, HasKey, UniqueKeys, SameAnnouncements, Relet;
    ghost var before := store.session.inbox;
    r := store.Heartbeat(id, worker, now, leaseFor);
    if r.Ok? {
      ReletKeepsKeys(before, id, Renewed(before[id].lease, now, leaseFor));
      StillShown(store.session.polls, before, store.session.inbox, pollId, w, Apply(w, Renew(worker, leaseFor)));
    }
  }

  /** Whatever another transaction does, if it keeps this poll and saves one waiting event, it is a publication. */
  lemma OthersPublish(t: Tables, u: Tables, inbox: Inbox, pollId: Id, id: Id, row: InboxRow, w: World)
    requires Shows(t, inbox, pollId, w) && Consistent(u, Saved(inbox, id, row)) && id !in inbox
    requires pollId in u.polls && Load(u, pollId) == Load(t, pollId)
    requires row.name != Some(CallbackReceived) && row.lease.phase.Pending?
    ensures Inv(w.poll) && Shows(u, Saved(inbox, id, row), pollId, Apply(w, Publish(id, row)))
  {
    IsValid(w.poll);
    PublishIs(w, id, row);
    hide Inv, PollTables.Valid, Load, Announced, HasKey, PollState.Valid, Apply, Saved;
  }

  lemma PublishIs(w: World, id: Id, row: InboxRow)
    requires w.poll.Valid() && row.name != Some(CallbackReceived) && row.lease.phase.Pending? && id !in w.inbox
    ensures Apply(w, Publish(id, row)).poll == w.poll && Apply(w, Publish(id, row)).inbox == Saved(w.inbox, id, row)
  {
    hide PollState.Valid, HasKey;
  }

  /** The deadline of another poll is a publication, or nothing. */
  method CloseOther(
      repository: PollRepository, other: Id, houseId: Id, now: Time, newEventId: Id, ghost pollId: Id, ghost w: World)
    returns (r: Result<PollMutation, StoreError>)
    requires Shows(repository.session.polls, repository.session.inbox, pollId, w) && other != pollId
    requires newEventId !in repository.session.inbox
    modifies repository.session`polls, repository.session`inbox
    ensures Inv(w.poll)
    ensures r.Ok? && r.value.events == [Finalized] ==>
      Shows(repository.session.polls, repository.session.inbox, pollId,
            Apply(w, Publish(newEventId, PollEventRow(r.value.state, PollExpired, other, now))))
    ensures r.Err? || r.value.events != [Finalized] ==>
      Shows(repository.session.polls, repository.session.inbox, pollId, w)
  {
    hide Inv, PollTables.Valid, Load, PollState.Valid, Announced, Drained, Saved, Finalize, Apply;
    ghost var t, inbox := repository.session.polls, repository.session.inbox;
    r := repository.FinalizeAtomic(other, houseId, now, newEventId);
    if r.Ok? && r.value.events == [Finalized] {
      OthersPublish(t, repository.session.polls, inbox, pollId, newEventId,
                    PollEventRow(r.value.state, PollExpired, other, now), w);
    }
  }

  /**
   * A handled press is the model's handling of it. The store refuses a vote whose event already counted in another
   * poll; then nothing moves and the press is left to fail.
   */
  method HandlePress(
      repository: PollRepository, pollId: Id, houseId: Id, worker: WorkerId, id: Id, ballot: Ballot, newEventId: Id,
      ghost w: World)
    returns (r: Result<PollMutation, StoreError>)
    requires Shows(repository.session.polls, repository.session.inbox, pollId, w)
    requires newEventId !in repository.session.inbox && houseId == w.poll.definition.houseId
    requires worker in w.working && w.working[worker].row == id && id in w.inbox
    requires VoteOf(w, id, Some(ballot)) == Some(ballot)
    modifies repository.session`polls, repository.session`inbox
    ensures Inv(w.poll)
    ensures r.Ok? ==>
      Shows(repository.session.polls, repository.session.inbox, pollId,
            Apply(w, Handle(worker, Some(ballot), newEventId)))
    ensures r.Err? ==>
      && Shows(repository.session.polls, repository.session.inbox, pollId, w)
      && r == Err(UniqueViolation) && SourceEventTaken(repository.session.polls, id)
  {
    hide Inv, PollTables.Valid, Load, PollState.Valid, Announced, RecordAnswer, Saved, PollEventRow, SourceEventTaken,
         Apply;
    IsValid(w.poll);
    PressIs(w, worker, id, ballot, newEventId);
    PollKept(w, Handle(worker, Some(ballot), newEventId));
    HouseOf(repository.session.polls, pollId);
    r := repository.RecordAnswerAtomic(pollId, houseId, ballot.actor, ballot.choice, id,
                                       repository.session.inbox[id].receivedAt, newEventId);
  }

  lemma HouseOf(t: Tables, pollId: Id)
    requires pollId in t.polls
    ensures Load(t, pollId).definition.houseId == t.polls[pollId].houseId
    ensures Load(t, pollId).definition.pollId == pollId
  {
  }

  lemma PressIs(w: World, worker: WorkerId, id: Id, ballot: Ballot, newEventId: Id)
    requires w.poll.Valid() && worker in w.working && w.working[worker].row == id && id in w.inbox
    requires VoteOf(w, id, Some(ballot)) == Some(ballot) && newEventId !in w.inbox
    ensures
      var m := RecordAnswer(w.poll, ballot.actor, ballot.choice, id, w.inbox[id].receivedAt);
      var next := Apply(w, Handle(worker, Some(ballot), newEventId));
      && next.poll == m.state
      && next.inbox == if m.events == [ThresholdReached] then
                         Saved(w.inbox, newEventId,
                               PollEventRow(m.state, PollThresholdReached, id, w.inbox[id].receivedAt))
                       else w.inbox
  {
    hide PollState.Valid, RecordAnswer, Saved, PollEventRow;
    EventsOfVote(w.poll, ballot.actor, ballot.choice, id, w.inbox[id].receivedAt);
  }

  lemma EventsOfVote(s: PollState, actor: Id, choice: VoteChoice, id: Id, at: Time)
    requires s.Valid()
    ensures RecordAnswer(s, actor, choice, id, at).events in {[], [ThresholdReached]}
    ensures RecordAnswer(s, actor, choice, id, at).result.Some?
  {
  }

  lemma FinishIs(w: World, worker: WorkerId, id: Id)
    requires w.poll.Valid() && worker in w.working && w.working[worker] == Work(id, true)
    ensures
      var next := Apply(w, Finish(worker));
      && next.poll == w.poll
      && next.inbox == if !HoldsWork(w, worker) then w.inbox
                       else Relet(w.inbox, id,
                                  Released(w.inbox[id].lease, Final(Done), w.inbox[id].lease.availableAt))
  {
    hide PollState.Valid, Relet;
  }

  lemma FailIs(w: World, worker: WorkerId, id: Id, retryAfter: Time, maxAttempts: nat)
    requires w.poll.Valid() && worker in w.working && w.working[worker].row == id
    ensures
      var next := Apply(w, Fail(worker, retryAfter, maxAttempts));
      && next.poll == w.poll
      && next.inbox == if !HoldsWork(w, worker) then w.inbox
                       else
                         var phase := if w.inbox[id].lease.attempts < maxAttempts then Pending else Final(Dead);
                         Relet(w.inbox, id, Released(w.inbox[id].lease, phase, w.clock + retryAfter))
  {
    hide PollState.Valid, Relet;
  }

  method FinishPress(store: InboxStore, id: Id, worker: WorkerId, now: Time, ghost pollId: Id, ghost w: World)
    returns (r: Result<(), InboxError>)
    requires Shows(store.session.polls, store.session.inbox, pollId, w) && now == w.clock
    requires worker in w.working && w.working[worker] == Work(id, true)
    modifies store.session`inbox
    ensures Inv(w.poll) && (r.Ok? <==> HoldsWork(w, worker))
    ensures Shows(store.session.polls, store.session.inbox, pollId, Apply(w, Finish(worker)))
  {
    IsValid(w.poll);
    FinishIs(w, worker, id);
    hide Inv, PollTables.Valid, Load, PollState.Valid, Apply, Relet, HasKey, UniqueKeys, SameAnnouncements;
    ghost var before := store.session.inbox;
    r := store.Finish(id, worker, now);
    if r.Ok? {
      ReletKeepsKeys(before, id, Released(before[id].lease, Final(Done), before[id].lease.availableAt));
    }
    StillShown(store.session.polls, before, store.session.inbox, pollId, w, Apply(w, Finish(worker)));
  }

  method FailPress(
      store: InboxStore, id: Id, worker: WorkerId, now: Time, retryAfter: Time, maxAttempts: nat, ghost pollId: Id,
      ghost w: World)
    returns (r: Result<Phase, InboxError>)
    requires Shows(store.session.polls, store.session.inbox, pollId, w) && now == w.clock
    requires worker in w.working && w.working[worker].row == id
    modifies store.session`inbox
    ensures Inv(w.poll) && (r.Ok? <==> HoldsWork(w, worker))
    ensures Shows(store.session.polls, store.session.inbox, pollId, Apply(w, Fail(worker, retryAfter, maxAttempts)))
  {
    IsValid(w.poll);
    FailIs(w, worker, id, retryAfter, maxAttempts);
    hide Inv, PollTables.Valid, Load, PollState.Valid, Apply, Relet, HasKey, UniqueKeys, SameAnnouncements;
    ghost var before := store.session.inbox;
    r := store.Fail(id, worker, now, retryAfter, maxAttempts);
    if r.Ok? {
      ReletKeepsKeys(before, id, Released(before[id].lease, r.value, now + retryAfter));
    }
    StillShown(store.session.polls, before, store.session.inbox, pollId, w,
               Apply(w, Fail(worker, retryAfter, maxAttempts)));
  }

  lemma CloseIs(w: World, pollId: Id, newEventId: Id)
    requires w.poll.Valid() && newEventId !in w.inbox && w.poll.definition.pollId == pollId
    ensures
      var next := Apply(w, Close(newEventId));
      var waits := w.poll.status.Open? && !Drained(w.inbox, w.poll.definition.houseId, w.poll.definition.closesAt);
      if waits || Finalize(w.poll, w.clock).Err? then next == w
      else
        var m := Finalize(w.poll, w.clock).value;
        && next.poll == m.state
        && next.inbox == if m.events == [Finalized] then
                           Saved(w.inbox, newEventId, PollEventRow(m.state, PollExpired, pollId, w.clock))
                         else w.inbox
  {
    hide PollState.Valid, Drained, Saved, PollEventRow, FinalOutcome;
  }

  lemma OnlyOpenPollsRefuse(s: PollState, now: Time)
    requires s.Valid()
    ensures Finalize(s, now).Err? <==> s.status.Open? && now < s.definition.closesAt
  {
  }

  /** The transaction of the deadline is the close, and does nothing else when it is refused. */
  method ClosePoll(repository: PollRepository, pollId: Id, houseId: Id, now: Time, newEventId: Id, ghost w: World)
    returns (r: Result<PollMutation, StoreError>)
    requires Shows(repository.session.polls, repository.session.inbox, pollId, w) && now == w.clock
    requires newEventId !in repository.session.inbox && houseId == w.poll.definition.houseId
    modifies repository.session`polls, repository.session`inbox
    ensures Inv(w.poll)
    ensures Shows(repository.session.polls, repository.session.inbox, pollId, Apply(w, Close(newEventId)))
    ensures r.Err? <==> w.poll.status.Open?
                        && (!Drained(w.inbox, houseId, w.poll.definition.closesAt) || Finalize(w.poll, now).Err?)
  {
    hide Inv, PollTables.Valid, Load, PollState.Valid, Announced, Drained, Saved, PollEventRow, Finalize, Apply;
    IsValid(w.poll);
    HouseOf(repository.session.polls, pollId);
    CloseIs(w, pollId, newEventId);
    PollKept(w, Close(newEventId));
    OnlyOpenPollsRefuse(w.poll, now);
    r := repository.FinalizeAtomic(pollId, houseId, now, newEventId);
  }
}
