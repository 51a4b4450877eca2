/** Atomic storage of polls, votes and their events. */
module PollStore {
  import opened Basics
  import opened Polls
  import opened PollAnswers
  import opened PollRuns
  import opened InboxRows
  import opened OutboxRows
  import opened PollTables
  import opened Database

  datatype StoreError =
    | PollMissing
    | UniqueViolation
    | InboxNotDrained
    | DeadlineAhead
    | InvalidOperationKey
    | AudienceMismatch
    | SubjectAlreadyOpened
    | OperationKeyConflict

  const MAX_OPERATION_KEY := 250

  predicate Visible(t: Tables, pollId: Id, houseId: Id) {
    pollId in t.polls && t.polls[pollId].houseId == houseId
  }

  ghost predicate Consistent(t: Tables, inbox: Inbox) {
    Valid(t) && Announced(t, inbox)
  }

  /** All other polls keep their state, and no poll appears or disappears. */
  ghost predicate OnlyChanges(t: Tables, u: Tables, pollId: Id) {
    u.polls.Keys == t.polls.Keys && forall p :: p in t.polls && p != pollId ==> Load(u, p) == Load(t, p)
  }

  // ---------------------------------------------------------------- announcing

  lemma KeyAfterSave(inbox: Inbox, id: Id, row: InboxRow, source: Source, key: SourceKey)
    requires id !in inbox
    ensures HasKey(Saved(inbox, id, row), source, key)
       <==> HasKey(inbox, source, key) || (row.source == source && row.sourceKey == key)
  {
    var u := Saved(inbox, id, row);
    if HasKey(inbox, source, key) {
      var i :| i in inbox && inbox[i].source == source && inbox[i].sourceKey == key;
      assert i in u && u[i] == inbox[i];
    }
    if row.source == source && row.sourceKey == key && !HasKey(inbox, source, key) {
      assert u[id] == row;
    }
  }

  /** The threshold and the deadline each save the one event that their poll lacked. */
  lemma AnnounceKeeps(t: Tables, u: Tables, inbox: Inbox, pollId: Id, name: EventName, id: Id, row: InboxRow)
    requires Announced(t, inbox) && id !in inbox && pollId in t.polls && t.polls[pollId].status.Open?
    requires !t.polls[pollId].thresholdEmitted && u.polls.Keys == t.polls.Keys
    requires forall p :: p in t.polls && p != pollId ==> u.polls[p] == t.polls[p]
    requires row.source == Domain && row.sourceKey == OfPoll(pollId, name) && u.polls[pollId].status.Closed?
    requires name == if u.polls[pollId].thresholdEmitted then PollThresholdReached else PollExpired
    ensures !HasKey(inbox, Domain, OfPoll(pollId, name))
    ensures Announced(u, Saved(inbox, id, row))
  {
    hide HasKey;
    SavedOnce(inbox, id, row, id, row);
    forall p, n | n in {PollThresholdReached, PollExpired}
      ensures HasKey(Saved(inbox, id, row), Domain, OfPoll(p, n))
         <==> HasKey(inbox, Domain, OfPoll(p, n)) || (p == pollId && n == name)
    {
      KeyAfterSave(inbox, id, row, Domain, OfPoll(p, n));
    }
    assert !HasKey(inbox, Domain, OfPoll(pollId, PollThresholdReached));
    assert !HasKey(inbox, Domain, OfPoll(pollId, PollExpired));
  }

  lemma QuietKeeps(t: Tables, u: Tables, inbox: Inbox, pollId: Id)
    requires Announced(t, inbox) && u.polls.Keys == t.polls.Keys && pollId in t.polls
    requires forall p :: p in t.polls && p != pollId ==> u.polls[p] == t.polls[p]
    requires u.polls[pollId].thresholdEmitted == t.polls[pollId].thresholdEmitted
    requires u.polls[pollId].status.Closed? <==> t.polls[pollId].status.Closed?
    ensures Announced(u, inbox)
  {
    hide HasKey, UniqueKeys;
  }

  class PollRepository {
    const session: Session

    constructor (session: Session)
      ensures this.session == session
    {
      this.session := session;
    }

    /**
     * Applies the pure transition under the row lock. The only constraint a counted vote can violate is
     * the global uniqueness of its event, and only when the event already counted in another poll.
     */
    method RecordAnswerAtomic(
        pollId: Id, houseId: Id, actor: Id, choice: VoteChoice, sourceEvent: Id, receivedAt: Time, newEventId: Id)
      returns (r: Result<PollMutation, StoreError>)
      requires Consistent(session.polls, session.inbox) && newEventId !in session.inbox
      modifies session`polls, session`inbox
      ensures Consistent(session.polls, session.inbox)
      ensures r == Err(PollMissing) <==> !Visible(old(session.polls), pollId, houseId)
      ensures Visible(old(session.polls), pollId, houseId) ==>
        var before := Load(old(session.polls), pollId);
        var pure := RecordAnswer(before, actor, choice, sourceEvent, receivedAt);
        if pure.state != before && SourceEventTaken(old(session.polls), sourceEvent) then r == Err(UniqueViolation)
        else r == Ok(pure)
      ensures r.Err? ==> session.polls == old(session.polls) && session.inbox == old(session.inbox)
      ensures r.Ok? ==>
        && pollId in session.polls.polls && Load(session.polls, pollId) == r.value.state
        && OnlyChanges(old(session.polls), session.polls, pollId)
        && session.inbox ==
           if r.value.events == [ThresholdReached] then
             Saved(old(session.inbox), newEventId,
                   PollEventRow(r.value.state, PollThresholdReached, sourceEvent, receivedAt))
           else old(session.inbox)
    {
      hide Inv, Coherent, Announced, Load, RecordAnswer, WithAnswer, FindAnswer, Saved, PollEventRow;
      var t := session.polls;
      if !Visible(t, pollId, houseId) {
        return Err(PollMissing);
      }
      LoadedInv(t, pollId);
      var current := Load(t, pollId);
      var mutation := RecordAnswer(current, actor, choice, sourceEvent, receivedAt);
      if mutation.state == current {
        UncountedVote(current, actor, choice, sourceEvent, receivedAt);
        return Ok(mutation);
      }
      ghost var counted := CountedVote(current, actor, choice, sourceEvent, receivedAt);
      StepInv(current, actor, choice, sourceEvent, receivedAt);
      var answer := FindAnswer(mutation.state.answers, actor).value;
      CountedIsStored(t, pollId, mutation, answer);
      if SourceEventTaken(t, sourceEvent) || RevisionTaken(t, pollId, actor, answer.revision) {
        return Err(UniqueViolation);
      }
      var stored := VoteStored(t, pollId, mutation.state, answer);
      session.polls := stored;
      if mutation.events == [ThresholdReached] {
        var row := PollEventRow(mutation.state, PollThresholdReached, sourceEvent, receivedAt);
        ThresholdAnnounced(t, session.inbox, pollId, mutation, answer, newEventId, row);
        session.inbox := Saved(session.inbox, newEventId, row);
      } else {
        VoteUnannounced(t, session.inbox, pollId, mutation, answer);
      }
      return Ok(mutation);
    }

    /** Closes an open poll at its deadline, once every button press received before it is settled. */
    method FinalizeAtomic(pollId: Id, houseId: Id, now: Time, newEventId: Id)
      returns (r: Result<PollMutation, StoreError>)
      requires Consistent(session.polls, session.inbox) && newEventId !in session.inbox
      modifies session`polls, session`inbox
      ensures Consistent(session.polls, session.inbox)
      ensures r == Err(PollMissing) <==> !Visible(old(session.polls), pollId, houseId)
      // A press that waits or is in work, was received before the deadline and comes from this house or from none.
      ensures r == Err(InboxNotDrained) <==>
        var t, inbox := old(session.polls), old(session.inbox);
        && pollId in t.polls && t.polls[pollId].houseId == houseId && t.polls[pollId].status.Open?
        && exists id :: id in inbox && inbox[id].name == Some(CallbackReceived)
                        && inbox[id].receivedAt < t.polls[pollId].closesAt
                        && (inbox[id].houseId.None? || inbox[id].houseId.value == houseId)
                        && !inbox[id].lease.phase.Final?
      ensures Visible(old(session.polls), pollId, houseId) ==>
        var before := Load(old(session.polls), pollId);
        if before.status.Open? && !Drained(old(session.inbox), houseId, before.definition.closesAt) then
          r == Err(InboxNotDrained)
        else if Finalize(before, now).Err? then r == Err(DeadlineAhead)
        else r == Ok(Finalize(before, now).value)
      // The deadline decides by the residents' answers.
      ensures r.Ok? && Load(old(session.polls), pollId).status.Open? ==>
        && now >= old(session.polls).polls[pollId].closesAt && r.value.state.status.Closed?
        && r.value.state.outcome == Some(OutcomeOfResidents(r.value.state))
        && r.value.state.answers == Load(old(session.polls), pollId).answers
      ensures r.Err? ==> session.polls == old(session.polls) && session.inbox == old(session.inbox)
      ensures r.Ok? ==>
        && pollId in session.polls.polls && Load(session.polls, pollId) == r.value.state
        && OnlyChanges(old(session.polls), session.polls, pollId)
        && session.inbox ==
           if r.value.events == [Finalized] then
             Saved(old(session.inbox), newEventId, PollEventRow(r.value.state, PollExpired, pollId, now))
           else old(session.inbox)
    {
      hide Inv, Coherent, Announced, Drained, Saved, FinalOutcome, OutcomeOfResidents;
      var t := session.polls;
      if !Visible(t, pollId, houseId) {
        return Err(PollMissing);
      }
      LoadedInv(t, pollId);
      var current := Load(t, pollId);
      if current.status == Open {
        NotDrained(session.inbox, houseId, t.polls[pollId].closesAt);
        if !Drained(session.inbox, houseId, t.polls[pollId].closesAt) {
          return Err(InboxNotDrained);
        }
      }
      var finalized := Finalize(current, now);
      if current.status == Open {
        DeadlineDecides(current, now);
      }
      if finalized.Err? {
        return Err(DeadlineAhead);
      }
      var mutation := finalized.value;
      if mutation.state != current {
        TransitionIsStored(t, pollId, mutation.state, Deadline(now));
        var stored := WithRow(t, pollId, mutation.state);
        session.polls := stored;
        var row := PollEventRow(mutation.state, PollExpired, pollId, now);
        DeadlineAnnounced(t, session.inbox, pollId, mutation.state, newEventId, row);
        session.inbox := Saved(session.inbox, newEventId, row);
      }
      return Ok(mutation);
    }

    /** Cancels an open poll together with its buttons, invitations and reminders. */
    method CancelAtomic(pollId: Id, houseId: Id) returns (r: Result<PollMutation, StoreError>)
      requires Consistent(session.polls, session.inbox)
      modifies session`polls, session`actions, session`outbox
      ensures Consistent(session.polls, session.inbox)
      ensures r == if Visible(old(session.polls), pollId, houseId) then Ok(Cancel(Load(old(session.polls), pollId)))
                   else Err(PollMissing)
      ensures r.Ok? ==> pollId in session.polls.polls && Load(session.polls, pollId) == r.value.state
                        && OnlyChanges(old(session.polls), session.polls, pollId)
      ensures
        var cancels := r.Ok? && r.value.events == [PollCancelled];
        && session.polls ==
           (if cancels then WithRow(old(session.polls), pollId, r.value.state) else old(session.polls))
        && session.actions == (if cancels then Revoked(old(session.actions), pollId, houseId) else old(session.actions))
        && session.outbox == (if cancels then Withdrawn(old(session.outbox), houseId, pollId) else old(session.outbox))
      // Its buttons are dead, and nobody is invited or reminded any more.
      ensures r.Ok? && r.value.events == [PollCancelled] ==>
        && (forall token :: token in session.actions ==>
              session.actions[token].pollId == pollId && session.actions[token].houseId == houseId ==>
                session.actions[token].revoked)
        && (forall id :: id in session.outbox && session.outbox[id].content.houseId == houseId ==>
              var key := session.outbox[id].content.operationKey;
              (key.Invite? || key.Reminder?) && key.pollId == pollId ==> !session.outbox[id].lease.phase.Pending?)
    {
      hide Inv, Coherent, Announced, Revoked, Withdrawn;
      var t := session.polls;
      if !Visible(t, pollId, houseId) {
        return Err(PollMissing);
      }
      LoadedInv(t, pollId);
      var current := Load(t, pollId);
      var mutation := Cancel(current);
      if mutation.state != current {
        TransitionIsStored(t, pollId, mutation.state, Withdraw);
        CancelUnannounced(t, session.inbox, pollId);
        session.polls := WithRow(t, pollId, mutation.state);
        RevokedSays(session.actions, pollId, houseId);
        WithdrawnSays(session.outbox, houseId, pollId);
        session.actions := Revoked(session.actions, pollId, houseId);
        session.outbox := Withdrawn(session.outbox, houseId, pollId);
      }
      return Ok(mutation);
    }

    /**
     * Stores a new poll with its members. The same operation key again returns the poll it opened; a
     * key used for another poll, or a second poll on the same subject, is refused.
     */
    method OpenOnce(state: PollState, targets: seq<Id>, operationKey: string)
      returns (r: Result<PollState, StoreError>)
      requires Consistent(session.polls, session.inbox)
      requires state == Initial(state.definition) && state.definition.Valid()
      modifies session`polls
      ensures Consistent(session.polls, session.inbox)
      ensures
        var t, d := old(session.polls), state.definition;
        if !(1 <= |operationKey| <= 250) then r == Err(InvalidOperationKey)
        else if !AudienceMatches(session.audiences, d, targets) then r == Err(AudienceMismatch)
        else if !Conflicts(t, d, operationKey) then
          && r == Ok(state) && session.polls == Opened(t, state, operationKey)
          && session.polls.polls.Keys == t.polls.Keys + {d.pollId} && Load(session.polls, d.pollId) == state
          && forall p :: p in t.polls ==> Load(session.polls, p) == Load(t, p)
        else if !KeyUsed(t, d.houseId, operationKey) then r == Err(SubjectAlreadyOpened)
        else exists p :: p in t.polls && HasOperation(t.polls[p], d.houseId, operationKey)
                         && r == OpenedBefore(t, p, d)
      ensures Conflicts(old(session.polls), state.definition, operationKey) || r.Err? ==>
        session.polls == old(session.polls)
    {
      hide Inv, Load, Coherent, Announced, Opened, AudienceMatches, SubjectUsed, PollTables.Valid;
      var t, d := session.polls, state.definition;
      if operationKey == "" || |operationKey| > MAX_OPERATION_KEY {
        return Err(InvalidOperationKey);
      }
      if !AudienceMatches(session.audiences, d, targets) {
        return Err(AudienceMismatch);
      }
      if Conflicts(t, d, operationKey) {
        if !KeyUsed(t, d.houseId, operationKey) {
          return Err(SubjectAlreadyOpened);
        }
        var p :| p in t.polls && HasOperation(t.polls[p], d.houseId, operationKey);
        return OpenedBefore(t, p, d);
      }
      OpenIsStored(t, session.inbox, state, operationKey);
      session.polls := Opened(t, state, operationKey);
      return Ok(state);
    }
  }

  // ---------------------------------------------------------------- opening

  predicate AudienceMatches(audiences: map<Id, Audience>, d: PollDefinition, targets: seq<Id>) {
    && SnapshotMembers(audiences, d.audienceId, d.houseId) == d.eligible
    && (set r | r in targets) == d.eligible
    && |targets| == |d.eligible|
  }

  function SnapshotMembers(audiences: map<Id, Audience>, audienceId: Id, houseId: Id): set<Id> {
    if audienceId in audiences && audiences[audienceId].houseId == houseId then audiences[audienceId].members else {}
  }

  predicate HasOperation(row: PollRow, houseId: Id, operationKey: string) {
    row.houseId == houseId && row.operationKey == operationKey
  }

  predicate KeyUsed(t: Tables, houseId: Id, operationKey: string) {
    exists p :: p in t.polls && HasOperation(t.polls[p], houseId, operationKey)
  }

  predicate SubjectUsed(t: Tables, d: PollDefinition) {
    exists p :: p in t.polls && SameSubject(t.polls[p], NewRow(Initial(d), ""))
  }

  // The insert meets the primary key or a uniqueness constraint.
  predicate Conflicts(t: Tables, d: PollDefinition, operationKey: string) {
    d.pollId in t.polls || KeyUsed(t, d.houseId, operationKey) || SubjectUsed(t, d)
  }

  // What a repeated operation key has to agree on; a repeat carries a new id and a new window.
  predicate SamePoll(before: PollDefinition, now: PollDefinition) {
    && before.caseId == now.caseId && before.audienceId == now.audienceId && before.kind == now.kind
    && before.policy == now.policy && before.subjectRevision == now.subjectRevision && before.eligible == now.eligible
  }

  /** What the audience of a new poll has to be: its house's snapshot, each member notified exactly once. */
  lemma AudienceMatchesIff(audiences: map<Id, Audience>, d: PollDefinition, targets: seq<Id>)
    ensures AudienceMatches(audiences, d, targets) <==>
      && (if d.audienceId in audiences && audiences[d.audienceId].houseId == d.houseId then
            audiences[d.audienceId].members == d.eligible
          else d.eligible == {})
      && |targets| == |d.eligible| && forall r :: r in targets <==> r in d.eligible
  {
  }

  /** A new poll is refused exactly for a known id, a used key of its house, or a second poll on one subject. */
  lemma ConflictsIff(t: Tables, d: PollDefinition, operationKey: string)
    ensures Conflicts(t, d, operationKey) <==>
      exists p :: p in t.polls &&
        (|| p == d.pollId
         || (t.polls[p].houseId == d.houseId && t.polls[p].operationKey == operationKey)
         || (t.polls[p].caseId == d.caseId && t.polls[p].audienceId == d.audienceId && t.polls[p].kind == d.kind
             && t.polls[p].subjectRevision == d.subjectRevision))
  {
    if KeyUsed(t, d.houseId, operationKey) {
      var p :| p in t.polls && HasOperation(t.polls[p], d.houseId, operationKey);
      assert p in t.polls;
    }
    if SubjectUsed(t, d) {
      var p :| p in t.polls && SameSubject(t.polls[p], NewRow(Initial(d), ""));
      assert p in t.polls;
    }
    if p :| p in t.polls && t.polls[p].houseId == d.houseId && t.polls[p].operationKey == operationKey {
      assert HasOperation(t.polls[p], d.houseId, operationKey);
    }
    if p :| p in t.polls && t.polls[p].caseId == d.caseId && t.polls[p].audienceId == d.audienceId
            && t.polls[p].kind == d.kind && t.polls[p].subjectRevision == d.subjectRevision {
      assert SameSubject(t.polls[p], NewRow(Initial(d), ""));
    }
  }

  /** A repeated key returns the poll it opened only for the same case, audience, kind, rule, revision and members. */
  lemma OpenedBeforeIff(t: Tables, p: Id, d: PollDefinition)
    requires p in t.polls
    ensures OpenedBefore(t, p, d) == Ok(Load(t, p)) <==>
      && t.polls[p].caseId == d.caseId && t.polls[p].audienceId == d.audienceId && t.polls[p].kind == d.kind
      && t.polls[p].policy == d.policy && t.polls[p].subjectRevision == d.subjectRevision
      && MembersOf(t, p) == d.eligible
    ensures OpenedBefore(t, p, d).Err? ==> OpenedBefore(t, p, d).error == OperationKeyConflict
  {
    hide Load;
  }

  function OpenedBefore(t: Tables, p: Id, d: PollDefinition): Result<PollState, StoreError>
    requires p in t.polls
  {
    if SamePoll(DefinitionOf(t, p), d) then Ok(Load(t, p)) else Err(OperationKeyConflict)
  }

  function NewRow(s: PollState, operationKey: string): PollRow {
    var d := s.definition;
    PollRow(d.caseId, d.houseId, d.audienceId, operationKey, d.kind, d.policy, d.subjectRevision, d.opensAt, d.closesAt,
            s.status, s.version, None, false)
  }

  function Opened(t: Tables, s: PollState, operationKey: string): Tables {
    var id := s.definition.pollId;
    t.(polls := t.polls[id := NewRow(s, operationKey)],
       members := if s.definition.eligible == {} then t.members else t.members[id := s.definition.eligible])
  }

  lemma {:induction false} NoHistory(history: seq<HistoryRow>, p: Id)
    requires forall i :: 0 <= i < |history| ==> history[i].pollId != p
    ensures HistoryOf(history, p) == []
  {
    if history != [] {
      NoHistory(history[..|history| - 1], p);
    }
  }

  lemma OpenedLoads(t: Tables, s: PollState, operationKey: string)
    requires Coherent(t) && s == Initial(s.definition) && s.definition.pollId !in t.polls
    ensures Load(Opened(t, s, operationKey), s.definition.pollId) == s
    ensures forall p :: p in t.polls ==> Load(Opened(t, s, operationKey), p) == Load(t, p)
  {
    NoHistory(t.history, s.definition.pollId);
    assert Ascending({}) == [];
  }

  lemma OpenedCoherent(t: Tables, s: PollState, operationKey: string)
    requires Coherent(t) && !Conflicts(t, s.definition, operationKey)
    ensures Coherent(Opened(t, s, operationKey))
  {
    var u, id, row := Opened(t, s, operationKey), s.definition.pollId, NewRow(s, operationKey);
    forall p, q | p in u.polls && q in u.polls && p != q
      ensures !SameSubject(u.polls[p], u.polls[q]) && !SameOperation(u.polls[p], u.polls[q])
    {
      var k := if p == id then q else p;
      if p != id && q != id {
        assert !SameSubject(t.polls[p], t.polls[q]) && !SameOperation(t.polls[p], t.polls[q]);
      } else {
        assert !HasOperation(t.polls[k], row.houseId, operationKey);
        assert !SameSubject(t.polls[k], NewRow(Initial(s.definition), ""));
      }
    }
  }

  lemma OpenIsStored(t: Tables, inbox: Inbox, s: PollState, operationKey: string)
    requires Consistent(t, inbox) && s == Initial(s.definition) && s.definition.Valid()
    requires !Conflicts(t, s.definition, operationKey)
    ensures
      var u := Opened(t, s, operationKey);
      && Consistent(u, inbox) && Load(u, s.definition.pollId) == s && u.polls.Keys == t.polls.Keys + {s.definition.pollId}
      && forall p :: p in t.polls ==> Load(u, p) == Load(t, p)
  {
    hide Inv, Load, Coherent;
    InitialInv(s.definition);
    OpenedLoads(t, s, operationKey);
    OpenedCoherent(t, s, operationKey);
    var u := Opened(t, s, operationKey);
    forall p | p in u.polls ensures Inv(Load(u, p)) {
      assert p in t.polls ==> Load(u, p) == Load(t, p);
    }
  }

  // ---------------------------------------------------------------- storing transitions

  lemma TransitionIsStored(t: Tables, pollId: Id, s: PollState, c: PollCommand)
    requires Valid(t) && pollId in t.polls && !c.Vote? && s == Step(Load(t, pollId), c).state
    ensures Valid(WithRow(t, pollId, s)) && Load(WithRow(t, pollId, s), pollId) == s
    ensures OnlyChanges(t, WithRow(t, pollId, s), pollId)
  {
    hide Inv, Load, Coherent, FinalOutcome;
    LoadedInv(t, pollId);
    StepKeepsInv(Load(t, pollId), c);
    RowLoads(t, pollId, s);
    RowCoherent(t, pollId, s);
    InvEverywhere(t, WithRow(t, pollId, s), pollId);
  }

  lemma DeadlineAnnounced(t: Tables, inbox: Inbox, pollId: Id, s: PollState, id: Id, row: InboxRow)
    requires Announced(t, inbox) && id !in inbox && pollId in t.polls
    requires t.polls[pollId].status.Open? && !t.polls[pollId].thresholdEmitted
    requires s.status.Closed? && !s.thresholdEmitted
    requires row.source == Domain && row.sourceKey == OfPoll(pollId, PollExpired)
    ensures Announced(WithRow(t, pollId, s), Saved(inbox, id, row))
  {
    AnnounceKeeps(t, WithRow(t, pollId, s), inbox, pollId, PollExpired, id, row);
  }

  lemma CancelUnannounced(t: Tables, inbox: Inbox, pollId: Id)
    requires Valid(t) && Announced(t, inbox) && pollId in t.polls && t.polls[pollId].status.Open?
    ensures Announced(WithRow(t, pollId, Cancel(Load(t, pollId)).state), inbox)
  {
    hide OrderedAnswers, HistoryOf, DefinitionOf, Coherent, PollTables.Valid, Announced;
    QuietKeeps(t, WithRow(t, pollId, Cancel(Load(t, pollId)).state), inbox, pollId);
  }

  lemma StepInv(s: PollState, actor: Id, choice: VoteChoice, sourceEvent: Id, receivedAt: Time)
    requires Inv(s)
    ensures Inv(RecordAnswer(s, actor, choice, sourceEvent, receivedAt).state)
  {
    StepKeepsInv(s, Vote(actor, choice, sourceEvent, receivedAt));
  }

  lemma ThresholdAnnounced(
      t: Tables, inbox: Inbox, pollId: Id, m: PollMutation, answer: PollAnswer, id: Id, row: InboxRow)
    requires Announced(t, inbox) && id !in inbox && pollId in t.polls
    requires Counted(Load(t, pollId), m, answer) && m.state.thresholdEmitted
    requires row == PollEventRow(m.state, PollThresholdReached, answer.sourceEvent, answer.receivedAt)
    ensures Announced(VoteStored(t, pollId, m.state, answer), Saved(inbox, id, row))
  {
    AnnounceKeeps(t, VoteStored(t, pollId, m.state, answer), inbox, pollId, PollThresholdReached, id, row);
  }

  lemma VoteUnannounced(t: Tables, inbox: Inbox, pollId: Id, m: PollMutation, answer: PollAnswer)
    requires Announced(t, inbox) && pollId in t.polls
    requires Counted(Load(t, pollId), m, answer) && !m.state.thresholdEmitted
    ensures Announced(VoteStored(t, pollId, m.state, answer), inbox)
  {
    QuietKeeps(t, VoteStored(t, pollId, m.state, answer), inbox, pollId);
  }

  lemma LoadedInv(t: Tables, pollId: Id)
    requires Valid(t) && pollId in t.polls
    ensures Inv(Load(t, pollId)) && Coherent(t)
    ensures Linked(DefinitionOf(t, pollId), HistoryOf(t.history, pollId))
    ensures Load(t, pollId).history == HistoryOf(t.history, pollId)
    ensures Load(t, pollId).status.Open? ==> !Load(t, pollId).thresholdEmitted
  {
  }

  lemma CountedIsStored(t: Tables, pollId: Id, m: PollMutation, answer: PollAnswer)
    requires Valid(t) && pollId in t.polls && Inv(m.state)
    requires Counted(Load(t, pollId), m, answer)
    ensures !RevisionTaken(t, pollId, answer.resident, answer.revision)
    ensures
      !SourceEventTaken(t, answer.sourceEvent) ==>
        var u := VoteStored(t, pollId, m.state, answer);
        Valid(u) && Load(u, pollId) == m.state && OnlyChanges(t, u, pollId)
  {
    hide Inv, Coherent, Load, WithAnswer, FindAnswer, Linked, CountOf;
    LoadedInv(t, pollId);
    RevisionIsFree(t, pollId, answer.resident);
    if !SourceEventTaken(t, answer.sourceEvent) {
      VoteLoads(t, pollId, m.state, answer);
      VoteCoherent(t, pollId, m.state, answer);
      InvEverywhere(t, VoteStored(t, pollId, m.state, answer), pollId);
    }
  }
}
