/** A pressed button: the stored action its token denotes, the checks before the vote, and the vote. */
module PollCallbacks {
  import opened Basics
  import opened Polls
  import opened PollAnswers
  import opened PollRuns
  import opened InboxRows
  import opened PollTables
  import opened Database
  import opened PollStore

  datatype CallbackStatus = Recorded | Changed | Duplicate | Late | Closed | Stale | NotAllowed | UnknownAction

  datatype CallbackOutcome = CallbackOutcome(status: CallbackStatus, pollId: Option<Id>, pollVersion: Option<int>)

  datatype CallbackInput = CallbackInput(token: Id, sourceEvent: Id, receivedAt: Time)

  // What the checks make of a press: an answer at once, or the action to vote by.
  datatype Screening = Answers(outcome: CallbackOutcome) | Votes(action: PollAction)

  function Screen(t: Tables, actions: map<Id, PollAction>, c: CallbackInput, houseId: Id, actor: Id): Screening {
    if c.token !in actions then Answers(CallbackOutcome(UnknownAction, None, None))
    else
      var a := actions[c.token];
      if a.houseId != houseId then Answers(CallbackOutcome(NotAllowed, None, None))
      else if a.boundResident.Some? && a.boundResident != Some(actor) then
        Answers(CallbackOutcome(NotAllowed, None, None))
      else if a.revoked then Answers(CallbackOutcome(Stale, Some(a.pollId), None))
      else if c.receivedAt >= a.expiresAt then Answers(CallbackOutcome(CallbackStatus.Late, Some(a.pollId), None))
      else if !Visible(t, a.pollId, houseId) then Answers(CallbackOutcome(Stale, Some(a.pollId), None))
      else
        var d := DefinitionOf(t, a.pollId);
        if d.audienceId != a.audienceId || d.subjectRevision != a.subjectRevision then
          Answers(CallbackOutcome(Stale, Some(a.pollId), None))
        else if actor !in d.eligible then Answers(CallbackOutcome(NotAllowed, Some(a.pollId), None))
        else Votes(a)
  }

  // The button was made for a resident of this house, and for this one if it is bound.
  predicate IsFor(a: PollAction, houseId: Id, actor: Id) {
    a.houseId == houseId && (a.boundResident.None? || a.boundResident.value == actor)
  }

  // Its poll is there, asks about the same revision and the same audience.
  predicate InPlace(t: Tables, a: PollAction, houseId: Id) {
    && a.pollId in t.polls && t.polls[a.pollId].houseId == houseId
    && t.polls[a.pollId].audienceId == a.audienceId && t.polls[a.pollId].subjectRevision == a.subjectRevision
  }

  // The poll took this very choice from this very resident, or was left as it was.
  predicate ChoiceCast(
      before: PollState, after: PollState, choice: VoteChoice, c: CallbackInput, actor: Id, status: CallbackStatus)
  {
    && before.Valid()
    && after == RecordAnswer(before, actor, choice, c.sourceEvent, c.receivedAt).state
    && (if status.Recorded? || status.Changed? then CurrentChoice(after.answers, actor) == Some(choice)
        else after == before)
    && (status.Recorded? <==> after != before && CurrentChoice(before.answers, actor).None?)
    && (status.Changed? <==> after != before && CurrentChoice(before.answers, actor).Some?)
    && (status.Duplicate? <==>
          || c.sourceEvent in before.processed
          || (InTime(before, c.receivedAt) && before.status.Open?
              && CurrentChoice(before.answers, actor) == Some(choice)))
    && (status.Late? <==> c.sourceEvent !in before.processed && !InTime(before, c.receivedAt))
    && (status.Closed? <==> c.sourceEvent !in before.processed && InTime(before, c.receivedAt) && !before.status.Open?)
    && (forall r <- before.definition.eligible :: r != actor ==>
          CurrentChoice(after.answers, r) == CurrentChoice(before.answers, r))
  }

  function StatusOf(status: AnswerStatus): CallbackStatus {
    match status
    case Recorded => CallbackStatus.Recorded
    case Changed => CallbackStatus.Changed
    case Duplicate => CallbackStatus.Duplicate
    case NotEligible => NotAllowed
    case Late => CallbackStatus.Late
    case AlreadyClosed => CallbackStatus.Closed
  }

  function OutcomeOf(pollId: Id, result: AnswerResult): CallbackOutcome {
    CallbackOutcome(StatusOf(result.status), Some(pollId), Some(result.pollVersion))
  }

  // ---------------------------------------------------------------- an event belongs to one poll

  // tokens says which token each stored press carries. Every counted event carries a token of its poll.
  ghost predicate Traced(t: Tables, actions: map<Id, PollAction>, tokens: map<Id, Id>) {
    forall p, e :: p in t.polls && e in Load(t, p).processed ==> Traces(actions, tokens, e, p)
  }

  predicate Traces(actions: map<Id, PollAction>, tokens: map<Id, Id>, event: Id, pollId: Id) {
    event in tokens && tokens[event] in actions && actions[tokens[event]].pollId == pollId
  }

  // Presses are added, actions are issued and revoked; none comes to mean another press or poll.
  predicate Extends(
      actions: map<Id, PollAction>, tokens: map<Id, Id>, moreActions: map<Id, PollAction>, moreTokens: map<Id, Id>)
  {
    && (forall e :: e in tokens ==> e in moreTokens && moreTokens[e] == tokens[e])
    && (forall k :: k in actions ==> k in moreActions && moreActions[k].pollId == actions[k].pollId)
  }

  /** Whatever adds presses, issues or revokes actions and counts no event keeps every event with its poll. */
  lemma OthersKeepTraced(
      t: Tables, u: Tables, actions: map<Id, PollAction>, tokens: map<Id, Id>, moreActions: map<Id, PollAction>,
      moreTokens: map<Id, Id>)
    requires Traced(t, actions, tokens) && Extends(actions, tokens, moreActions, moreTokens)
    requires forall p :: p in u.polls ==>
               Load(u, p).processed == if p in t.polls then Load(t, p).processed else {}
    ensures Traced(u, moreActions, moreTokens)
  {
    hide Load;
  }

  lemma RevocationExtends(actions: map<Id, PollAction>, tokens: map<Id, Id>, pollId: Id, houseId: Id)
    ensures Extends(actions, tokens, Revoked(actions, pollId, houseId), tokens)
  {
  }

  /** An event that counted anywhere counted in the poll of its token. */
  lemma TakenInOwnPoll(t: Tables, actions: map<Id, PollAction>, tokens: map<Id, Id>, event: Id, pollId: Id)
    requires PollTables.Valid(t) && Traced(t, actions, tokens) && pollId in t.polls
    requires Traces(actions, tokens, event, pollId) && SourceEventTaken(t, event)
    ensures event in Load(t, pollId).processed
  {
    var i :| 0 <= i < |t.history| && t.history[i].answer.sourceEvent == event;
    ProcessedIsTaken(t, t.history[i].pollId, event);
    hide Load;
    assert Traces(actions, tokens, event, t.history[i].pollId);
  }

  /** A vote processes at most its own event. */
  lemma VoteProcesses(s: PollState, actor: Id, choice: VoteChoice, event: Id, at: Time)
    requires s.Valid()
    ensures RecordAnswer(s, actor, choice, event, at).state.processed <= s.processed + {event}
    ensures event in s.processed ==> RecordAnswer(s, actor, choice, event, at).state == s
    ensures RecordAnswer(s, actor, choice, event, at).result.Some?
  {
  }

  lemma ChoiceIsCast(before: PollState, choice: VoteChoice, c: CallbackInput, actor: Id)
    requires before.Valid()
    ensures
      var m := RecordAnswer(before, actor, choice, c.sourceEvent, c.receivedAt);
      && m.result.Some?
      && m.result.value.pollVersion == m.state.version
      && (actor in before.definition.eligible ==>
            && ChoiceCast(before, m.state, choice, c, actor, StatusOf(m.result.value.status))
            && !StatusOf(m.result.value.status).NotAllowed?)
  {
    VoteIsAnswered(before, actor, choice, c.sourceEvent, c.receivedAt);
    hide RecordAnswer, CurrentChoice, PollState.Valid;
  }

  lemma LoadedAudience(t: Tables, pollId: Id)
    requires pollId in t.polls
    ensures Load(t, pollId).definition.eligible == MembersOf(t, pollId)
  {
  }

  lemma LoadedValid(t: Tables, pollId: Id)
    requires PollTables.Valid(t) && pollId in t.polls
    ensures Load(t, pollId).Valid()
  {
    hide Load;
  }

  lemma VoteKeepsTraced(
      t: Tables, u: Tables, actions: map<Id, PollAction>, tokens: map<Id, Id>, pollId: Id, event: Id)
    requires Traced(t, actions, tokens) && Traces(actions, tokens, event, pollId)
    requires pollId in t.polls && OnlyChanges(t, u, pollId)
    requires Load(u, pollId).processed <= Load(t, pollId).processed + {event}
    ensures Traced(u, actions, tokens)
  {
    hide Load;
    forall p, e | p in u.polls && e in Load(u, p).processed ensures Traces(actions, tokens, e, p) {
      assert p in t.polls && (p == pollId || Load(u, p) == Load(t, p));
    }
  }

  class PollCallbackHandler {
    const session: Session

    constructor (session: Session)
      ensures this.session == session
    {
      this.session := session;
    }

    /**
     * Answers a press by its stored action or lets it vote. The token of an event leads to one poll, so the store
     * never refuses the vote for an event that counted elsewhere: the handler does not fail.
     */
    method Handle(c: CallbackInput, houseId: Id, actor: Id, newEventId: Id, ghost tokens: map<Id, Id>)
      returns (r: Result<CallbackOutcome, StoreError>)
      requires Consistent(session.polls, session.inbox) && newEventId !in session.inbox
      requires Traced(session.polls, session.actions, tokens)
      requires c.sourceEvent in tokens && tokens[c.sourceEvent] == c.token
      modifies session`polls, session`inbox
      ensures Consistent(session.polls, session.inbox) && Traced(session.polls, session.actions, tokens)
      ensures r.Ok?
      ensures r.value.status.UnknownAction? <==> c.token !in session.actions
      ensures r.value.status.UnknownAction? ==>
        && r.value.pollId.None? && r.value.pollVersion.None?
        && session.polls == old(session.polls) && session.inbox == old(session.inbox)
      ensures c.token in session.actions ==>
        var t, a := old(session.polls), session.actions[c.token];
        var allowed := IsFor(a, houseId, actor);
        var current := !a.revoked && c.receivedAt < a.expiresAt && InPlace(t, a, houseId);
        && (r.value.status.NotAllowed? <==> !allowed || (current && actor !in MembersOf(t, a.pollId)))
        && (r.value.status.Stale? <==>
              allowed && (a.revoked || (c.receivedAt < a.expiresAt && !InPlace(t, a, houseId))))
        && (allowed && !a.revoked && c.receivedAt >= a.expiresAt ==> r.value.status.Late?)
        && if allowed && current && actor in MembersOf(t, a.pollId) then
             a.pollId in session.polls.polls
             && ChoiceCast(Load(t, a.pollId), Load(session.polls, a.pollId), a.choice, c, actor, r.value.status)
             && r.value.pollId == Some(a.pollId)
             && r.value.pollVersion == Some(Load(session.polls, a.pollId).version)
           else
             && session.polls == t && session.inbox == old(session.inbox)
             && r.value.pollId == (if allowed then Some(a.pollId) else None) && r.value.pollVersion.None?
      ensures
        var t := old(session.polls);
        match Screen(t, session.actions, c, houseId, actor)
        case Answers(o) => r.value == o && session.polls == t && session.inbox == old(session.inbox)
        case Votes(a) =>
          && a.pollId in t.polls && Load(t, a.pollId).Valid()
          && var m := RecordAnswer(Load(t, a.pollId), actor, a.choice, c.sourceEvent, c.receivedAt);
          && m.result.Some? && r.value == OutcomeOf(a.pollId, m.result.value)
          && a.pollId in session.polls.polls && Load(session.polls, a.pollId) == m.state
          && OnlyChanges(t, session.polls, a.pollId)
    {
      hide Load, PollTables.Valid, Announced, RecordAnswer, Traced, OnlyChanges, Saved, SourceEventTaken, PollState.Valid,
           ChoiceCast;
      var t := session.polls;
      var screening := Screen(t, session.actions, c, houseId, actor);
      if screening.Answers? {
        return Ok(screening.outcome);
      }
      var a := screening.action;
      LoadedValid(t, a.pollId);
      VoteProcesses(Load(t, a.pollId), actor, a.choice, c.sourceEvent, c.receivedAt);
      ChoiceIsCast(Load(t, a.pollId), a.choice, c, actor);
      LoadedAudience(t, a.pollId);
      if SourceEventTaken(t, c.sourceEvent) {
        TakenInOwnPoll(t, session.actions, tokens, c.sourceEvent, a.pollId);
      }
      var repository := new PollRepository(session);
      var voted :=
        repository.RecordAnswerAtomic(a.pollId, houseId, actor, a.choice, c.sourceEvent, c.receivedAt, newEventId);
      VoteKeepsTraced(t, session.polls, session.actions, tokens, a.pollId, c.sourceEvent);
      return Ok(OutcomeOf(a.pollId, voted.value.result.value));
    }
  }
}
