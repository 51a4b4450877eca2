/** Initiative transactions over the shared session: revision log, poll replacement, decision. */
module InitiativeStore {
  import opened Basics
  import opened Polls
  import opened PollRuns
  import opened CaseRows
  import opened InboxRows
  import opened OutboxRows
  import opened PollTables
  import opened InitiativeRows
  import opened InitiativeRuns
  import opened Database
  import opened PollStore
  import opened DeliveryQueue

  function States(t: Tables): map<Id, PollState> {
    map p | p in t.polls :: Load(t, p)
  }

  function WorldOf(t: Tables, files: map<Id, CaseFile>, book: Book): World {
    World(States(t), files, book)
  }

  function PollKey(key: string): string {
    "initiative:poll:" + key
  }

  // open_once would store this poll.
  predicate CanOpen(audiences: map<Id, Audience>, t: Tables, d: PollDefinition, targets: seq<Id>, pollKey: string) {
    pollKey != "" && |pollKey| <= MAX_OPERATION_KEY && AudienceMatches(audiences, d, targets) && !Conflicts(t, d, pollKey)
  }

  function RevisedEvent(s: InitiativeState): InboxRow
    requires s.revisions != []
  {
    DomainRow(OfRevision(s.caseId, s.Current().revision), InitiativeDetected, s.houseId,
              Entity(s.caseId, s.caseVersion, Some(s.caseId), None), s.Current().createdAt)
  }

  /** Every key of an initiative gives its poll a key of its own that open_once accepts. */
  lemma PollKeySays(key: string, other: string)
    ensures "initiative:poll:" <= PollKey(key) && |PollKey(key)| == 16 + |key|
    ensures PollKey(key) == PollKey(other) <==> key == other
    ensures ValidKey(key) ==> PollKey(key) != "" && |PollKey(key)| <= MAX_OPERATION_KEY
  {
    assert PollKey(key)[16..] == key && PollKey(other)[16..] == other;
  }

  /** A revision is announced once, for the case at the version it gives it. */
  lemma RevisedEventSays(s: InitiativeState)
    requires s.revisions != []
    ensures
      var event, r := RevisedEvent(s), s.revisions[|s.revisions| - 1];
      && event.source.Domain? && event.sourceKey == OfRevision(s.caseId, r.revision)
      && event.name == Some(InitiativeDetected) && event.houseId == Some(s.houseId)
      && event.entity == Some(Entity(s.caseId, s.caseVersion, Some(s.caseId), None))
      && event.receivedAt == r.createdAt
  {
  }

  // The case of the decision becomes ready for a request if it is supported and not supported otherwise, one version on
  // and logged once under the poll; no other case changes, and the decision is stored under its key.
  predicate IsDecided(before: World, after: World, d: Decision, key: string) {
    && HasCase(before, d.caseId, d.houseId) && after.polls == before.polls
    && OtherCasesKept(before.files, after.files, d.houseId, d.caseId)
    && CaseDecided(before.files[d.houseId].cases[d.caseId], after.files[d.houseId].cases[d.caseId], d.outcome)
    && LoggedOnce(before.files[d.houseId], after.files[d.houseId], d.caseId, InitiativeDecided, Drawn(d.pollId))
    && d.pollId in after.book.decisions && after.book.decisions[d.pollId] == DecisionRow(d, key)
    && after.book == before.book.(decisions := before.book.decisions[d.pollId := DecisionRow(d, key)])
  }

  // What turning a poll into a decision comes to: an error, the decision stored before, or a new one.
  ghost predicate FinalizesPosition(
      w: World, u: World, state: InitiativeState, poll: PollState, now: Time, key: string, clash: bool,
      r: Result<Decision, InitiativeError>)
    requires state.revisions != []
  {
    var position := Position(state, poll, now);
    if position.Err? then r == Err(position.error)
    else
      match CheckDecide(w, position.value, key)
      case Refuse(e) => r == Err(e)
      case Replay(d) => r == Ok(d)
      case Proceed =>
        if clash then r == Err(NoticeRefused)
        else
          && r == position && PollsOk(w) && IsDecided(w, u, position.value, key)
          && (Seen(w.book, state) ==> u == Apply(w, Decide(state, poll, now, key)))
  }

  // The text differs between the two outcomes; its wording is not modelled.
  function Notice(decision: Decision, chat: string): DeliveryIntent {
    DeliveryIntent(decision.houseId, DecisionNotice(decision.pollId),
                   if decision.outcome.Supported? then "supported" else "not supported", None, Some(chat), None, None, [])
  }

  // The outbox with the notice: one row more, unless the very notice is there already.
  function Told(outbox: Outbox, decision: Decision, chat: Option<string>, now: Time, noticeId: Id): Outbox {
    if chat.None? || HasDelivery(outbox, decision.houseId, DecisionNotice(decision.pollId)) then outbox
    else outbox[noticeId := NewDelivery(Notice(decision, chat.value), now)]
  }

  // ---------------------------------------------------------------- tables and worlds

  lemma WorldHasPolls(t: Tables, files: map<Id, CaseFile>, book: Book)
    requires PollTables.Valid(t)
    ensures PollsOk(WorldOf(t, files, book))
  {
  }

  lemma StatesAfterChange(t: Tables, u: Tables, p: Id)
    requires OnlyChanges(t, u, p) && p in t.polls
    ensures States(u) == States(t)[p := Load(u, p)]
  {
    hide Load;
  }

  lemma StatesAfterOpen(t: Tables, u: Tables, p: Id)
    requires u.polls.Keys == t.polls.Keys + {p} && forall q :: q in t.polls && q != p ==> Load(u, q) == Load(t, q)
    ensures States(u) == States(t)[p := Load(u, p)]
  {
    hide Load;
    assert p in u.polls.Keys;
  }

  /** Cancelling a poll changes nothing that opening another one is checked against. */
  lemma ConflictsAfterCancel(t: Tables, p: Id, s: PollState, d: PollDefinition, key: string)
    requires p in t.polls
    ensures Conflicts(WithRow(t, p, s), d, key) <==> Conflicts(t, d, key)
  {
    var u := WithRow(t, p, s);
    forall q | q in t.polls
      ensures HasOperation(u.polls[q], d.houseId, key) <==> HasOperation(t.polls[q], d.houseId, key)
      ensures SameSubject(u.polls[q], NewRow(Initial(d), "")) <==> SameSubject(t.polls[q], NewRow(Initial(d), ""))
    {
    }
    if KeyUsed(t, d.houseId, key) {
      var q :| q in t.polls && HasOperation(t.polls[q], d.houseId, key);
      assert q in u.polls;
    }
    if SubjectUsed(t, d) {
      var q :| q in t.polls && SameSubject(t.polls[q], NewRow(Initial(d), ""));
      assert q in u.polls;
    }
  }

  lemma RevisionEventKeeps(t: Tables, inbox: Inbox, id: Id, s: InitiativeState)
    requires Consistent(t, inbox) && id !in inbox && s.revisions != []
    ensures Consistent(t, Saved(inbox, id, RevisedEvent(s)))
  {
    hide PollTables.Valid;
    var row := RevisedEvent(s);
    forall p, n ensures HasKey(Saved(inbox, id, row), Domain, OfPoll(p, n)) <==> HasKey(inbox, Domain, OfPoll(p, n)) {
      KeyAfterSave(inbox, id, row, Domain, OfPoll(p, n));
    }
  }

  class InitiativeRepository {
    const session: Session

    constructor (session: Session)
      ensures this.session == session
    {
      this.session := session;
    }

    /** The first revision of an initiative, opened with its poll; a known key replays its result. */
    method CreateAndOpen(state: InitiativeState, poll: PollState, targets: seq<Id>, key: string)
      returns (r: Result<InitiativeState, InitiativeError>)
      requires Consistent(session.polls, session.inbox)
      requires Prepared(state, poll) && |state.revisions| == 1 && poll.definition.pollId !in session.polls.polls
      modifies session`polls, session`initiatives
      ensures Consistent(session.polls, session.inbox)
      ensures
        var w := old(WorldOf(session.polls, session.files, session.initiatives));
        var opens := CanOpen(session.audiences, old(session.polls), poll.definition, targets, PollKey(key));
        match CheckCreate(w, state, key)
        case Refuse(e) => r == Err(e)
        case Replay(s) => r == Ok(s)
        case Proceed =>
          if !opens then r == Err(PollRefused)
          else if !ValidKey(key) then r == Err(InitiativeError.InvalidOperationKey)
          else if LogRefuses(w.book, state) then r == Err(InitiativeError.UniqueViolation)
          else
            && r == Ok(state) && CanCreate(w, Create(state, poll, key)) && PollsOk(w)
            && WorldOf(session.polls, session.files, session.initiatives) == Apply(w, Create(state, poll, key))
      ensures
        r.Err? || CheckCreate(old(WorldOf(session.polls, session.files, session.initiatives)), state, key).Replay? ==>
          session.polls == old(session.polls) && session.initiatives == old(session.initiatives)
    {
      hide Inv, Load, Coherent, PollTables.Valid, Announced, Conflicts, AudienceMatches, CheckCreate, LogRefuses, Prepared,
           WithRevision, PollsOk, Opened;
      var t, w := session.polls, WorldOf(session.polls, session.files, session.initiatives);
      var verdict := CheckCreate(w, state, key);
      if verdict.Refuse? {
        return Err(verdict.error);
      }
      if verdict.Replay? {
        return Ok(verdict.result);
      }
      PreparedPoll(state, poll);
      var polls := new PollRepository(session);
      var stored := polls.OpenOnce(poll, targets, PollKey(key));
      if stored.Err? || poll.definition.pollId !in session.polls.polls {
        session.polls := t;
        return Err(PollRefused);
      }
      if !ValidKey(key) {
        session.polls := t;
        return Err(InitiativeError.InvalidOperationKey);
      }
      if LogRefuses(session.initiatives, state) {
        session.polls := t;
        return Err(InitiativeError.UniqueViolation);
      }
      StatesAfterOpen(t, session.polls, poll.definition.pollId);
      WorldHasPolls(t, session.files, session.initiatives);
      session.initiatives := WithRevision(session.initiatives, state, key);
      return Ok(state);
    }

    /**
     * Replaces the current revision and its poll: the old poll is cancelled with its buttons and invitations,
     * the new one opened, the log, the case and the initiative moved on, all or nothing.
     */
    method ReviseAndReplacePoll(
        previous: InitiativeState, updated: InitiativeState, poll: PollState, targets: seq<Id>, key: string,
        newEventId: Id)
      returns (r: Result<InitiativeState, InitiativeError>)
      requires Consistent(session.polls, session.inbox) && newEventId !in session.inbox
      requires Follows(previous, updated) && Prepared(updated, poll)
      requires poll.definition.pollId !in session.polls.polls
      modifies session`polls, session`actions, session`outbox, session`inbox, session`files, session`initiatives
      ensures Consistent(session.polls, session.inbox)
      ensures
        var w := old(WorldOf(session.polls, session.files, session.initiatives));
        var t, was, house := old(session.polls), previous.Current().pollId, updated.houseId;
        match CheckRevise(w, previous, updated, key)
        case Refuse(e) => r == Err(e)
        case Replay(s) => r == Ok(s)
        case Proceed =>
          if !Visible(t, was, house) || !CanOpen(session.audiences, t, poll.definition, targets, PollKey(key)) then
            r == Err(PollRefused)
          else if !ValidKey(key) then r == Err(InitiativeError.InvalidOperationKey)
          else if LogRefuses(w.book, updated) || EventTaken(w, house, key) then r == Err(InitiativeError.UniqueViolation)
          else
            var m := InitiativeRuns.Revise(previous, updated, poll, key);
            && r == Ok(updated) && CanRevise(w, m) && PollsOk(w)
            && WorldOf(session.polls, session.files, session.initiatives) == Apply(w, m)
            && session.inbox == Saved(old(session.inbox), newEventId, RevisedEvent(updated))
            && session.actions == (if w.polls[was].status.Open? then Revoked(old(session.actions), was, house)
                                   else old(session.actions))
            && session.outbox == (if w.polls[was].status.Open? then Withdrawn(old(session.outbox), house, was)
                                  else old(session.outbox))
      ensures
        || r.Err?
        || CheckRevise(old(WorldOf(session.polls, session.files, session.initiatives)), previous, updated, key).Replay?
        ==>
          && session.polls == old(session.polls) && session.initiatives == old(session.initiatives)
          && session.files == old(session.files) && session.inbox == old(session.inbox)
          && session.actions == old(session.actions) && session.outbox == old(session.outbox)
    {
      hide Inv, Load, Coherent, PollTables.Valid, Announced, CanOpen, LogRefuses, Prepared, WithRevision, PollsOk, Revoked,
           Withdrawn, Saved, CheckRevise, RevisedEvent, Follows, EventTaken, States, CanRevise, Apply;
      var t, actions, outbox := session.polls, session.actions, session.outbox;
      var w := WorldOf(session.polls, session.files, session.initiatives);
      PreparedPoll(updated, poll);
      FollowsValid(previous, updated);
      var verdict := CheckRevise(w, previous, updated, key);
      if verdict.Refuse? {
        return Err(verdict.error);
      }
      if verdict.Replay? {
        return Ok(verdict.result);
      }
      CheckedCase(w, previous, updated, key);
      var replaced := ReplacePoll(previous.Current().pollId, updated.houseId, poll, targets, PollKey(key));
      if !replaced {
        return Err(PollRefused);
      }
      if !ValidKey(key) {
        session.polls, session.actions, session.outbox := t, actions, outbox;
        return Err(InitiativeError.InvalidOperationKey);
      }
      if LogRefuses(session.initiatives, updated) || EventTaken(w, updated.houseId, key) {
        session.polls, session.actions, session.outbox := t, actions, outbox;
        return Err(InitiativeError.UniqueViolation);
      }
      RevisionIsStored(t, w, previous, updated, poll, key);
      var file := session.files[updated.houseId];
      var row := file.cases[updated.caseId].(description := updated.Current().wording, version := updated.caseVersion);
      session.files := session.files[updated.houseId :=
        CaseAfter(file, updated.caseId, row, InitiativeRevised, Derived(key))];
      session.initiatives := WithRevision(session.initiatives, updated, key);
      RevisionEventKeeps(session.polls, session.inbox, newEventId, updated);
      session.inbox := Saved(session.inbox, newEventId, RevisedEvent(updated));
      return Ok(updated);
    }

    /** Cancels one poll and opens the next, or leaves everything as it was. */
    method ReplacePoll(was: Id, houseId: Id, poll: PollState, targets: seq<Id>, pollKey: string) returns (ok: bool)
      requires Consistent(session.polls, session.inbox)
      requires poll == Initial(poll.definition) && poll.definition.Valid()
      requires poll.definition.pollId !in session.polls.polls
      modifies session`polls, session`actions, session`outbox
      ensures Consistent(session.polls, session.inbox)
      ensures ok <==> Visible(old(session.polls), was, houseId)
                      && CanOpen(session.audiences, old(session.polls), poll.definition, targets, pollKey)
      ensures !ok ==>
        && session.polls == old(session.polls) && session.actions == old(session.actions)
        && session.outbox == old(session.outbox)
      ensures ok ==>
        var states := old(States(session.polls));
        && was in states
        && States(session.polls) == states[was := Cancel(states[was]).state][poll.definition.pollId := poll]
        && session.actions == (if states[was].status.Open? then Revoked(old(session.actions), was, houseId)
                               else old(session.actions))
        && session.outbox == (if states[was].status.Open? then Withdrawn(old(session.outbox), houseId, was)
                              else old(session.outbox))
    {
      hide Inv, Load, Coherent, PollTables.Valid, Announced, Conflicts, AudienceMatches, Opened, Revoked, Withdrawn,
           WithRow;
      var t, actions, outbox := session.polls, session.actions, session.outbox;
      var polls := new PollRepository(session);
      var cancelled := polls.CancelAtomic(was, houseId);
      if cancelled.Err? {
        return false;
      }
      ghost var between := session.polls;
      CancelChecks(t, between, was, cancelled.value, poll.definition, pollKey);
      var stored := polls.OpenOnce(poll, targets, pollKey);
      if stored.Err? || poll.definition.pollId !in session.polls.polls {
        session.polls, session.actions, session.outbox := t, actions, outbox;
        return false;
      }
      StatesAfterChange(t, between, was);
      StatesAfterOpen(between, session.polls, poll.definition.pollId);
      return true;
    }

    /**
     * Saves a decision once, with the notice to the house chat if the house has one; the same decision again returns
     * the stored one and tells nobody.
     */
    method SaveDecisionOnce(decision: Decision, key: string, chat: Option<string>, now: Time, noticeId: Id)
      returns (r: Result<Decision, InitiativeError>)
      requires UniqueDeliveries(session.outbox) && noticeId !in session.outbox
      requires chat.Some? ==> chat.value in session.houseChats && session.houseChats[chat.value] == decision.houseId
      modifies session`files, session`initiatives, session`outbox
      ensures UniqueDeliveries(session.outbox)
      ensures
        var w := old(WorldOf(session.polls, session.files, session.initiatives));
        match CheckDecide(w, decision, key)
        case Refuse(e) => r == Err(e)
        case Replay(d) => r == Ok(d)
        case Proceed =>
          if chat.Some? && KeyClash(old(session.outbox), Notice(decision, chat.value)) then r == Err(NoticeRefused)
          else
            && r == Ok(decision)
            && WorldOf(session.polls, session.files, session.initiatives) == Decided(w, decision, key)
            && IsDecided(w, WorldOf(session.polls, session.files, session.initiatives), decision, key)
            && session.outbox == Told(old(session.outbox), decision, chat, now, noticeId)
      ensures
        || r.Err? || CheckDecide(old(WorldOf(session.polls, session.files, session.initiatives)), decision, key).Replay?
        ==>
          && session.files == old(session.files) && session.initiatives == old(session.initiatives)
          && session.outbox == old(session.outbox)
    {
      hide States, OperationApplied, PollStands, UniqueDeliveries, HasDelivery, KeyClash;
      var w := WorldOf(session.polls, session.files, session.initiatives);
      var verdict := CheckDecide(w, decision, key);
      if verdict.Refuse? {
        return Err(verdict.error);
      }
      if verdict.Replay? {
        return Ok(verdict.result);
      }
      var told := Tell(decision, chat, now, noticeId);
      if !told {
        return Err(NoticeRefused);
      }
      var file := session.files[decision.houseId];
      var before := file.cases[decision.caseId];
      var status := if decision.outcome.Supported? then CaseStatus.RequestReady else CaseStatus.NotSupported;
      var row := before.(version := before.version + 1, status := status);
      session.files := session.files[decision.houseId :=
        CaseAfter(file, decision.caseId, row, InitiativeDecided, Drawn(decision.pollId))];
      session.initiatives := session.initiatives.(
        decisions := session.initiatives.decisions[decision.pollId := DecisionRow(decision, key)]);
      DecidedSays(w, decision, key);
      hide OtherCasesKept, CaseDecided, LoggedOnce;
      return Ok(decision);
    }

    method Tell(decision: Decision, chat: Option<string>, now: Time, noticeId: Id) returns (ok: bool)
      requires UniqueDeliveries(session.outbox) && noticeId !in session.outbox
      requires chat.Some? ==> chat.value in session.houseChats && session.houseChats[chat.value] == decision.houseId
      modifies session`outbox
      ensures UniqueDeliveries(session.outbox)
      ensures ok <==> chat.None? || !KeyClash(old(session.outbox), Notice(decision, chat.value))
      ensures session.outbox ==
              if ok then Told(old(session.outbox), decision, chat, now, noticeId) else old(session.outbox)
    {
      if chat.None? {
        return true;
      }
      var notice, before := Notice(decision, chat.value), session.outbox;
      var queue := new PostgresDeliveryQueue(session);
      var r := queue.Enqueue(notice, now, noticeId);
      EnqueuedOnce(before, session.outbox, notice, noticeId, r, now);
      return r.Ok?;
    }

    /** Turns a finalized poll of the current revision into the decision that is saved. */
    method FinalizePosition(
        state: InitiativeState, poll: PollState, now: Time, key: string, chat: Option<string>, noticeId: Id)
      returns (r: Result<Decision, InitiativeError>)
      requires PollTables.Valid(session.polls) && UniqueDeliveries(session.outbox) && noticeId !in session.outbox
      requires state.revisions != []
      requires chat.Some? ==> chat.value in session.houseChats && session.houseChats[chat.value] == state.houseId
      modifies session`files, session`initiatives, session`outbox
      ensures UniqueDeliveries(session.outbox)
      ensures FinalizesPosition(
                old(WorldOf(session.polls, session.files, session.initiatives)),
                WorldOf(session.polls, session.files, session.initiatives), state, poll, now, key,
                chat.Some? && Position(state, poll, now).Ok?
                && KeyClash(old(session.outbox), Notice(Position(state, poll, now).value, chat.value)), r)
      ensures r.Ok? && session.initiatives != old(session.initiatives) && Position(state, poll, now).Ok? ==>
        session.outbox == Told(old(session.outbox), Position(state, poll, now).value, chat, now, noticeId)
      ensures
        var w, position := old(WorldOf(session.polls, session.files, session.initiatives)), Position(state, poll, now);
        r.Err? || (position.Ok? && CheckDecide(w, position.value, key).Replay?) ==>
          && session.files == old(session.files) && session.initiatives == old(session.initiatives)
          && session.outbox == old(session.outbox)
    {
      hide States, OperationApplied, PollStands, Position, CheckDecide, Decided, PollTables.Valid, PollsOk, Told,
           UniqueDeliveries, KeyClash, Notice, IsDecided;
      WorldHasPolls(session.polls, session.files, session.initiatives);
      PositionSays(state, poll, now);
      var position := Position(state, poll, now);
      if position.Err? {
        return Err(position.error);
      }
      r := SaveDecisionOnce(position.value, key, chat, now, noticeId);
    }
  }

  /** The notice goes to the house chat as a new message, once per poll, and tells the two outcomes apart. */
  lemma NoticeSays(d: Decision, other: Decision, chat: string, outbox: Outbox, now: Time, noticeId: Id)
    ensures
      var notice := Notice(d, chat);
      && notice.houseId == d.houseId && notice.chat == Some(chat) && notice.recipient.None?
      && notice.editKey.None? && notice.fileKey.None? && notice.buttons == [] && notice.text != ""
      && (notice.operationKey == Notice(other, chat).operationKey <==> d.pollId == other.pollId)
      && (notice.text == "supported" <==> d.outcome.Supported?)
      && (notice.text == Notice(other, chat).text <==> (d.outcome.Supported? <==> other.outcome.Supported?))
    ensures noticeId !in outbox ==>
      var after := Told(outbox, d, Some(chat), now, noticeId);
      && (forall id :: id in outbox ==> id in after && after[id] == outbox[id])
      && HasDelivery(after, d.houseId, DecisionNotice(d.pollId))
      && (HasDelivery(outbox, d.houseId, DecisionNotice(d.pollId)) ==> after == outbox)
    ensures Told(outbox, d, None, now, noticeId) == outbox
  {
    if noticeId !in outbox && !HasDelivery(outbox, d.houseId, DecisionNotice(d.pollId)) {
      var after := Told(outbox, d, Some(chat), now, noticeId);
      assert IsKeyed(after[noticeId], d.houseId, DecisionNotice(d.pollId));
    }
  }

  lemma PreparedPoll(s: InitiativeState, poll: PollState)
    requires Prepared(s, poll)
    ensures poll == Initial(poll.definition) && poll.definition.Valid()
  {
  }

  lemma FollowsValid(previous: InitiativeState, updated: InitiativeState)
    requires Follows(previous, updated)
    ensures previous.Valid() && updated.Valid()
  {
  }

  lemma CheckedCase(w: World, previous: InitiativeState, updated: InitiativeState, key: string)
    requires previous.revisions != [] && CheckRevise(w, previous, updated, key) == Proceed
    ensures HasCase(w, updated.caseId, updated.houseId)
  {
    hide OperationResult, Cut;
  }

  /** What the cancellation leaves for the opening of the next poll. */
  lemma CancelChecks(t: Tables, u: Tables, was: Id, m: PollMutation, d: PollDefinition, key: string)
    requires was in t.polls && m == Cancel(Load(t, was))
    requires u == if m.events == [PollCancelled] then WithRow(t, was, m.state) else t
    ensures u.polls.Keys == t.polls.Keys
    ensures Conflicts(u, d, key) <==> Conflicts(t, d, key)
    ensures m.events == [PollCancelled] <==> Load(t, was).status.Open?
  {
    hide Load, Conflicts;
    ConflictsAfterCancel(t, was, m.state, d, key);
  }

  lemma RevisionIsStored(
      t: Tables, w: World, previous: InitiativeState, updated: InitiativeState, poll: PollState, key: string)
    requires PollTables.Valid(t) && w == WorldOf(t, w.files, w.book) && poll.definition.pollId !in t.polls
    requires previous.revisions != [] && previous.Current().pollId in w.polls
    requires Follows(previous, updated) && Prepared(updated, poll)
    requires CheckRevise(w, previous, updated, key) == Proceed && ValidKey(key)
    requires !LogRefuses(w.book, updated) && !EventTaken(w, updated.houseId, key)
    ensures HasCase(w, updated.caseId, updated.houseId) && PollsOk(w)
    ensures
      var m := InitiativeRuns.Revise(previous, updated, poll, key);
      && CanRevise(w, m) && Apply(w, m) == Revised(w, previous, updated, poll, key)
  {
    hide Inv, LogRefuses, EventTaken, Prepared, Cut, OperationResult, Cancel, PollTables.Valid, Load, PollsOk;
    WorldHasPolls(t, w.files, w.book);
  }
}
