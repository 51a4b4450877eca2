/** The stored form of polls: one row per poll, its members, current answers and append-only history. */
module PollTables {
  import opened Basics
  import opened PollPolicies
  import opened Polls
  import opened PollRuns
  import opened InboxRows

  datatype PollRow = PollRow(
    caseId: Id,
    houseId: Id,
    audienceId: Id,
    operationKey: string,
    kind: PollKind,
    policy: PollPolicy,
    subjectRevision: int,
    opensAt: Time,
    closesAt: Time,
    status: PollStatus,
    version: int,
    outcome: Option<PollOutcome>,
    thresholdEmitted: bool)

  datatype HistoryRow = HistoryRow(pollId: Id, answer: PollAnswer)

  // The stored action behind a voting button; the button carries only an opaque token.
  datatype PollAction = PollAction(
    pollId: Id,
    houseId: Id,
    audienceId: Id,
    subjectRevision: int,
    choice: VoteChoice,
    expiresAt: Time,
    boundResident: Option<Id>,
    revoked: bool)

  function Revoked(actions: map<Id, PollAction>, pollId: Id, houseId: Id): map<Id, PollAction> {
    map token | token in actions ::
      if actions[token].pollId == pollId && actions[token].houseId == houseId
      then actions[token].(revoked := true) else actions[token]
  }

  /** Exactly the buttons of this poll in this house are revoked; nothing else of any button changes. */
  lemma RevokedSays(actions: map<Id, PollAction>, pollId: Id, houseId: Id)
    ensures
      var after := Revoked(actions, pollId, houseId);
      && after.Keys == actions.Keys
      && forall token :: token in actions ==>
           && after[token] == actions[token].(revoked := after[token].revoked)
           && (after[token].revoked <==>
                 actions[token].revoked || (actions[token].pollId == pollId && actions[token].houseId == houseId))
  {
  }

  // members and answers are keyed by poll and then by resident, the two columns of their primary key.
  datatype Tables = Tables(
    polls: map<Id, PollRow>,
    members: map<Id, set<Id>>,
    answers: map<Id, map<Id, PollAnswer>>,
    history: seq<HistoryRow>)

  // ---------------------------------------------------------------- loading

  function MembersOf(t: Tables, pollId: Id): set<Id> {
    if pollId in t.members then t.members[pollId] else {}
  }

  function AnswersOf(t: Tables, pollId: Id): map<Id, PollAnswer> {
    if pollId in t.answers then t.answers[pollId] else map[]
  }

  function Listed(answers: map<Id, PollAnswer>, residents: seq<Id>): seq<PollAnswer>
    requires forall r <- residents :: r in answers
  {
    seq(|residents|, i requires 0 <= i < |residents| => answers[residents[i]])
  }

  function OrderedAnswers(answers: map<Id, PollAnswer>): seq<PollAnswer> {
    AscendingLists(answers.Keys);
    Listed(answers, Ascending(answers.Keys))
  }

  function HistoryOf(history: seq<HistoryRow>, pollId: Id): seq<PollAnswer> {
    if history == [] then []
    else
      var last := history[|history| - 1];
      HistoryOf(history[..|history| - 1], pollId) + (if last.pollId == pollId then [last.answer] else [])
  }

  function DefinitionOf(t: Tables, pollId: Id): PollDefinition
    requires pollId in t.polls
  {
    var row := t.polls[pollId];
    PollDefinition(pollId, row.caseId, row.houseId, row.audienceId, row.kind, row.policy, row.subjectRevision,
                   MembersOf(t, pollId), row.opensAt, row.closesAt)
  }

  /** Rebuilds the state of a poll from its rows. */
  function Load(t: Tables, pollId: Id): PollState
    requires pollId in t.polls
  {
    var row := t.polls[pollId];
    var history := HistoryOf(t.history, pollId);
    PollState(DefinitionOf(t, pollId), OrderedAnswers(AnswersOf(t, pollId)), history,
              set a | a in history :: a.sourceEvent,
              row.status, row.version, row.outcome, row.thresholdEmitted)
  }

  // ---------------------------------------------------------------- writing

  function UpdatedRow(row: PollRow, s: PollState): PollRow {
    row.(status := s.status, version := s.version, outcome := s.outcome, thresholdEmitted := s.thresholdEmitted)
  }

  function WithRow(t: Tables, pollId: Id, s: PollState): Tables
    requires pollId in t.polls
  {
    t.(polls := t.polls[pollId := UpdatedRow(t.polls[pollId], s)])
  }

  /** INSERT ... ON CONFLICT (poll_id, resident_id) DO UPDATE. */
  function Upserted(t: Tables, pollId: Id, a: PollAnswer): Tables {
    t.(answers := t.answers[pollId := AnswersOf(t, pollId)[a.resident := a]])
  }

  function Appended(t: Tables, pollId: Id, a: PollAnswer): Tables {
    t.(history := t.history + [HistoryRow(pollId, a)])
  }

  predicate SourceEventTaken(t: Tables, sourceEvent: Id) {
    exists i :: 0 <= i < |t.history| && t.history[i].answer.sourceEvent == sourceEvent
  }

  predicate RevisionTaken(t: Tables, pollId: Id, resident: Id, revision: int) {
    exists i :: 0 <= i < |t.history| && t.history[i].pollId == pollId
                && t.history[i].answer.resident == resident && t.history[i].answer.revision == revision
  }

  /** The domain event that announces a stored poll state. */
  function PollEventRow(s: PollState, name: EventName, causationId: Id, at: Time): InboxRow {
    DomainRow(OfPoll(s.definition.pollId, name), name, s.definition.houseId,
              Entity(s.definition.pollId, s.version, Some(s.definition.caseId), Some(causationId)), at)
  }

  /** The event of a poll: once per poll and name, for its house and case, at its version, waiting to be handled. */
  lemma PollEventSays(s: PollState, name: EventName, causationId: Id, at: Time)
    ensures
      var row := PollEventRow(s, name, causationId, at);
      && row.source.Domain? && row.sourceKey == OfPoll(s.definition.pollId, name) && row.name == Some(name)
      && row.houseId == Some(s.definition.houseId) && row.receivedAt == at
      && row.entity.Some? && row.entity.value.entityId == s.definition.pollId && row.entity.value.version == s.version
      && row.entity.value.caseId == Some(s.definition.caseId) && row.entity.value.causationId == Some(causationId)
      && row.lease.phase.Pending? && row.lease.attempts == 0 && row.lease.owner.None? && row.lease.availableAt == at
  {
  }

  // ---------------------------------------------------------------- what the tables keep

  ghost predicate Valid(t: Tables) {
    (forall p :: p in t.polls ==> Inv(Load(t, p))) && Coherent(t)
  }

  // The keys and uniqueness constraints of the tables.
  predicate Coherent(t: Tables) {
    && (forall p, r :: p in t.answers && r in t.answers[p] ==> t.answers[p][r].resident == r)
    && (forall p :: p in t.answers ==> p in t.polls)
    && (forall p :: p in t.members ==> p in t.polls)
    && (forall i :: 0 <= i < |t.history| ==> t.history[i].pollId in t.polls)
    && (forall i, j :: 0 <= i < j < |t.history| ==>
          t.history[i].answer.sourceEvent != t.history[j].answer.sourceEvent)
    && UniqueSubjects(t)
  }

  predicate SameSubject(a: PollRow, b: PollRow) {
    a.caseId == b.caseId && a.audienceId == b.audienceId && a.kind == b.kind && a.subjectRevision == b.subjectRevision
  }

  predicate SameOperation(a: PollRow, b: PollRow) {
    a.houseId == b.houseId && a.operationKey == b.operationKey
  }

  predicate UniqueSubjects(t: Tables) {
    forall p, q :: p in t.polls && q in t.polls && p != q ==>
      !SameSubject(t.polls[p], t.polls[q]) && !SameOperation(t.polls[p], t.polls[q])
  }

  /** Every terminal state has exactly the domain event it was announced with. */
  ghost predicate Announced(t: Tables, inbox: Inbox) {
    && UniqueKeys(inbox)
    && (forall p :: HasKey(inbox, Domain, OfPoll(p, PollThresholdReached))
               <==> p in t.polls && t.polls[p].thresholdEmitted)
    && (forall p :: HasKey(inbox, Domain, OfPoll(p, PollExpired))
               <==> p in t.polls && t.polls[p].status.Closed? && !t.polls[p].thresholdEmitted)
  }

  // ---------------------------------------------------------------- facts about loading

  lemma {:induction false} ListedFinds(answers: map<Id, PollAnswer>, residents: seq<Id>, r: Id)
    requires forall x <- residents :: x in answers && answers[x].resident == x
    ensures FindAnswer(Listed(answers, residents), r) == if r in residents then Some(answers[r]) else None
  {
    if residents != [] {
      var s := Listed(answers, residents);
      assert s[1..] == Listed(answers, residents[1..]);
      ListedFinds(answers, residents[1..], r);
    }
  }

  lemma OrderedAnswersFind(answers: map<Id, PollAnswer>)
    requires forall x :: x in answers ==> answers[x].resident == x
    ensures Ordered(OrderedAnswers(answers))
    ensures forall r :: FindAnswer(OrderedAnswers(answers), r) == if r in answers then Some(answers[r]) else None
  {
    AscendingLists(answers.Keys);
    forall r ensures FindAnswer(OrderedAnswers(answers), r) == if r in answers then Some(answers[r]) else None {
      ListedFinds(answers, Ascending(answers.Keys), r);
    }
  }

  lemma HistoryAppends(history: seq<HistoryRow>, row: HistoryRow, p: Id)
    ensures HistoryOf(history + [row], p) == HistoryOf(history, p) + (if row.pollId == p then [row.answer] else [])
  {
    assert (history + [row])[..|history|] == history;
  }

  lemma {:induction false} HistoryMembers(history: seq<HistoryRow>, p: Id, a: PollAnswer)
    ensures a in HistoryOf(history, p) <==> HistoryRow(p, a) in history
  {
    if history != [] {
      HistoryMembers(history[..|history| - 1], p, a);
      assert history == history[..|history| - 1] + [history[|history| - 1]];
    }
  }

  /** The rows of the other polls are not touched by a write to this one. */
  lemma OthersKept(t: Tables, u: Tables, pollId: Id, p: Id)
    requires p in t.polls && p in u.polls && p != pollId && u.polls[p] == t.polls[p]
    requires MembersOf(u, p) == MembersOf(t, p) && AnswersOf(u, p) == AnswersOf(t, p)
    requires u.history == t.history || exists a :: u.history == t.history + [HistoryRow(pollId, a)]
    ensures Load(u, p) == Load(t, p)
  {
    if u.history != t.history {
      var a :| u.history == t.history + [HistoryRow(pollId, a)];
      HistoryAppends(t.history, HistoryRow(pollId, a), p);
    }
  }

  // Only what identifies a poll matters to the uniqueness constraints, and no update touches it.
  lemma UniqueKept(t: Tables, pollId: Id, s: PollState)
    requires pollId in t.polls && UniqueSubjects(t)
    ensures UniqueSubjects(WithRow(t, pollId, s))
  {
    var u := WithRow(t, pollId, s);
    forall p, q | p in u.polls && q in u.polls && p != q
      ensures !SameSubject(u.polls[p], u.polls[q]) && !SameOperation(u.polls[p], u.polls[q])
    {
      assert !SameSubject(t.polls[p], t.polls[q]) && !SameOperation(t.polls[p], t.polls[q]);
    }
  }

  /** A state transition that touches no answer is stored by rewriting the poll row. */
  lemma RowLoads(t: Tables, pollId: Id, s: PollState)
    requires pollId in t.polls
    requires s == Load(t, pollId).(status := s.status, version := s.version, outcome := s.outcome,
                                   thresholdEmitted := s.thresholdEmitted)
    ensures Load(WithRow(t, pollId, s), pollId) == s
    ensures forall p :: p in t.polls && p != pollId ==> Load(WithRow(t, pollId, s), p) == Load(t, p)
  {
    var u := WithRow(t, pollId, s);
    forall p | p in t.polls && p != pollId ensures Load(u, p) == Load(t, p) {
      OthersKept(t, u, pollId, p);
    }
  }

  lemma RowCoherent(t: Tables, pollId: Id, s: PollState)
    requires pollId in t.polls && Coherent(t)
    ensures Coherent(WithRow(t, pollId, s))
  {
    UniqueKept(t, pollId, s);
  }

  lemma InvEverywhere(t: Tables, u: Tables, pollId: Id)
    requires Valid(t)
    requires u.polls.Keys == t.polls.Keys
    requires forall p :: p in t.polls && p != pollId ==> Load(u, p) == Load(t, p)
    requires pollId in u.polls && Inv(Load(u, pollId)) && Coherent(u)
    ensures Valid(u)
  {
    forall p | p in u.polls ensures Inv(Load(u, p)) {
      assert p == pollId || Load(u, p) == Load(t, p);
    }
  }

  function VoteStored(t: Tables, pollId: Id, s: PollState, answer: PollAnswer): Tables
    requires pollId in t.polls
  {
    WithRow(Appended(Upserted(t, pollId, answer), pollId, answer), pollId, s)
  }

  /** The stored answers after an upsert are the answers of the pure transition, in the same order. */
  lemma AnswersLoad(before: PollState, answers: map<Id, PollAnswer>, answer: PollAnswer)
    requires forall x :: x in answers ==> answers[x].resident == x
    requires before.answers == OrderedAnswers(answers)
    ensures OrderedAnswers(answers[answer.resident := answer]) == WithAnswer(before, answer).answers
  {
    OrderedAnswersFind(answers);
    OrderedAnswersFind(answers[answer.resident := answer]);
    WithAnswerReplaces(before, answer);
    var pure, stored := WithAnswer(before, answer).answers, OrderedAnswers(answers[answer.resident := answer]);
    forall r ensures FindAnswer(pure, r) == FindAnswer(stored, r) {
      FindAnswerFinds(pure, r);
      FindAnswerFinds(before.answers, r);
      if r == answer.resident {
        FindsMember(pure, answer);
      } else if FindAnswer(before.answers, r).Some? {
        FindsMember(pure, FindAnswer(before.answers, r).value);
      }
    }
    OrderedIsCanonical(pure, stored);
  }

  /** Storing a counted vote: the rows then load to the state the pure transition gives. */
  lemma VoteLoads(t: Tables, pollId: Id, s: PollState, answer: PollAnswer)
    requires Coherent(t) && pollId in t.polls
    requires s == WithAnswer(Load(t, pollId), answer).(status := s.status, outcome := s.outcome,
                                                       thresholdEmitted := s.thresholdEmitted)
    ensures Load(VoteStored(t, pollId, s, answer), pollId) == s
    ensures forall p :: p in t.polls && p != pollId ==> Load(VoteStored(t, pollId, s, answer), p) == Load(t, p)
  {
    hide OrderedAnswers, HistoryOf, SortByResident, Without, UniqueSubjects;
    var u := VoteStored(t, pollId, s, answer);
    assert forall x :: x in AnswersOf(t, pollId) ==> AnswersOf(t, pollId)[x].resident == x;
    AnswersLoad(Load(t, pollId), AnswersOf(t, pollId), answer);
    HistoryAppends(t.history, HistoryRow(pollId, answer), pollId);
    assert Load(u, pollId).processed == s.processed;
    forall p | p in t.polls && p != pollId ensures Load(u, p) == Load(t, p) {
      OthersKept(t, u, pollId, p);
    }
  }

  lemma VoteCoherent(t: Tables, pollId: Id, s: PollState, answer: PollAnswer)
    requires Coherent(t) && pollId in t.polls && !SourceEventTaken(t, answer.sourceEvent)
    ensures Coherent(VoteStored(t, pollId, s, answer))
  {
    RowCoherent(t, pollId, s);
    var w, u := WithRow(t, pollId, s), VoteStored(t, pollId, s, answer);
    assert u == w.(answers := u.answers, history := t.history + [HistoryRow(pollId, answer)]);
    UpsertCoherent(w, pollId, answer);
  }

  lemma UpsertCoherent(t: Tables, pollId: Id, answer: PollAnswer)
    requires Coherent(t) && pollId in t.polls && !SourceEventTaken(t, answer.sourceEvent)
    ensures Coherent(Appended(Upserted(t, pollId, answer), pollId, answer))
  {
    var u := Appended(Upserted(t, pollId, answer), pollId, answer);
    forall i, j | 0 <= i < j < |u.history|
      ensures u.history[i].answer.sourceEvent != u.history[j].answer.sourceEvent
    {
      assert u.history[i] == t.history[i];
      assert j < |t.history| ==> u.history[j] == t.history[j];
    }
  }

  lemma {:induction false} EntriesAreNumbered(d: PollDefinition, h: seq<PollAnswer>, a: PollAnswer)
    requires Linked(d, h) && a in h
    ensures a.revision <= CountOf(h, a.resident)
  {
    if a != Last(h) {
      assert a in Front(h);
      EntriesAreNumbered(d, Front(h), a);
    }
  }

  /** No stored vote can collide on (poll, resident, revision): revisions count the resident's entries. */
  lemma RevisionIsFree(t: Tables, pollId: Id, resident: Id)
    requires pollId in t.polls && Linked(DefinitionOf(t, pollId), HistoryOf(t.history, pollId))
    ensures !RevisionTaken(t, pollId, resident, CountOf(HistoryOf(t.history, pollId), resident) + 1)
  {
    forall i | 0 <= i < |t.history| && t.history[i].pollId == pollId && t.history[i].answer.resident == resident
      ensures t.history[i].answer.revision <= CountOf(HistoryOf(t.history, pollId), resident)
    {
      var a := t.history[i].answer;
      HistoryMembers(t.history, pollId, a);
      assert t.history[i] == HistoryRow(pollId, a);
      EntriesAreNumbered(DefinitionOf(t, pollId), HistoryOf(t.history, pollId), a);
    }
  }

  /** An event already in this poll's history is exactly a processed event of the loaded state. */
  lemma ProcessedIsTaken(t: Tables, pollId: Id, event: Id)
    requires Valid(t) && pollId in t.polls
    ensures event in Load(t, pollId).processed <==>
            exists i :: 0 <= i < |t.history| && t.history[i].pollId == pollId && t.history[i].answer.sourceEvent == event
  {
    var h := HistoryOf(t.history, pollId);
    if event in Load(t, pollId).processed {
      var a :| a in h && a.sourceEvent == event;
      HistoryMembers(t.history, pollId, a);
    }
    if i :| 0 <= i < |t.history| && t.history[i].pollId == pollId && t.history[i].answer.sourceEvent == event {
      HistoryMembers(t.history, pollId, t.history[i].answer);
    }
  }
}
