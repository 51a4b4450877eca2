/** What the terminal event of a problem poll does to its case. */
module ProblemCases {
  import opened Basics
  import opened PollPolicies
  import opened Polls
  import opened PollRuns
  import opened InboxRows
  import opened OutboxRows
  import opened PollTables
  import opened CaseRows
  import opened Database
  import DeliveryQueue

  datatype HandlerError = CaseMissing | StaleResult | OperationReused | DeliveryRefused

  // How a delivered poll event is taken: not this handler's, an error, an old acquaintance, or news.
  datatype Reaction = NotMine | Fails(error: HandlerError) | Repeats | Advances(status: CaseStatus)

  predicate ProblemResult(poll: PollState) {
    && poll.definition.kind.ProblemConfirmation?
    && poll.status.Closed?
    && (poll.outcome == Some(OfProblem(ProblemOutcome.RequestReady)) || poll.outcome == Some(OfProblem(NeedEvidence)))
  }

  function React(poll: Option<PollState>, file: CaseFile, eventId: Id): Reaction {
    if poll.None? || !ProblemResult(poll.value) then NotMine
    else
      var caseId := poll.value.definition.caseId;
      if caseId !in file.cases || !file.cases[caseId].kind.ProblemCase? then Fails(CaseMissing)
      else if file.cases[caseId].status != CaseStatus.Collecting then
        if OperationApplied(file, Drawn(eventId)) then Repeats else Fails(StaleResult)
      else if OperationApplied(file, Drawn(eventId)) then Fails(OperationReused)
      else Advances(if poll.value.outcome == Some(OfProblem(ProblemOutcome.RequestReady)) then CaseStatus.RequestReady
                    else NeedsEvidence)
  }

  /**
   * When a delivered result is news, old or an error. A case takes a result of its poll only while it collects answers
   * and only once; without its case, or after the case moved on by other means, the result is an error.
   */
  lemma ReactionsAre(poll: PollState, file: CaseFile, eventId: Id)
    requires poll.definition.kind.ProblemConfirmation? && poll.status.Closed?
    requires poll.outcome == Some(OfProblem(ProblemOutcome.RequestReady)) || poll.outcome == Some(OfProblem(NeedEvidence))
    ensures
      var c := poll.definition.caseId;
      var reaction := React(Some(poll), file, eventId);
      var known := c in file.cases && file.cases[c].kind.ProblemCase?;
      var collects := known && file.cases[c].status.Collecting?;
      var applied := exists i :: 0 <= i < |file.events| && file.events[i].operationId == Drawn(eventId);
      && (reaction == Fails(CaseMissing) <==> !known)
      && (reaction == Fails(StaleResult) <==> known && !collects && !applied)
      && (reaction == Fails(OperationReused) <==> collects && applied)
      && (reaction.Repeats? <==> known && !collects && applied)
      && (reaction == Advances(CaseStatus.RequestReady) <==>
            collects && !applied && poll.outcome.value.problem.RequestReady?)
      && (reaction == Advances(NeedsEvidence) <==> collects && !applied && poll.outcome.value.problem.NeedEvidence?)
      && !reaction.NotMine?
  {
  }

  function Advanced(file: CaseFile, caseId: Id, status: CaseStatus, eventId: Id): CaseFile
    requires caseId in file.cases
  {
    var row := file.cases[caseId];
    var change := if status.RequestReady? then BecameReady else BecameNeedsEvidence;
    CaseFile(file.cases[caseId := row.(status := status, version := row.version + 1)],
             file.events + [CaseEventRow(caseId, change, row.version, row.version + 1, Drawn(eventId))])
  }

  /** The log of a departure: the case, what became of it, the versions before and after, and the event that did it. */
  lemma AdvancedIsLogged(file: CaseFile, caseId: Id, status: CaseStatus, eventId: Id)
    requires caseId in file.cases
    ensures
      var after := Advanced(file, caseId, status, eventId);
      && |after.events| == |file.events| + 1 && after.events[..|file.events|] == file.events
      && var e := after.events[|file.events|];
      && e.caseId == caseId && e.before == file.cases[caseId].version && e.after == after.cases[caseId].version
      && e.after == e.before + 1 && e.operationId == Drawn(eventId)
      && (e.change.BecameReady? <==> after.cases[caseId].status.RequestReady?)
      && (e.change.BecameNeedsEvidence? <==> !after.cases[caseId].status.RequestReady?)
      && OperationApplied(after, Drawn(eventId))
  {
    var after := Advanced(file, caseId, status, eventId);
    assert after.events[|file.events|].operationId == Drawn(eventId);
  }

  /** A request goes to its resident alone, in private, under a key of its own, as a new message without a file. */
  lemma RequestIsPrivate(houseId: Id, title: string, caseId: Id, pollId: Id, resident: Id, other: Id)
    ensures
      var request := EvidenceRequest(houseId, title, caseId, pollId, resident);
      && request.recipient == Some(resident) && request.chat.None? && request.houseId == houseId
      && request.editKey.None? && request.fileKey.None? && request.buttons == []
      && |title| <= |request.text| && request.text[|request.text| - |title|..] == title
      && (request.operationKey == EvidenceRequest(houseId, title, caseId, pollId, other).operationKey
          <==> resident == other)
  {
  }

  function YesResidents(answers: seq<PollAnswer>): seq<Id> {
    if answers == [] then []
    else (if answers[0].choice.Yes? then [answers[0].resident] else []) + YesResidents(answers[1..])
  }

  function EvidenceRequest(houseId: Id, title: string, caseId: Id, pollId: Id, resident: Id): DeliveryIntent {
    DeliveryIntent(houseId, Evidence(caseId, pollId, resident), EvidenceText(title), Some(resident), None, None, None, [])
  }

  function EvidenceText(title: string): string {
    "More confirmation is needed: " + title
  }

  // The poll an event speaks about, as its house sees it.
  function PollOf(t: Tables, event: InboxRow): Option<PollState> {
    if event.source != Domain || event.houseId.None? || event.entity.None? || event.entity.value.caseId.None? then None
    else if event.entity.value.entityId !in t.polls
            || t.polls[event.entity.value.entityId].houseId != event.houseId.value then None
    else Some(Load(t, event.entity.value.entityId))
  }

  /** An event speaks about a poll only if a store sent it for a case of the very house of the poll. */
  lemma PollOfSays(t: Tables, event: InboxRow)
    ensures PollOf(t, event).Some? <==>
      && event.source.Domain? && event.houseId.Some? && event.entity.Some? && event.entity.value.caseId.Some?
      && event.entity.value.entityId in t.polls
      && t.polls[event.entity.value.entityId].houseId == event.houseId.value
    ensures PollOf(t, event).Some? ==> PollOf(t, event).value == Load(t, event.entity.value.entityId)
  {
    hide Load;
  }

  function FileOf(files: map<Id, CaseFile>, houseId: Id): CaseFile {
    if houseId in files then files[houseId] else CaseFile(map[], [])
  }

  predicate Asked(outbox: Outbox, houseId: Id, caseId: Id, pollId: Id, resident: Id) {
    HasDelivery(outbox, houseId, Evidence(caseId, pollId, resident))
  }

  // A request that has to be sent has its key taken by another content.
  ghost predicate RequestClashes(
      outbox: Outbox, houseId: Id, title: string, caseId: Id, pollId: Id, answers: seq<PollAnswer>)
  {
    exists x ::
      && CurrentChoice(answers, x) == Some(Yes)
      && KeyClash(outbox, EvidenceRequest(houseId, title, caseId, pollId, x))
  }

  function Requests(houseId: Id, title: string, caseId: Id, pollId: Id, residents: seq<Id>): seq<DeliveryIntent> {
    seq(|residents|, i requires 0 <= i < |residents| => EvidenceRequest(houseId, title, caseId, pollId, residents[i]))
  }

  lemma {:induction false} YesResidentsAreSupporters(answers: seq<PollAnswer>, r: Id)
    requires DistinctResidents(answers)
    ensures r in YesResidents(answers) <==> CurrentChoice(answers, r) == Some(Yes)
    ensures |YesResidents(answers)| <= |answers|
  {
    if answers != [] {
      YesResidentsAreSupporters(answers[1..], r);
      FindAnswerFinds(answers[1..], r);
    }
  }

  lemma FoundIsDistinct(t: Tables, event: InboxRow)
    requires Valid(t) && PollOf(t, event).Some?
    ensures DistinctResidents(PollOf(t, event).value.answers)
  {
    assert Inv(PollOf(t, event).value);
  }

  class ProblemEventHandler {
    const session: Session

    constructor (session: Session)
      ensures this.session == session
    {
      this.session := session;
    }

    /**
     * Takes a poll result into its case once: the case leaves collecting, the change is logged under the
     * event's id, and if evidence is missing exactly the residents whose answer is YES are asked for it.
     */
    method HandlePollResult(eventId: Id, event: InboxRow, now: Time, newIds: seq<Id>)
      returns (r: Result<bool, HandlerError>)
      requires UniqueDeliveries(session.outbox) && Valid(session.polls) && DeliveryQueue.FreshIds(newIds, session.outbox)
      requires PollOf(session.polls, event).Some? ==> |newIds| >= |PollOf(session.polls, event).value.answers|
      modifies session`files, session`outbox
      ensures UniqueDeliveries(session.outbox)
      ensures
        var poll := PollOf(session.polls, event);
        var houseId := if event.houseId.Some? then event.houseId.value else 0;
        var file := FileOf(old(session.files), houseId);
        var reaction := React(poll, file, eventId);
        if reaction.Advances? then
          var answers, d := poll.value.answers, poll.value.definition;
          var title := file.cases[d.caseId].title;
          if reaction.status.NeedsEvidence?
             && RequestClashes(old(session.outbox), houseId, title, d.caseId, d.pollId, answers) then
            r == Err(DeliveryRefused) && session.files == old(session.files) && session.outbox == old(session.outbox)
          else
            && r == Ok(false)
            && session.files == old(session.files)[houseId := Advanced(file, d.caseId, reaction.status, eventId)]
            // The row the case ends with: ready for a poll that says so, short of evidence for any other.
            && houseId in session.files && d.caseId in session.files[houseId].cases
            && session.files[houseId].cases[d.caseId] == file.cases[d.caseId].(
                 version := file.cases[d.caseId].version + 1,
                 status := if poll.value.outcome == Some(OfProblem(ProblemOutcome.RequestReady)) then
                             CaseStatus.RequestReady else NeedsEvidence)
            && (forall c :: c in file.cases && c != d.caseId ==>
                  c in session.files[houseId].cases && session.files[houseId].cases[c] == file.cases[c])
            && (forall h :: h in old(session.files) && h != houseId ==>
                  h in session.files && session.files[h] == old(session.files)[h])
            && (poll.value.outcome == Some(OfProblem(ProblemOutcome.RequestReady)) ==>
                  session.outbox == old(session.outbox))
            && (reaction.status.RequestReady? ==> session.outbox == old(session.outbox))
            && (forall x :: Asked(session.outbox, houseId, d.caseId, d.pollId, x)
                  <==> Asked(old(session.outbox), houseId, d.caseId, d.pollId, x)
                       || (reaction.status.NeedsEvidence? && CurrentChoice(answers, x) == Some(Yes)))
            && DeliveryQueue.Adds(old(session.outbox), session.outbox,
                                  Requests(houseId, title, d.caseId, d.pollId, YesResidents(answers)), now)
        else
          && r == (if reaction.Fails? then Err(reaction.error) else Ok(false))
          && session.files == old(session.files) && session.outbox == old(session.outbox)
      // What is no result of a problem poll is left to other handlers.
      ensures
        var poll := PollOf(session.polls, event);
        poll.None? || !poll.value.definition.kind.ProblemConfirmation? || !poll.value.status.Closed?
        || (poll.value.outcome != Some(OfProblem(ProblemOutcome.RequestReady))
            && poll.value.outcome != Some(OfProblem(NeedEvidence)))
        ==> r == Ok(false) && session.files == old(session.files) && session.outbox == old(session.outbox)
    {
      hide Inv, Coherent, Load, PollTables.Valid, UniqueDeliveries, EvidenceRequest, Asked, CurrentChoice,
           YesResidents, DeliveryQueue.FreshIds, Requests, KeyClash, DeliveryQueue.Adds;
      var found := PollOf(session.polls, event);
      if found.None? || !ProblemResult(found.value) {
        return Ok(false);
      }
      var poll, houseId := found.value, event.houseId.value;
      var d, file := poll.definition, FileOf(session.files, houseId);
      if d.caseId !in file.cases || !file.cases[d.caseId].kind.ProblemCase? {
        return Err(CaseMissing);
      }
      if file.cases[d.caseId].status != CaseStatus.Collecting {
        if !OperationApplied(file, Drawn(eventId)) {
          return Err(StaleResult);
        }
        return Ok(false);
      }
      if OperationApplied(file, Drawn(eventId)) {
        return Err(OperationReused);
      }
      FoundIsDistinct(session.polls, event);
      forall x ensures x in YesResidents(poll.answers) <==> CurrentChoice(poll.answers, x) == Some(Yes) {
        YesResidentsAreSupporters(poll.answers, x);
      }
      YesResidentsAreSupporters(poll.answers, 0);
      var ready := poll.outcome == Some(OfProblem(ProblemOutcome.RequestReady));
      var status := if ready then CaseStatus.RequestReady else NeedsEvidence;
      if ready {
        NobodyAsked(session.outbox, Requests(houseId, file.cases[d.caseId].title, d.caseId, d.pollId,
                                             YesResidents(poll.answers)), now);
      } else {
        var saved := session.outbox;
        var asked := AskForEvidence(houseId, file.cases[d.caseId].title, d.caseId, d.pollId, YesResidents(poll.answers),
                                    now, newIds);
        if !asked {
          session.outbox := saved;
          return Err(DeliveryRefused);
        }
      }
      session.files := session.files[houseId := Advanced(file, d.caseId, status, eventId)];
      return Ok(false);
    }

    /** One request to each of the residents, in order; stops at the first refusal. */
    method AskForEvidence(
        houseId: Id, title: string, caseId: Id, pollId: Id, residents: seq<Id>, now: Time, newIds: seq<Id>)
      returns (ok: bool)
      requires UniqueDeliveries(session.outbox) && DeliveryQueue.FreshIds(newIds, session.outbox)
      requires |newIds| >= |residents|
      modifies session`outbox
      ensures UniqueDeliveries(session.outbox)
      ensures ok <==> forall x <- residents ::
                        !KeyClash(old(session.outbox), EvidenceRequest(houseId, title, caseId, pollId, x))
      ensures ok ==> forall x :: Asked(session.outbox, houseId, caseId, pollId, x)
                            <==> Asked(old(session.outbox), houseId, caseId, pollId, x) || x in residents
      ensures ok ==> DeliveryQueue.Adds(old(session.outbox), session.outbox,
                                        Requests(houseId, title, caseId, pollId, residents), now)
    {
      hide UniqueDeliveries, EvidenceRequest, Asked, KeyClash, DeliveryQueue.Adds, DeliveryQueue.Refusal;
      var queue := new DeliveryQueue.PostgresDeliveryQueue(session);
      DeliveryQueue.NothingAdded(session.outbox, now);
      assert Requests(houseId, title, caseId, pollId, residents[..0]) == [];
      for i := 0 to |residents|
        invariant UniqueDeliveries(session.outbox)
        invariant forall k :: i <= k < |newIds| ==> newIds[k] !in session.outbox
        invariant forall x <- residents[..i] ::
                    !KeyClash(old(session.outbox), EvidenceRequest(houseId, title, caseId, pollId, x))
        invariant forall x :: KeyClash(session.outbox, EvidenceRequest(houseId, title, caseId, pollId, x))
                         <==> KeyClash(old(session.outbox),
                                                     EvidenceRequest(houseId, title, caseId, pollId, x))
        invariant forall x :: Asked(session.outbox, houseId, caseId, pollId, x)
                         <==> Asked(old(session.outbox), houseId, caseId, pollId, x) || x in residents[..i]
        invariant DeliveryQueue.Adds(old(session.outbox), session.outbox,
                                     Requests(houseId, title, caseId, pollId, residents[..i]), now)
      {
        ghost var before := session.outbox;
        var intent := EvidenceRequest(houseId, title, caseId, pollId, residents[i]);
        RequestIsPlain(session.houseChats, before, houseId, title, caseId, pollId, residents[i]);
        var enqueued := queue.Enqueue(intent, now, newIds[i]);
        DeliveryQueue.EnqueuedOnce(before, session.outbox, intent, newIds[i], enqueued, now);
        if enqueued.Err? {
          assert residents[i] in residents;
          return false;
        }
        assert residents[..i + 1] == residents[..i] + [residents[i]];
        DeliveryQueue.OneMoreAdded(old(session.outbox), before, session.outbox,
                                   Requests(houseId, title, caseId, pollId, residents[..i]), intent, newIds[i], now);
        assert Requests(houseId, title, caseId, pollId, residents[..i + 1])
            == Requests(houseId, title, caseId, pollId, residents[..i]) + [intent];
        RequestAdded(before, session.outbox, houseId, title, caseId, pollId, residents[i], newIds[i], now);
      }
      assert residents[..|residents|] == residents;
      return true;
    }
  }

  lemma NobodyAsked(outbox: Outbox, intents: seq<DeliveryIntent>, now: Time)
    ensures DeliveryQueue.Adds(outbox, outbox, intents, now)
  {
  }

  /** A request is never refused for its shape. */
  lemma RequestIsPlain(
      chats: map<string, Id>, outbox: Outbox, houseId: Id, title: string, caseId: Id, pollId: Id, resident: Id)
    ensures DeliveryQueue.Refusal(chats, outbox, EvidenceRequest(houseId, title, caseId, pollId, resident)).None?
    ensures EvidenceRequest(houseId, title, caseId, pollId, resident).editKey.None?
  {
    assert |EvidenceText(title)| > 0;
  }

  lemma RequestAdded(
      before: Outbox, after: Outbox, houseId: Id, title: string, caseId: Id, pollId: Id, resident: Id, newId: Id,
      now: Time)
    requires newId !in before
    requires
      var intent := EvidenceRequest(houseId, title, caseId, pollId, resident);
      && (after == before || after == before[newId := NewDelivery(intent, now)])
      && HasDelivery(after, intent.houseId, intent.operationKey)
    ensures forall x :: Asked(after, houseId, caseId, pollId, x)
                   <==> Asked(before, houseId, caseId, pollId, x) || x == resident
    ensures forall x :: KeyClash(after, EvidenceRequest(houseId, title, caseId, pollId, x))
                   <==> KeyClash(before, EvidenceRequest(houseId, title, caseId, pollId, x))
  {
    forall x
      ensures Asked(after, houseId, caseId, pollId, x) <==> Asked(before, houseId, caseId, pollId, x) || x == resident
      ensures KeyClash(after, EvidenceRequest(houseId, title, caseId, pollId, x))
         <==> KeyClash(before, EvidenceRequest(houseId, title, caseId, pollId, x))
    {
      DeliveryQueue.KeysAfter(before, after, EvidenceRequest(houseId, title, caseId, pollId, resident), newId, now,
                              EvidenceRequest(houseId, title, caseId, pollId, x));
    }
  }
}
