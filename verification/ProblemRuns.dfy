/**
 * All runs of one problem case and its poll among the other cases of their house: votes, the deadline, redelivered
 * results, operations on any case.
 */
module ProblemRuns {
  import opened Basics
  import opened PollPolicies
  import opened Polls
  import opened PollAnswers
  import opened PollRuns
  import opened CaseRows
  import opened InboxRows
  import opened OutboxRows
  import opened ProblemCases
  import DeliveryQueue
  import PollTables

  // reactions logs what each delivery of the poll's event did, in order.
  datatype World = World(
    poll: PollState,
    event: Option<Id>,
    file: CaseFile,
    asked: set<Id>,
    reactions: seq<Reaction>)

  datatype Move =
    | PollMove(command: PollCommand, newEventId: Id)
    | Deliver
    | Operate(caseId: Id, change: CaseChange, status: CaseStatus, operationId: Id)
    | Register(caseId: Id, row: CaseRow)

  predicate Announces(events: seq<PollEvent>) {
    events == [ThresholdReached] || events == [Finalized]
  }

  /** A move whose guard fails changes nothing. */
  ghost function Apply(w: World, m: Move): World
    requires Inv(w.poll)
  {
    match m
    case PollMove(c, id) =>
      // Event and operation ids are drawn at random, so they do not meet.
      if OperationApplied(w.file, Drawn(id)) then w
      else
        var next := Step(w.poll, c);
        w.(poll := next.state, event := if Announces(next.events) then Some(id) else w.event)
    case Deliver =>
      if w.event.None? then w
      else
        var reaction := React(Some(w.poll), w.file, w.event.value);
        var logged := w.(reactions := w.reactions + [reaction]);
        if !reaction.Advances? then logged
        else
          logged.(
            file := Advanced(w.file, w.poll.definition.caseId, reaction.status, w.event.value),
            asked := w.asked + (if reaction.status.NeedsEvidence? then Supporters(w.poll) else {}))
    case Operate(caseId, change, status, id) =>
      if caseId !in w.file.cases || OperationApplied(w.file, Drawn(id)) || w.event == Some(id)
         || (caseId == w.poll.definition.caseId && !KeepsCollecting(w.file.cases[caseId], change, status)) then w
      else
        var row := w.file.cases[caseId];
        w.(file := CaseFile(
             w.file.cases[caseId := row.(status := status, version := row.version + 1)],
             w.file.events + [CaseEventRow(caseId, change, row.version, row.version + 1, Drawn(id))]))
    case Register(caseId, row) =>
      if caseId in w.file.cases then w else w.(file := w.file.(cases := w.file.cases[caseId := row]))
  }

  // Only the poll result takes the poll's case out of collecting, and no operation takes it back there.
  predicate KeepsCollecting(row: CaseRow, change: CaseChange, status: CaseStatus) {
    !LeavesCollecting(change) && (status.Collecting? <==> row.status.Collecting?)
  }

  ghost function Run(w: World, ms: seq<Move>): World
    requires Inv(w.poll)
    decreases |ms|
  {
    if ms == [] then w
    else
      ApplyKeepsPoll(w, ms[0]);
      Run(Apply(w, ms[0]), ms[1..])
  }

  lemma ApplyKeepsPoll(w: World, m: Move)
    requires Inv(w.poll)
    ensures Inv(Apply(w, m).poll) && Apply(w, m).poll.definition == w.poll.definition
  {
    if m.PollMove? {
      StepKeepsInv(w.poll, m.command);
    }
  }

  /** An operation of anybody else gives one case a status and the next version, logs just that, and touches no poll. */
  lemma OperateSays(w: World, m: Move)
    requires Inv(w.poll) && m.Operate? && Apply(w, m) != w
    ensures
      var u, c := Apply(w, m), m.caseId;
      && u == w.(file := u.file) && c in w.file.cases && u.file.cases.Keys == w.file.cases.Keys
      && u.file.cases[c].version == w.file.cases[c].version + 1 && u.file.cases[c].status == m.status
      && (forall k :: k in w.file.cases && k != c ==> u.file.cases[k] == w.file.cases[k])
      && u.file.events == w.file.events + [CaseEventRow(c, m.change, w.file.cases[c].version, u.file.cases[c].version,
                                                        Drawn(m.operationId))]
  {
    hide Inv;
  }

  predicate LeavesCollecting(change: CaseChange) {
    change.BecameReady? || change.BecameNeedsEvidence?
  }

  /** The logged changes of one case. */
  function ChangesOf(events: seq<CaseEventRow>, caseId: Id): seq<CaseEventRow> {
    if events == [] then []
    else
      var last := events[|events| - 1];
      ChangesOf(events[..|events| - 1], caseId) + (if last.caseId == caseId then [last] else [])
  }

  /** The logged changes by which a case left collecting. */
  function Departures(events: seq<CaseEventRow>, caseId: Id): seq<CaseEventRow> {
    if events == [] then []
    else
      var last := events[|events| - 1];
      Departures(events[..|events| - 1], caseId)
      + (if last.caseId == caseId && LeavesCollecting(last.change) then [last] else [])
  }

  // A problem poll was opened for a non-empty audience and its case collects answers.
  predicate Starts(d: PollDefinition, file: CaseFile) {
    && d.Valid() && d.kind.ProblemConfirmation? && d.eligible != {}
    && d.caseId in file.cases
    && file.cases[d.caseId].kind.ProblemCase? && file.cases[d.caseId].status.Collecting?
  }

  function Start(d: PollDefinition, file: CaseFile): World {
    World(Initial(d), None, file, {}, [])
  }

  function Verdict(s: PollState): CaseStatus {
    if s.thresholdEmitted then CaseStatus.RequestReady else NeedsEvidence
  }

  // ---------------------------------------------------------------- the invariant

  ghost predicate Good(w: World, d: PollDefinition, file: CaseFile) {
    && Inv(w.poll) && w.poll.definition == d && d.kind.ProblemConfirmation? && d.eligible != {}
    && (w.event.Some? <==> w.poll.status.Closed?)
    && d.caseId in file.cases && d.caseId in w.file.cases && w.file.cases[d.caseId].kind.ProblemCase?
    && Counted(w, d.caseId, file)
    && (w.event.Some? ==> (OperationApplied(w.file, Drawn(w.event.value)) <==> w.reactions != []))
    && (w.file.cases[d.caseId].status.Collecting? <==> w.reactions == [])
    && (if w.reactions == [] then
          w.asked == {} && Departures(w.file.events, d.caseId) == Departures(file.events, d.caseId)
        else Taken(w, Departures(file.events, d.caseId)))
  }

  // The version of the case counts its own logged changes, whatever happens to other cases.
  predicate Counted(w: World, caseId: Id, file: CaseFile)
    requires caseId in w.file.cases && caseId in file.cases
  {
    w.file.cases[caseId].version - file.cases[caseId].version
    == |ChangesOf(w.file.events, caseId)| - |ChangesOf(file.events, caseId)|
  }

  predicate Taken(w: World, before: seq<CaseEventRow>) {
    var departures := Departures(w.file.events, w.poll.definition.caseId);
    && w.event.Some? && w.reactions != []
    && w.reactions[0] == Advances(Verdict(w.poll))
    && (forall i :: 0 < i < |w.reactions| ==> w.reactions[i] == Repeats)
    && w.asked == (if w.poll.thresholdEmitted then {} else Supporters(w.poll))
    && |departures| == |before| + 1 && departures[..|before|] == before
    && departures[|before|].operationId == Drawn(w.event.value)
    && departures[|before|].change == if w.poll.thresholdEmitted then BecameReady else BecameNeedsEvidence
  }

  lemma EventAppended(f: CaseFile, g: CaseFile, e: CaseEventRow, caseId: Id)
    requires g.events == f.events + [e]
    ensures Departures(g.events, caseId)
         == Departures(f.events, caseId) + (if e.caseId == caseId && LeavesCollecting(e.change) then [e] else [])
    ensures ChangesOf(g.events, caseId) == ChangesOf(f.events, caseId) + (if e.caseId == caseId then [e] else [])
    ensures forall id :: OperationApplied(g, id) <==> OperationApplied(f, id) || id == e.operationId
  {
    assert g.events[..|g.events| - 1] == f.events;
    forall id ensures OperationApplied(g, id) <==> OperationApplied(f, id) || id == e.operationId {
      AppliedAfter(f, g, e, id);
    }
  }

  lemma AppliedAfter(f: CaseFile, g: CaseFile, e: CaseEventRow, id: OperationId)
    requires g.events == f.events + [e]
    ensures OperationApplied(g, id) <==> OperationApplied(f, id) || id == e.operationId
  {
    hide Departures, ChangesOf;
    assert g.events[|f.events|] == e;
    if OperationApplied(f, id) {
      var i :| 0 <= i < |f.events| && f.events[i].operationId == id;
      assert g.events[i].operationId == id;
    }
  }

  /** What a closed problem poll with residents says about its own outcome. */
  lemma ClosedProblem(s: PollState)
    requires Inv(s) && s.definition.kind.ProblemConfirmation? && s.definition.eligible != {} && s.status.Closed?
    ensures s.outcome == Some(OfProblem(if s.thresholdEmitted then ProblemOutcome.RequestReady else NeedEvidence))
  {
  }

  lemma PollMoveKeeps(w: World, c: PollCommand, id: Id, d: PollDefinition, file: CaseFile)
    requires Good(w, d, file)
    ensures Good(Apply(w, PollMove(c, id)), d, file)
  {
    StepKeepsInv(w.poll, c);
    if w.poll.status.Open? {
      AnnouncesWhenClosed(w.poll, c);
    } else {
      FrozenStep(w.poll, c);
    }
    hide Inv, Step, Departures, ChangesOf, OperationApplied, Announces, PollState.Valid;
  }

  lemma FrozenStep(s: PollState, c: PollCommand)
    requires Inv(s) && !s.status.Open?
    ensures Step(s, c).state == s && !Announces(Step(s, c).events)
  {
  }

  lemma AnnouncesWhenClosed(s: PollState, c: PollCommand)
    requires Inv(s) && s.status.Open?
    ensures Announces(Step(s, c).events) <==> Step(s, c).state.status.Closed?
    ensures Step(s, c).state.definition == s.definition
  {
  }

  lemma DeliveryReacts(w: World, d: PollDefinition, file: CaseFile)
    requires Good(w, d, file) && w.event.Some?
    ensures
      React(Some(w.poll), w.file, w.event.value) == if w.reactions == [] then Advances(Verdict(w.poll)) else Repeats
    ensures w.reactions == [] ==> w.asked == {}
    ensures Inv(w.poll) && w.poll.definition == d && DistinctResidents(w.poll.answers)
    ensures d.caseId in w.file.cases
  {
    ClosedProblem(w.poll);
  }

  lemma DeliverKeeps(w: World, d: PollDefinition, file: CaseFile)
    requires Good(w, d, file)
    ensures Good(Apply(w, Deliver), d, file)
  {
    if w.event.Some? {
      DeliveryReacts(w, d, file);
      hide Inv, React, Departures, ChangesOf, OperationApplied;
      if w.reactions == [] {
        FirstDeliveryKeeps(w, d, file);
      } else {
        assert Apply(w, Deliver) == w.(reactions := w.reactions + [Repeats]);
      }
    }
  }

  lemma FirstDeliveryKeeps(w: World, d: PollDefinition, file: CaseFile)
    requires Good(w, d, file) && w.event.Some? && w.reactions == []
    requires React(Some(w.poll), w.file, w.event.value) == Advances(Verdict(w.poll))
    ensures Good(Apply(w, Deliver), d, file)
  {
    hide Inv, React, Departures, ChangesOf, OperationApplied;
    var u := Apply(w, Deliver);
    EventAppended(w.file, u.file, u.file.events[|u.file.events| - 1], d.caseId);
  }

  lemma OperateKeeps(w: World, m: Move, d: PollDefinition, file: CaseFile)
    requires Good(w, d, file) && m.Operate?
    ensures Good(Apply(w, m), d, file)
  {
    hide Inv, Departures, ChangesOf, OperationApplied;
    var u := Apply(w, m);
    if u != w {
      EventAppended(w.file, u.file, u.file.events[|u.file.events| - 1], d.caseId);
    }
  }

  lemma RegisterKeeps(w: World, m: Move, d: PollDefinition, file: CaseFile)
    requires Good(w, d, file) && m.Register?
    ensures Good(Apply(w, m), d, file)
  {
    hide Inv, Departures, ChangesOf;
    assert forall id :: OperationApplied(Apply(w, m).file, id) <==> OperationApplied(w.file, id);
  }

  lemma {:induction false} RunKeepsGood(w: World, ms: seq<Move>, d: PollDefinition, file: CaseFile)
    requires Good(w, d, file)
    ensures Good(Run(w, ms), d, file)
    decreases |ms|
  {
    if ms != [] {
      match ms[0] {
        case PollMove(c, id) => PollMoveKeeps(w, c, id, d, file);
        case Deliver => DeliverKeeps(w, d, file);
        case Operate(_, _, _, _) => OperateKeeps(w, ms[0], d, file);
        case Register(_, _) => RegisterKeeps(w, ms[0], d, file);
      }
      RunKeepsGood(Apply(w, ms[0]), ms[1..], d, file);
    }
  }

  lemma StartIsGood(d: PollDefinition, file: CaseFile)
    requires Starts(d, file)
    ensures Good(Start(d, file), d, file)
  {
    InitialInv(d);
  }

  // ---------------------------------------------------------------- main results

  /**
   * Main result: whatever happens to the other cases of the house and however often the poll's event is delivered,
   * the first delivery takes the case out of collecting and every later one repeats without error; the case departs
   * once, as ready exactly when a vote met the quota, and otherwise exactly the residents who then answer YES are
   * asked for evidence.
   */
  lemma CaseLeavesCollectingOnce(d: PollDefinition, file: CaseFile, ms: seq<Move>)
    requires Starts(d, file)
    ensures Inv(Initial(d))
    ensures
      var w := Run(Start(d, file), ms);
      var quota := Required(|d.eligible|, d.policy.thresholdRatio);
      && w.poll.Valid() && d.caseId in w.file.cases
      && (forall i :: 0 <= i < |w.reactions| ==>
            w.reactions[i] == if i == 0 then Advances(Verdict(w.poll)) else Repeats)
      && (w.file.cases[d.caseId].status.Collecting? <==> w.reactions == [])
      && |Departures(w.file.events, d.caseId)|
         == |Departures(file.events, d.caseId)| + (if w.reactions == [] then 0 else 1)
      && (w.poll.thresholdEmitted <==> Tally(w.poll).yes == quota)
      && w.asked == (if w.reactions == [] || Tally(w.poll).yes == quota then {} else Supporters(w.poll))
      && Counted(w, d.caseId, file)
  {
    InitialInv(d);
    StartIsGood(d, file);
    RunKeepsGood(Start(d, file), ms, d, file);
  }

  /** What the first delivery of a poll's event does to the row and the log of its case, and to nothing else. */
  lemma FirstDeliverySays(w: World, d: PollDefinition, file: CaseFile)
    requires Good(w, d, file) && w.event.Some? && w.reactions == []
    ensures Inv(w.poll) && w.poll.Valid()
    ensures
      var u := Apply(w, Deliver);
      var reached := |Saying(w.poll, Yes)| >= Required(|d.eligible|, d.policy.thresholdRatio);
      && d.caseId in w.file.cases && u.file.cases.Keys == w.file.cases.Keys
      && u.file.cases[d.caseId] == w.file.cases[d.caseId].(
           version := w.file.cases[d.caseId].version + 1,
           status := if reached then CaseStatus.RequestReady else NeedsEvidence)
      && (forall c :: c in w.file.cases && c != d.caseId ==> u.file.cases[c] == w.file.cases[c])
      && u.file.events == w.file.events + [CaseEventRow(
           d.caseId, if reached then BecameReady else BecameNeedsEvidence, w.file.cases[d.caseId].version,
           w.file.cases[d.caseId].version + 1, Drawn(w.event.value))]
      && u.asked == (if reached then {} else Saying(w.poll, Yes))
  {
    DeliveryReacts(w, d, file);
    ClosedProblem(w.poll);
    ThresholdMeans(w.poll);
    hide Inv, React, Departures, ChangesOf, OperationApplied, Saying, Supporters, Required, PollState.Valid;
  }

  lemma ThresholdMeans(s: PollState)
    requires Inv(s) && s.definition.kind.ProblemConfirmation? && s.definition.eligible != {}
    ensures s.Valid() && Supporters(s) == Saying(s, Yes)
    ensures s.thresholdEmitted <==>
              |Saying(s, Yes)| >= Required(|s.definition.eligible|, s.definition.policy.thresholdRatio)
  {
    TallyCountsResidents(s);
    forall r ensures r in Supporters(s) <==> r in Saying(s, Yes) {
      SupporterSaysYes(s, r);
    }
    hide Required, Saying;
  }

  /**
   * Main result: in any run, taking the result makes the case ready for a request exactly when the residents who say
   * YES reach the quota, and short of evidence otherwise; no other case is touched.
   */
  lemma VerdictSetsStatus(d: PollDefinition, file: CaseFile, before: seq<Move>)
    requires Starts(d, file)
    ensures Inv(Initial(d))
    ensures
      var w := Run(Start(d, file), before);
      Inv(w.poll) &&
      (w.event.Some? && w.reactions == [] ==>
        var u := Apply(w, Deliver);
        && d.caseId in u.file.cases && d.caseId in w.file.cases
        && (u.file.cases[d.caseId].status.RequestReady? <==>
              |Saying(w.poll, Yes)| >= Required(|d.eligible|, d.policy.thresholdRatio))
        && (u.file.cases[d.caseId].status.NeedsEvidence? <==>
              |Saying(w.poll, Yes)| < Required(|d.eligible|, d.policy.thresholdRatio))
        && u.file.cases[d.caseId].version == w.file.cases[d.caseId].version + 1
        && forall c :: c in w.file.cases && c != d.caseId ==> c in u.file.cases && u.file.cases[c] == w.file.cases[c])
  {
    InitialInv(d);
    StartIsGood(d, file);
    RunKeepsGood(Start(d, file), before, d, file);
    var w := Run(Start(d, file), before);
    hide Good, Inv, Apply, Saying, Required;
    if w.event.Some? && w.reactions == [] {
      FirstDeliverySays(w, d, file);
    }
    GoodHasInv(w, d, file);
  }

  lemma GoodHasInv(w: World, d: PollDefinition, file: CaseFile)
    requires Good(w, d, file)
    ensures Inv(w.poll)
  {
  }

  /** Main result: once taken, nothing that follows changes the verdict, the logged departure or who was asked. */
  lemma VerdictIsFinal(d: PollDefinition, file: CaseFile, before: seq<Move>, after: seq<Move>)
    requires Starts(d, file) && Inv(Initial(d))
    requires Run(Start(d, file), before).reactions != []
    ensures
      var w := Run(Start(d, file), before);
      Inv(w.poll) &&
      var u := Run(w, after);
      && u.poll == w.poll && u.asked == w.asked && u.event == w.event && |u.reactions| >= |w.reactions|
      && Departures(u.file.events, d.caseId) == Departures(w.file.events, d.caseId)
      && u.reactions == w.reactions + seq(|u.reactions| - |w.reactions|, _ => Repeats)
  {
    StartIsGood(d, file);
    RunKeepsGood(Start(d, file), before, d, file);
    TakenStays(Run(Start(d, file), before), after, d, file);
  }

  lemma {:induction false} TakenStays(w: World, ms: seq<Move>, d: PollDefinition, file: CaseFile)
    requires Good(w, d, file) && w.reactions != []
    ensures
      var u := Run(w, ms);
      && u.poll == w.poll && u.asked == w.asked && u.event == w.event && |u.reactions| >= |w.reactions|
      && Departures(u.file.events, d.caseId) == Departures(w.file.events, d.caseId)
      && u.reactions == w.reactions + seq(|u.reactions| - |w.reactions|, _ => Repeats)
    decreases |ms|
  {
    if ms != [] {
      var v := Apply(w, ms[0]);
      TakenStep(w, ms[0], d, file);
      TakenStays(v, ms[1..], d, file);
    }
  }

  // What no later move changes once the verdict is in.
  predicate SameVerdict(w: World, u: World) {
    && u.poll == w.poll && u.asked == w.asked && u.event == w.event
    && Departures(u.file.events, w.poll.definition.caseId) == Departures(w.file.events, w.poll.definition.caseId)
    && (u.reactions == w.reactions || u.reactions == w.reactions + [Repeats])
  }

  lemma TakenStep(w: World, m: Move, d: PollDefinition, file: CaseFile)
    requires Good(w, d, file) && w.reactions != []
    ensures Good(Apply(w, m), d, file) && SameVerdict(w, Apply(w, m))
  {
    hide Good, SameVerdict, Apply;
    match m {
      case PollMove(c, id) =>
        PollMoveKeeps(w, c, id, d, file);
        TakenPollMove(w, c, id, d, file);
      case Deliver =>
        DeliverKeeps(w, d, file);
        TakenDeliver(w, d, file);
      case Operate(_, _, _, _) =>
        OperateKeeps(w, m, d, file);
        TakenOperate(w, m, d, file);
      case Register(_, _) =>
        RegisterKeeps(w, m, d, file);
        TakenRegister(w, m, d, file);
    }
  }

  lemma TakenPollMove(w: World, c: PollCommand, id: Id, d: PollDefinition, file: CaseFile)
    requires Good(w, d, file) && w.reactions != []
    ensures SameVerdict(w, Apply(w, PollMove(c, id)))
  {
    TerminalIsFrozen(w.poll, [c]);
  }

  lemma TakenDeliver(w: World, d: PollDefinition, file: CaseFile)
    requires Good(w, d, file) && w.reactions != []
    ensures SameVerdict(w, Apply(w, Deliver))
  {
    if w.event.Some? {
      DeliveryReacts(w, d, file);
    }
    hide Inv, React, Departures, ChangesOf, OperationApplied;
  }

  lemma TakenOperate(w: World, m: Move, d: PollDefinition, file: CaseFile)
    requires Good(w, d, file) && w.reactions != [] && m.Operate?
    ensures SameVerdict(w, Apply(w, m))
  {
    hide Inv;
    var u := Apply(w, m);
    if u != w {
      EventAppended(w.file, u.file, u.file.events[|u.file.events| - 1], d.caseId);
    }
  }

  lemma TakenRegister(w: World, m: Move, d: PollDefinition, file: CaseFile)
    requires Good(w, d, file) && m.Register?
    ensures SameVerdict(w, Apply(w, m))
  {
    hide Inv;
  }

  // ---------------------------------------------------------------- the handler takes the steps of the runs

  /**
   * In a database that shows the poll, the house's cases and the requests of a good world, handling the poll's event
   * never fails and leaves the database showing the world after one delivery.
   */
  method HandleDelivery(
      handler: ProblemEventHandler, ghost w: World, ghost d: PollDefinition, ghost file: CaseFile,
      eventId: Id, event: InboxRow, now: Time, newIds: seq<Id>)
    returns (r: Result<bool, HandlerError>)
    requires Good(w, d, file) && w.event == Some(eventId)
    requires UniqueDeliveries(handler.session.outbox) && PollTables.Valid(handler.session.polls)
    requires DeliveryQueue.FreshIds(newIds, handler.session.outbox) && |newIds| >= |w.poll.answers|
    requires Shows(handler.session.files, handler.session.outbox, w, d.houseId)
    requires PollOf(handler.session.polls, event) == Some(w.poll) && event.houseId == Some(d.houseId)
    modifies handler.session`files, handler.session`outbox
    ensures r == Ok(false)
    ensures Shows(handler.session.files, handler.session.outbox, Apply(w, Deliver), d.houseId)
  {
    hide Good, Inv, Asked, React, Advanced, PollOf, PollTables.Valid, CurrentChoice, RequestClashes, Supporters,
         YesResidents, Requests, UniqueDeliveries, DeliveryQueue.FreshIds, DeliveryQueue.Adds;
    DeliveryReacts(w, d, file);
    if React(Some(w.poll), w.file, eventId).Advances? {
      NothingClashes(handler.session.outbox, w, d.houseId, w.file.cases[d.caseId].title);
      forall x ensures x in Supporters(w.poll) <==> CurrentChoice(w.poll.answers, x) == Some(Yes) {
        SupporterSaysYes(w.poll, x);
      }
    }
    r := handler.HandlePollResult(eventId, event, now, newIds);
  }

  // What a database shows of a world: the cases of the house, and who was asked for evidence.
  ghost predicate Shows(files: map<Id, CaseFile>, outbox: Outbox, w: World, houseId: Id) {
    && FileOf(files, houseId) == w.file
    && forall x :: Asked(outbox, houseId, w.poll.definition.caseId, w.poll.definition.pollId, x) <==> x in w.asked
  }

  /** As long as nobody was asked about this poll, no request key is taken. */
  lemma NothingClashes(outbox: Outbox, w: World, houseId: Id, title: string)
    requires w.asked == {}
    requires
      forall x :: !Asked(outbox, houseId, w.poll.definition.caseId, w.poll.definition.pollId, x)
    ensures !RequestClashes(outbox, houseId, title, w.poll.definition.caseId, w.poll.definition.pollId, w.poll.answers)
  {
    var d := w.poll.definition;
    forall x ensures !KeyClash(outbox, EvidenceRequest(houseId, title, d.caseId, d.pollId, x)) {
      assert !Asked(outbox, houseId, d.caseId, d.pollId, x);
    }
  }
}
