/** The poll of residents: a state machine over votes, one deadline and one cancellation. */
module Polls {
  import opened Basics
  import opened PollPolicies

  datatype PollKind = ProblemConfirmation | InitiativePosition | ResolutionCheck

  datatype PollStatus = Open | Closed | Cancelled

  datatype VoteChoice = Yes | No

  datatype AnswerStatus = Recorded | Changed | Duplicate | NotEligible | Late | AlreadyClosed

  datatype PollEvent = ThresholdReached | Finalized | PollCancelled

  datatype PollError = DeadlineNotReached

  datatype PollOutcome =
    | OfProblem(problem: ProblemOutcome)
    | OfInitiative(initiative: InitiativeOutcome)
    | OfResolution(resolution: ResolutionOutcome)

  datatype PollDefinition = PollDefinition(
    pollId: Id,
    caseId: Id,
    houseId: Id,
    audienceId: Id,
    kind: PollKind,
    policy: PollPolicy,
    subjectRevision: int,
    eligible: set<Id>,
    opensAt: Time,
    closesAt: Time)
  {
    // What the constructor of a definition insists on.
    predicate Valid() {
      && policy.Valid()
      && (kind.ProblemConfirmation? <==> policy.ProblemPolicy?)
      && (kind.InitiativePosition? <==> policy.InitiativePolicy?)
      && subjectRevision > 0
      && opensAt < closesAt
      && (policy.ProblemPolicy? ==> closesAt - opensAt == policy.waitPeriod)
    }
  }

  datatype PollAnswer = PollAnswer(
    resident: Id,
    choice: VoteChoice,
    sourceEvent: Id,
    receivedAt: Time,
    revision: int)

  datatype AnswerResult = AnswerResult(status: AnswerStatus, pollVersion: int, current: Option<VoteChoice>)

  datatype PollState = PollState(
    definition: PollDefinition,
    answers: seq<PollAnswer>,
    history: seq<PollAnswer>,
    processed: set<Id>,
    status: PollStatus,
    version: int,
    outcome: Option<PollOutcome>,
    thresholdEmitted: bool)
  {
    // What the constructor of a state insists on.
    predicate Valid() {
      && definition.Valid()
      && version > 0
      && DistinctResidents(answers)
      && (forall a <- answers :: a.resident in definition.eligible)
      && (status.Closed? <==> outcome.Some?)
    }
  }

  datatype PollMutation = PollMutation(state: PollState, result: Option<AnswerResult>, events: seq<PollEvent>)

  function Initial(d: PollDefinition): PollState {
    PollState(d, [], [], {}, Open, 1, None, false)
  }

  // ---------------------------------------------------------------- answers

  predicate DistinctResidents(answers: seq<PollAnswer>) {
    forall i, j :: 0 <= i < j < |answers| ==> answers[i].resident != answers[j].resident
  }

  predicate Ordered(answers: seq<PollAnswer>) {
    forall i, j :: 0 <= i < j < |answers| ==> answers[i].resident < answers[j].resident
  }

  function FindAnswer(answers: seq<PollAnswer>, resident: Id): Option<PollAnswer> {
    if answers == [] then None
    else if answers[0].resident == resident then Some(answers[0])
    else FindAnswer(answers[1..], resident)
  }

  function CurrentChoice(answers: seq<PollAnswer>, resident: Id): Option<VoteChoice> {
    match FindAnswer(answers, resident)
    case None => None
    case Some(a) => Some(a.choice)
  }

  function Without(answers: seq<PollAnswer>, resident: Id): seq<PollAnswer> {
    if answers == [] then []
    else if answers[0].resident == resident then Without(answers[1..], resident)
    else [answers[0]] + Without(answers[1..], resident)
  }

  function InsertOrdered(a: PollAnswer, answers: seq<PollAnswer>): seq<PollAnswer> {
    if answers == [] || a.resident <= answers[0].resident then [a] + answers
    else [answers[0]] + InsertOrdered(a, answers[1..])
  }

  function SortByResident(answers: seq<PollAnswer>): seq<PollAnswer> {
    if answers == [] then []
    else InsertOrdered(answers[0], SortByResident(answers[1..]))
  }

  function CountChoice(answers: seq<PollAnswer>, choice: VoteChoice): nat {
    if answers == [] then 0
    else (if answers[0].choice == choice then 1 else 0) + CountChoice(answers[1..], choice)
  }

  // The residents whose current answer is YES.
  function Supporters(s: PollState): set<Id> {
    set a | a in s.answers && a.choice.Yes? :: a.resident
  }

  function Tally(s: PollState): (t: VoteTally)
    requires s.Valid()
    ensures t.Valid()
  {
    TallyIsValid(s);
    VoteTally(|s.definition.eligible|, CountChoice(s.answers, Yes), CountChoice(s.answers, No))
  }

  // ---------------------------------------------------------------- transitions

  /** A repeated event, or a repeated choice, gives no new vote. */
  function RecordAnswer(s: PollState, actor: Id, choice: VoteChoice, sourceEvent: Id, receivedAt: Time): PollMutation
    requires s.Valid()
  {
    if sourceEvent in s.processed then Refused(s, Duplicate, CurrentChoice(s.answers, actor))
    else if actor !in s.definition.eligible then Refused(s, NotEligible, None)
    else if !ReceivedDuringPoll(receivedAt, s.definition.opensAt, s.definition.closesAt) then Refused(s, Late, None)
    else if s.status != Open then Refused(s, AlreadyClosed, None)
    else if CurrentChoice(s.answers, actor) == Some(choice) then Refused(s, Duplicate, Some(choice))
    else
      var previous := FindAnswer(s.answers, actor);
      var answer := NextAnswer(previous, actor, choice, sourceEvent, receivedAt);
      var updated := WithAnswer(s, answer);
      WithAnswerIsValid(s, answer);
      var reached :=
        s.definition.kind.ProblemConfirmation?
        && EvaluateProblem(Tally(updated), s.definition.policy, false).RequestReady?;
      var final :=
        if !reached then updated
        else updated.(status := PollStatus.Closed, outcome := Some(OfProblem(RequestReady)), thresholdEmitted := true);
      PollMutation(
        final,
        Some(AnswerResult(if previous.None? then Recorded else Changed, final.version, Some(choice))),
        if reached then [ThresholdReached] else [])
  }

  function Refused(s: PollState, status: AnswerStatus, current: Option<VoteChoice>): PollMutation {
    PollMutation(s, Some(AnswerResult(status, s.version, current)), [])
  }

  function NextAnswer(previous: Option<PollAnswer>, actor: Id, choice: VoteChoice, sourceEvent: Id, receivedAt: Time)
    : PollAnswer
  {
    PollAnswer(actor, choice, sourceEvent, receivedAt, if previous.None? then 1 else previous.value.revision + 1)
  }

  function WithAnswer(s: PollState, answer: PollAnswer): PollState {
    s.(
      answers := SortByResident(SortByResident(Without(s.answers, answer.resident)) + [answer]),
      history := s.history + [answer],
      processed := s.processed + {answer.sourceEvent},
      version := s.version + 1)
  }

  /** The outcome the deadline gives to the current answers. */
  function FinalOutcome(s: PollState): PollOutcome
    requires s.Valid()
  {
    match s.definition.policy
    case ProblemPolicy(_, _) => OfProblem(EvaluateProblem(Tally(s), s.definition.policy, true))
    case InitiativePolicy(_, _) => OfInitiative(EvaluateInitiative(Tally(s), s.definition.policy, true))
    case ResolutionPolicy(_, _, _) => OfResolution(EvaluateResolution(Tally(s), s.definition.policy, true))
  }

  function Finalize(s: PollState, now: Time): Result<PollMutation, PollError>
    requires s.Valid()
  {
    if s.status != Open then Ok(PollMutation(s, None, []))
    else if now < s.definition.closesAt then Err(DeadlineNotReached)
    else
      var updated := s.(status := PollStatus.Closed, version := s.version + 1, outcome := Some(FinalOutcome(s)));
      Ok(PollMutation(updated, None, [Finalized]))
  }

  /** Invalidates the old votes when the subject of the poll changes. */
  function Cancel(s: PollState): PollMutation {
    if s.status != Open then PollMutation(s, None, [])
    else PollMutation(s.(status := Cancelled, version := s.version + 1), None, [PollCancelled])
  }

  // ---------------------------------------------------------------- facts about answers

  lemma {:induction false} FindAnswerFinds(answers: seq<PollAnswer>, resident: Id)
    ensures
      match FindAnswer(answers, resident)
      case None => forall a <- answers :: a.resident != resident
      case Some(a) => a in answers && a.resident == resident
  {
    if answers != [] && answers[0].resident != resident {
      FindAnswerFinds(answers[1..], resident);
      forall a <- answers ensures a == answers[0] || a in answers[1..] {}
    }
  }

  lemma FindsMember(answers: seq<PollAnswer>, a: PollAnswer)
    requires DistinctResidents(answers) && a in answers
    ensures FindAnswer(answers, a.resident) == Some(a)
  {
    FindAnswerFinds(answers, a.resident);
  }

  lemma SupporterSaysYes(s: PollState, r: Id)
    requires DistinctResidents(s.answers)
    ensures r in Supporters(s) <==> CurrentChoice(s.answers, r) == Some(Yes)
  {
    FindAnswerFinds(s.answers, r);
    forall a <- s.answers ensures FindAnswer(s.answers, a.resident) == Some(a) {
      FindsMember(s.answers, a);
    }
  }

  lemma {:induction false} WithoutKeeps(answers: seq<PollAnswer>, resident: Id)
    ensures forall a :: a in Without(answers, resident) <==> a in answers && a.resident != resident
    ensures DistinctResidents(answers) ==> DistinctResidents(Without(answers, resident))
    ensures CountChoice(Without(answers, resident), Yes) <= CountChoice(answers, Yes)
  {
    if answers != [] {
      var rest := answers[1..];
      WithoutKeeps(rest, resident);
      assert forall a :: a in answers <==> a == answers[0] || a in rest;
      if DistinctResidents(answers) {
        assert DistinctResidents(rest);
        assert forall a <- rest :: a.resident != answers[0].resident;
      }
    }
  }

  lemma {:induction false} InsertOrderedMembers(a: PollAnswer, answers: seq<PollAnswer>)
    ensures forall b :: b in InsertOrdered(a, answers) <==> b == a || b in answers
  {
    if answers != [] && a.resident > answers[0].resident {
      InsertOrderedMembers(a, answers[1..]);
      assert forall b :: b in answers <==> b == answers[0] || b in answers[1..];
    }
  }

  lemma {:induction false} InsertOrderedCounts(a: PollAnswer, answers: seq<PollAnswer>)
    ensures CountChoice(InsertOrdered(a, answers), Yes) == CountChoice([a], Yes) + CountChoice(answers, Yes)
  {
    if answers == [] || a.resident <= answers[0].resident {
      assert ([a] + answers)[1..] == answers;
    } else {
      InsertOrderedCounts(a, answers[1..]);
      assert ([answers[0]] + InsertOrdered(a, answers[1..]))[1..] == InsertOrdered(a, answers[1..]);
    }
  }

  lemma {:induction false} InsertOrderedOrders(a: PollAnswer, answers: seq<PollAnswer>)
    requires Ordered(answers) && forall b <- answers :: b.resident != a.resident
    ensures Ordered(InsertOrdered(a, answers))
  {
    if answers != [] && a.resident > answers[0].resident {
      InsertOrderedOrders(a, answers[1..]);
      InsertOrderedMembers(a, answers[1..]);
      var tail := InsertOrdered(a, answers[1..]);
      assert forall b <- tail :: answers[0].resident < b.resident;
    }
  }

  lemma {:induction false} SortMembers(answers: seq<PollAnswer>)
    ensures forall b :: b in SortByResident(answers) <==> b in answers
  {
    if answers != [] {
      SortMembers(answers[1..]);
      InsertOrderedMembers(answers[0], SortByResident(answers[1..]));
      assert forall b :: b in answers <==> b == answers[0] || b in answers[1..];
    }
  }

  lemma {:induction false} SortCounts(answers: seq<PollAnswer>)
    ensures CountChoice(SortByResident(answers), Yes) == CountChoice(answers, Yes)
  {
    if answers != [] {
      SortCounts(answers[1..]);
      InsertOrderedCounts(answers[0], SortByResident(answers[1..]));
    }
  }

  /** Sorting orders strictly when nobody answers twice. */
  lemma {:induction false} SortOrders(answers: seq<PollAnswer>)
    requires DistinctResidents(answers)
    ensures Ordered(SortByResident(answers))
  {
    if answers != [] {
      SortOrders(answers[1..]);
      SortMembers(answers[1..]);
      InsertOrderedOrders(answers[0], SortByResident(answers[1..]));
    }
  }

  lemma {:induction false} CountAppend(answers: seq<PollAnswer>, a: PollAnswer, choice: VoteChoice)
    ensures CountChoice(answers + [a], choice) == CountChoice(answers, choice) + CountChoice([a], choice)
  {
    if answers == [] {
      assert answers + [a] == [a];
    } else {
      CountAppend(answers[1..], a, choice);
      assert (answers + [a])[1..] == answers[1..] + [a];
    }
  }

  /** One vote replaces the voter's answer, keeps every other answer and keeps the order. */
  lemma WithAnswerReplaces(s: PollState, answer: PollAnswer)
    requires DistinctResidents(s.answers)
    ensures Ordered(WithAnswer(s, answer).answers)
    ensures forall a :: a in WithAnswer(s, answer).answers
                        <==> a == answer || (a in s.answers && a.resident != answer.resident)
    ensures CountChoice(WithAnswer(s, answer).answers, Yes)
         <= CountChoice(s.answers, Yes) + (if answer.choice.Yes? then 1 else 0)
  {
    var others := Without(s.answers, answer.resident);
    WithoutKeeps(s.answers, answer.resident);
    SortMembers(others);
    SortCounts(others);
    SortOrders(others);
    var sorted := SortByResident(others);
    SortMembers(sorted + [answer]);
    SortCounts(sorted + [answer]);
    CountAppend(sorted, answer, Yes);
    SortOrders(sorted + [answer]);
  }

  lemma WithAnswerIsValid(s: PollState, answer: PollAnswer)
    requires s.Valid() && answer.resident in s.definition.eligible
    ensures WithAnswer(s, answer).Valid()
  {
    WithAnswerReplaces(s, answer);
  }

  /** Each resident has one answer, so the answers never outnumber the frozen audience. */
  lemma TallyIsValid(s: PollState)
    requires s.Valid()
    ensures CountChoice(s.answers, Yes) + CountChoice(s.answers, No) <= |s.definition.eligible|
  {
    CountsAll(s.answers);
    NoMoreThanEligible(s.answers, s.definition.eligible);
  }

  lemma {:induction false} CountsAll(answers: seq<PollAnswer>)
    ensures CountChoice(answers, Yes) + CountChoice(answers, No) == |answers|
  {
    if answers != [] {
      CountsAll(answers[1..]);
    }
  }

  lemma {:induction false} NoMoreThanEligible(answers: seq<PollAnswer>, eligible: set<Id>)
    requires DistinctResidents(answers) && forall a <- answers :: a.resident in eligible
    ensures |answers| <= |eligible|
  {
    if answers != [] {
      NoMoreThanEligible(answers[1..], eligible - {answers[0].resident});
    }
  }

  /** An ordered list of answers is determined by what it answers for each resident. */
  lemma {:induction false} OrderedIsCanonical(a: seq<PollAnswer>, b: seq<PollAnswer>)
    requires Ordered(a) && Ordered(b)
    requires forall r :: FindAnswer(a, r) == FindAnswer(b, r)
    ensures a == b
  {
    if a != [] {
      assert FindAnswer(b, a[0].resident) == FindAnswer(a, a[0].resident);
      FindAnswerFinds(b, a[0].resident);
    }
    if b != [] {
      assert FindAnswer(a, b[0].resident) == FindAnswer(b, b[0].resident);
      FindAnswerFinds(a, b[0].resident);
    }
    if a != [] && b != [] {
      assert a[0] == b[0];
      forall r ensures FindAnswer(a[1..], r) == FindAnswer(b[1..], r) {
        assert FindAnswer(a, r) == FindAnswer(b, r);
        FindAnswerFinds(a[1..], r);
        FindAnswerFinds(b[1..], r);
      }
      OrderedIsCanonical(a[1..], b[1..]);
    }
  }
}
