/** What the answers of a poll amount to, resident by resident: the tally, the reply to a vote, the final outcome. */
module PollAnswers {
  import opened Basics
  import opened PollPolicies
  import opened Polls
  import opened PollRuns

  /** The residents of the audience whose current answer is this choice. */
  function Saying(s: PollState, choice: VoteChoice): set<Id> {
    set r | r in s.definition.eligible && CurrentChoice(s.answers, r) == Some(choice)
  }

  // ---------------------------------------------------------------- the tally

  function Voters(answers: seq<PollAnswer>, choice: VoteChoice): set<Id> {
    set a | a in answers && a.choice == choice :: a.resident
  }

  lemma {:induction false} VotersAreCounted(answers: seq<PollAnswer>, choice: VoteChoice)
    requires DistinctResidents(answers)
    ensures CountChoice(answers, choice) == |Voters(answers, choice)|
  {
    if answers != [] {
      var rest := answers[1..];
      VotersAreCounted(rest, choice);
      assert forall a :: a in answers <==> a == answers[0] || a in rest;
      if answers[0].choice == choice {
        assert Voters(answers, choice) == Voters(rest, choice) + {answers[0].resident};
        assert answers[0].resident !in Voters(rest, choice);
      } else {
        assert Voters(answers, choice) == Voters(rest, choice);
      }
    }
  }

  lemma VotersSayIt(s: PollState, choice: VoteChoice)
    requires s.Valid()
    ensures Voters(s.answers, choice) == Saying(s, choice)
  {
    forall r ensures r in Voters(s.answers, choice) <==> r in Saying(s, choice) {
      FindAnswerFinds(s.answers, r);
      if r in Voters(s.answers, choice) {
        var a :| a in s.answers && a.choice == choice && a.resident == r;
        FindsMember(s.answers, a);
      }
    }
  }

  /** The tally counts residents: the audience, those of it who say YES, and those of it who say NO. */
  lemma TallyCountsResidents(s: PollState)
    requires s.Valid()
    ensures Tally(s).eligible == |s.definition.eligible|
    ensures Tally(s).yes == |Saying(s, Yes)| && Tally(s).no == |Saying(s, No)|
  {
    VotersAreCounted(s.answers, Yes);
    VotersAreCounted(s.answers, No);
    VotersSayIt(s, Yes);
    VotersSayIt(s, No);
  }

  // ---------------------------------------------------------------- the reply to a vote

  predicate InTime(s: PollState, at: Time) {
    s.definition.opensAt <= at < s.definition.closesAt
  }

  /**
   * What a voter is told: a known event or a repeated choice is a duplicate, then the audience, the window and the
   * state of the poll are looked at in this order; a first answer is recorded and a later one changed, and from then
   * on that choice is the voter's, while nobody else's changes.
   */
  lemma VoteIsAnswered(s: PollState, actor: Id, choice: VoteChoice, event: Id, at: Time)
    requires s.Valid()
    ensures
      var m := RecordAnswer(s, actor, choice, event, at);
      var before := CurrentChoice(s.answers, actor);
      var isNew := event !in s.processed;
      var member := actor in s.definition.eligible;
      && m.result.Some?
      && var status := m.result.value.status;
      && (status.NotEligible? <==> isNew && !member)
      && (status.Late? <==> isNew && member && !InTime(s, at))
      && (status.AlreadyClosed? <==> isNew && member && InTime(s, at) && !s.status.Open?)
      && (status.Duplicate? <==> !isNew || (member && InTime(s, at) && s.status.Open? && before == Some(choice)))
      && (status.Recorded? <==> isNew && member && InTime(s, at) && s.status.Open? && before.None?)
      && (status.Changed? <==> isNew && member && InTime(s, at) && s.status.Open? && before.Some?
                               && before != Some(choice))
      && m.result.value.pollVersion == m.state.version
      && (status.Recorded? || status.Changed? ==>
            m.state.version == s.version + 1 && CurrentChoice(m.state.answers, actor) == Some(choice))
      && m.result.value.current == (if status.Recorded? || status.Changed? then Some(choice)
                                    else if status.Duplicate? then before else None)
      && (!status.Recorded? && !status.Changed? ==> m.state == s && m.events == [])
      && forall r :: r != actor ==> CurrentChoice(m.state.answers, r) == CurrentChoice(s.answers, r)
  {
    var m := RecordAnswer(s, actor, choice, event, at);
    if m.state != s {
      var answer := NextAnswer(FindAnswer(s.answers, actor), actor, choice, event, at);
      ReplacedChoice(s, answer);
    }
  }

  lemma ReplacedChoice(s: PollState, answer: PollAnswer)
    requires DistinctResidents(s.answers)
    ensures
      var u := WithAnswer(s, answer);
      && CurrentChoice(u.answers, answer.resident) == Some(answer.choice)
      && forall r :: r != answer.resident ==> CurrentChoice(u.answers, r) == CurrentChoice(s.answers, r)
  {
    var u := WithAnswer(s, answer);
    WithAnswerReplaces(s, answer);
    FindsMember(u.answers, answer);
    forall r | r != answer.resident ensures FindAnswer(u.answers, r) == FindAnswer(s.answers, r) {
      FindAnswerFinds(u.answers, r);
      FindAnswerFinds(s.answers, r);
      if FindAnswer(s.answers, r).Some? {
        FindsMember(u.answers, FindAnswer(s.answers, r).value);
      }
    }
  }

  // ---------------------------------------------------------------- a cancellation

  /** Cancelling kills an open poll and its votes count no more; a finished poll stays as it is. */
  lemma CancelledIsDead(s: PollState, actor: Id, choice: VoteChoice, event: Id, at: Time, now: Time)
    requires s.Valid()
    ensures
      var m := Cancel(s);
      && m.state.Valid() && m.result.None?
      && (!s.status.Open? ==> m.state == s && m.events == [])
      && (s.status.Open? ==>
            && m.events == [PollCancelled] && m.state.version == s.version + 1 && m.state.outcome.None?
            && m.state == s.(status := Cancelled, version := m.state.version)
            && RecordAnswer(m.state, actor, choice, event, at).state == m.state
            && Finalize(m.state, now).Ok? && Finalize(m.state, now).value.state == m.state)
  {
  }

  // ---------------------------------------------------------------- the final outcome

  // Enough of the audience answers, and enough of the answers are YES.
  predicate SupportedBy(policy: PollPolicy, audience: int, yes: int, no: int)
    requires policy.InitiativePolicy?
  {
    audience > 0 && Reaches(yes + no, audience, policy.minParticipation)
    && Reaches(yes, yes + no, policy.minSupportAnswered)
  }

  // Not more of the answers than tolerated are NO, somebody answers, enough of the audience does, and enough say YES.
  predicate ConfirmedBy(policy: PollPolicy, audience: int, yes: int, no: int)
    requires policy.ResolutionPolicy?
  {
    && !Exceeds(no, yes + no, policy.reopenNoRatio)
    && yes + no > 0 && Reaches(yes + no, audience, policy.minResponseRatio)
    && Reaches(yes, yes + no, policy.minYesAnswered)
  }

  /** What a deadline makes of an audience of which so many say YES and so many NO. */
  function OutcomeBy(policy: PollPolicy, audience: int, yes: int, no: int): PollOutcome {
    match policy
    case ProblemPolicy(threshold, _) =>
      OfProblem(if audience == 0 then ProblemOutcome.NoAudience
                else if Reaches(yes, audience, threshold) then RequestReady else NeedEvidence)
    case InitiativePolicy(_, _) =>
      OfInitiative(if audience == 0 then InitiativeOutcome.NoAudience
                   else if SupportedBy(policy, audience, yes, no) then Supported else NotSupported)
    case ResolutionPolicy(_, _, reopenNoRatio) =>
      OfResolution(if Exceeds(no, yes + no, reopenNoRatio) then Reopened
                   else if ConfirmedBy(policy, audience, yes, no) then ResolutionOutcome.Closed else Unconfirmed)
  }

  /** What it makes of the residents' answers. */
  function OutcomeOfResidents(s: PollState): PollOutcome {
    OutcomeBy(s.definition.policy, |s.definition.eligible|, |Saying(s, Yes)|, |Saying(s, No)|)
  }

  function Evaluated(t: VoteTally, policy: PollPolicy): PollOutcome
    requires t.Valid() && policy.Valid()
  {
    match policy
    case ProblemPolicy(_, _) => OfProblem(EvaluateProblem(t, policy, true))
    case InitiativePolicy(_, _) => OfInitiative(EvaluateInitiative(t, policy, true))
    case ResolutionPolicy(_, _, _) => OfResolution(EvaluateResolution(t, policy, true))
  }

  lemma EvaluatedByCounts(t: VoteTally, policy: PollPolicy)
    requires t.Valid() && policy.Valid()
    ensures Evaluated(t, policy) == OutcomeBy(policy, t.eligible, t.yes, t.no)
  {
    hide EvaluateProblem, EvaluateInitiative, EvaluateResolution, Reaches, Exceeds;
    match policy {
      case ProblemPolicy(_, _) => ProblemReadyIff(t, policy, true);
      case InitiativePolicy(_, _) => InitiativeSupportedIff(t, policy, true);
      case ResolutionPolicy(_, _, _) => ResolutionDecidedIff(t, policy, true);
    }
  }

  lemma FinalOutcomeOfResidents(s: PollState)
    requires s.Valid()
    ensures FinalOutcome(s) == OutcomeOfResidents(s)
  {
    hide EvaluateProblem, EvaluateInitiative, EvaluateResolution, OutcomeBy, Saying, VoteTally.Valid, Required;
    TallyCountsResidents(s);
    EvaluatedByCounts(Tally(s), s.definition.policy);
  }

  /**
   * Main result: the deadline closes an open poll, keeps every answer, announces itself once, and its outcome is what
   * the residents' answers say; a problem poll that is still open then never has its quota.
   */
  lemma DeadlineDecides(s: PollState, now: Time)
    requires Inv(s) && s.status.Open?
    ensures Finalize(s, now).Err? <==> now < s.definition.closesAt
    ensures now >= s.definition.closesAt ==>
      var m := Finalize(s, now).value;
      && m.events == [Finalized] && m.result.None?
      && m.state.status.Closed? && m.state.outcome.Some? && m.state.version == s.version + 1
      && m.state == s.(status := m.state.status, version := m.state.version, outcome := m.state.outcome)
      && m.state.outcome == Some(OutcomeOfResidents(m.state))
      && (s.definition.policy.ProblemPolicy? && s.definition.eligible != {} ==>
            m.state.outcome == Some(OfProblem(NeedEvidence)))
  {
    if now >= s.definition.closesAt {
      FinalOutcomeOfResidents(s);
      var u := Finalize(s, now).value.state;
      assert Saying(u, Yes) == Saying(s, Yes) && Saying(u, No) == Saying(s, No);
    }
  }

  /** Main result: every closed poll that a run can reach has the outcome its residents' answers call for. */
  lemma ClosedFits(s: PollState)
    requires Inv(s) && s.status.Closed?
    ensures s.outcome == Some(OutcomeOfResidents(s))
  {
    FinalOutcomeOfResidents(s);
    if s.thresholdEmitted {
      ReadyIsFinal(s);
    }
    hide OutcomeOfResidents;
  }

  lemma ReadyIsFinal(s: PollState)
    requires Inv(s) && s.status.Closed? && s.thresholdEmitted
    ensures s.outcome == Some(OfProblem(RequestReady)) && FinalOutcome(s) == OfProblem(RequestReady)
  {
    hide Required;
    assert |s.definition.eligible| > 0;
  }
}
