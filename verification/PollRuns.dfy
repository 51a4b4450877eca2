/** What every run of a poll keeps, whatever votes, deadlines and cancellations reach it. */
module PollRuns {
  import opened Basics
  import opened PollPolicies
  import opened Polls

  // ---------------------------------------------------------------- the append-only history

  function Front(h: seq<PollAnswer>): seq<PollAnswer>
    requires h != []
  {
    h[..|h| - 1]
  }

  function Last(h: seq<PollAnswer>): PollAnswer
    requires h != []
  {
    h[|h| - 1]
  }

  /** The latest entry of a resident. */
  function LastOf(h: seq<PollAnswer>, resident: Id): Option<PollAnswer> {
    if h == [] then None
    else if Last(h).resident == resident then Some(Last(h))
    else LastOf(Front(h), resident)
  }

  /** How many entries a resident has. */
  function CountOf(h: seq<PollAnswer>, resident: Id): nat {
    if h == [] then 0
    else CountOf(Front(h), resident) + (if Last(h).resident == resident then 1 else 0)
  }

  function EventsOf(h: seq<PollAnswer>): set<Id> {
    set a | a in h :: a.sourceEvent
  }

  /** Each entry is a new event of an eligible resident, in time, numbered next, and a change of mind. */
  predicate Linked(d: PollDefinition, h: seq<PollAnswer>) {
    h == [] ||
    (var a := Last(h);
     && Linked(d, Front(h))
     && a.resident in d.eligible
     && d.opensAt <= a.receivedAt < d.closesAt
     && a.sourceEvent !in EventsOf(Front(h))
     && a.revision == CountOf(Front(h), a.resident) + 1
     && (LastOf(Front(h), a.resident).Some? ==> LastOf(Front(h), a.resident).value.choice != a.choice))
  }

  // ---------------------------------------------------------------- the invariant

  predicate BelowThreshold(s: PollState)
    requires s.Valid()
  {
    s.definition.policy.ProblemPolicy? && s.definition.eligible != {} ==>
      Tally(s).yes < Required(|s.definition.eligible|, s.definition.policy.thresholdRatio)
  }

  predicate Settled(s: PollState)
    requires s.Valid()
  {
    && s.version == 1 + |s.history| + (if s.status.Cancelled? || (s.status.Closed? && !s.thresholdEmitted) then 1 else 0)
    && (s.thresholdEmitted <==> s.outcome == Some(OfProblem(RequestReady)))
    && if s.thresholdEmitted then
         && s.definition.policy.ProblemPolicy? && s.definition.eligible != {}
         && Tally(s).yes == Required(|s.definition.eligible|, s.definition.policy.thresholdRatio)
       else
         && BelowThreshold(s)
         && (s.status.Closed? ==> s.outcome == Some(FinalOutcome(s)))
  }

  ghost predicate Inv(s: PollState) {
    && s.Valid()
    && Ordered(s.answers)
    && (forall r :: FindAnswer(s.answers, r) == LastOf(s.history, r))
    && Linked(s.definition, s.history)
    && s.processed == EventsOf(s.history)
    && Settled(s)
  }

  // ---------------------------------------------------------------- runs

  datatype PollCommand =
    | Vote(actor: Id, choice: VoteChoice, sourceEvent: Id, receivedAt: Time)
    | Deadline(now: Time)
    | Withdraw

  /** A command that is refused with an error leaves the poll as it was. */
  function Step(s: PollState, c: PollCommand): PollMutation
    requires s.Valid()
  {
    match c
    case Vote(actor, choice, event, at) => RecordAnswer(s, actor, choice, event, at)
    case Deadline(now) =>
      (match Finalize(s, now)
       case Ok(m) => m
       case Err(_) => PollMutation(s, None, []))
    case Withdraw => Cancel(s)
  }

  ghost function Run(s: PollState, cs: seq<PollCommand>): PollState
    requires Inv(s)
    decreases |cs|
  {
    if cs == [] then s
    else
      StepKeepsInv(s, cs[0]);
      Run(Step(s, cs[0]).state, cs[1..])
  }

  ghost function Emitted(s: PollState, cs: seq<PollCommand>): seq<PollEvent>
    requires Inv(s)
    decreases |cs|
  {
    if cs == [] then []
    else
      StepKeepsInv(s, cs[0]);
      Step(s, cs[0]).events + Emitted(Step(s, cs[0]).state, cs[1..])
  }

  lemma InitialInv(d: PollDefinition)
    requires d.Valid()
    ensures Inv(Initial(d))
  {
    if d.policy.ProblemPolicy? && d.eligible != {} {
      RequiredInRange(|d.eligible|, d.policy.thresholdRatio);
    }
  }

  lemma {:induction false} LastOfIsNumbered(d: PollDefinition, h: seq<PollAnswer>, resident: Id)
    requires Linked(d, h)
    ensures
      match LastOf(h, resident)
      case None => CountOf(h, resident) == 0
      case Some(a) => a.resident == resident && a.revision == CountOf(h, resident) > 0
  {
    if h != [] {
      LastOfIsNumbered(d, Front(h), resident);
    }
  }

  /** A vote that counts extends the history by one linked entry and keeps answers its projection. */
  lemma VoteKeepsProjection(s: PollState, actor: Id, choice: VoteChoice, event: Id, at: Time)
    requires Inv(s) && s.status.Open?
    requires event !in s.processed && actor in s.definition.eligible
    requires s.definition.opensAt <= at < s.definition.closesAt
    requires CurrentChoice(s.answers, actor) != Some(choice)
    ensures
      var answer := NextAnswer(FindAnswer(s.answers, actor), actor, choice, event, at);
      var u := WithAnswer(s, answer);
      && u.Valid() && Ordered(u.answers)
      && (forall r :: FindAnswer(u.answers, r) == LastOf(u.history, r))
      && Linked(u.definition, u.history)
      && u.processed == EventsOf(u.history)
  {
    hide SortByResident, Without, Settled, DistinctResidents;
    var answer := NextAnswer(FindAnswer(s.answers, actor), actor, choice, event, at);
    var u := WithAnswer(s, answer);
    WithAnswerIsValid(s, answer);
    WithAnswerReplaces(s, answer);
    assert Front(u.history) == s.history;
    assert FindAnswer(s.answers, actor) == LastOf(s.history, actor);
    LastOfIsNumbered(s.definition, s.history, actor);
    forall r ensures FindAnswer(u.answers, r) == LastOf(u.history, r) {
      ProjectionAfter(s, answer, r);
    }
    assert EventsOf(u.history) == EventsOf(s.history) + {event};
  }

  lemma ProjectionAfter(s: PollState, answer: PollAnswer, r: Id)
    requires DistinctResidents(s.answers) && FindAnswer(s.answers, r) == LastOf(s.history, r)
    ensures FindAnswer(WithAnswer(s, answer).answers, r) == LastOf(WithAnswer(s, answer).history, r)
  {
    hide SortByResident, Without;
    var u := WithAnswer(s, answer);
    WithAnswerReplaces(s, answer);
    assert Front(u.history) == s.history;
    FindAnswerFinds(u.answers, r);
    FindAnswerFinds(s.answers, r);
    if r == answer.resident {
      FindsMember(u.answers, answer);
    } else if FindAnswer(s.answers, r).Some? {
      FindsMember(u.answers, FindAnswer(s.answers, r).value);
    }
  }

  /** A vote adds at most one YES, so an open problem poll passes from below its quota to exactly the quota. */
  lemma VoteSettles(s: PollState, actor: Id, choice: VoteChoice, event: Id, at: Time)
    requires Inv(s) && RecordAnswer(s, actor, choice, event, at).state != s
    ensures
      var u := RecordAnswer(s, actor, choice, event, at).state;
      u.Valid() && Settled(u)
  {
    hide Linked, Ordered, FindAnswer, LastOf, SortByResident, Without, EventsOf;
    var answer := NextAnswer(FindAnswer(s.answers, actor), actor, choice, event, at);
    WithAnswerReplaces(s, answer);
    WithAnswerIsValid(s, answer);
    assert |s.definition.eligible| > 0;
  }

  lemma VoteKeepsInv(s: PollState, actor: Id, choice: VoteChoice, event: Id, at: Time)
    requires Inv(s)
    ensures Inv(RecordAnswer(s, actor, choice, event, at).state)
  {
    hide Linked, Ordered, FindAnswer, LastOf, SortByResident, Without, EventsOf, Settled, DistinctResidents;
    if RecordAnswer(s, actor, choice, event, at).state != s {
      VoteKeepsProjection(s, actor, choice, event, at);
      VoteSettles(s, actor, choice, event, at);
    }
  }

  lemma StepKeepsInv(s: PollState, c: PollCommand)
    requires Inv(s)
    ensures Inv(Step(s, c).state)
  {
    hide Linked, Ordered, FindAnswer, LastOf, EventsOf, DistinctResidents, RecordAnswer;
    if c.Vote? {
      VoteKeepsInv(s, c.actor, c.choice, c.sourceEvent, c.receivedAt);
    }
  }

  lemma UncountedVote(s: PollState, actor: Id, choice: VoteChoice, event: Id, at: Time)
    requires s.Valid() && RecordAnswer(s, actor, choice, event, at).state == s
    ensures RecordAnswer(s, actor, choice, event, at).events == []
  {
    VoteCountsIff(s, actor, choice, event, at);
  }

  /** The shape of a vote that counts, as the repository has to store it. */
  predicate Counted(s: PollState, m: PollMutation, answer: PollAnswer) {
    && m.state == WithAnswer(s, answer).(status := m.state.status, outcome := m.state.outcome,
                                         thresholdEmitted := m.state.thresholdEmitted)
    && FindAnswer(m.state.answers, answer.resident) == Some(answer)
    && answer.revision == CountOf(s.history, answer.resident) + 1
    && answer.sourceEvent !in s.processed
    && s.status.Open? && !s.thresholdEmitted
    && m.state.thresholdEmitted == m.state.status.Closed? == (m.events == [ThresholdReached])
    && (m.state.status.Open? || m.state.status.Closed?)
  }

  lemma CountedVote(s: PollState, actor: Id, choice: VoteChoice, event: Id, at: Time) returns (answer: PollAnswer)
    requires Inv(s) && RecordAnswer(s, actor, choice, event, at).state != s
    ensures Counted(s, RecordAnswer(s, actor, choice, event, at), answer)
    ensures answer.resident == actor && answer.sourceEvent == event && answer.receivedAt == at
  {
    answer := NextAnswer(FindAnswer(s.answers, actor), actor, choice, event, at);
    WithAnswerReplaces(s, answer);
    FindsMember(WithAnswer(s, answer).answers, answer);
    assert FindAnswer(s.answers, actor) == LastOf(s.history, actor);
    LastOfIsNumbered(s.definition, s.history, actor);
  }

  // ---------------------------------------------------------------- main results

  lemma {:induction false} RunKeepsInv(s: PollState, cs: seq<PollCommand>)
    requires Inv(s)
    ensures Inv(Run(s, cs)) && Run(s, cs).definition == s.definition
    decreases |cs|
  {
    if cs != [] {
      StepKeepsInv(s, cs[0]);
      RunKeepsInv(Step(s, cs[0]).state, cs[1..]);
    }
  }

  /** Once a poll is closed or cancelled no command changes it or emits anything. */
  lemma {:induction false} TerminalIsFrozen(s: PollState, cs: seq<PollCommand>)
    requires Inv(s) && !s.status.Open?
    ensures Run(s, cs) == s && Emitted(s, cs) == []
    decreases |cs|
  {
    if cs != [] {
      TerminalIsFrozen(s, cs[1..]);
    }
  }

  /** The announcement that goes with a state: none while open, exactly one afterwards. */
  function Announcement(s: PollState): seq<PollEvent> {
    match s.status
    case Open => []
    case Cancelled => [PollCancelled]
    case Closed => if s.thresholdEmitted then [ThresholdReached] else [Finalized]
  }

  /** One command on an open poll announces exactly what its new state says. */
  lemma StepAnnounces(s: PollState, c: PollCommand)
    requires Inv(s) && s.status.Open?
    ensures Step(s, c).events == Announcement(Step(s, c).state)
  {
    hide Linked, Ordered, FindAnswer, LastOf, SortByResident, Without, FinalOutcome, CurrentChoice, DistinctResidents;
  }

  /** A whole run announces exactly what its final state says, hence one terminal event at most. */
  lemma {:induction false} AnnouncedOnce(s: PollState, cs: seq<PollCommand>)
    requires Inv(s) && s.status.Open?
    ensures Emitted(s, cs) == Announcement(Run(s, cs))
    decreases |cs|
  {
    hide Linked, Ordered, FindAnswer, LastOf, Step, Settled;
    if cs != [] {
      var next := Step(s, cs[0]);
      StepKeepsInv(s, cs[0]);
      StepAnnounces(s, cs[0]);
      if next.state.status.Open? {
        AnnouncedOnce(next.state, cs[1..]);
      } else {
        TerminalIsFrozen(next.state, cs[1..]);
      }
    }
  }

  /** The exact condition under which a delivered vote changes anything at all. */
  lemma VoteCountsIff(s: PollState, actor: Id, choice: VoteChoice, event: Id, at: Time)
    requires s.Valid()
    ensures RecordAnswer(s, actor, choice, event, at).state != s
       <==> && s.status.Open?
            && event !in s.processed
            && actor in s.definition.eligible
            && s.definition.opensAt <= at < s.definition.closesAt
            && CurrentChoice(s.answers, actor) != Some(choice)
  {
    if RecordAnswer(s, actor, choice, event, at).state == s {
      assert s.version != s.version + 1;
    }
  }

  /** Every history entry of a reachable poll, read by its index. */
  lemma {:induction false} LinkedEntry(d: PollDefinition, h: seq<PollAnswer>, i: nat)
    requires Linked(d, h) && i < |h|
    ensures Linked(d, h[..i])
    ensures h[i].revision == CountOf(h[..i], h[i].resident) + 1
    ensures h[i].sourceEvent !in EventsOf(h[..i])
    ensures h[i].resident in d.eligible && d.opensAt <= h[i].receivedAt < d.closesAt
    ensures LastOf(h[..i], h[i].resident).Some? ==> LastOf(h[..i], h[i].resident).value.choice != h[i].choice
  {
    if i < |h| - 1 {
      LinkedEntry(d, Front(h), i);
      assert Front(h)[..i] == h[..i];
    }
  }

  lemma {:induction false} CountGrows(h: seq<PollAnswer>, i: nat, j: nat, resident: Id)
    requires i <= j <= |h|
    ensures CountOf(h[..i], resident) <= CountOf(h[..j], resident)
    ensures (exists k :: i <= k < j && h[k].resident == resident) ==>
              CountOf(h[..i], resident) < CountOf(h[..j], resident)
  {
    if i < j {
      CountGrows(h, i, j - 1, resident);
      assert Front(h[..j]) == h[..j - 1];
    }
  }

  /** Two entries of one resident have different numbers, and neighbours in that numbering disagree. */
  lemma NumberedAndAlternating(d: PollDefinition, h: seq<PollAnswer>, i: nat, j: nat)
    requires Linked(d, h) && i < j < |h| && h[i].resident == h[j].resident
    ensures h[i].revision < h[j].revision
    ensures h[i].sourceEvent != h[j].sourceEvent
    ensures h[j].revision == h[i].revision + 1 ==> h[i].choice != h[j].choice
  {
    var r := h[i].resident;
    LinkedEntry(d, h, i);
    LinkedEntry(d, h, j);
    CountGrows(h, i, j, r);
    assert h[i] in h[..j];
    if h[j].revision == h[i].revision + 1 {
      SoleEntryIsLast(h, i, j);
    }
  }

  lemma {:induction false} SoleEntryIsLast(h: seq<PollAnswer>, i: nat, j: nat)
    requires i < j <= |h|
    requires CountOf(h[..j], h[i].resident) == CountOf(h[..i], h[i].resident) + 1
    ensures LastOf(h[..j], h[i].resident) == Some(h[i])
    decreases j
  {
    var r := h[i].resident;
    assert Front(h[..j]) == h[..j - 1];
    if i < j - 1 {
      CountGrows(h, i, j - 1, r);
      assert h[j - 1].resident != r;
      SoleEntryIsLast(h, i, j - 1);
    }
  }

  /** Main result: the stored facts of a poll agree with each other on every reachable state. */
  lemma ReachablePoll(d: PollDefinition, cs: seq<PollCommand>)
    requires d.Valid()
    ensures Inv(Initial(d))
    ensures
      var s := Run(Initial(d), cs);
      var h := s.history;
      && (forall a :: a in s.answers <==> LastOf(h, a.resident) == Some(a))
      && (forall a <- s.answers :: a.revision == CountOf(h, a.resident))
      && s.processed == EventsOf(h)
      && (forall i, j :: 0 <= i < j < |h| ==> h[i].sourceEvent != h[j].sourceEvent)
      && (forall i, j :: 0 <= i < j < |h| && h[i].resident == h[j].resident ==>
            h[i].revision < h[j].revision && (h[j].revision == h[i].revision + 1 ==> h[i].choice != h[j].choice))
      && |Emitted(Initial(d), cs)| <= 1
      && s.version == 1 + |h| + (if s.status.Cancelled? || Finalized in Emitted(Initial(d), cs) then 1 else 0)
  {
    InitialInv(d);
    RunKeepsInv(Initial(d), cs);
    AnnouncedOnce(Initial(d), cs);
    var s := Run(Initial(d), cs);
    var h := s.history;
    forall a ensures a in s.answers <==> LastOf(h, a.resident) == Some(a) {
      assert FindAnswer(s.answers, a.resident) == LastOf(h, a.resident);
      FindAnswerFinds(s.answers, a.resident);
      if a in s.answers {
        FindsMember(s.answers, a);
      }
    }
    forall a <- s.answers ensures a.revision == CountOf(h, a.resident) {
      LastOfIsNumbered(d, h, a.resident);
    }
    forall i, j | 0 <= i < j < |h| ensures h[i].sourceEvent != h[j].sourceEvent {
      LinkedEntry(d, h, j);
      assert h[i] in h[..j];
    }
    forall i, j | 0 <= i < j < |h| && h[i].resident == h[j].resident
      ensures h[i].revision < h[j].revision && (h[j].revision == h[i].revision + 1 ==> h[i].choice != h[j].choice)
    {
      NumberedAndAlternating(d, h, i, j);
    }
  }

  /** Main result: a problem poll announces REQUEST_READY exactly when a vote made YES meet the quota. */
  lemma ReachableProblemPoll(d: PollDefinition, cs: seq<PollCommand>)
    requires d.Valid() && d.policy.ProblemPolicy? && d.eligible != {}
    ensures Inv(Initial(d))
    ensures
      var s := Run(Initial(d), cs);
      var quota := Required(|d.eligible|, d.policy.thresholdRatio);
      && s.Valid()
      && (Emitted(Initial(d), cs) == [ThresholdReached] <==> s.outcome == Some(OfProblem(RequestReady)))
      && (s.thresholdEmitted <==> s.outcome == Some(OfProblem(RequestReady)))
      && Tally(s).yes <= quota
      && (Tally(s).yes == quota <==> s.thresholdEmitted)
      && (Emitted(Initial(d), cs) == [Finalized] <==> s.outcome == Some(OfProblem(NeedEvidence)))
  {
    InitialInv(d);
    RunKeepsInv(Initial(d), cs);
    AnnouncedOnce(Initial(d), cs);
  }
}
