/** How far the order in which an at-least-once inbox delivers votes can matter. */
module PollInterleaving {
  import opened Basics
  import opened PollPolicies
  import opened Polls
  import opened PollRuns

  datatype Ballot = Ballot(actor: Id, choice: VoteChoice, sourceEvent: Id, receivedAt: Time)

  function Cast(s: PollState, v: Ballot): PollState
    requires s.Valid()
  {
    RecordAnswer(s, v.actor, v.choice, v.sourceEvent, v.receivedAt).state
  }

  ghost function CastAll(s: PollState, vs: seq<Ballot>): PollState
    requires Inv(s)
    decreases |vs|
  {
    if vs == [] then s
    else
      CastKeepsInv(s, vs[0]);
      CastAll(Cast(s, vs[0]), vs[1..])
  }

  lemma CastKeepsInv(s: PollState, v: Ballot)
    requires Inv(s)
    ensures Inv(Cast(s, v)) && Cast(s, v).definition == s.definition
    ensures !s.status.Open? ==> Cast(s, v) == s
  {
    StepKeepsInv(s, Vote(v.actor, v.choice, v.sourceEvent, v.receivedAt));
  }

  lemma {:induction false} CastAllKeepsInv(s: PollState, vs: seq<Ballot>)
    requires Inv(s)
    ensures Inv(CastAll(s, vs)) && CastAll(s, vs).definition == s.definition
    ensures !s.status.Open? ==> CastAll(s, vs) == s
    decreases |vs|
  {
    if vs != [] {
      CastKeepsInv(s, vs[0]);
      CastAllKeepsInv(Cast(s, vs[0]), vs[1..]);
    }
  }

  // ---------------------------------------------------------------- one resident at a time

  function EntriesOf(h: seq<PollAnswer>, resident: Id): seq<PollAnswer> {
    if h == [] then []
    else EntriesOf(Front(h), resident) + (if Last(h).resident == resident then [Last(h)] else [])
  }

  function BallotsOf(vs: seq<Ballot>, resident: Id): seq<Ballot> {
    if vs == [] then []
    else (if vs[0].actor == resident then [vs[0]] else []) + BallotsOf(vs[1..], resident)
  }

  // The poll takes this ballot into account while it is open.
  predicate Counts(d: PollDefinition, v: Ballot) {
    v.actor in d.eligible && d.opensAt <= v.receivedAt < d.closesAt
  }

  /** What one resident's ballots, taken alone, add to that resident's entries. */
  function Extend(d: PollDefinition, entries: seq<PollAnswer>, vs: seq<Ballot>): seq<PollAnswer>
    decreases |vs|
  {
    if vs == [] then entries
    else Extend(d, ExtendOne(d, entries, vs[0]), vs[1..])
  }

  function ExtendOne(d: PollDefinition, entries: seq<PollAnswer>, v: Ballot): seq<PollAnswer> {
    if !Counts(d, v) then entries
    else if entries != [] && Last(entries).choice == v.choice then entries
    else
      entries + [NextAnswer(if entries == [] then None else Some(Last(entries)),
                            v.actor, v.choice, v.sourceEvent, v.receivedAt)]
  }

  lemma {:induction false} LastOfEntries(h: seq<PollAnswer>, resident: Id)
    ensures LastOf(h, resident) ==
            if EntriesOf(h, resident) == [] then None else Some(Last(EntriesOf(h, resident)))
  {
    if h != [] {
      LastOfEntries(Front(h), resident);
    }
  }

  /** While the poll stays open, a fresh ballot touches only its own resident's entries. */
  lemma CastExtends(s: PollState, v: Ballot, resident: Id)
    requires Inv(s) && s.status.Open? && v.sourceEvent !in s.processed
    ensures EntriesOf(Cast(s, v).history, resident) ==
            if v.actor == resident then ExtendOne(s.definition, EntriesOf(s.history, resident), v)
            else EntriesOf(s.history, resident)
    ensures Cast(s, v).processed <= s.processed + {v.sourceEvent}
  {
    LastOfEntries(s.history, resident);
    assert FindAnswer(s.answers, resident) == LastOf(s.history, resident);
    var h := Cast(s, v).history;
    if h != s.history {
      assert Front(h) == s.history;
    }
  }

  predicate Fresh(processed: set<Id>, vs: seq<Ballot>) {
    && (forall v <- vs :: v.sourceEvent !in processed)
    && (forall i, j :: 0 <= i < j < |vs| ==> vs[i].sourceEvent != vs[j].sourceEvent)
  }

  lemma FreshTail(s: PollState, vs: seq<Ballot>)
    requires Inv(s) && s.status.Open? && vs != [] && Fresh(s.processed, vs)
    ensures Fresh(Cast(s, vs[0]).processed, vs[1..])
  {
    CastExtends(s, vs[0], vs[0].actor);
  }

  lemma ExtendFirst(d: PollDefinition, entries: seq<PollAnswer>, v: Ballot, vs: seq<Ballot>)
    ensures Extend(d, entries, [v] + vs) == Extend(d, ExtendOne(d, entries, v), vs)
  {
    assert ([v] + vs)[1..] == vs;
  }

  lemma {:induction false} CastAllExtends(s: PollState, vs: seq<Ballot>, resident: Id)
    requires Inv(s) && Fresh(s.processed, vs)
    requires s.status.Open? && CastAll(s, vs).status.Open?
    ensures EntriesOf(CastAll(s, vs).history, resident)
         == Extend(s.definition, EntriesOf(s.history, resident), BallotsOf(vs, resident))
    decreases |vs|
  {
    if vs != [] {
      var next := Cast(s, vs[0]);
      CastKeepsInv(s, vs[0]);
      CastAllKeepsInv(next, vs[1..]);
      FreshTail(s, vs);
      CastAllExtends(next, vs[1..], resident);
      CastExtends(s, vs[0], resident);
      ExtendFirst(s.definition, EntriesOf(s.history, resident), vs[0], BallotsOf(vs[1..], resident));
      assert [] + BallotsOf(vs[1..], resident) == BallotsOf(vs[1..], resident);
    }
  }

  // ---------------------------------------------------------------- histories as multisets

  lemma {:induction false} EntriesCount(h: seq<PollAnswer>, a: PollAnswer)
    ensures multiset(h)[a] == multiset(EntriesOf(h, a.resident))[a]
  {
    if h != [] {
      EntriesCount(Front(h), a);
      assert h == Front(h) + [Last(h)];
    }
  }

  lemma SameEntriesSameMultiset(h: seq<PollAnswer>, k: seq<PollAnswer>)
    requires forall r :: EntriesOf(h, r) == EntriesOf(k, r)
    ensures multiset(h) == multiset(k)
  {
    forall a: PollAnswer ensures multiset(h)[a] == multiset(k)[a] {
      EntriesCount(h, a);
      EntriesCount(k, a);
      assert EntriesOf(h, a.resident) == EntriesOf(k, a.resident);
    }
  }

  /** Two open states of one poll with the same entries per resident differ only in history order. */
  lemma SameEntriesSameState(s: PollState, u: PollState)
    requires Inv(s) && Inv(u) && s.definition == u.definition && s.status.Open? && u.status.Open?
    requires forall r :: EntriesOf(s.history, r) == EntriesOf(u.history, r)
    ensures multiset(s.history) == multiset(u.history)
    ensures u == s.(history := u.history)
  {
    SameEntriesSameMultiset(s.history, u.history);
    assert |s.history| == |multiset(s.history)| == |multiset(u.history)| == |u.history|;
    forall r ensures FindAnswer(s.answers, r) == FindAnswer(u.answers, r) {
      LastOfEntries(s.history, r);
      LastOfEntries(u.history, r);
      assert FindAnswer(s.answers, r) == LastOf(s.history, r);
      assert FindAnswer(u.answers, r) == LastOf(u.history, r);
      assert EntriesOf(s.history, r) == EntriesOf(u.history, r);
    }
    OrderedIsCanonical(s.answers, u.answers);
    forall e ensures e in EventsOf(s.history) <==> e in EventsOf(u.history) {
      if e in EventsOf(s.history) {
        var a :| a in s.history && a.sourceEvent == e;
        assert a in multiset(u.history);
      }
      if e in EventsOf(u.history) {
        var a :| a in u.history && a.sourceEvent == e;
        assert a in multiset(s.history);
      }
    }
  }

  /**
   * Main result: as long as the poll stays open, only each resident's own order of ballots matters.
   * Both orders end with the same answers, processed events and version, so also with the same
   * outcome at the deadline; the histories are permutations of each other.
   */
  lemma InterleavingsAgree(s: PollState, vs: seq<Ballot>, ws: seq<Ballot>, now: Time)
    requires Inv(s) && s.status.Open? && Fresh(s.processed, vs) && Fresh(s.processed, ws)
    requires forall r :: BallotsOf(vs, r) == BallotsOf(ws, r)
    requires CastAll(s, vs).status.Open? && CastAll(s, ws).status.Open?
    ensures Inv(CastAll(s, vs)) && Inv(CastAll(s, ws))
    ensures
      var a, b := CastAll(s, vs), CastAll(s, ws);
      && b == a.(history := b.history)
      && multiset(a.history) == multiset(b.history)
      && Step(b, Deadline(now)).state.outcome == Step(a, Deadline(now)).state.outcome
      && Step(b, Deadline(now)).state.status == Step(a, Deadline(now)).state.status
  {
    var a, b := CastAll(s, vs), CastAll(s, ws);
    CastAllKeepsInv(s, vs);
    CastAllKeepsInv(s, ws);
    forall r ensures EntriesOf(a.history, r) == EntriesOf(b.history, r) {
      CastAllExtends(s, vs, r);
      CastAllExtends(s, ws, r);
      assert BallotsOf(vs, r) == BallotsOf(ws, r);
    }
    SameEntriesSameState(a, b);
  }

  /** Votes alone never close an initiative poll or a resolution check. */
  lemma {:induction false} OnlyProblemPollsCloseEarly(s: PollState, vs: seq<Ballot>)
    requires Inv(s) && s.status.Open? && !s.definition.policy.ProblemPolicy?
    ensures CastAll(s, vs).status.Open?
    decreases |vs|
  {
    if vs != [] {
      CastKeepsInv(s, vs[0]);
      OnlyProblemPollsCloseEarly(Cast(s, vs[0]), vs[1..]);
    }
  }

  /** Main result for initiative and resolution polls: the order between residents never matters. */
  lemma InterleavingsAgreeWithoutThreshold(s: PollState, vs: seq<Ballot>, ws: seq<Ballot>, now: Time)
    requires Inv(s) && s.status.Open? && !s.definition.policy.ProblemPolicy?
    requires Fresh(s.processed, vs) && Fresh(s.processed, ws)
    requires forall r :: BallotsOf(vs, r) == BallotsOf(ws, r)
    ensures Inv(CastAll(s, vs)) && Inv(CastAll(s, ws))
    ensures
      var a, b := CastAll(s, vs), CastAll(s, ws);
      && b == a.(history := b.history)
      && multiset(a.history) == multiset(b.history)
      && Step(b, Deadline(now)).state.outcome == Step(a, Deadline(now)).state.outcome
  {
    OnlyProblemPollsCloseEarly(s, vs);
    OnlyProblemPollsCloseEarly(s, ws);
    InterleavingsAgree(s, vs, ws, now);
  }

  // ---------------------------------------------------------------- redelivery

  /** ds delivers vs in order, with extra copies of events that had already been applied. */
  ghost predicate Redelivers(s: PollState, vs: seq<Ballot>, ds: seq<Ballot>)
    requires Inv(s)
    decreases |ds|
  {
    if ds == [] then vs == []
    else
      CastKeepsInv(s, ds[0]);
      || (ds[0].sourceEvent in s.processed && Redelivers(s, vs, ds[1..]))
      || (vs != [] && ds[0] == vs[0] && Redelivers(Cast(s, ds[0]), vs[1..], ds[1..]))
  }

  /** Main result: redelivering applied events, anywhere and any number of times, changes nothing. */
  lemma {:induction false} RedeliveryIsSilent(s: PollState, vs: seq<Ballot>, ds: seq<Ballot>)
    requires Inv(s) && Redelivers(s, vs, ds)
    ensures CastAll(s, ds) == CastAll(s, vs)
    decreases |ds|
  {
    if ds != [] {
      CastKeepsInv(s, ds[0]);
      if ds[0].sourceEvent in s.processed && Redelivers(s, vs, ds[1..]) {
        RedeliveryIsSilent(s, vs, ds[1..]);
      } else {
        RedeliveryIsSilent(Cast(s, ds[0]), vs[1..], ds[1..]);
      }
    }
  }

  // ---------------------------------------------------------------- the residents who say YES

  lemma {:induction false} SupportersAreCounted(answers: seq<PollAnswer>)
    requires DistinctResidents(answers)
    ensures CountChoice(answers, Yes) == |set a | a in answers && a.choice.Yes? :: a.resident|
  {
    if answers != [] {
      var rest := answers[1..];
      SupportersAreCounted(rest);
      var all := set a | a in answers && a.choice.Yes? :: a.resident;
      var others := set a | a in rest && a.choice.Yes? :: a.resident;
      assert forall a :: a in answers <==> a == answers[0] || a in rest;
      if answers[0].choice.Yes? {
        assert all == others + {answers[0].resident};
        assert answers[0].resident !in others;
      } else {
        assert all == others;
      }
    }
  }

  predicate Applicable(s: PollState, v: Ballot) {
    && s.status.Open? && v.sourceEvent !in s.processed && Counts(s.definition, v)
    && CurrentChoice(s.answers, v.actor) != Some(v.choice)
  }

  function Quota(d: PollDefinition): int
    requires d.policy.ProblemPolicy?
  {
    Required(|d.eligible|, d.policy.thresholdRatio)
  }

  /** What an applicable ballot does, resident by resident. */
  lemma CastEffect(s: PollState, v: Ballot)
    requires Inv(s) && Applicable(s, v)
    ensures
      var u := Cast(s, v);
      && Supporters(u) == (if v.choice.Yes? then Supporters(s) + {v.actor} else Supporters(s) - {v.actor})
      && u.processed == s.processed + {v.sourceEvent}
      && CurrentChoice(u.answers, v.actor) == Some(v.choice)
      && (forall r :: r != v.actor ==> CurrentChoice(u.answers, r) == CurrentChoice(s.answers, r))
      && u.status == if s.definition.policy.ProblemPolicy? && |Supporters(u)| >= Quota(s.definition)
                     then PollStatus.Closed else Open
  {
    var answer := NextAnswer(FindAnswer(s.answers, v.actor), v.actor, v.choice, v.sourceEvent, v.receivedAt);
    CastShape(s, v);
    ChoicesAfter(s, answer);
    SupportersAfter(s, answer);
  }

  lemma CastShape(s: PollState, v: Ballot)
    requires Inv(s) && Applicable(s, v)
    ensures
      var u := Cast(s, v);
      var w := WithAnswer(s, NextAnswer(FindAnswer(s.answers, v.actor), v.actor, v.choice, v.sourceEvent, v.receivedAt));
      && u.answers == w.answers && u.processed == w.processed
      && u.status == if s.definition.policy.ProblemPolicy? && |Supporters(u)| >= Quota(s.definition)
                     then PollStatus.Closed else Open
  {
    CastKeepsInv(s, v);
    SupportersAreCounted(Cast(s, v).answers);
    assert |s.definition.eligible| > 0;
  }

  lemma SupportersAfter(s: PollState, answer: PollAnswer)
    requires DistinctResidents(s.answers)
    ensures Supporters(WithAnswer(s, answer)) ==
            if answer.choice.Yes? then Supporters(s) + {answer.resident} else Supporters(s) - {answer.resident}
  {
    WithAnswerReplaces(s, answer);
    assert answer in WithAnswer(s, answer).answers;
  }

  lemma ChoicesAfter(s: PollState, answer: PollAnswer)
    requires DistinctResidents(s.answers)
    ensures
      var u := WithAnswer(s, answer);
      && CurrentChoice(u.answers, answer.resident) == Some(answer.choice)
      && (forall r :: r != answer.resident ==> CurrentChoice(u.answers, r) == CurrentChoice(s.answers, r))
  {
    var u := WithAnswer(s, answer);
    WithAnswerReplaces(s, answer);
    FindsMember(u.answers, answer);
    forall r | r != answer.resident ensures FindAnswer(u.answers, r) == FindAnswer(s.answers, r) {
      FindAnswerFinds(u.answers, r);
      FindAnswerFinds(s.answers, r);
      if FindAnswer(s.answers, r).Some? {
        FindsMember(u.answers, FindAnswer(s.answers, r).value);
      }
    }
  }

  // ---------------------------------------------------------------- what does not hold

  lemma CastFirst(s: PollState, v: Ballot, rest: seq<Ballot>)
    requires Inv(s)
    ensures Inv(Cast(s, v)) && CastAll(s, [v] + rest) == CastAll(Cast(s, v), rest)
  {
    CastKeepsInv(s, v);
    assert ([v] + rest)[1..] == rest;
  }

  lemma CastThree(s: PollState, x: Ballot, y: Ballot, z: Ballot, rest: seq<Ballot>)
    requires Inv(s)
    ensures Inv(Cast(s, x)) && Inv(Cast(Cast(s, x), y)) && Inv(Cast(Cast(Cast(s, x), y), z))
    ensures CastAll(s, [x, y, z] + rest) == CastAll(Cast(Cast(Cast(s, x), y), z), rest)
  {
    CastFirst(s, x, [y, z] + rest);
    CastFirst(Cast(s, x), y, [z] + rest);
    CastFirst(Cast(Cast(s, x), y), z, rest);
    assert [x, y, z] + rest == [x] + ([y, z] + rest);
    assert [y, z] + rest == [y] + ([z] + rest);
  }

  predicate Different(a: Id, b: Id, c: Id) {
    a != b && a != c && b != c
  }

  /**
   * A vote that only repeats the current choice is answered but not remembered, so its redelivery
   * after a change of mind counts as a new change. In every open initiative poll or resolution check:
   * YES, YES again, NO ends with NO, and delivering the second YES once more ends with YES.
   */
  lemma UnappliedRedeliveryCounts(s: PollState, first: Ballot, again: Ballot, no: Ballot)
    requires Inv(s) && !s.definition.policy.ProblemPolicy?
    requires Applicable(s, first) && Applicable(s, again) && first.choice.Yes? && again.choice.Yes? && no.choice.No?
    requires no.actor == again.actor == first.actor && no.receivedAt == again.receivedAt
    requires no.sourceEvent !in s.processed
    requires Different(first.sourceEvent, again.sourceEvent, no.sourceEvent)
    ensures CurrentChoice(CastAll(s, [first, again, no]).answers, no.actor) == Some(No)
    ensures CurrentChoice(CastAll(s, [first, again, no, again]).answers, no.actor) == Some(Yes)
  {
    CastThree(s, first, again, no, []);
    CastThree(s, first, again, no, [again]);
    assert [first, again, no] + [] == [first, again, no];
    assert [first, again, no] + [again] == [first, again, no, again];
    var a := Cast(s, first);
    ChangeOfMind(s, first);
    RepeatedChoice(a, again);
    ChangeOfMind(a, no);
    LastBallot(Cast(a, no), again);
  }

  lemma ChangeOfMind(s: PollState, v: Ballot)
    requires Inv(s) && !s.definition.policy.ProblemPolicy? && Applicable(s, v)
    ensures Inv(Cast(s, v)) && Cast(s, v).definition == s.definition && Cast(s, v).status.Open?
    ensures Cast(s, v).processed == s.processed + {v.sourceEvent}
    ensures CurrentChoice(Cast(s, v).answers, v.actor) == Some(v.choice)
  {
    CastKeepsInv(s, v);
    CastEffect(s, v);
  }

  lemma RepeatedChoice(s: PollState, v: Ballot)
    requires Inv(s) && CurrentChoice(s.answers, v.actor) == Some(v.choice)
    ensures Cast(s, v) == s
  {
    VoteCountsIff(s, v.actor, v.choice, v.sourceEvent, v.receivedAt);
  }

  lemma LastBallot(s: PollState, v: Ballot)
    requires Inv(s) && !s.definition.policy.ProblemPolicy? && Applicable(s, v)
    ensures CurrentChoice(CastAll(s, [v]).answers, v.actor) == Some(v.choice)
  {
    ChangeOfMind(s, v);
    CastFirst(s, v, []);
    assert [v] + [] == [v];
  }

  /**
   * In a problem poll the order between residents does matter. Two votes short of the quota, a YES that
   * its author withdraws closes the poll if another YES arrives before the withdrawal, and not after it.
   */
  lemma ProblemOrderMatters(s: PollState, yes1: Ballot, no1: Ballot, yes2: Ballot)
    requires Inv(s) && s.definition.policy.ProblemPolicy? && |Supporters(s)| + 2 == Quota(s.definition)
    requires Applicable(s, yes1) && Applicable(s, yes2) && yes1.choice.Yes? && yes2.choice.Yes?
    requires no1 == yes1.(choice := No, sourceEvent := no1.sourceEvent) && yes1.actor != yes2.actor
    requires no1.sourceEvent !in s.processed
    requires Different(yes1.sourceEvent, no1.sourceEvent, yes2.sourceEvent)
    ensures forall r :: BallotsOf([yes1, yes2, no1], r) == BallotsOf([yes1, no1, yes2], r)
    ensures CastAll(s, [yes1, yes2, no1]).status.Closed?
    ensures CastAll(s, [yes1, no1, yes2]).status.Open?
  {
    SwappedOrders(yes1, yes2, no1);
    ReachesQuota(s, yes1, yes2, no1);
    MissesQuota(s, yes1, no1, yes2);
  }

  lemma SwappedOrders(x: Ballot, y: Ballot, z: Ballot)
    requires y.actor != z.actor
    ensures forall r :: BallotsOf([x, y, z], r) == BallotsOf([x, z, y], r)
  {
    forall r ensures BallotsOf([x, y, z], r) == BallotsOf([x, z, y], r) {
      assert [x, y, z][1..] == [y, z] && [y, z][1..] == [z] && [z][1..] == [];
      assert [x, z, y][1..] == [z, y] && [z, y][1..] == [y] && [y][1..] == [];
      assert BallotsOf([z], r) == (if z.actor == r then [z] else []);
      assert BallotsOf([y], r) == (if y.actor == r then [y] else []);
      assert BallotsOf([y, z], r) == BallotsOf([z, y], r);
    }
  }

  /** The effect of an applicable ballot on a problem poll, as far as supporters go. */
  lemma SupportChanges(s: PollState, v: Ballot)
    requires Inv(s) && s.definition.policy.ProblemPolicy? && Applicable(s, v)
    ensures
      var u := Cast(s, v);
      && Inv(u) && u.definition == s.definition && u.processed == s.processed + {v.sourceEvent}
      && Supporters(u) == (if v.choice.Yes? then Supporters(s) + {v.actor} else Supporters(s) - {v.actor})
      && (u.status.Open? <==> |Supporters(u)| < Quota(s.definition))
      && (forall r :: r != v.actor ==> CurrentChoice(u.answers, r) == CurrentChoice(s.answers, r))
      && CurrentChoice(u.answers, v.actor) == Some(v.choice)
  {
    CastKeepsInv(s, v);
    CastEffect(s, v);
  }

  lemma ReachesQuota(s: PollState, yes1: Ballot, yes2: Ballot, last: Ballot)
    requires Inv(s) && s.definition.policy.ProblemPolicy? && |Supporters(s)| + 2 == Quota(s.definition)
    requires Applicable(s, yes1) && Applicable(s, yes2) && yes1.choice.Yes? && yes2.choice.Yes?
    requires yes1.actor != yes2.actor && yes1.sourceEvent != yes2.sourceEvent
    ensures CastAll(s, [yes1, yes2, last]).status.Closed?
  {
    hide Cast, CastAll, Supporters, Quota, Ordered, Linked, Settled, FindAnswer, LastOf;
    SupporterSaysYes(s, yes2.actor);
    OneMoreSupporter(s, yes1, yes2);
    assert yes2.actor !in Supporters(s) + {yes1.actor};
    LastSupporter(Cast(s, yes1), yes2, last);
    CastFirst(s, yes1, [yes2, last]);
    assert [yes1] + [yes2, last] == [yes1, yes2, last];
  }

  lemma OneMoreSupporter(s: PollState, yes: Ballot, next: Ballot)
    requires Inv(s) && s.definition.policy.ProblemPolicy? && |Supporters(s)| + 1 < Quota(s.definition)
    requires Applicable(s, yes) && Applicable(s, next) && yes.choice.Yes?
    requires yes.actor != next.actor && yes.sourceEvent != next.sourceEvent
    ensures
      var a := Cast(s, yes);
      && Inv(a) && a.definition == s.definition && Applicable(a, next)
      && Supporters(a) == Supporters(s) + {yes.actor} && |Supporters(a)| == |Supporters(s)| + 1
  {
    hide Cast, Supporters, Quota, Ordered, Linked, Settled, FindAnswer, LastOf;
    SupporterSaysYes(s, yes.actor);
    SupportChanges(s, yes);
  }

  lemma LastSupporter(s: PollState, yes: Ballot, last: Ballot)
    requires Inv(s) && s.definition.policy.ProblemPolicy? && |Supporters(s)| + 1 == Quota(s.definition)
    requires Applicable(s, yes) && yes.choice.Yes? && yes.actor !in Supporters(s)
    ensures CastAll(s, [yes, last]).status.Closed?
  {
    hide Supporters, Quota, Ordered, Linked, Settled, FindAnswer, LastOf;
    SupportChanges(s, yes);
    CastFirst(s, yes, [last]);
    CastAllKeepsInv(Cast(s, yes), [last]);
    assert [yes] + [last] == [yes, last];
  }

  lemma MissesQuota(s: PollState, yes1: Ballot, no1: Ballot, yes2: Ballot)
    requires Inv(s) && s.definition.policy.ProblemPolicy? && |Supporters(s)| + 2 == Quota(s.definition)
    requires Applicable(s, yes1) && Applicable(s, yes2) && yes1.choice.Yes? && yes2.choice.Yes?
    requires no1 == yes1.(choice := No, sourceEvent := no1.sourceEvent) && yes1.actor != yes2.actor
    requires no1.sourceEvent !in s.processed
    requires Different(yes1.sourceEvent, no1.sourceEvent, yes2.sourceEvent)
    ensures CastAll(s, [yes1, no1, yes2]).status.Open?
  {
    hide Cast, CastAll, Supporters, Quota, Ordered, Linked, Settled, FindAnswer, LastOf;
    OneMoreSupporter(s, yes1, yes2);
    Withdrawable(s, yes1, no1);
    FirstWithdraws(Cast(s, yes1), no1, yes2);
    CastFirst(s, yes1, [no1, yes2]);
    assert [yes1] + [no1, yes2] == [yes1, no1, yes2];
  }

  lemma Withdrawable(s: PollState, yes: Ballot, no: Ballot)
    requires Inv(s) && s.definition.policy.ProblemPolicy? && |Supporters(s)| + 1 < Quota(s.definition)
    requires Applicable(s, yes) && yes.choice.Yes?
    requires no == yes.(choice := No, sourceEvent := no.sourceEvent)
    requires no.sourceEvent !in s.processed && no.sourceEvent != yes.sourceEvent
    ensures Applicable(Cast(s, yes), no)
  {
    SupporterSaysYes(s, yes.actor);
    SupportChanges(s, yes);
  }

  lemma FirstWithdraws(s: PollState, no: Ballot, yes: Ballot)
    requires Inv(s) && s.definition.policy.ProblemPolicy? && |Supporters(s)| + 1 == Quota(s.definition)
    requires Applicable(s, no) && no.choice.No? && no.actor in Supporters(s)
    requires Applicable(s, yes) && yes.choice.Yes? && yes.actor != no.actor && yes.sourceEvent != no.sourceEvent
    ensures CastAll(s, [no, yes]).status.Open?
  {
    hide Cast, CastAll, Supporters, Quota, Ordered, Linked, Settled, FindAnswer, LastOf;
    SupportChanges(s, no);
    CastFirst(s, no, [yes]);
    assert [no] + [yes] == [no, yes];
    StillOpen(Cast(s, no), yes);
  }

  lemma StillOpen(s: PollState, yes: Ballot)
    requires Inv(s) && s.definition.policy.ProblemPolicy? && |Supporters(s)| + 1 < Quota(s.definition)
    requires Applicable(s, yes)
    ensures CastAll(s, [yes]).status.Open?
  {
    SupportChanges(s, yes);
    CastFirst(s, yes, []);
    assert [yes] + [] == [yes];
  }

  // ---------------------------------------------------------------- when a problem poll can close

  /** Residents who say YES now or could say it through a ballot still to be delivered. */
  function Reach(s: PollState, vs: seq<Ballot>): set<Id> {
    Supporters(s) + (set v | v in vs && CouldSupport(s.definition, v) :: v.actor)
  }

  predicate CouldSupport(d: PollDefinition, v: Ballot) {
    Counts(d, v) && v.choice.Yes?
  }

  /** Below the quota no order of delivery closes the poll. */
  lemma {:induction false} OutOfReachStaysOpen(s: PollState, vs: seq<Ballot>)
    requires Inv(s) && s.status.Open? && s.definition.policy.ProblemPolicy?
    requires |Reach(s, vs)| < Quota(s.definition)
    ensures CastAll(s, vs).status.Open?
    decreases |vs|
  {
    if vs != [] {
      var next := Cast(s, vs[0]);
      CastKeepsInv(s, vs[0]);
      VoteCountsIff(s, vs[0].actor, vs[0].choice, vs[0].sourceEvent, vs[0].receivedAt);
      if next != s {
        CastEffect(s, vs[0]);
        if CouldSupport(s.definition, vs[0]) {
          assert vs[0].actor in Reach(s, vs);
        }
        Subset(Supporters(next), Reach(s, vs));
      }
      assert Reach(next, vs[1..]) <= Reach(s, vs);
      Subset(Reach(next, vs[1..]), Reach(s, vs));
      OutOfReachStaysOpen(next, vs[1..]);
    }
  }

  lemma {:induction false} Subset(a: set<Id>, b: set<Id>)
    requires a <= b
    ensures |a| <= |b|
  {
    assert b == a + (b - a);
  }

  lemma {:induction false} BallotsAppend(a: seq<Ballot>, b: seq<Ballot>, r: Id)
    ensures BallotsOf(a + b, r) == BallotsOf(a, r) + BallotsOf(b, r)
  {
    if a == [] {
      assert a + b == b;
    } else {
      var first := if a[0].actor == r then [a[0]] else [];
      calc {
        BallotsOf(a + b, r);
        { assert (a + b)[0] == a[0] && (a + b)[1..] == a[1..] + b; }
        first + BallotsOf(a[1..] + b, r);
        { BallotsAppend(a[1..], b, r); }
        first + (BallotsOf(a[1..], r) + BallotsOf(b, r));
        (first + BallotsOf(a[1..], r)) + BallotsOf(b, r);
      }
    }
  }

  lemma {:induction false} NoBallots(a: seq<Ballot>, r: Id)
    requires forall v <- a :: v.actor != r
    ensures BallotsOf(a, r) == []
  {
    if a != [] {
      NoBallots(a[1..], r);
    }
  }

  lemma {:induction false} FirstBallot(vs: seq<Ballot>, r: Id) returns (i: nat)
    requires exists v <- vs :: v.actor == r
    ensures i < |vs| && vs[i].actor == r && forall v <- vs[..i] :: v.actor != r
  {
    if vs[0].actor == r {
      i := 0;
    } else {
      var j := FirstBallot(vs[1..], r);
      i := j + 1;
      assert vs[..i] == [vs[0]] + vs[1..][..j];
    }
  }

  /** Delivering a resident's first ballot before the others' keeps every resident's own order. */
  lemma MoveForward(vs: seq<Ballot>, i: nat, r: Id)
    requires i < |vs| && forall v <- vs[..i] :: v.actor != vs[i].actor
    ensures BallotsOf([vs[i]] + (vs[..i] + vs[i + 1..]), r) == BallotsOf(vs, r)
  {
    hide BallotsOf;
    var a, v, b := vs[..i], vs[i], vs[i + 1..];
    var x, y, z := BallotsOf(a, r), BallotsOf([v], r), BallotsOf(b, r);
    SplitAt(vs, i);
    BallotsAppend(a, [v] + b, r);
    BallotsAppend([v], b, r);
    BallotsAppend([v], a + b, r);
    BallotsAppend(a, b, r);
    if r == v.actor {
      NoBallots(a, r);
    } else {
      NoBallots([v], r);
    }
    SwapEmpty(x, y, z);
  }

  lemma SplitAt(vs: seq<Ballot>, i: nat)
    requires i < |vs|
    ensures vs == vs[..i] + ([vs[i]] + vs[i + 1..])
  {
  }

  lemma SwapEmpty(x: seq<Ballot>, y: seq<Ballot>, z: seq<Ballot>)
    requires x == [] || y == []
    ensures x + (y + z) == y + (x + z)
  {
  }

  ghost predicate SameOrders(vs: seq<Ballot>, ws: seq<Ballot>) {
    forall r :: BallotsOf(vs, r) == BallotsOf(ws, r)
  }

  lemma MovedIsFresh(s: PollState, vs: seq<Ballot>, i: nat)
    requires Inv(s) && s.status.Open? && Fresh(s.processed, vs) && i < |vs|
    ensures Fresh(Cast(s, vs[i]).processed, vs[..i] + vs[i + 1..])
  {
    CastExtends(s, vs[i], vs[i].actor);
    var rest := vs[..i] + vs[i + 1..];
    forall j | 0 <= j < |rest| ensures rest[j].sourceEvent !in s.processed + {vs[i].sourceEvent} {
      assert rest[j] == vs[if j < i then j else j + 1];
    }
  }

  /** At or above the quota some order of delivery closes the poll. */
  lemma {:induction false} InReachCanClose(s: PollState, vs: seq<Ballot>) returns (ws: seq<Ballot>)
    requires Inv(s) && s.status.Open? && s.definition.policy.ProblemPolicy? && Fresh(s.processed, vs)
    requires s.definition.eligible != {} && |Reach(s, vs)| >= Quota(s.definition)
    ensures SameOrders(vs, ws) && CastAll(s, ws).status.Closed?
    decreases |vs|
  {
    SupportersAreCounted(s.answers);
    assert Reach(s, vs) != Supporters(s);
    var supporter :| supporter in vs && CouldSupport(s.definition, supporter) && supporter.actor !in Supporters(s);
    var r := supporter.actor;
    var i := FirstBallot(vs, r);
    var v, rest := vs[i], vs[..i] + vs[i + 1..];
    var next := Cast(s, v);
    CastKeepsInv(s, v);
    MovedIsFresh(s, vs, i);
    SupporterSaysYes(s, r);
    VoteCountsIff(s, v.actor, v.choice, v.sourceEvent, v.receivedAt);
    assert v in vs && v.sourceEvent !in s.processed;
    assert |Reach(next, rest)| >= Quota(s.definition) by {
      assert Reach(s, vs) <= Reach(next, rest) by {
        if next != s {
          CastEffect(s, v);
        }
        ReachKept(s, vs, i, next);
      }
      Subset(Reach(s, vs), Reach(next, rest));
    }
    var tail: seq<Ballot> := rest;
    if next.status.Open? {
      tail := InReachCanClose(next, rest);
    } else {
      CastAllKeepsInv(next, rest);
    }
    ws := [v] + tail;
    CastFirst(s, v, tail);
    forall q ensures BallotsOf(vs, q) == BallotsOf(ws, q) {
      MoveForward(vs, i, q);
      BallotsAppend([v], rest, q);
      BallotsAppend([v], tail, q);
      assert BallotsOf(rest, q) == BallotsOf(tail, q);
    }
  }

  lemma ReachKept(s: PollState, vs: seq<Ballot>, i: nat, next: PollState)
    requires i < |vs| && next.definition == s.definition
    requires vs[i].actor !in Supporters(s)
    requires Supporters(s) <= Supporters(next)
    requires CouldSupport(s.definition, vs[i]) ==> vs[i].actor in Supporters(next)
    ensures Reach(s, vs) <= Reach(next, vs[..i] + vs[i + 1..])
  {
    var rest := vs[..i] + vs[i + 1..];
    forall v <- vs | CouldSupport(s.definition, v) ensures v.actor in Reach(next, rest) {
      var j :| 0 <= j < |vs| && vs[j] == v;
      if j != i {
        assert v == rest[if j < i then j else j - 1];
      }
    }
  }

  /**
   * Main result for problem polls: some order of the same ballots closes the poll early exactly when
   * the residents who could say YES reach the quota; below it every order agrees with every other.
   */
  lemma EarlyCloseIff(s: PollState, vs: seq<Ballot>)
    requires Inv(s) && s.status.Open? && s.definition.policy.ProblemPolicy? && s.definition.eligible != {}
    requires Fresh(s.processed, vs)
    ensures (exists ws :: SameOrders(vs, ws) && CastAll(s, ws).status.Closed?)
       <==> |Reach(s, vs)| >= Quota(s.definition)
  {
    if |Reach(s, vs)| >= Quota(s.definition) {
      var ws := InReachCanClose(s, vs);
    } else {
      forall ws | SameOrders(vs, ws) ensures CastAll(s, ws).status.Open? {
        SameReach(s, vs, ws);
        OutOfReachStaysOpen(s, ws);
      }
    }
  }

  lemma {:induction false} BallotsMembers(vs: seq<Ballot>, v: Ballot)
    ensures v in vs <==> v in BallotsOf(vs, v.actor)
  {
    if vs != [] {
      BallotsMembers(vs[1..], v);
      assert v in vs <==> v == vs[0] || v in vs[1..];
    }
  }

  lemma SameReach(s: PollState, vs: seq<Ballot>, ws: seq<Ballot>)
    requires SameOrders(vs, ws)
    ensures Reach(s, vs) == Reach(s, ws)
  {
    forall v: Ballot ensures v in vs <==> v in ws {
      BallotsMembers(vs, v);
      BallotsMembers(ws, v);
      assert BallotsOf(vs, v.actor) == BallotsOf(ws, v.actor);
    }
  }
}
