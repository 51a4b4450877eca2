/** When every order of delivery closes a problem poll early, whichever order the inbox happens to take. */
module PollOrders {
  import opened Basics
  import opened Polls
  import opened PollRuns
  import opened PollInterleaving

  // ---------------------------------------------------------------- the supporters alone

  function After(d: PollDefinition, supporters: set<Id>, v: Ballot): set<Id> {
    if !Counts(d, v) then supporters
    else if v.choice.Yes? then supporters + {v.actor}
    else supporters - {v.actor}
  }

  /** Whether a resident says YES in the end: by the last ballot that counts, or as before. */
  predicate EndsWithYes(d: PollDefinition, said: bool, own: seq<Ballot>)
    decreases |own|
  {
    if own == [] then said
    else EndsWithYes(d, if Counts(d, own[0]) then own[0].choice.Yes? else said, own[1..])
  }

  function Finally(d: PollDefinition, supporters: set<Id>, vs: seq<Ballot>): set<Id> {
    set r | r in d.eligible && EndsWithYes(d, r in supporters, BallotsOf(vs, r))
  }

  predicate Withdraws(d: PollDefinition, supporters: set<Id>, v: Ballot) {
    Counts(d, v) && v.choice.No? && v.actor in supporters
  }

  predicate Joins(d: PollDefinition, supporters: set<Id>, v: Ballot) {
    Counts(d, v) && v.choice.Yes? && v.actor !in supporters
  }

  // One YES is missing, somebody will give it, and no supporter steps back to make room for it.
  predicate Forced(d: PollDefinition, supporters: set<Id>, quota: int, vs: seq<Ballot>) {
    && |supporters| + 1 == quota
    && (exists v <- vs :: Joins(d, supporters, v))
    && (forall v <- vs :: !Withdraws(d, supporters, v))
  }

  lemma OneBallot(d: PollDefinition, said: bool, v: Ballot, own: seq<Ballot>)
    ensures EndsWithYes(d, said, [v] + own) == EndsWithYes(d, if Counts(d, v) then v.choice.Yes? else said, own)
  {
    assert ([v] + own)[1..] == own;
  }

  lemma FinallyStep(d: PollDefinition, supporters: set<Id>, v: Ballot, rest: seq<Ballot>)
    ensures Finally(d, After(d, supporters, v), rest) == Finally(d, supporters, [v] + rest)
  {
    assert ([v] + rest)[1..] == rest;
    forall r ensures EndsWithYes(d, r in After(d, supporters, v), BallotsOf(rest, r))
                  == EndsWithYes(d, r in supporters, BallotsOf([v] + rest, r)) {
      OneBallot(d, r in supporters, v, BallotsOf(rest, r));
      assert [] + BallotsOf(rest, r) == BallotsOf(rest, r);
    }
  }

  /** A resident whose ballots never say otherwise ends as it began. */
  lemma {:induction false} Unchanged(d: PollDefinition, said: bool, own: seq<Ballot>)
    requires forall v <- own :: Counts(d, v) ==> v.choice.Yes? == said
    ensures EndsWithYes(d, said, own) == said
    decreases |own|
  {
    if own != [] {
      Unchanged(d, said, own[1..]);
    }
  }

  lemma {:induction false} OwnBallots(vs: seq<Ballot>, r: Id)
    ensures forall v <- BallotsOf(vs, r) :: v in vs && v.actor == r
  {
    if vs != [] {
      OwnBallots(vs[1..], r);
    }
  }

  /** Supporters without a NO among their ballots are supporters in the end. */
  lemma LoyalStay(d: PollDefinition, supporters: set<Id>, vs: seq<Ballot>)
    requires supporters <= d.eligible && forall v <- vs :: !Withdraws(d, supporters, v)
    ensures supporters <= Finally(d, supporters, vs)
  {
    forall r | r in supporters ensures EndsWithYes(d, true, BallotsOf(vs, r)) {
      OwnBallots(vs, r);
      Unchanged(d, true, BallotsOf(vs, r));
    }
  }

  // ---------------------------------------------------------------- the poll follows its supporters

  lemma CastFollows(s: PollState, v: Ballot)
    requires Inv(s) && s.status.Open? && s.definition.policy.ProblemPolicy? && s.definition.eligible != {}
    requires v.sourceEvent !in s.processed
    ensures
      var u := Cast(s, v);
      && Inv(u) && u.definition == s.definition
      && Supporters(u) == After(s.definition, Supporters(s), v) && Supporters(u) <= s.definition.eligible
      && (u.status.Open? <==> |Supporters(u)| < Quota(s.definition))
      && (!u.status.Open? ==> u.status.Closed?)
  {
    OpenIsBelow(s);
    hide Cast, Supporters, Quota, Inv, PollState.Valid, CurrentChoice, RecordAnswer;
    if Applicable(s, v) {
      CastKeepsInv(s, v);
      CastEffect(s, v);
      SupportersAreEligible(Cast(s, v));
    } else {
      NotApplicable(s, v);
    }
  }

  lemma SupportersAreEligible(s: PollState)
    requires Inv(s)
    ensures Supporters(s) <= s.definition.eligible
  {
  }

  lemma NotApplicable(s: PollState, v: Ballot)
    requires Inv(s) && s.status.Open? && v.sourceEvent !in s.processed && !Applicable(s, v)
    ensures Cast(s, v) == s && After(s.definition, Supporters(s), v) == Supporters(s)
  {
    SupporterSaysYes(s, v.actor);
    VoteCountsIff(s, v.actor, v.choice, v.sourceEvent, v.receivedAt);
  }

  lemma OpenIsBelow(s: PollState)
    requires Inv(s) && s.status.Open? && s.definition.policy.ProblemPolicy? && s.definition.eligible != {}
    ensures s.Valid() && |Supporters(s)| < Quota(s.definition) && Supporters(s) <= s.definition.eligible
  {
    SupportersAreCounted(s.answers);
  }

  /** As long as a problem poll stays open it ends with exactly the final supporters. */
  lemma {:induction false} OpenEndsWithFinally(s: PollState, vs: seq<Ballot>)
    requires Inv(s) && s.status.Open? && s.definition.policy.ProblemPolicy? && s.definition.eligible != {}
    requires Fresh(s.processed, vs) && CastAll(s, vs).status.Open?
    ensures |Finally(s.definition, Supporters(s), vs)| < Quota(s.definition)
    decreases |vs|
  {
    hide Cast, Supporters, Quota, Inv, After, EndsWithYes, Fresh, PollState.Valid;
    OpenIsBelow(s);
    if vs == [] {
      NobodyLeft(s.definition, Supporters(s));
    } else {
      FreshFirst(s.processed, vs);
      CastFollows(s, vs[0]);
      CastAllKeepsInv(Cast(s, vs[0]), vs[1..]);
      FreshTail(s, vs);
      OpenEndsWithFinally(Cast(s, vs[0]), vs[1..]);
      FinallyStep(s.definition, Supporters(s), vs[0], vs[1..]);
      assert vs == [vs[0]] + vs[1..];
    }
  }

  lemma FreshFirst(processed: set<Id>, vs: seq<Ballot>)
    requires Fresh(processed, vs) && vs != []
    ensures vs[0].sourceEvent !in processed
  {
  }

  lemma NobodyLeft(d: PollDefinition, supporters: set<Id>)
    requires supporters <= d.eligible
    ensures Finally(d, supporters, []) == supporters
  {
  }

  /** When the last YES is bound to come and nobody makes room for it, every order closes. */
  lemma {:induction false} ForcedCloses(s: PollState, vs: seq<Ballot>)
    requires Inv(s) && s.status.Open? && s.definition.policy.ProblemPolicy? && s.definition.eligible != {}
    requires Fresh(s.processed, vs) && Forced(s.definition, Supporters(s), Quota(s.definition), vs)
    ensures CastAll(s, vs).status.Closed?
    decreases |vs|
  {
    OpenIsBelow(s);
    hide Cast, Supporters, Quota, Inv, Fresh, PollState.Valid;
    var next, d := Cast(s, vs[0]), s.definition;
    FreshFirst(s.processed, vs);
    CastFollows(s, vs[0]);
    CastAllKeepsInv(next, vs[1..]);
    ForcedStep(d, Supporters(s), Quota(d), vs);
    hide Forced, After;
    if next.status.Open? {
      FreshTail(s, vs);
      ForcedCloses(next, vs[1..]);
    }
  }

  lemma ForcedStep(d: PollDefinition, supporters: set<Id>, quota: int, vs: seq<Ballot>)
    requires vs != [] && Forced(d, supporters, quota, vs)
    ensures |After(d, supporters, vs[0])| >= quota || Forced(d, After(d, supporters, vs[0]), quota, vs[1..])
  {
    assert vs[0] in vs;
    if !Joins(d, supporters, vs[0]) {
      assert After(d, supporters, vs[0]) == supporters;
    }
  }

  // ---------------------------------------------------------------- keeping the poll open

  // The first ballot of its author in this order.
  predicate IsFirstOwn(vs: seq<Ballot>, i: nat) {
    i < |vs| && forall v <- vs[..i] :: v.actor != vs[i].actor
  }

  function Dropped(vs: seq<Ballot>, i: nat): seq<Ballot>
    requires i < |vs|
  {
    vs[..i] + vs[i + 1..]
  }

  lemma StillThere(vs: seq<Ballot>, i: nat, v: Ballot)
    requires i < |vs| && v in vs && v != vs[i]
    ensures v in Dropped(vs, i)
  {
    var j :| 0 <= j < |vs| && vs[j] == v;
    assert v == Dropped(vs, i)[if j < i then j else j - 1];
  }

  // Delivering this ballot next leaves the poll open and nothing forced.
  predicate Safe(d: PollDefinition, supporters: set<Id>, quota: int, vs: seq<Ballot>, i: nat) {
    && IsFirstOwn(vs, i)
    && |After(d, supporters, vs[i])| < quota
    && !Forced(d, After(d, supporters, vs[i]), quota, Dropped(vs, i))
  }

  /** A supporter who steps back comes first when one YES is missing. */
  lemma MakeRoom(d: PollDefinition, supporters: set<Id>, quota: int, vs: seq<Ballot>, no: Ballot) returns (i: nat)
    requires |supporters| + 1 == quota && no in vs && Withdraws(d, supporters, no)
    ensures Safe(d, supporters, quota, vs, i)
  {
    i := FirstBallot(vs, no.actor);
    if Withdraws(d, supporters, vs[i]) {
      assert After(d, supporters, vs[i]) + {no.actor} == supporters;
    } else {
      assert After(d, supporters, vs[i]) == supporters;
      StillThere(vs, i, no);
    }
  }

  /** Two YES short, somebody who will withdraw comes before those who will not. */
  lemma LetThemTurn(d: PollDefinition, supporters: set<Id>, quota: int, vs: seq<Ballot>, r: Id) returns (i: nat)
    requires |supporters| + 2 == quota && r in d.eligible && r !in supporters
    requires (exists v <- vs :: v.actor == r && Joins(d, supporters, v)) && r !in Finally(d, supporters, vs)
    ensures Safe(d, supporters, quota, vs, i)
  {
    i := FirstBallot(vs, r);
    var x, rest := vs[i], Dropped(vs, i);
    if Joins(d, supporters, x) {
      var joined := supporters + {r};
      assert |joined| == |supporters| + 1;
      FinallyMoved(d, supporters, vs, i);
      if forall v <- rest :: !Withdraws(d, joined, v) {
        OwnBallots(rest, r);
        Unchanged(d, true, BallotsOf(rest, r));
        assert false;
      }
    } else {
      Subset(After(d, supporters, x), supporters);
    }
  }

  lemma FinallyMoved(d: PollDefinition, supporters: set<Id>, vs: seq<Ballot>, i: nat)
    requires IsFirstOwn(vs, i)
    ensures Finally(d, After(d, supporters, vs[i]), Dropped(vs, i)) == Finally(d, supporters, vs)
  {
    hide BallotsOf, EndsWithYes, After;
    FinallyStep(d, supporters, vs[i], Dropped(vs, i));
    forall r ensures BallotsOf([vs[i]] + Dropped(vs, i), r) == BallotsOf(vs, r) {
      MoveForward(vs, i, r);
    }
  }

  /** As long as the final supporters miss the quota and nothing is forced, some ballot is safe to deliver next. */
  lemma SafeNext(d: PollDefinition, supporters: set<Id>, quota: int, vs: seq<Ballot>) returns (i: nat)
    requires vs != [] && supporters <= d.eligible && |supporters| < quota
    requires |Finally(d, supporters, vs)| < quota && !Forced(d, supporters, quota, vs)
    ensures Safe(d, supporters, quota, vs, i)
  {
    hide Finally;
    if |supporters| + 1 == quota && exists v <- vs :: Withdraws(d, supporters, v) {
      var no :| no in vs && Withdraws(d, supporters, no);
      i := MakeRoom(d, supporters, quota, vs, no);
    } else if |supporters| + 1 == quota {
      i := 0;
      assert vs[0] in vs;
      assert After(d, supporters, vs[0]) == supporters;
    } else if Safe(d, supporters, quota, vs, 0) {
      i := 0;
    } else {
      var r := LatecomerTurns(d, supporters, quota, vs);
      i := LetThemTurn(d, supporters, quota, vs, r);
    }
  }

  /** If the first ballot would force the poll closed, another resident is to say YES and take it back. */
  lemma LatecomerTurns(d: PollDefinition, supporters: set<Id>, quota: int, vs: seq<Ballot>) returns (r: Id)
    requires vs != [] && supporters <= d.eligible && |supporters| + 1 < quota
    requires |Finally(d, supporters, vs)| < quota && !Safe(d, supporters, quota, vs, 0)
    ensures |supporters| + 2 == quota && r in d.eligible && r !in supporters
    ensures (exists v <- vs :: v.actor == r && Joins(d, supporters, v)) && r !in Finally(d, supporters, vs)
  {
    hide Finally;
    var first, rest := vs[0], Dropped(vs, 0);
    var joined := After(d, supporters, first);
    assert IsFirstOwn(vs, 0);
    assert joined == supporters + {first.actor} && |joined| == |supporters| + 1 by {
      if !Joins(d, supporters, first) {
        Subset(joined, supporters);
      }
    }
    var late :| late in rest && Joins(d, joined, late);
    r := late.actor;
    assert rest == vs[1..] && late in vs;
    LoyalStay(d, joined, rest);
    FinallyMoved(d, supporters, vs, 0);
    if r in Finally(d, supporters, vs) {
      Subset(joined + {r}, Finally(d, supporters, vs));
    }
  }

  lemma {:induction false} SomeOrderStaysOpen(s: PollState, vs: seq<Ballot>) returns (ws: seq<Ballot>)
    requires Inv(s) && s.status.Open? && s.definition.policy.ProblemPolicy? && s.definition.eligible != {}
    requires Fresh(s.processed, vs) && |Finally(s.definition, Supporters(s), vs)| < Quota(s.definition)
    requires !Forced(s.definition, Supporters(s), Quota(s.definition), vs)
    ensures SameOrders(vs, ws) && CastAll(s, ws).status.Open?
    decreases |vs|
  {
    hide Cast, Supporters, Quota, Inv, Fresh, Forced, Finally, After, PollState.Valid;
    if vs == [] {
      ws := [];
    } else {
      OpenIsBelow(s);
      var i := SafeNext(s.definition, Supporters(s), Quota(s.definition), vs);
      FreshAt(s.processed, vs, i);
      CastFollows(s, vs[i]);
      MovedIsFresh(s, vs, i);
      FinallyMoved(s.definition, Supporters(s), vs, i);
      var tail := SomeOrderStaysOpen(Cast(s, vs[i]), Dropped(vs, i));
      CastFirst(s, vs[i], tail);
      ws := [vs[i]] + tail;
      SameOrdersMoved(vs, i, tail);
    }
  }

  lemma FreshAt(processed: set<Id>, vs: seq<Ballot>, i: nat)
    requires Fresh(processed, vs) && i < |vs|
    ensures vs[i].sourceEvent !in processed
  {
    assert vs[i] in vs;
  }

  lemma SameOrdersMoved(vs: seq<Ballot>, i: nat, tail: seq<Ballot>)
    requires IsFirstOwn(vs, i) && SameOrders(Dropped(vs, i), tail)
    ensures SameOrders(vs, [vs[i]] + tail)
  {
    hide BallotsOf;
    forall r ensures BallotsOf(vs, r) == BallotsOf([vs[i]] + tail, r) {
      MoveForward(vs, i, r);
      BallotsAppend([vs[i]], Dropped(vs, i), r);
      BallotsAppend([vs[i]], tail, r);
      assert BallotsOf(Dropped(vs, i), r) == BallotsOf(tail, r);
    }
  }

  // ---------------------------------------------------------------- all orders of the same ballots

  lemma {:induction false} BallotsCount(vs: seq<Ballot>, v: Ballot)
    ensures multiset(vs)[v] == multiset(BallotsOf(vs, v.actor))[v]
  {
    if vs != [] {
      BallotsCount(vs[1..], v);
      assert vs == [vs[0]] + vs[1..];
    }
  }

  lemma {:induction false} NoBallotTwice(vs: seq<Ballot>, v: Ballot)
    requires forall i, j :: 0 <= i < j < |vs| ==> vs[i].sourceEvent != vs[j].sourceEvent
    ensures multiset(vs)[v] <= 1
  {
    if vs != [] {
      NoBallotTwice(vs[1..], v);
      assert vs == [vs[0]] + vs[1..];
    }
  }

  lemma CountedTwice(ws: seq<Ballot>, i: nat, j: nat)
    requires i < j < |ws| && ws[i] == ws[j]
    ensures multiset(ws)[ws[i]] >= 2
  {
    assert ws == ws[..j] + [ws[j]] + ws[j + 1..] && ws[i] in ws[..j];
  }

  /** Orders of the same ballots are all free of repetitions, or none is. */
  lemma SameOrdersFresh(processed: set<Id>, vs: seq<Ballot>, ws: seq<Ballot>)
    requires SameOrders(vs, ws) && Fresh(processed, vs)
    ensures Fresh(processed, ws)
  {
    forall v: Ballot ensures multiset(vs)[v] == multiset(ws)[v] {
      BallotsCount(vs, v);
      BallotsCount(ws, v);
      assert BallotsOf(vs, v.actor) == BallotsOf(ws, v.actor);
    }
    assert multiset(vs) == multiset(ws);
    forall v <- ws ensures v in vs {
      assert v in multiset(ws);
    }
    forall i, j | 0 <= i < j < |ws| ensures ws[i].sourceEvent != ws[j].sourceEvent {
      assert ws[i] in vs && ws[j] in vs;
      if ws[i] == ws[j] {
        CountedTwice(ws, i, j);
        NoBallotTwice(vs, ws[i]);
      }
    }
  }

  lemma SameFinally(d: PollDefinition, supporters: set<Id>, vs: seq<Ballot>, ws: seq<Ballot>)
    requires SameOrders(vs, ws)
    ensures Finally(d, supporters, vs) == Finally(d, supporters, ws)
    ensures forall quota :: Forced(d, supporters, quota, vs) == Forced(d, supporters, quota, ws)
  {
    forall r ensures BallotsOf(vs, r) == BallotsOf(ws, r) {}
    forall v: Ballot ensures v in vs <==> v in ws {
      BallotsMembers(vs, v);
      BallotsMembers(ws, v);
      assert BallotsOf(vs, v.actor) == BallotsOf(ws, v.actor);
    }
  }

  /**
   * Main result for problem polls: every order of the same ballots closes the poll early exactly when the residents
   * who say YES in the end reach the quota, or when one YES is missing, a resident gives it, and no supporter takes
   * a YES back. In every other case some order leaves the poll open for its deadline.
   */
  lemma EveryOrderClosesIff(s: PollState, vs: seq<Ballot>)
    requires Inv(s) && s.status.Open? && s.definition.policy.ProblemPolicy? && s.definition.eligible != {}
    requires Fresh(s.processed, vs)
    ensures (forall ws :: SameOrders(vs, ws) ==> CastAll(s, ws).status.Closed?)
       <==> || |Finally(s.definition, Supporters(s), vs)| >= Quota(s.definition)
            || Forced(s.definition, Supporters(s), Quota(s.definition), vs)
  {
    hide Finally, Forced, Supporters, Quota, Inv, Fresh;
    var d, now := s.definition, Supporters(s);
    if |Finally(d, now, vs)| >= Quota(d) || Forced(d, now, Quota(d), vs) {
      forall ws | SameOrders(vs, ws) ensures CastAll(s, ws).status.Closed? {
        SameOrdersFresh(s.processed, vs, ws);
        SameFinally(d, now, vs, ws);
        ClosesAnyway(s, ws);
      }
    } else {
      var ws := SomeOrderStaysOpen(s, vs);
      assert SameOrders(vs, ws) && !CastAll(s, ws).status.Closed?;
    }
  }

  lemma ClosesAnyway(s: PollState, ws: seq<Ballot>)
    requires Inv(s) && s.status.Open? && s.definition.policy.ProblemPolicy? && s.definition.eligible != {}
    requires Fresh(s.processed, ws)
    requires || |Finally(s.definition, Supporters(s), ws)| >= Quota(s.definition)
             || Forced(s.definition, Supporters(s), Quota(s.definition), ws)
    ensures CastAll(s, ws).status.Closed?
  {
    hide Finally, Forced, Supporters, Quota, Fresh;
    NeverCancelled(s, ws);
    if Forced(s.definition, Supporters(s), Quota(s.definition), ws) {
      ForcedCloses(s, ws);
    } else if CastAll(s, ws).status.Open? {
      OpenEndsWithFinally(s, ws);
    }
  }

  lemma {:induction false} NeverCancelled(s: PollState, vs: seq<Ballot>)
    requires Inv(s) && !s.status.Cancelled?
    ensures !CastAll(s, vs).status.Cancelled?
    decreases |vs|
  {
    if vs != [] {
      CastKeepsInv(s, vs[0]);
      NeverCancelled(Cast(s, vs[0]), vs[1..]);
    }
  }
}
