/** Runs from a fresh start that reach what the code refuses to do again: one small initiative, step by step. */
module InitiativeWitness {
  import opened Basics
  import opened PollPolicies
  import opened Polls
  import opened CaseRows
  import opened InitiativeRows
  import opened InitiativeRuns

  const HOUSE: Id := 0
  const CASE: Id := 1
  const AUTHOR: Id := 7

  function Detected(): CaseRow {
    CaseRow(InitiativeCase, CaseStatus.Detected, 1, "benches", "benches in the yard", Some(AUTHOR))
  }

  /** A house with one detected initiative and nothing else. */
  function Village(): World {
    World(map[], map[HOUSE := CaseFile(map[CASE := Detected()], [])], Book(map[], map[], map[], map[]))
  }

  function Revision(number: nat): InitiativeRevision {
    InitiativeRevision(number, "benches in the yard", 5, 10 + number, 0)
  }

  function NewPoll(number: nat): PollState
    requires number > 0
  {
    Initial(PollDefinition(
      10 + number, CASE, HOUSE, 5, InitiativePosition, InitiativePolicy(0.5, 0.6), number, {AUTHOR}, 0, 100))
  }

  const FIRST := InitiativeState(CASE, HOUSE, AUTHOR, 2, [Revision(1)])
  const SECOND := InitiativeState(CASE, HOUSE, AUTHOR, 3, [Revision(1), Revision(2)])

  const COLLECT := Operate(HOUSE, CASE, LaterStep, CaseStatus.Collecting, 90)
  const CREATE := Create(FIRST, NewPoll(1), "create")
  const REVISE := InitiativeRuns.Revise(FIRST, SECOND, NewPoll(2), "revise")
  const ATTACH := Operate(HOUSE, CASE, MessageAttached, CaseStatus.Collecting, 91)

  lemma VillageIsFresh()
    ensures Fresh(Village())
  {
    assert forall h: Id, k :: !EventTaken(Village(), h, k);
  }

  // The case as it collects, its version one on.
  lemma Collects()
    ensures PollsOk(Village())
    ensures
      var w := Apply(Village(), COLLECT);
      && w.polls == map[] && w.book == Village().book
      && w.files.Keys == {HOUSE}
      && w.files[HOUSE].cases == map[CASE := Detected().(status := CaseStatus.Collecting, version := 2)]
      && w.files[HOUSE].events == [CaseEventRow(CASE, LaterStep, 1, 2, Drawn(90))]
  {
    assert !OperationApplied(CaseFile(map[CASE := Detected()], []), Drawn(90));
  }

  lemma CanBeCreated()
    ensures Good(Village()) && Good(Apply(Village(), COLLECT))
    ensures CanCreate(Apply(Village(), COLLECT), CREATE)
  {
    VillageIsFresh();
    FreshIsGood(Village());
    ApplyKeepsGood(Village(), COLLECT);
    Collects();
    var w := Apply(Village(), COLLECT);
    assert FIRST.Current() == Revision(1);
    assert !PollIdTaken(w.book, 11);
    assert CheckCreate(w, FIRST, "create") == Proceed;
  }

  // The world with the first revision, the way the next steps meet it.
  lemma FirstRevision()
    ensures Good(Village()) && Good(Apply(Village(), COLLECT)) && Good(Apply(Apply(Village(), COLLECT), CREATE))
    ensures
      var u := Apply(Apply(Village(), COLLECT), CREATE);
      && u.files == Apply(Village(), COLLECT).files && u.polls.Keys == {11}
      && u.book.rows == map[CASE := InitiativeRow(HOUSE, AUTHOR, 2, 1)]
      && u.book.operations.Keys == {(HOUSE, "create")}
      && LoadInitiative(u.book, CASE, HOUSE, None, None) == Some(FIRST)
  {
    hide Cut, CanCreate, RowsOk, LinksOk, OperationResult;
    CanBeCreated();
    Collects();
    var w := Apply(Village(), COLLECT);
    ApplyKeepsGood(w, CREATE);
    CreationIsRecorded(w, CREATE);
    assert FIRST.Current() == Revision(1);
  }

  lemma CanBeRevised()
    ensures Good(Village()) && Good(Apply(Village(), COLLECT)) && Good(Apply(Apply(Village(), COLLECT), CREATE))
    ensures CanRevise(Apply(Apply(Village(), COLLECT), CREATE), REVISE)
  {
    FirstRevision();
    Collects();
    hide Apply, Good, LoadInitiative, LogRefuses, EventTaken, OperationApplied;
    var u := Apply(Apply(Village(), COLLECT), CREATE);
    assert FIRST.Current() == Revision(1) && SECOND.Current() == Revision(2);
    assert FIRST.revisions + [Revision(2)] == SECOND.revisions;
    assert CheckRevise(u, FIRST, SECOND, "revise") == Proceed;
    RevisionNeverCollides(u, FIRST, SECOND, NewPoll(2), "revise");
  }

  /**
   * The initiative is created and revised; repeating its creation with the words and the version it was created with
   * is then refused, although the key and the wording are the same.
   */
  lemma RevisedCreationIsRefused()
    ensures Fresh(Village()) && Good(Village())
    ensures
      var u := Run(Village(), [COLLECT, CREATE, REVISE]);
      CheckCreate(u, FIRST, "create") == Refuse(Conflict)
  {
    VillageIsFresh();
    CanBeRevised();
    RunThree(Village(), COLLECT, CREATE, REVISE);
    hide CanRevise, PollsOk, RowsOk, LinksOk, Apply, Fresh, OperationResult;
    var u := Apply(Apply(Village(), COLLECT), CREATE);
    ReviseFollows(u, REVISE);
    assert REVISE.updated == SECOND;
  }

  lemma RunThree(w: World, a: Move, b: Move, c: Move)
    requires Good(w)
    ensures Good(Apply(w, a)) && Good(Apply(Apply(w, a), b))
    ensures Run(w, [a, b, c]) == Apply(Apply(Apply(w, a), b), c)
  {
    hide Apply, PollsOk, RowsOk, LinksOk;
    var u := Apply(w, a);
    ApplyKeepsGood(w, a);
    var v := Apply(u, b);
    ApplyKeepsGood(u, b);
    ApplyKeepsGood(v, c);
    assert [a, b, c][1..] == [b, c] && [b, c][1..] == [c] && [c][1..] == [];
    assert Run(v, [c]) == Run(Apply(v, c), []);
    assert Run(u, [b, c]) == Run(v, [c]);
    assert Run(w, [a, b, c]) == Run(u, [b, c]);
  }

  lemma CanBeAttached()
    ensures Good(Village()) && Good(Apply(Village(), COLLECT)) && Good(Apply(Apply(Village(), COLLECT), CREATE))
    ensures CanOperate(Apply(Apply(Village(), COLLECT), CREATE), ATTACH)
    ensures HasInitiative(Apply(Apply(Village(), COLLECT), CREATE).book, CASE, HOUSE)
  {
    FirstRevision();
    Collects();
    hide Apply, PollsOk, RowsOk, LinksOk, LoadInitiative;
  }

  /** The initiative is created and a message attached to its case; from then on it lags for ever. */
  lemma AttachedMessageMakesLag()
    ensures Fresh(Village()) && Good(Village())
    ensures Lags(Run(Village(), [COLLECT, CREATE, ATTACH]), CASE)
  {
    hide PollsOk, RowsOk, LinksOk, Apply, Fresh, Lags, CanOperate, HasInitiative, Village;
    VillageIsFresh();
    CanBeAttached();
    RunThree(Village(), COLLECT, CREATE, ATTACH);
    OperationMakesLag(Apply(Apply(Village(), COLLECT), CREATE), ATTACH);
  }
}
