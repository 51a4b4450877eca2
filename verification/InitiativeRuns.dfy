/** What all runs of initiatives keep: one live poll, an append-only log, replayable keys, a last decision. */
module InitiativeRuns {
  import opened Basics
  import opened PollPolicies
  import opened Polls
  import opened PollAnswers
  import opened PollRuns
  import opened CaseRows
  import opened InitiativeRows

  datatype Move =
    | Operate(houseId: Id, caseId: Id, change: CaseChange, status: CaseStatus, operationId: Id)
    | OpenOther(poll: PollState)
    | VoteIn(pollId: Id, actor: Id, choice: VoteChoice, sourceEvent: Id, receivedAt: Time)
    | Close(pollId: Id, now: Time)
    | Create(state: InitiativeState, poll: PollState, key: string)
    | Revise(previous: InitiativeState, updated: InitiativeState, poll: PollState, key: string)
    | Decide(state: InitiativeState, poll: PollState, now: Time, key: string)

  // A state the service loaded at some time; the log only grows, so what it says stays true.
  predicate Seen(b: Book, s: InitiativeState) {
    && s.revisions != []
    && forall r <- s.revisions :: r.revision in RevisionsOf(b, s.caseId) && RevisionsOf(b, s.caseId)[r.revision] == r
  }

  predicate PollIdTaken(b: Book, pollId: Id) {
    exists c, k :: c in b.revisions && k in b.revisions[c] && b.revisions[c][k].pollId == pollId
  }

  // A uniqueness constraint of the revision log would refuse the insert.
  predicate LogRefuses(b: Book, s: InitiativeState)
    requires s.revisions != []
  {
    s.Current().revision in RevisionsOf(b, s.caseId) || PollIdTaken(b, s.Current().pollId)
  }

  predicate EventTaken(w: World, houseId: Id, key: string) {
    houseId in w.files && OperationApplied(w.files[houseId], Derived(key))
  }

  // Only a detected case starts collecting, and no operation makes a case detected again.
  predicate Allowed(before: CaseStatus, after: CaseStatus) {
    && (after.Collecting? ==> before.Collecting? || before.Detected?)
    && (after.Detected? ==> before.Detected?)
  }

  predicate CanCreate(w: World, m: Move)
    requires m.Create?
  {
    && Prepared(m.state, m.poll) && |m.state.revisions| == 1 && m.poll.definition.pollId !in w.polls
    && CheckCreate(w, m.state, m.key) == Proceed && ValidKey(m.key) && !LogRefuses(w.book, m.state)
  }

  predicate CanRevise(w: World, m: Move)
    requires m.Revise?
  {
    && Follows(m.previous, m.updated) && Prepared(m.updated, m.poll) && m.poll.definition.pollId !in w.polls
    && CheckRevise(w, m.previous, m.updated, m.key) == Proceed && ValidKey(m.key)
    && m.previous.Current().pollId in w.polls
    && !LogRefuses(w.book, m.updated) && !EventTaken(w, m.updated.houseId, m.key)
  }

  predicate CanDecide(w: World, m: Move)
    requires m.Decide?
  {
    && Seen(w.book, m.state) && Position(m.state, m.poll, m.now).Ok?
    && CheckDecide(w, Position(m.state, m.poll, m.now).value, m.key) == Proceed
  }

  predicate CanOperate(w: World, m: Move)
    requires m.Operate?
  {
    && HasCase(w, m.caseId, m.houseId) && !OperationApplied(w.files[m.houseId], Drawn(m.operationId))
    && Allowed(w.files[m.houseId].cases[m.caseId].status, m.status)
  }

  /** A move whose guard fails changes nothing. */
  ghost function Apply(w: World, m: Move): World
    requires PollsOk(w)
  {
    match m
    case Operate(houseId, caseId, change, status, id) =>
      if !CanOperate(w, m) then w
      else
        var file := w.files[houseId];
        var row := file.cases[caseId].(status := status, version := file.cases[caseId].version + 1);
        w.(files := w.files[houseId := CaseAfter(file, caseId, row, change, Drawn(id))])
    case OpenOther(poll) =>
      var d := poll.definition;
      if d.pollId in w.polls || d.kind.InitiativePosition? || !d.Valid() || poll != Initial(d) then w
      else w.(polls := w.polls[d.pollId := poll])
    case VoteIn(p, actor, choice, event, at) =>
      if p !in w.polls then w
      else w.(polls := w.polls[p := RecordAnswer(w.polls[p], actor, choice, event, at).state])
    case Close(p, now) =>
      if p !in w.polls || Finalize(w.polls[p], now).Err? then w
      else w.(polls := w.polls[p := Finalize(w.polls[p], now).value.state])
    case Create(s, poll, key) => if CanCreate(w, m) then Created(w, s, poll, key) else w
    case Revise(previous, updated, poll, key) => if CanRevise(w, m) then Revised(w, previous, updated, poll, key) else w
    case Decide(s, poll, now, key) =>
      if CanDecide(w, m) then Decided(w, Position(s, poll, now).value, key) else w
  }

  ghost function Run(w: World, ms: seq<Move>): World
    requires Good(w)
    decreases |ms|
  {
    if ms == [] then w
    else
      ApplyKeepsGood(w, ms[0]);
      Run(Apply(w, ms[0]), ms[1..])
  }

  // ---------------------------------------------------------------- the invariant

  ghost predicate PollsOk(w: World) {
    forall p :: p in w.polls ==> Inv(w.polls[p]) && w.polls[p].definition.pollId == p
  }

  // The log is 1..n, every revision has its poll, and only the last one's may be open.
  ghost predicate LogOk(w: World, c: Id)
    requires c in w.book.rows
  {
    var row, log := w.book.rows[c], RevisionsOf(w.book, c);
    && row.currentRevision >= 1 && Consecutive(log, row.currentRevision)
    && forall k :: k in log ==> RevisionOk(w, c, row, log[k])
  }

  predicate RevisionOk(w: World, c: Id, row: InitiativeRow, r: InitiativeRevision) {
    && r.pollId in w.polls && Fits(w.polls[r.pollId].definition, c, row.houseId, r)
    && (r.revision < row.currentRevision ==> !w.polls[r.pollId].status.Open?)
  }

  predicate CaseOk(w: World, c: Id)
    requires c in w.book.rows
  {
    var row := w.book.rows[c];
    && HasCase(w, c, row.houseId)
    && var file := w.files[row.houseId].cases[c];
       file.kind.InitiativeCase? && file.author == Some(row.authorId) && 0 < row.caseVersion <= file.version
  }

  predicate PollOwned(w: World, p: Id)
    requires p in w.polls
  {
    var d := w.polls[p].definition;
    d.kind.InitiativePosition? ==>
      && d.caseId in w.book.rows && d.subjectRevision >= 0 && d.subjectRevision in RevisionsOf(w.book, d.caseId)
      && RevisionsOf(w.book, d.caseId)[d.subjectRevision].pollId == p
  }

  predicate OperationOk(w: World, at: (Id, string))
    requires at in w.book.operations
  {
    var op := w.book.operations[at];
    && HasInitiative(w.book, op.caseId, at.0)
    && 1 <= op.revision <= w.book.rows[op.caseId].currentRevision && op.caseVersion > 0
  }

  // A decision is about the closed poll of the current revision, and its case collects no longer.
  predicate DecisionOk(w: World, p: Id)
    requires p in w.book.decisions
  {
    var d := w.book.decisions[p].decision;
    && d.pollId == p && p in w.polls && PollStands(w.polls[p], d) && HasInitiative(w.book, d.caseId, d.houseId)
    && w.book.rows[d.caseId].currentRevision == d.initiativeRevision
    && d.initiativeRevision in RevisionsOf(w.book, d.caseId)
    && RevisionsOf(w.book, d.caseId)[d.initiativeRevision].pollId == p
    && HasCase(w, d.caseId, d.houseId)
    && !w.files[d.houseId].cases[d.caseId].status.Collecting? && !w.files[d.houseId].cases[d.caseId].status.Detected?
  }

  ghost predicate RowsOk(w: World) {
    && (forall c :: c in w.book.revisions ==> c in w.book.rows)
    && (forall c :: c in w.book.rows ==> LogOk(w, c) && CaseOk(w, c))
  }

  ghost predicate LinksOk(w: World) {
    && (forall p :: p in w.polls ==> PollOwned(w, p))
    && (forall at :: at in w.book.operations ==> OperationOk(w, at))
    && (forall p :: p in w.book.decisions ==> DecisionOk(w, p))
    && (forall h: Id, k :: EventTaken(w, h, k) ==> (h, k) in w.book.operations)
  }

  ghost predicate Good(w: World) {
    PollsOk(w) && RowsOk(w) && LinksOk(w)
  }

  // ---------------------------------------------------------------- moves that add no revision

  // Definitions never change, and a terminal poll does not change at all.
  predicate PollLater(before: PollState, after: PollState) {
    after.definition == before.definition && (!before.status.Open? ==> after == before)
  }

  predicate CaseLater(before: CaseRow, after: CaseRow) {
    && after.kind == before.kind && after.author == before.author && after.version >= before.version
    && Allowed(before.status, after.status)
  }

  ghost predicate PollsLater(w: World, u: World) {
    && (forall p :: p in w.polls ==> p in u.polls && PollLater(w.polls[p], u.polls[p]))
    && (forall p :: p in u.polls && p !in w.polls ==> !u.polls[p].definition.kind.InitiativePosition?)
  }

  ghost predicate CasesLater(w: World, u: World) {
    && (forall c: Id, h: Id :: HasCase(w, c, h) ==>
          HasCase(u, c, h) && CaseLater(w.files[h].cases[c], u.files[h].cases[c]))
    && (forall h: Id, k :: EventTaken(u, h, k) ==> EventTaken(w, h, k))
  }

  // A step that leaves the log alone; it may take a decision that fits.
  ghost predicate Quiet(w: World, u: World) {
    && u.book == w.book.(decisions := u.book.decisions)
    && PollsLater(w, u) && CasesLater(w, u)
    && (forall p :: p in w.book.decisions ==> p in u.book.decisions && u.book.decisions[p] == w.book.decisions[p])
    && (forall p :: p in u.book.decisions && p !in w.book.decisions ==> DecisionOk(u, p))
  }

  lemma QuietKeepsRows(w: World, u: World)
    requires RowsOk(w) && Quiet(w, u)
    ensures RowsOk(u)
  {
    hide Inv, Consecutive, Fits, DecisionOk, EventTaken;
    forall c | c in u.book.rows ensures LogOk(u, c) && CaseOk(u, c) {
      assert LogOk(w, c) && CaseOk(w, c);
      var row, log := w.book.rows[c], RevisionsOf(w.book, c);
      forall k | k in log ensures RevisionOk(u, c, row, log[k]) {
        assert RevisionOk(w, c, row, log[k]);
      }
    }
  }

  lemma QuietKeepsLinks(w: World, u: World)
    requires LinksOk(w) && Quiet(w, u)
    ensures LinksOk(u)
  {
    hide Inv, Consecutive, EventTaken;
    forall q | q in u.polls ensures PollOwned(u, q) {
      assert q in w.polls ==> PollOwned(w, q);
    }
    forall at | at in u.book.operations ensures OperationOk(u, at) {
      assert OperationOk(w, at);
    }
    forall q | q in u.book.decisions ensures DecisionOk(u, q) {
      if q in w.book.decisions {
        assert DecisionOk(w, q);
      }
    }
  }

  lemma PollReplaced(w: World, p: Id, s: PollState)
    requires PollsOk(w) && p in w.polls && Inv(s) && PollLater(w.polls[p], s)
    ensures PollsOk(w.(polls := w.polls[p := s])) && Quiet(w, w.(polls := w.polls[p := s]))
  {
    hide Inv, DecisionOk;
  }

  lemma VoteIsQuiet(w: World, m: Move)
    requires PollsOk(w) && (m.VoteIn? || m.Close?)
    ensures PollsOk(Apply(w, m)) && Quiet(w, Apply(w, m))
  {
    hide Inv, RecordAnswer, Finalize, PollLater, Quiet;
    if m.pollId in w.polls {
      var s := w.polls[m.pollId];
      var c :=
        if m.VoteIn? then PollCommand.Vote(m.actor, m.choice, m.sourceEvent, m.receivedAt) else Deadline(m.now);
      StepKeeps(s, c);
      PollReplaced(w, m.pollId, Step(s, c).state);
    }
    NothingIsQuiet(w);
  }

  lemma NothingIsQuiet(w: World)
    ensures Quiet(w, w)
  {
    hide DecisionOk;
  }

  /** One command keeps the invariant and the definition, and leaves a terminal poll alone. */
  lemma StepKeeps(s: PollState, c: PollCommand)
    requires Inv(s)
    ensures s.Valid() && Inv(Step(s, c).state) && PollLater(s, Step(s, c).state)
  {
    StepKeepsInv(s, c);
    if !s.status.Open? {
      TerminalIsFrozen(s, [c]);
    }
  }

  lemma OpenIsQuiet(w: World, m: Move)
    requires PollsOk(w) && m.OpenOther?
    ensures PollsOk(Apply(w, m)) && Quiet(w, Apply(w, m))
  {
    hide Inv, DecisionOk;
    if m.poll.definition.Valid() {
      InitialInv(m.poll.definition);
    }
  }

  lemma EventsAfter(file: CaseFile, caseId: Id, row: CaseRow, change: CaseChange, id: OperationId, other: OperationId)
    requires caseId in file.cases
    ensures OperationApplied(CaseAfter(file, caseId, row, change, id), other)
       <==> OperationApplied(file, other) || other == id
  {
    var after := CaseAfter(file, caseId, row, change, id);
    if OperationApplied(file, other) {
      var i :| 0 <= i < |file.events| && file.events[i].operationId == other;
      assert after.events[i].operationId == other;
    }
    assert after.events[|file.events|].operationId == id;
  }

  lemma CaseMoveIsLater(w: World, u: World, h: Id, c: Id, row: CaseRow, change: CaseChange, id: OperationId)
    requires HasCase(w, c, h) && id.Drawn? && CaseLater(w.files[h].cases[c], row)
    requires u.files == w.files[h := CaseAfter(w.files[h], c, row, change, id)]
    ensures CasesLater(w, u)
  {
    forall x: Id, k | EventTaken(u, x, k) ensures EventTaken(w, x, k) {
      EventsAfter(w.files[h], c, row, change, id, Derived(k));
    }
  }

  lemma OperateIsQuiet(w: World, m: Move)
    requires PollsOk(w) && m.Operate?
    ensures PollsOk(Apply(w, m)) && Quiet(w, Apply(w, m))
  {
    hide Inv, DecisionOk, OperationApplied;
    if CanOperate(w, m) {
      var before := w.files[m.houseId].cases[m.caseId];
      var row := before.(status := m.status, version := before.version + 1);
      CaseMoveIsLater(w, Apply(w, m), m.houseId, m.caseId, row, m.change, Drawn(m.operationId));
    }
  }

  /** The decided poll is the current revision's, and the case stops collecting. */
  lemma DecideIsQuiet(w: World, m: Move)
    requires PollsOk(w) && m.Decide?
    ensures PollsOk(Apply(w, m)) && Quiet(w, Apply(w, m))
  {
    hide Inv, DecisionOk, OperationApplied, Position, PollStands;
    if CanDecide(w, m) {
      var d := Position(m.state, m.poll, m.now).value;
      var before := w.files[d.houseId].cases[d.caseId];
      var row := before.(version := before.version + 1,
                         status := if d.outcome.Supported? then CaseStatus.RequestReady else CaseStatus.NotSupported);
      CaseMoveIsLater(w, Apply(w, m), d.houseId, d.caseId, row, InitiativeDecided, Drawn(d.pollId));
      DecisionFits(w, m);
    }
  }

  lemma DecisionFits(w: World, m: Move)
    requires PollsOk(w) && m.Decide? && CanDecide(w, m)
    ensures
      var d := Position(m.state, m.poll, m.now).value;
      && d.pollId !in w.book.decisions && d.pollId in Apply(w, m).book.decisions && DecisionOk(Apply(w, m), d.pollId)
  {
    hide Inv, OperationApplied;
    assert m.state.Current() in m.state.revisions;
  }

  // ---------------------------------------------------------------- moves that add a revision

  // One fresh poll joins the others, which at most go on.
  ghost predicate PollsGain(w: World, u: World, poll: PollState) {
    && poll.definition.pollId !in w.polls
    && (forall p :: p in u.polls <==> p in w.polls || p == poll.definition.pollId)
    && u.polls[poll.definition.pollId] == poll
    && forall p :: p in w.polls ==> PollLater(w.polls[p], u.polls[p])
  }

  // The state is the next one of its case, under a new key, and nothing has been decided.
  predicate IsNext(b: Book, s: InitiativeState, key: string)
    requires s.revisions != []
  {
    && (s.houseId, key) !in b.operations
    && (if s.caseId in b.rows then
          && b.rows[s.caseId].houseId == s.houseId && b.rows[s.caseId].authorId == s.authorId
          && b.rows[s.caseId].currentRevision + 1 == s.Current().revision
        else s.Current().revision == 1)
    && forall p :: p in b.decisions ==> b.decisions[p].decision.caseId != s.caseId
  }

  // No poll of an earlier revision is open any more.
  predicate EarlierOver(b: Book, u: World, s: InitiativeState) {
    var log := RevisionsOf(b, s.caseId);
    forall k :: k in log && log[k].pollId in u.polls ==> !u.polls[log[k].pollId].status.Open?
  }

  /** What Create and Revise have in common: the next revision of a case enters the log with its fresh poll. */
  ghost predicate AddsRevision(w: World, u: World, s: InitiativeState, poll: PollState, key: string) {
    && Prepared(s, poll) && u.book == WithRevision(w.book, s, key)
    && PollsGain(w, u, poll) && IsNext(w.book, s, key) && EarlierOver(w.book, u, s)
  }

  ghost predicate CasesFollow(w: World, u: World, s: InitiativeState, key: string) {
    && HasCase(u, s.caseId, s.houseId) && u.files[s.houseId].cases[s.caseId].version == s.caseVersion
    && u.files[s.houseId].cases[s.caseId].kind.InitiativeCase?
    && u.files[s.houseId].cases[s.caseId].author == Some(s.authorId)
    && (forall c: Id, h: Id :: HasCase(w, c, h) ==> HasCase(u, c, h) && (c != s.caseId || h != s.houseId ==>
          u.files[h].cases[c] == w.files[h].cases[c]))
    && (forall h: Id, k :: EventTaken(u, h, k) ==> EventTaken(w, h, k) || (h == s.houseId && k == key))
  }

  lemma AddKeepsRows(w: World, u: World, s: InitiativeState, poll: PollState, key: string)
    requires Good(w) && AddsRevision(w, u, s, poll, key) && CasesFollow(w, u, s, key)
    ensures RowsOk(u)
  {
    hide Inv, PollsOk, OperationApplied;
    forall c | c in u.book.rows ensures LogOk(u, c) && CaseOk(u, c) {
      if c != s.caseId {
        assert LogOk(w, c) && CaseOk(w, c);
        var row, log := w.book.rows[c], RevisionsOf(w.book, c);
        forall k | k in log ensures RevisionOk(u, c, row, log[k]) {
          assert RevisionOk(w, c, row, log[k]);
        }
      } else {
        AddedLogOk(w, u, s, poll, key);
      }
    }
  }

  lemma AddedLogOk(w: World, u: World, s: InitiativeState, poll: PollState, key: string)
    requires RowsOk(w) && AddsRevision(w, u, s, poll, key)
    ensures LogOk(u, s.caseId)
  {
    hide Inv, OperationApplied, CaseOk, Fits;
    var before, n := RevisionsOf(w.book, s.caseId), s.Current().revision;
    var row, log := u.book.rows[s.caseId], RevisionsOf(u.book, s.caseId);
    assert log == before[n := s.Current()];
    AddedIsConsecutive(w, s, key);
    forall k | k in log ensures RevisionOk(u, s.caseId, row, log[k]) {
      if k == n {
        PreparedFits(s, poll);
      } else {
        assert k in before;
        assert LogOk(w, s.caseId);
        assert RevisionOk(w, s.caseId, w.book.rows[s.caseId], before[k]);
      }
    }
  }

  lemma PreparedFits(s: InitiativeState, poll: PollState)
    requires Prepared(s, poll)
    ensures s.Valid() && Fits(poll.definition, s.caseId, s.houseId, s.Current())
    ensures s.Current().pollId == poll.definition.pollId
  {
  }

  lemma AddedIsConsecutive(w: World, s: InitiativeState, key: string)
    requires RowsOk(w) && s.Valid() && IsNext(w.book, s, key)
    ensures Consecutive(RevisionsOf(w.book, s.caseId)[s.Current().revision := s.Current()], s.Current().revision)
  {
    hide Inv, RevisionOk, CaseOk;
    if s.caseId in w.book.rows {
      assert LogOk(w, s.caseId);
    }
  }

  lemma AddKeepsOwners(w: World, u: World, s: InitiativeState, poll: PollState, key: string)
    requires RowsOk(w) && LinksOk(w) && AddsRevision(w, u, s, poll, key)
    ensures forall q :: q in u.polls ==> PollOwned(u, q)
  {
    hide Inv, Consecutive, OperationOk, DecisionOk, EventTaken, EarlierOver, LogOk, CaseOk;
    PreparedFits(s, poll);
    NextIsFree(w, s, key);
    forall q | q in u.polls ensures PollOwned(u, q) {
      if q in w.polls {
        assert PollOwned(w, q);
      }
    }
  }

  lemma AddKeepsOperations(w: World, u: World, s: InitiativeState, poll: PollState, key: string)
    requires LinksOk(w) && AddsRevision(w, u, s, poll, key)
    ensures forall at :: at in u.book.operations ==> OperationOk(u, at)
  {
    hide Inv, PollOwned, DecisionOk, EventTaken, EarlierOver, PollsGain;
    forall at | at in u.book.operations ensures OperationOk(u, at) {
      if at != (s.houseId, key) {
        assert OperationOk(w, at);
      }
    }
  }

  lemma AddKeepsLinks(w: World, u: World, s: InitiativeState, poll: PollState, key: string)
    requires RowsOk(w) && LinksOk(w) && AddsRevision(w, u, s, poll, key) && CasesFollow(w, u, s, key)
    ensures LinksOk(u)
  {
    hide Inv, Consecutive, PollOwned, RowsOk, EventTaken, EarlierOver, OperationOk, Prepared, DecisionOk, PollsGain;
    AddKeepsOwners(w, u, s, poll, key);
    AddKeepsOperations(w, u, s, poll, key);
    PreparedFits(s, poll);
    forall q | q in u.book.decisions ensures DecisionOk(u, q) {
      AddKeepsDecision(w, u, s, poll, key, q);
    }
  }

  lemma AddKeepsDecision(w: World, u: World, s: InitiativeState, poll: PollState, key: string, q: Id)
    requires AddsRevision(w, u, s, poll, key) && CasesFollow(w, u, s, key) && q in w.book.decisions && DecisionOk(w, q)
    ensures q in u.book.decisions && DecisionOk(u, q)
  {
    hide Inv, EventTaken, EarlierOver, Prepared;
    PreparedFits(s, poll);
  }

  lemma NextIsFree(w: World, s: InitiativeState, key: string)
    requires RowsOk(w) && s.Valid() && IsNext(w.book, s, key)
    ensures s.Current().revision !in RevisionsOf(w.book, s.caseId)
  {
    if s.caseId in w.book.rows {
      assert LogOk(w, s.caseId);
    }
  }

  lemma CreateAdds(w: World, m: Move)
    requires Good(w) && m.Create? && CanCreate(w, m)
    ensures AddsRevision(w, Apply(w, m), m.state, m.poll, m.key)
    ensures CasesFollow(w, Apply(w, m), m.state, m.key)
    ensures PollsOk(Apply(w, m))
  {
    hide Inv, Consecutive, OperationApplied, Cut, Fits, OperationOk, PollOwned, LogOk, PollStands;
    var u := Apply(w, m);
    KeyIsNew(w, m.state.houseId, m.key);
    forall p | p in w.book.decisions ensures w.book.decisions[p].decision.caseId != m.state.caseId {
      assert DecisionOk(w, p);
    }
    InitialInv(m.poll.definition);
  }

  /** A key without a result is a key without an operation. */
  lemma KeyIsNew(w: World, h: Id, key: string)
    requires LinksOk(w) && OperationResult(w.book, h, key).None?
    ensures (h, key) !in w.book.operations
  {
  }

  lemma CreateKeepsGood(w: World, m: Move)
    requires Good(w) && m.Create?
    ensures Good(Apply(w, m))
  {
    hide PollsOk, RowsOk, LinksOk, AddsRevision, CasesFollow;
    if CanCreate(w, m) {
      CreateAdds(w, m);
      AddKeepsRows(w, Apply(w, m), m.state, m.poll, m.key);
      AddKeepsLinks(w, Apply(w, m), m.state, m.poll, m.key);
    }
  }

  lemma LoadedMatches(w: World, c: Id)
    requires Good(w) && c in w.book.rows
    ensures
      var row := w.book.rows[c];
      var loaded := LoadInitiative(w.book, c, row.houseId, None, None);
      && loaded.Some? && loaded.value.Valid()
      && loaded.value.caseVersion == row.caseVersion && loaded.value.authorId == row.authorId
      && |loaded.value.revisions| == row.currentRevision
      && loaded.value.revisions == Cut(RevisionsOf(w.book, c), row.currentRevision)
      && forall i :: 0 <= i < row.currentRevision ==>
           i + 1 in RevisionsOf(w.book, c) && loaded.value.revisions[i] == RevisionsOf(w.book, c)[i + 1]
  {
    hide Inv, RevisionOk, LinksOk, PollsOk, Cut;
    assert LogOk(w, c) && CaseOk(w, c);
    CutOfConsecutive(RevisionsOf(w.book, c), w.book.rows[c].currentRevision, w.book.rows[c].currentRevision);
  }

  lemma ReviseAdds(w: World, m: Move)
    requires Good(w) && m.Revise? && CanRevise(w, m)
    ensures AddsRevision(w, Apply(w, m), m.updated, m.poll, m.key)
  {
    hide PollsGain, IsNext, EarlierOver, PollsOk, RowsOk, LinksOk, Prepared, CheckRevise, WithRevision;
    ReviseGainsPoll(w, m);
    ReviseIsNext(w, m.previous, m.updated, m.key);
    ReviseClosesEarlier(w, m);
  }

  lemma ReviseGainsPoll(w: World, m: Move)
    requires PollsOk(w) && m.Revise? && CanRevise(w, m)
    ensures PollsGain(w, Apply(w, m), m.poll)
  {
    hide Inv, Cut, CheckRevise, Prepared, WithRevision;
    StepKeeps(w.polls[m.previous.Current().pollId], Withdraw);
  }

  lemma ReviseIsNext(w: World, previous: InitiativeState, updated: InitiativeState, key: string)
    requires Good(w) && Follows(previous, updated) && CheckRevise(w, previous, updated, key) == Proceed
    ensures IsNext(w.book, updated, key)
  {
    hide Inv, OperationApplied, Cut, Consecutive, LogOk, PollStands;
    KeyIsNew(w, updated.houseId, key);
    LoadedMatches(w, updated.caseId);
    forall p | p in w.book.decisions ensures w.book.decisions[p].decision.caseId != updated.caseId {
      assert DecisionOk(w, p);
    }
  }

  lemma ReviseClosesEarlier(w: World, m: Move)
    requires Good(w) && m.Revise? && CanRevise(w, m)
    ensures EarlierOver(w.book, Apply(w, m), m.updated)
  {
    hide Inv, OperationApplied, Cut, Consecutive, LinksOk, Prepared, OperationResult, CaseOk;
    var u, c, n := Apply(w, m), m.updated.caseId, m.previous.Current().revision;
    LoadedMatches(w, c);
    assert LogOk(w, c);
    var row, log := w.book.rows[c], RevisionsOf(w.book, c);
    forall k | k in log && log[k].pollId in u.polls ensures !u.polls[log[k].pollId].status.Open? {
      assert RevisionOk(w, c, row, log[k]);
      InLog(w, c, k);
      if k == n {
        assert m.previous.Current() == log[k];
      } else {
        assert RevisionOk(w, c, row, log[n]);
      }
    }
  }

  lemma InLog(w: World, c: Id, k: nat)
    requires RowsOk(w) && c in w.book.rows && k in RevisionsOf(w.book, c)
    ensures 1 <= k <= w.book.rows[c].currentRevision && RevisionsOf(w.book, c)[k].revision == k
  {
    assert LogOk(w, c);
  }

  lemma ReviseFollows(w: World, m: Move)
    requires Good(w) && m.Revise? && CanRevise(w, m)
    ensures CasesFollow(w, Apply(w, m), m.updated, m.key)
    ensures PollsOk(Apply(w, m))
  {
    hide Inv, Consecutive, OperationApplied, Cut, Fits, RowsOk, LinksOk;
    var u := Apply(w, m);
    var file, h := w.files[m.updated.houseId], m.updated.houseId;
    var row := file.cases[m.updated.caseId].(description := m.updated.Current().wording, version := m.updated.caseVersion);
    forall x: Id, k | EventTaken(u, x, k) ensures EventTaken(w, x, k) || (x == h && k == m.key) {
      EventsAfter(file, m.updated.caseId, row, InitiativeRevised, Derived(m.key), Derived(k));
    }
    InitialInv(m.poll.definition);
    var was := m.previous.Current().pollId;
    StepKeeps(w.polls[was], Withdraw);
  }

  lemma ReviseKeepsGood(w: World, m: Move)
    requires Good(w) && m.Revise?
    ensures Good(Apply(w, m))
  {
    hide PollsOk, RowsOk, LinksOk, AddsRevision, CasesFollow;
    if CanRevise(w, m) {
      ReviseAdds(w, m);
      ReviseFollows(w, m);
      AddKeepsRows(w, Apply(w, m), m.updated, m.poll, m.key);
      AddKeepsLinks(w, Apply(w, m), m.updated, m.poll, m.key);
    }
  }

  lemma ApplyKeepsGood(w: World, m: Move)
    requires Good(w)
    ensures Good(Apply(w, m))
  {
    hide PollsOk, RowsOk, LinksOk, Quiet, Apply;
    match m {
      case Create(_, _, _) => CreateKeepsGood(w, m);
      case Revise(_, _, _, _) => ReviseKeepsGood(w, m);
      case _ =>
        OthersAreQuiet(w, m);
        QuietKeepsRows(w, Apply(w, m));
        QuietKeepsLinks(w, Apply(w, m));
    }
  }

  lemma OthersAreQuiet(w: World, m: Move)
    requires PollsOk(w) && !m.Create? && !m.Revise?
    ensures PollsOk(Apply(w, m)) && Quiet(w, Apply(w, m))
  {
    hide PollsOk, Quiet, Apply;
    match m {
      case Operate(_, _, _, _, _) => OperateIsQuiet(w, m);
      case OpenOther(poll) => OpenIsQuiet(w, m);
      case VoteIn(_, _, _, _, _) => VoteIsQuiet(w, m);
      case Close(_, _) => VoteIsQuiet(w, m);
      case Decide(_, _, _, _) => DecideIsQuiet(w, m);
    }
  }

  // ---------------------------------------------------------------- the log only grows

  ghost predicate LogGrows(w: World, u: World, c: Id)
    requires c in w.book.rows
  {
    && c in u.book.rows
    && u.book.rows[c].houseId == w.book.rows[c].houseId && u.book.rows[c].authorId == w.book.rows[c].authorId
    && w.book.rows[c].currentRevision <= u.book.rows[c].currentRevision
    && forall k :: k in RevisionsOf(w.book, c) ==>
         k in RevisionsOf(u.book, c) && RevisionsOf(u.book, c)[k] == RevisionsOf(w.book, c)[k]
  }

  ghost predicate Extends(w: World, u: World) {
    && (forall p :: p in w.polls ==> p in u.polls && PollLater(w.polls[p], u.polls[p]))
    && (forall c :: c in w.book.rows ==> LogGrows(w, u, c))
    && (forall at :: at in w.book.operations ==> at in u.book.operations && u.book.operations[at] == w.book.operations[at])
    && (forall p :: p in w.book.decisions ==> p in u.book.decisions && u.book.decisions[p] == w.book.decisions[p])
  }

  lemma QuietExtends(w: World, u: World)
    requires Quiet(w, u)
    ensures Extends(w, u)
  {
    hide DecisionOk;
  }

  lemma AddExtends(w: World, u: World, s: InitiativeState, poll: PollState, key: string)
    requires RowsOk(w) && AddsRevision(w, u, s, poll, key)
    ensures Extends(w, u)
  {
    hide Consecutive, EarlierOver, Prepared, LogOk, CaseOk, PollLater;
    PreparedFits(s, poll);
    NextIsFree(w, s, key);
  }

  lemma ApplyExtends(w: World, m: Move)
    requires Good(w)
    ensures Extends(w, Apply(w, m))
  {
    hide PollsOk, RowsOk, LinksOk, Quiet, AddsRevision, CasesFollow, Apply, Extends;
    match m {
      case Create(_, _, _) =>
        if CanCreate(w, m) {
          CreateAdds(w, m);
          AddExtends(w, Apply(w, m), m.state, m.poll, m.key);
        } else {
          Blocked(w, m);
        }
      case Revise(_, _, _, _) =>
        if CanRevise(w, m) {
          ReviseAdds(w, m);
          AddExtends(w, Apply(w, m), m.updated, m.poll, m.key);
        } else {
          Blocked(w, m);
        }
      case _ =>
        OthersAreQuiet(w, m);
        QuietExtends(w, Apply(w, m));
    }
  }

  lemma Blocked(w: World, m: Move)
    requires PollsOk(w) && ((m.Create? && !CanCreate(w, m)) || (m.Revise? && !CanRevise(w, m)))
    ensures Apply(w, m) == w && Extends(w, w)
  {
    hide Inv;
  }

  lemma ExtendsChains(w: World, u: World, v: World)
    requires Extends(w, u) && Extends(u, v)
    ensures Extends(w, v)
  {
    forall c | c in w.book.rows ensures LogGrows(w, v, c) {
      assert LogGrows(w, u, c) && LogGrows(u, v, c);
    }
  }

  lemma {:induction false} RunExtends(w: World, ms: seq<Move>)
    requires Good(w)
    ensures Good(Run(w, ms)) && Extends(w, Run(w, ms))
    decreases |ms|
  {
    hide PollsOk, RowsOk, LinksOk, Extends, Apply;
    if ms == [] {
      EqualExtends(w);
    } else {
      ApplyKeepsGood(w, ms[0]);
      ApplyExtends(w, ms[0]);
      RunExtends(Apply(w, ms[0]), ms[1..]);
      ExtendsChains(w, Apply(w, ms[0]), Run(w, ms));
    }
  }

  lemma EqualExtends(w: World)
    ensures Extends(w, w)
  {
  }

  // ---------------------------------------------------------------- main results

  // Before the first initiative: cases and polls of other kinds may already exist.
  ghost predicate Fresh(w: World) {
    && PollsOk(w) && w.book == Book(map[], map[], map[], map[])
    && (forall p :: p in w.polls ==> !w.polls[p].definition.kind.InitiativePosition?)
    && (forall h: Id, k :: !EventTaken(w, h, k))
  }

  lemma FreshIsGood(w: World)
    requires Fresh(w)
    ensures Good(w)
  {
  }

  /**
   * Main result: after any run from a fresh start the revisions of an initiative are exactly 1..n, each with a
   * poll of its own; at most one poll of the initiative is open, and it is the current revision's.
   */
  lemma OneLivePoll(w: World, ms: seq<Move>)
    requires Fresh(w)
    ensures Good(w)
    ensures
      var u := Run(w, ms);
      && (forall c :: c in u.book.rows ==> Consecutive(RevisionsOf(u.book, c), u.book.rows[c].currentRevision))
      && (forall c, k :: c in u.book.rows && k in RevisionsOf(u.book, c) ==>
            var poll := RevisionsOf(u.book, c)[k].pollId;
            && poll in u.polls && Fits(u.polls[poll].definition, c, u.book.rows[c].houseId, RevisionsOf(u.book, c)[k])
            && (k < u.book.rows[c].currentRevision ==> u.polls[poll].status.Closed? || u.polls[poll].status.Cancelled?))
      && (forall p :: p in u.polls && u.polls[p].definition.kind.InitiativePosition? && u.polls[p].status.Open? ==>
            var c := u.polls[p].definition.caseId;
            && c in u.book.rows && u.book.rows[c].currentRevision in RevisionsOf(u.book, c)
            && RevisionsOf(u.book, c)[u.book.rows[c].currentRevision].pollId == p)
  {
    FreshIsGood(w);
    RunExtends(w, ms);
    LiveIsCurrent(Run(w, ms));
  }

  lemma LiveIsCurrent(u: World)
    requires Good(u)
    ensures forall c :: c in u.book.rows ==> Consecutive(RevisionsOf(u.book, c), u.book.rows[c].currentRevision)
    ensures forall c, k :: c in u.book.rows && k in RevisionsOf(u.book, c) ==>
              RevisionOk(u, c, u.book.rows[c], RevisionsOf(u.book, c)[k]) && RevisionsOf(u.book, c)[k].revision == k
    ensures forall p :: p in u.polls && u.polls[p].definition.kind.InitiativePosition? && u.polls[p].status.Open? ==>
              var c := u.polls[p].definition.caseId;
              && c in u.book.rows && u.book.rows[c].currentRevision in RevisionsOf(u.book, c)
              && RevisionsOf(u.book, c)[u.book.rows[c].currentRevision].pollId == p
  {
    hide Inv;
    forall c | c in u.book.rows
      ensures Consecutive(RevisionsOf(u.book, c), u.book.rows[c].currentRevision)
    {
      assert LogOk(u, c);
    }
    forall c, k | c in u.book.rows && k in RevisionsOf(u.book, c)
      ensures RevisionOk(u, c, u.book.rows[c], RevisionsOf(u.book, c)[k]) && RevisionsOf(u.book, c)[k].revision == k
    {
      assert LogOk(u, c);
    }
    forall p | p in u.polls && u.polls[p].definition.kind.InitiativePosition? && u.polls[p].status.Open?
      ensures
        var c := u.polls[p].definition.caseId;
        && c in u.book.rows && u.book.rows[c].currentRevision in RevisionsOf(u.book, c)
        && RevisionsOf(u.book, c)[u.book.rows[c].currentRevision].pollId == p
    {
      assert PollOwned(u, p);
      var c := u.polls[p].definition.caseId;
      assert LogOk(u, c);
      var k := u.polls[p].definition.subjectRevision;
      assert RevisionOk(u, c, u.book.rows[c], RevisionsOf(u.book, c)[k]);
    }
  }

  /** Main result: polls of earlier revisions, like every poll that is over, stay exactly as they were. */
  lemma FinishedPollsAreFrozen(start: World, before: seq<Move>, after: seq<Move>, p: Id)
    requires Fresh(start)
    ensures Good(start) && Good(Run(start, before))
    ensures
      var w := Run(start, before);
      p in w.polls && !w.polls[p].status.Open? ==> p in Run(w, after).polls && Run(w, after).polls[p] == w.polls[p]
  {
    hide PollsOk, RowsOk, LinksOk, Apply;
    FreshIsGood(start);
    RunExtends(start, before);
    RunExtends(Run(start, before), after);
  }

  /**
   * Main result: a decision saved in any run is what the residents' final answers on the current revision call for,
   * no revision follows it, an initiative has one decision, and later moves do not change it.
   */
  lemma DecisionIsLast(start: World, before: seq<Move>, after: seq<Move>, p: Id)
    requires Fresh(start)
    ensures Good(start) && Good(Run(start, before))
    ensures
      var w := Run(start, before);
      var u := Run(w, after);
      p in w.book.decisions ==>
        var d := w.book.decisions[p].decision;
        && p in u.book.decisions && u.book.decisions[p] == w.book.decisions[p]
        && p in w.polls && p in u.polls && u.polls[p] == w.polls[p] && u.polls[p].Valid()
        && u.polls[p].definition.policy.InitiativePolicy?
        && OfInitiative(d.outcome) == OutcomeOfResidents(u.polls[p])
        && d.caseId in u.book.rows && u.book.rows[d.caseId].currentRevision == d.initiativeRevision
        && d.initiativeRevision in RevisionsOf(u.book, d.caseId)
        && RevisionsOf(u.book, d.caseId)[d.initiativeRevision].pollId == p
        && forall q :: q in u.book.decisions && u.book.decisions[q].decision.caseId == d.caseId ==> q == p
  {
    hide PollsOk, RowsOk, LinksOk, Apply, LogGrows;
    FreshIsGood(start);
    RunExtends(start, before);
    var w := Run(start, before);
    RunExtends(w, after);
    if p in w.book.decisions {
      OneDecision(w, p);
      OneDecision(Run(w, after), p);
    }
  }

  lemma OneDecision(u: World, p: Id)
    requires Good(u) && p in u.book.decisions
    ensures DecisionOk(u, p)
    ensures
      var d := u.book.decisions[p].decision;
      && u.polls[p].Valid() && u.polls[p].definition.policy.InitiativePolicy?
      && OfInitiative(d.outcome) == OutcomeOfResidents(u.polls[p])
      && (forall q :: q in u.book.decisions && u.book.decisions[q].decision.caseId == d.caseId ==> q == p)
  {
    assert DecisionOk(u, p);
    assert Inv(u.polls[p]);
    ClosedFits(u.polls[p]);
    hide OutcomeOfResidents;
    forall q | q in u.book.decisions && u.book.decisions[q].decision.caseId == u.book.decisions[p].decision.caseId
      ensures q == p
    {
      assert DecisionOk(u, q);
    }
  }

  /** Main result: deciding makes the case ready for a request exactly when the residents support the initiative. */
  lemma DecisionSetsStatus(w: World, m: Move)
    requires Good(w) && m.Decide? && CanDecide(w, m)
    ensures HasCase(w, m.state.caseId, m.state.houseId)
    ensures
      var u, c, h, p := Apply(w, m), m.state.caseId, m.state.houseId, m.state.Current().pollId;
      && p in w.polls && u.polls == w.polls && OtherCasesKept(w.files, u.files, h, c)
      && u.files[h].cases[c].version == w.files[h].cases[c].version + 1
      && (u.files[h].cases[c].status.RequestReady? <==> OutcomeOfResidents(w.polls[p]) == OfInitiative(Supported))
      && (u.files[h].cases[c].status.NotSupported? <==> OutcomeOfResidents(w.polls[p]) != OfInitiative(Supported))
      && p in u.book.decisions && OfInitiative(u.book.decisions[p].decision.outcome) == OutcomeOfResidents(w.polls[p])
  {
    hide Inv, Cut, OperationApplied, OtherCasesKept, OutcomeOfResidents, DecisionKeyUsed, LogOk, LinksOk, CaseOk, Decided;
    PositionSays(m.state, m.poll, m.now);
    var d := Position(m.state, m.poll, m.now).value;
    ClosedFits(w.polls[d.pollId]);
    DecidedSays(w, d, m.key);
  }

  /** A used key answers with the same state for ever, whatever revisions follow. */
  lemma ResultIsKept(w: World, u: World, h: Id, key: string)
    requires Good(w) && Good(u) && Extends(w, u) && (h, key) in w.book.operations
    ensures OperationResult(u.book, h, key) == OperationResult(w.book, h, key)
  {
    hide Cut, Inv, PollsOk, RowsOk, LogOk, DecisionOk, PollOwned, EventTaken;
    assert OperationOk(w, (h, key));
    var op := w.book.operations[(h, key)];
    assert LogGrows(w, u, op.caseId);
    PrefixIsKept(w, u, op.caseId, op.revision);
  }

  lemma PrefixIsKept(w: World, u: World, c: Id, limit: int)
    requires RowsOk(w) && RowsOk(u) && c in w.book.rows && LogGrows(w, u, c)
    requires limit <= w.book.rows[c].currentRevision
    ensures Cut(RevisionsOf(u.book, c), limit) == Cut(RevisionsOf(w.book, c), limit)
  {
    assert LogOk(w, c) && LogOk(u, c);
    CutIsStable(RevisionsOf(w.book, c), RevisionsOf(u.book, c), limit);
  }

  /** Writing the next revision under a key makes the key, and the log, answer with exactly that state. */
  lemma Recorded(b: Book, s: InitiativeState, key: string, n: nat)
    requires s.Valid() && s.Current().revision == n + 1 && Consecutive(RevisionsOf(b, s.caseId), n)
    requires s.revisions == Cut(RevisionsOf(b, s.caseId), n) + [s.Current()]
    ensures OperationResult(WithRevision(b, s, key), s.houseId, key) == Some(s)
    ensures LoadInitiative(WithRevision(b, s, key), s.caseId, s.houseId, None, None) == Some(s)
  {
    hide Cut, Consecutive;
    var u := WithRevision(b, s, key);
    CutAppends(RevisionsOf(b, s.caseId), n, s.Current());
    assert RevisionsOf(u, s.caseId) == RevisionsOf(b, s.caseId)[n + 1 := s.Current()];
    assert u.operations[(s.houseId, key)] == OperationRow(s.caseId, n + 1, s.caseVersion);
    assert Cut(RevisionsOf(u, s.caseId), n + 1) == s.revisions;
  }

  /** The call that used a key stored what it returned. */
  lemma RevisionIsRecorded(w: World, m: Move)
    requires Good(w) && m.Revise? && CanRevise(w, m)
    ensures (m.updated.houseId, m.key) in Apply(w, m).book.operations
    ensures OperationResult(Apply(w, m).book, m.updated.houseId, m.key) == Some(m.updated)
    ensures LoadInitiative(Apply(w, m).book, m.updated.caseId, m.updated.houseId, None, None) == Some(m.updated)
  {
    hide Inv, Cut, Consecutive, OperationApplied, OperationResult, LinksOk, CaseOk, Cancel, Prepared;
    var c := m.updated.caseId;
    LoadedMatches(w, c);
    assert LogOk(w, c);
    assert m.updated.revisions == m.previous.revisions + [m.updated.Current()];
    Recorded(w.book, m.updated, m.key, m.previous.Current().revision);
  }

  lemma CreationIsRecorded(w: World, m: Move)
    requires Good(w) && m.Create? && CanCreate(w, m)
    ensures (m.state.houseId, m.key) in Apply(w, m).book.operations
    ensures OperationResult(Apply(w, m).book, m.state.houseId, m.key) == Some(m.state)
    ensures LoadInitiative(Apply(w, m).book, m.state.caseId, m.state.houseId, None, None) == Some(m.state)
  {
    hide Inv, Cut, OperationApplied, OperationResult, LinksOk, LogOk, CaseOk, Fits;
    assert RevisionsOf(w.book, m.state.caseId) == map[];
    CutOfConsecutive(map[], 0, 0);
    assert m.state.revisions == Cut(map[], 0) + [m.state.Current()];
    Recorded(w.book, m.state, m.key, 0);
  }

  /**
   * Main result: after any further moves, repeating a revision's key for the same wording and audience replays
   * exactly the state the first call returned; a key reused for anything else is refused.
   */
  lemma RevisionReplays(
      start: World, before: seq<Move>, m: Move, after: seq<Move>, previous: InitiativeState, again: InitiativeState)
    requires Fresh(start) && m.Revise? && previous.revisions != [] && again.houseId == m.updated.houseId
    ensures Good(start) && Good(Run(start, before)) && Good(Apply(Run(start, before), m))
    ensures
      var w := Run(start, before);
      CanRevise(w, m) ==>
        CheckRevise(Run(Apply(w, m), after), previous, again, m.key)
        == if SameRevision(m.updated, again) then Replay(m.updated) else Refuse(Conflict)
  {
    hide PollsOk, RowsOk, LinksOk, Apply, CanRevise, OperationResult, SameRevision;
    FreshIsGood(start);
    RunExtends(start, before);
    var w := Run(start, before);
    ApplyKeepsGood(w, m);
    if CanRevise(w, m) {
      var u := Run(Apply(w, m), after);
      RevisionIsRecorded(w, m);
      RunExtends(Apply(w, m), after);
      ResultIsKept(Apply(w, m), u, m.updated.houseId, m.key);
      LoadedIsThere(Apply(w, m), u, m.updated);
      RepeatedIf(m.updated, again);
    }
  }

  lemma LoadedIsThere(w: World, u: World, s: InitiativeState)
    requires LoadInitiative(w.book, s.caseId, s.houseId, None, None).Some? && Extends(w, u)
    ensures HasInitiative(u.book, s.caseId, s.houseId)
  {
    hide Cut;
    assert LogGrows(w, u, s.caseId);
  }

  lemma RepeatedIf(a: InitiativeState, b: InitiativeState)
    ensures Repeated(a, b) == if SameRevision(a, b) then Replay(a) else Refuse(Conflict)
    ensures SameRevision(a, b) ==> a.caseId == b.caseId
  {
  }

  /**
   * A repeated creation replays too, but only for a caller who knows the case's present version: the guard
   * on the case comes before the look at the key.
   */
  lemma CreationReplaysIff(start: World, before: seq<Move>, m: Move, after: seq<Move>, again: InitiativeState)
    requires Fresh(start) && m.Create?
    requires again.houseId == m.state.houseId && SameRevision(m.state, again) && again.authorId == m.state.authorId
    ensures Good(start) && Good(Run(start, before)) && Good(Apply(Run(start, before), m))
    ensures
      var w := Run(start, before);
      CanCreate(w, m) ==>
        var u := Run(Apply(w, m), after);
        && HasCase(u, again.caseId, again.houseId)
        && var version := u.files[again.houseId].cases[again.caseId].version;
           CheckCreate(u, again, m.key) == if again.caseVersion == version then Replay(m.state) else Refuse(Conflict)
  {
    hide PollsOk, RowsOk, LinksOk, Apply, CanCreate, CheckCreate, SameRevision, LogGrows;
    FreshIsGood(start);
    RunExtends(start, before);
    var w := Run(start, before);
    ApplyKeepsGood(w, m);
    if CanCreate(w, m) {
      CreationReplays(w, m, after, again);
    }
  }

  lemma CreationReplays(w: World, m: Move, after: seq<Move>, again: InitiativeState)
    requires Good(w) && m.Create? && CanCreate(w, m) && Good(Apply(w, m))
    requires again.houseId == m.state.houseId && SameRevision(m.state, again) && again.authorId == m.state.authorId
    ensures
      var u := Run(Apply(w, m), after);
      && HasCase(u, again.caseId, again.houseId)
      && var version := u.files[again.houseId].cases[again.caseId].version;
         CheckCreate(u, again, m.key) == if again.caseVersion == version then Replay(m.state) else Refuse(Conflict)
  {
    hide Inv, Cut, Apply, CanCreate, LogOk, LinksOk, PollsOk, Repeated, SameRevision, OperationResult;
    CreationIsRecorded(w, m);
    RunExtends(Apply(w, m), after);
    var u := Run(Apply(w, m), after);
    ResultIsKept(Apply(w, m), u, m.state.houseId, m.key);
    CreatedRow(w, m);
    assert LogGrows(Apply(w, m), u, m.state.caseId);
    assert CaseOk(u, m.state.caseId);
    RepeatedIf(m.state, again);
  }

  lemma CreatedRow(w: World, m: Move)
    requires Good(w) && m.Create? && CanCreate(w, m)
    ensures m.state.caseId in Apply(w, m).book.rows
    ensures
      var row := Apply(w, m).book.rows[m.state.caseId];
      row.houseId == m.state.houseId && row.authorId == m.state.authorId
  {
    hide Inv, Cut;
  }

  /** No constraint of the log or of the case events can refuse a revision that passed its checks. */
  lemma RevisionNeverCollides(w: World, previous: InitiativeState, updated: InitiativeState, poll: PollState, key: string)
    requires Good(w) && Follows(previous, updated) && Prepared(updated, poll)
    requires poll.definition.pollId !in w.polls && CheckRevise(w, previous, updated, key) == Proceed
    ensures previous.Current().pollId in w.polls
    ensures w.polls[previous.Current().pollId].definition.houseId == updated.houseId
    ensures !LogRefuses(w.book, updated) && !EventTaken(w, updated.houseId, key)
  {
    hide Inv, Cut, OperationApplied;
    var c, n := updated.caseId, previous.Current().revision;
    LoadedMatches(w, c);
    assert LogOk(w, c);
    assert previous.Current() == RevisionsOf(w.book, c)[n];
    assert RevisionOk(w, c, w.book.rows[c], RevisionsOf(w.book, c)[n]);
    ReviseIsNext(w, previous, updated, key);
    NextIsFree(w, updated, key);
    PollIdIsFree(w, poll.definition.pollId);
    KeyIsNew(w, updated.houseId, key);
  }

  lemma PollIdIsFree(w: World, pollId: Id)
    requires RowsOk(w) && pollId !in w.polls
    ensures !PollIdTaken(w.book, pollId)
  {
    hide Inv;
    forall c, k | c in w.book.revisions && k in w.book.revisions[c] ensures w.book.revisions[c][k].pollId != pollId {
      assert LogOk(w, c);
      assert RevisionOk(w, c, w.book.rows[c], RevisionsOf(w.book, c)[k]);
    }
  }

  // ---------------------------------------------------------------- a case that moved on without its initiative

  // Another operation, such as an attached message, raised the version of the case alone.
  predicate Lags(w: World, c: Id) {
    && c in w.book.rows && HasCase(w, c, w.book.rows[c].houseId)
    && w.book.rows[c].caseVersion < w.files[w.book.rows[c].houseId].cases[c].version
  }

  /** With an unused key, revising the loaded state goes ahead exactly when the case collects and does not lag. */
  lemma RevisionProceedsIff(w: World, c: Id, updated: InitiativeState, key: string)
    requires Good(w) && c in w.book.rows
    requires (w.book.rows[c].houseId, key) !in w.book.operations
    requires
      var loaded := LoadInitiative(w.book, c, w.book.rows[c].houseId, None, None);
      loaded.Some? && Follows(loaded.value, updated) && updated.caseVersion == loaded.value.caseVersion + 1
    ensures
      var previous := LoadInitiative(w.book, c, w.book.rows[c].houseId, None, None).value;
      CheckRevise(w, previous, updated, key) == Proceed
      <==> HasCase(w, c, w.book.rows[c].houseId)
           && w.files[w.book.rows[c].houseId].cases[c].status.Collecting? && !Lags(w, c)
  {
    hide Inv, Cut, Consecutive, LogOk;
    LoadedMatches(w, c);
    LastIsCurrent(w, c);
    assert CaseOk(w, c);
  }

  /** With an unused key, the position on the current closed poll is saved exactly when the case collects without lag. */
  lemma DecisionProceedsIff(w: World, c: Id, now: Time, key: string)
    requires Good(w) && c in w.book.rows
    requires key != "" && |key| <= MAX_DECISION_KEY && !DecisionKeyUsed(w.book, w.book.rows[c].houseId, key)
    requires
      var loaded := LoadInitiative(w.book, c, w.book.rows[c].houseId, None, None);
      && loaded.Some? && loaded.value.revisions != [] && HasCase(w, c, w.book.rows[c].houseId)
      && var p := loaded.value.Current().pollId;
         p in w.polls && w.polls[p].status.Closed? && !OperationApplied(w.files[w.book.rows[c].houseId], Drawn(p))
    ensures
      var s := LoadInitiative(w.book, c, w.book.rows[c].houseId, None, None).value;
      var position := Position(s, w.polls[s.Current().pollId], now);
      && position.Ok?
      && (CheckDecide(w, position.value, key) == Proceed
          <==> w.files[w.book.rows[c].houseId].cases[c].status.Collecting? && !Lags(w, c))
  {
    hide Cut, Consecutive, OperationApplied, LogOk;
    LoadedMatches(w, c);
    LastIsCurrent(w, c);
    assert CaseOk(w, c);
    CurrentFits(w, c);
    var p := LoadInitiative(w.book, c, w.book.rows[c].houseId, None, None).value.Current().pollId;
    assert Inv(w.polls[p]);
    if p in w.book.decisions {
      assert DecisionOk(w, p);
    }
  }

  lemma CurrentFits(w: World, c: Id)
    requires Good(w) && c in w.book.rows
    ensures
      var loaded := LoadInitiative(w.book, c, w.book.rows[c].houseId, None, None);
      && loaded.Some? && loaded.value.revisions != []
      && RevisionOk(w, c, w.book.rows[c], loaded.value.Current())
  {
    LoadedMatches(w, c);
    assert LogOk(w, c);
  }

  lemma LastIsCurrent(w: World, c: Id)
    requires Good(w) && c in w.book.rows
    ensures
      var loaded := LoadInitiative(w.book, c, w.book.rows[c].houseId, None, None);
      loaded.Some? && loaded.value.Valid() && loaded.value.Current().revision == w.book.rows[c].currentRevision
  {
    LoadedMatches(w, c);
    assert LogOk(w, c);
  }

  /** Any other operation on the case of an initiative makes it lag. */
  lemma OperationMakesLag(w: World, m: Move)
    requires Good(w) && m.Operate? && CanOperate(w, m) && HasInitiative(w.book, m.caseId, m.houseId)
    ensures Lags(Apply(w, m), m.caseId)
  {
    hide Inv, LogOk, LinksOk, OperationApplied;
    assert CaseOk(w, m.caseId);
  }

  predicate DecisionsOfKept(w: World, u: World, c: Id) {
    forall p :: p in u.book.decisions && u.book.decisions[p].decision.caseId == c ==>
      p in w.book.decisions && w.book.decisions[p] == u.book.decisions[p]
  }

  lemma LagStep(w: World, m: Move, c: Id)
    requires Good(w) && Lags(w, c)
    ensures
      var u := Apply(w, m);
      && Lags(u, c) && u.book.rows[c] == w.book.rows[c] && RevisionsOf(u.book, c) == RevisionsOf(w.book, c)
      && DecisionsOfKept(w, u, c)
  {
    hide Inv, Cut, Consecutive, OperationApplied, LogOk, LinksOk, OperationResult, DecisionOk;
    if m.Create? || m.Decide? {
      LagBlocks(w, m, c);
    } else if m.Revise? {
      LagBlocksRevision(w, m, c);
    } else {
      OthersAreQuiet(w, m);
      NoDecision(w, m);
    }
  }

  lemma NoDecision(w: World, m: Move)
    requires PollsOk(w) && !m.Create? && !m.Revise? && !m.Decide?
    ensures Apply(w, m).book == w.book
  {
    hide Inv;
  }

  lemma LagBlocks(w: World, m: Move, c: Id)
    requires PollsOk(w) && Lags(w, c) && (m.Create? || m.Decide?)
    ensures
      var u := Apply(w, m);
      && Lags(u, c) && u.book.rows[c] == w.book.rows[c] && RevisionsOf(u.book, c) == RevisionsOf(w.book, c)
      && DecisionsOfKept(w, u, c)
  {
    hide Inv, Cut, OperationApplied, OperationResult, Prepared, Seen, PollStands, LogRefuses, DecidedWith, DecisionKeyUsed;
  }

  lemma LagBlocksRevision(w: World, m: Move, c: Id)
    requires PollsOk(w) && Lags(w, c) && m.Revise?
    ensures
      var u := Apply(w, m);
      && Lags(u, c) && u.book.rows[c] == w.book.rows[c] && RevisionsOf(u.book, c) == RevisionsOf(w.book, c)
      && u.book.decisions == w.book.decisions
  {
    hide Inv, Cut, OperationApplied, OperationResult, Prepared;
  }

  /** Main result: an initiative whose case moved on without it is never revised and never decided again. */
  lemma {:induction false} LaggingInitiativeIsStuck(w: World, ms: seq<Move>, c: Id)
    requires Good(w) && Lags(w, c)
    ensures
      var u := Run(w, ms);
      && Lags(u, c) && u.book.rows[c] == w.book.rows[c] && RevisionsOf(u.book, c) == RevisionsOf(w.book, c)
      && DecisionsOfKept(w, u, c)
    decreases |ms|
  {
    hide PollsOk, RowsOk, LinksOk, Apply, Lags;
    if ms != [] {
      ApplyKeepsGood(w, ms[0]);
      LagStep(w, ms[0], c);
      LaggingInitiativeIsStuck(Apply(w, ms[0]), ms[1..], c);
    }
  }
}
