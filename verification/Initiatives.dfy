/** Initiatives: an append-only log of revisions, each with its own poll, replayable by operation key. */
module InitiativeRows {
  import opened Basics
  import opened PollPolicies
  import opened Polls
  import opened CaseRows

  datatype InitiativeError =
    | Forbidden
    | Conflict
    | PollRefused
    | InvalidOperationKey
    | UniqueViolation
    | NoticeRefused

  // wording is already stripped of surrounding blanks.
  datatype InitiativeRevision =
    InitiativeRevision(revision: nat, wording: string, audienceId: Id, pollId: Id, createdAt: Time)

  datatype InitiativeState =
    InitiativeState(caseId: Id, houseId: Id, authorId: Id, caseVersion: int, revisions: seq<InitiativeRevision>)
  {
    // What the constructor of a state insists on.
    predicate Valid() {
      && caseVersion > 0 && revisions != []
      && forall i :: 0 <= i < |revisions| ==> revisions[i].revision == i + 1
    }

    function Current(): InitiativeRevision
      requires revisions != []
    {
      revisions[|revisions| - 1]
    }
  }

  function Revise(s: InitiativeState, r: InitiativeRevision, expected: int): Result<InitiativeState, InitiativeError>
    requires s.Valid()
  {
    if s.Current().revision != expected then Err(Conflict)
    else if r.revision != expected + 1 then Err(Conflict)
    else Ok(s.(revisions := s.revisions + [r]))
  }

  // ---------------------------------------------------------------- rows

  datatype InitiativeRow = InitiativeRow(houseId: Id, authorId: Id, caseVersion: int, currentRevision: nat)

  datatype OperationRow = OperationRow(caseId: Id, revision: int, caseVersion: int)

  datatype Decision = Decision(
    caseId: Id,
    houseId: Id,
    initiativeRevision: nat,
    pollId: Id,
    pollVersion: int,
    outcome: InitiativeOutcome,
    decidedAt: Time)

  datatype DecisionRow = DecisionRow(decision: Decision, operationKey: string)

  // Rows by case, revisions by case and number, operations by house and key, decisions by poll.
  datatype Book = Book(
    rows: map<Id, InitiativeRow>,
    revisions: map<Id, map<nat, InitiativeRevision>>,
    operations: map<(Id, string), OperationRow>,
    decisions: map<Id, DecisionRow>)

  // What initiative transactions see: every poll as its rows load, the cases of each house, and the book.
  datatype World = World(polls: map<Id, PollState>, files: map<Id, CaseFile>, book: Book)

  const MAX_INITIATIVE_KEY := 220
  const MAX_DECISION_KEY := 250

  function RevisionsOf(b: Book, caseId: Id): map<nat, InitiativeRevision> {
    if caseId in b.revisions then b.revisions[caseId] else map[]
  }

  predicate HasInitiative(b: Book, caseId: Id, houseId: Id) {
    caseId in b.rows && b.rows[caseId].houseId == houseId
  }

  predicate HasCase(w: World, caseId: Id, houseId: Id) {
    houseId in w.files && caseId in w.files[houseId].cases
  }

  // ---------------------------------------------------------------- loading

  function Numbers(revisions: map<nat, InitiativeRevision>, limit: int): set<nat> {
    set k | k in revisions && k <= limit
  }

  function Picked(revisions: map<nat, InitiativeRevision>, numbers: seq<nat>): seq<InitiativeRevision>
    requires forall k <- numbers :: k in revisions
  {
    seq(|numbers|, i requires 0 <= i < |numbers| => revisions[numbers[i]])
  }

  /** The revisions up to a limit, in order. */
  function Cut(revisions: map<nat, InitiativeRevision>, limit: int): seq<InitiativeRevision> {
    AscendingLists(Numbers(revisions, limit));
    Picked(revisions, Ascending(Numbers(revisions, limit)))
  }

  // A missing value and zero both fall back.
  function OrElse(given: Option<int>, fallback: int): int {
    if given.Some? && given.value != 0 then given.value else fallback
  }

  function LoadInitiative(b: Book, caseId: Id, houseId: Id, upTo: Option<int>, caseVersion: Option<int>)
    : Option<InitiativeState>
  {
    if !HasInitiative(b, caseId, houseId) then None
    else
      var row := b.rows[caseId];
      Some(InitiativeState(caseId, houseId, row.authorId, OrElse(caseVersion, row.caseVersion),
                           Cut(RevisionsOf(b, caseId), OrElse(upTo, row.currentRevision))))
  }

  /** The state an operation key produced when it was first used. */
  function OperationResult(b: Book, houseId: Id, key: string): Option<InitiativeState> {
    if (houseId, key) !in b.operations then None
    else
      var op := b.operations[(houseId, key)];
      LoadInitiative(b, op.caseId, houseId, Some(op.revision), Some(op.caseVersion))
  }

  // ---------------------------------------------------------------- checks

  datatype Verdict<T> = Refuse(error: InitiativeError) | Replay(result: T) | Proceed

  // A repeated key has to ask for the revision it produced.
  predicate SameRevision(a: InitiativeState, b: InitiativeState) {
    && a.revisions != [] && b.revisions != []
    && a.caseId == b.caseId && a.Current().wording == b.Current().wording
    && a.Current().audienceId == b.Current().audienceId && a.Current().revision == b.Current().revision
  }

  function Repeated(before: InitiativeState, now: InitiativeState): Verdict<InitiativeState> {
    if SameRevision(before, now) then Replay(before) else Refuse(Conflict)
  }

  function GuardCase(w: World, s: InitiativeState): Option<InitiativeError> {
    if !HasCase(w, s.caseId, s.houseId) || !w.files[s.houseId].cases[s.caseId].kind.InitiativeCase? then Some(Forbidden)
    else if w.files[s.houseId].cases[s.caseId].author != Some(s.authorId) then Some(Forbidden)
    else if w.files[s.houseId].cases[s.caseId].version != s.caseVersion then Some(Conflict)
    else None
  }

  predicate ValidKey(key: string) {
    key != "" && |key| <= MAX_INITIATIVE_KEY
  }

  function CheckCreate(w: World, s: InitiativeState, key: string): Verdict<InitiativeState> {
    if GuardCase(w, s).Some? then Refuse(GuardCase(w, s).value)
    else if OperationResult(w.book, s.houseId, key).Some? then Repeated(OperationResult(w.book, s.houseId, key).value, s)
    else if s.caseId in w.book.rows then Refuse(Conflict)
    else Proceed
  }

  function CheckRevise(w: World, previous: InitiativeState, updated: InitiativeState, key: string)
    : Verdict<InitiativeState>
    requires previous.revisions != []
  {
    if !HasInitiative(w.book, updated.caseId, updated.houseId) then Refuse(Conflict)
    else if OperationResult(w.book, updated.houseId, key).Some? then
      Repeated(OperationResult(w.book, updated.houseId, key).value, updated)
    else if GuardCase(w, previous).Some? then Refuse(GuardCase(w, previous).value)
    else if !w.files[previous.houseId].cases[previous.caseId].status.Collecting?
            || updated.caseVersion != previous.caseVersion + 1 then Refuse(Conflict)
    else if w.book.rows[updated.caseId].currentRevision != previous.Current().revision then Refuse(Conflict)
    else if LoadInitiative(w.book, updated.caseId, updated.houseId, None, None) != Some(previous) then Refuse(Conflict)
    else Proceed
  }

  // The poll that belongs to a revision.
  predicate Fits(d: PollDefinition, caseId: Id, houseId: Id, r: InitiativeRevision) {
    && d.kind.InitiativePosition? && d.houseId == houseId && d.caseId == caseId
    && d.pollId == r.pollId && d.audienceId == r.audienceId && d.subjectRevision == r.revision
  }

  // What the service hands over: a state whose current revision comes with its own new poll.
  predicate Prepared(s: InitiativeState, poll: PollState) {
    && s.Valid() && poll.definition.Valid() && poll == Initial(poll.definition)
    && Fits(poll.definition, s.caseId, s.houseId, s.Current())
  }

  predicate Follows(previous: InitiativeState, updated: InitiativeState) {
    && previous.Valid() && updated.Valid()
    && Revise(previous, updated.Current(), previous.Current().revision)
       == Ok(updated.(caseVersion := previous.caseVersion))
  }

  /** The decision on a finalized position, drawn from a state and a poll the service has read. */
  function Position(s: InitiativeState, poll: PollState, now: Time): Result<Decision, InitiativeError>
    requires s.revisions != []
  {
    if !Fits(poll.definition, s.caseId, s.houseId, s.Current()) then Err(Conflict)
    else if !poll.status.Closed? then Err(Conflict)
    else if poll.outcome.None? || !poll.outcome.value.OfInitiative? || !poll.definition.policy.InitiativePolicy? then
      Err(Conflict)
    else
      Ok(Decision(s.caseId, s.houseId, s.Current().revision, poll.definition.pollId, poll.version,
                  poll.outcome.value.initiative, now))
  }

  predicate DecidedWith(b: Book, pollId: Id, houseId: Id, key: string) {
    pollId in b.decisions && b.decisions[pollId].decision.houseId == houseId && b.decisions[pollId].operationKey == key
  }

  predicate DecisionKeyUsed(b: Book, houseId: Id, key: string) {
    exists p :: p in b.decisions && DecidedWith(b, p, houseId, key)
  }

  function SameDecision(b: Book, d: Decision): Verdict<Decision>
    requires d.pollId in b.decisions
  {
    if b.decisions[d.pollId].decision.outcome == d.outcome then Replay(b.decisions[d.pollId].decision)
    else Refuse(Conflict)
  }

  function CheckDecide(w: World, d: Decision, key: string): Verdict<Decision> {
    if key == "" || |key| > MAX_DECISION_KEY then Refuse(InvalidOperationKey)
    else if d.pollId !in w.polls || w.polls[d.pollId].definition.houseId != d.houseId then Refuse(Conflict)
    else if DecidedWith(w.book, d.pollId, d.houseId, key) then SameDecision(w.book, d)
    else if DecisionKeyUsed(w.book, d.houseId, key) then Refuse(Conflict)
    else if !PollStands(w.polls[d.pollId], d) then Refuse(Conflict)
    else if !HasInitiative(w.book, d.caseId, d.houseId)
            || w.book.rows[d.caseId].currentRevision != d.initiativeRevision then Refuse(Conflict)
    else if d.pollId in w.book.decisions then SameDecision(w.book, d)
    else if !CaseAwaitsDecision(w, d) then Refuse(Conflict)
    else if OperationApplied(w.files[d.houseId], Drawn(d.pollId)) then Refuse(UniqueViolation)
    else Proceed
  }

  predicate PollStands(poll: PollState, d: Decision) {
    && poll.status.Closed? && poll.version == d.pollVersion && poll.definition.caseId == d.caseId
    && poll.outcome == Some(OfInitiative(d.outcome))
  }

  predicate CaseAwaitsDecision(w: World, d: Decision)
    requires d.caseId in w.book.rows
  {
    && HasCase(w, d.caseId, d.houseId)
    && var c := w.files[d.houseId].cases[d.caseId];
       c.kind.InitiativeCase? && c.status.Collecting? && c.version == w.book.rows[d.caseId].caseVersion
  }

  // ---------------------------------------------------------------- writes

  function WithRevision(b: Book, s: InitiativeState, key: string): Book
    requires s.revisions != []
  {
    var r := s.Current();
    Book(b.rows[s.caseId := InitiativeRow(s.houseId, s.authorId, s.caseVersion, r.revision)],
         b.revisions[s.caseId := RevisionsOf(b, s.caseId)[r.revision := r]],
         b.operations[(s.houseId, key) := OperationRow(s.caseId, r.revision, s.caseVersion)],
         b.decisions)
  }

  function Created(w: World, s: InitiativeState, poll: PollState, key: string): World
    requires s.revisions != []
  {
    w.(polls := w.polls[poll.definition.pollId := poll], book := WithRevision(w.book, s, key))
  }

  function CaseAfter(file: CaseFile, caseId: Id, row: CaseRow, change: CaseChange, id: OperationId): CaseFile
    requires caseId in file.cases
  {
    CaseFile(file.cases[caseId := row],
             file.events + [CaseEventRow(caseId, change, file.cases[caseId].version, row.version, id)])
  }

  /** The old poll cancelled, the new one open, the log one revision longer, case and initiative one version on. */
  function Revised(w: World, previous: InitiativeState, updated: InitiativeState, poll: PollState, key: string): World
    requires updated.revisions != [] && previous.revisions != []
    requires HasCase(w, updated.caseId, updated.houseId) && previous.Current().pollId in w.polls
  {
    var was, file := previous.Current().pollId, w.files[updated.houseId];
    var row := file.cases[updated.caseId].(description := updated.Current().wording, version := updated.caseVersion);
    World(
      w.polls[was := Cancel(w.polls[was]).state][poll.definition.pollId := poll],
      w.files[updated.houseId := CaseAfter(file, updated.caseId, row, InitiativeRevised, Derived(key))],
      WithRevision(w.book, updated, key))
  }

  function Decided(w: World, d: Decision, key: string): World
    requires HasCase(w, d.caseId, d.houseId)
  {
    var file := w.files[d.houseId];
    var before := file.cases[d.caseId];
    var row := before.(version := before.version + 1,
                       status := if d.outcome.Supported? then CaseStatus.RequestReady else CaseStatus.NotSupported);
    w.(files := w.files[d.houseId := CaseAfter(file, d.caseId, row, InitiativeDecided, Drawn(d.pollId))],
       book := w.book.(decisions := w.book.decisions[d.pollId := DecisionRow(d, key)]))
  }

  // ---------------------------------------------------------------- what the checks and the writes come to

  // The case of an initiative in its house, as its author knows it.
  predicate KnowsCase(w: World, s: InitiativeState) {
    && s.houseId in w.files && s.caseId in w.files[s.houseId].cases
    && var c := w.files[s.houseId].cases[s.caseId];
       c.kind.InitiativeCase? && c.author == Some(s.authorId) && c.version == s.caseVersion
  }

  lemma KeysAre(key: string)
    ensures ValidKey(key) <==> 1 <= |key| <= 220
  {
  }

  /** A log grows by the revision after the one its writer has seen, and by no other. */
  lemma ReviseAppends(s: InitiativeState, r: InitiativeRevision, expected: int)
    requires s.Valid()
    ensures
      var next := Revise(s, r, expected);
      && (next.Ok? <==> |s.revisions| == expected && r.revision == expected + 1)
      && (next.Ok? ==> next.value.Valid() && next.value == s.(revisions := s.revisions + [r]))
      && (next.Err? ==> next.error.Conflict?)
  {
  }

  /** One state follows another exactly when it is of the same initiative and has one revision more at its end. */
  lemma FollowsIff(previous: InitiativeState, updated: InitiativeState)
    requires previous.Valid() && updated.Valid()
    ensures Follows(previous, updated) <==>
              && updated.caseId == previous.caseId && updated.houseId == previous.houseId
              && updated.authorId == previous.authorId
              && |updated.revisions| == |previous.revisions| + 1
              && updated.revisions[..|previous.revisions|] == previous.revisions
  {
    var n := |previous.revisions|;
    if |updated.revisions| == n + 1 && updated.revisions[..n] == previous.revisions {
      assert updated.revisions == previous.revisions + [updated.Current()];
    }
    if Follows(previous, updated) {
      assert updated.revisions == previous.revisions + [updated.Current()];
    }
  }

  // What a repeated key has to ask for: the case, the wording, the audience and the revision it produced.
  predicate AsksAgain(before: InitiativeState, now: InitiativeState) {
    && before.revisions != [] && now.revisions != [] && before.caseId == now.caseId
    && var (a, b) := (before.revisions[|before.revisions| - 1], now.revisions[|now.revisions| - 1]);
       a.wording == b.wording && a.audienceId == b.audienceId && a.revision == b.revision
  }

  /** A used key is answered with what it produced, to whoever asks for just that, and refused to anybody else. */
  lemma RepeatedIff(w: World, previous: InitiativeState, now: InitiativeState, key: string)
    requires previous.revisions != [] && OperationResult(w.book, now.houseId, key).Some?
    ensures
      var before := OperationResult(w.book, now.houseId, key).value;
      && (KnowsCase(w, now) ==>
            CheckCreate(w, now, key) == if AsksAgain(before, now) then Replay(before) else Refuse(Conflict))
      && (now.caseId in w.book.rows && w.book.rows[now.caseId].houseId == now.houseId ==>
            CheckRevise(w, previous, now, key) == if AsksAgain(before, now) then Replay(before) else Refuse(Conflict))
  {
    hide OperationResult;
  }

  /** A new key creates an initiative exactly for the author of a case that has none and is known at its version. */
  lemma CreationAllowedIff(w: World, s: InitiativeState, key: string)
    requires OperationResult(w.book, s.houseId, key).None?
    ensures CheckCreate(w, s, key) == Proceed <==> KnowsCase(w, s) && s.caseId !in w.book.rows
    ensures CheckCreate(w, s, key) == Refuse(Forbidden) <==>
              s.houseId !in w.files || s.caseId !in w.files[s.houseId].cases
              || !w.files[s.houseId].cases[s.caseId].kind.InitiativeCase?
              || w.files[s.houseId].cases[s.caseId].author != Some(s.authorId)
    ensures !CheckCreate(w, s, key).Replay?
  {
    hide OperationResult;
  }

  /**
   * A new key revises an initiative exactly for its author, while the case collects, from the version and the log
   * that are stored, to the next version.
   */
  lemma RevisionAllowedIff(w: World, previous: InitiativeState, updated: InitiativeState, key: string)
    requires previous.revisions != [] && OperationResult(w.book, updated.houseId, key).None?
    ensures CheckRevise(w, previous, updated, key) == Proceed <==>
              && HasInitiative(w.book, updated.caseId, updated.houseId) && KnowsCase(w, previous)
              && w.files[previous.houseId].cases[previous.caseId].status.Collecting?
              && updated.caseVersion == previous.caseVersion + 1
              && w.book.rows[updated.caseId].currentRevision == previous.Current().revision
              && LoadInitiative(w.book, updated.caseId, updated.houseId, None, None) == Some(previous)
    ensures !CheckRevise(w, previous, updated, key).Replay?
  {
    hide OperationResult, LoadInitiative;
  }

  /** The decision that a service draws from a closed poll of the current revision, and from no other. */
  lemma PositionSays(s: InitiativeState, poll: PollState, now: Time)
    requires s.revisions != []
    ensures
      var r, d := Position(s, poll, now), poll.definition;
      && (r.Ok? <==>
            && d.kind.InitiativePosition? && d.houseId == s.houseId && d.caseId == s.caseId
            && d.pollId == s.Current().pollId && d.audienceId == s.Current().audienceId
            && d.subjectRevision == s.Current().revision && d.policy.InitiativePolicy?
            && poll.status.Closed? && poll.outcome.Some? && poll.outcome.value.OfInitiative?)
      && (r.Ok? ==>
            && r.value.caseId == s.caseId && r.value.houseId == s.houseId && r.value.pollId == d.pollId
            && r.value.initiativeRevision == s.Current().revision && r.value.pollVersion == poll.version
            && poll.outcome == Some(OfInitiative(r.value.outcome)) && r.value.decidedAt == now)
      && (r.Err? ==> r.error.Conflict?)
  {
  }

  /** A first decision is saved exactly when poll, initiative and case all stand as it says. */
  lemma DecisionAllowedIff(w: World, d: Decision, key: string)
    requires d.pollId !in w.book.decisions
    requires forall p :: p in w.book.decisions && w.book.decisions[p].decision.houseId == d.houseId ==>
               w.book.decisions[p].operationKey != key
    ensures CheckDecide(w, d, key) == Refuse(InvalidOperationKey) <==> !(1 <= |key| <= 250)
    ensures CheckDecide(w, d, key) == Proceed <==>
              && 1 <= |key| <= 250 && d.pollId in w.polls && w.polls[d.pollId].definition.houseId == d.houseId
              && w.polls[d.pollId].status.Closed? && w.polls[d.pollId].version == d.pollVersion
              && w.polls[d.pollId].definition.caseId == d.caseId
              && w.polls[d.pollId].outcome == Some(OfInitiative(d.outcome))
              && d.caseId in w.book.rows && w.book.rows[d.caseId].houseId == d.houseId
              && w.book.rows[d.caseId].currentRevision == d.initiativeRevision
              && d.houseId in w.files && d.caseId in w.files[d.houseId].cases
              && var c := w.files[d.houseId].cases[d.caseId];
                 && c.kind.InitiativeCase? && c.status.Collecting? && c.version == w.book.rows[d.caseId].caseVersion
                 && !OperationApplied(w.files[d.houseId], Drawn(d.pollId))
  {
    hide OperationApplied;
  }

  /**
   * A decision that is there already is returned for the same outcome, and any other is refused; a key that decided
   * another poll decides nothing else.
   */
  lemma DecisionRepeatedIff(w: World, d: Decision, key: string)
    requires 1 <= |key| <= 250
    requires d.pollId in w.polls && w.polls[d.pollId].definition.houseId == d.houseId
    ensures d.pollId in w.book.decisions && w.book.decisions[d.pollId].decision.houseId == d.houseId
            && w.book.decisions[d.pollId].operationKey == key ==>
              CheckDecide(w, d, key) == if w.book.decisions[d.pollId].decision.outcome == d.outcome then
                                          Replay(w.book.decisions[d.pollId].decision)
                                        else Refuse(Conflict)
    ensures !(d.pollId in w.book.decisions && w.book.decisions[d.pollId].decision.houseId == d.houseId
              && w.book.decisions[d.pollId].operationKey == key)
            && (exists p :: p in w.book.decisions && w.book.decisions[p].decision.houseId == d.houseId
                            && w.book.decisions[p].operationKey == key) ==>
              CheckDecide(w, d, key) == Refuse(Conflict)
    ensures CheckDecide(w, d, key).Replay? ==>
              d.pollId in w.book.decisions && CheckDecide(w, d, key).result == w.book.decisions[d.pollId].decision
              && w.book.decisions[d.pollId].decision.outcome == d.outcome
    ensures CheckDecide(w, d, key).Proceed? ==> d.pollId !in w.book.decisions
  {
    hide OperationApplied, PollStands;
    if p :| p in w.book.decisions && w.book.decisions[p].decision.houseId == d.houseId
            && w.book.decisions[p].operationKey == key
    {
      assert DecidedWith(w.book, p, d.houseId, key);
    }
  }

  // No other case of any house changes.
  predicate OtherCasesKept(before: map<Id, CaseFile>, after: map<Id, CaseFile>, houseId: Id, caseId: Id) {
    && before.Keys == after.Keys && houseId in before
    && (forall h :: h in before && h != houseId ==> after[h] == before[h])
    && after[houseId].cases.Keys == before[houseId].cases.Keys
    && (forall c :: c in before[houseId].cases && c != caseId ==> after[houseId].cases[c] == before[houseId].cases[c])
  }

  // One entry is logged, for this case, from its version before to its version after.
  predicate LoggedOnce(
      before: CaseFile, after: CaseFile, caseId: Id, change: CaseChange, operationId: OperationId)
  {
    && caseId in before.cases && caseId in after.cases
    && after.events == before.events + [CaseEventRow(caseId, change, before.cases[caseId].version,
                                                     after.cases[caseId].version, operationId)]
  }

  // A supported initiative is ready for a request, any other is not supported; the case is one version on.
  predicate CaseDecided(before: CaseRow, after: CaseRow, outcome: InitiativeOutcome) {
    && after.version == before.version + 1
    && (outcome.Supported? ==> after.status.RequestReady?) && (!outcome.Supported? ==> after.status.NotSupported?)
    && after == before.(version := after.version, status := after.status)
  }

  lemma DecidedSays(w: World, d: Decision, key: string)
    requires HasCase(w, d.caseId, d.houseId)
    ensures
      var u := Decided(w, d, key);
      && u.polls == w.polls && OtherCasesKept(w.files, u.files, d.houseId, d.caseId)
      && CaseDecided(w.files[d.houseId].cases[d.caseId], u.files[d.houseId].cases[d.caseId], d.outcome)
      && LoggedOnce(w.files[d.houseId], u.files[d.houseId], d.caseId, InitiativeDecided, Drawn(d.pollId))
      && u.book == w.book.(decisions := u.book.decisions)
      && u.book.decisions == w.book.decisions[d.pollId := DecisionRow(d, key)]
  {
  }

  lemma WithRevisionSays(b: Book, s: InitiativeState, key: string)
    requires s.revisions != []
    ensures RowsSay(b, WithRevision(b, s, key), s, key) && WithRevision(b, s, key).decisions == b.decisions
  {
  }

  /** A creation stores its poll and its first revision under its key, and touches no case. */
  lemma CreatedSays(w: World, s: InitiativeState, poll: PollState, key: string)
    requires s.revisions != []
    ensures
      var u, r := Created(w, s, poll, key), s.Current();
      && u.files == w.files && u.polls == w.polls[poll.definition.pollId := poll]
      && u.book.decisions == w.book.decisions && RowsSay(w.book, u.book, s, key)
  {
    WithRevisionSays(w.book, s, key);
    hide RowsSay, WithRevision;
  }

  // Only this initiative's row, this revision and this key are written, each with what the state says.
  ghost predicate RowsSay(before: Book, after: Book, s: InitiativeState, key: string)
    requires s.revisions != []
  {
    var r := s.Current();
    && after.rows.Keys == before.rows.Keys + {s.caseId}
    && (forall c :: c in before.rows && c != s.caseId ==> after.rows[c] == before.rows[c])
    && after.rows[s.caseId].houseId == s.houseId && after.rows[s.caseId].authorId == s.authorId
    && after.rows[s.caseId].caseVersion == s.caseVersion && after.rows[s.caseId].currentRevision == r.revision
    && (forall c :: c != s.caseId ==> RevisionsOf(after, c) == RevisionsOf(before, c))
    && RevisionsOf(after, s.caseId) == RevisionsOf(before, s.caseId)[r.revision := r]
    && after.operations.Keys == before.operations.Keys + {(s.houseId, key)}
    && (forall k :: k in before.operations && k != (s.houseId, key) ==> after.operations[k] == before.operations[k])
    && after.operations[(s.houseId, key)].caseId == s.caseId
    && after.operations[(s.houseId, key)].revision == r.revision
    && after.operations[(s.houseId, key)].caseVersion == s.caseVersion
  }

  /**
   * A revision cancels the old poll, opens the new one, gives the case the new wording and version without touching
   * its status, logs that under the key, and stores its row, its revision and its key.
   */
  lemma RevisedSays(w: World, previous: InitiativeState, updated: InitiativeState, poll: PollState, key: string)
    requires updated.revisions != [] && previous.revisions != []
    requires HasCase(w, updated.caseId, updated.houseId) && previous.Current().pollId in w.polls
    requires previous.Current().pollId != poll.definition.pollId
    ensures
      var u, was, now := Revised(w, previous, updated, poll, key), previous.Current().pollId, poll.definition.pollId;
      && u.polls.Keys == w.polls.Keys + {now} && u.polls[now] == poll
      && (w.polls[was].status.Open? ==>
            u.polls[was] == w.polls[was].(status := Cancelled, version := w.polls[was].version + 1))
      && (!w.polls[was].status.Open? ==> u.polls[was] == w.polls[was])
      && (forall p :: p in w.polls && p != was && p != now ==> u.polls[p] == w.polls[p])
      && OtherCasesKept(w.files, u.files, updated.houseId, updated.caseId)
      && u.files[updated.houseId].cases[updated.caseId] == w.files[updated.houseId].cases[updated.caseId].(
           description := updated.Current().wording, version := updated.caseVersion)
      && LoggedOnce(w.files[updated.houseId], u.files[updated.houseId], updated.caseId, InitiativeRevised, Derived(key))
      && u.book.decisions == w.book.decisions && RowsSay(w.book, u.book, updated, key)
  {
    WithRevisionSays(w.book, updated, key);
    hide RowsSay, WithRevision;
  }

  // ---------------------------------------------------------------- facts about the log

  // The log of a case holds exactly the revisions 1..n, each under its own number.
  ghost predicate Consecutive(revisions: map<nat, InitiativeRevision>, n: nat) {
    && (forall k: nat :: k in revisions <==> 1 <= k <= n)
    && (forall k :: k in revisions ==> revisions[k].revision == k)
  }

  lemma {:induction false} AscendingRange(ids: set<Id>, lo: nat, n: nat)
    requires forall x: Id :: x in ids <==> lo <= x <= n
    ensures |Ascending(ids)| == if lo <= n then n - lo + 1 else 0
    ensures forall i :: 0 <= i < |Ascending(ids)| ==> Ascending(ids)[i] == lo + i
    decreases n + 1 - lo
  {
    if lo <= n {
      assert lo in ids;
      assert Least(ids) == lo;
      AscendingRange(ids - {lo}, lo + 1, n);
    } else {
      assert ids == {};
    }
  }

  /** Cutting a log 1..n at m gives its first m revisions in order. */
  lemma CutOfConsecutive(revisions: map<nat, InitiativeRevision>, n: nat, m: nat)
    requires Consecutive(revisions, n) && m <= n
    ensures |Cut(revisions, m)| == m
    ensures forall i :: 0 <= i < m ==> i + 1 in revisions && Cut(revisions, m)[i] == revisions[i + 1]
  {
    AscendingRange(Numbers(revisions, m), 1, m);
  }

  /** A later revision does not show in an earlier cut. */
  lemma CutIsStable(before: map<nat, InitiativeRevision>, after: map<nat, InitiativeRevision>, limit: int)
    requires forall k :: k in before ==> k in after && after[k] == before[k]
    requires forall k :: k in after && k <= limit ==> k in before
    ensures Cut(after, limit) == Cut(before, limit)
  {
    assert Numbers(after, limit) == Numbers(before, limit);
    var numbers := Ascending(Numbers(before, limit));
    AscendingLists(Numbers(before, limit));
    assert forall k <- numbers :: k in before;
    assert Picked(after, numbers) == Picked(before, numbers);
  }

  /** Appending the next revision appends it to the loaded log. */
  lemma CutAppends(revisions: map<nat, InitiativeRevision>, n: nat, r: InitiativeRevision)
    requires Consecutive(revisions, n) && r.revision == n + 1
    ensures Consecutive(revisions[n + 1 := r], n + 1)
    ensures Cut(revisions[n + 1 := r], n + 1) == Cut(revisions, n) + [r]
  {
    CutOfConsecutive(revisions, n, n);
    CutOfConsecutive(revisions[n + 1 := r], n + 1, n + 1);
  }
}
