/** The rules that turn a tally of explicit answers into the outcome of a poll. */
module PollPolicies {
  import opened Basics

  datatype ProblemOutcome = NoAudience | Collecting | RequestReady | NeedEvidence

  datatype InitiativeOutcome = NoAudience | Collecting | Supported | NotSupported

  datatype ResolutionOutcome = Checking | Closed | Reopened | Unconfirmed

  // Only explicit answers are counted; a silent resident is in neither yes nor no.
  datatype VoteTally = VoteTally(eligible: int, yes: int, no: int) {
    predicate Valid() {
      0 <= eligible && 0 <= yes && 0 <= no && yes + no <= eligible
    }

    function Answered(): int {
      yes + no
    }
  }

  datatype PollPolicy =
    | ProblemPolicy(thresholdRatio: real, waitPeriod: Time)
    | InitiativePolicy(minParticipation: real, minSupportAnswered: real)
    | ResolutionPolicy(minResponseRatio: real, minYesAnswered: real, reopenNoRatio: real)
  {
    predicate Valid() {
      match this
      case ProblemPolicy(threshold, wait) => InUnit(threshold) && wait > 0
      case InitiativePolicy(participation, support) => InUnit(participation) && InUnit(support)
      case ResolutionPolicy(response, yes, no) => InUnit(response) && InUnit(yes) && 0.0 <= no <= 1.0
    }
  }

  predicate InUnit(ratio: real) {
    0.0 < ratio <= 1.0
  }

  /** The ceiling of eligible * ratio. */
  function Required(eligible: int, ratio: real): int {
    -(-(eligible as real * ratio)).Floor
  }

  function Share(part: int, whole: int): real
    requires whole > 0
  {
    part as real / whole as real
  }

  function EvaluateProblem(t: VoteTally, policy: PollPolicy, expired: bool): ProblemOutcome
    requires policy.ProblemPolicy?
  {
    if t.eligible == 0 then ProblemOutcome.NoAudience
    else if t.yes >= Required(t.eligible, policy.thresholdRatio) then RequestReady
    else if expired then NeedEvidence
    else ProblemOutcome.Collecting
  }

  function EvaluateInitiative(t: VoteTally, policy: PollPolicy, finalized: bool): InitiativeOutcome
    requires t.Valid() && policy.InitiativePolicy? && policy.Valid()
  {
    if t.eligible == 0 then InitiativeOutcome.NoAudience
    else if !finalized then InitiativeOutcome.Collecting
    else if t.Answered() < Required(t.eligible, policy.minParticipation) then NotSupported
    else
      RequiredInRange(t.eligible, policy.minParticipation);
      if Share(t.yes, t.Answered()) >= policy.minSupportAnswered then Supported
      else NotSupported
  }

  function EvaluateResolution(t: VoteTally, policy: PollPolicy, finalized: bool): ResolutionOutcome
    requires t.Valid() && policy.ResolutionPolicy?
  {
    if !finalized then Checking
    else if t.eligible == 0 || t.Answered() == 0 then Unconfirmed
    else if Share(t.no, t.Answered()) > policy.reopenNoRatio then Reopened
    else if t.Answered() < Required(t.eligible, policy.minResponseRatio) then Unconfirmed
    else if Share(t.yes, t.Answered()) >= policy.minYesAnswered then Closed
    else Unconfirmed
  }

  predicate ReceivedDuringPoll(receivedAt: Time, opensAt: Time, closesAt: Time)
    requires opensAt < closesAt
  {
    opensAt <= receivedAt < closesAt
  }

  // ---------------------------------------------------------------- ceilings and quotients

  /** Reaching the rounded-up count is reaching the exact share of the frozen audience. */
  lemma RequiredIsExact(eligible: int, ratio: real, count: int)
    ensures count >= Required(eligible, ratio) <==> count as real >= eligible as real * ratio
  {
    var share := eligible as real * ratio;
    var f := (-share).Floor;
    assert f as real <= -share < f as real + 1.0;
    if count >= -f {
      assert count as real >= (-f) as real;
    } else {
      assert count as real <= (-f - 1) as real;
    }
  }

  /** A non-empty audience always needs at least one answer, and never more than all of them. */
  lemma RequiredInRange(eligible: int, ratio: real)
    requires eligible > 0 && InUnit(ratio)
    ensures 1 <= Required(eligible, ratio) <= eligible
  {
    assert eligible as real * ratio <= eligible as real * 1.0;
    RequiredIsExact(eligible, ratio, eligible);
    assert eligible as real * ratio > 0.0;
    RequiredIsExact(eligible, ratio, 0);
  }

  // ---------------------------------------------------------------- what each outcome means

  function Scaled(ratio: real, n: int): real {
    ratio * n as real
  }

  // At least this share of the whole, and more than it, without a division.
  predicate Reaches(part: int, whole: int, ratio: real) {
    part as real >= Scaled(ratio, whole)
  }

  predicate Exceeds(part: int, whole: int, ratio: real) {
    part as real > Scaled(ratio, whole)
  }

  lemma Quotient(part: real, whole: real, ratio: real)
    requires whole > 0.0
    ensures part / whole >= ratio <==> part >= ratio * whole
    ensures part / whole > ratio <==> part > ratio * whole
  {
  }

  lemma ScaledSwaps(ratio: real, n: int)
    ensures n as real * ratio == Scaled(ratio, n)
  {
  }

  /** A problem is ready exactly when the YES reach their share of the whole audience, silent residents included. */
  lemma ProblemReadyIff(t: VoteTally, policy: PollPolicy, expired: bool)
    requires t.Valid() && policy.ProblemPolicy?
    ensures
      var o := EvaluateProblem(t, policy, expired);
      var ready := t.eligible > 0 && Reaches(t.yes, t.eligible, policy.thresholdRatio);
      && (o.NoAudience? <==> t.eligible == 0)
      && (o.RequestReady? <==> ready)
      && (o.NeedEvidence? <==> t.eligible > 0 && !ready && expired)
  {
    hide Required, Reaches;
    QuotaReached(t.yes, t.eligible, policy.thresholdRatio);
  }

  /**
   * An initiative is supported in the end exactly when enough of the audience answered and enough of the answers, not
   * of the audience and not of the quota, are YES.
   */
  lemma InitiativeSupportedIff(t: VoteTally, policy: PollPolicy, finalized: bool)
    requires t.Valid() && policy.InitiativePolicy? && policy.Valid()
    ensures
      var o := EvaluateInitiative(t, policy, finalized);
      var supported :=
        && Reaches(t.Answered(), t.eligible, policy.minParticipation)
        && Reaches(t.yes, t.Answered(), policy.minSupportAnswered);
      && (o.NoAudience? <==> t.eligible == 0)
      && (o.Collecting? <==> t.eligible > 0 && !finalized)
      && (o.Supported? <==> t.eligible > 0 && finalized && supported)
      && (o.NotSupported? <==> t.eligible > 0 && finalized && !supported)
  {
    hide Required, Reaches, Share;
    QuotaReached(t.Answered(), t.eligible, policy.minParticipation);
    if t.eligible > 0 {
      RequiredInRange(t.eligible, policy.minParticipation);
      if t.Answered() > 0 {
        ShareMeans(t.yes, t.Answered(), policy.minSupportAnswered);
      }
    }
  }

  lemma QuotaReached(part: int, whole: int, ratio: real)
    ensures part >= Required(whole, ratio) <==> Reaches(part, whole, ratio)
  {
    RequiredIsExact(whole, ratio, part);
    ScaledSwaps(ratio, whole);
    hide Required, Scaled;
  }

  lemma ShareMeans(part: int, whole: int, ratio: real)
    requires whole > 0
    ensures Share(part, whole) >= ratio <==> Reaches(part, whole, ratio)
    ensures Share(part, whole) > ratio <==> Exceeds(part, whole, ratio)
  {
    Quotient(part as real, whole as real, ratio);
  }

  /**
   * A resolution check is reopened exactly when more than the tolerated share of the answers is NO; otherwise it is
   * closed exactly when enough of the audience answered and enough of the answers are YES.
   */
  lemma ResolutionDecidedIff(t: VoteTally, policy: PollPolicy, finalized: bool)
    requires t.Valid() && policy.ResolutionPolicy? && policy.Valid()
    ensures
      var o := EvaluateResolution(t, policy, finalized);
      var reopened := Exceeds(t.no, t.Answered(), policy.reopenNoRatio);
      var confirmed :=
        && t.Answered() > 0 && Reaches(t.Answered(), t.eligible, policy.minResponseRatio)
        && Reaches(t.yes, t.Answered(), policy.minYesAnswered);
      && (o.Checking? <==> !finalized)
      && (o.Reopened? <==> finalized && reopened)
      && (o.Closed? <==> finalized && !reopened && confirmed)
      && (o.Unconfirmed? <==> finalized && !reopened && !confirmed)
  {
    hide Required, Reaches, Exceeds, Share;
    if t.Answered() > 0 {
      QuotaReached(t.Answered(), t.eligible, policy.minResponseRatio);
      ShareMeans(t.yes, t.Answered(), policy.minYesAnswered);
      ShareMeans(t.no, t.Answered(), policy.reopenNoRatio);
    } else {
      NothingExceeds(policy.reopenNoRatio);
    }
  }

  lemma NothingExceeds(ratio: real)
    ensures !Exceeds(0, 0, ratio)
  {
  }

  // ---------------------------------------------------------------- monotonicity

  /** u comes from t by silent residents answering YES and by NO answers turning into YES. */
  predicate MoreSupport(t: VoteTally, u: VoteTally) {
    && t.Valid() && u.Valid() && t.eligible == u.eligible
    && t.yes <= u.yes && u.no <= t.no && t.Answered() <= u.Answered()
  }

  function ProblemRank(o: ProblemOutcome): int {
    if o.RequestReady? then 1 else 0
  }

  function InitiativeRank(o: InitiativeOutcome): int {
    if o.Supported? then 1 else 0
  }

  function ResolutionRank(o: ResolutionOutcome): int {
    match o case Reopened => 0 case Unconfirmed => 1 case Checking => 1 case Closed => 2
  }

  lemma ScaledGrows(ratio: real, m: int, n: int)
    requires 0.0 <= ratio && m <= n
    ensures Scaled(ratio, m) <= Scaled(ratio, n)
  {
    assert ratio * (n - m) as real >= 0.0;
  }

  /** A share of two complementary counts compared with a ratio, without the division. */
  lemma ShareCompares(part: int, rest: int, ratio: real)
    requires 0 < part + rest
    ensures Share(part, part + rest) >= ratio <==> Scaled(1.0 - ratio, part) >= Scaled(ratio, rest)
    ensures Share(part, part + rest) > ratio <==> Scaled(1.0 - ratio, part) > Scaled(ratio, rest)
  {
    var whole := (part + rest) as real;
    Quotient(part as real, whole, ratio);
    assert ratio * whole == ratio * part as real + ratio * rest as real;
    assert (1.0 - ratio) * part as real == part as real - ratio * part as real;
  }

  /** More YES and fewer NO give a YES share that is at least as large. */
  lemma ShareGrows(yes: int, no: int, yes': int, no': int, ratio: real)
    requires 0 <= yes <= yes' && 0 <= no' <= no && 0 < yes + no && 0 < yes' + no'
    requires 0.0 <= ratio <= 1.0
    ensures Share(yes, yes + no) >= ratio ==> Share(yes', yes' + no') >= ratio
  {
    hide Share, Scaled;
    ShareCompares(yes, no, ratio);
    ShareCompares(yes', no', ratio);
    ScaledGrows(1.0 - ratio, yes, yes');
    ScaledGrows(ratio, no', no);
  }

  /** More YES and fewer NO give a NO share that is at most as large. */
  lemma DissentShrinks(yes: int, no: int, yes': int, no': int, ratio: real)
    requires 0 <= yes <= yes' && 0 <= no' <= no && 0 < yes + no && 0 < yes' + no'
    requires 0.0 <= ratio <= 1.0
    ensures Share(no', no' + yes') > ratio ==> Share(no, no + yes) > ratio
  {
    hide Share, Scaled;
    ShareCompares(no, yes, ratio);
    ShareCompares(no', yes', ratio);
    ScaledGrows(1.0 - ratio, no', no);
    ScaledGrows(ratio, yes, yes');
  }

  lemma NoShare(whole: int)
    requires whole > 0
    ensures Share(0, whole) == 0.0
  {
  }

  /** More support never worsens the outcome of a problem poll, before or after its deadline. */
  lemma ProblemMonotone(t: VoteTally, u: VoteTally, policy: PollPolicy, expired: bool)
    requires MoreSupport(t, u) && policy.ProblemPolicy?
    ensures ProblemRank(EvaluateProblem(t, policy, expired)) <= ProblemRank(EvaluateProblem(u, policy, expired))
  {
  }

  lemma InitiativeMonotone(t: VoteTally, u: VoteTally, policy: PollPolicy)
    requires MoreSupport(t, u) && policy.InitiativePolicy? && policy.Valid()
    ensures InitiativeRank(EvaluateInitiative(t, policy, true)) <= InitiativeRank(EvaluateInitiative(u, policy, true))
  {
    hide Share, Required;
    if EvaluateInitiative(t, policy, true).Supported? {
      RequiredInRange(t.eligible, policy.minParticipation);
      ShareGrows(t.yes, t.no, u.yes, u.no, policy.minSupportAnswered);
    }
  }

  lemma ResolutionMonotone(t: VoteTally, u: VoteTally, policy: PollPolicy)
    requires MoreSupport(t, u) && policy.ResolutionPolicy? && policy.Valid()
    ensures ResolutionRank(EvaluateResolution(t, policy, true)) <= ResolutionRank(EvaluateResolution(u, policy, true))
  {
    hide Share, Required;
    if t.Answered() > 0 {
      ShareGrows(t.yes, t.no, u.yes, u.no, policy.minYesAnswered);
      DissentShrinks(t.yes, t.no, u.yes, u.no, policy.reopenNoRatio);
    } else if u.Answered() > 0 {
      // Nobody had answered, so nobody says NO and the poll cannot be reopened.
      NoShare(u.Answered());
    }
  }

  // ---------------------------------------------------------------- an extra NO

  function WithNo(t: VoteTally): VoteTally {
    t.(no := t.no + 1)
  }

  /** An extra NO can close a resolution check: 5 YES of 12 is unconfirmed, 5 YES and 1 NO is closed. */
  lemma ExtraNoCanClose()
    ensures
      var policy := ResolutionPolicy(0.5, 0.8, 0.2);
      && EvaluateResolution(VoteTally(12, 5, 0), policy, true) == Unconfirmed
      && EvaluateResolution(VoteTally(12, 5, 1), policy, true) == Closed
  {
    RequiredIsExact(12, 0.5, 5);
    RequiredIsExact(12, 0.5, 6);
  }

  /** It does so exactly when that NO completes the participation quota and both shares still hold with it. */
  lemma ExtraNoImprovesResolution(t: VoteTally, policy: PollPolicy)
    requires t.Valid() && WithNo(t).Valid() && policy.ResolutionPolicy? && policy.Valid()
    ensures
      ResolutionRank(EvaluateResolution(WithNo(t), policy, true)) > ResolutionRank(EvaluateResolution(t, policy, true))
      <==>
      && t.Answered() + 1 == Required(t.eligible, policy.minResponseRatio)
      && Share(t.no + 1, t.Answered() + 1) <= policy.reopenNoRatio
      && Share(t.yes, t.Answered() + 1) >= policy.minYesAnswered
  {
    hide Share, Required;
    if t.Answered() > 0 {
      // Read backwards, dropping the NO cannot lower the YES share nor raise the NO share.
      ShareGrows(t.yes, t.no + 1, t.yes, t.no, policy.minYesAnswered);
      DissentShrinks(t.yes, t.no + 1, t.yes, t.no, policy.reopenNoRatio);
    } else {
      NoShare(1);
    }
  }

  lemma ExtraNoImprovesInitiative(t: VoteTally, policy: PollPolicy)
    requires t.Valid() && WithNo(t).Valid() && policy.InitiativePolicy? && policy.Valid()
    ensures
      InitiativeRank(EvaluateInitiative(WithNo(t), policy, true)) > InitiativeRank(EvaluateInitiative(t, policy, true))
      <==>
      && t.Answered() + 1 == Required(t.eligible, policy.minParticipation)
      && Share(t.yes, t.Answered() + 1) >= policy.minSupportAnswered
  {
    hide Share, Required;
    RequiredInRange(t.eligible, policy.minParticipation);
    if t.Answered() > 0 {
      ShareGrows(t.yes, t.no + 1, t.yes, t.no, policy.minSupportAnswered);
    }
  }
}
