/**
 * The lease shared by the four durable queues: inbox, scheduled jobs, outbox deliveries and documents.
 * A worker claims a row for a limited time, renews the claim while it works, and settles the row; a
 * claim that runs out may be taken over by any worker.
 */
module Leases {
  import opened Basics

  type WorkerId = nat

  // Why a row needs no more work. Each queue uses its own selection of these.
  datatype Verdict =
    | Done | Dead | Ignored | SkippedStale
    | Sent | Unreachable | Failed | DeliveryUnknown | WaitingAttachment | Superseded
    | Ready

  datatype Phase = Pending | Processing | Final(verdict: Verdict)

  datatype Lease = Lease(
    phase: Phase,
    attempts: nat,
    owner: Option<WorkerId>,
    until: Option<Time>,
    availableAt: Time)

  function NewLease(phase: Phase, availableAt: Time): Lease {
    Lease(phase, 0, None, None, availableAt)
  }

  predicate Expired(l: Lease, now: Time) {
    l.phase.Processing? && l.until.Some? && l.until.value <= now
  }

  predicate Due(l: Lease, now: Time) {
    (l.phase.Pending? && l.availableAt <= now) || Expired(l, now)
  }

  // The guard of every heartbeat and settlement.
  predicate Holds(l: Lease, w: WorkerId, now: Time) {
    l.phase.Processing? && l.owner == Some(w) && l.until.Some? && l.until.value > now
  }

  function Claimed(l: Lease, w: WorkerId, now: Time, leaseFor: Time): Lease {
    l.(phase := Processing, attempts := l.attempts + 1, owner := Some(w), until := Some(now + leaseFor))
  }

  function Renewed(l: Lease, now: Time, leaseFor: Time): Lease {
    l.(until := Some(now + leaseFor))
  }

  function Released(l: Lease, phase: Phase, availableAt: Time): Lease {
    l.(phase := phase, owner := None, until := None, availableAt := availableAt)
  }

  // ---------------------------------------------------------------- who may touch a row, and when

  /** A row in work belongs to its owner alone until its lease runs out; then, or when it waits long enough, to anyone. */
  lemma HeldUntilExpiry(l: Lease, w: WorkerId, now: Time)
    ensures Holds(l, w, now) <==> l.phase.Processing? && l.owner == Some(w) && l.until.Some? && now < l.until.value
    ensures Due(l, now) <==> || (l.phase.Pending? && l.availableAt <= now)
                             || (l.phase.Processing? && l.until.Some? && l.until.value <= now)
    ensures Expired(l, now) <==> Due(l, now) && l.phase.Processing?
    ensures !(Holds(l, w, now) && Due(l, now))
    ensures l.phase.Final? ==> !Holds(l, w, now) && !Due(l, now)
  {
  }

  /** A claim counts one attempt more and gives the row to its worker alone, for exactly as long as asked. */
  lemma ClaimGives(l: Lease, w: WorkerId, v: WorkerId, now: Time, leaseFor: Time, later: Time)
    ensures
      var c := Claimed(l, w, now, leaseFor);
      && (Holds(c, v, later) <==> v == w && later < now + leaseFor)
      && (Due(c, later) <==> later >= now + leaseFor)
      && c.attempts == l.attempts + 1 && c.availableAt == l.availableAt
  {
  }

  /** A heartbeat keeps owner and attempts and counts the lease from now. */
  lemma RenewalGives(l: Lease, w: WorkerId, now: Time, leaseFor: Time, later: Time)
    requires Holds(l, w, now)
    ensures
      var c := Renewed(l, now, leaseFor);
      && (Holds(c, w, later) <==> later < now + leaseFor) && (Due(c, later) <==> later >= now + leaseFor)
      && c.attempts == l.attempts && c.availableAt == l.availableAt && c.owner == l.owner
  {
  }

  /** A settled row belongs to nobody; if it waits again, then until the moment it was given. */
  lemma ReleaseGives(l: Lease, phase: Phase, availableAt: Time, w: WorkerId, later: Time)
    requires !phase.Processing?
    ensures
      var c := Released(l, phase, availableAt);
      && !Holds(c, w, later) && (Due(c, later) <==> phase.Pending? && availableAt <= later)
      && c.phase == phase && c.attempts == l.attempts && c.owner.None? && c.until.None?
  {
  }

  // ---------------------------------------------------------------- the order of claims

  ghost predicate IsFirst(id: Id, candidates: set<Id>, rank: map<Id, Time>)
    requires candidates <= rank.Keys
  {
    id in candidates
    && forall other :: other in candidates ==> rank[id] < rank[other] || (rank[id] == rank[other] && id <= other)
  }

  /** ORDER BY rank, id LIMIT 1 has an answer whenever there is a candidate. */
  lemma {:induction false} FirstExists(candidates: set<Id>, rank: map<Id, Time>) returns (id: Id)
    requires candidates != {} && candidates <= rank.Keys
    ensures IsFirst(id, candidates, rank)
    decreases |candidates|
  {
    id :| id in candidates;
    var rest := candidates - {id};
    if rest != {} {
      var first: Id := FirstExists(rest, rank);
      forall other | other in candidates ensures other == id || other in rest {}
      if rank[first] < rank[id] || (rank[first] == rank[id] && first <= id) {
        id := first;
      }
    } else {
      forall other | other in candidates ensures other == id {
        assert other !in rest;
      }
    }
  }

  function First(candidates: set<Id>, rank: map<Id, Time>): (id: Id)
    requires candidates != {} && candidates <= rank.Keys
    ensures IsFirst(id, candidates, rank)
  {
    assert exists id :: IsFirst(id, candidates, rank) by {
      var id := FirstExists(candidates, rank);
    }
    var id :| id in candidates
              && forall other :: other in candidates ==>
                   rank[id] < rank[other] || (rank[id] == rank[other] && id <= other);
    id
  }
}

/** All runs of one queue under any number of workers, crashes and lost leases. */
module LeaseProtocol {
  import opened Basics
  import opened Leases

  // capped is the documents' rule: attempts are bounded when claiming, and a retry needs no waiting time.
  datatype Queue = Queue(maxAttempts: nat, capped: bool)

  datatype Claim = Claim(row: Id, worker: WorkerId)

  // What a worker remembers between its claim and its settlement; claim is an index into the log.
  datatype Handle = Handle(row: Id, claim: nat, attempts: nat)

  datatype State = State(rows: map<Id, Lease>, claims: seq<Claim>, handles: map<WorkerId, Handle>)

  datatype Move =
    | Enqueue(id: Id, availableAt: Time)
    | Take(id: Id, worker: WorkerId, now: Time, leaseFor: Time)
    | Beat(worker: WorkerId, now: Time, leaseFor: Time)
    | Settle(worker: WorkerId, now: Time, phase: Phase, availableAt: Time)
    | Crash(worker: WorkerId)
    | Retire(id: Id, verdict: Verdict)

  predicate Takeable(q: Queue, l: Lease, now: Time) {
    if q.capped then l.phase.Pending? || Expired(l, now) else Due(l, now)
  }

  predicate Exhausted(q: Queue, l: Lease) {
    q.capped && l.attempts >= q.maxAttempts
  }

  /** A worker takes one row at a time; a move whose guard fails changes no row. */
  function Apply(q: Queue, s: State, m: Move): State {
    match m
    case Enqueue(id, at) =>
      if id in s.rows then s else s.(rows := s.rows[id := NewLease(Pending, at)])
    case Take(id, w, now, leaseFor) =>
      if w in s.handles || id !in s.rows || !Takeable(q, s.rows[id], now) then s
      else if Exhausted(q, s.rows[id]) then
        s.(rows := s.rows[id := Released(s.rows[id], Final(Failed), s.rows[id].availableAt)])
      else
        State(s.rows[id := Claimed(s.rows[id], w, now, leaseFor)],
              s.claims + [Claim(id, w)],
              s.handles[w := Handle(id, |s.claims|, s.rows[id].attempts + 1)])
    case Beat(w, now, leaseFor) =>
      if !Fenced(s, w, now) then s
      else
        var id := s.handles[w].row;
        s.(rows := s.rows[id := Renewed(s.rows[id], now, leaseFor)])
    case Settle(w, now, phase, at) =>
      LetGo(if Fenced(s, w, now) && MaySettle(q, s.handles[w], phase) then Put(s, w, phase, at) else s, w)
    case Crash(w) => LetGo(s, w)
    case Retire(id, verdict) =>
      if id !in s.rows || !s.rows[id].phase.Pending? then s
      else s.(rows := s.rows[id := s.rows[id].(phase := Final(verdict))])
  }

  predicate Fenced(s: State, w: WorkerId, now: Time) {
    w in s.handles && s.handles[w].row in s.rows && Holds(s.rows[s.handles[w].row], w, now)
  }

  // Work goes back to waiting only while attempts are left; everything else is final.
  predicate MaySettle(q: Queue, h: Handle, phase: Phase) {
    phase.Final? || (phase.Pending? && h.attempts < q.maxAttempts)
  }

  function Put(s: State, w: WorkerId, phase: Phase, availableAt: Time): State
    requires w in s.handles && s.handles[w].row in s.rows
  {
    var id := s.handles[w].row;
    s.(rows := s.rows[id := Released(s.rows[id], phase, availableAt)])
  }

  function LetGo(s: State, w: WorkerId): State {
    s.(handles := s.handles - {w})
  }

  function Run(q: Queue, s: State, ms: seq<Move>): State
    decreases |ms|
  {
    if ms == [] then s else Run(q, Apply(q, s, ms[0]), ms[1..])
  }

  const EMPTY := State(map[], [], map[])

  // ---------------------------------------------------------------- the invariant

  function ClaimsOf(claims: seq<Claim>, id: Id): nat {
    if claims == [] then 0
    else ClaimsOf(claims[..|claims| - 1], id) + (if claims[|claims| - 1].row == id then 1 else 0)
  }

  function LastClaimer(claims: seq<Claim>, id: Id): Option<WorkerId> {
    if claims == [] then None
    else if claims[|claims| - 1].row == id then Some(claims[|claims| - 1].worker)
    else LastClaimer(claims[..|claims| - 1], id)
  }

  predicate RowOk(q: Queue, l: Lease, claims: nat, lastClaimer: Option<WorkerId>) {
    && (l.phase.Processing? <==> l.owner.Some?)
    && (l.phase.Processing? <==> l.until.Some?)
    && (l.phase.Processing? ==> l.owner == lastClaimer)
    && l.attempts == claims
    && (l.phase.Pending? ==> l.attempts < q.maxAttempts)
    && (q.capped ==> l.attempts <= q.maxAttempts)
  }

  predicate HandleOk(claims: seq<Claim>, w: WorkerId, h: Handle) {
    && h.claim < |claims|
    && claims[h.claim] == Claim(h.row, w)
    && (forall k :: h.claim < k < |claims| ==> claims[k].worker != w)
    && h.attempts == ClaimsOf(claims[..h.claim + 1], h.row)
  }

  ghost predicate Inv(q: Queue, s: State) {
    && (forall id :: id in s.rows ==> RowOk(q, s.rows[id], ClaimsOf(s.claims, id), LastClaimer(s.claims, id)))
    && (forall id :: id !in s.rows ==> ClaimsOf(s.claims, id) == 0)
    && (forall w :: w in s.handles ==> HandleOk(s.claims, w, s.handles[w]) && s.handles[w].row in s.rows)
  }

  lemma LogGrows(claims: seq<Claim>, c: Claim)
    ensures forall id :: ClaimsOf(claims + [c], id) == ClaimsOf(claims, id) + (if c.row == id then 1 else 0)
    ensures forall id :: LastClaimer(claims + [c], id) == if c.row == id then Some(c.worker) else LastClaimer(claims, id)
  {
    assert (claims + [c])[..|claims|] == claims;
  }

  lemma {:induction false} LastClaimAt(claims: seq<Claim>, id: Id, i: nat)
    requires i < |claims| && claims[i].row == id
    ensures ClaimsOf(claims[..i + 1], id) <= ClaimsOf(claims, id)
    ensures (forall k :: i < k < |claims| ==> claims[k].row != id) ==>
              ClaimsOf(claims[..i + 1], id) == ClaimsOf(claims, id)
    ensures LastClaimer(claims, id).Some?
    ensures exists k :: i <= k < |claims| && claims[k] == Claim(id, LastClaimer(claims, id).value)
                        && forall j :: k < j < |claims| ==> claims[j].row != id
    decreases |claims|
  {
    var n := |claims| - 1;
    if claims[n].row == id {
      assert claims[n] == Claim(id, LastClaimer(claims, id).value);
      if i < n {
        LastClaimAt(claims[..n], id, i);
        assert claims[..n][..i + 1] == claims[..i + 1];
      } else {
        assert claims[..i + 1] == claims;
      }
    } else {
      LastClaimAt(claims[..n], id, i);
      assert claims[..n][..i + 1] == claims[..i + 1];
      var k :| i <= k < n && claims[..n][k] == Claim(id, LastClaimer(claims[..n], id).value)
               && forall j :: k < j < n ==> claims[..n][j].row != id;
      assert claims[k] == Claim(id, LastClaimer(claims, id).value);
      forall j | k < j < |claims| ensures claims[j].row != id {
        assert j == n || claims[..n][j] == claims[j];
      }
    }
  }

  /** Fencing: a worker that still holds the lease has the row's latest claim. */
  lemma HolderIsLatest(q: Queue, s: State, w: WorkerId, now: Time)
    requires Inv(q, s) && Fenced(s, w, now)
    ensures forall k :: s.handles[w].claim < k < |s.claims| ==> s.claims[k].row != s.handles[w].row
    ensures s.rows[s.handles[w].row].attempts == s.handles[w].attempts
  {
    var h := s.handles[w];
    assert HandleOk(s.claims, w, h);
    assert RowOk(q, s.rows[h.row], ClaimsOf(s.claims, h.row), LastClaimer(s.claims, h.row));
    LastClaimAt(s.claims, h.row, h.claim);
  }

  /** Another worker's claim leaves what a worker remembers true. */
  lemma HandleStays(claims: seq<Claim>, c: Claim, v: WorkerId, h: Handle)
    requires HandleOk(claims, v, h) && c.worker != v
    ensures HandleOk(claims + [c], v, h)
  {
    assert (claims + [c])[..h.claim + 1] == claims[..h.claim + 1];
  }

  lemma TakeKeepsHandles(q: Queue, s: State, id: Id, w: WorkerId, now: Time, leaseFor: Time)
    requires Inv(q, s) && w !in s.handles && id in s.rows && !Exhausted(q, s.rows[id]) && Takeable(q, s.rows[id], now)
    ensures
      var u := Apply(q, s, Take(id, w, now, leaseFor));
      forall v :: v in u.handles ==> HandleOk(u.claims, v, u.handles[v]) && u.handles[v].row in u.rows
  {
    hide HandleOk, RowOk, ClaimsOf, LastClaimer;
    var u := Apply(q, s, Take(id, w, now, leaseFor));
    forall v | v in u.handles ensures HandleOk(u.claims, v, u.handles[v]) && u.handles[v].row in u.rows {
      if v != w {
        HandleStays(s.claims, Claim(id, w), v, s.handles[v]);
      } else {
        NewHandle(q, s, id, w);
      }
    }
  }

  lemma NewHandle(q: Queue, s: State, id: Id, w: WorkerId)
    requires id in s.rows && RowOk(q, s.rows[id], ClaimsOf(s.claims, id), LastClaimer(s.claims, id))
    ensures HandleOk(s.claims + [Claim(id, w)], w, Handle(id, |s.claims|, s.rows[id].attempts + 1))
  {
    var claims := s.claims + [Claim(id, w)];
    LogGrows(s.claims, Claim(id, w));
    assert claims[..|s.claims| + 1] == claims;
  }

  lemma TakeKeepsInv(q: Queue, s: State, id: Id, w: WorkerId, now: Time, leaseFor: Time)
    requires Inv(q, s)
    ensures Inv(q, Apply(q, s, Take(id, w, now, leaseFor)))
  {
    hide HandleOk, ClaimsOf, LastClaimer;
    var u := Apply(q, s, Take(id, w, now, leaseFor));
    if u.claims != s.claims {
      LogGrows(s.claims, Claim(id, w));
      TakeKeepsHandles(q, s, id, w, now, leaseFor);
    }
  }

  lemma ApplyKeepsInv(q: Queue, s: State, m: Move)
    requires Inv(q, s) && q.maxAttempts > 0
    ensures Inv(q, Apply(q, s, m))
  {
    match m
    case Take(id, w, now, leaseFor) => TakeKeepsInv(q, s, id, w, now, leaseFor);
    case Settle(w, now, _, _) =>
      if Fenced(s, w, now) {
        HolderIsLatest(q, s, w, now);
      }
    case _ =>
  }

  // ---------------------------------------------------------------- main results

  lemma {:induction false} RunKeepsInv(q: Queue, s: State, ms: seq<Move>)
    requires Inv(q, s) && q.maxAttempts > 0
    ensures Inv(q, Run(q, s, ms))
    decreases |ms|
  {
    if ms != [] {
      ApplyKeepsInv(q, s, ms[0]);
      RunKeepsInv(q, Apply(q, s, ms[0]), ms[1..]);
    }
  }

  /**
   * Main result: in every run, a heartbeat or settlement that succeeds belongs to the latest claim of
   * its row; attempts count the claims; a pending row has attempts left; owner and lease are set
   * exactly while a row is processing.
   */
  lemma EveryRunIsFenced(q: Queue, ms: seq<Move>)
    requires q.maxAttempts > 0
    ensures
      var s := Run(q, EMPTY, ms);
      && (forall w, now :: Fenced(s, w, now) ==>
            && s.handles[w].claim < |s.claims|
            && s.claims[s.handles[w].claim] == Claim(s.handles[w].row, w)
            && forall k :: s.handles[w].claim < k < |s.claims| ==> s.claims[k].row != s.handles[w].row)
      && (forall id :: id in s.rows ==>
            && s.rows[id].attempts == ClaimsOf(s.claims, id)
            && (s.rows[id].phase.Pending? ==> s.rows[id].attempts < q.maxAttempts)
            && (s.rows[id].phase.Processing? <==> s.rows[id].owner.Some?)
            && (s.rows[id].phase.Processing? <==> s.rows[id].until.Some?))
  {
    RunKeepsInv(q, EMPTY, ms);
    var s := Run(q, EMPTY, ms);
    forall w, now | Fenced(s, w, now)
      ensures s.handles[w].claim < |s.claims| && s.claims[s.handles[w].claim] == Claim(s.handles[w].row, w)
      ensures forall k :: s.handles[w].claim < k < |s.claims| ==> s.claims[k].row != s.handles[w].row
    {
      assert HandleOk(s.claims, w, s.handles[w]);
      HolderIsLatest(q, s, w, now);
    }
  }

  lemma SettledStays(q: Queue, s: State, m: Move, id: Id)
    requires id in s.rows && s.rows[id].phase.Final?
    ensures id in Apply(q, s, m).rows && Apply(q, s, m).rows[id] == s.rows[id]
  {
  }

  /** Main result: a settled row is never touched again. */
  lemma {:induction false} SettledForEver(q: Queue, s: State, ms: seq<Move>, id: Id)
    requires id in s.rows && s.rows[id].phase.Final?
    ensures id in Run(q, s, ms).rows && Run(q, s, ms).rows[id] == s.rows[id]
    decreases |ms|
  {
    if ms != [] {
      SettledStays(q, s, ms[0], id);
      SettledForEver(q, Apply(q, s, ms[0]), ms[1..], id);
    }
  }

  // ---------------------------------------------------------------- how often a row is selected

  predicate Selects(q: Queue, s: State, m: Move, id: Id) {
    m.Take? && m.id == id && id in s.rows && Apply(q, s, m).rows[id] != s.rows[id]
  }

  function Selections(q: Queue, s: State, ms: seq<Move>, id: Id): nat
    decreases |ms|
  {
    if ms == [] then 0
    else (if Selects(q, s, ms[0], id) then 1 else 0) + Selections(q, Apply(q, s, ms[0]), ms[1..], id)
  }

  function Budget(q: Queue, s: State, id: Id): int {
    if id !in s.rows then q.maxAttempts + 1
    else if s.rows[id].phase.Final? then 0
    else q.maxAttempts - s.rows[id].attempts + 1
  }

  lemma BudgetPays(q: Queue, s: State, m: Move, id: Id)
    requires Inv(q, s) && q.capped
    ensures Budget(q, Apply(q, s, m), id) + (if Selects(q, s, m, id) then 1 else 0) <= Budget(q, s, id)
  {
    if id in s.rows {
      assert RowOk(q, s.rows[id], ClaimsOf(s.claims, id), LastClaimer(s.claims, id));
    }
  }

  lemma {:induction false} SelectionsFitBudget(q: Queue, s: State, ms: seq<Move>, id: Id)
    requires Inv(q, s) && q.maxAttempts > 0 && q.capped
    ensures Selections(q, s, ms, id) <= Budget(q, s, id)
    decreases |ms|
  {
    if ms != [] {
      ApplyKeepsInv(q, s, ms[0]);
      BudgetPays(q, s, ms[0], id);
      SelectionsFitBudget(q, Apply(q, s, ms[0]), ms[1..], id);
    } else if id in s.rows {
      assert RowOk(q, s.rows[id], ClaimsOf(s.claims, id), LastClaimer(s.claims, id));
    }
  }

  /** Main result for documents: even if every worker crashes, at most maxAttempts + 1 selections. */
  lemma CappedSelections(q: Queue, ms: seq<Move>, id: Id)
    requires q.maxAttempts > 0 && q.capped
    ensures Selections(q, EMPTY, ms, id) <= q.maxAttempts + 1
    ensures id in Run(q, EMPTY, ms).rows ==> Run(q, EMPTY, ms).rows[id].attempts <= q.maxAttempts
  {
    SelectionsFitBudget(q, EMPTY, ms, id);
    RunKeepsInv(q, EMPTY, ms);
  }

  // ---------------------------------------------------------------- when attempts stay within their maximum

  predicate Within(q: Queue, s: State) {
    forall id :: id in s.rows ==> s.rows[id].attempts <= q.maxAttempts
  }

  // A free worker of an uncapped queue takes over an abandoned row whose attempts are used up.
  predicate Overdraws(q: Queue, s: State, m: Move) {
    && m.Take? && m.worker !in s.handles && m.id in s.rows && !q.capped
    && Expired(s.rows[m.id], m.now) && s.rows[m.id].attempts >= q.maxAttempts
  }

  predicate OverdrawsIn(q: Queue, s: State, ms: seq<Move>)
    decreases |ms|
  {
    ms != [] && (Overdraws(q, s, ms[0]) || OverdrawsIn(q, Apply(q, s, ms[0]), ms[1..]))
  }

  predicate StaysWithin(q: Queue, s: State, ms: seq<Move>)
    decreases |ms|
  {
    Within(q, s) && (ms == [] || StaysWithin(q, Apply(q, s, ms[0]), ms[1..]))
  }

  lemma WithinStep(q: Queue, s: State, m: Move)
    requires Inv(q, s) && q.maxAttempts > 0 && Within(q, s)
    ensures Within(q, Apply(q, s, m)) <==> !Overdraws(q, s, m)
  {
    if m.Take? && m.id in s.rows {
      assert RowOk(q, s.rows[m.id], ClaimsOf(s.claims, m.id), LastClaimer(s.claims, m.id));
      assert m.id in Apply(q, s, m).rows;
    }
  }

  /**
   * Main result: the attempts stay within their maximum throughout a run if and only if no worker of an uncapped
   * queue takes over an abandoned row whose attempts are used up; a capped queue never exceeds it.
   */
  lemma {:induction false} WithinUnlessOverdrawn(q: Queue, s: State, ms: seq<Move>)
    requires Inv(q, s) && q.maxAttempts > 0 && Within(q, s)
    ensures StaysWithin(q, s, ms) <==> !OverdrawsIn(q, s, ms)
    decreases |ms|
  {
    if ms != [] {
      WithinStep(q, s, ms[0]);
      ApplyKeepsInv(q, s, ms[0]);
      hide Inv, Within, Overdraws, Apply;
      if !Overdraws(q, s, ms[0]) {
        WithinUnlessOverdrawn(q, Apply(q, s, ms[0]), ms[1..]);
      }
    } else {
      assert StaysWithin(q, s, ms);
    }
  }

  lemma {:induction false} EndsWithin(q: Queue, s: State, ms: seq<Move>)
    requires StaysWithin(q, s, ms)
    ensures Within(q, Run(q, s, ms))
    decreases |ms|
  {
    if ms != [] {
      EndsWithin(q, Apply(q, s, ms[0]), ms[1..]);
    }
  }

  /** And without the cap this does happen: crashes push attempts past every bound. */
  lemma {:induction false} CrashesExceedAnyBound(q: Queue, n: nat) returns (ms: seq<Move>)
    requires q.maxAttempts > 0 && !q.capped
    ensures
      var s := Run(q, EMPTY, ms);
      0 in s.rows && s.rows[0] == Lease(if n == 0 then Pending else Processing, n,
                                        if n == 0 then None else Some(0), if n == 0 then None else Some(n), 0)
      && s.handles == map[]
    ensures n > q.maxAttempts ==> OverdrawsIn(q, EMPTY, ms)
  {
    if n == 0 {
      ms := [Enqueue(0, 0)];
      assert ms[1..] == [];
    } else {
      var before := CrashesExceedAnyBound(q, n - 1);
      var again := [Take(0, 0, n - 1, 1), Crash(0)];
      ms := before + again;
      RunAppends(q, EMPTY, before, again);
      var s := Run(q, EMPTY, before);
      assert again[1..] == [Crash(0)] && [Crash(0)][1..] == [];
      assert s.handles[0 := Handle(0, |s.claims|, n)] - {0} == map[];
    }
    WithinUnlessOverdrawn(q, EMPTY, ms);
    if StaysWithin(q, EMPTY, ms) {
      EndsWithin(q, EMPTY, ms);
    }
  }

  lemma {:induction false} RunAppends(q: Queue, s: State, a: seq<Move>, b: seq<Move>)
    ensures Run(q, s, a + b) == Run(q, Run(q, s, a), b)
    decreases |a|
  {
    if a == [] {
      assert a + b == b;
    } else {
      RunAppends(q, Apply(q, s, a[0]), a[1..], b);
      assert (a + b)[1..] == a[1..] + b;
    }
  }
}
