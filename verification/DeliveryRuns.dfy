/** How often a message is handed to the messenger, over all runs of several delivery workers. */
module DeliveryRuns {
  import opened Basics
  import opened Leases
  import opened OutboxRows
  import LeaseProtocol
  import opened Workers

  datatype HandOver = HandOver(row: Id, worker: WorkerId, sending: Sending)

  // handed logs every message given to the messenger; attempted is what a worker still has to settle.
  datatype World = World(
    contents: map<Id, DeliveryIntent>,
    queue: LeaseProtocol.State,
    attempted: map<WorkerId, Outcome>,
    handed: seq<HandOver>)

  datatype Move =
    | Enqueue(id: Id, intent: DeliveryIntent, now: Time)
    | Take(id: Id, worker: WorkerId, now: Time, leaseFor: Time)
    | Beat(worker: WorkerId, now: Time, leaseFor: Time)
    | Try(worker: WorkerId, attempt: Attempt)
    | Conclude(worker: WorkerId, now: Time)
    | Crash(worker: WorkerId)
    | Withdraw(id: Id)

  /**
   * A worker claims a delivery, attempts it once without another look at the lease, and settles it by the outcome.
   * A crash may come at any moment; a newer edit or a cancelled poll withdraws a delivery that waits.
   */
  function Apply(maxAttempts: nat, w: World, m: Move): World {
    match m
    case Enqueue(id, intent, now) =>
      if id in w.contents then w
      else w.(contents := w.contents[id := intent], queue := Queued(maxAttempts, w, LeaseProtocol.Enqueue(id, now)))
    case Take(id, worker, now, leaseFor) =>
      w.(queue := Queued(maxAttempts, w, LeaseProtocol.Take(id, worker, now, leaseFor)))
    case Beat(worker, now, leaseFor) => w.(queue := Queued(maxAttempts, w, LeaseProtocol.Beat(worker, now, leaseFor)))
    case Try(worker, attempt) => if MayTry(w, worker) then Tried(w, worker, attempt) else w
    case Conclude(worker, now) => if worker in w.attempted then Concluded(maxAttempts, w, worker, now) else w
    case Crash(worker) => Left(w, worker, Queued(maxAttempts, w, LeaseProtocol.Crash(worker)))
    case Withdraw(id) => w.(queue := Queued(maxAttempts, w, LeaseProtocol.Retire(id, Verdict.Superseded)))
  }

  function Queued(maxAttempts: nat, w: World, m: LeaseProtocol.Move): LeaseProtocol.State {
    LeaseProtocol.Apply(Waiting(maxAttempts), w.queue, m)
  }

  predicate MayTry(w: World, worker: WorkerId) {
    worker in w.queue.handles && w.queue.handles[worker].row in w.contents && worker !in w.attempted
  }

  function Tried(w: World, worker: WorkerId, attempt: Attempt): World
    requires MayTry(w, worker)
  {
    var id := w.queue.handles[worker].row;
    w.(attempted := w.attempted[worker := Delivered(w.contents[id], attempt)],
       handed := if Reached(w.contents[id], attempt) then w.handed + [HandOver(id, worker, attempt.sending)]
                 else w.handed)
  }

  function Concluded(maxAttempts: nat, w: World, worker: WorkerId, now: Time): World
    requires worker in w.attempted
  {
    if worker !in w.queue.handles then w
    else
      var id, attempts := w.queue.handles[worker].row, w.queue.handles[worker].attempts;
      var phase := AfterAttempt(w.attempted[worker], attempts, maxAttempts);
      var at := if phase.Pending? && attempts > 0 then now + RetryDelay(attempts)
                else if id in w.queue.rows then w.queue.rows[id].availableAt else now;
      Left(w, worker, Queued(maxAttempts, w, LeaseProtocol.Settle(worker, now, phase, at)))
  }

  function Left(w: World, worker: WorkerId, queue: LeaseProtocol.State): World {
    w.(attempted := w.attempted - {worker}, queue := queue)
  }

  function Run(maxAttempts: nat, w: World, ms: seq<Move>): World
    decreases |ms|
  {
    if ms == [] then w else Run(maxAttempts, Apply(maxAttempts, w, ms[0]), ms[1..])
  }

  const START := World(map[], LeaseProtocol.EMPTY, map[], [])

  // ---------------------------------------------------------------- without a take-over

  // A worker takes the delivery although another one claimed it and never settled it.
  predicate TakesOver(w: World, m: Move, id: Id) {
    m.Take? && m.id == id && id in w.queue.rows && Expired(w.queue.rows[id], m.now) && m.worker !in w.queue.handles
  }

  predicate EverTakenOver(maxAttempts: nat, w: World, ms: seq<Move>, id: Id)
    decreases |ms|
  {
    ms != [] && (TakesOver(w, ms[0], id) || EverTakenOver(maxAttempts, Apply(maxAttempts, w, ms[0]), ms[1..], id))
  }

  predicate Arrived(h: HandOver, id: Id) {
    h.row == id && MayHaveArrived(h.sending)
  }

  // Nothing follows a message that may have arrived.
  predicate ArrivesLast(handed: seq<HandOver>, id: Id) {
    forall i, j :: 0 <= i < j < |handed| && handed[j].row == id ==> !Arrived(handed[i], id)
  }

  // An edit cannot carry a file, so such a message is never handed over.
  predicate Sendable(intent: DeliveryIntent) {
    intent.editKey.None? || intent.fileKey.None?
  }

  // What every run keeps, with take-overs or without.
  predicate Tracked(w: World, id: Id) {
    && (id in w.queue.rows <==> id in w.contents)
    && (id in w.queue.rows && w.queue.rows[id].phase.Processing? ==> w.queue.rows[id].until.Some?)
    && (forall v :: v in w.attempted ==> v in w.queue.handles)
    && (forall h <- w.handed :: h.row == id ==> id in w.contents && Sendable(w.contents[id]))
  }

  // Whoever works on the delivery holds its row.
  predicate SoleWorker(w: World, id: Id) {
    forall v :: v in w.queue.handles && w.queue.handles[v].row == id ==>
      id in w.queue.rows && w.queue.rows[id].phase.Processing? && w.queue.rows[id].owner == Some(v)
  }

  // Whoever works on it once its message may have arrived is about to end it.
  predicate Ending(w: World, id: Id) {
    (exists h <- w.handed :: Arrived(h, id)) ==>
      && id in w.queue.rows && !w.queue.rows[id].phase.Pending?
      && forall v :: v in w.queue.handles && w.queue.handles[v].row == id ==>
           v in w.attempted && w.attempted[v].Settles?
  }

  predicate Single(w: World, id: Id) {
    Tracked(w, id) && SoleWorker(w, id) && Ending(w, id) && ArrivesLast(w.handed, id)
  }

  lemma ApplyKeepsTracked(maxAttempts: nat, w: World, m: Move, id: Id)
    requires Tracked(w, id)
    ensures Tracked(Apply(maxAttempts, w, m), id)
  {
    hide Delivered, RetryDelay, AfterAttempt;
  }

  lemma {:induction false} RunKeepsTracked(maxAttempts: nat, w: World, ms: seq<Move>, id: Id)
    requires Tracked(w, id)
    ensures Tracked(Run(maxAttempts, w, ms), id)
    decreases |ms|
  {
    if ms != [] {
      hide Tracked, Apply;
      ApplyKeepsTracked(maxAttempts, w, ms[0], id);
      RunKeepsTracked(maxAttempts, Apply(maxAttempts, w, ms[0]), ms[1..], id);
    }
  }

  lemma QueueMovesKeepSingle(maxAttempts: nat, w: World, m: Move, id: Id)
    requires Single(w, id) && !TakesOver(w, m, id) && !m.Try? && !m.Conclude?
    ensures Single(Apply(maxAttempts, w, m), id)
  {
    ApplyKeepsTracked(maxAttempts, w, m, id);
    hide ArrivesLast, Arrived, Tracked;
  }

  lemma ConcludeKeepsSingle(maxAttempts: nat, w: World, m: Move, id: Id)
    requires Single(w, id) && m.Conclude?
    ensures Single(Apply(maxAttempts, w, m), id)
  {
    ApplyKeepsTracked(maxAttempts, w, m, id);
    hide ArrivesLast, Arrived, RetryDelay;
  }

  lemma TryKeepsSingle(maxAttempts: nat, w: World, m: Move, id: Id)
    requires Single(w, id) && m.Try?
    ensures Single(Apply(maxAttempts, w, m), id)
  {
    ApplyKeepsTracked(maxAttempts, w, m, id);
    hide Delivered, Reached;
    if MayTry(w, m.worker) {
      var row := w.queue.handles[m.worker].row;
      RetriesOnlyRefused(w.contents[row], m.attempt);
      if row == id {
        assert forall h <- w.handed :: !Arrived(h, id);
      }
    }
  }

  lemma ApplyKeepsSingle(maxAttempts: nat, w: World, m: Move, id: Id)
    requires Single(w, id) && !TakesOver(w, m, id)
    ensures Single(Apply(maxAttempts, w, m), id)
  {
    hide Single, Apply;
    if m.Try? {
      TryKeepsSingle(maxAttempts, w, m, id);
    } else if m.Conclude? {
      ConcludeKeepsSingle(maxAttempts, w, m, id);
    } else {
      QueueMovesKeepSingle(maxAttempts, w, m, id);
    }
  }

  lemma {:induction false} RunKeepsSingle(maxAttempts: nat, w: World, ms: seq<Move>, id: Id)
    requires Single(w, id) && !EverTakenOver(maxAttempts, w, ms, id)
    ensures Single(Run(maxAttempts, w, ms), id)
    decreases |ms|
  {
    if ms != [] {
      hide Single, Apply;
      ApplyKeepsSingle(maxAttempts, w, ms[0], id);
      RunKeepsSingle(maxAttempts, Apply(maxAttempts, w, ms[0]), ms[1..], id);
    }
  }

  /**
   * Main result: unless a worker takes the delivery over from one that crashed or lost its lease, a message that may
   * have arrived is never handed to the messenger again, and its delivery never waits again.
   */
  lemma NeverHandedOverAgain(maxAttempts: nat, ms: seq<Move>, id: Id)
    requires !EverTakenOver(maxAttempts, START, ms, id)
    ensures
      var w := Run(maxAttempts, START, ms);
      && (forall i, j :: 0 <= i < j < |w.handed| && w.handed[i].row == id == w.handed[j].row ==>
            !MayHaveArrived(w.handed[i].sending))
      && (forall h <- w.handed :: h.row == id && MayHaveArrived(h.sending) ==>
            id in w.queue.rows && !w.queue.rows[id].phase.Pending?)
  {
    RunKeepsSingle(maxAttempts, START, ms, id);
    var w := Run(maxAttempts, START, ms);
    assert forall h <- w.handed :: h.row == id && MayHaveArrived(h.sending) ==> Arrived(h, id);
  }

  // ---------------------------------------------------------------- exactly when it can happen again

  /** Every claim is enough: the attempt that follows hands the message over, whatever happened to it before. */
  lemma ClaimHandsOver(maxAttempts: nat, w: World, take: Move, a: Attempt)
    requires take.Take? && take.worker !in w.queue.handles && take.worker !in w.attempted
    requires take.id in w.queue.rows && Due(w.queue.rows[take.id], take.now)
    requires take.id in w.contents && Reached(w.contents[take.id], a)
    ensures Run(maxAttempts, w, [take, Try(take.worker, a)]).handed
         == w.handed + [HandOver(take.id, take.worker, a.sending)]
  {
    hide Delivered, Reached;
    var attempt := Try(take.worker, a);
    assert [take, attempt][1..] == [attempt] && [attempt][1..] == [];
    var taken := Apply(maxAttempts, w, take);
    assert MayTry(taken, take.worker) && taken.queue.handles[take.worker].row == take.id;
    assert Run(maxAttempts, w, [take, attempt]) == Run(maxAttempts, taken, [attempt]);
    assert Run(maxAttempts, taken, [attempt]) == Run(maxAttempts, Apply(maxAttempts, taken, attempt), []);
  }

  function Times(handed: seq<HandOver>, id: Id): nat {
    if handed == [] then 0
    else Times(handed[..|handed| - 1], id) + (if handed[|handed| - 1].row == id then 1 else 0)
  }

  // A worker that has claimed the delivery and not attempted it yet, whether or not it still holds the lease.
  predicate Awaits(w: World, id: Id, worker: WorkerId) {
    worker in w.queue.handles && w.queue.handles[worker].row == id && worker !in w.attempted
  }

  // The delivery is settled and nobody is going to attempt it any more.
  predicate Over(w: World, id: Id) {
    && id in w.contents && id in w.queue.rows && w.queue.rows[id].phase.Final?
    && forall v :: v in w.queue.handles ==> !Awaits(w, id, v)
  }

  lemma OverStays(maxAttempts: nat, w: World, m: Move, id: Id)
    requires Over(w, id)
    ensures Over(Apply(maxAttempts, w, m), id)
    ensures Times(Apply(maxAttempts, w, m).handed, id) == Times(w.handed, id)
  {
    hide Delivered, Reached, RetryDelay;
    if m.Try? && MayTry(w, m.worker) {
      var h := HandOver(w.queue.handles[m.worker].row, m.worker, m.attempt.sending);
      assert (w.handed + [h])[..|w.handed|] == w.handed;
    }
  }

  lemma {:induction false} OverForEver(maxAttempts: nat, w: World, ms: seq<Move>, id: Id)
    requires Over(w, id)
    ensures Times(Run(maxAttempts, w, ms).handed, id) == Times(w.handed, id)
    decreases |ms|
  {
    if ms != [] {
      hide Over, Apply, Times;
      OverStays(maxAttempts, w, ms[0], id);
      OverForEver(maxAttempts, Apply(maxAttempts, w, ms[0]), ms[1..], id);
    }
  }

  const SUCCESS := Attempt(true, true, true, Token, true, Accepted(""))

  lemma OneMore(handed: seq<HandOver>, h: HandOver)
    ensures Times(handed + [h], h.row) == Times(handed, h.row) + 1
  {
    assert (handed + [h])[..|handed|] == handed;
  }

  /** Any free worker can claim an unsettled delivery at some time, and attempt it. */
  lemma UnsettledCanRepeat(maxAttempts: nat, w: World, id: Id) returns (ms: seq<Move>)
    requires Tracked(w, id) && id in w.contents && Sendable(w.contents[id]) && !w.queue.rows[id].phase.Final?
    ensures Times(Run(maxAttempts, w, ms).handed, id) == Times(w.handed, id) + 1
  {
    var lease := w.queue.rows[id];
    var worker := Unused(w.queue.handles.Keys);
    var take := Take(id, worker, if lease.phase.Pending? then lease.availableAt else lease.until.value, 60);
    ms := [take, Try(worker, SUCCESS)];
    ClaimHandsOver(maxAttempts, w, take, SUCCESS);
    OneMore(w.handed, HandOver(id, worker, SUCCESS.sending));
  }

  lemma AwaitedCanRepeat(maxAttempts: nat, w: World, id: Id, worker: WorkerId) returns (ms: seq<Move>)
    requires Awaits(w, id, worker) && id in w.contents && Sendable(w.contents[id])
    ensures Times(Run(maxAttempts, w, ms).handed, id) == Times(w.handed, id) + 1
  {
    ms := [Try(worker, SUCCESS)];
    assert ms[1..] == [];
    assert Run(maxAttempts, w, ms) == Run(maxAttempts, Apply(maxAttempts, w, ms[0]), []);
    OneMore(w.handed, HandOver(id, worker, SUCCESS.sending));
  }

  /**
   * Main result: in whatever state a run has left it, a message that was handed over once can be handed over again if
   * and only if its delivery is not settled or a worker that claimed it has its attempt still to make.
   */
  lemma RepeatableIff(maxAttempts: nat, past: seq<Move>, id: Id)
    requires exists h <- Run(maxAttempts, START, past).handed :: h.row == id
    ensures
      var w := Run(maxAttempts, START, past);
      && id in w.queue.rows
      && ((exists ms :: Times(Run(maxAttempts, w, ms).handed, id) > Times(w.handed, id))
          <==> !w.queue.rows[id].phase.Final? || exists v :: v in w.queue.handles && Awaits(w, id, v))
  {
    RunKeepsTracked(maxAttempts, START, past, id);
    var w := Run(maxAttempts, START, past);
    assert Tracked(w, id);
    if !w.queue.rows[id].phase.Final? {
      var ms := UnsettledCanRepeat(maxAttempts, w, id);
    } else if v :| v in w.queue.handles && Awaits(w, id, v) {
      var ms := AwaitedCanRepeat(maxAttempts, w, id, v);
    } else {
      assert Over(w, id);
      forall ms ensures Times(Run(maxAttempts, w, ms).handed, id) == Times(w.handed, id) {
        OverForEver(maxAttempts, w, ms, id);
      }
    }
  }

  /**
   * A crash between sending and settling therefore sends twice: every message that can be handed over at all is
   * accepted by the messenger two times.
   */
  lemma CrashSendsTwice(maxAttempts: nat, intent: DeliveryIntent, a: Attempt)
    requires Reached(intent, a) && a.sending.Accepted?
    ensures
      var ms := [Enqueue(0, intent, 0), Take(0, 1, 0, 60), Try(1, a), Crash(1), Take(0, 2, 60, 60), Try(2, a)];
      && EverTakenOver(maxAttempts, START, ms, 0)
      && Run(maxAttempts, START, ms).handed == [HandOver(0, 1, a.sending), HandOver(0, 2, a.sending)]
  {
    hide Delivered, Reached;
    var ms := [Enqueue(0, intent, 0), Take(0, 1, 0, 60), Try(1, a), Crash(1), Take(0, 2, 60, 60), Try(2, a)];
    var w1 := Apply(maxAttempts, START, ms[0]);
    var w2 := Apply(maxAttempts, w1, ms[1]);
    var w3 := Apply(maxAttempts, w2, ms[2]);
    var w4 := Apply(maxAttempts, w3, ms[3]);
    assert w4.handed == [HandOver(0, 1, a.sending)] && w4.attempted == map[] && w4.queue.handles == map[];
    assert TakesOver(w4, ms[4], 0);
    ClaimHandsOver(maxAttempts, w4, ms[4], a);
    RunFour(maxAttempts, START, ms);
    assert ms[4..] == [ms[4], ms[5]];
  }

  lemma RunFour(maxAttempts: nat, w: World, ms: seq<Move>)
    requires |ms| >= 4
    ensures
      var two := Apply(maxAttempts, Apply(maxAttempts, w, ms[0]), ms[1]);
      var v := Apply(maxAttempts, Apply(maxAttempts, two, ms[2]), ms[3]);
      && Run(maxAttempts, w, ms) == Run(maxAttempts, v, ms[4..])
      && forall id :: EverTakenOver(maxAttempts, v, ms[4..], id) ==> EverTakenOver(maxAttempts, w, ms, id)
  {
    hide Apply, TakesOver;
    assert ms[1..][1..] == ms[2..] && ms[2..][1..] == ms[3..] && ms[3..][1..] == ms[4..];
    var w1 := Apply(maxAttempts, w, ms[0]);
    var w2 := Apply(maxAttempts, w1, ms[1]);
    var w3 := Apply(maxAttempts, w2, ms[2]);
    var w4 := Apply(maxAttempts, w3, ms[3]);
    assert Run(maxAttempts, w2, ms[2..]) == Run(maxAttempts, w4, ms[4..]);
    forall id | EverTakenOver(maxAttempts, w4, ms[4..], id) ensures EverTakenOver(maxAttempts, w, ms, id) {
      assert EverTakenOver(maxAttempts, w3, ms[3..], id);
      assert EverTakenOver(maxAttempts, w2, ms[2..], id);
      assert EverTakenOver(maxAttempts, w1, ms[1..], id);
    }
  }
}
