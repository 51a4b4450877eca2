/** The delivery queue and its workers take exactly the moves of the delivery runs. */
module DeliverySteps {
  import opened Basics
  import opened Leases
  import opened OutboxRows
  import opened DeliveryRuns
  import opened Workers
  import DeliveryQueue

  // The rows of the outbox are those of this world.
  ghost predicate Presents(outbox: Outbox, w: World) {
    && w.queue.rows == DeliveryLeases(outbox)
    && w.contents == map id | id in outbox :: outbox[id].content
  }

  /** A new delivery that edits nothing is the move; a refused or repeated one moves nothing. */
  method EnqueueNew(
      queue: DeliveryQueue.PostgresDeliveryQueue, intent: DeliveryIntent, now: Time, newId: Id,
      ghost maxAttempts: nat, ghost w: World)
    returns (r: Result<Id, DeliveryError>)
    requires Presents(queue.session.outbox, w) && intent.editKey.None?
    requires newId !in queue.session.outbox && UniqueDeliveries(queue.session.outbox)
    modifies queue.session`outbox
    ensures Presents(queue.session.outbox,
                     if r == Ok(newId) then Apply(maxAttempts, w, Enqueue(newId, intent, now)) else w)
  {
    hide DeliveryQueue.Refusal, UniqueDeliveries;
    ghost var before := queue.session.outbox;
    r := queue.Enqueue(intent, now, newId);
    assert r == Ok(newId) ==> Coalesced(before, intent.houseId, None) == before;
  }

  method ClaimNext(
      queue: DeliveryQueue.PostgresDeliveryQueue, worker: WorkerId, now: Time, leaseFor: Time, locked: set<Id>,
      ghost maxAttempts: nat, ghost w: World)
    returns (r: Option<Id>)
    requires Presents(queue.session.outbox, w) && worker !in w.queue.handles
    modifies queue.session`outbox
    ensures
      var next := if r.None? then w else Apply(maxAttempts, w, Take(r.value, worker, now, leaseFor));
      && Presents(queue.session.outbox, next)
      && (r.Some? ==> MayTry(next, worker) || worker in w.attempted)
  {
    r := queue.Claim(worker, now, leaseFor, locked);
  }

  /** The worker settles what its attempt came to, and is free for the next delivery. */
  method ConcludeAttempt(
      delivery: DeliveryWorker, id: Id, attempts: nat, outcome: Outcome, messageId: string, error: ErrorCode,
      now: Time, ghost w: World)
    requires Presents(delivery.session.outbox, w) && attempts > 0
    requires delivery.worker in w.queue.handles && delivery.worker in w.attempted
    requires w.queue.handles[delivery.worker].row == id && w.queue.handles[delivery.worker].attempts == attempts
    requires w.attempted[delivery.worker] == outcome
    modifies delivery.session`outbox
    ensures
      var next := Apply(delivery.maxAttempts, w, Conclude(delivery.worker, now));
      && Presents(delivery.session.outbox, next)
      && delivery.worker !in next.queue.handles && delivery.worker !in next.attempted
  {
    hide RetryDelay, AfterAttempt;
    AttemptEndsSo(outcome, attempts, delivery.maxAttempts);
    assert Busy(w.queue, DeliveryLeases(delivery.session.outbox), delivery.worker, id, attempts);
    var ok := delivery.Conclude(id, attempts, outcome, messageId, error, now);
  }
}
