/** The transactions of the delivery queue are exactly the moves of the outbox runs. */
module OutboxSteps {
  import opened Basics
  import opened Leases
  import opened OutboxRows
  import opened OutboxRuns
  import opened DeliveryQueue

  /** Enqueueing a new key is the move; a known key or a refused delivery moves nothing. */
  method EnqueueDelivery(queue: PostgresDeliveryQueue, intent: DeliveryIntent, now: Time, newId: Id, ghost s: State)
    returns (r: Result<Id, DeliveryError>)
    requires s.outbox == queue.session.outbox && newId !in s.outbox && UniqueDeliveries(s.outbox)
    modifies queue.session`outbox
    ensures r == Ok(newId) ==> queue.session.outbox == Apply(s, Enqueue(newId, intent, now)).outbox
    ensures r != Ok(newId) ==> queue.session.outbox == s.outbox
    ensures r == Ok(newId) <==>
              && Refusal(queue.session.houseChats, s.outbox, intent).None?
              && !HasDelivery(s.outbox, intent.houseId, intent.operationKey)
  {
    hide Coalesced, Refusal;
    r := queue.Enqueue(intent, now, newId);
  }

  method ClaimDelivery(
      queue: PostgresDeliveryQueue, worker: WorkerId, now: Time, leaseFor: Time, locked: set<Id>, ghost s: State)
    returns (r: Option<Id>)
    requires s.outbox == queue.session.outbox
    modifies queue.session`outbox
    ensures queue.session.outbox ==
            if r.None? then s.outbox else Apply(s, Claim(r.value, worker, now, leaseFor)).outbox
    ensures r.None? <==> forall id :: id in s.outbox && id !in locked ==> !Due(s.outbox[id].lease, now)
  {
    r := queue.Claim(worker, now, leaseFor, locked);
  }

  method RenewDelivery(queue: PostgresDeliveryQueue, id: Id, worker: WorkerId, now: Time, leaseFor: Time, ghost s: State)
    returns (r: Result<(), DeliveryError>)
    requires s.outbox == queue.session.outbox
    modifies queue.session`outbox
    ensures queue.session.outbox == Apply(s, Renew(id, worker, now, leaseFor)).outbox
  {
    r := queue.Heartbeat(id, worker, now, leaseFor);
  }

  method KeepToken(queue: PostgresDeliveryQueue, id: Id, worker: WorkerId, now: Time, token: string, ghost s: State)
    returns (r: Result<(), DeliveryError>)
    requires s.outbox == queue.session.outbox && token != ""
    modifies queue.session`outbox
    ensures queue.session.outbox == Apply(s, SaveToken(id, worker, now, token)).outbox
  {
    r := queue.SaveAttachmentToken(id, worker, now, token);
  }

  method SettleDelivery(
      queue: PostgresDeliveryQueue, id: Id, worker: WorkerId, now: Time, verdict: Verdict, messageId: Option<string>,
      code: Option<string>, ghost s: State)
    returns (r: Result<(), DeliveryError>)
    requires s.outbox == queue.session.outbox
    modifies queue.session`outbox
    ensures queue.session.outbox == Apply(s, Settle(id, worker, now, verdict, messageId, code)).outbox
  {
    r := queue.Settle(id, worker, now, Final(verdict), messageId, ErrorOf(code), None);
  }

  method RetryDelivery(
      queue: PostgresDeliveryQueue, id: Id, worker: WorkerId, now: Time, retryAfter: Time, code: Option<string>,
      ghost s: State)
    returns (r: Result<(), DeliveryError>)
    requires s.outbox == queue.session.outbox
    modifies queue.session`outbox
    ensures queue.session.outbox == Apply(s, Retry(id, worker, now, retryAfter, code)).outbox
  {
    r := queue.Settle(id, worker, now, Pending, None, ErrorOf(code), Some(retryAfter));
  }
}
