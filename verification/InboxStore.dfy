/** Claiming, renewing and settling the rows of the durable inbox. */
module InboxQueue {
  import opened Basics
  import opened Leases
  import opened InboxRows
  import opened Database

  datatype InboxError = LeaseLost | LacksNormalizedEvent

  function Receipts(inbox: Inbox): map<Id, Time> {
    map id | id in inbox :: inbox[id].receivedAt
  }

  // locked are the rows other transactions hold, which SKIP LOCKED passes over.
  function Claimable(inbox: Inbox, now: Time, locked: set<Id>): set<Id> {
    set id | id in inbox && id !in locked && Due(inbox[id].lease, now)
  }

  function Relet(inbox: Inbox, id: Id, lease: Lease): Inbox
    requires id in inbox
  {
    inbox[id := inbox[id].(lease := lease)]
  }

  class InboxStore {
    const session: Session

    constructor (session: Session)
      ensures this.session == session
    {
      this.session := session;
    }

    /** Stores an update once per source key; the answer says whether the row is new. */
    method SaveInboxEvent(sourceKey: string, name: Option<EventName>, houseId: Option<Id>, receivedAt: Time, newId: Id)
      returns (inserted: bool)
      requires newId !in session.inbox && UniqueKeys(session.inbox)
      modifies session`inbox
      ensures UniqueKeys(session.inbox)
      ensures inserted <==> !HasKey(old(session.inbox), Max, External(sourceKey))
      ensures session.inbox == if !inserted then old(session.inbox) else
        old(session.inbox)[newId :=
          InboxRow(Max, External(sourceKey), name, houseId, None, receivedAt,
                   NewLease(if name.Some? then Pending else Final(Ignored), receivedAt))]
    {
      var phase := if name.Some? then Pending else Final(Ignored);
      var row := InboxRow(Max, External(sourceKey), name, houseId, None, receivedAt, NewLease(phase, receivedAt));
      SavedOnce(session.inbox, newId, row, newId, row);
      inserted := !HasKey(session.inbox, Max, External(sourceKey));
      session.inbox := Saved(session.inbox, newId, row);
    }

    /** Leases the earliest received row that is due and not locked by another transaction. */
    method Claim(worker: WorkerId, now: Time, leaseFor: Time, locked: set<Id>)
      returns (r: Result<Option<Id>, InboxError>)
      modifies session`inbox
      ensures r == Ok(None) <==>
              forall id :: id in old(session.inbox) && Due(old(session.inbox)[id].lease, now) ==> id in locked
      ensures r == Ok(None) || r.Err? ==> session.inbox == old(session.inbox)
      ensures r.Ok? && r.value.Some? ==>
        var id, inbox := r.value.value, old(session.inbox);
        && id in inbox && inbox[id].name.Some? && id !in locked && Due(inbox[id].lease, now)
        && (forall other :: other in inbox && other !in locked && Due(inbox[other].lease, now) ==>
              inbox[id].receivedAt < inbox[other].receivedAt
              || (inbox[id].receivedAt == inbox[other].receivedAt && id <= other))
        && session.inbox == inbox[id := inbox[id].(lease := Claimed(inbox[id].lease, worker, now, leaseFor))]
      ensures r.Err? ==> exists id :: id in old(session.inbox) && Due(old(session.inbox)[id].lease, now)
                                      && old(session.inbox)[id].name.None?
    {
      var candidates := Claimable(session.inbox, now, locked);
      assert forall id :: id in session.inbox && id !in locked && Due(session.inbox[id].lease, now) ==> id in candidates;
      if candidates == {} {
        return Ok(None);
      }
      var id := First(candidates, Receipts(session.inbox));
      var row := session.inbox[id];
      if row.name.None? {
        return Err(LacksNormalizedEvent);
      }
      session.inbox := Relet(session.inbox, id, Claimed(row.lease, worker, now, leaseFor));
      return Ok(Some(id));
    }

    method Heartbeat(id: Id, worker: WorkerId, now: Time, leaseFor: Time) returns (r: Result<(), InboxError>)
      modifies session`inbox
      ensures r.Ok? <==> id in old(session.inbox) && Holds(old(session.inbox)[id].lease, worker, now)
      ensures session.inbox == if r.Err? then old(session.inbox)
        else
          var row := old(session.inbox)[id];
          old(session.inbox)[id := row.(lease := Renewed(row.lease, now, leaseFor))]
    {
      if id !in session.inbox || !Holds(session.inbox[id].lease, worker, now) {
        return Err(LeaseLost);
      }
      session.inbox := Relet(session.inbox, id, Renewed(session.inbox[id].lease, now, leaseFor));
      return Ok(());
    }

    method Finish(id: Id, worker: WorkerId, now: Time) returns (r: Result<(), InboxError>)
      modifies session`inbox
      ensures r.Ok? <==> id in old(session.inbox) && Holds(old(session.inbox)[id].lease, worker, now)
      ensures session.inbox == if r.Err? then old(session.inbox)
        else
          var row := old(session.inbox)[id];
          old(session.inbox)[id := row.(lease := Released(row.lease, Final(Done), row.lease.availableAt))]
    {
      if id !in session.inbox || !Holds(session.inbox[id].lease, worker, now) {
        return Err(LeaseLost);
      }
      var lease := session.inbox[id].lease;
      session.inbox := Relet(session.inbox, id, Released(lease, Final(Done), lease.availableAt));
      return Ok(());
    }

    /** Puts the row back for a later attempt, or buries it when its attempts are used up. */
    method Fail(id: Id, worker: WorkerId, now: Time, retryAfter: Time, maxAttempts: nat)
      returns (r: Result<Phase, InboxError>)
      modifies session`inbox
      ensures r.Ok? <==> id in old(session.inbox) && Holds(old(session.inbox)[id].lease, worker, now)
      ensures r.Ok? ==> r.value == if old(session.inbox)[id].lease.attempts < maxAttempts then Pending else Final(Dead)
      ensures session.inbox == if r.Err? then old(session.inbox)
        else
          var row := old(session.inbox)[id];
          old(session.inbox)[id := row.(lease := Released(row.lease, r.value, now + retryAfter))]
    {
      if id !in session.inbox || session.inbox[id].lease.owner != Some(worker) {
        return Err(LeaseLost);
      }
      var lease := session.inbox[id].lease;
      if lease.phase != Processing || lease.until.None? || lease.until.value <= now {
        return Err(LeaseLost);
      }
      var phase := if lease.attempts >= maxAttempts then Final(Dead) else Pending;
      session.inbox := Relet(session.inbox, id, Released(lease, phase, now + retryAfter));
      return Ok(phase);
    }
  }
}
