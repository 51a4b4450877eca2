/** The periodic clean-up of what settled queue rows say. */
module Retention {
  import opened Basics
  import opened Leases
  import opened OutboxRows
  import opened Database

  class RetentionMaintenance {
    const session: Session
    const retention: Time

    constructor (session: Session, retention: Time)
      requires retention > 0
      ensures this.session == session && this.retention == retention
    {
      this.session, this.retention := session, retention;
    }

    /** Overwrites the text of every delivery that has been over for longer than the retention, and counts them. */
    method RedactExpired(now: Time) returns (redacted: nat)
      modifies session`outbox
      ensures session.outbox == Redacted(old(session.outbox), now - retention)
      ensures session.outbox.Keys == old(session.outbox).Keys
      ensures forall id :: id in session.outbox ==>
        var row, phase := old(session.outbox)[id], old(session.outbox)[id].lease.phase;
        session.outbox[id] ==
          if row.lease.availableAt < now - retention && phase.Final?
             && phase.verdict in {Sent, Unreachable, Verdict.Failed, Dead, DeliveryUnknown, Verdict.Superseded}
          then row.(content := row.content.(text := REDACTED)) else row
      ensures redacted == |set id | id in old(session.outbox) && session.outbox[id] != old(session.outbox)[id]|
      ensures forall id :: id in session.outbox ==> !Expires(session.outbox[id], now - retention)
      ensures UniqueDeliveries(old(session.outbox)) ==> UniqueDeliveries(session.outbox)
    {
      var before := now - retention;
      var expired := set id | id in session.outbox && Expires(session.outbox[id], before);
      RedactionKeepsUnique(session.outbox, before);
      RedactedSays(session.outbox, before);
      session.outbox := Redacted(session.outbox, before);
      redacted := |expired|;
      assert expired == set id | id in old(session.outbox) && session.outbox[id] != old(session.outbox)[id];
    }
  }

  lemma RedactionKeepsUnique(outbox: Outbox, before: Time)
    ensures UniqueDeliveries(outbox) ==> UniqueDeliveries(Redacted(outbox, before))
  {
    if UniqueDeliveries(outbox) {
      var u := Redacted(outbox, before);
      forall i, j | i in u && j in u && i != j ensures !SameDelivery(u[i], u[j]) {
        assert !SameDelivery(outbox[i], outbox[j]);
      }
    }
  }
}
