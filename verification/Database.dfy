/** A database session: the committed rows and the rows as the session sees them. */
module Database {
  import opened Common
  import opened Store

  class Session {
    var committed: Store
    var working: Store

    constructor (s: Store)
      ensures committed == s && Clean()
    {
      committed, working := s, s;
    }

    /** No change is waiting to be committed. */
    ghost predicate Clean()
      reads this
    {
      working == committed
    }

    method Commit()
      modifies this
      ensures committed == old(working) && Clean()
    {
      committed := working;
    }

    method Rollback()
      modifies this
      ensures committed == old(committed) && Clean()
    {
      working := committed;
    }

    /** Other processes have committed, and this session sees their rows. */
    method Observe(s: Store)
      modifies this
      ensures committed == s && Clean()
    {
      committed, working := s, s;
    }

    /**
     * Adds the deliveries of one event to the session, one for each enabled
     * endpoint of the intent's merchant.
     */
    method EnqueueDeliveries(id: IntentId, event: EventType, occurredAt: int, dbNow: int, ids: seq<DeliveryId>)
      returns (ok: bool)
      requires id in working.intents
      modifies this`working
      ensures
        var before := old(working);
        var targets := ListEnabledEndpoints(before, before.intents[id].merchant);
        var after := Enqueue(before, id, event, occurredAt, dbNow, targets, ids);
        ok == after.Some? && (ok ==> working == after.value)
    {
      var targets := ListEnabledEndpoints(working, working.intents[id].merchant);
      var i := 0;
      while i < |targets|
        invariant 0 <= i <= |targets|
        invariant id in working.intents && working.intents == old(working.intents)
        invariant Enqueue(old(working), id, event, occurredAt, dbNow, targets[..i], ids) == Some(working)
      {
        EnqueueStep(old(working), id, event, occurredAt, dbNow, targets, ids, i, working);
        if i >= |ids| || ids[i] in working.deliveries {
          EnqueueStuck(old(working), id, event, occurredAt, dbNow, targets, ids, i + 1);
          return false;
        }
        var row := NewDelivery(id, working.intents[id], event, occurredAt, dbNow, targets[i]);
        working := AddDelivery(working, ids[i], row, targets[i]);
        i := i + 1;
      }
      assert targets[..|targets|] == targets;
      return true;
    }
  }

  /** The fan-out to one more target. */
  lemma EnqueueStep(s: Store, id: IntentId, event: EventType, occurredAt: int, dbNow: int,
                    targets: seq<EndpointId>, ids: seq<DeliveryId>, i: nat, t: Store)
    requires id in s.intents && i < |targets|
    requires Enqueue(s, id, event, occurredAt, dbNow, targets[..i], ids) == Some(t)
    ensures Enqueue(s, id, event, occurredAt, dbNow, targets[..i + 1], ids)
         == if i < |ids| && ids[i] !in t.deliveries then
              Some(AddDelivery(t, ids[i], NewDelivery(id, s.intents[id], event, occurredAt, dbNow, targets[i]),
                               targets[i]))
            else None
  {
    assert targets[..i + 1][..i] == targets[..i];
  }

  /** Once an id is refused, the whole fan-out is. */
  lemma {:induction false} EnqueueStuck(s: Store, id: IntentId, event: EventType, occurredAt: int, dbNow: int,
                                        targets: seq<EndpointId>, ids: seq<DeliveryId>, n: nat)
    requires id in s.intents && n <= |targets|
    requires Enqueue(s, id, event, occurredAt, dbNow, targets[..n], ids).None?
    ensures Enqueue(s, id, event, occurredAt, dbNow, targets, ids).None?
  {
    if n == |targets| {
      assert targets[..n] == targets;
    } else {
      var k := |targets| - 1;
      assert targets[..k][..n] == targets[..n];
      EnqueueStuck(s, id, event, occurredAt, dbNow, targets[..k], ids, n);
    }
  }
}
