/** The durable object that owns the retry alarm (packages/service/src/event-delivery-durable-object.ts). */
module EventDeliveryObject {
  import opened Wrappers
  import opened EventDeliveryModel

  class EventDeliveryDurableObject {
    var order: seq<string>
    var deliveries: map<string, EventDelivery>
    var alarm: Option<int>

    function State(): Store
      reads this
    {
      Store(order, deliveries)
    }

    constructor ()
      ensures State() == Store([], map[]) && alarm.None?
    {
      order, deliveries, alarm := [], map[], None;
    }

    /** `deliverDueEvents`: lists the due deliveries once, then sends and saves them one by one. */
    method DeliverDueEvents(env: Env, now: int, limit: nat)
      modifies this`deliveries
      ensures State() == Round(old(State()), env, now, limit)
    {
      ghost var before := deliveries;
      var due := ListDue(State(), now, limit);
      for i := 0 to |due|
        invariant deliveries == DeliverListed(before, due[..i], env, now)
      {
        assert due[..i + 1][..i] == due[..i];
        deliveries := deliveries[due[i].id := Attempted(due[i], env, now)];
      }
      assert due[..|due|] == due;
    }

    method NextEventDeliveryAt() returns (next: Option<int>)
      ensures next == NextPending(order, deliveries)
    {
      next := None;
      for i := 0 to |order|
        invariant next == NextPending(order[..i], deliveries)
      {
        assert order[..i + 1][..i] == order[..i];
        if order[i] in deliveries && deliveries[order[i]].status.Pending? {
          next := Earlier(next, deliveries[order[i]].nextAttemptAt);
        }
      }
      assert order[..|order|] == order;
    }

    /** One round; afterwards the alarm is armed at the earliest pending delivery, or deleted. */
    method Run(env: Env, now: int, limit: nat)
      modifies this
      ensures State() == Round(old(State()), env, now, limit)
      ensures alarm == NextPending(order, deliveries)
    {
      DeliverDueEvents(env, now, limit);
      alarm := NextEventDeliveryAt();
    }
  }
}
