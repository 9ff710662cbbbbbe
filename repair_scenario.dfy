/**
  The two consumers together: an AuctionCreated the Search service refuses
  comes back to the Auction service as a fault, is repaired and published
  again, and the repaired message is stored by the Search service.
*/
module RepairScenario {
  import opened Contracts
  import opened SearchModel
  import opened SearchConsumers
  import opened AuctionConsumers

  /** The exception the projector throws is the one the fault rule repairs, and the repair is accepted. */
  lemma RejectionIsRepairedAndAccepted(items: map<string, Item>, m: AuctionCreated, text: string)
    requires Rejects(m)
    ensures Repairable(FaultOf(m, ArgumentException, text))
    ensures !Rejects(Repaired(m))
    ensures Project(Project(items, m), Repaired(m)) == items[m.id.ToString() := ToItem(Repaired(m))]
    ensures ToItem(Repaired(m)).model == RepairedModel
  {
  }

  /**
    Runs the scenario on fresh consumers over a store holding `initial`:
    the first delivery throws an ArgumentException and leaves the store as
    it was; the fault consumer publishes exactly one repaired message; its
    delivery is accepted and the store ends with the repaired document under
    the auction's Id.
  */
  method RejectRepairAccept(initial: map<string, Item>, m: AuctionCreated)
    returns (first: ConsumeOutcome, republished: seq<Event>, last: ConsumeOutcome, stored: map<string, Item>)
    requires m.model == RejectedModel
    ensures first == Threw(ArgumentException)
    ensures republished == [Created(m.(model := RepairedModel))]
    ensures last == Consumed
    ensures stored == initial[m.id.ToString() := ToItem(m.(model := RepairedModel))]
  {
    var store := new ItemStore(initial);
    var projector := new AuctionCreatedConsumer(store);
    var bus := new MessageBus();
    var faultConsumer := new AuctionCreatedFaultConsumer(bus);

    first := projector.Consume(m);
    assert store.items == initial;

    var fault := FaultOf(m, first.exceptionType, "Cannot sell cars with name of Foo");
    var handled := faultConsumer.Consume(fault);
    republished := bus.published;

    var repaired := republished[0].created;
    last := projector.Consume(repaired);
    stored := store.items;
  }
}
