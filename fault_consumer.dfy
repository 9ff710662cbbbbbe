/**
  The Auction service's handler for failed AuctionCreated deliveries. It
  looks at the first exception of the fault only: an ArgumentException is
  repaired by renaming the model to "FooBar" and publishing the message
  again; any other exception is reported and nothing is published.
*/
module AuctionConsumers {
  import opened Contracts

  const RepairedModel: string := "FooBar"

  /** The rule fires when the fault's first exception is an ArgumentException. */
  predicate Repairable(fault: Fault<AuctionCreated>) {
    |fault.exceptions| > 0 && fault.exceptions[0].exceptionType == ArgumentException
  }

  /** The message published again in place of `m`. */
  function Repaired(m: AuctionCreated): AuctionCreated {
    m.(model := RepairedModel)
  }

  /** The repair touches the model alone: every other field of the message survives. */
  lemma RepairedChangesOnlyModel(m: AuctionCreated)
    ensures var r := Repaired(m);
      && r.model == RepairedModel
      && r.id == m.id && r.seller == m.seller && r.make == m.make && r.color == m.color
      && r.year == m.year && r.mileage == m.mileage && r.auctionEnd == m.auctionEnd
      && r.reservePrice == m.reservePrice && r.createdAt == m.createdAt
      && r.updatedAt == m.updatedAt && r.imageUrl == m.imageUrl
    ensures Repaired(Repaired(m)) == Repaired(m)
  {
  }

  /** Exceptions after the first never matter, and the first is decided by its exact type name. */
  lemma RepairableReadsFirstExceptionOnly(fault: Fault<AuctionCreated>, later: seq<ExceptionInfo>)
    requires |fault.exceptions| > 0
    ensures Repairable(fault.(exceptions := [fault.exceptions[0]] + later)) == Repairable(fault)
    ensures !Repairable(fault.(exceptions := [ExceptionInfo("ArgumentException", "")] + fault.exceptions))
    ensures !Repairable(fault.(exceptions := []))
  {
  }

  class AuctionCreatedFaultConsumer {
    const bus: MessageBus

    constructor (bus: MessageBus)
      ensures this.bus == bus
    {
      this.bus := bus;
    }

    method Consume(fault: Fault<AuctionCreated>) returns (outcome: ConsumeOutcome)
      modifies bus
      ensures |fault.exceptions| == 0 ==> outcome == Threw(InvalidOperationException)
      ensures |fault.exceptions| > 0 ==> outcome == Consumed
      ensures Repairable(fault) ==> bus.published == old(bus.published) + [Created(Repaired(fault.message))]
      ensures !Repairable(fault) ==> bus.published == old(bus.published)
    {
      if |fault.exceptions| == 0 {
        // `Exceptions.First()` on an empty list
        return Threw(InvalidOperationException);
      }
      var exception := fault.exceptions[0];
      if exception.exceptionType == ArgumentException {
        var message := fault.message;
        message := message.(model := RepairedModel);
        bus.Publish(Created(message));
      }
      return Consumed;
    }
  }
}
