/**
  The messages exchanged between the Auction service and the Search service
  over the message bus, and the bus itself as seen by a publisher.
  Field sets follow the wire shapes of the AuctionCreated, AuctionUpdated,
  AuctionDeleted and Fault<AuctionCreated> messages; times are integer
  timestamps (seconds), the only clock in the model.
*/
module Contracts {

  datatype Option<+T> = None | Some(value: T) {
    function GetOr(default: T): T {
      match this
      case Some(v) => v
      case None => default
    }
  }

  /** An auction identifier, kept in its canonical textual form. */
  datatype Guid = Guid(text: string) {
    /** `Guid.ToString()`: the canonical text, one text per identifier. */
    function ToString(): string { text }
  }

  datatype AuctionCreated = AuctionCreated(
    id: Guid,
    reservePrice: int,
    seller: string,
    createdAt: int,
    updatedAt: int,
    auctionEnd: int,
    make: string,
    model: string,
    year: int,
    color: string,
    mileage: int,
    imageUrl: string)

  datatype AuctionUpdated = AuctionUpdated(
    id: Guid,
    make: string,
    model: string,
    year: int,
    color: string,
    mileage: int)

  /** Built in place from `new { Id = auction.Id.ToString() }`: the Id travels as text. */
  datatype AuctionDeleted = AuctionDeleted(id: string)

  datatype Event =
    | Created(created: AuctionCreated)
    | Updated(updated: AuctionUpdated)
    | Deleted(deleted: AuctionDeleted)

  /** One entry of a fault's exception list; only the type name is inspected. */
  datatype ExceptionInfo = ExceptionInfo(exceptionType: string, message: string)

  /** What the bus delivers to a fault consumer after a consumer of `T` threw. */
  datatype Fault<T> = Fault(message: T, exceptions: seq<ExceptionInfo>)

  /** How a consumer's `Consume` ended: normally, or by throwing an exception of the named type. */
  datatype ConsumeOutcome = Consumed | Threw(exceptionType: string)

  const ArgumentException: string := "System.ArgumentException"
  /** What `Enumerable.First()` throws on an empty sequence. */
  const InvalidOperationException: string := "System.InvalidOperationException"

  /** The fault the bus routes to the fault queue when consuming `msg` threw `exceptionType`. */
  function FaultOf<T>(msg: T, exceptionType: string, text: string): (f: Fault<T>)
    ensures f.message == msg && |f.exceptions| == 1
    ensures f.exceptions[0].exceptionType == exceptionType
  {
    Fault(msg, [ExceptionInfo(exceptionType, text)])
  }

  /** A publish endpoint that hands messages straight to the broker, in publication order. */
  class MessageBus {
    var published: seq<Event>

    constructor ()
      ensures published == []
    {
      published := [];
    }

    method Publish(e: Event)
      modifies this
      ensures published == old(published) + [e]
    {
      published := published + [e];
    }
  }
}
