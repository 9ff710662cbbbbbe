/**
  The Auction service's store: the auction entities, the database context
  that holds both the Auctions table and the transactional outbox, and the
  repository the controller goes through.

  The context is a unit of work. `tracked` is the Auctions set as the change
  tracker sees it and `pending` the outbox messages published since the last
  save; `auctions` and `outbox` are what the database holds. A save writes
  both or neither, which is what registering the outbox on the same context
  provides.
*/
module AuctionData {
  import opened Contracts
  import opened Ordering

  datatype Item = Item(
    make: string,
    model: string,
    year: int,
    color: string,
    mileage: int,
    imageUrl: string)

  datatype Auction = Auction(
    id: Guid,
    reservePrice: int,
    seller: string,
    createdAt: int,
    updatedAt: int,
    auctionEnd: int,
    item: Item)

  /** The flattened view of an auction the API returns. */
  datatype AuctionDto = AuctionDto(
    id: Guid,
    reservePrice: int,
    seller: string,
    createdAt: int,
    updatedAt: int,
    auctionEnd: int,
    make: string,
    model: string,
    year: int,
    color: string,
    mileage: int,
    imageUrl: string)

  function ToDto(a: Auction): AuctionDto {
    AuctionDto(a.id, a.reservePrice, a.seller, a.createdAt, a.updatedAt, a.auctionEnd,
               a.item.make, a.item.model, a.item.year, a.item.color, a.item.mileage, a.item.imageUrl)
  }

  /** Every row is stored under its own Id. */
  ghost predicate Keyed(table: map<Guid, Auction>) {
    forall id :: id in table ==> table[id].id == id
  }

  /** The `date` filter: no date (null or empty) keeps every auction, a date keeps strictly later updates. */
  predicate UpdatedAfter(date: Option<int>, a: AuctionDto) {
    date.None? || a.updatedAt > date.value
  }

  predicate MakeLeq(a: AuctionDto, b: AuctionDto) {
    StringLeq(a.make, b.make)
  }

  lemma MakeLeqIsTotalPreorder()
    ensures TotalPreorder(MakeLeq)
  {
    forall a: AuctionDto, b: AuctionDto ensures MakeLeq(a, b) || MakeLeq(b, a) {
      StringLeqTotal(a.make, b.make);
    }
    forall a: AuctionDto, b: AuctionDto, c: AuctionDto | MakeLeq(a, b) && MakeLeq(b, c)
      ensures MakeLeq(a, c)
    {
      StringLeqTransitive(a.make, b.make, c.make);
    }
  }

  class AuctionDbContext {
    var auctions: map<Guid, Auction>
    var outbox: seq<Event>
    var tracked: map<Guid, Auction>
    var pending: seq<Event>

    ghost predicate Valid()
      reads this
    {
      Keyed(auctions) && Keyed(tracked)
    }

    /** No unit of work is open: nothing tracked differs from the database and nothing is staged. */
    predicate Clean()
      reads this
    {
      tracked == auctions && pending == []
    }

    constructor (rows: map<Guid, Auction>)
      requires Keyed(rows)
      ensures Valid() && Clean()
      ensures auctions == rows && outbox == []
    {
      auctions, outbox := rows, [];
      tracked, pending := rows, [];
    }

    /**
      Writes the unit of work. `written` is the number of entries the
      database reports as written; when it is 0 nothing was written and the
      unit of work is dropped with the request's context.
    */
    method SaveChanges(written: nat) returns (count: nat)
      requires Valid()
      modifies this
      ensures Valid() && Clean() && count == written
      ensures written > 0 ==> auctions == old(tracked) && outbox == old(outbox) + old(pending)
      ensures written == 0 ==> auctions == old(auctions) && outbox == old(outbox)
    {
      if written > 0 {
        auctions, outbox := tracked, outbox + pending;
      }
      tracked, pending := auctions, [];
      count := written;
    }
  }

  /** The bus outbox: publishing adds a message to the context's unit of work, never to the broker. */
  class PublishEndpoint {
    const context: AuctionDbContext

    constructor (context: AuctionDbContext)
      ensures this.context == context
    {
      this.context := context;
    }

    method Publish(e: Event)
      modifies context
      ensures context.pending == old(context.pending) + [e]
      ensures context.auctions == old(context.auctions) && context.outbox == old(context.outbox)
      ensures context.tracked == old(context.tracked)
    {
      context.pending := context.pending + [e];
    }
  }

  class AuctionRepository {
    const context: AuctionDbContext

    constructor (context: AuctionDbContext)
      ensures this.context == context
    {
      this.context := context;
    }

    /** Starts tracking `a` as added; `a.Id` is a freshly generated key. */
    method AddAuction(a: Auction)
      requires context.Valid() && a.id !in context.tracked
      modifies context
      ensures context.Valid()
      ensures context.tracked == old(context.tracked)[a.id := a]
      ensures a.id in context.tracked && context.tracked[a.id] == a
      ensures context.auctions == old(context.auctions) && context.outbox == old(context.outbox)
      ensures context.pending == old(context.pending)
    {
      context.tracked := context.tracked[a.id := a];
    }

    /** Marks `a` as deleted; every other tracked auction stays as it was. */
    method RemoveAuction(a: Auction)
      requires context.Valid()
      modifies context
      ensures context.Valid()
      ensures context.tracked == old(context.tracked) - {a.id}
      ensures a.id !in context.tracked
      ensures forall id :: id in old(context.tracked) && id != a.id ==>
                id in context.tracked && context.tracked[id] == old(context.tracked)[id]
      ensures context.auctions == old(context.auctions) && context.outbox == old(context.outbox)
      ensures context.pending == old(context.pending)
    {
      context.tracked := context.tracked - {a.id};
    }

    /** True exactly when the database wrote at least one entry. */
    method SaveChangesAsync(written: nat) returns (ok: bool)
      requires context.Valid()
      modifies context
      ensures ok <==> written > 0
      ensures context.Valid() && context.Clean()
      ensures ok ==> context.auctions == old(context.tracked) &&
                     context.outbox == old(context.outbox) + old(context.pending)
      ensures !ok ==> context.auctions == old(context.auctions) && context.outbox == old(context.outbox)
    {
      var count := context.SaveChanges(written);
      ok := count > 0;
    }

    /** The entity whose Id is `id`, or nothing when no stored auction has that Id. */
    function GetAuctionEntityById(id: Guid): (r: Option<Auction>)
      requires context.Valid()
      reads context
      ensures r.None? <==> forall a :: a in context.auctions.Values ==> a.id != id
      ensures r.Some? ==> r.value.id == id && r.value in context.auctions.Values
    {
      if id in context.auctions then
        assert context.auctions[id] in context.auctions.Values;
        Some(context.auctions[id])
      else None
    }

    /** The same lookup, projected to the API's flattened view. */
    function GetAuctionByIdAsync(id: Guid): (r: Option<AuctionDto>)
      requires context.Valid()
      reads context
      ensures r.None? <==> forall a :: a in context.auctions.Values ==> a.id != id
      ensures r.Some? ==> r.value.id == id && exists a :: a in context.auctions.Values && r.value == ToDto(a)
    {
      match GetAuctionEntityById(id)
      case None => None
      case Some(a) => Some(ToDto(a))
    }

    /**
      Every stored auction updated strictly after `date` (all of them when
      there is no date), once each, ordered by Make.
    */
    method GetAuctionsAsync(date: Option<int>) returns (r: seq<AuctionDto>)
      requires context.Valid()
      ensures SortedBy(MakeLeq, r)
      ensures forall d :: d in r ==> d.id in context.auctions && d == ToDto(context.auctions[d.id]) && UpdatedAfter(date, d)
      ensures forall id :: id in context.auctions && UpdatedAfter(date, ToDto(context.auctions[id])) ==>
                ToDto(context.auctions[id]) in r
      ensures forall d :: multiset(r)[d] <= 1
    {
      var table := context.auctions;
      var keys := table.Keys;
      var found: seq<AuctionDto> := [];
      while keys != {}
        invariant keys <= table.Keys
        invariant forall d :: d in found ==> d.id in table && d.id !in keys && d == ToDto(table[d.id]) && UpdatedAfter(date, d)
        invariant forall id :: id in table && id !in keys && UpdatedAfter(date, ToDto(table[id])) ==> ToDto(table[id]) in found
        invariant forall d :: multiset(found)[d] <= 1
        decreases keys
      {
        var k :| k in keys;
        keys := keys - {k};
        var d := ToDto(table[k]);
        if UpdatedAfter(date, d) {
          assert d !in found;
          found := found + [d];
        }
      }
      MakeLeqIsTotalPreorder();
      r := Sort(MakeLeq, found);
      PermutationKeepsMembers(r, found);
    }
  }
}
