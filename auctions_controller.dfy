/**
  The Auction service's write path: read one auction, create, update and
  delete. The acting user's name is a parameter (authentication is not part
  of the model), and so is the database's reply to the save (`written`, the
  number of entries it wrote). Every action starts with no open unit of
  work and ends with none: a successful save commits the table change and
  the outbox message together, a failed one commits neither.
*/
module AuctionControllers {
  import opened Contracts
  import opened AuctionData

  datatype CreateAuctionDto = CreateAuctionDto(
    make: string,
    model: string,
    year: int,
    color: string,
    mileage: int,
    imageUrl: string,
    reservePrice: int,
    auctionEnd: int)

  /** Each field is optional: an absent field keeps the auction's current value. */
  datatype UpdateAuctionDto = UpdateAuctionDto(
    make: Option<string>,
    model: Option<string>,
    color: Option<string>,
    mileage: Option<int>,
    year: Option<int>)

  datatype ActionResult =
    | NotFound
    | Forbid
    | BadRequest(message: string)
    | Ok
    | Value(auction: AuctionDto)
    | CreatedAt(actionName: string, id: Guid, auction: AuctionDto)

  /** The entity built from a create request: the seller is the acting user, timestamps are `now`. */
  function NewAuction(dto: CreateAuctionDto, user: string, id: Guid, now: int): Auction {
    Auction(id, dto.reservePrice, user, now, now, dto.auctionEnd,
            Item(dto.make, dto.model, dto.year, dto.color, dto.mileage, dto.imageUrl))
  }

  lemma NewAuctionIsOwnedByUser(dto: CreateAuctionDto, user: string, id: Guid, now: int)
    ensures NewAuction(dto, user, id, now).seller == user
    ensures ToDto(NewAuction(dto, user, id, now)).seller == user
    ensures CreatedOf(ToDto(NewAuction(dto, user, id, now))).seller == user
  {
  }

  function CreatedOf(d: AuctionDto): AuctionCreated {
    AuctionCreated(d.id, d.reservePrice, d.seller, d.createdAt, d.updatedAt, d.auctionEnd,
                   d.make, d.model, d.year, d.color, d.mileage, d.imageUrl)
  }

  function UpdatedOf(a: Auction): AuctionUpdated {
    AuctionUpdated(a.id, a.item.make, a.item.model, a.item.year, a.item.color, a.item.mileage)
  }

  /** The item after an update request: field by field, the request's value when present, else the old one. */
  function MergeItem(item: Item, dto: UpdateAuctionDto): Item {
    item.(make := dto.make.GetOr(item.make),
          model := dto.model.GetOr(item.model),
          color := dto.color.GetOr(item.color),
          mileage := dto.mileage.GetOr(item.mileage),
          year := dto.year.GetOr(item.year))
  }

  /** A present field replaces the old value, an absent one keeps it, and the image is never touched. */
  lemma MergeItemFieldwise(item: Item, dto: UpdateAuctionDto)
    ensures var r := MergeItem(item, dto);
      && (if dto.make.Some? then r.make == dto.make.value else r.make == item.make)
      && (if dto.model.Some? then r.model == dto.model.value else r.model == item.model)
      && (if dto.color.Some? then r.color == dto.color.value else r.color == item.color)
      && (if dto.mileage.Some? then r.mileage == dto.mileage.value else r.mileage == item.mileage)
      && (if dto.year.Some? then r.year == dto.year.value else r.year == item.year)
      && r.imageUrl == item.imageUrl
  {
  }

  /** Merging the same request twice changes nothing more than merging it once. */
  lemma MergeItemIdempotent(item: Item, dto: UpdateAuctionDto)
    ensures MergeItem(MergeItem(item, dto), dto) == MergeItem(item, dto)
  {
  }

  /** A request with no fields leaves the item as it is; a request with every field decides the item alone. */
  lemma MergeItemExtremes(item: Item, other: Item, dto: UpdateAuctionDto)
    ensures dto == UpdateAuctionDto(None, None, None, None, None) ==> MergeItem(item, dto) == item
    ensures dto.make.Some? && dto.model.Some? && dto.color.Some? && dto.mileage.Some? && dto.year.Some?
            && item.imageUrl == other.imageUrl
            ==> MergeItem(item, dto) == MergeItem(other, dto)
  {
  }

  /** The auction after an authorized update: only the item changes. */
  function Merged(a: Auction, dto: UpdateAuctionDto): Auction {
    a.(item := MergeItem(a.item, dto))
  }

  class AuctionsController {
    const repo: AuctionRepository
    const publishEndpoint: PublishEndpoint

    ghost predicate Valid()
      reads repo.context
    {
      publishEndpoint.context == repo.context && repo.context.Valid()
    }

    constructor (repo: AuctionRepository, publishEndpoint: PublishEndpoint)
      requires publishEndpoint.context == repo.context
      ensures this.repo == repo && this.publishEndpoint == publishEndpoint
    {
      this.repo := repo;
      this.publishEndpoint := publishEndpoint;
    }

    method GetAuctionById(id: Guid) returns (r: ActionResult)
      requires Valid()
      ensures id !in repo.context.auctions <==> r == NotFound
      ensures id in repo.context.auctions ==> r == Value(ToDto(repo.context.auctions[id]))
    {
      var auction := repo.GetAuctionByIdAsync(id);
      if auction.None? {
        return NotFound;
      }
      assert repo.context.auctions[id] in repo.context.auctions.Values;
      return Value(auction.value);
    }

    /**
      Inserts the new auction and stages its AuctionCreated message in one
      unit of work. `id` is the key the store generates for the insert.
    */
    method CreateAuction(dto: CreateAuctionDto, user: string, id: Guid, now: int, written: nat)
      returns (r: ActionResult)
      requires Valid() && repo.context.Clean() && id !in repo.context.auctions
      modifies repo.context
      ensures Valid() && repo.context.Clean()
      ensures var a := NewAuction(dto, user, id, now);
              written > 0 ==>
                && r == CreatedAt("GetAuctionById", id, ToDto(a))
                && repo.context.auctions == old(repo.context.auctions)[id := a]
                && repo.context.outbox == old(repo.context.outbox) + [Created(CreatedOf(ToDto(a)))]
                && repo.GetAuctionEntityById(id) == Some(a)
      ensures written == 0 ==>
                && r == BadRequest("Could not save changes to the DB")
                && repo.context.auctions == old(repo.context.auctions)
                && repo.context.outbox == old(repo.context.outbox)
    {
      var auction := NewAuction(dto, user, id, now);
      repo.AddAuction(auction);
      var newAuction := ToDto(auction);
      publishEndpoint.Publish(Created(CreatedOf(newAuction)));
      var result := repo.SaveChangesAsync(written);
      if !result {
        return BadRequest("Could not save changes to the DB");
      }
      return CreatedAt("GetAuctionById", auction.id, newAuction);
    }

    /**
      Lets the seller change the item's descriptive fields and stages an
      AuctionUpdated message carrying the merged values.
    */
    method UpdateAuction(id: Guid, dto: UpdateAuctionDto, user: string, written: nat)
      returns (r: ActionResult)
      requires Valid() && repo.context.Clean()
      modifies repo.context
      ensures Valid() && repo.context.Clean()
      ensures id !in old(repo.context.auctions) ==>
                r == NotFound && unchanged(repo.context)
      ensures id in old(repo.context.auctions) && old(repo.context.auctions)[id].seller != user ==>
                r == Forbid && unchanged(repo.context)
      ensures id in old(repo.context.auctions) && old(repo.context.auctions)[id].seller == user ==>
                var merged := Merged(old(repo.context.auctions)[id], dto);
                && (written > 0 ==>
                      && r == Ok
                      && repo.context.auctions == old(repo.context.auctions)[id := merged]
                      && repo.context.outbox == old(repo.context.outbox) + [Updated(UpdatedOf(merged))])
                && (written == 0 ==>
                      && r == BadRequest("Problem saving changes")
                      && repo.context.auctions == old(repo.context.auctions)
                      && repo.context.outbox == old(repo.context.outbox))
    {
      var found := repo.GetAuctionEntityById(id);
      if found.None? {
        return NotFound;
      }
      var auction := found.value;
      if auction.seller != user {
        return Forbid;
      }
      // The entity is tracked: assigning its item's fields is a change the next save writes.
      var item := auction.item;
      item := item.(make := dto.make.GetOr(item.make));
      item := item.(model := dto.model.GetOr(item.model));
      item := item.(color := dto.color.GetOr(item.color));
      item := item.(mileage := dto.mileage.GetOr(item.mileage));
      item := item.(year := dto.year.GetOr(item.year));
      auction := auction.(item := item);
      repo.context.tracked := repo.context.tracked[id := auction];
      publishEndpoint.Publish(Updated(UpdatedOf(auction)));
      var result := repo.SaveChangesAsync(written);
      if result {
        return Ok;
      }
      return BadRequest("Problem saving changes");
    }

    /** Lets the seller remove the auction and stages an AuctionDeleted message with its Id as text. */
    method DeleteAuction(id: Guid, user: string, written: nat) returns (r: ActionResult)
      requires Valid() && repo.context.Clean()
      modifies repo.context
      ensures Valid() && repo.context.Clean()
      ensures id !in old(repo.context.auctions) ==>
                r == NotFound && unchanged(repo.context)
      ensures id in old(repo.context.auctions) && old(repo.context.auctions)[id].seller != user ==>
                r == Forbid && unchanged(repo.context)
      ensures id in old(repo.context.auctions) && old(repo.context.auctions)[id].seller == user ==>
                && (written > 0 ==>
                      && r == Ok
                      && repo.context.auctions == old(repo.context.auctions) - {id}
                      && repo.context.outbox == old(repo.context.outbox) + [Deleted(AuctionDeleted(id.ToString()))]
                      && repo.GetAuctionEntityById(id) == None)
                && (written == 0 ==>
                      && r == BadRequest("could not update DB")
                      && repo.context.auctions == old(repo.context.auctions)
                      && repo.context.outbox == old(repo.context.outbox))
    {
      var found := repo.GetAuctionEntityById(id);
      if found.None? {
        return NotFound;
      }
      var auction := found.value;
      if auction.seller != user {
        return Forbid;
      }
      repo.RemoveAuction(auction);
      publishEndpoint.Publish(Deleted(AuctionDeleted(auction.id.ToString())));
      var result := repo.SaveChangesAsync(written);
      if !result {
        return BadRequest("could not update DB");
      }
      return Ok;
    }
  }
}
