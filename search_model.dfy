/**
  The Search service's read model: one document per auction, keyed by the
  auction's Id as text, and the document store that holds them.
*/
module SearchModel {
  import opened Contracts

  datatype Item = Item(
    id: string,
    reservePrice: int,
    seller: string,
    winner: Option<string>,
    createdAt: int,
    updatedAt: int,
    auctionEnd: int,
    make: string,
    model: string,
    year: int,
    color: string,
    mileage: int,
    imageUrl: string)

  class ItemStore {
    var items: map<string, Item>

    constructor (items: map<string, Item>)
      ensures this.items == items
    {
      this.items := items;
    }

    /** `item.SaveAsync()`: inserts the document, or replaces the one with the same Id. */
    method SaveAsync(item: Item)
      modifies this
      ensures items == old(items)[item.id := item]
    {
      items := items[item.id := item];
    }
  }
}
