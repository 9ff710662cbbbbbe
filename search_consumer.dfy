/**
  The Search service's projector for AuctionCreated: it refuses a message
  whose model is exactly "Foo" by throwing an ArgumentException, and
  otherwise saves the message's fields as a document under the auction's Id.
*/
module SearchConsumers {
  import opened Contracts
  import opened SearchModel

  const RejectedModel: string := "Foo"

  /** The document a message maps to: its fields copied, no winner yet, keyed by the Id's text. */
  function ToItem(m: AuctionCreated): Item {
    Item(m.id.ToString(), m.reservePrice, m.seller, None, m.createdAt, m.updatedAt, m.auctionEnd,
         m.make, m.model, m.year, m.color, m.mileage, m.imageUrl)
  }

  /** The rejection rule; the comparison is exact and case-sensitive. */
  predicate Rejects(m: AuctionCreated) {
    ToItem(m).model == RejectedModel
  }

  /** The store after consuming `m`. */
  function Project(items: map<string, Item>, m: AuctionCreated): map<string, Item> {
    if Rejects(m) then items else items[m.id.ToString() := ToItem(m)]
  }

  /**
    What consuming a message does to the store: a rejected message leaves it
    as it was; an accepted one puts its document under its Id and touches no
    other key.
  */
  lemma ProjectEffect(items: map<string, Item>, m: AuctionCreated)
    ensures Rejects(m) <==> m.model == RejectedModel
    ensures Rejects(m) ==> Project(items, m) == items
    ensures !Rejects(m) ==>
              var key := m.id.ToString();
              && key in Project(items, m)
              && Project(items, m)[key] == ToItem(m)
              && Project(items, m)[key].model == m.model
              && Project(items, m).Keys == items.Keys + {key}
              && forall k :: k in items && k != key ==> Project(items, m)[k] == items[k]
  {
  }

  /** Delivering the same message again leaves the store as one delivery did. */
  lemma ProjectIdempotent(items: map<string, Item>, m: AuctionCreated)
    ensures Project(Project(items, m), m) == Project(items, m)
  {
  }

  /** Only the exact text "Foo" is refused: other spellings, and the repaired name, go through. */
  lemma RejectionIsExact(m: AuctionCreated)
    ensures !Rejects(m.(model := "foo"))
    ensures !Rejects(m.(model := "FooBar"))
    ensures Rejects(m.(model := "Foo"))
  {
  }

  class AuctionCreatedConsumer {
    const store: ItemStore

    constructor (store: ItemStore)
      ensures this.store == store
    {
      this.store := store;
    }

    method Consume(m: AuctionCreated) returns (outcome: ConsumeOutcome)
      modifies store
      ensures outcome == if Rejects(m) then Threw(ArgumentException) else Consumed
      ensures store.items == Project(old(store.items), m)
    {
      var item := ToItem(m);
      if item.model == RejectedModel {
        return Threw(ArgumentException);
      }
      store.SaveAsync(item);
      return Consumed;
    }
  }
}
