# Carsties auction core, modelled in Dafny

This project models the core of a two-service car auction marketplace.

The **Auction service** owns the auctions. Its controller reads, creates, updates and deletes them through a repository over a database context. Each write publishes an event (AuctionCreated, AuctionUpdated, AuctionDeleted). The event goes into a transactional outbox registered on the same context. The table change and the event are committed by one save, or not at all.

The **Search service** keeps a read model. Its AuctionCreated consumer refuses a message whose model is exactly `"Foo"` by throwing an ArgumentException; otherwise it upserts a document keyed by the auction's Id. The broker turns such a failure into a `Fault<AuctionCreated>`. The Auction service's fault consumer repairs it (model becomes `"FooBar"`) when the first exception is an ArgumentException, and publishes it again. The search controller filters items by a time window, seller and winner, and sorts them by one of three keys.

Modules, one per source component:

- `Contracts` (contracts.dfy): the messages, the fault envelope, and a bus that records what was published.
- `Ordering` (ordering.dfy): ordinal string order and an insertion sort proved correct for any total preorder.
- `AuctionData` (auction_data.dfy): the entities, the database context as a unit of work, the outbox publish endpoint and the repository.
- `AuctionControllers` (auctions_controller.dfy): the controller as a class over the repository and the publish endpoint.
- `AuctionConsumers` (fault_consumer.dfy): the fault repair rule and its consumer.
- `SearchModel`, `SearchConsumers`, `SearchQueries` (search_model.dfy, search_consumer.dfy, search_controller.dfy): the search document, its store, the projector and the query rules.
- `RepairScenario` (repair_scenario.dfy): the reject, repair and accept round trip across both services.

Modelling choices:

- **Unit of work.** The database context holds the committed table `auctions` and the committed `outbox`. It also holds `tracked`, the change tracker's view of the table, and `pending`, the messages published since the last save.
- **Database reply.** `written` is the number of entries the database reports for a save. It is a parameter. A save with `written > 0` commits `tracked` and `pending` together. With `written == 0` nothing is written, and the unit of work is dropped with the request's scoped context.
- **Fresh state per action.** Every controller action starts and ends with no open unit of work (`Clean()`). Lookups read the committed table, since they are database queries.
- **Parameters for the unseen parts.** The acting user's name, the key generated for a new auction, and the creation time `now` are parameters.
- **Time.** Times are integer seconds. The search query reads one `now`.
- **Update.** `UpdateAuction` assigns only the five item fields (AuctionsController.cs:111-115). `UpdatedAt` therefore stays as it was. The design intends timestamps to advance on every mutation, but the model follows the code.

## Model

| member | source | states |
|---|---|---|
| `AuctionControllers.AuctionsController.GetAuctionById` | src/AuctionService/Controllers/AuctionsController.cs:62-69 | NotFound exactly when no stored auction has the Id; otherwise that auction's flattened view |
| `AuctionControllers.AuctionsController.CreateAuction` | src/AuctionService/Controllers/AuctionsController.cs:73-98 | the seller is the acting user. A save that writes commits the insert and exactly one AuctionCreated built from the new auction, answers CreatedAt("GetAuctionById"), and the auction can then be looked up. A save that writes nothing answers BadRequest and commits neither the row nor the event |
| `AuctionControllers.AuctionsController.UpdateAuction` | src/AuctionService/Controllers/AuctionsController.cs:102-125 | unknown Id gives NotFound and a user other than the seller gives Forbid, both with no table change and no event. Otherwise only that auction's item changes, by the field-wise merge, and the AuctionUpdated committed with it carries the merged values. Ok or BadRequest follows the save |
| `AuctionControllers.AuctionsController.DeleteAuction` | src/AuctionService/Controllers/AuctionsController.cs:129-148 | NotFound and Forbid as for update. A successful save removes exactly that auction, commits AuctionDeleted with the Id's text, leaves the Id unfindable and answers Ok. A failed save changes nothing and answers BadRequest |
| `AuctionControllers.MergeItemFieldwise` | src/AuctionService/Controllers/AuctionsController.cs:111-115 | each of Make, Model, Color, Mileage and Year takes the request's value when present and keeps the old one when absent; the image is untouched |
| `AuctionControllers.MergeItemIdempotent` | src/AuctionService/Controllers/AuctionsController.cs:111-115 | applying the same update request twice equals applying it once |
| `AuctionControllers.MergeItemExtremes` | src/AuctionService/Controllers/AuctionsController.cs:111-115 | an empty request keeps the item; a request with every field decides the merged item regardless of the old values |
| `AuctionControllers.NewAuctionIsOwnedByUser` | src/AuctionService/Controllers/AuctionsController.cs:75-88 | the new auction, its view and its AuctionCreated all name the acting user as seller |
| `AuctionData.AuctionDbContext.SaveChanges` | src/AuctionService/Program.cs:27-32 | the staged outbox messages are committed with the table changes and only with them. Afterwards no unit of work is open |
| `AuctionData.PublishEndpoint.Publish` | src/AuctionService/Program.cs:27-32 | publishing only stages a message in the context's unit of work; the committed table and outbox are untouched |
| `AuctionData.AuctionRepository.AddAuction` | src/AuctionService/Data/AuctionRepository.cs:20-23 | the added auction is tracked under its Id and nothing else changes |
| `AuctionData.AuctionRepository.RemoveAuction` | src/AuctionService/Data/AuctionRepository.cs:56-59 | the auction's Id is no longer tracked and every other tracked auction is unchanged |
| `AuctionData.AuctionRepository.SaveChangesAsync` | src/AuctionService/Data/AuctionRepository.cs:61-64 | true exactly when the database wrote more than 0 entries; on true the tracked table and staged messages are committed, on false nothing is |
| `AuctionData.AuctionRepository.GetAuctionEntityById` | src/AuctionService/Data/AuctionRepository.cs:49-54 | null exactly when no stored auction has the Id; otherwise a stored auction with that Id |
| `AuctionData.AuctionRepository.GetAuctionByIdAsync` | src/AuctionService/Data/AuctionRepository.cs:42-47 | null exactly when no stored auction has the Id; otherwise the flattened view of a stored auction with that Id |
| `AuctionData.AuctionRepository.GetAuctionsAsync` | src/AuctionService/Data/AuctionRepository.cs:25-40 | every stored auction whose UpdatedAt is strictly later than the date, or every auction when there is no date, each once and nothing else, ordered ascending by Make |
| `AuctionData.MakeLeqIsTotalPreorder` | src/AuctionService/Data/AuctionRepository.cs:28 | ordering by Make compares every pair and is transitive, so the sort is well defined |
| `Ordering.Sort` | src/AuctionService/Data/AuctionRepository.cs:28 | the result is ordered by the key and is a permutation of the input |
| `Ordering.StringLeqTotal` | src/SearchService/Controllers/SearchController.cs:32 | any two makes are comparable |
| `Ordering.StringLeqTransitive` | src/SearchService/Controllers/SearchController.cs:32 | the order on makes chains |
| `AuctionConsumers.AuctionCreatedFaultConsumer.Consume` | src/AuctionService/Consumers/AuctionCreatedFaultConsumer.cs:10-28 | an empty exception list makes `First()` throw. If the first exception's type is exactly System.ArgumentException, exactly one message is published: the original with Model "FooBar". For any other type nothing is published |
| `AuctionConsumers.RepairedChangesOnlyModel` | src/AuctionService/Consumers/AuctionCreatedFaultConsumer.cs:20-22 | the republished message differs from the failed one in Model only |
| `AuctionConsumers.RepairableReadsFirstExceptionOnly` | src/AuctionService/Consumers/AuctionCreatedFaultConsumer.cs:14-17 | exceptions after the first never change the decision; the type name must match exactly; an empty list is never repaired |
| `SearchConsumers.AuctionCreatedConsumer.Consume` | src/SearchService/Consumers/AuctionCreatedConsumer.cs:16-28 | Model exactly "Foo" throws ArgumentException and leaves the store unchanged; any other message is stored under its Id |
| `SearchConsumers.ProjectEffect` | src/SearchService/Consumers/AuctionCreatedConsumer.cs:20-27 | an accepted message puts a document copied from it under its Id and changes no other key; a rejected one changes nothing |
| `SearchConsumers.ProjectIdempotent` | src/SearchService/Consumers/AuctionCreatedConsumer.cs:27 | consuming the same message twice leaves the store as consuming it once |
| `SearchConsumers.RejectionIsExact` | src/SearchService/Consumers/AuctionCreatedConsumer.cs:25 | "Foo" is refused; "foo" and "FooBar" are accepted |
| `RepairScenario.RejectionIsRepairedAndAccepted` | src/SearchService/Consumers/AuctionCreatedConsumer.cs:25-27 | the projector's exception is the type the fault rule repairs; the repaired message is accepted and ends up stored |
| `RepairScenario.RejectRepairAccept` | src/AuctionService/Consumers/AuctionCreatedFaultConsumer.cs:14-22 | end to end: the first delivery throws ArgumentException, one repaired message is republished, its delivery is consumed, and the store holds the "FooBar" document under the Id with every other key unchanged |
| `SearchQueries.Filter` | src/SearchService/Controllers/SearchController.cs:38-56 | keeps exactly the items in the window that match the given seller and winner, and never adds an item |
| `SearchQueries.SearchItems` | src/SearchService/Controllers/SearchController.cs:21-56 | exactly the matching items and a sub-multiset of the input. "make" sorts ascending by Make, "new" descending by CreatedAt, anything else ascending by AuctionEnd |
| `SearchQueries.SearchItemsKeepsMultiplicity` | src/SearchService/Controllers/SearchController.cs:38-56 | a matching item appears as often in the result as in the store, so the result is a permutation of the matches |
| `SearchQueries.OrderForIsTotalPreorder` | src/SearchService/Controllers/SearchController.cs:30-35 | each of the three sort orders is total and transitive |
| `SearchQueries.WindowsRelate` | src/SearchService/Controllers/SearchController.cs:38-44 | "finished" and the default window are disjoint; "endingSoon" lies inside the default window; null behaves as any other value; an auction ending exactly now is in none |
| `SearchQueries.EmptyFiltersAreAbsent` | src/SearchService/Controllers/SearchController.cs:47-56 | an empty seller or winner gives the same result as an absent one |

## Left out

- Outbox dispatcher, broker delivery, redelivery and retries: the 10-second dispatcher (src/AuctionService/Program.cs:29) and the broker belong to the messaging library. The model stops at the committed outbox and the published sequence.
- Search-side handling of AuctionUpdated and AuctionDeleted: no consumer for them is part of this model.
- Full-text search, score sort, paging, page count and total count (src/SearchService/Controllers/SearchController.cs:24-27, 60-71): these belong to the document-store library. The query rules are modelled for an empty search term.
- `GetAllActions` (src/AuctionService/Controllers/AuctionsController.cs:34-59) only forwards to `GetAuctionsAsync`, which is modelled.
- Request validation: a create request missing a required field is refused before the action runs. The create request here has every field.
- Authentication: the acting user's name is a parameter.
- Date parsing and time zones (src/AuctionService/Data/AuctionRepository.cs:36): the date arrives as an integer timestamp, or as none for a null or empty string. Each search reads the clock once, as `now`.
- String collation: Make is ordered by ordinal character order, not by the database's collation. Ties between equal sort keys are broken in the model's own way; the source leaves that order to the database.
- Object mapping: AutoMapper profiles are plain field copies (`ToDto`, `CreatedOf`, `UpdatedOf`, `ToItem`). The message contract classes and entity classes are not part of this model. Their fields follow the messages' wire shapes.
- Key generation: a new auction's Id is a parameter that is not yet in the table. The store's key generation is not part of this model.
- `AuctionData.AuctionDbContext.SaveChanges`: the count the database reports is a parameter. The model does not tie it to the number of staged changes.
- Concurrency and async: every operation runs sequentially.
- The search-side catch-up client (src/SearchService/Services/AuctionSvcHttpClient.cs) is HTTP and document-store I/O and is not part of this model. Its URL is built as `"?date" + value` without `=`, so the date filter above never receives a date from it.
- The frontend auction card is UI rendering.
