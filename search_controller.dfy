/**
  The Search service's query rules for an empty search term: one of three
  time windows relative to `now`, optional exact seller and winner filters,
  and one of three sort orders. Text search and paging are not modelled.
*/
module SearchQueries {
  import opened Contracts
  import opened Ordering
  import opened SearchModel

  /** Six hours, in the model's time unit (seconds). */
  const SixHours: int := 6 * 60 * 60

  /** The query string; an absent parameter is `None`. */
  datatype SearchParams = SearchParams(
    orderBy: Option<string>,
    filterBy: Option<string>,
    seller: Option<string>,
    winner: Option<string>)

  /** `!string.IsNullOrEmpty(s)` */
  predicate Given(s: Option<string>) {
    s.Some? && s.value != ""
  }

  predicate InWindow(filterBy: Option<string>, now: int, it: Item) {
    if filterBy == Some("finished") then it.auctionEnd < now
    else if filterBy == Some("endingSoon") then it.auctionEnd < now + SixHours && it.auctionEnd > now
    else it.auctionEnd > now
  }

  predicate Keeps(p: SearchParams, now: int, it: Item) {
    && InWindow(p.filterBy, now, it)
    && (Given(p.seller) ==> it.seller == p.seller.value)
    && (Given(p.winner) ==> it.winner == Some(p.winner.value))
  }

  /** The items the query matches, in store order. */
  function Filter(p: SearchParams, now: int, items: seq<Item>): (r: seq<Item>)
    ensures forall it :: it in r <==> it in items && Keeps(p, now, it)
    ensures multiset(r) <= multiset(items)
  {
    if items == [] then []
    else
      assert items == [items[0]] + items[1..];
      (if Keeps(p, now, items[0]) then [items[0]] else []) + Filter(p, now, items[1..])
  }

  predicate MakeFirst(a: Item, b: Item) { StringLeq(a.make, b.make) }
  predicate NewestFirst(a: Item, b: Item) { a.createdAt >= b.createdAt }
  predicate EndingFirst(a: Item, b: Item) { a.auctionEnd <= b.auctionEnd }

  function OrderFor(orderBy: Option<string>): (Item, Item) -> bool {
    if orderBy == Some("make") then MakeFirst
    else if orderBy == Some("new") then NewestFirst
    else EndingFirst
  }

  lemma OrderForIsTotalPreorder(orderBy: Option<string>)
    ensures TotalPreorder(OrderFor(orderBy))
  {
    if orderBy == Some("make") {
      forall a: Item, b: Item ensures MakeFirst(a, b) || MakeFirst(b, a) {
        StringLeqTotal(a.make, b.make);
      }
      forall a: Item, b: Item, c: Item | MakeFirst(a, b) && MakeFirst(b, c) ensures MakeFirst(a, c) {
        StringLeqTransitive(a.make, b.make, c.make);
      }
    }
  }

  /**
    The query's result: exactly the matching items, each as often as in the
    store, ordered by Make ascending for "make", by creation time descending
    for "new", and by end time ascending otherwise.
  */
  function SearchItems(p: SearchParams, now: int, items: seq<Item>): (r: seq<Item>)
    ensures forall it :: it in r <==> it in items && Keeps(p, now, it)
    ensures multiset(r) <= multiset(items)
    ensures p.orderBy == Some("make") ==>
              forall i, j :: 0 <= i < j < |r| ==> StringLeq(r[i].make, r[j].make)
    ensures p.orderBy == Some("new") ==>
              forall i, j :: 0 <= i < j < |r| ==> r[i].createdAt >= r[j].createdAt
    ensures p.orderBy != Some("make") && p.orderBy != Some("new") ==>
              forall i, j :: 0 <= i < j < |r| ==> r[i].auctionEnd <= r[j].auctionEnd
  {
    OrderForIsTotalPreorder(p.orderBy);
    var matched := Filter(p, now, items);
    var r := Sort(OrderFor(p.orderBy), matched);
    PermutationKeepsMembers(r, matched);
    r
  }

  /** Every matching item is in the result once for each time it is in the store. */
  lemma SearchItemsKeepsMultiplicity(p: SearchParams, now: int, items: seq<Item>, it: Item)
    requires Keeps(p, now, it)
    ensures multiset(SearchItems(p, now, items))[it] == multiset(items)[it]
  {
    FilterKeepsMultiplicity(p, now, items, it);
    OrderForIsTotalPreorder(p.orderBy);
  }

  lemma {:induction false} FilterKeepsMultiplicity(p: SearchParams, now: int, items: seq<Item>, it: Item)
    requires Keeps(p, now, it)
    ensures multiset(Filter(p, now, items))[it] == multiset(items)[it]
  {
    if items != [] {
      assert items == [items[0]] + items[1..];
      FilterKeepsMultiplicity(p, now, items[1..], it);
    }
  }

  /**
    The windows: "finished" and the default window share no item,
    "endingSoon" lies inside the default window, and an auction ending
    exactly at `now` is in none of the three.
  */
  lemma WindowsRelate(now: int, it: Item, other: string)
    requires other != "finished" && other != "endingSoon"
    ensures !(InWindow(Some("finished"), now, it) && InWindow(Some(other), now, it))
    ensures InWindow(Some("endingSoon"), now, it) ==> InWindow(Some(other), now, it)
    ensures InWindow(None, now, it) == InWindow(Some(other), now, it)
    ensures it.auctionEnd == now ==>
              !InWindow(Some("finished"), now, it) && !InWindow(Some("endingSoon"), now, it)
              && !InWindow(Some(other), now, it)
  {
  }

  /** An empty seller or winner parameter narrows nothing, exactly as an absent one. */
  lemma EmptyFiltersAreAbsent(p: SearchParams, now: int, items: seq<Item>)
    ensures SearchItems(p.(seller := Some("")), now, items) == SearchItems(p.(seller := None), now, items)
    ensures SearchItems(p.(winner := Some("")), now, items) == SearchItems(p.(winner := None), now, items)
  {
    assert forall it :: Keeps(p.(seller := Some("")), now, it) == Keeps(p.(seller := None), now, it);
    assert forall it :: Keeps(p.(winner := Some("")), now, it) == Keeps(p.(winner := None), now, it);
    FilterSameWhenKeepsSame(p.(seller := Some("")), p.(seller := None), now, items);
    FilterSameWhenKeepsSame(p.(winner := Some("")), p.(winner := None), now, items);
  }

  lemma {:induction false} FilterSameWhenKeepsSame(p: SearchParams, q: SearchParams, now: int, items: seq<Item>)
    requires forall it :: Keeps(p, now, it) == Keeps(q, now, it)
    ensures Filter(p, now, items) == Filter(q, now, items)
  {
    if items != [] {
      FilterSameWhenKeepsSame(p, q, now, items[1..]);
    }
  }
}
