/**
 * The read-only views of auctions/views.py: the index page's active and
 * closed listings, the active listings of one category, and the listings a
 * user watches. Each is a filter over a table. None of these querysets is
 * ordered, so the order is the database's choice; the model lists listings
 * by key and the watchlist in row order.
 */
module Queries {
  import opened Wrappers
  import opened Models

  /** The look-ups the views send to the Listing table. */
  datatype ListingFilter =
    | ActiveIs(active: bool)                        // filter(is_active=...)
    | ActiveInCategory(category: CategoryId)        // filter(category=..., is_active=True)

  predicate Matches(f: ListingFilter, l: Listing) {
    match f
    case ActiveIs(active) => l.isActive == active
    case ActiveInCategory(c) => l.category == Some(c) && l.isActive
  }

  /** Each key at most once, smallest first. */
  predicate Increasing(ids: seq<ListingId>) {
    forall i, j :: 0 <= i < j < |ids| ==> ids[i] < ids[j]
  }

  /** Listing.objects.filter(...): the keys of the matching listings. */
  function FilterListings(listings: seq<Listing>, f: ListingFilter): (ids: seq<ListingId>)
    ensures forall id: ListingId :: id in ids <==> id < |listings| && Matches(f, listings[id])
    ensures forall i :: 0 <= i < |ids| ==> ids[i] < |listings|
    ensures Increasing(ids)
  {
    if listings == [] then []
    else
      var n := |listings| - 1;
      FilterListings(listings[..n], f) + (if Matches(f, listings[n]) then [n] else [])
  }

  /** The index page's active_listings. */
  function ActiveListings(listings: seq<Listing>): (ids: seq<ListingId>)
    ensures forall id: ListingId :: id in ids <==> id < |listings| && listings[id].isActive
  {
    FilterListings(listings, ActiveIs(true))
  }

  /** The index page's closed_listings. */
  function ClosedListings(listings: seq<Listing>): (ids: seq<ListingId>)
    ensures forall id: ListingId :: id in ids <==> id < |listings| && !listings[id].isActive
  {
    FilterListings(listings, ActiveIs(false))
  }

  /** The index page shows every listing exactly once: active and closed split the table. */
  lemma {:induction false} IndexPartition(listings: seq<Listing>)
    ensures forall id: ListingId :: id < |listings| <==> id in ActiveListings(listings) || id in ClosedListings(listings)
    ensures forall id :: !(id in ActiveListings(listings) && id in ClosedListings(listings))
    ensures |ActiveListings(listings)| + |ClosedListings(listings)| == |listings|
  {
    if listings != [] {
      IndexPartition(listings[..|listings| - 1]);
    }
  }

  /** category_listings: None is the 404 for a category key that does not exist. */
  function CategoryListings(categories: seq<Category>, listings: seq<Listing>, c: CategoryId): (r: Option<seq<ListingId>>)
    ensures r.None? <==> c >= |categories|
    ensures r.Some? ==> forall id :: id in r.value <==> id in ActiveListings(listings) && listings[id].category == Some(c)
  {
    if c >= |categories| then None else Some(FilterListings(listings, ActiveInCategory(c)))
  }

  /**
   * watchlist_view: the listing of every Watchlist row of the user, in row
   * order; a listing on two rows appears twice.
   */
  function WatchedListings(watchlist: seq<WatchEntry>, user: UserId): (ids: seq<ListingId>)
    ensures forall id :: multiset(ids)[id] == multiset(watchlist)[WatchEntry(user, id)]
    ensures forall id :: id in ids <==> WatchEntry(user, id) in watchlist
  {
    if watchlist == [] then []
    else
      var n := |watchlist| - 1;
      assert watchlist == watchlist[..n] + [watchlist[n]];
      WatchedListings(watchlist[..n], user) + (if watchlist[n].user == user then [watchlist[n].listing] else [])
  }
}
