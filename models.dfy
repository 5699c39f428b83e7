/**
 * The entities of the auction app (auctions/models.py) as values.
 *
 * Primary keys become natural numbers; a listing's key is its position in the
 * Listing table. Money is held as a whole number of cents: every money column
 * is a DecimalField with two decimal places, so scaling by 100 is exact.
 * Timestamps are not kept; the order in which rows were inserted stands in
 * for them.
 */
module Models {
  import opened Wrappers

  type UserId = nat
  type ListingId = nat
  type CategoryId = nat

  /** An amount of money in cents. */
  type Cents = int

  /** 99,999,999.99 in cents: the largest amount a DecimalField(max_digits=10, decimal_places=2) holds. */
  const MaxCents: Cents := 9_999_999_999

  /** The amounts a money column can store (the sign is not a digit). */
  predicate FitsMoneyField(c: Cents) {
    -MaxCents <= c <= MaxCents
  }

  datatype Category = Category(name: string)

  datatype Listing = Listing(
    title: string,
    description: string,
    startingBid: Cents,
    currentPrice: Cents,
    imageUrl: string,
    category: Option<CategoryId>,   // null=True: the column may be empty
    creator: UserId,
    isActive: bool)

  datatype Bid = Bid(listing: ListingId, user: UserId, amount: Cents)

  datatype Comment = Comment(listing: ListingId, user: UserId, content: string)

  /** One Watchlist row. Nothing makes (user, listing) unique, so a pair may occur more than once. */
  datatype WatchEntry = WatchEntry(user: UserId, listing: ListingId)

  /** Who sends a request: nobody signed in, or a user. */
  datatype Viewer = Anonymous | SignedIn(user: UserId)

  /** The default of Listing.current_price. */
  const InitialPrice: Cents := 0

  /**
   * The row a new listing becomes: the fields the form supplies, the
   * submitting user as creator, and the column defaults for the rest.
   */
  function NewListing(title: string, description: string, startingBid: Cents, imageUrl: string,
                      category: Option<CategoryId>, creator: UserId): (l: Listing)
    ensures l.isActive && l.currentPrice == InitialPrice && l.creator == creator
    ensures l.title == title && l.description == description && l.startingBid == startingBid
    ensures l.imageUrl == imageUrl && l.category == category
  {
    Listing(title, description, startingBid, InitialPrice, imageUrl, category, creator, true)
  }
}
