/**
 * The app's tables as one object whose request handlers update them in
 * place, as listing_detail and create_listing do through the ORM. Each
 * method is tied to the workflow's step function for the same action;
 * Valid() is the workflow's invariant over the current tables.
 */
module Site {
  import opened Wrappers
  import opened Models
  import opened Forms
  import opened Workflow

  class AuctionSite {
    var categories: seq<Category>
    var listings: seq<Listing>
    var bids: seq<Bid>
    var comments: seq<Comment>
    var watchlist: seq<WatchEntry>

    /** The tables as a value. */
    function Snapshot(): Db
      reads this
    {
      Db(categories, listings, bids, comments, watchlist)
    }

    ghost predicate Valid()
      reads this
    {
      Consistent(Snapshot())
    }

    /** A fresh database: the given categories, no other rows. */
    constructor (categories: seq<Category>)
      ensures Valid() && Snapshot() == EmptyDb(categories)
    {
      this.categories := categories;
      listings, bids, comments, watchlist := [], [], [], [];
    }

    /** create_listing: validate the form; if it is valid, save the new listing with its creator. */
    method CreateListing(post: ListingPost, user: UserId) returns (r: Result<ListingId, map<ListingField, FieldError>>)
      requires Valid()
      modifies this
      ensures Valid()
      ensures Created(Snapshot(), r) == CreateStep(old(Snapshot()), post, user)
    {
      CreateKeepsConsistent(Snapshot(), post, user);
      var form := ValidateListing(post, |categories|);
      if form.Failure? {
        return Failure(form.error);
      }
      var listing := NewListing(form.value.title, form.value.description, form.value.startingBid,
                                form.value.imageUrl, Some(form.value.category), user);
      r := Success(|listings|);
      listings := listings + [listing];
    }

    /** The close branch: clear is_active and save. */
    method CloseAuction(id: ListingId)
      requires Valid() && id < |listings|
      modifies this
      ensures Valid()
      ensures Snapshot() == CloseStep(old(Snapshot()), id)
    {
      CloseKeepsConsistent(Snapshot(), id);
      var listing := listings[id];
      listing := listing.(isActive := false);
      listings := listings[id := listing];
    }

    /** The accepting half of the bid branch: create the bid, then set and save the price. */
    method RecordBid(id: ListingId, user: UserId, amount: Cents)
      requires Valid() && id < |listings|
      requires 0 < amount <= MaxCents && BidAccepted(bids, id, amount)
      modifies this
      ensures Valid()
      ensures Snapshot() == BidStep(old(Snapshot()), id, user, amount)
    {
      BidKeepsConsistent(Snapshot(), id, user, amount);
      bids := bids + [Bid(id, user, amount)];
      var listing := listings[id];
      listing := listing.(currentPrice := amount);
      listings := listings[id := listing];
    }

    /** The watchlist branch: delete the user's rows for the listing, or create one. */
    method ToggleWatchlist(id: ListingId, user: UserId)
      requires Valid() && id < |listings|
      modifies this
      ensures Valid()
      ensures Snapshot() == ToggleStep(old(Snapshot()), id, user)
    {
      ToggleKeepsConsistent(Snapshot(), id, user);
      var entry := WatchEntry(user, id);
      if entry in watchlist {
        watchlist := RemoveAll(watchlist, entry);
      } else {
        watchlist := watchlist + [entry];
      }
    }

    /** The comment branch: create the comment. */
    method AddComment(id: ListingId, user: UserId, content: string)
      requires Valid() && id < |listings|
      modifies this
      ensures Valid()
      ensures Snapshot() == CommentStep(old(Snapshot()), id, user, content)
    {
      CommentKeepsConsistent(Snapshot(), id, user, content);
      comments := comments + [Comment(id, user, content)];
    }

    /** listing_detail: look the listing up, derive has_won, then dispatch a POST to the first branch that fires. */
    method ListingDetail(id: ListingId, viewer: Viewer, request: Request) returns (response: Response)
      requires Valid()
      modifies this
      ensures Valid()
      ensures Handled(Snapshot(), response) == DetailStep(old(Snapshot()), id, viewer, request)
    {
      if id >= |listings| {
        return NotFound;
      }
      var listing := listings[id];
      var highest := HighestBid(bids, id);
      var hasWon := HasWon(Snapshot(), id, viewer);
      var isWatching := viewer.SignedIn? && Watching(watchlist, viewer.user, id);
      response := Page(hasWon, isWatching, NoNotice);
      if request.Post? {
        var post := request.data;
        if post.closeAuction && viewer == SignedIn(listing.creator) {
          CloseAuction(id);
          response := Redirect;
        } else if post.placeBid {
          var form := CleanBidForm(post.bidAmount);
          if form.Success? {
            var amount := form.value;
            if highest.Some? && amount <= highest.value.amount {
              response := Page(hasWon, isWatching, BidTooLow);
            } else if viewer.Anonymous? {
              response := Raised(AnonymousWrite);
            } else {
              RecordBid(id, viewer.user, amount);
              response := Redirect;
            }
          }
        } else if post.toggleWatchlist {
          if viewer.Anonymous? {
            response := Raised(AnonymousWrite);
          } else {
            ToggleWatchlist(id, viewer.user);
            response := Redirect;
          }
        } else if post.addComment {
          if post.commentContent.None? {
            response := Raised(MissingCommentContent);
          } else if viewer.Anonymous? {
            response := Raised(AnonymousWrite);
          } else {
            AddComment(id, viewer.user, post.commentContent.value);
            response := Redirect;
          }
        }
      }
    }
  }

  // -------------------------------------------------------------------
  // The scenario of a listing submitted with a starting bid of 50.00, that
  // B opens at 100.00, that A raises to 150.00, that B fails to match, and
  // that A wins once the creator closes it.

  const Creator: UserId := 1
  const A: UserId := 2
  const B: UserId := 3

  /** The page the kite is submitted with; the client also tries to set the protected columns. */
  const KitePost: ListingPost := ListingPost(Some("Kite"), Some("A red kite"), Some(Decimal(50, 0)), None, Some(0),
                                             Some(Decimal(0, 0)), Some(false), Some(A))

  function Kite(price: Cents, active: bool): Listing {
    Listing("Kite", "A red kite", 5000, price, "", Some(0), Creator, active)
  }

  method SubmitKite() returns (site: AuctionSite)
    ensures fresh(site) && site.Valid()
    ensures site.Snapshot() == Db([Category("Toys")], [Kite(0, true)], [], [], [])
  {
    SmallPowers();
    site := new AuctionSite([Category("Toys")]);
    assert ParseMoney(Decimal(50, 0)) == Success(5000);
    var created := site.CreateListing(KitePost, Creator);
    assert created == Success(0);
  }

  method OpeningBid(site: AuctionSite)
    requires site.Valid() && site.Snapshot() == Db([Category("Toys")], [Kite(0, true)], [], [], [])
    modifies site
    ensures site.Valid()
    ensures site.Snapshot() == Db([Category("Toys")], [Kite(10000, true)], [Bid(0, B, 10000)], [], [])
  {
    SmallPowers();
    var opening := Decimal(100, 0);
    assert CleanBidForm(Some(opening)) == Success(10000);
    BidOutcome(site.Snapshot(), 0, B, Some(opening));
    var r := site.ListingDetail(0, SignedIn(B), Post(BidOnly(Some(opening))));
    assert r == Redirect;
  }

  method RaiseBid(site: AuctionSite)
    requires site.Valid() && site.Snapshot() == Db([Category("Toys")], [Kite(10000, true)], [Bid(0, B, 10000)], [], [])
    modifies site
    ensures site.Valid()
    ensures site.Snapshot() == Db([Category("Toys")], [Kite(15000, true)], [Bid(0, B, 10000), Bid(0, A, 15000)], [], [])
  {
    SmallPowers();
    var raise := Decimal(15000, 2);
    assert CleanBidForm(Some(raise)) == Success(15000);
    assert HighestBid(site.bids, 0) == Some(Bid(0, B, 10000));
    BidOutcome(site.Snapshot(), 0, A, Some(raise));
    var r := site.ListingDetail(0, SignedIn(A), Post(BidOnly(Some(raise))));
    assert r == Redirect;
  }

  method MatchingBid(site: AuctionSite)
    requires site.Valid()
    requires site.Snapshot() == Db([Category("Toys")], [Kite(15000, true)], [Bid(0, B, 10000), Bid(0, A, 15000)], [], [])
    modifies site
    ensures site.Valid() && site.Snapshot() == old(site.Snapshot())
  {
    SmallPowers();
    var matching := Decimal(150, 0);
    assert CleanBidForm(Some(matching)) == Success(15000);
    assert HighestBid(site.bids, 0) == Some(Bid(0, A, 15000));
    BidOutcome(site.Snapshot(), 0, B, Some(matching));
    var r := site.ListingDetail(0, SignedIn(B), Post(BidOnly(Some(matching))));
    assert r == Page(false, false, BidTooLow);
  }

  method CloseKite(site: AuctionSite)
    requires site.Valid()
    requires site.Snapshot() == Db([Category("Toys")], [Kite(15000, true)], [Bid(0, B, 10000), Bid(0, A, 15000)], [], [])
    modifies site
    ensures site.Valid()
    ensures site.Snapshot() == Db([Category("Toys")], [Kite(15000, false)], [Bid(0, B, 10000), Bid(0, A, 15000)], [], [])
  {
    var r := site.ListingDetail(0, SignedIn(A), Post(CloseOnly));
    assert r.Page? && site.listings[0].isActive;
    r := site.ListingDetail(0, SignedIn(Creator), Post(CloseOnly));
    assert r == Redirect && !site.listings[0].isActive;
    assert HighestBid(site.bids, 0) == Some(Bid(0, A, 15000));
    r := site.ListingDetail(0, SignedIn(A), Get);
    assert r == Page(true, false, NoNotice);
    r := site.ListingDetail(0, SignedIn(B), Get);
    assert r == Page(false, false, NoNotice);
  }

  method Scenario() {
    var site := SubmitKite();
    OpeningBid(site);
    RaiseBid(site);
    MatchingBid(site);
    CloseKite(site);
  }
}
