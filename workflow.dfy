/**
 * The bidding and closing workflow of listing_detail (auctions/views.py),
 * taken out of the request handler and stated over the store it reads and
 * writes: the Category, Listing, Bid, Comment and Watchlist tables, each a
 * sequence of rows in insertion order.
 *
 * The step functions say what each action does to the store; DetailStep is
 * the whole POST dispatcher; Consistent is the invariant that every reachable
 * store satisfies, in particular that a listing's bids rise strictly and its
 * current price is its latest bid.
 */
module Workflow {
  import opened Wrappers
  import opened Models
  import opened Forms

  datatype Db = Db(
    categories: seq<Category>,
    listings: seq<Listing>,   // a listing's key is its index
    bids: seq<Bid>,
    comments: seq<Comment>,
    watchlist: seq<WatchEntry>)

  /** A store with its categories and no other rows. */
  function EmptyDb(categories: seq<Category>): Db {
    Db(categories, [], [], [], [])
  }

  // ---------------------------------------------------------------------
  // Bids of a listing

  /** Bid.objects.filter(listing=id), oldest first. */
  function ListingBids(bids: seq<Bid>, id: ListingId): (s: seq<Bid>)
    ensures forall b :: b in s <==> b in bids && b.listing == id
    ensures |s| <= |bids|
  {
    if bids == [] then []
    else
      var n := |bids| - 1;
      assert bids == bids[..n] + [bids[n]];
      ListingBids(bids[..n], id) + (if bids[n].listing == id then [bids[n]] else [])
  }

  /** ListingBids keeps every bid on the listing as often as the table holds it, and no other bid. */
  lemma {:induction false} ListingBidsCounts(bids: seq<Bid>, id: ListingId)
    ensures forall b :: multiset(ListingBids(bids, id))[b] == if b.listing == id then multiset(bids)[b] else 0
  {
    if bids != [] {
      var n := |bids| - 1;
      assert bids == bids[..n] + [bids[n]];
      ListingBidsCounts(bids[..n], id);
    }
  }

  /** ListingBids keeps table order: appending a row to the table appends it to its listing's bids only. */
  lemma ListingBidsAppend(bids: seq<Bid>, b: Bid, id: ListingId)
    ensures ListingBids(bids + [b], id) == ListingBids(bids, id) + (if b.listing == id then [b] else [])
  {
    assert (bids + [b])[..|bids|] == bids;
  }

  /** bids.first() under order_by('-timestamp'): the latest bid on the listing, if there is one. */
  function HighestBid(bids: seq<Bid>, id: ListingId): (h: Option<Bid>)
    ensures h.None? <==> forall b :: b in bids ==> b.listing != id
    ensures h.Some? ==> h.value in bids && h.value.listing == id
  {
    var s := ListingBids(bids, id);
    if s == [] then None
    else
      assert s[|s| - 1] in s;
      Some(s[|s| - 1])
  }

  /** The bid HighestBid picks is the listing's last row in the Bid table; k is its position. */
  lemma {:induction false} HighestBidIsLatest(bids: seq<Bid>, id: ListingId) returns (k: nat)
    requires HighestBid(bids, id).Some?
    ensures k < |bids| && bids[k] == HighestBid(bids, id).value
    ensures forall j :: k < j < |bids| ==> bids[j].listing != id
  {
    var n := |bids| - 1;
    var prefix := bids[..n];
    assert bids == prefix + [bids[n]];
    if bids[n].listing == id {
      k := n;
    } else {
      assert ListingBids(bids, id) == ListingBids(prefix, id);
      assert HighestBid(bids, id) == HighestBid(prefix, id);
      k := HighestBidIsLatest(prefix, id);
      assert bids[k] == prefix[k];
      forall j | k < j < |bids|
        ensures bids[j].listing != id
      {
        if j < n {
          assert bids[j] == prefix[j];
        }
      }
    }
  }

  /** views.py:116: a bid is refused when a bid exists and the amount does not exceed it; nothing else is consulted. */
  predicate BidAccepted(bids: seq<Bid>, id: ListingId, amount: Cents): (ok: bool)
    ensures (forall b :: b in bids ==> b.listing != id) ==> ok
    ensures !ok ==> exists b :: b in bids && b.listing == id && amount <= b.amount
  {
    match HighestBid(bids, id)
    case None => true
    case Some(latest) => amount > latest.amount
  }

  /** Strictly rising amounts, in insertion order. */
  predicate Rising(s: seq<Bid>) {
    forall k :: 0 <= k < |s| - 1 ==> s[k].amount < s[k + 1].amount
  }

  lemma {:induction false} RisingEndsHighest(s: seq<Bid>, k: nat)
    requires Rising(s) && k < |s|
    ensures s[k].amount <= s[|s| - 1].amount
    decreases |s| - k
  {
    if k < |s| - 1 {
      RisingEndsHighest(s, k + 1);
    }
  }

  /** A listing's price is 0 before its first bid and its latest bid's amount after. */
  predicate PriceTracksBids(l: Listing, s: seq<Bid>) {
    && Rising(s)
    && l.currentPrice == (if s == [] then InitialPrice else s[|s| - 1].amount)
  }

  /** The invariant every store reached through this workflow satisfies. */
  predicate Consistent(db: Db) {
    && (forall l :: l in db.listings ==>
          0 < l.startingBid <= MaxCents && (l.category.Some? ==> l.category.value < |db.categories|))
    && (forall b :: b in db.bids ==> b.listing < |db.listings| && 0 < b.amount <= MaxCents)
    && (forall c :: c in db.comments ==> c.listing < |db.listings|)
    && (forall w :: w in db.watchlist ==> w.listing < |db.listings|)
    && (forall id: ListingId :: id < |db.listings| ==> PriceTracksBids(db.listings[id], ListingBids(db.bids, id)))
  }

  /** In a consistent store the latest bid is also the largest, and it is the current price. */
  lemma CurrentPriceIsHighestBid(db: Db, id: ListingId)
    requires Consistent(db) && id < |db.listings|
    ensures forall b :: b in db.bids && b.listing == id ==> b.amount <= db.listings[id].currentPrice
    ensures HighestBid(db.bids, id).Some? ==> HighestBid(db.bids, id).value.amount == db.listings[id].currentPrice
  {
    var s := ListingBids(db.bids, id);
    assert PriceTracksBids(db.listings[id], s);
    forall b | b in db.bids && b.listing == id
      ensures b.amount <= db.listings[id].currentPrice
    {
      assert b in s;
      var k :| 0 <= k < |s| && s[k] == b;
      RisingEndsHighest(s, k);
    }
  }

  // ---------------------------------------------------------------------
  // The actions

  /** listing.is_active = False; listing.save() */
  function CloseStep(db: Db, id: ListingId): (r: Db)
    requires id < |db.listings|
    ensures |r.listings| == |db.listings| && !r.listings[id].isActive
    ensures r.listings[id] == db.listings[id].(isActive := false)
    ensures forall k :: 0 <= k < |db.listings| && k != id ==> r.listings[k] == db.listings[k]
    ensures r.categories == db.categories && r.bids == db.bids && r.comments == db.comments && r.watchlist == db.watchlist
  {
    db.(listings := db.listings[id := db.listings[id].(isActive := false)])
  }

  /** Closing is not guarded against repetition, and repeating it changes nothing. */
  lemma CloseIdempotent(db: Db, id: ListingId)
    requires id < |db.listings|
    ensures !db.listings[id].isActive ==> CloseStep(db, id) == db
    ensures CloseStep(CloseStep(db, id), id) == CloseStep(db, id)
  {
  }

  /** Bid.objects.create(listing, user, amount); listing.current_price = amount; listing.save() */
  function BidStep(db: Db, id: ListingId, user: UserId, amount: Cents): (r: Db)
    requires id < |db.listings|
    ensures r.bids == db.bids + [Bid(id, user, amount)]
    ensures forall k :: ListingBids(r.bids, k) == ListingBids(db.bids, k) + (if k == id then [Bid(id, user, amount)] else [])
    ensures HighestBid(r.bids, id) == Some(Bid(id, user, amount))
    ensures |r.listings| == |db.listings| && r.listings[id] == db.listings[id].(currentPrice := amount)
    ensures forall k :: 0 <= k < |db.listings| && k != id ==> r.listings[k] == db.listings[k]
    ensures r.categories == db.categories && r.comments == db.comments && r.watchlist == db.watchlist
  {
    var bids := db.bids + [Bid(id, user, amount)];
    assert bids[..|db.bids|] == db.bids;
    db.(bids := bids, listings := db.listings[id := db.listings[id].(currentPrice := amount)])
  }

  /** Filter(user, listing).delete(): every row of the pair goes, the others stay. */
  function RemoveAll(watchlist: seq<WatchEntry>, e: WatchEntry): (r: seq<WatchEntry>)
    ensures multiset(r) == multiset(watchlist)[e := 0]
  {
    if watchlist == [] then []
    else
      var n := |watchlist| - 1;
      assert watchlist == watchlist[..n] + [watchlist[n]];
      RemoveAll(watchlist[..n], e) + (if watchlist[n] == e then [] else [watchlist[n]])
  }

  lemma {:induction false} RemoveAbsent(watchlist: seq<WatchEntry>, e: WatchEntry)
    requires e !in watchlist
    ensures RemoveAll(watchlist, e) == watchlist
  {
    if watchlist != [] {
      var n := |watchlist| - 1;
      assert watchlist == watchlist[..n] + [watchlist[n]];
      RemoveAbsent(watchlist[..n], e);
    }
  }

  /** Watchlist.objects.filter(user=..., listing=...).exists(): is_watching. */
  predicate Watching(watchlist: seq<WatchEntry>, user: UserId, id: ListingId) {
    WatchEntry(user, id) in watchlist
  }

  /** views.py:137-140: delete every row of the pair if there is one, else create one. */
  function ToggleWatch(watchlist: seq<WatchEntry>, e: WatchEntry): (r: seq<WatchEntry>)
    ensures multiset(r)[e] == if e in watchlist then 0 else 1
    ensures forall x :: x != e ==> multiset(r)[x] == multiset(watchlist)[x]
  {
    if e in watchlist then RemoveAll(watchlist, e) else watchlist + [e]
  }

  /** Toggling twice restores whether the pair is watched, and every other row's count. */
  lemma ToggleTwice(watchlist: seq<WatchEntry>, e: WatchEntry)
    ensures (e in ToggleWatch(ToggleWatch(watchlist, e), e)) == (e in watchlist)
    ensures forall x :: x != e ==> multiset(ToggleWatch(ToggleWatch(watchlist, e), e))[x] == multiset(watchlist)[x]
    ensures e !in watchlist ==> ToggleWatch(ToggleWatch(watchlist, e), e) == watchlist
  {
    var once := ToggleWatch(watchlist, e);
    var twice := ToggleWatch(once, e);
    if e !in watchlist {
      assert once == watchlist + [e];
      assert once[..|watchlist|] == watchlist;
      RemoveAbsent(watchlist, e);
      assert twice == RemoveAll(once, e) == RemoveAll(watchlist, e);
    } else {
      assert multiset(once)[e] == 0;
      assert e !in once;
      assert twice == once + [e];
      assert e in twice;
      forall x | x != e
        ensures multiset(twice)[x] == multiset(watchlist)[x]
      {
        assert multiset(twice)[x] == multiset(once)[x];
      }
    }
  }

  function ToggleStep(db: Db, id: ListingId, user: UserId): (r: Db)
    ensures Watching(r.watchlist, user, id) == !Watching(db.watchlist, user, id)
    ensures forall x :: x != WatchEntry(user, id) ==> multiset(r.watchlist)[x] == multiset(db.watchlist)[x]
    ensures r.categories == db.categories && r.listings == db.listings && r.bids == db.bids && r.comments == db.comments
  {
    var r := db.(watchlist := ToggleWatch(db.watchlist, WatchEntry(user, id)));
    assert WatchEntry(user, id) in r.watchlist <==> multiset(r.watchlist)[WatchEntry(user, id)] > 0;
    r
  }

  /** Comment.objects.create(listing, user, content) */
  function CommentStep(db: Db, id: ListingId, user: UserId, content: string): (r: Db)
    ensures r.comments == db.comments + [Comment(id, user, content)]
    ensures r.categories == db.categories && r.listings == db.listings && r.bids == db.bids && r.watchlist == db.watchlist
  {
    db.(comments := db.comments + [Comment(id, user, content)])
  }

  // ---------------------------------------------------------------------
  // The request handler

  /** The keys a POST to the detail page may carry; None is a missing value. */
  datatype PostData = PostData(
    closeAuction: bool,
    placeBid: bool,
    bidAmount: Option<Decimal>,
    toggleWatchlist: bool,
    addComment: bool,
    commentContent: Option<string>)

  /** Get stands for every method other than POST: views.py:104 handles them all as a plain page view. */
  datatype Request = Get | Post(data: PostData)

  const BidTooLowMessage: string := "Your bid needs to be higher than the current highest bid."

  datatype Notice = NoNotice | BidTooLow

  /** Why a request raised instead of answering: the row could not be created, or a key was missing. */
  datatype Fault = AnonymousWrite | MissingCommentContent

  datatype Response =
    | NotFound
    | Redirect
    | Page(hasWon: bool, isWatching: bool, notice: Notice)
    | Raised(fault: Fault)

  datatype Handled = Handled(db: Db, response: Response)

  /** views.py:100: the viewer won if the auction is over and the latest bid is theirs. */
  function HasWon(db: Db, id: ListingId, viewer: Viewer): (won: bool)
    requires id < |db.listings|
    ensures won ==> !db.listings[id].isActive && viewer.SignedIn?
    ensures won ==> exists b :: b in db.bids && b.listing == id && b.user == viewer.user
  {
    var latest := HighestBid(db.bids, id);
    !db.listings[id].isActive && latest.Some? && viewer.SignedIn? && latest.value.user == viewer.user
  }

  /** A winner's bid is the largest on the listing and is its current price. */
  lemma WinnerHoldsHighestBid(db: Db, id: ListingId, viewer: Viewer)
    requires Consistent(db) && id < |db.listings| && HasWon(db, id, viewer)
    ensures !db.listings[id].isActive
    ensures Bid(id, viewer.user, db.listings[id].currentPrice) in db.bids
    ensures forall b :: b in db.bids && b.listing == id ==> b.amount <= db.listings[id].currentPrice
  {
    CurrentPriceIsHighestBid(db, id);
  }

  /** has_won holds exactly when the listing is closed and the signed-in viewer owns its last row in the Bid table. */
  lemma HasWonIffLatestBidder(db: Db, id: ListingId, viewer: Viewer)
    requires id < |db.listings|
    ensures HasWon(db, id, viewer) <==>
      && !db.listings[id].isActive && viewer.SignedIn?
      && exists k :: 0 <= k < |db.bids| && db.bids[k].listing == id && db.bids[k].user == viewer.user
                     && forall j :: k < j < |db.bids| ==> db.bids[j].listing != id
  {
    var bids := db.bids;
    if HighestBid(bids, id).Some? {
      var k := HighestBidIsLatest(bids, id);
      forall k' | 0 <= k' < |bids| && bids[k'].listing == id && (forall j :: k' < j < |bids| ==> bids[j].listing != id)
        ensures bids[k'] == bids[k]
      {
        assert !(k < k') && !(k' < k);
      }
    } else {
      forall k' | 0 <= k' < |bids|
        ensures bids[k'].listing != id
      {
        assert bids[k'] in bids;
      }
    }
  }

  /** At most one viewer has won a listing. */
  lemma WinnerIsUnique(db: Db, id: ListingId, a: Viewer, b: Viewer)
    requires id < |db.listings| && HasWon(db, id, a) && HasWon(db, id, b)
    ensures a == b
  {
  }

  /** listing_detail(request, id): the page's data, and for a POST the branch that fires. */
  function DetailStep(db: Db, id: ListingId, viewer: Viewer, request: Request): (h: Handled)
    ensures h.response.NotFound? <==> id >= |db.listings|
    ensures h.response != Redirect ==> h.db == db
    ensures request.Get? ==> h.db == db && (h.response.Page? || h.response.NotFound?)
    ensures |h.db.listings| == |db.listings| && h.db.categories == db.categories
  {
    if id >= |db.listings| then Handled(db, NotFound)
    else
      var listing := db.listings[id];
      var hasWon := HasWon(db, id, viewer);
      var isWatching := viewer.SignedIn? && Watching(db.watchlist, viewer.user, id);
      var page := Page(hasWon, isWatching, NoNotice);
      if request.Get? then Handled(db, page)
      else
        var post := request.data;
        if post.closeAuction && viewer == SignedIn(listing.creator) then
          Handled(CloseStep(db, id), Redirect)
        else if post.placeBid then
          match CleanBidForm(post.bidAmount)
          case Failure(_) => Handled(db, page)
          case Success(amount) =>
            if !BidAccepted(db.bids, id, amount) then Handled(db, Page(hasWon, isWatching, BidTooLow))
            else if viewer.Anonymous? then Handled(db, Raised(AnonymousWrite))
            else Handled(BidStep(db, id, viewer.user, amount), Redirect)
        else if post.toggleWatchlist then
          if viewer.Anonymous? then Handled(db, Raised(AnonymousWrite))
          else Handled(ToggleStep(db, id, viewer.user), Redirect)
        else if post.addComment then
          match post.commentContent
          case None => Handled(db, Raised(MissingCommentContent))
          case Some(content) =>
            if viewer.Anonymous? then Handled(db, Raised(AnonymousWrite))
            else Handled(CommentStep(db, id, viewer.user, content), Redirect)
        else Handled(db, page)
  }

  /** A POST that carries only close_auction. */
  const CloseOnly: PostData := PostData(true, false, None, false, false, None)

  /** A POST that carries only place_bid and its amount. */
  function BidOnly(amount: Option<Decimal>): PostData {
    PostData(false, true, amount, false, false, None)
  }

  /** views.py:106-108: the creator's close request clears is_active and changes nothing else. */
  lemma CreatorCloses(db: Db, id: ListingId, post: PostData)
    requires id < |db.listings| && post.closeAuction
    ensures DetailStep(db, id, SignedIn(db.listings[id].creator), Post(post)) == Handled(CloseStep(db, id), Redirect)
  {
  }

  /** Anyone else's close request matches no branch: the page is shown and the store is untouched. */
  lemma OthersCannotClose(db: Db, id: ListingId, viewer: Viewer)
    requires id < |db.listings| && viewer != SignedIn(db.listings[id].creator)
    ensures DetailStep(db, id, viewer, Post(CloseOnly)).db == db
    ensures DetailStep(db, id, viewer, Post(CloseOnly)).response.Page?
  {
  }

  /** Whatever the request, is_active changes only by the creator's close, and only from true to false. */
  lemma OnlyCreatorClears(db: Db, id: ListingId, viewer: Viewer, request: Request, k: ListingId)
    requires k < |db.listings|
    ensures DetailStep(db, id, viewer, request).db.listings[k].isActive != db.listings[k].isActive ==>
              && k == id && request.Post? && request.data.closeAuction
              && viewer == SignedIn(db.listings[id].creator)
              && db.listings[k].isActive && !DetailStep(db, id, viewer, request).db.listings[k].isActive
  {
  }

  /**
   * views.py:114-133: a valid bid from a signed-in user is taken iff the
   * listing has no bid yet or the amount beats the latest bid; taken, it adds
   * exactly that bid and sets the price; refused, nothing changes.
   */
  lemma BidOutcome(db: Db, id: ListingId, user: UserId, raw: Option<Decimal>)
    requires id < |db.listings| && CleanBidForm(raw).Success?
    ensures var amount := CleanBidForm(raw).value;
            var h := DetailStep(db, id, SignedIn(user), Post(BidOnly(raw)));
            && (h.response == Redirect <==> HighestBid(db.bids, id).None? || amount > HighestBid(db.bids, id).value.amount)
            && (h.response == Redirect ==> h.db == BidStep(db, id, user, amount))
            && (h.response != Redirect ==> h.db == db && h.response.Page? && h.response.notice == BidTooLow)
  {
  }

  /** The first bid beats nothing: it is taken whatever the starting bid, and on a closed listing too. */
  lemma FirstBidTaken(db: Db, id: ListingId, user: UserId, raw: Option<Decimal>)
    requires id < |db.listings| && CleanBidForm(raw).Success? && ListingBids(db.bids, id) == []
    ensures DetailStep(db, id, SignedIn(user), Post(BidOnly(raw))).response == Redirect
  {
  }

  /** A bid the form refuses leaves the store alone and shows the page without a message. */
  lemma InvalidBidIgnored(db: Db, id: ListingId, viewer: Viewer, raw: Option<Decimal>)
    requires id < |db.listings| && CleanBidForm(raw).Failure?
    ensures DetailStep(db, id, viewer, Post(BidOnly(raw))) == Handled(db, Page(HasWon(db, id, viewer), viewer.SignedIn? && Watching(db.watchlist, viewer.user, id), NoNotice))
  {
  }

  /** has_won is computed before the POST is acted on: every page shows the winner of the store as it was. */
  lemma PageShowsPriorWinner(db: Db, id: ListingId, viewer: Viewer, request: Request)
    requires id < |db.listings|
    ensures DetailStep(db, id, viewer, request).response.Page? ==>
              DetailStep(db, id, viewer, request).response.hasWon == HasWon(db, id, viewer)
  {
  }

  /** In a consistent store, beating the latest bid is beating every bid on the listing. */
  lemma BidAcceptedBeatsAll(db: Db, id: ListingId, amount: Cents)
    requires Consistent(db) && id < |db.listings|
    ensures BidAccepted(db.bids, id, amount) <==> forall b :: b in db.bids && b.listing == id ==> b.amount < amount
  {
    CurrentPriceIsHighestBid(db, id);
  }

  /** Only an accepted bid writes a price, and it never moves the price down. */
  lemma PriceNeverFalls(db: Db, id: ListingId, viewer: Viewer, request: Request, k: ListingId)
    requires Consistent(db) && k < |db.listings|
    ensures k < |DetailStep(db, id, viewer, request).db.listings|
    ensures DetailStep(db, id, viewer, request).db.listings[k].currentPrice >= db.listings[k].currentPrice
  {
    var h := DetailStep(db, id, viewer, request);
    if id < |db.listings| && request.Post? {
      var post := request.data;
      if post.closeAuction && viewer == SignedIn(db.listings[id].creator) {
        assert h.db == CloseStep(db, id);
      } else if post.placeBid {
        var form := CleanBidForm(post.bidAmount);
        if form.Success? && BidAccepted(db.bids, id, form.value) && viewer.SignedIn? {
          assert h.db == BidStep(db, id, viewer.user, form.value);
          if k == id {
            assert PriceTracksBids(db.listings[id], ListingBids(db.bids, id));
            CurrentPriceIsHighestBid(db, id);
          }
        } else {
          assert h.db == db;
        }
      }
    }
  }

  // ---------------------------------------------------------------------
  // The invariant is kept

  lemma CloseKeepsConsistent(db: Db, id: ListingId)
    requires Consistent(db) && id < |db.listings|
    ensures Consistent(CloseStep(db, id))
  {
    var r := CloseStep(db, id);
    forall l | l in r.listings
      ensures 0 < l.startingBid <= MaxCents && (l.category.Some? ==> l.category.value < |r.categories|)
    {
      var k :| 0 <= k < |r.listings| && r.listings[k] == l;
      assert db.listings[k] in db.listings;
    }
    forall k: ListingId | k < |r.listings|
      ensures PriceTracksBids(r.listings[k], ListingBids(r.bids, k))
    {
      assert PriceTracksBids(db.listings[k], ListingBids(db.bids, k));
    }
  }

  lemma RiseExtends(s: seq<Bid>, b: Bid)
    requires Rising(s) && (s != [] ==> s[|s| - 1].amount < b.amount)
    ensures Rising(s + [b])
  {
  }

  lemma BidKeepsConsistent(db: Db, id: ListingId, user: UserId, amount: Cents)
    requires Consistent(db) && id < |db.listings|
    requires 0 < amount <= MaxCents && BidAccepted(db.bids, id, amount)
    ensures Consistent(BidStep(db, id, user, amount))
  {
    var r := BidStep(db, id, user, amount);
    var bid := Bid(id, user, amount);
    forall l | l in r.listings
      ensures 0 < l.startingBid <= MaxCents && (l.category.Some? ==> l.category.value < |r.categories|)
    {
      var k :| 0 <= k < |r.listings| && r.listings[k] == l;
      assert db.listings[k] in db.listings;
    }
    forall x | x in r.bids
      ensures x.listing < |r.listings| && 0 < x.amount <= MaxCents
    {
      assert x in db.bids || x == bid;
    }
    forall k: ListingId | k < |r.listings|
      ensures PriceTracksBids(r.listings[k], ListingBids(r.bids, k))
    {
      assert PriceTracksBids(db.listings[k], ListingBids(db.bids, k));
      if k == id {
        var s := ListingBids(db.bids, id);
        assert ListingBids(r.bids, k) == s + [bid];
        assert s != [] ==> HighestBid(db.bids, id) == Some(s[|s| - 1]);
        RiseExtends(s, bid);
      } else {
        assert r.listings[k] == db.listings[k];
        assert ListingBids(r.bids, k) == ListingBids(db.bids, k);
      }
    }
  }

  lemma ToggleKeepsConsistent(db: Db, id: ListingId, user: UserId)
    requires Consistent(db) && id < |db.listings|
    ensures Consistent(ToggleStep(db, id, user))
  {
    var r := ToggleStep(db, id, user);
    forall w | w in r.watchlist
      ensures w.listing < |r.listings|
    {
      if w != WatchEntry(user, id) {
        assert multiset(db.watchlist)[w] == multiset(r.watchlist)[w];
      }
    }
  }

  lemma CommentKeepsConsistent(db: Db, id: ListingId, user: UserId, content: string)
    requires Consistent(db) && id < |db.listings|
    ensures Consistent(CommentStep(db, id, user, content))
  {
  }

  lemma DetailKeepsConsistent(db: Db, id: ListingId, viewer: Viewer, request: Request)
    requires Consistent(db)
    ensures Consistent(DetailStep(db, id, viewer, request).db)
  {
    if id < |db.listings| && request.Post? {
      var post := request.data;
      if post.closeAuction && viewer == SignedIn(db.listings[id].creator) {
        CloseKeepsConsistent(db, id);
      } else if post.placeBid {
        var form := CleanBidForm(post.bidAmount);
        if form.Success? && BidAccepted(db.bids, id, form.value) && viewer.SignedIn? {
          BidKeepsConsistent(db, id, viewer.user, form.value);
        }
      } else if post.toggleWatchlist {
        if viewer.SignedIn? {
          ToggleKeepsConsistent(db, id, viewer.user);
        }
      } else if post.addComment && post.commentContent.Some? && viewer.SignedIn? {
        CommentKeepsConsistent(db, id, viewer.user, post.commentContent.value);
      }
    }
  }

  // ---------------------------------------------------------------------
  // Creating a listing

  datatype Created = Created(db: Db, result: Result<ListingId, map<ListingField, FieldError>>)

  /**
   * create_listing's POST: a valid form becomes a new row, owned by the
   * submitting user, open, at price 0, whatever the client sent for those
   * columns; an invalid one changes nothing.
   */
  function CreateStep(db: Db, post: ListingPost, user: UserId): (c: Created)
    ensures c.result.Success? <==> ValidateListing(post, |db.categories|).Success?
    ensures c.result.Failure? ==> c.db == db && c.result.error == ValidateListing(post, |db.categories|).error
    ensures c.result.Success? ==>
      var form := ValidateListing(post, |db.categories|).value;
      && c.result.value == |db.listings|
      && c.db.listings == db.listings + [Listing(form.title, form.description, form.startingBid, 0,
                                                 form.imageUrl, Some(form.category), user, true)]
      && c.db.categories == db.categories && c.db.bids == db.bids
      && c.db.comments == db.comments && c.db.watchlist == db.watchlist
  {
    match ValidateListing(post, |db.categories|)
    case Failure(errors) => Created(db, Failure(errors))
    case Success(form) =>
      var listing := NewListing(form.title, form.description, form.startingBid, form.imageUrl, Some(form.category), user);
      Created(db.(listings := db.listings + [listing]), Success(|db.listings|))
  }

  lemma {:induction false} NoBidsBeyond(bids: seq<Bid>, n: ListingId)
    requires forall b :: b in bids ==> b.listing < n
    ensures ListingBids(bids, n) == []
  {
    if bids != [] {
      var last := |bids| - 1;
      assert bids[last] in bids;
      NoBidsBeyond(bids[..last], n);
    }
  }

  lemma CreateKeepsConsistent(db: Db, post: ListingPost, user: UserId)
    requires Consistent(db)
    ensures Consistent(CreateStep(db, post, user).db)
  {
    var c := CreateStep(db, post, user);
    if c.result.Success? {
      var r := c.db;
      var n := |db.listings|;
      NoBidsBeyond(db.bids, n);
      forall k: ListingId | k < |r.listings|
        ensures PriceTracksBids(r.listings[k], ListingBids(r.bids, k))
      {
        if k < n {
          assert r.listings[k] == db.listings[k];
          assert PriceTracksBids(db.listings[k], ListingBids(db.bids, k));
        }
      }
    }
  }

  // ---------------------------------------------------------------------
  // Runs of requests

  /** One request that reaches the workflow: a listing submission, or a GET or POST of a detail page. */
  datatype Event =
    | Submit(post: ListingPost, user: UserId)
    | Visit(id: ListingId, viewer: Viewer, request: Request)

  function Apply(db: Db, e: Event): Db {
    match e
    case Submit(post, user) => CreateStep(db, post, user).db
    case Visit(id, viewer, request) => DetailStep(db, id, viewer, request).db
  }

  /** The store after the requests, one at a time, in order. */
  function Run(db: Db, events: seq<Event>): Db
    decreases |events|
  {
    if events == [] then db else Run(Apply(db, events[0]), events[1..])
  }

  lemma {:induction false} RunKeepsConsistent(db: Db, events: seq<Event>)
    requires Consistent(db)
    ensures Consistent(Run(db, events))
    decreases |events|
  {
    if events != [] {
      match events[0] {
        case Submit(post, user) => CreateKeepsConsistent(db, post, user);
        case Visit(id, viewer, request) => DetailKeepsConsistent(db, id, viewer, request);
      }
      RunKeepsConsistent(Apply(db, events[0]), events[1..]);
    }
  }

  /**
   * If bids only ever arrive through the bid branch, then in every store the
   * app can reach a listing's bids rise strictly in insertion order, and once
   * one exists the current price is the latest and largest of them.
   */
  lemma ReachableBidsRise(categories: seq<Category>, events: seq<Event>, id: ListingId)
    ensures var db := Run(EmptyDb(categories), events);
            && Rising(ListingBids(db.bids, id))
            && (id < |db.listings| && HighestBid(db.bids, id).Some? ==>
                  && HighestBid(db.bids, id).value.amount == db.listings[id].currentPrice
                  && forall b :: b in db.bids && b.listing == id ==> b.amount <= db.listings[id].currentPrice)
  {
    RunKeepsConsistent(EmptyDb(categories), events);
    var db := Run(EmptyDb(categories), events);
    if id < |db.listings| {
      assert PriceTracksBids(db.listings[id], ListingBids(db.bids, id));
      CurrentPriceIsHighestBid(db, id);
    } else {
      NoBidsBeyond(db.bids, id);
    }
  }
}
