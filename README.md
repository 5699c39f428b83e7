# Auction workflow model

A Dafny model of the bidding and closing workflow of a small Django auction site
(the `auctions` app). Users list items, bid on them, comment, and keep watchlists.
The model takes the listing detail page's POST handler out of its HTTP and ORM
plumbing. It states that handler over an abstract store: the Category, Listing,
Bid, Comment and Watchlist tables, each a sequence of rows in insertion order.

- `wrappers.dfy`: `Option` and `Result`.
- `models.dfy`: the entities of `auctions/models.py` as datatypes. Keys are
  naturals; a listing's key is its index. Money is integer cents. `MaxCents`
  (99,999,999.99) is the bound of a `DecimalField(max_digits=10, decimal_places=2)`.
- `forms.dfy`: the money field's digit and decimal-place checks (counted the way
  Django's decimal validator counts them), `BidForm` with `clean_bid_amount`, and
  `ListingForm` with its five-field whitelist, required category and
  `clean_starting_bid`.
- `queries.dfy`: the read-only views: the index page's active/closed split,
  a category's active listings, and a user's watchlist.
- `workflow.dfy`: the store as a value `Db`, one step function per action,
  `DetailStep` (the whole `listing_detail` handler), `CreateStep` (a listing
  submission), and the invariant `Consistent`. In every reachable store, a
  listing's bids rise strictly in insertion order and its current price is its
  latest (and so its largest) bid.
- `site.dfy`: class `AuctionSite`. It holds the tables as fields, and its methods
  update them in place, one per action. Each method's postcondition ties the new
  tables to the matching step function. A five-step client (`SubmitKite`,
  `OpeningBid`, `RaiseBid`, `MatchingBid`, `CloseKite`) walks through one
  auction. A listing is submitted with a starting bid of 50.00 and sits at
  price 0. B opens the bidding at 100.00 (`OpeningBid`), A raises to 150.00,
  B fails to match, and the creator closes it. After that A has won and B has not.

The model follows the code, including where the code departs from what it seems
to intend:
- The first bid on a listing is compared against nothing. It only has to be
  positive. The starting bid and the current price are not consulted.
- Bids are accepted on closed listings.
- A new listing's current price is 0, not its starting bid.
- The watchlist may hold the same (user, listing) pair twice, and a toggle then
  removes every copy.
- A bid that the form rejects just re-renders the page, with no message.

The bid check at `auctions/views.py:116` looks only at the latest bid. The
starting bid and the current price play no part in it. `auctions/models.py:52-54`
declares no uniqueness constraint on a (user, listing) watchlist pair.

Timestamps are replaced by insertion order: the most recent bid is the last bid
row for the listing. For a request from an anonymous user, the row it would
create cannot be built (an anonymous user is not a `User`), so the request raises
and nothing is written. The model returns `Raised(AnonymousWrite)` in that case.
A comment POST without `comment_content` raises in the same way
(`Raised(MissingCommentContent)`).

## Model

| member | source | states |
|---|---|---|
| `Forms.DigitCountBound` | auctions/forms.py:20 | a number has at most k decimal digits exactly when it is below 10^k |
| `Forms.ParseMoney` | auctions/forms.py:20 | a typed decimal is accepted iff it has at most 2 places and at most 8 digits before the point; the result equals the typed value in cents and fits the 10-digit column |
| `Forms.MoneyRoundTrip` | auctions/models.py:20-21 | every amount a money column can hold, written with two places, is accepted and read back unchanged |
| `Forms.CleanMoneyField` | auctions/forms.py:20 | a money entry is valid iff present and accepted by the decimal checks; a missing one is `Required`; a valid one fits the column and equals the typed value |
| `Forms.CleanStartingBid` | auctions/forms.py:13-17 | refuses with "Starting bid must be greater than zero." iff the amount is <= 0; otherwise returns it unchanged |
| `Forms.CleanBidAmount` | auctions/forms.py:23-27 | refuses with "Bid amount must be greater than zero." iff the amount is <= 0; otherwise returns it unchanged |
| `Forms.CleanBidForm` | auctions/forms.py:19-27 | the bid form is valid iff the amount is present, fits the money field and is positive; a valid amount lies in (0, 99,999,999.99] and equals what was typed |
| `Forms.ValidateListing` | auctions/forms.py:4-17 | the listing form is valid iff title (1-64 chars), description, a positive fitting starting bid, an image URL of at most 200 chars (or none) and an existing category are given, and its cleaned fields are the posted ones (a missing image URL as empty); a missing category is always an error; an invalid form names exactly the fields whose own check failed, each with that check's error |
| `Forms.CleanStartingBidField` | auctions/forms.py:13-17 | the starting bid is valid iff present, accepted by the decimal checks and positive; missing is `Required`, a malformed entry keeps the decimal check's error, and a value <= 0 gets "Starting bid must be greater than zero."; a valid value lies in (0, 99,999,999.99] and equals what was typed |
| `Forms.CleanTitle` | auctions/models.py:18 | the title is valid iff present with 1-64 characters and is kept as given; empty is `Required`, longer is `TooLong(64)` |
| `Forms.CleanDescription` | auctions/models.py:19 | the description is valid iff present and non-empty and is kept as given; otherwise `Required` |
| `Forms.CleanImageUrl` | auctions/models.py:22 | the image URL may be left out (stored as empty) and is otherwise valid iff at most 200 characters; otherwise `TooLong(200)` |
| `Forms.CleanCategory` | auctions/forms.py:10 | the category is valid iff given and an existing key; a missing one is `Required`, an unknown one `InvalidChoice` |
| `Forms.UnlistedFieldsIgnored` | auctions/forms.py:5-7 | values a client posts for current_price, is_active or creator do not change the form's outcome |
| `Queries.FilterListings` | auctions/views.py:14-15 | a listing filter returns exactly the keys of matching listings, each once; the model lists them in key order (the querysets are unordered) |
| `Queries.ActiveListings` | auctions/views.py:14 | exactly the keys of the active listings |
| `Queries.ClosedListings` | auctions/views.py:15 | exactly the keys of the closed listings |
| `Queries.IndexPartition` | auctions/views.py:13-15 | the index page's active and closed lists are disjoint, together cover every listing, and their sizes add up to the table's |
| `Queries.CategoryListings` | auctions/views.py:176-178 | a missing category is a 404; otherwise the result is exactly the active listings of that category |
| `Queries.WatchedListings` | auctions/views.py:160-163 | the watchlist page lists each listing as many times as the user has a watchlist row for it, and no other |
| `Workflow.ListingBids` | auctions/views.py:92 | a listing's bids are exactly the bid rows that reference it |
| `Workflow.ListingBidsCounts` | auctions/views.py:92 | a listing's bids hold each bid row that references it as many times as the table does, and no other row |
| `Workflow.ListingBidsAppend` | auctions/views.py:92 | a listing's bids keep table order: appending a bid row appends it to its listing's bids and to no other's |
| `Workflow.HighestBid` | auctions/views.py:97 | there is a highest bid iff some bid references the listing, and it is one of them |
| `Workflow.HighestBidIsLatest` | auctions/views.py:92-97 | the bid picked as highest is the listing's most recently inserted bid row |
| `Workflow.RisingEndsHighest` | auctions/views.py:116-132 | in a strictly rising bid list the last bid is at least every other |
| `Workflow.CurrentPriceIsHighestBid` | auctions/views.py:116-132 | in a consistent store no bid on a listing exceeds its current price, and the latest bid equals that price |
| `Workflow.CloseStep` | auctions/views.py:106-108 | closing clears is_active of that listing and changes no other field, listing, bid, comment or watchlist row |
| `Workflow.CloseIdempotent` | auctions/views.py:106-108 | closing a closed listing changes nothing, and closing twice is closing once |
| `Workflow.BidStep` | auctions/views.py:130-132 | recording a bid appends exactly that bid, makes it the listing's latest, sets the listing's current price to its amount, and leaves other listings' bids and every other table unchanged |
| `Workflow.RemoveAll` | auctions/views.py:138 | the delete removes every row of the pair and keeps every other row with its count |
| `Workflow.RemoveAbsent` | auctions/views.py:138 | deleting a pair that has no rows leaves the watchlist as it was |
| `Workflow.ToggleWatch` | auctions/views.py:137-140 | after a toggle the pair has no rows if it had any, otherwise exactly one; other rows keep their counts |
| `Workflow.ToggleTwice` | auctions/views.py:136-141 | toggling twice restores whether the pair is watched and every other row's count, and, when the pair was absent, restores the watchlist exactly |
| `Workflow.ToggleStep` | auctions/views.py:136-141 | the watch toggle flips is_watching for that user and listing and changes no other table |
| `Workflow.CommentStep` | auctions/views.py:144-147 | a comment appends exactly one comment row and changes no other table |
| `Workflow.WinnerHoldsHighestBid` | auctions/views.py:96-101 | in a consistent store a winner's listing is closed, the winner holds a bid at the current price, and no bid on the listing is higher |
| `Workflow.WinnerIsUnique` | auctions/views.py:100 | at most one viewer has won a listing |
| `Workflow.CreatorCloses` | auctions/views.py:106-109 | a close request from the creator closes the listing and redirects |
| `Workflow.OnlyCreatorClears` | auctions/views.py:104-109 | for every request, a listing's is_active changes only when the creator's POST carries close_auction, and only from true to false |
| `Workflow.OthersCannotClose` | auctions/views.py:104-156 | a request carrying only close_auction from anyone but the creator fires no branch: the page is rendered and the store is unchanged |
| `Workflow.BidOutcome` | auctions/views.py:112-133 | a valid bid from any signed-in user, the listing's creator included, is taken iff the listing has no bid or the amount beats the latest one; taken, the store becomes the recorded bid; refused, the store is unchanged and the too-low message is shown |
| `Workflow.FirstBidTaken` | auctions/views.py:116 | a listing's first valid bid is taken whatever its starting bid or current price, on closed listings too |
| `Workflow.InvalidBidIgnored` | auctions/views.py:113-114 | a bid the form refuses leaves the store unchanged and renders the page without a message |
| `Workflow.PageShowsPriorWinner` | auctions/views.py:97-101 | every rendered page carries has_won as computed on the store before the POST |
| `Workflow.PriceNeverFalls` | auctions/views.py:116-132 | in a consistent store no request lowers any listing's current price or removes a listing |
| `Workflow.BidAccepted` | auctions/views.py:116 | a bid on a listing with no bids is always accepted; a refused bid is matched or beaten by some bid already on the listing |
| `Workflow.BidAcceptedBeatsAll` | auctions/views.py:116 | in a consistent store a bid is accepted iff it exceeds every bid on the listing |
| `Workflow.HasWon` | auctions/views.py:98-101 | a winner is signed in, the listing is closed, and the winner has placed a bid on it |
| `Workflow.HasWonIffLatestBidder` | auctions/views.py:92-101 | has_won holds iff the listing is closed and the signed-in viewer placed the listing's last bid row |
| `Workflow.DetailStep` | auctions/views.py:90-156 | a missing listing and only that is a 404; only a redirecting POST changes the store; a GET renders the page and writes nothing; no request adds or removes a listing or category |
| `Workflow.CloseKeepsConsistent` | auctions/views.py:106-108 | closing keeps the store consistent |
| `Workflow.BidKeepsConsistent` | auctions/views.py:116-132 | recording a bid that beats the latest keeps every listing's bids strictly rising with the price equal to the latest |
| `Workflow.ToggleKeepsConsistent` | auctions/views.py:136-141 | the watch toggle keeps the store consistent |
| `Workflow.CommentKeepsConsistent` | auctions/views.py:144-147 | a comment keeps the store consistent |
| `Workflow.DetailKeepsConsistent` | auctions/views.py:90-156 | every request to the detail page keeps the store consistent |
| `Workflow.CreateStep` | auctions/views.py:73-79 | a valid submission appends one listing owned by the submitter, active, at price 0, whatever the client posted for those columns; an invalid one changes nothing and returns the form's errors |
| `Workflow.CreateKeepsConsistent` | auctions/models.py:17-26 | a new listing starts with no bids at price 0, so the store stays consistent |
| `Workflow.RunKeepsConsistent` | auctions/views.py:90-156 | any sequence of requests from a consistent store ends consistent |
| `Workflow.ReachableBidsRise` | auctions/views.py:92-132 | in every store reachable from an empty one, each listing's bids rise strictly in insertion order, and once one exists the current price is the latest and largest bid |
| `Models.NewListing` | auctions/models.py:17-25 | a new listing row carries the form's values and the creator, is active, and has current price 0 |
| `Site.AuctionSite.CreateListing` | auctions/views.py:72-79 | saves a valid listing in place as the creation step says, keeping the invariant |
| `Site.AuctionSite.CloseAuction` | auctions/views.py:106-108 | clears is_active in place as the close step says, keeping the invariant |
| `Site.AuctionSite.RecordBid` | auctions/views.py:130-132 | appends the bid and updates the price in place as the bid step says, keeping the invariant |
| `Site.AuctionSite.ToggleWatchlist` | auctions/views.py:136-141 | deletes or creates the watchlist rows in place as the toggle step says, keeping the invariant |
| `Site.AuctionSite.AddComment` | auctions/views.py:144-147 | appends the comment in place as the comment step says, keeping the invariant |
| `Site.AuctionSite.ListingDetail` | auctions/views.py:90-156 | handles a request in place exactly as the detail step says, keeping the invariant |

## Left out

- Login, logout and registration: session handling and the database's uniqueness check belong to the framework.
- URL routing, template rendering, redirects' targets and `messages`: framework plumbing. A response records only which kind it is, `has_won`, `is_watching` and whether the too-low message is shown.
- Fetching rows, `get_object_or_404` beyond "a missing key is a 404", and cascading or `SET_NULL` deletes: the app never deletes listings or categories.
- `create_listing`'s handling of uploads and the `@login_required` redirect: a submission is always from a signed-in user, and only its form check and the row it produces are modelled.
- Parsing form text into a decimal: an entry arrives already as digits and a count of places, or as missing. Entries such as `NaN`, infinities and exponents are not modelled.
- Whitespace stripping of text fields, and URL syntax checking of `image_url`, including the default scheme that `URLField` adds to a URL typed without one before its 200-character limit is checked: only presence and maximum lengths are checked, on the text as typed.
- Timestamps from `timezone.now`: insertion order replaces them, so two bids never tie.
- Concurrent requests: the model is sequential, one request at a time, so the race two simultaneous bids could run on `current_price` is not represented.
- The exact exception raised when an anonymous user bids, toggles or comments: the model records only that the request raises and writes nothing.
- The order of the index, category and watchlist querysets: none of them calls `order_by` and no model declares an ordering, so the database chooses. The model lists listings in key order and watchlist entries in row order.
- `__str__` methods and the `categories` page: display only.
