/**
 * The two forms of the app (auctions/forms.py): the money field they share,
 * BidForm with its clean_bid_amount, and ListingForm with its field list,
 * its required category and its clean_starting_bid.
 */
module Forms {
  import opened Wrappers
  import opened Models

  /**
   * A decimal number as the user typed it: mantissa / 10^places, with the
   * trailing zeros kept, so "12.50" is Decimal(1250, 2).
   */
  datatype Decimal = Decimal(mantissa: int, places: nat)

  /** Why a form field was refused. */
  datatype FieldError =
    | Required
    | TooManyDigits             // more than max_digits digits in all
    | TooManyDecimalPlaces      // more than decimal_places digits after the point
    | TooManyWholeDigits        // more than max_digits - decimal_places digits before it
    | NotPositive(message: string)
    | TooLong(limit: nat)
    | InvalidChoice

  /** DecimalField(max_digits=10, decimal_places=2), the shape of every money field. */
  const MaxDigits: nat := 10
  const DecimalPlaces: nat := 2

  function Abs(x: int): nat {
    if x < 0 then -x else x
  }

  function Max(a: int, b: int): int {
    if a < b then b else a
  }

  function Pow10(k: nat): (p: nat)
    ensures p >= 1
  {
    if k == 0 then 1 else 10 * Pow10(k - 1)
  }

  lemma SmallPowers()
    ensures Pow10(0) == 1 && Pow10(1) == 10 && Pow10(2) == 100
    ensures Pow10(8) == 100_000_000 && Pow10(9) == 1_000_000_000 && Pow10(10) == MaxCents + 1
  {
  }

  /** The number of decimal digits of n; zero is written with one digit. */
  function DigitCount(n: nat): (c: nat)
    ensures c >= 1
  {
    if n < 10 then 1 else 1 + DigitCount(n / 10)
  }

  lemma {:induction false} DigitCountBound(n: nat, k: nat)
    requires k >= 1
    ensures DigitCount(n) <= k <==> n < Pow10(k)
  {
    if k == 1 {
      assert Pow10(1) == 10;
    } else if n >= 10 {
      DigitCountBound(n / 10, k - 1);
    }
  }

  /**
   * The money field's own cleaning: the validator Django attaches to a
   * DecimalField counts the digits in all (at least as many as there are
   * places) and those after the point, and refuses, in this order, more than
   * ten digits, more than two places, and more than eight digits before the
   * point. An accepted value is returned in cents.
   */
  function ParseMoney(d: Decimal): (r: Result<Cents, FieldError>)
    ensures r.Success? <==> d.places <= DecimalPlaces && Abs(d.mantissa) < Pow10(MaxDigits - DecimalPlaces + d.places)
    ensures r.Success? ==> r.value * Pow10(d.places) == d.mantissa * Pow10(DecimalPlaces)
    ensures r.Success? ==> FitsMoneyField(r.value)
  {
    DigitCountBound(Abs(d.mantissa), MaxDigits - DecimalPlaces + d.places);
    SmallPowers();
    var digits := Max(DigitCount(Abs(d.mantissa)), d.places);
    if digits > MaxDigits then Failure(TooManyDigits)
    else if d.places > DecimalPlaces then Failure(TooManyDecimalPlaces)
    else if digits - d.places > MaxDigits - DecimalPlaces then Failure(TooManyWholeDigits)
    else Success(d.mantissa * Pow10(DecimalPlaces - d.places))
  }

  /** How a stored amount is written back into a form: with its two places. */
  function FormatMoney(c: Cents): Decimal {
    Decimal(c, DecimalPlaces)
  }

  lemma MoneyRoundTrip(c: Cents)
    requires FitsMoneyField(c)
    ensures ParseMoney(FormatMoney(c)) == Success(c)
  {
    SmallPowers();
  }

  /** A required DecimalField(max_digits=10, decimal_places=2); None is a missing entry. */
  function CleanMoneyField(raw: Option<Decimal>): (r: Result<Cents, FieldError>)
    ensures r.Success? <==> raw.Some? && ParseMoney(raw.value).Success?
    ensures raw.None? ==> r == Failure(Required)
    ensures r.Success? ==> FitsMoneyField(r.value)
    ensures r.Success? ==> r.value * Pow10(raw.value.places) == raw.value.mantissa * Pow10(DecimalPlaces)
  {
    match raw
    case None => Failure(Required)
    case Some(d) => ParseMoney(d)
  }

  const StartingBidMessage: string := "Starting bid must be greater than zero."
  const BidAmountMessage: string := "Bid amount must be greater than zero."

  /** ListingForm.clean_starting_bid. */
  function CleanStartingBid(startingBid: Cents): (r: Result<Cents, FieldError>)
    ensures r.Failure? <==> startingBid <= 0
    ensures r.Failure? ==> r.error == NotPositive(StartingBidMessage)
    ensures r.Success? ==> r.value == startingBid
  {
    if startingBid <= 0 then Failure(NotPositive(StartingBidMessage)) else Success(startingBid)
  }

  /** BidForm.clean_bid_amount. */
  function CleanBidAmount(bidAmount: Cents): (r: Result<Cents, FieldError>)
    ensures r.Failure? <==> bidAmount <= 0
    ensures r.Failure? ==> r.error == NotPositive(BidAmountMessage)
    ensures r.Success? ==> r.value == bidAmount
  {
    if bidAmount <= 0 then Failure(NotPositive(BidAmountMessage)) else Success(bidAmount)
  }

  /** BidForm(request.POST).is_valid() and its cleaned bid_amount: the field first, then clean_bid_amount. */
  function CleanBidForm(bidAmount: Option<Decimal>): (r: Result<Cents, FieldError>)
    ensures r.Success? <==> bidAmount.Some? && ParseMoney(bidAmount.value).Success? && ParseMoney(bidAmount.value).value > 0
    ensures r.Success? ==> 0 < r.value <= MaxCents
    ensures r.Success? ==> r.value * Pow10(bidAmount.value.places) == bidAmount.value.mantissa * Pow10(DecimalPlaces)
  {
    match CleanMoneyField(bidAmount)
    case Failure(e) => Failure(e)
    case Success(amount) => CleanBidAmount(amount)
  }

  /**
   * What a client may post to the listing form. Besides the five fields the
   * form lists, a client can send values for the other columns of Listing;
   * the form never reads them.
   */
  datatype ListingPost = ListingPost(
    title: Option<string>,
    description: Option<string>,
    startingBid: Option<Decimal>,
    imageUrl: Option<string>,
    category: Option<CategoryId>,
    currentPrice: Option<Decimal>,
    isActive: Option<bool>,
    creator: Option<UserId>)

  /** The fields ListingForm lists: title, description, starting_bid, image_url, category. */
  datatype ListingField = TitleField | DescriptionField | StartingBidField | ImageUrlField | CategoryField

  /** ListingForm.cleaned_data. */
  datatype CleanListing = CleanListing(
    title: string, description: string, startingBid: Cents, imageUrl: string, category: CategoryId)

  const TitleMaxLength: nat := 64
  const UrlMaxLength: nat := 200   // URLField's default max_length

  /** A required CharField(max_length=64). */
  function CleanTitle(title: Option<string>): (r: Result<string, FieldError>)
    ensures r.Success? <==> title.Some? && 0 < |title.value| <= TitleMaxLength
    ensures r.Success? ==> r.value == title.value
    ensures (title.None? || title.value == "") ==> r == Failure(Required)
    ensures title.Some? && |title.value| > TitleMaxLength ==> r == Failure(TooLong(TitleMaxLength))
  {
    if title.None? || title.value == "" then Failure(Required)
    else if |title.value| > TitleMaxLength then Failure(TooLong(TitleMaxLength))
    else Success(title.value)
  }

  /** A required TextField. */
  function CleanDescription(description: Option<string>): (r: Result<string, FieldError>)
    ensures r.Success? <==> description.Some? && description.value != ""
    ensures r.Success? ==> r.value == description.value
    ensures r.Failure? ==> r.error == Required
  {
    if description.None? || description.value == "" then Failure(Required) else Success(description.value)
  }

  /** The model's starting_bid field, then clean_starting_bid. */
  function CleanStartingBidField(startingBid: Option<Decimal>): (r: Result<Cents, FieldError>)
    ensures r.Success? <==> startingBid.Some? && ParseMoney(startingBid.value).Success? && ParseMoney(startingBid.value).value > 0
    ensures startingBid.None? ==> r == Failure(Required)
    ensures startingBid.Some? && ParseMoney(startingBid.value).Failure? ==> r == Failure(ParseMoney(startingBid.value).error)
    ensures startingBid.Some? && ParseMoney(startingBid.value).Success? && ParseMoney(startingBid.value).value <= 0 ==>
              r == Failure(NotPositive(StartingBidMessage))
    ensures r.Success? ==> 0 < r.value <= MaxCents
    ensures r.Success? ==> r.value * Pow10(startingBid.value.places) == startingBid.value.mantissa * Pow10(DecimalPlaces)
  {
    match CleanMoneyField(startingBid)
    case Failure(e) => Failure(e)
    case Success(amount) => CleanStartingBid(amount)
  }

  /** URLField(blank=True): may be left empty. */
  function CleanImageUrl(imageUrl: Option<string>): (r: Result<string, FieldError>)
    ensures r.Success? <==> imageUrl.None? || |imageUrl.value| <= UrlMaxLength
    ensures r.Success? ==> r.value == (if imageUrl.None? then "" else imageUrl.value)
    ensures r.Failure? ==> r.error == TooLong(UrlMaxLength)
  {
    if imageUrl.None? then Success("")
    else if |imageUrl.value| > UrlMaxLength then Failure(TooLong(UrlMaxLength))
    else Success(imageUrl.value)
  }

  /** ModelChoiceField(queryset=Category.objects.all(), required=True): one of the existing categories. */
  function CleanCategory(category: Option<CategoryId>, categoryCount: nat): (r: Result<CategoryId, FieldError>)
    ensures r.Success? <==> category.Some? && category.value < categoryCount
    ensures r.Success? ==> r.value == category.value
    ensures category.None? ==> r == Failure(Required)
    ensures category.Some? && category.value >= categoryCount ==> r == Failure(InvalidChoice)
  {
    if category.None? then Failure(Required)
    else if category.value >= categoryCount then Failure(InvalidChoice)
    else Success(category.value)
  }

  /** The error of one field, as a one-entry (or empty) slice of form.errors. */
  function ErrorOf<T>(field: ListingField, r: Result<T, FieldError>): map<ListingField, FieldError> {
    if r.Failure? then map[field := r.error] else map[]
  }

  /** form.errors names a field exactly when its own check failed, with that check's error. */
  predicate Reports<T>(errors: map<ListingField, FieldError>, field: ListingField, r: Result<T, FieldError>) {
    && (field in errors <==> r.Failure?)
    && (field in errors ==> errors[field] == r.error)
  }

  /**
   * ListingForm(request.POST).is_valid() with its cleaned_data or its errors;
   * categoryCount is the number of categories (their keys are below it).
   */
  function ValidateListing(post: ListingPost, categoryCount: nat): (r: Result<CleanListing, map<ListingField, FieldError>>)
    ensures r.Success? <==>
      && post.title.Some? && 0 < |post.title.value| <= TitleMaxLength
      && post.description.Some? && post.description.value != ""
      && post.startingBid.Some? && ParseMoney(post.startingBid.value).Success? && ParseMoney(post.startingBid.value).value > 0
      && (post.imageUrl.Some? ==> |post.imageUrl.value| <= UrlMaxLength)
      && post.category.Some? && post.category.value < categoryCount
    ensures r.Success? ==>
      && r.value.title == post.title.value && r.value.description == post.description.value
      && r.value.category == post.category.value
      && r.value.imageUrl == (if post.imageUrl.None? then "" else post.imageUrl.value)
      && 0 < r.value.startingBid <= MaxCents
      && r.value.startingBid * Pow10(post.startingBid.value.places) == post.startingBid.value.mantissa * Pow10(DecimalPlaces)
    ensures r.Failure? ==> r.error != map[]
    ensures r.Failure? ==>
      && Reports(r.error, TitleField, CleanTitle(post.title))
      && Reports(r.error, DescriptionField, CleanDescription(post.description))
      && Reports(r.error, StartingBidField, CleanStartingBidField(post.startingBid))
      && Reports(r.error, ImageUrlField, CleanImageUrl(post.imageUrl))
      && Reports(r.error, CategoryField, CleanCategory(post.category, categoryCount))
    ensures post.category.None? ==> r.Failure? && CategoryField in r.error && r.error[CategoryField] == Required
  {
    var title := CleanTitle(post.title);
    var description := CleanDescription(post.description);
    var startingBid := CleanStartingBidField(post.startingBid);
    var imageUrl := CleanImageUrl(post.imageUrl);
    var category := CleanCategory(post.category, categoryCount);
    if title.Success? && description.Success? && startingBid.Success? && imageUrl.Success? && category.Success? then
      Success(CleanListing(title.value, description.value, startingBid.value, imageUrl.value, category.value))
    else
      var errors := ErrorOf(TitleField, title) + ErrorOf(DescriptionField, description)
        + ErrorOf(StartingBidField, startingBid) + ErrorOf(ImageUrlField, imageUrl)
        + ErrorOf(CategoryField, category);
      assert TitleField in errors || DescriptionField in errors || StartingBidField in errors
        || ImageUrlField in errors || CategoryField in errors;
      Failure(errors)
  }

  /** current_price, is_active and creator are not on the form: whatever a client sends for them is ignored. */
  lemma UnlistedFieldsIgnored(post: ListingPost, other: ListingPost, categoryCount: nat)
    requires post.(currentPrice := other.currentPrice, isActive := other.isActive, creator := other.creator) == other
    ensures ValidateListing(post, categoryCount) == ValidateListing(other, categoryCount)
  {
  }
}
