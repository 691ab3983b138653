/** The write side of the REST layer: the listing create/update serializer
    (its writable fields and its two field validators) and the review
    serializer (its read-only `reviewer`). */
module Serializers {
  import opened Wrappers
  import opened Entities

  /** One entry of the serializer's error dictionary. */
  datatype FieldError =
    | Required(column: Column)   // a required field is missing
    | PriceNotPositive           // "Price per night must be greater than 0"
    | MaximumBelowMinimum        // "Maximum nights must be greater than or equal to minimum nights"

  /** The client-writable fields of a request body, each absent (`None`) or
      given; the nullable columns can also be given `null` (`Some(None)`). */
  datatype ListingPayload = ListingPayload(
    title: Option<string>,
    description: Option<string>,
    location: Option<string>,
    address: Option<string>,
    pricePerNight: Option<Hundredths>,
    listingType: Option<ListingKind>,
    category: Option<Option<CategoryId>>,
    maxGuests: Option<nat>,
    bedrooms: Option<nat>,
    bathrooms: Option<nat>,
    latitude: Option<Option<Millionths>>,
    longitude: Option<Option<Millionths>>,
    amenities: Option<string>,
    houseRules: Option<string>,
    checkInTime: Option<Option<TimeOfDay>>,
    checkOutTime: Option<Option<TimeOfDay>>,
    minimumNights: Option<nat>,
    maximumNights: Option<nat>)

  /** The `fields` list of the create/update serializer. */
  const Writable: set<Column> := {
    Title, Description, Location, Address, PricePerNight, ListingType, Category,
    MaxGuests, Bedrooms, Bathrooms, Latitude, Longitude, Amenities, HouseRules,
    CheckInTime, CheckOutTime, MinimumNights, MaximumNights }

  /** The payload gives a value for column `c`. */
  predicate Gives(p: ListingPayload, c: Column) {
    match c
    case Title => p.title.Some?
    case Description => p.description.Some?
    case Location => p.location.Some?
    case Address => p.address.Some?
    case PricePerNight => p.pricePerNight.Some?
    case ListingType => p.listingType.Some?
    case Category => p.category.Some?
    case MaxGuests => p.maxGuests.Some?
    case Bedrooms => p.bedrooms.Some?
    case Bathrooms => p.bathrooms.Some?
    case Latitude => p.latitude.Some?
    case Longitude => p.longitude.Some?
    case Amenities => p.amenities.Some?
    case HouseRules => p.houseRules.Some?
    case CheckInTime => p.checkInTime.Some?
    case CheckOutTime => p.checkOutTime.Some?
    case MinimumNights => p.minimumNights.Some?
    case MaximumNights => p.maximumNights.Some?
    case _ => false
  }

  /** A payload can only give values for the writable columns. */
  lemma GivesOnlyWritable(p: ListingPayload, c: Column)
    requires Gives(p, c)
    ensures c in Writable
  {
  }

  /** Column `c` of `r` holds the value the payload gives for it. */
  predicate Carries(p: ListingPayload, r: ListingRow, c: Column) {
    match c
    case Title => p.title == Some(r.title)
    case Description => p.description == Some(r.description)
    case Location => p.location == Some(r.location)
    case Address => p.address == Some(r.address)
    case PricePerNight => p.pricePerNight == Some(r.pricePerNight)
    case ListingType => p.listingType == Some(r.listingType)
    case Category => p.category == Some(r.category)
    case MaxGuests => p.maxGuests == Some(r.maxGuests)
    case Bedrooms => p.bedrooms == Some(r.bedrooms)
    case Bathrooms => p.bathrooms == Some(r.bathrooms)
    case Latitude => p.latitude == Some(r.latitude)
    case Longitude => p.longitude == Some(r.longitude)
    case Amenities => p.amenities == Some(r.amenities)
    case HouseRules => p.houseRules == Some(r.houseRules)
    case CheckInTime => p.checkInTime == Some(r.checkInTime)
    case CheckOutTime => p.checkOutTime == Some(r.checkOutTime)
    case MinimumNights => p.minimumNights == Some(r.minimumNights)
    case MaximumNights => p.maximumNights == Some(r.maximumNights)
    case _ => false
  }

  /** Saving validated data onto a row: every supplied column takes the
      supplied value and every other column keeps its value. */
  function ApplyPayload(row: ListingRow, p: ListingPayload): (r: ListingRow)
    ensures forall c :: Gives(p, c) ==> Carries(p, r, c)
    ensures forall c :: !Gives(p, c) ==> Agree(row, r, c)
  {
    row.(
      title := p.title.GetOr(row.title),
      description := p.description.GetOr(row.description),
      location := p.location.GetOr(row.location),
      address := p.address.GetOr(row.address),
      pricePerNight := p.pricePerNight.GetOr(row.pricePerNight),
      listingType := p.listingType.GetOr(row.listingType),
      category := p.category.GetOr(row.category),
      maxGuests := p.maxGuests.GetOr(row.maxGuests),
      bedrooms := p.bedrooms.GetOr(row.bedrooms),
      bathrooms := p.bathrooms.GetOr(row.bathrooms),
      latitude := p.latitude.GetOr(row.latitude),
      longitude := p.longitude.GetOr(row.longitude),
      amenities := p.amenities.GetOr(row.amenities),
      houseRules := p.houseRules.GetOr(row.houseRules),
      checkInTime := p.checkInTime.GetOr(row.checkInTime),
      checkOutTime := p.checkOutTime.GetOr(row.checkOutTime),
      minimumNights := p.minimumNights.GetOr(row.minimumNights),
      maximumNights := p.maximumNights.GetOr(row.maximumNights))
  }

  /** No request through the create/update serializer changes the id, the
      derived rating columns, the host or the two flags. */
  lemma ProtectedColumns(row: ListingRow, p: ListingPayload)
    ensures var r := ApplyPayload(row, p);
            r.id == row.id && r.rating == row.rating && r.totalReviews == row.totalReviews
            && r.host == row.host && r.isActive == row.isActive && r.featured == row.featured
  {
    var r := ApplyPayload(row, p);
    assert !Gives(p, Id) && !Gives(p, Rating) && !Gives(p, TotalReviews);
    assert !Gives(p, Host) && !Gives(p, IsActive) && !Gives(p, Featured);
    assert Agree(row, r, Id) && Agree(row, r, Rating) && Agree(row, r, TotalReviews);
    assert Agree(row, r, Host) && Agree(row, r, IsActive) && Agree(row, r, Featured);
  }

  /** `validate_price_per_night`: rejects a price that is not positive, passes
      any other price through unchanged. */
  function ValidatePricePerNight(value: Hundredths): (r: Result<Hundredths, FieldError>)
    ensures r.Success? <==> value > 0
    ensures r.Success? ==> r.value == value
    ensures r.Failure? ==> r.error == PriceNotPositive
  {
    if value <= 0 then Failure(PriceNotPositive) else Success(value)
  }

  /** `validate_maximum_nights`: `initialMinimum` is the `minimum_nights` of
      the raw request, 1 when absent; a maximum below it is rejected, any other
      maximum passes through unchanged. */
  function ValidateMaximumNights(value: nat, initialMinimum: Option<nat>): (r: Result<nat, FieldError>)
    ensures r.Success? <==> initialMinimum.GetOr(1) <= value
    ensures initialMinimum.None? ==> (r.Success? <==> 1 <= value)
    ensures r.Success? ==> r.value == value
    ensures r.Failure? ==> r.error == MaximumBelowMinimum
  {
    var minimumNights := initialMinimum.GetOr(1);
    if value < minimumNights then Failure(MaximumBelowMinimum) else Success(value)
  }

  /** Missing required fields: title, description, location and price have no
      default, so a full (non-`partial`) request must give them. */
  function RequiredErrors(p: ListingPayload, partial: bool): (es: set<FieldError>)
    ensures partial ==> es == {}
    ensures !partial ==> (Required(Title) in es <==> p.title.None?)
    ensures !partial ==> (Required(Description) in es <==> p.description.None?)
    ensures !partial ==> (Required(Location) in es <==> p.location.None?)
    ensures !partial ==> (Required(PricePerNight) in es <==> p.pricePerNight.None?)
    ensures !partial ==>
      (es == {} <==> p.title.Some? && p.description.Some? && p.location.Some? && p.pricePerNight.Some?)
    ensures forall e :: e in es ==> e.Required?
  {
    if partial then {}
    else
      (if p.title.None? then {Required(Title)} else {})
      + (if p.description.None? then {Required(Description)} else {})
      + (if p.location.None? then {Required(Location)} else {})
      + (if p.pricePerNight.None? then {Required(PricePerNight)} else {})
  }

  /** The price validator's contribution: it runs only when a price is given. */
  function PriceErrors(p: ListingPayload): set<FieldError> {
    match p.pricePerNight
    case Some(v) => if ValidatePricePerNight(v).Failure? then {PriceNotPositive} else {}
    case None => {}
  }

  /** The error dictionary of `is_valid()`, as written: the maximum-nights
      validator runs only when the request gives `maximum_nights`, and compares
      it with the request's own `minimum_nights`, or 1. */
  function ListingErrors(p: ListingPayload, partial: bool): set<FieldError> {
    RequiredErrors(p, partial)
    + PriceErrors(p)
    + match p.maximumNights
      case Some(v) => if ValidateMaximumNights(v, p.minimumNights).Failure? then {MaximumBelowMinimum} else {}
      case None => {}
  }

  /** `is_valid()` as written: the validated data, or the errors. */
  function ValidateListing(p: ListingPayload, partial: bool): (r: Result<ListingPayload, set<FieldError>>)
    ensures r.Success? <==> ListingErrors(p, partial) == {}
    ensures r.Success? ==> r.value == p
    ensures r.Success? && p.pricePerNight.Some? ==> p.pricePerNight.value > 0
    ensures r.Success? && p.maximumNights.Some? ==> p.minimumNights.GetOr(1) <= p.maximumNights.value
    ensures r.Success? && !partial ==> p.title.Some? && p.description.Some? && p.location.Some? && p.pricePerNight.Some?
  {
    var es := ListingErrors(p, partial);
    if es == {} then Success(p) else Failure(es)
  }

  /** A payload that gives only the four required fields. */
  function MinimalPayload(title: string, description: string, location: string, price: Hundredths): ListingPayload {
    ListingPayload(Some(title), Some(description), Some(location), None, Some(price), None, None,
                   None, None, None, None, None, None, None, None, None, None, None)
  }

  /** The validation as written admits stays whose minimum exceeds the maximum:
      a create that gives `minimum_nights` 400 and no maximum keeps the default
      maximum 365, and a partial update giving `maximum_nights` 3 to a listing
      whose minimum is 5 is compared against 1. */
  lemma AsWrittenAdmitsInvertedStay(row: ListingRow)
    requires row.minimumNights == 5 && row.maximumNights == 10
    ensures var p := MinimalPayload("Loft", "Bright", "Nairobi", 10000).(minimumNights := Some(400));
            var created := ApplyPayload(NewListing(1, 7), p);
            ValidateListing(p, false).Success? && created.minimumNights > created.maximumNights
    ensures var q := MinimalPayload("", "", "", 0).(title := None, description := None, location := None,
                                                    pricePerNight := None, maximumNights := Some(3));
            var updated := ApplyPayload(row, q);
            ValidateListing(q, true).Success? && updated.minimumNights > updated.maximumNights
  {
    var p := MinimalPayload("Loft", "Bright", "Nairobi", 10000).(minimumNights := Some(400));
    assert ListingErrors(p, false) == {};
    var q := MinimalPayload("", "", "", 0).(title := None, description := None, location := None,
                                            pricePerNight := None, maximumNights := Some(3));
    assert ListingErrors(q, true) == {};
  }

  /** The corrected error dictionary: the nights check compares the maximum
      and minimum the row will hold after the write (request value, else the
      stored one) and runs on every write. `before` is the stored row, or the
      defaults for a create. */
  function CheckedListingErrors(before: ListingRow, p: ListingPayload, partial: bool): set<FieldError> {
    var minimumNights := p.minimumNights.GetOr(before.minimumNights);
    var maximumNights := p.maximumNights.GetOr(before.maximumNights);
    RequiredErrors(p, partial)
    + PriceErrors(p)
    + if ValidateMaximumNights(maximumNights, Some(minimumNights)).Failure? then {MaximumBelowMinimum} else {}
  }

  /** Corrected `is_valid()`. */
  function ValidateListingChecked(before: ListingRow, p: ListingPayload, partial: bool)
    : (r: Result<ListingPayload, set<FieldError>>)
    ensures r.Success? <==> CheckedListingErrors(before, p, partial) == {}
    ensures r.Success? ==> r.value == p
  {
    var es := CheckedListingErrors(before, p, partial);
    if es == {} then Success(p) else Failure(es)
  }

  /** The corrected validation accepts a write exactly when the required fields
      are there, a given price is positive and the row it leads to keeps
      `minimum_nights <= maximum_nights`; it differs from the validation as
      written only in the nights check. */
  lemma CheckedKeepsNightsOrdered(before: ListingRow, p: ListingPayload, partial: bool)
    ensures var after := ApplyPayload(before, p);
            ValidateListingChecked(before, p, partial).Success? <==>
              && RequiredErrors(p, partial) == {}
              && (p.pricePerNight.Some? ==> p.pricePerNight.value > 0)
              && after.minimumNights <= after.maximumNights
    ensures CheckedListingErrors(before, p, partial) - {MaximumBelowMinimum}
            == ListingErrors(p, partial) - {MaximumBelowMinimum}
  {
    var after := ApplyPayload(before, p);
    assert after.minimumNights == p.minimumNights.GetOr(before.minimumNights);
    assert after.maximumNights == p.maximumNights.GetOr(before.maximumNights);
    assert MaximumBelowMinimum !in RequiredErrors(p, partial);
    assert MaximumBelowMinimum !in PriceErrors(p);
    assert PriceNotPositive !in RequiredErrors(p, partial);
  }

  /** A create through the serializer (with the corrected validation): the row
      takes the given fields and the model's defaults for the rest, so it has a
      positive price, rating 0 over 0 reviews, is active, not featured, owned by
      `host`, with `minimum_nights <= maximum_nights`. */
  function CreateListing(id: ListingId, host: UserId, p: ListingPayload): (r: Result<ListingRow, set<FieldError>>)
    ensures r.Success? <==> ValidateListingChecked(NewListing(id, host), p, false).Success?
    ensures r.Failure? ==> r.error == CheckedListingErrors(NewListing(id, host), p, false)
    ensures r.Success? ==> r.value == ApplyPayload(NewListing(id, host), p)
    ensures r.Success? ==>
      && r.value.title == p.title.value && r.value.description == p.description.value
      && r.value.location == p.location.value && r.value.pricePerNight == p.pricePerNight.value
    ensures r.Success? ==>
      && r.value.id == id && r.value.host == host
      && r.value.rating == 0 && r.value.totalReviews == 0
      && r.value.isActive && !r.value.featured
      && r.value.pricePerNight > 0
      && r.value.minimumNights == p.minimumNights.GetOr(1)
      && r.value.maximumNights == p.maximumNights.GetOr(365)
      && r.value.minimumNights <= r.value.maximumNights
  {
    var before := NewListing(id, host);
    match ValidateListingChecked(before, p, false)
    case Failure(es) => Failure(es)
    case Success(data) =>
      CheckedKeepsNightsOrdered(before, p, false);
      ProtectedColumns(before, data);
      Success(ApplyPayload(before, data))
  }

  /** Review request fields that can be missing. */
  datatype ReviewField = ReviewRating | ReviewComment

  /** One entry of the review serializer's error dictionary. */
  datatype ReviewError =
    | ReviewRequired(field: ReviewField)
    | RatingOutOfRange   // the rating validators admit 1..5 only

  /** A review request body; the client may send a `reviewer`, which the
      serializer ignores because the field is read-only. */
  datatype ReviewPayload = ReviewPayload(reviewer: Option<UserId>, rating: Option<int>, comment: Option<string>)

  /** Validated review data: there is no place for a reviewer in it. */
  datatype ReviewData = ReviewData(rating: Option<nat>, comment: Option<string>)

  /** The error dictionary of the review serializer. */
  function ReviewErrors(p: ReviewPayload, partial: bool): set<ReviewError> {
    (if !partial && p.rating.None? then {ReviewRequired(ReviewRating)} else {})
    + (if !partial && p.comment.None? then {ReviewRequired(ReviewComment)} else {})
    + (if p.rating.Some? && !(1 <= p.rating.value <= 5) then {RatingOutOfRange} else {})
  }

  /** The review serializer's `is_valid()`: the validated rating, when given,
      is in 1..5, and whatever `reviewer` the client sent is dropped. */
  function ValidateReview(p: ReviewPayload, partial: bool): (r: Result<ReviewData, set<ReviewError>>)
    ensures r.Success? <==> ReviewErrors(p, partial) == {}
    ensures r.Success? ==> r.value.rating.Some? ==> 1 <= r.value.rating.value <= 5
    ensures r.Success? && !partial ==> r.value.rating.Some? && r.value.comment.Some?
    ensures r.Success? ==> r.value.comment == p.comment && (p.rating.Some? <==> r.value.rating.Some?)
    ensures r.Success? && p.rating.Some? ==> 0 <= p.rating.value && r.value.rating == Some(p.rating.value as nat)
  {
    var es := ReviewErrors(p, partial);
    if es != {} then Failure(es)
    else Success(ReviewData(
      if p.rating.Some? then Some(p.rating.value as nat) else None,
      p.comment))
  }

  /** The client's `reviewer` has no effect on validation or its result. */
  lemma ReviewerIgnored(p: ReviewPayload, partial: bool, claimed: Option<UserId>)
    ensures ValidateReview(p.(reviewer := claimed), partial) == ValidateReview(p, partial)
  {
  }

  /** A new review from validated data; its reviewer is `author`, the user the
      request is made by, whatever the request body said. */
  function NewReview(id: ReviewId, author: UserId, d: ReviewData): (r: Review)
    requires d.rating.Some? && d.comment.Some?
    ensures r.reviewer == author && r.id == id
    ensures r.rating == d.rating.value && r.comment == d.comment.value
  {
    Review(id, author, d.rating.value, d.comment.value)
  }

  /** An update of an existing review from validated data: the rating and the
      comment may change, the reviewer and the id never do. */
  function UpdateReview(stored: Review, d: ReviewData): (r: Review)
    ensures r.reviewer == stored.reviewer && r.id == stored.id
    ensures r.rating == d.rating.GetOr(stored.rating) && r.comment == d.comment.GetOr(stored.comment)
  {
    stored.(rating := d.rating.GetOr(stored.rating), comment := d.comment.GetOr(stored.comment))
  }

  /** A review built from a successful validation carries a rating in 1..5, as
      the store requires. */
  lemma ValidatedReviewInRange(p: ReviewPayload, partial: bool, id: ReviewId, author: UserId, existing: Review)
    requires ValidateReview(p, partial).Success?
    requires 1 <= existing.rating <= 5
    ensures var d := ValidateReview(p, partial).value;
            && (!partial ==> 1 <= NewReview(id, author, d).rating <= 5)
            && 1 <= UpdateReview(existing, d).rating <= 5
  {
  }
}
