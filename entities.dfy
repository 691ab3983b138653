/** The persistent entities of the listings app: a listing row, its reviews
    and its images, with the column defaults the models declare. */
module Entities {
  import opened Wrappers

  /** Opaque identifiers (the listing id is a UUID in the source). */
  type UserId = nat
  type CategoryId = nat
  type ListingId = nat
  type ReviewId = nat
  type ImageId = nat

  /** Amounts with two decimal places (price, rating), in hundredths. */
  type Hundredths = int

  /** Coordinates with six decimal places, in millionths of a degree. */
  type Millionths = int

  /** Time of day for check-in and check-out. */
  datatype TimeOfDay = TimeOfDay(hour: nat, minute: nat, second: nat)

  /** The six choices of `listing_type`. */
  datatype ListingKind = Apartment | House | Villa | Hotel | Hostel | Resort

  /** One row of the listing table (timestamps are not modelled). */
  datatype ListingRow = ListingRow(
    id: ListingId,
    title: string,
    description: string,
    location: string,
    address: string,
    pricePerNight: Hundredths,
    listingType: ListingKind,
    category: Option<CategoryId>,
    maxGuests: nat,
    bedrooms: nat,
    bathrooms: nat,
    rating: Hundredths,
    totalReviews: nat,
    latitude: Option<Millionths>,
    longitude: Option<Millionths>,
    amenities: string,
    houseRules: string,
    checkInTime: Option<TimeOfDay>,
    checkOutTime: Option<TimeOfDay>,
    minimumNights: nat,
    maximumNights: nat,
    host: UserId,
    isActive: bool,
    featured: bool)

  /** A review row; its listing is the `Listing` object that holds it. */
  datatype Review = Review(id: ReviewId, reviewer: UserId, rating: nat, comment: string)

  /** An image row; the uploaded file itself is not modelled. */
  datatype ListingImage = ListingImage(id: ImageId, caption: string, isPrimary: bool, order: nat)

  /** The columns of a listing row, used to say which ones an operation may touch. */
  datatype Column =
    | Id | Title | Description | Location | Address | PricePerNight | ListingType
    | Category | MaxGuests | Bedrooms | Bathrooms | Rating | TotalReviews
    | Latitude | Longitude | Amenities | HouseRules | CheckInTime | CheckOutTime
    | MinimumNights | MaximumNights | Host | IsActive | Featured

  /** Rows `a` and `b` hold the same value in column `c`. */
  predicate Agree(a: ListingRow, b: ListingRow, c: Column) {
    match c
    case Id => a.id == b.id
    case Title => a.title == b.title
    case Description => a.description == b.description
    case Location => a.location == b.location
    case Address => a.address == b.address
    case PricePerNight => a.pricePerNight == b.pricePerNight
    case ListingType => a.listingType == b.listingType
    case Category => a.category == b.category
    case MaxGuests => a.maxGuests == b.maxGuests
    case Bedrooms => a.bedrooms == b.bedrooms
    case Bathrooms => a.bathrooms == b.bathrooms
    case Rating => a.rating == b.rating
    case TotalReviews => a.totalReviews == b.totalReviews
    case Latitude => a.latitude == b.latitude
    case Longitude => a.longitude == b.longitude
    case Amenities => a.amenities == b.amenities
    case HouseRules => a.houseRules == b.houseRules
    case CheckInTime => a.checkInTime == b.checkInTime
    case CheckOutTime => a.checkOutTime == b.checkOutTime
    case MinimumNights => a.minimumNights == b.minimumNights
    case MaximumNights => a.maximumNights == b.maximumNights
    case Host => a.host == b.host
    case IsActive => a.isActive == b.isActive
    case Featured => a.featured == b.featured
  }

  /** A fresh listing row for `host`: every column holds the default the model
      declares. The columns without a default (title, description, location,
      price) hold blanks that a create always overwrites, since they are required. */
  function NewListing(id: ListingId, host: UserId): (r: ListingRow)
    ensures r.id == id && r.host == host
    ensures r.rating == 0 && r.totalReviews == 0
    ensures r.isActive && !r.featured
    ensures r.minimumNights == 1 && r.maximumNights == 365
    ensures r.minimumNights <= r.maximumNights
    ensures r.listingType == Apartment && r.maxGuests == 1 && r.bedrooms == 1 && r.bathrooms == 1
    ensures r.amenities == "" && r.category == None
  {
    ListingRow(
      id := id, title := "", description := "", location := "", address := "",
      pricePerNight := 0, listingType := Apartment, category := None,
      maxGuests := 1, bedrooms := 1, bathrooms := 1,
      rating := 0, totalReviews := 0, latitude := None, longitude := None,
      amenities := "", houseRules := "", checkInTime := None, checkOutTime := None,
      minimumNights := 1, maximumNights := 365, host := host,
      isActive := true, featured := false)
  }

  /** The range the review rating validators admit. */
  predicate RatingsInRange(rs: seq<Review>) {
    forall i :: 0 <= i < |rs| ==> 1 <= rs[i].rating <= 5
  }

  /** At most one review per reviewer (per listing, since `rs` is one listing's reviews). */
  predicate ReviewersUnique(rs: seq<Review>) {
    forall i, j :: 0 <= i < j < |rs| ==> rs[i].reviewer != rs[j].reviewer
  }

  /** Primary keys of reviews are distinct. */
  predicate ReviewIdsUnique(rs: seq<Review>) {
    forall i, j :: 0 <= i < j < |rs| ==> rs[i].id != rs[j].id
  }

  /** At most one image per display order (per listing). */
  predicate ImageOrdersUnique(ims: seq<ListingImage>) {
    forall i, j :: 0 <= i < j < |ims| ==> ims[i].order != ims[j].order
  }

  /** Primary keys of images are distinct. */
  predicate ImageIdsUnique(ims: seq<ListingImage>) {
    forall i, j :: 0 <= i < j < |ims| ==> ims[i].id != ims[j].id
  }
}
