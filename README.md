# Travel listings: listing/review store, amenities parsing and write validation

A Dafny model of the core of a Django travel-listings app: a listing row
(price, stay limits, amenities and the two derived columns `rating` and
`total_reviews`), the reviews and images that belong to it, the rating
recomputation that runs whenever a review is saved, the `amenities_list`
property, and the write side of the REST serializers (which fields a client
may write, the price and maximum-nights validators, the read-only reviewer).

Layout:

- `wrappers.dfy` — `Option` and `Result`.
- `entities.dfy` — `ListingRow`, `Review`, `ListingImage`, the `Column`
  enumeration, the column defaults of a new listing, the uniqueness and
  range predicates.
- `amenities.dfy` — `AmenityParsing`: `split(',')`, `strip()` and
  `amenities_list`.
- `rating.dfy` — `Rating`: the `Avg('rating')` aggregate (kept exact), rounding
  to hundredths, truthiness of the aggregate, the derived rating and its bounds.
- `serializers.dfy` — `Serializers`: writable fields, applying validated data,
  the two listing validators (as written and corrected), the review
  serializer.
- `store.dfy` — `Store`: class `Listing` holding the row, its reviews and its
  images, with `UpdateRating`, `SaveReview`, `SaveImage` and `Update`.

Representation choices: decimal columns with two places (price, rating) are
integers in hundredths; coordinates are integers in millionths; identifiers,
users and categories are natural numbers; text is `seq<char>`. The average
rating is kept as an exact fraction `sum / count`, and the rounded rating is
only required to lie within half a hundredth of it.

`update_rating` leaves `rating` and `total_reviews` untouched when there is
no review, so it does not reset the rating to 0. It also leaves them
untouched when the average is 0, because the test is the truth value of the
average (models.py:95).

## Model

| member | source | states |
|---|---|---|
| `AmenityParsing.Split` | alx_travel_app/alx_travel_app/listings/models.py:88 | `split(',')` yields one more piece than there are commas, and no piece contains a comma |
| `AmenityParsing.JoinSplit` | alx_travel_app/alx_travel_app/listings/models.py:88 | joining the pieces with commas gives back the text, so the pieces keep the original order and lose nothing |
| `AmenityParsing.SplitJoin` | alx_travel_app/alx_travel_app/listings/models.py:88 | comma-free pieces joined with commas split back into the same pieces (the converse round trip) |
| `AmenityParsing.Lead` | alx_travel_app/alx_travel_app/listings/models.py:88 | the start of the stripped text is the first non-whitespace index, with only whitespace before it |
| `AmenityParsing.Trail` | alx_travel_app/alx_travel_app/listings/models.py:88 | the end of the stripped text follows the last non-whitespace character, with only whitespace after it |
| `AmenityParsing.Strip` | alx_travel_app/alx_travel_app/listings/models.py:88 | `strip()` cuts a whitespace-only prefix and suffix and leaves no whitespace at either edge; it adds no character |
| `AmenityParsing.SameCut` | alx_travel_app/alx_travel_app/listings/models.py:88 | two cuts of whitespace margins that both leave clean edges leave the same middle |
| `AmenityParsing.StripUnique` | alx_travel_app/alx_travel_app/listings/models.py:88 | any result meeting the meaning of `strip()` equals `Strip`, so `Strip` is that meaning |
| `AmenityParsing.StripClean` | alx_travel_app/alx_travel_app/listings/models.py:88 | stripping text with clean edges changes nothing, so stripping is idempotent |
| `AmenityParsing.AmenitiesList` | alx_travel_app/alx_travel_app/listings/models.py:84-89 | empty amenities give no entries; otherwise one entry per comma-separated piece, in order, each the strip of its piece, none with edge whitespace or a comma |
| `AmenityParsing.ListAgain` | alx_travel_app/alx_travel_app/listings/models.py:84-89 | listing again the entries joined with commas gives the same entries |
| `Entities.NewListing` | alx_travel_app/alx_travel_app/listings/models.py:35-65 | a new listing has rating 0, no reviews, is active and not featured, stays of 1 to 365 nights (so minimum <= maximum), type apartment, one guest, bedroom and bathroom |
| `Rating.SumBounds` | alx_travel_app/alx_travel_app/listings/models.py:122-124 | with every rating in 1..5 the rating sum lies between the count and five times the count |
| `Rating.ZeroSum` | alx_travel_app/alx_travel_app/listings/models.py:94-95 | a zero rating sum means every stored rating is 0 |
| `Rating.NonZeroSumWitness` | alx_travel_app/alx_travel_app/listings/models.py:94-95 | a non-zero rating sum contains a non-zero rating |
| `Rating.AverageRating` | alx_travel_app/alx_travel_app/listings/models.py:94 | the aggregate has no value exactly when there are no reviews, and otherwise is the rating sum over the review count |
| `Rating.TruthyIffSomeRating` | alx_travel_app/alx_travel_app/listings/models.py:94-95 | the `if avg_rating:` test passes exactly when some stored rating is non-zero; with ratings in 1..5, exactly when there is a review |
| `Rating.RoundHundredths` | alx_travel_app/alx_travel_app/listings/models.py:96 | `round(avg, 2)` is within half a hundredth of the exact average |
| `Rating.RoundedInRange` | alx_travel_app/alx_travel_app/listings/models.py:46-50 | an average between 1 and 5 rounds to 1.00 .. 5.00 |
| `Rating.RoundedBetween` | alx_travel_app/alx_travel_app/listings/models.py:46-50 | the arithmetic behind that bound: a value within half a unit of an average in [1, 5] lies in 100..500 hundredths |
| `Rating.DerivedRatingBounds` | alx_travel_app/alx_travel_app/listings/models.py:46-50 | the derived rating stays in [0, 5], is at least 1.00 once there is a review, and is the mean to within 0.005 |
| `Rating.TwoReviewsExample` | alx_travel_app/alx_travel_app/listings/models.py:91-97 | ratings 4 and 2 give a derived rating of 3.00 |
| `Serializers.GivesOnlyWritable` | alx_travel_app/alx_travel_app/listings/serializers.py:82-87 | a request can only give values for the columns in the serializer's field list |
| `Serializers.ApplyPayload` | alx_travel_app/alx_travel_app/listings/serializers.py:82-87 | saving validated data sets each supplied column to the supplied value and leaves every other column as it was |
| `Serializers.ProtectedColumns` | alx_travel_app/alx_travel_app/listings/serializers.py:82-87 | no create or update through the serializer changes id, rating, total_reviews, host, is_active or featured |
| `Serializers.ValidatePricePerNight` | alx_travel_app/alx_travel_app/listings/serializers.py:89-92 | a price is accepted exactly when positive, and is then returned unchanged; otherwise the price error |
| `Serializers.ValidateMaximumNights` | alx_travel_app/alx_travel_app/listings/serializers.py:94-98 | a maximum is accepted exactly when it is at least the request's minimum, or at least 1 when the minimum is absent, and is then returned unchanged |
| `Serializers.RequiredErrors` | alx_travel_app/alx_travel_app/listings/models.py:36-40 | a full (non-partial) write reports a missing-field error for each of title, description, location and price exactly when it is absent, and has no such error exactly when all four are given; a partial write has none |
| `Serializers.ValidateListing` | alx_travel_app/alx_travel_app/listings/serializers.py:77-98 | validation as written: accepted data is returned unchanged, has a positive price if one is given, a maximum no lower than the request's minimum (or 1) if one is given, and the required fields on a full write |
| `Serializers.AsWrittenAdmitsInvertedStay` | alx_travel_app/alx_travel_app/listings/serializers.py:94-98 | as written, a create with minimum 400 and no maximum, and a partial update giving maximum 3 to a listing with minimum 5, both pass and leave minimum > maximum |
| `Serializers.ValidateListingChecked` | alx_travel_app/alx_travel_app/listings/serializers.py:89-98 | corrected validation: accepted exactly when its error set is empty, returning the data unchanged |
| `Serializers.CheckedKeepsNightsOrdered` | alx_travel_app/alx_travel_app/listings/serializers.py:89-98 | the corrected validation accepts exactly the writes with the required fields, a positive given price and a resulting row with minimum <= maximum, and differs from the written one only in the nights check |
| `Serializers.CreateListing` | alx_travel_app/alx_travel_app/listings/models.py:35-65 | a create succeeds exactly when the corrected validation does, failing with its errors; the created row is the model's defaults overwritten by every column the request gives (so title, description, location and price are the requested ones), with the requested id and host, rating 0 over 0 reviews, active, not featured, a positive price, minimum and maximum from the request or 1 and 365, and minimum <= maximum |
| `Serializers.ValidateReview` | alx_travel_app/alx_travel_app/listings/models.py:122-124 | review validation accepts exactly an empty error set; an accepted rating is the rating the client sent and lies in 1..5; the comment is the one sent; a full write has rating and comment; the validated data has no reviewer |
| `Serializers.ReviewerIgnored` | alx_travel_app/alx_travel_app/listings/serializers.py:19-25 | the reviewer a client sends changes neither the outcome nor the data of validation |
| `Serializers.NewReview` | alx_travel_app/alx_travel_app/listings/serializers.py:25 | a new review's reviewer is the requesting user, with the validated rating and comment |
| `Serializers.UpdateReview` | alx_travel_app/alx_travel_app/listings/serializers.py:25 | updating a review may change rating and comment but never the reviewer or the id |
| `Serializers.ValidatedReviewInRange` | alx_travel_app/alx_travel_app/listings/models.py:122-124 | reviews built from validated data carry ratings in 1..5, as the store requires |
| `Store.KeyIndex` | alx_travel_app/alx_travel_app/listings/models.py:137 | the position found is the first row with the primary key, or no row has it |
| `Store.Put` | alx_travel_app/alx_travel_app/listings/models.py:136-137 | `save()` as UPDATE-or-INSERT by primary key: the saved row is present, every row with another key keeps its position, no row is added when the key exists and one is added otherwise, and distinct keys stay distinct |
| `Store.PutNewKeyAppends` | alx_travel_app/alx_travel_app/listings/models.py:137 | saving a row whose primary key no stored row has appends it after the existing rows |
| `Store.PutReviewKeepsConstraints` | alx_travel_app/alx_travel_app/listings/models.py:131-137 | saving a review whose reviewer has no other review of the listing keeps primary keys and reviewers unique and ratings in range, and the review is stored |
| `Store.PutImageKeepsConstraints` | alx_travel_app/alx_travel_app/listings/models.py:110-112 | saving an image whose order no other image of the listing uses keeps primary keys and display orders unique, and the image is stored |
| `Store.SaveReviewKeepsInvariant` | alx_travel_app/alx_travel_app/listings/models.py:136-139 | saving a valid review and recomputing restores every listing constraint, and the recomputation is not skipped |
| `Store.Listing.constructor` | alx_travel_app/alx_travel_app/listings/models.py:35-65 | a listing created through the serializer meets the invariant and has no reviews or images |
| `Store.Listing.UpdateRating` | alx_travel_app/alx_travel_app/listings/models.py:91-98 | with a truthy average, rating becomes the rounded average and total_reviews the count; otherwise nothing changes (no reset to 0); no other column is written |
| `Store.Listing.SaveReview` | alx_travel_app/alx_travel_app/listings/models.py:131-139 | fails exactly when another review of the listing has the same reviewer, changing nothing; otherwise stores the review and leaves rating and total_reviews consistent with the reviews; the invariant holds |
| `Store.Listing.SaveImage` | alx_travel_app/alx_travel_app/listings/models.py:110-112 | fails exactly when another image of the listing has the same order, changing nothing; otherwise stores the image; orders stay unique |
| `Store.Listing.Update` | alx_travel_app/alx_travel_app/listings/serializers.py:77-98 | an update succeeds exactly when the corrected validation finds no error, then writes only the supplied writable columns; on failure nothing changes; the invariant (including minimum <= maximum) holds |
| `Store.TwoReviewsScenario` | alx_travel_app/alx_travel_app/listings/models.py:136-139 | a new listing given two reviews of 4 and 2 stars by two guests, one `save()` each, holds both reviews and shows rating 3.00 over two reviews, with the invariant kept |

## Findings

| source | as written | input that shows it | evidently intended | confidence | as-written member | corrected member |
|---|---|---|---|---|---|---|
| alx_travel_app/alx_travel_app/listings/serializers.py:94-98 | the maximum-nights check runs only when the request gives `maximum_nights`, and compares it with the request's `minimum_nights` or 1, never with the stored or default values | a create giving `minimum_nights` 400 and no maximum (default 365); a partial update giving `maximum_nights` 3 to a listing whose minimum is 5 | every accepted write leaves `minimum_nights <= maximum_nights` on the stored row, as the error message says | medium, not executed | `Serializers.AsWrittenAdmitsInvertedStay` | `Serializers.CheckedKeepsNightsOrdered` |

The as-written validation is `Serializers.ValidateListing`; the corrected one
is `Serializers.ValidateListingChecked`. It compares the maximum and minimum
the row will hold after the write, and it runs on every write. The create
path (`Serializers.CreateListing`) and `Store.Listing.Update` use the
corrected one.

## Left out

- Web views, both URL tables and the app configuration: a static welcome response, routing and module loading, with no logic.
- ORM queries and persistence: `aggregate`, `count` and `filter` become functions over the listing's in-memory review and image sequences; transactions and `save(update_fields=...)` are not modelled.
- Store.Listing.SaveReview: takes the 1..5 range of the rating validators as a precondition. Django's `Model.save()` does not run field validators; the review serializer does (`Serializers.ValidateReview`). `UpdateRating` itself has no such precondition and models a stored rating of 0.
- Rating.RoundHundredths: states only the half-hundredth bound; ties round upwards here, while Python rounds the binary float half-to-even.
- Primary-key generation, UUIDs for listings, `auto_now`/`auto_now_add` timestamps and the `User` model: identifiers and users are parameters.
- The default orderings in the `Meta` classes (by timestamps, image order) only affect query results and are not modelled.
- Each `Listing` object holds only its own reviews and images, so the unique (listing, reviewer) and (listing, order) pairs become a unique reviewer and a unique order within one object; moving a review or image to another listing is not modelled.
- `get_absolute_url`, `get_primary_image` and the image upload: URL building and file storage are library calls.
- The read-only serializers (list, detail, category, host) only shape responses.
- Category rows (unique name, null-on-delete) are reduced to an optional category id.
- Field-level type and format checks of the framework: string-to-integer coercion, `max_length`, decimal digit limits, `null` sent for a non-nullable field, the blank-string rejection (`allow_blank=False`) on `title`, `description`, `location` and the review `comment`, and the 0..2147483647 range of `PositiveIntegerField`; so `ValidateListing` and `ValidateReview` accept empty strings that the framework rejects. Payload fields have the column types.
- The host-only permission check, soft delete and the search/filter layer are not part of the code modelled here.
- Review deletion: reviews are deleted through Django's inherited `delete()` and through the cascades from the listing and from the reviewer (models.py:120-121); nothing recomputes `rating` and `total_reviews` then, so they go stale. The model has no delete operation, and `Consistent` would not survive one.
