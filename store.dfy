/** A listing as the app holds it: its row, the reviews and the images that
    belong to it, the uniqueness constraints on them, and the recomputation of
    the derived rating columns whenever a review is saved. */
module Store {
  import opened Wrappers
  import opened Entities
  import opened Rating
  import opened Serializers

  /** A database constraint the write would break. */
  datatype IntegrityError =
    | DuplicateReviewer(reviewer: UserId)   // unique (listing, reviewer)
    | DuplicateImageOrder(order: nat)       // unique (listing, order)

  /** Position of the first row whose primary key is `id`, or `|xs|` when
      there is none. */
  function KeyIndex<T>(xs: seq<T>, key: T -> nat, id: nat): (k: nat)
    ensures k <= |xs|
    ensures k < |xs| ==> key(xs[k]) == id
    ensures forall j :: 0 <= j < k ==> key(xs[j]) != id
  {
    if xs == [] then 0
    else
      var k := KeyIndex(xs[..|xs| - 1], key, id);
      if k == |xs| - 1 && key(xs[k]) != id then |xs| else k
  }

  /** The primary keys of `xs` are distinct. */
  predicate KeysUnique<T>(xs: seq<T>, key: T -> nat) {
    forall i, j :: 0 <= i < j < |xs| ==> key(xs[i]) != key(xs[j])
  }

  /** `save()` on a row: an UPDATE of the row with the same primary key, or
      an INSERT at the end. The saved row is there afterwards, every other
      position keeps its row, nothing else is added, and primary keys stay
      distinct. */
  function Put<T>(xs: seq<T>, key: T -> nat, x: T): (out: seq<T>)
    ensures x in out
    ensures forall y :: y in xs && key(y) != key(x) ==> y in out
    ensures forall i :: 0 <= i < |out| && key(out[i]) != key(x) ==> i < |xs| && out[i] == xs[i]
    ensures KeysUnique(xs, key) ==>
              forall i :: 0 <= i < |out| && key(out[i]) == key(x) ==> out[i] == x
    ensures |out| == (if exists i :: 0 <= i < |xs| && key(xs[i]) == key(x) then |xs| else |xs| + 1)
    ensures KeysUnique(xs, key) ==> KeysUnique(out, key)
  {
    var k := KeyIndex(xs, key, key(x));
    if k < |xs| then
      var out := xs[k := x];
      assert out[k] == x;
      assert forall y :: y in xs && key(y) != key(x) ==> y in out by {
        forall y | y in xs && key(y) != key(x) ensures y in out {
          var i :| 0 <= i < |xs| && xs[i] == y;
          assert out[i] == y;
        }
      }
      out
    else
      var ys := xs + [x];
      assert ys[|xs|] == x;
      assert forall i :: 0 <= i < |xs| ==> ys[i] == xs[i] && key(xs[i]) != key(x);
      ys
  }

  /** Saving a row whose primary key is new is an INSERT at the end. */
  lemma PutNewKeyAppends<T>(xs: seq<T>, key: T -> nat, x: T)
    requires forall i :: 0 <= i < |xs| ==> key(xs[i]) != key(x)
    ensures Put(xs, key, x) == xs + [x]
  {
    var k := KeyIndex(xs, key, key(x));
    assert k == |xs|;
  }

  /** Another review of the listing is already by `r.reviewer`. */
  predicate ReviewerTaken(rs: seq<Review>, r: Review) {
    exists i :: 0 <= i < |rs| && rs[i].reviewer == r.reviewer && rs[i].id != r.id
  }

  /** Another image of the listing already has `im.order`. */
  predicate OrderTaken(ims: seq<ListingImage>, im: ListingImage) {
    exists i :: 0 <= i < |ims| && ims[i].order == im.order && ims[i].id != im.id
  }

  /** `save()` on a review row, keyed by its primary key. */
  function PutReview(rs: seq<Review>, r: Review): seq<Review> {
    Put(rs, (x: Review) => x.id, r)
  }

  /** `save()` on an image row, keyed by its primary key. */
  function PutImage(ims: seq<ListingImage>, im: ListingImage): seq<ListingImage> {
    Put(ims, (x: ListingImage) => x.id, im)
  }

  /** Saving a review that breaks no constraint keeps the keys and the
      reviewers unique and the ratings in range. */
  lemma PutReviewKeepsConstraints(rs: seq<Review>, r: Review)
    requires ReviewIdsUnique(rs) && ReviewersUnique(rs) && RatingsInRange(rs)
    requires !ReviewerTaken(rs, r) && 1 <= r.rating <= 5
    ensures var out := PutReview(rs, r);
            ReviewIdsUnique(out) && ReviewersUnique(out) && RatingsInRange(out) && r in out
  {
    var key := (x: Review) => x.id;
    var out := Put(rs, key, r);
    assert KeysUnique(rs, key);
    forall i, j | 0 <= i < j < |out| ensures out[i].reviewer != out[j].reviewer {
      if key(out[i]) != key(r) && key(out[j]) != key(r) {
        assert out[i] == rs[i] && out[j] == rs[j];
      } else if key(out[j]) != key(r) {
        assert out[i] == r && out[j] == rs[j];
      } else if key(out[i]) != key(r) {
        assert out[j] == r && out[i] == rs[i];
      }
    }
  }

  /** Saving an image that breaks no constraint keeps keys and orders unique. */
  lemma PutImageKeepsConstraints(ims: seq<ListingImage>, im: ListingImage)
    requires ImageIdsUnique(ims) && ImageOrdersUnique(ims) && !OrderTaken(ims, im)
    ensures var out := PutImage(ims, im);
            ImageIdsUnique(out) && ImageOrdersUnique(out) && im in out
  {
    var key := (x: ListingImage) => x.id;
    var out := Put(ims, key, im);
    assert KeysUnique(ims, key);
    forall i, j | 0 <= i < j < |out| ensures out[i].order != out[j].order {
      if key(out[i]) != key(im) && key(out[j]) != key(im) {
        assert out[i] == ims[i] && out[j] == ims[j];
      } else if key(out[j]) != key(im) {
        assert out[i] == im && out[j] == ims[j];
      } else if key(out[i]) != key(im) {
        assert out[j] == im && out[i] == ims[i];
      }
    }
  }

  /** The constraints on a listing's stored rows: unique keys, one review per
      reviewer, one image per order, ratings in 1..5, derived columns that
      agree with the reviews, a positive price and an ordered stay range. */
  predicate Invariant(row: ListingRow, rs: seq<Review>, ims: seq<ListingImage>) {
    && ReviewIdsUnique(rs) && ReviewersUnique(rs) && RatingsInRange(rs)
    && ImageIdsUnique(ims) && ImageOrdersUnique(ims)
    && Consistent(row, rs)
    && row.pricePerNight > 0
    && row.minimumNights <= row.maximumNights
  }

  /** Saving a review that breaks no constraint, then recomputing the derived
      columns, restores the invariant; the recomputation does take place,
      since the average of ratings in 1..5 is truthy. */
  lemma SaveReviewKeepsInvariant(row: ListingRow, rs: seq<Review>, ims: seq<ListingImage>, r: Review)
    requires Invariant(row, rs, ims)
    requires !ReviewerTaken(rs, r) && 1 <= r.rating <= 5
    ensures var saved := PutReview(rs, r);
            && Truthy(AverageRating(saved))
            && RoundHundredths(AverageRating(saved).value) == DerivedRating(saved)
            && Invariant(row.(rating := DerivedRating(saved), totalReviews := |saved|), saved, ims)
  {
    PutReviewKeepsConstraints(rs, r);
    TruthyIffSomeRating(PutReview(rs, r));
  }

  /** A listing object together with its `reviews` and `images` relations. */
  class Listing {
    var row: ListingRow
    var reviews: seq<Review>
    var images: seq<ListingImage>

    /** The listing's rows meet `Invariant`. */
    ghost predicate Valid()
      reads this
    {
      Invariant(row, reviews, images)
    }

    /** A listing created through the create serializer, with no reviews or images yet. */
    constructor (id: ListingId, host: UserId, p: ListingPayload)
      requires CreateListing(id, host, p).Success?
      ensures Valid()
      ensures row == CreateListing(id, host, p).value
      ensures reviews == [] && images == []
    {
      row := CreateListing(id, host, p).value;
      reviews := [];
      images := [];
    }

    /** `update_rating`: when the average rating is truthy, the rating becomes
        the rounded average and the count the number of reviews; otherwise (no
        review, or only ratings of 0) nothing changes, in particular the rating
        is not reset. Only these two columns are written. */
    method UpdateRating()
      modifies this`row
      ensures Truthy(AverageRating(reviews)) ==>
        row == old(row).(rating := RoundHundredths(AverageRating(reviews).value), totalReviews := |reviews|)
      ensures !Truthy(AverageRating(reviews)) ==> row == old(row)
      ensures RatingsInRange(reviews) && reviews != [] ==> Consistent(row, reviews)
    {
      var avgRating := AverageRating(reviews);
      if avgRating.Some? && avgRating.value.num != 0 {
        row := row.(rating := RoundHundredths(avgRating.value), totalReviews := |reviews|);
      }
      TruthyIffSomeRating(reviews);
    }

    /** `Review.save`: store the review (update by primary key, or insert),
        failing with an integrity error if another review of this listing has
        the same reviewer; then `update_rating`. */
    method SaveReview(r: Review) returns (res: Result<(), IntegrityError>)
      requires Valid()
      requires 1 <= r.rating <= 5
      modifies this`reviews, this`row
      ensures Valid()
      ensures res.Failure? <==> ReviewerTaken(old(reviews), r)
      ensures res.Failure? ==>
        res.error == DuplicateReviewer(r.reviewer) && reviews == old(reviews) && row == old(row)
      ensures res.Success? ==> reviews == PutReview(old(reviews), r) && r in reviews
      ensures res.Success? ==>
        row == old(row).(rating := DerivedRating(reviews), totalReviews := |reviews|)
    {
      if ReviewerTaken(reviews, r) {
        return Failure(DuplicateReviewer(r.reviewer));
      }
      SaveReviewKeepsInvariant(row, reviews, images, r);
      reviews := PutReview(reviews, r);
      UpdateRating();
      return Success(());
    }

    /** Saving an image: update by primary key or insert, failing with an
        integrity error if another image of this listing has the same order. */
    method SaveImage(im: ListingImage) returns (res: Result<(), IntegrityError>)
      requires Valid()
      modifies this`images
      ensures Valid()
      ensures res.Failure? <==> OrderTaken(old(images), im)
      ensures res.Failure? ==> res.error == DuplicateImageOrder(im.order) && images == old(images)
      ensures res.Success? ==> images == PutImage(old(images), im) && im in images
    {
      if OrderTaken(images, im) {
        return Failure(DuplicateImageOrder(im.order));
      }
      PutImageKeepsConstraints(images, im);
      images := PutImage(images, im);
      return Success(());
    }

    /** An update through the create/update serializer (`partial` for PATCH),
        with the corrected nights check: on success the supplied writable
        columns change and nothing else; on failure nothing changes. */
    method Update(p: ListingPayload, partial: bool) returns (res: Result<(), set<FieldError>>)
      requires Valid()
      modifies this`row
      ensures Valid()
      ensures res.Success? <==> CheckedListingErrors(old(row), p, partial) == {}
      ensures res.Failure? ==> res.error == CheckedListingErrors(old(row), p, partial) && row == old(row)
      ensures res.Success? ==> row == ApplyPayload(old(row), p)
    {
      match ValidateListingChecked(row, p, partial)
      case Failure(es) =>
        return Failure(es);
      case Success(data) =>
        CheckedKeepsNightsOrdered(row, data, partial);
        ProtectedColumns(row, data);
        row := ApplyPayload(row, data);
        return Success(());
    }

  }

  /** The listing the scenario below creates passes the create validation. */
  lemma LoftCreates()
    ensures CreateListing(1, 7, MinimalPayload("Loft", "Bright", "Nairobi", 10000)).Success?
  {
    var p := MinimalPayload("Loft", "Bright", "Nairobi", 10000);
    assert RequiredErrors(p, false) == {};
    assert PriceErrors(p) == {};
    assert CheckedListingErrors(NewListing(1, 7), p, false) == {};
  }

  /** Two guests review a new listing with 4 and 2 stars, one `save()` each:
      the listing then shows a rating of 3.00 over two reviews. */
  method TwoReviewsScenario() returns (l: Listing)
    ensures l.Valid()
    ensures l.reviews == [Review(1, 10, 4, ""), Review(2, 11, 2, "")]
    ensures l.row.rating == 300 && l.row.totalReviews == 2
  {
    var first, second := Review(1, 10, 4, ""), Review(2, 11, 2, "");
    LoftCreates();
    l := new Listing(1, 7, MinimalPayload("Loft", "Bright", "Nairobi", 10000));
    PutNewKeyAppends([], (x: Review) => x.id, first);
    var res := l.SaveReview(first);
    PutNewKeyAppends([first], (x: Review) => x.id, second);
    res := l.SaveReview(second);
    TwoReviewsExample();
  }
}
