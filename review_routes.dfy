/** The review handlers of backend/app/routes/review_routes.py: a rider of a
    completed ride reviews its driver once; only the author edits or deletes a
    review; the listings filter the reviews table. */
module ReviewRoutes {
  import opened Common
  import opened Models
  import opened Store

  /** The JSON body of POST /reviews; None marks a missing key. */
  datatype CreateReviewBody = CreateReviewBody(
    driverId: Option<int>,
    rideId: Option<int>,
    stars: Option<real>,
    comment: Option<string>)

  predicate HasReviewFields(b: CreateReviewBody)
  {
    b.driverId.Some? && b.rideId.Some? && b.stars.Some? && b.comment.Some?
  }

  /** POST /reviews. Every field is checked before any lookup, the stars range
      before the tables are read, and the author is always the caller. */
  method CreateReview(db: Database, caller: UserId, body: CreateReviewBody) returns (status: int)
    requires db.Valid() && caller in db.users
    modifies db
    ensures db.Valid()
    ensures var t := old(db.Snapshot());
      if !HasReviewFields(body) then status == BAD_REQUEST && db.Snapshot() == t
      else if !StarsInRange(body.stars.value) then status == BAD_REQUEST && db.Snapshot() == t
      else if body.driverId.value !in t.drivers then status == NOT_FOUND && db.Snapshot() == t
      else if body.rideId.value !in t.rides then status == NOT_FOUND && db.Snapshot() == t
      else var ride := t.rides[body.rideId.value];
      if ride.driverId != Some(body.driverId.value) then status == BAD_REQUEST && db.Snapshot() == t
      else if ride.status != COMPLETED then status == FORBIDDEN && db.Snapshot() == t
      else if !HasRiderRecord(t.riders, caller, body.rideId.value) then status == FORBIDDEN && db.Snapshot() == t
      else if HasReview(t.reviews, body.rideId.value, caller) then status == CONFLICT && db.Snapshot() == t
      else
        var rev := Review(body.driverId.value, caller, body.rideId.value, body.stars.value, body.comment.value);
        if !ReviewRowFits(rev) then status == BAD_REQUEST && db.Snapshot() == t
        else status == CREATED && db.Snapshot() == t.(reviews := t.reviews[t.next.review := rev],
                                                      next := t.next.(review := t.next.review + 1))
  {
    var t := db.Snapshot();
    if !HasReviewFields(body) {
      return BAD_REQUEST;
    }
    if !StarsInRange(body.stars.value) {
      return BAD_REQUEST;
    }
    var driverId, rideId := body.driverId.value, body.rideId.value;
    if driverId !in t.drivers || rideId !in t.rides {
      return NOT_FOUND;
    }
    var ride := t.rides[rideId];
    if ride.driverId != Some(driverId) {
      return BAD_REQUEST;
    }
    if ride.status != COMPLETED {
      return FORBIDDEN;
    }
    if !HasRiderRecord(t.riders, caller, rideId) {
      return FORBIDDEN;
    }
    if HasReview(t.reviews, rideId, caller) {
      return CONFLICT;
    }
    var rev := Review(driverId, caller, rideId, body.stars.value, body.comment.value);
    if !ReviewRowFits(rev) {
      return BAD_REQUEST;
    }
    InsertReviewKeepsConsistent(t, rev);
    db.Commit(t.(reviews := t.reviews[t.next.review := rev], next := t.next.(review := t.next.review + 1)));
    return CREATED;
  }

  /** The review as PUT /reviews/<id> leaves it: each field present in the body
      replaces the stored one. */
  function EditedReview(r: Review, stars: Option<real>, comment: Option<string>): (e: Review)
    ensures e.driverId == r.driverId && e.authorId == r.authorId && e.rideId == r.rideId
    ensures e.stars == (if stars.Some? then stars.value else r.stars)
    ensures e.comment == (if comment.Some? then comment.value else r.comment)
  {
    r.(stars := stars.GetOr(r.stars), comment := comment.GetOr(r.comment))
  }

  /** PUT /reviews/<id>: author only; out-of-range stars are refused before
      either field is written. */
  method UpdateReview(db: Database, caller: UserId, reviewId: RecordId, stars: Option<real>, comment: Option<string>)
    returns (status: int)
    requires db.Valid()
    modifies db
    ensures db.Valid()
    ensures var t := old(db.Snapshot());
      if reviewId !in t.reviews then status == NOT_FOUND && db.Snapshot() == t
      else if t.reviews[reviewId].authorId != caller then status == FORBIDDEN && db.Snapshot() == t
      else if stars.Some? && !StarsInRange(stars.value) then status == BAD_REQUEST && db.Snapshot() == t
      else
        var e := EditedReview(t.reviews[reviewId], stars, comment);
        if !ReviewRowFits(e) then status == BAD_REQUEST && db.Snapshot() == t
        else status == OK && db.Snapshot() == t.(reviews := t.reviews[reviewId := e])
  {
    var t := db.Snapshot();
    if reviewId !in t.reviews {
      return NOT_FOUND;
    }
    if t.reviews[reviewId].authorId != caller {
      return FORBIDDEN;
    }
    if stars.Some? && !StarsInRange(stars.value) {
      return BAD_REQUEST;
    }
    var e := EditedReview(t.reviews[reviewId], stars, comment);
    if !ReviewRowFits(e) {
      return BAD_REQUEST;
    }
    ReplaceReviewKeepsConsistent(t, reviewId, e);
    db.Commit(t.(reviews := t.reviews[reviewId := e]));
    return OK;
  }

  /** DELETE /reviews/<id>: author only. */
  method DeleteReview(db: Database, caller: UserId, reviewId: RecordId) returns (status: int)
    requires db.Valid()
    modifies db
    ensures db.Valid()
    ensures var t := old(db.Snapshot());
      if reviewId !in t.reviews then status == NOT_FOUND && db.Snapshot() == t
      else if t.reviews[reviewId].authorId != caller then status == FORBIDDEN && db.Snapshot() == t
      else status == OK && db.Snapshot() == t.(reviews := t.reviews - {reviewId})
  {
    var t := db.Snapshot();
    if reviewId !in t.reviews {
      return NOT_FOUND;
    }
    if t.reviews[reviewId].authorId != caller {
      return FORBIDDEN;
    }
    RemoveReviewKeepsConsistent(t, reviewId);
    db.Commit(t.(reviews := t.reviews - {reviewId}));
    return OK;
  }

  // ---------------------------------------------------------------- listings

  /** The query parameters of GET /reviews; None when absent or not a number. */
  datatype ReviewFilter = ReviewFilter(
    driverId: Option<int>,
    authorId: Option<int>,
    rideId: Option<int>,
    minStars: Option<real>)

  /** GET /reviews: the reviews passing every supplied filter, min_stars inclusive. */
  function GetReviews(reviews: map<RecordId, Review>, f: ReviewFilter): (r: set<RecordId>)
    ensures r <= reviews.Keys
    ensures f.driverId.Some? ==> forall id :: id in r ==> reviews[id].driverId == f.driverId.value
    ensures f.authorId.Some? ==> forall id :: id in r ==> reviews[id].authorId == f.authorId.value
    ensures f.rideId.Some? ==> forall id :: id in r ==> reviews[id].rideId == f.rideId.value
    ensures f.minStars.Some? ==> forall id :: id in r ==> reviews[id].stars >= f.minStars.value
  {
    set id | id in reviews
      && (f.driverId.None? || reviews[id].driverId == f.driverId.value)
      && (f.authorId.None? || reviews[id].authorId == f.authorId.value)
      && (f.rideId.None? || reviews[id].rideId == f.rideId.value)
      && (f.minStars.None? || reviews[id].stars >= f.minStars.value)
  }

  /** Without filters GET /reviews lists the whole table; adding a filter can only
      drop reviews. */
  lemma {:induction false} GetReviewsNarrows(reviews: map<RecordId, Review>, f: ReviewFilter)
    ensures GetReviews(reviews, ReviewFilter(None, None, None, None)) == reviews.Keys
    ensures GetReviews(reviews, f) <= GetReviews(reviews, f.(minStars := None))
    ensures GetReviews(reviews, f) <= GetReviews(reviews, f.(driverId := None))
  {
    var all := GetReviews(reviews, ReviewFilter(None, None, None, None));
    assert forall id :: id in all <==> id in reviews.Keys;
  }

  datatype DriverReviews = DriverReviews(total: nat, reviews: set<RecordId>)

  /** GET /drivers/<id>/reviews: the driver's reviews of at least min_stars, and
      the count of all the driver's reviews, filter or not. */
  function GetDriverReviews(t: Tables, driverId: DriverId, minStars: Option<real>): (r: Result<DriverReviews>)
    ensures r.Err? <==> driverId !in t.drivers
    ensures r.Ok? ==> r.value.total == |ReviewsOf(t.reviews, driverId)|
    ensures r.Ok? ==> forall id :: id in r.value.reviews <==>
      id in ReviewsOf(t.reviews, driverId) && (minStars.None? || t.reviews[id].stars >= minStars.value)
  {
    if driverId !in t.drivers then Err("Driver not found")
    else Ok(DriverReviews(|ReviewsOf(t.reviews, driverId)|,
                          GetReviews(t.reviews, ReviewFilter(Some(driverId), None, None, minStars))))
  }

  /** The attributes a DriverData row has: the columns and the two relationships
      backend/app/models/driver_data.py declares, and the `reviews` relationship
      that Review.driver (backend/app/models/review.py:17) names as its reverse. */
  const DRIVER_DATA_ATTRIBUTES: set<string> :=
    {"id", "license_image", "vehicle_data", "license_plate", "is_approved", "approved_at",
     "user_id", "user", "hosted_rides", "reviews"}

  /** GET /drivers/<id>/reviews as written: the response reads
      driver.average_rating, which DriverData does not have, and the except answers
      400 for the AttributeError. */
  function GetDriverReviewsAsWritten(t: Tables, driverId: DriverId, minStars: Option<real>)
    : (r: (int, Option<DriverReviews>))
    ensures r.0 == OK <==> r.1.Some?
    ensures driverId !in t.drivers ==> r.0 == NOT_FOUND
    ensures r.0 == OK ==> Ok(r.1.value) == GetDriverReviews(t, driverId, minStars)
  {
    if driverId !in t.drivers then (NOT_FOUND, None)
    else if "average_rating" !in DRIVER_DATA_ATTRIBUTES then (BAD_REQUEST, None)
    else (OK, Some(GetDriverReviews(t, driverId, minStars).value))
  }

  /** As written, every existing driver's reviews answer 400, where the intended
      handler lists them. */
  lemma AsWrittenRefusesEveryDriver(t: Tables, driverId: DriverId, minStars: Option<real>)
    requires driverId in t.drivers
    ensures GetDriverReviewsAsWritten(t, driverId, minStars) == (BAD_REQUEST, None)
    ensures GetDriverReviews(t, driverId, minStars).Ok?
  {
    assert |"average_rating"| == 14;
  }

  /** The count never falls below the number listed. */
  lemma {:induction false} TotalCoversListing(t: Tables, driverId: DriverId, minStars: Option<real>)
    requires driverId in t.drivers
    ensures |GetDriverReviews(t, driverId, minStars).value.reviews| <= GetDriverReviews(t, driverId, minStars).value.total
  {
    var r := GetDriverReviews(t, driverId, minStars).value;
    assert r.reviews <= ReviewsOf(t.reviews, driverId);
    SubsetCardinality(r.reviews, ReviewsOf(t.reviews, driverId));
  }
}
