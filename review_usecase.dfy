/**
 * The review use case (internal/usecase/review_usecase.go): a customer
 * reviews one of their own checked-out bookings, at most once.  The checks
 * run in a fixed order and the only write is the final insert.
 */
module ReviewUseCase {
  import opened Wrappers
  import opened Errors
  import opened Status
  import opened Models
  import opened Database
  import opened BookingRepository

  /** `dto.CreateReviewRequest`. */
  datatype CreateReviewRequest = CreateReviewRequest(bookingId: nat, roomId: nat, rating: int, comment: string)

  /** `COUNT(*)` of the reviews of a booking. */
  function ReviewCount(rs: seq<Review>, bookingId: nat): (n: nat)
    ensures n > 0 <==> exists k :: 0 <= k < |rs| && rs[k].bookingId == bookingId
  {
    if rs == [] then 0
    else
      var n := |rs| - 1;
      assert forall k :: 0 <= k < n ==> rs[..n][k] == rs[k];
      ReviewCount(rs[..n], bookingId) + (if rs[n].bookingId == bookingId then 1 else 0)
  }

  /** The review a successful call stores. */
  function NewReview(req: CreateReviewRequest, userId: nat): Review
  {
    Review(userId, req.bookingId, req.roomId, req.rating, req.comment)
  }

  /**
   * `CreateReview`: the booking must exist, belong to the caller (a failed
   * lookup and another user's booking share one error), be checked out
   * and have no review yet; then the review is inserted.
   */
  function CreateReviewSpec(t: Tables, req: CreateReviewRequest, userId: nat, fails: set<DbStep>): (r: (Tables, Option<Error>))
  {
    match GetBookingByID(t.bookings, req.bookingId, LookupBooking in fails)
    case NotFound => (t, Some(BookingNotFound))
    case QueryFailed => (t, Some(FailedToGetBooking))
    case Found(_, booking) =>
      if booking.userId != userId then (t, Some(FailedToGetBooking))
      else if booking.status != CheckedOut then (t, Some(BookingNotCheckedOut))
      else if CheckReview in fails then (t, Some(ReviewCheckFailed))
      else if ReviewCount(t.reviews, req.bookingId) > 0 then (t, Some(ReviewAlreadyExists))
      else if InsertReview in fails then (t, Some(FailedToCreateReview))
      else (t.(reviews := t.reviews + [NewReview(req, userId)]), None)
  }

  /** `CreateReview` on the store. */
  method CreateReview(db: Store, req: CreateReviewRequest, userId: nat, fails: set<DbStep>) returns (err: Option<Error>)
    modifies db
    ensures (db.Snapshot(), err) == CreateReviewSpec(old(db.Snapshot()), req, userId, fails)
  {
    var found := GetBookingByID(db.bookings, req.bookingId, LookupBooking in fails);
    if found.NotFound? {
      return Some(BookingNotFound);
    }
    if found.QueryFailed? || found.row.userId != userId {
      return Some(FailedToGetBooking);
    }
    if found.row.status != CheckedOut {
      return Some(BookingNotCheckedOut);
    }
    if CheckReview in fails {
      return Some(ReviewCheckFailed);
    }
    var reviewed := ReviewCount(db.reviews, req.bookingId) > 0;
    if reviewed {
      return Some(ReviewAlreadyExists);
    }
    var review := NewReview(req, userId);
    if InsertReview in fails {
      return Some(FailedToCreateReview);
    }
    db.reviews := db.reviews + [review];
    return None;
  }

  // ----- what CreateReview promises -----

  /** The booking already has a review. */
  predicate Reviewed(t: Tables, bookingId: nat)
  {
    exists k :: 0 <= k < |t.reviews| && t.reviews[k].bookingId == bookingId
  }

  /** A missing booking and a failed lookup are reported first; no error writes anything. */
  lemma CreateReviewLookupErrors(t: Tables, req: CreateReviewRequest, userId: nat, fails: set<DbStep>)
    ensures var r := CreateReviewSpec(t, req, userId, fails);
      && (r.1.Some? ==> r.0 == t)
      && (LookupBooking in fails ==> r.1 == Some(FailedToGetBooking))
      && ((LookupBooking !in fails && forall i :: !At(t, i, req.bookingId)) ==> r.1 == Some(BookingNotFound))
  {
    if LookupBooking !in fails && forall i :: !At(t, i, req.bookingId) {
      forall j | 0 <= j < |t.bookings|
        ensures t.bookings[j].id != req.bookingId
      {
        assert !At(t, j, req.bookingId);
      }
    }
  }

  /**
   * Once the booking is found, the checks come in this order: the owner,
   * then the status, then the review check, then an existing review.
   */
  lemma CreateReviewCheckOrder(t: Tables, req: CreateReviewRequest, userId: nat, fails: set<DbStep>, i: nat)
    requires BookingIdsValid(t) && LookupBooking !in fails && At(t, i, req.bookingId)
    ensures var b := t.bookings[i];
      var r := CreateReviewSpec(t, req, userId, fails);
      && (b.userId != userId ==> r.1 == Some(FailedToGetBooking))
      && (b.userId == userId && b.status != CheckedOut ==> r.1 == Some(BookingNotCheckedOut))
      && (b.userId == userId && b.status == CheckedOut && CheckReview in fails ==> r.1 == Some(ReviewCheckFailed))
      && ((b.userId == userId && b.status == CheckedOut && CheckReview !in fails && Reviewed(t, req.bookingId))
          ==> r.1 == Some(ReviewAlreadyExists))
  {
    LookupFindsTheRow(t, i, req.bookingId);
  }

  /**
   * A successful call adds exactly one review, carrying the caller and the
   * request's booking, room, rating and comment, for a checked-out booking
   * of the caller that had none; nothing else changes.
   */
  lemma CreateReviewEffects(t: Tables, req: CreateReviewRequest, userId: nat, fails: set<DbStep>)
    requires CreateReviewSpec(t, req, userId, fails).1.None?
    ensures exists i :: At(t, i, req.bookingId) && t.bookings[i].userId == userId && t.bookings[i].status == CheckedOut
    ensures !Reviewed(t, req.bookingId)
    ensures CreateReviewSpec(t, req, userId, fails).0 ==
      t.(reviews := t.reviews + [Review(userId, req.bookingId, req.roomId, req.rating, req.comment)])
  {
    var found := GetBookingByID(t.bookings, req.bookingId, false);
    assert At(t, found.index, req.bookingId);
  }

  /** The call never gives a booking a second review. */
  lemma {:induction false} CreateReviewKeepsOneReviewPerBooking(t: Tables, req: CreateReviewRequest, userId: nat, fails: set<DbStep>)
    requires AtMostOneReviewPerBooking(t)
    ensures AtMostOneReviewPerBooking(CreateReviewSpec(t, req, userId, fails).0)
  {
    var r := CreateReviewSpec(t, req, userId, fails);
    if r.1.None? {
      CreateReviewEffects(t, req, userId, fails);
      var rs := r.0.reviews;
      forall i, j | 0 <= i < j < |rs|
        ensures rs[i].bookingId != rs[j].bookingId
      {
        if j == |t.reviews| {
          assert rs[i] == t.reviews[i];
        }
      }
    }
  }

  /** A second review of the same booking is refused and writes nothing. */
  lemma {:induction false} SecondReviewRefused(t: Tables, req: CreateReviewRequest, userId: nat, fails: set<DbStep>, req2: CreateReviewRequest)
    requires CreateReviewSpec(t, req, userId, fails).1.None?
    requires req2.bookingId == req.bookingId && CheckReview !in fails
    ensures var t2 := CreateReviewSpec(t, req, userId, fails).0;
      CreateReviewSpec(t2, req2, userId, fails) == (t2, Some(ReviewAlreadyExists))
  {
    var t2 := CreateReviewSpec(t, req, userId, fails).0;
    assert t2.reviews[|t.reviews|].bookingId == req.bookingId;
  }
}
