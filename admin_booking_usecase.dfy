/**
 * The administrator's booking use case
 * (internal/usecase/admin_usecase/booking_usecase.go): setting a booking's
 * status.  The handler admits only the five whitelisted status strings,
 * which is the precondition here; the use case compares and stores the
 * string, which the model keeps as the status it names.
 */
module AdminBookingUseCase {
  import opened Wrappers
  import opened Errors
  import opened Status
  import opened Models
  import opened Database
  import opened BookingRepository

  /** The statuses a booking cannot leave, each with its own error. */
  function LockedError(s: BookingStatus): (r: Option<Error>)
    ensures r.Some? <==> s in {CheckedOut, Cancelled, NoShow}
  {
    match s
    case CheckedOut => Some(StatusLockedCheckedOut)
    case Cancelled => Some(StatusLockedCancelled)
    case NoShow => Some(StatusLockedNoShow)
    case _ => None
  }

  /**
   * `UpdateBookingStatus`: find the booking; the same status is accepted
   * without a write, even for a locked booking; a locked booking refuses
   * any other status; otherwise the status is overwritten, whatever it was
   * before.
   */
  function UpdateBookingStatusSpec(t: Tables, bookingId: nat, status: string, fails: set<DbStep>): (r: (Tables, Option<Error>))
    requires IsValidBookingStatus(status)
  {
    match GetBookingByID(t.bookings, bookingId, LookupBooking in fails)
    case NotFound => (t, Some(BookingNotFound))
    case QueryFailed => (t, Some(FailedToGetBooking))
    case Found(i, booking) =>
      if StatusName(booking.status) == status then (t, None)
      else if LockedError(booking.status).Some? then (t, LockedError(booking.status))
      else if UpdateBooking in fails then (t, Some(FailedToUpdateBooking))
      else (t.(bookings := t.bookings[i := booking.(status := ParseStatus(status).value)]), None)
  }

  /** `UpdateBookingStatus` on the store. */
  method UpdateBookingStatus(db: Store, bookingId: nat, status: string, fails: set<DbStep>) returns (err: Option<Error>)
    requires IsValidBookingStatus(status)
    modifies db
    ensures (db.Snapshot(), err) == UpdateBookingStatusSpec(old(db.Snapshot()), bookingId, status, fails)
  {
    var found := GetBookingByID(db.bookings, bookingId, LookupBooking in fails);
    if found.NotFound? {
      return Some(BookingNotFound);
    }
    if found.QueryFailed? {
      return Some(FailedToGetBooking);
    }
    var booking := found.row;
    if StatusName(booking.status) == status {
      return None;
    }
    if booking.status == CheckedOut {
      return Some(StatusLockedCheckedOut);
    }
    if booking.status == Cancelled {
      return Some(StatusLockedCancelled);
    }
    if booking.status == NoShow {
      return Some(StatusLockedNoShow);
    }
    booking := booking.(status := ParseStatus(status).value);
    if UpdateBooking in fails {
      return Some(FailedToUpdateBooking);
    }
    db.bookings := db.bookings[found.index := booking];
    return None;
  }

  // ----- what UpdateBookingStatus promises -----

  /**
   * A failed lookup comes first, then a missing booking; no error writes
   * anything.
   */
  lemma UpdateStatusErrors(t: Tables, bookingId: nat, status: string, fails: set<DbStep>)
    requires IsValidBookingStatus(status)
    ensures var r := UpdateBookingStatusSpec(t, bookingId, status, fails);
      && (r.1.Some? ==> r.0 == t)
      && (LookupBooking in fails ==> r.1 == Some(FailedToGetBooking))
      && ((LookupBooking !in fails && forall i :: !At(t, i, bookingId)) ==> r.1 == Some(BookingNotFound))
  {
    if LookupBooking !in fails && forall i :: !At(t, i, bookingId) {
      forall j | 0 <= j < |t.bookings|
        ensures t.bookings[j].id != bookingId
      {
        assert !At(t, j, bookingId);
      }
    }
  }

  /** Setting the status a booking already has succeeds without a write, even when that status is locked. */
  lemma SameStatusIsNoOp(t: Tables, bookingId: nat, status: string, fails: set<DbStep>, i: nat)
    requires IsValidBookingStatus(status) && BookingIdsValid(t) && LookupBooking !in fails
    requires At(t, i, bookingId) && StatusName(t.bookings[i].status) == status
    ensures UpdateBookingStatusSpec(t, bookingId, status, fails) == (t, None)
  {
    LookupFindsTheRow(t, i, bookingId);
  }

  /** A checked-out, cancelled or no-show booking refuses any other status with its own error. */
  lemma LockedStatusRefuses(t: Tables, bookingId: nat, status: string, fails: set<DbStep>, i: nat)
    requires IsValidBookingStatus(status) && BookingIdsValid(t) && LookupBooking !in fails
    requires At(t, i, bookingId) && StatusName(t.bookings[i].status) != status
    requires t.bookings[i].status in {CheckedOut, Cancelled, NoShow}
    ensures var r := UpdateBookingStatusSpec(t, bookingId, status, fails);
      && r.0 == t
      && (t.bookings[i].status == CheckedOut ==> r.1 == Some(StatusLockedCheckedOut))
      && (t.bookings[i].status == Cancelled ==> r.1 == Some(StatusLockedCancelled))
      && (t.bookings[i].status == NoShow ==> r.1 == Some(StatusLockedNoShow))
  {
    LookupFindsTheRow(t, i, bookingId);
  }

  /**
   * Any other booking takes the requested status, with no transition
   * table: only its status changes, and nothing else in the tables.  Unique
   * ids and "every paid booking has a bill" are kept.
   */
  lemma OverwriteEffects(t: Tables, bookingId: nat, status: string, fails: set<DbStep>, i: nat)
    requires IsValidBookingStatus(status) && BookingIdsValid(t)
    requires LookupBooking !in fails && UpdateBooking !in fails
    requires At(t, i, bookingId) && StatusName(t.bookings[i].status) != status
    requires t.bookings[i].status !in {CheckedOut, Cancelled, NoShow}
    ensures var r := UpdateBookingStatusSpec(t, bookingId, status, fails);
      && r.1.None?
      && |r.0.bookings| == |t.bookings|
      && StatusName(r.0.bookings[i].status) == status
      && r.0 == t.(bookings := t.bookings[i := t.bookings[i].(status := r.0.bookings[i].status)])
      && BookingIdsValid(r.0)
      && (PaidHasBill(t) ==> PaidHasBill(r.0))
  {
    LookupFindsTheRow(t, i, bookingId);
    var t2 := UpdateBookingStatusSpec(t, bookingId, status, fails).0;
    assert forall k :: 0 <= k < |t.bookings| ==> t2.bookings[k].id == t.bookings[k].id;
    assert forall k :: 0 <= k < |t.bookings| ==> t2.bookings[k].isPaid == t.bookings[k].isPaid;
  }

  /**
   * With unique ids the update succeeds exactly when the booking exists,
   * the lookup works, and the status is already the requested one or the
   * booking is not locked and the write succeeds.
   */
  lemma UpdateStatusSucceedsIff(t: Tables, bookingId: nat, status: string, fails: set<DbStep>)
    requires IsValidBookingStatus(status) && BookingIdsValid(t)
    ensures UpdateBookingStatusSpec(t, bookingId, status, fails).1.None? <==>
      && LookupBooking !in fails
      && exists i :: At(t, i, bookingId) &&
           (StatusName(t.bookings[i].status) == status
            || (t.bookings[i].status !in {CheckedOut, Cancelled, NoShow} && UpdateBooking !in fails))
  {
    var found := GetBookingByID(t.bookings, bookingId, LookupBooking in fails);
    if found.Found? {
      assert At(t, found.index, bookingId);
    }
    if i :| At(t, i, bookingId) {
      LookupFindsTheRow(t, i, bookingId);
    }
  }

  /** Setting the same status twice is the same as setting it once. */
  lemma {:induction false} UpdateStatusIdempotent(t: Tables, bookingId: nat, status: string, fails: set<DbStep>)
    requires IsValidBookingStatus(status) && BookingIdsValid(t) && LookupBooking !in fails
    ensures var t2 := UpdateBookingStatusSpec(t, bookingId, status, fails).0;
      UpdateBookingStatusSpec(t2, bookingId, status, fails) ==
        (t2, UpdateBookingStatusSpec(t, bookingId, status, fails).1)
  {
    var found := GetBookingByID(t.bookings, bookingId, false);
    if found.Found? {
      var i := found.index;
      var r := UpdateBookingStatusSpec(t, bookingId, status, fails);
      if r.0 != t {
        var t2 := r.0;
        OverwriteEffects(t, bookingId, status, fails, i);
        LookupFindsTheRow(t2, i, bookingId);
      } else if r.1.None? {
        assert StatusName(t.bookings[i].status) == status;
      } else {
        LookupFindsTheRow(t, i, bookingId);
      }
    }
  }
}
