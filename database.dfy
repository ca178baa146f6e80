/**
 * The database as one in-memory store.  `Store` holds one field per table;
 * the use cases change them in place.  `Tables` is a value copy of all of
 * them: a transaction takes one when it begins and restores it on rollback.
 */
module Database {
  import opened Models

  datatype Tables = Tables(
    bookings: seq<Booking>,
    bookingRooms: seq<BookingRoom>,
    rooms: seq<Room>,
    roomImages: seq<RoomImage>,
    payments: seq<Payment>,
    bills: seq<Bill>,
    reviews: seq<Review>,
    userNames: map<nat, string>,
    nextBookingId: nat)

  class Store {
    var bookings: seq<Booking>
    var bookingRooms: seq<BookingRoom>
    var rooms: seq<Room>
    var roomImages: seq<RoomImage>
    var payments: seq<Payment>
    var bills: seq<Bill>
    var reviews: seq<Review>
    /** `users.name` by user id: the only column of `users` the core reads. */
    var userNames: map<nat, string>
    /** The auto-increment counter of `bookings.id`. */
    var nextBookingId: nat

    constructor (t: Tables)
      ensures Snapshot() == t
    {
      bookings, bookingRooms, rooms, roomImages := t.bookings, t.bookingRooms, t.rooms, t.roomImages;
      payments, bills, reviews := t.payments, t.bills, t.reviews;
      userNames, nextBookingId := t.userNames, t.nextBookingId;
    }

    /** The contents of every table. */
    function Snapshot(): Tables
      reads this
    {
      Tables(bookings, bookingRooms, rooms, roomImages, payments, bills, reviews, userNames, nextBookingId)
    }

    /** Rollback: puts back the contents a snapshot recorded. */
    method Restore(t: Tables)
      modifies this
      ensures Snapshot() == t
    {
      bookings, bookingRooms, rooms, roomImages := t.bookings, t.bookingRooms, t.rooms, t.roomImages;
      payments, bills, reviews := t.payments, t.bills, t.reviews;
      userNames, nextBookingId := t.userNames, t.nextBookingId;
    }
  }

  /** Booking ids are positive, ascending in table order and below the counter, which starts at one. */
  predicate BookingIdsValid(t: Tables)
  {
    && t.nextBookingId > 0
    && (forall i :: 0 <= i < |t.bookings| ==> 0 < t.bookings[i].id < t.nextBookingId)
    && (forall i, j :: 0 <= i < j < |t.bookings| ==> t.bookings[i].id < t.bookings[j].id)
  }

  /** With valid ids, two rows with the same id are the same row. */
  lemma UniqueBookingId(t: Tables, i: nat, j: nat)
    requires BookingIdsValid(t) && i < |t.bookings| && j < |t.bookings|
    requires t.bookings[i].id == t.bookings[j].id
    ensures i == j
  {
  }

  /** The booking has a bill. */
  predicate Billed(t: Tables, bookingId: nat)
  {
    exists k :: 0 <= k < |t.bills| && t.bills[k].bookingId == bookingId
  }

  /** Every paid booking has a bill. */
  predicate PaidHasBill(t: Tables)
  {
    forall i :: 0 <= i < |t.bookings| && t.bookings[i].isPaid ==> Billed(t, t.bookings[i].id)
  }

  /** No booking has two reviews. */
  predicate AtMostOneReviewPerBooking(t: Tables)
  {
    forall i, j :: 0 <= i < j < |t.reviews| ==> t.reviews[i].bookingId != t.reviews[j].bookingId
  }
}
