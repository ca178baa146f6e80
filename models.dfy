/**
 * The rows of the tables the core reads and writes, with the fields the use
 * cases set (several of the ORM structs lag behind the use cases: the model
 * takes its fields from the use cases).  Ids are the auto-increment primary
 * keys; times are whole seconds; money is a real number.
 */
module Models {
  import opened Status

  /** A row of `bookings`. */
  datatype Booking = Booking(
    id: nat,
    userId: nat,
    status: BookingStatus,
    totalPrice: real,
    isPaid: bool,
    startDate: int,
    endDate: int,
    createdAt: int)

  /** A row of `booking_rooms`: one booked room of a booking, with the price captured at booking time. */
  datatype BookingRoom = BookingRoom(bookingId: nat, roomId: nat, price: real)

  /** A row of `rooms`. */
  datatype Room = Room(
    id: nat,
    name: string,
    roomType: string,
    pricePerNight: real,
    bedNum: int,
    hasAircon: bool,
    viewType: string,
    description: string,
    isAvailable: bool,
    createdAt: int)

  /** A row of `room_images`. */
  datatype RoomImage = RoomImage(roomId: nat, imageUrl: string)

  /** A row of `payments`. */
  datatype Payment = Payment(
    bookingId: nat,
    transactionId: string,
    paymentMethod: string,
    status: PaymentStatus,
    paidAt: int,
    txnRef: string)

  /** A row of `bills`. */
  datatype Bill = Bill(bookingId: nat, totalAmount: real, exportAt: int)

  /** A row of `reviews`. */
  datatype Review = Review(userId: nat, bookingId: nat, roomId: nat, rating: int, comment: string)

  /**
   * The database calls a use case makes.  Whether a call fails is not
   * decided by the code: every use case takes the set of calls that fail,
   * and a call fails exactly when it is in that set.  Calls made once per
   * requested room carry the room's position in the request.
   */
  datatype DbStep =
    | CheckAvailability(index: nat)
    | LookupPrice(index: nat)
    | InsertBooking
    | InsertBookingRoom(index: nat)
    | LookupBooking
    | InsertPayment
    | LookupPayment
    | UpdateBooking
    | InsertBill
    | UpdatePayment
    | CheckReview
    | InsertReview
    | QueryBookings
    | Commit
}
