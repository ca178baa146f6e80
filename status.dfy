/**
 * Booking and payment statuses.  The database stores them as strings; the
 * model keeps them as a closed datatype with `StatusName` giving the stored
 * string.  `Pending` is the status a new booking is created with.  The
 * `constant.PENDING` it is written with is not defined in the constants
 * files, so its stored name "pending" is the model's choice; any name
 * outside the five valid ones behaves the same.
 */
module Status {
  import opened Wrappers

  datatype BookingStatus = Pending | Booked | CheckedIn | CheckedOut | Cancelled | NoShow

  /** The string stored in `bookings.booking_status`. */
  function StatusName(s: BookingStatus): string
  {
    match s
    case Pending => "pending"
    case Booked => "booked"
    case CheckedIn => "checked_in"
    case CheckedOut => "checked_out"
    case Cancelled => "cancelled"
    case NoShow => "no_show"
  }

  /** Different statuses are stored as different strings. */
  lemma StatusNameInjective(a: BookingStatus, b: BookingStatus)
    requires StatusName(a) == StatusName(b)
    ensures a == b
  {
    ParseRoundTrip(a);
    ParseRoundTrip(b);
  }

  /** Reads a stored status string back; `None` for a string that is no status. */
  function ParseStatus(str: string): (r: Option<BookingStatus>)
    ensures r.Some? ==> StatusName(r.value) == str
  {
    if str == "pending" then Some(Pending)
    else if str == "booked" then Some(Booked)
    else if str == "checked_in" then Some(CheckedIn)
    else if str == "checked_out" then Some(CheckedOut)
    else if str == "cancelled" then Some(Cancelled)
    else if str == "no_show" then Some(NoShow)
    else None
  }

  lemma ParseRoundTrip(s: BookingStatus)
    ensures ParseStatus(StatusName(s)) == Some(s)
  {
  }

  /** The whitelist of statuses an administrator may set. */
  const ValidBookingStatuses: map<string, bool> :=
    map["booked" := true, "checked_in" := true, "checked_out" := true,
        "cancelled" := true, "no_show" := true]

  /**
   * `IsValidBookingStatus`: a map lookup where a missing key reads as false,
   * so exactly the five whitelisted strings are valid.
   */
  function IsValidBookingStatus(status: string): (ok: bool)
    ensures status !in ValidBookingStatuses ==> !ok
    ensures ok <==> ParseStatus(status).Some? && ParseStatus(status).value != Pending
  {
    status in ValidBookingStatuses && ValidBookingStatuses[status]
  }

  /** Every status but `Pending` is valid; "pending" is not. */
  lemma ValidIffNotPending(s: BookingStatus)
    ensures IsValidBookingStatus(StatusName(s)) <==> s != Pending
  {
    ParseRoundTrip(s);
  }

  /** A valid string is the name of a non-pending status. */
  lemma ValidIsStatusName(str: string)
    requires IsValidBookingStatus(str)
    ensures exists s :: s != Pending && StatusName(s) == str
  {
    var s := ParseStatus(str).value;
    assert StatusName(s) == str;
  }

  datatype PaymentStatus = PaymentPending | PaymentSuccess | PaymentFailed

  /** The string stored in `payments.payment_status`. */
  function PaymentStatusName(s: PaymentStatus): string
  {
    match s
    case PaymentPending => "pending"
    case PaymentSuccess => "success"
    case PaymentFailed => "failed"
  }
}
