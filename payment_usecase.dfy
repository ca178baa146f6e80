/**
 * The payment use case (internal/usecase/payment_usecase.go).
 *
 * `GetVnPayUrl` runs inside the caller's transaction: it records a pending
 * payment and builds the VNPay link.  `HandleVnpayCallback` settles a
 * pending payment once: code "00" marks the booking paid and booked, adds
 * one bill and marks the payment successful; any other code marks it
 * failed.  Its body runs in `WithTransaction`, so an error anywhere keeps
 * the tables as they were.
 *
 * Each operation is a method on `Store` proved equal to a function on
 * `Tables`; the properties are stated about the functions.
 */
module PaymentUseCase {
  import opened Wrappers
  import opened Errors
  import opened Strings
  import opened Status
  import opened Models
  import opened Database
  import opened Transaction
  import opened BookingRepository
  import opened Vnpay

  /** The VNPay order category of a hotel booking. */
  const HotelOrderType: string := "170003"

  /** The response code VNPay sends for a completed payment. */
  const SuccessCode: string := "00"

  /** Go's `int(f)`: drops the fraction, rounding toward zero. */
  function Trunc(x: real): (n: int)
    ensures x >= 0.0 ==> 0 <= n && n as real <= x < n as real + 1.0
    ensures x < 0.0 ==> n <= 0 && n as real - 1.0 < x <= n as real
  {
    if x >= 0.0 then x.Floor else -((-x).Floor)
  }

  /** `fmt.Sprintf("%d-%s", bookingID, uuid)`. */
  function TxnRef(bookingId: nat, uuid: string): (r: string)
    ensures Decimal(bookingId) + "-" <= r
  {
    Decimal(bookingId) + "-" + uuid
  }

  /** The row `GetVnPayUrl` inserts. */
  function PendingPayment(bookingId: nat, txnRef: string, now: int): Payment
  {
    Payment(bookingId, "", "vnpay", PaymentPending, now, txnRef)
  }

  // ----- payment lookup (internal/repository/payment_repository.go) -----

  /** `Where("txn_ref = ?").First(&payment)`: the first payment with that reference. */
  function GetPaymentByTxnRef(ps: seq<Payment>, txnRef: string, failed: bool): (r: Fetch<Payment>)
    ensures failed ==> r == QueryFailed
    ensures r.Found? ==>
      (r.index < |ps| && ps[r.index] == r.row && r.row.txnRef == txnRef
       && forall j :: 0 <= j < r.index ==> ps[j].txnRef != txnRef)
    ensures r.NotFound? <==> !failed && forall j :: 0 <= j < |ps| ==> ps[j].txnRef != txnRef
  {
    if failed then QueryFailed else FindPayment(ps, txnRef, 0)
  }

  function FindPayment(ps: seq<Payment>, txnRef: string, from: nat): (r: Fetch<Payment>)
    requires from <= |ps|
    requires forall j :: 0 <= j < from ==> ps[j].txnRef != txnRef
    ensures !r.QueryFailed?
    ensures r.Found? ==>
      (r.index < |ps| && ps[r.index] == r.row && r.row.txnRef == txnRef
       && forall j :: 0 <= j < r.index ==> ps[j].txnRef != txnRef)
    ensures r.NotFound? <==> forall j :: 0 <= j < |ps| ==> ps[j].txnRef != txnRef
    decreases |ps| - from
  {
    if from == |ps| then NotFound
    else if ps[from].txnRef == txnRef then Found(from, ps[from])
    else FindPayment(ps, txnRef, from + 1)
  }

  // ----- GetVnPayUrl -----

  /**
   * The effect of `GetVnPayUrl` on the transaction's tables, and its
   * result.  `uuid` is the value `uuid.New()` returned and `now` the clock.
   */
  function GetVnPayUrlSpec(t: Tables, bookingId: nat, clientIp: string, uuid: string, now: int,
                           cfg: VnpayConfig, ext: Externals, fails: set<DbStep>): (r: (Tables, Result<string, Error>))
  {
    match GetBookingByID(t.bookings, bookingId, LookupBooking in fails)
    case NotFound => (t, Failure(BookingNotFound))
    case QueryFailed => (t, Failure(FailedToGetBooking))
    case Found(_, booking) =>
      if booking.isPaid then (t, Failure(BookingHasPaid))
      else
        var txnRef := TxnRef(bookingId, uuid);
        if InsertPayment in fails then (t, Failure(FailedToSavePayment))
        else
          var t' := t.(payments := t.payments + [PendingPayment(booking.id, txnRef, now)]);
          match PaymentUrl(txnRef, Decimal(booking.id), Trunc(booking.totalPrice), clientIp, HotelOrderType, cfg, ext, now)
          case Failure(_) => (t', Failure(FailedToCreateVnpayPayment))
          case Success(url) => (t', Success(url))
  }

  /**
   * What `GetVnPayUrl` does: the lookup errors, in order, then a paid
   * booking, write nothing; at most the pending payment is written; a link
   * is the one for the booking's total, truncated to whole units.
   */
  lemma GetVnPayUrlEffects(t: Tables, bookingId: nat, clientIp: string, uuid: string, now: int,
                           cfg: VnpayConfig, ext: Externals, fails: set<DbStep>, r: (Tables, Result<string, Error>))
    requires r == GetVnPayUrlSpec(t, bookingId, clientIp, uuid, now, cfg, ext, fails)
    ensures LookupBooking in fails ==> (r.0 == t && r.1.Failure? && r.1.error == FailedToGetBooking)
    ensures LookupBooking !in fails && (forall j :: 0 <= j < |t.bookings| ==> t.bookings[j].id != bookingId)
      ==> (r.0 == t && r.1.Failure? && r.1.error == BookingNotFound)
    ensures (LookupBooking !in fails && GetBookingByID(t.bookings, bookingId, false).Found?
             && GetBookingByID(t.bookings, bookingId, false).row.isPaid)
      ==> (r.0 == t && r.1.Failure? && r.1.error == BookingHasPaid)
    ensures r.0 == t || r.0 == t.(payments := t.payments + [PendingPayment(bookingId, TxnRef(bookingId, uuid), now)])
    ensures r.1.Success? || (r.1.Failure? && r.1.error == FailedToCreateVnpayPayment) ==>
      r.0 == t.(payments := t.payments + [PendingPayment(bookingId, TxnRef(bookingId, uuid), now)])
    ensures (r.1.Failure? && r.1.error == FailedToSavePayment) ==> r.0 == t
    ensures r.1.Success? ==>
      var b := GetBookingByID(t.bookings, bookingId, false);
      && b.Found? && !b.row.isPaid
      && var link := PaymentUrl(TxnRef(bookingId, uuid), Decimal(bookingId), Trunc(b.row.totalPrice), clientIp,
                                HotelOrderType, cfg, ext, now);
         link.Success? && link.value == r.1.value
  {
  }

  /** `GetVnPayUrl` on the transaction's store. */
  method GetVnPayUrl(db: Store, bookingId: nat, clientIp: string, uuid: string, now: int,
                     cfg: VnpayConfig, ext: Externals, fails: set<DbStep>) returns (r: Result<string, Error>)
    modifies db
    ensures (db.Snapshot(), r) == GetVnPayUrlSpec(old(db.Snapshot()), bookingId, clientIp, uuid, now, cfg, ext, fails)
  {
    var found := GetBookingByID(db.bookings, bookingId, LookupBooking in fails);
    if found.NotFound? {
      return Failure(BookingNotFound);
    }
    if found.QueryFailed? {
      return Failure(FailedToGetBooking);
    }
    var booking := found.row;
    if booking.isPaid {
      return Failure(BookingHasPaid);
    }
    var txnRef := TxnRef(bookingId, uuid);
    var newPayment := PendingPayment(booking.id, txnRef, now);
    if InsertPayment in fails {
      return Failure(FailedToSavePayment);
    }
    db.payments := db.payments + [newPayment];
    var url := CreateVnpayPaymentURL(txnRef, Decimal(booking.id), Trunc(booking.totalPrice), clientIp, HotelOrderType, cfg, ext, now);
    if url.Failure? {
      return Failure(FailedToCreateVnpayPayment);
    }
    return Success(url.value);
  }

  /**
   * With an escape that leaves digits alone, the link carries the booking's
   * total truncated to whole units, times 100.
   */
  lemma LinkCarriesTruncatedTotal(t: Tables, bookingId: nat, clientIp: string, uuid: string, now: int,
                                  cfg: VnpayConfig, ext: Externals, fails: set<DbStep>)
    requires GetVnPayUrlSpec(t, bookingId, clientIp, uuid, now, cfg, ext, fails).1.Success?
    requires forall s :: AllDigits(s) ==> ext.queryEscape(s) == s
    ensures var b := GetBookingByID(t.bookings, bookingId, false);
      var url := GetVnPayUrlSpec(t, bookingId, clientIp, uuid, now, cfg, ext, fails).1.value;
      && b.Found? && Trunc(b.row.totalPrice) > 0
      && cfg.url + "?" + "vnp_Amount=" + Decimal(Trunc(b.row.totalPrice) * 100) <= url
  {
    var b := GetBookingByID(t.bookings, bookingId, false);
    var amount := Trunc(b.row.totalPrice);
    assert PaymentUrl(TxnRef(bookingId, uuid), Decimal(bookingId), amount, clientIp, HotelOrderType, cfg, ext, now).Success?;
    AmountField(TxnRef(bookingId, uuid), Decimal(bookingId), amount, clientIp, HotelOrderType, cfg, ext, now);
  }

  // ----- HandleVnpayCallback -----

  /**
   * The body of the callback's transaction: find the payment by reference,
   * then its booking; refuse a payment that is no longer pending; then
   * either settle it (booking, bill, payment, in this order) or mark it
   * failed.  A write that fails stops the body with its error; what the
   * body wrote before stays in the returned tables, for the transaction to
   * roll back.
   */
  function Reconcile(t: Tables, txnRef: string, code: string, txnNo: string, now: int, fails: set<DbStep>): (r: (Tables, Option<Error>))
    ensures r.1 == Some(PaymentAlreadyProcessed) ==> r.0 == t
    ensures r.1.None? ==> |r.0.bills| == |t.bills| + (if code == SuccessCode then 1 else 0)
  {
    match GetPaymentByTxnRef(t.payments, txnRef, LookupPayment in fails)
    case NotFound => (t, Some(PaymentNotFound))
    case QueryFailed => (t, Some(FailedToGetPayment))
    case Found(pi, payment) =>
      match GetBookingByID(t.bookings, payment.bookingId, LookupBooking in fails)
      case NotFound => (t, Some(BookingNotFound))
      case QueryFailed => (t, Some(FailedToGetBooking))
      case Found(bi, booking) =>
        if payment.status != PaymentPending then (t, Some(PaymentAlreadyProcessed))
        else if code == SuccessCode then
          if UpdateBooking in fails then (t, Some(FailedToUpdateBooking))
          else
            var t1 := t.(bookings := t.bookings[bi := booking.(isPaid := true, status := Booked)]);
            if InsertBill in fails then (t1, Some(FailedToCreateBill))
            else
              var t2 := t1.(bills := t1.bills + [Bill(booking.id, booking.totalPrice, now)]);
              if UpdatePayment in fails then (t2, Some(FailedToUpdatePayment))
              else (t2.(payments := t2.payments[pi := payment.(status := PaymentSuccess, transactionId := txnNo)]), None)
        else if UpdatePayment in fails then (t, Some(FailedToUpdatePayment))
        else (t.(payments := t.payments[pi := payment.(status := PaymentFailed)]), None)
  }

  /** `HandleVnpayCallback`: `Reconcile` inside `WithTransaction`. */
  function Callback(t: Tables, txnRef: string, code: string, txnNo: string, now: int,
                    beginError: Option<Error>, fails: set<DbStep>): (r: (Tables, Option<Error>))
    // all or nothing
    ensures r.1.Some? ==> r.0 == t
    ensures r.1.None? ==> r.0 == Reconcile(t, txnRef, code, txnNo, now, fails).0
    // error precedence: the payment lookup, then the booking lookup, then the payment's status
    ensures beginError.None? && LookupPayment in fails ==> r == (t, Some(FailedToGetPayment))
    ensures (beginError.None? && LookupPayment !in fails
             && forall j :: 0 <= j < |t.payments| ==> t.payments[j].txnRef != txnRef)
      ==> r == (t, Some(PaymentNotFound))
    ensures (beginError.None? && GetPaymentByTxnRef(t.payments, txnRef, LookupPayment in fails).Found?
             && LookupBooking !in fails
             && forall j :: 0 <= j < |t.bookings| ==>
                  t.bookings[j].id != GetPaymentByTxnRef(t.payments, txnRef, false).row.bookingId)
      ==> r == (t, Some(BookingNotFound))
    ensures (beginError.None? && GetPaymentByTxnRef(t.payments, txnRef, LookupPayment in fails).Found?
             && GetBookingByID(t.bookings, GetPaymentByTxnRef(t.payments, txnRef, false).row.bookingId, LookupBooking in fails).Found?
             && GetPaymentByTxnRef(t.payments, txnRef, false).row.status != PaymentPending)
      ==> r == (t, Some(PaymentAlreadyProcessed))
  {
    WithTransaction(t, beginError, s => Reconcile(s, txnRef, code, txnNo, now, fails), Commit in fails)
  }

  /** The body of the callback's transaction, on the store. */
  method ReconcileTx(db: Store, txnRef: string, code: string, txnNo: string, now: int, fails: set<DbStep>)
    returns (err: Option<Error>)
    modifies db
    ensures (db.Snapshot(), err) == Reconcile(old(db.Snapshot()), txnRef, code, txnNo, now, fails)
  {
    var foundPayment := GetPaymentByTxnRef(db.payments, txnRef, LookupPayment in fails);
    if foundPayment.NotFound? {
      return Some(PaymentNotFound);
    }
    if foundPayment.QueryFailed? {
      return Some(FailedToGetPayment);
    }
    var payment := foundPayment.row;
    var foundBooking := GetBookingByID(db.bookings, payment.bookingId, LookupBooking in fails);
    if foundBooking.NotFound? {
      return Some(BookingNotFound);
    }
    if foundBooking.QueryFailed? {
      return Some(FailedToGetBooking);
    }
    var booking := foundBooking.row;
    if payment.status != PaymentPending {
      return Some(PaymentAlreadyProcessed);
    }
    if code == SuccessCode {
      payment := payment.(status := PaymentSuccess, transactionId := txnNo);
      booking := booking.(isPaid := true, status := Booked);
      if UpdateBooking in fails {
        return Some(FailedToUpdateBooking);
      }
      db.bookings := db.bookings[foundBooking.index := booking];
      var bill := Bill(booking.id, booking.totalPrice, now);
      if InsertBill in fails {
        return Some(FailedToCreateBill);
      }
      db.bills := db.bills + [bill];
    } else {
      payment := payment.(status := PaymentFailed);
    }
    if UpdatePayment in fails {
      return Some(FailedToUpdatePayment);
    }
    db.payments := db.payments[foundPayment.index := payment];
    return None;
  }

  /**
   * `HandleVnpayCallback`: begin (`beginError` is what `Begin` reported),
   * run the body, roll back to the snapshot on error, commit otherwise.
   */
  method HandleVnpayCallback(db: Store, txnRef: string, code: string, txnNo: string, now: int,
                             beginError: Option<Error>, fails: set<DbStep>) returns (err: Option<Error>)
    modifies db
    ensures (db.Snapshot(), err) == Callback(old(db.Snapshot()), txnRef, code, txnNo, now, beginError, fails)
  {
    if beginError.Some? {
      return beginError;
    }
    var snapshot := db.Snapshot();
    err := ReconcileTx(db, txnRef, code, txnNo, now, fails);
    if err.Some? {
      db.Restore(snapshot);
      return err;
    }
    if Commit in fails {
      db.Restore(snapshot);
      return Some(CommitTransactionFailed);
    }
  }

  // ----- properties of the callback -----

  /**
   * Code "00" on success: the payment becomes successful with VNPay's
   * transaction number, its booking becomes paid and booked, one bill for
   * the booking's total is appended, and no other row or table changes.
   */
  lemma SettlementEffects(t: Tables, txnRef: string, txnNo: string, now: int, beginError: Option<Error>, fails: set<DbStep>)
    requires Callback(t, txnRef, SuccessCode, txnNo, now, beginError, fails).1.None?
    ensures var t' := Callback(t, txnRef, SuccessCode, txnNo, now, beginError, fails).0;
      var p := GetPaymentByTxnRef(t.payments, txnRef, false);
      && p.Found? && p.row.status == PaymentPending
      && var b := GetBookingByID(t.bookings, p.row.bookingId, false);
      && b.Found?
      && t'.payments == t.payments[p.index := p.row.(status := PaymentSuccess, transactionId := txnNo)]
      && t'.bookings == t.bookings[b.index := b.row.(isPaid := true, status := Booked)]
      && t'.bills == t.bills + [Bill(b.row.id, b.row.totalPrice, now)]
      && t'.(payments := t.payments, bookings := t.bookings, bills := t.bills) == t
  {
  }

  /**
   * Any other code on success: only the payment changes, to failed; the
   * booking and the bills are untouched.
   */
  lemma DeclineEffects(t: Tables, txnRef: string, code: string, txnNo: string, now: int,
                       beginError: Option<Error>, fails: set<DbStep>)
    requires code != SuccessCode
    requires Callback(t, txnRef, code, txnNo, now, beginError, fails).1.None?
    ensures var t' := Callback(t, txnRef, code, txnNo, now, beginError, fails).0;
      var p := GetPaymentByTxnRef(t.payments, txnRef, false);
      && p.Found? && p.row.status == PaymentPending
      && t' == t.(payments := t.payments[p.index := p.row.(status := PaymentFailed)])
  {
  }

  /**
   * Settling is at most once: after a callback for a reference succeeds, a
   * second delivery for that reference, with any code, fails and changes
   * nothing, so it adds no second bill.
   */
  lemma {:induction false} SecondDeliveryChangesNothing(
    t: Tables, txnRef: string, code: string, txnNo: string, now: int, beginError: Option<Error>, fails: set<DbStep>,
    code2: string, txnNo2: string, now2: int, beginError2: Option<Error>, fails2: set<DbStep>)
    requires Callback(t, txnRef, code, txnNo, now, beginError, fails).1.None?
    ensures var t' := Callback(t, txnRef, code, txnNo, now, beginError, fails).0;
      var r := Callback(t', txnRef, code2, txnNo2, now2, beginError2, fails2);
      r.1.Some? && r.0 == t' && |r.0.bills| == |t'.bills|
  {
    var t' := Callback(t, txnRef, code, txnNo, now, beginError, fails).0;
    var p := GetPaymentByTxnRef(t.payments, txnRef, false);
    assert t' == Reconcile(t, txnRef, code, txnNo, now, fails).0;
    assert |t'.payments| == |t.payments| && t'.payments[p.index].txnRef == txnRef;
    assert t'.payments[p.index].status != PaymentPending;
    assert forall j :: 0 <= j < p.index ==> t'.payments[j] == t.payments[j];
    var p2 := GetPaymentByTxnRef(t'.payments, txnRef, LookupPayment in fails2);
    if p2.Found? {
      assert p2.index == p.index;
    }
    assert Reconcile(t', txnRef, code2, txnNo2, now2, fails2).1.Some?;
  }

  /** Every paid booking has a bill, before and after any callback. */
  lemma CallbackKeepsPaidHasBill(t: Tables, txnRef: string, code: string, txnNo: string, now: int,
                                 beginError: Option<Error>, fails: set<DbStep>)
    requires PaidHasBill(t)
    ensures PaidHasBill(Callback(t, txnRef, code, txnNo, now, beginError, fails).0)
  {
    var r := Callback(t, txnRef, code, txnNo, now, beginError, fails);
    if r.1.None? && code == SuccessCode {
      SettlementEffects(t, txnRef, txnNo, now, beginError, fails);
      var t' := r.0;
      var p := GetPaymentByTxnRef(t.payments, txnRef, false);
      var b := GetBookingByID(t.bookings, p.row.bookingId, false);
      forall i | 0 <= i < |t'.bookings| && t'.bookings[i].isPaid ensures Billed(t', t'.bookings[i].id) {
        if i == b.index {
          assert t'.bills[|t.bills|].bookingId == t'.bookings[i].id;
        } else {
          assert t'.bookings[i] == t.bookings[i];
          var k :| 0 <= k < |t.bills| && t.bills[k].bookingId == t.bookings[i].id;
          assert t'.bills[k] == t.bills[k];
        }
      }
    } else if r.1.None? {
      DeclineEffects(t, txnRef, code, txnNo, now, beginError, fails);
    }
  }
}
