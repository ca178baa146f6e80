/**
 * The customer booking use case (internal/usecase/booking_usecase.go):
 * creating a booking with its rooms and first payment in one transaction,
 * listing a customer's bookings, and cancelling a booking.
 *
 * `CreateBooking` and `CancelBooking` are methods on `Store` proved equal
 * to functions on `Tables`; the properties are stated about the functions.
 */
module BookingUseCase {
  import opened Wrappers
  import opened Errors
  import opened Strings
  import opened Status
  import opened Models
  import opened Database
  import opened BookingRepository
  import opened Vnpay
  import opened PaymentUseCase
  import opened Sequences

  const SecondsPerDay: int := 24 * 60 * 60

  /** `math.Ceil`. */
  function Ceil(x: real): (n: int)
    ensures n as real - 1.0 < x <= n as real
  {
    -((-x).Floor)
  }

  /** `int(math.Ceil(end.Sub(start).Hours() / 24))` for a stay of `d` seconds. */
  function Nights(d: int): (n: int)
    ensures (n - 1) * SecondsPerDay < d <= n * SecondsPerDay
  {
    Ceil(d as real / SecondsPerDay as real)
  }

  /** Nights is ceiling division by a day: a stay ending on the day it starts counts one night. */
  lemma NightsIsCeilingDivision(d: int)
    ensures Nights(d) == (d + SecondsPerDay - 1) / SecondsPerDay
    ensures d > 0 ==> Nights(d) >= 1
  {
    var n := Nights(d);
    var q := (d + SecondsPerDay - 1) / SecondsPerDay;
    assert q * SecondsPerDay <= d + SecondsPerDay - 1 < (q + 1) * SecondsPerDay;
  }

  /** Sixteen hours are one night (the ceiling of 16/24), three whole days three nights. */
  lemma NightsExamples()
    ensures Nights(16 * 60 * 60) == 1
    ensures Nights(3 * SecondsPerDay) == 3
    ensures Nights(3 * SecondsPerDay + 1) == 4
  {
    NightsIsCeilingDivision(16 * 60 * 60);
    NightsIsCeilingDivision(3 * SecondsPerDay);
    NightsIsCeilingDivision(3 * SecondsPerDay + 1);
  }

  /** `dto.CreateBookingRequest`; times in seconds. */
  datatype CreateBookingRequest = CreateBookingRequest(startDate: int, endDate: int, roomIds: seq<int>)

  // ----- the validation and pricing loop -----

  /**
   * The checks on the room at position `i` of the request, in order: a
   * positive id, an available room (a failed availability query counts as
   * unavailable), a room that exists, a price query that succeeds.  The
   * result is the room's nightly price.
   */
  function RoomCheck(t: Tables, start: int, end: int, roomId: int, i: nat, fails: set<DbStep>): (r: Result<real, Error>)
  {
    if roomId <= 0 then Failure(InvalidRoomId)
    else if IsAvailableRoom(t, roomId, start, end, CheckAvailability(i) in fails) != Some(true) then Failure(RoomIsNotAvailable)
    else
      match GetPriceByRoomID(t.rooms, roomId, LookupPrice(i) in fails)
      case NotFound => Failure(RoomNotFound)
      case QueryFailed => Failure(FailedToGetRoomPrice)
      case Found(_, price) => Success(price)
  }

  /**
   * A room passes exactly when its id is positive, it is free for the
   * range, it exists, and neither query fails; it is then priced at its
   * nightly rate.  The errors are the four of the loop.
   */
  lemma RoomCheckMeaning(t: Tables, start: int, end: int, roomId: int, i: nat, fails: set<DbStep>)
    ensures var r := RoomCheck(t, start, end, roomId, i, fails);
      && (roomId <= 0 ==> r == Failure(InvalidRoomId))
      && (r.Success? <==>
            (&& roomId > 0
             && IsAvailableRoom(t, roomId, start, end, false) == Some(true) && CheckAvailability(i) !in fails
             && GetPriceByRoomID(t.rooms, roomId, false).Found? && LookupPrice(i) !in fails))
      && (r.Success? ==> r.value == GetPriceByRoomID(t.rooms, roomId, false).row)
      && (r.Failure? ==> r.error in {InvalidRoomId, RoomIsNotAvailable, RoomNotFound, FailedToGetRoomPrice})
  {
  }

  /** The nightly prices captured on the lines, in order. */
  function Prices(brs: seq<BookingRoom>): (r: seq<real>)
    ensures |r| == |brs| && forall i :: 0 <= i < |brs| ==> r[i] == brs[i].price
  {
    seq(|brs|, i requires 0 <= i < |brs| => brs[i].price)
  }

  /** The running total: each price times the nights, added in request order. */
  function Total(prices: seq<real>, nights: int): real
  {
    if prices == [] then 0.0 else Total(prices[..|prices| - 1], nights) + prices[|prices| - 1] * nights as real
  }

  /** The sum of the prices. */
  function PriceSum(prices: seq<real>): real
  {
    if prices == [] then 0.0 else PriceSum(prices[..|prices| - 1]) + prices[|prices| - 1]
  }

  /** The running total is the sum of the nightly prices times the number of nights. */
  lemma {:induction false} TotalIsSumTimesNights(prices: seq<real>, nights: int)
    ensures Total(prices, nights) == PriceSum(prices) * nights as real
  {
    if prices != [] {
      TotalIsSumTimesNights(prices[..|prices| - 1], nights);
    }
  }

  /** The price of a stay from `start` to `end`: the running total of the lines' nightly prices. */
  function StayTotal(lines: seq<BookingRoom>, start: int, end: int): real
  {
    Total(Prices(lines), Nights(end - start))
  }

  /**
   * The loop over the requested rooms: either the error of the first room
   * that fails its checks, or one booking-room line per requested id (the
   * booking id is not known yet).  The loop's running total is the
   * `StayTotal` of these lines.
   */
  function Quote(t: Tables, start: int, end: int, ids: seq<int>, fails: set<DbStep>): (r: Result<seq<BookingRoom>, Error>)
  {
    if ids == [] then Success([])
    else
      var n := |ids| - 1;
      match Quote(t, start, end, ids[..n], fails)
      case Failure(e) => Failure(e)
      case Success(lines) =>
        match RoomCheck(t, start, end, ids[n], n, fails)
        case Failure(e) => Failure(e)
        case Success(price) => Success(lines + [BookingRoom(0, ids[n] as nat, price)])
  }

  /** The loop succeeds exactly when every room passes its checks. */
  lemma {:induction false} QuoteSucceedsIffAllPass(t: Tables, start: int, end: int, ids: seq<int>, fails: set<DbStep>)
    ensures Quote(t, start, end, ids, fails).Success? <==>
      forall i :: 0 <= i < |ids| ==> RoomCheck(t, start, end, ids[i], i, fails).Success?
  {
    if ids != [] {
      var n := |ids| - 1;
      QuoteSucceedsIffAllPass(t, start, end, ids[..n], fails);
      assert forall j :: 0 <= j < n ==> ids[..n][j] == ids[j];
    }
  }

  /** A failing loop reports the error of the first room that fails its checks. */
  lemma {:induction false} QuoteReportsFirstFailure(t: Tables, start: int, end: int, ids: seq<int>, fails: set<DbStep>)
    requires Quote(t, start, end, ids, fails).Failure?
    ensures exists i :: (&& 0 <= i < |ids|
                         && RoomCheck(t, start, end, ids[i], i, fails) == Failure(Quote(t, start, end, ids, fails).error)
                         && forall j :: 0 <= j < i ==> RoomCheck(t, start, end, ids[j], j, fails).Success?)
  {
    var n := |ids| - 1;
    assert forall j :: 0 <= j < n ==> ids[..n][j] == ids[j];
    if Quote(t, start, end, ids[..n], fails).Failure? {
      QuoteReportsFirstFailure(t, start, end, ids[..n], fails);
    } else {
      QuoteSucceedsIffAllPass(t, start, end, ids[..n], fails);
      assert RoomCheck(t, start, end, ids[n], n, fails) == Failure(Quote(t, start, end, ids, fails).error);
    }
  }

  /**
   * A successful loop yields one line per id, in request order, with the
   * price looked up for it.
   */
  lemma {:induction false} QuoteLines(t: Tables, start: int, end: int, ids: seq<int>, fails: set<DbStep>)
    requires Quote(t, start, end, ids, fails).Success?
    ensures var brs := Quote(t, start, end, ids, fails).value;
      && |brs| == |ids|
      && (forall i :: 0 <= i < |ids| ==>
            brs[i].bookingId == 0 && brs[i].roomId == ids[i] && RoomCheck(t, start, end, ids[i], i, fails) == Success(brs[i].price))
  {
    if ids != [] {
      var n := |ids| - 1;
      QuoteLines(t, start, end, ids[..n], fails);
      assert forall j :: 0 <= j < n ==> ids[..n][j] == ids[j];
      var brs := Quote(t, start, end, ids[..n], fails).value;
      var brs' := Quote(t, start, end, ids, fails).value;
      assert brs' == brs + [brs'[n]];
      assert brs'[..n] == brs;
    }
  }

  /** The lines of the new booking, with its id filled in. */
  function WithBookingId(brs: seq<BookingRoom>, id: nat): (r: seq<BookingRoom>)
    ensures |r| == |brs|
    ensures forall i :: 0 <= i < |brs| ==> r[i] == brs[i].(bookingId := id)
  {
    if brs == [] then [] else WithBookingId(brs[..|brs| - 1], id) + [brs[|brs| - 1].(bookingId := id)]
  }

  // ----- CreateBooking -----

  /** The new booking: pending, unpaid, priced at the stay's total, with the next id. */
  function NewBooking(t: Tables, req: CreateBookingRequest, userId: nat, total: real, now: int): Booking
  {
    Booking(t.nextBookingId, userId, Pending, total, false, req.startDate, req.endDate, now)
  }

  /** The tables once the booking and its lines are inserted. */
  function WithBooking(t: Tables, booking: Booking, lines: seq<BookingRoom>): Tables
  {
    t.(bookings := t.bookings + [booking],
       bookingRooms := t.bookingRooms + WithBookingId(lines, booking.id),
       nextBookingId := t.nextBookingId + 1)
  }

  /** What follows a successful loop: the inserts, the first payment and the commit. */
  function PlaceBooking(t: Tables, lines: seq<BookingRoom>, req: CreateBookingRequest, userId: nat, clientIp: string, uuid: string, now: int,
                        cfg: VnpayConfig, ext: Externals, fails: set<DbStep>): (Tables, Result<(Booking, string), Error>)
  {
    if InsertBooking in fails then (t, Failure(FailedToCreateBooking))
    else
      var booking := NewBooking(t, req, userId, StayTotal(lines, req.startDate, req.endDate), now);
      if exists i :: 0 <= i < |lines| && InsertBookingRoom(i) in fails then (t, Failure(FailedToCreateBookingRoom))
      else
        var (t2, url) := GetVnPayUrlSpec(WithBooking(t, booking, lines), booking.id, clientIp, uuid, now, cfg, ext, fails);
        if url.Failure? then (t, Failure(FailedToCreateVnpayPayment))
        else if Commit in fails then (t, Failure(FailedToCommitTransaction))
        else (t2, Success((booking, url.value)))
  }

  /**
   * `CreateBooking`: the tables after the transaction and the result.
   * Every error rolls the transaction back; a failed commit keeps nothing
   * either.
   */
  function CreateBookingSpec(t: Tables, req: CreateBookingRequest, userId: nat, clientIp: string, uuid: string, now: int,
                             cfg: VnpayConfig, ext: Externals, fails: set<DbStep>): (r: (Tables, Result<(Booking, string), Error>))
  {
    match Quote(t, req.startDate, req.endDate, req.roomIds, fails)
    case Failure(e) => (t, Failure(e))
    case Success(lines) => PlaceBooking(t, lines, req, userId, clientIp, uuid, now, cfg, ext, fails)
  }

  /** With valid ids the booking just inserted is the row `GetVnPayUrl` finds. */
  lemma NewBookingFound(t: Tables, booking: Booking, lines: seq<BookingRoom>)
    requires BookingIdsValid(t) && booking.id == t.nextBookingId
    ensures var f := GetBookingByID(WithBooking(t, booking, lines).bookings, booking.id, false);
      f.Found? && f.index == |t.bookings| && f.row == booking
  {
    var bs := WithBooking(t, booking, lines).bookings;
    assert bs[|t.bookings|].id == booking.id;
    assert forall j :: 0 <= j < |t.bookings| ==> bs[j] == t.bookings[j];
  }

  /** Inserting the next booking keeps the ids valid. */
  lemma WithBookingKeepsIdsValid(t: Tables, booking: Booking, lines: seq<BookingRoom>)
    requires BookingIdsValid(t) && booking.id == t.nextBookingId && booking.id > 0
    ensures BookingIdsValid(WithBooking(t, booking, lines))
  {
  }

  /** One more room that passes extends the lines. */
  lemma QuoteStep(t: Tables, start: int, end: int, ids: seq<int>, fails: set<DbStep>)
    requires ids != [] && Quote(t, start, end, ids[..|ids| - 1], fails).Success?
    requires RoomCheck(t, start, end, ids[|ids| - 1], |ids| - 1, fails).Success?
    ensures && Quote(t, start, end, ids, fails).Success?
            && Quote(t, start, end, ids, fails).value ==
                 Quote(t, start, end, ids[..|ids| - 1], fails).value
                 + [BookingRoom(0, ids[|ids| - 1], RoomCheck(t, start, end, ids[|ids| - 1], |ids| - 1, fails).value)]
  {
  }

  /** The running total after one more price. */
  lemma TotalAppend(prices: seq<real>, price: real, nights: int)
    ensures Total(prices + [price], nights) == Total(prices, nights) + price * nights as real
  {
    assert (prices + [price])[..|prices|] == prices;
  }

  /** The price of the stay after one more line. */
  lemma StayTotalAppend(lines: seq<BookingRoom>, line: BookingRoom, start: int, end: int)
    ensures StayTotal(lines + [line], start, end) == StayTotal(lines, start, end) + line.price * Nights(end - start) as real
  {
    assert Prices(lines + [line]) == Prices(lines) + [line.price];
    TotalAppend(Prices(lines), line.price, Nights(end - start));
  }

  /** Once a prefix of the request fails, the whole loop fails with that error. */
  lemma {:induction false} QuoteFailureSticks(t: Tables, start: int, end: int, ids: seq<int>, k: nat, fails: set<DbStep>)
    requires k <= |ids| && Quote(t, start, end, ids[..k], fails).Failure?
    ensures Quote(t, start, end, ids, fails) == Quote(t, start, end, ids[..k], fails)
  {
    if k == |ids| {
      assert ids[..k] == ids;
    } else {
      var n := |ids| - 1;
      assert ids[..n][..k] == ids[..k];
      QuoteFailureSticks(t, start, end, ids[..n], k, fails);
    }
  }

  /** The lines of the loop and the running total it keeps beside them. */
  datatype Quoted = Quoted(lines: seq<BookingRoom>, total: real)

  /**
   * The loop over the requested rooms, reading the store: the first
   * failing check ends it with that check's error; otherwise the lines and
   * the running total.
   */
  method PriceRooms(db: Store, req: CreateBookingRequest, fails: set<DbStep>) returns (r: Result<Quoted, Error>)
    ensures r.Success? <==> Quote(db.Snapshot(), req.startDate, req.endDate, req.roomIds, fails).Success?
    ensures r.Success? ==>
      && r.value.lines == Quote(db.Snapshot(), req.startDate, req.endDate, req.roomIds, fails).value
      && r.value.total == StayTotal(r.value.lines, req.startDate, req.endDate)
    ensures r.Failure? ==> r.error == Quote(db.Snapshot(), req.startDate, req.endDate, req.roomIds, fails).error
  {
    var ids := req.roomIds;
    var bookingRooms: seq<BookingRoom> := [];
    var totalPrice: real := 0.0;
    var i := 0;
    while i < |ids|
      invariant 0 <= i <= |ids|
      invariant Quote(db.Snapshot(), req.startDate, req.endDate, ids[..i], fails).Success?
      invariant Quote(db.Snapshot(), req.startDate, req.endDate, ids[..i], fails).value == bookingRooms
      invariant totalPrice == StayTotal(bookingRooms, req.startDate, req.endDate)
    {
      assert ids[..i + 1][..i] == ids[..i];
      var price := CheckRoom(db, req, ids[i], i, fails);
      if price.Failure? {
        QuoteFailureSticks(db.Snapshot(), req.startDate, req.endDate, ids, i + 1, fails);
        return Failure(price.error);
      }
      QuoteStep(db.Snapshot(), req.startDate, req.endDate, ids[..i + 1], fails);
      var line := BookingRoom(0, ids[i], price.value);
      StayTotalAppend(bookingRooms, line, req.startDate, req.endDate);
      bookingRooms := bookingRooms + [line];
      totalPrice := totalPrice + price.value * Nights(req.endDate - req.startDate) as real;
      i := i + 1;
    }
    assert ids[..i] == ids;
    return Success(Quoted(bookingRooms, totalPrice));
  }

  /** The body of the loop for the room at position `i`: its checks, in order, and its nightly price. */
  method CheckRoom(db: Store, req: CreateBookingRequest, roomId: int, i: nat, fails: set<DbStep>) returns (r: Result<real, Error>)
    ensures r == RoomCheck(db.Snapshot(), req.startDate, req.endDate, roomId, i, fails)
  {
    if roomId <= 0 {
      return Failure(InvalidRoomId);
    }
    var isAvailable := IsAvailableRoom(db.Snapshot(), roomId, req.startDate, req.endDate, CheckAvailability(i) in fails);
    if isAvailable != Some(true) {
      return Failure(RoomIsNotAvailable);
    }
    var price := GetPriceByRoomID(db.rooms, roomId, LookupPrice(i) in fails);
    if price.NotFound? {
      return Failure(RoomNotFound);
    }
    if price.QueryFailed? {
      return Failure(FailedToGetRoomPrice);
    }
    return Success(price.row);
  }

  /**
   * Inserts the lines of booking `bookingId` one by one; `ok` is false when
   * an insert fails, and the caller then rolls back.
   */
  method InsertBookingRooms(db: Store, lines: seq<BookingRoom>, bookingId: nat, fails: set<DbStep>) returns (ok: bool)
    modifies db
    ensures ok <==> forall k :: 0 <= k < |lines| ==> InsertBookingRoom(k) !in fails
    ensures ok ==> db.Snapshot() == old(db.Snapshot()).(bookingRooms := old(db.bookingRooms) + WithBookingId(lines, bookingId))
  {
    var start := db.Snapshot();
    var j := 0;
    while j < |lines|
      invariant 0 <= j <= |lines|
      invariant db.Snapshot() == start.(bookingRooms := start.bookingRooms + WithBookingId(lines[..j], bookingId))
      invariant forall k :: 0 <= k < j ==> InsertBookingRoom(k) !in fails
    {
      if InsertBookingRoom(j) in fails {
        return false;
      }
      assert lines[..j + 1][..j] == lines[..j];
      db.bookingRooms := db.bookingRooms + [lines[j].(bookingId := bookingId)];
      j := j + 1;
    }
    assert lines[..j] == lines;
    return true;
  }

  /** `CreateBooking` on the store: `snapshot` is what `Begin` saw, and every rollback restores it. */
  method CreateBooking(db: Store, req: CreateBookingRequest, userId: nat, clientIp: string, uuid: string, now: int,
                       cfg: VnpayConfig, ext: Externals, fails: set<DbStep>) returns (r: Result<(Booking, string), Error>)
    modifies db
    ensures (db.Snapshot(), r) == CreateBookingSpec(old(db.Snapshot()), req, userId, clientIp, uuid, now, cfg, ext, fails)
  {
    var snapshot := db.Snapshot();
    var quote := PriceRooms(db, req, fails);
    if quote.Failure? {
      db.Restore(snapshot);
      return Failure(quote.error);
    }
    r := InsertBookingAndPay(db, quote.value.lines, quote.value.total, req, userId, clientIp, uuid, now, cfg, ext, fails);
  }

  /**
   * The rest of the transaction once the rooms are priced: the booking,
   * its lines, the first payment and the commit, rolling back to the
   * tables at entry on any error.
   */
  method InsertBookingAndPay(db: Store, lines: seq<BookingRoom>, total: real, req: CreateBookingRequest, userId: nat,
                             clientIp: string, uuid: string, now: int, cfg: VnpayConfig, ext: Externals, fails: set<DbStep>)
    returns (r: Result<(Booking, string), Error>)
    requires total == StayTotal(lines, req.startDate, req.endDate)
    modifies db
    ensures (db.Snapshot(), r) == PlaceBooking(old(db.Snapshot()), lines, req, userId, clientIp, uuid, now, cfg, ext, fails)
  {
    var snapshot := db.Snapshot();
    if InsertBooking in fails {
      db.Restore(snapshot);
      return Failure(FailedToCreateBooking);
    }
    var booking := NewBooking(snapshot, req, userId, total, now);
    db.bookings := db.bookings + [booking];
    db.nextBookingId := db.nextBookingId + 1;

    var inserted := InsertBookingRooms(db, lines, booking.id, fails);
    if !inserted {
      db.Restore(snapshot);
      return Failure(FailedToCreateBookingRoom);
    }
    assert db.Snapshot() == WithBooking(snapshot, booking, lines);

    var paymentUrl := GetVnPayUrl(db, booking.id, clientIp, uuid, now, cfg, ext, fails);
    if paymentUrl.Failure? {
      db.Restore(snapshot);
      return Failure(FailedToCreateVnpayPayment);
    }
    if Commit in fails {
      db.Restore(snapshot);
      return Failure(FailedToCommitTransaction);
    }
    return Success((booking, paymentUrl.value));
  }

  // ----- what CreateBooking promises -----

  /** Every failure rolls back: the tables are the ones at `Begin`. */
  lemma CreateBookingAllOrNothing(t: Tables, req: CreateBookingRequest, userId: nat, clientIp: string, uuid: string, now: int,
                                  cfg: VnpayConfig, ext: Externals, fails: set<DbStep>)
    ensures var r := CreateBookingSpec(t, req, userId, clientIp, uuid, now, cfg, ext, fails);
      r.1.Failure? ==> r.0 == t
  {
  }

  /**
   * A failing room check ends the call with that room's error: the first
   * room in request order that fails decides the error.
   */
  lemma CreateBookingFirstFailingRoom(t: Tables, req: CreateBookingRequest, userId: nat, clientIp: string, uuid: string, now: int,
                                      cfg: VnpayConfig, ext: Externals, fails: set<DbStep>, i: nat)
    requires i < |req.roomIds| && RoomCheck(t, req.startDate, req.endDate, req.roomIds[i], i, fails).Failure?
    requires forall j :: 0 <= j < i ==> RoomCheck(t, req.startDate, req.endDate, req.roomIds[j], j, fails).Success?
    ensures CreateBookingSpec(t, req, userId, clientIp, uuid, now, cfg, ext, fails) ==
      (t, Failure(RoomCheck(t, req.startDate, req.endDate, req.roomIds[i], i, fails).error))
  {
    var ids := req.roomIds;
    var prefix := ids[..i + 1];
    assert prefix[..i] == ids[..i];
    QuoteSucceedsIffAllPass(t, req.startDate, req.endDate, ids[..i], fails);
    assert Quote(t, req.startDate, req.endDate, prefix, fails).Failure?;
    QuoteFailureSticks(t, req.startDate, req.endDate, ids, i + 1, fails);
  }

  /**
   * With valid booking ids, the call succeeds exactly when every room
   * passes its checks, every insert succeeds, the link can be built for
   * the new booking's total and the commit succeeds.
   */
  lemma CreateBookingSucceedsIff(t: Tables, req: CreateBookingRequest, userId: nat, clientIp: string, uuid: string, now: int,
                                 cfg: VnpayConfig, ext: Externals, fails: set<DbStep>)
    requires BookingIdsValid(t)
    ensures var q := Quote(t, req.startDate, req.endDate, req.roomIds, fails);
      var id := t.nextBookingId;
      CreateBookingSpec(t, req, userId, clientIp, uuid, now, cfg, ext, fails).1.Success? <==>
        && q.Success?
        && InsertBooking !in fails
        && (forall i :: 0 <= i < |req.roomIds| ==> InsertBookingRoom(i) !in fails)
        && LookupBooking !in fails && InsertPayment !in fails
        && PaymentUrl(TxnRef(id, uuid), Decimal(id), Trunc(StayTotal(q.value, req.startDate, req.endDate)), clientIp, HotelOrderType,
                      cfg, ext, now).Success?
        && Commit !in fails
  {
    var q := Quote(t, req.startDate, req.endDate, req.roomIds, fails);
    if q.Success? {
      QuoteLines(t, req.startDate, req.endDate, req.roomIds, fails);
      var booking := NewBooking(t, req, userId, StayTotal(q.value, req.startDate, req.endDate), now);
      NewBookingFound(t, booking, q.value);
    }
  }

  /** The tables and the booking a successful call leaves, in terms of the loop's lines. */
  lemma CreateBookingTables(t: Tables, req: CreateBookingRequest, userId: nat, clientIp: string, uuid: string, now: int,
                            cfg: VnpayConfig, ext: Externals, fails: set<DbStep>)
    requires CreateBookingSpec(t, req, userId, clientIp, uuid, now, cfg, ext, fails).1.Success?
    ensures Quote(t, req.startDate, req.endDate, req.roomIds, fails).Success?
    ensures var r := CreateBookingSpec(t, req, userId, clientIp, uuid, now, cfg, ext, fails);
      var lines := Quote(t, req.startDate, req.endDate, req.roomIds, fails).value;
      var booking := NewBooking(t, req, userId, StayTotal(lines, req.startDate, req.endDate), now);
      && r.1.value.0 == booking
      && r.0 == WithBooking(t, booking, lines).(payments := t.payments + [PendingPayment(booking.id, TxnRef(booking.id, uuid), now)])
  {
  }

  /**
   * The link a successful call returns is the payment link for the new
   * booking: its id, the transaction reference made from the id and the
   * uuid, and its total truncated to whole units.
   */
  lemma {:induction false} CreateBookingLink(t: Tables, req: CreateBookingRequest, userId: nat, clientIp: string, uuid: string, now: int,
                                             cfg: VnpayConfig, ext: Externals, fails: set<DbStep>)
    requires BookingIdsValid(t)
    requires CreateBookingSpec(t, req, userId, clientIp, uuid, now, cfg, ext, fails).1.Success?
    ensures var r := CreateBookingSpec(t, req, userId, clientIp, uuid, now, cfg, ext, fails);
      var booking := r.1.value.0;
      var link := PaymentUrl(TxnRef(booking.id, uuid), Decimal(booking.id), Trunc(booking.totalPrice), clientIp, HotelOrderType, cfg, ext, now);
      link.Success? && link.value == r.1.value.1
  {
    var lines := Quote(t, req.startDate, req.endDate, req.roomIds, fails).value;
    assert CreateBookingSpec(t, req, userId, clientIp, uuid, now, cfg, ext, fails)
        == PlaceBooking(t, lines, req, userId, clientIp, uuid, now, cfg, ext, fails);
    PlacedLink(t, lines, req, userId, clientIp, uuid, now, cfg, ext, fails);
  }

  /** A placed booking is the new booking with the link its first payment produced. */
  lemma PlaceBookingParts(t: Tables, lines: seq<BookingRoom>, req: CreateBookingRequest, userId: nat, clientIp: string, uuid: string, now: int,
                          cfg: VnpayConfig, ext: Externals, fails: set<DbStep>)
    ensures var r := PlaceBooking(t, lines, req, userId, clientIp, uuid, now, cfg, ext, fails);
      var booking := NewBooking(t, req, userId, StayTotal(lines, req.startDate, req.endDate), now);
      r.1.Success? ==> r.1.value.0 == booking && r.1.value.1 == GetVnPayUrlSpec(WithBooking(t, booking, lines), booking.id, clientIp, uuid, now, cfg, ext, fails).1.value
  {
  }

  /** `CreateBookingLink` once the rooms are priced. */
  lemma PlacedLink(t: Tables, lines: seq<BookingRoom>, req: CreateBookingRequest, userId: nat, clientIp: string, uuid: string, now: int,
                   cfg: VnpayConfig, ext: Externals, fails: set<DbStep>)
    requires BookingIdsValid(t)
    requires PlaceBooking(t, lines, req, userId, clientIp, uuid, now, cfg, ext, fails).1.Success?
    ensures var r := PlaceBooking(t, lines, req, userId, clientIp, uuid, now, cfg, ext, fails);
      var booking := r.1.value.0;
      var link := PaymentUrl(TxnRef(booking.id, uuid), Decimal(booking.id), Trunc(booking.totalPrice), clientIp, HotelOrderType, cfg, ext, now);
      link.Success? && link.value == r.1.value.1
  {
    var booking := NewBooking(t, req, userId, StayTotal(lines, req.startDate, req.endDate), now);
    NewBookingFound(t, booking, lines);
    var placed := GetVnPayUrlSpec(WithBooking(t, booking, lines), booking.id, clientIp, uuid, now, cfg, ext, fails);
    GetVnPayUrlEffects(WithBooking(t, booking, lines), booking.id, clientIp, uuid, now, cfg, ext, fails, placed);
    PlaceBookingParts(t, lines, req, userId, clientIp, uuid, now, cfg, ext, fails);
  }

  /**
   * What a booked line says about its room at booking time: a positive id,
   * no overlapping blocking booking, and the room's nightly price.
   */
  predicate PassedChecks(t: Tables, start: int, end: int, roomId: int, line: BookingRoom)
  {
    && roomId > 0
    && line.roomId == roomId
    && IsAvailableRoom(t, roomId, start, end, false) == Some(true)
    && GetPriceByRoomID(t.rooms, roomId, false).Found?
    && line.price == GetPriceByRoomID(t.rooms, roomId, false).row
  }

  /** A line built from a room that passed its checks. */
  lemma RoomPassed(t: Tables, start: int, end: int, roomId: int, i: nat, fails: set<DbStep>, line: BookingRoom)
    requires line.roomId == roomId && RoomCheck(t, start, end, roomId, i, fails) == Success(line.price)
    ensures PassedChecks(t, start, end, roomId, line)
  {
    RoomCheckMeaning(t, start, end, roomId, i, fails);
  }

  /** The lines of a successful loop describe the requested rooms in order. */
  lemma {:induction false} QuotedRooms(t: Tables, start: int, end: int, ids: seq<int>, fails: set<DbStep>)
    requires Quote(t, start, end, ids, fails).Success?
    ensures var lines := Quote(t, start, end, ids, fails).value;
      && |lines| == |ids|
      && (forall i :: 0 <= i < |ids| ==> PassedChecks(t, start, end, ids[i], lines[i]))
  {
    var lines := Quote(t, start, end, ids, fails).value;
    QuoteLines(t, start, end, ids, fails);
    forall i | 0 <= i < |ids|
      ensures PassedChecks(t, start, end, ids[i], lines[i])
    {
      RoomPassed(t, start, end, ids[i], i, fails, lines[i]);
    }
  }

  /** Filling in the booking id keeps the price of the stay. */
  lemma StayTotalWithBookingId(lines: seq<BookingRoom>, id: nat, start: int, end: int)
    ensures StayTotal(WithBookingId(lines, id), start, end) == StayTotal(lines, start, end)
  {
    assert Prices(WithBookingId(lines, id)) == Prices(lines);
  }

  /**
   * A successful call adds exactly one pending, unpaid booking with the
   * next id, one line per requested room and one pending payment; the
   * booking's total is the running total of the stored lines' prices over
   * the nights.  Nothing else changes.
   */
  lemma {:induction false} CreateBookingEffects(t: Tables, req: CreateBookingRequest, userId: nat, clientIp: string, uuid: string, now: int,
                                                cfg: VnpayConfig, ext: Externals, fails: set<DbStep>, r: (Tables, Result<(Booking, string), Error>))
    requires BookingIdsValid(t)
    requires r == CreateBookingSpec(t, req, userId, clientIp, uuid, now, cfg, ext, fails) && r.1.Success?
    ensures |r.0.bookingRooms| == |t.bookingRooms| + |req.roomIds|
    ensures r.1.value.0 == Booking(t.nextBookingId, userId, Pending, StayTotal(r.0.bookingRooms[|t.bookingRooms|..], req.startDate, req.endDate),
                                   false, req.startDate, req.endDate, now)
    ensures r.0 == t.(bookings := t.bookings + [r.1.value.0],
                      bookingRooms := t.bookingRooms + r.0.bookingRooms[|t.bookingRooms|..],
                      payments := t.payments + [PendingPayment(r.1.value.0.id, TxnRef(r.1.value.0.id, uuid), now)],
                      nextBookingId := t.nextBookingId + 1)
  {
    CreateBookingTables(t, req, userId, clientIp, uuid, now, cfg, ext, fails);
    var lines := Quote(t, req.startDate, req.endDate, req.roomIds, fails).value;
    QuoteLines(t, req.startDate, req.endDate, req.roomIds, fails);
    assert r.0.bookingRooms[|t.bookingRooms|..] == WithBookingId(lines, r.1.value.0.id);
    StayTotalWithBookingId(lines, r.1.value.0.id, req.startDate, req.endDate);
  }

  /**
   * After a successful call each stored line, in request order, carries the
   * new booking's id and the requested room, which passed its checks at
   * booking time.
   */
  lemma {:induction false} CreateBookingStoredLines(t: Tables, req: CreateBookingRequest, userId: nat, clientIp: string, uuid: string, now: int,
                                                    cfg: VnpayConfig, ext: Externals, fails: set<DbStep>, r: (Tables, Result<(Booking, string), Error>))
    requires BookingIdsValid(t)
    requires r == CreateBookingSpec(t, req, userId, clientIp, uuid, now, cfg, ext, fails) && r.1.Success?
    ensures |r.0.bookingRooms| == |t.bookingRooms| + |req.roomIds|
    ensures forall i :: 0 <= i < |req.roomIds| ==>
      && r.0.bookingRooms[|t.bookingRooms| + i].bookingId == r.1.value.0.id
      && PassedChecks(t, req.startDate, req.endDate, req.roomIds[i], r.0.bookingRooms[|t.bookingRooms| + i])
  {
    CreateBookingTables(t, req, userId, clientIp, uuid, now, cfg, ext, fails);
    StoredLinesPassed(t, req.startDate, req.endDate, req.roomIds, fails, r.1.value.0, r.0);
  }

  /** The call keeps the booking ids valid. */
  lemma {:induction false} CreateBookingKeepsIdsValid(t: Tables, req: CreateBookingRequest, userId: nat, clientIp: string, uuid: string, now: int,
                                                      cfg: VnpayConfig, ext: Externals, fails: set<DbStep>)
    requires BookingIdsValid(t)
    ensures BookingIdsValid(CreateBookingSpec(t, req, userId, clientIp, uuid, now, cfg, ext, fails).0)
  {
    var r := CreateBookingSpec(t, req, userId, clientIp, uuid, now, cfg, ext, fails);
    if r.1.Success? {
      CreateBookingTables(t, req, userId, clientIp, uuid, now, cfg, ext, fails);
      var lines := Quote(t, req.startDate, req.endDate, req.roomIds, fails).value;
      WithBookingKeepsIdsValid(t, r.1.value.0, lines);
    } else {
      CreateBookingAllOrNothing(t, req, userId, clientIp, uuid, now, cfg, ext, fails);
    }
  }

  /**
   * The lines inserted with a booking follow the old ones, one per
   * requested room, each with the booking's id and a room that passed its
   * checks.
   */
  lemma StoredLinesPassed(t: Tables, start: int, end: int, ids: seq<int>, fails: set<DbStep>, booking: Booking, t2: Tables)
    requires Quote(t, start, end, ids, fails).Success?
    requires t2.bookingRooms == WithBooking(t, booking, Quote(t, start, end, ids, fails).value).bookingRooms
    ensures |t2.bookingRooms| == |t.bookingRooms| + |ids|
    ensures forall i :: 0 <= i < |ids| ==>
      && t2.bookingRooms[|t.bookingRooms| + i].bookingId == booking.id
      && PassedChecks(t, start, end, ids[i], t2.bookingRooms[|t.bookingRooms| + i])
  {
    var lines := Quote(t, start, end, ids, fails).value;
    QuotedRooms(t, start, end, ids, fails);
    forall i | 0 <= i < |ids|
      ensures t2.bookingRooms[|t.bookingRooms| + i] == lines[i].(bookingId := booking.id)
    {
    }
  }

  // ----- CancelBooking -----

  /**
   * `CancelBooking`: the caller's own booking, and only while it is booked,
   * becomes cancelled.  There is no transaction: the single update is the
   * only write.
   */
  function CancelBookingSpec(t: Tables, bookingId: nat, userId: nat, fails: set<DbStep>): (r: (Tables, Option<Error>))
  {
    if bookingId == 0 then (t, Some(InvalidBookingId))
    else
      match GetBookingByBookingIDAndUserID(t.bookings, bookingId, userId, LookupBooking in fails)
      case NotFound => (t, Some(BookingNotFound))
      case QueryFailed => (t, Some(FailedToGetBooking))
      case Found(i, booking) =>
        if booking.status != Booked then (t, Some(FailedToCancelBooking))
        else if UpdateBooking in fails then (t, Some(FailedToCancelBooking))
        else (t.(bookings := t.bookings[i := booking.(status := Cancelled)]), None)
  }

  /** `CancelBooking` on the store. */
  method CancelBooking(db: Store, bookingId: nat, userId: nat, fails: set<DbStep>) returns (err: Option<Error>)
    modifies db
    ensures (db.Snapshot(), err) == CancelBookingSpec(old(db.Snapshot()), bookingId, userId, fails)
  {
    if bookingId == 0 {
      return Some(InvalidBookingId);
    }
    var found := GetBookingByBookingIDAndUserID(db.bookings, bookingId, userId, LookupBooking in fails);
    if found.NotFound? {
      return Some(BookingNotFound);
    }
    if found.QueryFailed? {
      return Some(FailedToGetBooking);
    }
    var booking := found.row;
    if booking.status != Booked {
      return Some(FailedToCancelBooking);
    }
    booking := booking.(status := Cancelled);
    if UpdateBooking in fails {
      return Some(FailedToCancelBooking);
    }
    db.bookings := db.bookings[found.index := booking];
    return None;
  }

  // ----- what CancelBooking promises -----

  /** The booking with that id, if any, is owned by `userId`. */
  predicate OwnedBy(t: Tables, i: int, bookingId: nat, userId: nat)
  {
    0 <= i < |t.bookings| && t.bookings[i].id == bookingId && t.bookings[i].userId == userId
  }

  /**
   * The checks in order: a zero id, then a failed lookup, then a booking
   * that is missing or belongs to someone else.  No error writes anything.
   */
  lemma CancelBookingErrors(t: Tables, bookingId: nat, userId: nat, fails: set<DbStep>)
    ensures var r := CancelBookingSpec(t, bookingId, userId, fails);
      && (r.1.Some? ==> r.0 == t)
      && (bookingId == 0 ==> r.1 == Some(InvalidBookingId))
      && (bookingId > 0 && LookupBooking in fails ==> r.1 == Some(FailedToGetBooking))
      && ((bookingId > 0 && LookupBooking !in fails && forall i :: !OwnedBy(t, i, bookingId, userId))
          ==> r.1 == Some(BookingNotFound))
  {
    if bookingId > 0 && LookupBooking !in fails && forall i :: !OwnedBy(t, i, bookingId, userId) {
      forall j | 0 <= j < |t.bookings|
        ensures !(t.bookings[j].id == bookingId && t.bookings[j].userId == userId)
      {
        assert !OwnedBy(t, j, bookingId, userId);
      }
    }
  }

  /**
   * With unique ids, cancelling succeeds exactly when the id is positive,
   * the caller owns a booking with that id that is booked, and neither the
   * lookup nor the update fails.
   */
  lemma CancelBookingSucceedsIff(t: Tables, bookingId: nat, userId: nat, fails: set<DbStep>)
    requires BookingIdsValid(t)
    ensures CancelBookingSpec(t, bookingId, userId, fails).1.None? <==>
      && bookingId > 0
      && LookupBooking !in fails && UpdateBooking !in fails
      && exists i :: OwnedBy(t, i, bookingId, userId) && t.bookings[i].status == Booked
  {
    if bookingId > 0 && LookupBooking !in fails && UpdateBooking !in fails {
      var found := GetBookingByBookingIDAndUserID(t.bookings, bookingId, userId, false);
      if i :| OwnedBy(t, i, bookingId, userId) && t.bookings[i].status == Booked {
        assert found.Found?;
        assert found.index == i;
      } else if found.Found? {
        assert OwnedBy(t, found.index, bookingId, userId);
      }
    }
  }

  /**
   * A successful cancel changes one booking of the caller, which was
   * booked, to cancelled; no other field, row or table changes.  Unique ids
   * and "every paid booking has a bill" are kept.
   */
  lemma CancelBookingEffects(t: Tables, bookingId: nat, userId: nat, fails: set<DbStep>)
    requires CancelBookingSpec(t, bookingId, userId, fails).1.None?
    ensures exists i ::
      && OwnedBy(t, i, bookingId, userId) && t.bookings[i].status == Booked
      && CancelBookingSpec(t, bookingId, userId, fails).0 == t.(bookings := t.bookings[i := t.bookings[i].(status := Cancelled)])
    ensures BookingIdsValid(t) ==> BookingIdsValid(CancelBookingSpec(t, bookingId, userId, fails).0)
    ensures PaidHasBill(t) ==> PaidHasBill(CancelBookingSpec(t, bookingId, userId, fails).0)
  {
    var found := GetBookingByBookingIDAndUserID(t.bookings, bookingId, userId, LookupBooking in fails);
    assert OwnedBy(t, found.index, bookingId, userId);
    var t2 := CancelBookingSpec(t, bookingId, userId, fails).0;
    assert forall k :: 0 <= k < |t.bookings| ==> t2.bookings[k].id == t.bookings[k].id;
    assert forall k :: 0 <= k < |t.bookings| ==> t2.bookings[k].isPaid == t.bookings[k].isPaid;
  }

  /** Cancelling the same booking again fails without writing: it is no longer booked. */
  lemma {:induction false} CancelTwiceFails(t: Tables, bookingId: nat, userId: nat, fails: set<DbStep>)
    requires CancelBookingSpec(t, bookingId, userId, fails).1.None?
    ensures var t2 := CancelBookingSpec(t, bookingId, userId, fails).0;
      CancelBookingSpec(t2, bookingId, userId, fails) == (t2, Some(FailedToCancelBooking))
  {
    var found := GetBookingByBookingIDAndUserID(t.bookings, bookingId, userId, LookupBooking in fails);
    var t2 := CancelBookingSpec(t, bookingId, userId, fails).0;
    FirstOwnedStays(t.bookings, found.index, bookingId, userId, t2.bookings);
  }

  /**
   * Changing only the status of the first row owned by the caller with that
   * id leaves it the first such row.
   */
  lemma {:induction false} FirstOwnedStays(bs: seq<Booking>, i: nat, bookingId: nat, userId: nat, bs2: seq<Booking>)
    requires i < |bs| && bs2 == bs[i := bs[i].(status := Cancelled)]
    requires GetBookingByBookingIDAndUserID(bs, bookingId, userId, false) == Found(i, bs[i])
    ensures GetBookingByBookingIDAndUserID(bs2, bookingId, userId, false) == Found(i, bs2[i])
  {
    FirstOwnedFrom(bs, i, bookingId, userId, bs2, 0);
  }

  lemma {:induction false} FirstOwnedFrom(bs: seq<Booking>, i: nat, bookingId: nat, userId: nat, bs2: seq<Booking>, from: nat)
    requires from <= i < |bs| && bs2 == bs[i := bs[i].(status := Cancelled)]
    requires bs[i].id == bookingId && bs[i].userId == userId
    requires forall j :: 0 <= j < from ==> !(bs[j].id == bookingId && bs[j].userId == userId)
    requires FindOwnedBooking(bs, bookingId, userId, from) == Found(i, bs[i])
    ensures FindOwnedBooking(bs2, bookingId, userId, from) == Found(i, bs2[i])
    decreases i - from
  {
    if from < i {
      FirstOwnedFrom(bs, i, bookingId, userId, bs2, from + 1);
    }
  }

  /** Another user's booking is reported as not found, and nothing changes. */
  lemma CancelOthersBookingNotFound(t: Tables, bookingId: nat, userId: nat, fails: set<DbStep>, i: nat)
    requires BookingIdsValid(t) && bookingId > 0 && LookupBooking !in fails
    requires i < |t.bookings| && t.bookings[i].id == bookingId && t.bookings[i].userId != userId
    ensures CancelBookingSpec(t, bookingId, userId, fails) == (t, Some(BookingNotFound))
  {
    forall j | 0 <= j < |t.bookings|
      ensures !OwnedBy(t, j, bookingId, userId)
    {
      if j < i {
        assert t.bookings[j].id < t.bookings[i].id;
      } else if j > i {
        assert t.bookings[i].id < t.bookings[j].id;
      }
    }
  }

  // ----- GetBookingHistory -----

  /** `dto.BookingHistoryRoom`. */
  datatype HistoryRoom = HistoryRoom(id: nat, name: string, roomType: string, bedNum: int, price: real)

  /** `dto.BookingHistoryResponse`; the status is the stored string. */
  datatype HistoryEntry = HistoryEntry(
    id: nat,
    startDate: int,
    endDate: int,
    totalPrice: real,
    status: string,
    isPaid: bool,
    rooms: seq<HistoryRoom>)

  /** `Where("user_id = ?", userID).Find(...)`: the user's bookings, in table order. */
  function UserBookings(bs: seq<Booking>, userId: nat): (r: seq<Booking>)
    ensures |r| <= |bs|
    ensures forall b :: b in r <==> b in bs && b.userId == userId
  {
    if bs == [] then []
    else (if bs[0].userId == userId then [bs[0]] else []) + UserBookings(bs[1..], userId)
  }

  /** Each booking of the user appears as often as in the table, no other booking appears, and the order is the table's. */
  lemma {:induction false} UserBookingsExact(bs: seq<Booking>, userId: nat)
    ensures forall b :: multiset(UserBookings(bs, userId))[b] == if b.userId == userId then multiset(bs)[b] else 0
    ensures Subsequence(UserBookings(bs, userId), bs)
  {
    if bs != [] {
      var rest := UserBookings(bs[1..], userId);
      UserBookingsExact(bs[1..], userId);
      assert multiset(bs) == multiset([bs[0]]) + multiset(bs[1..]) by {
        assert bs == [bs[0]] + bs[1..];
      }
      if bs[0].userId == userId {
        var r := [bs[0]] + rest;
        assert UserBookings(bs, userId) == r;
        assert r[0] == bs[0] && r[1..] == rest;
      } else {
        assert UserBookings(bs, userId) == rest;
        assert rest != [] ==> rest[0] in rest && rest[0] != bs[0];
      }
    }
  }

  /** `Preload("BookingRooms")`: the booking_rooms rows of a booking, in table order. */
  function RoomsOfBooking(brs: seq<BookingRoom>, bookingId: nat): (r: seq<BookingRoom>)
    ensures |r| <= |brs|
    ensures forall br :: br in r <==> br in brs && br.bookingId == bookingId
  {
    if brs == [] then []
    else (if brs[0].bookingId == bookingId then [brs[0]] else []) + RoomsOfBooking(brs[1..], bookingId)
  }

  /** Each row of the booking appears as often as in the table, no other row appears, and the order is the table's. */
  lemma {:induction false} RoomsOfBookingExact(brs: seq<BookingRoom>, bookingId: nat)
    ensures forall br :: multiset(RoomsOfBooking(brs, bookingId))[br] == if br.bookingId == bookingId then multiset(brs)[br] else 0
    ensures Subsequence(RoomsOfBooking(brs, bookingId), brs)
  {
    if brs != [] {
      var rest := RoomsOfBooking(brs[1..], bookingId);
      RoomsOfBookingExact(brs[1..], bookingId);
      assert multiset(brs) == multiset([brs[0]]) + multiset(brs[1..]) by {
        assert brs == [brs[0]] + brs[1..];
      }
      if brs[0].bookingId == bookingId {
        var r := [brs[0]] + rest;
        assert RoomsOfBooking(brs, bookingId) == r;
        assert r[0] == brs[0] && r[1..] == rest;
      } else {
        assert RoomsOfBooking(brs, bookingId) == rest;
        assert rest != [] ==> rest[0] in rest && rest[0] != brs[0];
      }
    }
  }

  /** The zero value gorm leaves in an association it could not load. */
  const ZeroRoom: Room := Room(0, "", "", 0.0, 0, false, "", "", false, 0)

  /** `Preload("BookingRooms.Room")`: the first room with the line's room id, or the zero room. */
  function PreloadedRoom(rooms: seq<Room>, roomId: nat): (r: Room)
    ensures (exists k :: 0 <= k < |rooms| && rooms[k].id == roomId) ==> r in rooms && r.id == roomId
    ensures (forall k :: 0 <= k < |rooms| ==> rooms[k].id != roomId) ==> r == ZeroRoom
  {
    if rooms == [] then ZeroRoom
    else if rooms[0].id == roomId then rooms[0]
    else PreloadedRoom(rooms[1..], roomId)
  }

  /** `h` shows the booking_rooms row `line`: the preloaded room's details and the price captured at booking time. */
  predicate ShowsRoom(rooms: seq<Room>, h: HistoryRoom, line: BookingRoom)
  {
    var room := PreloadedRoom(rooms, line.roomId);
    h == HistoryRoom(room.id, room.name, room.roomType, room.bedNum, line.price)
  }

  /**
   * `e` lists booking `b` as the history shows it: its own fields, and one
   * room per booking_rooms row of it, in order.
   */
  predicate Describes(brs: seq<BookingRoom>, rooms: seq<Room>, e: HistoryEntry, b: Booking)
  {
    var lines := RoomsOfBooking(brs, b.id);
    && e.id == b.id && e.startDate == b.startDate && e.endDate == b.endDate
    && e.totalPrice == b.totalPrice && e.status == StatusName(b.status) && e.isPaid == b.isPaid
    && |e.rooms| == |lines|
    && forall j :: 0 <= j < |lines| ==> ShowsRoom(rooms, e.rooms[j], lines[j])
  }

  /** The inner loop: one history room per booking_rooms row, in order. */
  method HistoryRooms(rooms: seq<Room>, lines: seq<BookingRoom>) returns (hs: seq<HistoryRoom>)
    ensures |hs| == |lines|
    ensures forall j :: 0 <= j < |lines| ==> ShowsRoom(rooms, hs[j], lines[j])
  {
    hs := [];
    for j := 0 to |lines|
      invariant |hs| == j
      invariant forall k :: 0 <= k < j ==> ShowsRoom(rooms, hs[k], lines[k])
    {
      var room := PreloadedRoom(rooms, lines[j].roomId);
      hs := hs + [HistoryRoom(room.id, room.name, room.roomType, room.bedNum, lines[j].price)];
    }
  }

  /**
   * `GetBookingHistory`: one entry per booking of the user, in the order
   * the query returns them.  A failed query is reported as a failure to
   * get the history; `Find` never reports a missing row, so the
   * not-found branch is never taken and a user without bookings gets an
   * empty history.
   */
  method GetBookingHistory(db: Store, userId: nat, fails: set<DbStep>) returns (r: Result<seq<HistoryEntry>, Error>)
    ensures r.Failure? <==> QueryBookings in fails
    ensures r.Failure? ==> r.error == FailedToGetBookingHistory
    ensures r.Success? ==>
      var bookings := UserBookings(db.bookings, userId);
      && |r.value| == |bookings|
      && forall i :: 0 <= i < |bookings| ==> Describes(db.bookingRooms, db.rooms, r.value[i], bookings[i])
  {
    if QueryBookings in fails {
      return Failure(FailedToGetBookingHistory);
    }
    var bookings := UserBookings(db.bookings, userId);
    var history: seq<HistoryEntry> := [];
    for i := 0 to |bookings|
      invariant |history| == i
      invariant forall k :: 0 <= k < i ==> Describes(db.bookingRooms, db.rooms, history[k], bookings[k])
    {
      var booking := bookings[i];
      var rooms := HistoryRooms(db.rooms, RoomsOfBooking(db.bookingRooms, booking.id));
      var entry := HistoryEntry(booking.id, booking.startDate, booking.endDate, booking.totalPrice,
                                StatusName(booking.status), booking.isPaid, rooms);
      history := history + [entry];
    }
    return Success(history);
  }

  /** After a successful cancel, the row with that id is cancelled. */
  lemma {:induction false} CancelledRow(t: Tables, bookingId: nat, userId: nat, fails: set<DbStep>, k: nat)
    requires BookingIdsValid(t) && CancelBookingSpec(t, bookingId, userId, fails).1.None?
    requires var t2 := CancelBookingSpec(t, bookingId, userId, fails).0;
      k < |t2.bookings| && t2.bookings[k].id == bookingId
    ensures CancelBookingSpec(t, bookingId, userId, fails).0.bookings[k].status == Cancelled
  {
    CancelBookingEffects(t, bookingId, userId, fails);
    var i :|
      && OwnedBy(t, i, bookingId, userId) && t.bookings[i].status == Booked
      && CancelBookingSpec(t, bookingId, userId, fails).0 == t.(bookings := t.bookings[i := t.bookings[i].(status := Cancelled)]);
    UniqueBookingId(CancelBookingSpec(t, bookingId, userId, fails).0, k, i);
  }

  /** After a successful cancel the booking's history entry shows it as cancelled. */
  lemma {:induction false} CancelledBookingInHistory(t: Tables, bookingId: nat, userId: nat, fails: set<DbStep>, e: HistoryEntry, b: Booking)
    requires BookingIdsValid(t) && CancelBookingSpec(t, bookingId, userId, fails).1.None?
    requires var t2 := CancelBookingSpec(t, bookingId, userId, fails).0;
      b in UserBookings(t2.bookings, userId) && b.id == bookingId && Describes(t2.bookingRooms, t2.rooms, e, b)
    ensures e.status == "cancelled"
  {
    var t2 := CancelBookingSpec(t, bookingId, userId, fails).0;
    var k :| 0 <= k < |t2.bookings| && t2.bookings[k] == b;
    CancelledRow(t, bookingId, userId, fails, k);
  }
}
