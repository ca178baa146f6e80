/**
 * The booking repository (internal/repository/booking_repository.go) over the
 * in-memory store: the queries become functions on `Tables`, the deletion a
 * method on `Store`.  A query that fails is an input: `failed: bool` for the
 * lookups whose errors the use cases translate, `fault: Option<string>` (the
 * driver's message) for the calls that pass the driver's error through.
 */
module BookingRepository {
  import opened Wrappers
  import opened Errors
  import opened Status
  import opened Models
  import opened Database
  import opened Strings
  import opened Sequences

  /** The outcome of a `First` query: the row and its position, no row, or a failed query. */
  datatype Fetch<T> = Found(index: nat, row: T) | NotFound | QueryFailed

  // ----- availability -----

  /** `start < b.end_date AND end > b.start_date`: ranges that only touch do not overlap. */
  predicate Overlaps(start: int, end: int, b: Booking)
  {
    start < b.endDate && end > b.startDate
  }

  /** Only bookings in these statuses hold their rooms. */
  predicate Blocking(s: BookingStatus)
  {
    s == Booked || s == CheckedIn
  }

  /** A joined (booking_rooms, bookings) row that the availability query counts. */
  predicate Conflict(br: BookingRoom, b: Booking, roomId: nat, start: int, end: int)
  {
    br.roomId == roomId && br.bookingId == b.id && Blocking(b.status) && Overlaps(start, end, b)
  }

  /** The number of rows of `bs` that `br` joins with and that conflict. */
  function JoinCount(br: BookingRoom, bs: seq<Booking>, roomId: nat, start: int, end: int): (n: nat)
    ensures n == 0 <==> forall j :: 0 <= j < |bs| ==> !Conflict(br, bs[j], roomId, start, end)
  {
    if bs == [] then 0
    else
      var k := |bs| - 1;
      JoinCount(br, bs[..k], roomId, start, end) + (if Conflict(br, bs[k], roomId, start, end) then 1 else 0)
  }

  /** `COUNT(*)` of the availability query. */
  function ConflictCount(brs: seq<BookingRoom>, bs: seq<Booking>, roomId: nat, start: int, end: int): (n: nat)
    ensures n == 0 <==>
      forall i, j :: 0 <= i < |brs| && 0 <= j < |bs| ==> !Conflict(brs[i], bs[j], roomId, start, end)
  {
    if brs == [] then 0
    else
      var k := |brs| - 1;
      var n := ConflictCount(brs[..k], bs, roomId, start, end) + JoinCount(brs[k], bs, roomId, start, end);
      assert forall i :: 0 <= i < k ==> brs[..k][i] == brs[i];
      n
  }

  /** No booking_rooms row of the room joins a blocking booking that overlaps the range. */
  predicate NoConflict(t: Tables, roomId: nat, start: int, end: int)
  {
    forall i, j :: 0 <= i < |t.bookingRooms| && 0 <= j < |t.bookings| ==>
      !Conflict(t.bookingRooms[i], t.bookings[j], roomId, start, end)
  }

  /** `IsAvailableRoom`: `None` when the query fails, otherwise whether the count is zero. */
  function IsAvailableRoom(t: Tables, roomId: nat, start: int, end: int, failed: bool): (r: Option<bool>)
    ensures r.None? <==> failed
    ensures r.Some? ==> (r.value <==> NoConflict(t, roomId, start, end))
  {
    if failed then None else Some(ConflictCount(t.bookingRooms, t.bookings, roomId, start, end) == 0)
  }

  /**
   * Ranges that meet end to start never conflict: when every blocking
   * booking of the room ends no later than `start` or begins no earlier than
   * `end`, the room is available.
   */
  lemma BackToBackAvailable(t: Tables, roomId: nat, start: int, end: int)
    requires forall i, j ::
      (0 <= i < |t.bookingRooms| && 0 <= j < |t.bookings|
       && t.bookingRooms[i].roomId == roomId && t.bookingRooms[i].bookingId == t.bookings[j].id
       && Blocking(t.bookings[j].status))
      ==> t.bookings[j].endDate <= start || t.bookings[j].startDate >= end
    ensures IsAvailableRoom(t, roomId, start, end, false) == Some(true)
  {
  }

  /**
   * A booking in `pending`, `checked_out`, `cancelled` or `no_show` never
   * makes a room unavailable: adding it, with its booking_rooms rows, changes
   * no availability answer.
   */
  lemma NonBlockingBookingIgnored(t: Tables, b: Booking, brs: seq<BookingRoom>, roomId: nat, start: int, end: int)
    requires !Blocking(b.status)
    requires forall j :: 0 <= j < |t.bookings| ==> t.bookings[j].id != b.id
    requires forall i :: 0 <= i < |brs| ==> brs[i].bookingId == b.id
    ensures IsAvailableRoom(t.(bookings := t.bookings + [b], bookingRooms := t.bookingRooms + brs), roomId, start, end, false)
         == IsAvailableRoom(t, roomId, start, end, false)
  {
    var t' := t.(bookings := t.bookings + [b], bookingRooms := t.bookingRooms + brs);
    if NoConflict(t, roomId, start, end) {
      forall i, j | 0 <= i < |t'.bookingRooms| && 0 <= j < |t'.bookings|
        ensures !Conflict(t'.bookingRooms[i], t'.bookings[j], roomId, start, end)
      {
        if i >= |t.bookingRooms| && j < |t.bookings| {
          assert t'.bookingRooms[i] == brs[i - |t.bookingRooms|];
          assert t'.bookings[j] == t.bookings[j];
        }
      }
    } else {
      var i, j :| 0 <= i < |t.bookingRooms| && 0 <= j < |t.bookings|
        && Conflict(t.bookingRooms[i], t.bookings[j], roomId, start, end);
      assert t'.bookingRooms[i] == t.bookingRooms[i] && t'.bookings[j] == t.bookings[j];
    }
  }

  // ----- lookups -----

  /** `First(&booking, id)`: the first row with that id. */
  function GetBookingByID(bs: seq<Booking>, id: nat, failed: bool): (r: Fetch<Booking>)
    ensures failed ==> r == QueryFailed
    ensures r.Found? ==>
      (r.index < |bs| && bs[r.index] == r.row && r.row.id == id
       && forall j :: 0 <= j < r.index ==> bs[j].id != id)
    ensures r.NotFound? <==> !failed && forall j :: 0 <= j < |bs| ==> bs[j].id != id
  {
    if failed then QueryFailed else FindBooking(bs, id, 0)
  }

  function FindBooking(bs: seq<Booking>, id: nat, from: nat): (r: Fetch<Booking>)
    requires from <= |bs|
    requires forall j :: 0 <= j < from ==> bs[j].id != id
    ensures !r.QueryFailed?
    ensures r.Found? ==>
      (r.index < |bs| && bs[r.index] == r.row && r.row.id == id
       && forall j :: 0 <= j < r.index ==> bs[j].id != id)
    ensures r.NotFound? <==> forall j :: 0 <= j < |bs| ==> bs[j].id != id
    decreases |bs| - from
  {
    if from == |bs| then NotFound
    else if bs[from].id == id then Found(from, bs[from])
    else FindBooking(bs, id, from + 1)
  }

  /** The booking with that id sits at position `i`. */
  predicate At(t: Tables, i: int, bookingId: nat)
  {
    0 <= i < |t.bookings| && t.bookings[i].id == bookingId
  }

  /** With unique ids, the lookup finds the one row with the id. */
  lemma LookupFindsTheRow(t: Tables, i: nat, bookingId: nat)
    requires BookingIdsValid(t) && At(t, i, bookingId)
    ensures GetBookingByID(t.bookings, bookingId, false) == Found(i, t.bookings[i])
  {
    var found := GetBookingByID(t.bookings, bookingId, false);
    assert !found.NotFound?;
    assert found.index == i;
  }

  /**
   * `GetBookingByBookingIDAndUserID`: the first row whose id and owner both
   * match; a booking of another user is not found.
   */
  function GetBookingByBookingIDAndUserID(bs: seq<Booking>, id: nat, userId: nat, failed: bool): (r: Fetch<Booking>)
    ensures failed ==> r == QueryFailed
    ensures r.Found? ==> r.index < |bs| && bs[r.index] == r.row && r.row.id == id && r.row.userId == userId
    ensures r.NotFound? <==> !failed && forall j :: 0 <= j < |bs| ==> !(bs[j].id == id && bs[j].userId == userId)
  {
    if failed then QueryFailed else FindOwnedBooking(bs, id, userId, 0)
  }

  function FindOwnedBooking(bs: seq<Booking>, id: nat, userId: nat, from: nat): (r: Fetch<Booking>)
    requires from <= |bs|
    requires forall j :: 0 <= j < from ==> !(bs[j].id == id && bs[j].userId == userId)
    ensures !r.QueryFailed?
    ensures r.Found? ==> r.index < |bs| && bs[r.index] == r.row && r.row.id == id && r.row.userId == userId
    ensures r.NotFound? <==> forall j :: 0 <= j < |bs| ==> !(bs[j].id == id && bs[j].userId == userId)
    decreases |bs| - from
  {
    if from == |bs| then NotFound
    else if bs[from].id == id && bs[from].userId == userId then Found(from, bs[from])
    else FindOwnedBooking(bs, id, userId, from + 1)
  }

  /** `GetPriceByRoomID`: the nightly price of the first room with that id. */
  function GetPriceByRoomID(rooms: seq<Room>, roomId: nat, failed: bool): (r: Fetch<real>)
    ensures failed ==> r == QueryFailed
    ensures r.Found? ==> r.index < |rooms| && rooms[r.index].id == roomId && r.row == rooms[r.index].pricePerNight
    ensures r.NotFound? <==> !failed && forall j :: 0 <= j < |rooms| ==> rooms[j].id != roomId
  {
    if failed then QueryFailed else FindRoomPrice(rooms, roomId, 0)
  }

  function FindRoomPrice(rooms: seq<Room>, roomId: nat, from: nat): (r: Fetch<real>)
    requires from <= |rooms|
    requires forall j :: 0 <= j < from ==> rooms[j].id != roomId
    ensures !r.QueryFailed?
    ensures r.Found? ==> r.index < |rooms| && rooms[r.index].id == roomId && r.row == rooms[r.index].pricePerNight
    ensures r.NotFound? <==> forall j :: 0 <= j < |rooms| ==> rooms[j].id != roomId
    decreases |rooms| - from
  {
    if from == |rooms| then NotFound
    else if rooms[from].id == roomId then Found(from, rooms[from].pricePerNight)
    else FindRoomPrice(rooms, roomId, from + 1)
  }

  // ----- active bookings -----

  /** Checked in, and `now` lies within the stay (both ends included). */
  predicate IsActive(b: Booking, now: int)
  {
    b.status == CheckedIn && b.startDate <= now <= b.endDate
  }

  /** The booking_rooms row links booking `b` to the room. */
  predicate Links(br: BookingRoom, b: Booking, roomId: nat)
  {
    br.bookingId == b.id && br.roomId == roomId
  }

  /** Some booking_rooms row links booking `b` to the room. */
  predicate Linked(b: Booking, brs: seq<BookingRoom>, roomId: nat)
  {
    exists i :: 0 <= i < |brs| && Links(brs[i], b, roomId)
  }

  /** `b` once for every booking_rooms row of `brs` that links it to the room. */
  function JoinRows(b: Booking, brs: seq<BookingRoom>, roomId: nat): (r: seq<Booking>)
    ensures forall x :: x in r <==> x == b && Linked(b, brs, roomId)
  {
    if brs == [] then []
    else
      var k := |brs| - 1;
      var r := JoinRows(b, brs[..k], roomId) + (if Links(brs[k], b, roomId) then [b] else []);
      assert forall i :: 0 <= i < k ==> brs[..k][i] == brs[i];
      assert Linked(b, brs, roomId) <==> Linked(b, brs[..k], roomId) || Links(brs[k], b, roomId);
      r
  }

  /**
   * `GetActiveBookingsByRoomID` at time `now`: the join of bookings with
   * booking_rooms, keeping the checked-in bookings of the room whose stay
   * contains `now`.
   */
  function ActiveBookings(bs: seq<Booking>, brs: seq<BookingRoom>, roomId: nat, now: int): (r: seq<Booking>)
    ensures forall x :: x in r <==> x in bs && IsActive(x, now) && Linked(x, brs, roomId)
  {
    if bs == [] then []
    else
      var k := |bs| - 1;
      assert bs == bs[..k] + [bs[k]];
      ActiveBookings(bs[..k], brs, roomId, now) + (if IsActive(bs[k], now) then JoinRows(bs[k], brs, roomId) else [])
  }

  /** `GetActiveBookingsByRoomID`: the driver's error is passed through. */
  function GetActiveBookingsByRoomID(t: Tables, roomId: nat, now: int, fault: Option<string>): (r: Result<seq<Booking>, Error>)
    ensures fault.Some? ==> r == Failure(DbError(fault.value))
    ensures fault.None? ==> r.Success?
    ensures r.Success? ==> forall b :: b in r.value <==>
      b in t.bookings && b.status == CheckedIn && b.startDate <= now <= b.endDate && Linked(b, t.bookingRooms, roomId)
  {
    if fault.Some? then Failure(DbError(fault.value)) else Success(ActiveBookings(t.bookings, t.bookingRooms, roomId, now))
  }

  /**
   * A booking the active query returns holds its room: no range with
   * `start < now < end` is available for that room.
   */
  lemma ActiveBookingBlocks(t: Tables, roomId: nat, now: int, start: int, end: int, b: Booking)
    requires b in ActiveBookings(t.bookings, t.bookingRooms, roomId, now)
    requires start < now < end
    ensures IsAvailableRoom(t, roomId, start, end, false) == Some(false)
  {
    assert Linked(b, t.bookingRooms, roomId);
    var i :| 0 <= i < |t.bookingRooms| && Links(t.bookingRooms[i], b, roomId);
    var j :| 0 <= j < |t.bookings| && t.bookings[j] == b;
    assert Conflict(t.bookingRooms[i], t.bookings[j], roomId, start, end);
  }

  // ----- admin search -----

  /**
   * The WHERE clause of `SearchBookings`: an empty name or status means no
   * filter; a name must occur in the owner's name (bookings whose owner is
   * missing drop out of the join); a status must match exactly.
   */
  predicate SearchMatches(b: Booking, userNames: map<nat, string>, userName: string, bookingStatus: string)
  {
    && (userName == [] || (b.userId in userNames && IsSubstring(userName, userNames[b.userId])))
    && (bookingStatus == [] || StatusName(b.status) == bookingStatus)
  }

  /** The rows the search keeps, in table order. */
  function SearchFilter(bs: seq<Booking>, userNames: map<nat, string>, userName: string, bookingStatus: string): (r: seq<Booking>)
    ensures forall b :: b in r <==> b in bs && SearchMatches(b, userNames, userName, bookingStatus)
    ensures |r| <= |bs|
    ensures forall b :: multiset(r)[b] == if SearchMatches(b, userNames, userName, bookingStatus) then multiset(bs)[b] else 0
    ensures Subsequence(r, bs)
  {
    if bs == [] then []
    else
      var k := |bs| - 1;
      var prev := SearchFilter(bs[..k], userNames, userName, bookingStatus);
      assert bs == bs[..k] + [bs[k]];
      if SearchMatches(bs[k], userNames, userName, bookingStatus) then
        SubsequenceKeepLast(prev, bs[..k], bs[k]);
        prev + [bs[k]]
      else
        SubsequenceSkipLast(prev, bs[..k], bs[k]);
        prev
  }

  /** Without a name and a status the search keeps every booking. */
  lemma {:induction false} SearchWithoutFilterKeepsAll(bs: seq<Booking>, userNames: map<nat, string>)
    ensures SearchFilter(bs, userNames, "", "") == bs
  {
    if bs != [] {
      var k := |bs| - 1;
      SearchWithoutFilterKeepsAll(bs[..k], userNames);
      assert bs == bs[..k] + [bs[k]];
    }
  }

  /** `ORDER BY created_at DESC`. */
  predicate NewestFirst(bs: seq<Booking>)
  {
    forall i, j :: 0 <= i < j < |bs| ==> bs[i].createdAt >= bs[j].createdAt
  }

  /** Puts `b` before the first booking created no later than it. */
  function InsertNewestFirst(b: Booking, s: seq<Booking>): (r: seq<Booking>)
    requires NewestFirst(s)
    ensures NewestFirst(r)
    ensures multiset(r) == multiset(s) + multiset{b}
    ensures r[0] == b || (s != [] && r[0] == s[0])
  {
    if s == [] || s[0].createdAt <= b.createdAt then [b] + s
    else
      var rest := InsertNewestFirst(b, s[1..]);
      assert s == [s[0]] + s[1..];
      assert s[0].createdAt >= rest[0].createdAt;
      [s[0]] + rest
  }

  /**
   * `SearchBookings`: the bookings that match, newest first.  The rows of
   * equal creation time come in no particular order, so the result is stated
   * as an ordering of the filtered rows.
   */
  method SearchBookings(db: Store, userName: string, bookingStatus: string, fault: Option<string>)
    returns (r: Result<seq<Booking>, Error>)
    ensures fault.Some? ==> r == Failure(DbError(fault.value))
    ensures fault.None? ==>
      (r.Success? && NewestFirst(r.value)
       && multiset(r.value) == multiset(SearchFilter(db.bookings, db.userNames, userName, bookingStatus)))
  {
    if fault.Some? {
      return Failure(DbError(fault.value));
    }
    var found: seq<Booking> := [];
    var i := 0;
    while i < |db.bookings|
      invariant 0 <= i <= |db.bookings|
      invariant NewestFirst(found)
      invariant multiset(found) == multiset(SearchFilter(db.bookings[..i], db.userNames, userName, bookingStatus))
    {
      assert db.bookings[..i + 1][..i] == db.bookings[..i];
      var b := db.bookings[i];
      if SearchMatches(b, db.userNames, userName, bookingStatus) {
        found := InsertNewestFirst(b, found);
      }
      i := i + 1;
    }
    assert db.bookings[..i] == db.bookings;
    return Success(found);
  }

  // ----- deleting a room's booking rows -----

  /** The booking_rooms rows that do not belong to the room, in table order. */
  function WithoutRoom(brs: seq<BookingRoom>, roomId: nat): (r: seq<BookingRoom>)
    ensures forall br :: br in r <==> br in brs && br.roomId != roomId
    ensures forall br: BookingRoom :: br.roomId != roomId ==> multiset(r)[br] == multiset(brs)[br]
    ensures Subsequence(r, brs)
  {
    if brs == [] then []
    else
      var k := |brs| - 1;
      var prev := WithoutRoom(brs[..k], roomId);
      assert brs == brs[..k] + [brs[k]];
      if brs[k].roomId != roomId then
        SubsequenceKeepLast(prev, brs[..k], brs[k]);
        prev + [brs[k]]
      else
        SubsequenceSkipLast(prev, brs[..k], brs[k]);
        prev
  }

  /**
   * `DeleteBookingRoomByRoomIDTx`: removes every booking_rooms row of the
   * room and keeps all the others; on a driver error nothing changes.
   */
  method DeleteBookingRoomByRoomIDTx(db: Store, roomId: nat, fault: Option<string>) returns (err: Option<Error>)
    modifies db
    ensures fault.Some? ==> err == Some(DbError(fault.value)) && db.Snapshot() == old(db.Snapshot())
    ensures fault.None? ==>
      (err.None? && db.Snapshot() == old(db.Snapshot()).(bookingRooms := WithoutRoom(old(db.bookingRooms), roomId)))
  {
    if fault.Some? {
      return Some(DbError(fault.value));
    }
    var kept: seq<BookingRoom> := [];
    var i := 0;
    while i < |db.bookingRooms|
      invariant 0 <= i <= |db.bookingRooms|
      invariant kept == WithoutRoom(db.bookingRooms[..i], roomId)
    {
      assert db.bookingRooms[..i + 1][..i] == db.bookingRooms[..i];
      if db.bookingRooms[i].roomId != roomId {
        kept := kept + [db.bookingRooms[i]];
      }
      i := i + 1;
    }
    assert db.bookingRooms[..i] == db.bookingRooms;
    db.bookingRooms := kept;
    return None;
  }

  /** Once its booking_rooms rows are gone, a room is available for every range. */
  lemma DeletedRoomAvailable(t: Tables, roomId: nat, start: int, end: int)
    ensures IsAvailableRoom(t.(bookingRooms := WithoutRoom(t.bookingRooms, roomId)), roomId, start, end, false) == Some(true)
  {
    var brs := WithoutRoom(t.bookingRooms, roomId);
    forall i | 0 <= i < |brs| ensures brs[i].roomId != roomId {
      assert brs[i] in brs;
    }
  }
}
