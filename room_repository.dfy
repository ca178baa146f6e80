/**
 * The room repository (internal/repository/room_repository.go): the search
 * for free rooms as a filter over the rooms table, and the field-restricted
 * room update as a method on the store.
 */
module RoomRepository {
  import opened Wrappers
  import opened Errors
  import opened Models
  import opened Database
  import opened BookingRepository

  /** The search form; an absent optional field does not filter. */
  datatype SearchRoomRequest = SearchRoomRequest(
    startDate: int,
    endDate: int,
    bedNum: Option<int>,
    hasAircon: Option<bool>,
    viewType: Option<string>,
    minPrice: Option<real>,
    maxPrice: Option<real>)

  /**
   * The WHERE clause of `FindAvailableRoom`: the room is open for booking,
   * its id is not among the rooms the range conflicts with, each supplied
   * attribute matches exactly, and the price lies within [min, max] when
   * both bounds are supplied.
   */
  predicate RoomMatches(t: Tables, room: Room, req: SearchRoomRequest)
  {
    && room.isAvailable
    && NoConflict(t, room.id, req.startDate, req.endDate)
    && (req.bedNum.Some? ==> room.bedNum == req.bedNum.value)
    && (req.hasAircon.Some? ==> room.hasAircon == req.hasAircon.value)
    && (req.viewType.Some? ==> room.viewType == req.viewType.value)
    && (req.minPrice.Some? && req.maxPrice.Some? ==>
          req.minPrice.value <= room.pricePerNight <= req.maxPrice.value)
  }

  /** The rooms of `rooms` that match, in table order. */
  function MatchingRooms(t: Tables, rooms: seq<Room>, req: SearchRoomRequest): (r: seq<Room>)
    ensures forall room :: room in r <==> room in rooms && RoomMatches(t, room, req)
    ensures |r| <= |rooms|
  {
    if rooms == [] then []
    else
      var k := |rooms| - 1;
      assert rooms == rooms[..k] + [rooms[k]];
      MatchingRooms(t, rooms[..k], req) + (if RoomMatches(t, rooms[k], req) then [rooms[k]] else [])
  }

  /** `FindAvailableRoom`: the matching rooms, or the driver's error. */
  function FindAvailableRoom(t: Tables, req: SearchRoomRequest, fault: Option<string>): (r: Result<seq<Room>, Error>)
    ensures fault.Some? ==> r == Failure(DbError(fault.value))
    ensures fault.None? ==> r.Success?
    ensures r.Success? ==> forall room :: room in r.value ==>
      (room in t.rooms && room.isAvailable && IsAvailableRoom(t, room.id, req.startDate, req.endDate, false) == Some(true))
  {
    if fault.Some? then Failure(DbError(fault.value)) else Success(MatchingRooms(t, t.rooms, req))
  }

  /**
   * The search and the booking-time availability check agree: a room is
   * listed exactly when it is open, passes the supplied filters and
   * `IsAvailableRoom` says it is free for the range.
   */
  lemma SearchAgreesWithAvailability(t: Tables, room: Room, req: SearchRoomRequest)
    requires room in t.rooms
    requires req.bedNum.None? && req.hasAircon.None? && req.viewType.None? && req.minPrice.None?
    ensures room in FindAvailableRoom(t, req, None).value <==>
      room.isAvailable && IsAvailableRoom(t, room.id, req.startDate, req.endDate, false) == Some(true)
  {
  }

  /** With only one price bound supplied there is no price filter. */
  lemma {:induction false} OneBoundIgnored(t: Tables, rooms: seq<Room>, req: SearchRoomRequest)
    requires req.minPrice.None? || req.maxPrice.None?
    ensures MatchingRooms(t, rooms, req) == MatchingRooms(t, rooms, req.(minPrice := None, maxPrice := None))
  {
    if rooms != [] {
      OneBoundIgnored(t, rooms[..|rooms| - 1], req);
    }
  }

  /**
   * The row an update leaves: the eight selected fields come from the edit,
   * the id and the creation time stay.
   */
  function EditRoom(row: Room, edit: Room): (r: Room)
    ensures r.id == row.id && r.createdAt == row.createdAt
    ensures r.(id := edit.id, createdAt := edit.createdAt) == edit
  {
    row.(name := edit.name, roomType := edit.roomType, pricePerNight := edit.pricePerNight,
         bedNum := edit.bedNum, hasAircon := edit.hasAircon, viewType := edit.viewType,
         description := edit.description, isAvailable := edit.isAvailable)
  }

  /** `UPDATE rooms SET <eight fields> WHERE id = edit.id`. */
  function UpdateRows(rooms: seq<Room>, edit: Room): (r: seq<Room>)
    ensures |r| == |rooms|
    ensures forall i :: 0 <= i < |rooms| && rooms[i].id != edit.id ==> r[i] == rooms[i]
    ensures forall i :: 0 <= i < |rooms| && rooms[i].id == edit.id ==> r[i] == EditRoom(rooms[i], edit)
  {
    if rooms == [] then []
    else
      var k := |rooms| - 1;
      UpdateRows(rooms[..k], edit) + [if rooms[k].id == edit.id then EditRoom(rooms[k], edit) else rooms[k]]
  }

  /**
   * `UpdateRoomTx`: writes the eight selected fields of the room with the
   * edit's id and touches no other field and no other table; a room that
   * does not exist makes it a no-op.
   */
  method UpdateRoomTx(db: Store, edit: Room, fault: Option<string>) returns (err: Option<Error>)
    modifies db
    ensures fault.Some? ==> err == Some(DbError(fault.value)) && db.Snapshot() == old(db.Snapshot())
    ensures fault.None? ==>
      (err.None? && db.Snapshot() == old(db.Snapshot()).(rooms := UpdateRows(old(db.rooms), edit)))
  {
    if fault.Some? {
      return Some(DbError(fault.value));
    }
    db.rooms := UpdateRows(db.rooms, edit);
    return None;
  }

  /** A room switched to not available drops out of every search. */
  lemma ClosedRoomNotListed(t: Tables, edit: Room, req: SearchRoomRequest, room: Room)
    requires !edit.isAvailable && room.id == edit.id
    ensures room !in FindAvailableRoom(t.(rooms := UpdateRows(t.rooms, edit)), req, None).value
  {
    var t' := t.(rooms := UpdateRows(t.rooms, edit));
    if room in t'.rooms {
      var i :| 0 <= i < |t'.rooms| && t'.rooms[i] == room;
      assert !t'.rooms[i].isAvailable;
    }
  }
}
