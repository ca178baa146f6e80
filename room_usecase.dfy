/**
 * The customer room use case (internal/usecase/room_usecase.go): the room
 * search, which turns every room the repository finds into a response
 * carrying the room's details and the URLs of its images.
 */
module RoomUseCase {
  import opened Wrappers
  import opened Errors
  import opened Models
  import opened Database
  import opened RoomRepository
  import opened Sequences

  /** `dto.SearchRoomResponse`. */
  datatype SearchRoomResponse = SearchRoomResponse(
    id: nat,
    name: string,
    roomType: string,
    pricePerNight: real,
    bedNum: int,
    hasAircon: bool,
    viewType: string,
    description: string,
    imageUrls: seq<string>)

  /** `Preload("Images")`: the room_images rows of a room, in table order. */
  function RoomImages(images: seq<RoomImage>, roomId: nat): (r: seq<RoomImage>)
    ensures |r| <= |images|
    ensures forall img :: img in r <==> img in images && img.roomId == roomId
  {
    if images == [] then []
    else (if images[0].roomId == roomId then [images[0]] else []) + RoomImages(images[1..], roomId)
  }

  /** Each image of the room appears as often as in the table, no other image appears, and the order is the table's. */
  lemma {:induction false} RoomImagesExact(images: seq<RoomImage>, roomId: nat)
    ensures forall img :: multiset(RoomImages(images, roomId))[img] == if img.roomId == roomId then multiset(images)[img] else 0
    ensures Subsequence(RoomImages(images, roomId), images)
  {
    if images != [] {
      var rest := RoomImages(images[1..], roomId);
      RoomImagesExact(images[1..], roomId);
      assert multiset(images) == multiset([images[0]]) + multiset(images[1..]) by {
        assert images == [images[0]] + images[1..];
      }
      if images[0].roomId == roomId {
        var r := [images[0]] + rest;
        assert RoomImages(images, roomId) == r;
        assert r[0] == images[0] && r[1..] == rest;
      } else {
        assert RoomImages(images, roomId) == rest;
        assert rest != [] ==> rest[0] in rest && rest[0] != images[0];
      }
    }
  }

  /**
   * `res` presents `room`: the room's own fields unchanged, and one URL per
   * image of the room, in order.
   */
  predicate Presents(images: seq<RoomImage>, res: SearchRoomResponse, room: Room)
  {
    var own := RoomImages(images, room.id);
    && res.id == room.id && res.name == room.name && res.roomType == room.roomType
    && res.pricePerNight == room.pricePerNight && res.bedNum == room.bedNum
    && res.hasAircon == room.hasAircon && res.viewType == room.viewType
    && res.description == room.description
    && |res.imageUrls| == |own|
    && forall j :: 0 <= j < |own| ==> res.imageUrls[j] == own[j].imageUrl
  }

  /**
   * `SearchRoom`: one response per room the repository finds, in its
   * order.  When the repository fails its error is returned together with
   * the empty list.
   */
  method SearchRoom(db: Store, req: SearchRoomRequest, fault: Option<string>)
    returns (responses: seq<SearchRoomResponse>, err: Option<Error>)
    ensures fault.Some? ==> responses == [] && err == Some(DbError(fault.value))
    ensures fault.None? ==>
      var rooms := FindAvailableRoom(db.Snapshot(), req, None).value;
      && err.None?
      && |responses| == |rooms|
      && forall i :: 0 <= i < |rooms| ==> Presents(db.roomImages, responses[i], rooms[i])
  {
    responses := [];
    var found := FindAvailableRoom(db.Snapshot(), req, fault);
    if found.Failure? {
      return responses, Some(found.error);
    }
    var rooms := found.value;
    var i := 0;
    while i < |rooms|
      invariant 0 <= i <= |rooms| && |responses| == i
      invariant forall k :: 0 <= k < i ==> Presents(db.roomImages, responses[k], rooms[k])
    {
      var room := rooms[i];
      var images := RoomImages(db.roomImages, room.id);
      var imageUrls: seq<string> := [];
      var j := 0;
      while j < |images|
        invariant 0 <= j <= |images| && |imageUrls| == j
        invariant forall k :: 0 <= k < j ==> imageUrls[k] == images[k].imageUrl
      {
        imageUrls := imageUrls + [images[j].imageUrl];
        j := j + 1;
      }
      var res := SearchRoomResponse(room.id, room.name, room.roomType, room.pricePerNight, room.bedNum,
                                    room.hasAircon, room.viewType, room.description, imageUrls);
      responses := responses + [res];
      i := i + 1;
    }
    return responses, None;
  }
}
