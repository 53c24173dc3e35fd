/** The room record (models/Room.js) and the join `include: Room` that the
    booking queries use to reach a booking's room. */
module RoomModel {
  import opened Common

  /** A stored room. The tariff column is FLOAT in the schema; every tariff
      the application writes is a whole number, so it is an `int` here. */
  datatype Room = Room(id: nat, roomNumber: string, roomType: string, tariff: int)

  function RoomKey(r: Room): nat { r.id }

  /** The room a booking's `roomId` joins to, if that room still exists. */
  function RoomById(rooms: seq<Room>, id: nat): (r: Option<Room>)
    ensures r.Some? ==> r.value in rooms && r.value.id == id
    ensures r.None? <==> forall i :: 0 <= i < |rooms| ==> rooms[i].id != id
  {
    match IndexOf(rooms, RoomKey, id)
    case Some(i) => Some(rooms[i])
    case None => None
  }
}
