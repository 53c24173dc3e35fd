/** The room management page of components/Rooms.js: the listing filtered by
    a search text and a type, and the new-room form that resets after a
    successful add. */
module RoomsPage {
  import opened Common
  import opened RoomModel

  /** `sub` occurs in `s` starting at position `i`. */
  predicate OccursAt(s: string, sub: string, i: int)
  {
    0 <= i <= |s| - |sub| && s[i..i + |sub|] == sub
  }

  /** `s.includes(sub)`: `sub` occurs in `s` at some position. */
  predicate Contains(s: string, sub: string)
  {
    exists i :: 0 <= i <= |s| && OccursAt(s, sub, i)
  }

  /** The empty search text occurs in every room number. */
  lemma ContainsEmpty(s: string)
    ensures Contains(s, "")
  {
    assert OccursAt(s, "", 0);
  }

  /** A text occurs in itself and in every number that starts with it. */
  lemma ContainsPrefix(s: string, sub: string)
    requires |sub| <= |s| && s[..|sub|] == sub
    ensures Contains(s, sub)
  {
    assert OccursAt(s, sub, 0);
  }

  /** The test of the list's `filter`: the number contains the search text,
      and the type matches when a type filter is chosen. */
  function Shown(search: string, filterType: string): Room -> bool
  {
    (r: Room) => Contains(r.roomNumber, search) && (filterType == "" || r.roomType == filterType)
  }

  /** The rooms the page lists. */
  function RoomListing(rooms: seq<Room>, search: string, filterType: string): (r: seq<Room>)
    ensures forall i :: 0 <= i < |r| ==>
      r[i] in rooms && Contains(r[i].roomNumber, search) && (filterType == "" || r[i].roomType == filterType)
  {
    FilterWithin(rooms, Shown(search, filterType));
    Filter(rooms, Shown(search, filterType))
  }

  /** A room is listed exactly when it is loaded, its number contains the
      search text and the type filter is unset or names its type; the list
      keeps the loaded order. */
  lemma ListingMembership(rooms: seq<Room>, search: string, filterType: string, room: Room)
    ensures room in RoomListing(rooms, search, filterType) <==>
      room in rooms && Contains(room.roomNumber, search) && (filterType == "" || room.roomType == filterType)
    ensures SubsequenceOf(RoomListing(rooms, search, filterType), rooms)
  {
    FilterMembership(rooms, Shown(search, filterType), room);
    FilterIsSubsequence(rooms, Shown(search, filterType));
  }

  /** With no search text and no type filter, every room is listed. */
  lemma EverythingListed(rooms: seq<Room>)
    ensures RoomListing(rooms, "", "") == rooms
  {
    forall i | 0 <= i < |rooms|
      ensures Shown("", "")(rooms[i])
    {
      ContainsEmpty(rooms[i].roomNumber);
    }
    FilterAll(rooms, Shown("", ""));
  }

  /** Searching "10" lists room 101 and hides room 205. */
  lemma SearchExample()
    ensures var rooms := [Room(1, "101", "Standard", 2000), Room(2, "205", "Deluxe", 3500)];
      RoomListing(rooms, "10", "") == [rooms[0]]
  {
    var rooms := [Room(1, "101", "Standard", 2000), Room(2, "205", "Deluxe", 3500)];
    ContainsPrefix("101", "10");
    assert !Contains("205", "10") by {
      assert "205"[0..2] == "20";
      assert "205"[1..3] == "05";
    }
    assert rooms[1..][1..] == [];
  }

  /** The new-room form: every field starts as an empty text. */
  datatype RoomForm = RoomForm(roomNumber: string, roomType: string, tariff: string)

  const EmptyForm := RoomForm("", "", "")

  /** A request leaving the page. */
  datatype Request = FetchRooms | PostRoom(form: RoomForm)

  class Page {
    var rooms: seq<Room>
    var newRoom: RoomForm
    var search: string
    var filterType: string
    /** Every request sent so far, oldest first. */
    var outbox: seq<Request>
    /** The `alert` shown when an add fails. */
    var alerted: bool

    constructor ()
      ensures rooms == [] && newRoom == EmptyForm && search == "" && filterType == "" && outbox == [] && !alerted
    {
      rooms, newRoom, search, filterType, outbox, alerted := [], EmptyForm, "", "", [], false;
    }

    /** The list the page renders. */
    method Listing() returns (shown: seq<Room>)
      ensures shown == RoomListing(rooms, search, filterType)
    {
      shown := RoomListing(rooms, search, filterType);
    }

    /** `addRoom`: the form is posted as it is; a successful add resets the
        form and reloads the list, a failed one keeps the form and alerts. */
    method AddRoom(succeeded: bool)
      modifies this
      ensures rooms == old(rooms) && search == old(search) && filterType == old(filterType)
      ensures succeeded ==>
        newRoom == EmptyForm && outbox == old(outbox) + [PostRoom(old(newRoom)), FetchRooms] && alerted == old(alerted)
      ensures !succeeded ==>
        newRoom == old(newRoom) && outbox == old(outbox) + [PostRoom(old(newRoom))] && alerted
    {
      outbox := outbox + [PostRoom(newRoom)];
      if succeeded {
        newRoom := EmptyForm;
        outbox := outbox + [FetchRooms];
      } else {
        alerted := true;
      }
    }
  }
}
