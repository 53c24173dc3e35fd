/** The room handlers of routes/roomRoutes.js over an in-memory room table:
    the public listing, and adding, updating and deleting for administrators. */
module RoomRoutes {
  import opened Common
  import opened RoomModel
  import opened AuthMiddleware

  /** The roles admitted to every changing room handler. */
  const AdminRoles: seq<string> := ["admin"]

  const NotFoundMsg := "Room not found"
  /** Stand-in for the ORM's notNull-violation text, answered with 500. */
  const NotNullMsg := "notNull Violation"

  predicate TableInvariant(rows: seq<Room>, nextId: nat)
  {
    KeysIncreasing(rows, RoomKey, nextId)
  }

  /** A string attribute of the body is truthy when present and non-empty. */
  predicate TruthyString(v: Option<string>) { v.Some? && v.value != "" }

  /** A numeric attribute of the body is truthy when present and non-zero. */
  predicate TruthyNumber(v: Option<int>) { v.Some? && v.value != 0 }

  /** `room.f = f || room.f` for each of the three attributes. */
  function Merge(room: Room, roomNumber: Option<string>, roomType: Option<string>, tariff: Option<int>): (r: Room)
    ensures r.id == room.id
    ensures r.roomNumber == (if TruthyString(roomNumber) then roomNumber.value else room.roomNumber)
    ensures r.roomType == (if TruthyString(roomType) then roomType.value else room.roomType)
    ensures r.tariff == (if TruthyNumber(tariff) then tariff.value else room.tariff)
  {
    Room(room.id,
         if TruthyString(roomNumber) then roomNumber.value else room.roomNumber,
         if TruthyString(roomType) then roomType.value else room.roomType,
         if TruthyNumber(tariff) then tariff.value else room.tariff)
  }

  /** An empty room number, an empty type and a numeric tariff of 0 change
      nothing: they cannot be written through the update. */
  lemma FalsyValuesKeepRoom(room: Room, roomType: Option<string>)
    requires !TruthyString(roomType)
    ensures Merge(room, Some(""), roomType, Some(0)) == room
    ensures Merge(room, None, None, None) == room
  {
  }

  /** Applying the same update twice is applying it once. */
  lemma MergeIdempotent(room: Room, roomNumber: Option<string>, roomType: Option<string>, tariff: Option<int>)
    ensures Merge(Merge(room, roomNumber, roomType, tariff), roomNumber, roomType, tariff) ==
            Merge(room, roomNumber, roomType, tariff)
  {
  }

  /** `POST /`: inserts exactly one room with the given attributes. */
  function AddStep(rows: seq<Room>, nextId: nat, auth: Outcome,
                   roomNumber: Option<string>, roomType: Option<string>, tariff: Option<int>): (s: Step<Room, Room>)
    requires TableInvariant(rows, nextId)
    ensures TableInvariant(s.rows, s.nextId)
    ensures !auth.Pass? ==> s == Step(Deny(auth), rows, nextId)
    ensures s.reply.Ok? <==> auth.Pass? && roomNumber.Some? && roomType.Some? && tariff.Some?
    ensures s.reply.Ok? ==>
      s.reply.value == Room(nextId, roomNumber.value, roomType.value, tariff.value) &&
      s.rows == rows + [s.reply.value] && s.nextId == nextId + 1
    ensures s.reply.Err? ==> s.rows == rows && s.nextId == nextId
  {
    if !auth.Pass? then Step(Deny(auth), rows, nextId)
    else if roomNumber.None? || roomType.None? || tariff.None? then Step(Err(500, NotNullMsg), rows, nextId)
    else
      var room := Room(nextId, roomNumber.value, roomType.value, tariff.value);
      KeysIncreasingAppend(rows, RoomKey, nextId, room);
      Step(Ok(room), rows + [room], nextId + 1)
  }

  /** `PUT /:id`: an unknown id is 404 and changes nothing; otherwise only
      the addressed room changes, each attribute by the truthy-or-keep rule. */
  function UpdateStep(rows: seq<Room>, nextId: nat, auth: Outcome, id: int,
                      roomNumber: Option<string>, roomType: Option<string>, tariff: Option<int>): (s: Step<Room, Room>)
    requires TableInvariant(rows, nextId)
    ensures TableInvariant(s.rows, s.nextId) && s.nextId == nextId && |s.rows| == |rows|
    ensures !auth.Pass? ==> s == Step(Deny(auth), rows, nextId)
    ensures auth.Pass? && IndexOf(rows, RoomKey, id).None? ==> s == Step(Err(404, NotFoundMsg), rows, nextId)
    ensures s.reply.Ok? <==> auth.Pass? && IndexOf(rows, RoomKey, id).Some?
    ensures s.reply.Ok? ==>
      var i := IndexOf(rows, RoomKey, id).value;
      s.reply.value == s.rows[i] && s.rows[i] == Merge(rows[i], roomNumber, roomType, tariff) &&
      forall j :: 0 <= j < |rows| && j != i ==> s.rows[j] == rows[j]
    ensures s.reply.Err? ==> s.rows == rows
  {
    if !auth.Pass? then Step(Deny(auth), rows, nextId)
    else match IndexOf(rows, RoomKey, id)
      case None => Step(Err(404, NotFoundMsg), rows, nextId)
      case Some(i) =>
        var rows' := rows[i := Merge(rows[i], roomNumber, roomType, tariff)];
        KeysIncreasingUpdate(rows, RoomKey, nextId, i, Merge(rows[i], roomNumber, roomType, tariff));
        Step(Ok(rows'[i]), rows', nextId)
  }

  /** `DELETE /:id`: an unknown id is 404 and changes nothing; otherwise
      exactly the addressed room leaves the table and the others keep their
      order. */
  function DeleteStep(rows: seq<Room>, nextId: nat, auth: Outcome, id: int): (s: Step<Room, ()>)
    requires TableInvariant(rows, nextId)
    ensures TableInvariant(s.rows, s.nextId) && s.nextId == nextId
    ensures !auth.Pass? ==> s == Step(Deny(auth), rows, nextId)
    ensures auth.Pass? && IndexOf(rows, RoomKey, id).None? ==> s == Step(Err(404, NotFoundMsg), rows, nextId)
    ensures s.reply.Ok? <==> auth.Pass? && IndexOf(rows, RoomKey, id).Some?
    ensures s.reply.Ok? ==>
      var i := IndexOf(rows, RoomKey, id).value;
      s.rows == rows[..i] + rows[i + 1..] &&
      multiset(s.rows) == multiset(rows) - multiset{rows[i]} &&
      forall j :: 0 <= j < |s.rows| ==> s.rows[j].id != id
    ensures s.reply.Err? ==> s.rows == rows
  {
    if !auth.Pass? then Step(Deny(auth), rows, nextId)
    else match IndexOf(rows, RoomKey, id)
      case None => Step(Err(404, NotFoundMsg), rows, nextId)
      case Some(i) =>
        var rows' := rows[..i] + rows[i + 1..];
        DeletePreserves(rows, nextId, i);
        Step(Ok(()), rows', nextId)
  }

  lemma DeletePreserves(rows: seq<Room>, nextId: nat, i: nat)
    requires TableInvariant(rows, nextId) && i < |rows|
    ensures var rows' := rows[..i] + rows[i + 1..];
      TableInvariant(rows', nextId) &&
      multiset(rows') == multiset(rows) - multiset{rows[i]} &&
      forall j :: 0 <= j < |rows'| ==> rows'[j].id != rows[i].id
  {
    KeysIncreasingRemove(rows, RoomKey, nextId, i);
    MultisetRemove(rows, i);
  }

  /** Changing rooms is reserved to administrators: a successful add carries
      a verified token whose role is admin. */
  lemma AddRequiresAdmin(rows: seq<Room>, nextId: nat, header: Option<string>, verify: Verifier,
                         roomNumber: Option<string>, roomType: Option<string>, tariff: Option<int>)
    requires TableInvariant(rows, nextId)
    requires AddStep(rows, nextId, Gate(header, AdminRoles, verify), roomNumber, roomType, tariff).reply.Ok?
    ensures Gate(header, AdminRoles, verify).Pass? && Gate(header, AdminRoles, verify).user.role == "admin"
  {
  }

  class RoomTable {
    var rows: seq<Room>
    var nextId: nat

    ghost predicate Valid()
      reads this
    {
      TableInvariant(rows, nextId)
    }

    constructor ()
      ensures Valid() && rows == [] && nextId == 1
    {
      rows := [];
      nextId := 1;
    }

    /** `GET /`: every room of the table, without authentication. */
    method List() returns (rooms: seq<Room>)
      requires Valid()
      ensures rooms == rows
    {
      rooms := rows;
    }

    method Add(header: Option<string>, verify: Verifier,
               roomNumber: Option<string>, roomType: Option<string>, tariff: Option<int>) returns (reply: Reply<Room>)
      requires Valid()
      modifies this
      ensures Valid()
      ensures var s := AddStep(old(rows), old(nextId), Gate(header, AdminRoles, verify), roomNumber, roomType, tariff);
        reply == s.reply && rows == s.rows && nextId == s.nextId
    {
      var s := AddStep(rows, nextId, Gate(header, AdminRoles, verify), roomNumber, roomType, tariff);
      reply, rows, nextId := s.reply, s.rows, s.nextId;
    }

    method Update(header: Option<string>, verify: Verifier, id: int,
                  roomNumber: Option<string>, roomType: Option<string>, tariff: Option<int>) returns (reply: Reply<Room>)
      requires Valid()
      modifies this
      ensures Valid()
      ensures var s := UpdateStep(old(rows), old(nextId), Gate(header, AdminRoles, verify), id, roomNumber, roomType, tariff);
        reply == s.reply && rows == s.rows && nextId == s.nextId
    {
      var s := UpdateStep(rows, nextId, Gate(header, AdminRoles, verify), id, roomNumber, roomType, tariff);
      reply, rows, nextId := s.reply, s.rows, s.nextId;
    }

    method Delete(header: Option<string>, verify: Verifier, id: int) returns (reply: Reply<()>)
      requires Valid()
      modifies this
      ensures Valid()
      ensures var s := DeleteStep(old(rows), old(nextId), Gate(header, AdminRoles, verify), id);
        reply == s.reply && rows == s.rows && nextId == s.nextId
    {
      var s := DeleteStep(rows, nextId, Gate(header, AdminRoles, verify), id);
      reply, rows, nextId := s.reply, s.rows, s.nextId;
    }

    /** `Room.bulkCreate`: appends the given rooms under consecutive keys. */
    method BulkCreate(specs: seq<RoomSpec>)
      requires Valid()
      modifies this
      ensures Valid()
      ensures |rows| == |old(rows)| + |specs| && rows[..|old(rows)|] == old(rows)
      ensures forall k :: 0 <= k < |specs| ==>
        rows[|old(rows)| + k] == Room(old(nextId) + k, specs[k].roomNumber, specs[k].roomType, specs[k].tariff)
      ensures nextId == old(nextId) + |specs|
    {
      for k := 0 to |specs|
        invariant Valid()
        invariant |rows| == |old(rows)| + k && rows[..|old(rows)|] == old(rows)
        invariant nextId == old(nextId) + k
        invariant forall m :: 0 <= m < k ==>
          rows[|old(rows)| + m] == Room(old(nextId) + m, specs[m].roomNumber, specs[m].roomType, specs[m].tariff)
      {
        var room := Room(nextId, specs[k].roomNumber, specs[k].roomType, specs[k].tariff);
        KeysIncreasingAppend(rows, RoomKey, nextId, room);
        rows := rows + [room];
        nextId := nextId + 1;
      }
    }
  }

  /** The attributes of a room before it has a key. */
  datatype RoomSpec = RoomSpec(roomNumber: string, roomType: string, tariff: int)
}
