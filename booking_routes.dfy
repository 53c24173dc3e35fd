/** The booking handlers of routes/bookingRoutes.js over an in-memory booking
    table: the availability probe `POST /check`, creation `POST /`, the
    listing `GET /` and the status update `PUT /:id/status`. */
module BookingRoutes {
  import opened Common
  import opened BookingModel
  import opened RoomModel
  import opened AuthMiddleware

  /** The roles `authMiddleware` admits to creation and to status updates. */
  const WriteRoles: seq<string> := ["admin", "staff"]
  /** The roles admitted to the listing of all bookings. */
  const ListRoles: seq<string> := ["admin"]

  const MissingFieldsMsg := "roomId, check_in, and check_out are required"
  const InvalidDateMsg := "Invalid check-in or check-out date"
  const OverlapMsg := "Room already booked for these dates"
  const NotFoundMsg := "Booking not found"
  const InvalidStatusMsg := "Invalid status"
  /** Stand-in for the ORM's notNull-violation text, which the handler
      forwards as 500. */
  const NotNullMsg := "notNull Violation"

  function BookingKey(b: Booking): nat { b.id }

  // ---------------------------------------------------------------------
  // The overlap test
  // ---------------------------------------------------------------------

  /** The `[Op.or]` of both availability queries: the booking's check-in lies
      in [checkIn, checkOut], or its check-out does (BETWEEN is inclusive),
      or it starts on or before checkIn and ends on or after checkOut. */
  predicate ThreeClauseOverlap(b: Booking, checkIn: Day, checkOut: Day)
  {
    (checkIn <= b.checkIn <= checkOut) ||
    (checkIn <= b.checkOut <= checkOut) ||
    (b.checkIn <= checkIn && b.checkOut >= checkOut)
  }

  /** The closed intervals [aIn, aOut] and [bIn, bOut] share a day. */
  predicate ClosedIntersect(aIn: Day, aOut: Day, bIn: Day, bOut: Day)
  {
    aIn <= bOut && bIn <= aOut
  }

  /** Whenever the closed intervals meet, the three-clause test fires,
      whatever order the dates of either interval are in. */
  lemma IntersectionImpliesThreeClause(b: Booking, checkIn: Day, checkOut: Day)
    requires ClosedIntersect(b.checkIn, b.checkOut, checkIn, checkOut)
    ensures ThreeClauseOverlap(b, checkIn, checkOut)
  {
  }

  /** For well-formed intervals the three clauses are exactly closed-interval
      intersection. */
  lemma ThreeClauseIsClosedIntersection(b: Booking, checkIn: Day, checkOut: Day)
    requires b.checkIn <= b.checkOut && checkIn <= checkOut
    ensures ThreeClauseOverlap(b, checkIn, checkOut) <==>
            ClosedIntersect(b.checkIn, b.checkOut, checkIn, checkOut)
  {
  }

  /** Without well-formedness the equivalence fails: a stored booking whose
      dates are reversed blocks a stay it does not intersect. */
  lemma ReversedBookingBlocks()
    ensures var b := Booking(1, "guest", "guest@example.com", 1, 12, 5, Booked);
      ThreeClauseOverlap(b, 10, 14) && !ClosedIntersect(b.checkIn, b.checkOut, 10, 14)
  {
  }

  /** Inclusive bounds: a stay that ends on the requested check-in day
      blocks the request, so same-day turnover is refused. */
  lemma BackToBackBlocks(b: Booking, checkOut: Day)
    requires b.checkIn <= b.checkOut <= checkOut
    ensures ThreeClauseOverlap(b, b.checkOut, checkOut)
  {
  }

  /** The statuses `/check` counts as occupying a room. */
  predicate Occupying(s: Status) { s == Booked || s == CheckedIn }

  /** The `where` of the `/check` query. */
  predicate ProbeMatch(b: Booking, roomId: int, checkIn: Day, checkOut: Day)
  {
    b.roomId == roomId && Occupying(b.status) && ThreeClauseOverlap(b, checkIn, checkOut)
  }

  /** The `where` of the creation query: the same clauses, status ignored. */
  predicate CreateMatch(b: Booking, roomId: int, checkIn: Day, checkOut: Day)
  {
    b.roomId == roomId && ThreeClauseOverlap(b, checkIn, checkOut)
  }

  // ---------------------------------------------------------------------
  // POST /check
  // ---------------------------------------------------------------------

  /** A date in a request body: falsy (missing or empty), present but not a
      date (`new Date(...)` is NaN), or a day. */
  datatype DateInput = Absent | Unparseable | Date(day: Day)

  datatype CheckRequest = CheckRequest(roomId: Option<int>, checkIn: DateInput, checkOut: DateInput)

  /** HTTP status and the JSON body `{ available, message? }`. */
  datatype ProbeReply = ProbeReply(code: nat, available: bool, message: Option<string>)

  /** `!roomId || !check_in || !check_out`; a room id of 0 is falsy. */
  predicate MissingField(req: CheckRequest)
  {
    req.roomId.None? || req.roomId.value == 0 || req.checkIn.Absent? || req.checkOut.Absent?
  }

  /** The answer of `POST /check`. Both validations come before the lookup;
      then exactly the occupying, overlapping bookings of the room make it
      unavailable. */
  function Probe(rows: seq<Booking>, req: CheckRequest): (r: ProbeReply)
    ensures MissingField(req) ==> r == ProbeReply(400, false, Some(MissingFieldsMsg))
    ensures !MissingField(req) && (req.checkIn.Unparseable? || req.checkOut.Unparseable?) ==>
      r == ProbeReply(400, false, Some(InvalidDateMsg))
    ensures r.code == 400 <==>
      MissingField(req) || req.checkIn.Unparseable? || req.checkOut.Unparseable?
    ensures r.code != 400 ==>
      r.code == 200 &&
      (r.available <==> forall i :: 0 <= i < |rows| ==>
        !ProbeMatch(rows[i], req.roomId.value, req.checkIn.day, req.checkOut.day))
    ensures r.available ==> r.message.None?
  {
    if MissingField(req) then ProbeReply(400, false, Some(MissingFieldsMsg))
    else if req.checkIn.Unparseable? || req.checkOut.Unparseable? then
      ProbeReply(400, false, Some(InvalidDateMsg))
    else if exists i | 0 <= i < |rows| :: ProbeMatch(rows[i], req.roomId.value, req.checkIn.day, req.checkOut.day) then
      ProbeReply(200, false, Some(OverlapMsg))
    else ProbeReply(200, true, None)
  }

  /** Cancelled and checked-out bookings never make a room unavailable. */
  lemma ProbeIgnoresFinishedBookings(rows: seq<Booking>, roomId: int, checkIn: Day, checkOut: Day)
    requires roomId != 0
    requires forall i :: 0 <= i < |rows| && rows[i].roomId == roomId ==> !Occupying(rows[i].status)
    ensures Probe(rows, CheckRequest(Some(roomId), Date(checkIn), Date(checkOut))).available
  {
  }

  /** The scenario of a booked stay 10 to 12 on room 1: a request for 11 to
      13 is unavailable, and so is one starting on the day it ends. */
  lemma ProbeExample()
    ensures var rows := [Booking(1, "A", "a@example.com", 1, 10, 12, Booked)];
      !Probe(rows, CheckRequest(Some(1), Date(11), Date(13))).available &&
      !Probe(rows, CheckRequest(Some(1), Date(12), Date(14))).available &&
      Probe(rows, CheckRequest(Some(1), Date(13), Date(15))).available &&
      Probe(rows, CheckRequest(Some(2), Date(11), Date(13))).available
  {
    var rows := [Booking(1, "A", "a@example.com", 1, 10, 12, Booked)];
    assert ProbeMatch(rows[0], 1, 11, 13);
    assert ProbeMatch(rows[0], 1, 12, 14);
  }

  // ---------------------------------------------------------------------
  // The table and its invariant
  // ---------------------------------------------------------------------

  /** No two bookings on the same room share a day of their closed
      intervals, whatever their statuses. */
  predicate NoDoubleBooking(rows: seq<Booking>)
  {
    forall i, j :: 0 <= i < j < |rows| && rows[i].roomId == rows[j].roomId ==>
      !ClosedIntersect(rows[i].checkIn, rows[i].checkOut, rows[j].checkIn, rows[j].checkOut)
  }

  /** What holds of the booking table between requests. */
  predicate TableInvariant(rows: seq<Booking>, nextId: nat)
  {
    KeysIncreasing(rows, BookingKey, nextId) && NoDoubleBooking(rows)
  }

  /** The occupying bookings of one room never overlap as half-open stays,
      the invariant the application needs against double booking. */
  lemma OccupyingStaysDisjoint(rows: seq<Booking>, nextId: nat, i: nat, j: nat)
    requires TableInvariant(rows, nextId)
    requires i < |rows| && j < |rows| && i != j
    requires rows[i].roomId == rows[j].roomId
    requires Occupying(rows[i].status) && Occupying(rows[j].status)
    ensures !(rows[i].checkIn < rows[j].checkOut && rows[j].checkIn < rows[i].checkOut)
  {
    if i < j {
      assert !ClosedIntersect(rows[i].checkIn, rows[i].checkOut, rows[j].checkIn, rows[j].checkOut);
    } else {
      assert !ClosedIntersect(rows[j].checkIn, rows[j].checkOut, rows[i].checkIn, rows[i].checkOut);
    }
  }

  // ---------------------------------------------------------------------
  // POST /
  // ---------------------------------------------------------------------

  datatype CreateRequest = CreateRequest(
    customerName: Option<string>,
    customerEmail: Option<string>,
    roomId: nat,
    checkIn: Day,
    checkOut: Day)

  /** The fields the handler passes to `Booking.create`, status `'booked'`. */
  function CreateFields(req: CreateRequest): BookingFields
  {
    BookingFields(req.customerName, req.customerEmail, req.roomId,
                  Some(req.checkIn), Some(req.checkOut), Some(Booked))
  }

  /** `POST /` behind the middleware: refuse on any booking of the room that
      meets the three clauses, whatever its status; otherwise insert one row
      with status booked under the next key. */
  function CreateStep(rows: seq<Booking>, nextId: nat, auth: Outcome, req: CreateRequest): (s: Step<Booking, Booking>)
    requires TableInvariant(rows, nextId)
    ensures TableInvariant(s.rows, s.nextId)
    ensures !auth.Pass? ==> s == Step(Deny(auth), rows, nextId)
    ensures auth.Pass? && (exists i :: 0 <= i < |rows| && CreateMatch(rows[i], req.roomId, req.checkIn, req.checkOut)) ==>
      s == Step(Err(400, OverlapMsg), rows, nextId)
    ensures s.reply.Ok? <==>
      auth.Pass? && req.customerName.Some? && req.customerEmail.Some? &&
      forall i :: 0 <= i < |rows| ==> !CreateMatch(rows[i], req.roomId, req.checkIn, req.checkOut)
    ensures s.reply.Ok? ==>
      s.reply.value == Booking(nextId, req.customerName.value, req.customerEmail.value,
                               req.roomId, req.checkIn, req.checkOut, Booked) &&
      s.rows == rows + [s.reply.value] && s.nextId == nextId + 1
    ensures s.reply.Err? ==> s.rows == rows && s.nextId == nextId
  {
    if !auth.Pass? then Step(Deny(auth), rows, nextId)
    else if exists i | 0 <= i < |rows| :: CreateMatch(rows[i], req.roomId, req.checkIn, req.checkOut) then
      Step(Err(400, OverlapMsg), rows, nextId)
    else match Materialize(nextId, CreateFields(req))
      case None => Step(Err(500, NotNullMsg), rows, nextId)
      case Some(b) =>
        CreatePreservesInvariant(rows, nextId, b);
        Step(Ok(b), rows + [b], nextId + 1)
  }

  lemma CreatePreservesInvariant(rows: seq<Booking>, nextId: nat, b: Booking)
    requires TableInvariant(rows, nextId) && b.id == nextId
    requires forall i :: 0 <= i < |rows| ==> !CreateMatch(rows[i], b.roomId, b.checkIn, b.checkOut)
    ensures TableInvariant(rows + [b], nextId + 1)
  {
    KeysIncreasingAppend(rows, BookingKey, nextId, b);
    var rows' := rows + [b];
    forall i, j | 0 <= i < j < |rows'| && rows'[i].roomId == rows'[j].roomId
      ensures !ClosedIntersect(rows'[i].checkIn, rows'[i].checkOut, rows'[j].checkIn, rows'[j].checkOut)
    {
      if j == |rows| {
        if ClosedIntersect(rows[i].checkIn, rows[i].checkOut, b.checkIn, b.checkOut) {
          IntersectionImpliesThreeClause(rows[i], b.checkIn, b.checkOut);
          assert CreateMatch(rows[i], b.roomId, b.checkIn, b.checkOut);
        }
      }
    }
  }

  /** Every stay `/check` reports unavailable is refused by creation too. */
  lemma ProbeRefusalImpliesCreateRefusal(rows: seq<Booking>, nextId: nat, p: Payload, req: CreateRequest)
    requires TableInvariant(rows, nextId) && req.roomId != 0
    requires !Probe(rows, CheckRequest(Some(req.roomId), Date(req.checkIn), Date(req.checkOut))).available
    ensures CreateStep(rows, nextId, Pass(p), req).reply == Err(400, OverlapMsg)
  {
    var i :| 0 <= i < |rows| && ProbeMatch(rows[i], req.roomId, req.checkIn, req.checkOut);
    assert CreateMatch(rows[i], req.roomId, req.checkIn, req.checkOut);
  }

  /** The two checks disagree: when the only bookings of the room meeting the
      clauses are cancelled or checked out, `/check` reports the room free and
      creation still refuses it. */
  lemma ProbeAndCreateDisagree(rows: seq<Booking>, nextId: nat, p: Payload, req: CreateRequest)
    requires TableInvariant(rows, nextId) && req.roomId != 0
    requires exists i :: 0 <= i < |rows| && CreateMatch(rows[i], req.roomId, req.checkIn, req.checkOut)
    requires forall i :: 0 <= i < |rows| && CreateMatch(rows[i], req.roomId, req.checkIn, req.checkOut) ==>
      !Occupying(rows[i].status)
    ensures Probe(rows, CheckRequest(Some(req.roomId), Date(req.checkIn), Date(req.checkOut))).available
    ensures CreateStep(rows, nextId, Pass(p), req).reply == Err(400, OverlapMsg)
  {
  }

  /** A concrete case: a cancelled stay 10 to 12 on room 1 leaves the room
      available to `/check`, yet creating a booking 10 to 12 is refused. */
  lemma CancelledStayStillRefused(p: Payload)
    ensures var rows := [Booking(1, "A", "a@example.com", 1, 10, 12, Cancelled)];
      var req := CreateRequest(Some("B"), Some("b@example.com"), 1, 10, 12);
      Probe(rows, CheckRequest(Some(1), Date(10), Date(12))).available &&
      CreateStep(rows, 2, Pass(p), req).reply == Err(400, OverlapMsg)
  {
    var rows := [Booking(1, "A", "a@example.com", 1, 10, 12, Cancelled)];
    assert CreateMatch(rows[0], 1, 10, 12);
  }

  // ---------------------------------------------------------------------
  // PUT /:id/status
  // ---------------------------------------------------------------------

  /** `PUT /:id/status` behind the middleware: an unknown id is 404 before the
      value is looked at; a value outside the enumeration is 400; otherwise
      the status alone is replaced, from whatever it was before. */
  function StatusStep(rows: seq<Booking>, nextId: nat, auth: Outcome, id: int, status: Option<string>): (s: Step<Booking, Booking>)
    requires TableInvariant(rows, nextId)
    ensures TableInvariant(s.rows, s.nextId) && s.nextId == nextId && |s.rows| == |rows|
    ensures !auth.Pass? ==> s == Step(Deny(auth), rows, nextId)
    ensures auth.Pass? && IndexOf(rows, BookingKey, id).None? ==> s == Step(Err(404, NotFoundMsg), rows, nextId)
    ensures auth.Pass? && IndexOf(rows, BookingKey, id).Some? && (status.None? || ParseStatus(status.value).None?) ==>
      s == Step(Err(400, InvalidStatusMsg), rows, nextId)
    ensures s.reply.Ok? <==>
      auth.Pass? && IndexOf(rows, BookingKey, id).Some? && status.Some? && ParseStatus(status.value).Some?
    ensures s.reply.Ok? ==>
      var i := IndexOf(rows, BookingKey, id).value;
      s.reply.value == s.rows[i] &&
      s.rows[i] == rows[i].(status := ParseStatus(status.value).value) &&
      forall j :: 0 <= j < |rows| && j != i ==> s.rows[j] == rows[j]
    ensures s.reply.Err? ==> s.rows == rows
  {
    if !auth.Pass? then Step(Deny(auth), rows, nextId)
    else match IndexOf(rows, BookingKey, id)
      case None => Step(Err(404, NotFoundMsg), rows, nextId)
      case Some(i) =>
        var parsed := if status.Some? then ParseStatus(status.value) else None;
        match parsed
        case None => Step(Err(400, InvalidStatusMsg), rows, nextId)
        case Some(st) =>
          var rows' := rows[i := rows[i].(status := st)];
          KeysIncreasingUpdate(rows, BookingKey, nextId, i, rows[i].(status := st));
          Step(Ok(rows'[i]), rows', nextId)
  }

  /** The back end enforces no lifecycle: every status can be set from every
      status, checked-out and cancelled included. */
  lemma AnyStatusFromAnyStatus(rows: seq<Booking>, nextId: nat, p: Payload, i: nat, target: Status)
    requires TableInvariant(rows, nextId) && i < |rows|
    ensures StatusStep(rows, nextId, Pass(p), rows[i].id, Some(StatusName(target))).reply ==
            Ok(rows[i].(status := target))
  {
    IndexOfUnique(rows, BookingKey, nextId, i);
    StatusNameRoundTrip(target);
  }

  /** In particular a checked-out stay can be checked in again. */
  lemma CheckedOutCanBeCheckedIn(p: Payload)
    ensures var rows := [Booking(1, "A", "a@example.com", 1, 10, 12, CheckedOut)];
      StatusStep(rows, 2, Pass(p), 1, Some("checked-in")).rows[0].status == CheckedIn
  {
    var rows := [Booking(1, "A", "a@example.com", 1, 10, 12, CheckedOut)];
    AnyStatusFromAnyStatus(rows, 2, p, 0, CheckedIn);
  }

  // ---------------------------------------------------------------------
  // GET /
  // ---------------------------------------------------------------------

  /** A row of `Booking.findAll({ include: Room })`: the booking and its
      joined room, `None` where the room no longer exists. */
  datatype BookingWithRoom = BookingWithRoom(booking: Booking, room: Option<Room>)

  /** The `include: Room` join: every booking in table order, each with the
      room its `roomId` names. */
  function JoinRooms(rows: seq<Booking>, rooms: seq<Room>): (r: seq<BookingWithRoom>)
    ensures |r| == |rows|
    ensures forall i :: 0 <= i < |rows| ==> r[i].booking == rows[i]
    ensures forall i :: 0 <= i < |rows| && r[i].room.Some? ==>
      r[i].room.value in rooms && r[i].room.value.id == rows[i].roomId
    ensures forall i :: 0 <= i < |rows| ==>
      (r[i].room.None? <==> forall j :: 0 <= j < |rooms| ==> rooms[j].id != rows[i].roomId)
  {
    seq(|rows|, i requires 0 <= i < |rows| => BookingWithRoom(rows[i], RoomById(rooms, rows[i].roomId)))
  }

  /** Deleting a room leaves its bookings listed, with no room attached. */
  lemma DeletedRoomListedWithout(rows: seq<Booking>, rooms: seq<Room>, i: nat)
    requires i < |rows|
    requires forall j :: 0 <= j < |rooms| ==> rooms[j].id != rows[i].roomId
    ensures JoinRooms(rows, rooms)[i] == BookingWithRoom(rows[i], None)
  {
  }

  // ---------------------------------------------------------------------
  // The table as the handlers see it
  // ---------------------------------------------------------------------

  class BookingTable {
    var rows: seq<Booking>
    var nextId: nat

    ghost predicate Valid()
      reads this
    {
      TableInvariant(rows, nextId)
    }

    constructor ()
      ensures Valid() && rows == [] && nextId == 1
    {
      rows := [];
      nextId := 1;
    }

    /** `POST /check` reads the table and changes nothing. */
    method Check(req: CheckRequest) returns (reply: ProbeReply)
      requires Valid()
      ensures reply == Probe(rows, req)
    {
      reply := Probe(rows, req);
    }

    /** `POST /`. */
    method Create(header: Option<string>, verify: Verifier, req: CreateRequest) returns (reply: Reply<Booking>)
      requires Valid()
      modifies this
      ensures Valid()
      ensures var s := CreateStep(old(rows), old(nextId), Gate(header, WriteRoles, verify), req);
        reply == s.reply && rows == s.rows && nextId == s.nextId
    {
      var s := CreateStep(rows, nextId, Gate(header, WriteRoles, verify), req);
      reply, rows, nextId := s.reply, s.rows, s.nextId;
    }

    /** `GET /` for administrators: every booking with its room joined. */
    method List(header: Option<string>, verify: Verifier, rooms: seq<Room>) returns (reply: Reply<seq<BookingWithRoom>>)
      requires Valid()
      ensures var auth := Gate(header, ListRoles, verify);
        reply == if auth.Pass? then Ok(JoinRooms(rows, rooms)) else Deny(auth)
    {
      var auth := Gate(header, ListRoles, verify);
      if auth.Pass? {
        reply := Ok(JoinRooms(rows, rooms));
      } else {
        reply := Deny(auth);
      }
    }

    /** `PUT /:id/status`. */
    method UpdateStatus(header: Option<string>, verify: Verifier, id: int, status: Option<string>) returns (reply: Reply<Booking>)
      requires Valid()
      modifies this
      ensures Valid()
      ensures var s := StatusStep(old(rows), old(nextId), Gate(header, WriteRoles, verify), id, status);
        reply == s.reply && rows == s.rows && nextId == s.nextId
    {
      var s := StatusStep(rows, nextId, Gate(header, WriteRoles, verify), id, status);
      reply, rows, nextId := s.reply, s.rows, s.nextId;
    }
  }
}
