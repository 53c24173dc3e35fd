/** The figures of the invoice of routes/invoiceRoutes.js: the booking is
    looked up with its room, and the nights and the total are computed from
    the stay and the tariff. The PDF itself is not part of this model. */
module InvoiceRoutes {
  import opened Common
  import opened BookingModel
  import opened RoomModel
  import opened AuthMiddleware
  import BookingRoutes
  import AdminRoutes

  /** The roles admitted to invoices. */
  const InvoiceRoles: seq<string> := ["admin", "staff"]

  const NotFoundMsg := "Booking not found"
  /** Stand-in for the TypeError raised by `booking.Room.tariff` when the
      joined room is null, which the handler answers with 500. */
  const MissingRoomMsg := "Cannot read properties of null (reading 'tariff')"

  /** What the invoice shows besides the customer: room, tariff, nights, total. */
  datatype InvoiceFigures = InvoiceFigures(
    bookingId: nat,
    roomNumber: string,
    roomType: string,
    tariff: int,
    nights: int,
    total: int)

  /** `GET /:id/invoice` behind the middleware, for a booking in any status. */
  function Invoice(header: Option<string>, verify: Verifier, bookings: seq<Booking>, rooms: seq<Room>, id: int)
    : (r: Reply<InvoiceFigures>)
    ensures var auth := Gate(header, InvoiceRoles, verify);
      !auth.Pass? ==> r == Deny(auth)
    ensures Gate(header, InvoiceRoles, verify).Pass? && IndexOf(bookings, BookingRoutes.BookingKey, id).None? ==>
      r == Err(404, NotFoundMsg)
    ensures r.Ok? <==>
      Gate(header, InvoiceRoles, verify).Pass? &&
      IndexOf(bookings, BookingRoutes.BookingKey, id).Some? &&
      RoomById(rooms, bookings[IndexOf(bookings, BookingRoutes.BookingKey, id).value].roomId).Some?
    ensures r.Ok? ==>
      var b := bookings[IndexOf(bookings, BookingRoutes.BookingKey, id).value];
      var room := RoomById(rooms, b.roomId).value;
      r.value.bookingId == id && r.value.roomNumber == room.roomNumber && r.value.roomType == room.roomType &&
      r.value.tariff == room.tariff &&
      r.value.nights == b.checkOut - b.checkIn &&
      r.value.total == (b.checkOut - b.checkIn) * room.tariff
  {
    var auth := Gate(header, InvoiceRoles, verify);
    if !auth.Pass? then Deny(auth)
    else match IndexOf(bookings, BookingRoutes.BookingKey, id)
      case None => Err(404, NotFoundMsg)
      case Some(i) =>
        var b := bookings[i];
        match RoomById(rooms, b.roomId)
        case None => Err(500, MissingRoomMsg)
        case Some(room) =>
          var nights := Nights(b);
          Ok(InvoiceFigures(b.id, room.roomNumber, room.roomType, room.tariff, nights, nights * room.tariff))
  }

  /** The dashboard and the invoice agree: for a checked-out booking whose
      room exists, the invoice total is exactly what the booking adds to the
      revenue. */
  lemma InvoiceMatchesRevenue(header: Option<string>, verify: Verifier, bookings: seq<Booking>, rooms: seq<Room>,
                              i: nat, nextId: nat)
    requires KeysIncreasing(bookings, BookingRoutes.BookingKey, nextId) && i < |bookings|
    requires Gate(header, InvoiceRoles, verify).Pass?
    requires bookings[i].status == CheckedOut && RoomById(rooms, bookings[i].roomId).Some?
    ensures var r := Invoice(header, verify, bookings, rooms, bookings[i].id);
      r.Ok? && AdminRoutes.Revenue(rooms, bookings[..i] + [bookings[i]]) ==
               AdminRoutes.Revenue(rooms, bookings[..i]) + r.value.total
  {
    IndexOfUnique(bookings, BookingRoutes.BookingKey, nextId, i);
    AdminRoutes.RevenueAddOne(rooms, bookings[..i], bookings[i]);
  }

  /** Unlike the dashboard, which counts a vanished room as tariff 0, the
      invoice of a booking whose room is gone fails with 500. */
  lemma InvoiceWithoutRoomFails(header: Option<string>, verify: Verifier, bookings: seq<Booking>, rooms: seq<Room>,
                                i: nat, nextId: nat)
    requires KeysIncreasing(bookings, BookingRoutes.BookingKey, nextId) && i < |bookings|
    requires Gate(header, InvoiceRoles, verify).Pass?
    requires forall j :: 0 <= j < |rooms| ==> rooms[j].id != bookings[i].roomId
    ensures Invoice(header, verify, bookings, rooms, bookings[i].id) == Err(500, MissingRoomMsg)
  {
    IndexOfUnique(bookings, BookingRoutes.BookingKey, nextId, i);
  }
}
