/** The dashboard statistics of routes/adminRoutes.js (the first `/stats`
    handler): room and booking counts, the available-room figure and the
    revenue of completed stays. */
module AdminRoutes {
  import opened Common
  import opened BookingModel
  import opened RoomModel
  import opened AuthMiddleware

  /** The roles admitted to the dashboard. */
  const StatsRoles: seq<string> := ["admin", "staff"]

  datatype DashboardStats = DashboardStats(
    totalRooms: int,
    occupiedRooms: int,
    availableRooms: int,
    totalBookings: int,
    totalRevenue: int)

  predicate IsCheckedIn(b: Booking) { b.status == CheckedIn }
  predicate IsCheckedOut(b: Booking) { b.status == CheckedOut }

  /** `b.Room?.tariff || 0`: the joined room's tariff, 0 when the room is gone. */
  function TariffOrZero(rooms: seq<Room>, b: Booking): (t: int)
    ensures RoomById(rooms, b.roomId).Some? ==> t == RoomById(rooms, b.roomId).value.tariff
    ensures RoomById(rooms, b.roomId).None? ==> t == 0
  {
    match RoomById(rooms, b.roomId)
    case Some(r) => if r.tariff != 0 then r.tariff else 0
    case None => 0
  }

  /** What one booking adds to the revenue: nights stayed times the tariff. */
  function Contribution(rooms: seq<Room>, b: Booking): (c: int)
    ensures c == (b.checkOut - b.checkIn) * TariffOrZero(rooms, b)
  {
    Nights(b) * TariffOrZero(rooms, b)
  }

  /** The revenue of a booking list: the contributions of its checked-out
      bookings, summed over the list from its start. */
  function Revenue(rooms: seq<Room>, bookings: seq<Booking>): int
  {
    if bookings == [] then 0
    else
      var last := bookings[|bookings| - 1];
      Revenue(rooms, bookings[..|bookings| - 1]) + (if IsCheckedOut(last) then Contribution(rooms, last) else 0)
  }

  /** Revenue adds up over concatenation. */
  lemma {:induction false} RevenueOfConcat(rooms: seq<Room>, a: seq<Booking>, b: seq<Booking>)
    ensures Revenue(rooms, a + b) == Revenue(rooms, a) + Revenue(rooms, b)
  {
    if b != [] {
      var b' := b[..|b| - 1];
      assert (a + b)[..|a + b| - 1] == a + b';
      assert (a + b)[|a + b| - 1] == b[|b| - 1];
      RevenueOfConcat(rooms, a, b');
    } else {
      assert a + b == a;
    }
  }

  /** Adding one checked-out booking raises the revenue by exactly its nights
      times its room's tariff; a booking in any other status adds nothing. */
  lemma RevenueAddOne(rooms: seq<Room>, bookings: seq<Booking>, b: Booking)
    ensures Revenue(rooms, bookings + [b]) ==
      Revenue(rooms, bookings) + (if b.status == CheckedOut then (b.checkOut - b.checkIn) * TariffOrZero(rooms, b) else 0)
  {
    assert (bookings + [b])[..|bookings|] == bookings;
  }

  /** With no checked-out booking the revenue is 0. */
  lemma {:induction false} RevenueWithoutCompletedStays(rooms: seq<Room>, bookings: seq<Booking>)
    requires forall i :: 0 <= i < |bookings| ==> bookings[i].status != CheckedOut
    ensures Revenue(rooms, bookings) == 0
  {
    if bookings != [] {
      RevenueWithoutCompletedStays(rooms, bookings[..|bookings| - 1]);
    }
  }

  /** A checked-out booking whose room no longer exists contributes 0. */
  lemma MissingRoomContributesNothing(rooms: seq<Room>, bookings: seq<Booking>, b: Booking)
    requires forall i :: 0 <= i < |rooms| ==> rooms[i].id != b.roomId
    ensures Revenue(rooms, bookings + [b]) == Revenue(rooms, bookings)
  {
    assert TariffOrZero(rooms, b) == 0;
    RevenueAddOne(rooms, bookings, b);
  }

  /** Only checked-out bookings matter: restricting the list to them keeps
      the revenue. */
  lemma {:induction false} RevenueOfCompleted(rooms: seq<Room>, bookings: seq<Booking>)
    ensures Revenue(rooms, Filter(bookings, IsCheckedOut)) == Revenue(rooms, bookings)
  {
    if bookings != [] {
      var head, tail := bookings[0], bookings[1..];
      assert bookings == [head] + tail;
      RevenueOfCompleted(rooms, tail);
      var kept := if IsCheckedOut(head) then [head] else [];
      assert Filter(bookings, IsCheckedOut) == kept + Filter(tail, IsCheckedOut);
      RevenueOfConcat(rooms, kept, Filter(tail, IsCheckedOut));
      RevenueOfConcat(rooms, [head], tail);
      assert [head][..0] == [];
      if !IsCheckedOut(head) {
        assert Revenue(rooms, [head]) == 0;
      }
    }
  }

  /** The `forEach` of the handler: `totalRevenue += nights * (b.Room?.tariff || 0)`
      over the checked-out bookings it fetched. */
  method AccumulateRevenue(rooms: seq<Room>, completed: seq<Booking>) returns (totalRevenue: int)
    requires forall i :: 0 <= i < |completed| ==> IsCheckedOut(completed[i])
    ensures totalRevenue == Revenue(rooms, completed)
  {
    totalRevenue := 0;
    for k := 0 to |completed|
      invariant totalRevenue == Revenue(rooms, completed[..k])
    {
      var b := completed[k];
      var nights := CeilDiv((b.checkOut - b.checkIn) * MsPerDay, MsPerDay);
      WholeDays(b.checkOut - b.checkIn);
      totalRevenue := totalRevenue + nights * TariffOrZero(rooms, b);
      assert completed[..k + 1][..k] == completed[..k];
    }
    assert completed[..|completed|] == completed;
  }

  /** `GET /stats` for administrators and staff. The counts come from the two
      tables; the revenue is accumulated over the checked-out bookings. The
      available figure is not clamped: it goes negative when more bookings are
      checked in than there are rooms. */
  method Stats(header: Option<string>, verify: Verifier, rooms: seq<Room>, bookings: seq<Booking>)
    returns (reply: Reply<DashboardStats>)
    ensures var auth := Gate(header, StatsRoles, verify);
      !auth.Pass? ==> reply == Deny(auth)
    ensures reply.Ok? <==> Gate(header, StatsRoles, verify).Pass?
    ensures reply.Ok? ==>
      var s := reply.value;
      s.totalRooms == |rooms| &&
      s.occupiedRooms == |Filter(bookings, IsCheckedIn)| &&
      s.availableRooms + s.occupiedRooms == s.totalRooms &&
      s.totalBookings == |bookings| &&
      s.totalRevenue == Revenue(rooms, bookings)
  {
    var auth := Gate(header, StatsRoles, verify);
    if !auth.Pass? {
      return Deny(auth);
    }
    var totalRooms := |rooms|;
    var occupiedRooms := |Filter(bookings, IsCheckedIn)|;
    var availableRooms := totalRooms - occupiedRooms;
    var totalBookings := |bookings|;

    var totalRevenue := 0;
    var completed := Filter(bookings, IsCheckedOut);
    if |completed| > 0 {
      totalRevenue := AccumulateRevenue(rooms, completed);
    }
    RevenueOfCompleted(rooms, bookings);
    reply := Ok(DashboardStats(totalRooms, occupiedRooms, availableRooms, totalBookings, totalRevenue));
  }
}
