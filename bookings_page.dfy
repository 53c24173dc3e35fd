/** The booking page of components/Bookings.js: date validation, the search
    for available rooms (one availability check per candidate room), the
    grouping of the result by room type and the guarded booking request.
    Requests the page sends are recorded in an outbox; their answers are
    handed in as parameters. */
module BookingsPage {
  import opened Common
  import opened RoomModel
  import opened AuthMiddleware
  import BookingModel
  import BookingRoutes

  const BothDatesMsg := "Please select both check-in and check-out dates."
  const PastMsg := "Check-in date cannot be in the past."
  const OrderMsg := "Check-out date must be after check-in date."
  const NoRoomsMsg := "No rooms found. Add rooms first."
  const NoAvailableMsg := "No available rooms for these dates."
  const FailedMsg := "Failed to check availability. Try again later."
  const SelectRoomMsg := "Please select a room first!"
  const GuestRequiredMsg := "Guest name and phone are required."
  const SelectDatesMsg := "Select both check-in and check-out dates."
  const CreatedMsg := "Booking created successfully"
  const CreateFailedMsg := "Failed to create booking"

  // ---------------------------------------------------------------------
  // validateDates
  // ---------------------------------------------------------------------

  /** The error text for a pair of dates, `None` when they are acceptable:
      a check-in before today is refused first, then a check-out that is not
      after the check-in. */
  function ValidateDates(checkIn: Day, checkOut: Day, today: Day): (r: Option<string>)
    ensures r == Some(PastMsg) <==> checkIn < today
    ensures r == Some(OrderMsg) <==> today <= checkIn && checkOut <= checkIn
    ensures r.None? <==> today <= checkIn < checkOut
  {
    assert PastMsg[6] != OrderMsg[6];
    if checkIn < today then Some(PastMsg)
    else if checkOut <= checkIn then Some(OrderMsg)
    else None
  }

  /** A stay that starts before today and ends before it starts is reported
      as being in the past: that check runs first. */
  lemma PastBeforeOrder()
    ensures ValidateDates(5, 3, 10) == Some(PastMsg)
  {
  }

  /** For dates the page accepts, the backend's three-clause test against a
      well-formed stay is plain closed-interval intersection. */
  lemma AcceptedDatesMeetClosedIntersection(checkIn: Day, checkOut: Day, today: Day, b: BookingModel.Booking)
    requires ValidateDates(checkIn, checkOut, today).None?
    requires b.checkIn <= b.checkOut
    ensures BookingRoutes.ThreeClauseOverlap(b, checkIn, checkOut) <==>
      b.checkIn <= checkOut && checkIn <= b.checkOut
  {
    BookingRoutes.ThreeClauseIsClosedIntersection(b, checkIn, checkOut);
  }

  // ---------------------------------------------------------------------
  // Candidate and available rooms
  // ---------------------------------------------------------------------

  /** `rooms.filter(r => r.type === t)`: the rooms of the type, in list order. */
  function OfType(rooms: seq<Room>, t: string): (r: seq<Room>)
    ensures forall i :: 0 <= i < |r| ==> r[i].roomType == t && r[i] in rooms
    ensures forall i :: 0 <= i < |rooms| && rooms[i].roomType == t ==> rooms[i] in r
    ensures SubsequenceOf(r, rooms)
  {
    var isType := (x: Room) => x.roomType == t;
    FilterIsSubsequence(rooms, isType);
    FilterWithin(rooms, isType);
    forall i | 0 <= i < |rooms| && rooms[i].roomType == t
      ensures rooms[i] in Filter(rooms, isType)
    {
      FilterMembership(rooms, isType, rooms[i]);
    }
    Filter(rooms, isType)
  }

  lemma OfTypeSnoc(rooms: seq<Room>, room: Room, t: string)
    ensures OfType(rooms + [room], t) == OfType(rooms, t) + (if room.roomType == t then [room] else [])
  {
    FilterSnoc(rooms, room, (x: Room) => x.roomType == t);
  }

  /** No room of a type means no room in the filtered list. */
  lemma OfTypeEmpty(rooms: seq<Room>, t: string)
    requires forall k :: 0 <= k < |rooms| ==> rooms[k].roomType != t
    ensures OfType(rooms, t) == []
  {
    var r := OfType(rooms, t);
    assert forall i :: 0 <= i < |r| ==> r[i].roomType == t;
  }

  /** All rooms when no type is chosen, else exactly the rooms of that type. */
  function Candidates(rooms: seq<Room>, roomType: string): (c: seq<Room>)
    ensures roomType == "" ==> c == rooms
    ensures forall i :: 0 <= i < |c| ==> c[i] in rooms && (roomType == "" || c[i].roomType == roomType)
    ensures forall i :: 0 <= i < |rooms| && (roomType == "" || rooms[i].roomType == roomType) ==> rooms[i] in c
  {
    if roomType == "" then rooms else OfType(rooms, roomType)
  }

  /** The request `POST /bookings/check` the page sends for a room. */
  function CheckFor(room: Room, checkIn: Day, checkOut: Day): BookingRoutes.CheckRequest
  {
    BookingRoutes.CheckRequest(Some(room.id), BookingRoutes.Date(checkIn), BookingRoutes.Date(checkOut))
  }

  /** The answer to a check request: `Some(available)` for a 2xx reply,
      `None` when the request throws (an error status or a network failure). */
  type Answers = BookingRoutes.CheckRequest -> Option<bool>

  /** A room is kept when its check answered `available: true`. */
  function Accepted(answers: Answers, checkIn: Day, checkOut: Day): Room -> bool
  {
    (r: Room) => answers(CheckFor(r, checkIn, checkOut)) == Some(true)
  }

  /** The check requests for a list of rooms, as outbox entries. */
  function ChecksFor(rooms: seq<Room>, checkIn: Day, checkOut: Day): (r: seq<Request>)
    ensures |r| == |rooms| && forall i :: 0 <= i < |rooms| ==> r[i] == Check(CheckFor(rooms[i], checkIn, checkOut))
  {
    seq(|rooms|, i requires 0 <= i < |rooms| => Check(CheckFor(rooms[i], checkIn, checkOut)))
  }

  /** The loop of `checkAvailability`: one check request per candidate, in
      order, keeping the rooms whose check said available and skipping those
      whose check failed. */
  method CollectAvailable(candidates: seq<Room>, checkIn: Day, checkOut: Day, answers: Answers)
    returns (availableRooms: seq<Room>, sent: seq<Request>)
    ensures availableRooms == Filter(candidates, Accepted(answers, checkIn, checkOut))
    ensures sent == ChecksFor(candidates, checkIn, checkOut)
  {
    availableRooms, sent := [], [];
    var keep := Accepted(answers, checkIn, checkOut);
    for k := 0 to |candidates|
      invariant availableRooms == Filter(candidates[..k], keep)
      invariant sent == ChecksFor(candidates[..k], checkIn, checkOut)
    {
      var room := candidates[k];
      var req := CheckFor(room, checkIn, checkOut);
      var res := answers(req);
      assert candidates[..k + 1] == candidates[..k] + [room];
      sent := sent + [Check(req)];
      assert sent == ChecksFor(candidates[..k + 1], checkIn, checkOut);
      FilterSnoc(candidates[..k], room, keep);
      if res == Some(true) {
        availableRooms := availableRooms + [room];
      }
    }
    assert candidates[..|candidates|] == candidates;
  }

  /** Where a search ends: the list shown, the error line, the requests sent,
      and whether the failure message popped up. */
  datatype Search = Search(available: seq<Room>, error: Option<string>, sent: seq<Request>, failureShown: bool)

  /** What `checkAvailability` shows and sends, for the form's dates and type,
      the room list fetched (`None` when that request fails) and the answers
      to the checks. */
  function SearchOutcome(checkIn: Option<Day>, checkOut: Option<Day>, roomType: string, today: Day,
                         fetched: Option<seq<Room>>, answers: Answers): (o: Search)
    ensures checkIn.None? || checkOut.None? ==> o == Search([], Some(BothDatesMsg), [], false)
    ensures checkIn.Some? && checkOut.Some? && ValidateDates(checkIn.value, checkOut.value, today).Some? ==>
      o == Search([], ValidateDates(checkIn.value, checkOut.value, today), [], false)
    ensures o.sent != [] <==> checkIn.Some? && checkOut.Some? && today <= checkIn.value < checkOut.value
    ensures o.sent != [] ==> o.sent[0] == FetchRooms
    ensures o.failureShown <==> o.sent == [FetchRooms] && fetched.None?
    ensures o.sent != [] && fetched.Some? ==>
      var c := Candidates(fetched.value, roomType);
      o.sent == [FetchRooms] + ChecksFor(c, checkIn.value, checkOut.value) &&
      o.available == Filter(c, Accepted(answers, checkIn.value, checkOut.value)) &&
      o.error == (if c == [] then Some(NoRoomsMsg) else if o.available == [] then Some(NoAvailableMsg) else None)
    ensures o.available != [] ==> o.error.None?
  {
    if checkIn.None? || checkOut.None? then Search([], Some(BothDatesMsg), [], false)
    else match ValidateDates(checkIn.value, checkOut.value, today)
      case Some(e) => Search([], Some(e), [], false)
      case None =>
        match fetched
        case None => Search([], Some(FailedMsg), [FetchRooms], true)
        case Some(rooms) =>
          var c := Candidates(rooms, roomType);
          if c == [] then Search([], Some(NoRoomsMsg), [FetchRooms], false)
          else
            var a := Filter(c, Accepted(answers, checkIn.value, checkOut.value));
            Search(a, if a == [] then Some(NoAvailableMsg) else None,
                   [FetchRooms] + ChecksFor(c, checkIn.value, checkOut.value), false)
  }

  /** A room is listed exactly when it is a candidate and its check said
      available; the list keeps the candidates' order. */
  lemma AvailableRooms(candidates: seq<Room>, checkIn: Day, checkOut: Day, answers: Answers, room: Room)
    ensures var a := Filter(candidates, Accepted(answers, checkIn, checkOut));
      (room in a <==> room in candidates && answers(CheckFor(room, checkIn, checkOut)) == Some(true)) &&
      SubsequenceOf(a, candidates)
  {
    FilterMembership(candidates, Accepted(answers, checkIn, checkOut), room);
    FilterIsSubsequence(candidates, Accepted(answers, checkIn, checkOut));
  }

  /** The answers the booking routes give for a booking table. */
  function Backend(rows: seq<BookingModel.Booking>): Answers
  {
    (req: BookingRoutes.CheckRequest) =>
      var r := BookingRoutes.Probe(rows, req);
      if r.code == 200 then Some(r.available) else None
  }

  /** Against the real routes, a candidate room is listed exactly when its
      id is non-zero and no booked or checked-in stay on it meets the
      three-clause test for the requested dates. */
  lemma BackendAvailableRooms(rows: seq<BookingModel.Booking>, candidates: seq<Room>, checkIn: Day, checkOut: Day, room: Room)
    ensures room in Filter(candidates, Accepted(Backend(rows), checkIn, checkOut)) <==>
      room in candidates && room.id != 0 &&
      forall i :: 0 <= i < |rows| ==> !BookingRoutes.ProbeMatch(rows[i], room.id, checkIn, checkOut)
  {
    AvailableRooms(candidates, checkIn, checkOut, Backend(rows), room);
    var r := BookingRoutes.Probe(rows, CheckFor(room, checkIn, checkOut));
    assert BookingRoutes.MissingField(CheckFor(room, checkIn, checkOut)) <==> room.id == 0;
  }

  // ---------------------------------------------------------------------
  // Grouping by type
  // ---------------------------------------------------------------------

  /** One heading of the result list and the rooms under it. */
  datatype Group = Group(roomType: string, rooms: seq<Room>)

  /** Where the group for a type sits, if there is one. */
  function FindGroup(groups: seq<Group>, t: string): (r: Option<nat>)
    ensures r.Some? ==> r.value < |groups| && groups[r.value].roomType == t
    ensures r.None? <==> forall i :: 0 <= i < |groups| ==> groups[i].roomType != t
  {
    if groups == [] then None
    else if groups[|groups| - 1].roomType == t then Some(|groups| - 1)
    else FindGroup(groups[..|groups| - 1], t)
  }

  /** One step of the `reduce`: append the room to its type's group, opening
      the group at the end when the type is new. */
  function AddToGroup(groups: seq<Group>, room: Room): seq<Group>
  {
    match FindGroup(groups, room.roomType)
    case Some(i) => groups[i := Group(room.roomType, groups[i].rooms + [room])]
    case None => groups + [Group(room.roomType, [room])]
  }

  /** `Object.entries(available.reduce(...))`: groups in the order their
      types first appear. */
  function GroupByType(rooms: seq<Room>): seq<Group>
  {
    if rooms == [] then []
    else AddToGroup(GroupByType(rooms[..|rooms| - 1]), rooms[|rooms| - 1])
  }

  /** No type heads two groups. */
  predicate KeysDistinct(groups: seq<Group>)
  {
    forall i, j :: 0 <= i < j < |groups| ==> groups[i].roomType != groups[j].roomType
  }

  /** Each group holds exactly the rooms of its type, in list order. */
  predicate GroupsExact(groups: seq<Group>, rooms: seq<Room>)
  {
    forall i :: 0 <= i < |groups| ==> groups[i].rooms == OfType(rooms, groups[i].roomType)
  }

  /** Every room's type has a group. */
  predicate GroupsCover(groups: seq<Group>, rooms: seq<Room>)
  {
    forall k :: 0 <= k < |rooms| ==> FindGroup(groups, rooms[k].roomType).Some?
  }

  /** Adding to a group keeps the heads; a new head is new. */
  lemma AddKeepsDistinct(groups: seq<Group>, room: Room)
    requires KeysDistinct(groups)
    ensures KeysDistinct(AddToGroup(groups, room))
  {
  }

  lemma AddKeepsCover(groups: seq<Group>, rooms: seq<Room>, room: Room)
    requires GroupsCover(groups, rooms)
    ensures GroupsCover(AddToGroup(groups, room), rooms + [room])
  {
    var rooms', groups' := rooms + [room], AddToGroup(groups, room);
    assert forall i :: 0 <= i < |groups| ==> groups'[i].roomType == groups[i].roomType;
    forall k | 0 <= k < |rooms'|
      ensures FindGroup(groups', rooms'[k].roomType).Some?
    {
      if k < |rooms| {
        var g := FindGroup(groups, rooms[k].roomType).value;
        assert groups'[g].roomType == rooms'[k].roomType;
      } else {
        var g := if FindGroup(groups, room.roomType).Some? then FindGroup(groups, room.roomType).value else |groups|;
        assert groups'[g].roomType == room.roomType;
      }
    }
  }

  lemma AddKeepsExact(groups: seq<Group>, rooms: seq<Room>, room: Room)
    requires KeysDistinct(groups) && GroupsExact(groups, rooms) && GroupsCover(groups, rooms)
    ensures GroupsExact(AddToGroup(groups, room), rooms + [room])
  {
    var groups' := AddToGroup(groups, room);
    match FindGroup(groups, room.roomType)
    case Some(g) =>
      forall i | 0 <= i < |groups'|
        ensures groups'[i].rooms == OfType(rooms + [room], groups'[i].roomType)
      {
        OfTypeSnoc(rooms, room, groups'[i].roomType);
        if i != g {
          assert groups[i].roomType != groups[g].roomType;
        }
      }
    case None =>
      forall i | 0 <= i < |groups'|
        ensures groups'[i].rooms == OfType(rooms + [room], groups'[i].roomType)
      {
        OfTypeSnoc(rooms, room, groups'[i].roomType);
        if i == |groups| {
          forall k | 0 <= k < |rooms|
            ensures rooms[k].roomType != room.roomType
          {
            assert FindGroup(groups, rooms[k].roomType).Some?;
          }
          OfTypeEmpty(rooms, room.roomType);
        }
      }
  }

  /** No type heads two groups of the grouping. */
  lemma {:induction false} GroupByTypeDistinct(rooms: seq<Room>)
    ensures KeysDistinct(GroupByType(rooms))
  {
    if rooms != [] {
      GroupByTypeDistinct(rooms[..|rooms| - 1]);
      AddKeepsDistinct(GroupByType(rooms[..|rooms| - 1]), rooms[|rooms| - 1]);
    }
  }

  /** Every room's type heads a group of the grouping. */
  lemma {:induction false} GroupByTypeCovers(rooms: seq<Room>)
    ensures GroupsCover(GroupByType(rooms), rooms)
  {
    if rooms != [] {
      var init, last := rooms[..|rooms| - 1], rooms[|rooms| - 1];
      GroupByTypeCovers(init);
      AddKeepsCover(GroupByType(init), init, last);
      assert init + [last] == rooms;
    }
  }

  /** Each group of the grouping holds exactly the rooms of its type, in
      list order. */
  lemma {:induction false} GroupByTypeExact(rooms: seq<Room>)
    ensures GroupsExact(GroupByType(rooms), rooms)
  {
    if rooms != [] {
      var init, last := rooms[..|rooms| - 1], rooms[|rooms| - 1];
      GroupByTypeExact(init);
      GroupByTypeDistinct(init);
      GroupByTypeCovers(init);
      AddKeepsExact(GroupByType(init), init, last);
      assert init + [last] == rooms;
    }
  }

  // ---------------------------------------------------------------------
  // createBooking
  // ---------------------------------------------------------------------

  /** The guest form of the booking dialog. */
  datatype Guest = Guest(name: string, email: string, phone: string, idNumber: string)

  const EmptyGuest := Guest("", "", "", "")

  /** What pressing "Confirm Booking" does: a message and nothing sent, or
      the booking request. */
  datatype Action = Refuse(message: string) | Send(request: BookingRoutes.CreateRequest)

  /** The guards of `createBooking`, in order: a selected room, a guest name
      and phone, both dates, then `validateDates`. The request carries the
      room, the guest's name and email and the dates; phone and ID number
      stay on the page. */
  function CreateBookingAction(selectedRoom: Option<Room>, guest: Guest,
                               checkIn: Option<Day>, checkOut: Option<Day>, today: Day): (a: Action)
    ensures selectedRoom.None? ==> a == Refuse(SelectRoomMsg)
    ensures selectedRoom.Some? && (guest.name == "" || guest.phone == "") ==> a == Refuse(GuestRequiredMsg)
    ensures selectedRoom.Some? && guest.name != "" && guest.phone != "" && (checkIn.None? || checkOut.None?) ==>
      a == Refuse(SelectDatesMsg)
    ensures (selectedRoom.Some? && guest.name != "" && guest.phone != "" && checkIn.Some? && checkOut.Some? &&
             ValidateDates(checkIn.value, checkOut.value, today).Some?) ==>
      a == Refuse(ValidateDates(checkIn.value, checkOut.value, today).value)
    ensures a.Send? <==>
      selectedRoom.Some? && guest.name != "" && guest.phone != "" && checkIn.Some? && checkOut.Some? &&
      today <= checkIn.value < checkOut.value
    ensures a.Send? ==>
      a.request == BookingRoutes.CreateRequest(Some(guest.name), Some(guest.email), selectedRoom.value.id,
                                               checkIn.value, checkOut.value)
  {
    if selectedRoom.None? then Refuse(SelectRoomMsg)
    else if guest.name == "" || guest.phone == "" then Refuse(GuestRequiredMsg)
    else if checkIn.None? || checkOut.None? then Refuse(SelectDatesMsg)
    else match ValidateDates(checkIn.value, checkOut.value, today)
      case Some(e) => Refuse(e)
      case None =>
        Send(BookingRoutes.CreateRequest(Some(guest.name), Some(guest.email), selectedRoom.value.id,
                                         checkIn.value, checkOut.value))
  }

  /** The phone and the ID number only gate the request; they never reach it. */
  lemma PhoneAndIdNotSent(selectedRoom: Option<Room>, g1: Guest, g2: Guest,
                          checkIn: Option<Day>, checkOut: Option<Day>, today: Day)
    requires g1.name == g2.name && g1.email == g2.email
    requires (g1.phone == "") == (g2.phone == "")
    ensures CreateBookingAction(selectedRoom, g1, checkIn, checkOut, today) ==
            CreateBookingAction(selectedRoom, g2, checkIn, checkOut, today)
  {
  }

  /** A request the page sends, once past the middleware, is either stored
      as a booked stay with check-in before check-out or refused for an
      overlap: the not-null failure cannot arise from it. */
  lemma SentRequestCreatedOrOverlap(selectedRoom: Option<Room>, guest: Guest, checkIn: Option<Day>, checkOut: Option<Day>,
                                    today: Day, rows: seq<BookingModel.Booking>, nextId: nat, user: Payload)
    requires BookingRoutes.TableInvariant(rows, nextId)
    requires CreateBookingAction(selectedRoom, guest, checkIn, checkOut, today).Send?
    ensures var req := CreateBookingAction(selectedRoom, guest, checkIn, checkOut, today).request;
      var s := BookingRoutes.CreateStep(rows, nextId, Pass(user), req);
      s.reply == Err(400, BookingRoutes.OverlapMsg) ||
      (s.reply.Ok? && s.reply.value.status == BookingModel.Booked && s.reply.value.checkIn < s.reply.value.checkOut)
  {
  }

  /** The body of `checkAvailability`: the two date guards, the room fetch,
      the candidate filter and the loop of checks. */
  method RunSearch(checkIn: Option<Day>, checkOut: Option<Day>, roomType: string, today: Day,
                   fetched: Option<seq<Room>>, answers: Answers) returns (o: Search)
    ensures o == SearchOutcome(checkIn, checkOut, roomType, today, fetched, answers)
  {
    if checkIn.None? || checkOut.None? {
      return Search([], Some(BothDatesMsg), [], false);
    }
    var dateError := ValidateDates(checkIn.value, checkOut.value, today);
    if dateError.Some? {
      return Search([], dateError, [], false);
    }
    if fetched.None? {
      return Search([], Some(FailedMsg), [FetchRooms], true);
    }
    var candidates := Candidates(fetched.value, roomType);
    if candidates == [] {
      return Search([], Some(NoRoomsMsg), [FetchRooms], false);
    }
    var found, sent := CollectAvailable(candidates, checkIn.value, checkOut.value, answers);
    var error := if found == [] then Some(NoAvailableMsg) else None;
    o := Search(found, error, [FetchRooms] + sent, false);
  }

  // ---------------------------------------------------------------------
  // The page state
  // ---------------------------------------------------------------------

  /** A request leaving the page. */
  datatype Request =
    | FetchRooms
    | Check(check: BookingRoutes.CheckRequest)
    | PostBooking(booking: BookingRoutes.CreateRequest)

  /** How a booking request came back: created, or failed with the server's
      message if its body had one. */
  datatype PostResult = Created | Failed(serverMessage: Option<string>)

  class Page {
    var checkIn: Option<Day>
    var checkOut: Option<Day>
    var roomType: string
    var available: seq<Room>
    var error: Option<string>
    var selectedRoom: Option<Room>
    var guest: Guest
    var dialogOpen: bool
    var snackbar: Option<string>
    /** Every request sent so far, oldest first. */
    var outbox: seq<Request>

    constructor ()
      ensures checkIn.None? && checkOut.None? && roomType == "" && available == [] && error.None?
      ensures selectedRoom.None? && guest == EmptyGuest && !dialogOpen && snackbar.None? && outbox == []
    {
      checkIn, checkOut, roomType := None, None, "";
      available, error := [], None;
      selectedRoom, guest, dialogOpen := None, EmptyGuest, false;
      snackbar, outbox := None, [];
    }

    /** `checkAvailability` on the page's form: the list, the error line and
        the failure message become those of the search; its requests join
        the outbox. */
    method CheckAvailability(today: Day, fetched: Option<seq<Room>>, answers: Answers)
      modifies this
      ensures checkIn == old(checkIn) && checkOut == old(checkOut) && roomType == old(roomType)
      ensures selectedRoom == old(selectedRoom) && guest == old(guest) && dialogOpen == old(dialogOpen)
      ensures var o := SearchOutcome(checkIn, checkOut, roomType, today, fetched, answers);
        available == o.available && error == o.error && outbox == old(outbox) + o.sent &&
        snackbar == (if o.failureShown then Some(FailedMsg) else old(snackbar))
    {
      var o := RunSearch(checkIn, checkOut, roomType, today, fetched, answers);
      available, error, outbox := o.available, o.error, outbox + o.sent;
      if o.failureShown {
        snackbar := Some(FailedMsg);
      }
    }

    /** `createBooking`: a refused guard only shows its message; otherwise
        the request is sent and, once created, the dialog closes, the guest
        form resets and the success message shows. */
    method CreateBooking(today: Day, result: PostResult)
      modifies this
      ensures checkIn == old(checkIn) && checkOut == old(checkOut) && roomType == old(roomType)
      ensures available == old(available) && error == old(error) && selectedRoom == old(selectedRoom)
      ensures var a := CreateBookingAction(old(selectedRoom), old(guest), old(checkIn), old(checkOut), today);
        match a
        case Refuse(m) =>
          snackbar == Some(m) && outbox == old(outbox) && guest == old(guest) && dialogOpen == old(dialogOpen)
        case Send(req) =>
          outbox == old(outbox) + [PostBooking(req)] &&
          (result == Created ==> snackbar == Some(CreatedMsg) && guest == EmptyGuest && !dialogOpen) &&
          (result.Failed? ==>
            guest == old(guest) && dialogOpen == old(dialogOpen) &&
            snackbar == Some(if result.serverMessage.Some? && result.serverMessage.value != "" then result.serverMessage.value
                             else CreateFailedMsg))
    {
      var a := CreateBookingAction(selectedRoom, guest, checkIn, checkOut, today);
      match a
      case Refuse(m) =>
        snackbar := Some(m);
      case Send(req) =>
        outbox := outbox + [PostBooking(req)];
        match result
        case Created =>
          dialogOpen, guest, snackbar := false, EmptyGuest, Some(CreatedMsg);
        case Failed(m) =>
          snackbar := Some(if m.Some? && m.value != "" then m.value else CreateFailedMsg);
    }
  }

}
