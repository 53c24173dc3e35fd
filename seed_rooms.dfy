/** The room seeder of seed/seedRooms.js: on an empty room table it generates
    fifteen floors of rooms (eight on even floors, seven on odd ones), numbers
    each as floor followed by the two-digit room index, cycles through the
    nine room types and prices each room from the base-tariff table. */
module SeedRooms {
  import opened RoomModel
  import RoomRoutes

  const RoomTypes: seq<string> := [
    "Standard", "Deluxe", "Suite", "Executive",
    "Family Room", "Twin Room", "King Room",
    "Presidential Suite", "Studio"]

  /** Base tariffs per type, in rupees. */
  const BaseTariff: map<string, int> := map[
    "Standard" := 2000,
    "Deluxe" := 3500,
    "Suite" := 6000,
    "Executive" := 4500,
    "Family Room" := 3000,
    "Twin Room" := 2500,
    "King Room" := 4000,
    "Presidential Suite" := 10000,
    "Studio" := 2800]

  const Floors: nat := 15

  /** Every room type has a base tariff. */
  lemma EveryTypePriced(i: nat)
    requires i < |RoomTypes|
    ensures RoomTypes[i] in BaseTariff
  {
    assert i in {0, 1, 2, 3, 4, 5, 6, 7, 8};
  }

  /** `(floor % 2 === 0) ? 8 : 7`. */
  function RoomsOnFloor(floor: nat): (n: nat)
    ensures n == 7 || n == 8
    ensures n == 8 <==> floor % 2 == 0
  {
    if floor % 2 == 0 then 8 else 7
  }

  // Decimal notation

  predicate IsDigit(c: char) { '0' <= c <= '9' }

  function DigitChar(d: nat): (c: char)
    requires d < 10
    ensures IsDigit(c) && c as int - '0' as int == d
  {
    ('0' as int + d) as char
  }

  /** `n.toString()` for a natural number. */
  function Decimal(n: nat): (s: string)
    ensures |s| >= 1 && forall i :: 0 <= i < |s| ==> IsDigit(s[i])
    ensures n < 10 <==> |s| == 1
  {
    if n < 10 then [DigitChar(n)] else Decimal(n / 10) + [DigitChar(n % 10)]
  }

  function DigitValue(c: char): nat
    requires IsDigit(c)
  {
    c as int - '0' as int
  }

  /** The number a string of digits denotes, read from the right. */
  function Value(s: string): nat
    requires forall i :: 0 <= i < |s| ==> IsDigit(s[i])
  {
    if s == [] then 0 else Value(s[..|s| - 1]) * 10 + DigitValue(s[|s| - 1])
  }

  /** Reading a decimal back gives the number written. */
  lemma {:induction false} DecimalRoundTrip(n: nat)
    ensures Value(Decimal(n)) == n
  {
    if n >= 10 {
      DecimalRoundTrip(n / 10);
      var s := Decimal(n);
      assert s[..|s| - 1] == Decimal(n / 10);
    }
  }

  /** `r.toString().padStart(2, "0")`. */
  function Pad2(r: nat): (s: string)
    ensures forall i :: 0 <= i < |s| ==> IsDigit(s[i])
    ensures r < 100 ==> |s| == 2
  {
    var d := Decimal(r);
    if |d| < 2 then ['0'] + d
    else
      assert r < 100 ==> |d| == 2 by {
        if 10 <= r < 100 { assert Decimal(r / 10) == [DigitChar(r / 10)]; }
      }
      d
  }

  lemma Pad2RoundTrip(r: nat)
    ensures Value(Pad2(r)) == r
  {
    DecimalRoundTrip(r);
    var d := Decimal(r);
    if |d| < 2 {
      var s := ['0'] + d;
      assert s[..1] == ['0'];
    }
  }

  /** The room number `${floor}${r.toString().padStart(2, "0")}`. */
  function Label(floor: nat, r: nat): (s: string)
    ensures forall i :: 0 <= i < |s| ==> IsDigit(s[i])
  {
    Decimal(floor) + Pad2(r)
  }

  /** Floor 3, room 5 is numbered "305"; floor 12, room 8 is "1208". */
  lemma LabelExamples()
    ensures Label(3, 5) == "305" && Label(12, 8) == "1208"
  {
    assert Decimal(12) == Decimal(1) + [DigitChar(2)];
  }

  /** Room numbers determine floor and room index, as long as the index has
      at most two digits. */
  lemma LabelInjective(f1: nat, r1: nat, f2: nat, r2: nat)
    requires r1 < 100 && r2 < 100
    requires Label(f1, r1) == Label(f2, r2)
    ensures f1 == f2 && r1 == r2
  {
    var s := Label(f1, r1);
    var d1, d2 := Decimal(f1), Decimal(f2);
    assert d1 == s[..|s| - 2];
    assert d2 == s[..|s| - 2];
    assert Pad2(r1) == s[|s| - 2..] == Pad2(r2);
    DecimalRoundTrip(f1);
    DecimalRoundTrip(f2);
    Pad2RoundTrip(r1);
    Pad2RoundTrip(r2);
  }

  // The generation order

  /** A floor and a 1-based room index on it. */
  datatype Slot = Slot(floor: nat, index: nat)

  function FloorSlots(floor: nat): (s: seq<Slot>)
    ensures |s| == RoomsOnFloor(floor)
    ensures forall i :: 0 <= i < |s| ==> s[i] == Slot(floor, i + 1)
  {
    seq(RoomsOnFloor(floor), i requires 0 <= i => Slot(floor, i + 1))
  }

  /** The slots of floors 1..n, floor by floor, then by index. */
  function SlotsThrough(n: nat): seq<Slot>
  {
    if n == 0 then [] else SlotsThrough(n - 1) + FloorSlots(n)
  }

  predicate Before(a: Slot, b: Slot)
  {
    a.floor < b.floor || (a.floor == b.floor && a.index < b.index)
  }

  /** Floors 1..n hold 7n + n/2 rooms: seven on every floor and one more on
      each even one. */
  lemma {:induction false} SlotCount(n: nat)
    ensures |SlotsThrough(n)| == 7 * n + n / 2
  {
    if n > 0 {
      SlotCount(n - 1);
    }
  }

  /** Every slot lies on a floor in 1..n with an index in 1..RoomsOnFloor. */
  predicate SlotsInRange(s: seq<Slot>, n: nat)
  {
    forall i :: 0 <= i < |s| ==> 1 <= s[i].floor <= n && 1 <= s[i].index <= RoomsOnFloor(s[i].floor)
  }

  /** The slots come in strictly increasing (floor, index) order. */
  predicate SlotsSorted(s: seq<Slot>)
  {
    forall i, j :: 0 <= i < j < |s| ==> Before(s[i], s[j])
  }

  /** Rooms are generated floor by floor, and by index within a floor. */
  lemma {:induction false} SlotsOrdered(n: nat)
    ensures SlotsInRange(SlotsThrough(n), n) && SlotsSorted(SlotsThrough(n))
  {
    if n > 0 {
      SlotsOrdered(n - 1);
      var prev, s := SlotsThrough(n - 1), SlotsThrough(n);
      assert forall i :: 0 <= i < |prev| ==> s[i] == prev[i];
      assert forall i :: |prev| <= i < |s| ==> s[i] == Slot(n, i - |prev| + 1);
      forall i, j | 0 <= i < j < |s|
        ensures Before(s[i], s[j])
      {
        if j < |prev| {
          assert Before(prev[i], prev[j]);
        } else if i < |prev| {
          assert prev[i].floor <= n - 1;
        }
      }
    }
  }

  /** The fifteen floors hold 112 rooms. */
  lemma RoomTotal()
    ensures |SlotsThrough(Floors)| == 112
  {
    SlotCount(Floors);
  }

  /** The k-th room generated (0-based), in slot s. */
  function Entry(s: Slot, k: nat): (e: RoomRoutes.RoomSpec)
    ensures e.roomType == RoomTypes[k % |RoomTypes|]
    ensures e.roomType in BaseTariff && e.tariff == BaseTariff[e.roomType]
    ensures e.roomNumber == Label(s.floor, s.index)
  {
    var t := RoomTypes[k % |RoomTypes|];
    EveryTypePriced(k % |RoomTypes|);
    RoomRoutes.RoomSpec(Label(s.floor, s.index), t, BaseTariff[t])
  }

  /** Floor n's slots follow those of floors 1..n-1. */
  lemma SlotsStep(n: nat)
    requires n > 0
    ensures |SlotsThrough(n)| == |SlotsThrough(n - 1)| + RoomsOnFloor(n)
    ensures forall k :: 0 <= k < |SlotsThrough(n - 1)| ==> SlotsThrough(n)[k] == SlotsThrough(n - 1)[k]
    ensures forall r :: 1 <= r <= RoomsOnFloor(n) ==> SlotsThrough(n)[|SlotsThrough(n - 1)| + r - 1] == Slot(n, r)
  {
  }

  lemma EntryOf(floor: nat, r: nat, k: nat)
    ensures RoomTypes[k % |RoomTypes|] in BaseTariff
    ensures Entry(Slot(floor, r), k) ==
      RoomRoutes.RoomSpec(Decimal(floor) + Pad2(r), RoomTypes[k % |RoomTypes|], BaseTariff[RoomTypes[k % |RoomTypes|]])
  {
    EveryTypePriced(k % |RoomTypes|);
  }

  /** `plan` holds the rooms for the first |plan| slots of `slots`. */
  predicate Planned(plan: seq<RoomRoutes.RoomSpec>, slots: seq<Slot>)
  {
    |plan| <= |slots| && forall k :: 0 <= k < |plan| ==> plan[k] == Entry(slots[k], k)
  }

  lemma PlannedAppend(plan: seq<RoomRoutes.RoomSpec>, slots: seq<Slot>, room: RoomRoutes.RoomSpec)
    requires Planned(plan, slots) && |plan| < |slots|
    requires room == Entry(slots[|plan|], |plan|)
    ensures Planned(plan + [room], slots)
  {
    var longer := plan + [room];
    forall k | 0 <= k < |longer|
      ensures longer[k] == Entry(slots[k], k)
    {
      if k < |plan| {
        assert longer[k] == plan[k];
      }
    }
  }

  /** The slots of floors 1..n-1 begin those of floors 1..n. */
  lemma PlannedExtend(plan: seq<RoomRoutes.RoomSpec>, n: nat)
    requires n > 0 && Planned(plan, SlotsThrough(n - 1))
    ensures Planned(plan, SlotsThrough(n))
  {
    SlotsStep(n);
  }

  /** The room for index r of a floor extends a plan of the slots before it. */
  lemma PlanNext(plan: seq<RoomRoutes.RoomSpec>, floor: nat, r: nat)
    requires floor > 0 && 1 <= r <= RoomsOnFloor(floor)
    requires |plan| == |SlotsThrough(floor - 1)| + r - 1
    requires Planned(plan, SlotsThrough(floor))
    ensures RoomTypes[|plan| % |RoomTypes|] in BaseTariff
    ensures Planned(plan + [RoomRoutes.RoomSpec(Decimal(floor) + Pad2(r), RoomTypes[|plan| % |RoomTypes|],
                                                BaseTariff[RoomTypes[|plan| % |RoomTypes|]])],
                    SlotsThrough(floor))
  {
    SlotsStep(floor);
    EntryOf(floor, r, |plan|);
    PlannedAppend(plan, SlotsThrough(floor), Entry(Slot(floor, r), |plan|));
  }

  /** Plans the rooms of one floor. `typeIndex` runs on across floors, so it
      counts the rooms planned so far. */
  method PlanFloor(floor: nat, planned: seq<RoomRoutes.RoomSpec>, typeIndex: nat)
    returns (roomsToCreate: seq<RoomRoutes.RoomSpec>, nextTypeIndex: nat)
    requires floor > 0
    requires typeIndex == |planned| == |SlotsThrough(floor - 1)|
    requires Planned(planned, SlotsThrough(floor - 1))
    ensures nextTypeIndex == |roomsToCreate| == |SlotsThrough(floor)|
    ensures Planned(roomsToCreate, SlotsThrough(floor))
  {
    var roomsOnFloor := if floor % 2 == 0 then 8 else 7;
    PlannedExtend(planned, floor);
    roomsToCreate, nextTypeIndex := planned, typeIndex;
    for r := 1 to roomsOnFloor + 1
      invariant nextTypeIndex == |roomsToCreate| == typeIndex + r - 1
      invariant Planned(roomsToCreate, SlotsThrough(floor))
    {
      PlanNext(roomsToCreate, floor, r);
      var roomNumber := Decimal(floor) + Pad2(r);
      var t := RoomTypes[nextTypeIndex % |RoomTypes|];
      var tariff := BaseTariff[t];
      roomsToCreate := roomsToCreate + [RoomRoutes.RoomSpec(roomNumber, t, tariff)];
      nextTypeIndex := nextTypeIndex + 1;
    }
  }

  /** The rooms `seedRooms` hands to `bulkCreate`: nothing when any room
      exists, otherwise one room per slot of floors 1..15, in slot order. */
  method SeedPlan(existing: nat) returns (roomsToCreate: seq<RoomRoutes.RoomSpec>)
    ensures existing > 0 ==> roomsToCreate == []
    ensures existing == 0 ==>
      |roomsToCreate| == |SlotsThrough(Floors)| &&
      forall k :: 0 <= k < |roomsToCreate| ==> roomsToCreate[k] == Entry(SlotsThrough(Floors)[k], k)
  {
    if existing > 0 {
      return [];
    }
    roomsToCreate := [];
    var typeIndex := 0;
    for floor := 1 to Floors + 1
      invariant typeIndex == |roomsToCreate| == |SlotsThrough(floor - 1)|
      invariant Planned(roomsToCreate, SlotsThrough(floor - 1))
    {
      roomsToCreate, typeIndex := PlanFloor(floor, roomsToCreate, typeIndex);
    }
  }

  /** All seeded room numbers are distinct. */
  lemma SeededNumbersDistinct(plan: seq<RoomRoutes.RoomSpec>)
    requires |plan| == |SlotsThrough(Floors)|
    requires forall k :: 0 <= k < |plan| ==> plan[k] == Entry(SlotsThrough(Floors)[k], k)
    ensures forall i, j :: 0 <= i < j < |plan| ==> plan[i].roomNumber != plan[j].roomNumber
  {
    var s := SlotsThrough(Floors);
    SlotsOrdered(Floors);
    forall i, j | 0 <= i < j < |plan|
      ensures plan[i].roomNumber != plan[j].roomNumber
    {
      if plan[i].roomNumber == plan[j].roomNumber {
        assert Before(s[i], s[j]);
        LabelInjective(s[i].floor, s[i].index, s[j].floor, s[j].index);
      }
    }
  }

  /** `seedRooms()` against the room table: `Room.count()` is the table's
      size, and a non-empty table is left as it was. */
  method Seed(table: RoomRoutes.RoomTable)
    requires table.Valid()
    modifies table
    ensures table.Valid()
    ensures |old(table.rows)| > 0 ==> table.rows == old(table.rows) && table.nextId == old(table.nextId)
    ensures |old(table.rows)| == 0 ==>
      |table.rows| == |SlotsThrough(Floors)| == 112 &&
      forall k :: 0 <= k < |SlotsThrough(Floors)| ==>
        table.rows[k].id == old(table.nextId) + k &&
        table.rows[k].roomNumber == Label(SlotsThrough(Floors)[k].floor, SlotsThrough(Floors)[k].index) &&
        table.rows[k].roomType == RoomTypes[k % 9] &&
        table.rows[k].tariff == BaseTariff[RoomTypes[k % 9]]
  {
    var existing := |table.rows|;
    var plan := SeedPlan(existing);
    if existing > 0 {
      return;
    }
    RoomTotal();
    table.BulkCreate(plan);
    assert |RoomTypes| == 9;
    forall k | 0 <= k < |SlotsThrough(Floors)|
      ensures table.rows[k].id == old(table.nextId) + k
      ensures table.rows[k].roomNumber == Label(SlotsThrough(Floors)[k].floor, SlotsThrough(Floors)[k].index)
      ensures table.rows[k].roomType == RoomTypes[k % 9]
      ensures table.rows[k].tariff == BaseTariff[RoomTypes[k % 9]]
    {
      var e := Entry(SlotsThrough(Floors)[k], k);
      assert plan[k] == e;
      assert table.rows[k] == Room(old(table.nextId) + k, e.roomNumber, e.roomType, e.tariff);
    }
  }
}
