/** The booking list of components/BookingsList.js: the loaded bookings split
    into the Active, Past and Cancelled tabs, and the buttons each booking
    card offers. */
module BookingsList {
  import opened Common
  import opened BookingModel

  predicate IsActive(b: Booking) { b.status == Booked || b.status == CheckedIn }
  predicate IsPast(b: Booking) { b.status == CheckedOut }
  predicate IsCancelled(b: Booking) { b.status == Cancelled }

  function ActiveBookings(items: seq<Booking>): seq<Booking> { Filter(items, IsActive) }
  function PastBookings(items: seq<Booking>): seq<Booking> { Filter(items, IsPast) }
  function CancelledBookings(items: seq<Booking>): seq<Booking> { Filter(items, IsCancelled) }

  /** Each booking falls into exactly one tab. */
  lemma ExactlyOneTab(b: Booking)
    ensures IsActive(b) || IsPast(b) || IsCancelled(b)
    ensures !(IsActive(b) && IsPast(b)) && !(IsActive(b) && IsCancelled(b)) && !(IsPast(b) && IsCancelled(b))
  {
  }

  /** The tabs' contents together, counted with multiplicity. */
  function AllTabs(items: seq<Booking>): multiset<Booking>
  {
    multiset(ActiveBookings(items)) + multiset(PastBookings(items)) + multiset(CancelledBookings(items))
  }

  /** Every booking in `items` has exactly one tab. */
  predicate EachInOneTab(items: seq<Booking>)
  {
    forall i :: 0 <= i < |items| ==>
      (IsActive(items[i]) && !IsPast(items[i]) && !IsCancelled(items[i])) ||
      (!IsActive(items[i]) && IsPast(items[i]) && !IsCancelled(items[i])) ||
      (!IsActive(items[i]) && !IsPast(items[i]) && IsCancelled(items[i]))
  }

  lemma {:induction false} TabsCover(items: seq<Booking>)
    requires EachInOneTab(items)
    ensures AllTabs(items) == multiset(items)
  {
    if items != [] {
      var x, rest := items[0], items[1..];
      assert items == [x] + rest;
      TabsCover(rest);
      FilterConsMultiset(x, rest, IsActive);
      FilterConsMultiset(x, rest, IsPast);
      FilterConsMultiset(x, rest, IsCancelled);
      assert multiset(items) == multiset{x} + multiset(rest);
    }
  }

  /** The three tabs split the loaded list: together they hold every booking
      exactly as often as the list does. */
  lemma TabsPartition(items: seq<Booking>)
    ensures AllTabs(items) == multiset(items)
    ensures |ActiveBookings(items)| + |PastBookings(items)| + |CancelledBookings(items)| == |items|
  {
    forall i | 0 <= i < |items|
      ensures (IsActive(items[i]) && !IsPast(items[i]) && !IsCancelled(items[i])) ||
              (!IsActive(items[i]) && IsPast(items[i]) && !IsCancelled(items[i])) ||
              (!IsActive(items[i]) && !IsPast(items[i]) && IsCancelled(items[i]))
    {
      ExactlyOneTab(items[i]);
    }
    TabsCover(items);
    assert |AllTabs(items)| == |ActiveBookings(items)| + |PastBookings(items)| + |CancelledBookings(items)|;
  }

  /** `tab === 0 ? active : tab === 1 ? past : cancelled`. */
  function DisplayList(items: seq<Booking>, tab: int): (d: seq<Booking>)
    ensures tab == 0 ==> forall i :: 0 <= i < |d| ==> IsActive(d[i])
    ensures tab == 1 ==> forall i :: 0 <= i < |d| ==> IsPast(d[i])
    ensures tab != 0 && tab != 1 ==> forall i :: 0 <= i < |d| ==> IsCancelled(d[i])
    ensures forall i :: 0 <= i < |d| ==> d[i] in items
  {
    FilterWithin(items, IsActive);
    FilterWithin(items, IsPast);
    FilterWithin(items, IsCancelled);
    if tab == 0 then ActiveBookings(items) else if tab == 1 then PastBookings(items) else CancelledBookings(items)
  }

  /** A booking is shown on a tab exactly when its status belongs there, and
      the tab keeps the order of the loaded list. */
  lemma DisplayListMembership(items: seq<Booking>, tab: int, b: Booking)
    ensures b in DisplayList(items, tab) <==>
      b in items && (if tab == 0 then IsActive(b) else if tab == 1 then IsPast(b) else IsCancelled(b))
    ensures SubsequenceOf(DisplayList(items, tab), items)
  {
    if tab == 0 {
      FilterMembership(items, IsActive, b);
      FilterIsSubsequence(items, IsActive);
    } else if tab == 1 {
      FilterMembership(items, IsPast, b);
      FilterIsSubsequence(items, IsPast);
    } else {
      FilterMembership(items, IsCancelled, b);
      FilterIsSubsequence(items, IsCancelled);
    }
  }

  /** The enabled state of the three action buttons of an active card. */
  datatype Buttons = Buttons(checkIn: bool, checkOut: bool, cancel: bool)

  /** The action buttons a card shows: only on the Active tab. Check In is
      enabled only for a booked stay, Check Out only for a checked-in one,
      and Cancel for anything but a checked-out one. */
  function ActionButtons(tab: int, b: Booking): (r: Option<Buttons>)
    ensures r.Some? <==> tab == 0
    ensures r.Some? ==> (r.value.checkIn <==> b.status == Booked)
    ensures r.Some? ==> (r.value.checkOut <==> b.status == CheckedIn)
    ensures r.Some? ==> (r.value.cancel <==> b.status != CheckedOut)
  {
    if tab == 0 then Some(Buttons(b.status == Booked, b.status == CheckedIn, b.status != CheckedOut)) else None
  }

  /** The Download Invoice button shows on the Past tab alone. */
  function InvoiceButton(tab: int): (shown: bool)
    ensures shown <==> tab == 1
  {
    tab == 1
  }

  /** On the Active tab Cancel is always enabled, and exactly one of Check In
      and Check Out is. */
  lemma ActiveCardButtons(items: seq<Booking>, i: nat)
    requires i < |DisplayList(items, 0)|
    ensures var bs := ActionButtons(0, DisplayList(items, 0)[i]).value;
      bs.cancel && (bs.checkIn != bs.checkOut)
  {
  }

  /** Every card with a Download Invoice button belongs to a checked-out stay. */
  lemma InvoiceOnlyForCompletedStays(items: seq<Booking>, tab: int, i: nat)
    requires i < |DisplayList(items, tab)| && InvoiceButton(tab)
    ensures DisplayList(items, tab)[i].status == CheckedOut
  {
  }

  /** The statuses the enabled buttons of a card send to `PUT /:id/status`. */
  function Requests(tab: int, b: Booking): (r: seq<Status>)
    ensures tab != 0 ==> r == []
  {
    match ActionButtons(tab, b)
    case None => []
    case Some(bs) =>
      (if bs.checkIn then [CheckedIn] else []) +
      (if bs.checkOut then [CheckedOut] else []) +
      (if bs.cancel then [Cancelled] else [])
  }

  /** The lifecycle the buttons allow: booked to checked-in, checked-in to
      checked-out, and either of them to cancelled. The backend itself accepts
      any change. */
  predicate UiTransition(from: Status, to: Status)
  {
    (from == Booked && to == CheckedIn) || (from == CheckedIn && to == CheckedOut) ||
    ((from == Booked || from == CheckedIn) && to == Cancelled)
  }

  /** Every status a button of a shown card can send is a lifecycle step
      from the card's status, and every lifecycle step has its button. */
  lemma ButtonsFollowLifecycle(items: seq<Booking>, i: nat, to: Status)
    requires i < |DisplayList(items, 0)|
    ensures var b := DisplayList(items, 0)[i];
      to in Requests(0, b) <==> UiTransition(b.status, to)
  {
  }
}
