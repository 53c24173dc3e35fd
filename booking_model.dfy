/** The booking record of models/Booking.js: its fields, the status
    enumeration with its default, the required attributes, and the stay length
    that the dashboard and the invoice derive from the two dates. */
module BookingModel {
  import opened Common

  /** The four values of the `status` ENUM column. */
  datatype Status = Booked | CheckedIn | CheckedOut | Cancelled

  /** The spelling of each status on the wire and in the database. */
  function StatusName(s: Status): string
  {
    match s
    case Booked => "booked"
    case CheckedIn => "checked-in"
    case CheckedOut => "checked-out"
    case Cancelled => "cancelled"
  }

  /** The list the status handler tests a requested value against. */
  const StatusNames: seq<string> := ["booked", "checked-in", "checked-out", "cancelled"]

  /** Reads a status string; only the four enumerated spellings are statuses. */
  function ParseStatus(name: string): (r: Option<Status>)
    ensures r.Some? <==> name in StatusNames
    ensures r.Some? ==> StatusName(r.value) == name
  {
    if name == "booked" then Some(Booked)
    else if name == "checked-in" then Some(CheckedIn)
    else if name == "checked-out" then Some(CheckedOut)
    else if name == "cancelled" then Some(Cancelled)
    else None
  }

  lemma StatusNameRoundTrip(s: Status)
    ensures StatusName(s) in StatusNames
    ensures ParseStatus(StatusName(s)) == Some(s)
  {
  }

  /** A stored booking. Dates are DATEONLY columns (whole days, no time of
      day); every booking names exactly one room through `roomId`, and nothing
      stops several bookings from naming the same room. */
  datatype Booking = Booking(
    id: nat,
    customerName: string,
    customerEmail: string,
    roomId: nat,
    checkIn: Day,
    checkOut: Day,
    status: Status)

  /** The attributes handed to `Booking.create`; `None` is a null or missing
      attribute. */
  datatype BookingFields = BookingFields(
    customerName: Option<string>,
    customerEmail: Option<string>,
    roomId: nat,
    checkIn: Option<Day>,
    checkOut: Option<Day>,
    status: Option<Status>)

  /** The row the ORM stores for `fields` under primary key `id`, or `None`
      when a `allowNull: false` attribute is missing (a notNull violation). */
  function Materialize(id: nat, fields: BookingFields): (r: Option<Booking>)
    ensures r.Some? <==>
      fields.customerName.Some? && fields.customerEmail.Some? &&
      fields.checkIn.Some? && fields.checkOut.Some?
    ensures r.Some? ==>
      r.value.id == id && r.value.roomId == fields.roomId &&
      r.value.customerName == fields.customerName.value &&
      r.value.customerEmail == fields.customerEmail.value &&
      r.value.checkIn == fields.checkIn.value && r.value.checkOut == fields.checkOut.value
    ensures r.Some? && fields.status.None? ==> r.value.status == Booked
    ensures r.Some? && fields.status.Some? ==> r.value.status == fields.status.value
  {
    match (fields.customerName, fields.customerEmail, fields.checkIn, fields.checkOut)
    case (Some(name), Some(email), Some(i), Some(o)) =>
      Some(Booking(id, name, email, fields.roomId, i, o,
                   match fields.status case Some(s) => s case None => Booked))
    case _ => None
  }

  /** Milliseconds in a day: the divisor of `(end - start) / (1000 * 60 * 60 * 24)`. */
  const MsPerDay: int := 1000 * 60 * 60 * 24

  /** `Math.ceil(a / b)` for a positive divisor. */
  function CeilDiv(a: int, b: int): (q: int)
    requires b > 0
    ensures q * b >= a && (q - 1) * b < a
  {
    -((-a) / b)
  }

  /** Nights stayed, as both the dashboard and the invoice compute it: the
      millisecond difference of the two dates divided by a day, rounded up.
      For date-only values the difference is a whole number of days. */
  function Nights(b: Booking): (n: int)
    ensures n == b.checkOut - b.checkIn
  {
    var d := b.checkOut - b.checkIn;
    WholeDays(d);
    CeilDiv(d * MsPerDay, MsPerDay)
  }

  lemma WholeDays(d: int)
    ensures CeilDiv(d * MsPerDay, MsPerDay) == d
  {
    var q := CeilDiv(d * MsPerDay, MsPerDay);
    assert q * MsPerDay >= d * MsPerDay && (q - 1) * MsPerDay < d * MsPerDay;
    assert (q - d) * MsPerDay >= 0 && (q - d - 1) * MsPerDay < 0;
  }
}
