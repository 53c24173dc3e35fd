# Hotel management core, modelled in Dafny

This project models the rules of a small hotel management application. It has an Express/Sequelize back end and a React front end. The database is replaced by in-memory tables: sequences of rows plus the next auto-increment key.

- Availability and creation of bookings, and the booking status update (`BookingRoutes`).
- The booking record with its status enumeration, required attributes and stay length (`BookingModel`).
- The dashboard statistics and the revenue sum (`AdminRoutes`).
- The figures of an invoice (`InvoiceRoutes`).
- Listing, adding, updating and deleting rooms (`RoomRoutes`).
- The room seeder, which generates 112 rooms (`SeedRooms`).
- The authentication middleware's 401/403/pass decision (`AuthMiddleware`).
- Sign-up and login (`AuthRoutes`).
- The three front-end components:
  - the booking page: date validation, the availability search, grouping by type, the booking guards (`BookingsPage`);
  - the booking list: status tabs and buttons (`BookingsList`);
  - the room page: search filter and form reset (`RoomsPage`).

`Common` holds the shared values:

- `Option`;
- `Reply`, an HTTP status plus a body;
- `Step`, a reply plus the new table;
- an order-preserving `Filter` with its lemmas;
- the key discipline of the tables: keys strictly increase and stay below the next key.

Each table is a `class` holding `rows` and `nextId`. Its handler methods are tied to pure `...Step` functions. Those functions carry the contracts, and the lemmas are proved about them. The booking page (`BookingsPage.Page`) and the room page (`RoomsPage.Page`) are classes as well; each records the requests it has sent in an `outbox`. The booking list is not a class: `BookingsList.Requests` gives, as a value, the statuses that the enabled buttons of a card send to `PUT /:id/status`.

The model follows the code where the code differs from the design intent:

- The overlap test uses `BETWEEN`, which includes both ends. A stay that ends on the requested check-in day therefore blocks it (`BookingRoutes.BackToBackBlocks`).
- Creation applies the overlap test to bookings in every status. The availability probe applies it only to booked and checked-in bookings. A cancelled stay therefore leaves the room "available" to the probe, while creation still refuses it (`BookingRoutes.ProbeAndCreateDisagree`, `BookingRoutes.CancelledStayStillRefused`).
- The back end accepts any status change from any status (`BookingRoutes.AnyStatusFromAnyStatus`). Only the list page's buttons follow a lifecycle (`BookingsList.ButtonsFollowLifecycle`).

The helpers that stay behind the code are opaque function parameters:

- bcrypt hashing and comparison;
- JWT signing and verification;
- the server's answers to the page's requests.

"Today" is a parameter.

## Model

| member | source | states |
|---|---|---|
| BookingModel.ParseStatus | hotel-management-main/backend/src/models/Booking.js:26-28 | a string is a status exactly when it is one of the four enumerated spellings, and parsing gives back the status of that spelling |
| BookingModel.StatusNameRoundTrip | hotel-management-main/backend/src/models/Booking.js:26-28 | every status is spelled as one of the four enumerated names and parses back to itself |
| BookingModel.Materialize | hotel-management-main/backend/src/models/Booking.js:10-36 | a row is stored exactly when name, email, check-in and check-out are all present; it keeps the given fields and room reference; a missing status defaults to booked |
| BookingModel.CeilDiv | hotel-management-main/backend/src/routes/invoiceRoutes.js:67-69 | `Math.ceil(a / b)` for a positive divisor: the least q with q*b >= a |
| BookingModel.Nights | hotel-management-main/backend/src/routes/invoiceRoutes.js:67-69 | for date-only values the rounded-up millisecond difference is exactly the day difference |
| BookingModel.WholeDays | hotel-management-main/backend/src/routes/adminRoutes.js:41-43 | dividing a whole number of days' milliseconds by a day and rounding up gives that number of days |
| AuthMiddleware.Split | hotel-management-main/backend/src/middleware/authMiddleware.js:14 | `split` yields at least one field, and no field contains the separator |
| AuthMiddleware.JoinSplit | hotel-management-main/backend/src/middleware/authMiddleware.js:14 | joining the split fields with the separator gives back the header |
| AuthMiddleware.SplitAfterWord | hotel-management-main/backend/src/middleware/authMiddleware.js:14 | a separator-free word followed by the separator splits off as the first field |
| AuthMiddleware.SplitWord | hotel-management-main/backend/src/middleware/authMiddleware.js:14 | a separator-free string is a single field |
| AuthMiddleware.BearerToken | hotel-management-main/backend/src/middleware/authMiddleware.js:14 | the token extracted from `Bearer <t>` is t |
| AuthMiddleware.SplitFields | hotel-management-main/backend/src/middleware/authMiddleware.js:14 | a header splits into two or more fields exactly when it contains the separator |
| AuthMiddleware.Token | hotel-management-main/backend/src/middleware/authMiddleware.js:14 | a token is extracted exactly when the header contains a space, and it contains none |
| AuthMiddleware.Gate | hotel-management-main/backend/src/middleware/authMiddleware.js:6-27 | no header or an empty one is NoToken; a missing or unverifiable token is InvalidToken; Forbidden only for a verified token whose role a non-empty role list lacks; Pass carries the verified payload |
| AuthMiddleware.EmptyRolesPassVerified | hotel-management-main/backend/src/middleware/authMiddleware.js:6-23 | with the default empty role list every verified token passes with its payload |
| AuthMiddleware.VerifiedTokenVerdict | hotel-management-main/backend/src/middleware/authMiddleware.js:15-23 | a verified token passes exactly when the role list is empty or names its role, and is refused with 403 otherwise |
| AuthMiddleware.Deny | hotel-management-main/backend/src/middleware/authMiddleware.js:11-27 | a refusal is answered 401 or 403, and 403 exactly for the role refusal; the texts are "No token provided", "Invalid token" and "Access denied" respectively |
| BookingRoutes.ThreeClauseOverlap | hotel-management-main/backend/src/routes/bookingRoutes.js:37-41 | definition: the booking's check-in or check-out lies in the requested closed range, or the booking covers it |
| BookingRoutes.ProbeMatch | hotel-management-main/backend/src/routes/bookingRoutes.js:33-43 | definition: same room, status booked or checked-in, and the three clauses |
| BookingRoutes.CreateMatch | hotel-management-main/backend/src/routes/bookingRoutes.js:64-80 | definition: same room and the three clauses, whatever the status |
| BookingRoutes.IntersectionImpliesThreeClause | hotel-management-main/backend/src/routes/bookingRoutes.js:33-43 | whenever the closed intervals meet, the three-clause test fires, whatever order either interval's dates are in |
| BookingRoutes.ThreeClauseIsClosedIntersection | hotel-management-main/backend/src/routes/bookingRoutes.js:37-41 | for well-formed intervals the three clauses hold exactly when the closed intervals intersect |
| BookingRoutes.ReversedBookingBlocks | hotel-management-main/backend/src/routes/bookingRoutes.js:37-41 | a stored booking with reversed dates blocks a stay it does not intersect, so the equivalence needs well-formedness |
| BookingRoutes.BackToBackBlocks | hotel-management-main/backend/src/routes/bookingRoutes.js:37-41 | a stay ending on the requested check-in day blocks the request |
| BookingRoutes.Probe | hotel-management-main/backend/src/routes/bookingRoutes.js:15-56 | a missing room id or date is 400 first, an unparseable date is 400 next; otherwise 200, available exactly when no booked or checked-in booking of the room meets the three clauses; the table is not an output |
| BookingRoutes.ProbeIgnoresFinishedBookings | hotel-management-main/backend/src/routes/bookingRoutes.js:33-36 | cancelled and checked-out bookings never make a room unavailable |
| BookingRoutes.ProbeExample | hotel-management-main/backend/src/routes/bookingRoutes.js:33-51 | a booked stay 10-12 blocks 11-13 and 12-14 but not 13-15, and not another room |
| BookingRoutes.OccupyingStaysDisjoint | hotel-management-main/backend/src/routes/bookingRoutes.js:64-96 | in a table built by the create handler, occupying stays of the same room never overlap as half-open intervals |
| BookingRoutes.CreateStep | hotel-management-main/backend/src/routes/bookingRoutes.js:59-100 | an auth refusal or an overlap with any booking of the room, whatever its status, changes nothing; success appends exactly one booked row with the supplied fields under the next key; the table invariant is kept |
| BookingRoutes.CreatePreservesInvariant | hotel-management-main/backend/src/routes/bookingRoutes.js:64-94 | appending a booking that passes the overlap test keeps ids increasing and no two bookings of a room sharing a day |
| BookingRoutes.ProbeRefusalImpliesCreateRefusal | hotel-management-main/backend/src/routes/bookingRoutes.js:33-84 | every stay the probe reports unavailable is refused by creation |
| BookingRoutes.ProbeAndCreateDisagree | hotel-management-main/backend/src/routes/bookingRoutes.js:33-84 | when only cancelled or checked-out bookings meet the clauses, the probe reports available and creation refuses |
| BookingRoutes.CancelledStayStillRefused | hotel-management-main/backend/src/routes/bookingRoutes.js:33-84 | a concrete cancelled stay that the probe ignores and creation refuses |
| BookingRoutes.StatusStep | hotel-management-main/backend/src/routes/bookingRoutes.js:115-136 | an unknown id is 404 before the value is examined; a value outside the enumeration is 400; both change nothing; success replaces that booking's status alone and leaves every other row as it was |
| BookingRoutes.AnyStatusFromAnyStatus | hotel-management-main/backend/src/routes/bookingRoutes.js:125-130 | every one of the four statuses can be set on every existing booking, whatever its current status |
| BookingRoutes.CheckedOutCanBeCheckedIn | hotel-management-main/backend/src/routes/bookingRoutes.js:125-130 | a checked-out booking can be set back to checked-in |
| BookingRoutes.BookingTable.Check | hotel-management-main/backend/src/routes/bookingRoutes.js:15-56 | the probe reads the table and modifies nothing |
| BookingRoutes.BookingTable.Create | hotel-management-main/backend/src/routes/bookingRoutes.js:59-100 | the table's new state and reply are those of CreateStep behind the admin/staff gate |
| BookingRoutes.JoinRooms | hotel-management-main/backend/src/routes/bookingRoutes.js:105-107 | every booking in table order, each with the room of its room id, or none exactly when no room has that id |
| BookingRoutes.DeletedRoomListedWithout | hotel-management-main/backend/src/routes/bookingRoutes.js:105-107 | a booking whose room is gone is still listed, with no room |
| BookingRoutes.BookingTable.List | hotel-management-main/backend/src/routes/bookingRoutes.js:103-112 | administrators receive every booking joined with its room; others the middleware's refusal |
| BookingRoutes.BookingTable.UpdateStatus | hotel-management-main/backend/src/routes/bookingRoutes.js:115-136 | the table's new state and reply are those of StatusStep behind the admin/staff gate |
| AdminRoutes.TariffOrZero | hotel-management-main/backend/src/routes/adminRoutes.js:44 | the joined room's tariff, falling back to 0, is exactly the tariff when the room exists and 0 without one |
| AdminRoutes.Contribution | hotel-management-main/backend/src/routes/adminRoutes.js:41-44 | one booking adds its day difference times that tariff |
| AdminRoutes.Revenue | hotel-management-main/backend/src/routes/adminRoutes.js:30-45 | definition: the contributions of the checked-out bookings, summed over the list |
| AdminRoutes.RevenueOfConcat | hotel-management-main/backend/src/routes/adminRoutes.js:40-45 | revenue adds up over concatenated booking lists |
| AdminRoutes.RevenueAddOne | hotel-management-main/backend/src/routes/adminRoutes.js:40-45 | one more checked-out booking raises the revenue by exactly its nights times its room's tariff (0 without room); another status adds nothing |
| AdminRoutes.RevenueWithoutCompletedStays | hotel-management-main/backend/src/routes/adminRoutes.js:30-39 | with no checked-out booking the revenue is 0 |
| AdminRoutes.MissingRoomContributesNothing | hotel-management-main/backend/src/routes/adminRoutes.js:44 | a booking whose room is gone adds nothing to the revenue |
| AdminRoutes.RevenueOfCompleted | hotel-management-main/backend/src/routes/adminRoutes.js:33-39 | restricting the bookings to checked-out ones keeps the revenue |
| AdminRoutes.AccumulateRevenue | hotel-management-main/backend/src/routes/adminRoutes.js:40-45 | the `forEach` accumulation over the checked-out bookings equals their revenue |
| AdminRoutes.Stats | hotel-management-main/backend/src/routes/adminRoutes.js:13-46 | behind the admin/staff gate: total rooms, checked-in count, available + occupied = total, bookings of every status, revenue of checked-out stays; a refusal otherwise |
| InvoiceRoutes.Invoice | hotel-management-main/backend/src/routes/invoiceRoutes.js:15-70 | an unknown id is 404; for any existing booking with a room, the figures carry the room's number, type and tariff, nights is the day difference and total is nights times tariff, whatever the status |
| InvoiceRoutes.InvoiceMatchesRevenue | hotel-management-main/backend/src/routes/invoiceRoutes.js:67-70 | for a checked-out booking with a room, the invoice total is exactly that booking's contribution to the dashboard revenue |
| InvoiceRoutes.InvoiceWithoutRoomFails | hotel-management-main/backend/src/routes/invoiceRoutes.js:67-70 | for a booking whose room is gone the invoice fails with 500, whereas the dashboard counts it as 0 |
| RoomModel.RoomById | hotel-management-main/backend/src/models/Booking.js:34-36 | the joined room has the booking's room id, and there is none exactly when no room has that id |
| RoomRoutes.Merge | hotel-management-main/backend/src/routes/roomRoutes.js:43-45 | each attribute takes the supplied value when it is truthy and otherwise keeps the old one; the id never changes |
| RoomRoutes.FalsyValuesKeepRoom | hotel-management-main/backend/src/routes/roomRoutes.js:43-45 | an empty number, an absent or empty type and a tariff of 0 leave the room unchanged |
| RoomRoutes.MergeIdempotent | hotel-management-main/backend/src/routes/roomRoutes.js:43-45 | applying the same update twice is applying it once |
| RoomRoutes.AddStep | hotel-management-main/backend/src/routes/roomRoutes.js:21-31 | behind the admin gate, exactly one room with the given number, type and tariff is appended under the next key; a refusal or missing attribute changes nothing |
| RoomRoutes.UpdateStep | hotel-management-main/backend/src/routes/roomRoutes.js:34-52 | an unknown id is 404 and changes nothing; otherwise only the addressed room changes, by the merge |
| RoomRoutes.DeleteStep | hotel-management-main/backend/src/routes/roomRoutes.js:55-65 | an unknown id is 404 and changes nothing; otherwise exactly the addressed room leaves, the others keep their order, and no row with that id remains |
| RoomRoutes.DeletePreserves | hotel-management-main/backend/src/routes/roomRoutes.js:57-60 | removing one row keeps the key order and removes exactly that row from the multiset of rows |
| RoomRoutes.AddRequiresAdmin | hotel-management-main/backend/src/routes/roomRoutes.js:21 | a successful add carries a verified admin token |
| RoomRoutes.RoomTable.List | hotel-management-main/backend/src/routes/roomRoutes.js:11-18 | the listing is every room of the table |
| RoomRoutes.RoomTable.Add | hotel-management-main/backend/src/routes/roomRoutes.js:21-31 | the new state and reply are those of AddStep |
| RoomRoutes.RoomTable.Update | hotel-management-main/backend/src/routes/roomRoutes.js:34-52 | the new state and reply are those of UpdateStep |
| RoomRoutes.RoomTable.Delete | hotel-management-main/backend/src/routes/roomRoutes.js:55-65 | the new state and reply are those of DeleteStep |
| RoomRoutes.RoomTable.BulkCreate | hotel-management-main/backend/src/seed/seedRooms.js:46 | the given rooms are appended in order under consecutive keys |
| SeedRooms.EveryTypePriced | hotel-management-main/backend/src/seed/seedRooms.js:3-20 | every room type has a base tariff |
| SeedRooms.RoomsOnFloor | hotel-management-main/backend/src/seed/seedRooms.js:34-35 | a floor has 8 rooms when even and 7 when odd |
| SeedRooms.Decimal | hotel-management-main/backend/src/seed/seedRooms.js:37 | decimal notation is a non-empty digit string, of one digit exactly below 10 |
| SeedRooms.DecimalRoundTrip | hotel-management-main/backend/src/seed/seedRooms.js:37 | reading the decimal notation gives back the number |
| SeedRooms.Pad2 | hotel-management-main/backend/src/seed/seedRooms.js:37 | `padStart(2, "0")` gives two digits below 100 |
| SeedRooms.Pad2RoundTrip | hotel-management-main/backend/src/seed/seedRooms.js:37 | reading the padded index gives back the index |
| SeedRooms.Label | hotel-management-main/backend/src/seed/seedRooms.js:37 | a room number is all digits |
| SeedRooms.LabelExamples | hotel-management-main/backend/src/seed/seedRooms.js:37 | floor 3 room 5 is "305" and floor 12 room 8 is "1208" |
| SeedRooms.LabelInjective | hotel-management-main/backend/src/seed/seedRooms.js:37 | distinct (floor, index) pairs with index below 100 get distinct numbers |
| SeedRooms.FloorSlots | hotel-management-main/backend/src/seed/seedRooms.js:34-36 | the rooms of a floor in index order 1..count |
| SeedRooms.SlotCount | hotel-management-main/backend/src/seed/seedRooms.js:34-35 | floors 1..n hold 7n + n/2 rooms |
| SeedRooms.SlotsOrdered | hotel-management-main/backend/src/seed/seedRooms.js:34-42 | the generation order is floor by floor, then by index, with every slot in range |
| SeedRooms.RoomTotal | hotel-management-main/backend/src/seed/seedRooms.js:34-44 | fifteen floors give 112 rooms |
| SeedRooms.Entry | hotel-management-main/backend/src/seed/seedRooms.js:37-41 | the k-th room gets type number k mod 9, that type's base tariff, and its slot's number |
| SeedRooms.SlotsStep | hotel-management-main/backend/src/seed/seedRooms.js:34-36 | the slots of floor n follow those of the floors below in index order |
| SeedRooms.PlanFloor | hotel-management-main/backend/src/seed/seedRooms.js:35-43 | the inner loop appends exactly the entries of the floor's slots |
| SeedRooms.SeedPlan | hotel-management-main/backend/src/seed/seedRooms.js:22-44 | nothing when any room exists; otherwise one entry per slot of floors 1..15, in order |
| SeedRooms.SeededNumbersDistinct | hotel-management-main/backend/src/seed/seedRooms.js:34-44 | all generated room numbers are distinct |
| SeedRooms.Seed | hotel-management-main/backend/src/seed/seedRooms.js:22-50 | a non-empty table is left alone; an empty one receives 112 rooms whose number, type (k mod 9) and tariff follow the generation |
| AuthRoutes.SameEmail | hotel-management-main/backend/src/routes/authRoutes.js:16-20 | two emails are the same when they agree once letters are folded to lower case, as the column's default case-insensitive collation compares them |
| AuthRoutes.FindByEmail | hotel-management-main/backend/src/routes/authRoutes.js:37-40 | the found user's email matches up to case, and none is found exactly when no user's email matches |
| AuthRoutes.Lower | hotel-management-main/backend/src/routes/authRoutes.js:50 | lowercasing keeps the length, maps each letter A-Z to a-z and leaves every other character |
| AuthRoutes.LowerOfLower | hotel-management-main/backend/src/routes/authRoutes.js:50 | a lowercase string is left unchanged |
| AuthRoutes.NormalizeRole | hotel-management-main/backend/src/routes/authRoutes.js:50 | an absent or empty role becomes "staff", any other is lowercased; the result is never empty |
| AuthRoutes.RoleCaseIgnored | hotel-management-main/backend/src/routes/authRoutes.js:50 | "Admin" and "ADMIN" are both stored as "admin" |
| AuthRoutes.RegisterStep | hotel-management-main/backend/src/routes/authRoutes.js:32-58 | an email taken in any capitalisation is 400 and changes nothing; success appends one user with the hash of the password and the normalised role; emails stay unique up to case |
| AuthRoutes.Login | hotel-management-main/backend/src/routes/authRoutes.js:61-89 | an email matching no user up to case is 404; a missing email, or a missing password for a known user, is 500; a rejected password is 401 "Invalid password"; success, exactly when the password is accepted, is the signed token of the matching user's id and role |
| AuthRoutes.RegisterTwiceRefused | hotel-management-main/backend/src/routes/authRoutes.js:37-40 | registering an email a second time, in any capitalisation, is refused and changes nothing |
| AuthRoutes.RegisteredUserLogsIn | hotel-management-main/backend/src/routes/authRoutes.js:43-84 | a user just registered logs in under any capitalisation of the email with a password matching the hash, and gets a token for the new id and role |
| AuthRoutes.CaseVariants | hotel-management-main/backend/src/routes/authRoutes.js:37 | emails equal letter by letter up to case are the same email |
| AuthRoutes.CaseVariantExample | hotel-management-main/backend/src/routes/authRoutes.js:37 | "Alice@x.com" and "ALICE@x.com" name one user |
| AuthRoutes.LoginTokenPassesGate | hotel-management-main/backend/src/routes/authRoutes.js:78-84 | a login token sent as a bearer header passes the middleware for every role list admitting the user's role |
| AuthRoutes.UserTable.Register | hotel-management-main/backend/src/routes/authRoutes.js:32-58 | the new state and reply are those of RegisterStep |
| AuthRoutes.UserTable.LogIn | hotel-management-main/backend/src/routes/authRoutes.js:61-89 | login reads the table, modifies nothing, and answers as Login |
| BookingsPage.ValidateDates | hotel-management-main/frontend/src/components/Bookings.js:68-82 | a check-in before today gets the past message (checked first); else a check-out not after check-in gets the order message; otherwise no error |
| BookingsPage.PastBeforeOrder | hotel-management-main/frontend/src/components/Bookings.js:69-77 | dates wrong in both ways get the past message |
| BookingsPage.AcceptedDatesMeetClosedIntersection | hotel-management-main/frontend/src/components/Bookings.js:68-82 | for dates the page accepts, the back end's overlap test is closed-interval intersection |
| BookingsPage.OfType | hotel-management-main/frontend/src/components/Bookings.js:109-111 | the rooms of the type, exactly, as an order-preserving subsequence of the room list |
| BookingsPage.Candidates | hotel-management-main/frontend/src/components/Bookings.js:109-111 | all rooms when no type is chosen, else exactly the rooms of that type |
| BookingsPage.CollectAvailable | hotel-management-main/frontend/src/components/Bookings.js:119-143 | one check per candidate in order; the list keeps the rooms whose check said available |
| BookingsPage.SearchOutcome | hotel-management-main/frontend/src/components/Bookings.js:85-155 | a missing date or a date error sends nothing and empties the list; otherwise rooms are fetched, then every candidate checked; the error line follows the outcome |
| BookingsPage.RunSearch | hotel-management-main/frontend/src/components/Bookings.js:85-155 | the body of `checkAvailability` computes SearchOutcome |
| BookingsPage.AvailableRooms | hotel-management-main/frontend/src/components/Bookings.js:119-143 | a room is listed exactly when it is a candidate whose check answered available; failed checks omit the room; candidate order is kept |
| BookingsPage.Backend | hotel-management-main/backend/src/routes/bookingRoutes.js:15-56 | definition: the answer the page reads from the availability route for a table, none for a non-200 reply |
| BookingsPage.BackendAvailableRooms | hotel-management-main/frontend/src/components/Bookings.js:119-143 | against the booking routes a candidate is listed exactly when no booked or checked-in stay of it meets the three clauses |
| BookingsPage.FindGroup | hotel-management-main/frontend/src/components/Bookings.js:325-330 | the found group has the type, and none exactly when no group has it |
| BookingsPage.AddToGroup | hotel-management-main/frontend/src/components/Bookings.js:325-330 | definition: one step of the reduce, appending the room to its type's group or opening a new group at the end |
| BookingsPage.GroupByType | hotel-management-main/frontend/src/components/Bookings.js:325-330 | definition: the reduce over the available rooms, its properties stated by the three lemmas below |
| BookingsPage.GroupByTypeDistinct | hotel-management-main/frontend/src/components/Bookings.js:325-330 | no type heads two groups |
| BookingsPage.GroupByTypeCovers | hotel-management-main/frontend/src/components/Bookings.js:325-330 | every available room's type has a group |
| BookingsPage.GroupByTypeExact | hotel-management-main/frontend/src/components/Bookings.js:325-330 | each group holds exactly the rooms of its type, in list order |
| BookingsPage.CreateBookingAction | hotel-management-main/frontend/src/components/Bookings.js:164-190 | the guards in order (room, name and phone, both dates, validateDates), each refusing without a request; the request carries room, name, email and dates |
| BookingsPage.PhoneAndIdNotSent | hotel-management-main/frontend/src/components/Bookings.js:184-190 | phone and ID number affect only the guard, never the request |
| BookingsPage.SentRequestCreatedOrOverlap | hotel-management-main/frontend/src/components/Bookings.js:164-202 | a request the page sends is either stored as a booked stay or refused for an overlap |
| BookingsPage.Page.CheckAvailability | hotel-management-main/frontend/src/components/Bookings.js:85-155 | the page's list, error line, outbox and failure message become those of the search; the form is untouched |
| BookingsPage.Page.CreateBooking | hotel-management-main/frontend/src/components/Bookings.js:164-202 | a refused guard shows its message and sends nothing; a sent request that succeeds closes the dialog and resets the guest form, one that fails shows the server's message or the default |
| BookingsList.ActiveBookings | hotel-management-main/frontend/src/components/BookingsList.js:50 | definition: the booked and checked-in bookings, in list order |
| BookingsList.PastBookings | hotel-management-main/frontend/src/components/BookingsList.js:51 | definition: the checked-out bookings, in list order |
| BookingsList.CancelledBookings | hotel-management-main/frontend/src/components/BookingsList.js:52 | definition: the cancelled bookings, in list order |
| BookingsList.ExactlyOneTab | hotel-management-main/frontend/src/components/BookingsList.js:50-52 | every status belongs to exactly one tab |
| BookingsList.TabsCover | hotel-management-main/frontend/src/components/BookingsList.js:50-52 | when each booking has one tab, the tabs together hold the list's bookings with their multiplicities |
| BookingsList.TabsPartition | hotel-management-main/frontend/src/components/BookingsList.js:50-52 | the three tabs partition the loaded list as a multiset, and their sizes add up to its size |
| BookingsList.DisplayList | hotel-management-main/frontend/src/components/BookingsList.js:55-56 | tab 0 shows active, tab 1 past, any other tab cancelled bookings, all from the list |
| BookingsList.DisplayListMembership | hotel-management-main/frontend/src/components/BookingsList.js:50-56 | a booking is shown exactly when its status belongs to the tab, and the tab keeps the list's order |
| BookingsList.ActionButtons | hotel-management-main/frontend/src/components/BookingsList.js:173-200 | buttons only on the active tab; Check In exactly for booked, Check Out exactly for checked-in, Cancel for all but checked-out |
| BookingsList.InvoiceButton | hotel-management-main/frontend/src/components/BookingsList.js:203-215 | the invoice button exactly on the past tab |
| BookingsList.ActiveCardButtons | hotel-management-main/frontend/src/components/BookingsList.js:173-200 | on an active card Cancel is enabled and exactly one of Check In and Check Out is |
| BookingsList.InvoiceOnlyForCompletedStays | hotel-management-main/frontend/src/components/BookingsList.js:203-215 | every card offering an invoice is a checked-out stay |
| BookingsList.Requests | hotel-management-main/frontend/src/components/BookingsList.js:26-42 | cards outside the active tab send no status request |
| BookingsList.ButtonsFollowLifecycle | hotel-management-main/frontend/src/components/BookingsList.js:173-200 | a shown card can request exactly the lifecycle steps booked to checked-in, checked-in to checked-out, either to cancelled |
| RoomsPage.ContainsEmpty | hotel-management-main/frontend/src/components/Rooms.js:353 | the empty search text occurs in every room number |
| RoomsPage.ContainsPrefix | hotel-management-main/frontend/src/components/Rooms.js:353 | a text occurs in every number it begins |
| RoomsPage.Shown | hotel-management-main/frontend/src/components/Rooms.js:351-355 | definition: the number contains the search text, and the type equals the filter when one is set |
| RoomsPage.RoomListing | hotel-management-main/frontend/src/components/Rooms.js:351-356 | every listed room is loaded, contains the search text and matches the type filter when one is set |
| RoomsPage.ListingMembership | hotel-management-main/frontend/src/components/Rooms.js:351-356 | a room is listed exactly when it is loaded, its number contains the text and the type filter is unset or names its type; the order is kept |
| RoomsPage.EverythingListed | hotel-management-main/frontend/src/components/Rooms.js:351-356 | with no search and no type filter every room is listed |
| RoomsPage.SearchExample | hotel-management-main/frontend/src/components/Rooms.js:351-356 | searching "10" lists 101 and hides 205 |
| RoomsPage.Page.Listing | hotel-management-main/frontend/src/components/Rooms.js:351-356 | the page renders RoomListing of its state |
| RoomsPage.Page.AddRoom | hotel-management-main/frontend/src/components/Rooms.js:82-95 | the form is posted as it is; success resets it to empty fields and reloads the list; failure keeps it and alerts |

## Left out

- Express routing, the Sequelize/MySQL connection and the HTTP client: the tables are in-memory sequences, and a request is a method call.
- The unauthenticated `POST /api/rooms` of `server.js`: it is registered after the rooms router, which answers that request first.
- The second `/stats` handler of `adminRoutes.js` (it uses an undefined `sequelize` and is shadowed by the first), and the raw SQL counts of `statsRoutes.js`.
- The PDF drawing and streaming of the invoice and the Excel export of bookings: library-rendered output.
- bcrypt and JWT: opaque function parameters. The bcrypt salt's randomness is fixed by the caller. Token expiry is part of the opaque verifier. The secret's selection from the environment is left out; so is its consequence that login signs with `JWT_SECRET || "mysecret"` (authRoutes.js:80) while the middleware verifies with `JWT_SECRET` alone (authMiddleware.js:15), so with the variable unset every issued token is refused with 401. AuthRoutes.LoginTokenPassesGate assumes verification inverts signing and does not capture that case.
- AuthRoutes.RegisterStep: states that the stored hash is `hash(password)`. It cannot state "never the plaintext", because the hash is opaque.
- JavaScript `Date` parsing and time zones: dates are whole day numbers, "today" is a parameter, and an unparseable date is a distinct input value.
- The read-then-write race in booking creation: the model is sequential and makes no atomicity claim for the check-and-insert.
- The `FLOAT` tariff column: tariffs are integers, as every written tariff is.
- Database-level enum and foreign-key enforcement, the User role enum:
  - the model's status type has only the four values;
  - a booking's room id is unconstrained;
  - RoomRoutes.DeleteStep: bookings keep the id of a deleted room. In the source, `roomId` is added by the association (Booking.js:34-36) and allows null, so `Booking.belongsTo(Room)` under `sync` gives the column `ON DELETE SET NULL`, so deleting a room sets its bookings' room id to null. The difference shows only for a request naming the deleted room's id: there `/check` answers available in the source, while BookingRoutes.Probe may answer unavailable. `GET /bookings` also lists `roomId: null` where BookingRoutes.JoinRooms keeps the old id with no room;
  - a signed-up role outside the enum is stored as normalised.
- Undefined dates or room id in the booking creation body: the create request carries the dates and room id as given values.
- AuthRoutes.Lower: models only the ASCII part of `toLowerCase`.
- AuthRoutes.FindByEmail: emails match up to ASCII case; the rest of the server's default collation (accent-insensitivity, the folding of non-ASCII letters) is not modelled.
- AuthRoutes.Login: finds users as FindByEmail does, so it too matches up to ASCII case only.
- BookingsPage.GroupByType: the order the groups appear in is modelled as first-appearance order. The `Object.entries` order coincides with this for non-numeric type names.
- The initial database state: tables start empty or are assumed to satisfy the table invariant.
- Loading flags, spinners, confirmation dialogs and `alert` texts beyond the flags modelled.
- The list refresh after a successful action: it is recorded only as a `FetchRooms` request in the outbox.
- BookingsPage.Page.CreateBooking: keeps the available list and the error line unchanged, and records only the `PostBooking` request. The re-run of `checkAvailability` after a created booking (Bookings.js:198) is not modelled.
- BookingsList.Requests: carries only the statuses sent to `PUT /:id/status`, without the booking id. The `GET /bookings` reload on mount (BookingsList.js:45-47) and the one after each successful status update (BookingsList.js:28-29) are not modelled.
- React's batching of state updates.
- The dashboard's occupancy percentage: floating point.
- The rest of the user interface.
