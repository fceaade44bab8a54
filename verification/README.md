# Car-rental booking core, modelled in Dafny

This project models the booking lifecycle of a Django/DRF car-rental
backend:

- **Creation.** A customer books a vehicle for an inclusive range of days.
  The booking is priced at the vehicle's daily rate times the day count and
  stored as `pending`.
- **Status changes.** An administrator sets a booking's status to
  `confirmed`, `cancelled` or `completed`.
- **Availability.** A `post_save` receiver recomputes the booked vehicle's
  `Available`/`Booked` status after every booking save.
- **Other endpoints.** The vehicle endpoints, the damage-report endpoints,
  the `IsAdminRole` permission class and account registration are modelled
  too.

The database is one immutable value, `Db.Store`:

- It holds one map per table, a counter for fresh primary keys and a clock
  tick for `created_at`.
- `Store.Valid()` states the integrity the database keeps between requests:
  - every id was issued by the counter;
  - every foreign key points at a row;
  - the unique and one-to-one columns hold distinct values;
  - bookings were created in the past.
- `on_delete=CASCADE` is modelled by `Store.DeleteVehicle` and
  `Store.DeleteUser`.

Every view is a function or method from (store, caller, request) to a
`Reply`:

- The `Reply` carries the HTTP status, a body reduced to the ids it
  serializes, and the store as the request leaves it.
- The caller is `Anonymous` or an authenticated user id.
- Token authentication is assumed to have resolved the id already.

Modules follow the program's structure:

| module | models |
|---|---|
| `Base` | options, day and money units, the HTTP constants, `str.lower()` on ASCII, a `filter` query |
| `Accounts` | `UserProfile`, `Admin`, `getattr` on a user |
| `Fleet` | `Vehicle`, `VehicleImage`, the column checks a model serializer derives |
| `Bookings` | `Booking`, `DamageReport`, the status choices |
| `Db` | the store, its integrity and its inserts and cascades |
| `Http` | replies |
| `Permissions` | booking/permissions.py |
| `Signals` | booking/signals.py |
| `BookingSerializer` | booking/serializers.py |
| `BookingViews` | booking/views.py |
| `VehicleViews` | vehicles/views.py |
| `Registration` | `RegisterSerializer` in rental_app/serializers.py and the registration endpoint that drives it |
| `Scenarios` | request sequences on concrete and generic stores |

The model follows the code, including where the code departs from its
evident intent:

- **`IsAdminRole` never grants.** The class reads the attribute `role`,
  which users do not have (the field is `roles`), so no caller is ever
  admitted to the admin damage-report list. For the same reason the
  damage-report serializer treats administrators as ordinary users.
- **A vehicle without a minimum period cannot be booked.** When `min_days`
  is null, comparing the day count with it raises, and the model answers
  500 for that case.
- **Refused vehicle writes by a signed-in non-administrator answer 200.**
  Such a caller gets an error body with no status code, which DRF sends as
  200, not 403. An anonymous POST to the list view does answer 401.
- **An invalid vehicle creation answers 500.** It reaches the misspelt
  attribute `status.hHTTP`.
- **Emails are neither case-insensitive nor set at registration.**
  Uniqueness is the plain unique column. Registration never sets `email`,
  so every user it creates gets the empty default. A second registration
  therefore fails on the unique column (500).
- **Availability keeps no "Booked exactly when confirmed" invariant.** Only
  "every vehicle with a confirmed booking shows `Booked`" is kept, and only
  by the booking endpoints. An administrator's vehicle update can break
  even that.
- **Status updates ignore the current state.** No from-state is checked:
  any of the three settable statuses may replace any status.

## Model

| member | source | states |
|---|---|---|
| `Accounts.Attr` | rental_app/models.py:13-19 | `getattr` finds the declared field `roles` and yields `None` for the undeclared name `role` |
| `Bookings.DefaultStatusIsNotAChoice` | booking/models.py:10-21 | the column default `Pending` is not a choice key; it lowercases to `pending`, yet the active-booking query never counts it |
| `Bookings.ChoicesAreLowerCase` | booking/models.py:10-15 | every booking status choice key is already lower case, so `lower()` keeps it |
| `Base.Filter` | booking/views.py:37 | a filtered query lists exactly the rows satisfying the filter, each once |
| `Fleet.RateLimitIsColumnLimit` | vehicles/models.py:27 | a daily rate fits the ten-digit decimal column exactly when its magnitude in cents is below 10^10 |
| `Fleet.Vehicle.WithStatus` | vehicles/models.py:28 | changing the availability status of a vehicle changes no other column |
| `Db.Store.DeleteVehicle` | booking/models.py:17 | deleting a vehicle removes exactly its images, its bookings and those bookings' damage reports; every remaining row, the users, the admin profiles, the id counter and the clock are unchanged |
| `Db.Store.DeleteUser` | booking/models.py:16 | deleting a user removes exactly the user's admin profile, bookings and those bookings' reports; every remaining row, the vehicles, the images, the id counter and the clock are unchanged |
| `Db.DeleteVehicleKeepsValid` | vehicles/models.py:45 | after the vehicle cascade no image, booking or report points at a missing row |
| `Db.DeleteUserKeepsValid` | rental_app/models.py:29 | after the user cascade no admin profile, booking or report points at a missing row |
| `Db.InsertUserKeepsValid` | rental_app/models.py:15-16 | a user whose email and license number are both unused can be inserted without breaking the unique columns |
| `Db.InsertAdminKeepsValid` | rental_app/models.py:29 | an admin profile for a user without one keeps the one-to-one link |
| `Db.InsertBookingKeepsValid` | booking/models.py:16-22 | a booking whose user and vehicle exist, stamped now, keeps integrity |
| `Db.InsertReportKeepsValid` | booking/serializers.py:97-100 | a report for an existing booking that has none keeps one report per booking |
| `Db.ReplaceBookingKeepsValid` | booking/views.py:75-76 | rewriting a booking's columns, with the same links and creation time, keeps integrity |
| `Db.ReplaceVehicleKeepsValid` | vehicles/views.py:63-65 | rewriting an existing vehicle's columns keeps integrity |
| `Permissions.HasPermissionExactMatch` | booking/permissions.py:7-12 | permission is granted exactly to an authenticated user whose `role` attribute is the string `admin`; a missing attribute or another spelling is refused |
| `Permissions.IsAdminRoleNeverGrants` | booking/permissions.py:11 | because users carry `roles` and not `role`, no caller of any database is granted the permission, administrators included |
| `Signals.UpdateVehicleStatus` | booking/signals.py:5-26 | after a booking save only that booking's vehicle may change, and only in its status. A status lowering to `confirmed` books it. `pending`/`completed`/`cancelled` frees it unless another pending or confirmed booking holds it. Anything else leaves it as it was |
| `Signals.NotConfirmedAfterLower` | booking/signals.py:12-14 | a stored status that does not lower to `confirmed` is not `confirmed` |
| `Signals.UpdateVehicleStatusRestoresConfirmedBooked` | booking/signals.py:14-24 | if every other confirmed booking's vehicle shows `Booked`, then after the receiver every confirmed booking's vehicle does |
| `Signals.UpdateVehicleStatusKeepsStatusesValid` | booking/signals.py:15-24 | the receiver only writes one of the vehicle status choices |
| `Signals.UpdateVehicleStatusKeepsValid` | booking/signals.py:10-26 | the receiver keeps database integrity |
| `Signals.UpdateVehicleStatusIdempotent` | booking/signals.py:12-26 | running the receiver again on its own output changes nothing |
| `BookingSerializer.DayCountPositive` | booking/serializers.py:49-53 | the inclusive day count is at least one exactly when the end date is not before the start date |
| `BookingSerializer.Book` | booking/serializers.py:58-69 | saving adds exactly one booking under a fresh id, newer than every stored one, for the caller and vehicle, pending, priced rate × days. Other bookings, users, reports, admins and images are unchanged |
| `BookingSerializer.SavedBookingTable` | booking/serializers.py:62-69 | the save and its receiver add the booking under the next id and leave every other table alone |
| `BookingSerializer.SavedBookingVehicle` | booking/signals.py:16-24 | saving a pending booking frees its vehicle exactly when no booking of it was pending or confirmed, and touches no other vehicle |
| `BookingSerializer.Create` | booking/serializers.py:37-70 | an end before the start is refused; a vehicle without a minimum raises. A booking is created exactly when the dates are ordered and the day count reaches the vehicle's minimum |
| `BookingSerializer.OtherActiveAfterInsert` | booking/signals.py:18-23 | after inserting a booking, another active booking of its vehicle exists exactly when an active one existed before |
| `BookingSerializer.CreateKeepsValid` | booking/serializers.py:62-69 | a successful creation keeps database integrity |
| `BookingSerializer.CreateKeepsConfirmedBooked` | booking/serializers.py:62-69 | a creation keeps "every vehicle with a confirmed booking shows `Booked`" |
| `BookingSerializer.SelectableBookingsAreOwn` | booking/serializers.py:81-95 | for every caller, whatever their `roles`, the bookings a report may name are exactly the caller's own; anonymous callers may name none |
| `BookingSerializer.StatusAlwaysReadOnly` | booking/serializers.py:91-93 | for an authenticated caller the report status is read-only, administrators included |
| `BookingSerializer.ValidateBooking` | booking/serializers.py:97-100 | the booking is rejected exactly when it already has a damage report |
| `BookingSerializer.SaveReport` | booking/serializers.py:73-100 | a report is rejected exactly when no booking is named, the booking is not selectable, or it already has a report. A saved report is added under the next id for that booking and description, stamped now, and keeps the default status when the field is read-only. Every other table is unchanged, and the id counter and the clock advance by one |
| `BookingSerializer.SaveReportKeepsValid` | booking/serializers.py:97-100 | saving a report keeps at most one report per booking and all other integrity |
| `BookingViews.BookingFieldErrors` | booking/serializers.py:19-35 | a booking body passes field validation exactly when it names an existing vehicle and both dates |
| `BookingViews.CreateBookingView` | booking/views.py:14-27 | anonymous → 401; `roles` not `customer` → 403; field, order or minimum-period errors → 400; 201 exactly when every check passes; no other outcome changes the database |
| `BookingViews.CreatedBookingIsCallersPendingBooking` | booking/serializers.py:59-69 | a created booking belongs to the caller, is pending and costs rate × inclusive days, whatever the client sent for `user`, `status` or `total_price` |
| `BookingViews.ReadOnlyFieldsIgnored` | booking/serializers.py:35 | two requests that agree on vehicle and dates get identical replies |
| `BookingViews.CreateBookingViewKeepsValid` | booking/views.py:23-26 | every booking-creation request keeps database integrity |
| `BookingViews.MyBookings` | booking/views.py:31-39 | an authenticated caller receives exactly the bookings they own, each once; anonymous → 401 |
| `BookingViews.NewestFirstIsSorted` | booking/views.py:52 | in a list ordered newest first between neighbours, every booking is at least as new as every later one |
| `BookingViews.InsertNewestFirst` | booking/views.py:52 | inserting a booking into the ordered list adds exactly that booking |
| `BookingViews.InsertNewestFirstKeepsOrder` | booking/views.py:52 | inserting into a newest-first list keeps it newest first |
| `BookingViews.AllBookingView` | booking/views.py:43-54 | only a caller whose `roles` is `admin` gets the list (otherwise 401/403); the list holds every booking exactly once, newest first |
| `BookingViews.SetStatus` | booking/views.py:75-76 | saving a new status changes only that booking's status and, through the receiver, at most its vehicle's availability. A status that lowers to neither `confirmed` nor a releasing status leaves the vehicle unchanged |
| `BookingViews.OtherActiveIgnoresOwnStatus` | booking/signals.py:18-21 | whether another active booking holds the vehicle does not depend on the saved booking's own status |
| `BookingViews.UpdateBookingStatusView` | booking/views.py:57-79 | checks run in order: `roles` must be `admin` (403), then the booking must exist (404), then the value must be confirmed/cancelled/completed (400). 200 exactly when all pass, whatever the current status; only a 200 changes the database |
| `BookingViews.UpdateBookingStatusKeepsValid` | booking/views.py:75-76 | every status-update request keeps database integrity |
| `BookingViews.UpdateBookingStatusKeepsConfirmedBooked` | booking/views.py:75-76 | a status update keeps "every vehicle with a confirmed booking shows `Booked`" |
| `BookingViews.BookingEndpointsKeepStatusesValid` | booking/models.py:21 | neither booking endpoint stores a status outside the choice keys, so the capitalised default never reaches the table through them |
| `BookingViews.DamageReportList` | booking/views.py:84-93 | an authenticated caller lists exactly the reports on bookings they own, each once |
| `BookingViews.CreateDamageReportView` | booking/views.py:84-97 | 201 exactly for an authenticated caller's own booking that has no report yet; anonymous → 401, otherwise 400, and only a 201 changes the database. The created report is the only new one, for that booking and description, with the default status, stamped now. Every other table is unchanged, and the id counter and the clock advance by one |
| `BookingViews.CreateDamageReportViewKeepsValid` | booking/views.py:95-97 | every damage-report creation request keeps database integrity, including one report per booking |
| `BookingViews.SecondReportRefused` | booking/serializers.py:97-100 | after a report on a booking is created, a second report on the same booking answers 400 and changes nothing |
| `BookingViews.AdminDamageReportList` | booking/views.py:100-104 | the list is served exactly when `IsAdminRole` grants, and then holds every report |
| `Fleet.ColumnErrors` | vehicles/models.py:20-33 | a vehicle body has no failing column exactly when it passes the column checks: required text non-blank and within its length, choice keys, the rate within ten digits, and `seats` and a non-null `min_days` within SQLite's 64-bit integer range |
| `Fleet.ColumnErrorsNameIntegerColumns` | vehicles/models.py:24-32 | `seats` is reported exactly when it leaves the 64-bit range, and `min_days` exactly when it is non-null and leaves it |
| `VehicleViews.VehicleListCreate` | vehicles/views.py:12-37 | GET lists every vehicle. A POST is 401 when anonymous and an error body with 200 when `roles` is not `admin`. 201 exactly for an administrator with valid data, including integer columns within 64 bits, which inserts the vehicle; nothing else changes the database |
| `VehicleViews.VehicleDetail` | vehicles/views.py:40-76 | an unknown id → 404 for every method; non-administrator writes get an error body with 200 and change nothing. A valid PUT rewrites only that vehicle's sent columns, and an omitted `min_days` or `features` keeps its stored value; an invalid one → 400 naming the failing columns of those sent. DELETE → 204 and the full cascade |
| `VehicleViews.OversizedIntegerRefused` | vehicles/views.py:33-67 | a seat count, or a sent minimum, beyond the 64-bit column makes an administrator's PUT answer 400 naming that column with nothing changed, and makes a POST answer 500 |
| `VehicleViews.PutWithoutMinDaysKeepsMinimum` | vehicles/views.py:63-65 | no PUT that omits `min_days` changes any vehicle's minimum rental period |
| `VehicleViews.VehicleWritesAdminOnly` | vehicles/views.py:26-76 | a caller who is not an authenticated administrator never changes the vehicle table and never gets 401 or 403 from the detail view |
| `VehicleViews.InsertVehicleKeepsInvariants` | vehicles/views.py:33-36 | a valid vehicle insert keeps "confirmed ⇒ `Booked`" and keeps all vehicle statuses among the choices |
| `VehicleViews.VehicleListCreateKeepsValid` | vehicles/views.py:33-36 | every request to the list view keeps database integrity |
| `VehicleViews.VehicleDetailKeepsValid` | vehicles/views.py:58-76 | every request to the detail view keeps database integrity |
| `VehicleViews.DetailDeleteKeepsValid` | vehicles/views.py:71-76 | a delete request keeps database integrity |
| `VehicleViews.DetailPutKeepsValid` | vehicles/views.py:59-67 | an update request keeps database integrity |
| `VehicleViews.DeleteVehicleKeepsConfirmedBooked` | vehicles/views.py:75 | deleting a vehicle keeps "confirmed ⇒ `Booked`", because its bookings go with it |
| `VehicleViews.PutCanUnbookConfirmedVehicle` | vehicles/views.py:63-66 | some valid database and administrator update leave a confirmed booking on a vehicle marked `Available`: the receiver does not run on vehicle saves |
| `Registration.RegisterFieldErrors` | rental_app/serializers.py:20-37 | the body passes field validation exactly when: full name and phone are non-blank and ≤ 200; license is non-blank, ≤ 10 and unused; the role, if given, is a choice; both passwords are given and the first passes the validators |
| `Registration.Validate` | rental_app/serializers.py:39-48 | a password mismatch is reported before missing terms; the pair passes exactly when the passwords match and `agree_terms` is true |
| `Registration.RegisterView` | rental_app/serializers.py:39-61 | field errors, then mismatch, then terms answer 400. 201 exactly when all pass and the default email is free; only a 201 changes the database. The new user has the next id, the submitted name, phone and license number, agreed terms, a hashed password, the given role or `customer`, and the empty email. Bookings, vehicles, reports and images are unchanged, and the admin table gains one profile for the new user exactly when the role is `admin` |
| `Registration.RegisterAdminProfileIffAdmin` | rental_app/serializers.py:58-60 | a registered user has exactly one admin profile when the role is `admin`, and none otherwise |
| `Registration.RegisterKeepsValid` | rental_app/serializers.py:50-61 | every registration request keeps database integrity |
| `Registration.DefaultEmailTakenBlocksRegistration` | rental_app/models.py:15 | once some user holds the empty email, no registration can succeed |
| `Registration.LaterRegistrationsFail` | rental_app/serializers.py:27-37 | because `email` is not a registration field, after one successful registration every later registration fails |
| `Scenarios.ThreeDayBookingIsPriced` | booking/serializers.py:53-69 | booking days 1–3 of a 50.00/day car with a three-day minimum is created, pending, for the customer, at 150.00 |
| `Scenarios.OneDayBookingIsRefused` | booking/serializers.py:55-56 | a one-day booking of that car is refused with 400 and changes nothing |
| `Scenarios.BookStep` | booking/views.py:23-26 | a customer's booking meeting the minimum is created pending for the vehicle and keeps integrity |
| `Scenarios.StatusStep` | booking/views.py:71-76 | an administrator's settable status is stored on the booking alone and keeps integrity |
| `Scenarios.StatusStepVehicle` | booking/signals.py:12-24 | confirming books the vehicle; cancelling frees it unless another active booking holds it, and then leaves it as it was |
| `Scenarios.ConfirmThenCancel` | booking/signals.py:14-24 | book, confirm, cancel on an unbooked vehicle: confirmation makes it `Booked`, cancellation makes it `Available` again |
| `Scenarios.ConfirmThenRebook` | booking/signals.py:16-24 | booking again a vehicle with a confirmed booking leaves it `Booked` and the new booking pending |
| `Scenarios.CancelLeavesStaleBooked` | booking/signals.py:16-24 | cancelling the confirmed booking while another is pending leaves the vehicle `Booked` with no confirmed booking |

## Left out

- Token issue, login, logout, password reset and change, and email sending
  (rental_app/views.py, rental_app/utils.py) are left out: they are I/O
  around the core. The registration endpoint's token creation is not
  modelled either.
- URL routing, the admin site, settings and the vehicle list filters are
  framework configuration, not behaviour of the core.
- `AdminDamageReportDetailView` is outside the modelled scope. The model
  treats every route it keeps as wired to its view, although as written
  the URL modules name views that are not defined (the `location_*` views
  in booking/urls.py, `VahicleListCreateView` in vehicles/urls.py).
- There is no `DamageReport` class in booking/models.py, although
  booking/serializers.py and booking/views.py import it from there. The
  model assumes a `OneToOneField` to `Booking`, cascading, with no
  `related_name`. That assumption is what lets
  `hasattr(booking, 'damagereport')` detect an existing report. The report
  also has a `description` and a `status` whose column default is opaque
  (`ModelDefault`). The `description` is assumed unconstrained, so blank
  text is accepted; a plain `TextField()` would instead make a blank
  description answer 400, which the 201 condition of
  `BookingViews.CreateDamageReportView` does not include.
- Locations are not part of this model.
- Picture files are left out because files are I/O. This covers the
  vehicle's required `image`, `VehicleImage.image`, and the serialized
  image fields. The optional `engine` and `engine_torque` columns are left
  out as well.
- `Fleet.ValidFields` does not require an image, so a model POST that would
  fail on the missing file is accepted.
- Password hashing is the opaque constructor `Hashed`.
- Django's password validators are the parameter `passwordOk`.
- `username` (inherited from `AbstractUser`, and also left at its empty
  default by registration) is left out. Its uniqueness clash coincides
  with the email clash the model does state.
- All tables draw ids from a single counter.
- `created_at` is a clock tick, not a datetime.
- Dates are day numbers.
- Money is integer cents, which is exact for two decimal places.
- `str.lower()` is modelled on ASCII letters only.
- Whitespace trimming by `CharField` is not modelled.
- Pagination is not modelled. Response bodies are reduced to the ids they
  serialize.
- `BookingSerializer.Create`: the price's ten-digit column limit is not
  modelled when the booking is saved.
- `BookingSerializer.Create`: error texts are approximate. The
  minimum-period message does not interpolate the number.
- `BookingViews.MyBookings`, `BookingViews.DamageReportList`: the order of
  the rows is left open, because the source does not order those querysets.
- `BookingViews.CreateDamageReportView`: the body of a 400 is reduced to
  the field name `booking`; DRF's message texts are not modelled.
- `VehicleViews.VehicleDetail`: the body of a 400 is reduced to the names
  of the failing columns; DRF's message texts are not modelled.
- `VehicleViews.VehicleDetail`: a PUT may omit only `min_days` and
  `features`, which keep their stored values. The image and the engine
  columns are outside the model. A POST treats an omitted `min_days` as
  null and an omitted `features` as blank, which the request expresses by
  sending those values.
- `VehicleViews.VehicleListCreate`: the error for invalid data is modelled
  as a crash with status 500. The exact exception is not.
- Database integrity (`Store.Valid`, `Store.Knows`) is a precondition of
  the views. This reflects that the database enforces it; every endpoint is
  proved to keep it.
- Transactions and concurrent requests are not modelled. Each request runs
  alone against one store.
