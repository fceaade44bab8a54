/** The booking serializers (booking/serializers.py): booking creation with
    its date checks and pricing, and the damage-report serializer's row
    scoping, field locking and duplicate check. */
module BookingSerializer {
  import opened Base
  import opened Accounts
  import opened Fleet
  import opened Bookings
  import opened Db
  import opened Signals

  /** How `create` ends: a saved booking, a `ValidationError`, or the
      `TypeError` of comparing a day count with a missing `min_days`. */
  datatype CreateOutcome =
    | Created(booking: BookingId, store: Store)
    | Invalid(message: string)
    | MinDaysUnset

  /** The rental length in days, counting both ends. */
  function DayCount(start: Day, end: Day): int
  {
    end - start + 1
  }

  /** A day count is at least one exactly when the dates are in order. */
  lemma DayCountPositive(start: Day, end: Day)
    ensures DayCount(start, end) >= 1 <==> start <= end
  {
  }

  /** Some booking of the vehicle is active before the new one is added. */
  predicate VehicleHasActiveBooking(s: Store, vid: VehicleId)
  {
    exists o :: o in s.bookings && s.bookings[o].vehicle == vid && IsActive(s.bookings[o])
  }

  /** The saved form of a successful creation: priced at the daily rate
      times the day count, pending, stamped with the current tick. */
  function SavedBooking(s: Store, user: UserId, vid: VehicleId, start: Day, end: Day): Booking
    requires vid in s.vehicles
  {
    Booking(user, vid, start, end, s.vehicles[vid].DailyRate() * DayCount(start, end), PENDING, s.now)
  }

  /** The store after `Booking.objects.create` saved the new booking under
      the next id and the `post_save` receiver ran for it. */
  function Book(s: Store, user: UserId, vid: VehicleId, start: Day, end: Day): (t: Store)
    requires s.Valid() && user in s.users && vid in s.vehicles
    ensures s.nextId !in s.bookings && s.nextId in t.bookings
    ensures t.bookings.Keys == s.bookings.Keys + {s.nextId}
    ensures forall o :: o in s.bookings ==> t.bookings[o] == s.bookings[o]
    ensures var b := t.bookings[s.nextId];
      && b.user == user && b.vehicle == vid
      && b.startDate == start && b.endDate == end
      && b.status == PENDING
      && b.totalPrice == s.vehicles[vid].DailyRate() * DayCount(start, end)
      && (forall o :: o in s.bookings ==> s.bookings[o].createdAt < b.createdAt)
    ensures t.users == s.users && t.reports == s.reports && t.admins == s.admins && t.images == s.images
    ensures t.vehicles.Keys == s.vehicles.Keys
    ensures forall v :: v in s.vehicles && v != vid ==> t.vehicles[v] == s.vehicles[v]
    ensures VehicleHasActiveBooking(s, vid) ==> t.vehicles[vid] == s.vehicles[vid]
    ensures !VehicleHasActiveBooking(s, vid) ==> t.vehicles[vid] == s.vehicles[vid].WithStatus(AVAILABLE)
  {
    var booking := SavedBooking(s, user, vid, start, end);
    SavedBookingTable(s, booking);
    SavedBookingVehicle(s, booking);
    UpdateVehicleStatus(s.InsertBooking(booking), s.nextId)
  }

  /** Saving a booking stamped with the current tick adds it under the next
      id, after every stored booking, and leaves the other tables alone. */
  lemma SavedBookingTable(s: Store, b: Booking)
    requires s.Valid() && b.user in s.users && b.vehicle in s.vehicles && b.createdAt == s.now
    ensures s.nextId !in s.bookings
    ensures var t := UpdateVehicleStatus(s.InsertBooking(b), s.nextId);
      && t.bookings == s.bookings[s.nextId := b]
      && (forall o :: o in s.bookings ==> s.bookings[o].createdAt < b.createdAt)
      && t.users == s.users && t.reports == s.reports && t.admins == s.admins && t.images == s.images
  {
    InsertBookingKeepsValid(s, b);
  }

  /** Saving a pending booking frees its vehicle unless another booking of
      it is active, and touches no other vehicle. */
  lemma SavedBookingVehicle(s: Store, b: Booking)
    requires s.Valid() && b.vehicle in s.vehicles && b.status == PENDING
    ensures var t := UpdateVehicleStatus(s.InsertBooking(b), s.nextId);
      && t.vehicles.Keys == s.vehicles.Keys
      && (forall v :: v in s.vehicles && v != b.vehicle ==> t.vehicles[v] == s.vehicles[v])
      && (VehicleHasActiveBooking(s, b.vehicle) ==> t.vehicles[b.vehicle] == s.vehicles[b.vehicle])
      && (!VehicleHasActiveBooking(s, b.vehicle) ==> t.vehicles[b.vehicle] == s.vehicles[b.vehicle].WithStatus(AVAILABLE))
  {
    ChoicesAreLowerCase(PENDING);
    OtherActiveAfterInsert(s, b);
  }

  /** `BookingSerializer.create` for `user` booking `vid` from `start` to
      `end`. Dates out of order are refused first; then a day count below
      the vehicle's minimum is refused, and a vehicle without a minimum
      raises. Otherwise the booking is saved as `Book` describes. */
  function Create(s: Store, user: UserId, vid: VehicleId, start: Day, end: Day): (r: CreateOutcome)
    requires s.Valid() && user in s.users && vid in s.vehicles
    ensures end < start ==> r == Invalid("End date cannot be before start date")
    ensures r.MinDaysUnset? <==> start <= end && s.vehicles[vid].MinDays().None?
    ensures r.Created? <==> start <= end && s.vehicles[vid].MinDays().Some?
                            && DayCount(start, end) >= s.vehicles[vid].MinDays().value
    ensures r.Created? ==> DayCount(start, end) >= 1
    ensures r.Created? ==> r.booking == s.nextId && r.store == Book(s, user, vid, start, end)
  {
    if end < start then
      Invalid("End date cannot be before start date")
    else
      match s.vehicles[vid].MinDays()
      case None => MinDaysUnset
      case Some(minDays) =>
        if DayCount(start, end) < minDays then
          Invalid("Number of days cant be less than the minimum period")
        else
          Created(s.nextId, Book(s, user, vid, start, end))
  }

  /** After inserting a booking, another active booking of its vehicle
      exists exactly when one existed before the insertion. */
  lemma OtherActiveAfterInsert(s: Store, b: Booking)
    requires s.Valid()
    ensures s.nextId in s.InsertBooking(b).bookings
    ensures OtherActiveExists(s.InsertBooking(b), s.nextId) <==> VehicleHasActiveBooking(s, b.vehicle)
  {
    var t := s.InsertBooking(b);
    if VehicleHasActiveBooking(s, b.vehicle) {
      var o :| o in s.bookings && s.bookings[o].vehicle == b.vehicle && IsActive(s.bookings[o]);
      assert o != s.nextId;
      assert t.bookings[o] == s.bookings[o];
    }
    if OtherActiveExists(t, s.nextId) {
      var o :| o in t.bookings && o != s.nextId && t.bookings[o].vehicle == b.vehicle && IsActive(t.bookings[o]);
      assert o in s.bookings;
    }
  }

  /** A successful creation keeps the database integrity. */
  lemma CreateKeepsValid(s: Store, user: UserId, vid: VehicleId, start: Day, end: Day)
    requires s.Valid() && user in s.users && vid in s.vehicles
    ensures var r := Create(s, user, vid, start, end);
            r.Created? ==> r.store.Valid()
  {
    var r := Create(s, user, vid, start, end);
    if r.Created? {
      var b := SavedBooking(s, user, vid, start, end);
      InsertBookingKeepsValid(s, b);
      UpdateVehicleStatusKeepsValid(s.InsertBooking(b), s.nextId);
    }
  }

  /** A successful creation keeps "every confirmed booking's vehicle shows
      Booked": the new booking is pending, and the vehicle is only freed
      when no other booking of it is active. */
  lemma CreateKeepsConfirmedBooked(s: Store, user: UserId, vid: VehicleId, start: Day, end: Day)
    requires s.Valid() && user in s.users && vid in s.vehicles
    requires ConfirmedShowBooked(s)
    ensures var r := Create(s, user, vid, start, end);
            r.Created? ==> ConfirmedShowBooked(r.store)
  {
    var r := Create(s, user, vid, start, end);
    if r.Created? {
      var saved := s.InsertBooking(SavedBooking(s, user, vid, start, end));
      assert ConfirmedShowBookedExcept(saved, s.nextId);
      UpdateVehicleStatusRestoresConfirmedBooked(saved, s.nextId);
    }
  }

  /** The queryset of bookings the damage-report serializer lets a caller
      pick. The administrator branch tests the attribute `role`, which
      users do not have. */
  function SelectableBookings(s: Store, caller: Caller): set<BookingId>
    requires s.Knows(caller)
  {
    if caller.Authenticated? then
      if Attr(s.users[caller.id], "role") == Some(ROLE_ADMIN) then s.bookings.Keys
      else s.BookingsOfUser(caller.id)
    else {}
  }

  /** Whatever the caller's `roles`, the selectable bookings are exactly the
      caller's own, and an anonymous caller can select none. */
  lemma SelectableBookingsAreOwn(s: Store, caller: Caller)
    requires s.Knows(caller)
    ensures caller.Anonymous? ==> SelectableBookings(s, caller) == {}
    ensures forall b :: b in SelectableBookings(s, caller) <==>
              caller.Authenticated? && b in s.bookings && s.bookings[b].user == caller.id
  {
  }

  /** Whether the serializer marks the report `status` read-only. It does
      so for authenticated callers whose `role` attribute is not `admin`. */
  predicate StatusReadOnly(s: Store, caller: Caller)
    requires s.Knows(caller)
  {
    caller.Authenticated? && Attr(s.users[caller.id], "role") != Some(ROLE_ADMIN)
  }

  /** For every authenticated caller, administrators included, the report
      status cannot be written. */
  lemma StatusAlwaysReadOnly(s: Store, caller: Caller)
    requires s.Knows(caller)
    ensures caller.Authenticated? <==> StatusReadOnly(s, caller)
  {
  }

  /** The booking already has a damage report. */
  predicate HasReport(s: Store, bid: BookingId)
  {
    exists r :: r in s.reports && s.reports[r].booking == bid
  }

  /** `validate_booking`: the chosen booking must not have a report yet. */
  function ValidateBooking(s: Store, bid: BookingId): (err: Option<string>)
    ensures err.Some? <==> HasReport(s, bid)
  {
    if HasReport(s, bid) then Some("A damage report already exists for this booking.") else None
  }

  /** How the damage-report serializer ends: a saved report, or the field
      errors of `is_valid`. */
  datatype ReportOutcome = ReportSaved(report: ReportId, store: Store) | ReportRejected(fields: set<string>)

  /** Validate and save a damage report for `caller`. The booking must be
      given, selectable and without a report; a client-supplied status is
      kept only when the field is writable. */
  function SaveReport(s: Store, caller: Caller, booking: Option<BookingId>, description: string,
                      status: Option<string>): (r: ReportOutcome)
    requires s.Valid() && s.Knows(caller)
    ensures r.ReportRejected? <==>
      booking.None? || booking.value !in SelectableBookings(s, caller) || HasReport(s, booking.value)
    ensures r.ReportSaved? ==> r.report !in s.reports && r.report in r.store.reports
    ensures r.ReportSaved? ==>
      var rep := r.store.reports[r.report];
      && r.store.reports.Keys == s.reports.Keys + {r.report}
      && (forall o :: o in s.reports ==> r.store.reports[o] == s.reports[o])
      && rep.booking == booking.value && rep.description == description
      && (StatusReadOnly(s, caller) ==> rep.status == ModelDefault)
      && rep.createdAt == s.now
      && r.store.bookings == s.bookings && r.store.vehicles == s.vehicles && r.store.users == s.users
      && r.store.admins == s.admins && r.store.images == s.images
      && r.report == s.nextId && r.store.nextId == s.nextId + 1 && r.store.now == s.now + 1
  {
    if booking.None? || booking.value !in SelectableBookings(s, caller) then
      ReportRejected({"booking"})
    else if ValidateBooking(s, booking.value).Some? then
      ReportRejected({"booking"})
    else
      var given := match status
        case Some(v) => if StatusReadOnly(s, caller) then ModelDefault else Given(v)
        case None => ModelDefault;
      ReportSaved(s.nextId, s.InsertReport(DamageReport(booking.value, description, given, s.now)))
  }

  /** Saving a report keeps at most one report per booking, and every other
      integrity constraint. */
  lemma SaveReportKeepsValid(s: Store, caller: Caller, booking: Option<BookingId>, description: string,
                             status: Option<string>)
    requires s.Valid() && s.Knows(caller)
    ensures var r := SaveReport(s, caller, booking, description, status);
            r.ReportSaved? ==> r.store.Valid()
  {
    var r := SaveReport(s, caller, booking, description, status);
    if r.ReportSaved? {
      var rep := r.store.reports[r.report];
      assert !HasReport(s, booking.value);
      InsertReportKeepsValid(s, rep);
    }
  }
}
