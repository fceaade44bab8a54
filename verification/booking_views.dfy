/** The booking endpoints (booking/views.py): customer booking creation,
    the customer's own list, the administrator's full list, the
    administrator's status update, and the damage-report endpoints. */
module BookingViews {
  import opened Base
  import opened Accounts
  import opened Fleet
  import opened Bookings
  import opened Db
  import opened Http
  import opened Permissions
  import opened Signals
  import opened BookingSerializer

  /** A booking request body. `user`, `status` and `total_price` are
      read-only in the serializer: a client may send them, and they are
      dropped. */
  datatype BookingRequest = BookingRequest(
    vehicle: Option<VehicleId>,
    startDate: Option<Day>,
    endDate: Option<Day>,
    user: Option<UserId>,
    status: Option<string>,
    totalPrice: Option<Cents>)

  /** The statuses an administrator may set. */
  const SETTABLE_STATUSES: set<string> := {CONFIRMED, CANCELLED, COMPLETED}

  /** Field errors of `is_valid` on a booking request: the vehicle must be
      an existing primary key and both dates are required. */
  function BookingFieldErrors(s: Store, req: BookingRequest): (errs: set<string>)
    ensures errs == {} <==> req.vehicle.Some? && req.vehicle.value in s.vehicles
                            && req.startDate.Some? && req.endDate.Some?
    ensures errs <= {"vehicle", "start_date", "end_date"}
  {
    (if req.vehicle.None? || req.vehicle.value !in s.vehicles then {"vehicle"} else {})
    + (if req.startDate.None? then {"start_date"} else {})
    + (if req.endDate.None? then {"end_date"} else {})
  }

  /** The caller is an authenticated user whose `roles` is `role`. */
  predicate HasRoles(s: Store, caller: Caller, role: string)
    requires s.Knows(caller)
  {
    caller.Authenticated? && s.users[caller.id].roles == role
  }

  /** `create_booking_view`. Anonymous callers get 401 and callers whose
      `roles` is not `customer` get 403. An invalid body gives 400; a date
      or minimum-period violation gives 400; a vehicle without a minimum
      period makes `create` raise (500). Otherwise the booking is saved
      for the caller and 201 is returned. Only a 201 changes the store. */
  function CreateBookingView(s: Store, caller: Caller, req: BookingRequest): (r: Reply)
    requires s.Valid() && s.Knows(caller)
    ensures caller.Anonymous? ==> r.status == HTTP_401_UNAUTHORIZED
    ensures caller.Authenticated? && !HasRoles(s, caller, ROLE_CUSTOMER) ==> r.status == HTTP_403_FORBIDDEN
    ensures r.status == HTTP_400_BAD_REQUEST <==>
      HasRoles(s, caller, ROLE_CUSTOMER)
      && (BookingFieldErrors(s, req) != {}
          || req.endDate.value < req.startDate.value
          || (s.vehicles[req.vehicle.value].MinDays().Some?
              && DayCount(req.startDate.value, req.endDate.value) < s.vehicles[req.vehicle.value].MinDays().value))
    ensures r.status == HTTP_201_CREATED <==>
      HasRoles(s, caller, ROLE_CUSTOMER) && BookingFieldErrors(s, req) == {}
      && req.startDate.value <= req.endDate.value
      && s.vehicles[req.vehicle.value].MinDays().Some?
      && DayCount(req.startDate.value, req.endDate.value) >= s.vehicles[req.vehicle.value].MinDays().value
    ensures r.status in {HTTP_201_CREATED, HTTP_400_BAD_REQUEST, HTTP_401_UNAUTHORIZED, HTTP_403_FORBIDDEN, HTTP_500_SERVER_ERROR}
    ensures r.status != HTTP_201_CREATED ==> r.store == s
    ensures r.status == HTTP_201_CREATED ==>
      && r.body == BookingData(s.nextId)
      && r.store == Book(s, caller.id, req.vehicle.value, req.startDate.value, req.endDate.value)
  {
    if caller.Anonymous? then NotAuthenticated(s)
    else if s.users[caller.id].roles != ROLE_CUSTOMER then
      Reply(HTTP_403_FORBIDDEN, Detail("Login to make a booking"), s)
    else if BookingFieldErrors(s, req) != {} then
      Reply(HTTP_400_BAD_REQUEST, FieldErrors(BookingFieldErrors(s, req)), s)
    else
      match Create(s, caller.id, req.vehicle.value, req.startDate.value, req.endDate.value)
      case Created(id, t) => Reply(HTTP_201_CREATED, BookingData(id), t)
      case Invalid(msg) => Reply(HTTP_400_BAD_REQUEST, Detail(msg), s)
      case MinDaysUnset => Reply(HTTP_500_SERVER_ERROR, Crash("TypeError: min_days is None"), s)
  }

  /** A created booking belongs to the caller, is pending and costs the
      vehicle's daily rate times the inclusive day count, whatever `user`,
      `status` or `total_price` the client sent. */
  lemma CreatedBookingIsCallersPendingBooking(s: Store, caller: Caller, req: BookingRequest)
    requires s.Valid() && s.Knows(caller)
    ensures var r := CreateBookingView(s, caller, req);
      r.status == HTTP_201_CREATED ==>
        && caller.Authenticated?
        && s.nextId !in s.bookings && s.nextId in r.store.bookings
        && var b := r.store.bookings[s.nextId];
        && b.user == caller.id
        && b.status == PENDING
        && b.endDate - b.startDate + 1 >= 1
        && b.totalPrice == s.vehicles[b.vehicle].DailyRate() * (b.endDate - b.startDate + 1)
  {
  }

  /** The read-only fields of the request have no effect: two requests
      that agree on vehicle and dates get the same reply. */
  lemma ReadOnlyFieldsIgnored(s: Store, caller: Caller, req1: BookingRequest, req2: BookingRequest)
    requires s.Valid() && s.Knows(caller)
    requires req1.vehicle == req2.vehicle && req1.startDate == req2.startDate && req1.endDate == req2.endDate
    ensures CreateBookingView(s, caller, req1) == CreateBookingView(s, caller, req2)
  {
  }

  /** Booking creation keeps the database integrity. */
  lemma CreateBookingViewKeepsValid(s: Store, caller: Caller, req: BookingRequest)
    requires s.Valid() && s.Knows(caller)
    ensures CreateBookingView(s, caller, req).store.Valid()
  {
    var r := CreateBookingView(s, caller, req);
    if r.status == HTTP_201_CREATED {
      CreateKeepsValid(s, caller.id, req.vehicle.value, req.startDate.value, req.endDate.value);
    }
  }

  /** `my_bookings`: an authenticated caller gets exactly the bookings whose
      owner is the caller, each once. */
  method MyBookings(s: Store, caller: Caller) returns (r: Reply)
    requires s.Knows(caller)
    ensures caller.Anonymous? ==> r == NotAuthenticated(s)
    ensures caller.Authenticated? ==>
      && r.status == HTTP_200_OK && r.store == s && r.body.BookingList?
      && Distinct(r.body.bookingIds)
      && (forall b :: b in r.body.bookingIds <==> b in s.bookings && s.bookings[b].user == caller.id)
  {
    if caller.Anonymous? {
      return NotAuthenticated(s);
    }
    var ids := Filter(s.bookings.Keys, b => b in s.bookings && s.bookings[b].user == caller.id);
    r := Reply(HTTP_200_OK, BookingList(ids), s);
  }

  /** The listed bookings are ordered newest first by `created_at`: each
      is at least as new as the one after it. */
  predicate NewestFirst(m: map<BookingId, Booking>, xs: seq<BookingId>)
  {
    forall i :: 0 <= i < |xs| - 1 && xs[i] in m && xs[i + 1] in m ==> m[xs[i]].createdAt >= m[xs[i + 1]].createdAt
  }

  /** In a newest-first list of stored bookings, every booking is at least
      as new as every booking listed after it. */
  lemma {:induction false} NewestFirstIsSorted(m: map<BookingId, Booking>, xs: seq<BookingId>)
    requires forall x :: x in xs ==> x in m
    requires NewestFirst(m, xs)
    ensures forall i, j :: 0 <= i < j < |xs| ==> m[xs[i]].createdAt >= m[xs[j]].createdAt
    decreases |xs|
  {
    if |xs| > 1 {
      NewestFirstIsSorted(m, xs[1..]);
      forall i, j | 0 <= i < j < |xs|
        ensures m[xs[i]].createdAt >= m[xs[j]].createdAt
      {
        if i > 0 {
          assert xs[i] == xs[1..][i - 1] && xs[j] == xs[1..][j - 1];
        } else if j > 1 {
          assert xs[1] == xs[1..][0] && xs[j] == xs[1..][j - 1];
        }
      }
    }
  }

  /** Insert `b` into a list before the first booking that is not newer
      than it. */
  function InsertNewestFirst(m: map<BookingId, Booking>, xs: seq<BookingId>, b: BookingId): (r: seq<BookingId>)
    requires b in m && forall x :: x in xs ==> x in m
    ensures multiset(r) == multiset(xs) + multiset{b}
    ensures |r| > 0 && (r[0] == b || (|xs| > 0 && r[0] == xs[0]))
    ensures forall x :: x in r ==> x in m
    decreases |xs|
  {
    if xs == [] then [b]
    else if m[xs[0]].createdAt <= m[b].createdAt then [b] + xs
    else
      assert xs == [xs[0]] + xs[1..];
      [xs[0]] + InsertNewestFirst(m, xs[1..], b)
  }

  /** Inserting into a newest-first list keeps it newest first. */
  lemma {:induction false} InsertNewestFirstKeepsOrder(m: map<BookingId, Booking>, xs: seq<BookingId>, b: BookingId)
    requires b in m && forall x :: x in xs ==> x in m
    requires NewestFirst(m, xs)
    ensures NewestFirst(m, InsertNewestFirst(m, xs, b))
    decreases |xs|
  {
    if xs != [] && m[xs[0]].createdAt > m[b].createdAt {
      var rest := InsertNewestFirst(m, xs[1..], b);
      InsertNewestFirstKeepsOrder(m, xs[1..], b);
      assert m[xs[0]].createdAt >= m[rest[0]].createdAt by {
        if rest[0] != b {
          assert rest[0] == xs[1];
        }
      }
      var r := InsertNewestFirst(m, xs, b);
      assert r == [xs[0]] + rest;
      forall i | 0 <= i < |r| - 1 && r[i] in m && r[i + 1] in m
        ensures m[r[i]].createdAt >= m[r[i + 1]].createdAt
      {
        if i > 0 {
          assert r[i] == rest[i - 1] && r[i + 1] == rest[i];
        }
      }
    }
  }

  /** `all_booking_view`: administrators (by `roles`) get every booking
      exactly once, newest first; anyone else authenticated gets 403. */
  method AllBookingView(s: Store, caller: Caller) returns (r: Reply)
    requires s.Knows(caller)
    ensures caller.Anonymous? ==> r == NotAuthenticated(s)
    ensures caller.Authenticated? && !HasRoles(s, caller, ROLE_ADMIN) ==>
      r.status == HTTP_403_FORBIDDEN && r.store == s
    ensures HasRoles(s, caller, ROLE_ADMIN) ==>
      && r.status == HTTP_200_OK && r.store == s && r.body.BookingList?
      && multiset(r.body.bookingIds) == multiset(s.bookings.Keys)
      && NewestFirst(s.bookings, r.body.bookingIds)
  {
    if caller.Anonymous? {
      return NotAuthenticated(s);
    }
    if s.users[caller.id].roles != ROLE_ADMIN {
      return Reply(HTTP_403_FORBIDDEN, Detail("Only Admins can view all bookings"), s);
    }
    var ids: seq<BookingId> := [];
    var rest := s.bookings.Keys;
    while rest != {}
      invariant rest <= s.bookings.Keys
      invariant forall x :: x in ids ==> x in s.bookings
      invariant NewestFirst(s.bookings, ids)
      invariant multiset(ids) + multiset(rest) == multiset(s.bookings.Keys)
      decreases rest
    {
      var b :| b in rest;
      InsertNewestFirstKeepsOrder(s.bookings, ids, b);
      ids := InsertNewestFirst(s.bookings, ids, b);
      assert multiset(rest) == multiset(rest - {b}) + multiset{b};
      rest := rest - {b};
    }
    r := Reply(HTTP_200_OK, BookingList(ids), s);
  }

  /** The store after the booking `pk` took status `v` and was saved, which
      runs the `post_save` receiver. */
  function SetStatus(s: Store, pk: BookingId, v: string): (t: Store)
    requires s.Valid() && pk in s.bookings
    ensures t.bookings.Keys == s.bookings.Keys
    ensures forall b :: b in s.bookings && b != pk ==> t.bookings[b] == s.bookings[b]
    ensures var old_ := s.bookings[pk]; var new_ := t.bookings[pk];
      && new_.status == v
      && new_.user == old_.user && new_.vehicle == old_.vehicle
      && new_.startDate == old_.startDate && new_.endDate == old_.endDate
      && new_.totalPrice == old_.totalPrice && new_.createdAt == old_.createdAt
    ensures t.users == s.users && t.reports == s.reports && t.admins == s.admins && t.images == s.images
    ensures t.nextId == s.nextId && t.now == s.now
    ensures t.vehicles.Keys == s.vehicles.Keys
    ensures forall vid :: vid in s.vehicles && vid != s.bookings[pk].vehicle ==> t.vehicles[vid] == s.vehicles[vid]
    ensures var vid := s.bookings[pk].vehicle;
      t.vehicles[vid] == s.vehicles[vid].WithStatus(t.vehicles[vid].Status())
    ensures var vid := s.bookings[pk].vehicle;
      && (Lower(v) == CONFIRMED ==> t.vehicles[vid].Status() == BOOKED)
      && (Lower(v) in RELEASING && !OtherActiveExists(s, pk) ==> t.vehicles[vid].Status() == AVAILABLE)
      && (OtherActiveExists(s, pk) && Lower(v) != CONFIRMED ==> t.vehicles[vid] == s.vehicles[vid])
      && (Lower(v) != CONFIRMED && Lower(v) !in RELEASING ==> t.vehicles[vid] == s.vehicles[vid])
  {
    var written := s.(bookings := s.bookings[pk := s.bookings[pk].(status := v)]);
    OtherActiveIgnoresOwnStatus(s, pk, v);
    UpdateVehicleStatus(written, pk)
  }

  /** Whether another active booking holds the vehicle does not depend on
      the status of `pk` itself. */
  lemma OtherActiveIgnoresOwnStatus(s: Store, pk: BookingId, v: string)
    requires pk in s.bookings
    ensures var written := s.(bookings := s.bookings[pk := s.bookings[pk].(status := v)]);
      OtherActiveExists(written, pk) == OtherActiveExists(s, pk)
  {
    var written := s.(bookings := s.bookings[pk := s.bookings[pk].(status := v)]);
    if OtherActiveExists(s, pk) {
      var o :| o in s.bookings && o != pk && s.bookings[o].vehicle == s.bookings[pk].vehicle && IsActive(s.bookings[o]);
      assert written.bookings[o] == s.bookings[o];
    }
  }

  /** `update_booking_status_view`. The checks run in order: `roles` must
      be `admin` (403), the booking must exist (404), the new status must
      be confirmed, cancelled or completed (400). Whatever the current
      status, a valid request stores the new one and answers 200. */
  function UpdateBookingStatusView(s: Store, caller: Caller, pk: BookingId, statusValue: Option<string>): (r: Reply)
    requires s.Valid() && s.Knows(caller)
    ensures caller.Anonymous? ==> r.status == HTTP_401_UNAUTHORIZED
    ensures caller.Authenticated? && !HasRoles(s, caller, ROLE_ADMIN) ==> r.status == HTTP_403_FORBIDDEN
    ensures HasRoles(s, caller, ROLE_ADMIN) && pk !in s.bookings ==> r.status == HTTP_404_NOT_FOUND
    ensures r.status == HTTP_400_BAD_REQUEST <==>
      HasRoles(s, caller, ROLE_ADMIN) && pk in s.bookings
      && (statusValue.None? || statusValue.value !in SETTABLE_STATUSES)
    ensures r.status == HTTP_200_OK <==>
      HasRoles(s, caller, ROLE_ADMIN) && pk in s.bookings
      && statusValue.Some? && statusValue.value in SETTABLE_STATUSES
    ensures r.status != HTTP_200_OK ==> r.store == s
    ensures r.status == HTTP_200_OK ==> r.body == BookingData(pk) && r.store == SetStatus(s, pk, statusValue.value)
  {
    if caller.Anonymous? then NotAuthenticated(s)
    else if s.users[caller.id].roles != ROLE_ADMIN then
      Reply(HTTP_403_FORBIDDEN, Detail("Only Admin can update booking status"), s)
    else if pk !in s.bookings then
      Reply(HTTP_404_NOT_FOUND, Detail("Booking not found"), s)
    else if statusValue.None? || statusValue.value !in SETTABLE_STATUSES then
      Reply(HTTP_400_BAD_REQUEST, Detail("Invalid status value"), s)
    else
      Reply(HTTP_200_OK, BookingData(pk), SetStatus(s, pk, statusValue.value))
  }

  /** A status update keeps the database integrity. */
  lemma UpdateBookingStatusKeepsValid(s: Store, caller: Caller, pk: BookingId, statusValue: Option<string>)
    requires s.Valid() && s.Knows(caller)
    ensures UpdateBookingStatusView(s, caller, pk, statusValue).store.Valid()
  {
    var r := UpdateBookingStatusView(s, caller, pk, statusValue);
    if r.status == HTTP_200_OK {
      var written := s.(bookings := s.bookings[pk := s.bookings[pk].(status := statusValue.value)]);
      ReplaceBookingKeepsValid(s, pk, s.bookings[pk].(status := statusValue.value));
      UpdateVehicleStatusKeepsValid(written, pk);
    }
  }

  /** A status update keeps "every confirmed booking's vehicle shows
      Booked". */
  lemma UpdateBookingStatusKeepsConfirmedBooked(s: Store, caller: Caller, pk: BookingId, statusValue: Option<string>)
    requires s.Valid() && s.Knows(caller)
    requires ConfirmedShowBooked(s)
    ensures ConfirmedShowBooked(UpdateBookingStatusView(s, caller, pk, statusValue).store)
  {
    var r := UpdateBookingStatusView(s, caller, pk, statusValue);
    if r.status == HTTP_200_OK {
      var written := s.(bookings := s.bookings[pk := s.bookings[pk].(status := statusValue.value)]);
      assert ConfirmedShowBookedExcept(written, pk);
      UpdateVehicleStatusRestoresConfirmedBooked(written, pk);
    }
  }

  /** Every stored booking status is one of the choice keys. */
  predicate BookingStatusesValid(s: Store)
  {
    forall b :: b in s.bookings ==> s.bookings[b].status in BOOKING_STATUS_CHOICES
  }

  /** Neither booking endpoint ever stores a status outside the choices, so
      the capitalised column default never reaches the table through them. */
  lemma BookingEndpointsKeepStatusesValid(s: Store, caller: Caller, req: BookingRequest,
                                          pk: BookingId, statusValue: Option<string>)
    requires s.Valid() && s.Knows(caller)
    requires BookingStatusesValid(s)
    ensures BookingStatusesValid(CreateBookingView(s, caller, req).store)
    ensures BookingStatusesValid(UpdateBookingStatusView(s, caller, pk, statusValue).store)
  {
  }

  /** `DamageReportView.get_queryset`: an authenticated caller lists
      exactly the reports on bookings the caller owns, each once. */
  method DamageReportList(s: Store, caller: Caller) returns (r: Reply)
    requires s.Knows(caller)
    ensures caller.Anonymous? ==> r == NotAuthenticated(s)
    ensures caller.Authenticated? ==>
      && r.status == HTTP_200_OK && r.store == s && r.body.ReportList?
      && Distinct(r.body.reportIds)
      && (forall x :: x in r.body.reportIds <==>
            x in s.reports && s.reports[x].booking in s.bookings
            && s.bookings[s.reports[x].booking].user == caller.id)
  {
    if caller.Anonymous? {
      return NotAuthenticated(s);
    }
    var ids := Filter(s.reports.Keys,
                      x => x in s.reports && s.reports[x].booking in s.bookings
                           && s.bookings[s.reports[x].booking].user == caller.id);
    r := Reply(HTTP_200_OK, ReportList(ids), s);
  }

  /** `DamageReportView` POST: the serializer validates and saves the
      report; a rejected body gives 400 and a saved report 201. */
  function CreateDamageReportView(s: Store, caller: Caller, booking: Option<BookingId>, description: string,
                                  status: Option<string>): (r: Reply)
    requires s.Valid() && s.Knows(caller)
    ensures caller.Anonymous? ==> r.status == HTTP_401_UNAUTHORIZED && r.store == s
    ensures caller.Authenticated? && booking.Some? && HasReport(s, booking.value) ==>
      r.status == HTTP_400_BAD_REQUEST && r.store == s
    ensures r.status == HTTP_201_CREATED <==>
      && caller.Authenticated? && booking.Some?
      && booking.value in s.bookings && s.bookings[booking.value].user == caller.id
      && !HasReport(s, booking.value)
    ensures r.status in {HTTP_201_CREATED, HTTP_400_BAD_REQUEST, HTTP_401_UNAUTHORIZED}
    ensures r.status != HTTP_201_CREATED ==> r.store == s
    ensures r.status == HTTP_201_CREATED ==>
      && r.body == ReportData(s.nextId)
      && s.nextId !in s.reports && s.nextId in r.store.reports
      && r.store.reports.Keys == s.reports.Keys + {s.nextId}
      && (forall o :: o in s.reports ==> r.store.reports[o] == s.reports[o])
      && r.store.reports[s.nextId].booking == booking.value
      && r.store.reports[s.nextId].description == description
      && r.store.reports[s.nextId].status == ModelDefault
      && r.store.reports[s.nextId].createdAt == s.now
      && r.store.bookings == s.bookings && r.store.vehicles == s.vehicles && r.store.users == s.users
      && r.store.admins == s.admins && r.store.images == s.images
      && r.store.nextId == s.nextId + 1 && r.store.now == s.now + 1
  {
    if caller.Anonymous? then NotAuthenticated(s)
    else
      StatusAlwaysReadOnly(s, caller);
      match SaveReport(s, caller, booking, description, status)
      case ReportSaved(id, t) => Reply(HTTP_201_CREATED, ReportData(id), t)
      case ReportRejected(fields) => Reply(HTTP_400_BAD_REQUEST, FieldErrors(fields), s)
  }

  /** Every damage-report creation request keeps the database integrity. */
  lemma CreateDamageReportViewKeepsValid(s: Store, caller: Caller, booking: Option<BookingId>, description: string,
                                         status: Option<string>)
    requires s.Valid() && s.Knows(caller)
    ensures CreateDamageReportView(s, caller, booking, description, status).store.Valid()
  {
    if caller.Authenticated? {
      SaveReportKeepsValid(s, caller, booking, description, status);
    }
  }

  /** Once a report on a booking is created, a second report on the same
      booking is refused with 400 and changes nothing. */
  lemma SecondReportRefused(s: Store, caller: Caller, bid: BookingId, d1: string, st1: Option<string>,
                            d2: string, st2: Option<string>)
    requires s.Valid() && s.Knows(caller)
    ensures var r := CreateDamageReportView(s, caller, Some(bid), d1, st1);
      r.status == HTTP_201_CREATED ==>
        && r.store.Valid() && r.store.Knows(caller)
        && var r2 := CreateDamageReportView(r.store, caller, Some(bid), d2, st2);
        && r2.status == HTTP_400_BAD_REQUEST && r2.store == r.store
  {
    var r := CreateDamageReportView(s, caller, Some(bid), d1, st1);
    CreateDamageReportViewKeepsValid(s, caller, Some(bid), d1, st1);
    if r.status == HTTP_201_CREATED {
      var saved := SaveReport(s, caller, Some(bid), d1, st1);
      assert saved.ReportSaved? && r.store == saved.store;
      assert HasReport(r.store, bid) by {
        assert saved.report in r.store.reports && r.store.reports[saved.report].booking == bid;
      }
    }
  }

  /** `AdminDamageReportView`: guarded by `IsAdminRole`. */
  method AdminDamageReportList(s: Store, caller: Caller) returns (r: Reply)
    requires s.Knows(caller)
    ensures r.status == HTTP_200_OK <==> IsAdminRole(s, caller)
    ensures caller.Anonymous? ==> r == NotAuthenticated(s)
    ensures caller.Authenticated? && !IsAdminRole(s, caller) ==> r.status == HTTP_403_FORBIDDEN
    ensures r.store == s
    ensures IsAdminRole(s, caller) ==>
      r.body.ReportList? && (forall x :: x in r.body.reportIds <==> x in s.reports)
  {
    if caller.Anonymous? {
      return NotAuthenticated(s);
    }
    if !IsAdminRole(s, caller) {
      return Reply(HTTP_403_FORBIDDEN, Detail("You do not have permission to perform this action."), s);
    }
    var ids := Filter(s.reports.Keys, x => true);
    r := Reply(HTTP_200_OK, ReportList(ids), s);
  }
}
