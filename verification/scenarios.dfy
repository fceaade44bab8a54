/** Worked runs of the booking lifecycle on a small showroom: a priced
    booking, a refused short booking, confirmation and cancellation, and
    the run that leaves a vehicle `Booked` with no confirmed booking. */
module Scenarios {
  import opened Base
  import opened Accounts
  import opened Fleet
  import opened Bookings
  import opened Db
  import opened Http
  import opened BookingSerializer
  import opened Signals
  import opened BookingViews

  const CUSTOMER: UserId := 0
  const ADMIN: UserId := 1
  const CAR: VehicleId := 3

  /** A car at 50.00 a day with a three-day minimum. */
  const CAR_FIELDS: VehicleFields :=
    VehicleFields("Axio", "2016", "Sedan", "Compact", 5, "Automatic", "Petrol", 5000, AVAILABLE, "", Some(3))

  /** One customer, one administrator with an admin profile, one car and
      no bookings. */
  function Showroom(): Store
  {
    Store(map[CUSTOMER := User("c@example.com", "Cleo", "0711", "C1", ROLE_CUSTOMER, true, Hashed("pw"), 0),
              ADMIN := User("a@example.com", "Abe", "0722", "A1", ROLE_ADMIN, true, Hashed("pw"), 1)],
          map[2 := AdminProfile(ADMIN, 2)],
          map[CAR := Vehicle(CAR_FIELDS, 3)],
          map[], map[], map[], 4, 4)
  }

  /** The showroom is a consistent database, its car costs 50.00 a day
      with a three-day minimum, and nothing is booked yet. */
  lemma ShowroomFacts()
    ensures var s := Showroom();
      && s.Valid() && CUSTOMER in s.users && s.users[CUSTOMER].roles == ROLE_CUSTOMER
      && ADMIN in s.users && s.users[ADMIN].roles == ROLE_ADMIN
      && CAR in s.vehicles && s.vehicles[CAR].MinDays() == Some(3) && s.vehicles[CAR].DailyRate() == 5000
      && BookingsWithin(s, CAR, {})
  {
    var s := Showroom();
    assert s.IdsIssued();
    assert s.Linked();
    assert s.CreatedInPast();
    assert s.Unique() by {
      assert s.users.Keys == {CUSTOMER, ADMIN} && s.admins.Keys == {2} && s.reports == map[];
      assert s.users[CUSTOMER].email[0] != s.users[ADMIN].email[0];
      assert s.users[CUSTOMER].licenseNumber[0] != s.users[ADMIN].licenseNumber[0];
    }
  }

  /** A customer's request for `CAR` from day `start` to day `end`. */
  function Request(start: Day, end: Day): BookingRequest
  {
    BookingRequest(Some(CAR), Some(start), Some(end), None, None, None)
  }

  /** Booking days 1 to 3 counts three days, costs 150.00 and is pending;
      a status sent by the client is ignored. */
  lemma ThreeDayBookingIsPriced()
    ensures Showroom().Valid() && Showroom().Knows(Authenticated(CUSTOMER))
    ensures var r := CreateBookingView(Showroom(), Authenticated(CUSTOMER), Request(1, 3));
      && r.status == HTTP_201_CREATED
      && 4 in r.store.bookings
      && r.store.bookings[4].totalPrice == 15000
      && r.store.bookings[4].status == PENDING
      && r.store.bookings[4].user == CUSTOMER
  {
    ShowroomFacts();
    var s := Showroom();
    var r := CreateBookingView(s, Authenticated(CUSTOMER), Request(1, 3));
    assert DayCount(1, 3) == 3;
    assert r.status == HTTP_201_CREATED;
  }

  /** A one-day booking of the same car is below its minimum period. */
  lemma OneDayBookingIsRefused()
    ensures Showroom().Valid() && Showroom().Knows(Authenticated(CUSTOMER))
    ensures var r := CreateBookingView(Showroom(), Authenticated(CUSTOMER), Request(5, 5));
      r.status == HTTP_400_BAD_REQUEST && r.store == Showroom()
  {
    ShowroomFacts();
    assert DayCount(5, 5) == 1;
  }

  /** A customer's request for vehicle `vid` from day `start` to `end`. */
  function RequestFor(vid: VehicleId, start: Day, end: Day): BookingRequest
  {
    BookingRequest(Some(vid), Some(start), Some(end), None, None, None)
  }

  /** Every booking of vehicle `vid` is one of `pks`. */
  predicate BookingsWithin(s: Store, vid: VehicleId, pks: set<BookingId>)
  {
    forall b :: b in s.bookings && s.bookings[b].vehicle == vid ==> b in pks
  }

  /** A customer's booking that meets the vehicle's minimum is saved as a
      new pending booking of the vehicle; the earlier bookings are kept as
      they were. */
  lemma BookStep(s: Store, cust: UserId, vid: VehicleId, start: Day, end: Day, pks: set<BookingId>) returns (t: Store)
    requires s.Valid() && cust in s.users && s.users[cust].roles == ROLE_CUSTOMER
    requires vid in s.vehicles && s.vehicles[vid].MinDays().Some?
    requires start <= end && DayCount(start, end) >= s.vehicles[vid].MinDays().value
    requires BookingsWithin(s, vid, pks)
    ensures CreateBookingView(s, Authenticated(cust), RequestFor(vid, start, end)).status == HTTP_201_CREATED
    ensures t == CreateBookingView(s, Authenticated(cust), RequestFor(vid, start, end)).store
    ensures t.Valid() && t.users == s.users && t.nextId > s.nextId
    ensures vid in t.vehicles && t.vehicles[vid].MinDays() == s.vehicles[vid].MinDays()
    ensures s.nextId !in s.bookings && s.nextId in t.bookings
    ensures t.bookings[s.nextId].vehicle == vid && t.bookings[s.nextId].status == PENDING
    ensures BookingsWithin(t, vid, pks + {s.nextId})
    ensures forall k :: k in s.bookings ==> k in t.bookings && t.bookings[k] == s.bookings[k]
    ensures VehicleHasActiveBooking(s, vid) ==> t.vehicles[vid] == s.vehicles[vid]
  {
    CreateBookingViewKeepsValid(s, Authenticated(cust), RequestFor(vid, start, end));
    t := CreateBookingView(s, Authenticated(cust), RequestFor(vid, start, end)).store;
  }

  /** An administrator's status change of booking `pk` stores the status
      and keeps the other bookings and the users. */
  lemma StatusStep(s: Store, admin: UserId, pk: BookingId, vid: VehicleId, v: string, pks: set<BookingId>)
    returns (t: Store)
    requires s.Valid() && admin in s.users && s.users[admin].roles == ROLE_ADMIN
    requires pk in s.bookings && s.bookings[pk].vehicle == vid && v in SETTABLE_STATUSES
    requires BookingsWithin(s, vid, pks)
    ensures t == UpdateBookingStatusView(s, Authenticated(admin), pk, Some(v)).store
    ensures t.Valid() && t.users == s.users && t.nextId == s.nextId
    ensures BookingsWithin(t, vid, pks)
    ensures pk in t.bookings && t.bookings[pk].status == v
    ensures forall k :: k in s.bookings && k != pk ==> k in t.bookings && t.bookings[k] == s.bookings[k]
  {
    UpdateBookingStatusKeepsValid(s, Authenticated(admin), pk, Some(v));
    t := UpdateBookingStatusView(s, Authenticated(admin), pk, Some(v)).store;
    StatusStepWithin(s, admin, pk, vid, v, pks);
  }

  /** The same change adds no booking to the vehicle. */
  lemma StatusStepWithin(s: Store, admin: UserId, pk: BookingId, vid: VehicleId, v: string, pks: set<BookingId>)
    requires s.Valid() && admin in s.users && s.users[admin].roles == ROLE_ADMIN
    requires pk in s.bookings && s.bookings[pk].vehicle == vid && v in SETTABLE_STATUSES
    requires BookingsWithin(s, vid, pks)
    ensures BookingsWithin(UpdateBookingStatusView(s, Authenticated(admin), pk, Some(v)).store, vid, pks)
  {
    var t := UpdateBookingStatusView(s, Authenticated(admin), pk, Some(v)).store;
    forall b | b in t.bookings && t.bookings[b].vehicle == vid
      ensures b in pks
    {
      assert b in s.bookings && s.bookings[b].vehicle == vid;
    }
  }

  /** The same change moves the vehicle as the receiver decides. */
  lemma StatusStepVehicle(s: Store, admin: UserId, pk: BookingId, vid: VehicleId, v: string)
    requires s.Valid() && admin in s.users && s.users[admin].roles == ROLE_ADMIN
    requires pk in s.bookings && s.bookings[pk].vehicle == vid && v in SETTABLE_STATUSES
    ensures var t := UpdateBookingStatusView(s, Authenticated(admin), pk, Some(v)).store;
      && vid in t.vehicles && t.vehicles[vid].MinDays() == s.vehicles[vid].MinDays()
      && (v == CONFIRMED ==> t.vehicles[vid].Status() == BOOKED)
      && (v == CANCELLED && !OtherActiveExists(s, pk) ==> t.vehicles[vid].Status() == AVAILABLE)
      && (v == CANCELLED && OtherActiveExists(s, pk) ==> t.vehicles[vid] == s.vehicles[vid])
  {
    ChoicesAreLowerCase(v);
  }

  /** On a vehicle with a minimum of at most three days and no bookings:
      book days 1 to 3, confirm, cancel. Confirmation books the vehicle and
      cancellation frees it again. */
  lemma ConfirmThenCancel(s: Store, cust: UserId, admin: UserId, vid: VehicleId) returns (a: Store, c: Store, e: Store)
    requires s.Valid() && cust in s.users && s.users[cust].roles == ROLE_CUSTOMER
    requires admin in s.users && s.users[admin].roles == ROLE_ADMIN
    requires vid in s.vehicles && s.vehicles[vid].MinDays().Some? && s.vehicles[vid].MinDays().value <= 3
    requires BookingsWithin(s, vid, {})
    ensures a == CreateBookingView(s, Authenticated(cust), RequestFor(vid, 1, 3)).store
    ensures a.Valid() && a.Knows(Authenticated(admin))
    ensures c == UpdateBookingStatusView(a, Authenticated(admin), s.nextId, Some(CONFIRMED)).store
    ensures c.Valid() && c.Knows(Authenticated(admin))
    ensures vid in c.vehicles && c.vehicles[vid].Status() == BOOKED
    ensures e == UpdateBookingStatusView(c, Authenticated(admin), s.nextId, Some(CANCELLED)).store
    ensures vid in e.vehicles && e.vehicles[vid].Status() == AVAILABLE
  {
    var pk := s.nextId;
    a := BookStep(s, cust, vid, 1, 3, {});
    c := StatusStep(a, admin, pk, vid, CONFIRMED, {pk});
    StatusStepVehicle(a, admin, pk, vid, CONFIRMED);
    e := StatusStep(c, admin, pk, vid, CANCELLED, {pk});
    StatusStepVehicle(c, admin, pk, vid, CANCELLED);
  }

  /** On the same kind of vehicle: book days 1 to 3 (A), confirm A, then
      book days 10 to 12 (B). B is pending, and the vehicle stays `Booked`
      because A holds it; A and B are its only bookings. */
  lemma ConfirmThenRebook(s: Store, cust: UserId, admin: UserId, vid: VehicleId)
    returns (a: Store, c: Store, d: Store)
    requires s.Valid() && cust in s.users && s.users[cust].roles == ROLE_CUSTOMER
    requires admin in s.users && s.users[admin].roles == ROLE_ADMIN
    requires vid in s.vehicles && s.vehicles[vid].MinDays().Some? && s.vehicles[vid].MinDays().value <= 3
    requires BookingsWithin(s, vid, {})
    ensures a == CreateBookingView(s, Authenticated(cust), RequestFor(vid, 1, 3)).store
    ensures a.Valid() && a.Knows(Authenticated(admin))
    ensures c == UpdateBookingStatusView(a, Authenticated(admin), s.nextId, Some(CONFIRMED)).store
    ensures c.Valid() && c.Knows(Authenticated(cust))
    ensures d == CreateBookingView(c, Authenticated(cust), RequestFor(vid, 10, 12)).store
    ensures d.Valid() && d.Knows(Authenticated(admin)) && vid in d.vehicles && d.vehicles[vid].Status() == BOOKED
    ensures s.nextId in d.bookings && d.bookings[s.nextId].vehicle == vid && d.bookings[s.nextId].status == CONFIRMED
    ensures c.nextId in d.bookings && d.bookings[c.nextId].status == PENDING && c.nextId != s.nextId
    ensures BookingsWithin(d, vid, {s.nextId, c.nextId})
  {
    var pkA := s.nextId;
    a := BookStep(s, cust, vid, 1, 3, {});
    c := StatusStep(a, admin, pkA, vid, CONFIRMED, {pkA});
    StatusStepVehicle(a, admin, pkA, vid, CONFIRMED);
    var pkB := c.nextId;
    assert DayCount(10, 12) == 3;
    assert VehicleHasActiveBooking(c, vid) by {
      assert IsActive(c.bookings[pkA]);
    }
    d := BookStep(c, cust, vid, 10, 12, {pkA});
  }

  /** Cancel a confirmed booking A of a `Booked` vehicle whose only other
      booking B is pending (the state `ConfirmThenRebook` reaches). B keeps
      the vehicle held, so it stays `Booked` although none of its bookings
      is confirmed: "Booked exactly when a confirmed booking exists" is not
      an invariant. */
  lemma CancelLeavesStaleBooked(d: Store, admin: UserId, vid: VehicleId, pkA: BookingId, pkB: BookingId)
    returns (e: Store)
    requires d.Valid() && admin in d.users && d.users[admin].roles == ROLE_ADMIN
    requires vid in d.vehicles && d.vehicles[vid].Status() == BOOKED
    requires pkA in d.bookings && d.bookings[pkA].vehicle == vid && d.bookings[pkA].status == CONFIRMED
    requires pkB in d.bookings && d.bookings[pkB].vehicle == vid && d.bookings[pkB].status == PENDING
    requires pkA != pkB && BookingsWithin(d, vid, {pkA, pkB})
    ensures e == UpdateBookingStatusView(d, Authenticated(admin), pkA, Some(CANCELLED)).store
    ensures vid in e.vehicles && e.vehicles[vid].Status() == BOOKED
    ensures forall b :: b in e.bookings && e.bookings[b].vehicle == vid ==> e.bookings[b].status != CONFIRMED
  {
    HeldByOther(d, pkA, pkB);
    e := StatusStep(d, admin, pkA, vid, CANCELLED, {pkA, pkB});
    StatusStepVehicle(d, admin, pkA, vid, CANCELLED);
    NoneConfirmed(e, vid, pkA, pkB);
  }

  /** When a vehicle's only bookings are a cancelled and a pending one,
      none of its bookings is confirmed. */
  lemma NoneConfirmed(e: Store, vid: VehicleId, pkA: BookingId, pkB: BookingId)
    requires BookingsWithin(e, vid, {pkA, pkB})
    requires pkA in e.bookings && e.bookings[pkA].status == CANCELLED
    requires pkB in e.bookings && e.bookings[pkB].status == PENDING
    ensures forall b :: b in e.bookings && e.bookings[b].vehicle == vid ==> e.bookings[b].status != CONFIRMED
  {
  }

  /** A pending booking B of the same vehicle is another active booking
      for A. */
  lemma HeldByOther(d: Store, pkA: BookingId, pkB: BookingId)
    requires pkA in d.bookings && pkB in d.bookings && pkA != pkB
    requires d.bookings[pkB].vehicle == d.bookings[pkA].vehicle && d.bookings[pkB].status == PENDING
    ensures OtherActiveExists(d, pkA)
  {
    assert IsActive(d.bookings[pkB]);
  }
}
