/** The persistent store: one map per table, a fresh-id counter and a clock
    tick for `created_at`, together with the integrity the database keeps
    (foreign keys, unique columns, one-to-one links) and the cascades of
    `on_delete=CASCADE`. */
module Db {
  import opened Base
  import opened Accounts
  import opened Fleet
  import opened Bookings

  datatype Store = Store(
    users: map<UserId, User>,
    admins: map<AdminId, AdminProfile>,
    vehicles: map<VehicleId, Vehicle>,
    images: map<ImageId, VehicleImage>,
    bookings: map<BookingId, Booking>,
    reports: map<ReportId, DamageReport>,
    nextId: nat,
    now: nat)
  {
    /** The token of an authenticated request resolved to a stored user. */
    predicate Knows(caller: Caller)
    {
      caller.Authenticated? ==> caller.id in users
    }

    /** Every row id was drawn from the counter. */
    predicate IdsIssued()
    {
      && (forall k :: k in users ==> k < nextId)
      && (forall k :: k in admins ==> k < nextId)
      && (forall k :: k in vehicles ==> k < nextId)
      && (forall k :: k in images ==> k < nextId)
      && (forall k :: k in bookings ==> k < nextId)
      && (forall k :: k in reports ==> k < nextId)
    }

    /** Every foreign key points at a stored row. */
    predicate Linked()
    {
      && (forall a :: a in admins ==> admins[a].user in users)
      && (forall i :: i in images ==> images[i].vehicle in vehicles)
      && (forall b :: b in bookings ==> bookings[b].user in users && bookings[b].vehicle in vehicles)
      && (forall r :: r in reports ==> reports[r].booking in bookings)
    }

    /** The one-to-one links and the unique user columns. */
    predicate Unique()
    {
      && (forall a, a' :: a in admins && a' in admins && a != a' ==> admins[a].user != admins[a'].user)
      && (forall r, r' :: r in reports && r' in reports && r != r' ==> reports[r].booking != reports[r'].booking)
      && (forall u, u' :: u in users && u' in users && u != u' ==> users[u].email != users[u'].email)
      && (forall u, u' :: u in users && u' in users && u != u' ==> users[u].licenseNumber != users[u'].licenseNumber)
    }

    /** Bookings were created before the current tick. */
    predicate CreatedInPast()
    {
      forall b :: b in bookings ==> bookings[b].createdAt < now
    }

    /** The integrity the database maintains between requests. */
    predicate Valid()
    {
      IdsIssued() && Linked() && Unique() && CreatedInPast()
    }

    /** The same store after a row insertion consumed one id and one tick. */
    function Tick(): (s: Store)
      ensures s.nextId == nextId + 1 && s.now == now + 1
      ensures s.(nextId := nextId, now := now) == this
    {
      this.(nextId := nextId + 1, now := now + 1)
    }

    /** Insert a booking row under the next id. */
    function InsertBooking(b: Booking): (s: Store)
      ensures s.bookings == bookings[nextId := b]
      ensures s == Tick().(bookings := bookings[nextId := b])
    {
      Tick().(bookings := bookings[nextId := b])
    }

    /** Insert a damage-report row under the next id. */
    function InsertReport(rep: DamageReport): (s: Store)
      ensures s.reports == reports[nextId := rep]
      ensures s == Tick().(reports := reports[nextId := rep])
    {
      Tick().(reports := reports[nextId := rep])
    }

    /** Insert a vehicle row, stamped with the current tick, under the
        next id. */
    function InsertVehicle(data: VehicleFields): (s: Store)
      ensures s == Tick().(vehicles := vehicles[nextId := Vehicle(data, now)])
    {
      Tick().(vehicles := vehicles[nextId := Vehicle(data, now)])
    }

    /** Some stored user already has this email. */
    predicate EmailTaken(email: string)
    {
      exists u :: u in users && users[u].email == email
    }

    /** Some stored user already has this license number. */
    predicate LicenseTaken(license: string)
    {
      exists u :: u in users && users[u].licenseNumber == license
    }

    /** Insert a user row under the next id. */
    function InsertUser(u: User): (s: Store)
      ensures s == Tick().(users := users[nextId := u])
    {
      Tick().(users := users[nextId := u])
    }

    /** Insert an admin profile for `uid` under the next id. */
    function InsertAdmin(uid: UserId): (s: Store)
      ensures s == Tick().(admins := admins[nextId := AdminProfile(uid, now)])
    {
      Tick().(admins := admins[nextId := AdminProfile(uid, now)])
    }

    /** The bookings of a vehicle. */
    function BookingsOfVehicle(vid: VehicleId): set<BookingId>
    {
      set b | b in bookings && bookings[b].vehicle == vid
    }

    /** The bookings of a user. */
    function BookingsOfUser(uid: UserId): set<BookingId>
    {
      set b | b in bookings && bookings[b].user == uid
    }

    /** Remove a set of bookings and, by cascade, their damage reports. */
    function DropBookings(doomed: set<BookingId>): (s: Store)
      ensures s.bookings.Keys == bookings.Keys - doomed
      ensures forall b :: b in s.bookings ==> s.bookings[b] == bookings[b]
      ensures forall r :: r in s.reports <==> r in reports && reports[r].booking !in doomed
      ensures forall r :: r in s.reports ==> s.reports[r] == reports[r]
      ensures s.(bookings := bookings, reports := reports) == this
    {
      this.(bookings := map b | b in bookings && b !in doomed :: bookings[b],
            reports := map r | r in reports && reports[r].booking !in doomed :: reports[r])
    }

    /** `vehicle.delete()`: the vehicle goes, and with it its images, its
        bookings and their damage reports. */
    function DeleteVehicle(vid: VehicleId): (s: Store)
      ensures vid !in s.vehicles
      ensures s.vehicles.Keys == vehicles.Keys - {vid}
      ensures forall v :: v in s.vehicles ==> s.vehicles[v] == vehicles[v]
      ensures forall i :: i in s.images <==> i in images && images[i].vehicle != vid
      ensures forall b :: b in s.bookings <==> b in bookings && bookings[b].vehicle != vid
      ensures forall b :: b in s.bookings ==> s.bookings[b] == bookings[b]
      ensures forall r :: r in s.reports <==> r in reports && reports[r].booking !in BookingsOfVehicle(vid)
      ensures forall r :: r in s.reports ==> s.reports[r] == reports[r]
      ensures forall i :: i in s.images ==> s.images[i] == images[i]
      ensures s.users == users && s.admins == admins
      ensures s.nextId == nextId && s.now == now
    {
      var t := DropBookings(BookingsOfVehicle(vid));
      t.(vehicles := vehicles - {vid},
         images := map i | i in images && images[i].vehicle != vid :: images[i])
    }

    /** Deleting a user removes, by cascade, the user's admin profile, the
        user's bookings and their damage reports. No view of this model
        deletes users; the cascade is part of the schema. */
    function DeleteUser(uid: UserId): (s: Store)
      ensures s.users.Keys == users.Keys - {uid}
      ensures forall u :: u in s.users ==> s.users[u] == users[u]
      ensures forall a :: a in s.admins <==> a in admins && admins[a].user != uid
      ensures forall a :: a in s.admins ==> s.admins[a] == admins[a]
      ensures forall b :: b in s.bookings <==> b in bookings && bookings[b].user != uid
      ensures forall b :: b in s.bookings ==> s.bookings[b] == bookings[b]
      ensures forall r :: r in s.reports <==> r in reports && reports[r].booking !in BookingsOfUser(uid)
      ensures forall r :: r in s.reports ==> s.reports[r] == reports[r]
      ensures s.vehicles == vehicles && s.images == images
      ensures s.nextId == nextId && s.now == now
    {
      var t := DropBookings(BookingsOfUser(uid));
      t.(users := users - {uid},
         admins := map a | a in admins && admins[a].user != uid :: admins[a])
    }
  }

  /** A booking whose user and vehicle exist, stamped with the current
      tick, can be inserted without breaking integrity. */
  lemma InsertBookingKeepsValid(s: Store, b: Booking)
    requires s.Valid()
    requires b.user in s.users && b.vehicle in s.vehicles && b.createdAt == s.now
    ensures s.InsertBooking(b).Valid()
    ensures s.nextId !in s.bookings
  {
    InsertBookingKeepsIds(s, b);
    InsertBookingKeepsLinks(s, b);
    assert s.InsertBooking(b).Unique() by {
      assert s.InsertBooking(b).Unique() == s.Unique();
    }
  }

  lemma InsertBookingKeepsIds(s: Store, b: Booking)
    requires s.IdsIssued() && s.CreatedInPast() && b.createdAt == s.now
    ensures s.InsertBooking(b).IdsIssued() && s.InsertBooking(b).CreatedInPast()
  {
  }

  lemma InsertBookingKeepsLinks(s: Store, b: Booking)
    requires s.Linked() && b.user in s.users && b.vehicle in s.vehicles
    ensures s.InsertBooking(b).Linked()
  {
  }

  /** A report for an existing booking that has no report yet can be
      inserted without breaking integrity. */
  lemma InsertReportKeepsValid(s: Store, rep: DamageReport)
    requires s.Valid()
    requires rep.booking in s.bookings
    requires forall r :: r in s.reports ==> s.reports[r].booking != rep.booking
    ensures s.InsertReport(rep).Valid()
    ensures s.nextId !in s.reports
  {
    InsertReportKeepsIds(s, rep);
    InsertReportKeepsLinks(s, rep);
    InsertReportKeepsUnique(s, rep);
  }

  lemma InsertReportKeepsIds(s: Store, rep: DamageReport)
    requires s.IdsIssued()
    ensures s.InsertReport(rep).IdsIssued()
  {
  }

  lemma InsertReportKeepsLinks(s: Store, rep: DamageReport)
    requires s.Linked() && rep.booking in s.bookings
    ensures s.InsertReport(rep).Linked()
  {
  }

  lemma InsertReportKeepsUnique(s: Store, rep: DamageReport)
    requires s.Unique() && s.IdsIssued()
    requires forall r :: r in s.reports ==> s.reports[r].booking != rep.booking
    ensures s.InsertReport(rep).Unique()
  {
    var t := s.InsertReport(rep);
    forall x, y | x in t.reports && y in t.reports && x != y
      ensures t.reports[x].booking != t.reports[y].booking
    {
      if x == s.nextId {
        assert y in s.reports;
      } else if y == s.nextId {
        assert x in s.reports;
      }
    }
  }


  /** Rewriting a stored booking that keeps its user, vehicle and creation
      tick keeps integrity. */
  lemma ReplaceBookingKeepsValid(s: Store, pk: BookingId, b: Booking)
    requires s.Valid() && pk in s.bookings
    requires b.user in s.users && b.vehicle in s.vehicles && b.createdAt == s.bookings[pk].createdAt
    ensures s.(bookings := s.bookings[pk := b]).Valid()
  {
    var t := s.(bookings := s.bookings[pk := b]);
    ReplaceBookingKeepsIds(s, pk, b);
    ReplaceBookingKeepsLinks(s, pk, b);
    ReplaceBookingKeepsPast(s, pk, b);
    ReplaceBookingKeepsUnique(s, pk, b);
  }

  lemma ReplaceBookingKeepsUnique(s: Store, pk: BookingId, b: Booking)
    requires s.Unique()
    ensures s.(bookings := s.bookings[pk := b]).Unique()
  {
  }

  lemma ReplaceBookingKeepsIds(s: Store, pk: BookingId, b: Booking)
    requires s.IdsIssued() && pk in s.bookings
    ensures s.(bookings := s.bookings[pk := b]).IdsIssued()
  {
  }

  lemma ReplaceBookingKeepsLinks(s: Store, pk: BookingId, b: Booking)
    requires s.Linked() && pk in s.bookings
    requires b.user in s.users && b.vehicle in s.vehicles
    ensures s.(bookings := s.bookings[pk := b]).Linked()
  {
  }

  lemma ReplaceBookingKeepsPast(s: Store, pk: BookingId, b: Booking)
    requires s.CreatedInPast() && pk in s.bookings
    requires b.createdAt == s.bookings[pk].createdAt
    ensures s.(bookings := s.bookings[pk := b]).CreatedInPast()
  {
  }

  /** A vehicle row can be inserted without breaking integrity. */
  lemma InsertVehicleKeepsValid(s: Store, data: VehicleFields)
    requires s.Valid()
    ensures s.InsertVehicle(data).Valid()
    ensures s.nextId !in s.vehicles
  {
    InsertVehicleKeepsIds(s, data);
    InsertVehicleKeepsLinks(s, data);
    assert s.InsertVehicle(data).Unique() == s.Unique();
  }

  lemma InsertVehicleKeepsIds(s: Store, data: VehicleFields)
    requires s.IdsIssued()
    ensures s.InsertVehicle(data).IdsIssued()
  {
  }

  lemma InsertVehicleKeepsLinks(s: Store, data: VehicleFields)
    requires s.Linked()
    ensures s.InsertVehicle(data).Linked()
  {
  }

  /** Rewriting the columns of a stored vehicle keeps integrity. */
  lemma ReplaceVehicleKeepsValid(s: Store, pk: VehicleId, v: Vehicle)
    requires s.Valid() && pk in s.vehicles
    ensures s.(vehicles := s.vehicles[pk := v]).Valid()
  {
    ReplaceVehicleKeepsIds(s, pk, v);
    ReplaceVehicleKeepsLinks(s, pk, v);
    assert s.(vehicles := s.vehicles[pk := v]).Unique() == s.Unique();
  }

  lemma ReplaceVehicleKeepsIds(s: Store, pk: VehicleId, v: Vehicle)
    requires s.IdsIssued() && pk in s.vehicles
    ensures s.(vehicles := s.vehicles[pk := v]).IdsIssued()
  {
  }

  lemma ReplaceVehicleKeepsLinks(s: Store, pk: VehicleId, v: Vehicle)
    requires s.Linked() && pk in s.vehicles
    ensures s.(vehicles := s.vehicles[pk := v]).Linked()
  {
  }

  /** A user whose email and license number are both unused can be
      inserted without breaking integrity. */
  lemma InsertUserKeepsValid(s: Store, u: User)
    requires s.Valid()
    requires !s.EmailTaken(u.email) && !s.LicenseTaken(u.licenseNumber)
    ensures s.InsertUser(u).Valid()
    ensures s.nextId !in s.users
  {
    InsertUserKeepsIds(s, u);
    InsertUserKeepsLinks(s, u);
    InsertUserKeepsUnique(s, u);
  }

  lemma InsertUserKeepsIds(s: Store, u: User)
    requires s.IdsIssued()
    ensures s.InsertUser(u).IdsIssued()
  {
  }

  lemma InsertUserKeepsLinks(s: Store, u: User)
    requires s.Linked()
    ensures s.InsertUser(u).Linked()
  {
  }

  lemma InsertUserKeepsUnique(s: Store, u: User)
    requires s.Unique() && s.IdsIssued()
    requires !s.EmailTaken(u.email) && !s.LicenseTaken(u.licenseNumber)
    ensures s.InsertUser(u).Unique()
  {
    var t := s.InsertUser(u);
    forall x, y | x in t.users && y in t.users && x != y
      ensures t.users[x].email != t.users[y].email
      ensures t.users[x].licenseNumber != t.users[y].licenseNumber
    {
      if x == s.nextId {
        assert y in s.users;
      } else if y == s.nextId {
        assert x in s.users;
      }
    }
  }

  /** An admin profile for a stored user that has none can be inserted
      without breaking integrity. */
  lemma InsertAdminKeepsValid(s: Store, uid: UserId)
    requires s.Valid() && uid in s.users
    requires forall a :: a in s.admins ==> s.admins[a].user != uid
    ensures s.InsertAdmin(uid).Valid()
  {
    InsertAdminKeepsIds(s, uid);
    InsertAdminKeepsLinks(s, uid);
    InsertAdminKeepsUnique(s, uid);
  }

  lemma InsertAdminKeepsIds(s: Store, uid: UserId)
    requires s.IdsIssued()
    ensures s.InsertAdmin(uid).IdsIssued()
  {
  }

  lemma InsertAdminKeepsLinks(s: Store, uid: UserId)
    requires s.Linked() && uid in s.users
    ensures s.InsertAdmin(uid).Linked()
  {
  }

  lemma InsertAdminKeepsUnique(s: Store, uid: UserId)
    requires s.Unique() && s.IdsIssued()
    requires forall a :: a in s.admins ==> s.admins[a].user != uid
    ensures s.InsertAdmin(uid).Unique()
  {
    var t := s.InsertAdmin(uid);
    forall x, y | x in t.admins && y in t.admins && x != y
      ensures t.admins[x].user != t.admins[y].user
    {
      if x == s.nextId {
        assert y in s.admins;
      } else if y == s.nextId {
        assert x in s.admins;
      }
    }
  }

  /** Vehicle deletion keeps every foreign key, one-to-one link and unique
      column intact. */
  lemma DeleteVehicleKeepsValid(s: Store, vid: VehicleId)
    requires s.Valid()
    ensures s.DeleteVehicle(vid).Valid()
  {
    DeleteVehicleKeepsIds(s, vid);
    DeleteVehicleKeepsLinks(s, vid);
    DeleteVehicleKeepsUnique(s, vid);
  }

  lemma DeleteVehicleKeepsIds(s: Store, vid: VehicleId)
    requires s.IdsIssued() && s.CreatedInPast()
    ensures s.DeleteVehicle(vid).IdsIssued() && s.DeleteVehicle(vid).CreatedInPast()
  {
  }

  lemma DeleteVehicleKeepsLinks(s: Store, vid: VehicleId)
    requires s.Linked()
    ensures s.DeleteVehicle(vid).Linked()
  {
    var u := s.DeleteVehicle(vid);
    forall r | r in u.reports
      ensures u.reports[r].booking in u.bookings
    {
      assert s.reports[r].booking in s.bookings;
      assert s.reports[r].booking !in s.BookingsOfVehicle(vid);
    }
  }

  lemma DeleteVehicleKeepsUnique(s: Store, vid: VehicleId)
    requires s.Unique()
    ensures s.DeleteVehicle(vid).Unique()
  {
  }

  /** User deletion keeps every foreign key, one-to-one link and unique
      column intact. */
  lemma DeleteUserKeepsValid(s: Store, uid: UserId)
    requires s.Valid()
    ensures s.DeleteUser(uid).Valid()
  {
    DeleteUserKeepsIds(s, uid);
    DeleteUserKeepsLinks(s, uid);
    DeleteUserKeepsUnique(s, uid);
  }

  lemma DeleteUserKeepsIds(s: Store, uid: UserId)
    requires s.IdsIssued() && s.CreatedInPast()
    ensures s.DeleteUser(uid).IdsIssued() && s.DeleteUser(uid).CreatedInPast()
  {
  }

  lemma DeleteUserKeepsLinks(s: Store, uid: UserId)
    requires s.Linked()
    ensures s.DeleteUser(uid).Linked()
  {
    var u := s.DeleteUser(uid);
    forall r | r in u.reports
      ensures u.reports[r].booking in u.bookings
    {
      assert s.reports[r].booking in s.bookings;
      assert s.reports[r].booking !in s.BookingsOfUser(uid);
    }
  }

  lemma DeleteUserKeepsUnique(s: Store, uid: UserId)
    requires s.Unique()
    ensures s.DeleteUser(uid).Unique()
  {
    var u := s.DeleteUser(uid);
    assert forall a :: a in u.admins ==> a in s.admins && u.admins[a] == s.admins[a];
  }
}
