/** The vehicle endpoints (vehicles/views.py), as an access decision over
    the vehicle table. Both views admit anonymous callers and make their
    own checks; a refusal on a write answers with an error body but no
    status, which the framework sends as 200. */
module VehicleViews {
  import opened Base
  import opened Accounts
  import opened Fleet
  import opened Bookings
  import opened Db
  import opened Http
  import opened Signals

  datatype ListRequest = ListGet | ListPost(data: VehicleFields)
  datatype DetailRequest = DetailGet | DetailPut(update: VehicleUpdate) | DetailDelete

  /** A PUT body. The serializer does not require the nullable or blank
      columns `min_days` and `features`: a full update that omits one of
      them leaves its stored value in place. Every other column is sent. */
  datatype VehicleUpdate = VehicleUpdate(data: VehicleFields, sendsMinDays: bool, sendsFeatures: bool)

  /** The columns the serializer checks: an omitted column is absent, which
      its blank or null default always passes. */
  function Sent(u: VehicleUpdate): (f: VehicleFields)
    ensures f.minDays == (if u.sendsMinDays then u.data.minDays else None)
    ensures f.features == (if u.sendsFeatures then u.data.features else "")
    ensures f.(minDays := u.data.minDays, features := u.data.features) == u.data
  {
    u.data.(minDays := if u.sendsMinDays then u.data.minDays else None,
            features := if u.sendsFeatures then u.data.features else "")
  }

  /** The column checks on the columns actually sent. */
  predicate ValidUpdate(u: VehicleUpdate)
  {
    ValidFields(Sent(u))
  }

  /** The stored columns `stored` after the update `u`. */
  function Updated(stored: VehicleFields, u: VehicleUpdate): VehicleFields
  {
    u.data.(minDays := if u.sendsMinDays then u.data.minDays else stored.minDays,
            features := if u.sendsFeatures then u.data.features else stored.features)
  }

  /** The caller is an authenticated user whose `roles` is `admin`. */
  predicate IsAdminUser(s: Store, caller: Caller)
    requires s.Knows(caller)
  {
    caller.Authenticated? && s.users[caller.id].roles == ROLE_ADMIN
  }

  /** `vehicle_list_create_view`. GET lists every vehicle to anyone. POST
      needs an authenticated caller (401), then `roles` `admin` (an error
      body with status 200), then valid data; invalid data reaches a
      misspelt status attribute and raises (500). Only a successful POST
      changes the store. */
  function VehicleListCreate(s: Store, caller: Caller, req: ListRequest): (r: Reply)
    requires s.Knows(caller)
    ensures req.ListGet? ==> r == Reply(HTTP_200_OK, VehicleList(s.vehicles.Keys), s)
    ensures req.ListPost? && caller.Anonymous? ==> r.status == HTTP_401_UNAUTHORIZED
    ensures req.ListPost? && caller.Authenticated? && !IsAdminUser(s, caller) ==>
      r.status == HTTP_200_OK && r.body.Detail?
    ensures r.status == HTTP_201_CREATED <==> req.ListPost? && IsAdminUser(s, caller) && ValidFields(req.data)
    ensures r.status != HTTP_201_CREATED ==> r.store == s
    ensures r.status == HTTP_201_CREATED ==>
      r.body == VehicleData(s.nextId) && r.store == s.InsertVehicle(req.data)
  {
    match req
    case ListGet => Reply(HTTP_200_OK, VehicleList(s.vehicles.Keys), s)
    case ListPost(data) =>
      if caller.Anonymous? then
        Reply(HTTP_401_UNAUTHORIZED, Detail("You must be loggen in as admin to add vehicle"), s)
      else if s.users[caller.id].roles != ROLE_ADMIN then
        Reply(HTTP_200_OK, Detail("Only admins can add a vehicle"), s)
      else if ValidFields(data) then
        Reply(HTTP_201_CREATED, VehicleData(s.nextId), s.InsertVehicle(data))
      else
        Reply(HTTP_500_SERVER_ERROR, Crash("AttributeError: status.hHTTP"), s)
  }

  /** `vehicle_detail_view`. An unknown id answers 404 to every method
      before any role check. GET is public. PUT and DELETE by anyone but an
      authenticated `admin` answer an error body with status 200. An
      administrator's valid PUT replaces the writable columns (200), an
      invalid one answers 400, and DELETE removes the vehicle with its
      images, bookings and their reports (204). */
  function VehicleDetail(s: Store, caller: Caller, pk: VehicleId, req: DetailRequest): (r: Reply)
    requires s.Knows(caller)
    ensures pk !in s.vehicles ==> r.status == HTTP_404_NOT_FOUND && r.store == s
    ensures pk in s.vehicles && req.DetailGet? ==> r == Reply(HTTP_200_OK, VehicleData(pk), s)
    ensures pk in s.vehicles && !req.DetailGet? && !IsAdminUser(s, caller) ==>
      r.status == HTTP_200_OK && r.body.Detail? && r.store == s
    ensures pk in s.vehicles && req.DetailPut? && IsAdminUser(s, caller) && !ValidUpdate(req.update) ==>
      r.status == HTTP_400_BAD_REQUEST && r.store == s
      && r.body.FieldErrors? && r.body.fields != {} && r.body.fields == ColumnErrors(Sent(req.update))
    ensures pk in s.vehicles && req.DetailPut? && IsAdminUser(s, caller) && ValidUpdate(req.update) ==>
      var u := req.update;
      && r.status == HTTP_200_OK && r.body == VehicleData(pk)
      && r.store.vehicles.Keys == s.vehicles.Keys
      && r.store.vehicles[pk].createdAt == s.vehicles[pk].createdAt
      && r.store.vehicles[pk].fields.(minDays := u.data.minDays, features := u.data.features) == u.data
      && r.store.vehicles[pk].MinDays() == (if u.sendsMinDays then u.data.minDays else s.vehicles[pk].MinDays())
      && r.store.vehicles[pk].fields.features
         == (if u.sendsFeatures then u.data.features else s.vehicles[pk].fields.features)
      && (forall v :: v in s.vehicles && v != pk ==> r.store.vehicles[v] == s.vehicles[v])
      && r.store == s.(vehicles := r.store.vehicles)
    ensures r.status == HTTP_204_NO_CONTENT <==> pk in s.vehicles && req.DetailDelete? && IsAdminUser(s, caller)
    ensures r.status == HTTP_204_NO_CONTENT ==> r.store == s.DeleteVehicle(pk)
  {
    if pk !in s.vehicles then
      Reply(HTTP_404_NOT_FOUND, Detail("Vehicle not found"), s)
    else
      match req
      case DetailGet => Reply(HTTP_200_OK, VehicleData(pk), s)
      case DetailPut(u) =>
        if caller.Anonymous? || s.users[caller.id].roles != ROLE_ADMIN then
          Reply(HTTP_200_OK, Detail("Only admins can update vehicles"), s)
        else if ValidUpdate(u) then
          Reply(HTTP_200_OK, VehicleData(pk),
                s.(vehicles := s.vehicles[pk := Vehicle(Updated(s.vehicles[pk].fields, u), s.vehicles[pk].createdAt)]))
        else
          Reply(HTTP_400_BAD_REQUEST, FieldErrors(ColumnErrors(Sent(u))), s)
      case DetailDelete =>
        if caller.Anonymous? || s.users[caller.id].roles != ROLE_ADMIN then
          Reply(HTTP_200_OK, Detail("Only admins can delete a vehicle"), s)
        else
          Reply(HTTP_204_NO_CONTENT, Detail("Vehice deleted successfully"), s.DeleteVehicle(pk))
  }

  /** Only an authenticated administrator ever changes the vehicle table,
      and a refused write never answers 401 or 403 on the detail view. */
  lemma VehicleWritesAdminOnly(s: Store, caller: Caller, pk: VehicleId, lreq: ListRequest, dreq: DetailRequest)
    requires s.Knows(caller)
    requires !IsAdminUser(s, caller)
    ensures VehicleListCreate(s, caller, lreq).store == s
    ensures VehicleDetail(s, caller, pk, dreq).store == s
    ensures VehicleDetail(s, caller, pk, dreq).status in {HTTP_200_OK, HTTP_404_NOT_FOUND}
  {
  }

  /** Inserting a vehicle keeps "every confirmed booking's vehicle shows
      Booked" and, for valid data, valid vehicle statuses. */
  lemma InsertVehicleKeepsInvariants(s: Store, data: VehicleFields)
    requires s.Valid() && ConfirmedShowBooked(s) && VehicleStatusesValid(s)
    requires ValidFields(data)
    ensures ConfirmedShowBooked(s.InsertVehicle(data))
    ensures VehicleStatusesValid(s.InsertVehicle(data))
  {
    var t := s.InsertVehicle(data);
    assert s.nextId !in s.vehicles;
    forall b | b in t.bookings && t.bookings[b].status == CONFIRMED && t.bookings[b].vehicle in t.vehicles
      ensures t.vehicles[t.bookings[b].vehicle].Status() == BOOKED
    {
      assert s.bookings[b].vehicle in s.vehicles;
    }
  }

  /** Every request to the list view keeps the database integrity. */
  lemma VehicleListCreateKeepsValid(s: Store, caller: Caller, req: ListRequest)
    requires s.Valid() && s.Knows(caller)
    ensures VehicleListCreate(s, caller, req).store.Valid()
  {
    if req.ListPost? && IsAdminUser(s, caller) && ValidFields(req.data) {
      InsertVehicleKeepsValid(s, req.data);
    }
  }

  /** Every request to the detail view keeps the database integrity. */
  lemma VehicleDetailKeepsValid(s: Store, caller: Caller, pk: VehicleId, req: DetailRequest)
    requires s.Valid() && s.Knows(caller)
    ensures VehicleDetail(s, caller, pk, req).store.Valid()
  {
    match req
    case DetailGet =>
    case DetailDelete => DetailDeleteKeepsValid(s, caller, pk);
    case DetailPut(u) => DetailPutKeepsValid(s, caller, pk, u);
  }

  lemma DetailDeleteKeepsValid(s: Store, caller: Caller, pk: VehicleId)
    requires s.Valid() && s.Knows(caller)
    ensures VehicleDetail(s, caller, pk, DetailDelete).store.Valid()
  {
    if pk in s.vehicles && IsAdminUser(s, caller) {
      DeleteVehicleKeepsValid(s, pk);
    }
  }

  lemma DetailPutKeepsValid(s: Store, caller: Caller, pk: VehicleId, u: VehicleUpdate)
    requires s.Valid() && s.Knows(caller)
    ensures VehicleDetail(s, caller, pk, DetailPut(u)).store.Valid()
  {
    if pk in s.vehicles && IsAdminUser(s, caller) && ValidUpdate(u) {
      var v := Vehicle(Updated(s.vehicles[pk].fields, u), s.vehicles[pk].createdAt);
      assert VehicleDetail(s, caller, pk, DetailPut(u)).store == s.(vehicles := s.vehicles[pk := v]);
      ReplaceVehicleKeepsValid(s, pk, v);
    } else {
      assert VehicleDetail(s, caller, pk, DetailPut(u)).store == s;
    }
  }

  /** A PUT that omits `min_days` never changes a vehicle's minimum rental
      period, so it cannot make a bookable vehicle unbookable. */
  lemma PutWithoutMinDaysKeepsMinimum(s: Store, caller: Caller, pk: VehicleId, u: VehicleUpdate)
    requires s.Knows(caller) && !u.sendsMinDays
    ensures var t := VehicleDetail(s, caller, pk, DetailPut(u)).store;
      t.vehicles.Keys == s.vehicles.Keys
      && forall v :: v in s.vehicles ==> t.vehicles[v].MinDays() == s.vehicles[v].MinDays()
  {
  }

  /** A seat count or a sent minimum beyond the 64-bit column is refused:
      an administrator's PUT answers 400 naming the column and changes
      nothing, and a POST reaches the misspelt status attribute (500). */
  lemma OversizedIntegerRefused(s: Store, caller: Caller, pk: VehicleId, u: VehicleUpdate)
    requires s.Knows(caller) && IsAdminUser(s, caller) && pk in s.vehicles
    requires !FitsIntegerColumn(u.data.seats) || (u.sendsMinDays && u.data.minDays.Some? && !FitsIntegerColumn(u.data.minDays.value))
    ensures var r := VehicleDetail(s, caller, pk, DetailPut(u));
      && r.status == HTTP_400_BAD_REQUEST && r.store == s && r.body.FieldErrors?
      && (!FitsIntegerColumn(u.data.seats) ==> "seats" in r.body.fields)
      && (u.sendsMinDays && u.data.minDays.Some? && !FitsIntegerColumn(u.data.minDays.value) ==>
            "min_days" in r.body.fields)
    ensures var r := VehicleListCreate(s, caller, ListPost(u.data.(minDays := Sent(u).minDays)));
      r.status == HTTP_500_SERVER_ERROR && r.store == s
  {
    var f := Sent(u);
    assert f.seats == u.data.seats;
    assert !ValidUpdate(u) by {
      assert "seats" in ColumnErrors(f) || "min_days" in ColumnErrors(f);
    }
    assert !ValidFields(u.data.(minDays := f.minDays)) by {
      var g := u.data.(minDays := f.minDays);
      assert "seats" in ColumnErrors(g) || "min_days" in ColumnErrors(g);
    }
  }

  /** Deleting a vehicle keeps "every confirmed booking's vehicle shows
      Booked": the vehicle's bookings go with it. */
  lemma DeleteVehicleKeepsConfirmedBooked(s: Store, pk: VehicleId)
    requires ConfirmedShowBooked(s)
    ensures ConfirmedShowBooked(s.DeleteVehicle(pk))
  {
  }

  /** An administrator's update is not a booking save, so the receiver does
      not run: it can mark a vehicle with a confirmed booking `Available`. */
  lemma PutCanUnbookConfirmedVehicle()
    ensures exists s: Store, caller: Caller, pk: VehicleId, u: VehicleUpdate ::
      && s.Valid() && s.Knows(caller) && ConfirmedShowBooked(s)
      && !ConfirmedShowBooked(VehicleDetail(s, caller, pk, DetailPut(u)).store)
  {
    var f := VehicleFields("Axio", "2016", "Sedan", "Compact", 5, "Automatic", "Petrol", 450000, BOOKED, "", Some(1));
    var user := User("", "Ann", "0700", "L1", ROLE_ADMIN, true, Hashed("pw"), 0);
    var s := Store(map[0 := user], map[], map[1 := Vehicle(f, 1)], map[],
                   map[2 := Booking(0, 1, 10, 12, 1350000, CONFIRMED, 2)], map[], 3, 3);
    var data := f.(status := AVAILABLE);
    assert s.IdsIssued() && s.Linked() && s.CreatedInPast();
    assert s.Unique() by {
      assert s.users.Keys == {0} && s.reports == map[] && s.admins == map[];
    }
    var u := VehicleUpdate(data, true, true);
    var r := VehicleDetail(s, Authenticated(0), 1, DetailPut(u));
    assert ValidUpdate(u);
    assert r.store.vehicles[1].Status() == AVAILABLE;
    assert r.store.bookings[2].status == CONFIRMED;
  }
}
