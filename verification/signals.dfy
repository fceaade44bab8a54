/** Availability propagation: the `post_save` receiver on `Booking`
    (booking/signals.py) that recomputes the booked vehicle's status. */
module Signals {
  import opened Base
  import opened Accounts
  import opened Fleet
  import opened Bookings
  import opened Db

  /** Lowered statuses after which the vehicle may become available again. */
  const RELEASING: set<string> := {PENDING, COMPLETED, CANCELLED}

  /** Some booking other than `bid`, for the same vehicle, is active. */
  predicate OtherActiveExists(s: Store, bid: BookingId)
    requires bid in s.bookings
  {
    exists o :: o in s.bookings && o != bid
      && s.bookings[o].vehicle == s.bookings[bid].vehicle && IsActive(s.bookings[o])
  }

  /** The store after the receiver ran for the saved booking `bid`. Only
      the status of `bid`'s vehicle may change: `confirmed` (in any case)
      books it; a releasing status frees it unless another active booking
      holds it; any other status leaves it as it is. */
  function UpdateVehicleStatus(s: Store, bid: BookingId): (r: Store)
    requires bid in s.bookings && s.bookings[bid].vehicle in s.vehicles
    ensures r.(vehicles := s.vehicles) == s
    ensures r.vehicles.Keys == s.vehicles.Keys
    ensures forall v :: v in s.vehicles && v != s.bookings[bid].vehicle ==> r.vehicles[v] == s.vehicles[v]
    ensures var vid := s.bookings[bid].vehicle;
            r.vehicles[vid] == s.vehicles[vid].WithStatus(r.vehicles[vid].Status())
    ensures var vid := s.bookings[bid].vehicle;
            var st := Lower(s.bookings[bid].status);
            && (st == CONFIRMED ==> r.vehicles[vid].Status() == BOOKED)
            && (st in RELEASING && !OtherActiveExists(s, bid) ==> r.vehicles[vid].Status() == AVAILABLE)
            && (st != CONFIRMED && (st !in RELEASING || OtherActiveExists(s, bid)) ==> r.vehicles[vid] == s.vehicles[vid])
  {
    var vid := s.bookings[bid].vehicle;
    var vehicle := s.vehicles[vid];
    var st := Lower(s.bookings[bid].status);
    var updated :=
      if st == CONFIRMED then vehicle.WithStatus(BOOKED)
      else if st in RELEASING && !OtherActiveExists(s, bid) then vehicle.WithStatus(AVAILABLE)
      else vehicle;
    s.(vehicles := s.vehicles[vid := updated])
  }

  /** Every vehicle that holds a booking stored as `confirmed` shows
      `Booked`. Booking operations keep this; the converse is not kept. */
  predicate ConfirmedShowBooked(s: Store)
  {
    forall b :: b in s.bookings && s.bookings[b].status == CONFIRMED && s.bookings[b].vehicle in s.vehicles
      ==> s.vehicles[s.bookings[b].vehicle].Status() == BOOKED
  }

  /** The same, for every booking except `bid` (the one just saved). */
  predicate ConfirmedShowBookedExcept(s: Store, bid: BookingId)
  {
    forall b :: b in s.bookings && b != bid && s.bookings[b].status == CONFIRMED && s.bookings[b].vehicle in s.vehicles
      ==> s.vehicles[s.bookings[b].vehicle].Status() == BOOKED
  }

  /** Every vehicle status is one of the declared choices. */
  predicate VehicleStatusesValid(s: Store)
  {
    forall v :: v in s.vehicles ==> s.vehicles[v].Status() in VEHICLE_STATUS_CHOICES
  }

  /** A status that lowers to something other than `confirmed` is not
      stored as `confirmed`. */
  lemma NotConfirmedAfterLower(st: string)
    requires Lower(st) != CONFIRMED
    ensures st != CONFIRMED
  {
    if st == CONFIRMED {
      ChoicesAreLowerCase(st);
    }
  }

  /** Running the receiver for the booking just saved restores "every
      confirmed booking's vehicle shows Booked", provided it held for all
      the other bookings. */
  lemma UpdateVehicleStatusRestoresConfirmedBooked(s: Store, bid: BookingId)
    requires bid in s.bookings && s.bookings[bid].vehicle in s.vehicles
    requires ConfirmedShowBookedExcept(s, bid)
    ensures ConfirmedShowBooked(UpdateVehicleStatus(s, bid))
  {
    var r := UpdateVehicleStatus(s, bid);
    var vid := s.bookings[bid].vehicle;
    var st := Lower(s.bookings[bid].status);
    forall b | b in r.bookings && r.bookings[b].status == CONFIRMED && r.bookings[b].vehicle in r.vehicles
      ensures r.vehicles[r.bookings[b].vehicle].Status() == BOOKED
    {
      if st != CONFIRMED {
        NotConfirmedAfterLower(s.bookings[bid].status);
        if st in RELEASING && !OtherActiveExists(s, bid) && s.bookings[b].vehicle == vid {
          assert b != bid;
          assert IsActive(s.bookings[b]);
          assert false;
        }
      }
    }
  }

  /** The receiver writes only declared vehicle statuses. */
  lemma UpdateVehicleStatusKeepsStatusesValid(s: Store, bid: BookingId)
    requires bid in s.bookings && s.bookings[bid].vehicle in s.vehicles
    requires VehicleStatusesValid(s)
    ensures VehicleStatusesValid(UpdateVehicleStatus(s, bid))
  {
    var r := UpdateVehicleStatus(s, bid);
    var vid := s.bookings[bid].vehicle;
    assert r.vehicles[vid].Status() in VEHICLE_STATUS_CHOICES;
  }

  /** The receiver keeps the database integrity: it only rewrites a
      column of an existing vehicle. */
  lemma UpdateVehicleStatusKeepsValid(s: Store, bid: BookingId)
    requires s.Valid()
    requires bid in s.bookings
    ensures UpdateVehicleStatus(s, bid).Valid()
  {
    var r := UpdateVehicleStatus(s, bid);
    assert r.Linked();
  }

  /** Running the receiver a second time on its own output changes
      nothing: it only reads bookings, which it does not write. */
  lemma UpdateVehicleStatusIdempotent(s: Store, bid: BookingId)
    requires bid in s.bookings && s.bookings[bid].vehicle in s.vehicles
    ensures var r := UpdateVehicleStatus(s, bid);
            UpdateVehicleStatus(r, bid) == r
  {
    var r := UpdateVehicleStatus(s, bid);
    var vid := s.bookings[bid].vehicle;
    assert r.bookings == s.bookings;
    assert OtherActiveExists(r, bid) == OtherActiveExists(s, bid);
    var r2 := UpdateVehicleStatus(r, bid);
    assert r2.vehicles[vid] == r.vehicles[vid];
    assert r2.vehicles == r.vehicles;
  }
}
