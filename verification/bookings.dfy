/** Bookings and damage reports (booking/models.py). */
module Bookings {
  import opened Base
  import opened Accounts
  import opened Fleet

  type BookingId = nat
  type ReportId = nat

  const PENDING: string := "pending"
  const CONFIRMED: string := "confirmed"
  const CANCELLED: string := "cancelled"
  const COMPLETED: string := "completed"
  /** The choice keys of `Booking.status`. */
  const BOOKING_STATUS_CHOICES: set<string> := {PENDING, CONFIRMED, CANCELLED, COMPLETED}
  /** The column default of `Booking.status`: capitalised, so it is the
      label of a choice and not one of its keys. */
  const BOOKING_STATUS_DEFAULT: string := "Pending"

  /** A `Booking` row. Dates are day numbers, the price is in cents and the
      status is the stored string, whatever its case. */
  datatype Booking = Booking(
    user: UserId,
    vehicle: VehicleId,
    startDate: Day,
    endDate: Day,
    totalPrice: Cents,
    status: string,
    createdAt: nat)

  /** The status of a damage report. Its column is not part of this model,
      so a report either keeps the column default or holds a value a
      client supplied. */
  datatype ReportStatus = ModelDefault | Given(value: string)

  /** A damage report: one per booking, deleted with it. */
  datatype DamageReport = DamageReport(
    booking: BookingId,
    description: string,
    status: ReportStatus,
    createdAt: nat)

  /** The stored statuses the availability query `status__in=['pending',
      'confirmed']` matches. The match is exact, so `Pending` is not
      active here. */
  predicate IsActive(b: Booking)
  {
    b.status == PENDING || b.status == CONFIRMED
  }

  /** The column default is not a choice key, but it lowercases to one:
      the availability rule reads it as `pending`, while the active-booking
      query does not count it. */
  lemma DefaultStatusIsNotAChoice()
    ensures BOOKING_STATUS_DEFAULT !in BOOKING_STATUS_CHOICES
    ensures Lower(BOOKING_STATUS_DEFAULT) == PENDING
    ensures forall b: Booking :: b.status == BOOKING_STATUS_DEFAULT ==> !IsActive(b)
  {
    assert Lower(BOOKING_STATUS_DEFAULT)[0] == 'p';
    assert Lower(BOOKING_STATUS_DEFAULT) == PENDING;
  }

  /** Every choice key is already lower case, so lowering keeps it. */
  lemma ChoicesAreLowerCase(st: string)
    requires st in BOOKING_STATUS_CHOICES
    ensures Lower(st) == st
  {
    LowerFixesNoUpper(st);
  }
}
