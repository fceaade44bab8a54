/** The vehicle catalogue: `Vehicle` and `VehicleImage` (vehicles/models.py). */
module Fleet {
  import opened Base

  type VehicleId = nat
  type ImageId = nat

  const AVAILABLE: string := "Available"
  const BOOKED: string := "Booked"
  /** The choice keys of `Vehicle.status`. */
  const VEHICLE_STATUS_CHOICES: set<string> := {AVAILABLE, BOOKED}
  const TRANSMISSION_CHOICES: set<string> := {"Automatic", "Manual"}
  const FUEL_CHOICES: set<string> := {"Diesel", "Petrol"}
  /** `daily_rate` is `DecimalField(max_digits=10, decimal_places=2)`. */
  const RATE_MAX_DIGITS: nat := 10
  /** The exclusive bound on the magnitude of a rate in cents. */
  const RATE_LIMIT: int := 10_000_000_000

  /** The range Django gives an `IntegerField` on SQLite, which stores
      integers in 64 bits; a model serializer turns it into `min_value` and
      `max_value`. */
  const INTEGER_FIELD_MIN: int := -0x8000_0000_0000_0000
  const INTEGER_FIELD_MAX: int := 0x7FFF_FFFF_FFFF_FFFF

  /** An integer an `IntegerField` column accepts. */
  predicate FitsIntegerColumn(n: int)
  {
    INTEGER_FIELD_MIN <= n <= INTEGER_FIELD_MAX
  }

  /** The bound is the ten-digit limit of the column: the rates below it
      are exactly those that fit. */
  lemma RateLimitIsColumnLimit(rate: Cents)
    ensures RATE_LIMIT == Pow10(RATE_MAX_DIGITS)
    ensures FitsDecimal(rate, RATE_MAX_DIGITS) <==> -RATE_LIMIT < rate < RATE_LIMIT
  {
  }

  /** The client-writable columns of a vehicle. `daily_rate` is in cents;
      `min_days` is nullable. The picture files are opaque and left out. */
  datatype VehicleFields = VehicleFields(
    name: string,
    model: string,
    carType: string,
    description: string,
    seats: int,
    transmission: string,
    fuelType: string,
    dailyRate: Cents,
    status: string,
    features: string,
    minDays: Option<int>)

  /** A `Vehicle` row: its writable columns and the creation tick. */
  datatype Vehicle = Vehicle(fields: VehicleFields, createdAt: nat)
  {
    function Status(): string { fields.status }
    function DailyRate(): Cents { fields.dailyRate }
    function MinDays(): Option<int> { fields.minDays }

    /** The same row with only its availability status replaced. */
    function WithStatus(st: string): (v: Vehicle)
      ensures v.Status() == st
      ensures v.fields == fields.(status := st) && v.createdAt == createdAt
    {
      this.(fields := fields.(status := st))
    }
  }

  /** A `VehicleImage` row; it points at its vehicle and is deleted with it. */
  datatype VehicleImage = VehicleImage(vehicle: VehicleId, uploadedAt: nat)

  /** The checks a model serializer derives from the column declarations:
      required text is non-blank and within `max_length`, choice columns
      hold a choice key, the rate fits its decimal column, and `seats` and
      a non-null `min_days` fit the 64-bit integer column; `features` may be
      blank. */
  predicate ValidFields(f: VehicleFields)
  {
    && FitsIntegerColumn(f.seats)
    && (f.minDays.Some? ==> FitsIntegerColumn(f.minDays.value))
    && 0 < |f.name| <= 100
    && 0 < |f.model| <= 100
    && 0 < |f.carType| <= 200
    && 0 < |f.description|
    && f.transmission in TRANSMISSION_CHOICES
    && f.fuelType in FUEL_CHOICES
    && -RATE_LIMIT < f.dailyRate < RATE_LIMIT
    && f.status in VEHICLE_STATUS_CHOICES
    && |f.features| <= 200
  }

  /** The serializer fields whose check fails, as `is_valid` reports them:
      none exactly when the columns are valid. */
  function ColumnErrors(f: VehicleFields): (e: set<string>)
    ensures e == {} <==> ValidFields(f)
  {
    (if 0 < |f.name| <= 100 then {} else {"name"})
    + (if 0 < |f.model| <= 100 then {} else {"model"})
    + (if 0 < |f.carType| <= 200 then {} else {"car_type"})
    + (if 0 < |f.description| then {} else {"description"})
    + (if FitsIntegerColumn(f.seats) then {} else {"seats"})
    + (if f.transmission in TRANSMISSION_CHOICES then {} else {"transmission"})
    + (if f.fuelType in FUEL_CHOICES then {} else {"fuel_type"})
    + (if -RATE_LIMIT < f.dailyRate < RATE_LIMIT then {} else {"daily_rate"})
    + (if f.status in VEHICLE_STATUS_CHOICES then {} else {"status"})
    + (if |f.features| <= 200 then {} else {"features"})
    + (if f.minDays.None? || FitsIntegerColumn(f.minDays.value) then {} else {"min_days"})
  }

  /** The integer columns are reported by name exactly when they overflow. */
  lemma ColumnErrorsNameIntegerColumns(f: VehicleFields)
    ensures "seats" in ColumnErrors(f) <==> !FitsIntegerColumn(f.seats)
    ensures "min_days" in ColumnErrors(f) <==> f.minDays.Some? && !FitsIntegerColumn(f.minDays.value)
  {
  }
}
