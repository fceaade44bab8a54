/** What a view hands back: a status code, a body, and the store as the
    request leaves it. */
module Http {
  import opened Base
  import opened Accounts
  import opened Fleet
  import opened Bookings
  import opened Db

  /** The response bodies the views produce, reduced to what identifies
      them: serialized rows are named by their ids. */
  datatype Body =
    | Detail(message: string)
    | FieldErrors(fields: set<string>)
    | BookingData(booking: BookingId)
    | BookingList(bookingIds: seq<BookingId>)
    | VehicleData(vehicle: VehicleId)
    | VehicleList(vehicleIds: set<VehicleId>)
    | ReportData(report: ReportId)
    | ReportList(reportIds: seq<ReportId>)
    | UserData(user: UserId)
    | Crash(reason: string)

  datatype Reply = Reply(status: int, body: Body, store: Store)

  /** The reply of DRF's authentication check for an anonymous caller
      (token authentication answers 401). */
  function NotAuthenticated(s: Store): (r: Reply)
    ensures r.status == HTTP_401_UNAUTHORIZED && r.store == s
  {
    Reply(HTTP_401_UNAUTHORIZED, Detail("Authentication credentials were not provided."), s)
  }
}
