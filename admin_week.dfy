/** The admin weekly-calendar route `/api/admin/calendar/week`: the admin
    gate, query-parameter validation and the closed-interval range query. */
module AdminWeek {
  import opened Wrappers
  import opened Http
  import opened Ordering
  import Cookies
  import opened Appointments
  import opened Strings

  /** What the profile lookup (`profiles` by id, `.single()`) answers: an
      error, no row, or a row whose `role` may be null. */
  datatype ProfileLookup = ProfileError | NoProfile | Profile(role: Option<string>)

  datatype AdminCheck = Denied(status: int, message: string) | Admitted(userId: string)

  /** `requireAdmin`: 401 without a usable token, 401 when the identity
      service rejects the token or resolves no user, 403 unless the profile
      lookup finds the role "admin", otherwise admitted with the user id. */
  function RequireAdmin(header: Option<string>, services: Services, getProfile: string -> ProfileLookup): (r: AdminCheck)
    ensures var token := Cookies.ExtractAccessToken(header, services.parseJson);
      && (!Truthy(token) ==> r == Denied(401, "Not authenticated."))
      && (Truthy(token) && !services.getUser(token.value).Found? ==> r == Denied(401, "Invalid session."))
      && (Truthy(token) && services.getUser(token.value).Found? ==>
            var id := services.getUser(token.value).userId;
            if getProfile(id) == Profile(Some("admin")) then r == Admitted(id)
            else r == Denied(403, "Admin role required."))
    ensures r.Denied? ==> r.status in {401, 403}
  {
    var token := Cookies.ExtractAccessToken(header, services.parseJson);
    if !Truthy(token) then Denied(401, "Not authenticated.")
    else
      match services.getUser(token.value)
      case Found(id) =>
        if getProfile(id) == Profile(Some("admin")) then Admitted(id)
        else Denied(403, "Admin role required.")
      case _ => Denied(401, "Invalid session.")
  }

  /** `isValidIsoDate`: a present, non-empty parameter that `new Date` accepts. */
  predicate IsValidIsoDate(value: Option<string>, parseInstant: string -> Option<int>) {
    Truthy(value) && parseInstant(value.value).Some?
  }

  /** The week route's `isValidIsoDate` accepts exactly the `startsAt`
      values the booking route accepts for a request of a known type, and
      both read the same instant from an accepted value. */
  lemma IsValidIsoDateAgreesWithBooking(value: Option<string>, parseInstant: string -> Option<int>)
    ensures var booking := ValidateBooking(Some(PostBody(Some("session"), value)), parseInstant);
      && (IsValidIsoDate(value, parseInstant) <==> booking.Success?)
      && (booking.Success? ==> booking.value.startsAt == parseInstant(value.value).value)
  {
  }

  const BadParamsMessage := "weekStart and weekEnd must be valid ISO date strings."
  const BadOrderMessage := "weekStart must be before or equal to weekEnd."

  /** GET: the admin gate first, then the parameters, then the order of the
      bounds, then every row (any owner, any status) whose start lies in the
      closed interval, each as often as in the table, ascending by start. */
  function WeekCalendar(header: Option<string>, services: Services, getProfile: string -> ProfileLookup,
                        weekStart: Option<string>, weekEnd: Option<string>,
                        rows: seq<Appointment>, loadFails: bool): (r: Reply<seq<Appointment>>)
    ensures RequireAdmin(header, services, getProfile).Denied? ==>
      var d := RequireAdmin(header, services, getProfile);
      r == Fail(d.status, d.message)
    ensures RequireAdmin(header, services, getProfile).Admitted? ==>
      && (!IsValidIsoDate(weekStart, services.parseInstant) || !IsValidIsoDate(weekEnd, services.parseInstant) ==>
            r == Fail(400, BadParamsMessage))
      && (IsValidIsoDate(weekStart, services.parseInstant) && IsValidIsoDate(weekEnd, services.parseInstant) ==>
            var lo, hi := services.parseInstant(weekStart.value).value, services.parseInstant(weekEnd.value).value;
            && (lo > hi ==> r == Fail(400, BadOrderMessage))
            && (lo <= hi && loadFails ==> r == Fail(500, "Could not load appointments."))
            && (lo <= hi && !loadFails ==> r == Ok(200, RowsInRange(rows, lo, hi))))
  {
    match RequireAdmin(header, services, getProfile)
    case Denied(status, message) => Fail(status, message)
    case Admitted(_) =>
      if !IsValidIsoDate(weekStart, services.parseInstant) || !IsValidIsoDate(weekEnd, services.parseInstant) then
        Fail(400, BadParamsMessage)
      else
        var lo, hi := services.parseInstant(weekStart.value).value, services.parseInstant(weekEnd.value).value;
        if lo > hi then Fail(400, BadOrderMessage)
        else if loadFails then Fail(500, "Could not load appointments.")
        else Ok(200, RowsInRange(rows, lo, hi))
  }

  /** The range query `.gte(start).lte(end).order(starts_at)`: every row whose
      start lies in the closed interval, for any owner and status, each as
      often as in the table, ascending by start. */
  function RowsInRange(rows: seq<Appointment>, lo: int, hi: int): (r: seq<Appointment>)
    ensures SortedBy(r, StartOf)
    ensures forall a :: a in r ==> lo <= a.startsAt <= hi
    ensures forall a :: multiset(r)[a] == if lo <= a.startsAt <= hi then multiset(rows)[a] else 0
  {
    var keep := (a: Appointment) => lo <= a.startsAt <= hi;
    SortedFilterContents(rows, keep, StartOf);
    SortBy(Filter(rows, keep), StartOf)
  }

  /** A caller who is not an admin is turned away with 401 or 403 whatever
      the parameters, and the table is never consulted. */
  lemma NonAdminIgnoresParameters(header: Option<string>, services: Services, getProfile: string -> ProfileLookup,
                                  s1: Option<string>, e1: Option<string>, rows1: seq<Appointment>, f1: bool,
                                  s2: Option<string>, e2: Option<string>, rows2: seq<Appointment>, f2: bool)
    ensures RequireAdmin(header, services, getProfile).Denied? ==>
      var r := WeekCalendar(header, services, getProfile, s1, e1, rows1, f1);
      && r == WeekCalendar(header, services, getProfile, s2, e2, rows2, f2)
      && r.Fail? && r.status in {401, 403}
  {
  }

  /** POST, PUT and DELETE are not supported. */
  function Post(): (r: Reply<seq<Appointment>>)
    ensures r.Fail? && r.status == 405 && r.message == MethodNotAllowedMessage
  {
    Fail(405, MethodNotAllowedMessage)
  }

  function Put(): (r: Reply<seq<Appointment>>)
    ensures r.Fail? && r.status == 405 && r.message == MethodNotAllowedMessage
  {
    Fail(405, MethodNotAllowedMessage)
  }

  function Delete(): (r: Reply<seq<Appointment>>)
    ensures r.Fail? && r.status == 405 && r.message == MethodNotAllowedMessage
  {
    Fail(405, MethodNotAllowedMessage)
  }
}
