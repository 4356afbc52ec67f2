/** The booking route `/api/appointments`: session resolution, listing the
    caller's upcoming appointments, and booking a slot without double booking. */
module Appointments {
  import opened Wrappers
  import opened Http
  import opened Ordering
  import Cookies
  import opened Strings

  datatype AppointmentType = FreeIntro | Session
  datatype Status = Booked | Cancelled

  /** One row of the appointment table; instants are milliseconds since the epoch. */
  datatype Appointment = Appointment(
    id: nat, userId: string, kind: AppointmentType, startsAt: int, status: Status, createdAt: int)

  function StartOf(a: Appointment): int { a.startsAt }

  /** What the identity service's `getUser(token)` answers. */
  datatype UserLookup = LookupError | NoUser | Found(userId: string)

  datatype AuthResult = NotAuthenticated | InvalidSession | Authenticated(userId: string)

  /** The collaborators a request handler consults: `JSON.parse` on a cookie
      value, the identity service, and `new Date(s)` (an instant, or `None`
      when `getTime()` is NaN). */
  datatype Services = Services(
    parseJson: string -> Cookies.JsonParse,
    getUser: string -> UserLookup,
    parseInstant: string -> Option<int>)

  /** `getAuthenticatedUser`: no usable token means "Not authenticated"; a
      token the identity service rejects or resolves to no user means
      "Invalid session"; otherwise the resolved user. */
  function AuthenticatedUser(header: Option<string>, services: Services): (r: AuthResult)
    ensures var token := Cookies.ExtractAccessToken(header, services.parseJson);
      && (r == NotAuthenticated <==> !Truthy(token))
      && (r == InvalidSession <==> Truthy(token) && !services.getUser(token.value).Found?)
      && (Truthy(token) && services.getUser(token.value).Found? ==>
            r == Authenticated(services.getUser(token.value).userId))
  {
    var token := Cookies.ExtractAccessToken(header, services.parseJson);
    if !Truthy(token) then NotAuthenticated
    else
      match services.getUser(token.value)
      case Found(id) => Authenticated(id)
      case _ => InvalidSession
  }

  /** The message a failed authentication is reported with. */
  function AuthMessage(auth: AuthResult): string {
    if auth == NotAuthenticated then "Not authenticated" else "Invalid session"
  }

  // ----- Listing: GET /api/appointments -----

  /** The reply to GET: a 401 without an authenticated caller, a 500 when
      the query fails, otherwise every row owned by the caller that starts
      at or after `now`, each as often as in the table, ascending by start. */
  function ListUpcoming(rows: seq<Appointment>, auth: AuthResult, now: int, loadFails: bool): (r: Reply<seq<Appointment>>)
    ensures !auth.Authenticated? ==> r == Fail(401, AuthMessage(auth))
    ensures auth.Authenticated? && loadFails ==> r == Fail(500, "Could not load appointments.")
    ensures auth.Authenticated? && !loadFails ==> r.Ok? && r.status == 200
    ensures r.Ok? ==> r.payload == OwnFrom(rows, auth.userId, now)
  {
    if !auth.Authenticated? then Fail(401, AuthMessage(auth))
    else if loadFails then Fail(500, "Could not load appointments.")
    else Ok(200, OwnFrom(rows, auth.userId, now))
  }

  /** The listing query `.eq(user_id).gte(starts_at, now).order(starts_at)`:
      every row of `user` starting at or after `now`, each as often as in the
      table, ascending by start. */
  function OwnFrom(rows: seq<Appointment>, user: string, now: int): (r: seq<Appointment>)
    ensures SortedBy(r, StartOf)
    ensures forall a :: a in r ==> a.userId == user && a.startsAt >= now
    ensures forall a :: multiset(r)[a] == if a.userId == user && a.startsAt >= now then multiset(rows)[a] else 0
  {
    var keep := (a: Appointment) => a.userId == user && a.startsAt >= now;
    SortedFilterContents(rows, keep, StartOf);
    SortBy(Filter(rows, keep), StartOf)
  }

  // ----- Booking: POST /api/appointments -----

  /** The JSON body as far as it is read: `type` and `startsAt` when they are
      strings; the whole body is `None` when it is not valid JSON. */
  datatype PostBody = PostBody(kind: Option<string>, startsAt: Option<string>)

  /** A validated request: the appointment type and the parsed start instant. */
  datatype Slot = Slot(kind: AppointmentType, startsAt: int)

  const InvalidTypeMessage := "Invalid type. Use 'free_intro' or 'session'."
  const MissingStartMessage := "startsAt is required."
  const InvalidStartMessage := "startsAt must be a valid ISO timestamp."

  function KindOf(s: string): Option<AppointmentType> {
    if s == "free_intro" then Some(FreeIntro)
    else if s == "session" then Some(Session)
    else None
  }

  function FieldKind(body: Option<PostBody>): Option<string> {
    if body.Some? then body.value.kind else None
  }

  function FieldStart(body: Option<PostBody>): Option<string> {
    if body.Some? then body.value.startsAt else None
  }

  /** The three 400 checks, in the source's order: the type, the presence
      of `startsAt`, then whether it parses. */
  function ValidateBooking(body: Option<PostBody>, parseInstant: string -> Option<int>): (r: Result<Slot, Reply<Appointment>>)
    ensures r.Failure? ==> r.error.Fail? && r.error.status == 400
    ensures FieldKind(body).None? || KindOf(FieldKind(body).value).None? ==> r == Failure(Fail(400, InvalidTypeMessage))
    ensures FieldKind(body).Some? && KindOf(FieldKind(body).value).Some? ==>
      && (FieldStart(body).None? || FieldStart(body) == Some("") ==> r == Failure(Fail(400, MissingStartMessage)))
      && (FieldStart(body).Some? && FieldStart(body) != Some("") ==>
            match parseInstant(FieldStart(body).value)
            case None => r == Failure(Fail(400, InvalidStartMessage))
            case Some(t) => r == Success(Slot(KindOf(FieldKind(body).value).value, t)))
  {
    var kind := FieldKind(body);
    var start := FieldStart(body);
    if kind.None? || KindOf(kind.value).None? then Failure(Fail(400, InvalidTypeMessage))
    else if !Truthy(start) then Failure(Fail(400, MissingStartMessage))
    else
      match parseInstant(start.value)
      case None => Failure(Fail(400, InvalidStartMessage))
      case Some(t) => Success(Slot(KindOf(kind.value).value, t))
  }

  /** Some `booked` row starts at `t` (the double-booking query). */
  predicate BookedAt(rows: seq<Appointment>, t: int) {
    exists i :: 0 <= i < |rows| && rows[i].status == Booked && rows[i].startsAt == t
  }

  /** The central invariant: no two booked rows share a start instant. */
  predicate NoDoubleBooking(rows: seq<Appointment>) {
    forall i, j :: 0 <= i < j < |rows| && rows[i].status == Booked && rows[j].status == Booked
      ==> rows[i].startsAt != rows[j].startsAt
  }

  /** The table and the identifier the store hands out next. */
  datatype StoreState = StoreState(rows: seq<Appointment>, nextId: nat)

  /** No double booking, and identifiers that are distinct and below `nextId`. */
  predicate Consistent(s: StoreState) {
    && NoDoubleBooking(s.rows)
    && (forall i :: 0 <= i < |s.rows| ==> s.rows[i].id < s.nextId)
    && (forall i, j :: 0 <= i < j < |s.rows| ==> s.rows[i].id != s.rows[j].id)
  }

  /** How the two store calls of a booking go: whether the availability
      query errs, whether the insert errs, and the creation time the store
      stamps on a new row. */
  datatype Backend = Backend(checkFails: bool, insertFails: bool, createdAt: int)

  datatype Posted = Posted(state: StoreState, reply: Reply<Appointment>)

  /** POST's effect on the table and its reply: 401, then the 400 ladder,
      then 500 / 409 for the availability query, then 500 / 201 for the insert. */
  function PostOutcome(s: StoreState, auth: AuthResult, body: Option<PostBody>,
                       parseInstant: string -> Option<int>, backend: Backend): (r: Posted)
    ensures !r.reply.Ok? ==> r.state == s
    ensures !auth.Authenticated? ==> r.reply == Fail(401, AuthMessage(auth))
    ensures auth.Authenticated? && ValidateBooking(body, parseInstant).Failure? ==>
      r.reply == ValidateBooking(body, parseInstant).error
    ensures r.reply.Fail? && r.reply.status == 409 <==>
      && auth.Authenticated? && ValidateBooking(body, parseInstant).Success? && !backend.checkFails
      && BookedAt(s.rows, ValidateBooking(body, parseInstant).value.startsAt)
    ensures r.reply.Ok? <==>
      && auth.Authenticated? && ValidateBooking(body, parseInstant).Success? && !backend.checkFails
      && !BookedAt(s.rows, ValidateBooking(body, parseInstant).value.startsAt) && !backend.insertFails
    ensures r.reply.Ok? ==>
      var slot := ValidateBooking(body, parseInstant).value;
      && r.reply.status == 201
      && r.reply.payload == Appointment(s.nextId, auth.userId, slot.kind, slot.startsAt, Booked, backend.createdAt)
      && r.state == StoreState(s.rows + [r.reply.payload], s.nextId + 1)
    ensures auth.Authenticated? && ValidateBooking(body, parseInstant).Success? && backend.checkFails ==>
      r.reply == Fail(500, "Could not check availability.")
    ensures (auth.Authenticated? && ValidateBooking(body, parseInstant).Success? && !backend.checkFails
             && !BookedAt(s.rows, ValidateBooking(body, parseInstant).value.startsAt) && backend.insertFails) ==>
      r.reply == Fail(500, "Could not create appointment.")
    ensures r.reply.Fail? && r.reply.status == 409 ==> r.reply.message == "This time slot is already booked."
    ensures r.reply.Fail? ==> r.reply.status in {400, 401, 409, 500}
  {
    if !auth.Authenticated? then Posted(s, Fail(401, AuthMessage(auth)))
    else
      match ValidateBooking(body, parseInstant)
      case Failure(reply) => Posted(s, reply)
      case Success(slot) =>
        if backend.checkFails then Posted(s, Fail(500, "Could not check availability."))
        else if BookedAt(s.rows, slot.startsAt) then Posted(s, Fail(409, "This time slot is already booked."))
        else if backend.insertFails then Posted(s, Fail(500, "Could not create appointment."))
        else
          var a := Appointment(s.nextId, auth.userId, slot.kind, slot.startsAt, Booked, backend.createdAt);
          Posted(StoreState(s.rows + [a], s.nextId + 1), Ok(201, a))
  }

  /** A booking keeps the table consistent. */
  lemma PostPreservesConsistency(s: StoreState, auth: AuthResult, body: Option<PostBody>,
                                 parseInstant: string -> Option<int>, backend: Backend)
    requires Consistent(s)
    ensures Consistent(PostOutcome(s, auth, body, parseInstant, backend).state)
  {
    var r := PostOutcome(s, auth, body, parseInstant, backend);
    if r.reply.Ok? {
      var rows := r.state.rows;
      var a := r.reply.payload;
      assert rows[|s.rows|] == a;
      forall i | 0 <= i < |s.rows| ensures rows[i] == s.rows[i] {}
      forall i | 0 <= i < |s.rows| && s.rows[i].status == Booked ensures s.rows[i].startsAt != a.startsAt {
        if s.rows[i].startsAt == a.startsAt {
          assert BookedAt(s.rows, a.startsAt);
        }
      }
    }
  }

  /** One POST as the handler sees it after authentication. */
  datatype PostCall = PostCall(auth: AuthResult, body: Option<PostBody>, backend: Backend)

  function RunPosts(s: StoreState, calls: seq<PostCall>, parseInstant: string -> Option<int>): StoreState
    decreases |calls|
  {
    if calls == [] then s
    else
      var c := calls[0];
      RunPosts(PostOutcome(s, c.auth, c.body, parseInstant, c.backend).state, calls[1..], parseInstant)
  }

  /** Any sequence of POSTs, applied one after the other, keeps the table
      consistent: never two booked rows at the same instant. */
  lemma {:induction false} RunPostsPreservesConsistency(s: StoreState, calls: seq<PostCall>,
                                                        parseInstant: string -> Option<int>)
    requires Consistent(s)
    ensures Consistent(RunPosts(s, calls, parseInstant))
    ensures NoDoubleBooking(RunPosts(s, calls, parseInstant).rows)
    decreases |calls|
  {
    if calls != [] {
      var c := calls[0];
      PostPreservesConsistency(s, c.auth, c.body, parseInstant, c.backend);
      RunPostsPreservesConsistency(PostOutcome(s, c.auth, c.body, parseInstant, c.backend).state, calls[1..], parseInstant);
    }
  }

  /** After a successful booking at an instant, a second valid booking at the
      same instant (by anyone) is answered 409, unless its availability query
      errs, and leaves the table as it is. */
  lemma SecondBookingConflicts(s: StoreState, first: PostCall, second: PostCall,
                               parseInstant: string -> Option<int>)
    requires PostOutcome(s, first.auth, first.body, parseInstant, first.backend).reply.Ok?
    requires second.auth.Authenticated? && !second.backend.checkFails
    requires ValidateBooking(second.body, parseInstant).Success?
    requires ValidateBooking(second.body, parseInstant).value.startsAt ==
             ValidateBooking(first.body, parseInstant).value.startsAt
    ensures var mid := PostOutcome(s, first.auth, first.body, parseInstant, first.backend).state;
      var r := PostOutcome(mid, second.auth, second.body, parseInstant, second.backend);
      r.reply == Fail(409, "This time slot is already booked.") && r.state == mid
  {
    var mid := PostOutcome(s, first.auth, first.body, parseInstant, first.backend).state;
    assert mid.rows[|s.rows|].status == Booked;
    assert BookedAt(mid.rows, ValidateBooking(first.body, parseInstant).value.startsAt);
  }

  /** A cancelled row does not block its instant: when every row at that
      instant is cancelled, a valid booking there by an authenticated caller
      succeeds unless a store call errs. */
  lemma CancelledDoesNotBlock(s: StoreState, auth: AuthResult, body: Option<PostBody>,
                              parseInstant: string -> Option<int>, backend: Backend)
    requires auth.Authenticated? && !backend.checkFails && !backend.insertFails
    requires ValidateBooking(body, parseInstant).Success?
    requires forall i :: 0 <= i < |s.rows| && s.rows[i].startsAt == ValidateBooking(body, parseInstant).value.startsAt
               ==> s.rows[i].status == Cancelled
    ensures PostOutcome(s, auth, body, parseInstant, backend).reply.Ok?
  {
    assert !BookedAt(s.rows, ValidateBooking(body, parseInstant).value.startsAt);
  }

  /** The appointment table, as the booking route changes it. */
  class Store {
    var rows: seq<Appointment>
    var nextId: nat

    ghost predicate Valid()
      reads this
    {
      Consistent(StoreState(rows, nextId))
    }

    constructor ()
      ensures Valid() && rows == [] && nextId == 0
    {
      rows := [];
      nextId := 0;
    }

    /** POST /api/appointments: authenticate, validate, check availability,
        then insert. Only a 201 changes the table. */
    method Post(cookieHeader: Option<string>, body: Option<PostBody>, services: Services, backend: Backend)
      returns (reply: Reply<Appointment>)
      requires Valid()
      modifies this
      ensures Valid()
      ensures Posted(StoreState(rows, nextId), reply) ==
        PostOutcome(StoreState(old(rows), old(nextId)), AuthenticatedUser(cookieHeader, services),
                    body, services.parseInstant, backend)
    {
      ghost var before := StoreState(rows, nextId);
      var auth := AuthenticatedUser(cookieHeader, services);
      ghost var expected := PostOutcome(before, auth, body, services.parseInstant, backend);
      if !auth.Authenticated? {
        return Fail(401, AuthMessage(auth));
      }
      var validated := ValidateBooking(body, services.parseInstant);
      if validated.Failure? {
        return validated.error;
      }
      var slot := validated.value;
      if backend.checkFails {
        return Fail(500, "Could not check availability.");
      }
      if BookedAt(rows, slot.startsAt) {
        return Fail(409, "This time slot is already booked.");
      }
      if backend.insertFails {
        return Fail(500, "Could not create appointment.");
      }
      var created := Appointment(nextId, auth.userId, slot.kind, slot.startsAt, Booked, backend.createdAt);
      assert expected == Posted(StoreState(rows + [created], nextId + 1), Ok(201, created));
      PostPreservesConsistency(before, auth, body, services.parseInstant, backend);
      rows := rows + [created];
      nextId := nextId + 1;
      reply := Ok(201, created);
    }
  }

  /** PUT and DELETE on the collection are not supported. */
  function Put(): (r: Reply<Appointment>)
    ensures r.Fail? && r.status == 405 && r.message == MethodNotAllowedMessage
  {
    Fail(405, MethodNotAllowedMessage)
  }

  function Delete(): (r: Reply<Appointment>)
    ensures r.Fail? && r.status == 405 && r.message == MethodNotAllowedMessage
  {
    Fail(405, MethodNotAllowedMessage)
  }
}
