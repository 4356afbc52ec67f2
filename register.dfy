/** The registration route `/api/auth/register`. */
module Register {
  import opened Wrappers
  import opened Http
  import opened Strings

  /** The JSON body's string fields; the body is `None` when it is not JSON. */
  datatype RegisterBody = RegisterBody(
    email: Option<string>, password: Option<string>, firstName: Option<string>, lastName: Option<string>)

  /** What `auth.signUp` does: throws, reports an error (whose message may be
      absent), answers without a user, or creates one. */
  datatype SignUpOutcome = SignUpThrew | SignUpFailed(message: Option<string>) | SignUpNoUser | SignedUp(userId: string)

  /** The row inserted into `profiles`. */
  datatype ProfileRow = ProfileRow(id: string, firstName: string, lastName: string, role: string)

  datatype InsertOutcome = InsertThrew | InsertFailed | Inserted

  /** The external calls a request made, in order. */
  datatype RegisterCalls = RegisterCalls(signUp: Option<(string, string)>, profileInsert: Option<ProfileRow>)

  const NoCalls := RegisterCalls(None, None)

  /** The 201 payload; its JSON also carries `success: true`, and every
      failure's JSON carries `success: false` beside the message. */
  datatype Registered = Registered(id: string, role: string)

  datatype Registration = Registration(reply: Reply<Registered>, calls: RegisterCalls)

  const MissingFieldsMessage := "Email, password, first name and last name are required."
  const UnexpectedMessage := "Unexpected server error."

  /** A trimmed optional field: `body?.field?.trim()`. */
  function Trimmed(field: Option<string>): Option<string> {
    if field.Some? then Some(Trim(field.value)) else None
  }

  /** Email, first and last name are non-empty after trimming, and the
      password (never trimmed) is non-empty. */
  predicate FieldsPresent(body: Option<RegisterBody>) {
    body.Some?
    && Truthy(Trimmed(body.value.email)) && Truthy(body.value.password)
    && Truthy(Trimmed(body.value.firstName)) && Truthy(Trimmed(body.value.lastName))
  }

  /** POST: the presence check, then (inside `try`) creating the client,
      signing up, and inserting the profile; any throw inside is a 500. */
  function Post(body: Option<RegisterBody>, clientThrows: bool,
                signUp: (string, string) -> SignUpOutcome, insertProfile: ProfileRow -> InsertOutcome): (r: Registration)
    ensures !FieldsPresent(body) <==> r.reply == Fail(400, MissingFieldsMessage) && r.calls == NoCalls
    ensures FieldsPresent(body) ==>
      var b := body.value;
      var email, password := Trim(b.email.value), b.password.value;
      && (clientThrows ==> r == Registration(Fail(500, UnexpectedMessage), NoCalls))
      && (!clientThrows ==> r.calls.signUp == Some((email, password)))
      && (!clientThrows && !signUp(email, password).SignedUp? ==> r.calls == RegisterCalls(Some((email, password)), None))
      && (!clientThrows && signUp(email, password).SignUpFailed? && signUp(email, password).message.Some? ==>
            r.reply == Fail(400, signUp(email, password).message.value))
      && (!clientThrows && (signUp(email, password) == SignUpNoUser || signUp(email, password) == SignUpFailed(None)) ==>
            r.reply == Fail(400, "Registration failed."))
      && (!clientThrows && signUp(email, password) == SignUpThrew ==> r.reply == Fail(500, UnexpectedMessage))
      && (!clientThrows && signUp(email, password).SignedUp? ==>
            var row := ProfileRow(signUp(email, password).userId, Trim(b.firstName.value), Trim(b.lastName.value), "user");
            && r.calls.profileInsert == Some(row)
            && (insertProfile(row) == Inserted ==> r.reply == Ok(201, Registered(row.id, "user")))
            && (insertProfile(row) == InsertFailed ==> r.reply == Fail(500, "Profile creation failed."))
            && (insertProfile(row) == InsertThrew ==> r.reply == Fail(500, UnexpectedMessage)))
    ensures r.calls.profileInsert.Some? ==> r.calls.profileInsert.value.role == "user"
    ensures r.reply.Ok? ==> r.reply.status == 201 && r.reply.payload.role == "user"
  {
    if !FieldsPresent(body) then Registration(Fail(400, MissingFieldsMessage), NoCalls)
    else
      var b := body.value;
      SignUpAndInsert(Trim(b.email.value), b.password.value, Trim(b.firstName.value), Trim(b.lastName.value),
                      clientThrows, signUp, insertProfile)
  }

  /** The `try` block of POST, on the trimmed email and names and the raw
      password: create the client, sign up, insert the profile. */
  function SignUpAndInsert(email: string, password: string, firstName: string, lastName: string, clientThrows: bool,
                           signUp: (string, string) -> SignUpOutcome, insertProfile: ProfileRow -> InsertOutcome): (r: Registration)
    ensures clientThrows ==> r == Registration(Fail(500, UnexpectedMessage), NoCalls)
    ensures !clientThrows ==> r.calls.signUp == Some((email, password))
    ensures !clientThrows && !signUp(email, password).SignedUp? ==> r.calls == RegisterCalls(Some((email, password)), None)
    ensures !clientThrows && signUp(email, password).SignUpFailed? && signUp(email, password).message.Some? ==>
      r.reply == Fail(400, signUp(email, password).message.value)
    ensures !clientThrows && (signUp(email, password) == SignUpNoUser || signUp(email, password) == SignUpFailed(None)) ==>
      r.reply == Fail(400, "Registration failed.")
    ensures !clientThrows && signUp(email, password) == SignUpThrew ==> r.reply == Fail(500, UnexpectedMessage)
    ensures !clientThrows && signUp(email, password).SignedUp? ==>
      var row := ProfileRow(signUp(email, password).userId, firstName, lastName, "user");
      && r.calls.profileInsert == Some(row)
      && (insertProfile(row) == Inserted ==> r.reply == Ok(201, Registered(row.id, "user")))
      && (insertProfile(row) == InsertFailed ==> r.reply == Fail(500, "Profile creation failed."))
      && (insertProfile(row) == InsertThrew ==> r.reply == Fail(500, UnexpectedMessage))
    ensures r.calls.profileInsert.Some? ==> r.calls.profileInsert.value.role == "user"
    ensures r.reply.Ok? ==> r.reply.status == 201 && r.reply.payload.role == "user"
  {
    if clientThrows then Registration(Fail(500, UnexpectedMessage), NoCalls)
    else
      var signUpCall := Some((email, password));
      match signUp(email, password)
      case SignUpThrew => Registration(Fail(500, UnexpectedMessage), RegisterCalls(signUpCall, None))
      case SignUpFailed(message) =>
        Registration(Fail(400, if message.Some? then message.value else "Registration failed."),
                     RegisterCalls(signUpCall, None))
      case SignUpNoUser => Registration(Fail(400, "Registration failed."), RegisterCalls(signUpCall, None))
      case SignedUp(userId) =>
        var row := ProfileRow(userId, firstName, lastName, "user");
        var calls := RegisterCalls(signUpCall, Some(row));
        match insertProfile(row)
        case InsertThrew => Registration(Fail(500, UnexpectedMessage), calls)
        case InsertFailed => Registration(Fail(500, "Profile creation failed."), calls)
        case Inserted => Registration(Ok(201, Registered(userId, "user")), calls)
  }

  /** Whitespace around the email and the names does not change anything
      the route does or answers: the body behaves as the one whose email and
      names are already trimmed. Around the password it does matter, since
      the password is passed on as sent. */
  lemma SurroundingWhitespaceIgnored(b: RegisterBody, clientThrows: bool,
      signUp: (string, string) -> SignUpOutcome, insertProfile: ProfileRow -> InsertOutcome)
    ensures var trimmed := RegisterBody(Trimmed(b.email), b.password, Trimmed(b.firstName), Trimmed(b.lastName));
      Post(Some(b), clientThrows, signUp, insertProfile) == Post(Some(trimmed), clientThrows, signUp, insertProfile)
  {
    var trimmed := RegisterBody(Trimmed(b.email), b.password, Trimmed(b.firstName), Trimmed(b.lastName));
    TrimmedTwice(b.email);
    TrimmedTwice(b.firstName);
    TrimmedTwice(b.lastName);
    if FieldsPresent(Some(b)) {
      assert FieldsPresent(Some(trimmed));
      assert Trim(trimmed.email.value) == Trim(b.email.value);
      assert Trim(trimmed.firstName.value) == Trim(b.firstName.value);
      assert Trim(trimmed.lastName.value) == Trim(b.lastName.value);
    } else {
      assert !FieldsPresent(Some(trimmed));
    }
  }

  lemma TrimmedTwice(field: Option<string>)
    ensures Trimmed(Trimmed(field)) == Trimmed(field)
  {
    if field.Some? { TrimIdempotent(field.value); }
  }

  /** GET is not supported. */
  function Get(): (r: Reply<Registered>)
    ensures r.Fail? && r.status == 405 && r.message == MethodNotAllowedMessage
  {
    Fail(405, MethodNotAllowedMessage)
  }
}
