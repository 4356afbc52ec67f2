/** The login route `/api/auth/login`. */
module Login {
  import opened Wrappers
  import opened Http
  import opened Strings

  datatype LoginBody = LoginBody(email: Option<string>, password: Option<string>)

  /** What `auth.signInWithPassword` does. */
  datatype SignInOutcome = SignInThrew | SignInFailed(message: Option<string>) | SignInNoUser | SignedIn(userId: string)

  /** What the `profiles` role lookup (`.single()`) does: throws, errs, or
      yields a row whose role may be null. */
  datatype RoleLookup = RoleThrew | RoleError | RoleRow(role: Option<string>)

  /** The external calls a request made, in order. */
  datatype LoginCalls = LoginCalls(signIn: Option<(string, string)>, roleLookup: Option<string>)

  const NoCalls := LoginCalls(None, None)

  /** The 200 payload: exactly the user id and the role, no `success` flag. */
  datatype LoggedIn = LoggedIn(id: string, role: string)

  datatype LoginResult = LoginResult(reply: Reply<LoggedIn>, calls: LoginCalls)

  const MissingFieldsMessage := "Email and password are required."
  const UnexpectedMessage := "Unexpected server error."

  predicate FieldsPresent(body: Option<LoginBody>) {
    && body.Some? && body.value.email.Some? && Trim(body.value.email.value) != ""
    && Truthy(body.value.password)
  }

  /** POST: the presence check, then (inside `try`) creating the client,
      signing in, and fetching the role; any throw inside is a 500. */
  function Post(body: Option<LoginBody>, clientThrows: bool,
                signIn: (string, string) -> SignInOutcome, fetchRole: string -> RoleLookup): (r: LoginResult)
    ensures !FieldsPresent(body) <==> r.reply == Fail(400, MissingFieldsMessage) && r.calls == NoCalls
    ensures FieldsPresent(body) ==>
      var email, password := Trim(body.value.email.value), body.value.password.value;
      && (clientThrows ==> r == LoginResult(Fail(500, UnexpectedMessage), NoCalls))
      && (!clientThrows ==> r.calls.signIn == Some((email, password)))
      && (!clientThrows && !signIn(email, password).SignedIn? ==> r.calls == LoginCalls(Some((email, password)), None))
      && (!clientThrows ==> match signIn(email, password)
            case SignInThrew => r.reply == Fail(500, UnexpectedMessage)
            case SignInFailed(Some(m)) => r.reply == Fail(401, m)
            case SignInFailed(None) => r.reply == Fail(401, "Invalid credentials.")
            case SignInNoUser => r.reply == Fail(401, "Invalid credentials.")
            case SignedIn(id) =>
              && r.calls.roleLookup == Some(id)
              && match fetchRole(id)
                 case RoleThrew => r.reply == Fail(500, UnexpectedMessage)
                 case RoleError => r.reply == Fail(500, "Could not fetch user role.")
                 case RoleRow(role) =>
                   if role.Some? && role.value != "" then r.reply == Ok(200, LoggedIn(id, role.value))
                   else r.reply == Fail(404, "User role not found."))
    ensures r.reply.Ok? ==> r.reply.status == 200 && r.calls.signIn.Some? && r.calls.roleLookup == Some(r.reply.payload.id)
  {
    if !FieldsPresent(body) then LoginResult(Fail(400, MissingFieldsMessage), NoCalls)
    else SignInAndFetchRole(Trim(body.value.email.value), body.value.password.value, clientThrows, signIn, fetchRole)
  }

  /** The `try` block of POST, on the trimmed email and the raw password:
      create the client, sign in, fetch the role. */
  function SignInAndFetchRole(email: string, password: string, clientThrows: bool,
                              signIn: (string, string) -> SignInOutcome, fetchRole: string -> RoleLookup): (r: LoginResult)
    ensures clientThrows ==> r == LoginResult(Fail(500, UnexpectedMessage), NoCalls)
    ensures !clientThrows ==> r.calls.signIn == Some((email, password))
    ensures !clientThrows && !signIn(email, password).SignedIn? ==> r.calls == LoginCalls(Some((email, password)), None)
    ensures !clientThrows ==> match signIn(email, password)
      case SignInThrew => r.reply == Fail(500, UnexpectedMessage)
      case SignInFailed(Some(m)) => r.reply == Fail(401, m)
      case SignInFailed(None) => r.reply == Fail(401, "Invalid credentials.")
      case SignInNoUser => r.reply == Fail(401, "Invalid credentials.")
      case SignedIn(id) =>
        && r.calls.roleLookup == Some(id)
        && match fetchRole(id)
           case RoleThrew => r.reply == Fail(500, UnexpectedMessage)
           case RoleError => r.reply == Fail(500, "Could not fetch user role.")
           case RoleRow(role) =>
             if role.Some? && role.value != "" then r.reply == Ok(200, LoggedIn(id, role.value))
             else r.reply == Fail(404, "User role not found.")
    ensures r.reply.Ok? ==> r.reply.status == 200 && r.calls.signIn.Some? && r.calls.roleLookup == Some(r.reply.payload.id)
  {
    if clientThrows then LoginResult(Fail(500, UnexpectedMessage), NoCalls)
    else
      var signInCall := Some((email, password));
      match signIn(email, password)
      case SignInThrew => LoginResult(Fail(500, UnexpectedMessage), LoginCalls(signInCall, None))
      case SignInFailed(message) =>
        LoginResult(Fail(401, if message.Some? then message.value else "Invalid credentials."),
                    LoginCalls(signInCall, None))
      case SignInNoUser => LoginResult(Fail(401, "Invalid credentials."), LoginCalls(signInCall, None))
      case SignedIn(userId) =>
        var calls := LoginCalls(signInCall, Some(userId));
        match fetchRole(userId)
        case RoleThrew => LoginResult(Fail(500, UnexpectedMessage), calls)
        case RoleError => LoginResult(Fail(500, "Could not fetch user role."), calls)
        case RoleRow(role) =>
          if role.None? || role.value == "" then LoginResult(Fail(404, "User role not found."), calls)
          else LoginResult(Ok(200, LoggedIn(userId, role.value)), calls)
  }

  /** Whitespace around the email does not change anything the route does
      or answers: the body behaves as the one whose email is already trimmed.
      The password is passed on as sent. */
  lemma SurroundingWhitespaceIgnored(b: LoginBody, clientThrows: bool,
      signIn: (string, string) -> SignInOutcome, fetchRole: string -> RoleLookup)
    ensures var trimmed := LoginBody(if b.email.Some? then Some(Trim(b.email.value)) else None, b.password);
      Post(Some(b), clientThrows, signIn, fetchRole) == Post(Some(trimmed), clientThrows, signIn, fetchRole)
  {
    if b.email.Some? {
      TrimIdempotent(b.email.value);
    }
  }

  /** A successful login always reports a non-empty role. */
  lemma LoggedInRoleNonEmpty(body: Option<LoginBody>, clientThrows: bool,
      signIn: (string, string) -> SignInOutcome, fetchRole: string -> RoleLookup)
    ensures var r := Post(body, clientThrows, signIn, fetchRole).reply;
      r.Ok? ==> r.payload.role != ""
  {
  }

  /** GET is not supported. */
  function Get(): (r: Reply<LoggedIn>)
    ensures r.Fail? && r.status == 405 && r.message == MethodNotAllowedMessage
  {
    Fail(405, MethodNotAllowedMessage)
  }
}
