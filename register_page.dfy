/** The registration page: the password-strength hint and the submit handler. */
module RegisterPage {
  import opened Wrappers
  import opened Http
  import Register

  predicate IsAsciiLetter(c: char) { ('A' <= c <= 'Z') || ('a' <= c <= 'z') }
  predicate IsDigit(c: char) { '0' <= c <= '9' }

  /** `/[A-Za-z]/.test`, `/\d/.test` and `/[^A-Za-z0-9]/.test`. */
  predicate HasLetter(s: string) { exists i :: 0 <= i < |s| && IsAsciiLetter(s[i]) }
  predicate HasDigit(s: string) { exists i :: 0 <= i < |s| && IsDigit(s[i]) }
  predicate HasSpecial(s: string) { exists i :: 0 <= i < |s| && !IsAsciiLetter(s[i]) && !IsDigit(s[i]) }

  datatype Strength = Strength(text: string, color: string)

  /** The one colour each label is shown in. */
  function ColorOf(text: string): string {
    if text == "Zu kurz" then "text-red-600"
    else if text == "Sehr stark" then "text-green-700"
    else if text == "Solide" then "text-green-600"
    else if text == "Schwach" then "text-orange-500"
    else ""
  }

  /** `passwordStrength`: a five-way classification by length and by which
      character classes occur. */
  function PasswordStrength(password: string): (r: Strength)
    ensures r.color == ColorOf(r.text)
    ensures r.text in {"", "Zu kurz", "Sehr stark", "Solide", "Schwach"}
    ensures r.text == "" <==> |password| == 0
    ensures r.text == "Zu kurz" <==> 1 <= |password| <= 5
    ensures r.text == "Sehr stark" <==>
      |password| >= 10 && HasLetter(password) && HasDigit(password) && HasSpecial(password)
    ensures r.text == "Solide" <==>
      && |password| >= 6 && HasLetter(password) && HasDigit(password)
      && !(|password| >= 10 && HasSpecial(password))
    ensures r.text == "Schwach" <==> |password| >= 6 && !(HasLetter(password) && HasDigit(password))
  {
    var n := |password|;
    if n == 0 then Strength("", "")
    else if n < 6 then Strength("Zu kurz", "text-red-600")
    else if n >= 10 && HasLetter(password) && HasDigit(password) && HasSpecial(password) then
      Strength("Sehr stark", "text-green-700")
    else if HasLetter(password) && HasDigit(password) then Strength("Solide", "text-green-600")
    else Strength("Schwach", "text-orange-500")
  }

  /** Only A-Z and a-z are letters: an "ä" counts as a special character, so
      it can make a long password with a letter and a digit very strong, and
      a password of umlauts alone has no letter and is never solid or very
      strong. */
  lemma UmlautIsSpecial(p: string)
    ensures '\U{00E4}' in p ==> HasSpecial(p)
    ensures '\U{00E4}' in p && |p| >= 10 && HasLetter(p) && HasDigit(p) ==> PasswordStrength(p).text == "Sehr stark"
    ensures (forall i :: 0 <= i < |p| ==> p[i] == '\U{00E4}') ==>
      !HasLetter(p) && PasswordStrength(p).text != "Solide" && PasswordStrength(p).text != "Sehr stark"
  {
    if '\U{00E4}' in p {
      var i :| 0 <= i < |p| && p[i] == '\U{00E4}';
      assert !IsAsciiLetter(p[i]) && !IsDigit(p[i]);
    }
  }

  /** The same on three passwords: ten characters with an "ä" are very
      strong, the same length with a second digit instead is only solid, and
      six umlauts are weak. */
  lemma UmlautExamples()
    ensures PasswordStrength("abcdefgh1\U{00E4}").text == "Sehr stark"
    ensures PasswordStrength("abcdefgh12").text == "Solide"
    ensures PasswordStrength("\U{00E4}\U{00E4}\U{00E4}\U{00E4}\U{00E4}\U{00E4}").text == "Schwach"
  {
    VeryStrongWithUmlaut();
    SolidWithoutSpecial();
    WeakWithUmlautsAlone();
  }

  lemma VeryStrongWithUmlaut()
    ensures PasswordStrength("abcdefgh1\U{00E4}").text == "Sehr stark"
  {
    var p := "abcdefgh1\U{00E4}";
    assert IsAsciiLetter(p[0]) && IsDigit(p[8]);
    assert !IsAsciiLetter(p[9]) && !IsDigit(p[9]);
  }

  lemma SolidWithoutSpecial()
    ensures PasswordStrength("abcdefgh12").text == "Solide"
  {
    var p := "abcdefgh12";
    assert IsAsciiLetter(p[0]) && IsDigit(p[8]);
    assert !HasSpecial(p) by {
      forall i | 0 <= i < |p| ensures IsAsciiLetter(p[i]) || IsDigit(p[i]) {}
    }
  }

  lemma WeakWithUmlautsAlone()
    ensures PasswordStrength("\U{00E4}\U{00E4}\U{00E4}\U{00E4}\U{00E4}\U{00E4}").text == "Schwach"
  {
    var p := "\U{00E4}\U{00E4}\U{00E4}\U{00E4}\U{00E4}\U{00E4}";
    assert !HasLetter(p) by {
      forall i | 0 <= i < |p| ensures p[i] == '\U{00E4}' {}
    }
  }

  /** What the page sees of the response to its request: a network failure,
      or a status with the `success` and `error` fields of the JSON body
      (`None` when the body is not JSON). */
  datatype ResponseJson = ResponseJson(success: bool, error: Option<string>)
  datatype FetchOutcome = NetworkError | Answer(ok: bool, json: Option<ResponseJson>)

  /** The request the page sends to the register route. */
  datatype RegisterRequest = RegisterRequest(email: string, password: string, firstName: string, lastName: string)

  const MismatchMessage := "Passw\U{00F6}rter stimmen nicht \U{00FC}berein."
  const FailedMessage := "Registrierung fehlgeschlagen."
  const NetworkMessage := "Netzwerkfehler. Bitte erneut versuchen."

  /** `data?.error ?? "Registrierung fehlgeschlagen."`. */
  function FailureText(json: Option<ResponseJson>): string {
    if json.Some? && json.value.error.Some? then json.value.error.value else FailedMessage
  }

  /** The page's form state and what it has done so far. */
  class RegisterForm {
    var email: string
    var password: string
    var passwordConfirm: string
    var firstName: string
    var lastName: string
    var error: Option<string>
    var loading: bool
    /** Requests sent to the register route, oldest first. */
    var sent: seq<RegisterRequest>
    /** Where the router was told to go, if anywhere. */
    var navigatedTo: Option<string>

    constructor ()
      ensures email == "" && password == "" && passwordConfirm == "" && firstName == "" && lastName == ""
      ensures error == None && !loading && sent == [] && navigatedTo == None
    {
      email, password, passwordConfirm, firstName, lastName := "", "", "", "", "";
      error, loading, sent, navigatedTo := None, false, [], None;
    }

    /** `handleSubmit`: clear the error; on a password mismatch set it and
        stop before any request; otherwise send the request and, unless it
        succeeded, show the response's `error` field or a fixed message. */
    method Submit(outcome: FetchOutcome)
      modifies this`error, this`loading, this`sent, this`navigatedTo
      ensures password != passwordConfirm ==>
        && error == Some(MismatchMessage) && sent == old(sent)
        && loading == old(loading) && navigatedTo == old(navigatedTo)
      ensures password == passwordConfirm ==>
        && sent == old(sent) + [RegisterRequest(email, password, firstName, lastName)]
        && !loading
        && (outcome == NetworkError ==> error == Some(NetworkMessage) && navigatedTo == old(navigatedTo))
        && (outcome.Answer? && outcome.ok && outcome.json.Some? && outcome.json.value.success ==>
              error == None && navigatedTo == Some("/login"))
        && (outcome.Answer? && !(outcome.ok && outcome.json.Some? && outcome.json.value.success) ==>
              navigatedTo == old(navigatedTo)
              && error == Some(FailureText(outcome.json)))
    {
      error := None;
      if password != passwordConfirm {
        error := Some(MismatchMessage);
        return;
      }
      loading := true;
      sent := sent + [RegisterRequest(email, password, firstName, lastName)];
      match outcome {
        case NetworkError =>
          error := Some(NetworkMessage);
        case Answer(ok, json) =>
          if ok && json.Some? && json.value.success {
            navigatedTo := Some("/login");
          } else {
            error := Some(FailureText(json));
          }
      }
      loading := false;
    }
  }

  /** The JSON the register route sends: `success` and `message`, never an
      `error` field. */
  function JsonOf(reply: Reply<Register.Registered>): (json: ResponseJson)
    ensures json.error == None
    ensures json.success <==> reply.Ok?
  {
    ResponseJson(reply.Ok?, None)
  }

  /** On the route's own replies, `success` is sent exactly with status 201. */
  lemma SuccessExactlyOn201(body: Option<Register.RegisterBody>, clientThrows: bool,
      signUp: (string, string) -> Register.SignUpOutcome, insertProfile: Register.ProfileRow -> Register.InsertOutcome)
    ensures var reply := Register.Post(body, clientThrows, signUp, insertProfile).reply;
      JsonOf(reply).success <==> reply.Ok? && reply.status == 201
  {
  }

  /** Since the route reports its reasons under `message`, the page shows
      its fixed text for every failed registration, whatever the reason. */
  lemma FailedRegistrationShowsFixedText(body: Option<Register.RegisterBody>, clientThrows: bool,
      signUp: (string, string) -> Register.SignUpOutcome, insertProfile: Register.ProfileRow -> Register.InsertOutcome)
    ensures var reply := Register.Post(body, clientThrows, signUp, insertProfile).reply;
      reply.Fail? ==> FailureText(Some(JsonOf(reply))) == FailedMessage
  {
  }
}
