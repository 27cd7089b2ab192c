/**
 * The login form: local validation, one request, classification of its
 * failure into exactly one message, and on success the token stored under
 * "token" and `onLogin` called.
 */
module Login {
  import opened Wrappers
  import opened Http
  import opened AuthCommon
  import Session

  const IncorrectCredentials := "Incorrect email or password"
  const InvalidServerResponse := "Invalid response from server"

  /** The credentials posted to /login. */
  datatype Credentials = Credentials(email: string, password: string)

  /**
   * The local checks of `handleSubmit`, in their order: both fields filled,
   * then the e-mail pattern. `None` means a request is sent.
   */
  function ValidateLogin(email: string, password: string): (r: Option<string>)
    ensures r == FirstFailing([Check(email != [] && password != [], FillAllFields),
                               Check(MatchesEmailPattern(email), InvalidEmail)])
  {
    var checks := [Check(email != [] && password != [], FillAllFields),
                   Check(MatchesEmailPattern(email), InvalidEmail)];
    assert checks[1..] == [checks[1]] && checks[1..][1..] == [];
    if email == [] || password == [] then Some(FillAllFields)
    else if !MatchesEmailPattern(email) then Some(InvalidEmail)
    else None
  }

  /** The `catch` branch: each failure shape gets one message, and each message one shape. */
  function ClassifyLoginFailure(f: Failure): (msg: string)
    ensures msg == IncorrectCredentials <==> f.HttpStatus? && f.status == Unauthorized
    ensures msg == InvalidInput <==> f.HttpStatus? && f.status == UnprocessableContent
    ensures msg == ServerError <==>
              f.HttpStatus? && f.status != Unauthorized && f.status != UnprocessableContent
    ensures msg == CannotConnect <==> f.NoResponse?
    ensures msg == Unexpected <==> f.NotSent?
  {
    match f
    case HttpStatus(status, _) =>
      if status == Unauthorized then IncorrectCredentials
      else if status == UnprocessableContent then InvalidInput
      else ServerError
    case NoResponse => CannotConnect
    case NotSent => Unexpected
  }

  datatype LoginResult = SignedIn(token: string) | Rejected(message: string)

  /**
   * How a settled request ends: signed in with the response's
   * `access_token` when that is a non-empty string, otherwise rejected with
   * one non-empty message.
   */
  function LoginOutcome(reply: Reply<Option<string>>): (r: LoginResult)
    ensures r.SignedIn? <==> reply.Ok? && reply.data.Some? && reply.data.value != []
    ensures r.SignedIn? ==> r.token == reply.data.value
    ensures r.Rejected? ==> r.message != []
    ensures reply.Ok? && r.Rejected? ==> r.message == InvalidServerResponse
    ensures reply.Err? ==> r == Rejected(ClassifyLoginFailure(reply.failure))
  {
    match reply
    case Ok(data) =>
      if Session.Truthy(data) then SignedIn(data.value) else Rejected(InvalidServerResponse)
    case Err(f) => Rejected(ClassifyLoginFailure(f))
  }

  class LoginForm {
    var email: string
    var password: string
    var loading: bool
    var error: string
    /** How many times `onLogin` has been called. */
    var onLoginCalls: nat
    const storage: Session.TokenStorage

    constructor (storage: Session.TokenStorage)
      ensures this.storage == storage
      ensures email == [] && password == [] && !loading && error == [] && onLoginCalls == 0
    {
      this.storage := storage;
      email, password, loading, error, onLoginCalls := [], [], false, [], 0;
    }

    /** Typing into the e-mail input, which is disabled while loading. */
    method SetEmail(value: string)
      requires !loading
      modifies this`email
      ensures email == value
    {
      email := value;
    }

    /** Typing into the password input, which is disabled while loading. */
    method SetPassword(value: string)
      requires !loading
      modifies this`password
      ensures password == value
    {
      password := value;
    }

    /**
     * The synchronous part of `handleSubmit`: clear the error, validate, and
     * either stop with the first failing check's message (leaving `loading`
     * as it was) or set `loading` and send the credentials.
     */
    method Submit() returns (request: Option<Credentials>)
      modifies this`error, this`loading
      ensures ValidateLogin(email, password).Some? ==>
                && request.None? && error == ValidateLogin(email, password).value
                && loading == old(loading)
      ensures ValidateLogin(email, password).None? ==>
                request == Some(Credentials(email, password)) && error == [] && loading
    {
      error := [];
      if email == [] || password == [] {
        error := FillAllFields;
        return None;
      }
      if !MatchesEmailPattern(email) {
        error := InvalidEmail;
        return None;
      }
      loading := true;
      request := Some(Credentials(email, password));
    }

    /**
     * The part of `handleSubmit` after the request settles: store the token
     * and call `onLogin`, or set the one message; `loading` ends false.
     */
    method Settle(reply: Reply<Option<string>>)
      modifies this`error, this`loading, this`onLoginCalls, storage`token
      ensures !loading
      ensures LoginOutcome(reply).SignedIn? ==>
                && storage.token == Some(LoginOutcome(reply).token)
                && onLoginCalls == old(onLoginCalls) + 1 && error == old(error)
      ensures LoginOutcome(reply).Rejected? ==>
                && storage.token == old(storage.token) && onLoginCalls == old(onLoginCalls)
                && error == LoginOutcome(reply).message
    {
      match reply {
        case Ok(data) =>
          if data.Some? && data.value != [] {
            storage.SetItem(data.value);
            onLoginCalls := onLoginCalls + 1;
          } else {
            error := InvalidServerResponse;
          }
        case Err(f) =>
          error := ClassifyLoginFailure(f);
      }
      loading := false;
    }

    /**
     * One whole submission. A local failure sends nothing and changes only
     * the message; otherwise exactly one of "signed in (token stored,
     * `onLogin` called once, no message)" and "one message, no token, no
     * `onLogin`" holds, and `loading` is false.
     */
    method HandleSubmit(reply: Reply<Option<string>>) returns (request: Option<Credentials>)
      modifies this`error, this`loading, this`onLoginCalls, storage`token
      ensures ValidateLogin(email, password).Some? ==>
                && request.None? && error == ValidateLogin(email, password).value
                && loading == old(loading)
                && storage.token == old(storage.token) && onLoginCalls == old(onLoginCalls)
      ensures ValidateLogin(email, password).None? ==>
                && request == Some(Credentials(email, password)) && !loading
                && (LoginOutcome(reply).SignedIn? ==>
                      && storage.token == Some(LoginOutcome(reply).token)
                      && onLoginCalls == old(onLoginCalls) + 1 && error == [])
                && (LoginOutcome(reply).Rejected? ==>
                      && storage.token == old(storage.token) && onLoginCalls == old(onLoginCalls)
                      && error == LoginOutcome(reply).message)
    {
      request := Submit();
      if request.Some? {
        Settle(reply);
      }
    }
  }
}
