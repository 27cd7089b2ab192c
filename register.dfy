/**
 * The registration form: four ordered local checks, one request, and on
 * success a cleared form, a success display and one redirect to the login
 * form scheduled after a fixed delay.
 */
module Register {
  import opened Wrappers
  import opened Http
  import opened AuthCommon
  import Login

  const MinPasswordLength := 6
  const PasswordTooShort := "Password must be at least 6 characters"
  const PasswordsDiffer := "Passwords do not match"
  const EmailAlreadyRegistered := "Email already registered"

  /**
   * The local checks of `handleSubmit`, in their order: all three fields
   * filled, the e-mail pattern, the password length, the confirmation.
   */
  function ValidateRegistration(email: string, password: string, confirm: string): (r: Option<string>)
    ensures r == FirstFailing([Check(email != [] && password != [] && confirm != [], FillAllFields),
                               Check(MatchesEmailPattern(email), InvalidEmail),
                               Check(|password| >= MinPasswordLength, PasswordTooShort),
                               Check(password == confirm, PasswordsDiffer)])
  {
    var checks := [Check(email != [] && password != [] && confirm != [], FillAllFields),
                   Check(MatchesEmailPattern(email), InvalidEmail),
                   Check(|password| >= MinPasswordLength, PasswordTooShort),
                   Check(password == confirm, PasswordsDiffer)];
    assert checks[1..] == checks[1..4] && checks[1..4][1..] == checks[2..4];
    assert checks[2..4][1..] == [checks[3]] && [checks[3]][1..] == [];
    assert checks[0].passes ==> FirstFailing(checks) == FirstFailing(checks[1..4]);
    assert checks[1].passes ==> FirstFailing(checks[1..4]) == FirstFailing(checks[2..4]);
    assert checks[2].passes ==> FirstFailing(checks[2..4]) == FirstFailing([checks[3]]);
    if email == [] || password == [] || confirm == [] then Some(FillAllFields)
    else if !MatchesEmailPattern(email) then Some(InvalidEmail)
    else if |password| < MinPasswordLength then Some(PasswordTooShort)
    else if password != confirm then Some(PasswordsDiffer)
    else None
  }

  /** A short password that also differs from its confirmation is reported as too short. */
  lemma ShortPasswordReportedBeforeMismatch(email: string, password: string, confirm: string)
    requires email != [] && password != [] && confirm != [] && MatchesEmailPattern(email)
    requires |password| < MinPasswordLength && password != confirm
    ensures ValidateRegistration(email, password, confirm) == Some(PasswordTooShort)
  {
  }

  /**
   * The `catch` branch: a 400 shows the server's non-empty `detail`, or the
   * duplicate-account message; the other shapes map as on the login form
   * except that a 401 counts as a server error.
   */
  function ClassifyRegisterFailure(f: Failure): (msg: string)
    ensures f.HttpStatus? && f.status == BadRequest ==>
              msg == if f.detail.Some? && f.detail.value != [] then f.detail.value
                     else EmailAlreadyRegistered
    ensures f.HttpStatus? && f.status == UnprocessableContent ==> msg == InvalidInput
    ensures f.HttpStatus? && f.status != BadRequest && f.status != UnprocessableContent ==>
              msg == ServerError
    ensures f.NoResponse? ==> msg == CannotConnect
    ensures f.NotSent? ==> msg == Unexpected
    ensures msg != []
  {
    match f
    case HttpStatus(status, detail) =>
      if status == BadRequest then
        if detail.Some? && detail.value != [] then detail.value else EmailAlreadyRegistered
      else if status == UnprocessableContent then InvalidInput
      else ServerError
    case NoResponse => CannotConnect
    case NotSent => Unexpected
  }

  /** Apart from statuses 400 and 401, both forms show the same message for the same failure. */
  lemma FailureMessagesAgreeWithLogin(f: Failure)
    requires !(f.HttpStatus? && f.status in {BadRequest, Unauthorized})
    ensures ClassifyRegisterFailure(f) == Login.ClassifyLoginFailure(f)
  {
  }

  class RegisterForm {
    var email: string
    var password: string
    var confirmPassword: string
    var loading: bool
    var error: string
    var success: bool
    /** Redirect timers started and not yet fired. */
    var pendingRedirects: nat
    /** How many times `onRegisterSuccess` has been called. */
    var onRegisterSuccessCalls: nat

    constructor ()
      ensures email == [] && password == [] && confirmPassword == []
      ensures !loading && error == [] && !success
      ensures pendingRedirects == 0 && onRegisterSuccessCalls == 0
    {
      email, password, confirmPassword := [], [], [];
      loading, error, success := false, [], false;
      pendingRedirects, onRegisterSuccessCalls := 0, 0;
    }

    /** The three inputs are disabled while loading and after a success. */
    predicate InputsDisabled()
      reads this
    {
      loading || success
    }

    method SetEmail(value: string)
      requires !InputsDisabled()
      modifies this`email
      ensures email == value
    {
      email := value;
    }

    method SetPassword(value: string)
      requires !InputsDisabled()
      modifies this`password
      ensures password == value
    {
      password := value;
    }

    method SetConfirmPassword(value: string)
      requires !InputsDisabled()
      modifies this`confirmPassword
      ensures confirmPassword == value
    {
      confirmPassword := value;
    }

    /**
     * The synchronous part of `handleSubmit`: clear the error and the
     * success flag, validate, and either stop with the first failing
     * check's message or set `loading` and send e-mail and password.
     */
    method Submit() returns (request: Option<Login.Credentials>)
      modifies this`error, this`success, this`loading
      ensures !success
      ensures ValidateRegistration(email, password, confirmPassword).Some? ==>
                && request.None? && loading == old(loading)
                && error == ValidateRegistration(email, password, confirmPassword).value
      ensures ValidateRegistration(email, password, confirmPassword).None? ==>
                request == Some(Login.Credentials(email, password)) && error == [] && loading
    {
      error := [];
      success := false;
      if email == [] || password == [] || confirmPassword == [] {
        error := FillAllFields;
        return None;
      }
      if !MatchesEmailPattern(email) {
        error := InvalidEmail;
        return None;
      }
      if |password| < MinPasswordLength {
        error := PasswordTooShort;
        return None;
      }
      if password != confirmPassword {
        error := PasswordsDiffer;
        return None;
      }
      loading := true;
      request := Some(Login.Credentials(email, password));
    }

    /**
     * The part of `handleSubmit` after the request settles. Success shows
     * the success state, clears the message and the three inputs and starts
     * one redirect timer; failure sets one message and keeps the inputs.
     * `loading` ends false either way.
     */
    method Settle(reply: Reply<()>)
      modifies this
      ensures !loading && onRegisterSuccessCalls == old(onRegisterSuccessCalls)
      ensures reply.Ok? ==>
                && success && error == []
                && email == [] && password == [] && confirmPassword == []
                && pendingRedirects == old(pendingRedirects) + 1
      ensures reply.Err? ==>
                && success == old(success) && error == ClassifyRegisterFailure(reply.failure)
                && email == old(email) && password == old(password)
                && confirmPassword == old(confirmPassword)
                && pendingRedirects == old(pendingRedirects)
    {
      match reply {
        case Ok(_) =>
          success := true;
          error := [];
          email, password, confirmPassword := [], [], [];
          pendingRedirects := pendingRedirects + 1;
        case Err(f) =>
          error := ClassifyRegisterFailure(f);
      }
      loading := false;
    }

    /**
     * One whole submission: a local failure sends nothing; otherwise the
     * request's outcome is applied and `loading` ends false.
     */
    method HandleSubmit(reply: Reply<()>) returns (request: Option<Login.Credentials>)
      modifies this
      ensures onRegisterSuccessCalls == old(onRegisterSuccessCalls)
      ensures ValidateRegistration(old(email), old(password), old(confirmPassword)).Some? ==>
                && request.None? && !success && loading == old(loading)
                && error == ValidateRegistration(old(email), old(password), old(confirmPassword)).value
                && email == old(email) && password == old(password)
                && confirmPassword == old(confirmPassword)
                && pendingRedirects == old(pendingRedirects)
      ensures ValidateRegistration(old(email), old(password), old(confirmPassword)).None? ==>
                && request == Some(Login.Credentials(old(email), old(password))) && !loading
                && (reply.Ok? ==>
                      && success && error == [] && email == [] && password == []
                      && confirmPassword == [] && pendingRedirects == old(pendingRedirects) + 1)
                && (reply.Err? ==>
                      && !success && error == ClassifyRegisterFailure(reply.failure)
                      && email == old(email) && password == old(password)
                      && confirmPassword == old(confirmPassword)
                      && pendingRedirects == old(pendingRedirects))
    {
      request := Submit();
      if request.Some? {
        Settle(reply);
      }
    }

    /**
     * A redirect timer fires 2000 ms after it was started: `onRegisterSuccess` is
     * called once for it. Nothing cancels a started timer.
     */
    method RedirectTimerFires()
      requires pendingRedirects > 0
      modifies this`pendingRedirects, this`onRegisterSuccessCalls
      ensures pendingRedirects == old(pendingRedirects) - 1
      ensures onRegisterSuccessCalls == old(onRegisterSuccessCalls) + 1
    {
      pendingRedirects := pendingRedirects - 1;
      onRegisterSuccessCalls := onRegisterSuccessCalls + 1;
    }
  }
}
