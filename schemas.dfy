/**
 * The request and response schemas of the server. A request body arrives
 * as JSON fields; `None` stands for a missing key or an explicit null.
 * Parsing either yields the validated model or fails (status 422).
 */
module Schemas {
  import opened Wrappers

  const PasswordMinLength := 6
  const TitleMinLength := 1
  const TitleMaxLength := 200
  const DescriptionMaxLength := 1000

  datatype UserCreate = UserCreate(email: string, password: string)
  datatype UserLogin = UserLogin(email: string, password: string)
  /** What the server tells about a user: no password hash among the fields. */
  datatype UserResponse = UserResponse(id: nat, email: string)
  datatype Token = Token(accessToken: string, tokenType: string)
  datatype TaskCreate = TaskCreate(title: string, description: Option<string>)
  datatype Message = Message(message: string)

  /** A field of a partial update: left out of the body, or given (possibly as null). */
  datatype Patch<T> = Unset | Set(value: T)

  datatype TaskUpdate = TaskUpdate(title: Patch<string>, description: Patch<Option<string>>,
                                   completed: Patch<bool>)

  predicate DescriptionFits(description: Option<string>) {
    description.Some? ==> |description.value| <= DescriptionMaxLength
  }

  predicate TitleFits(title: string) {
    TitleMinLength <= |title| <= TitleMaxLength
  }

  /**
   * `UserCreate`: an e-mail accepted (and normalised) by `validateEmail`
   * and a password of at least six characters, both required.
   */
  function ParseUserCreate(email: Option<string>, password: Option<string>,
                           validateEmail: string -> Option<string>): (r: Option<UserCreate>)
    ensures r.Some? <==>
              && email.Some? && password.Some? && validateEmail(email.value).Some?
              && |password.value| >= PasswordMinLength
    ensures r.Some? ==> r.value == UserCreate(validateEmail(email.value).value, password.value)
  {
    if email.None? || password.None? then None
    else match validateEmail(email.value)
      case None => None
      case Some(normalised) =>
        if |password.value| < PasswordMinLength then None
        else Some(UserCreate(normalised, password.value))
  }

  /** `UserLogin`: the same e-mail rule, and any password at all. */
  function ParseUserLogin(email: Option<string>, password: Option<string>,
                          validateEmail: string -> Option<string>): (r: Option<UserLogin>)
    ensures r.Some? <==> email.Some? && password.Some? && validateEmail(email.value).Some?
    ensures r.Some? ==> r.value == UserLogin(validateEmail(email.value).value, password.value)
  {
    if email.None? || password.None? then None
    else match validateEmail(email.value)
      case None => None
      case Some(normalised) => Some(UserLogin(normalised, password.value))
  }

  /** A password that registration refuses for its length is still accepted by the login schema. */
  lemma ShortPasswordOnlyMattersForRegistration(email: string, password: string,
                                                validateEmail: string -> Option<string>)
    requires validateEmail(email).Some? && |password| < PasswordMinLength
    ensures ParseUserCreate(Some(email), Some(password), validateEmail).None?
    ensures ParseUserLogin(Some(email), Some(password), validateEmail).Some?
  {
  }

  /** `TaskCreate`: a required title of 1 to 200 characters, an optional description of at most 1000. */
  function ParseTaskCreate(title: Option<string>, description: Option<string>): (r: Option<TaskCreate>)
    ensures r.Some? <==> title.Some? && TitleFits(title.value) && DescriptionFits(description)
    ensures r.Some? ==> r.value == TaskCreate(title.value, description)
  {
    if title.None? || !TitleFits(title.value) || !DescriptionFits(description) then None
    else Some(TaskCreate(title.value, description))
  }

  /** `TaskUpdate`: every field optional; a given title has 1 to 200 characters, a given description at most 1000. */
  function ParseTaskUpdate(title: Patch<string>, description: Patch<Option<string>>,
                           completed: Patch<bool>): (r: Option<TaskUpdate>)
    ensures r.Some? <==>
              && (title.Set? ==> TitleFits(title.value))
              && (description.Set? ==> DescriptionFits(description.value))
    ensures r.Some? ==> r.value == TaskUpdate(title, description, completed)
  {
    if title.Set? && !TitleFits(title.value) then None
    else if description.Set? && !DescriptionFits(description.value) then None
    else Some(TaskUpdate(title, description, completed))
  }
}
