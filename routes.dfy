/**
 * The server's endpoints: each takes the store (as the request's database
 * session) and the authenticated user's id where one is needed, and
 * answers with a status. A body that fails its schema is answered with 422
 * before the endpoint runs.
 */
module Routes {
  import opened Wrappers
  import opened Schemas
  import opened Crud

  /**
   * The server's own status table, as FastAPI's `status` module names them.
   * It is kept apart from the client's codes in `Http`, whose `Ok` is the
   * name of a reply constructor there.
   */
  const Ok := 200
  const Created := 201
  const BadRequest := 400
  const Unauthorized := 401
  const NotFound := 404

  const EmailAlreadyRegistered := "Email already registered"
  const IncorrectCredentials := "Incorrect email or password"
  const TaskNotFound := "Task not found"
  const TaskDeleted := "Task deleted successfully"
  const LoggedOut := "Successfully logged out"
  /** The `token_type` of an issued token. */
  const BearerTokenType := "bearer"
  /** The `WWW-Authenticate` challenge sent with a failed login. */
  const BearerChallenge := "Bearer"
  const DefaultSkip := 0
  const DefaultLimit := 100

  datatype Response<T> =
    | Success(status: int, body: T)
    | HttpError(status: int, detail: string, wwwAuthenticate: Option<string>)
    | ValidationError  // the request body failed its schema (422); pydantic's error list is not modelled

  function Digit(d: nat): (c: char)
    requires d < 10
    ensures '0' <= c <= '9' && c as int - '0' as int == d
  {
    ('0' as int + d) as char
  }

  /** `str(n)`: the decimal digits of `n`, without leading zeros. */
  function DecimalString(n: nat): (s: string)
    ensures s != [] && forall k | 0 <= k < |s| :: '0' <= s[k] <= '9'
    ensures |s| == 1 <==> n < 10
  {
    if n < 10 then [Digit(n)] else DecimalString(n / 10) + [Digit(n % 10)]
  }

  /** Distinct ids give distinct token subjects. */
  lemma {:induction false} DecimalStringInjective(a: nat, b: nat)
    requires DecimalString(a) == DecimalString(b)
    ensures a == b
  {
    var s := DecimalString(a);
    if a >= 10 {
      assert s[..|s| - 1] == DecimalString(a / 10) && s[|s| - 1] == Digit(a % 10);
      assert s[..|s| - 1] == DecimalString(b / 10) && s[|s| - 1] == Digit(b % 10);
      DecimalStringInjective(a / 10, b / 10);
    }
  }

  /**
   * POST /register: 422 for a bad body; 400 and no change when the e-mail
   * is taken; otherwise exactly one new user, returned with 201 and
   * without its password hash.
   */
  method PostRegister(db: Database, email: Option<string>, password: Option<string>)
    returns (r: Response<UserResponse>)
    requires db.Valid()
    modifies db`users, db`nextUserId
    ensures db.Valid()
    ensures ParseUserCreate(email, password, db.validateEmail).None? ==>
              r == ValidationError && db.users == old(db.users)
    ensures ParseUserCreate(email, password, db.validateEmail).Some? ==>
              var u := ParseUserCreate(email, password, db.validateEmail).value;
              && (FindUserByEmail(old(db.users), u.email).Some? ==>
                    && r == HttpError(BadRequest, EmailAlreadyRegistered, None)
                    && db.users == old(db.users))
              && (FindUserByEmail(old(db.users), u.email).None? ==>
                    && r == Success(Created, UserResponse(old(db.nextUserId), u.email))
                    && db.users == old(db.users) + [User(old(db.nextUserId), u.email, db.hash(u.password))])
  {
    var parsed := ParseUserCreate(email, password, db.validateEmail);
    if parsed.None? {
      return ValidationError;
    }
    var u := parsed.value;
    if FindUserByEmail(db.users, u.email).Some? {
      return HttpError(BadRequest, EmailAlreadyRegistered, None);
    }
    var user := db.CreateUser(u);
    r := Success(Created, UserResponse(user.id, user.email));
  }

  /**
   * POST /login: 422 for a bad body; 401 with a Bearer challenge when the
   * credentials do not authenticate; otherwise a bearer token issued for
   * the user's id in decimal.
   */
  function PostLogin(db: Database, email: Option<string>, password: Option<string>): (r: Response<Token>)
    reads db
    ensures ParseUserLogin(email, password, db.validateEmail).None? ==> r == ValidationError
    ensures ParseUserLogin(email, password, db.validateEmail).Some? ==>
              var c := ParseUserLogin(email, password, db.validateEmail).value;
              var user := Authenticate(db.users, c.email, c.password, db.verify);
              && (user.None? ==>
                    r == HttpError(Unauthorized, IncorrectCredentials, Some(BearerChallenge)))
              && (user.Some? ==>
                    r == Success(Ok, Token(db.issueToken(DecimalString(user.value.id)), BearerTokenType)))
  {
    match ParseUserLogin(email, password, db.validateEmail)
    case None => ValidationError
    case Some(c) =>
      match Authenticate(db.users, c.email, c.password, db.verify)
      case None => HttpError(Unauthorized, IncorrectCredentials, Some(BearerChallenge))
      case Some(user) => Success(Ok, Token(db.issueToken(DecimalString(user.id)), BearerTokenType))
  }

  /** POST /logout, for an authenticated user: a fixed acknowledgement; nothing is revoked. */
  function PostLogout(currentUserId: nat): (r: Response<Message>)
    ensures r.Success? && r.status == Ok && r.body.message == LoggedOut
  {
    Success(Ok, Message(LoggedOut))
  }

  /** POST /tasks: 422 for a bad body; otherwise one new task of the current user, returned with 201. */
  method PostTask(db: Database, title: Option<string>, description: Option<string>, currentUserId: nat)
    returns (r: Response<TaskRow>)
    requires db.Valid()
    modifies db`tasks, db`nextTaskId
    ensures db.Valid()
    ensures ParseTaskCreate(title, description).None? ==>
              r == ValidationError && db.tasks == old(db.tasks)
    ensures ParseTaskCreate(title, description).Some? ==>
              && r == Success(Created, TaskRow(old(db.nextTaskId), currentUserId, title.value,
                                               description, false))
              && db.tasks == old(db.tasks) + [r.body]
  {
    var parsed := ParseTaskCreate(title, description);
    if parsed.None? {
      return ValidationError;
    }
    var row := db.CreateTask(parsed.value, currentUserId);
    r := Success(Created, row);
  }

  /**
   * GET /tasks: always 200, with only the current user's tasks, at most
   * `limit` (100 by default) of them after skipping `skip` (0 by default).
   */
  function GetTasks(db: Database, currentUserId: nat, skip: Option<nat>, limit: Option<nat>)
    : (r: Response<seq<TaskRow>>)
    reads db
    ensures r.Success? && r.status == Ok
    ensures r.body == Window(OwnedBy(db.tasks, currentUserId), skip.GetOr(DefaultSkip), limit.GetOr(DefaultLimit))
    ensures |r.body| <= limit.GetOr(DefaultLimit)
    ensures forall k | 0 <= k < |r.body| :: r.body[k] in db.tasks && r.body[k].ownerId == currentUserId
    ensures skip.GetOr(DefaultSkip) == 0 && |OwnedBy(db.tasks, currentUserId)| <= limit.GetOr(DefaultLimit) ==>
              r.body == OwnedBy(db.tasks, currentUserId)
  {
    var owned := OwnedBy(db.tasks, currentUserId);
    var page := Window(owned, skip.GetOr(DefaultSkip), limit.GetOr(DefaultLimit));
    assert forall k | 0 <= k < |page| :: page[k] in owned;
    Success(Ok, page)
  }

  /** GET /tasks/{id}: the task when it is the current user's; 404 when it is missing or someone else's. */
  function GetTask(db: Database, taskId: nat, currentUserId: nat): (r: Response<TaskRow>)
    reads db
    ensures r.Success? <==> exists k | 0 <= k < |db.tasks| ::
                              db.tasks[k].id == taskId && db.tasks[k].ownerId == currentUserId
    ensures r.Success? ==>
              r.status == Ok && r.body in db.tasks && r.body.id == taskId && r.body.ownerId == currentUserId
    ensures !r.Success? ==> r == HttpError(NotFound, TaskNotFound, None)
  {
    match FindTask(db.tasks, taskId, currentUserId)
    case None => HttpError(NotFound, TaskNotFound, None)
    case Some(task) => Success(Ok, task)
  }

  /**
   * PUT /tasks/{id}: 422 for a bad body; 404 and no change when the task
   * is missing or someone else's; otherwise the task with exactly the given
   * fields overwritten in place, every other row unchanged, and a later GET
   * returns it.
   */
  method PutTask(db: Database, taskId: nat, title: Patch<string>, description: Patch<Option<string>>,
                 completed: Patch<bool>, currentUserId: nat)
    returns (r: Response<TaskRow>)
    requires db.Valid()
    modifies db`tasks
    ensures db.Valid()
    ensures ParseTaskUpdate(title, description, completed).None? ==>
              r == ValidationError && db.tasks == old(db.tasks)
    ensures ParseTaskUpdate(title, description, completed).Some? &&
            FindTask(old(db.tasks), taskId, currentUserId).None? ==>
              r == HttpError(NotFound, TaskNotFound, None) && db.tasks == old(db.tasks)
    ensures ParseTaskUpdate(title, description, completed).Some? &&
            FindTask(old(db.tasks), taskId, currentUserId).Some? ==>
              && r == Success(Ok, Patched(FindTask(old(db.tasks), taskId, currentUserId).value,
                                          TaskUpdate(title, description, completed)))
              && db.tasks == old(db.tasks)[TaskIndex(old(db.tasks), taskId, currentUserId).value := r.body]
              && GetTask(db, taskId, currentUserId) == r
  {
    var parsed := ParseTaskUpdate(title, description, completed);
    if parsed.None? {
      return ValidationError;
    }
    ghost var before := db.tasks;
    var updated := db.UpdateTask(taskId, currentUserId, parsed.value);
    if updated.None? {
      return HttpError(NotFound, TaskNotFound, None);
    }
    r := Success(Ok, updated.value);
    ghost var k := TaskIndex(before, taskId, currentUserId).value;
    assert db.tasks[k] == updated.value;
    assert TaskIndex(db.tasks, taskId, currentUserId) == Some(k) by {
      assert forall m | 0 <= m < k :: db.tasks[m] == before[m];
    }
  }

  /**
   * DELETE /tasks/{id}: 404 and no change when the task is missing or
   * someone else's; otherwise exactly that row is removed, the others keep
   * their order, a later GET answers 404, and the acknowledgement is returned.
   */
  method DeleteTask(db: Database, taskId: nat, currentUserId: nat) returns (r: Response<Message>)
    requires db.Valid()
    modifies db`tasks
    ensures db.Valid()
    ensures FindTask(old(db.tasks), taskId, currentUserId).None? ==>
              r == HttpError(NotFound, TaskNotFound, None) && db.tasks == old(db.tasks)
    ensures FindTask(old(db.tasks), taskId, currentUserId).Some? ==>
              && r == Success(Ok, Message(TaskDeleted))
              && (var k := TaskIndex(old(db.tasks), taskId, currentUserId).value;
                  db.tasks == old(db.tasks)[..k] + old(db.tasks)[k + 1..])
              && (forall t | t in db.tasks :: t.id != taskId)
              && GetTask(db, taskId, currentUserId) == HttpError(NotFound, TaskNotFound, None)
  {
    var deleted := db.DeleteTask(taskId, currentUserId);
    if !deleted {
      return HttpError(NotFound, TaskNotFound, None);
    }
    r := Success(Ok, Message(TaskDeleted));
  }
}
