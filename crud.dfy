/**
 * The server's store of users and tasks and the operations on it. Rows are
 * kept in insertion order; ids come from counters that only grow. Password
 * hashing, its check, e-mail validation and token signing are outside code
 * and are given to the store as functions.
 */
module Crud {
  import opened Wrappers
  import opened Schemas

  datatype User = User(id: nat, email: string, hashedPassword: string)

  datatype TaskRow = TaskRow(id: nat, ownerId: nat, title: string, description: Option<string>,
                             completed: bool)

  /** `get_user_by_email`: the first user with that e-mail, if any. */
  function FindUserByEmail(users: seq<User>, email: string): (r: Option<User>)
    ensures r.None? <==> forall k | 0 <= k < |users| :: users[k].email != email
    ensures r.Some? ==>
              exists k | 0 <= k < |users| ::
                users[k] == r.value && r.value.email == email
                && forall m | 0 <= m < k :: users[m].email != email
  {
    if users == [] then None
    else if users[0].email == email then Some(users[0])
    else
      var r := FindUserByEmail(users[1..], email);
      assert forall k | 1 <= k < |users| :: users[k] == users[1..][k - 1];
      r
  }

  /** A user added at the end is found by e-mail exactly when no earlier user has it. */
  lemma {:induction false} FindUserAfterAppend(users: seq<User>, u: User, email: string)
    ensures FindUserByEmail(users + [u], email) ==
            if FindUserByEmail(users, email).Some? then FindUserByEmail(users, email)
            else if u.email == email then Some(u) else None
  {
    if users != [] {
      assert (users + [u])[1..] == users[1..] + [u];
      FindUserAfterAppend(users[1..], u, email);
    } else {
      assert [u][1..] == [];
    }
  }

  /**
   * `authenticate_user`: the user with that e-mail when the password checks
   * against the stored hash; nothing when there is no such user or it does not.
   */
  function Authenticate(users: seq<User>, email: string, password: string,
                        verify: (string, string) -> bool): (r: Option<User>)
    ensures r.Some? ==> r == FindUserByEmail(users, email)
    ensures r.Some? ==> r.value.email == email && verify(password, r.value.hashedPassword)
    ensures r.None? <==>
              || (forall k | 0 <= k < |users| :: users[k].email != email)
              || !verify(password, FindUserByEmail(users, email).value.hashedPassword)
  {
    match FindUserByEmail(users, email)
    case None => None
    case Some(user) => if verify(password, user.hashedPassword) then Some(user) else None
  }

  /**
   * Registering and then signing in: a user stored with `hash(password)`
   * under a new e-mail is authenticated with that password, provided the
   * check accepts a password against its own hash.
   */
  lemma SignUpThenSignIn(users: seq<User>, id: nat, email: string, password: string,
                         hash: string -> string, verify: (string, string) -> bool)
    requires FindUserByEmail(users, email).None?
    requires verify(password, hash(password))
    ensures Authenticate(users + [User(id, email, hash(password))], email, password, verify)
            == Some(User(id, email, hash(password)))
  {
    FindUserAfterAppend(users, User(id, email, hash(password)), email);
  }

  /** `filter(owner_id == user_id)`: the tasks of one owner, in store order. */
  function OwnedBy(tasks: seq<TaskRow>, owner: nat): (r: seq<TaskRow>)
    ensures |r| <= |tasks|
    ensures forall k | 0 <= k < |r| :: r[k].ownerId == owner
    ensures forall t :: t in r <==> t in tasks && t.ownerId == owner
  {
    if tasks == [] then []
    else if tasks[0].ownerId == owner then [tasks[0]] + OwnedBy(tasks[1..], owner)
    else OwnedBy(tasks[1..], owner)
  }

  /**
   * Filtering by owner distributes over concatenation: each row is kept or
   * dropped on its own, once, and the kept rows stay in store order.
   */
  lemma {:induction false} OwnedByConcat(a: seq<TaskRow>, b: seq<TaskRow>, owner: nat)
    ensures OwnedBy(a + b, owner) == OwnedBy(a, owner) + OwnedBy(b, owner)
  {
    if a == [] {
      assert a + b == b;
    } else {
      assert (a + b)[1..] == a[1..] + b;
      OwnedByConcat(a[1..], b, owner);
    }
  }

  /** `offset(skip).limit(limit)`: at most `limit` rows, starting after the first `skip`. */
  function Window<T>(xs: seq<T>, skip: nat, limit: nat): (r: seq<T>)
    ensures skip >= |xs| ==> r == []
    ensures skip < |xs| ==> |r| == if limit < |xs| - skip then limit else |xs| - skip
    ensures forall k | 0 <= k < |r| :: skip + k < |xs| && r[k] == xs[skip + k]
  {
    if skip >= |xs| then []
    else if limit < |xs| - skip then xs[skip..skip + limit]
    else xs[skip..]
  }

  /** Position of the first row with that id and owner, if any. */
  function TaskIndex(tasks: seq<TaskRow>, taskId: nat, owner: nat): (r: Option<nat>)
    ensures r.None? <==>
              forall k | 0 <= k < |tasks| :: !(tasks[k].id == taskId && tasks[k].ownerId == owner)
    ensures r.Some? ==>
              && r.value < |tasks| && tasks[r.value].id == taskId && tasks[r.value].ownerId == owner
              && forall m | 0 <= m < r.value :: !(tasks[m].id == taskId && tasks[m].ownerId == owner)
  {
    if tasks == [] then None
    else if tasks[0].id == taskId && tasks[0].ownerId == owner then Some(0)
    else
      var r := TaskIndex(tasks[1..], taskId, owner);
      assert forall k | 1 <= k < |tasks| :: tasks[k] == tasks[1..][k - 1];
      if r.None? then None else Some(r.value + 1)
  }

  /**
   * `get_task`: the task with that id when it belongs to `owner`; a task
   * of another owner is not found, like a missing one.
   */
  function FindTask(tasks: seq<TaskRow>, taskId: nat, owner: nat): (r: Option<TaskRow>)
    ensures r.Some? ==> r.value in tasks && r.value.id == taskId && r.value.ownerId == owner
    ensures r.None? <==>
              forall k | 0 <= k < |tasks| :: !(tasks[k].id == taskId && tasks[k].ownerId == owner)
  {
    match TaskIndex(tasks, taskId, owner)
    case None => None
    case Some(k) => Some(tasks[k])
  }

  /** One `setattr(db_task, key, value)`. */
  datatype Attr = TitleAttr(title: string) | DescriptionAttr(description: Option<string>)
                | CompletedAttr(completed: bool)

  /** `task_update.model_dump(exclude_unset=True)`: the fields given in the body, in declaration order. */
  function ModelDump(u: TaskUpdate): seq<Attr> {
    (if u.title.Set? then [TitleAttr(u.title.value)] else [])
    + (if u.description.Set? then [DescriptionAttr(u.description.value)] else [])
    + (if u.completed.Set? then [CompletedAttr(u.completed.value)] else [])
  }

  function SetAttr(row: TaskRow, a: Attr): TaskRow {
    match a
    case TitleAttr(t) => row.(title := t)
    case DescriptionAttr(d) => row.(description := d)
    case CompletedAttr(c) => row.(completed := c)
  }

  /** The row after the `setattr` calls for `items`, applied first to last. */
  function SetAll(row: TaskRow, items: seq<Attr>): TaskRow {
    if items == [] then row
    else SetAttr(SetAll(row, items[..|items| - 1]), items[|items| - 1])
  }

  /** The value of a field after a partial update: the given value, or the current one. */
  function FieldAfter<T>(p: Patch<T>, current: T): T {
    if p.Set? then p.value else current
  }

  /** Reference for a partial update: each given field overwritten, an explicit null included, every other field kept. */
  function Patched(row: TaskRow, u: TaskUpdate): TaskRow {
    TaskRow(row.id, row.ownerId, FieldAfter(u.title, row.title), FieldAfter(u.description, row.description),
            FieldAfter(u.completed, row.completed))
  }

  lemma SetAllSnoc(row: TaskRow, items: seq<Attr>, a: Attr)
    ensures SetAll(row, items + [a]) == SetAttr(SetAll(row, items), a)
  {
    assert (items + [a])[..|items|] == items;
  }

  /** Setting the dumped fields one by one gives the field-wise partial update. */
  lemma DumpThenSetIsPatched(row: TaskRow, u: TaskUpdate)
    ensures SetAll(row, ModelDump(u)) == Patched(row, u)
  {
    var t := if u.title.Set? then [TitleAttr(u.title.value)] else [];
    var d := if u.description.Set? then [DescriptionAttr(u.description.value)] else [];
    var c := if u.completed.Set? then [CompletedAttr(u.completed.value)] else [];
    assert ModelDump(u) == t + d + c;
    var r1 := row.(title := FieldAfter(u.title, row.title));
    if u.title.Set? {
      SetAllSnoc(row, [], TitleAttr(u.title.value));
      assert [] + [TitleAttr(u.title.value)] == t;
    }
    assert SetAll(row, t) == r1;
    var r2 := r1.(description := FieldAfter(u.description, row.description));
    if u.description.Set? {
      SetAllSnoc(row, t, DescriptionAttr(u.description.value));
    } else {
      assert t + d == t;
    }
    assert SetAll(row, t + d) == r2;
    if u.completed.Set? {
      SetAllSnoc(row, t + d, CompletedAttr(u.completed.value));
    } else {
      assert t + d + c == t + d;
    }
  }

  /**
   * The `setattr` loop of `update_task`: every field given in the update is
   * written, and the result is the field-wise partial update.
   */
  method ApplyUpdate(row: TaskRow, u: TaskUpdate) returns (r: TaskRow)
    ensures r == Patched(row, u)
  {
    var items := ModelDump(u);
    r := row;
    var i := 0;
    while i < |items|
      invariant 0 <= i <= |items|
      invariant r == SetAll(row, items[..i])
    {
      assert items[..i + 1][..i] == items[..i];
      r := SetAttr(r, items[i]);
      i := i + 1;
    }
    assert items[..|items|] == items;
    DumpThenSetIsPatched(row, u);
  }

  /** An update that gives no field changes nothing, and applying the same update twice is applying it once. */
  lemma PatchedUnsetAndIdempotent(row: TaskRow, u: TaskUpdate)
    ensures Patched(row, TaskUpdate(Unset, Unset, Unset)) == row
    ensures Patched(Patched(row, u), u) == Patched(row, u)
  {
  }

  /** The body the client sends to toggle a task: the negation of the flag it shows. */
  function ToggleBody(row: TaskRow): TaskUpdate {
    TaskUpdate(Unset, Unset, Set(!row.completed))
  }

  /** Two toggles, each sent from the row the previous one returned, give back the original row. */
  lemma ToggleTwiceRestores(row: TaskRow)
    ensures Patched(Patched(row, ToggleBody(row)), ToggleBody(Patched(row, ToggleBody(row)))) == row
  {
  }

  /** Ids strictly increase along the sequence, so they are distinct. */
  ghost predicate IncreasingUserIds(users: seq<User>) {
    forall i, j | 0 <= i < j < |users| :: users[i].id < users[j].id
  }

  ghost predicate IncreasingTaskIds(tasks: seq<TaskRow>) {
    forall i, j | 0 <= i < j < |tasks| :: tasks[i].id < tasks[j].id
  }

  /**
   * Removing row `k` from rows with increasing ids below `bound` keeps them
   * increasing and below `bound`, and leaves no row with the removed id.
   */
  lemma RemoveRowKeepsIds(before: seq<TaskRow>, k: nat, bound: nat)
    requires k < |before| && IncreasingTaskIds(before)
    requires forall m | 0 <= m < |before| :: 0 < before[m].id < bound
    ensures var after := before[..k] + before[k + 1..];
            && IncreasingTaskIds(after)
            && (forall m | 0 <= m < |after| :: 0 < after[m].id < bound && after[m].id != before[k].id)
  {
    var after := before[..k] + before[k + 1..];
    forall m | 0 <= m < |after| ensures after[m] == before[if m < k then m else m + 1] { }
    forall m | 0 <= m < |after| ensures 0 < after[m].id < bound && after[m].id != before[k].id {
      if m < k { assert before[m].id < before[k].id; } else { assert before[k].id < before[m + 1].id; }
    }
    forall i, j | 0 <= i < j < |after| ensures after[i].id < after[j].id {
      var i', j' := if i < k then i else i + 1, if j < k then j else j + 1;
      assert after[i] == before[i'] && after[j] == before[j'] && i' < j';
    }
  }

  class Database {
    /** bcrypt through passlib, `hash_password` and `verify_password`. */
    const hash: string -> string
    const verify: (string, string) -> bool
    /** pydantic's `EmailStr`: the normalised address, or `None` when invalid. */
    const validateEmail: string -> Option<string>
    /** `create_access_token` for a subject. */
    const issueToken: string -> string

    var users: seq<User>
    var tasks: seq<TaskRow>
    var nextUserId: nat
    var nextTaskId: nat

    ghost predicate Valid()
      reads this
    {
      && 0 < nextUserId && 0 < nextTaskId
      && (forall k | 0 <= k < |users| :: 0 < users[k].id < nextUserId)
      && (forall k | 0 <= k < |tasks| :: 0 < tasks[k].id < nextTaskId)
      && IncreasingUserIds(users) && IncreasingTaskIds(tasks)
    }

    constructor (hash: string -> string, verify: (string, string) -> bool,
                 validateEmail: string -> Option<string>, issueToken: string -> string)
      ensures Valid()
      ensures this.hash == hash && this.verify == verify
      ensures this.validateEmail == validateEmail && this.issueToken == issueToken
      ensures users == [] && tasks == []
    {
      this.hash, this.verify := hash, verify;
      this.validateEmail, this.issueToken := validateEmail, issueToken;
      users, tasks := [], [];
      nextUserId, nextTaskId := 1, 1;
    }

    /** `create_user`: one new user, storing the hash of the password and never the password. */
    method CreateUser(u: UserCreate) returns (user: User)
      requires Valid()
      modifies this`users, this`nextUserId
      ensures Valid()
      ensures user == User(old(nextUserId), u.email, hash(u.password))
      ensures users == old(users) + [user]
    {
      user := User(nextUserId, u.email, hash(u.password));
      users := users + [user];
      nextUserId := nextUserId + 1;
    }

    /** `create_task`: one new task of `userId`, not completed, appended to the store. */
    method CreateTask(t: TaskCreate, userId: nat) returns (row: TaskRow)
      requires Valid()
      modifies this`tasks, this`nextTaskId
      ensures Valid()
      ensures row == TaskRow(old(nextTaskId), userId, t.title, t.description, false)
      ensures tasks == old(tasks) + [row]
    {
      row := TaskRow(nextTaskId, userId, t.title, t.description, false);
      tasks := tasks + [row];
      nextTaskId := nextTaskId + 1;
    }

    /**
     * `update_task`: nothing when the task is not found for that owner;
     * otherwise that row becomes its partial update and is returned, and no
     * other row changes.
     */
    method UpdateTask(taskId: nat, userId: nat, u: TaskUpdate) returns (r: Option<TaskRow>)
      requires Valid()
      modifies this`tasks
      ensures Valid()
      ensures TaskIndex(old(tasks), taskId, userId).None? ==> r.None? && tasks == old(tasks)
      ensures TaskIndex(old(tasks), taskId, userId).Some? ==>
                var k := TaskIndex(old(tasks), taskId, userId).value;
                r == Some(Patched(old(tasks)[k], u)) && tasks == old(tasks)[k := r.value]
    {
      var found := TaskIndex(tasks, taskId, userId);
      if found.None? {
        return None;
      }
      var k := found.value;
      var row := ApplyUpdate(tasks[k], u);
      tasks := tasks[k := row];
      r := Some(row);
    }

    /**
     * `delete_task`: `false` and no change when the task is not found for
     * that owner; otherwise exactly that row is removed, after which no row
     * has its id.
     */
    method DeleteTask(taskId: nat, userId: nat) returns (deleted: bool)
      requires Valid()
      modifies this`tasks
      ensures Valid()
      ensures deleted <==> FindTask(old(tasks), taskId, userId).Some?
      ensures !deleted ==> tasks == old(tasks)
      ensures deleted ==>
                var k := TaskIndex(old(tasks), taskId, userId).value;
                && tasks == old(tasks)[..k] + old(tasks)[k + 1..]
                && forall m | 0 <= m < |tasks| :: tasks[m].id != taskId
    {
      var found := TaskIndex(tasks, taskId, userId);
      if found.None? {
        return false;
      }
      var k := found.value;
      RemoveRowKeepsIds(tasks, k, nextTaskId);
      tasks := tasks[..k] + tasks[k + 1..];
      deleted := true;
    }
  }
}
