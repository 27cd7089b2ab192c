/**
 * The task list screen: the list of tasks, the new-task inputs, a loading
 * flag, one error message and at most one task being edited. Every change
 * to the list is applied only once the server has answered, and is a whole
 * replacement, an append, or a removal by id.
 */
module TaskList {
  import opened Wrappers
  import opened Http
  import opened Text

  const TitleRequired := "Task title is required"
  const FailedToLoad := "Failed to load tasks"
  const FailedToAdd := "Failed to add task"
  const FailedToUpdate := "Failed to update task"
  const FailedToDelete := "Failed to delete task"

  /** A task as the server sends it; `description` may be null. */
  datatype Task = Task(id: int, title: string, description: Option<string>, completed: bool,
                       createdAt: string)

  /** The requests the screen sends. */
  datatype Request =
    | GetTasks
    | PostTask(title: string, description: Option<string>)
    | PutCompleted(taskId: int, completed: bool)
    | PutFields(taskId: int, title: string, description: Option<string>)
    | DeleteTask(taskId: int)
    | PostLogout

  /** `tasks.map(t => t.id === id ? t' : t)`: every entry with that id becomes `t'`. */
  function ReplaceById(tasks: seq<Task>, id: int, t': Task): (r: seq<Task>)
    ensures |r| == |tasks|
    ensures forall k | 0 <= k < |tasks| :: r[k] == if tasks[k].id == id then t' else tasks[k]
  {
    if tasks == [] then []
    else [if tasks[0].id == id then t' else tasks[0]] + ReplaceById(tasks[1..], id, t')
  }

  /** `tasks.filter(t => t.id !== id)`. */
  function RemoveById(tasks: seq<Task>, id: int): (r: seq<Task>)
    ensures |r| <= |tasks|
  {
    if tasks == [] then []
    else if tasks[0].id == id then RemoveById(tasks[1..], id)
    else [tasks[0]] + RemoveById(tasks[1..], id)
  }

  /** The filter keeps exactly the entries whose id differs. */
  lemma {:induction false} RemoveByIdMembers(tasks: seq<Task>, id: int)
    ensures forall t :: t in RemoveById(tasks, id) <==> t in tasks && t.id != id
  {
    if tasks != [] {
      RemoveByIdMembers(tasks[1..], id);
      assert tasks == [tasks[0]] + tasks[1..];
    }
  }

  /** Removing by id keeps the order of what remains: it distributes over concatenation. */
  lemma {:induction false} RemoveByIdConcat(a: seq<Task>, b: seq<Task>, id: int)
    ensures RemoveById(a + b, id) == RemoveById(a, id) + RemoveById(b, id)
  {
    if a == [] {
      assert a + b == b;
    } else {
      assert (a + b)[1..] == a[1..] + b;
      RemoveByIdConcat(a[1..], b, id);
    }
  }

  /** A list without that id is left as it is. */
  lemma {:induction false} RemoveAbsentId(tasks: seq<Task>, id: int)
    requires forall k | 0 <= k < |tasks| :: tasks[k].id != id
    ensures RemoveById(tasks, id) == tasks
  {
    if tasks != [] {
      RemoveAbsentId(tasks[1..], id);
    }
  }

  predicate DistinctIds(tasks: seq<Task>) {
    forall i, j | 0 <= i < j < |tasks| :: tasks[i].id != tasks[j].id
  }

  /** Removing an id that only the middle entry has leaves the entries around it. */
  lemma RemoveMiddle(before: seq<Task>, x: Task, after: seq<Task>)
    requires forall j | 0 <= j < |before| :: before[j].id != x.id
    requires forall j | 0 <= j < |after| :: after[j].id != x.id
    ensures RemoveById(before + ([x] + after), x.id) == before + after
  {
    RemoveByIdConcat(before, [x] + after, x.id);
    assert ([x] + after)[1..] == after;
    RemoveAbsentId(before, x.id);
    RemoveAbsentId(after, x.id);
  }

  /** A list is the entries before `k`, entry `k`, and the entries after it. */
  lemma SplitAround<T>(xs: seq<T>, k: nat)
    requires k < |xs|
    ensures xs == xs[..k] + ([xs[k]] + xs[k + 1..])
  {
    assert xs[k..] == [xs[k]] + xs[k + 1..];
    assert xs == xs[..k] + xs[k..];
  }

  /** When no other entry has the id of entry `k`, removing that id removes exactly entry `k`. */
  lemma RemoveOnlyEntryWithId(tasks: seq<Task>, k: nat)
    requires k < |tasks|
    requires forall j | 0 <= j < |tasks| && j != k :: tasks[j].id != tasks[k].id
    ensures RemoveById(tasks, tasks[k].id) == tasks[..k] + tasks[k + 1..]
  {
    var before, after := tasks[..k], tasks[k + 1..];
    forall j | 0 <= j < |before| ensures before[j].id != tasks[k].id {
      assert before[j] == tasks[j];
    }
    forall j | 0 <= j < |after| ensures after[j].id != tasks[k].id {
      assert after[j] == tasks[k + 1 + j];
    }
    SplitAround(tasks, k);
    RemoveMiddle(before, tasks[k], after);
  }

  /** With distinct ids, removing the id of entry `k` removes exactly that entry. */
  lemma RemoveUniqueId(tasks: seq<Task>, k: nat)
    requires DistinctIds(tasks) && k < |tasks|
    ensures RemoveById(tasks, tasks[k].id) == tasks[..k] + tasks[k + 1..]
  {
    forall j | 0 <= j < |tasks| && j != k ensures tasks[j].id != tasks[k].id {
      if j < k { assert tasks[j].id != tasks[k].id; } else { assert tasks[k].id != tasks[j].id; }
    }
    RemoveOnlyEntryWithId(tasks, k);
  }

  /** `tasks.filter(t => !t.completed).length`: how many tasks are pending. */
  function PendingCount(tasks: seq<Task>): (n: nat)
    ensures n <= |tasks|
    ensures n == 0 <==> forall k | 0 <= k < |tasks| :: tasks[k].completed
    ensures n == |tasks| <==> forall k | 0 <= k < |tasks| :: !tasks[k].completed
  {
    if tasks == [] then 0
    else
      var rest := PendingCount(tasks[1..]);
      assert forall k | 1 <= k < |tasks| :: tasks[k] == tasks[1..][k - 1];
      (if tasks[0].completed then 0 else 1) + rest
  }

  /** 1 for a pending task, 0 for a completed one. */
  function PendingWeight(t: Task): nat {
    if t.completed then 0 else 1
  }

  /**
   * With distinct ids, replacing entry `k` by `t'` changes the pending count
   * by exactly what `t'` and the old entry contribute.
   */
  lemma {:induction false} PendingAfterReplace(tasks: seq<Task>, k: nat, t': Task)
    requires DistinctIds(tasks) && k < |tasks|
    ensures PendingCount(ReplaceById(tasks, tasks[k].id, t')) + PendingWeight(tasks[k])
            == PendingCount(tasks) + PendingWeight(t')
  {
    var id := tasks[k].id;
    var r := ReplaceById(tasks, id, t');
    assert r[1..] == ReplaceById(tasks[1..], id, t');
    if k == 0 {
      assert forall j | 0 <= j < |tasks| - 1 :: tasks[1..][j].id != id;
      ReplaceAbsentId(tasks[1..], id, t');
    } else {
      assert tasks[0].id != id;
      PendingAfterReplace(tasks[1..], k - 1, t');
    }
  }

  lemma {:induction false} ReplaceAbsentId(tasks: seq<Task>, id: int, t': Task)
    requires forall k | 0 <= k < |tasks| :: tasks[k].id != id
    ensures ReplaceById(tasks, id, t') == tasks
  {
    if tasks != [] {
      ReplaceAbsentId(tasks[1..], id, t');
    }
  }

  /** The header's noun: "task" for exactly one, "tasks" otherwise. */
  function TaskNoun(total: nat): (noun: string)
    ensures noun == "task" <==> total == 1
    ensures noun == "tasks" <==> total != 1
  {
    if total == 1 then "task" else "tasks"
  }

  /** `editingTask && editingTask.id === task.id`: whether `t` is shown in edit mode. */
  predicate IsEditing(editing: Option<Task>, t: Task) {
    editing.Some? && editing.value.id == t.id
  }

  /** With distinct ids, at most one entry of the list is shown in edit mode. */
  lemma AtMostOneEditing(tasks: seq<Task>, editing: Option<Task>, i: nat, j: nat)
    requires DistinctIds(tasks) && i < |tasks| && j < |tasks|
    requires IsEditing(editing, tasks[i]) && IsEditing(editing, tasks[j])
    ensures i == j
  {
  }

  class TaskStore {
    var tasks: seq<Task>
    var newTitle: string
    var newDescription: string
    var loading: bool
    var error: string
    /** A copy of the task being edited, holding the draft title and description. */
    var editing: Option<Task>
    /** How many times `onLogout` has been called. */
    var onLogoutCalls: nat

    constructor ()
      ensures tasks == [] && newTitle == [] && newDescription == []
      ensures !loading && error == [] && editing.None? && onLogoutCalls == 0
    {
      tasks, newTitle, newDescription := [], [], [];
      loading, error, editing, onLogoutCalls := false, [], None, 0;
    }

    /** Number of tasks and number of pending tasks, as the header shows them. */
    function Counts(): (counts: (nat, nat))
      reads this
      ensures counts.0 == |tasks| && counts.1 == PendingCount(tasks) && counts.1 <= counts.0
    {
      (|tasks|, PendingCount(tasks))
    }

    method SetNewTitle(value: string)
      modifies this`newTitle
      ensures newTitle == value
    {
      newTitle := value;
    }

    method SetNewDescription(value: string)
      modifies this`newDescription
      ensures newDescription == value
    {
      newDescription := value;
    }

    /**
     * `loadTasks`: GET /tasks. Success replaces the list wholesale; a 401
     * calls `onLogout` and shows no message; any other failure shows one
     * message and keeps the previous list. `loading` ends false.
     */
    method LoadTasks(reply: Reply<seq<Task>>) returns (request: Request)
      modifies this`tasks, this`loading, this`error, this`onLogoutCalls
      ensures request == GetTasks && !loading
      ensures reply.Ok? ==>
                tasks == reply.data && error == [] && onLogoutCalls == old(onLogoutCalls)
      ensures reply.Err? && reply.failure.HttpStatus? && reply.failure.status == Unauthorized ==>
                tasks == old(tasks) && error == [] && onLogoutCalls == old(onLogoutCalls) + 1
      ensures reply.Err? && !(reply.failure.HttpStatus? && reply.failure.status == Unauthorized) ==>
                tasks == old(tasks) && error == FailedToLoad && onLogoutCalls == old(onLogoutCalls)
    {
      loading := true;
      error := [];
      request := GetTasks;
      match reply {
        case Ok(list) =>
          tasks := list;
        case Err(f) =>
          if f.HttpStatus? && f.status == Unauthorized {
            onLogoutCalls := onLogoutCalls + 1;
          } else {
            error := FailedToLoad;
          }
      }
      loading := false;
    }

    /**
     * `handleAddTask`. A title that trims to nothing sets one message and
     * sends nothing. Otherwise the untrimmed title and the description (null
     * when empty) are posted; success appends exactly the server's task and
     * clears both inputs, failure keeps list and inputs and sets one message.
     */
    method HandleAddTask(reply: Reply<Task>) returns (request: Option<Request>)
      modifies this`tasks, this`newTitle, this`newDescription, this`error
      ensures AllWhitespace(old(newTitle)) ==>
                && request.None? && error == TitleRequired && tasks == old(tasks)
                && newTitle == old(newTitle) && newDescription == old(newDescription)
      ensures !AllWhitespace(old(newTitle)) ==>
                request == Some(PostTask(old(newTitle),
                                         if old(newDescription) == [] then None
                                         else Some(old(newDescription))))
      ensures !AllWhitespace(old(newTitle)) && reply.Ok? ==>
                && tasks == old(tasks) + [reply.data] && error == []
                && newTitle == [] && newDescription == []
      ensures !AllWhitespace(old(newTitle)) && reply.Err? ==>
                && tasks == old(tasks) && error == FailedToAdd
                && newTitle == old(newTitle) && newDescription == old(newDescription)
    {
      TrimEmptyIffAllWhitespace(newTitle);
      if Trim(newTitle) == [] {
        error := TitleRequired;
        return None;
      }
      error := [];
      request := Some(PostTask(newTitle, if newDescription == [] then None else Some(newDescription)));
      match reply {
        case Ok(created) =>
          tasks := tasks + [created];
          newTitle := [];
          newDescription := [];
        case Err(_) =>
          error := FailedToAdd;
      }
    }

    /**
     * `handleToggleComplete`: sends the negated flag of the task as it was
     * shown. Success replaces the entries with that id by the server's task;
     * failure keeps the list and sets one message.
     */
    method HandleToggleComplete(task: Task, reply: Reply<Task>) returns (request: Request)
      modifies this`tasks, this`error
      ensures request == PutCompleted(task.id, !task.completed)
      ensures reply.Ok? ==>
                tasks == ReplaceById(old(tasks), task.id, reply.data) && error == old(error)
      ensures reply.Err? ==> tasks == old(tasks) && error == FailedToUpdate
    {
      request := PutCompleted(task.id, !task.completed);
      match reply {
        case Ok(updated) => tasks := ReplaceById(tasks, task.id, updated);
        case Err(_) => error := FailedToUpdate;
      }
    }

    /**
     * `handleDeleteTask`. A declined confirmation sends nothing and changes
     * nothing. A confirmed success removes the entries with that id; a
     * failure keeps the list and sets one message. The edit is never touched.
     */
    method HandleDeleteTask(taskId: int, confirmed: bool, reply: Reply<()>) returns (request: Option<Request>)
      modifies this`tasks, this`error
      ensures !confirmed ==> request.None? && tasks == old(tasks) && error == old(error)
      ensures confirmed ==> request == Some(DeleteTask(taskId))
      ensures confirmed && reply.Ok? ==>
                tasks == RemoveById(old(tasks), taskId) && error == old(error)
      ensures confirmed && reply.Err? ==> tasks == old(tasks) && error == FailedToDelete
    {
      if !confirmed {
        return None;
      }
      request := Some(DeleteTask(taskId));
      match reply {
        case Ok(_) => tasks := RemoveById(tasks, taskId);
        case Err(_) => error := FailedToDelete;
      }
    }

    /** `handleStartEdit`: the edit holds a copy of the task, replacing any earlier edit. */
    method HandleStartEdit(task: Task)
      modifies this`editing
      ensures editing == Some(task)
    {
      editing := Some(task);
    }

    /** `handleCancelEdit`: the draft is dropped; nothing is sent and the list is untouched. */
    method HandleCancelEdit()
      modifies this`editing
      ensures editing.None?
    {
      editing := None;
    }

    /** Typing into the edit's title input replaces only the draft's title. */
    method EditDraftTitle(value: string)
      requires editing.Some?
      modifies this`editing
      ensures editing == Some(old(editing).value.(title := value))
    {
      editing := Some(editing.value.(title := value));
    }

    /** Typing into the edit's description area replaces only the draft's description. */
    method EditDraftDescription(value: string)
      requires editing.Some?
      modifies this`editing
      ensures editing == Some(old(editing).value.(description := Some(value)))
    {
      editing := Some(editing.value.(description := Some(value)));
    }

    /**
     * `handleSaveEdit`: sends the draft's title and description for its id.
     * Success replaces the entries with that id by the server's task and
     * ends the edit; failure keeps the list and the edit and sets one
     * message. Without an edit, reading its id fails inside the `try`, so
     * nothing is sent and the same message is set.
     */
    method HandleSaveEdit(reply: Reply<Task>) returns (request: Option<Request>)
      modifies this`tasks, this`editing, this`error
      ensures old(editing).None? ==>
                request.None? && tasks == old(tasks) && editing.None? && error == FailedToUpdate
      ensures old(editing).Some? ==>
                var draft := old(editing).value;
                request == Some(PutFields(draft.id, draft.title, draft.description))
      ensures old(editing).Some? && reply.Ok? ==>
                && tasks == ReplaceById(old(tasks), old(editing).value.id, reply.data)
                && editing.None? && error == old(error)
      ensures old(editing).Some? && reply.Err? ==>
                tasks == old(tasks) && editing == old(editing) && error == FailedToUpdate
    {
      if editing.None? {
        error := FailedToUpdate;
        return None;
      }
      var draft := editing.value;
      request := Some(PutFields(draft.id, draft.title, draft.description));
      match reply {
        case Ok(updated) =>
          tasks := ReplaceById(tasks, draft.id, updated);
          editing := None;
        case Err(_) =>
          error := FailedToUpdate;
      }
    }

    /**
     * `handleLogout`: POST /logout, then `onLogout` whatever the outcome
     * (a failure is only logged to the console).
     */
    method HandleLogout() returns (request: Request)
      modifies this`onLogoutCalls
      ensures request == PostLogout && onLogoutCalls == old(onLogoutCalls) + 1
    {
      request := PostLogout;
      onLogoutCalls := onLogoutCalls + 1;
    }
  }
}
