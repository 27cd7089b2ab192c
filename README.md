# To-do app: client state and server store, modelled in Dafny

This project models the core of a small to-do application. It has two sides.

- The browser client (React).
  - The task list screen holds the tasks, the new-task inputs, a loading flag, one error message and at most one task being edited.
  - The login and registration forms validate locally, send one request and turn its failure into exactly one message.
  - The application shell picks the screen from a logged-in flag, a show-register flag and a loading gate. An older variant of the shell is modelled too.
- The server (FastAPI with SQLAlchemy).
  - A store of users and tasks with owner-scoped lookup, partial update, delete and credential checks.
  - Endpoints that map "not found" to 404, a taken e-mail to 400, bad credentials to 401 (with a `Bearer` challenge, section 3 of RFC 6750), a bad body to 422 and a creation to 201 (section 15 of RFC 9110).
  - The request schemas, as parsers that accept or refuse a body.

Client state that the source changes in place is a class, one per component: `TaskStore`, `LoginForm`, `RegisterForm`, `AppShell`, `LegacyShell`. Each class has a method per handler. The server store is the class `Database`. The endpoints take it as a parameter, just as the route functions take the database session. List rewrites, validation, failure classification, lookups and schemas are pure functions.

Each handler is one atomic request/response step. It takes the server's reply as a parameter (`Ok(data)`, or a failure with a status, without a response, or never sent) and returns the request it sends (or `None` when it sends nothing). Callbacks such as `onLogin`, `onLogout` and `onRegisterSuccess` are counters. The browser's `localStorage` is a shared `TokenStorage` object holding the optional value of the key "token". A confirmation dialog is a boolean argument. The register form's redirect timer is a count of started timers and a method for one firing; its 2000 ms delay is not represented.

Bcrypt hashing and its check, pydantic's `EmailStr` and JWT signing are outside code. They are functions given to the `Database` constructor.

The code behaves as follows, and the model keeps it:

- Only loading the list reacts to a 401 by logging out. A 401 on create, toggle, delete or save shows the same message as any other failure.
- Nothing stops a second login or registration submission while one is in flight. The inputs are disabled, but no guard is modelled beyond that.
- Deleting a task does not end an edit of that task.
- Each reply rewrites the list captured when the handler started. No "last response wins" ordering is claimed.

## Model

| member | source | states |
|---|---|---|
| `Text.Trim` | frontend/src/components/Tasks.jsx:40 | the result is a slice of the input; only white space is cut from its two ends; a non-empty result neither starts nor ends with white space |
| `Text.TrimEmptyIffAllWhitespace` | frontend/src/components/Tasks.jsx:40 | a title trims to nothing exactly when every character is white space |
| `AuthCommon.EmailPatternCharacterized` | frontend/src/components/Login.jsx:26 | the regex `^[^\s@]+@[^\s@]+\.[^\s@]+$` accepts exactly the strings that have no white space and exactly one `@` with a non-empty part before it, where the part after the `@` holds a `.` that is neither its first nor its last character |
| `AuthCommon.PlainAddressAccepted` | frontend/src/components/Login.test.js:143 | `test@example.com` matches the e-mail pattern |
| `AuthCommon.DottedLocalPartAccepted` | frontend/src/components/Login.test.js:144 | `user.name@example.com` matches the e-mail pattern |
| `AuthCommon.TaggedAddressAccepted` | frontend/src/components/Login.test.js:145 | `user+tag@example.co.uk` matches the e-mail pattern |
| `AuthCommon.HyphenatedDomainAccepted` | frontend/src/components/Login.test.js:146 | `user123@test-domain.com` matches the e-mail pattern |
| `AuthCommon.AddressWithoutAtRefused` | frontend/src/components/Login.test.js:116-139 | `invalid-email` does not match the e-mail pattern |
| `AuthCommon.FirstFailing` | frontend/src/components/Login.jsx:21-29 | reference for an ordered validation: `None` iff every check passes; otherwise the message of a failing check that every earlier check passed |
| `Login.ValidateLogin` | frontend/src/components/Login.jsx:21-29 | the login checks are the pipeline "both fields non-empty" then "e-mail pattern", stopping at the first failure |
| `Login.ClassifyLoginFailure` | frontend/src/components/Login.jsx:41-54 | each failure shape gets exactly one message, and each message belongs to one shape: 401 → incorrect credentials, 422 → invalid input, any other status → server error, no response → cannot connect, never sent → unexpected |
| `Login.LoginOutcome` | frontend/src/components/Login.jsx:35-54 | a reply signs in iff it is a success whose `access_token` is a non-empty string, with that token; any other success is "Invalid response from server"; a failure is rejected with its classified message; every rejection has a non-empty message |
| `Login.LoginForm.constructor` | frontend/src/components/Login.jsx:11-14 | the form starts with empty fields, no message, not loading |
| `Login.LoginForm.SetEmail` | frontend/src/components/Login.jsx:74-76 | typing replaces only the e-mail, and is possible only while not loading |
| `Login.LoginForm.SetPassword` | frontend/src/components/Login.jsx:84-86 | typing replaces only the password, and is possible only while not loading |
| `Login.LoginForm.Submit` | frontend/src/components/Login.jsx:16-33 | the message is cleared first; a failed check sends nothing, sets its message and leaves `loading` as it was; otherwise the credentials are sent and `loading` is true |
| `Login.LoginForm.Settle` | frontend/src/components/Login.jsx:33-57 | after settlement `loading` is false; on sign-in the token is stored under "token" and `onLogin` is called once; on rejection only the message changes (no token, no `onLogin`) |
| `Login.LoginForm.HandleSubmit` | frontend/src/components/Login.jsx:16-58 | a whole submission ends in exactly one of two states: signed in with no message, or one message with no token stored and no `onLogin` call; a local failure sends nothing |
| `Register.ValidateRegistration` | frontend/src/components/Register.jsx:23-41 | the register checks are the pipeline "all fields" → "e-mail pattern" → "password ≥ 6" → "confirmation equal", stopping at the first failure |
| `Register.ShortPasswordReportedBeforeMismatch` | frontend/src/components/Register.jsx:33-41 | a short password that also differs from its confirmation reports the length error |
| `Register.ClassifyRegisterFailure` | frontend/src/components/Register.jsx:56-69 | a 400 shows the server's non-empty `detail`, else "Email already registered"; 422, other statuses, no response and never sent map as on the login form; the message is never empty |
| `Register.FailureMessagesAgreeWithLogin` | frontend/src/components/Register.jsx:57-69 | apart from statuses 400 and 401, both forms show the same message for the same failure |
| `Register.RegisterForm.constructor` | frontend/src/components/Register.jsx:10-15 | the form starts empty, with no message, no success and no timer |
| `Register.RegisterForm.SetEmail` | frontend/src/components/Register.jsx:90-92 | typing is possible only while the inputs are enabled (not loading, no success) |
| `Register.RegisterForm.SetPassword` | frontend/src/components/Register.jsx:101-103 | as for the e-mail input |
| `Register.RegisterForm.SetConfirmPassword` | frontend/src/components/Register.jsx:112-114 | as for the e-mail input |
| `Register.RegisterForm.Submit` | frontend/src/components/Register.jsx:17-45 | both the message and the success flag are cleared first; a failed check sends nothing and sets its message; otherwise e-mail and password are sent and `loading` is true |
| `Register.RegisterForm.Settle` | frontend/src/components/Register.jsx:45-72 | success sets `success`, clears the message and all three inputs, and starts exactly one redirect timer; failure sets the classified message and keeps the inputs; `loading` ends false |
| `Register.RegisterForm.HandleSubmit` | frontend/src/components/Register.jsx:17-73 | a whole submission ends in exactly one of: success (no message, inputs cleared, one timer started) or one message; a local failure sends nothing |
| `Register.RegisterForm.RedirectTimerFires` | frontend/src/components/Register.jsx:53-55 | each started timer calls `onRegisterSuccess` once |
| `Session.TokenStorage.SetItem` | frontend/src/components/Login.jsx:36 | the token is stored under "token" |
| `Session.TokenStorage.RemoveItem` | frontend/src/App.jsx:25 | the "token" key is removed |
| `TaskList.ReplaceById` | frontend/src/components/Tasks.jsx:64 | same length; each entry with the id becomes the server's task, every other entry is unchanged and stays in place |
| `TaskList.RemoveById` | frontend/src/components/Tasks.jsx:77 | the result is no longer than the input |
| `TaskList.RemoveByIdMembers` | frontend/src/components/Tasks.jsx:77 | the result holds exactly the entries whose id differs |
| `TaskList.RemoveByIdConcat` | frontend/src/components/Tasks.jsx:77 | removal distributes over concatenation, so the remaining entries keep their order |
| `TaskList.RemoveAbsentId` | frontend/src/components/Tasks.jsx:77 | removing an id that no entry has leaves the list as it is |
| `TaskList.RemoveUniqueId` | frontend/src/components/Tasks.jsx:77 | with distinct ids, removing the id of entry k removes exactly entry k |
| `TaskList.PendingCount` | frontend/src/components/Tasks.jsx:119 | the pending count is at most the total; it is 0 iff all tasks are completed, and equals the total iff none is |
| `TaskList.PendingAfterReplace` | frontend/src/components/Tasks.jsx:59-68 | with distinct ids, a replace by id changes the pending count by exactly the difference between the new and the old entry |
| `TaskList.TaskNoun` | frontend/src/components/tasks/TasksHeader.jsx:10 | "task" exactly for a total of one, "tasks" otherwise |
| `TaskList.AtMostOneEditing` | frontend/src/components/Tasks.jsx:149 | with distinct ids, at most one entry is shown in edit mode |
| `TaskList.TaskStore.constructor` | frontend/src/components/Tasks.jsx:9-14 | the screen starts with no tasks, empty inputs, no message and no edit |
| `TaskList.TaskStore.Counts` | frontend/src/components/Tasks.jsx:118-119 | the total is the list length; the pending count is `PendingCount` of the list (the number of tasks not completed), at most the total |
| `TaskList.TaskStore.SetNewTitle` | frontend/src/components/Tasks.jsx:126 | typing replaces only the new-task title |
| `TaskList.TaskStore.SetNewDescription` | frontend/src/components/Tasks.jsx:127 | typing replaces only the new-task description |
| `TaskList.TaskStore.LoadTasks` | frontend/src/components/Tasks.jsx:16-31 | success replaces the list wholesale; a 401 calls `onLogout` and leaves no message; any other failure sets "Failed to load tasks" and keeps the list; `loading` is false after every outcome |
| `TaskList.TaskStore.HandleAddTask` | frontend/src/components/Tasks.jsx:38-57 | a title that trims to nothing gives "Task title is required" and sends nothing; otherwise the untrimmed title is sent, with an empty description as null; success appends exactly the server's task and clears both inputs; failure keeps list and inputs and sets "Failed to add task" |
| `TaskList.TaskStore.HandleToggleComplete` | frontend/src/components/Tasks.jsx:59-68 | sends the negated flag; success replaces only the entries with that id; failure keeps the list and sets "Failed to update task" |
| `TaskList.TaskStore.HandleDeleteTask` | frontend/src/components/Tasks.jsx:70-81 | a declined confirmation sends nothing and changes nothing; success removes exactly the entries with that id; failure keeps the list and sets "Failed to delete task"; the edit is never touched |
| `TaskList.TaskStore.HandleStartEdit` | frontend/src/components/Tasks.jsx:83-85 | the edit becomes a copy of the task, replacing any earlier edit |
| `TaskList.TaskStore.HandleCancelEdit` | frontend/src/components/Tasks.jsx:87-89 | the edit is cleared; nothing is sent and the list is untouched |
| `TaskList.TaskStore.EditDraftTitle` | frontend/src/components/tasks/TaskItem.jsx:23 | only the draft's title changes |
| `TaskList.TaskStore.EditDraftDescription` | frontend/src/components/tasks/TaskItem.jsx:28 | only the draft's description changes |
| `TaskList.TaskStore.HandleSaveEdit` | frontend/src/components/Tasks.jsx:91-102 | sends the draft's title and description for its id; success replaces the entries with that id and ends the edit; failure keeps the edit and sets "Failed to update task"; with no edit, nothing is sent and the same message is set |
| `TaskList.TaskStore.HandleLogout` | frontend/src/components/Tasks.jsx:104-112 | `onLogout` is called exactly once, whatever the logout request does |
| `App.SelectScreen` | frontend/src/App.jsx:37-53 | loading → loading screen; otherwise logged out → register if chosen, else login; logged in → tasks (each screen iff its condition) |
| `App.AppShell.constructor` | frontend/src/App.jsx:7-9 | the first render is the loading screen |
| `App.AppShell.Init` | frontend/src/App.jsx:11-17 | logged in iff a non-empty token is stored (or already logged in); the loading gate is cleared |
| `App.AppShell.HandleLogin` | frontend/src/App.jsx:19-22 | logged in, and the register form is no longer chosen |
| `App.AppShell.HandleLogout` | frontend/src/App.jsx:24-27 | the token is removed and the user is logged out; the form choice is unchanged |
| `App.AppShell.SwitchToRegister` | frontend/src/App.jsx:29-31 | the register form is chosen |
| `App.AppShell.SwitchToLogin` | frontend/src/App.jsx:33-35 | the login form is chosen (also the effect of a register success, line 47) |
| `LegacyApp.SelectScreen` | frontend/src/App.js:30-48 | never a loading screen; authenticated → tasks, whatever the form choice; otherwise register or login |
| `LegacyApp.SameScreenOnceLoaded` | frontend/src/App.js:30-48 | once the newer shell's gate is cleared, both shells show the same screen for the same flags |
| `LegacyApp.LegacyShell.constructor` | frontend/src/App.js:7-8 | the first render is the login form even when a token is stored: there is no loading gate |
| `LegacyApp.LegacyShell.Init` | frontend/src/App.js:10-15 | authenticated iff a non-empty token is stored (or already authenticated) |
| `LegacyApp.LegacyShell.HandleLogin` | frontend/src/App.js:17-19 | authenticated; the form choice is left as it was |
| `LegacyApp.LegacyShell.HandleLogout` | frontend/src/App.js:21-24 | the token is removed and the user is no longer authenticated |
| `LegacyApp.LegacyShell.HandleRegisterSuccess` | frontend/src/App.js:26-28 | the register form is no longer chosen |
| `LegacyApp.LegacyShell.SwitchToRegister` | frontend/src/App.js:46 | the register form is chosen |
| `Schemas.ParseUserCreate` | backend/app/schemas.py:5-7 | accepted iff both fields are present, the e-mail validates and the password has at least 6 characters; the model holds the normalised e-mail |
| `Schemas.ParseUserLogin` | backend/app/schemas.py:9-11 | accepted iff both fields are present and the e-mail validates; no password constraint |
| `Schemas.ShortPasswordOnlyMattersForRegistration` | backend/app/schemas.py:7-11 | a password too short to register with is still accepted by the login schema |
| `Schemas.ParseTaskCreate` | backend/app/schemas.py:28-30 | accepted iff a title of 1..200 characters is present and a given description has at most 1000; an absent description is None |
| `Schemas.ParseTaskUpdate` | backend/app/schemas.py:32-35 | every field optional; accepted iff a given title has 1..200 characters and a given description at most 1000 |
| `Crud.FindUserByEmail` | backend/app/crud.py:14-15 | None iff no user has the e-mail; otherwise the first user with it |
| `Crud.FindUserAfterAppend` | backend/app/crud.py:14-15 | a user added at the end is found by its e-mail exactly when no earlier user has it |
| `Crud.Authenticate` | backend/app/crud.py:20-26 | None iff no user has the e-mail or the password does not verify against the stored hash; otherwise exactly the stored user that the e-mail lookup found, whose hash verifies |
| `Crud.SignUpThenSignIn` | backend/app/crud.py:6-26 | a user stored with `hash(password)` under a new e-mail authenticates with that password, given `verify(p, hash(p))` |
| `Crud.OwnedBy` | backend/app/crud.py:35-36 | every row of the result has that owner, and a row is in it iff it is a row of the store with that owner |
| `Crud.OwnedByConcat` | backend/app/crud.py:36 | the owner filter distributes over concatenation, so each row is kept at most once and the kept rows stay in store order |
| `Crud.Window` | backend/app/crud.py:36 | `offset(skip).limit(limit)`: at most `limit` elements, the i-th being element `skip + i` |
| `Crud.TaskIndex` | backend/app/crud.py:38-39 | the position of the first row with that id and owner, or None iff there is none |
| `Crud.FindTask` | backend/app/crud.py:38-39 | a row of the store with that id and owner; None iff no row has both, so another owner's task counts as missing |
| `Crud.DumpThenSetIsPatched` | backend/app/crud.py:45-47 | setting the explicitly given fields one by one yields the field-wise partial update |
| `Crud.ApplyUpdate` | backend/app/crud.py:45-47 | the `setattr` loop overwrites exactly the given fields (an explicit null included) and keeps the others |
| `Crud.PatchedUnsetAndIdempotent` | backend/app/crud.py:41-50 | an empty update changes nothing; the same update twice equals it once |
| `Crud.ToggleTwiceRestores` | backend/app/crud.py:45-47 | two toggles, each negating the flag the previous one returned, restore the row |
| `Crud.Database.constructor` | backend/app/auth.py:6-15 | an empty store whose hashing, checking, e-mail validation and token signing are the given functions |
| `Crud.Database.CreateUser` | backend/app/crud.py:6-12 | appends exactly one user with a fresh id, storing `hash(password)` and not the password |
| `Crud.Database.CreateTask` | backend/app/crud.py:28-33 | appends exactly one task of that owner with a fresh id, the given title and description, not completed |
| `Crud.Database.UpdateTask` | backend/app/crud.py:41-50 | None and no change when not found for that owner; otherwise that row alone becomes its partial update, which is returned |
| `Crud.Database.DeleteTask` | backend/app/crud.py:52-58 | false and no change when not found for that owner; otherwise exactly that row is removed and no row keeps its id |
| `Routes.DecimalString` | backend/app/routes/auth.py:24 | `str(id)`: non-empty and made of decimal digits |
| `Routes.DecimalStringInjective` | backend/app/routes/auth.py:24 | distinct user ids give distinct token subjects |
| `Routes.PostRegister` | backend/app/routes/auth.py:11-17 | 422 and no change for a bad body; 400 "Email already registered" and no user created for a taken e-mail; otherwise exactly one user created and returned with 201 |
| `Routes.PostLogin` | backend/app/routes/auth.py:19-25 | 422 for a bad body; 401 "Incorrect email or password" with a `Bearer` challenge when authentication fails; otherwise 200 with a bearer token for subject `str(user.id)` |
| `Routes.PostLogout` | backend/app/routes/auth.py:27-29 | 200 "Successfully logged out" |
| `Routes.PostTask` | backend/app/routes/tasks.py:10-12 | 422 and no change for a bad body; otherwise 201 with the new task of the current user, appended to the store |
| `Routes.GetTasks` | backend/app/routes/tasks.py:14-16 | 200 with exactly the `offset(skip).limit(limit)` window (defaults 0 and 100) of the current user's tasks in store order: at most `limit` of them, each the current user's; all of them when nothing is skipped and they fit |
| `Routes.GetTask` | backend/app/routes/tasks.py:18-23 | 200 with the task iff it exists and is the current user's; 404 "Task not found" otherwise |
| `Routes.PutTask` | backend/app/routes/tasks.py:25-30 | 422 for a bad body; 404 and no change when not found; otherwise 200 with the partial update, which replaces that row in place while every other row stays as it was, and which a later GET returns |
| `Routes.DeleteTask` | backend/app/routes/tasks.py:32-37 | 404 and no change when not found; otherwise "Task deleted successfully", exactly that row removed with the others unchanged and in order, no task with that id (so a reload never lists it), and a later GET answers 404 |

## Left out

- The request transport (`../api`) is not part of this model. Every reply is a parameter of the handler that receives it.
- Interleaving of in-flight requests is not modelled. Each handler is one atomic step, so a reply that overwrites another handler's change is not modelled.
- Time is not modelled. The 2000 ms delay is not represented; each started timer is a counter, and one method fires one timer. Display dates (`toLocaleString`) and the server's `created_at`/`updated_at` columns are left out, so `UserResponse` carries only id and e-mail.
- Presentation components are left out, apart from the draft edits of `TaskItem.jsx` (lines 23, 28) and the noun of `TasksHeader.jsx` (line 10). The button that submits a form is not part of this model, so no re-entry guard is modelled.
- The logout error's `console.error` is left out. It has no effect on state.
- Bcrypt through passlib is not modelled: hashing and its check are functions given to the store. Its 72-byte truncation, salts and UTF-8 handling are not modelled.
- JWT creation is a function from subject to token; expiry and signing are not modelled. `get_current_user` and `backend/app/dependencies.py` are not part of this model, so endpoints take the authenticated user's id, and the 401 for a bad or missing token is not modelled.
- pydantic's `EmailStr` is a validation/normalisation function given to the store. pydantic's 422 error list is not modelled.
- `Schemas.ParseTaskUpdate`: an explicit null for `title` or `completed` passes the schema, but the model cannot carry it. What the database does with it depends on column nullability, and `backend/app/models.py` is not part of this model.
- Query parameters `skip` and `limit` are natural numbers. Negative values depend on the database engine, and `backend/app/database.py` is not part of this model.
- SQLAlchemy session, commit and refresh are not modelled. Rows are kept in insertion order; `get_tasks` has no ORDER BY, so that order is the model's choice. Ids come from counters that never reuse a value. A database that reuses the highest freed id is not modelled.
- `get_user_by_id` (backend/app/crud.py:17-18) is used only by `get_current_user`, which is not part of this model.
- String lengths count code points. The register form's `password.length` counts UTF-16 code units, so the two differ for characters outside the Basic Multilingual Plane.
- `backend/app/main.py` (CORS middleware, health route, server start-up) is left out.
