# Task manager backend: handlers, validator and sessions

A model of the request handlers of a Flask task-management backend, with
MongoDB, Telegram and the Flask session replaced by explicit state.

- `Http` (`http.dfy`): an `Option` type, `Doc` (a JSON document as a map
  from key to value, shared by both handler modules), the handlers' `Response` (one
  constructor per HTTP status returned: `Ok` 200, `Created` 201, `BadRequest`
  400, `Unauthorized` 401, `NotFound` 404, each error with the text of its
  `"error"` member), and `Authenticated`, the `if not username` check.
- `Validators` (`validators.dfy`): `validate_user_input`, a first-failure
  search over the required field names, and the model of Python's
  `str.strip()` / `str.isspace()` it depends on.
- `TaskRoutes` (`task_routes.dfy`): the class `TaskStore` holds the tasks
  collection (task id to document), the users collection as seen by the task
  handlers (username to `telegram_chat_id`, absent or present), and the log of
  Telegram messages sent. The handlers `get_tasks`, `get_task`, `create_task`,
  `update_task`, `delete_task` and `update_telegram_chat_id` are its members;
  each takes the session's username as an `Option<string>`. The pure parts are
  module functions: the MongoDB exact-match filter (`Matches`, `Find`), the
  `get_tasks` query, the created document, the allow-listed `$set` patch, and
  the task lines that `send_weekly_summary` builds.
- `AuthRoutes` (`auth_routes.dfy`): the class `AuthService` holds the users
  collection as a sequence of documents and the session's username slot.
  `register` and `login` are specified by pure functions of the old state
  (`RegisterResult`, `LoginResult`), and the methods are proved to match them.
  Password hashing is a pair of functions supplied at construction. The only
  fact assumed about them is `Sound`: a hash checks against the password it
  was made from.

Modelling choices:

- Request bodies, query arguments and stored task documents are
  `map<string, string>`. Each JSON value is represented by its `str()`
  rendering, so `5` and `"5"` are the same value here. Keeping documents as
  maps lets the model tell a missing key from a blank value. The weekly
  summary depends on that difference for `category`.
- Task ids are naturals assigned from a counter (`nextId`). `Find` enumerates
  ids in ascending order, so query results come back in insertion order. This
  stands in for MongoDB's natural order.
- A session holding `""` counts as logged out, as it does in Python
  (`if not username`).
- The creation time is a parameter (`now`), and so is the random salt of the
  password hash.
- `update_task` with no allow-listed key in its body leaves the document as it
  is. An empty `$set` is modelled as a no-op, as MongoDB 5.0 and later treat it.
- The task handlers and the authentication handlers use the same users
  collection. The model keeps two views of it: `TaskStore.users` holds only
  the chat id, and `AuthService.users` holds whole documents.

## Model

| member | source | states |
|---|---|---|
| `Validators.Strip` | backend/logic/validators.py:3 | `str.strip()` is empty exactly when every character is Python whitespace |
| `Validators.TrimStartShape` | backend/logic/validators.py:3 | the left-stripped string is a suffix of the input, and what was dropped is all whitespace |
| `Validators.TrimEndShape` | backend/logic/validators.py:3 | the right-stripped string is a prefix of the input, and what was dropped is all whitespace |
| `Validators.StripShape` | backend/logic/validators.py:3 | `str.strip()` returns a slice of the input, and everything it removes before and after that slice is whitespace |
| `Validators.ValidateUserInput` | backend/logic/validators.py:1-5 | valid iff every required field is a key whose value is not all whitespace; valid carries `""`; invalid carries "Missing or empty field: " and the first unfilled field in list order; an empty field list is always valid |
| `Validators.ValidateIgnoresOtherKeys` | backend/logic/validators.py:2-3 | two bodies that agree on the required keys get the same result, whatever their other keys |
| `Validators.WhitespaceOnlyIsMissing` | backend/logic/validators.py:3 | a required field whose value is only whitespace makes validation fail with a message |
| `TaskRoutes.Find` | backend/task_routes.py:37 | a MongoDB `find` returns exactly the stored tasks matching every key of the filter, each with its stored document |
| `TaskRoutes.FindAscending` | backend/task_routes.py:37 | the tasks `find` returns come in strictly ascending id order, that is, in insertion order |
| `TaskRoutes.ListQuery` | backend/task_routes.py:31-35 | a document matches the `get_tasks` filter iff it is owned by the caller and equals each supplied status/category argument |
| `TaskRoutes.CreateValidation` | backend/task_routes.py:48-50 | creation validation passes iff title, description and due date are filled, and otherwise names the first missing one of them |
| `TaskRoutes.NewTask` | backend/task_routes.py:52-61 | the inserted document has exactly the eight task keys, owner = caller, status "open", the body's title/description/due date, and category/estimated time from the body or "" |
| `TaskRoutes.AllowListed` | backend/task_routes.py:99 | the patch holds exactly the body keys in the allow-list, with the body's values |
| `TaskRoutes.ApplyUpdate` | backend/task_routes.py:99-100 | after the update, allow-listed body keys carry the body's values, every other key keeps its old value, and no key outside the old keys and the allow-list appears |
| `TaskRoutes.ApplyUpdateIdempotent` | backend/task_routes.py:99-100 | applying the same body twice gives the same document as applying it once |
| `TaskRoutes.ApplyUpdateKeepsOwnerAndCreation` | backend/task_routes.py:99 | an update never changes `user` or `created_at` |
| `TaskRoutes.CompletionNotRepeated` | backend/task_routes.py:103 | after an update has marked a task done, a later update that leaves the status at "done" or does not mention it does not trigger the done message again |
| `TaskRoutes.Notify` | backend/task_routes.py:67-70 | a message is appended, to the user's chat id, iff the user exists with a non-empty `telegram_chat_id`; otherwise the log is unchanged |
| `TaskRoutes.TaskLineSkipped` | backend/task_routes.py:140-145 | a task yields no summary line iff its title or due date is missing or whitespace only |
| `TaskRoutes.TaskLineCategory` | backend/task_routes.py:143 | a task with a non-blank title and due date gets a line, whose category reads "No Category" when the key is absent and stays empty when it is present but blank |
| `TaskRoutes.TaskLinesAppend` | backend/task_routes.py:139-146 | for any per-task line function, the lines of a concatenation are the lines of the first part followed by those of the second, so line order follows task order |
| `TaskRoutes.TaskLinesOrigin` | backend/task_routes.py:139-146 | for any per-task line function, every collected line is the line of some task in the input |
| `TaskRoutes.FindLinesOrigin` | backend/task_routes.py:132-146 | every line collected from the result of a `find` is the line of a stored task that matches the query |
| `TaskRoutes.BuildTaskLines` | backend/task_routes.py:138-146 | the loop collects exactly the `TaskLine` lines of the task list, in order |
| `TaskRoutes.SetChatId` | backend/task_routes.py:188 | only the named user's chat id changes, to the given value, and no user is created |
| `TaskRoutes.SetChatIdIdempotent` | backend/task_routes.py:188 | setting the same chat id twice equals setting it once |
| `TaskRoutes.TaskStore.GetTasks` | backend/task_routes.py:26-38 | Unauthorized iff no username; otherwise a stored task is listed iff the caller owns it and it equals every supplied filter, with no filter meaning all the caller's tasks, in insertion order |
| `TaskRoutes.TaskStore.GetTask` | backend/task_routes.py:76-85 | Unauthorized iff no username; the task iff it exists and the caller owns it; otherwise the same NotFound for missing and foreign tasks |
| `TaskRoutes.TaskStore.CreateTask` | backend/task_routes.py:42-72 | no username: Unauthorized and nothing changes; invalid body: the validator's message and nothing changes; otherwise exactly one new task under a fresh id, the other tasks and the users unchanged, and one "New task created" message with the title and due date when the owner has a chat id |
| `TaskRoutes.TaskStore.UpdateTask` | backend/task_routes.py:89-110 | Unauthorized or NotFound leave everything unchanged; otherwise only that task changes, by the allow-listed patch, and a "marked as done" message naming the title from before the update is appended only when the old status was not "done" and the body sets "done" |
| `TaskRoutes.TaskStore.DeleteTask` | backend/task_routes.py:114-123 | Unauthorized or NotFound leave everything unchanged; otherwise exactly that one task is removed |
| `TaskRoutes.TaskStore.UpdateTelegramChatId` | backend/task_routes.py:178-189 | Unauthorized or a missing/empty chat id (BadRequest) change nothing; otherwise only the caller's chat id is set, and only if the caller has a user record |
| `TaskRoutes.TaskStore.SummaryTaskLines` | backend/task_routes.py:132-146 | the user is skipped iff they have no open task; otherwise the lines are those of their open tasks in insertion order, and each line comes from one of their open tasks |
| `AuthRoutes.FindUser` | backend/auth_routes.py:21 | `find_one` by username gives nothing iff no document has that name, otherwise the first one that does |
| `AuthRoutes.ChatIdField` | backend/auth_routes.py:31-33 | the new user document carries a chat id iff the body gives a non-empty one |
| `AuthRoutes.CredentialValidation` | backend/auth_routes.py:14-16 | the credential check passes iff username and password are both filled |
| `AuthRoutes.RegisterResult` | backend/auth_routes.py:12-36 | registration succeeds iff both credentials are filled and the username is new; it then appends exactly one document with the username, the hash of the password and the optional chat id; it fails with the validator's message or "User already exists" and no change otherwise; it keeps usernames unique |
| `AuthRoutes.LoginResult` | backend/auth_routes.py:40-54 | a failed login leaves the session as it was and answers with the validator's message or "Invalid credentials"; with unique usernames it succeeds iff a user with that name has a hash that checks against the password, and then the session holds the requested username |
| `AuthRoutes.LoginAfterRegister` | backend/auth_routes.py:46-54 | logging in with the username and password just registered succeeds and sets the session to that username |
| `AuthRoutes.AuthService.Register` | backend/auth_routes.py:12-36 | the users collection and the reply are those of `RegisterResult`; the session is untouched; unique usernames are preserved |
| `AuthRoutes.AuthService.Login` | backend/auth_routes.py:40-54 | the session and the reply are those of `LoginResult`; the users collection is untouched |
| `AuthRoutes.AuthService.Logout` | backend/auth_routes.py:58-60 | the session is cleared, after which the current user is Unauthorized |
| `AuthRoutes.AuthService.GetCurrentUser` | backend/auth_routes.py:63-67 | the session's username iff one is set, Unauthorized otherwise |

## Left out

- `send_weekly_summary` beyond its task lines: choosing users whose `telegram_chat_id` exists (MongoDB `$exists`), the prompt, the OpenAI call and the per-user exception handling are external calls. The handler performs no session check, so anyone can trigger it. The model does not add one.
- The recommendation handler and `backend/ai_routes.py` / `backend/logic/ai_helpers.py`: calls to the OpenAI API.
- `send_telegram_message`: modelled only as an entry appended to the message log. The HTTP request and its swallowed errors are not modelled.
- `is_task_overdue` (`backend/logic/task_utills.py`): it reads the wall clock, and no modelled handler calls it.
- Rate limiting of `login` (`@limiter.limit`) and `session.permanent`: these are time-based configuration.
- `ObjectId(task_id)` raising on a malformed id: ids are abstract naturals. `serialize_task`'s string conversion of `_id` is also not modelled.
- A request with no JSON body (`request.get_json()` returning `None`), and non-string JSON values, which the model represents by their `str()` form.
- The real hash algorithm: `generate_password_hash` and `check_password_hash` are parameters, constrained only by `Sound`.
- Logging (`logging.info`, `logging.warning`, `print`).
- Concurrency between requests: each handler runs as one atomic step on the state.
- Result order of `find`: the model returns tasks in insertion order. MongoDB does not guarantee its natural order, so the model is more specific than the system here.
- MongoDB's matching of non-string values: every value is compared as a string.
