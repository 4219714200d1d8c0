/** The task handlers: a store of task documents owned by users, a table of
    users' Telegram chat ids, and the log of Telegram messages the handlers
    send. Every handler takes the session's username as a parameter. */
module TaskRoutes {
  import opened Http
  import opened Validators

  /** The store-assigned id of a task (a MongoDB ObjectId in the system). */
  type TaskId = nat

  /** A task as the handlers return it: its id beside its document. */
  datatype Task = Task(id: TaskId, doc: Doc)

  /** One `send_telegram_message(text, chat_id)` call. */
  datatype Notice = Notice(chatId: string, text: string)

  const UpdatableFields: set<string> := {"title", "description", "due_date", "status", "category", "estimated_time"}

  /** The keys of a document that `create_task` inserts. */
  const StoredFields: set<string> := UpdatableFields + {"user", "created_at"}

  const CreateFields: seq<string> := ["title", "description", "due_date"]

  /** `d.get(key, default)`. */
  function Lookup(d: Doc, key: string, default: string): string
  {
    if key in d then d[key] else default
  }

  /** A MongoDB exact-match filter: every key of `query` is in `d` with the same value. */
  predicate Matches(d: Doc, query: Doc)
  {
    forall k | k in query :: k in d && d[k] == query[k]
  }

  /** `find(query)` over the tasks with ids below `n`, in ascending id (that
      is, insertion) order: exactly the matching tasks, each once. */
  function Find(tasks: map<TaskId, Doc>, query: Doc, n: nat): (r: seq<Task>)
    ensures forall i | 0 <= i < |r| :: r[i].id < n && r[i].id in tasks && r[i].doc == tasks[r[i].id]
                                        && Matches(r[i].doc, query)
    ensures forall id | id < n && id in tasks && Matches(tasks[id], query) :: Task(id, tasks[id]) in r
  {
    if n == 0 then []
    else
      var found := Find(tasks, query, n - 1);
      var id := n - 1;
      if id in tasks && Matches(tasks[id], query) then
        var r := found + [Task(id, tasks[id])];
        assert r[..|found|] == found && r[|found|] == Task(id, tasks[id]);
        r
      else found
  }

  /** `Find` lists the tasks in strictly ascending id order. */
  lemma {:induction false} FindAscending(tasks: map<TaskId, Doc>, query: Doc, n: nat)
    ensures forall i, j | 0 <= i < j < |Find(tasks, query, n)| :: Find(tasks, query, n)[i].id < Find(tasks, query, n)[j].id
  {
    if n > 0 {
      var found := Find(tasks, query, n - 1);
      FindAscending(tasks, query, n - 1);
      if n - 1 in tasks && Matches(tasks[n - 1], query) {
        var r := found + [Task(n - 1, tasks[n - 1])];
        assert Find(tasks, query, n) == r;
        forall i, j | 0 <= i < j < |r| ensures r[i].id < r[j].id {
          if j < |found| {
            assert r[i] == found[i] && r[j] == found[j];
          } else {
            assert r[i] == found[i] && r[j].id == n - 1;
          }
        }
      }
    }
  }

  /** The caller owns the task: `find_one({"_id": id, "user": username})` finds it. */
  predicate Owns(tasks: map<TaskId, Doc>, id: TaskId, username: string)
  {
    id in tasks && Matches(tasks[id], map["user" := username])
  }

  /** The filter `get_tasks` builds: the owner, then the optional status and
      category arguments. Matching it means being owned by `username` and
      equal to every filter that was supplied. */
  function ListQuery(username: string, args: Doc): (q: Doc)
    ensures forall d :: Matches(d, q) <==>
      ("user" in d && d["user"] == username
       && ("status" in args ==> "status" in d && d["status"] == args["status"])
       && ("category" in args ==> "category" in d && d["category"] == args["category"]))
  {
    var q := map["user" := username];
    var q := if "status" in args then q["status" := args["status"]] else q;
    if "category" in args then q["category" := args["category"]] else q
  }

  /** The document `create_task` inserts for a validated body. */
  function NewTask(username: string, body: Doc, now: string): (d: Doc)
    requires "title" in body && "description" in body && "due_date" in body
    ensures d.Keys == StoredFields
    ensures d["user"] == username && d["status"] == "open" && d["created_at"] == now
    ensures forall k | k in CreateFields :: d[k] == body[k]
    ensures forall k | k in {"category", "estimated_time"} :: d[k] == (if k in body then body[k] else "")
  {
    map["user" := username,
        "title" := body["title"],
        "description" := body["description"],
        "due_date" := body["due_date"],
        "created_at" := now,
        "status" := "open",
        "category" := Lookup(body, "category", ""),
        "estimated_time" := Lookup(body, "estimated_time", "")]
  }

  /** The title, the description and the due date are present and not blank. */
  predicate CreateBodyFilled(body: Doc)
  {
    Filled(body, "title") && Filled(body, "description") && Filled(body, "due_date")
  }

  /** `create_task`'s validation passes exactly when the three required
      fields are filled, and otherwise names the first of them that is not. */
  lemma CreateValidation(body: Doc)
    ensures ValidateUserInput(body, CreateFields).0 <==> CreateBodyFilled(body)
    ensures !Filled(body, "title") ==> ValidateUserInput(body, CreateFields).1 == "Missing or empty field: title"
    ensures Filled(body, "title") && !Filled(body, "description") ==>
              ValidateUserInput(body, CreateFields).1 == "Missing or empty field: description"
    ensures Filled(body, "title") && Filled(body, "description") && !Filled(body, "due_date") ==>
              ValidateUserInput(body, CreateFields).1 == "Missing or empty field: due_date"
  {
    var fields := CreateFields;
    assert fields[0] == "title" && fields[1] == "description" && fields[2] == "due_date";
    if !ValidateUserInput(body, fields).0 {
      var i :| FirstUnfilled(body, fields, i) && ValidateUserInput(body, fields).1 == MissingFieldPrefix + fields[i];
      assert i == 0 || i == 1 || i == 2;
    }
  }

  /** The `$set` patch of `update_task`: the body restricted to the allow-list. */
  function AllowListed(body: Doc): (updates: Doc)
    ensures forall k :: k in updates <==> k in body && k in UpdatableFields
    ensures forall k | k in updates :: updates[k] == body[k]
  {
    map k | k in body && k in UpdatableFields :: body[k]
  }

  /** The stored document after `update_one(..., {"$set": updates})`. */
  function ApplyUpdate(d: Doc, body: Doc): (r: Doc)
    ensures r.Keys == d.Keys + (body.Keys * UpdatableFields)
    ensures forall k | k in body && k in UpdatableFields :: r[k] == body[k]
    ensures forall k | k in d && (k !in body || k !in UpdatableFields) :: r[k] == d[k]
  {
    d + AllowListed(body)
  }

  /** Sending the same update twice leaves the task as sending it once. */
  lemma ApplyUpdateIdempotent(d: Doc, body: Doc)
    ensures ApplyUpdate(ApplyUpdate(d, body), body) == ApplyUpdate(d, body)
  {
    var once := ApplyUpdate(d, body);
    var twice := ApplyUpdate(once, body);
    assert forall k | k in twice :: twice[k] == once[k];
  }

  /** An update touches neither the owner nor the creation time. */
  lemma ApplyUpdateKeepsOwnerAndCreation(d: Doc, body: Doc)
    requires "user" in d && "created_at" in d
    ensures ApplyUpdate(d, body)["user"] == d["user"]
    ensures ApplyUpdate(d, body)["created_at"] == d["created_at"]
  {
  }

  /** The condition of the "marked as done" message: the stored status was
      not "done" and the update sets it to "done". */
  predicate CompletesTask(before: Doc, body: Doc)
    requires "status" in before
  {
    var updates := AllowListed(body);
    before["status"] != "done" && "status" in updates && updates["status"] == "done"
  }

  /** Once an update has marked a task done, no later update can trigger the
      message again until some update moves its status away from "done". */
  lemma CompletionNotRepeated(d: Doc, body: Doc, later: Doc)
    requires "status" in d && CompletesTask(d, body)
    requires "status" !in later || later["status"] == "done"
    ensures !CompletesTask(ApplyUpdate(d, body), later)
    ensures !CompletesTask(ApplyUpdate(ApplyUpdate(d, body), later), later)
  {
  }

  /** The chat id the handlers send to: the user's `telegram_chat_id` when the
      user exists and the id is non-empty. */
  function Destination(users: map<string, Option<string>>, username: string): Option<string>
  {
    if username in users && users[username].Some? && users[username].value != ""
    then Some(users[username].value) else None
  }

  /** The log after a best-effort message to `username`: one more entry when
      the user has a destination, the same log otherwise. */
  function Notify(log: seq<Notice>, users: map<string, Option<string>>, username: string, text: string): (r: seq<Notice>)
    ensures Destination(users, username).None? ==> r == log
    ensures Destination(users, username).Some? ==> r == log + [Notice(Destination(users, username).value, text)]
  {
    match Destination(users, username)
    case None => log
    case Some(chatId) => log + [Notice(chatId, text)]
  }

  function CreatedMessage(title: string, dueDate: string): string
  {
    "\U{1F4DD} New task created: '" + title + "' due on " + dueDate
  }

  function DoneMessage(title: string): string
  {
    "\U{2705} Task marked as done: '" + title + "'"
  }

  /** The line `send_weekly_summary` writes for one task, or `None` when the
      stripped title or due date is empty. A missing category reads
      "No Category"; a present but blank one stays blank. */
  function TaskLine(d: Doc): (r: Option<string>)
  {
    var title := Strip(Lookup(d, "title", ""));
    var due := Strip(Lookup(d, "due_date", ""));
    var desc := Strip(Lookup(d, "description", ""));
    var category := Strip(Lookup(d, "category", "No Category"));
    if title == "" || due == "" then None
    else Some(FormatLine(title, category, due, desc))
  }

  /** A task is skipped exactly when its title or its due date is missing or
      only whitespace. */
  lemma TaskLineSkipped(d: Doc)
    ensures TaskLine(d).None? <==> Blank(Lookup(d, "title", "")) || Blank(Lookup(d, "due_date", ""))
  {
  }

  function FormatLine(title: string, category: string, due: string, desc: string): string
  {
    "- Title: " + title + " | Category: " + category + " | Due: " + due + " | Description: " + desc
  }

  /** The category default applies only when the key is absent. */
  lemma TaskLineCategory(d: Doc)
    requires "title" in d && !Blank(d["title"]) && "due_date" in d && !Blank(d["due_date"])
    ensures TaskLine(d).Some?
    ensures "category" !in d ==>
              TaskLine(d).value == FormatLine(Strip(d["title"]), "No Category", Strip(d["due_date"]),
                                              Strip(Lookup(d, "description", "")))
    ensures "category" in d && Blank(d["category"]) ==>
              TaskLine(d).value == FormatLine(Strip(d["title"]), "", Strip(d["due_date"]),
                                              Strip(Lookup(d, "description", "")))
  {
    DefaultCategoryStripped();
  }

  lemma DefaultCategoryStripped()
    ensures Strip("No Category") == "No Category"
  {
    assert !IsSpace('N') && !IsSpace('y');
    assert TrimStart("No Category") == "No Category";
    assert TrimEnd("No Category") == "No Category";
  }

  /** The lines of a task sequence, one per task that `line` gives a line
      for, in task order. The summary uses it with `TaskLine`; the lemmas
      below hold for any per-task line function. */
  function TaskLines(ts: seq<Task>, line: Doc -> Option<string>): (r: seq<string>)
    ensures |r| <= |ts|
  {
    if ts == [] then []
    else LinesOf(line(ts[0].doc)) + TaskLines(ts[1..], line)
  }

  function LinesOf(line: Option<string>): seq<string>
  {
    match line
    case None => []
    case Some(l) => [l]
  }

  /** The lines of a concatenation are the lines of its parts, in order. */
  lemma {:induction false} TaskLinesAppend(a: seq<Task>, b: seq<Task>, line: Doc -> Option<string>)
    ensures TaskLines(a + b, line) == TaskLines(a, line) + TaskLines(b, line)
  {
    if a == [] {
      assert a + b == b;
    } else {
      var ab := a + b;
      assert ab[0] == a[0] && ab[1..] == a[1..] + b;
      TaskLinesAppend(a[1..], b, line);
      calc {
        TaskLines(ab, line);
        LinesOf(line(a[0].doc)) + TaskLines(a[1..] + b, line);
        LinesOf(line(a[0].doc)) + (TaskLines(a[1..], line) + TaskLines(b, line));
        (LinesOf(line(a[0].doc)) + TaskLines(a[1..], line)) + TaskLines(b, line);
      }
    }
  }

  /** One more task adds its line, if it has one, at the end. */
  lemma TaskLinesStep(ts: seq<Task>, i: nat, line: Doc -> Option<string>)
    requires i < |ts|
    ensures TaskLines(ts[..i + 1], line) == TaskLines(ts[..i], line) + LinesOf(line(ts[i].doc))
  {
    assert ts[..i + 1] == ts[..i] + [ts[i]];
    TaskLinesAppend(ts[..i], [ts[i]], line);
    assert TaskLines([ts[i]], line) == LinesOf(line(ts[i].doc)) + TaskLines([], line) by {
      assert [ts[i]][1..] == [];
    }
  }

  /** Every line was written for some task of the sequence. */
  lemma {:induction false} TaskLinesOrigin(ts: seq<Task>, line: Doc -> Option<string>, l: string)
    requires l in TaskLines(ts, line)
    ensures exists i | 0 <= i < |ts| :: line(ts[i].doc) == Some(l)
  {
    if l in LinesOf(line(ts[0].doc)) {
      assert line(ts[0].doc) == Some(l);
    } else {
      TaskLinesOrigin(ts[1..], line, l);
      var i :| 0 <= i < |ts[1..]| && line(ts[1..][i].doc) == Some(l);
      assert line(ts[i + 1].doc) == Some(l);
    }
  }

  /** The loop of `send_weekly_summary` that collects `task_lines`. */
  method BuildTaskLines(ts: seq<Task>) returns (lines: seq<string>)
    ensures lines == TaskLines(ts, TaskLine)
  {
    lines := [];
    var i := 0;
    while i < |ts|
      invariant 0 <= i <= |ts|
      invariant lines == TaskLines(ts[..i], TaskLine)
    {
      var line := TaskLine(ts[i].doc);
      if line.Some? {
        lines := lines + [line.value];
      }
      TaskLinesStep(ts, i, TaskLine);
      i := i + 1;
    }
    assert ts[..i] == ts;
  }

  /** The filter of line 132: the user's tasks whose status is "open". */
  function OpenQuery(username: string): Doc
  {
    map["user" := username, "status" := "open"]
  }

  /** Every line built from the result of a query comes from a stored task
      that matches the query. */
  lemma FindLinesOrigin(tasks: map<TaskId, Doc>, query: Doc, n: nat, line: Doc -> Option<string>)
    ensures forall l | l in TaskLines(Find(tasks, query, n), line) ::
      exists id | id in tasks :: Matches(tasks[id], query) && line(tasks[id]) == Some(l)
  {
    var found := Find(tasks, query, n);
    forall l | l in TaskLines(found, line)
      ensures exists id | id in tasks :: Matches(tasks[id], query) && line(tasks[id]) == Some(l)
    {
      TaskLinesOrigin(found, line, l);
      var i :| 0 <= i < |found| && line(found[i].doc) == Some(l);
      assert found[i].id in tasks && line(tasks[found[i].id]) == Some(l);
    }
  }

  /** The task and user collections and the Telegram messages sent so far. */
  class TaskStore {
    var tasks: map<TaskId, Doc>
    /** username to the user document's `telegram_chat_id`, `None` when the key is absent */
    var users: map<string, Option<string>>
    var notices: seq<Notice>
    /** the next id to assign; every stored id is below it */
    var nextId: TaskId

    ghost predicate Valid()
      reads this
    {
      forall id | id in tasks :: id < nextId && StoredFields <= tasks[id].Keys
    }

    constructor (users: map<string, Option<string>>)
      ensures Valid()
      ensures tasks == map[] && this.users == users && notices == []
    {
      tasks := map[];
      this.users := users;
      notices := [];
      nextId := 0;
    }

    /** `get_tasks`: the caller's tasks that match every supplied filter, in
        insertion order. */
    function GetTasks(session: Option<string>, args: Doc): (r: Response<seq<Task>>)
      requires Valid()
      reads this
      ensures !Authenticated(session) <==> r == Unauthorized("Unauthorized")
      ensures Authenticated(session) ==> r.Ok?
      ensures r.Ok? ==> forall id | id in tasks ::
        (Task(id, tasks[id]) in r.value <==>
          tasks[id]["user"] == session.value
          && ("status" in args ==> tasks[id]["status"] == args["status"])
          && ("category" in args ==> tasks[id]["category"] == args["category"]))
      ensures r.Ok? ==> forall t | t in r.value :: t.id in tasks && t.doc == tasks[t.id]
      ensures r.Ok? ==> forall i, j | 0 <= i < j < |r.value| :: r.value[i].id < r.value[j].id
    {
      if !Authenticated(session) then Unauthorized("Unauthorized")
      else
        FindAscending(tasks, ListQuery(session.value, args), nextId);
        Ok(Find(tasks, ListQuery(session.value, args), nextId))
    }

    /** `get_task`: the task when the caller owns it; `NotFound` alike for a
        missing task and for someone else's. */
    function GetTask(session: Option<string>, id: TaskId): (r: Response<Task>)
      reads this
      ensures !Authenticated(session) <==> r == Unauthorized("Unauthorized")
      ensures r.Ok? <==> Authenticated(session) && id in tasks && "user" in tasks[id] && tasks[id]["user"] == session.value
      ensures r.Ok? ==> r.value == Task(id, tasks[id])
      ensures !r.Ok? && Authenticated(session) ==> r == NotFound("Task not found")
    {
      if !Authenticated(session) then Unauthorized("Unauthorized")
      else if !Owns(tasks, id, session.value) then NotFound("Task not found")
      else Ok(Task(id, tasks[id]))
    }

    /** `create_task`: inserts one task under a fresh id, owned by the caller
        and open whatever the body says, then tells the owner. */
    method CreateTask(session: Option<string>, body: Doc, now: string) returns (r: Response<Task>)
      requires Valid()
      modifies this
      ensures Valid()
      ensures users == old(users)
      ensures !Authenticated(session) ==> r == Unauthorized("Unauthorized") && unchanged(this)
      ensures Authenticated(session) && !CreateBodyFilled(body) ==>
        r == BadRequest(ValidateUserInput(body, CreateFields).1) && unchanged(this)
      ensures Authenticated(session) && CreateBodyFilled(body) ==>
        && r.Created?
        && r.value.id !in old(tasks)
        && r.value.doc == NewTask(session.value, body, now)
        && tasks == old(tasks)[r.value.id := r.value.doc]
        && notices == Notify(old(notices), users, session.value, CreatedMessage(body["title"], body["due_date"]))
    {
      if !Authenticated(session) {
        return Unauthorized("Unauthorized");
      }
      var username := session.value;
      var (valid, error) := ValidateUserInput(body, CreateFields);
      CreateValidation(body);
      if !valid {
        return BadRequest(error);
      }
      var task := NewTask(username, body, now);
      var id := nextId;
      tasks := tasks[id := task];
      nextId := nextId + 1;
      notices := Notify(notices, users, username, CreatedMessage(task["title"], task["due_date"]));
      r := Created(Task(id, task));
    }

    /** `update_task`: applies the allow-listed part of the body to a task the
        caller owns; a message tells the owner when the update is what marks
        the task done, naming the title it had before the update. */
    method UpdateTask(session: Option<string>, id: TaskId, body: Doc) returns (r: Response<Task>)
      requires Valid()
      modifies this
      ensures Valid()
      ensures users == old(users) && nextId == old(nextId)
      ensures !Authenticated(session) ==> r == Unauthorized("Unauthorized") && unchanged(this)
      ensures Authenticated(session) && !Owns(old(tasks), id, session.value) ==>
        r == NotFound("Task not found") && unchanged(this)
      ensures Authenticated(session) && Owns(old(tasks), id, session.value) ==>
        var before := old(tasks)[id];
        && tasks == old(tasks)[id := ApplyUpdate(before, body)]
        && r == Ok(Task(id, tasks[id]))
        && notices == (if CompletesTask(before, body)
                       then Notify(old(notices), users, session.value, DoneMessage(before["title"]))
                       else old(notices))
    {
      if !Authenticated(session) {
        return Unauthorized("Unauthorized");
      }
      var username := session.value;
      if !Owns(tasks, id, username) {
        return NotFound("Task not found");
      }
      var task := tasks[id];
      tasks := tasks[id := ApplyUpdate(task, body)];
      if CompletesTask(task, body) {
        notices := Notify(notices, users, username, DoneMessage(task["title"]));
      }
      r := Ok(Task(id, tasks[id]));
    }

    /** `delete_task`: removes exactly the named task when the caller owns it. */
    method DeleteTask(session: Option<string>, id: TaskId) returns (r: Response<string>)
      requires Valid()
      modifies this
      ensures Valid()
      ensures users == old(users) && notices == old(notices) && nextId == old(nextId)
      ensures !Authenticated(session) ==> r == Unauthorized("Unauthorized") && unchanged(this)
      ensures Authenticated(session) && !Owns(old(tasks), id, session.value) ==>
        r == NotFound("Task not found or not authorized") && unchanged(this)
      ensures Authenticated(session) && Owns(old(tasks), id, session.value) ==>
        r == Ok("Task deleted") && tasks == old(tasks) - {id}
    {
      if !Authenticated(session) {
        return Unauthorized("Unauthorized");
      }
      if !Owns(tasks, id, session.value) {
        return NotFound("Task not found or not authorized");
      }
      tasks := tasks - {id};
      r := Ok("Task deleted");
    }

    /** `update_telegram_chat_id`: sets the caller's chat id when the user
        exists; never creates a user. */
    method UpdateTelegramChatId(session: Option<string>, body: Doc) returns (r: Response<string>)
      requires Valid()
      modifies this
      ensures Valid()
      ensures tasks == old(tasks) && notices == old(notices) && nextId == old(nextId)
      ensures !Authenticated(session) ==> r == Unauthorized("Unauthorized") && unchanged(this)
      ensures Authenticated(session) && Lookup(body, "telegram_chat_id", "") == "" ==>
        r == BadRequest("Missing telegram_chat_id") && unchanged(this)
      ensures Authenticated(session) && Lookup(body, "telegram_chat_id", "") != "" ==>
        r == Ok("Telegram chat ID updated")
        && users == SetChatId(old(users), session.value, body["telegram_chat_id"])
    {
      if !Authenticated(session) {
        return Unauthorized("Unauthorized");
      }
      var chatId := Lookup(body, "telegram_chat_id", "");
      if chatId == "" {
        return BadRequest("Missing telegram_chat_id");
      }
      users := SetChatId(users, session.value, chatId);
      r := Ok("Telegram chat ID updated");
    }

    /** The task lines of `send_weekly_summary` for one user: `None` when the
        user has no open task (the user is skipped), otherwise one line per
        open task with a title and a due date, in insertion order. */
    method SummaryTaskLines(username: string) returns (r: Option<seq<string>>)
      requires Valid()
      ensures r.None? <==> forall id | id in tasks :: tasks[id]["user"] != username || tasks[id]["status"] != "open"
      ensures r.Some? ==> r.value == TaskLines(Find(tasks, OpenQuery(username), nextId), TaskLine)
      ensures r.Some? ==> forall line | line in r.value :: exists id | id in tasks ::
        tasks[id]["user"] == username && tasks[id]["status"] == "open" && TaskLine(tasks[id]) == Some(line)
    {
      var open := Find(tasks, OpenQuery(username), nextId);
      if open == [] {
        return None;
      }
      var lines := BuildTaskLines(open);
      FindLinesOrigin(tasks, OpenQuery(username), nextId, TaskLine);
      r := Some(lines);
    }
  }

  /** The users map after `update_one({"username": u}, {"$set": {"telegram_chat_id": c}})`:
      only that user's chat id changes, and only when the user exists. */
  function SetChatId(users: map<string, Option<string>>, username: string, chatId: string): (r: map<string, Option<string>>)
    ensures r.Keys == users.Keys
    ensures username in users ==> r[username] == Some(chatId)
    ensures forall u | u in users && u != username :: r[u] == users[u]
  {
    if username in users then users[username := Some(chatId)] else users
  }

  /** Setting the same chat id twice is setting it once. */
  lemma SetChatIdIdempotent(users: map<string, Option<string>>, username: string, chatId: string)
    ensures SetChatId(SetChatId(users, username, chatId), username, chatId) == SetChatId(users, username, chatId)
  {
  }
}
