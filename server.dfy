/**
 * The request handlers of the task API: validation of a new task, the
 * two-step toggle, and the mapping of each store outcome to a status code
 * and a JSON body. The decisions are functions over store outcomes; `App`
 * runs them against the in-memory store, as the API does when it is handed
 * a test database.
 */
module Server {
  import opened Wrappers
  import opened JsText
  import opened TaskModel
  import opened MockStore
  import SqlStore

  /** A JSON response body: the payload, or `{error: message}`. */
  datatype Body<+T> = Payload(value: T) | ErrorBody(error: string)

  /** A response: the status code and the JSON body. */
  datatype Reply<+T> = Reply(status: nat, body: Body<T>)

  /** The payload of the health check. */
  datatype HealthInfo = HealthInfo(status: string, message: string)

  /**
   * The properties of a POST body that the handler reads; `None` for an
   * absent property. Only string and boolean values are modelled.
   */
  datatype CreateBody = CreateBody(text: Option<string>, completed: Option<bool>, date: Option<string>)

  const Required := "Text and date are required"
  const FetchFailed := "Failed to fetch tasks"
  const FetchDateFailed := "Failed to fetch tasks for date"
  const CreateFailed := "Failed to create task"
  const UpdateFailed := "Failed to update task"
  const ToggleFailed := "Failed to toggle task"
  const DeleteFailed := "Failed to delete task"
  const NoRoute := "Route not found"

  function Fail<T>(status: nat, message: string): Reply<T> {
    Reply(status, ErrorBody(message))
  }

  /** GET /api/tasks: the store's list as it is, or 500 whatever the store's error. */
  function ListReply(listed: Result<seq<Task>, string>): (reply: Reply<seq<Task>>)
    ensures listed.Ok? ==> reply == Reply(200, Payload(listed.value))
    ensures listed.Err? ==> reply == Fail(500, FetchFailed)
  {
    match listed
    case Ok(tasks) => Reply(200, Payload(tasks))
    case Err(_) => Fail(500, FetchFailed)
  }

  /** GET /api/tasks/date/:date: the store's list as it is, or 500 with a message of its own. */
  function ByDateReply(listed: Result<seq<Task>, string>): (reply: Reply<seq<Task>>)
    ensures listed.Ok? ==> reply == Reply(200, Payload(listed.value))
    ensures listed.Err? ==> reply == Fail(500, FetchDateFailed)
  {
    match listed
    case Ok(tasks) => Reply(200, Payload(tasks))
    case Err(_) => Fail(500, FetchDateFailed)
  }

  /** `!value` for an optional string property: absent or empty. */
  predicate Falsy(value: Option<string>) {
    value.None? || value.value == ""
  }

  /**
   * POST /api/tasks, before the store is called: 400 when the text or the
   * date is missing or empty or the text is only white space; otherwise the
   * task to create, with the id minted from the clock reading `now`, the
   * trimmed text and `completed` defaulting to false.
   */
  function ValidateCreate(body: CreateBody, now: nat): (r: Result<Task, Reply<Task>>)
    ensures r.Err? <==> Falsy(body.text) || Falsy(body.date) || AllWhite(body.text.value)
    ensures r.Err? ==> r.error == Fail(400, Required)
    ensures r.Ok? ==> r.value == Task(NatToString(now), Trim(body.text.value), body.completed.GetOr(false), body.date.value)
    ensures r.Ok? ==> r.value.id != "" && r.value.text != "" && r.value.date != ""
    ensures r.Ok? ==> !IsWhite(r.value.text[0]) && !IsWhite(r.value.text[|r.value.text| - 1])
  {
    if Falsy(body.text) || Falsy(body.date) then Err(Fail(400, Required))
    else
      var trimmed := Trim(body.text.value);
      TrimEmptyIff(body.text.value);
      if trimmed == "" then Err(Fail(400, Required))
      else Ok(Task(NatToString(now), trimmed, body.completed.GetOr(false), body.date.value))
  }

  /** POST /api/tasks, after the store is called: 201 with the store's result, or 500. */
  function CreateReply(created: Result<Task, string>): (reply: Reply<Task>)
    ensures created.Ok? ==> reply == Reply(201, Payload(created.value))
    ensures created.Err? ==> reply == Fail(500, CreateFailed)
  {
    match created
    case Ok(t) => Reply(201, Payload(t))
    case Err(_) => Fail(500, CreateFailed)
  }

  /**
   * PUT /api/tasks/:id: the store's result with 200; 404 exactly when the
   * store reports "Task not found", 500 for any other failure.
   */
  function UpdateReply<T>(updated: Result<T, string>): (reply: Reply<T>)
    ensures updated.Ok? ==> reply == Reply(200, Payload(updated.value))
    ensures updated.Err? ==> (reply.status == 404 <==> updated.error == NotFound)
    ensures updated.Err? ==> reply == Fail(if updated.error == NotFound then 404 else 500,
                                           if updated.error == NotFound then NotFound else UpdateFailed)
  {
    match updated
    case Ok(v) => Reply(200, Payload(v))
    case Err(message) => if message == NotFound then Fail(404, NotFound) else Fail(500, UpdateFailed)
  }

  /** What the toggle handler does after reading the list: answer at once, or write a patch. */
  datatype ToggleStep = Answer(reply: Reply<Task>) | Write(patch: Patch)

  /** The patch that negates a task's flag and sets nothing else. */
  function FlipPatch(t: Task): Patch {
    Patch(None, None, Some(!t.completed), None)
  }

  /**
   * PATCH /api/tasks/:id/toggle, first step: 500 when the list cannot be
   * read, 404 (and no write) when no task has the id, otherwise a write of
   * the negated flag of the first task with the id.
   */
  function PlanToggle(listed: Result<seq<Task>, string>, id: string): (step: ToggleStep)
    ensures listed.Err? ==> step == Answer(Fail(500, ToggleFailed))
    ensures listed.Ok? && !HasId(listed.value, id) ==> step == Answer(Fail(404, NotFound))
    ensures listed.Ok? && HasId(listed.value, id) ==>
      step == Write(FlipPatch(listed.value[FindIndex(listed.value, id).value]))
  {
    match listed
    case Err(_) => Answer(Fail(500, ToggleFailed))
    case Ok(tasks) =>
      match FindIndex(tasks, id)
      case None => Answer(Fail(404, NotFound))
      case Some(i) => Write(FlipPatch(tasks[i]))
  }

  /** PATCH /api/tasks/:id/toggle, second step: every failure of the write is a 500, a not-found included. */
  function ToggleReply<T>(updated: Result<T, string>): (reply: Reply<T>)
    ensures updated.Ok? ==> reply == Reply(200, Payload(updated.value))
    ensures updated.Err? ==> reply == Fail(500, ToggleFailed)
  {
    match updated
    case Ok(v) => Reply(200, Payload(v))
    case Err(_) => Fail(500, ToggleFailed)
  }

  /** DELETE /api/tasks/:id: the store's result; 404 exactly for "Task not found", else 500. */
  function DeleteReply(deleted: Result<Deletion, string>): (reply: Reply<Deletion>)
    ensures deleted.Ok? ==> reply == Reply(200, Payload(deleted.value))
    ensures deleted.Err? ==> (reply.status == 404 <==> deleted.error == NotFound)
    ensures deleted.Err? ==> reply == Fail(if deleted.error == NotFound then 404 else 500,
                                           if deleted.error == NotFound then NotFound else DeleteFailed)
  {
    match deleted
    case Ok(d) => Reply(200, Payload(d))
    case Err(message) => if message == NotFound then Fail(404, NotFound) else Fail(500, DeleteFailed)
  }

  /** GET /api/health: a fixed payload. */
  function Health(): (reply: Reply<HealthInfo>)
    ensures reply.status == 200 && reply.body.Payload?
  {
    Reply(200, Payload(HealthInfo("OK", "Task Calendar API is running")))
  }

  // ----- routing -----

  datatype Verb = Get | Post | Put | PatchVerb | Delete

  /** The handler a request reaches. */
  datatype Endpoint =
    | ListTasks
    | TasksOnDate(date: string)
    | CreateTask
    | UpdateTask(id: string)
    | ToggleTask(id: string)
    | DeleteTask(id: string)
    | HealthCheck
    | Unmatched

  /**
   * Route matching on the path split at `/` (without the leading empty
   * segment), in registration order; a `:param` matches one non-empty
   * segment, and whatever no route matches reaches the 404 handler.
   */
  function Route(verb: Verb, path: seq<string>): Endpoint {
    if |path| < 2 || path[0] != "api" then Unmatched
    else if |path| == 2 && path[1] == "health" && verb == Get then HealthCheck
    else if path[1] != "tasks" then Unmatched
    else if |path| == 2 then (if verb == Get then ListTasks else if verb == Post then CreateTask else Unmatched)
    else if path[2] == "" then Unmatched
    else if |path| == 4 && verb == Get && path[2] == "date" && path[3] != "" then TasksOnDate(path[3])
    else if |path| == 3 && verb == Put then UpdateTask(path[2])
    else if |path| == 4 && verb == PatchVerb && path[3] == "toggle" then ToggleTask(path[2])
    else if |path| == 3 && verb == Delete then DeleteTask(path[2])
    else Unmatched
  }

  /** The request that reaches each endpoint. */
  function Request(e: Endpoint): (Verb, seq<string>) {
    match e
    case ListTasks => (Get, ["api", "tasks"])
    case TasksOnDate(date) => (Get, ["api", "tasks", "date", date])
    case CreateTask => (Post, ["api", "tasks"])
    case UpdateTask(id) => (Put, ["api", "tasks", id])
    case ToggleTask(id) => (PatchVerb, ["api", "tasks", id, "toggle"])
    case DeleteTask(id) => (Delete, ["api", "tasks", id])
    case HealthCheck => (Get, ["api", "health"])
    case Unmatched => (Get, [])
  }

  /** Parameters a route can carry: one non-empty path segment each. */
  predicate Routable(e: Endpoint) {
    match e
    case TasksOnDate(date) => date != ""
    case UpdateTask(id) => id != ""
    case ToggleTask(id) => id != ""
    case DeleteTask(id) => id != ""
    case _ => true
  }

  /** Every endpoint is reached by its own request. */
  lemma RouteRequest(e: Endpoint)
    requires Routable(e)
    ensures Route(Request(e).0, Request(e).1) == e
  {
  }

  /** Routing loses nothing: the request that reaches a handler is that handler's own request. */
  lemma RouteInverse(verb: Verb, path: seq<string>)
    requires Route(verb, path) != Unmatched
    ensures Routable(Route(verb, path)) && Request(Route(verb, path)) == (verb, path)
  {
    if |path| == 2 {
      assert path == [path[0], path[1]];
    } else if |path| == 3 {
      assert path == [path[0], path[1], path[2]];
    } else {
      assert path == [path[0], path[1], path[2], path[3]];
    }
  }

  /**
   * What a request leads to before any store is consulted: the health
   * check and the 404 handler answer on their own, every other endpoint
   * runs its handler.
   */
  datatype Dispatch =
    | Answered(health: Reply<HealthInfo>)
    | Rejected(missing: Reply<()>)
    | Handled(endpoint: Endpoint)

  /**
   * The app's dispatch: the endpoint `Route` picks, with the two answers
   * that need no store filled in.
   */
  function DispatchRequest(verb: Verb, path: seq<string>): (d: Dispatch)
    ensures d.Rejected? <==> Route(verb, path) == Unmatched
    ensures d.Rejected? ==> d.missing == Fail(404, NoRoute)
    ensures d.Answered? <==> verb == Get && path == ["api", "health"]
    ensures d.Answered? ==> d.health == Reply(200, Payload(HealthInfo("OK", "Task Calendar API is running")))
    ensures d.Handled? ==> Routable(d.endpoint) && Request(d.endpoint) == (verb, path)
  {
    match Route(verb, path)
    case Unmatched => Rejected(Fail(404, NoRoute))
    case HealthCheck =>
      RouteInverse(verb, path);
      Answered(Health())
    case e =>
      RouteInverse(verb, path);
      Handled(e)
  }

  /** GET /api/nonexistent reaches the 404 handler. */
  lemma UnknownPathIs404()
    ensures DispatchRequest(Get, ["api", "nonexistent"]) == Rejected(Fail(404, NoRoute))
  {
  }

  // ----- the handlers against the in-memory store -----

  /** The store after a toggle of `id`: the first task with that id has its flag negated. */
  function ToggledStore(tasks: seq<Task>, id: string): (r: seq<Task>)
    ensures |r| == |tasks|
    ensures forall i :: 0 <= i < |tasks| && Some(i) != FindIndex(tasks, id) ==> r[i] == tasks[i]
    ensures HasId(tasks, id) ==> var i := FindIndex(tasks, id).value;
      r[i] == tasks[i].(completed := !tasks[i].completed)
  {
    match FindIndex(tasks, id)
    case None => tasks
    case Some(i) => tasks[i := Merge(tasks[i], FlipPatch(tasks[i]))]
  }

  /** Two toggles of the same id restore the store. */
  lemma ToggleTwiceRestores(tasks: seq<Task>, id: string)
    ensures ToggledStore(ToggledStore(tasks, id), id) == tasks
  {
    var once := ToggledStore(tasks, id);
    if HasId(tasks, id) {
      var i := FindIndex(tasks, id).value;
      assert once[i].id == id;
      assert forall j :: 0 <= j < i ==> once[j] == tasks[j];
      assert FindIndex(once, id) == Some(i);
    } else {
      assert once == tasks;
    }
  }

  /** A minted id is never empty, so the in-memory store keeps it rather than naming the task itself. */
  lemma MintedIdKept(body: CreateBody, now: nat, counter: Counter)
    requires ValidateCreate(body, now).Ok?
    ensures var t := ValidateCreate(body, now).value;
      t.(id := if t.id != "" then t.id else counter.Text()) == t
  {
  }

  /** A toggle against the SQL store that finds no row to change answers 500, not 404. */
  lemma SqlToggleOfVanishedTask(id: string, p: Patch)
    ensures ToggleReply(SqlStore.UpdateOutcome(id, p, SqlStore.RunDone(0))) == Fail(500, ToggleFailed)
  {
  }

  /** An update or delete against the SQL store that changes no row answers 404. */
  lemma SqlMissingRowIs404(id: string, p: Patch)
    ensures UpdateReply(SqlStore.UpdateOutcome(id, p, SqlStore.RunDone(0))) == Fail(404, NotFound)
    ensures DeleteReply(SqlStore.DeleteOutcome(id, SqlStore.RunDone(0))) == Fail(404, NotFound)
  {
  }

  /** The API, handed the in-memory store as its database. */
  class App {
    const db: MockDatabase

    constructor (db: MockDatabase)
      ensures this.db == db
    {
      this.db := db;
    }

    method GetTasks() returns (reply: Reply<seq<Task>>)
      ensures reply == Reply(200, Payload(db.tasks))
    {
      var tasks := db.GetAllTasks();
      reply := ListReply(Ok(tasks));
    }

    method GetTasksByDate(date: string) returns (reply: Reply<seq<Task>>)
      ensures reply == Reply(200, Payload(WithDate(db.tasks, date)))
    {
      var tasks := db.GetTasksByDate(date);
      reply := ByDateReply(Ok(tasks));
    }

    /** POST: a rejected body leaves the store untouched; an accepted one is appended as validated. */
    method PostTask(body: CreateBody, now: nat) returns (reply: Reply<Task>)
      requires db.Valid()
      modifies db
      ensures db.Valid()
      ensures ValidateCreate(body, now).Err? ==>
        reply == Fail(400, Required) && db.tasks == old(db.tasks) && db.nextId == old(db.nextId)
      ensures ValidateCreate(body, now).Ok? ==>
        var t := ValidateCreate(body, now).value;
        && reply == Reply(201, Payload(t))
        && db.tasks == old(db.tasks) + [t]
        && db.nextId == old(db.nextId).Next()
    {
      var checked := ValidateCreate(body, now);
      match checked
      case Err(r) =>
        reply := r;
      case Ok(t) =>
        MintedIdKept(body, now, db.nextId);
        var created := db.CreateTask(t);
        reply := CreateReply(Ok(created));
    }

    /** PUT: the body goes to the store unchanged; an unknown id is a 404. */
    method PutTask(id: string, updates: Patch) returns (reply: Reply<Task>)
      requires db.Valid()
      modifies db
      ensures db.Valid() && db.nextId == old(db.nextId)
      ensures !HasId(old(db.tasks), id) ==> reply == Fail(404, NotFound) && db.tasks == old(db.tasks)
      ensures HasId(old(db.tasks), id) ==>
        var i := FindIndex(old(db.tasks), id).value;
        && reply == Reply(200, Payload(Merge(old(db.tasks)[i], updates)))
        && db.tasks == old(db.tasks)[i := Merge(old(db.tasks)[i], updates)]
    {
      var updated := db.UpdateTask(id, updates);
      reply := UpdateReply(updated);
    }

    /** PATCH toggle: reads the list, then writes the negated flag of the task it found. */
    method ToggleTask(id: string) returns (reply: Reply<Task>)
      requires db.Valid()
      modifies db
      ensures db.Valid() && db.nextId == old(db.nextId)
      ensures db.tasks == ToggledStore(old(db.tasks), id)
      ensures !HasId(old(db.tasks), id) ==> reply == Fail(404, NotFound)
      ensures HasId(old(db.tasks), id) ==>
        reply == Reply(200, Payload(db.tasks[FindIndex(old(db.tasks), id).value]))
    {
      var listed := db.GetAllTasks();
      var step := PlanToggle(Ok(listed), id);
      match step
      case Answer(r) =>
        reply := r;
      case Write(p) =>
        var updated := db.UpdateTask(id, p);
        reply := ToggleReply(updated);
    }

    /** DELETE: the first task with the id goes; an unknown id is a 404. */
    method DeleteTask(id: string) returns (reply: Reply<Deletion>)
      requires db.Valid()
      modifies db
      ensures db.Valid() && db.nextId == old(db.nextId)
      ensures !HasId(old(db.tasks), id) ==> reply == Fail(404, NotFound) && db.tasks == old(db.tasks)
      ensures HasId(old(db.tasks), id) ==>
        && reply == Reply(200, Payload(Deletion(true, id)))
        && db.tasks == RemoveAt(old(db.tasks), FindIndex(old(db.tasks), id).value)
    {
      var deleted := db.DeleteTask(id);
      reply := DeleteReply(deleted);
    }
  }
}
