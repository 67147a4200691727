/**
 * Properties that connect the pieces: a task the form emits is one the API
 * accepts unchanged, an added task shows on its day's list, and the API's
 * create-read-update-toggle-delete workflow against the in-memory store.
 */
module Integration {
  import opened Wrappers
  import opened JsText
  import opened TaskModel
  import MockStore
  import Server
  import TaskListView
  import LocalApp

  /**
   * The draft a non-blank submission emits passes the API's validation, and
   * the API stores its text as it is: it is already trimmed.
   */
  lemma EmittedDraftAccepted(input: string, day: string, now: nat)
    requires !AllWhite(input) && day != ""
    ensures var d := TaskListView.Submission(input, day).value;
      Server.ValidateCreate(Server.CreateBody(Some(d.text), Some(d.completed), Some(d.date)), now)
        == Ok(Task(NatToString(now), d.text, false, day))
  {
    var d := TaskListView.Submission(input, day).value;
    assert d == Draft(Trim(input), false, day) && d.text != "";
    TrimIdempotent(input);
    TrimEmptyIff(d.text);
    var body := Server.CreateBody(Some(d.text), Some(d.completed), Some(d.date));
    assert !Server.Falsy(body.text) && !Server.Falsy(body.date) && !AllWhite(body.text.value);
    var r := Server.ValidateCreate(body, now);
    assert r.Ok? && r.value == Task(NatToString(now), Trim(d.text), false, day);
  }

  /** A task added from the form shows at the end of its day's list, after the ones already there. */
  lemma AddedTaskShown(tasks: seq<Task>, input: string, day: string, id: string)
    requires !AllWhite(input)
    ensures var d := TaskListView.Submission(input, day).value;
      TaskListView.View(LocalApp.AddTask(tasks, d, id), day).shown
        == TaskListView.View(tasks, day).shown + [Task(id, d.text, false, day)]
  {
    var d := TaskListView.Submission(input, day).value;
    var t := Task(id, d.text, false, day);
    WithDateAppend(tasks, [t], day);
    assert WithDate([t], day) == [t];
  }

  /**
   * The whole life of one task through the API over an empty in-memory
   * store: created with the minted id, listed, listed for its day, updated,
   * toggled back, deleted, and the store is empty again.
   */
  method Workflow(app: Server.App, text: string, day: string, now: nat, newText: string)
      returns (created: Server.Reply<Task>, listed: Server.Reply<seq<Task>>, onDay: Server.Reply<seq<Task>>,
               updated: Server.Reply<Task>, toggled: Server.Reply<Task>, deleted: Server.Reply<Deletion>)
    requires app.db.Valid() && app.db.tasks == []
    requires !AllWhite(text) && day != ""
    modifies app.db
    ensures created == Server.Reply(201, Server.Payload(Task(NatToString(now), Trim(text), false, day)))
    ensures listed == Server.Reply(200, Server.Payload([created.body.value]))
    ensures onDay == Server.Reply(200, Server.Payload([created.body.value]))
    ensures updated == Server.Reply(200, Server.Payload(Task(NatToString(now), newText, true, day)))
    ensures toggled == Server.Reply(200, Server.Payload(Task(NatToString(now), newText, false, day)))
    ensures deleted == Server.Reply(200, Server.Payload(Deletion(true, NatToString(now))))
    ensures app.db.tasks == []
  {
    var id := NatToString(now);
    var body := Server.CreateBody(Some(text), Some(false), Some(day));
    created := app.PostTask(body, now);
    var t := Task(id, Trim(text), false, day);
    assert app.db.tasks == [t];
    listed := app.GetTasks();
    onDay := app.GetTasksByDate(day);
    WithDateAllOn(app.db.tasks, day);
    assert FindIndex(app.db.tasks, id) == Some(0);
    updated := app.PutTask(id, Patch(None, Some(newText), Some(true), None));
    assert app.db.tasks == [Task(id, newText, true, day)];
    toggled := app.ToggleTask(id);
    assert app.db.tasks == [Task(id, newText, false, day)];
    deleted := app.DeleteTask(id);
  }
}
