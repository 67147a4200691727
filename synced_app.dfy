/**
 * The state of the server-backed app: the task list, the loading flag and
 * the error message, and how each handler moves them once the server call
 * has settled. A call's outcome is an input; the network client is not part
 * of this model.
 */
module SyncedApp {
  import opened Wrappers
  import opened TaskModel
  import CalendarGrid
  import LocalApp

  /** What a rejected call threw: an `Error` with its message, or any other value. */
  datatype Rejection = ErrorObject(message: string) | OtherValue

  /** How a server call settled. */
  datatype Outcome<+T> = Resolved(value: T) | Rejected(reason: Rejection)

  const LoadFallback := "Failed to load tasks"
  const AddFallback := "Failed to add task"
  const ToggleFallback := "Failed to toggle task"
  const DeleteFallback := "Failed to delete task"

  /** `err instanceof Error ? err.message : fallback`. */
  function ErrorText(reason: Rejection, fallback: string): (s: string)
    ensures reason.ErrorObject? ==> s == reason.message
    ensures reason.OtherValue? ==> s == fallback
  {
    match reason
    case ErrorObject(message) => message
    case OtherValue => fallback
  }

  /** `{...task, completed}` for every task with the id: the server's flag replaces the local one. */
  function SetCompleted(tasks: seq<Task>, id: string, completed: bool): (r: seq<Task>)
    ensures |r| == |tasks|
    ensures forall i :: 0 <= i < |tasks| ==>
      if tasks[i].id == id then r[i] == tasks[i].(completed := completed) else r[i] == tasks[i]
  {
    if tasks == [] then []
    else [if tasks[0].id == id then tasks[0].(completed := completed) else tasks[0]]
         + SetCompleted(tasks[1..], id, completed)
  }

  /**
   * When the server has negated the flag of the one task with the id, taking
   * its flag gives the list the local-only app computes by toggling.
   */
  lemma ServerToggleMatchesLocal(tasks: seq<Task>, k: nat)
    requires UniqueIds(tasks) && k < |tasks|
    ensures SetCompleted(tasks, tasks[k].id, !tasks[k].completed) == LocalApp.ToggleTask(tasks, tasks[k].id)
  {
    var id := tasks[k].id;
    var r, l := SetCompleted(tasks, id, !tasks[k].completed), LocalApp.ToggleTask(tasks, id);
    forall i | 0 <= i < |tasks| ensures r[i] == l[i] {
      if tasks[i].id == id {
        assert i == k;
      }
    }
  }

  /** The app's state; `error` is `None` for `null`. */
  class App {
    var selectedDate: CalendarGrid.CalendarDate
    var tasks: seq<Task>
    var loading: bool
    var error: Option<string>

    /** On mount: today selected, no tasks, loading, no error. */
    constructor (today: CalendarGrid.CalendarDate)
      ensures selectedDate == today && tasks == [] && loading && error == None
    {
      selectedDate := today;
      tasks := [];
      loading := true;
      error := None;
    }

    /** `handleDateSelect`. */
    method SelectDate(date: CalendarGrid.CalendarDate)
      modifies this
      ensures selectedDate == date
      ensures tasks == old(tasks) && loading == old(loading) && error == old(error)
    {
      selectedDate := date;
    }

    /**
     * `loadTasks`: the server's list replaces the local one, or the error is
     * recorded and the list kept; loading ends either way.
     */
    method LoadTasks(outcome: Outcome<seq<Task>>)
      modifies this
      ensures !loading && selectedDate == old(selectedDate)
      ensures outcome.Resolved? ==> tasks == outcome.value && error == None
      ensures outcome.Rejected? ==> tasks == old(tasks) && error == Some(ErrorText(outcome.reason, LoadFallback))
    {
      loading := true;
      error := None;
      match outcome {
        case Resolved(all) =>
          tasks := all;
        case Rejected(reason) =>
          error := Some(ErrorText(reason, LoadFallback));
      }
      loading := false;
    }

    /** `handleAddTask`: the task the server created is appended, or the error is recorded. */
    method AddTask(outcome: Outcome<Task>)
      modifies this
      ensures loading == old(loading) && selectedDate == old(selectedDate)
      ensures outcome.Resolved? ==> tasks == old(tasks) + [outcome.value] && error == None
      ensures outcome.Rejected? ==> tasks == old(tasks) && error == Some(ErrorText(outcome.reason, AddFallback))
    {
      error := None;
      match outcome
      case Resolved(created) =>
        tasks := tasks + [created];
      case Rejected(reason) =>
        error := Some(ErrorText(reason, AddFallback));
    }

    /**
     * `handleToggleTask`, given the `completed` property of the task the
     * server returned: that flag goes onto every task with the id.
     */
    method ToggleTask(id: string, outcome: Outcome<bool>)
      modifies this
      ensures loading == old(loading) && selectedDate == old(selectedDate)
      ensures outcome.Resolved? ==> tasks == SetCompleted(old(tasks), id, outcome.value) && error == None
      ensures outcome.Rejected? ==> tasks == old(tasks) && error == Some(ErrorText(outcome.reason, ToggleFallback))
    {
      error := None;
      match outcome
      case Resolved(completed) =>
        tasks := SetCompleted(tasks, id, completed);
      case Rejected(reason) =>
        error := Some(ErrorText(reason, ToggleFallback));
    }

    /** `handleDeleteTask`: the tasks with the id go only once the server has deleted. */
    method DeleteTask(id: string, outcome: Outcome<Deletion>)
      modifies this
      ensures loading == old(loading) && selectedDate == old(selectedDate)
      ensures outcome.Resolved? ==> tasks == WithoutId(old(tasks), id) && error == None
      ensures outcome.Rejected? ==> tasks == old(tasks) && error == Some(ErrorText(outcome.reason, DeleteFallback))
    {
      error := None;
      match outcome
      case Resolved(_) =>
        tasks := WithoutId(tasks, id);
      case Rejected(reason) =>
        error := Some(ErrorText(reason, DeleteFallback));
    }
  }
}
