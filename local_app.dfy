/**
 * The state of the local-only app: the selected date and the task list,
 * with the list updaters its handlers hand to `setTasks`. Each updater is a
 * function from the previous list to the next.
 */
module LocalApp {
  import opened TaskModel
  import CalendarGrid

  datatype AppState = AppState(selectedDate: CalendarGrid.CalendarDate, tasks: seq<Task>)

  /** The two sample tasks the app starts with, both dated `today` (a `YYYY-MM-DD` string). */
  function InitialTasks(today: string): seq<Task> {
    [Task("1", "Sample task for today", false, today), Task("2", "Another task", true, today)]
  }

  /** The state on mount: today selected, the sample tasks listed. */
  function Initial(now: CalendarGrid.CalendarDate, today: string): (s: AppState)
    ensures s.selectedDate == now && s.tasks == InitialTasks(today)
  {
    AppState(now, InitialTasks(today))
  }

  /** The sample ids differ, both samples show on today's list, and one of them is done. */
  lemma InitialTasksShape(today: string)
    ensures UniqueIds(InitialTasks(today))
    ensures WithDate(InitialTasks(today), today) == InitialTasks(today)
    ensures CompletedCount(InitialTasks(today)) == 1
    ensures !InitialTasks(today)[0].completed && InitialTasks(today)[1].completed
  {
    var ts := InitialTasks(today);
    assert ts[0].id[0] == '1' && ts[1].id[0] == '2';
    WithDateAllOn(ts, today);
  }

  /** `handleDateSelect`: only the selected date changes. */
  function SelectDate(s: AppState, date: CalendarGrid.CalendarDate): (r: AppState)
    ensures r.tasks == s.tasks && r.selectedDate == date
  {
    s.(selectedDate := date)
  }

  /** `handleAddTask`: the draft with the given id appended; every earlier task stays in place. */
  function AddTask(tasks: seq<Task>, draft: Draft, id: string): (r: seq<Task>)
    ensures |r| == |tasks| + 1
    ensures r[..|tasks|] == tasks
    ensures r[|tasks|] == Task(id, draft.text, draft.completed, draft.date)
  {
    tasks + [Task(id, draft.text, draft.completed, draft.date)]
  }

  /** `{...task, completed: !task.completed}` for a task with the id, the task itself otherwise. */
  function Flip(t: Task, id: string): Task {
    if t.id == id then t.(completed := !t.completed) else t
  }

  /** `handleToggleTask`: every task with the id has its flag negated; nothing else changes. */
  function ToggleTask(tasks: seq<Task>, id: string): (r: seq<Task>)
    ensures |r| == |tasks|
    ensures forall i :: 0 <= i < |tasks| ==>
      if tasks[i].id == id then r[i] == tasks[i].(completed := !tasks[i].completed) else r[i] == tasks[i]
  {
    if tasks == [] then [] else [Flip(tasks[0], id)] + ToggleTask(tasks[1..], id)
  }

  /** Toggling the same id twice restores the list. */
  lemma ToggleTwice(tasks: seq<Task>, id: string)
    ensures ToggleTask(ToggleTask(tasks, id), id) == tasks
  {
  }

  /** Toggling commutes with the per-date filter: the day's view shows the toggled tasks. */
  lemma {:induction false} ToggleCommutesWithDate(tasks: seq<Task>, id: string, date: string)
    ensures WithDate(ToggleTask(tasks, id), date) == ToggleTask(WithDate(tasks, date), id)
  {
    if tasks != [] {
      var r := ToggleTask(tasks, id);
      assert r[1..] == ToggleTask(tasks[1..], id);
      assert r[0] == Flip(tasks[0], id);
      ToggleCommutesWithDate(tasks[1..], id, date);
    }
  }

  /** Deleting the id of a task just added, when no earlier task had it, restores the list. */
  lemma AddThenDelete(tasks: seq<Task>, draft: Draft, id: string)
    requires !HasId(tasks, id)
    ensures WithoutId(AddTask(tasks, draft, id), id) == tasks
  {
    var t := Task(id, draft.text, draft.completed, draft.date);
    WithoutIdAppend(tasks, [t], id);
    WithoutAbsentId(tasks, id);
    assert WithoutId([t], id) == [];
  }
}
