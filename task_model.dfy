/**
 * The one entity of the application, a dated to-do item, and the list
 * operations several components share.
 */
module TaskModel {
  import opened Wrappers

  /** A task record: `{id, text, completed, date}`, the date a `YYYY-MM-DD` string. */
  datatype Task = Task(id: string, text: string, completed: bool, date: string)

  /** A task without its id (`Omit<Task, 'id'>`), as the add-task form emits it. */
  datatype Draft = Draft(text: string, completed: bool, date: string)

  /**
   * A partial task: an update request body, in which each property may be
   * absent (`None`). Nothing stops a body from carrying an `id`.
   */
  datatype Patch = Patch(id: Option<string>, text: Option<string>, completed: Option<bool>, date: Option<string>)

  /** The message of the error both stores raise for an unknown id. */
  const NotFound := "Task not found"

  /** The result `{deleted: true, id}` of a successful delete. */
  datatype Deletion = Deletion(deleted: bool, id: string)

  /** `{...t, ...p}`: the properties `p` supplies override those of `t`. */
  function Merge(t: Task, p: Patch): Task {
    Task(p.id.GetOr(t.id), p.text.GetOr(t.text), p.completed.GetOr(t.completed), p.date.GetOr(t.date))
  }

  predicate HasId(tasks: seq<Task>, id: string) {
    exists i :: 0 <= i < |tasks| && tasks[i].id == id
  }

  /** No two tasks of the list share an id. */
  predicate UniqueIds(tasks: seq<Task>) {
    forall i, j :: 0 <= i < j < |tasks| ==> tasks[i].id != tasks[j].id
  }

  /** `tasks.findIndex(t => t.id === id)`, absent when no task has that id. */
  function FindIndex(tasks: seq<Task>, id: string): (r: Option<nat>)
    ensures r.None? <==> !HasId(tasks, id)
    ensures r.Some? ==> r.value < |tasks| && tasks[r.value].id == id
    ensures r.Some? ==> forall j :: 0 <= j < r.value ==> tasks[j].id != id
  {
    if tasks == [] then None
    else if tasks[0].id == id then Some(0)
    else match FindIndex(tasks[1..], id)
      case None => None
      case Some(k) => Some(k + 1)
  }

  /** `tasks.filter(t => t.date === date)`. */
  function WithDate(tasks: seq<Task>, date: string): (r: seq<Task>)
    ensures |r| <= |tasks|
    ensures forall t :: t in r <==> t in tasks && t.date == date
  {
    if tasks == [] then []
    else if tasks[0].date == date then [tasks[0]] + WithDate(tasks[1..], date)
    else WithDate(tasks[1..], date)
  }

  /** Filtering by date keeps the order of the list: it distributes over concatenation. */
  lemma {:induction false} WithDateAppend(a: seq<Task>, b: seq<Task>, date: string)
    ensures WithDate(a + b, date) == WithDate(a, date) + WithDate(b, date)
  {
    if a == [] {
      assert a + b == b;
    } else {
      var ab := a + b;
      assert ab[0] == a[0] && ab[1..] == a[1..] + b;
      WithDateAppend(a[1..], b, date);
    }
  }

  /** A list whose every task is on `date` filters to itself. */
  lemma {:induction false} WithDateAllOn(tasks: seq<Task>, date: string)
    requires forall i :: 0 <= i < |tasks| ==> tasks[i].date == date
    ensures WithDate(tasks, date) == tasks
  {
    if tasks != [] {
      WithDateAllOn(tasks[1..], date);
    }
  }

  /** A list with no task on `date` filters to nothing. */
  lemma {:induction false} WithDateNoneOn(tasks: seq<Task>, date: string)
    requires forall i :: 0 <= i < |tasks| ==> tasks[i].date != date
    ensures WithDate(tasks, date) == []
  {
    if tasks != [] {
      WithDateNoneOn(tasks[1..], date);
    }
  }

  /** `tasks.filter(t => t.id !== id)`. */
  function WithoutId(tasks: seq<Task>, id: string): (r: seq<Task>)
    ensures |r| <= |tasks|
    ensures forall t :: t in r <==> t in tasks && t.id != id
  {
    if tasks == [] then []
    else if tasks[0].id != id then [tasks[0]] + WithoutId(tasks[1..], id)
    else WithoutId(tasks[1..], id)
  }

  /** Removing by id keeps the order of the rest: it distributes over concatenation. */
  lemma {:induction false} WithoutIdAppend(a: seq<Task>, b: seq<Task>, id: string)
    ensures WithoutId(a + b, id) == WithoutId(a, id) + WithoutId(b, id)
  {
    if a == [] {
      assert a + b == b;
    } else {
      var ab := a + b;
      assert ab[0] == a[0] && ab[1..] == a[1..] + b;
      WithoutIdAppend(a[1..], b, id);
    }
  }

  /** Removing an id no task carries leaves the list as it was. */
  lemma {:induction false} WithoutAbsentId(tasks: seq<Task>, id: string)
    requires !HasId(tasks, id)
    ensures WithoutId(tasks, id) == tasks
  {
    if tasks != [] {
      assert tasks[0].id != id;
      assert !HasId(tasks[1..], id);
      WithoutAbsentId(tasks[1..], id);
    }
  }

  /** `s.splice(i, 1)`: `s` without its element at `i`. */
  function RemoveAt<T>(s: seq<T>, i: nat): (r: seq<T>)
    requires i < |s|
    ensures |r| == |s| - 1
    ensures forall j :: 0 <= j < i ==> r[j] == s[j]
    ensures forall j :: i <= j < |r| ==> r[j] == s[j + 1]
  {
    s[..i] + s[i + 1..]
  }

  /** The number of completed tasks in the list. */
  function CompletedCount(tasks: seq<Task>): (n: nat)
    ensures n <= |tasks|
    ensures n == 0 <==> forall i :: 0 <= i < |tasks| ==> !tasks[i].completed
    ensures n == |tasks| <==> forall i :: 0 <= i < |tasks| ==> tasks[i].completed
  {
    if tasks == [] then 0
    else (if tasks[0].completed then 1 else 0) + CompletedCount(tasks[1..])
  }

  /**
   * The count is additive over concatenation and a single task counts one
   * exactly when it is completed, so it is the length of the filtered list.
   */
  lemma {:induction false} CompletedCountAppend(a: seq<Task>, b: seq<Task>)
    ensures CompletedCount(a + b) == CompletedCount(a) + CompletedCount(b)
    ensures forall t :: CompletedCount([t]) == if t.completed then 1 else 0
  {
    if a == [] {
      assert a + b == b;
    } else {
      var ab := a + b;
      assert ab[0] == a[0] && ab[1..] == a[1..] + b;
      CompletedCountAppend(a[1..], b);
    }
  }
}
