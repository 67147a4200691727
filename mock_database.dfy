/**
 * The in-memory task store the backend's tests hand to the application in
 * place of the SQLite one: a list of task records and an id counter.
 */
module MockStore {
  import opened Wrappers
  import opened JsText
  import opened TaskModel

  /**
   * The `nextId` counter: a JavaScript number that is a positive integer, or
   * NaN once `seedData` has met an id that `parseInt` cannot read.
   */
  datatype Counter = Count(n: nat) | NotANumber {

    /** `nextId++`: NaN stays NaN. */
    function Next(): Counter {
      match this
      case Count(n) => Count(n + 1)
      case NotANumber => NotANumber
    }

    /** `nextId.toString()`. */
    function Text(): string {
      match this
      case Count(n) => NatToString(n)
      case NotANumber => "NaN"
    }
  }

  /**
   * `Math.max(...values, 0)` over numbers that may be NaN (`None`): NaN as
   * soon as one value is, otherwise the largest value or 0.
   */
  function MaxOrNaN(values: seq<Option<int>>): (r: Option<int>)
    ensures r.Some? <==> forall i :: 0 <= i < |values| ==> values[i].Some?
    ensures r.Some? ==> r.value >= 0
    ensures r.Some? ==> forall i :: 0 <= i < |values| ==> values[i].value <= r.value
    ensures r.Some? ==> r.value == 0 || exists i :: 0 <= i < |values| && values[i].value == r.value
  {
    if values == [] then Some(0)
    else
      var rest := values[1..];
      assert forall i :: 1 <= i < |values| ==> rest[i - 1] == values[i];
      match (values[0], MaxOrNaN(rest))
      case (Some(a), Some(b)) => Some(if a > b then a else b)
      case _ => None
  }

  /** `seed.map(t => parseInt(t.id))`. */
  function ParsedIds(seed: seq<Task>): (r: seq<Option<int>>)
    ensures |r| == |seed| && forall i :: 0 <= i < |seed| ==> r[i] == ParseInt(seed[i].id)
  {
    seq(|seed|, i requires 0 <= i < |seed| => ParseInt(seed[i].id))
  }

  /** The largest numeric id of a seed, or NaN (`None`) as soon as one id does not parse; 0 for no tasks. */
  function MaxParsedId(seed: seq<Task>): (r: Option<int>)
    ensures r.Some? <==> forall i :: 0 <= i < |seed| ==> ParseInt(seed[i].id).Some?
    ensures r.Some? ==> r.value >= 0
    ensures r.Some? ==> forall i :: 0 <= i < |seed| ==> ParseInt(seed[i].id).value <= r.value
    ensures r.Some? ==> r.value == 0 || exists i :: 0 <= i < |seed| && ParseInt(seed[i].id).value == r.value
  {
    MaxOrNaN(ParsedIds(seed))
  }

  /** The counter `seedData` leaves: one more than the largest id, or NaN. */
  function SeedCounter(seed: seq<Task>): (c: Counter) {
    match MaxParsedId(seed)
    case Some(m) => Count(m + 1)
    case None => NotANumber
  }

  /**
   * After seeding with tasks whose ids all parse as numbers, the next id the
   * store mints is carried by none of them.
   */
  lemma SeededIdIsFresh(seed: seq<Task>)
    requires SeedCounter(seed).Count?
    ensures forall i :: 0 <= i < |seed| ==> seed[i].id != SeedCounter(seed).Text()
  {
    var c := SeedCounter(seed);
    ParseIntNatToString(c.n);
  }

  /** Seeding with a task whose id `parseInt` reads as NaN makes the counter NaN; it then stays NaN. */
  lemma NonNumericSeedJamsCounter(seed: seq<Task>, k: nat)
    requires k < |seed| && ParseInt(seed[k].id).None?
    ensures SeedCounter(seed) == NotANumber && SeedCounter(seed).Next() == NotANumber
    ensures SeedCounter(seed).Text() == "NaN"
  {
  }

  /** A task appended with a fresh id and then deleted by that id leaves the list as it was. */
  lemma CreateThenDeleteRestores(tasks: seq<Task>, t: Task)
    requires !HasId(tasks, t.id)
    ensures FindIndex(tasks + [t], t.id) == Some(|tasks|)
    ensures RemoveAt(tasks + [t], |tasks|) == tasks
  {
    var s := tasks + [t];
    assert s[|tasks|].id == t.id;
    assert forall j :: 0 <= j < |tasks| ==> s[j] == tasks[j];
  }

  /** With unique ids, deleting the first task with an id leaves no task with it, and ids stay unique. */
  lemma DeleteRemovesId(tasks: seq<Task>, id: string)
    requires UniqueIds(tasks) && HasId(tasks, id)
    ensures !HasId(RemoveAt(tasks, FindIndex(tasks, id).value), id)
    ensures UniqueIds(RemoveAt(tasks, FindIndex(tasks, id).value))
  {
    var i := FindIndex(tasks, id).value;
    var r := RemoveAt(tasks, i);
    forall j | 0 <= j < |r| ensures r[j].id != id {
      if j < i { assert r[j] == tasks[j]; } else { assert r[j] == tasks[j + 1]; }
    }
    forall a, b | 0 <= a < b < |r| ensures r[a].id != r[b].id {
      var a' := if a < i then a else a + 1;
      var b' := if b < i then b else b + 1;
      assert r[a] == tasks[a'] && r[b] == tasks[b'];
    }
  }

  class MockDatabase {
    var tasks: seq<Task>
    var nextId: Counter

    /** The counter is never below 1. */
    ghost predicate Valid()
      reads this
    {
      nextId.Count? ==> nextId.n >= 1
    }

    constructor ()
      ensures Valid()
      ensures tasks == [] && nextId == Count(1)
    {
      tasks := [];
      nextId := Count(1);
    }

    /** `getAllTasks`: a copy of the stored list, in stored order. */
    method GetAllTasks() returns (r: seq<Task>)
      ensures r == tasks
    {
      r := tasks;
    }

    /** `getTasksByDate`: the stored tasks on `date`, in stored order. */
    method GetTasksByDate(date: string) returns (r: seq<Task>)
      ensures r == WithDate(tasks, date)
    {
      r := WithDate(tasks, date);
    }

    /**
     * `createTask`: appends the task, keeping its id when it has one and
     * otherwise naming it after the counter; the counter advances either way.
     * An absent and an empty id are alike here (`task.id || ...`). A
     * minted numeric id reads back as a positive number, since the counter
     * starts at 1 and only grows.
     */
    method CreateTask(task: Task) returns (created: Task)
      requires Valid()
      modifies this
      ensures Valid()
      ensures created == task.(id := if task.id != "" then task.id else old(nextId).Text())
      ensures tasks == old(tasks) + [created]
      ensures nextId == old(nextId).Next()
      ensures task.id == "" && old(nextId).Count? ==> ParseInt(created.id) == Some(old(nextId).n) && old(nextId).n >= 1
    {
      if nextId.Count? {
        ParseIntNatToString(nextId.n);
      }
      var id := if task.id != "" then task.id else nextId.Text();
      created := task.(id := id);
      tasks := tasks + [created];
      nextId := nextId.Next();
    }

    /**
     * `updateTask`: merges `updates` into the first task with `id` and
     * returns the merged task, or fails with "Task not found".
     */
    method UpdateTask(id: string, updates: Patch) returns (r: Result<Task, string>)
      requires Valid()
      modifies this
      ensures Valid() && nextId == old(nextId)
      ensures !HasId(old(tasks), id) ==> r == Err(NotFound) && tasks == old(tasks)
      ensures HasId(old(tasks), id) ==>
        var i := FindIndex(old(tasks), id).value;
        && r == Ok(Merge(old(tasks)[i], updates))
        && tasks == old(tasks)[i := r.value]
    {
      var index := FindIndex(tasks, id);
      if index.None? {
        return Err(NotFound);
      }
      var i := index.value;
      tasks := tasks[i := Merge(tasks[i], updates)];
      r := Ok(tasks[i]);
    }

    /**
     * `deleteTask`: removes the first task with `id` and returns
     * `{deleted: true, id}`, or fails with "Task not found".
     */
    method DeleteTask(id: string) returns (r: Result<Deletion, string>)
      requires Valid()
      modifies this
      ensures Valid() && nextId == old(nextId)
      ensures !HasId(old(tasks), id) ==> r == Err(NotFound) && tasks == old(tasks)
      ensures HasId(old(tasks), id) ==>
        && r == Ok(Deletion(true, id))
        && tasks == RemoveAt(old(tasks), FindIndex(old(tasks), id).value)
    {
      var index := FindIndex(tasks, id);
      if index.None? {
        return Err(NotFound);
      }
      tasks := RemoveAt(tasks, index.value);
      r := Ok(Deletion(true, id));
    }

    /** `reset`: no tasks, counter back to 1. */
    method Reset()
      modifies this
      ensures Valid()
      ensures tasks == [] && nextId == Count(1)
    {
      tasks := [];
      nextId := Count(1);
    }

    /** `seedData`: the given tasks, and the counter one past the largest numeric id. */
    method SeedData(seed: seq<Task>)
      modifies this
      ensures Valid()
      ensures tasks == seed && nextId == SeedCounter(seed)
      ensures seed == [] ==> nextId == Count(1)
    {
      tasks := seed;
      nextId := SeedCounter(seed);
    }
  }
}
