/**
 * The SQLite-backed task store: how it encodes a task into statement
 * parameters, how it assembles the SET list of an UPDATE from a partial
 * task, how it decodes rows, and how it turns the statement's outcome into
 * a result. Running the statements is left to SQLite and not modelled; the
 * meaning of the UPDATE on a row is given by `ApplySet`.
 */
module SqlStore {
  import opened Wrappers
  import opened TaskModel

  /** A value bound to a `?` placeholder. */
  datatype SqlValue = SqlText(text: string) | SqlInt(number: int)

  /** A row of the `tasks` table; `completed` holds an integer. */
  datatype Row = Row(id: string, text: string, completed: int, date: string, createdAt: string, updatedAt: string)

  /** A row as the store hands it out: `{...row, completed: Boolean(row.completed)}`. */
  datatype StoredTask = StoredTask(id: string, text: string, completed: bool, date: string, createdAt: string, updatedAt: string)

  /** The outcome of `db.run`: an error, or the number of rows it changed (`this.changes`). */
  datatype RunResult = RunFailed(message: string) | RunDone(changes: nat)

  /** `Boolean(n)` for an integer column value. */
  predicate Truthy(n: int) {
    n != 0
  }

  /** `completed ? 1 : 0`: the column value that reads back as `completed`. */
  function CompletedValue(completed: bool): (n: int)
    ensures n == 0 || n == 1
    ensures Truthy(n) == completed
  {
    if completed then 1 else 0
  }

  /** A row the store itself wrote: `completed` is 0 or 1. */
  predicate WellFormed(row: Row) {
    row.completed == 0 || row.completed == 1
  }

  /** The conversion `getAllTasks` and `getTasksByDate` apply to every row. */
  function DecodeRow(row: Row): (t: StoredTask)
    ensures t.completed == Truthy(row.completed)
    ensures t.id == row.id && t.text == row.text && t.date == row.date
    ensures t.createdAt == row.createdAt && t.updatedAt == row.updatedAt
  {
    StoredTask(row.id, row.text, Truthy(row.completed), row.date, row.createdAt, row.updatedAt)
  }

  /** `rows.map(row => ({...row, completed: Boolean(row.completed)}))`. */
  function DecodeRows(rows: seq<Row>): (r: seq<StoredTask>)
    ensures |r| == |rows|
    ensures forall i :: 0 <= i < |rows| ==> r[i] == DecodeRow(rows[i])
  {
    if rows == [] then [] else [DecodeRow(rows[0])] + DecodeRows(rows[1..])
  }

  /** The row that holds a stored task. */
  function EncodeRow(t: StoredTask): Row {
    Row(t.id, t.text, CompletedValue(t.completed), t.date, t.createdAt, t.updatedAt)
  }

  /** Decoding undoes encoding, and encoding undoes decoding on the rows the store writes. */
  lemma RowRoundTrip(t: StoredTask, row: Row)
    ensures DecodeRow(EncodeRow(t)) == t
    ensures WellFormed(row) ==> EncodeRow(DecodeRow(row)) == row
  {
  }

  /** Decoding a table keeps its order and undoes the encoding of each row. */
  lemma {:induction false} RowsRoundTrip(ts: seq<StoredTask>)
    ensures DecodeRows(seq(|ts|, i requires 0 <= i < |ts| => EncodeRow(ts[i]))) == ts
  {
    var rows := seq(|ts|, i requires 0 <= i < |ts| => EncodeRow(ts[i]));
    var r := DecodeRows(rows);
    forall i | 0 <= i < |ts| ensures r[i] == ts[i] {
      RowRoundTrip(ts[i], rows[i]);
    }
  }

  /** The visible task of a stored one, without its timestamps. */
  function AsTask(t: StoredTask): Task {
    Task(t.id, t.text, t.completed, t.date)
  }

  // ----- createTask -----

  const InsertQuery := "INSERT INTO tasks (id, text, completed, date) VALUES (?, ?, ?, ?)"

  /** The parameters `createTask` binds to `InsertQuery`, in column order. */
  function InsertParams(t: Task): seq<SqlValue> {
    [SqlText(t.id), SqlText(t.text), SqlInt(CompletedValue(t.completed)), SqlText(t.date)]
  }

  /**
   * The row the INSERT writes: the four columns from the parameters in the
   * order `InsertQuery` lists them, both timestamps defaulting to `now`.
   */
  function InsertedRow(params: seq<SqlValue>, now: string): Option<Row> {
    if |params| == 4 && params[0].SqlText? && params[1].SqlText? && params[2].SqlInt? && params[3].SqlText?
    then Some(Row(params[0].text, params[1].text, params[2].number, params[3].text, now, now))
    else None
  }

  /** A created task reads back, once decoded, as itself, and its row stores `completed` as 0 or 1. */
  lemma CreateReadsBack(t: Task, now: string)
    ensures InsertedRow(InsertParams(t), now).Some?
    ensures WellFormed(InsertedRow(InsertParams(t), now).value)
    ensures AsTask(DecodeRow(InsertedRow(InsertParams(t), now).value)) == t
  {
  }

  /** `createTask` resolves with `{id, text, completed, date}` exactly as given, or rejects with the error. */
  function CreateOutcome(t: Task, run: RunResult): (r: Result<Task, string>)
    ensures r.Ok? <==> run.RunDone?
    ensures r.Ok? ==> r.value == t
    ensures r.Err? ==> r.error == run.message
  {
    match run
    case RunFailed(message) => Err(message)
    case RunDone(_) => Ok(t)
  }

  // ----- updateTask -----

  /** The columns an update may set, in the order `updateTask` tests them. */
  datatype Column = TextColumn | CompletedColumn | DateColumn

  /** One entry of the SET list: `<column> = ?`, or the timestamp refresh. */
  datatype Clause = Assign(column: Column) | Touch

  const BindSuffix := " = ?"
  const Separator := ", "
  const SetPrefix := "UPDATE tasks SET "
  const WhereId := " WHERE id"
  const WhereById := WhereId + BindSuffix
  // The refresh is kept as a concatenation: as a single literal the
  // verifier unfolds `CountParams` on it character by character wherever a
  // clause may be the refresh.
  const TimestampClause := "updated_at" + " = CURRENT_TIMESTAMP"

  function ColumnName(c: Column): string {
    match c
    case TextColumn => "text"
    case CompletedColumn => "completed"
    case DateColumn => "date"
  }

  /** The text of a clause as it appears in the statement. */
  function ClauseText(c: Clause): string {
    match c
    case Assign(column) => ColumnName(column) + BindSuffix
    case Touch => TimestampClause
  }

  /** The number of `?` placeholders in a statement's text. */
  function CountParams(s: string): nat {
    if s == [] then 0 else (if s[0] == '?' then 1 else 0) + CountParams(s[1..])
  }

  lemma {:induction false} CountParamsAppend(a: string, b: string)
    ensures CountParams(a + b) == CountParams(a) + CountParams(b)
  {
    if a == [] {
      assert a + b == b;
    } else {
      CountParamsAppend(a[1..], b);
      assert (a + b)[1..] == a[1..] + b;
    }
  }

  lemma CountParamsOfPieces(a: string, b: string, c: string)
    ensures CountParams(a + b + c) == CountParams(a) + CountParams(b) + CountParams(c)
  {
    CountParamsAppend(a, b);
    CountParamsAppend(a + b, c);
  }

  /**
   * A text without a `?` has no placeholder. The counts of the statement's
   * literal pieces go through this lemma: unfolding `CountParams` on a
   * literal of more than a few characters is beyond the verifier's budget.
   */
  lemma {:induction false} NoParams(s: string)
    requires '?' !in s
    ensures CountParams(s) == 0
  {
    if s != [] {
      assert s == [s[0]] + s[1..];
      NoParams(s[1..]);
    }
  }

  /** `" = ?"` has exactly one placeholder. */
  lemma BindSuffixParams()
    ensures CountParams(BindSuffix) == 1
  {
    NoParams(" = ");
    assert BindSuffix == " = " + "?";
    CountParamsAppend(" = ", "?");
  }

  /** The WHERE clause carries one placeholder, the id's. */
  lemma WhereByIdParams()
    ensures CountParams(WhereById) == 1
  {
    NoParams(WhereId);
    BindSuffixParams();
    CountParamsAppend(WhereId, BindSuffix);
  }

  /** The statement's head and the list separator carry no placeholder. */
  lemma SetPrefixParams()
    ensures CountParams(SetPrefix) == 0
  {
    NoParams(SetPrefix);
  }

  lemma SeparatorParams()
    ensures CountParams(Separator) == 0
  {
    NoParams(Separator);
  }

  /** A column clause carries one placeholder, the timestamp clause none. */
  lemma ClauseParams(c: Clause)
    ensures CountParams(ClauseText(c)) == if c.Assign? then 1 else 0
  {
    match c
    case Assign(column) =>
      NoParams(ColumnName(column));
      BindSuffixParams();
      CountParamsAppend(ColumnName(column), BindSuffix);
    case Touch =>
      NoParams(TimestampClause);
  }

  /** `fields.join(", ")`. */
  function SetList(fields: seq<Clause>): string {
    if fields == [] then ""
    else if |fields| == 1 then ClauseText(fields[0])
    else SetList(fields[..|fields| - 1]) + Separator + ClauseText(fields[|fields| - 1])
  }

  /** The number of column clauses, each of which takes one parameter. */
  function AssignCount(fields: seq<Clause>): nat {
    if fields == [] then 0 else (if fields[0].Assign? then 1 else 0) + AssignCount(fields[1..])
  }

  lemma {:induction false} AssignCountAppend(a: seq<Clause>, b: seq<Clause>)
    ensures AssignCount(a + b) == AssignCount(a) + AssignCount(b)
  {
    if a == [] {
      assert a + b == b;
    } else {
      AssignCountAppend(a[1..], b);
      assert (a + b)[1..] == a[1..] + b;
    }
  }

  /** The SET list has one placeholder per column clause. */
  lemma {:induction false} SetListParams(fields: seq<Clause>)
    ensures CountParams(SetList(fields)) == AssignCount(fields)
  {
    if |fields| == 1 {
      ClauseParams(fields[0]);
    } else if |fields| > 1 {
      var init, last := fields[..|fields| - 1], fields[|fields| - 1];
      assert fields == init + [last];
      SetListParams(init);
      SeparatorParams();
      ClauseParams(last);
      CountParamsOfPieces(SetList(init), Separator, ClauseText(last));
      AssignCountAppend(init, [last]);
    }
  }

  /** An UPDATE statement has one placeholder per column clause and one for the id. */
  lemma StatementParams(fields: seq<Clause>)
    ensures CountParams(SetPrefix + SetList(fields) + WhereById) == AssignCount(fields) + 1
  {
    SetListParams(fields);
    SetPrefixParams();
    WhereByIdParams();
    CountParamsOfPieces(SetPrefix, SetList(fields), WhereById);
  }

  /** The position of a clause in the order `updateTask` emits them. */
  function Rank(c: Clause): nat {
    match c
    case Assign(TextColumn) => 0
    case Assign(CompletedColumn) => 1
    case Assign(DateColumn) => 2
    case Touch => 3
  }

  /** Binds one parameter to one column; `None` when the value does not fit the column. */
  function AssignColumn(row: Row, column: Column, v: SqlValue): Option<Row> {
    match (column, v)
    case (TextColumn, SqlText(s)) => Some(row.(text := s))
    case (CompletedColumn, SqlInt(n)) => Some(row.(completed := n))
    case (DateColumn, SqlText(s)) => Some(row.(date := s))
    case _ => None
  }

  /**
   * What `UPDATE tasks SET <fields> ...` does to a matching row when the
   * placeholders of `fields` are bound in order to `params`; `None` when
   * clauses and parameters do not line up. `now` is `CURRENT_TIMESTAMP`.
   */
  function ApplySet(row: Row, fields: seq<Clause>, params: seq<SqlValue>, now: string): Option<Row>
    decreases fields
  {
    if fields == [] then (if params == [] then Some(row) else None)
    else match fields[0]
      case Touch => ApplySet(row.(updatedAt := now), fields[1..], params, now)
      case Assign(column) =>
        if params == [] then None
        else match AssignColumn(row, column, params[0])
          case None => None
          case Some(next) => ApplySet(next, fields[1..], params[1..], now)
  }

  /**
   * The row an update is meant to leave: each supplied column replaced
   * (`completed` as 0 or 1), the update timestamp refreshed, the id and the
   * creation time kept. An `id` in the update is not written.
   */
  function UpdatedRow(row: Row, updates: Patch, now: string): Row {
    Row(row.id,
        updates.text.GetOr(row.text),
        if updates.completed.Some? then CompletedValue(updates.completed.value) else row.completed,
        updates.date.GetOr(row.date),
        row.createdAt,
        now)
  }

  /** An update that supplies no column changes nothing but the update timestamp. */
  lemma EmptyUpdateTouchesTimestamp(row: Row, id: Option<string>, now: string)
    ensures UpdatedRow(row, Patch(id, None, None, None), now) == row.(updatedAt := now)
  {
  }

  /** The clause and the parameter for one optional column. */
  function ColumnClauses(column: Column, v: Option<SqlValue>): seq<Clause> {
    if v.Some? then [Assign(column)] else []
  }

  function ColumnParams(v: Option<SqlValue>): seq<SqlValue> {
    if v.Some? then [v.value] else []
  }

  lemma ApplyColumn(row: Row, column: Column, v: Option<SqlValue>, rest: seq<Clause>, ps: seq<SqlValue>, now: string)
    requires v.Some? ==> AssignColumn(row, column, v.value).Some?
    ensures ApplySet(row, ColumnClauses(column, v) + rest, ColumnParams(v) + ps, now)
         == ApplySet(if v.Some? then AssignColumn(row, column, v.value).value else row, rest, ps, now)
  {
    if v.Some? {
      var fields, params := [Assign(column)] + rest, [v.value] + ps;
      assert fields[0] == Assign(column) && fields[1..] == rest;
      assert params[0] == v.value && params[1..] == ps;
    } else {
      assert ColumnClauses(column, v) + rest == rest;
      assert ColumnParams(v) + ps == ps;
    }
  }

  function TextParam(updates: Patch): Option<SqlValue> {
    if updates.text.Some? then Some(SqlText(updates.text.value)) else None
  }

  function CompletedParam(updates: Patch): Option<SqlValue> {
    if updates.completed.Some? then Some(SqlInt(CompletedValue(updates.completed.value))) else None
  }

  function DateParam(updates: Patch): Option<SqlValue> {
    if updates.date.Some? then Some(SqlText(updates.date.value)) else None
  }

  /** The SET list `updateTask` builds for an update. */
  function UpdateClauses(updates: Patch): seq<Clause> {
    ColumnClauses(TextColumn, TextParam(updates))
    + (ColumnClauses(CompletedColumn, CompletedParam(updates))
    + (ColumnClauses(DateColumn, DateParam(updates)) + [Touch]))
  }

  /** The parameters bound to the SET list, before the id. */
  function UpdateParams(updates: Patch): seq<SqlValue> {
    ColumnParams(TextParam(updates)) + (ColumnParams(CompletedParam(updates)) + ColumnParams(DateParam(updates)))
  }

  /** Executing the SET list with its parameters leaves exactly `UpdatedRow`. */
  lemma ApplyUpdate(row: Row, updates: Patch, now: string)
    ensures ApplySet(row, UpdateClauses(updates), UpdateParams(updates), now) == Some(UpdatedRow(row, updates, now))
  {
    var t, c, d := TextParam(updates), CompletedParam(updates), DateParam(updates);
    var r1 := if t.Some? then AssignColumn(row, TextColumn, t.value).value else row;
    var r2 := if c.Some? then AssignColumn(r1, CompletedColumn, c.value).value else r1;
    var r3 := if d.Some? then AssignColumn(r2, DateColumn, d.value).value else r2;
    ApplyColumn(row, TextColumn, t, ColumnClauses(CompletedColumn, c) + (ColumnClauses(DateColumn, d) + [Touch]),
      ColumnParams(c) + ColumnParams(d), now);
    assert ColumnParams(d) + [] == ColumnParams(d);
    ApplyColumn(r1, CompletedColumn, c, ColumnClauses(DateColumn, d) + [Touch], ColumnParams(d), now);
    ApplyColumn(r2, DateColumn, d, [Touch], [], now);
    assert ApplySet(r3, [Touch], [], now) == Some(r3.(updatedAt := now));
  }

  /** Every update's SET list has one parameter per column clause. */
  lemma UpdateClauseParams(updates: Patch)
    ensures AssignCount(UpdateClauses(updates)) == |UpdateParams(updates)|
  {
    var c, d := ColumnClauses(CompletedColumn, CompletedParam(updates)), ColumnClauses(DateColumn, DateParam(updates));
    AssignCountAppend(d, [Touch]);
    AssignCountAppend(c, d + [Touch]);
    AssignCountAppend(ColumnClauses(TextColumn, TextParam(updates)), c + (d + [Touch]));
  }

  /** The SET list names each supplied column once, in the fixed order, and ends with the timestamp clause. */
  lemma UpdateClausesShape(updates: Patch)
    ensures |UpdateClauses(updates)| >= 1 && UpdateClauses(updates)[|UpdateClauses(updates)| - 1] == Touch
    ensures Assign(TextColumn) in UpdateClauses(updates) <==> updates.text.Some?
    ensures Assign(CompletedColumn) in UpdateClauses(updates) <==> updates.completed.Some?
    ensures Assign(DateColumn) in UpdateClauses(updates) <==> updates.date.Some?
    ensures forall i, j :: 0 <= i < j < |UpdateClauses(updates)| ==> Rank(UpdateClauses(updates)[i]) < Rank(UpdateClauses(updates)[j])
  {
  }

  /** The statement of an update has one placeholder per parameter, the id included. */
  lemma UpdateStatementParams(updates: Patch)
    ensures CountParams(SetPrefix + SetList(UpdateClauses(updates)) + WhereById) == |UpdateParams(updates)| + 1
  {
    UpdateClauseParams(updates);
    StatementParams(UpdateClauses(updates));
  }

  /**
   * What the statement of an update promises: one placeholder per parameter,
   * the id as the last parameter, a clause for each supplied column and for
   * no other in the fixed order text, completed, date, the timestamp clause
   * last, and executing the SET list leaves `UpdatedRow`.
   */
  lemma UpdateStatement(id: string, updates: Patch)
    ensures var fields, values := UpdateClauses(updates), UpdateParams(updates) + [SqlText(id)];
      && CountParams(SetPrefix + SetList(fields) + WhereById) == |values|
      && values[|values| - 1] == SqlText(id)
      && |fields| >= 1 && fields[|fields| - 1] == Touch
      && (Assign(TextColumn) in fields <==> updates.text.Some?)
      && (Assign(CompletedColumn) in fields <==> updates.completed.Some?)
      && (Assign(DateColumn) in fields <==> updates.date.Some?)
      && (forall i, j :: 0 <= i < j < |fields| ==> Rank(fields[i]) < Rank(fields[j]))
      && (forall row: Row, now: string :: ApplySet(row, fields, values[..|values| - 1], now) == Some(UpdatedRow(row, updates, now)))
  {
    var fields, values := UpdateClauses(updates), UpdateParams(updates) + [SqlText(id)];
    UpdateClausesShape(updates);
    UpdateStatementParams(updates);
    assert values[..|values| - 1] == UpdateParams(updates);
    forall row: Row, now: string
      ensures ApplySet(row, fields, values[..|values| - 1], now) == Some(UpdatedRow(row, updates, now))
    {
      ApplyUpdate(row, updates, now);
    }
  }

  /** One `if (updates.x !== undefined)` step: push the column's clause and its value when it is supplied. */
  method PushColumn(fields: seq<Clause>, values: seq<SqlValue>, column: Column, v: Option<SqlValue>)
    returns (fields': seq<Clause>, values': seq<SqlValue>)
    ensures fields' == fields + ColumnClauses(column, v)
    ensures values' == values + ColumnParams(v)
  {
    fields', values' := fields, values;
    if v.Some? {
      fields' := fields' + [Assign(column)];
      values' := values' + [v.value];
    }
  }

  /**
   * How `updateTask` assembles the SET list, the parameter vector and the
   * statement: the clauses and parameters of `UpdateClauses` and
   * `UpdateParams`, then the id for the WHERE clause; `UpdateStatement`
   * states what that statement promises.
   */
  method BuildUpdate(id: string, updates: Patch) returns (fields: seq<Clause>, values: seq<SqlValue>, query: string)
    ensures fields == UpdateClauses(updates)
    ensures values == UpdateParams(updates) + [SqlText(id)]
    ensures query == SetPrefix + SetList(fields) + WhereById
  {
    ghost var tc, cc, dc := ColumnClauses(TextColumn, TextParam(updates)),
      ColumnClauses(CompletedColumn, CompletedParam(updates)), ColumnClauses(DateColumn, DateParam(updates));
    ghost var tp, cp, dp := ColumnParams(TextParam(updates)), ColumnParams(CompletedParam(updates)),
      ColumnParams(DateParam(updates));
    fields, values := PushColumn([], [], TextColumn, TextParam(updates));
    assert fields == tc && values == tp;
    fields, values := PushColumn(fields, values, CompletedColumn, CompletedParam(updates));
    fields, values := PushColumn(fields, values, DateColumn, DateParam(updates));
    assert fields + [Touch] == tc + (cc + (dc + [Touch]));
    assert values == tp + (cp + dp);
    fields := fields + [Touch];
    values := values + [SqlText(id)];
    query := SetPrefix + SetList(fields) + WhereById;
  }

  /**
   * `updateTask` resolves with `{id, ...updates}` (the supplied properties
   * only, not the merged row) when a row changed, and rejects with "Task not
   * found" when none did.
   */
  function UpdateOutcome(id: string, updates: Patch, run: RunResult): (r: Result<Patch, string>)
    ensures run.RunFailed? ==> r == Err(run.message)
    ensures run == RunDone(0) ==> r == Err(NotFound)
    ensures run.RunDone? && run.changes > 0 ==> r == Ok(updates.(id := Some(updates.id.GetOr(id))))
  {
    match run
    case RunFailed(message) => Err(message)
    case RunDone(changes) =>
      if changes == 0 then Err(NotFound) else Ok(updates.(id := Some(updates.id.GetOr(id))))
  }

  /** `deleteTask` resolves with `{deleted: true, id}` when a row went, and rejects with "Task not found" when none did. */
  function DeleteOutcome(id: string, run: RunResult): (r: Result<Deletion, string>)
    ensures run.RunFailed? ==> r == Err(run.message)
    ensures run == RunDone(0) ==> r == Err(NotFound)
    ensures run.RunDone? && run.changes > 0 ==> r == Ok(Deletion(true, id))
  {
    match run
    case RunFailed(message) => Err(message)
    case RunDone(changes) => if changes == 0 then Err(NotFound) else Ok(Deletion(true, id))
  }

  /**
   * On the visible columns the SQL update agrees with the in-memory store's
   * merge, except that it never takes an id from the update.
   */
  lemma UpdateAgreesWithMerge(t: StoredTask, updates: Patch, now: string)
    ensures AsTask(DecodeRow(UpdatedRow(EncodeRow(t), updates, now))) == Merge(AsTask(t), updates.(id := None))
    ensures DecodeRow(UpdatedRow(EncodeRow(t), updates, now)).id == t.id
  {
  }
}
