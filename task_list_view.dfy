/**
 * The task list of the selected day: which tasks it shows, the count
 * label, the empty state and the summary, and the add-task form whose
 * submission is guarded by the trimmed input.
 */
module TaskListView {
  import opened Wrappers
  import opened JsText
  import opened TaskModel

  /** `{n} task{n !== 1 ? 's' : ''}`. */
  function CountLabel(n: nat): (s: string)
    ensures |s| > |NatToString(n)| && s[..|NatToString(n)|] == NatToString(n)
    ensures s[|NatToString(n)|..] == " task" || s[|NatToString(n)|..] == " tasks"
    ensures s[|s| - 1] == 's' <==> n != 1
  {
    NatToString(n) + " task" + (if n != 1 then "s" else "")
  }

  /** What the list renders for the selected day, given the tasks and that day's `YYYY-MM-DD` string. */
  datatype DayView = DayView(shown: seq<Task>, countLabel: string, showEmpty: bool, showSummary: bool, completedShown: nat)

  /**
   * The day's tasks in list order, their count label, the "No tasks for this
   * day" state when there are none, and otherwise the "k of n completed"
   * summary.
   */
  function View(tasks: seq<Task>, day: string): (v: DayView)
    ensures forall t :: t in v.shown <==> t in tasks && t.date == day
    ensures v.countLabel == CountLabel(|v.shown|)
    ensures v.showEmpty <==> v.shown == []
    ensures v.showSummary <==> v.shown != []
    ensures v.completedShown == CompletedCount(v.shown) <= |v.shown|
  {
    var shown := WithDate(tasks, day);
    DayView(shown, CountLabel(|shown|), |shown| == 0, |shown| > 0, CompletedCount(shown))
  }

  /** The day's list keeps the list order: two lists in a row show their day's tasks in a row. */
  lemma ViewOfAppend(a: seq<Task>, b: seq<Task>, day: string)
    ensures View(a + b, day).shown == View(a, day).shown + View(b, day).shown
  {
    WithDateAppend(a, b, day);
  }

  /** `disabled={!newTaskText.trim()}`. */
  predicate AddDisabled(input: string) {
    Trim(input) == ""
  }

  /** The Add button is disabled exactly when the input is all white space. */
  lemma AddDisabledIff(input: string)
    ensures AddDisabled(input) <==> AllWhite(input)
  {
    TrimEmptyIff(input);
  }

  /** The draft a submission emits: the trimmed text, not completed, on the day; nothing for a blank input. */
  function Submission(input: string, day: string): (r: Option<Draft>)
    ensures r.None? <==> AllWhite(input)
    ensures r.Some? ==> r.value == Draft(Trim(input), false, day) && r.value.text != ""
  {
    TrimEmptyIff(input);
    if Trim(input) != "" then Some(Draft(Trim(input), false, day)) else None
  }

  /** The add-task form and its text field. */
  class TaskForm {
    var newTaskText: string

    constructor ()
      ensures newTaskText == ""
    {
      newTaskText := "";
    }

    /** `onChange`: the field holds what was typed. */
    method Edit(text: string)
      modifies this
      ensures newTaskText == text
    {
      newTaskText := text;
    }

    /**
     * `handleAddTask`: emits the submission and clears the field, or, for a
     * blank field, emits nothing and keeps it.
     */
    method HandleAddTask(day: string) returns (emitted: Option<Draft>)
      modifies this
      ensures emitted == Submission(old(newTaskText), day)
      ensures emitted.Some? ==> newTaskText == ""
      ensures emitted.None? ==> newTaskText == old(newTaskText)
    {
      var trimmed := Trim(newTaskText);
      if trimmed != "" {
        emitted := Some(Draft(trimmed, false, day));
        newTaskText := "";
      } else {
        emitted := None;
      }
    }
  }
}
