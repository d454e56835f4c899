/** The add-task form: the form record, its subtask list and the guarded
    handlers that edit and submit it. */
module AddTask {
  import opened Text
  import opened Tasks
  import Seqs

  datatype Subtask = Subtask(id: string, title: string, completed: bool)

  /** What the form submits. `priority` holds the select's value, normally
      'low', 'medium' or 'high'. */
  datatype TaskFormData = TaskFormData(
    title: string,
    description: string,
    dueDate: string,
    dueTime: string,
    priority: string,
    category: string,
    subtasks: seq<Subtask>)

  /** The named inputs of the form; `handleInputChange` writes the field an
      input is named after. */
  datatype Field = Title | Description | DueDate | DueTime | PriorityField | Category

  function GetField(d: TaskFormData, f: Field): string {
    match f
    case Title => d.title
    case Description => d.description
    case DueDate => d.dueDate
    case DueTime => d.dueTime
    case PriorityField => d.priority
    case Category => d.category
  }

  /** `{ ...prev, [name]: value }`: the named field takes the value and every
      other field, the subtasks included, keeps its value. */
  function SetField(d: TaskFormData, f: Field, v: string): (r: TaskFormData)
    ensures GetField(r, f) == v
    ensures forall g :: g != f ==> GetField(r, g) == GetField(d, g)
    ensures r.subtasks == d.subtasks
  {
    match f
    case Title => d.(title := v)
    case Description => d.(description := v)
    case DueDate => d.(dueDate := v)
    case DueTime => d.(dueTime := v)
    case PriorityField => d.(priority := v)
    case Category => d.(category := v)
  }

  /** Only the last of two edits to the same field counts. */
  lemma SetFieldLastWins(d: TaskFormData, f: Field, v: string, w: string)
    ensures SetField(SetField(d, f, v), f, w) == SetField(d, f, w)
  {
  }

  /** Writing back a field's own value changes nothing. */
  lemma SetFieldSameValue(d: TaskFormData, f: Field)
    ensures SetField(d, f, GetField(d, f)) == d
  {
  }

  /** `subtasks.filter(subtask => subtask.id !== id)`. */
  function RemoveSubtask(ss: seq<Subtask>, id: string): (r: seq<Subtask>)
    ensures forall i :: 0 <= i < |r| ==> r[i].id != id && r[i] in ss
    ensures forall i :: 0 <= i < |ss| && ss[i].id != id ==> ss[i] in r
    ensures multiset(r) <= multiset(ss)
  {
    Seqs.FilterSubMultiset(ss, (s: Subtask) => s.id != id);
    Seqs.Filter(ss, (s: Subtask) => s.id != id)
  }

  /** Removing an id no subtask has leaves the list as it was. */
  lemma RemoveAbsentSubtask(ss: seq<Subtask>, id: string)
    requires forall i :: 0 <= i < |ss| ==> ss[i].id != id
    ensures RemoveSubtask(ss, id) == ss
  {
    Seqs.FilterAll(ss, (s: Subtask) => s.id != id);
  }

  /** Removing the same id twice removes nothing more. */
  lemma RemoveSubtaskIdempotent(ss: seq<Subtask>, id: string)
    ensures RemoveSubtask(RemoveSubtask(ss, id), id) == RemoveSubtask(ss, id)
  {
    RemoveAbsentSubtask(RemoveSubtask(ss, id), id);
  }

  /** Removing a subtask keeps the others, in order: removal distributes over
      the list split at any point. */
  lemma RemoveSubtaskAppend(a: seq<Subtask>, b: seq<Subtask>, id: string)
    ensures RemoveSubtask(a + b, id) == RemoveSubtask(a, id) + RemoveSubtask(b, id)
  {
    Seqs.FilterAppend(a, b, (s: Subtask) => s.id != id);
  }

  /** The form's two state cells: the form record and the new-subtask text,
      which no input of the form writes. */
  class AddTaskForm {
    var taskData: TaskFormData
    var newSubtask: string

    /** The initial form: every text field empty, priority 'medium', no
        subtasks, an empty new-subtask text. */
    constructor()
      ensures taskData.title == "" && taskData.description == ""
      ensures taskData.dueDate == "" && taskData.dueTime == "" && taskData.category == ""
      ensures taskData.priority == "medium" && taskData.subtasks == []
      ensures newSubtask == ""
    {
      taskData := TaskFormData("", "", "", "", "medium", "", []);
      newSubtask := "";
    }

    /** `handleInputChange`: writes the named field only. */
    method HandleInputChange(f: Field, v: string)
      modifies this
      ensures taskData == SetField(old(taskData), f, v)
      ensures newSubtask == old(newSubtask)
    {
      taskData := SetField(taskData, f, v);
    }

    /** `handleAddSubtask`: ignores a blank input; otherwise appends one
        uncompleted subtask with the input as typed (not trimmed) and clears
        the input. The subtask id, taken from the clock in the page, is a
        parameter. The form never calls this handler, and no input writes
        the subtask text, so in the form as built the input stays empty and
        this method is the handler as written, not a reachable event. */
    method HandleAddSubtask(freshId: string)
      modifies this
      ensures IsBlank(old(newSubtask)) ==>
        taskData == old(taskData) && newSubtask == old(newSubtask)
      ensures !IsBlank(old(newSubtask)) ==>
        taskData == old(taskData).(subtasks := old(taskData).subtasks + [Subtask(freshId, old(newSubtask), false)])
        && newSubtask == ""
    {
      TrimEmptyIffBlank(newSubtask);
      if Trim(newSubtask) != "" {
        taskData := taskData.(subtasks := taskData.subtasks + [Subtask(freshId, newSubtask, false)]);
        newSubtask := "";
      }
    }

    /** `handleRemoveSubtask`: drops every subtask with the id. */
    method HandleRemoveSubtask(id: string)
      modifies this
      ensures taskData == old(taskData).(subtasks := RemoveSubtask(old(taskData).subtasks, id))
      ensures newSubtask == old(newSubtask)
    {
      taskData := taskData.(subtasks := RemoveSubtask(taskData.subtasks, id));
    }

    /** `handleSubmit`: hands the form record to `onAddTask` (and then closes
        the form) exactly when the title is not blank; returns what was
        handed over, or `None` when nothing was. The form is not changed. */
    method HandleSubmit() returns (submitted: Option<TaskFormData>)
      ensures submitted.Some? <==> !IsBlank(taskData.title)
      ensures submitted.Some? ==> submitted.value == taskData
    {
      TrimEmptyIffBlank(taskData.title);
      if Trim(taskData.title) != "" {
        submitted := Some(taskData);
      } else {
        submitted := None;
      }
    }
  }
}
