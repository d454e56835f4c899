/** The Home page: the pending task list with its filter and sort, drag and
    drop into the sprint buckets, removal from a sprint, and new tasks from
    the add-task form. */
module Home {
  import opened Tasks
  import opened Store
  import opened Query
  import AddTask
  import Seqs

  /** The task `handleAddTask` builds from a submitted form: status 'todo',
      estimate 0, created and updated at the same instant, the form's priority
      when it is 'high' or 'medium' and 'low' otherwise (never 'urgent'), and
      the category as the only tag when it is not empty. The id and the time
      come from the clock in the page and are parameters; `dueDay` is the
      form's date, `None` when the field is empty. */
  function NewTask(form: AddTask.TaskFormData, freshId: string, dueDay: Option<int>, now: int): (r: Task)
    ensures r.id == freshId && r.title == form.title && r.description == form.description
    ensures r.status == Todo && r.estimate == 0 && r.dueDate == dueDay
    ensures r.createdAt == now && r.updatedAt == now
    ensures r.priority != Urgent
    ensures r.priority == High <==> form.priority == "high"
    ensures r.priority == Medium <==> form.priority == "medium"
    ensures |r.tags| <= 1 && (r.tags == [] <==> form.category == "")
    ensures r.tags != [] ==> r.tags[0] == form.category
    ensures r.assignee.None? && r.sprint.None?
  {
    Task(
      freshId, form.title, form.description, Todo,
      if form.priority == "high" then High else if form.priority == "medium" then Medium else Low,
      0, None, dueDay,
      if form.category != "" then [form.category] else [],
      None, now, now)
  }

  /** A new task with an id not yet in the store keeps the ids unique and the
      timestamps ordered, and is among the store's unsprinted tasks (the page
      lists it when the filters admit it, `UnsprintedShownIffAdmitted`). */
  lemma AddTaskKeepsInvariants(ts: seq<Task>, form: AddTask.TaskFormData, freshId: string, dueDay: Option<int>, now: int)
    requires freshId !in Ids(ts)
    ensures UniqueIds(ts) ==> UniqueIds(ts + [NewTask(form, freshId, dueDay, now)])
    ensures Timestamped(ts) ==> Timestamped(ts + [NewTask(form, freshId, dueDay, now)])
    ensures NewTask(form, freshId, dueDay, now) in Unsprinted(ts + [NewTask(form, freshId, dueDay, now)])
  {
    var t := NewTask(form, freshId, dueDay, now);
    var r := ts + [t];
    forall i | 0 <= i < |ts| ensures ts[i].id != freshId {
      assert Ids(ts)[i] == ts[i].id;
    }
    assert r[|ts|] == t;
  }

  /** `tasksToShow`: the tasks whose sprint is the selected one, in order. */
  function InSprint(ts: seq<Task>, sprint: string): (r: seq<Task>)
    ensures forall i :: 0 <= i < |r| ==> r[i].sprint == Some(sprint) && r[i] in ts
    ensures forall i :: 0 <= i < |ts| && ts[i].sprint == Some(sprint) ==> ts[i] in r
  {
    Seqs.Filter(ts, (t: Task) => t.sprint == Some(sprint))
  }

  /** The list under the buckets: `filter(task => !task.sprint)`. */
  function Unsprinted(ts: seq<Task>): (r: seq<Task>)
    ensures forall i :: 0 <= i < |r| ==> IsUnsprinted(r[i]) && r[i] in ts
    ensures forall i :: 0 <= i < |ts| && IsUnsprinted(ts[i]) ==> ts[i] in r
  {
    Seqs.Filter(ts, (t: Task) => IsUnsprinted(t))
  }

  /** The list under the buckets is the unsprinted part of the filtered and
      sorted view: a task of the store without a sprint is listed there
      exactly when the filters admit it. */
  lemma UnsprintedShownIffAdmitted(ts: seq<Task>, f: FilterState, view: seq<Task>, t: Task)
    requires t in ts && IsUnsprinted(t)
    requires multiset(view) == multiset(FilterTasks(ts, f, TitleAndDescription))
    ensures t in Unsprinted(view) <==> Admits(t, f, TitleAndDescription)
  {
    var filtered := FilterTasks(ts, f, TitleAndDescription);
    assert t in view <==> t in filtered by {
      assert t in view <==> t in multiset(view);
      assert t in filtered <==> t in multiset(filtered);
    }
    var k :| 0 <= k < |ts| && ts[k] == t;
    if t in filtered {
      var m :| 0 <= m < |filtered| && filtered[m] == t;
    }
    if t in view {
      var m :| 0 <= m < |view| && view[m] == t;
    }
    if t in Unsprinted(view) {
      var m :| 0 <= m < |Unsprinted(view)| && Unsprinted(view)[m] == t;
    }
  }

  /** A drop into a bucket moves the dropped task out of the unsprinted list
      and into the bucket's list. */
  lemma DropMovesIntoBucket(ts: seq<Task>, i: int, target: string, now: int)
    requires 0 <= i < |ts| && target != ""
    ensures var r := Apply(ts, ts[i].id, DropIntoSprint(target, now));
      r[i] in InSprint(r, target) && r[i] !in Unsprinted(r)
  {
  }

  /** Removing from a sprint puts the task back among the store's unsprinted
      tasks, with no due date and its last update time kept. */
  lemma RemoveReturnsToUnsprinted(ts: seq<Task>, i: int)
    requires 0 <= i < |ts|
    ensures var r := Apply(ts, ts[i].id, RemoveFromSprint);
      r[i] in Unsprinted(r) && r[i].dueDate.None? && r[i].updatedAt == ts[i].updatedAt
  {
  }

  /** Every bucket list and the unsprinted list are disjoint. */
  lemma BucketsDisjointFromUnsprinted(ts: seq<Task>, sprint: string, t: Task)
    requires sprint != ""
    ensures !(t in InSprint(ts, sprint) && t in Unsprinted(ts))
  {
    if t in InSprint(ts, sprint) {
      var k :| 0 <= k < |InSprint(ts, sprint)| && InSprint(ts, sprint)[k] == t;
    }
  }

  /** The page's state cells. */
  class HomePage {
    var pendingTasks: seq<Task>
    var filters: FilterState
    var sort: SortState
    var draggedTask: Option<Task>
    var selectedSprint: Option<string>
    var hasPendingChanges: bool

    /** The initial state: the given tasks, cleared filters, priority sorted
        descending, nothing dragged or selected, nothing pending. */
    constructor(initial: seq<Task>)
      ensures pendingTasks == initial && filters == Cleared() && sort == InitialSort()
      ensures draggedTask == None && selectedSprint == None && !hasPendingChanges
    {
      pendingTasks := initial;
      filters := Cleared();
      sort := InitialSort();
      draggedTask := None;
      selectedSprint := None;
      hasPendingChanges := false;
    }

    /** `filteredAndSortedTasks`: the tasks the filter admits, title or
        description searched, sorted by the sort state. */
    method FilteredAndSortedTasks() returns (view: seq<Task>)
      ensures multiset(view) == multiset(FilterTasks(pendingTasks, filters, TitleAndDescription))
      ensures Sorted(view, sort)
    {
      view := View(pendingTasks, filters, sort, TitleAndDescription);
    }

    /** `clearFilters`. */
    method ClearFilters()
      modifies this
      ensures filters == Cleared()
      ensures pendingTasks == old(pendingTasks) && sort == old(sort) && draggedTask == old(draggedTask)
      ensures selectedSprint == old(selectedSprint) && hasPendingChanges == old(hasPendingChanges)
    {
      filters := Cleared();
    }

    /** `toggleSort`. */
    method ToggleSortField(field: SortField)
      modifies this
      ensures sort == ToggleSort(old(sort), field)
      ensures pendingTasks == old(pendingTasks) && filters == old(filters) && draggedTask == old(draggedTask)
      ensures selectedSprint == old(selectedSprint) && hasPendingChanges == old(hasPendingChanges)
    {
      sort := ToggleSort(sort, field);
    }

    /** Typing into the search box. */
    method SetSearch(text: string)
      modifies this
      ensures filters == old(filters).(search := text)
      ensures pendingTasks == old(pendingTasks) && sort == old(sort) && draggedTask == old(draggedTask)
      ensures selectedSprint == old(selectedSprint) && hasPendingChanges == old(hasPendingChanges)
    {
      filters := filters.(search := text);
    }

    /** A checkbox of the filter panel: appends or removes the value in its
        dimension and leaves the rest of the filter alone. */
    method ToggleCheckbox(d: Dimension, v: string, checked: bool)
      modifies this
      ensures filters == SetDimension(old(filters), d, CheckboxUpdate(GetDimension(old(filters), d), v, checked))
      ensures pendingTasks == old(pendingTasks) && sort == old(sort) && draggedTask == old(draggedTask)
      ensures selectedSprint == old(selectedSprint) && hasPendingChanges == old(hasPendingChanges)
    {
      filters := SetDimension(filters, d, CheckboxUpdate(GetDimension(filters, d), v, checked));
    }

    /** Opening a bucket (`Some`) or going back to the overview (`None`). */
    method SelectSprint(sprint: Option<string>)
      modifies this
      ensures selectedSprint == sprint
      ensures pendingTasks == old(pendingTasks) && filters == old(filters) && sort == old(sort)
      ensures draggedTask == old(draggedTask) && hasPendingChanges == old(hasPendingChanges)
    {
      selectedSprint := sprint;
    }

    /** `handleDragStart`: remembers the dragged task. */
    method HandleDragStart(t: Task)
      modifies this
      ensures draggedTask == Some(t)
      ensures pendingTasks == old(pendingTasks) && filters == old(filters) && sort == old(sort)
      ensures selectedSprint == old(selectedSprint) && hasPendingChanges == old(hasPendingChanges)
    {
      draggedTask := Some(t);
    }

    /** `handleDrop`: with nothing dragged, nothing changes; otherwise the
        dragged task (found by id) is put into the bucket with its derived due
        date and a fresh `updatedAt`, the changes become pending and the drag
        ends. */
    method HandleDrop(target: string, now: int)
      modifies this
      ensures old(draggedTask).None? ==>
        pendingTasks == old(pendingTasks) && draggedTask == None && hasPendingChanges == old(hasPendingChanges)
      ensures old(draggedTask).Some? ==>
        && pendingTasks == Apply(old(pendingTasks), old(draggedTask).value.id, DropIntoSprint(target, now))
        && draggedTask == None && hasPendingChanges
      ensures filters == old(filters) && sort == old(sort) && selectedSprint == old(selectedSprint)
    {
      if draggedTask.Some? {
        pendingTasks := Apply(pendingTasks, draggedTask.value.id, DropIntoSprint(target, now));
        hasPendingChanges := true;
        draggedTask := None;
      }
    }

    /** `handleRemoveFromSprint`. */
    method HandleRemoveFromSprint(id: string)
      modifies this
      ensures pendingTasks == Apply(old(pendingTasks), id, RemoveFromSprint) && hasPendingChanges
      ensures filters == old(filters) && sort == old(sort) && draggedTask == old(draggedTask)
      ensures selectedSprint == old(selectedSprint)
    {
      pendingTasks := Apply(pendingTasks, id, RemoveFromSprint);
      hasPendingChanges := true;
    }

    /** `handleSubmitChanges`: the pending changes count as saved. */
    method HandleSubmitChanges()
      modifies this
      ensures !hasPendingChanges
      ensures pendingTasks == old(pendingTasks) && filters == old(filters) && sort == old(sort)
      ensures draggedTask == old(draggedTask) && selectedSprint == old(selectedSprint)
    {
      hasPendingChanges := false;
    }

    /** `handleAddTask`: appends exactly one new task at the end. */
    method HandleAddTask(form: AddTask.TaskFormData, freshId: string, dueDay: Option<int>, now: int)
      modifies this
      ensures pendingTasks == old(pendingTasks) + [NewTask(form, freshId, dueDay, now)]
      ensures hasPendingChanges
      ensures filters == old(filters) && sort == old(sort) && draggedTask == old(draggedTask)
      ensures selectedSprint == old(selectedSprint)
    {
      pendingTasks := pendingTasks + [NewTask(form, freshId, dueDay, now)];
      hasPendingChanges := true;
    }
  }
}
