/** The Backlog page: the same filter and sort as Home with a title-only
    search, the sort-field cycle button, the filter checkboxes and the
    status change from a task card. */
module Backlog {
  import opened Tasks
  import opened Store
  import opened Query
  import opened Text
  import Seqs

  /** The Backlog search never looks at the description. */
  lemma SearchIgnoresDescription(t: Task, f: FilterState, d: string)
    ensures Matches(t.(description := d), f, TitleOnly) == Matches(t, f, TitleOnly)
  {
  }

  /** Whatever the title-only search admits, the title-or-description search
      of Home admits too; the converse fails for a match in the description
      alone. */
  lemma TitleOnlyNarrowerThanHome(t: Task, f: FilterState)
    ensures Matches(t, f, TitleOnly) ==> Matches(t, f, TitleAndDescription)
  {
  }

  /** A search text found in the description but not in the title: with no
      other filter set, Home shows the task and Backlog does not. */
  lemma DescriptionOnlyMatch(t: Task, s: string)
    requires Contains(LowerStr(t.description), LowerStr(s))
    requires !Contains(LowerStr(t.title), LowerStr(s))
    ensures Matches(t, Cleared().(search := s), TitleAndDescription)
    ensures !Matches(t, Cleared().(search := s), TitleOnly)
  {
    ContainsEmpty(LowerStr(t.title));
    assert s != "";
  }

  /** The Backlog status change replaces the status and nothing else: the
      last update time stays as it was. */
  lemma StatusChangeKeepsUpdatedAt(ts: seq<Task>, id: string, s: Status)
    ensures var r := Apply(ts, id, SetStatus(s));
      forall i :: 0 <= i < |ts| ==>
        r[i] == (if ts[i].id == id then ts[i].(status := s) else ts[i]) &&
        r[i].updatedAt == ts[i].updatedAt
  {
    forall i | 0 <= i < |ts| && ts[i].id == id
      ensures Apply(ts, id, SetStatus(s))[i] == ts[i].(status := s)
    {
      MutationEffects(ts[i], SetStatus(s));
    }
  }

  /** The page's state cells. */
  class BacklogPage {
    var tasks: seq<Task>
    var filters: FilterState
    var sort: SortState

    /** Starts with the given tasks, cleared filters, priority descending. */
    constructor(initial: seq<Task>)
      ensures tasks == initial && filters == Cleared() && sort == InitialSort()
    {
      tasks := initial;
      filters := Cleared();
      sort := InitialSort();
    }

    /** `filteredAndSortedTasks`, searching titles only. */
    method FilteredAndSortedTasks() returns (view: seq<Task>)
      ensures multiset(view) == multiset(FilterTasks(tasks, filters, TitleOnly))
      ensures Sorted(view, sort)
    {
      view := View(tasks, filters, sort, TitleOnly);
    }

    /** The filter options: `uniqueAssignees` and `uniqueTags`. */
    method FilterOptions() returns (assignees: seq<string>, tags: seq<string>)
      ensures assignees == UniqueAssignees(tasks) && tags == UniqueTags(tasks)
      ensures Seqs.NoDuplicates(assignees) && Seqs.NoDuplicates(tags)
      ensures forall i :: 0 <= i < |assignees| ==> assignees[i] != ""
      ensures forall k :: 0 <= k < |tasks| && HasAssignee(tasks[k]) ==> tasks[k].assignee.value in assignees
      ensures forall k, j :: 0 <= k < |tasks| && 0 <= j < |tasks[k].tags| ==> tasks[k].tags[j] in tags
    {
      assignees := UniqueAssignees(tasks);
      tags := UniqueTags(tasks);
    }

    /** `clearFilters`. */
    method ClearFilters()
      modifies this
      ensures filters == Cleared() && tasks == old(tasks) && sort == old(sort)
    {
      filters := Cleared();
    }

    /** Typing into the search box. */
    method SetSearch(text: string)
      modifies this
      ensures filters == old(filters).(search := text) && tasks == old(tasks) && sort == old(sort)
    {
      filters := filters.(search := text);
    }

    /** `toggleSort`. */
    method ToggleSortField(field: SortField)
      modifies this
      ensures sort == ToggleSort(old(sort), field) && tasks == old(tasks) && filters == old(filters)
    {
      sort := ToggleSort(sort, field);
    }

    /** The cycle button: the next field of the cycle, descending. */
    method CycleSortField()
      modifies this
      ensures sort == CycleSort(old(sort)) && tasks == old(tasks) && filters == old(filters)
      ensures sort.field == SortFields[(FieldIndex(old(sort).field) + 1) % 4] && sort.direction == Desc
    {
      var next := (FieldIndex(sort.field) + 1) % |SortFields|;
      sort := ToggleSort(sort, SortFields[next]);
    }

    /** A filter checkbox. */
    method ToggleCheckbox(d: Dimension, v: string, checked: bool)
      modifies this
      ensures filters == SetDimension(old(filters), d, CheckboxUpdate(GetDimension(old(filters), d), v, checked))
      ensures tasks == old(tasks) && sort == old(sort)
    {
      filters := SetDimension(filters, d, CheckboxUpdate(GetDimension(filters, d), v, checked));
    }

    /** The status change a task card would report. The card never calls
        `onStatusChange`, so the page never runs this handler. */
    method ChangeStatus(id: string, s: Status)
      modifies this
      ensures tasks == Apply(old(tasks), id, SetStatus(s))
      ensures filters == old(filters) && sort == old(sort)
    {
      tasks := Apply(tasks, id, SetStatus(s));
    }
  }
}
