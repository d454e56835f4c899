/** The query engine the Home and Backlog pages share: the filter predicate,
    the sort comparator, the in-place sort, the filter-then-sort view, the
    sort-state transitions, the filter checkboxes and the filter options. */
module Query {
  import opened Tasks
  import opened Text
  import Seqs

  /** What the filter panel holds. Every list is "no constraint" when empty.
      `dueDateRange` is part of the state but no filter consults it. */
  datatype FilterState = FilterState(
    status: seq<string>,
    priority: seq<string>,
    tags: seq<string>,
    assignee: seq<string>,
    dueDateRange: Option<(int, int)>,
    search: string)

  /** The initial filter state, and the one `clearFilters` installs: it
      admits every task. */
  function Cleared(): (f: FilterState)
    ensures forall t: Task, scope: SearchScope :: Admits(t, f, scope)
  {
    FilterState([], [], [], [], None, "")
  }

  /** Home searches the title or the description; Backlog the title only. */
  datatype SearchScope = TitleAndDescription | TitleOnly

  /** The search passes: no search text, or the lowered title (or, on Home,
      the lowered description) includes the lowered search text. */
  predicate SearchAdmits(t: Task, search: string, scope: SearchScope): (b: bool)
    ensures search == "" ==> b
    ensures Contains(LowerStr(t.title), LowerStr(search)) ==> b
  {
    search == "" ||
    Contains(LowerStr(t.title), LowerStr(search)) ||
    (scope == TitleAndDescription && Contains(LowerStr(t.description), LowerStr(search)))
  }

  /** A set-valued dimension constrains only when non-empty. */
  predicate ValueAdmits(values: seq<string>, v: string): (b: bool)
    ensures values == [] ==> b
    ensures v in values ==> b
  {
    values == [] || v in values
  }

  /** The tags dimension: empty, or some tag of the task is in it; a task
      without tags fails any tag constraint. */
  predicate TagsAdmit(values: seq<string>, tags: seq<string>): (b: bool)
    ensures values == [] ==> b
    ensures values != [] && tags == [] ==> !b
  {
    values == [] || exists i :: 0 <= i < |tags| && tags[i] in values
  }

  /** The assignee dimension: empty, or the task has no assignee, or its
      assignee is in it. A task without an assignee is never rejected here. */
  predicate AssigneeAdmits(values: seq<string>, t: Task): (b: bool)
    ensures values == [] ==> b
    ensures !HasAssignee(t) ==> b
  {
    values == [] || !HasAssignee(t) || t.assignee.value in values
  }

  /** The filter predicate, a conjunction of one test per dimension. */
  predicate Admits(t: Task, f: FilterState, scope: SearchScope) {
    && SearchAdmits(t, f.search, scope)
    && ValueAdmits(f.status, StatusName(t.status))
    && ValueAdmits(f.priority, PriorityName(t.priority))
    && TagsAdmit(f.tags, t.tags)
    && AssigneeAdmits(f.assignee, t)
  }

  /** The filter callback of `filteredAndSortedTasks`, written as the source
      writes it: a chain of early rejections, then acceptance. */
  function Matches(t: Task, f: FilterState, scope: SearchScope): (r: bool)
    ensures r <==> Admits(t, f, scope)
  {
    if f.search != "" && !Contains(LowerStr(t.title), LowerStr(f.search)) &&
       (scope == TitleOnly || !Contains(LowerStr(t.description), LowerStr(f.search))) then false
    else if |f.status| > 0 && StatusName(t.status) !in f.status then false
    else if |f.priority| > 0 && PriorityName(t.priority) !in f.priority then false
    else if |f.tags| > 0 && !(exists i :: 0 <= i < |t.tags| && t.tags[i] in f.tags) then false
    else if |f.assignee| > 0 && HasAssignee(t) && t.assignee.value !in f.assignee then false
    else true
  }

  /** The filtered tasks, in store order. */
  function FilterTasks(ts: seq<Task>, f: FilterState, scope: SearchScope): (r: seq<Task>)
    ensures forall i :: 0 <= i < |r| ==> r[i] in ts && Admits(r[i], f, scope)
    ensures forall i :: 0 <= i < |ts| && Admits(ts[i], f, scope) ==> ts[i] in r
  {
    Seqs.Filter(ts, (t: Task) => Matches(t, f, scope))
  }

  /** The cleared filter admits every task, so it keeps the whole store. */
  lemma ClearedKeepsAll(ts: seq<Task>, scope: SearchScope)
    ensures FilterTasks(ts, Cleared(), scope) == ts
  {
    Seqs.FilterAll(ts, (t: Task) => Matches(t, Cleared(), scope));
  }

  /** The due-date range is never consulted. */
  lemma DueDateRangeIgnored(t: Task, f: FilterState, range: Option<(int, int)>, scope: SearchScope)
    ensures Matches(t, f.(dueDateRange := range), scope) == Matches(t, f, scope)
  {
  }

  /** `f2` constrains each dimension at least as much as `f1` does: where
      `f1` has a search text, `f2`'s lowered search text includes it; where
      `f1` has a non-empty list, `f2`'s list is non-empty and drawn from it. */
  predicate Narrows(f1: FilterState, f2: FilterState) {
    && (f1.search == "" || (f2.search != "" && Contains(LowerStr(f2.search), LowerStr(f1.search))))
    && (f1.status == [] || (f2.status != [] && forall i :: 0 <= i < |f2.status| ==> f2.status[i] in f1.status))
    && (f1.priority == [] || (f2.priority != [] && forall i :: 0 <= i < |f2.priority| ==> f2.priority[i] in f1.priority))
    && (f1.tags == [] || (f2.tags != [] && forall i :: 0 <= i < |f2.tags| ==> f2.tags[i] in f1.tags))
    && (f1.assignee == [] || (f2.assignee != [] && forall i :: 0 <= i < |f2.assignee| ==> f2.assignee[i] in f1.assignee))
  }

  /** Adding constraints never admits a task that was rejected: whatever
      passes a narrower filter passes the wider one. */
  lemma NarrowingNeverAdmits(t: Task, f1: FilterState, f2: FilterState, scope: SearchScope)
    requires Narrows(f1, f2)
    requires Admits(t, f2, scope)
    ensures Admits(t, f1, scope)
  {
    if f1.search != "" {
      if Contains(LowerStr(t.title), LowerStr(f2.search)) {
        ContainsTransitive(LowerStr(t.title), LowerStr(f2.search), LowerStr(f1.search));
      } else {
        ContainsTransitive(LowerStr(t.description), LowerStr(f2.search), LowerStr(f1.search));
      }
    }
    if f1.tags != [] {
      var i :| 0 <= i < |t.tags| && t.tags[i] in f2.tags;
      assert t.tags[i] in f1.tags;
    }
  }

  /** Putting a first value into an empty dimension narrows the filter. */
  lemma ConstrainingEmptyDimensionNarrows(f: FilterState, d: Dimension, v: string)
    requires GetDimension(f, d) == []
    ensures Narrows(f, SetDimension(f, d, [v]))
  {
    ContainsSelf(LowerStr(f.search));
  }

  // ---------------------------------------------------------------- sorting

  datatype SortField = ByPriority | ByDueDate | ByUpdatedAt | ByEstimate

  datatype Direction = Asc | Desc

  datatype SortState = SortState(field: SortField, direction: Direction)

  /** The initial sort state of both pages: higher priority first. */
  function InitialSort(): (s: SortState)
    ensures forall a: Task, b: Task :: InOrder(a, b, s) <==> Rank(a.priority) >= Rank(b.priority)
  {
    SortState(ByPriority, Desc)
  }

  /** The fixed priority table: urgent 4, high 3, medium 2, low 1. */
  function Rank(p: Priority): (r: int)
    ensures 1 <= r <= 4
  {
    match p
    case Urgent => 4
    case High => 3
    case Medium => 2
    case Low => 1
  }

  /** A sort key: a number, or `Infinity` for a missing due date. */
  datatype Key = Finite(n: int) | Infinite

  /** The order of keys: every number is below `Infinity`. */
  predicate KeyLe(a: Key, b: Key) {
    b.Infinite? || (a.Finite? && a.n <= b.n)
  }

  /** JavaScript's `a > b` on the extracted values
      (`Infinity > Infinity` is false). */
  predicate Greater(a: Key, b: Key) {
    match (a, b)
    case (Finite(x), Finite(y)) => x > y
    case (Infinite, Finite(_)) => true
    case (_, Infinite) => false
  }

  /** The value the comparator extracts for a field: `Infinity` exactly for
      a missing due date. */
  function SortKey(t: Task, field: SortField): (k: Key)
    ensures k.Infinite? <==> field == ByDueDate && t.dueDate.None?
    ensures field == ByPriority ==> 1 <= k.n <= 4
  {
    match field
    case ByPriority => Finite(Rank(t.priority))
    case ByDueDate => if t.dueDate.Some? then Finite(DayStart(t.dueDate.value)) else Infinite
    case ByUpdatedAt => Finite(t.updatedAt)
    case ByEstimate => Finite(t.estimate)
  }

  /** `a` may come before `b`: keys non-decreasing for 'asc', non-increasing
      for 'desc'. */
  predicate InOrder(a: Task, b: Task, s: SortState) {
    if s.direction == Asc then KeyLe(SortKey(a, s.field), SortKey(b, s.field))
    else KeyLe(SortKey(b, s.field), SortKey(a, s.field))
  }

  /** The comparator passed to `filtered.sort`: 1 puts `a` after `b`. */
  function Compare(a: Task, b: Task, s: SortState): (r: int)
    ensures r == 1 || r == -1
    ensures r == 1 <==> !InOrder(a, b, s)
  {
    var ka, kb := SortKey(a, s.field), SortKey(b, s.field);
    if s.direction == Asc then (if Greater(ka, kb) then 1 else -1)
    else (if Greater(kb, ka) then 1 else -1)
  }

  /** The comparator never reports a tie, even for equal keys, so it fixes no
      order between tasks with equal keys. */
  lemma CompareNeverTies(a: Task, b: Task, s: SortState)
    requires SortKey(a, s.field) == SortKey(b, s.field)
    ensures Compare(a, b, s) == -1 && Compare(b, a, s) == -1
  {
  }

  /** `InOrder` is total and transitive, a total preorder. */
  lemma InOrderPreorder(a: Task, b: Task, c: Task, s: SortState)
    ensures InOrder(a, b, s) || InOrder(b, a, s)
    ensures InOrder(a, b, s) && InOrder(b, c, s) ==> InOrder(a, c, s)
  {
  }

  /** Every earlier task may come before every later one. */
  predicate Sorted(ts: seq<Task>, s: SortState) {
    forall i, j :: 0 <= i < j < |ts| ==> InOrder(ts[i], ts[j], s)
  }

  /** The tasks at positions `lo` up to `hi` are in order. */
  predicate SortedBetween(ts: seq<Task>, lo: int, hi: int, s: SortState)
    requires 0 <= lo <= hi <= |ts|
  {
    forall k, l :: lo <= k < l < hi ==> InOrder(ts[k], ts[l], s)
  }

  /** The state of an insertion step that carries the task at `i` down to
      position `j`: the tasks before `j` are in order, those from `j` to `i`
      are in order, and every task before `j` may precede every task after. */
  predicate Inserting(ts: seq<Task>, i: int, j: int, s: SortState)
    requires 0 <= j <= i < |ts|
  {
    && SortedBetween(ts, 0, j, s)
    && SortedBetween(ts, j, i + 1, s)
    && forall k, l :: 0 <= k < j < l <= i ==> InOrder(ts[k], ts[l], s)
  }

  /** Swapping two neighbours permutes the tasks. */
  lemma SwapPermutes(ts: seq<Task>, j: int)
    requires 0 < j < |ts|
    ensures multiset(ts[j - 1 := ts[j]][j := ts[j - 1]]) == multiset(ts)
  {
    assert ts == ts[..j - 1] + [ts[j - 1], ts[j]] + ts[j + 1..];
    assert ts[j - 1 := ts[j]][j := ts[j - 1]] == ts[..j - 1] + [ts[j], ts[j - 1]] + ts[j + 1..];
  }

  /** Swapping the carried task with an out-of-order predecessor moves the
      insertion step one position down. */
  lemma SwapStep(ts: seq<Task>, i: int, j: int, s: SortState)
    requires 0 < j <= i < |ts|
    requires Inserting(ts, i, j, s)
    requires !InOrder(ts[j - 1], ts[j], s)
    ensures Inserting(ts[j - 1 := ts[j]][j := ts[j - 1]], i, j - 1, s)
  {
    var t := ts[j - 1 := ts[j]][j := ts[j - 1]];
    InOrderPreorder(ts[j - 1], ts[j], ts[j], s);
    assert SortedBetween(t, 0, j - 1, s) by {
      forall k, l | 0 <= k < l < j - 1 ensures InOrder(t[k], t[l], s) {
        assert t[k] == ts[k] && t[l] == ts[l];
      }
    }
    assert SortedBetween(t, j - 1, i + 1, s) by {
      forall k, l | j - 1 <= k < l <= i ensures InOrder(t[k], t[l], s) {
        if k == j - 1 && l == j {
        } else if k == j - 1 {
          assert t[k] == ts[j] && t[l] == ts[l];
          assert InOrder(ts[j], ts[l], s);
        } else if k == j {
          assert t[k] == ts[j - 1] && t[l] == ts[l];
          assert InOrder(ts[j - 1], ts[l], s);
        } else {
          assert t[k] == ts[k] && t[l] == ts[l];
        }
      }
    }
    forall k, l | 0 <= k < j - 1 < l <= i ensures InOrder(t[k], t[l], s) {
      assert t[k] == ts[k];
      if l == j {
        assert InOrder(ts[k], ts[j - 1], s);
      } else {
        assert t[l] == ts[l];
        assert InOrder(ts[k], ts[l], s);
      }
    }
  }

  /** When the carried task has reached the front, or follows a task that may
      precede it, the first `i + 1` tasks are in order. */
  lemma InsertDone(ts: seq<Task>, i: int, j: int, s: SortState)
    requires 0 <= j <= i < |ts|
    requires Inserting(ts, i, j, s)
    requires j == 0 || InOrder(ts[j - 1], ts[j], s)
    ensures SortedBetween(ts, 0, i + 1, s)
  {
    forall k, l | 0 <= k < l <= i ensures InOrder(ts[k], ts[l], s) {
      if k < j && l == j {
        if k < j - 1 {
          assert InOrder(ts[k], ts[j - 1], s);
          InOrderPreorder(ts[k], ts[j - 1], ts[j], s);
        }
      }
    }
  }

  /** `filtered.sort(compare)`: sorts the array in place, by insertion, with
      the source comparator. The result is sorted and a permutation of the
      input; which of two tasks with equal keys comes first is not stated. */
  method SortInPlace(a: array<Task>, s: SortState)
    modifies a
    ensures Sorted(a[..], s)
    ensures multiset(a[..]) == old(multiset(a[..]))
  {
    var i := 0;
    while i < a.Length
      invariant 0 <= i <= a.Length
      invariant SortedBetween(a[..], 0, i, s)
      invariant multiset(a[..]) == old(multiset(a[..]))
    {
      var j := i;
      while j > 0 && Compare(a[j - 1], a[j], s) > 0
        invariant 0 <= j <= i < a.Length
        invariant Inserting(a[..], i, j, s)
        invariant multiset(a[..]) == old(multiset(a[..]))
      {
        ghost var before := a[..];
        a[j - 1], a[j] := a[j], a[j - 1];
        SwapStep(before, i, j, s);
        SwapPermutes(before, j);
        assert a[..] == before[j - 1 := before[j]][j := before[j - 1]];
        j := j - 1;
      }
      InsertDone(a[..], i, j, s);
      i := i + 1;
    }
    assert SortedBetween(a[..], 0, a.Length, s);
  }

  /** `filteredAndSortedTasks`: the tasks the filter admits, sorted. */
  method View(ts: seq<Task>, f: FilterState, s: SortState, scope: SearchScope) returns (view: seq<Task>)
    ensures multiset(view) == multiset(FilterTasks(ts, f, scope))
    ensures Sorted(view, s)
  {
    var filtered := FilterTasks(ts, f, scope);
    var a := new Task[|filtered|](i requires 0 <= i < |filtered| => filtered[i]);
    assert a[..] == filtered;
    SortInPlace(a, s);
    view := a[..];
  }

  /** With the cleared filter the view is a permutation of the whole store. */
  lemma ClearedViewIsPermutation(ts: seq<Task>, view: seq<Task>, scope: SearchScope)
    requires multiset(view) == multiset(FilterTasks(ts, Cleared(), scope))
    ensures multiset(view) == multiset(ts)
  {
    ClearedKeepsAll(ts, scope);
  }

  /** Sorted by due date ascending, the tasks without a due date come last:
      every task after an undated one is undated too. */
  lemma UndatedSortLast(ts: seq<Task>)
    requires Sorted(ts, SortState(ByDueDate, Asc))
    ensures forall i, j :: 0 <= i < j < |ts| && ts[i].dueDate.None? ==> ts[j].dueDate.None?
  {
    forall i, j | 0 <= i < j < |ts| && ts[i].dueDate.None? ensures ts[j].dueDate.None? {
      assert InOrder(ts[i], ts[j], SortState(ByDueDate, Asc));
    }
  }

  /** Sorted by priority descending, ranks never increase along the view. */
  lemma PriorityDescendingRanks(ts: seq<Task>, i: int, j: int)
    requires Sorted(ts, SortState(ByPriority, Desc))
    requires 0 <= i < j < |ts|
    ensures Rank(ts[i].priority) >= Rank(ts[j].priority)
  {
    assert InOrder(ts[i], ts[j], SortState(ByPriority, Desc));
  }

  // ---------------------------------------------------- sort transitions

  function Flip(d: Direction): Direction {
    if d == Asc then Desc else Asc
  }

  /** `toggleSort(field)`: the current field flips its direction; another
      field is selected descending. */
  function ToggleSort(s: SortState, field: SortField): (r: SortState)
    ensures r.field == field
    ensures s.field == field ==> r.direction != s.direction
    ensures s.field != field ==> r.direction == Desc
  {
    if s.field == field then s.(direction := Flip(s.direction))
    else SortState(field, Desc)
  }

  /** Toggling the current field twice restores the sort state. */
  lemma ToggleTwice(s: SortState)
    ensures ToggleSort(ToggleSort(s, s.field), s.field) == s
  {
  }

  /** The order of the cycle button: priority, due date, updated, estimate. */
  const SortFields: seq<SortField> := [ByPriority, ByDueDate, ByUpdatedAt, ByEstimate]

  /** `sortFields.indexOf(field)`. */
  function FieldIndex(f: SortField): (k: nat)
    ensures k < |SortFields| && SortFields[k] == f
  {
    match f
    case ByPriority => 0
    case ByDueDate => 1
    case ByUpdatedAt => 2
    case ByEstimate => 3
  }

  /** The cycle button: `toggleSort(sortFields[(currentIndex + 1) % 4])`. */
  function CycleSort(s: SortState): (r: SortState)
    ensures r.field != s.field && r.direction == Desc
  {
    ToggleSort(s, SortFields[(FieldIndex(s.field) + 1) % |SortFields|])
  }

  /** Four presses of the cycle button return to the starting field, sorted
      descending. */
  lemma CycleFourTimes(s: SortState)
    ensures CycleSort(CycleSort(CycleSort(CycleSort(s)))) == SortState(s.field, Desc)
  {
  }

  // ---------------------------------------------------- filter checkboxes

  /** A checkbox change: checking appends the value, unchecking removes every
      occurrence of it. */
  function CheckboxUpdate(values: seq<string>, v: string, checked: bool): (r: seq<string>)
    ensures checked ==> r == values + [v]
    ensures !checked ==> v !in r && multiset(r) == multiset(values)[v := 0]
  {
    if checked then values + [v] else Seqs.RemoveAll(values, v)
  }

  /** The four checkbox groups of the filter panel. */
  datatype Dimension = StatusDimension | PriorityDimension | AssigneeDimension | TagsDimension

  function GetDimension(f: FilterState, d: Dimension): seq<string> {
    match d
    case StatusDimension => f.status
    case PriorityDimension => f.priority
    case AssigneeDimension => f.assignee
    case TagsDimension => f.tags
  }

  /** `setFilters(prev => ({ ...prev, [d]: values }))`. */
  function SetDimension(f: FilterState, d: Dimension, values: seq<string>): (r: FilterState)
    ensures GetDimension(r, d) == values
    ensures forall e :: e != d ==> GetDimension(r, e) == GetDimension(f, e)
    ensures r.search == f.search && r.dueDateRange == f.dueDateRange
  {
    match d
    case StatusDimension => f.(status := values)
    case PriorityDimension => f.(priority := values)
    case AssigneeDimension => f.(assignee := values)
    case TagsDimension => f.(tags := values)
  }

  /** Checking one more value in a non-empty dimension only widens the
      filter: every task admitted before is admitted after. */
  lemma CheckingWidens(t: Task, f: FilterState, d: Dimension, v: string, scope: SearchScope)
    requires GetDimension(f, d) != []
    requires Admits(t, f, scope)
    ensures Admits(t, SetDimension(f, d, CheckboxUpdate(GetDimension(f, d), v, true)), scope)
  {
    if d == TagsDimension {
      var i :| 0 <= i < |t.tags| && t.tags[i] in f.tags;
      assert t.tags[i] in f.tags + [v];
    }
  }

  // ---------------------------------------------------- filter options

  /** `tasks.map(task => task.assignee).filter(Boolean)`. */
  function Assignees(ts: seq<Task>): (r: seq<string>)
    ensures forall i :: 0 <= i < |r| ==>
      (r[i] != "" && exists k :: 0 <= k < |ts| && ts[k].assignee == Some(r[i]))
    ensures forall k :: 0 <= k < |ts| && HasAssignee(ts[k]) ==> ts[k].assignee.value in r
  {
    if ts == [] then []
    else
      var rest := Assignees(ts[1..]);
      assert forall i :: 0 <= i < |rest| ==> exists k :: 0 <= k < |ts| && ts[k].assignee == Some(rest[i]) by {
        forall i | 0 <= i < |rest| ensures exists k :: 0 <= k < |ts| && ts[k].assignee == Some(rest[i]) {
          var k :| 0 <= k < |ts[1..]| && ts[1..][k].assignee == Some(rest[i]);
          assert ts[k + 1].assignee == Some(rest[i]);
        }
      }
      (if HasAssignee(ts[0]) then [ts[0].assignee.value] else []) + rest
  }

  /** `tasks.flatMap(task => task.tags)`. */
  function AllTags(ts: seq<Task>): (r: seq<string>)
    ensures forall i :: 0 <= i < |r| ==> exists k :: 0 <= k < |ts| && r[i] in ts[k].tags
    ensures forall k, j :: 0 <= k < |ts| && 0 <= j < |ts[k].tags| ==> ts[k].tags[j] in r
  {
    if ts == [] then []
    else
      var rest := AllTags(ts[1..]);
      assert forall i :: 0 <= i < |rest| ==> exists k :: 0 <= k < |ts| && rest[i] in ts[k].tags by {
        forall i | 0 <= i < |rest| ensures exists k :: 0 <= k < |ts| && rest[i] in ts[k].tags {
          var k :| 0 <= k < |ts[1..]| && rest[i] in ts[1..][k].tags;
          assert ts[k + 1] == ts[1..][k];
        }
      }
      ts[0].tags + rest
  }

  /** `uniqueAssignees`: each present, non-empty assignee once. */
  function UniqueAssignees(ts: seq<Task>): (r: seq<string>)
    ensures Seqs.NoDuplicates(r)
    ensures forall i :: 0 <= i < |r| ==>
      (r[i] != "" && exists k :: 0 <= k < |ts| && ts[k].assignee == Some(r[i]))
    ensures forall k :: 0 <= k < |ts| && HasAssignee(ts[k]) ==> ts[k].assignee.value in r
  {
    var all := Assignees(ts);
    var r := Seqs.Dedup(all);
    assert forall i :: 0 <= i < |r| ==> r[i] in all;
    r
  }

  /** `uniqueTags`: each tag of any task once. */
  function UniqueTags(ts: seq<Task>): (r: seq<string>)
    ensures Seqs.NoDuplicates(r)
    ensures forall i :: 0 <= i < |r| ==> exists k :: 0 <= k < |ts| && r[i] in ts[k].tags
    ensures forall k, j :: 0 <= k < |ts| && 0 <= j < |ts[k].tags| ==> ts[k].tags[j] in r
  {
    var all := AllTags(ts);
    var r := Seqs.Dedup(all);
    assert forall i :: 0 <= i < |r| ==> r[i] in all;
    r
  }
}
