/** The Reports page: counts and sums over a fixed task list, the estimate
    per assignee, the task list behind a clicked status or priority, and the
    five most recently completed tasks. */
module Reports {
  import opened Tasks
  import opened Text
  import Seqs

  /** The integer parts of `analytics`. */
  datatype Analytics = Analytics(
    totalTasks: nat,
    completedTasks: nat,
    inProgressTasks: nat,
    blockedTasks: nat,
    overdueTasks: nat,
    velocity: nat,
    urgent: nat,
    high: nat,
    medium: nat,
    low: nat,
    assigneeStats: map<string, nat>)

  /** `acc[a] || 0`. */
  function Lookup(m: map<string, nat>, a: string): nat {
    if a in m then m[a] else 0
  }

  /** The `assigneeStats` reduce: left to right, each task with an assignee
      adds its estimate to that assignee's entry, starting it at 0. */
  function AssigneeStats(ts: seq<Task>): (m: map<string, nat>)
    ensures "" !in m
    ensures forall a :: a in m ==> exists i :: 0 <= i < |ts| && ts[i].assignee == Some(a)
    decreases |ts|
  {
    if ts == [] then map[]
    else
      var acc := AssigneeStats(ts[..|ts| - 1]);
      var t := ts[|ts| - 1];
      if HasAssignee(t) then acc[t.assignee.value := Lookup(acc, t.assignee.value) + t.estimate]
      else acc
  }

  /** The tasks assigned to `a`, in order. */
  function AssignedTo(ts: seq<Task>, a: string): seq<Task> {
    Seqs.Filter(ts, (t: Task) => t.assignee == Some(a))
  }

  /** An assignee has an entry exactly when some task is assigned to them;
      the empty name never has one. */
  lemma {:induction false} AssigneeStatsKeys(ts: seq<Task>, a: string)
    ensures a in AssigneeStats(ts) <==> a != "" && exists i :: 0 <= i < |ts| && ts[i].assignee == Some(a)
    decreases |ts|
  {
    if ts != [] {
      var init, t := ts[..|ts| - 1], ts[|ts| - 1];
      AssigneeStatsKeys(init, a);
      if exists i :: 0 <= i < |ts| && ts[i].assignee == Some(a) {
        var i :| 0 <= i < |ts| && ts[i].assignee == Some(a);
        if i < |init| {
          assert init[i] == ts[i];
        }
      }
      if exists i :: 0 <= i < |init| && init[i].assignee == Some(a) {
        var i :| 0 <= i < |init| && init[i].assignee == Some(a);
        assert ts[i] == init[i];
      }
    }
  }

  /** The tasks assigned to `a` in a list with one more task at the end. */
  lemma AssignedToSnoc(init: seq<Task>, t: Task, a: string)
    ensures SumEstimates(AssignedTo(init + [t], a)) ==
      SumEstimates(AssignedTo(init, a)) + (if t.assignee == Some(a) then t.estimate else 0)
  {
    var p := (x: Task) => x.assignee == Some(a);
    Seqs.FilterAppend(init, [t], p);
    SumEstimatesAppend(AssignedTo(init, a), Seqs.Filter([t], p));
    assert Seqs.Filter([t], p) == if p(t) then [t] else [] by {
      assert [t][1..] == [];
    }
  }

  /** The entry of an assignee is the sum of the estimates of their tasks
      (0 when they have none). */
  lemma {:induction false} AssigneeStatsSums(ts: seq<Task>, a: string)
    requires a != ""
    ensures Lookup(AssigneeStats(ts), a) == SumEstimates(AssignedTo(ts, a))
    decreases |ts|
  {
    if ts != [] {
      var init, t := ts[..|ts| - 1], ts[|ts| - 1];
      assert ts == init + [t];
      AssigneeStatsSums(init, a);
      AssignedToSnoc(init, t, a);
    }
  }

  /** `analytics`, without the floating-point rates. The status counts fit
      in the total, the priority counts add up to it, and the velocity is at
      most the estimate of all tasks. */
  function AnalyticsOf(ts: seq<Task>, now: int): (a: Analytics)
    ensures a.completedTasks + a.inProgressTasks + a.blockedTasks <= a.totalTasks
    ensures a.urgent + a.high + a.medium + a.low == a.totalTasks
    ensures a.velocity <= SumEstimates(ts)
  {
    StatusCountsPartition(ts);
    PriorityCountsPartition(ts);
    SumEstimatesFilterLe(ts, StatusIs(Done));
    Analytics(
      |ts|,
      |WithStatus(ts, Done)|,
      |WithStatus(ts, InProgress)|,
      |WithStatus(ts, Blocked)|,
      |Overdue(ts, now)|,
      SumEstimates(WithStatus(ts, Done)),
      |WithPriority(ts, Urgent)|,
      |WithPriority(ts, High)|,
      |WithPriority(ts, Medium)|,
      |WithPriority(ts, Low)|,
      AssigneeStats(ts))
  }

  /** The status a status card's caption stands for: `statusKey`, empty for
      any caption but the three. */
  function StatusKey(caption: string): string {
    if caption == "Completed" then "done"
    else if caption == "In Progress" then "in-progress"
    else if caption == "Blocked" then "blocked"
    else ""
  }

  /** The modal's selection; an empty string is no selection. */
  datatype Selection = Selection(status: string, priority: string)

  /** `handleStatusClick`: selects the status caption. */
  function StatusClick(sel: Selection, caption: string): (r: Selection)
    ensures r.status == caption && r.priority == sel.priority
  {
    sel.(status := caption)
  }

  /** `handlePriorityClick`: selects the priority caption and clears the
      status. */
  function PriorityClick(sel: Selection, caption: string): (r: Selection)
    ensures r.status == "" && r.priority == caption
  {
    Selection("", caption)
  }

  /** `filteredTasks`: a selected status wins; 'Overdue' lists the overdue
      tasks and other labels the tasks whose status is the caption's key; else
      a selected priority lists the tasks whose priority is the lowered
      caption; with nothing selected the list is empty. */
  function FilteredTasks(ts: seq<Task>, sel: Selection, now: int): (r: seq<Task>)
    ensures |r| <= |ts|
    ensures forall i :: 0 <= i < |r| ==> r[i] in ts
    ensures sel.status == "" && sel.priority == "" ==> r == []
  {
    if sel.status != "" then
      if sel.status == "Overdue" then Seqs.Filter(ts, OverdueAt(now))
      else Seqs.Filter(ts, (t: Task) => StatusName(t.status) == StatusKey(sel.status))
    else if sel.priority != "" then
      Seqs.Filter(ts, (t: Task) => PriorityName(t.priority) == LowerStr(sel.priority))
    else []
  }

  /** The status labels select exactly the done, in-progress, blocked and
      overdue tasks, in order; any other status caption selects nothing. */
  lemma StatusLabels(ts: seq<Task>, priority: string, now: int)
    ensures FilteredTasks(ts, Selection("Completed", priority), now) == WithStatus(ts, Done)
    ensures FilteredTasks(ts, Selection("In Progress", priority), now) == WithStatus(ts, InProgress)
    ensures FilteredTasks(ts, Selection("Blocked", priority), now) == WithStatus(ts, Blocked)
    ensures FilteredTasks(ts, Selection("Overdue", priority), now) == Overdue(ts, now)
  {
    Seqs.FilterCongruent(ts, (t: Task) => StatusName(t.status) == StatusKey("Completed"), StatusIs(Done));
    Seqs.FilterCongruent(ts, (t: Task) => StatusName(t.status) == StatusKey("In Progress"), StatusIs(InProgress));
    Seqs.FilterCongruent(ts, (t: Task) => StatusName(t.status) == StatusKey("Blocked"), StatusIs(Blocked));
  }

  /** A status caption other than the four selects nothing. */
  lemma OtherStatusLabel(ts: seq<Task>, sel: Selection, now: int)
    requires sel.status != "" && sel.status != "Overdue"
    requires sel.status != "Completed" && sel.status != "In Progress" && sel.status != "Blocked"
    ensures FilteredTasks(ts, sel, now) == []
  {
    Seqs.FilterNone(ts, (t: Task) => StatusName(t.status) == StatusKey(sel.status));
  }

  /** Every priority name is a lower-case word. */
  lemma PriorityNameLower(p: Priority)
    ensures IsLowerWord(PriorityName(p))
  {
  }

  /** Clicking a priority row, whose caption is the capitalised priority name,
      lists exactly the tasks of that priority. */
  lemma PriorityClickSelects(ts: seq<Task>, sel: Selection, p: Priority, now: int)
    ensures FilteredTasks(ts, PriorityClick(sel, Capitalize(PriorityName(p))), now) == WithPriority(ts, p)
  {
    PriorityNameLower(p);
    LowerCapitalize(PriorityName(p));
    var caption := Capitalize(PriorityName(p));
    assert caption != "";
    Seqs.FilterCongruent(ts, (t: Task) => PriorityName(t.priority) == LowerStr(caption), PriorityIs(p));
  }

  /** Updated times never rise along the list. */
  predicate NewestFirst(ts: seq<Task>) {
    forall i, j :: 0 <= i < j < |ts| ==> ts[i].updatedAt >= ts[j].updatedAt
  }

  /** Inserts `t` before the first task not newer than it, so that among
      tasks updated at the same time the earlier-listed one stays first. */
  function InsertNewest(t: Task, ts: seq<Task>): (r: seq<Task>)
    requires NewestFirst(ts)
    ensures NewestFirst(r)
    ensures multiset(r) == multiset(ts) + multiset{t}
    ensures forall i :: 0 <= i < |r| ==>
      r[i].updatedAt <= t.updatedAt || (ts != [] && r[i].updatedAt <= ts[0].updatedAt)
    decreases |ts|
  {
    if ts == [] || ts[0].updatedAt <= t.updatedAt then [t] + ts
    else
      var rest := InsertNewest(t, ts[1..]);
      assert ts == [ts[0]] + ts[1..];
      [ts[0]] + rest
  }

  /** `sort((a, b) => b.updatedAt - a.updatedAt)`: newest first, as a
      stable insertion sort. */
  function SortNewestFirst(ts: seq<Task>): (r: seq<Task>)
    ensures NewestFirst(r)
    ensures multiset(r) == multiset(ts)
    decreases |ts|
  {
    if ts == [] then []
    else
      assert ts == [ts[0]] + ts[1..];
      InsertNewest(ts[0], SortNewestFirst(ts[1..]))
  }

  /** Sorting only rearranges: every task of the sorted list is in the
      input. */
  lemma SortedFromInput(ts: seq<Task>)
    ensures forall i :: 0 <= i < |SortNewestFirst(ts)| ==> SortNewestFirst(ts)[i] in ts
  {
    var r := SortNewestFirst(ts);
    forall i | 0 <= i < |r| ensures r[i] in ts {
      assert r[i] in multiset(r);
    }
  }

  /** The "Recent Activity" list: the five newest done tasks, newest first. */
  function RecentActivity(ts: seq<Task>): (r: seq<Task>)
    ensures |r| <= 5
    ensures NewestFirst(r)
  {
    Seqs.Take(SortNewestFirst(WithStatus(ts, Done)), 5)
  }

  /** Every task of the list is a done task of the input. */
  lemma RecentActivityDone(ts: seq<Task>)
    ensures forall i :: 0 <= i < |RecentActivity(ts)| ==>
      RecentActivity(ts)[i].status == Done && RecentActivity(ts)[i] in ts
  {
    var done := WithStatus(ts, Done);
    var sorted := SortNewestFirst(done);
    var r := RecentActivity(ts);
    SortedFromInput(done);
    forall i | 0 <= i < |r| ensures r[i].status == Done && r[i] in ts {
      assert r[i] == sorted[i];
      assert sorted[i] in done;
      var k :| 0 <= k < |done| && done[k] == sorted[i];
    }
  }

  /** No done task left out of the list is newer than the last one shown,
      and the list is full whenever five tasks are done. */
  lemma RecentActivityIsNewest(ts: seq<Task>, k: int)
    requires 0 <= k < |ts| && ts[k].status == Done
    ensures |RecentActivity(ts)| == if |WithStatus(ts, Done)| < 5 then |WithStatus(ts, Done)| else 5
    ensures ts[k] in RecentActivity(ts) ||
      ts[k].updatedAt <= RecentActivity(ts)[|RecentActivity(ts)| - 1].updatedAt
  {
    var done := WithStatus(ts, Done);
    var sorted := SortNewestFirst(done);
    assert |sorted| == |done| by {
      assert |multiset(sorted)| == |multiset(done)|;
    }
    assert ts[k] in done;
    assert ts[k] in multiset(sorted);
    var j :| 0 <= j < |sorted| && sorted[j] == ts[k];
    if j >= 5 {
      assert sorted[4] == RecentActivity(ts)[4];
    }
  }
}
