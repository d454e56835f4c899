/** The Today page: which tasks belong to today, their urgent-high-rest
    arrangement, the day's statistics, the status buttons and the quick
    note. */
module Today {
  import opened Tasks
  import opened Store
  import opened Text
  import Seqs

  /** A task belongs to today when it is due today, or when it is in the
      'this-week' sprint and either in progress or last updated today. */
  predicate BelongsToday(t: Task, today: int) {
    t.dueDate == Some(today) ||
    (t.sprint == Some("this-week") && (t.status == InProgress || DayOf(t.updatedAt) == today))
  }

  /** `todaysTasks`. */
  function TodaysTasks(ts: seq<Task>, today: int): (r: seq<Task>)
    ensures forall i :: 0 <= i < |r| ==> BelongsToday(r[i], today) && r[i] in ts
    ensures forall i :: 0 <= i < |ts| && BelongsToday(ts[i], today) ==> ts[i] in r
  {
    Seqs.Filter(ts, (t: Task) => BelongsToday(t, today))
  }

  /** The three groups of `tasksByPriority`: urgent 2, high 1, the rest 0. */
  function Group(t: Task): (g: int)
    ensures 0 <= g <= 2
  {
    if t.priority == Urgent then 2 else if t.priority == High then 1 else 0
  }

  predicate IsUrgent(t: Task) { t.priority == Urgent }
  predicate IsHigh(t: Task) { t.priority == High }
  predicate IsOther(t: Task) { !(t.priority == Urgent || t.priority == High) }

  /** `tasksByPriority`: the urgent tasks, then the high ones, then the rest,
      each group taken in list order. It is a permutation of today's tasks. */
  function ByPriority(ts: seq<Task>): (r: seq<Task>)
    ensures |r| == |ts|
    ensures multiset(r) == multiset(ts)
  {
    PartitionLength(ts);
    Seqs.FilterPartitionMultiset(ts, IsUrgent, IsHigh, IsOther);
    Seqs.Filter(ts, IsUrgent) + Seqs.Filter(ts, IsHigh) + Seqs.Filter(ts, IsOther)
  }

  /** Groups never rise along `tasksByPriority`. */
  lemma ByPriorityGrouped(ts: seq<Task>)
    ensures forall i, j :: 0 <= i < j < |ByPriority(ts)| ==>
      Group(ByPriority(ts)[i]) >= Group(ByPriority(ts)[j])
  {
    var u := Seqs.Filter(ts, IsUrgent);
    var h := Seqs.Filter(ts, IsHigh);
    var r := ByPriority(ts);
    forall i | 0 <= i < |r|
      ensures Group(r[i]) == if i < |u| then 2 else if i < |u| + |h| then 1 else 0
    {
      if i < |u| {
        assert r[i] == u[i];
      } else if i < |u| + |h| {
        assert r[i] == h[i - |u|];
      }
    }
  }

  /** Every task is in exactly one group, so the three groups together are as
      long as the list. */
  lemma {:induction false} PartitionLength(ts: seq<Task>)
    ensures |Seqs.Filter(ts, IsUrgent)| + |Seqs.Filter(ts, IsHigh)| + |Seqs.Filter(ts, IsOther)| == |ts|
    decreases |ts|
  {
    if ts != [] {
      PartitionLength(ts[1..]);
    }
  }

  /** The test `t => group(t) == g`. */
  function GroupIs(g: int): Task -> bool {
    (t: Task) => Group(t) == g
  }

  /** The test that passes no task. */
  function NoTask(): Task -> bool {
    (t: Task) => false
  }

  /** Picking group `g` out of a list's group `k`: the list's group `g` when
      the two are the same group, nothing otherwise. */
  lemma GroupPart(ts: seq<Task>, p: Task -> bool, k: int, g: int)
    requires forall t :: p(t) <==> Group(t) == k
    ensures Seqs.Filter(Seqs.Filter(ts, p), GroupIs(g)) == if g == k then Seqs.Filter(ts, GroupIs(g)) else []
  {
    if g == k {
      Seqs.FilterFilter(ts, p, GroupIs(g), GroupIs(g));
    } else {
      Seqs.FilterFilter(ts, p, GroupIs(g), NoTask());
      Seqs.FilterNone(ts, NoTask());
    }
  }

  /** Picking group `g` out of the three groups laid end to end gives what
      picking it out of the list gives. */
  lemma GroupsConcatKeepGroup(ts: seq<Task>, g: int)
    ensures Seqs.Filter(Seqs.Filter(ts, IsUrgent) + Seqs.Filter(ts, IsHigh) + Seqs.Filter(ts, IsOther), GroupIs(g))
         == Seqs.Filter(ts, GroupIs(g))
  {
    var q := GroupIs(g);
    var u := Seqs.Filter(ts, IsUrgent);
    var h := Seqs.Filter(ts, IsHigh);
    var o := Seqs.Filter(ts, IsOther);
    Seqs.FilterAppend(u + h, o, q);
    Seqs.FilterAppend(u, h, q);
    GroupPart(ts, IsUrgent, 2, g);
    GroupPart(ts, IsHigh, 1, g);
    GroupPart(ts, IsOther, 0, g);
    if g != 0 && g != 1 && g != 2 {
      Seqs.FilterNone(ts, q);
    }
  }

  /** Each group keeps its tasks in their original order: picking one group
      out of `tasksByPriority` gives what picking it out of the input gives. */
  lemma ByPriorityKeepsGroupOrder(ts: seq<Task>, g: int)
    ensures Seqs.Filter(ByPriority(ts), GroupIs(g)) == Seqs.Filter(ts, GroupIs(g))
  {
    GroupsConcatKeepGroup(ts, g);
  }

  /** `stats`: the day's done, in-progress, blocked and overdue counts. */
  datatype Stats = Stats(completed: nat, inProgress: nat, blocked: nat, overdue: nat)

  /** The three status counts never exceed the number of today's tasks, and
      overdue tasks, never done, fit beside the done ones. */
  function StatsOf(todays: seq<Task>, now: int): (s: Stats)
    ensures s.completed + s.inProgress + s.blocked <= |todays|
    ensures s.completed + s.overdue <= |todays|
  {
    StatusCountsPartition(todays);
    DoneAndOverdueFit(todays, now);
    Stats(|WithStatus(todays, Done)|, |WithStatus(todays, InProgress)|,
          |WithStatus(todays, Blocked)|, |Overdue(todays, now)|)
  }

  /** An overdue task is never done, so done and overdue tasks together are
      at most all of them. */
  lemma {:induction false} DoneAndOverdueFit(ts: seq<Task>, now: int)
    ensures |WithStatus(ts, Done)| + |Overdue(ts, now)| <= |ts|
    decreases |ts|
  {
    if ts != [] {
      DoneAndOverdueFit(ts[1..], now);
    }
  }

  /** The status buttons a task card offers, in display order: in progress
      can pause (to do) or finish; to do and blocked can start or finish;
      done offers none. */
  function Actions(s: Status): (r: seq<Status>)
    ensures s !in r
    ensures Done in r <==> s != Done
    ensures InProgress in r <==> (s == Todo || s == Blocked)
    ensures Todo in r <==> s == InProgress
    ensures Blocked !in r
  {
    match s
    case InProgress => [Todo, Done]
    case Todo => [InProgress, Done]
    case Blocked => [InProgress, Done]
    case Done => []
  }

  /** The page's state cells. */
  class TodayPage {
    var tasks: seq<Task>
    var quickNote: string

    constructor(initial: seq<Task>)
      ensures tasks == initial && quickNote == ""
    {
      tasks := initial;
      quickNote := "";
    }

    /** `updateTaskStatus`: the status and the update time of the task. */
    method UpdateTaskStatus(id: string, s: Status, now: int)
      modifies this
      ensures tasks == Apply(old(tasks), id, SetStatusAt(s, now)) && quickNote == old(quickNote)
    {
      tasks := Apply(tasks, id, SetStatusAt(s, now));
    }

    /** Typing into the note box. */
    method SetQuickNote(text: string)
      modifies this
      ensures quickNote == text && tasks == old(tasks)
    {
      quickNote := text;
    }

    /** The save button is enabled exactly when the note is not blank. */
    method CanSaveNote() returns (enabled: bool)
      ensures enabled <==> !IsBlank(quickNote)
    {
      TrimEmptyIffBlank(quickNote);
      enabled := Trim(quickNote) != "";
    }

    /** `addQuickNote`: a blank note is ignored; any other is cleared (its
        logging is not modelled). */
    method AddQuickNote()
      modifies this
      ensures IsBlank(old(quickNote)) ==> quickNote == old(quickNote)
      ensures !IsBlank(old(quickNote)) ==> quickNote == ""
      ensures tasks == old(tasks)
    {
      TrimEmptyIffBlank(quickNote);
      if Trim(quickNote) != "" {
        quickNote := "";
      }
    }
  }
}
