/** The task record the pages share, its enumerations, calendar days and
    timestamps, and the counts and sums the pages compute over task lists. */
module Tasks {
  import Seqs

  datatype Option<T> = None | Some(value: T)

  datatype Status = Todo | InProgress | Blocked | Done

  datatype Priority = Urgent | High | Medium | Low

  /** The string the source stores for a status. */
  function StatusName(s: Status): string {
    match s
    case Todo => "todo"
    case InProgress => "in-progress"
    case Blocked => "blocked"
    case Done => "done"
  }

  /** The string the source stores for a priority. */
  function PriorityName(p: Priority): string {
    match p
    case Urgent => "urgent"
    case High => "high"
    case Medium => "medium"
    case Low => "low"
  }

  /** A task. Dates are day numbers (day 0 is 1970-01-01) and timestamps are
      milliseconds since that day began; an absent optional field is `None`. */
  datatype Task = Task(
    id: string,
    title: string,
    description: string,
    status: Status,
    priority: Priority,
    estimate: nat,
    assignee: Option<string>,
    dueDate: Option<int>,
    tags: seq<string>,
    sprint: Option<string>,
    createdAt: int,
    updatedAt: int)

  const MsPerDay: int := 86400000

  /** `getDay()` of a day: 0 is Sunday, 6 is Saturday; day 0 was a Thursday. */
  function Weekday(d: int): (w: int)
    ensures 0 <= w < 7
  {
    (d + 4) % 7
  }

  /** Seven consecutive days take every weekday once. */
  lemma WeekdayShift(d: int, k: int)
    ensures Weekday(d + k) == (Weekday(d) + k) % 7
    ensures Weekday(d + 7 * k) == Weekday(d)
  {
    var q := (d + 4) / 7;
    assert d + 4 == 7 * q + Weekday(d);
    assert d + k + 4 == 7 * q + (Weekday(d) + k);
    assert d + 7 * k + 4 == 7 * (q + k) + Weekday(d);
  }

  /** The timestamp at which a day begins (`new Date('YYYY-MM-DD')`). */
  function DayStart(d: int): int {
    d * MsPerDay
  }

  /** The day a timestamp falls on (`toDateString()` equality). */
  function DayOf(ts: int): (d: int)
    ensures DayStart(d) <= ts < DayStart(d + 1)
  {
    ts / MsPerDay
  }

  /** A task with a due date before `now` that is not done
      (`task.dueDate && new Date(task.dueDate) < new Date() && task.status !== 'done'`). */
  predicate IsOverdue(t: Task, now: int) {
    t.dueDate.Some? && DayStart(t.dueDate.value) < now && t.status != Done
  }

  /** `task.assignee` is truthy: present and not the empty string. */
  predicate HasAssignee(t: Task) {
    t.assignee.Some? && t.assignee.value != ""
  }

  /** `!task.sprint`: no sprint, or the empty string. */
  predicate IsUnsprinted(t: Task) {
    t.sprint.None? || t.sprint.value == ""
  }

  /** `tasks.reduce((sum, task) => sum + task.estimate, 0)`. */
  function SumEstimates(ts: seq<Task>): nat {
    if ts == [] then 0 else ts[0].estimate + SumEstimates(ts[1..])
  }

  /** The sum over a concatenation is the sum of the sums. */
  lemma {:induction false} SumEstimatesAppend(a: seq<Task>, b: seq<Task>)
    ensures SumEstimates(a + b) == SumEstimates(a) + SumEstimates(b)
    decreases |a|
  {
    if a == [] {
      assert a + b == b;
    } else {
      assert (a + b)[1..] == a[1..] + b;
      SumEstimatesAppend(a[1..], b);
    }
  }

  /** The test `task.status === s`. */
  function StatusIs(s: Status): Task -> bool {
    (t: Task) => t.status == s
  }

  /** The test `task.priority === p`. */
  function PriorityIs(p: Priority): Task -> bool {
    (t: Task) => t.priority == p
  }

  /** The overdue test at time `now`. */
  function OverdueAt(now: int): Task -> bool {
    (t: Task) => IsOverdue(t, now)
  }

  /** The tasks with a given status, in order. */
  function WithStatus(ts: seq<Task>, s: Status): (r: seq<Task>)
    ensures forall i :: 0 <= i < |r| ==> r[i].status == s && r[i] in ts
    ensures forall i :: 0 <= i < |ts| && ts[i].status == s ==> ts[i] in r
  {
    Seqs.Filter(ts, StatusIs(s))
  }

  /** The tasks with a given priority, in order. */
  function WithPriority(ts: seq<Task>, p: Priority): (r: seq<Task>)
    ensures forall i :: 0 <= i < |r| ==> r[i].priority == p && r[i] in ts
    ensures forall i :: 0 <= i < |ts| && ts[i].priority == p ==> ts[i] in r
  {
    Seqs.Filter(ts, PriorityIs(p))
  }

  /** The overdue tasks, in order. */
  function Overdue(ts: seq<Task>, now: int): (r: seq<Task>)
    ensures forall i :: 0 <= i < |r| ==> IsOverdue(r[i], now) && r[i] in ts
    ensures forall i :: 0 <= i < |ts| && IsOverdue(ts[i], now) ==> ts[i] in r
  {
    Seqs.Filter(ts, OverdueAt(now))
  }

  /** The estimates of a sublist kept by a filter never exceed the total. */
  lemma {:induction false} SumEstimatesFilterLe(ts: seq<Task>, p: Task -> bool)
    ensures SumEstimates(Seqs.Filter(ts, p)) <= SumEstimates(ts)
    decreases |ts|
  {
    if ts != [] {
      SumEstimatesFilterLe(ts[1..], p);
      var head := if p(ts[0]) then [ts[0]] else [];
      SumEstimatesAppend(head, Seqs.Filter(ts[1..], p));
    }
  }

  /** Every task has exactly one status, so the four status counts add up to
      the number of tasks. */
  lemma {:induction false} StatusCountsPartition(ts: seq<Task>)
    ensures |WithStatus(ts, Todo)| + |WithStatus(ts, InProgress)|
          + |WithStatus(ts, Blocked)| + |WithStatus(ts, Done)| == |ts|
    decreases |ts|
  {
    if ts != [] {
      StatusCountsPartition(ts[1..]);
    }
  }

  /** Every task has exactly one priority, so the four priority counts add up
      to the number of tasks. */
  lemma {:induction false} PriorityCountsPartition(ts: seq<Task>)
    ensures |WithPriority(ts, Urgent)| + |WithPriority(ts, High)|
          + |WithPriority(ts, Medium)| + |WithPriority(ts, Low)| == |ts|
    decreases |ts|
  {
    if ts != [] {
      PriorityCountsPartition(ts[1..]);
    }
  }
}
