/** The Timeline page: a Monday-to-Sunday week around the selected date,
    the searched tasks bucketed by due day, the workload of each day, the
    date picker's month grid, and rescheduling by drag and drop. */
module Timeline {
  import opened Tasks
  import opened Store
  import opened Text
  import Seqs

  /** `eachDayOfInterval`: steps a date from `start` while it is not after
      `end`, collecting each day. */
  method EachDayOfInterval(start: int, end: int) returns (days: seq<int>)
    ensures |days| == if start <= end then end - start + 1 else 0
    ensures forall i :: 0 <= i < |days| ==> days[i] == start + i
  {
    days := [];
    var current := start;
    while current <= end
      invariant current == start + |days|
      invariant start <= end ==> current <= end + 1
      invariant start > end ==> days == []
      invariant forall i :: 0 <= i < |days| ==> days[i] == start + i
      decreases end - current
    {
      days := days + [current];
      current := current + 1;
    }
  }

  /** The Monday on or before a day: back `getDay() - 1` days, or six days
      from a Sunday. It is a Monday no more than six days before the day. */
  function WeekStart(d: int): (s: int)
    ensures Weekday(s) == 1
    ensures s <= d <= s + 6
  {
    var w := Weekday(d);
    var s := d - w + (if w == 0 then -6 else 1);
    WeekdayShift(s, d - s);
    s
  }

  /** Days of the same Monday-to-Sunday week share their week start, and a
      week later the start is seven days later. */
  lemma WeekStartShift(d: int)
    ensures WeekStart(d + 7) == WeekStart(d) + 7
  {
    WeekdayShift(d, 1);
  }

  /** `getWeekDays`: from the week's Monday, seven consecutive days. */
  method GetWeekDays(selected: int) returns (days: seq<int>)
    ensures |days| == 7
    ensures forall i :: 0 <= i < 7 ==> days[i] == WeekStart(selected) + i
    ensures Weekday(days[0]) == 1 && selected in days
  {
    var start := WeekStart(selected);
    days := [];
    var i := 0;
    while i < 7
      invariant 0 <= i <= 7 && |days| == i
      invariant forall k :: 0 <= k < i ==> days[k] == start + k
    {
      days := days + [start + i];
      i := i + 1;
    }
    assert days[selected - start] == selected;
  }

  /** The search of the Timeline: the lowered title or description includes
      the lowered term (with no special case for an empty term). */
  predicate SearchHit(t: Task, term: string) {
    Contains(LowerStr(t.title), LowerStr(term)) || Contains(LowerStr(t.description), LowerStr(term))
  }

  /** `filteredTasks`. */
  function SearchFilter(ts: seq<Task>, term: string): (r: seq<Task>)
    ensures forall i :: 0 <= i < |r| ==> SearchHit(r[i], term) && r[i] in ts
    ensures forall i :: 0 <= i < |ts| && SearchHit(ts[i], term) ==> ts[i] in r
  {
    Seqs.Filter(ts, (t: Task) => SearchHit(t, term))
  }

  /** Every string includes the empty string, so the empty term keeps every
      task. */
  lemma EmptySearchKeepsAll(ts: seq<Task>)
    ensures SearchFilter(ts, "") == ts
  {
    forall i | 0 <= i < |ts| ensures SearchHit(ts[i], "") {
      ContainsEmpty(LowerStr(ts[i].title));
    }
    Seqs.FilterAll(ts, (t: Task) => SearchHit(t, ""));
  }

  /** The tasks due on a day, in order. */
  function DueOn(ts: seq<Task>, day: int): (r: seq<Task>)
    ensures forall i :: 0 <= i < |r| ==> r[i].dueDate == Some(day) && r[i] in ts
    ensures forall i :: 0 <= i < |ts| && ts[i].dueDate == Some(day) ==> ts[i] in r
  {
    Seqs.Filter(ts, (t: Task) => t.dueDate == Some(day))
  }

  /** `tasksForWeek`: for each day, the searched tasks due that day. */
  function TasksForWeek(ts: seq<Task>, days: seq<int>, term: string): (r: seq<seq<Task>>)
    ensures |r| == |days|
    ensures forall i :: 0 <= i < |days| ==> r[i] == DueOn(SearchFilter(ts, term), days[i])
  {
    seq(|days|, i requires 0 <= i < |days| => DueOn(SearchFilter(ts, term), days[i]))
  }

  /** A task is in a day's bucket exactly when it matches the search and is
      due that day; on distinct days no task is in two buckets. */
  lemma BucketsExact(ts: seq<Task>, days: seq<int>, term: string, i: int, j: int, t: Task)
    requires 0 <= i < |days| && 0 <= j < |days| && days[i] != days[j]
    ensures t in TasksForWeek(ts, days, term)[i] <==> t in ts && SearchHit(t, term) && t.dueDate == Some(days[i])
    ensures !(t in TasksForWeek(ts, days, term)[i] && t in TasksForWeek(ts, days, term)[j])
  {
    var f := SearchFilter(ts, term);
    var b := TasksForWeek(ts, days, term)[i];
    if t in b {
      var k :| 0 <= k < |b| && b[k] == t;
      assert t in f;
      var m :| 0 <= m < |f| && f[m] == t;
    }
    if t in ts && SearchHit(t, term) && t.dueDate == Some(days[i]) {
      var k :| 0 <= k < |ts| && ts[k] == t;
      assert t in f;
      var m :| 0 <= m < |f| && f[m] == t;
    }
    if t in TasksForWeek(ts, days, term)[j] {
      var bj := TasksForWeek(ts, days, term)[j];
      var k :| 0 <= k < |bj| && bj[k] == t;
    }
  }

  /** Each task's estimate is at most the summed estimate of its list. */
  lemma {:induction false} EachEstimateAtMostSum(ts: seq<Task>)
    ensures forall i :: 0 <= i < |ts| ==> ts[i].estimate <= SumEstimates(ts)
    decreases |ts|
  {
    if ts != [] {
      EachEstimateAtMostSum(ts[1..]);
      assert forall i :: 1 <= i < |ts| ==> ts[i] == ts[1..][i - 1];
    }
  }

  /** `getTotalEstimate`: the summed estimate of a day's tasks, zero for none
      and at least each task's own estimate. */
  function TotalEstimate(dayTasks: seq<Task>): (n: nat)
    ensures dayTasks == [] ==> n == 0
    ensures forall i :: 0 <= i < |dayTasks| ==> dayTasks[i].estimate <= n
  {
    EachEstimateAtMostSum(dayTasks);
    SumEstimates(dayTasks)
  }

  /** The colour classes of `getWorkloadColor`. */
  datatype Workload = Empty | Light | Moderate | Heavy

  function WorkloadRank(w: Workload): int {
    match w
    case Empty => 0
    case Light => 1
    case Moderate => 2
    case Heavy => 3
  }

  /** `getWorkloadColor`: empty for 0, green up to 5, yellow up to 10, red
      above. */
  function WorkloadColor(estimate: int): (w: Workload)
    ensures w == Empty <==> estimate == 0
    ensures w == Light <==> estimate != 0 && estimate <= 5
    ensures w == Moderate <==> 5 < estimate <= 10
    ensures w == Heavy <==> 10 < estimate
  {
    if estimate == 0 then Empty
    else if estimate <= 5 then Light
    else if estimate <= 10 then Moderate
    else Heavy
  }

  /** More work never shows a lighter colour. */
  lemma WorkloadMonotone(a: nat, b: nat)
    requires a <= b
    ensures WorkloadRank(WorkloadColor(a)) <= WorkloadRank(WorkloadColor(b))
  {
  }

  /** `paddingDays`: the empty cells before the first of the month in a
      Monday-first grid, six when the month starts on a Sunday. */
  function PaddingDays(firstDay: int): (p: int)
    ensures 0 <= p <= 6
    ensures p == 6 <==> Weekday(firstDay) == 0
    ensures p == (Weekday(firstDay) + 6) % 7
  {
    if Weekday(firstDay) == 0 then 6 else Weekday(firstDay) - 1
  }

  /** The padding is how far the first of the month lies from its week's
      Monday. */
  lemma PaddingIsOffsetFromMonday(firstDay: int)
    ensures PaddingDays(firstDay) == firstDay - WeekStart(firstDay)
  {
  }

  datatype Direction = Prev | Next

  /** `navigateWeek`: seven days on or back. */
  function Navigate(d: int, dir: Direction): (r: int)
    ensures dir == Next ==> r == d + 7
    ensures dir == Prev ==> r == d - 7
  {
    d + (if dir == Next then 7 else -7)
  }

  /** 'next' then 'prev' comes back, and the shown week moves by seven days. */
  lemma NavigateRoundTrip(d: int)
    ensures Navigate(Navigate(d, Next), Prev) == d
    ensures Navigate(Navigate(d, Prev), Next) == d
    ensures WeekStart(Navigate(d, Next)) == WeekStart(d) + 7
  {
    WeekStartShift(d);
  }

  /** The page's state cells. */
  class TimelinePage {
    var tasks: seq<Task>
    var selectedDate: int
    var searchTerm: string
    var showDatePicker: bool

    constructor(initial: seq<Task>, today: int)
      ensures tasks == initial && selectedDate == today && searchTerm == "" && !showDatePicker
    {
      tasks := initial;
      selectedDate := today;
      searchTerm := "";
      showDatePicker := false;
    }

    /** `navigateWeek`. */
    method NavigateWeek(dir: Direction)
      modifies this
      ensures selectedDate == Navigate(old(selectedDate), dir)
      ensures tasks == old(tasks) && searchTerm == old(searchTerm) && showDatePicker == old(showDatePicker)
    {
      selectedDate := Navigate(selectedDate, dir);
    }

    /** `handleDateChange`: selects the day and closes the picker. */
    method HandleDateChange(d: int)
      modifies this
      ensures selectedDate == d && !showDatePicker
      ensures tasks == old(tasks) && searchTerm == old(searchTerm)
    {
      selectedDate := d;
      showDatePicker := false;
    }

    /** The "Jump to Date" button: opens the picker when closed, closes it
        when open. */
    method ToggleDatePicker()
      modifies this
      ensures showDatePicker == !old(showDatePicker)
      ensures tasks == old(tasks) && selectedDate == old(selectedDate) && searchTerm == old(searchTerm)
    {
      showDatePicker := !showDatePicker;
    }

    /** A click on the backdrop: closes the picker. */
    method CloseDatePicker()
      modifies this
      ensures !showDatePicker
      ensures tasks == old(tasks) && selectedDate == old(selectedDate) && searchTerm == old(searchTerm)
    {
      showDatePicker := false;
    }

    /** Typing into the search box. */
    method SetSearchTerm(term: string)
      modifies this
      ensures searchTerm == term
      ensures tasks == old(tasks) && selectedDate == old(selectedDate) && showDatePicker == old(showDatePicker)
    {
      searchTerm := term;
    }

    /** `handleDrop`: the task is due on the day dropped on, updated now. */
    method HandleDrop(id: string, day: int, now: int)
      modifies this
      ensures tasks == Apply(old(tasks), id, Reschedule(day, now))
      ensures selectedDate == old(selectedDate) && searchTerm == old(searchTerm)
      ensures showDatePicker == old(showDatePicker)
    {
      tasks := Apply(tasks, id, Reschedule(day, now));
    }

    /** `tasksForWeek` of the current state. */
    method WeekBuckets() returns (buckets: seq<seq<Task>>)
      ensures |buckets| == 7
      ensures forall i :: 0 <= i < 7 ==>
        buckets[i] == DueOn(SearchFilter(tasks, searchTerm), WeekStart(selectedDate) + i)
    {
      var days := GetWeekDays(selectedDate);
      buckets := TasksForWeek(tasks, days, searchTerm);
    }
  }
}
