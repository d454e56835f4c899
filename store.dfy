/** The store updates of the pages. Every handler rebuilds the task list with
    `tasks.map(t => t.id === id ? { ...t, <changes> } : t)`; the changes are
    one of the mutations below. */
module Store {
  import opened Tasks

  /** The record changes made by the pages' handlers. */
  datatype Mutation =
      /** Home: drop into a sprint bucket, deriving a due date from the bucket
          and stamping `updatedAt` with the time of the drop. */
    | DropIntoSprint(target: string, now: int)
      /** Home: clear `sprint` and `dueDate`, leaving `updatedAt` as it was. */
    | RemoveFromSprint
      /** Backlog: replace the status only. */
    | SetStatus(status: Status)
      /** Next Week and Today: replace the status and stamp `updatedAt`. */
    | SetStatusAt(status: Status, now: int)
      /** Next Week: put the task in the 'next-week' bucket and stamp `updatedAt`. */
    | MoveToNextWeek(now: int)
      /** Timeline: set the due date to the day dropped on and stamp `updatedAt`. */
    | Reschedule(day: int, now: int)

  /** The due date a drop on bucket `target` gives a task on day `today`:
      the day itself, the next day, the Saturday ending this week, or the
      Saturday a week after that; any other bucket keeps the due date. */
  function DueDateFor(target: string, today: int): (d: Option<int>)
    ensures d.Some? <==> target == "today" || target == "tomorrow" || target == "this-week" || target == "next-week"
    ensures d.Some? ==> today <= d.value <= today + 13
  {
    if target == "today" then Some(today)
    else if target == "tomorrow" then Some(today + 1)
    else if target == "this-week" then Some(today + (6 - Weekday(today)))
    else if target == "next-week" then Some(today + (6 - Weekday(today)) + 7)
    else None
  }

  /** The derived dates: 'this-week' is the first Saturday on or after today
      and 'next-week' is the Saturday seven days later. */
  lemma DueDateForSaturdays(today: int)
    ensures DueDateFor("today", today) == Some(today)
    ensures DueDateFor("tomorrow", today) == Some(today + 1)
    ensures var d := DueDateFor("this-week", today).value;
      Weekday(d) == 6 && today <= d <= today + 6 &&
      forall e :: today <= e < d ==> Weekday(e) != 6
    ensures var d := DueDateFor("next-week", today).value;
      Weekday(d) == 6 && d == DueDateFor("this-week", today).value + 7
  {
    var w := Weekday(today);
    var d := today + (6 - w);
    WeekdayShift(today, 6 - w);
    WeekdayShift(d, 1);
    forall e | today <= e < d ensures Weekday(e) != 6 {
      WeekdayShift(today, e - today);
    }
  }

  /** The record a mutation produces from a matching record. */
  function ApplyTo(t: Task, m: Mutation): (r: Task)
    ensures r.id == t.id && r.title == t.title && r.description == t.description
    ensures r.priority == t.priority && r.estimate == t.estimate
    ensures r.assignee == t.assignee && r.tags == t.tags && r.createdAt == t.createdAt
  {
    match m
    case DropIntoSprint(target, now) =>
      var due := DueDateFor(target, DayOf(now));
      t.(sprint := Some(target), dueDate := if due.Some? then due else t.dueDate, updatedAt := now)
    case RemoveFromSprint => t.(sprint := None, dueDate := None)
    case SetStatus(s) => t.(status := s)
    case SetStatusAt(s, now) => t.(status := s, updatedAt := now)
    case MoveToNextWeek(now) => t.(sprint := Some("next-week"), updatedAt := now)
    case Reschedule(day, now) => t.(dueDate := Some(day), updatedAt := now)
  }

  /** `tasks.map(t => t.id === id ? ApplyTo(t, m) : t)`: the same length,
      records with another id untouched, matching records replaced. */
  function Apply(ts: seq<Task>, id: string, m: Mutation): (r: seq<Task>)
    ensures |r| == |ts|
    ensures forall i :: 0 <= i < |ts| ==> r[i].id == ts[i].id
    ensures forall i :: 0 <= i < |ts| && ts[i].id != id ==> r[i] == ts[i]
    ensures forall i :: 0 <= i < |ts| && ts[i].id == id ==> r[i] == ApplyTo(ts[i], m)
    decreases |ts|
  {
    if ts == [] then []
    else [if ts[0].id == id then ApplyTo(ts[0], m) else ts[0]] + Apply(ts[1..], id, m)
  }

  /** The fields a mutation writes, and that it writes nothing else. */
  lemma MutationEffects(t: Task, m: Mutation)
    ensures m.DropIntoSprint? ==>
      var r := ApplyTo(t, m);
      var due := DueDateFor(m.target, DayOf(m.now));
      r == t.(sprint := Some(m.target), updatedAt := m.now,
              dueDate := if due.Some? then due else t.dueDate)
    ensures m.RemoveFromSprint? ==>
      ApplyTo(t, m) == t.(sprint := None, dueDate := None) && ApplyTo(t, m).updatedAt == t.updatedAt
    ensures m.SetStatus? ==>
      ApplyTo(t, m) == t.(status := m.status) && ApplyTo(t, m).updatedAt == t.updatedAt
    ensures m.SetStatusAt? ==> ApplyTo(t, m) == t.(status := m.status, updatedAt := m.now)
    ensures m.MoveToNextWeek? ==> ApplyTo(t, m) == t.(sprint := Some("next-week"), updatedAt := m.now)
    ensures m.Reschedule? ==> ApplyTo(t, m) == t.(dueDate := Some(m.day), updatedAt := m.now)
  {
  }

  /** The ids of the store, in order. */
  function Ids(ts: seq<Task>): (r: seq<string>)
    ensures |r| == |ts| && forall i :: 0 <= i < |ts| ==> r[i] == ts[i].id
  {
    seq(|ts|, i requires 0 <= i < |ts| => ts[i].id)
  }

  /** No id occurs twice in the store. */
  predicate UniqueIds(ts: seq<Task>) {
    forall i, j :: 0 <= i < j < |ts| ==> ts[i].id != ts[j].id
  }

  /** `updatedAt >= createdAt` for every record. */
  predicate Timestamped(ts: seq<Task>) {
    forall i :: 0 <= i < |ts| ==> ts[i].createdAt <= ts[i].updatedAt
  }

  /** The time a mutation stamps, if it stamps one. */
  function StampOf(m: Mutation): Option<int> {
    match m
    case DropIntoSprint(_, now) => Some(now)
    case SetStatusAt(_, now) => Some(now)
    case MoveToNextWeek(now) => Some(now)
    case Reschedule(_, now) => Some(now)
    case _ => None
  }

  /** A mutation keeps the store's ids, in order. */
  lemma ApplyKeepsIds(ts: seq<Task>, id: string, m: Mutation)
    ensures Ids(Apply(ts, id, m)) == Ids(ts)
  {
    assert forall i :: 0 <= i < |ts| ==> Ids(Apply(ts, id, m))[i] == Ids(ts)[i];
  }

  /** A mutation keeps the store's ids, in order, so unique ids stay unique;
      and when the time it stamps is not before the matching records were
      created it keeps `updatedAt >= createdAt`. */
  lemma ApplyKeepsInvariants(ts: seq<Task>, id: string, m: Mutation)
    requires StampOf(m).Some? ==>
      forall i :: 0 <= i < |ts| && ts[i].id == id ==> ts[i].createdAt <= StampOf(m).value
    ensures Ids(Apply(ts, id, m)) == Ids(ts)
    ensures UniqueIds(ts) ==> UniqueIds(Apply(ts, id, m))
    ensures Timestamped(ts) ==> Timestamped(Apply(ts, id, m))
  {
    var r := Apply(ts, id, m);
    if Timestamped(ts) {
      forall i | 0 <= i < |r| ensures r[i].createdAt <= r[i].updatedAt {
        if ts[i].id == id {
          MutationEffects(ts[i], m);
        }
      }
    }
  }

  /** Repeating a mutation changes nothing more: a second drop, move, status
      change or removal on the same id leaves the store as the first left it. */
  lemma {:induction false} ApplyIdempotent(ts: seq<Task>, id: string, m: Mutation)
    ensures Apply(Apply(ts, id, m), id, m) == Apply(ts, id, m)
    decreases |ts|
  {
    if ts != [] {
      ApplyIdempotent(ts[1..], id, m);
      assert Apply(ts, id, m)[1..] == Apply(ts[1..], id, m);
    }
  }
}
