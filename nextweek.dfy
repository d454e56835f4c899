/** The Next Week page: the tasks planned for next week, the committed
    estimate kept against a fixed capacity, the suggestions from the backlog
    and the handlers that move tasks into next week. */
module NextWeek {
  import opened Tasks
  import opened Store
  import Seqs

  /** A task is planned for next week. */
  predicate InNextWeek(t: Task) {
    t.sprint == Some("next-week")
  }

  /** `nextWeekTasks`: exactly the tasks in the 'next-week' sprint, in order. */
  function NextWeekTasks(ts: seq<Task>): (r: seq<Task>)
    ensures forall i :: 0 <= i < |r| ==> InNextWeek(r[i]) && r[i] in ts
    ensures forall i :: 0 <= i < |ts| && InNextWeek(ts[i]) ==> ts[i] in r
  {
    Seqs.Filter(ts, InNextWeek)
  }

  /** A backlog task still to do, urgent or high. */
  predicate Suggestible(t: Task) {
    t.sprint == Some("backlog") && t.status == Todo && (t.priority == Urgent || t.priority == High)
  }

  /** `suggestedTasks`: the first three suggestible tasks in store order
      (fewer when there are fewer). */
  function Suggested(ts: seq<Task>): (r: seq<Task>)
    ensures |r| <= 3
    ensures forall i :: 0 <= i < |r| ==> Suggestible(r[i]) && r[i] in ts
    ensures |Seqs.Filter(ts, Suggestible)| <= 3 ==> r == Seqs.Filter(ts, Suggestible)
    ensures var f := Seqs.Filter(ts, Suggestible);
      |r| == (if |f| < 3 then |f| else 3) && forall i :: 0 <= i < |r| ==> r[i] == f[i]
  {
    Seqs.Take(Seqs.Filter(ts, Suggestible), 3)
  }

  /** Only the first three suggestible tasks are ever suggested: tasks after
      them change nothing. */
  lemma SuggestedIgnoresLater(a: seq<Task>, b: seq<Task>)
    requires |Seqs.Filter(a, Suggestible)| >= 3
    ensures Suggested(a + b) == Suggested(a)
  {
    Seqs.FilterAppend(a, b, Suggestible);
  }

  /** A moved task is in next week and so no longer suggestible. */
  lemma MovedIsInNextWeek(ts: seq<Task>, id: string, now: int, k: int)
    requires 0 <= k < |ts| && ts[k].id == id
    ensures var r := Apply(ts, id, MoveToNextWeek(now));
      InNextWeek(r[k]) && !Suggestible(r[k])
  {
    MutationEffects(ts[k], MoveToNextWeek(now));
  }

  /** Moving a task into next week takes it out of the suggestions and puts
      it among next week's tasks. */
  lemma MoveLeavesSuggestions(ts: seq<Task>, id: string, now: int)
    ensures var r := Apply(ts, id, MoveToNextWeek(now));
      (forall i :: 0 <= i < |Suggested(r)| ==> Suggested(r)[i].id != id) &&
      (forall i :: 0 <= i < |r| && r[i].id == id ==> r[i] in NextWeekTasks(r))
  {
    var r := Apply(ts, id, MoveToNextWeek(now));
    var sg := Suggested(r);
    forall i | 0 <= i < |sg| ensures sg[i].id != id {
      assert Suggestible(sg[i]) && sg[i] in r;
      var k :| 0 <= k < |r| && r[k] == sg[i];
      if r[k].id == id {
        MovedIsInNextWeek(ts, id, now, k);
      }
    }
    forall i | 0 <= i < |r| && r[i].id == id ensures r[i] in NextWeekTasks(r) {
      MovedIsInNextWeek(ts, id, now, i);
    }
  }

  /** The estimate committed to next week is that of the first task, if it
      is planned for next week, plus that of the rest. */
  lemma CommittedCons(ts: seq<Task>)
    requires ts != []
    ensures SumEstimates(NextWeekTasks(ts)) ==
      (if InNextWeek(ts[0]) then ts[0].estimate else 0) + SumEstimates(NextWeekTasks(ts[1..]))
  {
    var head := if InNextWeek(ts[0]) then [ts[0]] else [];
    assert NextWeekTasks(ts) == head + NextWeekTasks(ts[1..]);
    SumEstimatesAppend(head, NextWeekTasks(ts[1..]));
  }

  /** Moving tasks into next week never lowers the committed estimate. */
  lemma {:induction false} MoveNeverLowersCommitted(ts: seq<Task>, id: string, now: int)
    ensures SumEstimates(NextWeekTasks(Apply(ts, id, MoveToNextWeek(now)))) >= SumEstimates(NextWeekTasks(ts))
    decreases |ts|
  {
    if ts != [] {
      var m := MoveToNextWeek(now);
      var r := Apply(ts, id, m);
      MoveNeverLowersCommitted(ts[1..], id, now);
      assert r[1..] == Apply(ts[1..], id, m);
      CommittedCons(ts);
      CommittedCons(r);
      if ts[0].id == id {
        MovedIsInNextWeek(ts, id, now, 0);
      }
    }
  }

  /** Every task sharing an id with one of the first `k` of `moved` is in
      next week. */
  predicate AllMoved(ts: seq<Task>, moved: seq<Task>, k: int)
    requires 0 <= k <= |moved|
  {
    forall j, i :: 0 <= j < k && 0 <= i < |ts| ==> (ts[i].id == moved[j].id ==> InNextWeek(ts[i]))
  }

  /** Moving the next task of `moved` extends `AllMoved` by one. */
  lemma MoveStep(ts: seq<Task>, moved: seq<Task>, k: int, now: int)
    requires 0 <= k < |moved| && AllMoved(ts, moved, k)
    ensures AllMoved(Apply(ts, moved[k].id, MoveToNextWeek(now)), moved, k + 1)
  {
    var r := Apply(ts, moved[k].id, MoveToNextWeek(now));
    forall j, i | 0 <= j < k + 1 && 0 <= i < |r| && r[i].id == moved[j].id
      ensures InNextWeek(r[i])
    {
      if ts[i].id == moved[k].id {
        MovedIsInNextWeek(ts, moved[k].id, now, i);
      } else {
        assert r[i] == ts[i];
      }
    }
  }

  /** `cur` is `orig` with every task sharing an id with one of the first `k`
      of `moved` put into next week at `now`, and every other task as it
      was. */
  predicate MovedState(orig: seq<Task>, cur: seq<Task>, moved: seq<Task>, k: int, now: int)
    requires 0 <= k <= |moved|
  {
    && |cur| == |orig|
    && forall i :: 0 <= i < |orig| ==>
      cur[i] == (if exists j :: 0 <= j < k && moved[j].id == orig[i].id
                 then orig[i].(sprint := Some("next-week"), updatedAt := now)
                 else orig[i])
  }

  /** Moving the next task of `moved` at the same `now` extends `MovedState`
      by one: a task moved twice ends as it was after the first move. */
  lemma MovedStateStep(orig: seq<Task>, cur: seq<Task>, moved: seq<Task>, k: int, now: int)
    requires 0 <= k < |moved| && MovedState(orig, cur, moved, k, now)
    ensures MovedState(orig, Apply(cur, moved[k].id, MoveToNextWeek(now)), moved, k + 1, now)
  {
    var m := MoveToNextWeek(now);
    var r := Apply(cur, moved[k].id, m);
    forall i | 0 <= i < |orig|
      ensures r[i] == (if exists j :: 0 <= j < k + 1 && moved[j].id == orig[i].id
                       then orig[i].(sprint := Some("next-week"), updatedAt := now)
                       else orig[i])
    {
      assert cur[i].id == orig[i].id;
      if orig[i].id == moved[k].id {
        MutationEffects(cur[i], m);
        assert r[i] == orig[i].(sprint := Some("next-week"), updatedAt := now);
      } else {
        assert r[i] == cur[i];
        if exists j :: 0 <= j < k + 1 && moved[j].id == orig[i].id {
          var j :| 0 <= j < k + 1 && moved[j].id == orig[i].id;
          assert j < k;
        }
      }
    }
  }

  /** `SprintCapacity.unit`. */
  datatype Unit = Points | Hours

  /** The page's state cells: the tasks and the capacity record. */
  class NextWeekPage {
    var tasks: seq<Task>
    var committed: int
    var capacity: int
    var unit: Unit

    /** The committed estimate is that of next week's tasks (the effect
        that runs `updateCapacity` whenever they change has run), and the
        capacity stays 24 points. */
    predicate Valid()
      reads this
    {
      committed == SumEstimates(NextWeekTasks(tasks)) && capacity == 24 && unit == Points
    }

    /** The initial state, once the effect has run. */
    constructor(initial: seq<Task>)
      ensures Valid() && tasks == initial
    {
      tasks := initial;
      committed := SumEstimates(NextWeekTasks(initial));
      capacity := 24;
      unit := Points;
    }

    /** `updateCapacity`: recomputes the committed estimate only. */
    method UpdateCapacity()
      modifies this
      ensures committed == SumEstimates(NextWeekTasks(tasks))
      ensures tasks == old(tasks) && capacity == old(capacity) && unit == old(unit)
    {
      var sum := 0;
      var nw := NextWeekTasks(tasks);
      var i := |nw|;
      while i > 0
        invariant 0 <= i <= |nw|
        invariant sum == SumEstimates(nw[i..])
      {
        i := i - 1;
        assert nw[i..][1..] == nw[i + 1..];
        sum := sum + nw[i].estimate;
      }
      committed := sum;
    }

    /** `handleDrop`: the dropped task goes into next week. */
    method HandleDrop(id: string, now: int)
      requires Valid()
      modifies this
      ensures Valid() && tasks == Apply(old(tasks), id, MoveToNextWeek(now))
    {
      tasks := Apply(tasks, id, MoveToNextWeek(now));
      UpdateCapacity();
    }

    /** `moveTaskToNextWeek`: the same change as a drop. */
    method MoveTaskToNextWeek(id: string, now: int)
      requires Valid()
      modifies this
      ensures Valid() && tasks == Apply(old(tasks), id, MoveToNextWeek(now))
      ensures committed >= old(committed)
    {
      MoveNeverLowersCommitted(tasks, id, now);
      tasks := Apply(tasks, id, MoveToNextWeek(now));
      UpdateCapacity();
    }

    /** The status change of a task card, stamping `updatedAt`. */
    method ChangeStatus(id: string, s: Status, now: int)
      requires Valid()
      modifies this
      ensures Valid() && tasks == Apply(old(tasks), id, SetStatusAt(s, now))
    {
      tasks := Apply(tasks, id, SetStatusAt(s, now));
      UpdateCapacity();
    }

    /** "Add All Suggestions": moves each suggested task in turn. Afterwards
        no task that was suggested is left in the backlog: each is in next
        week, changed in its sprint and update time only, and every other
        task is as it was. */
    method AddAllSuggestions(now: int)
      requires Valid()
      modifies this
      ensures Valid()
      ensures Ids(tasks) == Ids(old(tasks))
      ensures AllMoved(tasks, old(Suggested(tasks)), |old(Suggested(tasks))|)
      ensures MovedState(old(tasks), tasks, old(Suggested(tasks)), |old(Suggested(tasks))|, now)
    {
      var suggested := Suggested(tasks);
      ghost var orig := tasks;
      ghost var ids := Ids(tasks);
      var k := 0;
      while k < |suggested|
        invariant 0 <= k <= |suggested|
        invariant Valid() && Ids(tasks) == ids
        invariant AllMoved(tasks, suggested, k)
        invariant MovedState(orig, tasks, suggested, k, now)
      {
        MoveStep(tasks, suggested, k, now);
        MovedStateStep(orig, tasks, suggested, k, now);
        ApplyKeepsIds(tasks, suggested[k].id, MoveToNextWeek(now));
        MoveTaskToNextWeek(suggested[k].id, now);
        k := k + 1;
      }
    }
  }
}
