/**
 * The placement rules of App.tsx: the priority of a new task, the
 * first-fit choice of a session (used both for a new task and for packing
 * a task from the tomorrow queue), the capacity rule of an explicit move,
 * and the plan that `addTaskToPlan` builds.
 */
module Placement {
  import opened Types
  import opened TaskList
  import opened Capacity

  /** The priority given to a new task of the given duration. */
  function PriorityFor(duration: int): (p: Priority)
    ensures p == Big <==> duration >= 90
    ensures p == Medium <==> 45 <= duration < 90
    ensures p == Small <==> duration < 45
  {
    if duration >= 90 then Big else if duration >= 45 then Medium else Small
  }

  /** The record `handleDurationSubmit` builds for a pending name. */
  function NewTask(id: string, name: string, duration: int, loc: TaskLocation): Task {
    Task(id, name, duration, PriorityFor(duration), Some(false), loc)
  }

  /**
   * Try morning, then evening, each with a non-strict `<=` against its
   * limit; `None` is the overflow signal. Tomorrow is never chosen.
   */
  function FirstFit(tasks: seq<Task>, duration: int): (r: Option<TaskLocation>)
    ensures r == Some(Morning) <==> SessionUsed(Morning, tasks) + duration <= MorningLimit
    ensures r == Some(Evening) <==>
              SessionUsed(Morning, tasks) + duration > MorningLimit
              && SessionUsed(Evening, tasks) + duration <= EveningLimit
    ensures r != Some(Tomorrow)
  {
    if SessionUsed(Morning, tasks) + duration <= MorningLimit then Some(Morning)
    else if SessionUsed(Evening, tasks) + duration <= EveningLimit then Some(Evening)
    else None
  }

  /**
   * The capacity rule of `switchBento`: a move to tomorrow always passes;
   * a move to a session passes when that session's usage, not counting the
   * moved task itself, plus its duration is within the session's limit.
   */
  function SwitchAllowed(tasks: seq<Task>, task: Task, target: TaskLocation): (ok: bool)
    ensures target == Tomorrow ==> ok
    ensures target != Tomorrow ==>
              (ok <==> SessionUsed(target, WithoutId(tasks, task.id)) + task.durationMinutes <= SessionLimit(target))
  {
    target == Tomorrow
    || SessionUsed(target, WithoutId(tasks, task.id)) + task.durationMinutes <= SessionLimit(target)
  }

  /** The plan's tasks, or no tasks when there is no plan. */
  function CurrentTasks(plan: Option<BentoPlan>): seq<Task> {
    if plan.Some? then plan.value.tasks else []
  }

  /** The date a plan keeps: its own when non-empty; an empty or missing date falls back to today. */
  function PlanDate(plan: Option<BentoPlan>, today: string): (d: string)
    ensures plan.Some? && plan.value.date != "" ==> d == plan.value.date
    ensures plan.None? || plan.value.date == "" ==> d == today
  {
    if plan.Some? && plan.value.date != "" then plan.value.date else today
  }

  /** `addTaskToPlan(task)`: the plan with the task appended at the end. */
  function PlanWith(plan: Option<BentoPlan>, task: Task, today: string): (p: BentoPlan)
  {
    BentoPlan(CurrentTasks(plan) + [task], PlanDate(plan, today))
  }

  /** A task stored for tomorrow books nothing into either session. */
  lemma DeferKeepsSessions(tasks: seq<Task>, t: Task)
    requires t.location == Tomorrow
    ensures SessionUsed(Morning, tasks + [t]) == SessionUsed(Morning, tasks)
    ensures SessionUsed(Evening, tasks + [t]) == SessionUsed(Evening, tasks)
  {
    SessionUsedSnoc(Morning, tasks, t);
    SessionUsedSnoc(Evening, tasks, t);
  }

  /**
   * Initial placement never overfills the session it picks: the appended
   * task's session stays within its limit, the other session's usage is
   * unchanged, so a plan within capacity stays within capacity.
   */
  lemma PlacementKeepsCapacity(tasks: seq<Task>, t: Task)
    requires FirstFit(tasks, t.durationMinutes) == Some(t.location)
    ensures SessionUsed(t.location, tasks + [t]) <= SessionLimit(t.location)
    ensures forall s :: s != t.location ==> SessionUsed(s, tasks + [t]) == SessionUsed(s, tasks)
    ensures WithinCapacity(tasks) ==> WithinCapacity(tasks + [t])
  {
    forall s: TaskLocation
      ensures SessionUsed(s, tasks + [t])
           == SessionUsed(s, tasks) + (if t.location == s then t.durationMinutes else 0)
    {
      SessionUsedSnoc(s, tasks, t);
    }
  }

  /**
   * With distinct ids, moving the task at position i to session s books
   * the usage of s without that task, plus the task's duration.
   */
  lemma {:induction false} MovedUsage(s: TaskLocation, tasks: seq<Task>, i: nat)
    requires DistinctIds(tasks)
    requires i < |tasks|
    ensures SessionUsed(s, UpdateTasks(tasks, tasks[i].id, LocationPatch(s)))
         == SessionUsed(s, WithoutId(tasks, tasks[i].id)) + tasks[i].durationMinutes
  {
    DistinctTail(tasks);
    if i == 0 {
      MovedHeadRest(s, tasks);
      MovedUsageHead(s, tasks);
    } else {
      MovedUsage(s, tasks[1..], i - 1);
      MovedUsageTail(s, tasks, i);
    }
  }

  /** The head moved: it is booked into s, and the rest books what the list without it books. */
  lemma MovedUsageHead(s: TaskLocation, tasks: seq<Task>)
    requires tasks != []
    requires SessionUsed(s, UpdateTasks(tasks[1..], tasks[0].id, LocationPatch(s)))
          == SessionUsed(s, WithoutId(tasks, tasks[0].id))
    ensures SessionUsed(s, UpdateTasks(tasks, tasks[0].id, LocationPatch(s)))
         == SessionUsed(s, WithoutId(tasks, tasks[0].id)) + tasks[0].durationMinutes
  {
    var u, ur := UpdateTasks(tasks, tasks[0].id, LocationPatch(s)), UpdateTasks(tasks[1..], tasks[0].id, LocationPatch(s));
    assert u == [u[0]] + ur;
    SessionUsedCons(s, u[0], ur);
  }

  /** A later task moved: the head, which keeps its place, is booked on both sides alike. */
  lemma MovedUsageTail(s: TaskLocation, tasks: seq<Task>, i: nat)
    requires 0 < i < |tasks| && tasks[0].id !in Ids(tasks[1..])
    requires SessionUsed(s, UpdateTasks(tasks[1..], tasks[1..][i - 1].id, LocationPatch(s)))
          == SessionUsed(s, WithoutId(tasks[1..], tasks[1..][i - 1].id)) + tasks[1..][i - 1].durationMinutes
    ensures SessionUsed(s, UpdateTasks(tasks, tasks[i].id, LocationPatch(s)))
         == SessionUsed(s, WithoutId(tasks, tasks[i].id)) + tasks[i].durationMinutes
  {
    var id, h, rest := tasks[i].id, tasks[0], tasks[1..];
    assert rest[i - 1] == tasks[i];
    assert h.id != id;
    var u := UpdateTasks(tasks, id, LocationPatch(s));
    assert u == [h] + UpdateTasks(rest, id, LocationPatch(s));
    SessionUsedCons(s, h, UpdateTasks(rest, id, LocationPatch(s)));
    assert WithoutId(tasks, id) == [h] + WithoutId(rest, id);
    SessionUsedCons(s, h, WithoutId(rest, id));
  }

  /** Moving the head leaves the rest as it was: no other task carries its id. */
  lemma MovedHeadRest(s: TaskLocation, tasks: seq<Task>)
    requires tasks != [] && tasks[0].id !in Ids(tasks[1..])
    ensures SessionUsed(s, UpdateTasks(tasks[1..], tasks[0].id, LocationPatch(s)))
         == SessionUsed(s, WithoutId(tasks, tasks[0].id))
  {
    var id, rest := tasks[0].id, tasks[1..];
    UpdateAbsentId(rest, id, LocationPatch(s));
    WithoutAbsentId(rest, id);
    assert WithoutId(tasks, id) == WithoutId(rest, id);
    assert UpdateTasks(rest, id, LocationPatch(s)) == WithoutId(tasks, id);
  }

  /** Moving a task to s leaves every other location booked as if the task were gone. */
  lemma {:induction false} MovedUsageElsewhere(o: TaskLocation, tasks: seq<Task>, id: string, s: TaskLocation)
    requires o != s
    ensures SessionUsed(o, UpdateTasks(tasks, id, LocationPatch(s))) == SessionUsed(o, WithoutId(tasks, id))
  {
    if tasks != [] {
      var h, rest := tasks[0], tasks[1..];
      assert tasks == [h] + rest;
      var u := UpdateTasks(tasks, id, LocationPatch(s));
      assert u == [u[0]] + UpdateTasks(rest, id, LocationPatch(s));
      SessionUsedCons(o, u[0], UpdateTasks(rest, id, LocationPatch(s)));
      MovedUsageElsewhere(o, rest, id, s);
      if h.id != id {
        assert WithoutId(tasks, id) == [h] + WithoutId(rest, id);
        SessionUsedCons(o, h, WithoutId(rest, id));
      } else {
        assert WithoutId(tasks, id) == WithoutId(rest, id);
      }
    }
  }

  /** Without negative durations, removing tasks never raises a session's usage. */
  lemma {:induction false} WithoutIdUsage(o: TaskLocation, tasks: seq<Task>, id: string)
    requires NonNegativeDurations(tasks)
    ensures SessionUsed(o, WithoutId(tasks, id)) <= SessionUsed(o, tasks)
  {
    if tasks != [] {
      var h, rest := tasks[0], tasks[1..];
      assert tasks == [h] + rest;
      SessionUsedCons(o, h, rest);
      WithoutIdUsage(o, rest, id);
      if h.id != id {
        assert WithoutId(tasks, id) == [h] + WithoutId(rest, id);
        SessionUsedCons(o, h, WithoutId(rest, id));
      } else {
        assert WithoutId(tasks, id) == WithoutId(rest, id);
      }
    }
  }

  /** Removing tasks that are not at o leaves o's usage as it was. */
  lemma {:induction false} WithoutIdElsewhere(o: TaskLocation, tasks: seq<Task>, id: string)
    requires forall i :: 0 <= i < |tasks| && tasks[i].id == id ==> tasks[i].location != o
    ensures SessionUsed(o, WithoutId(tasks, id)) == SessionUsed(o, tasks)
  {
    if tasks != [] {
      var h, rest := tasks[0], tasks[1..];
      assert tasks == [h] + rest;
      SessionUsedCons(o, h, rest);
      WithoutIdElsewhere(o, rest, id);
      if h.id != id {
        assert WithoutId(tasks, id) == [h] + WithoutId(rest, id);
        SessionUsedCons(o, h, WithoutId(rest, id));
      } else {
        assert WithoutId(tasks, id) == WithoutId(rest, id);
      }
    }
  }

  /**
   * An allowed explicit move keeps both sessions within their limits
   * (given no negative durations, which only an edit can introduce).
   */
  lemma MoveKeepsCapacity(tasks: seq<Task>, task: Task, target: TaskLocation)
    requires DistinctIds(tasks)
    requires task in tasks
    requires SwitchAllowed(tasks, task, target)
    ensures NonNegativeDurations(tasks) && WithinCapacity(tasks) ==>
              WithinCapacity(UpdateTasks(tasks, task.id, LocationPatch(target)))
  {
    if NonNegativeDurations(tasks) && WithinCapacity(tasks) {
      MoveKeepsSession(tasks, task, target, Morning);
      MoveKeepsSession(tasks, task, target, Evening);
    }
  }

  lemma MoveKeepsSession(tasks: seq<Task>, task: Task, target: TaskLocation, s: TaskLocation)
    requires DistinctIds(tasks) && NonNegativeDurations(tasks)
    requires task in tasks
    requires s != Tomorrow && SessionUsed(s, tasks) <= SessionLimit(s)
    requires SwitchAllowed(tasks, task, target)
    ensures SessionUsed(s, UpdateTasks(tasks, task.id, LocationPatch(target))) <= SessionLimit(s)
  {
    if s == target {
      var i :| 0 <= i < |tasks| && tasks[i] == task;
      MovedUsage(s, tasks, i);
    } else {
      MovedUsageElsewhere(s, tasks, task.id, target);
      WithoutIdUsage(s, tasks, task.id);
    }
  }

  /**
   * Packing a tomorrow task into the session first-fit picks keeps both
   * sessions within their limits.
   */
  lemma PackKeepsCapacity(tasks: seq<Task>, task: Task, s: TaskLocation)
    requires DistinctIds(tasks)
    requires task in tasks
    requires FirstFit(tasks, task.durationMinutes) == Some(s)
    ensures task.location == Tomorrow && WithinCapacity(tasks) ==>
              WithinCapacity(UpdateTasks(tasks, task.id, LocationPatch(s)))
  {
    if task.location == Tomorrow && WithinCapacity(tasks) {
      PackKeepsSession(tasks, task, s, Morning);
      PackKeepsSession(tasks, task, s, Evening);
    }
  }

  lemma PackKeepsSession(tasks: seq<Task>, task: Task, s: TaskLocation, o: TaskLocation)
    requires DistinctIds(tasks) && task in tasks
    requires task.location == Tomorrow && o != Tomorrow
    requires SessionUsed(o, tasks) <= SessionLimit(o)
    requires s == o ==> SessionUsed(s, tasks) + task.durationMinutes <= SessionLimit(s)
    ensures SessionUsed(o, UpdateTasks(tasks, task.id, LocationPatch(s))) <= SessionLimit(o)
  {
    var i :| 0 <= i < |tasks| && tasks[i] == task;
    DistinctIdsPairwise(tasks);
    WithoutIdElsewhere(o, tasks, task.id);
    if o == s {
      MovedUsage(s, tasks, i);
    } else {
      MovedUsageElsewhere(o, tasks, task.id, s);
    }
  }
}
