/**
 * Session limits and session usage (App.tsx `MORNING_LIMIT`,
 * `EVENING_LIMIT`, `getSessionUsed`).
 */
module Capacity {
  import opened Types
  import opened TaskList

  const MorningLimit: int := 240
  const EveningLimit: int := 180

  /** The morning limit for the morning and the evening limit otherwise; tomorrow has no limit of its own. */
  function SessionLimit(session: TaskLocation): int {
    if session == Morning then MorningLimit else EveningLimit
  }

  /** The total duration of a list of tasks. */
  function SumDurations(tasks: seq<Task>): int {
    if tasks == [] then 0 else tasks[0].durationMinutes + SumDurations(tasks[1..])
  }

  /** `getSessionUsed(session, tasks)`: minutes booked into a location. */
  function SessionUsed(session: TaskLocation, tasks: seq<Task>): int {
    SumDurations(TasksAt(tasks, session))
  }

  /** Both sessions are at or below their limits. */
  predicate WithinCapacity(tasks: seq<Task>) {
    SessionUsed(Morning, tasks) <= MorningLimit && SessionUsed(Evening, tasks) <= EveningLimit
  }

  /** No task has a negative duration (edits can break this; new tasks cannot). */
  predicate NonNegativeDurations(tasks: seq<Task>) {
    forall i :: 0 <= i < |tasks| ==> tasks[i].durationMinutes >= 0
  }

  lemma {:induction false} SumDurationsAppend(a: seq<Task>, b: seq<Task>)
    ensures SumDurations(a + b) == SumDurations(a) + SumDurations(b)
  {
    if a == [] {
      assert a + b == b;
    } else {
      assert (a + b)[1..] == a[1..] + b;
      SumDurationsAppend(a[1..], b);
    }
  }

  /** Usage is additive over concatenated task lists. */
  lemma SessionUsedAppend(session: TaskLocation, a: seq<Task>, b: seq<Task>)
    ensures SessionUsed(session, a + b) == SessionUsed(session, a) + SessionUsed(session, b)
  {
    TasksAtAppend(a, b, session);
    SumDurationsAppend(TasksAt(a, session), TasksAt(b, session));
  }

  /**
   * Usage is the sum of the durations of the tasks at that session: the
   * first task counts exactly when it sits there, and nothing else about
   * it matters.
   */
  lemma SessionUsedCons(session: TaskLocation, t: Task, rest: seq<Task>)
    ensures SessionUsed(session, [t] + rest)
         == (if t.location == session then t.durationMinutes else 0) + SessionUsed(session, rest)
  {
    assert ([t] + rest)[1..] == rest;
    var head := if t.location == session then [t] else [];
    assert TasksAt([t] + rest, session) == head + TasksAt(rest, session);
    SumDurationsAppend(head, TasksAt(rest, session));
  }

  /** Appending a task adds its duration to its own location's usage and to no other. */
  lemma SessionUsedSnoc(session: TaskLocation, tasks: seq<Task>, t: Task)
    ensures SessionUsed(session, tasks + [t])
         == SessionUsed(session, tasks) + (if t.location == session then t.durationMinutes else 0)
  {
    SessionUsedAppend(session, tasks, [t]);
    SessionUsedCons(session, t, []);
    assert [t] + [] == [t];
  }

  /**
   * Tasks elsewhere do not affect usage: two lists that agree, position by
   * position, on which tasks sit at the session and on those tasks'
   * durations have the same usage, whatever else differs.
   */
  lemma {:induction false} SessionUsedPointwise(session: TaskLocation, a: seq<Task>, b: seq<Task>)
    requires |a| == |b|
    requires forall i :: 0 <= i < |a| ==> (a[i].location == session <==> b[i].location == session)
    requires forall i :: 0 <= i < |a| && a[i].location == session ==> a[i].durationMinutes == b[i].durationMinutes
    ensures SessionUsed(session, a) == SessionUsed(session, b)
  {
    if a != [] {
      assert a == [a[0]] + a[1..] && b == [b[0]] + b[1..];
      SessionUsedCons(session, a[0], a[1..]);
      SessionUsedCons(session, b[0], b[1..]);
      SessionUsedPointwise(session, a[1..], b[1..]);
    }
  }

  /** A list with no task at the session books no minutes there. */
  lemma {:induction false} SessionUsedEmpty(session: TaskLocation, tasks: seq<Task>)
    requires forall i :: 0 <= i < |tasks| ==> tasks[i].location != session
    ensures SessionUsed(session, tasks) == 0
  {
    if tasks != [] {
      assert tasks == [tasks[0]] + tasks[1..];
      SessionUsedCons(session, tasks[0], tasks[1..]);
      SessionUsedEmpty(session, tasks[1..]);
    }
  }

  /** Without negative durations, usage is never negative. */
  lemma {:induction false} SessionUsedNonNegative(session: TaskLocation, tasks: seq<Task>)
    requires NonNegativeDurations(tasks)
    ensures SessionUsed(session, tasks) >= 0
  {
    if tasks != [] {
      assert tasks == [tasks[0]] + tasks[1..];
      SessionUsedCons(session, tasks[0], tasks[1..]);
      SessionUsedNonNegative(session, tasks[1..]);
    }
  }
}
