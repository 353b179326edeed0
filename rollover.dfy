/**
 * Day rollover (App.tsx `migrateToNewDay` and its use by the load effect):
 * when the stored plan belongs to another day, only the tomorrow queue
 * survives, moved into the morning and marked not completed.
 */
module Rollover {
  import opened Types
  import opened TaskList
  import opened Capacity

  /** Every task moved to the morning and marked not completed, in order. */
  function Replanted(tasks: seq<Task>): (r: seq<Task>)
    ensures |r| == |tasks|
    ensures forall i :: 0 <= i < |tasks| ==>
              r[i] == tasks[i].(location := Morning, completed := Some(false))
  {
    if tasks == [] then []
    else [tasks[0].(location := Morning, completed := Some(false))] + Replanted(tasks[1..])
  }

  /**
   * `migrateToNewDay(tasks, date)`: the new plan is dated `date` and holds
   * exactly the former tomorrow tasks, in their original order, each now
   * in the morning and not completed, with every other field unchanged.
   */
  function MigrateToNewDay(tasks: seq<Task>, date: string): (p: BentoPlan)
    ensures p.date == date
    ensures |p.tasks| == |TasksAt(tasks, Tomorrow)|
    ensures forall i :: 0 <= i < |p.tasks| ==>
              p.tasks[i] == TasksAt(tasks, Tomorrow)[i].(location := Morning, completed := Some(false))
    ensures forall i :: 0 <= i < |p.tasks| ==> p.tasks[i].location == Morning && !IsCompleted(p.tasks[i])
  {
    BentoPlan(Replanted(TasksAt(tasks, Tomorrow)), date)
  }

  /**
   * The plan the load effect keeps: a stored plan of another day is
   * migrated to `today`, a plan of today is kept as it is, and no plan
   * stays no plan. Whatever comes out is dated today.
   */
  function LoadPlan(saved: Option<BentoPlan>, today: string): (r: Option<BentoPlan>)
    ensures r.None? <==> saved.None?
    ensures saved.Some? && saved.value.date == today ==> r == saved
    ensures saved.Some? && saved.value.date != today ==> r == Some(MigrateToNewDay(saved.value.tasks, today))
    ensures r.Some? ==> r.value.date == today
  {
    if saved.Some? && saved.value.date != today then Some(MigrateToNewDay(saved.value.tasks, today))
    else saved
  }

  /** Rollover is idempotent: loading an already migrated plan on the same day changes nothing. */
  lemma LoadPlanIdempotent(saved: Option<BentoPlan>, today: string)
    ensures LoadPlan(LoadPlan(saved, today), today) == LoadPlan(saved, today)
  {
  }

  lemma {:induction false} ReplantedUsage(tasks: seq<Task>)
    ensures SessionUsed(Morning, Replanted(tasks)) == SumDurations(tasks)
    ensures SessionUsed(Evening, Replanted(tasks)) == 0
    ensures SessionUsed(Tomorrow, Replanted(tasks)) == 0
  {
    if tasks != [] {
      var r := Replanted(tasks);
      assert r == [r[0]] + Replanted(tasks[1..]);
      SessionUsedCons(Morning, r[0], Replanted(tasks[1..]));
      SessionUsedCons(Evening, r[0], Replanted(tasks[1..]));
      SessionUsedCons(Tomorrow, r[0], Replanted(tasks[1..]));
      ReplantedUsage(tasks[1..]);
    }
  }

  /**
   * After rollover the morning books exactly what the tomorrow queue
   * booked, with no capacity check, and the evening and the queue are empty.
   */
  lemma MigrationUsage(tasks: seq<Task>, date: string)
    ensures SessionUsed(Morning, MigrateToNewDay(tasks, date).tasks) == SessionUsed(Tomorrow, tasks)
    ensures SessionUsed(Evening, MigrateToNewDay(tasks, date).tasks) == 0
    ensures SessionUsed(Tomorrow, MigrateToNewDay(tasks, date).tasks) == 0
  {
    ReplantedUsage(TasksAt(tasks, Tomorrow));
  }

  /** Rollover keeps only ids the stored plan had, and keeps them distinct. */
  lemma MigrationKeepsIds(tasks: seq<Task>, date: string)
    ensures Ids(MigrateToNewDay(tasks, date).tasks) <= Ids(tasks)
    ensures DistinctIds(tasks) ==> DistinctIds(MigrateToNewDay(tasks, date).tasks)
  {
    var kept := TasksAt(tasks, Tomorrow);
    var r := MigrateToNewDay(tasks, date).tasks;
    TasksAtKeepsIds(tasks, Tomorrow);
    assert forall i :: 0 <= i < |r| ==> r[i].id == kept[i].id;
    DistinctIdsPairwise(kept);
    DistinctIdsPairwise(r);
    forall x | x in Ids(r) ensures x in Ids(kept) {
      var i :| 0 <= i < |r| && r[i].id == x;
      assert kept[i] in kept;
    }
  }

  /** The morning can end up over its limit: two stored 200-minute tomorrow tasks give 400 minutes. */
  lemma MigrationIgnoresCapacity()
    ensures var t := Task("a", "read", 200, Big, Some(false), Tomorrow);
            var u := Task("b", "walk", 200, Big, Some(false), Tomorrow);
            SessionUsed(Morning, MigrateToNewDay([t, u], "2024-05-02").tasks) == 400 > MorningLimit
  {
    var t := Task("a", "read", 200, Big, Some(false), Tomorrow);
    var u := Task("b", "walk", 200, Big, Some(false), Tomorrow);
    MigrationUsage([t, u], "2024-05-02");
    assert [t, u] == [t] + [u];
    SessionUsedCons(Tomorrow, t, [u]);
    SessionUsedCons(Tomorrow, u, []);
    assert [u] == [u] + [];
  }
}
