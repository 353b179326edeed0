/**
 * The list operations the planner applies to `plan.tasks`: the location
 * filter, removal and lookup by id, and the update-by-id map (App.tsx,
 * components/BentoLayout.tsx).
 */
module TaskList {
  import opened Types

  /** The ids occurring in a task list. */
  function Ids(tasks: seq<Task>): set<string> {
    set t | t in tasks :: t.id
  }

  /** No two tasks of the list share an id: there are as many ids as tasks. */
  predicate DistinctIds(tasks: seq<Task>) {
    |Ids(tasks)| == |tasks|
  }

  /** The ids of a non-empty list: the head's and the tail's. */
  lemma IdsCons(tasks: seq<Task>)
    requires tasks != []
    ensures Ids(tasks) == {tasks[0].id} + Ids(tasks[1..])
  {
    assert tasks[0] in tasks;
    forall x | x in Ids(tasks[1..]) ensures x in Ids(tasks) {
      var t :| t in tasks[1..] && t.id == x;
      assert t in tasks;
    }
    forall x | x in Ids(tasks) ensures x in {tasks[0].id} + Ids(tasks[1..]) {
      var t :| t in tasks && t.id == x;
      var k :| 0 <= k < |tasks| && tasks[k] == t;
      if k > 0 {
        assert tasks[1..][k - 1] == t;
      }
    }
  }

  /** A list never has more ids than tasks. */
  lemma {:induction false} IdsBound(tasks: seq<Task>)
    ensures |Ids(tasks)| <= |tasks|
  {
    if tasks == [] {
      assert Ids(tasks) == {};
    } else {
      IdsBound(tasks[1..]);
      IdsCons(tasks);
    }
  }

  /** Ids are distinct exactly when the head's id is new to the tail and the tail's ids are distinct. */
  lemma DistinctUnfold(tasks: seq<Task>)
    requires tasks != []
    ensures DistinctIds(tasks) <==> tasks[0].id !in Ids(tasks[1..]) && DistinctIds(tasks[1..])
  {
    IdsCons(tasks);
    IdsBound(tasks[1..]);
  }

  /** The empty list has distinct ids. */
  lemma DistinctEmpty(tasks: seq<Task>)
    requires tasks == []
    ensures DistinctIds(tasks) && Ids(tasks) == {}
  {
    assert Ids(tasks) == {};
  }

  /** Distinct ids, stated pair by pair. */
  ghost predicate PairwiseDistinct(tasks: seq<Task>) {
    forall i, j :: 0 <= i < j < |tasks| ==> tasks[i].id != tasks[j].id
  }

  /** The two statements of distinctness agree. */
  lemma {:induction false} DistinctIdsPairwise(tasks: seq<Task>)
    ensures DistinctIds(tasks) <==> PairwiseDistinct(tasks)
  {
    if tasks != [] {
      var rest := tasks[1..];
      DistinctIdsPairwise(rest);
      DistinctUnfold(tasks);
      if DistinctIds(tasks) {
        forall i, j | 0 <= i < j < |tasks| ensures tasks[i].id != tasks[j].id {
          assert tasks[j] == rest[j - 1];
          if i == 0 {
            assert rest[j - 1] in rest;
          } else {
            assert tasks[i] == rest[i - 1];
          }
        }
      }
      if PairwiseDistinct(tasks) {
        forall a, b | 0 <= a < b < |rest| ensures rest[a].id != rest[b].id {
          assert rest[a] == tasks[a + 1] && rest[b] == tasks[b + 1];
        }
        forall t | t in rest ensures t.id != tasks[0].id {
          var k :| 0 <= k < |rest| && rest[k] == t;
          assert tasks[k + 1] == t;
        }
      }
    }
  }

  /** The tail of a list with distinct ids has distinct ids, none of them the head's. */
  lemma DistinctTail(tasks: seq<Task>)
    requires DistinctIds(tasks) && tasks != []
    ensures tasks[0].id !in Ids(tasks[1..]) && DistinctIds(tasks[1..])
  {
    DistinctUnfold(tasks);
  }

  /** Putting a task in front keeps ids distinct exactly when its id is new to the list. */
  lemma DistinctCons(h: Task, rest: seq<Task>)
    ensures DistinctIds([h] + rest) <==> h.id !in Ids(rest) && DistinctIds(rest)
  {
    assert ([h] + rest)[1..] == rest;
    DistinctUnfold([h] + rest);
  }

  /** The ids of a concatenation are the ids of its two parts. */
  lemma IdsAppend(a: seq<Task>, b: seq<Task>)
    ensures Ids(a + b) == Ids(a) + Ids(b)
  {
    forall x | x in Ids(a) ensures x in Ids(a + b) {
      var t :| t in a && t.id == x;
      assert t in a + b;
    }
    forall x | x in Ids(b) ensures x in Ids(a + b) {
      var t :| t in b && t.id == x;
      assert t in a + b;
    }
  }

  /** Two lists with distinct ids and no id in common concatenate to a list with distinct ids. */
  lemma {:induction false} DistinctAppend(a: seq<Task>, b: seq<Task>)
    requires DistinctIds(a) && DistinctIds(b) && Ids(a) !! Ids(b)
    ensures DistinctIds(a + b)
  {
    if a != [] {
      var h, rest := a[0], a[1..];
      assert a == [h] + rest;
      assert a + b == [h] + (rest + b);
      DistinctTail(a);
      IdsAppend([h], rest);
      IdsAppend(rest, b);
      assert h in a;
      assert h.id in Ids(a);
      DistinctAppend(rest, b);
      DistinctCons(h, rest + b);
    } else {
      assert a + b == b;
    }
  }

  /** The tasks at a location, in list order. */
  function TasksAt(tasks: seq<Task>, loc: TaskLocation): (r: seq<Task>)
    ensures forall t :: t in r <==> t in tasks && t.location == loc
    ensures |r| <= |tasks|
  {
    if tasks == [] then []
    else (if tasks[0].location == loc then [tasks[0]] else []) + TasksAt(tasks[1..], loc)
  }

  /** The tasks whose id differs from the given one, in list order. */
  function WithoutId(tasks: seq<Task>, id: string): (r: seq<Task>)
    ensures forall t :: t in r <==> t in tasks && t.id != id
    ensures |r| <= |tasks|
  {
    if tasks == [] then []
    else (if tasks[0].id != id then [tasks[0]] else []) + WithoutId(tasks[1..], id)
  }

  /** The first task with that id, if any. */
  function FindTask(tasks: seq<Task>, id: string): (r: Option<Task>)
    ensures r.None? <==> id !in Ids(tasks)
    ensures r.Some? ==> r.value in tasks && r.value.id == id
  {
    if tasks == [] then None
    else if tasks[0].id == id then Some(tasks[0])
    else
      assert tasks == [tasks[0]] + tasks[1..];
      FindTask(tasks[1..], id)
  }

  /** A found task is the first with the id: no earlier position carries it. */
  lemma {:induction false} FindTaskFirst(tasks: seq<Task>, id: string)
    ensures FindTask(tasks, id).Some? ==>
              exists i :: 0 <= i < |tasks| && tasks[i] == FindTask(tasks, id).value
                          && forall j :: 0 <= j < i ==> tasks[j].id != id
  {
    if tasks != [] && tasks[0].id != id && FindTask(tasks, id).Some? {
      FindTaskFirst(tasks[1..], id);
      var i :| 0 <= i < |tasks[1..]| && tasks[1..][i] == FindTask(tasks, id).value
               && forall j :: 0 <= j < i ==> tasks[1..][j].id != id;
      assert tasks[i + 1] == tasks[1..][i];
      forall j | 0 <= j < i + 1 ensures tasks[j].id != id {
        if j > 0 {
          assert tasks[j] == tasks[1..][j - 1];
        }
      }
    } else if tasks != [] && tasks[0].id == id {
      assert tasks[0] == FindTask(tasks, id).value;
    }
  }

  /**
   * The `Partial<Task>` record given to `updateTask`: each present field
   * replaces the task's own. No caller ever passes an id, so the record
   * has no id field.
   */
  datatype Patch = Patch(
    taskName: Option<string>,
    durationMinutes: Option<int>,
    priority: Option<Priority>,
    completed: Option<bool>,
    location: Option<TaskLocation>)

  /** The update that only moves a task: `{ location: loc }`. */
  function LocationPatch(loc: TaskLocation): Patch {
    Patch(None, None, None, None, Some(loc))
  }

  /** The update that only sets the completion flag: `{ completed: b }`. */
  function CompletedPatch(b: bool): Patch {
    Patch(None, None, None, Some(b), None)
  }

  function Override<T>(current: T, given: Option<T>): T {
    if given.Some? then given.value else current
  }

  /** `{ ...t, ...updates }`: present fields win, the id is always kept. */
  function ApplyPatch(t: Task, p: Patch): (r: Task)
    ensures r.id == t.id
    ensures p == Patch(None, None, None, None, None) ==> r == t
    ensures r.taskName == (if p.taskName.Some? then p.taskName.value else t.taskName)
    ensures r.durationMinutes == (if p.durationMinutes.Some? then p.durationMinutes.value else t.durationMinutes)
    ensures r.priority == (if p.priority.Some? then p.priority.value else t.priority)
    ensures r.completed == (if p.completed.Some? then Some(p.completed.value) else t.completed)
    ensures p.location.Some? ==> r.location == p.location.value
    ensures p.location.None? ==> r.location == t.location
  {
    Task(t.id,
         Override(t.taskName, p.taskName),
         Override(t.durationMinutes, p.durationMinutes),
         Override(t.priority, p.priority),
         if p.completed.Some? then Some(p.completed.value) else t.completed,
         Override(t.location, p.location))
  }

  /** Every task with the id patched in place; the others untouched. */
  function UpdateTasks(tasks: seq<Task>, id: string, p: Patch): (r: seq<Task>)
    ensures |r| == |tasks|
    ensures forall i :: 0 <= i < |tasks| ==>
              r[i] == if tasks[i].id == id then ApplyPatch(tasks[i], p) else tasks[i]
  {
    if tasks == [] then []
    else [if tasks[0].id == id then ApplyPatch(tasks[0], p) else tasks[0]] + UpdateTasks(tasks[1..], id, p)
  }

  /** Filtering by location distributes over concatenation: the filter keeps the original order. */
  lemma {:induction false} TasksAtAppend(a: seq<Task>, b: seq<Task>, loc: TaskLocation)
    ensures TasksAt(a + b, loc) == TasksAt(a, loc) + TasksAt(b, loc)
  {
    if a == [] {
      assert a + b == b;
    } else {
      assert (a + b)[1..] == a[1..] + b;
      TasksAtAppend(a[1..], b, loc);
    }
  }

  /** Removal by id distributes over concatenation: the survivors keep their order. */
  lemma {:induction false} WithoutIdAppend(a: seq<Task>, b: seq<Task>, id: string)
    ensures WithoutId(a + b, id) == WithoutId(a, id) + WithoutId(b, id)
  {
    if a == [] {
      assert a + b == b;
    } else {
      assert (a + b)[1..] == a[1..] + b;
      WithoutIdAppend(a[1..], b, id);
    }
  }

  /** Removing an id that does not occur changes nothing. */
  lemma {:induction false} WithoutAbsentId(tasks: seq<Task>, id: string)
    requires id !in Ids(tasks)
    ensures WithoutId(tasks, id) == tasks
  {
    if tasks != [] {
      assert tasks[0] in tasks;
      assert Ids(tasks[1..]) <= Ids(tasks) by {
        forall x | x in Ids(tasks[1..]) ensures x in Ids(tasks) {
          var t :| t in tasks[1..] && t.id == x;
          assert t in tasks;
        }
      }
      WithoutAbsentId(tasks[1..], id);
    }
  }

  /** Updating an id that does not occur changes nothing. */
  lemma UpdateAbsentId(tasks: seq<Task>, id: string, p: Patch)
    requires id !in Ids(tasks)
    ensures UpdateTasks(tasks, id, p) == tasks
  {
    forall i | 0 <= i < |tasks| ensures tasks[i].id != id {
      assert tasks[i] in tasks;
    }
  }

  /** The update map keeps every id in place, so the id set and its distinctness survive. */
  lemma UpdateKeepsIds(tasks: seq<Task>, id: string, p: Patch)
    ensures Ids(UpdateTasks(tasks, id, p)) == Ids(tasks)
    ensures DistinctIds(tasks) ==> DistinctIds(UpdateTasks(tasks, id, p))
  {
    var r := UpdateTasks(tasks, id, p);
    forall x | x in Ids(r) ensures x in Ids(tasks) {
      var i :| 0 <= i < |r| && r[i].id == x;
      assert tasks[i] in tasks;
    }
    forall x | x in Ids(tasks) ensures x in Ids(r) {
      var i :| 0 <= i < |tasks| && tasks[i].id == x;
      assert r[i] in r;
    }
  }

  /** A subsequence obtained by the location filter keeps ids distinct and draws them from the list. */
  lemma {:induction false} TasksAtKeepsIds(tasks: seq<Task>, loc: TaskLocation)
    ensures Ids(TasksAt(tasks, loc)) <= Ids(tasks)
    ensures DistinctIds(tasks) ==> DistinctIds(TasksAt(tasks, loc))
  {
    if tasks != [] {
      TasksAtKeepsIds(tasks[1..], loc);
      var rest := TasksAt(tasks[1..], loc);
      assert Ids(tasks[1..]) <= Ids(tasks) by {
        forall x | x in Ids(tasks[1..]) ensures x in Ids(tasks) {
          var t :| t in tasks[1..] && t.id == x;
          assert t in tasks;
        }
      }
      if DistinctIds(tasks) {
        DistinctTail(tasks);
      }
      if tasks[0].location == loc {
        assert TasksAt(tasks, loc) == [tasks[0]] + rest;
        DistinctCons(tasks[0], rest);
      } else {
        assert TasksAt(tasks, loc) == rest;
      }
    }
  }

  /** Removal by id takes exactly that id out of the id set. */
  lemma {:induction false} WithoutIdIds(tasks: seq<Task>, id: string)
    ensures Ids(WithoutId(tasks, id)) == Ids(tasks) - {id}
  {
    if tasks == [] {
      DistinctEmpty(tasks);
    } else {
      var h, w := tasks[0], WithoutId(tasks[1..], id);
      WithoutIdIds(tasks[1..], id);
      IdsCons(tasks);
      if h.id != id {
        assert WithoutId(tasks, id) == [h] + w;
        assert ([h] + w)[1..] == w;
        IdsCons([h] + w);
        assert ({h.id} + Ids(tasks[1..])) - {id} == {h.id} + (Ids(tasks[1..]) - {id});
      } else {
        assert WithoutId(tasks, id) == w;
        assert ({h.id} + Ids(tasks[1..])) - {id} == Ids(tasks[1..]) - {id};
      }
    }
  }

  /** Removal by id keeps ids distinct. */
  lemma {:induction false} WithoutIdKeepsIds(tasks: seq<Task>, id: string)
    ensures Ids(WithoutId(tasks, id)) == Ids(tasks) - {id}
    ensures DistinctIds(tasks) ==> DistinctIds(WithoutId(tasks, id))
  {
    WithoutIdIds(tasks, id);
    if tasks != [] && DistinctIds(tasks) {
      var h, w := tasks[0], WithoutId(tasks[1..], id);
      DistinctTail(tasks);
      WithoutIdKeepsIds(tasks[1..], id);
      if h.id != id {
        assert WithoutId(tasks, id) == [h] + w;
        DistinctCons(h, w);
      } else {
        assert WithoutId(tasks, id) == w;
      }
    }
  }

  /** With distinct ids, looking up the id of position i finds exactly that task. */
  lemma {:induction false} FindDistinct(tasks: seq<Task>, i: nat)
    requires DistinctIds(tasks)
    requires i < |tasks|
    ensures FindTask(tasks, tasks[i].id) == Some(tasks[i])
  {
    if i > 0 {
      DistinctTail(tasks);
      assert tasks[1..][i - 1] == tasks[i];
      assert tasks[i] in tasks[1..];
      FindDistinct(tasks[1..], i - 1);
    }
  }

  /** Dropping a later position keeps the head in front. */
  lemma DropAtTail(tasks: seq<Task>, i: nat)
    requires 0 < i < |tasks|
    ensures tasks[..i] + tasks[i + 1..] == [tasks[0]] + (tasks[1..][..i - 1] + tasks[1..][i..])
  {
    assert tasks[..i] == [tasks[0]] + tasks[1..][..i - 1];
    assert tasks[i + 1..] == tasks[1..][i..];
  }

  /**
   * With distinct ids, deleting the id of position i removes exactly that
   * task: the others stay, in their order.
   */
  lemma {:induction false} DeleteRemovesOne(tasks: seq<Task>, i: nat)
    requires DistinctIds(tasks) && i < |tasks|
    ensures WithoutId(tasks, tasks[i].id) == tasks[..i] + tasks[i + 1..]
  {
    var id, rest := tasks[i].id, tasks[1..];
    DistinctTail(tasks);
    if i == 0 {
      WithoutAbsentId(rest, id);
      assert WithoutId(tasks, id) == WithoutId(rest, id);
    } else {
      assert rest[i - 1] == tasks[i];
      assert tasks[0].id != id by {
        assert tasks[i] in rest;
      }
      assert WithoutId(tasks, id) == [tasks[0]] + WithoutId(rest, id);
      DeleteRemovesOne(rest, i - 1);
      DropAtTail(tasks, i);
    }
  }

  /**
   * With distinct ids, updating the id of position i changes exactly that
   * task, and nothing else in the list.
   */
  lemma UpdateChangesOne(tasks: seq<Task>, i: nat, p: Patch)
    requires DistinctIds(tasks) && i < |tasks|
    ensures UpdateTasks(tasks, tasks[i].id, p) == tasks[i := ApplyPatch(tasks[i], p)]
  {
    DistinctIdsPairwise(tasks);
  }

  /** Appending a task with a fresh id keeps ids distinct and adds exactly that id. */
  lemma AppendFresh(tasks: seq<Task>, t: Task)
    requires DistinctIds(tasks) && t.id !in Ids(tasks)
    ensures DistinctIds(tasks + [t])
    ensures Ids(tasks + [t]) == Ids(tasks) + {t.id}
  {
    var r := tasks + [t];
    DistinctIdsPairwise(tasks);
    forall a, b | 0 <= a < b < |r| ensures r[a].id != r[b].id {
      if b == |tasks| {
        assert tasks[a] in tasks;
      }
    }
    DistinctIdsPairwise(r);
    forall x | x in Ids(tasks) ensures x in Ids(r) {
      var u :| u in tasks && u.id == x;
      assert u in r;
    }
    assert r[|tasks|] in r;
  }
}
