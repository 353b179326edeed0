/**
 * Overflow resolution (App.tsx `handleOverflowChoice`, the selection
 * click handler of the "Pack your Session" screen, `confirmSelectionMode`):
 * forcing a pending task into a session turns that session's tasks plus
 * the pending task into candidates; the user keeps a capacity-gated subset
 * and confirmation sends the rest to the tomorrow queue.
 */
module Overflow {
  import opened Types
  import opened TaskList
  import opened Capacity
  import opened Placement
  import opened Rollover

  /** The three buttons of the "Today's Box is Full" screen. */
  datatype OverflowChoice = StoreForTomorrow | ForceMorning | ForceEvening

  /** The session a force choice names: the morning for force-morning, the evening otherwise. */
  function ForcedSession(choice: OverflowChoice): (s: TaskLocation)
    ensures s != Tomorrow
    ensures s == Morning <==> choice == ForceMorning
  {
    if choice == ForceMorning then Morning else Evening
  }

  /**
   * A candidate list as the force choice builds it: not empty, all in the
   * same session (the one read back from the first candidate on
   * confirmation), ids distinct.
   */
  predicate WellFormedCandidates(cands: seq<Task>) {
    && |cands| > 0
    && cands[0].location != Tomorrow
    && (forall i :: 0 <= i < |cands| ==> cands[i].location == cands[0].location)
    && DistinctIds(cands)
  }

  /** The session's tasks in plan order, followed by the pending task moved into that session. */
  function ForcedCandidates(tasks: seq<Task>, pending: Task, session: TaskLocation): (c: seq<Task>)
    requires session != Tomorrow
    ensures |c| == |TasksAt(tasks, session)| + 1
    ensures c[..|c| - 1] == TasksAt(tasks, session) && c[|c| - 1] == pending.(location := session)
    ensures forall i :: 0 <= i < |c| ==> c[i].location == session
    ensures Ids(c) == Ids(TasksAt(tasks, session)) + {pending.id}
    ensures DistinctIds(tasks) && pending.id !in Ids(tasks) ==> WellFormedCandidates(c)
  {
    ForcedCandidatesFacts(tasks, pending, session);
    TasksAt(tasks, session) + [pending.(location := session)]
  }

  lemma ForcedCandidatesFacts(tasks: seq<Task>, pending: Task, session: TaskLocation)
    requires session != Tomorrow
    ensures var at := TasksAt(tasks, session);
            var c := at + [pending.(location := session)];
            && Ids(c) == Ids(at) + {pending.id}
            && (DistinctIds(tasks) && pending.id !in Ids(tasks) ==> DistinctIds(c))
  {
    var at := TasksAt(tasks, session);
    var c := at + [pending.(location := session)];
    assert forall i :: 0 <= i < |at| ==> at[i] in at;
    assert Ids(c) == Ids(at) + {pending.id} by {
      forall x | x in Ids(c) ensures x in Ids(at) + {pending.id} {
        var t :| t in c && t.id == x;
      }
      assert c[|c| - 1] in c;
    }
    if DistinctIds(tasks) && pending.id !in Ids(tasks) {
      TasksAtKeepsIds(tasks, session);
      AppendFresh(at, pending.(location := session));
    }
  }

  // ---------------------------------------------------------------------
  // Selection

  /** The minutes of the first candidate with the id, or 0 when there is none. */
  function MinutesOf(cands: seq<Task>, id: string): int {
    match FindTask(cands, id)
    case Some(t) => t.durationMinutes
    case None => 0
  }

  /**
   * `currentlySelectedMinutes`: the fold over the selected id set. The set
   * has no order, and the fold adds integers, so any order gives the same
   * sum (SelectedMinutesRemove).
   */
  ghost function SelectedMinutes(cands: seq<Task>, selected: set<string>): int
    decreases selected
  {
    if selected == {} then 0
    else
      var id :| id in selected;
      MinutesOf(cands, id) + SelectedMinutes(cands, selected - {id})
  }

  /** The fold may take any selected id first. */
  lemma {:induction false} SelectedMinutesRemove(cands: seq<Task>, selected: set<string>, x: string)
    requires x in selected
    ensures SelectedMinutes(cands, selected) == MinutesOf(cands, x) + SelectedMinutes(cands, selected - {x})
    decreases |selected|
  {
    var y :| y in selected && SelectedMinutes(cands, selected) == MinutesOf(cands, y) + SelectedMinutes(cands, selected - {y});
    if y != x {
      SelectedMinutesRemove(cands, selected - {y}, x);
      SelectedMinutesRemove(cands, selected - {x}, y);
      assert selected - {y} - {x} == selected - {x} - {y};
    }
  }

  /** The fold only looks at the minutes of the selected ids. */
  lemma {:induction false} SelectedMinutesCongruent(a: seq<Task>, b: seq<Task>, selected: set<string>)
    requires forall id :: id in selected ==> MinutesOf(a, id) == MinutesOf(b, id)
    ensures SelectedMinutes(a, selected) == SelectedMinutes(b, selected)
    decreases |selected|
  {
    if selected != {} {
      var x :| x in selected;
      SelectedMinutesRemove(a, selected, x);
      SelectedMinutesRemove(b, selected, x);
      SelectedMinutesCongruent(a, b, selected - {x});
    }
  }

  /** The selected minutes summed along the candidate list. */
  function CandidateMinutes(cands: seq<Task>, selected: set<string>): int {
    if cands == [] then 0
    else (if cands[0].id in selected then cands[0].durationMinutes else 0) + CandidateMinutes(cands[1..], selected)
  }

  lemma {:induction false} CandidateMinutesIgnores(cands: seq<Task>, selected: set<string>, x: string)
    requires x !in Ids(cands)
    ensures CandidateMinutes(cands, selected - {x}) == CandidateMinutes(cands, selected)
  {
    if cands != [] {
      assert cands[0] in cands;
      assert Ids(cands[1..]) <= Ids(cands) by {
        forall y | y in Ids(cands[1..]) ensures y in Ids(cands) {
          var t :| t in cands[1..] && t.id == y;
          assert t in cands;
        }
      }
      CandidateMinutesIgnores(cands[1..], selected, x);
    }
  }

  /**
   * With distinct candidate ids, the source's fold over the selected id set
   * equals the sum along the candidate list of the selected candidates.
   */
  lemma {:induction false} SelectedMinutesIsCandidateMinutes(cands: seq<Task>, selected: set<string>)
    requires DistinctIds(cands)
    requires selected <= Ids(cands)
    ensures SelectedMinutes(cands, selected) == CandidateMinutes(cands, selected)
  {
    if cands == [] {
      assert selected == {};
    } else {
      var h, rest := cands[0], cands[1..];
      assert cands == [h] + rest;
      DistinctTail(cands);
      var others := selected - {h.id};
      assert others <= Ids(rest) by {
        forall y | y in others ensures y in Ids(rest) {
          var t :| t in cands && t.id == y;
          var k :| 0 <= k < |cands| && cands[k] == t;
          assert k != 0;
          assert rest[k - 1] == t;
        }
      }
      forall id | id in others ensures MinutesOf(cands, id) == MinutesOf(rest, id) {
      }
      SelectedMinutesCongruent(cands, rest, others);
      SelectedMinutesIsCandidateMinutes(rest, others);
      CandidateMinutesIgnores(rest, selected, h.id);
      if h.id in selected {
        SelectedMinutesRemove(cands, selected, h.id);
      } else {
        assert others == selected;
      }
    }
  }

  /** `wouldExceed` for candidate i: not selected, and adding it would pass its session's limit. */
  function WouldExceed(cands: seq<Task>, selected: set<string>, i: nat): bool
    requires i < |cands|
  {
    cands[i].id !in selected
    && CandidateMinutes(cands, selected) + cands[i].durationMinutes > SessionLimit(cands[i].location)
  }

  /**
   * The click on candidate i: a selected candidate is always deselected;
   * an unselected one is added only when it would not pass the limit.
   */
  function ToggleSelected(cands: seq<Task>, selected: set<string>, i: nat): (r: set<string>)
    requires i < |cands|
    ensures cands[i].id in selected ==> r == selected - {cands[i].id}
    ensures cands[i].id !in selected ==>
              r == if CandidateMinutes(cands, selected) + cands[i].durationMinutes <= SessionLimit(cands[i].location)
                   then selected + {cands[i].id} else selected
  {
    var id := cands[i].id;
    if id in selected then selected - {id}
    else if !WouldExceed(cands, selected, i) then selected + {id}
    else selected
  }

  /**
   * The selection gate holds its promise: starting from a selection within
   * the session's limit, a click keeps the selection among the candidates,
   * moves the selected total by exactly the clicked candidate's minutes,
   * and keeps the total within the limit (no candidate has negative minutes).
   */
  lemma ToggleKeepsSelectionWithinLimit(cands: seq<Task>, selected: set<string>, i: nat)
    requires WellFormedCandidates(cands) && NonNegativeDurations(cands)
    requires selected <= Ids(cands) && i < |cands|
    requires SelectedMinutes(cands, selected) <= SessionLimit(cands[0].location)
    ensures ToggleSelected(cands, selected, i) <= Ids(cands)
    ensures var r := ToggleSelected(cands, selected, i);
            cands[i].id in selected ==> SelectedMinutes(cands, r) == SelectedMinutes(cands, selected) - cands[i].durationMinutes
    ensures var r := ToggleSelected(cands, selected, i);
            cands[i].id in r - selected ==> SelectedMinutes(cands, r) == SelectedMinutes(cands, selected) + cands[i].durationMinutes
    ensures SelectedMinutes(cands, ToggleSelected(cands, selected, i)) <= SessionLimit(cands[0].location)
  {
    var id := cands[i].id;
    var r := ToggleSelected(cands, selected, i);
    assert cands[i] in cands;
    FindDistinct(cands, i);
    SelectedMinutesIsCandidateMinutes(cands, selected);
    if id in selected {
      SelectedMinutesRemove(cands, selected, id);
    } else if id in r {
      SelectedMinutesRemove(cands, r, id);
      assert r - {id} == selected;
    }
  }

  /** A candidate longer than the session's limit can never be selected. */
  lemma OversizedNeverSelected(cands: seq<Task>, selected: set<string>, i: nat)
    requires WellFormedCandidates(cands) && NonNegativeDurations(cands)
    requires i < |cands| && cands[i].id !in selected
    requires cands[i].durationMinutes > SessionLimit(cands[0].location)
    ensures cands[i].id !in ToggleSelected(cands, selected, i)
  {
    CandidateMinutesNonNegative(cands, selected);
  }

  /**
   * Without the premise the gate can be passed: after an edit stored a
   * -100-minute morning task and it was selected, a 300-minute task, longer
   * than the 240-minute morning, is added by a click.
   */
  lemma OversizedSelectedAfterNegative()
    ensures var cands := [Task("a", "edited", -100, Small, Some(false), Morning),
                          Task("b", "long", 300, Big, Some(false), Morning)];
            && cands[1].durationMinutes > SessionLimit(Morning)
            && "b" in ToggleSelected(cands, {"a"}, 1)
  {
    var cands := [Task("a", "edited", -100, Small, Some(false), Morning),
                  Task("b", "long", 300, Big, Some(false), Morning)];
    assert cands[1..][1..] == [];
    assert CandidateMinutes(cands, {"a"}) == -100;
  }

  lemma {:induction false} CandidateMinutesNonNegative(cands: seq<Task>, selected: set<string>)
    requires NonNegativeDurations(cands)
    ensures CandidateMinutes(cands, selected) >= 0
  {
    if cands != [] {
      CandidateMinutesNonNegative(cands[1..], selected);
    }
  }

  // ---------------------------------------------------------------------
  // Confirmation

  /** The plan tasks whose id is not a candidate's, in plan order. */
  function OutsideCandidates(tasks: seq<Task>, ids: set<string>): (r: seq<Task>)
    ensures forall t :: t in r <==> t in tasks && t.id !in ids
  {
    if tasks == [] then []
    else (if tasks[0].id !in ids then [tasks[0]] else []) + OutsideCandidates(tasks[1..], ids)
  }

  /** The tasks outside the candidates keep their relative order. */
  lemma {:induction false} OutsideCandidatesAppend(a: seq<Task>, b: seq<Task>, ids: set<string>)
    ensures OutsideCandidates(a + b, ids) == OutsideCandidates(a, ids) + OutsideCandidates(b, ids)
  {
    if a == [] {
      assert a + b == b;
    } else {
      assert (a + b)[1..] == a[1..] + b;
      OutsideCandidatesAppend(a[1..], b, ids);
    }
  }

  /** Every candidate, in order, moved to the session when selected and to the tomorrow queue when not. */
  function Relocated(cands: seq<Task>, selected: set<string>, session: TaskLocation): (r: seq<Task>)
    ensures |r| == |cands|
    ensures forall i :: 0 <= i < |cands| ==>
              r[i] == cands[i].(location := if cands[i].id in selected then session else Tomorrow)
  {
    if cands == [] then []
    else [cands[0].(location := if cands[0].id in selected then session else Tomorrow)]
         + Relocated(cands[1..], selected, session)
  }

  /** Relocation changes locations only: the ids, and their distinctness, are kept. */
  lemma {:induction false} RelocatedKeepsIds(cands: seq<Task>, selected: set<string>, session: TaskLocation)
    ensures Ids(Relocated(cands, selected, session)) == Ids(cands)
    ensures DistinctIds(cands) ==> DistinctIds(Relocated(cands, selected, session))
  {
    if cands != [] {
      var r, rest := Relocated(cands, selected, session), Relocated(cands[1..], selected, session);
      RelocatedKeepsIds(cands[1..], selected, session);
      assert r[1..] == rest;
      IdsCons(r);
      IdsCons(cands);
    }
  }

  /**
   * The task list after confirmation: the tasks outside the candidates, in
   * their order and untouched, then every candidate, in the session read
   * from the first candidate if selected and in the tomorrow queue if not.
   */
  function ConfirmedTasks(tasks: seq<Task>, cands: seq<Task>, selected: set<string>): seq<Task>
    requires |cands| > 0
  {
    OutsideCandidates(tasks, Ids(cands)) + Relocated(cands, selected, cands[0].location)
  }

  /** The shape of the confirmed list, index by index. */
  lemma ConfirmedTasksShape(tasks: seq<Task>, cands: seq<Task>, selected: set<string>)
    requires |cands| > 0
    ensures var r, outside := ConfirmedTasks(tasks, cands, selected), OutsideCandidates(tasks, Ids(cands));
            && |r| == |outside| + |cands|
            && r[..|outside|] == outside
            && forall i :: 0 <= i < |cands| ==>
                 r[|outside| + i] == cands[i].(location := if cands[i].id in selected then cands[0].location else Tomorrow)
  {
  }

  lemma {:induction false} RelocatedUsage(cands: seq<Task>, selected: set<string>, session: TaskLocation)
    requires session != Tomorrow
    ensures SessionUsed(session, Relocated(cands, selected, session)) == CandidateMinutes(cands, selected)
    ensures forall o :: o != session && o != Tomorrow ==> SessionUsed(o, Relocated(cands, selected, session)) == 0
  {
    var r := Relocated(cands, selected, session);
    forall o | o != session && o != Tomorrow ensures SessionUsed(o, r) == 0 {
      SessionUsedEmpty(o, r);
    }
    if cands != [] {
      assert r == [r[0]] + Relocated(cands[1..], selected, session);
      SessionUsedCons(session, r[0], Relocated(cands[1..], selected, session));
      RelocatedUsage(cands[1..], selected, session);
    }
  }

  /** Dropping the candidates leaves a session's usage alone when none of its tasks is a candidate. */
  lemma {:induction false} OutsideUsage(o: TaskLocation, tasks: seq<Task>, ids: set<string>)
    requires forall i :: 0 <= i < |tasks| && tasks[i].location == o ==> tasks[i].id !in ids
    ensures SessionUsed(o, OutsideCandidates(tasks, ids)) == SessionUsed(o, tasks)
  {
    if tasks != [] {
      var h, rest := tasks[0], tasks[1..];
      assert tasks == [h] + rest;
      SessionUsedCons(o, h, rest);
      OutsideUsage(o, rest, ids);
      if h.id !in ids {
        assert OutsideCandidates(tasks, ids) == [h] + OutsideCandidates(rest, ids);
        SessionUsedCons(o, h, OutsideCandidates(rest, ids));
      } else {
        assert OutsideCandidates(tasks, ids) == OutsideCandidates(rest, ids);
      }
    }
  }

  /**
   * When every task of the session is a candidate, the session's usage
   * after confirmation is exactly the selected total.
   */
  lemma ConfirmUsage(tasks: seq<Task>, cands: seq<Task>, selected: set<string>)
    requires WellFormedCandidates(cands) && selected <= Ids(cands)
    requires forall i :: 0 <= i < |tasks| && tasks[i].location == cands[0].location ==> tasks[i].id in Ids(cands)
    ensures SessionUsed(cands[0].location, ConfirmedTasks(tasks, cands, selected)) == SelectedMinutes(cands, selected)
  {
    var session := cands[0].location;
    var outside := OutsideCandidates(tasks, Ids(cands));
    var moved := Relocated(cands, selected, session);
    assert ConfirmedTasks(tasks, cands, selected) == outside + moved;
    forall i | 0 <= i < |outside| ensures outside[i].location != session {
      assert outside[i] in outside;
      var k :| 0 <= k < |tasks| && tasks[k] == outside[i];
    }
    SessionUsedEmpty(session, outside);
    SessionUsedAppend(session, outside, moved);
    RelocatedUsage(cands, selected, session);
    SelectedMinutesIsCandidateMinutes(cands, selected);
  }

  /** A day session none of whose tasks is a candidate keeps its usage through confirmation. */
  lemma ConfirmLeavesOther(tasks: seq<Task>, cands: seq<Task>, selected: set<string>, o: TaskLocation)
    requires |cands| > 0 && cands[0].location != Tomorrow
    requires o != cands[0].location && o != Tomorrow
    requires forall i :: 0 <= i < |tasks| && tasks[i].location == o ==> tasks[i].id !in Ids(cands)
    ensures SessionUsed(o, ConfirmedTasks(tasks, cands, selected)) == SessionUsed(o, tasks)
  {
    var session := cands[0].location;
    var outside := OutsideCandidates(tasks, Ids(cands));
    var moved := Relocated(cands, selected, session);
    assert ConfirmedTasks(tasks, cands, selected) == outside + moved;
    RelocatedUsage(cands, selected, session);
    SessionUsedAppend(o, outside, moved);
    OutsideUsage(o, tasks, Ids(cands));
  }

  /** Confirmation keeps the plan's ids: those outside the candidates, and every candidate's. */
  lemma ConfirmKeepsIds(tasks: seq<Task>, cands: seq<Task>, selected: set<string>)
    requires |cands| > 0
    ensures Ids(ConfirmedTasks(tasks, cands, selected)) == (Ids(tasks) - Ids(cands)) + Ids(cands)
  {
    var outside := OutsideCandidates(tasks, Ids(cands));
    var moved := Relocated(cands, selected, cands[0].location);
    assert ConfirmedTasks(tasks, cands, selected) == outside + moved;
    IdsAppend(outside, moved);
    RelocatedKeepsIds(cands, selected, cands[0].location);
    assert Ids(outside) == Ids(tasks) - Ids(cands) by {
      forall x | x in Ids(tasks) - Ids(cands) ensures x in Ids(outside) {
        var t :| t in tasks && t.id == x;
        assert t in outside;
      }
    }
  }

  /** Confirmation keeps plan ids distinct: outsiders and candidates have disjoint ids. */
  lemma ConfirmDistinct(tasks: seq<Task>, cands: seq<Task>, selected: set<string>)
    requires WellFormedCandidates(cands) && DistinctIds(tasks)
    ensures DistinctIds(ConfirmedTasks(tasks, cands, selected))
  {
    var outside := OutsideCandidates(tasks, Ids(cands));
    var moved := Relocated(cands, selected, cands[0].location);
    assert ConfirmedTasks(tasks, cands, selected) == outside + moved;
    OutsideDistinct(tasks, Ids(cands));
    RelocatedKeepsIds(cands, selected, cands[0].location);
    assert Ids(outside) !! Ids(moved) by {
      forall x | x in Ids(outside) ensures x !in Ids(cands) {
        var t :| t in outside && t.id == x;
      }
    }
    DistinctAppend(outside, moved);
  }

  lemma {:induction false} OutsideDistinct(tasks: seq<Task>, ids: set<string>)
    requires DistinctIds(tasks)
    ensures DistinctIds(OutsideCandidates(tasks, ids))
  {
    if tasks != [] {
      var h, rest := tasks[0], tasks[1..];
      DistinctTail(tasks);
      OutsideDistinct(rest, ids);
      var o := OutsideCandidates(rest, ids);
      if h.id !in ids {
        assert OutsideCandidates(tasks, ids) == [h] + o;
        assert h.id !in Ids(o) by {
          forall t | t in o ensures t.id != h.id {
            assert t in rest;
          }
        }
        DistinctCons(h, o);
      } else {
        assert OutsideCandidates(tasks, ids) == o;
      }
    }
  }

  /**
   * Forcing a pending task into a session and confirming a selection books
   * that session at exactly the selected total and leaves the other session
   * untouched; so a gated selection (within the limit) keeps a plan within
   * capacity.
   */
  lemma ForceAndConfirmUsage(tasks: seq<Task>, pending: Task, session: TaskLocation, selected: set<string>)
    requires session != Tomorrow
    requires DistinctIds(tasks) && pending.id !in Ids(tasks)
    requires selected <= Ids(ForcedCandidates(tasks, pending, session))
    ensures var cands := ForcedCandidates(tasks, pending, session);
            var r := ConfirmedTasks(tasks, cands, selected);
            var other := if session == Morning then Evening else Morning;
            && SessionUsed(session, r) == SelectedMinutes(cands, selected)
            && SessionUsed(other, r) == SessionUsed(other, tasks)
            && (WithinCapacity(tasks) && SelectedMinutes(cands, selected) <= SessionLimit(session) ==> WithinCapacity(r))
  {
    var other := if session == Morning then Evening else Morning;
    var cands := ForcedCandidates(tasks, pending, session);
    var r := ConfirmedTasks(tasks, cands, selected);
    ForcedCandidatesCover(tasks, pending, session);
    ForcedCandidatesAvoid(tasks, pending, session, other);
    ConfirmUsage(tasks, cands, selected);
    ConfirmLeavesOther(tasks, cands, selected, other);
  }

  /** Every task of the forced session is a candidate. */
  lemma ForcedCandidatesCover(tasks: seq<Task>, pending: Task, session: TaskLocation)
    requires session != Tomorrow
    ensures forall i :: 0 <= i < |tasks| && tasks[i].location == session ==>
              tasks[i].id in Ids(ForcedCandidates(tasks, pending, session))
  {
    var cands := ForcedCandidates(tasks, pending, session);
    forall i | 0 <= i < |tasks| && tasks[i].location == session
      ensures tasks[i].id in Ids(cands)
    {
      assert tasks[i] in TasksAt(tasks, session);
      assert tasks[i].id in Ids(TasksAt(tasks, session));
    }
  }

  /** With distinct ids and a fresh pending id, no task of the other session is a candidate. */
  lemma ForcedCandidatesAvoid(tasks: seq<Task>, pending: Task, session: TaskLocation, other: TaskLocation)
    requires session != Tomorrow && other != session
    requires DistinctIds(tasks) && pending.id !in Ids(tasks)
    ensures forall i :: 0 <= i < |tasks| && tasks[i].location == other ==>
              tasks[i].id !in Ids(ForcedCandidates(tasks, pending, session))
  {
    var at := TasksAt(tasks, session);
    DistinctIdsPairwise(tasks);
    forall i | 0 <= i < |tasks| && tasks[i].location == other
      ensures tasks[i].id !in Ids(at) + {pending.id}
    {
      assert tasks[i] in tasks;
      forall t | t in at ensures t.id != tasks[i].id {
        var k :| 0 <= k < |tasks| && tasks[k] == t;
      }
    }
  }

  // ---------------------------------------------------------------------
  // The confirmed plan

  /**
   * `{ ...prev.currentPlan!, tasks }` as written: with no current plan the
   * spread adds nothing and the plan has no date. Every reader of the date
   * (`plan.date !== todayStr`, `prev.currentPlan?.date || today`) treats a
   * missing date like the empty string, so the model writes "".
   */
  function ConfirmedPlanAsWritten(plan: Option<BentoPlan>, cands: seq<Task>, selected: set<string>): (p: BentoPlan)
    requires |cands| > 0
    ensures p.tasks == ConfirmedTasks(CurrentTasks(plan), cands, selected)
    ensures p.date == if plan.Some? then plan.value.date else ""
  {
    match plan
    case Some(current) => current.(tasks := ConfirmedTasks(current.tasks, cands, selected))
    case None => BentoPlan(ConfirmedTasks([], cands, selected), "")
  }

  /**
   * The very first task, placed when no plan has been stored yet (first
   * use, or storage empty or unreadable), is longer than the morning limit
   * and overflows; forced into the morning, it cannot be selected, and
   * confirmation (as written) files it in the tomorrow queue of a plan
   * with no date. The next load, if no task is placed before it, takes
   * that plan for a stale one even on the same day and migrates the task
   * into today's morning, 60 minutes over the limit. Once a plan exists it
   * keeps a date, and a later placement dates a dateless plan today.
   */
  lemma DatelessPlanAsWritten(today: string)
    requires today != ""
    ensures var pending := NewTask("a", "deep work", 300, Morning);
            var cands := ForcedCandidates([], pending, Morning);
            var selected := ToggleSelected(cands, {}, 0);
            var p := ConfirmedPlanAsWritten(None, cands, selected);
            && FirstFit([], 300) == None
            && selected == {}
            && p.tasks == [pending.(location := Tomorrow)]
            && p.date == ""
            && LoadPlan(Some(p), today) != Some(p)
            && SessionUsed(Morning, LoadPlan(Some(p), today).value.tasks) == 300
  {
    var pending := NewTask("a", "deep work", 300, Morning);
    var cands := ForcedCandidates([], pending, Morning);
    assert TasksAt([], Morning) == [];
    assert cands == [pending.(location := Morning)];
    assert CandidateMinutes(cands, {}) == 0 by {
      assert cands[1..] == [];
    }
    var selected := ToggleSelected(cands, {}, 0);
    assert selected == {};
    var p := ConfirmedPlanAsWritten(None, cands, selected);
    assert OutsideCandidates([], Ids(cands)) == [];
    assert p.tasks == [pending.(location := Tomorrow)];
    MigrationUsage(p.tasks, today);
    SessionUsedCons(Tomorrow, pending.(location := Tomorrow), []);
    assert [pending.(location := Tomorrow)] + [] == p.tasks;
  }

  /**
   * Corrected confirmation: the plan keeps its date, and a confirmation
   * without a plan dates the new plan today, as `addTaskToPlan` does.
   */
  function ConfirmedPlan(plan: Option<BentoPlan>, cands: seq<Task>, selected: set<string>, today: string): (p: BentoPlan)
    requires |cands| > 0
    ensures p.tasks == ConfirmedTasks(CurrentTasks(plan), cands, selected)
    ensures plan.Some? && plan.value.date != "" ==> p.date == plan.value.date
    ensures plan.None? ==> p.date == today
  {
    BentoPlan(ConfirmedTasks(CurrentTasks(plan), cands, selected), PlanDate(plan, today))
  }

  /** With a dated plan in place, the confirmation as written and the corrected one agree. */
  lemma DatedPlanUnaffected(plan: Option<BentoPlan>, cands: seq<Task>, selected: set<string>, today: string)
    requires |cands| > 0
    requires plan.Some? && plan.value.date != ""
    ensures ConfirmedPlanAsWritten(plan, cands, selected) == ConfirmedPlan(plan, cands, selected, today)
  {
  }

  /**
   * The corrected plan survives the next load of the same day: whether it
   * was created by this confirmation or was already today's, loading keeps
   * it as it is, so its tomorrow queue stays in the tomorrow queue.
   */
  lemma ConfirmedPlanSurvivesLoad(plan: Option<BentoPlan>, cands: seq<Task>, selected: set<string>, today: string)
    requires |cands| > 0
    requires plan.None? || plan.value.date == today
    ensures LoadPlan(Some(ConfirmedPlan(plan, cands, selected, today)), today) == Some(ConfirmedPlan(plan, cands, selected, today))
    ensures TasksAt(LoadPlan(Some(ConfirmedPlan(plan, cands, selected, today)), today).value.tasks, Tomorrow)
         == TasksAt(ConfirmedTasks(CurrentTasks(plan), cands, selected), Tomorrow)
  {
  }
}
