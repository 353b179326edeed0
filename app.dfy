/**
 * The planner screen of App.tsx as a state machine: the application state,
 * the queue of task names waiting for a duration, the task that did not
 * fit, the candidates of the "Pack your Session" screen with their
 * selection, and the capacity advisory. Each handler is a method that
 * updates these fields.
 */
module App {
  import opened Types
  import opened TaskList
  import opened Capacity
  import opened Placement
  import opened Rollover
  import opened Overflow

  /** The capacity advisory: which box was full, or no room in either box. */
  datatype Advisory = BoxFull(target: TaskLocation) | NoRoomToday

  /** What the load effect reads back from storage. */
  datatype Stored = Stored(currentPlan: Option<BentoPlan>, lifetimeCompletions: Option<int>)

  /** `prev.slice(1)`: the queue without its head; an empty queue stays empty. */
  function Rest(names: seq<string>): (r: seq<string>)
    ensures names == [] ==> r == []
    ensures names != [] ==> names == [names[0]] + r
  {
    if names == [] then [] else names[1..]
  }

  /** The toggle's update: the negated completion, where an absent flag reads as not completed. */
  function TogglePatch(task: Task): Patch {
    CompletedPatch(!IsCompleted(task))
  }

  /** The counter change of a toggle: one up when the task becomes completed, one down when it is undone. */
  function CompletionDelta(task: Task): (d: int)
    ensures d == 1 <==> !IsCompleted(task)
    ensures d == -1 <==> IsCompleted(task)
  {
    if IsCompleted(task) then -1 else 1
  }

  /**
   * On one task: toggling flips its completion and the two counter changes
   * cancel; toggling twice gives back the task with its flag made explicit.
   */
  lemma ToggleRecordTwice(t: Task)
    ensures var once := ApplyPatch(t, TogglePatch(t));
            && IsCompleted(once) == !IsCompleted(t)
            && once == t.(completed := Some(!IsCompleted(t)))
            && CompletionDelta(t) + CompletionDelta(once) == 0
            && ApplyPatch(once, TogglePatch(once)) == t.(completed := Some(IsCompleted(t)))
            && (t.completed.Some? ==> ApplyPatch(once, TogglePatch(once)) == t)
  {
    var once := ApplyPatch(t, TogglePatch(t));
    assert once.completed == Some(!IsCompleted(t));
    assert IsCompleted(once) == !IsCompleted(t);
    var twice := ApplyPatch(once, TogglePatch(once));
    assert twice.completed == Some(IsCompleted(t));
    if t.completed.Some? {
      assert t.completed == Some(t.completed.value);
      if !t.completed.value {
        assert t.completed == Some(false) && !IsCompleted(t);
      }
    }
  }

  /** With distinct ids, toggling the task at position i rewrites that position only. */
  lemma ToggleOne(tasks: seq<Task>, i: nat)
    requires DistinctIds(tasks) && i < |tasks|
    ensures UpdateTasks(tasks, tasks[i].id, TogglePatch(tasks[i]))
         == tasks[i := ApplyPatch(tasks[i], TogglePatch(tasks[i]))]
    ensures DistinctIds(UpdateTasks(tasks, tasks[i].id, TogglePatch(tasks[i])))
  {
    UpdateChangesOne(tasks, i, TogglePatch(tasks[i]));
    UpdateKeepsIds(tasks, tasks[i].id, TogglePatch(tasks[i]));
  }

  /** Writing a position twice leaves the second value. */
  lemma OverwriteTwice(tasks: seq<Task>, i: nat, a: Task, b: Task)
    requires i < |tasks|
    ensures tasks[i := a][i := b] == tasks[i := b]
  {
  }

  /**
   * Toggling the task at position i flips its completion and no other
   * task; toggling it again undoes the counter change and restores the
   * list, up to an absent flag now being an explicit `false`.
   */
  lemma ToggleTwice(tasks: seq<Task>, i: nat)
    requires DistinctIds(tasks) && i < |tasks|
    ensures var id := tasks[i].id;
            var once := UpdateTasks(tasks, id, TogglePatch(tasks[i]));
            var twice := UpdateTasks(once, id, TogglePatch(once[i]));
            && once == tasks[i := ApplyPatch(tasks[i], TogglePatch(tasks[i]))]
            && IsCompleted(once[i]) == !IsCompleted(tasks[i])
            && CompletionDelta(tasks[i]) + CompletionDelta(once[i]) == 0
            && twice == tasks[i := tasks[i].(completed := Some(IsCompleted(tasks[i])))]
            && (tasks[i].completed.Some? ==> twice == tasks)
  {
    var t := tasks[i];
    ToggleRecordTwice(t);
    ToggleOne(tasks, i);
    var once := tasks[i := ApplyPatch(t, TogglePatch(t))];
    ToggleOne(once, i);
    OverwriteTwice(tasks, i, ApplyPatch(t, TogglePatch(t)), t.(completed := Some(IsCompleted(t))));
    if t.completed.Some? {
      assert tasks[i := t] == tasks;
    }
  }

  /** `currentPlan` with its task list replaced; no plan stays no plan. */
  function WithTasks(plan: Option<BentoPlan>, tasks: seq<Task>): Option<BentoPlan> {
    if plan.Some? then Some(plan.value.(tasks := tasks)) else None
  }

  /**
   * An open selection: the candidates are the forced session's plan tasks
   * followed by one task not in the plan, the selection is among the
   * candidates, and (without negative durations) its total is within the
   * session's limit.
   */
  ghost predicate SelectionInvariant(tasks: seq<Task>, cands: seq<Task>, selected: set<string>) {
    && WellFormedCandidates(cands)
    && cands[..|cands| - 1] == TasksAt(tasks, cands[0].location)
    && cands[|cands| - 1].id !in Ids(tasks)
    && selected <= Ids(cands)
    && (NonNegativeDurations(cands) ==> SelectedMinutes(cands, selected) <= SessionLimit(cands[0].location))
  }

  /** Opening the selection on a forced session establishes the invariant, with nothing selected. */
  lemma ForcedSelectionStarts(tasks: seq<Task>, pending: Task, session: TaskLocation)
    requires session != Tomorrow
    requires DistinctIds(tasks) && pending.id !in Ids(tasks)
    ensures SelectionInvariant(tasks, ForcedCandidates(tasks, pending, session), {})
  {
    var cands := ForcedCandidates(tasks, pending, session);
    assert cands[0].location == session;
    assert SelectedMinutes(cands, {}) == 0;
  }

  /**
   * Confirming an open selection keeps plan ids distinct, books the forced
   * session at exactly the selected total and leaves the other session's
   * usage alone.
   */
  lemma ConfirmFromInvariant(tasks: seq<Task>, cands: seq<Task>, selected: set<string>)
    requires DistinctIds(tasks) && SelectionInvariant(tasks, cands, selected)
    ensures var r := ConfirmedTasks(tasks, cands, selected);
            var session := cands[0].location;
            var other := if session == Morning then Evening else Morning;
            && DistinctIds(r)
            && SessionUsed(session, r) == SelectedMinutes(cands, selected)
            && SessionUsed(other, r) == SessionUsed(other, tasks)
            && (NonNegativeDurations(cands) && WithinCapacity(tasks) ==> WithinCapacity(r))
  {
    var session := cands[0].location;
    var pending := cands[|cands| - 1];
    assert cands == ForcedCandidates(tasks, pending, session) by {
      assert cands == cands[..|cands| - 1] + [pending];
    }
    ForceAndConfirmUsage(tasks, pending, session, selected);
    ConfirmDistinct(tasks, cands, selected);
  }

  class Planner {
    var state: AppState
    var pendingNames: seq<string>
    var activeOverflowTask: Option<Task>
    var selectionModeTasks: Option<seq<Task>>
    var selectedTaskIds: set<string>
    var capacityError: Option<Advisory>

    /** The tasks of the current plan, or none. */
    function Tasks(): seq<Task>
      reads this`state
    {
      CurrentTasks(state.currentPlan)
    }

    /**
     * The invariant every handler keeps: plan ids are distinct, the task
     * that did not fit is not in the plan, at most one of the two
     * full-screen choices is open, and an open selection keeps
     * `SelectionInvariant`.
     */
    ghost predicate Valid()
      reads this`state, this`activeOverflowTask, this`selectionModeTasks, this`selectedTaskIds
    {
      && DistinctIds(Tasks())
      && (activeOverflowTask.Some? ==>
            activeOverflowTask.value.id !in Ids(Tasks()) && selectionModeTasks.None?)
      && (selectionModeTasks.Some? ==>
            SelectionInvariant(Tasks(), selectionModeTasks.value, selectedTaskIds))
    }

    /**
     * The initial state after the load effect: a stored plan of another day
     * is rolled over to `today`, the counter is the stored one or 0.
     */
    constructor Load(stored: Option<Stored>, today: string)
      requires stored.Some? ==> DistinctIds(CurrentTasks(stored.value.currentPlan))
      ensures stored.None? ==> state == AppState(None, false, None, 0)
      ensures stored.Some? ==>
                state == AppState(LoadPlan(stored.value.currentPlan, today), false, None,
                                  if stored.value.lifetimeCompletions.Some? then stored.value.lifetimeCompletions.value else 0)
      ensures pendingNames == [] && activeOverflowTask.None? && selectionModeTasks.None?
      ensures selectedTaskIds == {} && capacityError.None?
      ensures Valid()
    {
      if stored.Some? {
        var plan := LoadPlan(stored.value.currentPlan, today);
        if stored.value.currentPlan.Some? {
          MigrationKeepsIds(stored.value.currentPlan.value.tasks, today);
        }
        var count := if stored.value.lifetimeCompletions.Some? then stored.value.lifetimeCompletions.value else 0;
        state := AppState(plan, false, None, count);
      } else {
        state := AppState(None, false, None, 0);
      }
      pendingNames := [];
      activeOverflowTask := None;
      selectionModeTasks := None;
      selectedTaskIds := {};
      capacityError := None;
    }

    /** The extracted names seed the queue; an empty extraction changes nothing. */
    method ReceiveExtraction(names: seq<string>)
      requires Valid()
      modifies this
      ensures Valid()
      ensures names == [] ==> pendingNames == old(pendingNames)
      ensures names != [] ==> pendingNames == names
      ensures state == old(state) && activeOverflowTask == old(activeOverflowTask)
      ensures selectionModeTasks == old(selectionModeTasks) && selectedTaskIds == old(selectedTaskIds)
      ensures capacityError == old(capacityError)
    {
      if names != [] {
        pendingNames := names;
      }
    }

    /** A failed extraction records its message in the state. */
    method ExtractionFailed(message: string)
      requires Valid()
      modifies this
      ensures Valid()
      ensures state == old(state).(error := Some(message))
      ensures pendingNames == old(pendingNames) && activeOverflowTask == old(activeOverflowTask)
      ensures selectionModeTasks == old(selectionModeTasks) && selectedTaskIds == old(selectedTaskIds)
      ensures capacityError == old(capacityError)
    {
      state := state.(error := Some(message));
    }

    /**
     * `handleDurationSubmit`, reachable only on the "Define Portion" screen
     * (a name is waiting and neither choice screen is open). A missing or
     * non-positive duration changes nothing; otherwise the new task goes
     * to the first session it fits and the queue advances, or it becomes
     * the task that did not fit and nothing else changes.
     */
    method SubmitDuration(parsed: Option<int>, id: string, today: string)
      requires Valid()
      requires pendingNames != [] && activeOverflowTask.None? && selectionModeTasks.None?
      requires id !in Ids(Tasks())
      modifies this
      ensures Valid()
      ensures parsed.None? || parsed.value <= 0 ==>
                state == old(state) && pendingNames == old(pendingNames) && activeOverflowTask.None?
      ensures parsed.Some? && parsed.value > 0 ==>
                var task := NewTask(id, old(pendingNames)[0], parsed.value, Morning);
                match FirstFit(old(Tasks()), parsed.value)
                case Some(session) =>
                  && state == old(state).(currentPlan := Some(PlanWith(old(state.currentPlan), task.(location := session), today)))
                  && pendingNames == Rest(old(pendingNames))
                  && activeOverflowTask.None?
                  && (WithinCapacity(old(Tasks())) ==> WithinCapacity(Tasks()))
                case None =>
                  && state == old(state)
                  && pendingNames == old(pendingNames)
                  && activeOverflowTask == Some(task)
      ensures selectionModeTasks.None? && selectedTaskIds == old(selectedTaskIds)
      ensures capacityError == old(capacityError)
    {
      if parsed.Some? && parsed.value > 0 {
        var duration := parsed.value;
        var task := NewTask(id, pendingNames[0], duration, Morning);
        var tasks := Tasks();
        var fit := FirstFit(tasks, duration);
        if fit.Some? {
          var placed := task.(location := fit.value);
          PlacementKeepsCapacity(tasks, placed);
          AddTaskToPlan(placed, today);
          pendingNames := Rest(pendingNames);
        } else {
          activeOverflowTask := Some(task);
        }
      }
    }

    /** `addTaskToPlan`: the task is appended to the plan, which keeps its date or is dated today. */
    method AddTaskToPlan(task: Task, today: string)
      requires Valid() && task.id !in Ids(Tasks())
      requires activeOverflowTask.None? || activeOverflowTask.value.id == task.id
      requires selectionModeTasks.None?
      modifies this
      ensures state == old(state).(currentPlan := Some(PlanWith(old(state.currentPlan), task, today)))
      ensures Tasks() == old(Tasks()) + [task]
      ensures Ids(Tasks()) == old(Ids(Tasks())) + {task.id} && DistinctIds(Tasks())
      ensures pendingNames == old(pendingNames) && activeOverflowTask == old(activeOverflowTask)
      ensures selectionModeTasks == old(selectionModeTasks) && selectedTaskIds == old(selectedTaskIds)
      ensures capacityError == old(capacityError)
      ensures activeOverflowTask.None? ==> Valid()
    {
      AppendFresh(Tasks(), task);
      state := state.(currentPlan := Some(PlanWith(state.currentPlan, task, today)));
    }

    /**
     * `handleOverflowChoice`: storing for tomorrow appends the task to the
     * tomorrow queue, clears it and advances the queue; a force choice
     * leaves plan and queue alone and opens the selection on the forced
     * session's tasks plus the task, with nothing selected.
     */
    method ChooseOverflow(choice: OverflowChoice, today: string)
      requires Valid()
      modifies this
      ensures Valid()
      ensures activeOverflowTask.None? && capacityError == old(capacityError)
      ensures old(activeOverflowTask).None? ==>
                && state == old(state) && pendingNames == old(pendingNames)
                && selectionModeTasks == old(selectionModeTasks) && selectedTaskIds == old(selectedTaskIds)
      ensures old(activeOverflowTask).Some? && choice == StoreForTomorrow ==>
                && state == old(state).(currentPlan := Some(PlanWith(old(state.currentPlan), old(activeOverflowTask).value.(location := Tomorrow), today)))
                && pendingNames == Rest(old(pendingNames))
                && selectionModeTasks.None? && selectedTaskIds == old(selectedTaskIds)
      ensures old(activeOverflowTask).Some? && choice != StoreForTomorrow ==>
                && state == old(state) && pendingNames == old(pendingNames)
                && selectionModeTasks == Some(ForcedCandidates(old(Tasks()), old(activeOverflowTask).value, ForcedSession(choice)))
                && selectedTaskIds == {}
    {
      if activeOverflowTask.Some? {
        if choice == StoreForTomorrow {
          StoreOverflowForTomorrow(today);
        } else {
          ForceOverflow(ForcedSession(choice));
        }
      }
    }

    /** The "store for tomorrow" choice: the task joins the tomorrow queue and the name queue advances. */
    method StoreOverflowForTomorrow(today: string)
      requires Valid() && activeOverflowTask.Some?
      modifies this
      ensures Valid()
      ensures state == old(state).(currentPlan := Some(PlanWith(old(state.currentPlan), old(activeOverflowTask).value.(location := Tomorrow), today)))
      ensures SessionUsed(Morning, Tasks()) == SessionUsed(Morning, old(Tasks()))
      ensures SessionUsed(Evening, Tasks()) == SessionUsed(Evening, old(Tasks()))
      ensures pendingNames == Rest(old(pendingNames))
      ensures activeOverflowTask.None? && selectionModeTasks.None? && selectedTaskIds == old(selectedTaskIds)
      ensures capacityError == old(capacityError)
    {
      var deferred, tasks := activeOverflowTask.value.(location := Tomorrow), Tasks();
      DeferKeepsSessions(tasks, deferred);
      AddTaskToPlan(deferred, today);
      activeOverflowTask := None;
      pendingNames := Rest(pendingNames);
    }

    /** A force choice: the selection opens on the session's tasks plus the task, with nothing selected. */
    method ForceOverflow(session: TaskLocation)
      requires Valid() && activeOverflowTask.Some? && session != Tomorrow
      modifies this`activeOverflowTask, this`selectionModeTasks, this`selectedTaskIds
      ensures Valid()
      ensures selectionModeTasks == Some(ForcedCandidates(Tasks(), old(activeOverflowTask).value, session))
      ensures activeOverflowTask.None? && selectedTaskIds == {}
    {
      ForcedSelectionStarts(Tasks(), activeOverflowTask.value, session);
      selectionModeTasks := Some(ForcedCandidates(Tasks(), activeOverflowTask.value, session));
      selectedTaskIds := {};
      activeOverflowTask := None;
    }

    /**
     * A click on candidate i of the "Pack your Session" screen: the
     * selection becomes `ToggleSelected`, so it stays within the session's
     * limit, and nothing else changes.
     */
    method ToggleSelection(i: nat)
      requires Valid()
      requires selectionModeTasks.Some? && i < |selectionModeTasks.value|
      modifies this
      ensures selectionModeTasks == old(selectionModeTasks)
      ensures Valid()
      ensures selectedTaskIds == ToggleSelected(selectionModeTasks.value, old(selectedTaskIds), i)
      ensures NonNegativeDurations(selectionModeTasks.value) ==>
                SelectedMinutes(selectionModeTasks.value, selectedTaskIds) <= SessionLimit(selectionModeTasks.value[0].location)
      ensures state == old(state) && pendingNames == old(pendingNames)
      ensures activeOverflowTask == old(activeOverflowTask)
      ensures capacityError == old(capacityError)
    {
      var cands := selectionModeTasks.value;
      if NonNegativeDurations(cands) {
        ToggleKeepsSelectionWithinLimit(cands, selectedTaskIds, i);
      }
      var next := selectedTaskIds;
      if cands[i].id in next {
        next := next - {cands[i].id};
      } else if !WouldExceed(cands, next, i) {
        next := next + {cands[i].id};
      }
      selectedTaskIds := next;
    }

    /**
     * `confirmSelectionMode` with its date corrected: the plan's tasks
     * become `ConfirmedTasks`, the selection is closed and the queue
     * advances. The forced session is booked at the selected total, the
     * other session keeps its usage, and capacity is kept.
     */
    method ConfirmSelection(today: string)
      requires Valid()
      modifies this
      ensures Valid()
      ensures old(selectionModeTasks).None? ==>
                && state == old(state) && pendingNames == old(pendingNames)
                && selectionModeTasks.None? && selectedTaskIds == old(selectedTaskIds)
      ensures old(selectionModeTasks).Some? ==>
                && state == old(state).(currentPlan := Some(ConfirmedPlan(old(state.currentPlan), old(selectionModeTasks).value, old(selectedTaskIds), today)))
                && pendingNames == Rest(old(pendingNames))
                && selectionModeTasks.None? && selectedTaskIds == {}
      ensures old(selectionModeTasks).Some? ==>
                var cands, session := old(selectionModeTasks).value, old(selectionModeTasks).value[0].location;
                var other := if session == Morning then Evening else Morning;
                && SessionUsed(session, Tasks()) == SelectedMinutes(cands, old(selectedTaskIds))
                && SessionUsed(other, Tasks()) == SessionUsed(other, old(Tasks()))
                && (NonNegativeDurations(cands) && WithinCapacity(old(Tasks())) ==> WithinCapacity(Tasks()))
      ensures activeOverflowTask == old(activeOverflowTask) && capacityError == old(capacityError)
    {
      if selectionModeTasks.Some? {
        var cands, tasks, selected := selectionModeTasks.value, Tasks(), selectedTaskIds;
        ConfirmFromInvariant(tasks, cands, selected);
        ConfirmOpenSelection(today);
        assert Tasks() == ConfirmedTasks(tasks, cands, selected);
      }
    }

    /** Confirmation of an open selection: the plan keeps distinct ids. */
    method ConfirmOpenSelection(today: string)
      requires Valid() && selectionModeTasks.Some?
      modifies this
      ensures Valid()
      ensures state == old(state).(currentPlan := Some(ConfirmedPlan(old(state.currentPlan), old(selectionModeTasks).value, old(selectedTaskIds), today)))
      ensures pendingNames == Rest(old(pendingNames))
      ensures selectionModeTasks.None? && selectedTaskIds == {}
      ensures activeOverflowTask == old(activeOverflowTask) && capacityError == old(capacityError)
    {
      var cands, tasks, selected := selectionModeTasks.value, Tasks(), selectedTaskIds;
      assert activeOverflowTask.None?;
      var plan := ConfirmedPlan(state.currentPlan, cands, selected, today);
      ConfirmDistinct(tasks, cands, selected);
      state, selectionModeTasks, selectedTaskIds, pendingNames :=
        state.(currentPlan := Some(plan)), None, {}, Rest(pendingNames);
      assert Tasks() == plan.tasks;
    }

    /**
     * `switchBento`: with no plan or an unknown id nothing changes; a move
     * to tomorrow always happens; a move to a session happens exactly when
     * `SwitchAllowed`, and otherwise only the advisory naming the target is
     * set. An allowed move keeps a plan within capacity.
     */
    method SwitchBento(id: string, target: TaskLocation)
      requires Valid()
      requires pendingNames == [] && activeOverflowTask.None? && selectionModeTasks.None?
      modifies this
      ensures Valid()
      ensures FindTask(old(Tasks()), id).None? || old(state.currentPlan).None? ==>
                state == old(state) && capacityError == old(capacityError)
      ensures FindTask(old(Tasks()), id).Some? && old(state.currentPlan).Some? ==>
                var task := FindTask(old(Tasks()), id).value;
                if SwitchAllowed(old(Tasks()), task, target) then
                  && state == old(state).(currentPlan := WithTasks(old(state.currentPlan), UpdateTasks(old(Tasks()), id, LocationPatch(target))))
                  && capacityError == old(capacityError)
                  && (NonNegativeDurations(old(Tasks())) && WithinCapacity(old(Tasks())) ==> WithinCapacity(Tasks()))
                else
                  && target != Tomorrow
                  && state == old(state)
                  && capacityError == Some(BoxFull(target))
      ensures pendingNames == old(pendingNames) && activeOverflowTask == old(activeOverflowTask)
      ensures selectionModeTasks == old(selectionModeTasks) && selectedTaskIds == old(selectedTaskIds)
    {
      var found := FindTask(Tasks(), id);
      if state.currentPlan.Some? && found.Some? {
        var task, tasks := found.value, Tasks();
        if target == Tomorrow || SessionUsed(target, WithoutId(tasks, id)) + task.durationMinutes <= SessionLimit(target) {
          MoveKeepsCapacity(tasks, task, target);
          UpdateTask(id, LocationPatch(target));
          assert Tasks() == UpdateTasks(tasks, id, LocationPatch(target));
        } else {
          capacityError := Some(BoxFull(target));
        }
      }
    }

    /**
     * `packFromTomorrow`: with no plan or an unknown id nothing changes;
     * otherwise the task goes to the session `FirstFit` picks for it
     * against the whole plan, or only the advisory is set. Packing a
     * tomorrow task keeps a plan within capacity.
     */
    method PackFromTomorrow(id: string)
      requires Valid()
      requires pendingNames == [] && activeOverflowTask.None? && selectionModeTasks.None?
      modifies this
      ensures Valid()
      ensures FindTask(old(Tasks()), id).None? || old(state.currentPlan).None? ==>
                state == old(state) && capacityError == old(capacityError)
      ensures FindTask(old(Tasks()), id).Some? && old(state.currentPlan).Some? ==>
                var task := FindTask(old(Tasks()), id).value;
                match FirstFit(old(Tasks()), task.durationMinutes)
                case Some(session) =>
                  && state == old(state).(currentPlan := WithTasks(old(state.currentPlan), UpdateTasks(old(Tasks()), id, LocationPatch(session))))
                  && capacityError == old(capacityError)
                  && (task.location == Tomorrow && WithinCapacity(old(Tasks())) ==> WithinCapacity(Tasks()))
                case None =>
                  && state == old(state)
                  && capacityError == Some(NoRoomToday)
      ensures pendingNames == old(pendingNames) && activeOverflowTask == old(activeOverflowTask)
      ensures selectionModeTasks == old(selectionModeTasks) && selectedTaskIds == old(selectedTaskIds)
    {
      var found := FindTask(Tasks(), id);
      if state.currentPlan.Some? && found.Some? {
        var task, tasks := found.value, Tasks();
        var fit := FirstFit(tasks, task.durationMinutes);
        if fit.Some? {
          PackKeepsCapacity(tasks, task, fit.value);
          UpdateTask(id, LocationPatch(fit.value));
          assert Tasks() == UpdateTasks(tasks, id, LocationPatch(fit.value));
        } else {
          capacityError := Some(NoRoomToday);
        }
      }
    }

    /**
     * `updateTask`: every task with the id is patched, all others and the
     * order stay; with no plan nothing changes.
     */
    method UpdateTask(id: string, patch: Patch)
      requires Valid()
      requires selectionModeTasks.None?
      modifies this
      ensures Valid()
      ensures state == old(state).(currentPlan := WithTasks(old(state.currentPlan), UpdateTasks(old(Tasks()), id, patch)))
      ensures Ids(Tasks()) == old(Ids(Tasks()))
      ensures pendingNames == old(pendingNames) && activeOverflowTask == old(activeOverflowTask)
      ensures selectionModeTasks == old(selectionModeTasks) && selectedTaskIds == old(selectedTaskIds)
      ensures capacityError == old(capacityError)
    {
      UpdateKeepsIds(Tasks(), id, patch);
      state := state.(currentPlan := WithTasks(state.currentPlan, UpdateTasks(Tasks(), id, patch)));
    }

    /**
     * `toggleTask`: an unknown id changes nothing; otherwise the task's
     * completion is flipped and the lifetime counter moves by one in the
     * same direction.
     */
    method ToggleTask(id: string)
      requires Valid()
      requires pendingNames == [] && activeOverflowTask.None? && selectionModeTasks.None?
      modifies this
      ensures Valid()
      ensures FindTask(old(Tasks()), id).None? ==> state == old(state)
      ensures FindTask(old(Tasks()), id).Some? ==>
                var task := FindTask(old(Tasks()), id).value;
                && state.currentPlan == WithTasks(old(state.currentPlan), UpdateTasks(old(Tasks()), id, TogglePatch(task)))
                && state.lifetimeCompletions == old(state.lifetimeCompletions) + CompletionDelta(task)
                && state.loading == old(state.loading) && state.error == old(state.error)
      ensures pendingNames == old(pendingNames) && activeOverflowTask == old(activeOverflowTask)
      ensures selectionModeTasks == old(selectionModeTasks) && selectedTaskIds == old(selectedTaskIds)
      ensures capacityError == old(capacityError)
    {
      var found := FindTask(Tasks(), id);
      if found.Some? {
        var task := found.value;
        UpdateKeepsIds(Tasks(), id, TogglePatch(task));
        state := state.(currentPlan := WithTasks(state.currentPlan, UpdateTasks(Tasks(), id, TogglePatch(task))),
                        lifetimeCompletions := state.lifetimeCompletions + CompletionDelta(task));
      }
    }

    /** `deleteTask`: every task with the id leaves the plan, the rest keep their order. */
    method DeleteTask(id: string)
      requires Valid()
      requires pendingNames == [] && activeOverflowTask.None? && selectionModeTasks.None?
      modifies this
      ensures Valid()
      ensures state == old(state).(currentPlan := WithTasks(old(state.currentPlan), WithoutId(old(Tasks()), id)))
      ensures id !in Ids(Tasks()) && Ids(Tasks()) == old(Ids(Tasks())) - {id}
      ensures pendingNames == old(pendingNames) && activeOverflowTask == old(activeOverflowTask)
      ensures selectionModeTasks == old(selectionModeTasks) && selectedTaskIds == old(selectedTaskIds)
      ensures capacityError == old(capacityError)
    {
      var tasks := Tasks();
      WithoutIdKeepsIds(tasks, id);
      state := state.(currentPlan := WithTasks(state.currentPlan, WithoutId(tasks, id)));
      assert state.currentPlan.None? ==> tasks == [];
    }

    /** The advisory's timer clears it. */
    method ClearAdvisory()
      requires Valid()
      modifies this
      ensures Valid()
      ensures capacityError.None?
      ensures state == old(state) && pendingNames == old(pendingNames)
      ensures activeOverflowTask == old(activeOverflowTask)
      ensures selectionModeTasks == old(selectionModeTasks) && selectedTaskIds == old(selectedTaskIds)
    {
      capacityError := None;
    }
  }
}
