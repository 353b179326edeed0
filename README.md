# Bentōki planner core in Dafny

Bentōki is a day planner that packs tasks into two "bento boxes": a
morning box of 240 minutes and an evening box of 180 minutes. Tasks that
do not fit wait in a tomorrow queue. The user types free text, which is
split into task names. Each name then waits in a queue until the user
gives it a duration.

The planner places the task in the morning box if it fits there, else in
the evening box. If it fits in neither, the task *overflows*, and the user
chooses between three options:
- store it for tomorrow;
- force the morning box, then pick which of that box's tasks (plus the new
  one) to keep, under the limit, sending the rest to tomorrow;
- force the evening box, the same way.

On the board, the user can:
- move a task between the boxes and the tomorrow queue;
- pack a tomorrow task into today;
- edit a task's name and duration;
- tick a task off, which also moves a lifetime completion counter;
- delete a task.

When the app opens on a new day, only yesterday's tomorrow queue survives.
It becomes today's morning, with every task marked not completed. The
board shows a toast once when a box becomes fully completed.

The model has these modules:
- `Types`: the records and the two closed enumerations.
- `TaskList`: filters, lookup, patching and deletion on the task list.
- `Capacity`: session usage and the limits.
- `Placement`: priority, first-fit placement, and move and pack rules.
- `Rollover`: day migration on load.
- `Overflow`: the candidate set, the capacity-gated selection and
  confirmation.
- `App`: the planner state machine, as the class `Planner`.
- `BentoLayout`: box partitions, completion, move buttons, and the
  completion toast as the class `CompletionToast`.
- `TaskCard`: the edit record and the card's edit state, as the class
  `Card`.

The planner's handlers are methods on `Planner`. They share one invariant,
`Valid()`:
- plan ids are distinct;
- the overflow task is not in the plan;
- an open selection is well formed and within its session's limit when no
  candidate has a negative duration.

Each method's `ensures` gives the new state through the specification
functions (`FirstFit`, `ForcedCandidates`, `ToggleSelected`,
`ConfirmedTasks`, `UpdateTasks`, `WithoutId`, ...). The lemmas beside
those functions prove what the planner promises about them. Distinct ids
are defined by counting: a list has distinct ids when its set of ids is
as large as the list; `TaskList.DistinctIdsPairwise` shows this is the
same as no two positions sharing an id.

Several pieces of the outside world become parameters:
- the current date (`today`);
- the random task ids (a fresh `id`);
- the result of `parseInt` (an `Option<int>`);
- the task names from the extraction service;
- the stored blob read at startup.

## Model

| member | source | states |
|---|---|---|
| Types.ParsePriority | types.ts:2 | a string denotes a priority iff it is `big`, `medium` or `small`, and the priority read has that string as its name |
| Types.ParseLocation | types.ts:3 | a string denotes a location iff it is `morning`, `evening` or `tomorrow`, and the location read has that string as its name |
| Types.PriorityNameRoundTrip | types.ts:2 | parsing a priority's name gives that priority back, and distinct priorities have distinct names |
| Types.LocationNameRoundTrip | types.ts:3 | parsing a location's name gives that location back, and distinct locations have distinct names |
| TaskList.DistinctIdsPairwise | types.ts:6 | ids are distinct, counted as one id per task, iff no two positions of the list carry the same id |
| TaskList.DistinctAppend | App.tsx:199 | joining two lists with distinct ids and no id in common gives distinct ids |
| TaskList.TasksAt | App.tsx:113 | the filter keeps exactly the tasks at that location, so the result is a subsequence of the list |
| TaskList.TasksAtAppend | components/BentoLayout.tsx:27-29 | the location filter distributes over concatenation, so each list keeps the plan's order |
| TaskList.TasksAtKeepsIds | App.tsx:181 | the tasks of one session have distinct ids when the plan does, and their ids are among the plan's |
| TaskList.FindTask | App.tsx:210 | the lookup finds nothing iff no task has the id; a found task is in the list with that id |
| TaskList.FindTaskFirst | App.tsx:210 | a found task is the first in the list with that id |
| TaskList.FindDistinct | App.tsx:251 | with distinct ids, looking up the id of the task at position i finds that very task |
| TaskList.ApplyPatch | App.tsx:245 | merging an update keeps the id, overwrites every field the update gives and keeps every field it omits |
| TaskList.UpdateTasks | App.tsx:245 | the result has the same length, tasks with the id are patched, and every other task is unchanged in its place |
| TaskList.UpdateAbsentId | App.tsx:245 | an update naming an id not in the plan changes nothing |
| TaskList.UpdateKeepsIds | App.tsx:245 | an update keeps the set of ids and their distinctness, even when it overwrites no id |
| TaskList.UpdateChangesOne | App.tsx:245 | with distinct ids, an update rewrites exactly the position holding that id |
| TaskList.WithoutId | App.tsx:269 | the delete filter keeps exactly the tasks whose id differs |
| TaskList.WithoutIdAppend | App.tsx:269 | deletion distributes over concatenation, so the other tasks keep their order |
| TaskList.WithoutAbsentId | App.tsx:269 | deleting an id not in the plan changes nothing |
| TaskList.WithoutIdIds | App.tsx:269 | a delete takes exactly its id out of the set of ids |
| TaskList.WithoutIdKeepsIds | App.tsx:269 | a delete takes exactly its id out of the set of ids, and ids stay distinct |
| TaskList.DeleteRemovesOne | App.tsx:264-272 | with distinct ids, deleting the id at position i removes exactly that position |
| TaskList.AppendFresh | App.tsx:166 | appending a task with a fresh id keeps ids distinct and adds exactly that id |
| Capacity.SumDurationsAppend | App.tsx:113 | the sum of durations over a concatenation is the sum of the two sums |
| Capacity.SessionUsedAppend | App.tsx:112-114 | session usage is additive over concatenation |
| Capacity.SessionUsedCons | App.tsx:112-114 | a task adds its duration to its own session's usage and nothing to the others |
| Capacity.SessionUsedSnoc | App.tsx:112-114 | appending a task adds its duration to its own session only |
| Capacity.SessionUsedPointwise | App.tsx:112-114 | two lists that agree on location and duration at every position have the same usage in every session |
| Capacity.SessionUsedEmpty | App.tsx:112-114 | a session with no task in it has usage 0 |
| Capacity.SessionUsedNonNegative | App.tsx:112-114 | without negative durations, usage is never negative |
| Placement.PriorityFor | App.tsx:140 | `big` iff the duration is at least 90, `medium` iff at least 45 and under 90, `small` iff under 45 |
| Placement.FirstFit | App.tsx:145-157 | morning iff morning usage plus the duration is at most 240; else evening iff evening usage plus the duration is at most 180; else none; never tomorrow |
| Placement.PlacementKeepsCapacity | App.tsx:149-154 | appending a task where first-fit puts it keeps a plan within both limits and changes no other session's usage |
| Placement.SwitchAllowed | App.tsx:212-215 | a move to tomorrow is always allowed; a move to a box is allowed iff the box's usage without the task plus its duration is within the box's limit |
| Placement.PlanDate | App.tsx:165 | a plan keeps a non-empty date; with no plan, or an empty date, the date is today |
| Placement.DeferKeepsSessions | App.tsx:174 | a task stored for tomorrow leaves the morning and evening usage unchanged |
| Placement.MovedUsage | App.tsx:214 | moving the task at position i to a session makes that session's usage its usage without the task plus the task's duration |
| Placement.MovedUsageElsewhere | App.tsx:216 | after moving a task to a session, any other session's usage is its usage without that task |
| Placement.WithoutIdUsage | App.tsx:214 | without negative durations, leaving a task out never raises a session's usage |
| Placement.WithoutIdElsewhere | App.tsx:214 | leaving out a task that is not in a session does not change that session's usage |
| Placement.MoveKeepsCapacity | App.tsx:207-221 | when no task has a negative duration, an allowed switch keeps a plan within both limits |
| Placement.MoveKeepsSession | App.tsx:216 | when no task has a negative duration, an allowed switch keeps every day session that was within its limit within it |
| Placement.PackKeepsCapacity | App.tsx:223-238 | packing a tomorrow task into the session first-fit picks keeps a plan within both limits |
| Placement.PackKeepsSession | App.tsx:230-233 | packing a tomorrow task into a session that passed the fit test keeps every day session that was within its limit within it |
| Rollover.Replanted | App.tsx:108 | every task is moved to the morning and marked not completed, with all other fields unchanged and the order kept |
| Rollover.MigrateToNewDay | App.tsx:105-110 | the new plan is dated `date` and holds exactly the former tomorrow tasks, in order, each now in the morning and not completed, with other fields unchanged |
| Rollover.LoadPlan | App.tsx:84-86 | a plan of another day is migrated, a plan of today is kept, no plan stays none, and any result is dated today |
| Rollover.LoadPlanIdempotent | App.tsx:84-86 | loading an already loaded plan on the same day changes nothing |
| Rollover.ReplantedUsage | App.tsx:108 | after replanting, all minutes are in the morning, and the evening and tomorrow usage is 0 |
| Rollover.MigrationUsage | App.tsx:105-110 | the new morning usage equals the old tomorrow usage, and the new evening and tomorrow usage is 0 |
| Rollover.MigrationKeepsIds | App.tsx:105-110 | the migrated plan's ids are among the stored plan's and stay distinct |
| Rollover.MigrationIgnoresCapacity | App.tsx:108 | rollover checks no limit: two 200-minute tomorrow tasks give a 400-minute morning |
| Overflow.ForcedSession | App.tsx:179 | a force choice names a day session, and it is the morning iff the choice is force-morning |
| Overflow.ForcedCandidatesFacts | App.tsx:180-182 | the candidates' ids are the session's ids plus the overflow task's, and they are distinct when the plan's are and the overflow id is fresh |
| Overflow.ForcedCandidates | App.tsx:180-182 | the candidates are the session's plan tasks in order, then the overflow task relocated to the session; all are in the session, and with a fresh overflow id their ids are distinct |
| Overflow.SelectedMinutesRemove | App.tsx:316-319 | dropping a selected id lowers the selected total by that candidate's minutes |
| Overflow.SelectedMinutesIsCandidateMinutes | App.tsx:316-319 | the running total the screen sums over the candidates equals the total over the selected id set |
| Overflow.ToggleSelected | App.tsx:320-326 | a click deselects a selected candidate; it adds an unselected one iff the selected total plus its minutes is within the session's limit, and otherwise leaves the selection alone |
| Overflow.ToggleKeepsSelectionWithinLimit | App.tsx:314-327 | when no candidate has a negative duration, from a selection within the limit, a click keeps the selection among the candidates, moves the total by exactly the candidate's minutes, and keeps the total within the limit |
| Overflow.OversizedNeverSelected | App.tsx:320-326 | when no candidate has a negative duration, a candidate longer than the session's limit can never be selected |
| Overflow.OversizedSelectedAfterNegative | App.tsx:320-326 | without that premise the gate lets an oversized candidate in: after a selected -100-minute task, a click adds a 300-minute task to the 240-minute morning |
| Overflow.CandidateMinutesNonNegative | App.tsx:316-319 | without negative durations, the selected total is never negative |
| Overflow.OutsideCandidates | App.tsx:191-193 | exactly the plan tasks whose id is not a candidate's are kept |
| Overflow.OutsideCandidatesAppend | App.tsx:191-193 | the kept tasks keep their relative order |
| Overflow.Relocated | App.tsx:194-197 | each candidate, in order, goes to the session if selected and to tomorrow if not, with nothing else changed |
| Overflow.RelocatedKeepsIds | App.tsx:194-197 | relocation keeps the candidates' ids and their distinctness |
| Overflow.RelocatedUsage | App.tsx:194-197 | the relocated candidates book the selected candidates' minutes into the session and nothing into the other day session |
| Overflow.OutsideUsage | App.tsx:191-193 | dropping the candidates leaves a session's usage unchanged when none of its tasks is a candidate |
| Overflow.OutsideDistinct | App.tsx:191-193 | the tasks kept outside the candidates have distinct ids when the plan does |
| Overflow.ConfirmedTasksShape | App.tsx:190-200 | the confirmed list is the untouched outside tasks in order, followed by every candidate relocated by its selection |
| Overflow.ConfirmUsage | App.tsx:188-205 | when every task of the forced session is a candidate, the session's usage after confirmation equals the selected total |
| Overflow.ConfirmLeavesOther | App.tsx:188-205 | a day session with no candidate in it keeps its usage through confirmation |
| Overflow.ConfirmKeepsIds | App.tsx:188-205 | the confirmed plan's ids are the old non-candidate ids plus the candidates' |
| Overflow.ConfirmDistinct | App.tsx:188-205 | confirmation keeps the plan's ids distinct when the plan's and the candidates' ids are distinct |
| Overflow.ForceAndConfirmUsage | App.tsx:172-205 | forcing a session and confirming any selection books exactly the selected total there, leaves the other session unchanged, and keeps a plan within capacity when the selection was within the limit |
| Overflow.ConfirmedPlanAsWritten | App.tsx:200 | as written, confirming with no current plan yields a plan with no date |
| Overflow.DatelessPlanAsWritten | App.tsx:200 | a 300-minute first task forced into the morning cannot be selected; the dateless plan is migrated on the next load the same day, giving a 300-minute morning |
| Overflow.ConfirmedPlan | App.tsx:198-201 | corrected confirmation keeps the plan's non-empty date or dates a new plan today |
| Overflow.DatedPlanUnaffected | App.tsx:198-201 | when a plan with a date exists, the confirmation as written and the corrected one give the same plan, so the dateless plan arises only when no plan exists |
| Overflow.ConfirmedPlanSurvivesLoad | App.tsx:198-201 | a corrected confirmed plan is kept as it is by the next load the same day, so its tomorrow queue stays in the tomorrow queue |
| App.Rest | App.tsx:151 | the queue without its head; an empty queue stays empty |
| App.CompletionDelta | App.tsx:260 | the counter moves by +1 iff the task was not completed, and by -1 iff it was |
| App.ToggleRecordTwice | App.tsx:253-260 | a toggle flips completion, the two counter changes of a double toggle cancel, and toggling twice restores the task with its flag made explicit |
| App.ToggleOne | App.tsx:258 | with distinct ids, a toggle rewrites only the toggled position and keeps ids distinct |
| App.ToggleTwice | App.tsx:250-262 | a toggle flips the one task and no other; toggling it again cancels the counter change and restores the list, an absent flag becoming `false` |
| App.ForcedSelectionStarts | App.tsx:180-184 | opening the selection on a forced session establishes the selection invariant, with nothing selected |
| App.ConfirmFromInvariant | App.tsx:188-205 | confirming a selection that keeps the invariant keeps ids distinct, books the selected total and leaves the other session alone; when no candidate has a negative duration it also keeps capacity |
| App.Planner.Load | App.tsx:77-94 | the startup state holds the rolled-over stored plan and the stored counter, or 0, with an empty queue and no open screen |
| App.Planner.ReceiveExtraction | App.tsx:121-125 | non-empty extracted names become the queue; an empty extraction changes nothing |
| App.Planner.ExtractionFailed | App.tsx:126-128 | a failed extraction records its message as the state's error and changes nothing else |
| App.Planner.SubmitDuration | App.tsx:132-159 | a missing or non-positive duration changes nothing; otherwise the new task, prioritised by its duration, is appended where `FirstFit` puts it and the queue advances (capacity kept), or it becomes the overflow task with plan and queue unchanged |
| App.Planner.AddTaskToPlan | App.tsx:161-170 | the plan becomes the old task list plus the task, dated by `PlanDate`, and ids stay distinct when the task's id is fresh |
| App.Planner.ChooseOverflow | App.tsx:172-186 | with no overflow task nothing changes; tomorrow appends the task to the tomorrow queue, clears it and advances the queue; a force choice opens the selection on `ForcedCandidates` with nothing selected and leaves plan and queue alone |
| App.Planner.StoreOverflowForTomorrow | App.tsx:174-177 | the task, now in the tomorrow queue, is appended to the plan, both day sessions keep their usage, the overflow task is cleared and the queue advances |
| App.Planner.ForceOverflow | App.tsx:178-185 | the selection opens on the session's tasks plus the overflow task, with nothing selected, and the overflow task is cleared |
| App.Planner.ToggleSelection | App.tsx:314-327 | the selection becomes `ToggleSelected` and nothing else changes; when no candidate has a negative duration its total stays within the session's limit |
| App.Planner.ConfirmOpenSelection | App.tsx:190-204 | with a selection open, the plan becomes the corrected `ConfirmedPlan` with distinct ids, the selection closes and the queue advances |
| App.Planner.ConfirmSelection | App.tsx:188-205 | the plan becomes the corrected `ConfirmedPlan`, the session is booked at the selected total, the other session is unchanged, the selection closes and the queue advances; when no candidate has a negative duration capacity is kept |
| App.Planner.SwitchBento | App.tsx:207-221 | with no plan or an unknown id nothing changes; an allowed move updates only that task's location and, when no task has a negative duration, keeps capacity; a refused move sets only the advisory naming the target |
| App.Planner.PackFromTomorrow | App.tsx:223-238 | with no plan or an unknown id nothing changes; otherwise the task moves to the session `FirstFit` picks, keeping capacity for a tomorrow task, or only the no-room advisory is set |
| App.Planner.UpdateTask | App.tsx:240-248 | only tasks with the id are patched, in place, and the ids are kept |
| App.Planner.ToggleTask | App.tsx:250-262 | an unknown id changes nothing; otherwise only that task's completion flips and the counter moves by +1 or -1 to match |
| App.Planner.DeleteTask | App.tsx:264-272 | tasks with the id leave the plan, the others keep their order, and exactly that id is gone |
| App.Planner.ClearAdvisory | App.tsx:219 | the advisory is cleared and nothing else changes |
| BentoLayout.WithPriority | components/BentoLayout.tsx:76-78 | a compartment holds exactly the box's tasks of that priority |
| BentoLayout.LocationPartition | components/BentoLayout.tsx:27-29 | the morning, evening and tomorrow lists add up, as multisets, to the plan's tasks, so every task is in exactly one of them |
| BentoLayout.PriorityPartition | components/BentoLayout.tsx:76-78 | the big, medium and small compartments add up, as multisets, to the box |
| BentoLayout.WithPriorityAppend | components/BentoLayout.tsx:76-78 | a compartment keeps the box's order |
| BentoLayout.AllCompleted | components/BentoLayout.tsx:31 | true iff every task in the box is completed, an absent flag counting as not completed |
| BentoLayout.BoxComplete | components/BentoLayout.tsx:31-32 | a box is complete iff it has a task and every task in it is completed; an empty box is never complete |
| BentoLayout.AddingReopensBox | components/BentoLayout.tsx:31-32 | after adding a task, its box is complete only if the task itself is completed |
| BentoLayout.RolloverBoxesIncomplete | components/BentoLayout.tsx:31-32 | right after rollover neither day box is complete |
| BentoLayout.OtherBento | components/BentoLayout.tsx:79 | the other box of the morning is the evening, and of the evening the morning |
| BentoLayout.MoveTargets | components/BentoLayout.tsx:213-228 | a completed task offers no move; an uncompleted one offers the other box and then tomorrow |
| BentoLayout.MoveTargetsLeaveBox | components/BentoLayout.tsx:79 | every offered target differs from the card's own box, and the swap is its own inverse |
| BentoLayout.ToastMessage | components/BentoLayout.tsx:45-56 | the morning toast shows iff morning just completed and is not yet notified; otherwise the evening toast shows under the same conditions, as "full day" iff morning is complete too |
| BentoLayout.NextRefs | components/BentoLayout.tsx:45-72 | a run with a toast sets the notified flag of its own box, leaves the other notified flag and the prev flags alone; a run without one records the current completion and keeps each notified flag only while its box is complete; a notified flag is set only by its own toast and cleared only when its box is incomplete |
| BentoLayout.RunToastsStep | components/BentoLayout.tsx:42-73 | over a sequence of effect runs, run k shows exactly the message of the refs left by the runs before it |
| BentoLayout.MorningToastOnce | components/BentoLayout.tsx:45-47 | once notified, the morning toast never shows again while the morning box stays complete |
| BentoLayout.EveningToastOnce | components/BentoLayout.tsx:49-55 | once notified, neither evening toast shows again while the evening box stays complete |
| BentoLayout.MorningToastNotRepeated | components/BentoLayout.tsx:45-47 | the run after the morning toast cannot show it again |
| BentoLayout.MountSilent | components/BentoLayout.tsx:37-40 | mounting on boxes that are already complete shows no toast |
| BentoLayout.CompletionToast.Mount | components/BentoLayout.tsx:37-40 | the refs start from the current completion, with nothing notified |
| BentoLayout.CompletionToast.Effect | components/BentoLayout.tsx:42-73 | one run of the effect shows `ToastMessage` and leaves the refs at `NextRefs` |
| BentoLayout.CompletionToast.Render | components/BentoLayout.tsx:73 | the effect runs only when the completion pair changed; otherwise nothing shows and the refs stay |
| TaskCard.SaveUpdate | components/TaskCard.tsx:23-29 | the update record holds only the name as typed and the parsed duration, or the old duration when it does not parse |
| TaskCard.SaveChangesNameAndDuration | components/TaskCard.tsx:26-29 | applied to the task, a save changes its name and duration and nothing else, priority included |
| TaskCard.EditLeavesPriorityStale | components/TaskCard.tsx:26-29 | a 30-minute task edited to 120 minutes stays `small`, while a new 120-minute task is `big` |
| TaskCard.EditAcceptsNonPositive | components/TaskCard.tsx:25-28 | a save accepts a negative duration |
| TaskCard.EditCanOverfill | components/TaskCard.tsx:26-29 | an edit can take a morning within its limit to 300 minutes, past the 240-minute limit |
| TaskCard.Card.constructor | components/TaskCard.tsx:18-20 | the edit view starts closed, with the fields holding the task's name and duration |
| TaskCard.Card.Click | components/TaskCard.tsx:60 | a click outside the edit view asks for exactly one toggle; in the edit view it asks for none |
| TaskCard.Card.BeginEdit | components/TaskCard.tsx:81 | the edit view opens only on an uncompleted task, and the fields are not reset |
| TaskCard.Card.EditName | components/TaskCard.tsx:38 | the name field takes the typed text and nothing else changes |
| TaskCard.Card.EditDuration | components/TaskCard.tsx:41 | the duration field takes the parsed input and nothing else changes |
| TaskCard.Card.Cancel | components/TaskCard.tsx:49 | cancel closes the edit view, sends nothing and keeps the fields |
| TaskCard.Card.Save | components/TaskCard.tsx:23-32 | save sends the `SaveUpdate` record of the fields and closes the edit view |
| TaskCard.Card.Delete | components/TaskCard.tsx:47 | the edit view's delete asks the board to delete the task |

## Left out

- Persistence is not modelled. That covers reading and writing `localStorage`, `JSON.parse` errors and the save effect (App.tsx:78-103). `App.Planner.Load` takes the decoded blob as a parameter.
- The clock is not modelled. Today's date is the parameter `today`.
- Random ids are a parameter with a freshness precondition. The random loading message is left out.
- The extraction service is a network call and is not modelled, and neither is `services/geminiService.ts`. Its result is the parameter of `ReceiveExtraction`, and its failure is the message passed to `ExtractionFailed`. The empty-input early return, `isExtracting`, `loadingMessage` and the input box are left out.
- Timers are left out. That covers the advisory's auto-clear, modelled as the separate `ClearAdvisory` step, and the toast's show/hide timers and their cleanup.
- Rendering is left out: JSX, styles, `BentoIcon`, `components/BentoIllustration.tsx`, `isRepacking` and the `customDuration` text box and its reset.
- `parseInt` string semantics are left out. A parse is an `Option<int>`, where `None` stands for `NaN`. The card's duration field is held as its parse result, not as text.
- Advisory texts are not modelled exactly. An advisory names the full box (`BoxFull(target)`) or says there is no room today (`NoRoomToday`).
- The optional-callback checks `if (onEdit)` and `onToggle?.()` in the card are left out. The board always passes them.
- `state.loading` is carried but nothing in the core changes it.
- App.Planner.Load: requires distinct ids in the stored plan. The planner only ever writes plans with fresh ids. A store edited by hand is outside the model.
- App.Planner.SubmitDuration: requires the "Define Portion" screen to be showing (App.tsx:345): a name is waiting and neither choice screen is open. It also requires a fresh id.
- App.Planner.SwitchBento: requires the board to be showing (App.tsx:358): no name waiting and no choice screen open. The same holds for `App.Planner.PackFromTomorrow`, `App.Planner.ToggleTask` and `App.Planner.DeleteTask`.
- App.Planner.UpdateTask: requires that no selection is open. It is only reachable from the board.
- App.Planner.PackFromTomorrow: the capacity promise is stated only for a task in the tomorrow queue. The code itself does not check the location; only tomorrow cards show the pack button.
- App.Planner.SwitchBento: the capacity promise needs the premise that no task has a negative duration, because an edit can store one. The same premise appears in `App.Planner.ConfirmSelection`, `App.Planner.ToggleSelection`, `App.ConfirmFromInvariant`, `Placement.MoveKeepsCapacity`, `Placement.MoveKeepsSession`, `Overflow.ToggleKeepsSelectionWithinLimit` and `Overflow.OversizedNeverSelected`.
- Placement.MoveKeepsCapacity: requires that no task has a negative duration.
- Overflow.ToggleKeepsSelectionWithinLimit: requires that no candidate has a negative duration.
- App.Planner.ToggleSelection: its within-limit conclusion holds only when no candidate has a negative duration.
- App.Planner.ConfirmSelection: its capacity conclusion holds only when no candidate has a negative duration.
- Overflow.OversizedNeverSelected: holds only when no candidate has a negative duration. With one, the selection gate admits a candidate longer than the limit (`Overflow.OversizedSelectedAfterNegative`).
- App.ConfirmFromInvariant: its capacity conclusion needs the premise that no candidate has a negative duration.
- Placement.MoveKeepsSession: requires that no task has a negative duration.
- App.Planner.ConfirmSelection: models the corrected confirmation (see Findings). The as-written version is `Overflow.ConfirmedPlanAsWritten`.
- Capacity is kept only on the placement, move, pack and confirm paths. Rollover (`Rollover.MigrationIgnoresCapacity`) and edits (`TaskCard.EditCanOverfill`) can exceed a limit. The model proves they can, and claims no invariant the code does not keep.
- An edited duration is meant to recompute the priority, and durations are meant to be positive. The code does neither, and the model follows the code, as `TaskCard.EditLeavesPriorityStale` and `TaskCard.EditAcceptsNonPositive` show.

## Findings

| source | as written | input that shows it | evidently intended | confidence | as-written member | corrected member |
|---|---|---|---|---|---|---|
| App.tsx:200 | confirming the selection spreads `prev.currentPlan!`. When there is no plan yet, the new plan gets no date. | the very first task, placed when no plan has been stored yet (first use, or storage empty or unreadable), is 300 minutes; the user forces it into the morning, cannot select it, and confirms. The plan holds it in the tomorrow queue with no date. The next load, if no task is placed before it, migrates it even on the same day, giving a 300-minute morning against a 240-minute limit. Once any plan exists it keeps a date, and a later placement repairs a missing one (App.tsx:165). | date the new plan today, as `addTaskToPlan` does (App.tsx:165) | not executed; high | Overflow.DatelessPlanAsWritten | Overflow.ConfirmedPlan |
