/**
 * The task card of components/TaskCard.tsx: a click on the card toggles
 * the task; the duration button opens an edit view on uncompleted tasks,
 * whose Save sends an update record holding the edited name and duration.
 * The update is applied by the planner's `UpdateTask` without any
 * capacity check and without recomputing the priority.
 */
module TaskCard {
  import opened Types
  import opened TaskList
  import opened Capacity
  import opened Placement

  /**
   * The record `handleSave` sends: the edited name as typed and the parsed
   * duration, or the task's old duration when the field does not parse.
   * Nothing else.
   */
  function SaveUpdate(task: Task, tempName: string, parsedDuration: Option<int>): (p: Patch)
    ensures p.taskName == Some(tempName)
    ensures parsedDuration.Some? ==> p.durationMinutes == parsedDuration
    ensures parsedDuration.None? ==> p.durationMinutes == Some(task.durationMinutes)
    ensures p.priority.None? && p.completed.None? && p.location.None?
  {
    Patch(Some(tempName), Some(if parsedDuration.Some? then parsedDuration.value else task.durationMinutes),
          None, None, None)
  }

  /**
   * Applied to the task, a save changes its name and duration only: id,
   * priority, completion and location are what they were, so the priority
   * no longer follows the duration rule once the duration is edited.
   */
  lemma SaveChangesNameAndDuration(task: Task, tempName: string, parsedDuration: Option<int>)
    ensures var r := ApplyPatch(task, SaveUpdate(task, tempName, parsedDuration));
            && r.taskName == tempName
            && r.durationMinutes == (if parsedDuration.Some? then parsedDuration.value else task.durationMinutes)
            && r == task.(taskName := tempName, durationMinutes := r.durationMinutes)
  {
  }

  /** A 30-minute task edited to 120 minutes keeps its `small` priority, where a new task of 120 minutes is `big`. */
  lemma EditLeavesPriorityStale()
    ensures var task := NewTask("a", "read", 30, Morning);
            var edited := ApplyPatch(task, SaveUpdate(task, "read", Some(120)));
            && edited.durationMinutes == 120
            && edited.priority == Small
            && PriorityFor(120) == Big
  {
  }

  /** The edit accepts any number: a negative duration goes through. */
  lemma EditAcceptsNonPositive(task: Task)
    ensures ApplyPatch(task, SaveUpdate(task, task.taskName, Some(-5))).durationMinutes == -5
  {
  }

  /**
   * An edit can push a box over its limit: a morning of one 30-minute task
   * is within capacity, and editing that task to 300 minutes books 300
   * minutes into the 240-minute morning.
   */
  lemma EditCanOverfill()
    ensures var task := NewTask("a", "read", 30, Morning);
            var after := UpdateTasks([task], "a", SaveUpdate(task, "read", Some(300)));
            && WithinCapacity([task])
            && SessionUsed(Morning, after) == 300 > MorningLimit
  {
    var task := NewTask("a", "read", 30, Morning);
    var after := UpdateTasks([task], "a", SaveUpdate(task, "read", Some(300)));
    assert [task] == [task] + [];
    SessionUsedCons(Morning, task, []);
    SessionUsedCons(Evening, task, []);
    assert after == [after[0]] + [];
    SessionUsedCons(Morning, after[0], []);
  }

  /** What a card asks of the board. */
  datatype CardEvent = ToggleRequested | EditRequested(update: Patch) | DeleteRequested

  /**
   * The card's own state: whether the edit view is open, and the two edit
   * fields. The duration field is held as what `parseInt` makes of it.
   */
  class Card {
    var isEditing: bool
    var tempName: string
    var tempDuration: Option<int>

    /** The fields start from the task; they are not reset when the edit view is opened again later. */
    constructor(task: Task)
      ensures !isEditing && tempName == task.taskName && tempDuration == Some(task.durationMinutes)
    {
      isEditing := false;
      tempName := task.taskName;
      tempDuration := Some(task.durationMinutes);
    }

    /** A click on the card outside the edit view toggles the task exactly once; the edit view does not. */
    method Click() returns (events: seq<CardEvent>)
      ensures !isEditing ==> events == [ToggleRequested]
      ensures isEditing ==> events == []
    {
      if isEditing {
        events := [];
      } else {
        events := [ToggleRequested];
      }
    }

    /** The duration button opens the edit view only on an uncompleted task. */
    method BeginEdit(task: Task)
      modifies this
      ensures isEditing == (old(isEditing) || !IsCompleted(task))
      ensures tempName == old(tempName) && tempDuration == old(tempDuration)
    {
      if !IsCompleted(task) {
        isEditing := true;
      }
    }

    method EditName(name: string)
      modifies this
      ensures tempName == name
      ensures isEditing == old(isEditing) && tempDuration == old(tempDuration)
    {
      tempName := name;
    }

    method EditDuration(parsedDuration: Option<int>)
      modifies this
      ensures tempDuration == parsedDuration
      ensures isEditing == old(isEditing) && tempName == old(tempName)
    {
      tempDuration := parsedDuration;
    }

    /** Cancel closes the edit view and sends nothing; the edit fields keep what was typed. */
    method Cancel()
      modifies this
      ensures !isEditing
      ensures tempName == old(tempName) && tempDuration == old(tempDuration)
    {
      isEditing := false;
    }

    /** Save sends the update record and closes the edit view. */
    method Save(task: Task) returns (event: CardEvent)
      modifies this
      ensures event == EditRequested(SaveUpdate(task, old(tempName), old(tempDuration)))
      ensures !isEditing
      ensures tempName == old(tempName) && tempDuration == old(tempDuration)
    {
      event := EditRequested(SaveUpdate(task, tempName, tempDuration));
      isEditing := false;
    }

    /** The edit view's Delete asks the board to delete the task. */
    method Delete() returns (event: CardEvent)
      requires isEditing
      ensures event == DeleteRequested
    {
      event := DeleteRequested;
    }
  }
}
