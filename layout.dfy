/**
 * The board view of components/BentoLayout.tsx: the three location lists,
 * the priority compartments of a box, box completion, the move buttons of
 * a card, and the completion toast, whose effect keeps four flags across
 * renders.
 */
module BentoLayout {
  import opened Types
  import opened TaskList
  import opened Rollover

  /** The tasks of a box with priority p, in the box's order. */
  function WithPriority(tasks: seq<Task>, p: Priority): (r: seq<Task>)
    ensures forall t :: t in r <==> t in tasks && t.priority == p
    ensures |r| <= |tasks|
  {
    if tasks == [] then []
    else (if tasks[0].priority == p then [tasks[0]] else []) + WithPriority(tasks[1..], p)
  }

  /**
   * The three location lists partition the plan: as multisets they add up
   * to the task list, so every task is in exactly one of them.
   */
  lemma {:induction false} LocationPartition(tasks: seq<Task>)
    ensures multiset(TasksAt(tasks, Morning)) + multiset(TasksAt(tasks, Evening)) + multiset(TasksAt(tasks, Tomorrow))
         == multiset(tasks)
    ensures |TasksAt(tasks, Morning)| + |TasksAt(tasks, Evening)| + |TasksAt(tasks, Tomorrow)| == |tasks|
  {
    if tasks != [] {
      assert tasks == [tasks[0]] + tasks[1..];
      LocationPartition(tasks[1..]);
    }
  }

  /** The big, medium and small compartments partition a box in the same way. */
  lemma {:induction false} PriorityPartition(box: seq<Task>)
    ensures multiset(WithPriority(box, Big)) + multiset(WithPriority(box, Medium)) + multiset(WithPriority(box, Small))
         == multiset(box)
    ensures |WithPriority(box, Big)| + |WithPriority(box, Medium)| + |WithPriority(box, Small)| == |box|
  {
    if box != [] {
      assert box == [box[0]] + box[1..];
      PriorityPartition(box[1..]);
    }
  }

  /** A compartment keeps the order of the box: the filter distributes over concatenation. */
  lemma {:induction false} WithPriorityAppend(a: seq<Task>, b: seq<Task>, p: Priority)
    ensures WithPriority(a + b, p) == WithPriority(a, p) + WithPriority(b, p)
  {
    if a == [] {
      assert a + b == b;
    } else {
      assert (a + b)[1..] == a[1..] + b;
      WithPriorityAppend(a[1..], b, p);
    }
  }

  /** Every task of the box is completed; an absent flag counts as not completed. */
  function AllCompleted(box: seq<Task>): (r: bool)
    ensures r <==> forall t :: t in box ==> IsCompleted(t)
  {
    if box == [] then true
    else
      assert box == [box[0]] + box[1..];
      IsCompleted(box[0]) && AllCompleted(box[1..])
  }

  /** `morning_complete` / `evening_complete`: at least one task, and all of them completed. */
  function BoxComplete(box: seq<Task>): (c: bool)
    ensures c <==> |box| > 0 && forall i :: 0 <= i < |box| ==> IsCompleted(box[i])
    ensures box == [] ==> !c
  {
    |box| > 0 && AllCompleted(box)
  }

  /**
   * A box with an uncompleted task is not complete; in particular a task
   * added to a complete box makes it incomplete unless the task itself is
   * already completed.
   */
  lemma AddingReopensBox(tasks: seq<Task>, t: Task)
    ensures BoxComplete(TasksAt(tasks + [t], t.location)) ==> IsCompleted(t)
  {
    assert t in tasks + [t];
    assert t in TasksAt(tasks + [t], t.location);
  }

  /** After rollover neither box of the new day is complete: nothing in it is completed. */
  lemma RolloverBoxesIncomplete(tasks: seq<Task>, today: string)
    ensures !BoxComplete(TasksAt(MigrateToNewDay(tasks, today).tasks, Morning))
    ensures !BoxComplete(TasksAt(MigrateToNewDay(tasks, today).tasks, Evening))
  {
    var r := MigrateToNewDay(tasks, today).tasks;
    var m := TasksAt(r, Morning);
    if |m| > 0 {
      assert m[0] in r;
    }
  }

  /** `otherBento`: evening for the morning box, morning for the evening box. */
  function OtherBento(box: TaskLocation): (o: TaskLocation)
    ensures box == Morning ==> o == Evening
    ensures box != Morning ==> o == Morning
  {
    if box == Morning then Evening else Morning
  }

  /**
   * The move buttons of a card in a box: none on a completed task,
   * otherwise the other box and the tomorrow queue, in that order.
   */
  function MoveTargets(task: Task, box: TaskLocation): (targets: seq<TaskLocation>)
    ensures IsCompleted(task) <==> targets == []
    ensures !IsCompleted(task) ==> targets == [OtherBento(box), Tomorrow]
  {
    if IsCompleted(task) then [] else [OtherBento(box), Tomorrow]
  }

  /** For a day box, every offered target is a different location, and the swap goes back and forth. */
  lemma MoveTargetsLeaveBox(task: Task, box: TaskLocation)
    requires box != Tomorrow
    ensures forall o :: o in MoveTargets(task, box) ==> o != box
    ensures OtherBento(OtherBento(box)) == box
  {
  }

  // ---------------------------------------------------------------------
  // Completion toast

  /** The three toast texts: morning packed, full day packed, evening ready. */
  datatype Toast = MorningPacked | FullDayPacked | EveningReady

  /** The four refs the effect keeps between renders. */
  datatype ToastRefs = ToastRefs(prevMorning: bool, prevEvening: bool, morningNotified: bool, eveningNotified: bool)

  /**
   * The message of one run of the effect: the morning message when morning
   * just became complete and was not yet notified; otherwise the evening
   * message under the same conditions, in its full-day form exactly when
   * morning is complete too.
   */
  function ToastMessage(refs: ToastRefs, morningComplete: bool, eveningComplete: bool): (m: Option<Toast>)
    ensures m == Some(MorningPacked) <==> morningComplete && !refs.prevMorning && !refs.morningNotified
    ensures m.Some? && m != Some(MorningPacked) <==>
              !(morningComplete && !refs.prevMorning && !refs.morningNotified)
              && eveningComplete && !refs.prevEvening && !refs.eveningNotified
    ensures m == Some(FullDayPacked) ==> morningComplete
    ensures m == Some(EveningReady) ==> !morningComplete
  {
    if morningComplete && !refs.prevMorning && !refs.morningNotified then Some(MorningPacked)
    else if eveningComplete && !refs.prevEvening && !refs.eveningNotified then
      (if morningComplete then Some(FullDayPacked) else Some(EveningReady))
    else None
  }

  /**
   * The refs after one run of the effect. A run with a message marks the
   * notified box and returns early, leaving the prev flags alone; a run
   * without one clears the notified flag of each incomplete box and records
   * the current completion in the prev flags.
   */
  function NextRefs(refs: ToastRefs, morningComplete: bool, eveningComplete: bool): (n: ToastRefs)
    ensures ToastMessage(refs, morningComplete, eveningComplete).Some? ==>
              n.prevMorning == refs.prevMorning && n.prevEvening == refs.prevEvening
    ensures ToastMessage(refs, morningComplete, eveningComplete).None? ==>
              n.prevMorning == morningComplete && n.prevEvening == eveningComplete
    ensures n.morningNotified && !refs.morningNotified ==>
              ToastMessage(refs, morningComplete, eveningComplete) == Some(MorningPacked)
    ensures !n.morningNotified && refs.morningNotified ==> !morningComplete
    ensures !n.eveningNotified && refs.eveningNotified ==> !eveningComplete
    ensures n.eveningNotified && !refs.eveningNotified ==>
              ToastMessage(refs, morningComplete, eveningComplete) in {Some(FullDayPacked), Some(EveningReady)}
    ensures ToastMessage(refs, morningComplete, eveningComplete) == Some(MorningPacked) ==>
              n.morningNotified && n.eveningNotified == refs.eveningNotified
    ensures ToastMessage(refs, morningComplete, eveningComplete) in {Some(FullDayPacked), Some(EveningReady)} ==>
              n.eveningNotified && n.morningNotified == refs.morningNotified
    ensures ToastMessage(refs, morningComplete, eveningComplete).None? ==>
              n.morningNotified == (refs.morningNotified && morningComplete)
              && n.eveningNotified == (refs.eveningNotified && eveningComplete)
  {
    match ToastMessage(refs, morningComplete, eveningComplete)
    case Some(MorningPacked) => refs.(morningNotified := true)
    case Some(_) => refs.(eveningNotified := true)
    case None =>
      ToastRefs(morningComplete, eveningComplete,
                refs.morningNotified && morningComplete,
                refs.eveningNotified && eveningComplete)
  }

  /** The messages of a sequence of effect runs, one per (morning, evening) completion pair. */
  function RunToasts(refs: ToastRefs, steps: seq<(bool, bool)>): (ms: seq<Option<Toast>>)
    ensures |ms| == |steps|
    decreases |steps|
  {
    if steps == [] then []
    else [ToastMessage(refs, steps[0].0, steps[0].1)] + RunToasts(NextRefs(refs, steps[0].0, steps[0].1), steps[1..])
  }

  /** The refs after a sequence of effect runs. */
  function RunRefs(refs: ToastRefs, steps: seq<(bool, bool)>): ToastRefs
    decreases |steps|
  {
    if steps == [] then refs
    else RunRefs(NextRefs(refs, steps[0].0, steps[0].1), steps[1..])
  }

  /** Run k shows the message of the refs left by the runs before it. */
  lemma {:induction false} RunToastsStep(refs: ToastRefs, steps: seq<(bool, bool)>)
    ensures forall k :: 0 <= k < |steps| ==>
              RunToasts(refs, steps)[k] == ToastMessage(RunRefs(refs, steps[..k]), steps[k].0, steps[k].1)
    decreases |steps|
  {
    if steps != [] {
      var next := NextRefs(refs, steps[0].0, steps[0].1);
      RunToastsStep(next, steps[1..]);
      forall k | 0 < k < |steps|
        ensures RunToasts(refs, steps)[k] == ToastMessage(RunRefs(refs, steps[..k]), steps[k].0, steps[k].1)
      {
        assert steps[..k][1..] == steps[1..][..k - 1];
        assert steps[..k][0] == steps[0];
      }
      assert steps[..0] == [];
    }
  }

  /**
   * The morning toast shows once: once notified, and as long as the
   * morning box stays complete, no run produces it again.
   */
  lemma {:induction false} MorningToastOnce(refs: ToastRefs, steps: seq<(bool, bool)>)
    requires refs.morningNotified
    requires forall k :: 0 <= k < |steps| ==> steps[k].0
    ensures Some(MorningPacked) !in RunToasts(refs, steps)
    ensures RunRefs(refs, steps).morningNotified
    decreases |steps|
  {
    if steps != [] {
      MorningToastOnce(NextRefs(refs, steps[0].0, steps[0].1), steps[1..]);
    }
  }

  /**
   * The evening toast (in either form) shows once: once notified, and as
   * long as the evening box stays complete, no run produces it again.
   */
  lemma {:induction false} EveningToastOnce(refs: ToastRefs, steps: seq<(bool, bool)>)
    requires refs.eveningNotified
    requires forall k :: 0 <= k < |steps| ==> steps[k].1
    ensures Some(FullDayPacked) !in RunToasts(refs, steps) && Some(EveningReady) !in RunToasts(refs, steps)
    ensures RunRefs(refs, steps).eveningNotified
    decreases |steps|
  {
    if steps != [] {
      EveningToastOnce(NextRefs(refs, steps[0].0, steps[0].1), steps[1..]);
    }
  }

  /** A run that shows the morning toast leaves the morning notified, so the next run cannot repeat it. */
  lemma MorningToastNotRepeated(refs: ToastRefs, m1: bool, e1: bool, e2: bool)
    requires ToastMessage(refs, m1, e1) == Some(MorningPacked)
    ensures ToastMessage(NextRefs(refs, m1, e1), true, e2) != Some(MorningPacked)
  {
  }

  /** Mounting on a board whose boxes are already complete shows nothing. */
  lemma MountSilent(morningComplete: bool, eveningComplete: bool)
    ensures ToastMessage(ToastRefs(morningComplete, eveningComplete, false, false), morningComplete, eveningComplete).None?
  {
  }

  /**
   * The refs of the component, updated in place by the effect, which
   * React runs after the first render and after every render whose
   * completion pair differs from the previous one.
   */
  class CompletionToast {
    var prevMorning: bool
    var prevEvening: bool
    var morningNotified: bool
    var eveningNotified: bool
    var lastMorning: bool
    var lastEvening: bool

    function Refs(): ToastRefs
      reads this
    {
      ToastRefs(prevMorning, prevEvening, morningNotified, eveningNotified)
    }

    /** The first render: the refs start from the current completion, and the first effect run shows nothing. */
    constructor Mount(morningComplete: bool, eveningComplete: bool)
      ensures Refs() == ToastRefs(morningComplete, eveningComplete, false, false)
      ensures lastMorning == morningComplete && lastEvening == eveningComplete
    {
      prevMorning, prevEvening := morningComplete, eveningComplete;
      morningNotified, eveningNotified := false, false;
      lastMorning, lastEvening := morningComplete, eveningComplete;
      MountSilent(morningComplete, eveningComplete);
    }

    /** One run of the effect: the message it shows, if any, and the refs it leaves. */
    method Effect(morningComplete: bool, eveningComplete: bool) returns (message: Option<Toast>)
      modifies this
      ensures message == ToastMessage(old(Refs()), morningComplete, eveningComplete)
      ensures Refs() == NextRefs(old(Refs()), morningComplete, eveningComplete)
      ensures lastMorning == old(lastMorning) && lastEvening == old(lastEvening)
    {
      message := None;
      if morningComplete && !prevMorning && !morningNotified {
        message := Some(MorningPacked);
        morningNotified := true;
      } else if eveningComplete && !prevEvening && !eveningNotified {
        if morningComplete {
          message := Some(FullDayPacked);
        } else {
          message := Some(EveningReady);
        }
        eveningNotified := true;
      }
      if message.Some? {
        return;
      }
      if !morningComplete {
        morningNotified := false;
      }
      if !eveningComplete {
        eveningNotified := false;
      }
      prevMorning := morningComplete;
      prevEvening := eveningComplete;
    }

    /** A later render: the effect runs only when the completion pair changed. */
    method Render(morningComplete: bool, eveningComplete: bool) returns (message: Option<Toast>)
      modifies this
      ensures (morningComplete, eveningComplete) == old((lastMorning, lastEvening)) ==>
                message.None? && Refs() == old(Refs())
      ensures (morningComplete, eveningComplete) != old((lastMorning, lastEvening)) ==>
                message == ToastMessage(old(Refs()), morningComplete, eveningComplete)
                && Refs() == NextRefs(old(Refs()), morningComplete, eveningComplete)
      ensures lastMorning == morningComplete && lastEvening == eveningComplete
    {
      message := None;
      if (morningComplete, eveningComplete) != (lastMorning, lastEvening) {
        message := Effect(morningComplete, eveningComplete);
      }
      lastMorning, lastEvening := morningComplete, eveningComplete;
    }
  }
}
