/** Records and closed enumerations shared by the whole planner (types.ts). */
module Types {

  datatype Option<+T> = None | Some(value: T)

  /** The size class of a task, derived from its duration when it is created. */
  datatype Priority = Big | Medium | Small

  /** Where a task sits: one of the two daily sessions, or the tomorrow queue. */
  datatype TaskLocation = Morning | Evening | Tomorrow

  /**
   * A task. `completed` is an optional field of the record: a task read
   * back from storage may lack it, and every reader treats an absent flag
   * as "not completed" (see IsCompleted).
   */
  datatype Task = Task(
    id: string,
    taskName: string,
    durationMinutes: int,
    priority: Priority,
    completed: Option<bool>,
    location: TaskLocation)

  /** The tasks of one calendar day, with that day's date string. */
  datatype BentoPlan = BentoPlan(tasks: seq<Task>, date: string)

  /** The application state record: an optional plan and the lifetime completion counter. */
  datatype AppState = AppState(
    currentPlan: Option<BentoPlan>,
    loading: bool,
    error: Option<string>,
    lifetimeCompletions: int)

  /** `task.completed` read as a boolean: an absent flag is falsy. */
  predicate IsCompleted(t: Task) {
    t.completed == Some(true)
  }

  /** The stored spelling of a priority. */
  function PriorityName(p: Priority): string {
    match p
    case Big => "big"
    case Medium => "medium"
    case Small => "small"
  }

  /** The stored spelling of a location. */
  function LocationName(loc: TaskLocation): string {
    match loc
    case Morning => "morning"
    case Evening => "evening"
    case Tomorrow => "tomorrow"
  }

  /** Reads a stored priority string: exactly the three spellings denote a priority. */
  function ParsePriority(s: string): (r: Option<Priority>)
    ensures r.Some? <==> s == "big" || s == "medium" || s == "small"
    ensures r.Some? ==> PriorityName(r.value) == s
  {
    if s == "big" then Some(Big)
    else if s == "medium" then Some(Medium)
    else if s == "small" then Some(Small)
    else None
  }

  /** Reads a stored location string: exactly the three spellings denote a location. */
  function ParseLocation(s: string): (r: Option<TaskLocation>)
    ensures r.Some? <==> s == "morning" || s == "evening" || s == "tomorrow"
    ensures r.Some? ==> LocationName(r.value) == s
  {
    if s == "morning" then Some(Morning)
    else if s == "evening" then Some(Evening)
    else if s == "tomorrow" then Some(Tomorrow)
    else None
  }

  /** Every priority has exactly one spelling, and it reads back as itself. */
  lemma PriorityNameRoundTrip(p: Priority, q: Priority)
    ensures ParsePriority(PriorityName(p)) == Some(p)
    ensures PriorityName(p) == PriorityName(q) ==> p == q
  {
  }

  /** Every location has exactly one spelling, and it reads back as itself. */
  lemma LocationNameRoundTrip(a: TaskLocation, b: TaskLocation)
    ensures ParseLocation(LocationName(a)) == Some(a)
    ensures LocationName(a) == LocationName(b) ==> a == b
  {
  }
}
