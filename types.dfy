/** The records the planner works with: tasks, milestones and constraint
    warnings, with their closed enumerations. */
module Types {
  import opened Calendar

  datatype Option<T> = None | Some(value: T)

  datatype Assignee = Vincent | Jannes | Joy | Partners

  datatype Tag =
    | PhysicalBD | ColdCall | Marketing | Build | Admin
    | Content | Networking | Tooling | Referral | Audit

  /** An `HH:MM` time as the engine reads it: `parseInt` of the text before
      and after the first colon. `None` stands for the NaN that `parseInt`
      yields on text that does not start with a number (or a missing part). */
  datatype TimeOfDay = TimeOfDay(hour: Option<int>, minute: Option<int>)

  datatype Task = Task(
    id: string,
    title: string,
    assignee: Assignee,
    date: Date,
    start: TimeOfDay,
    end: TimeOfDay,
    tags: seq<Tag>,
    notes: Option<string>,
    rrule: Option<string>)

  datatype Milestone = Milestone(
    id: string,
    title: string,
    targetDate: string,
    kpi: string,
    description: string)

  datatype WarningKind = VincentEvenings | JannesHours | JannesLateEvenings | PhysicalBdDays

  /** The `type` string of a warning. */
  function KindName(kind: WarningKind): string {
    match kind
    case VincentEvenings => "vincent-evenings"
    case JannesHours => "jannes-hours"
    case JannesLateEvenings => "jannes-late-evenings"
    case PhysicalBdDays => "physical-bd-days"
  }

  /** Distinct kinds have distinct `type` strings, so comparing strings
      compares kinds. */
  lemma KindNameInjective(a: WarningKind, b: WarningKind)
    ensures KindName(a) == KindName(b) ==> a == b
  {
    assert KindName(a) == KindName(b) ==> KindName(a)[|KindName(a)| - 1] == KindName(b)[|KindName(b)| - 1];
    assert KindName(a) == KindName(b) ==> |KindName(a)| == |KindName(b)|;
  }

  /** A warning carries the offending task itself, not only its id. */
  datatype ConstraintWarning = ConstraintWarning(message: string, task: Task, kind: WarningKind)
}
