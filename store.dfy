/** The planner store: the task list, the milestones, the current warnings
    and the selected view, with the actions that replace them. Every action
    on tasks recomputes the warnings from scratch with the constraint engine;
    dismissing a warning only filters the current list, so a dismissal lasts
    until the next task action. */
module Planner {
  import opened Seqs
  import opened Calendar
  import opened Types
  import opened ConstraintEngine

  datatype View = Day | Week | Month | Timeline

  /** A `Partial<Task>`: `None` leaves a field as it is. */
  datatype TaskUpdate = TaskUpdate(
    id: Option<string>,
    title: Option<string>,
    assignee: Option<Assignee>,
    date: Option<Date>,
    start: Option<TimeOfDay>,
    end: Option<TimeOfDay>,
    tags: Option<seq<Tag>>,
    notes: Option<Option<string>>,
    rrule: Option<Option<string>>)

  /** A `Partial<Milestone>`. */
  datatype MilestoneUpdate = MilestoneUpdate(
    id: Option<string>,
    title: Option<string>,
    targetDate: Option<string>,
    kpi: Option<string>,
    description: Option<string>)

  function Pick<T>(update: Option<T>, current: T): T {
    if update.Some? then update.value else current
  }

  // ---------------------------------------------------------------------
  // The pure parts of the actions
  // ---------------------------------------------------------------------

  /** `{ ...task, ...updates }`: every field the update gives wins. */
  function MergeTask(t: Task, u: TaskUpdate): Task {
    Task(Pick(u.id, t.id), Pick(u.title, t.title), Pick(u.assignee, t.assignee), Pick(u.date, t.date),
         Pick(u.start, t.start), Pick(u.end, t.end), Pick(u.tags, t.tags), Pick(u.notes, t.notes),
         Pick(u.rrule, t.rrule))
  }

  function MergeMilestone(m: Milestone, u: MilestoneUpdate): Milestone {
    Milestone(Pick(u.id, m.id), Pick(u.title, m.title), Pick(u.targetDate, m.targetDate),
              Pick(u.kpi, m.kpi), Pick(u.description, m.description))
  }

  function TaskHasId(id: string): Task -> bool {
    (t: Task) => t.id == id
  }

  function TaskIdIsNot(id: string): Task -> bool {
    (t: Task) => t.id != id
  }

  function MilestoneHasId(id: string): Milestone -> bool {
    (m: Milestone) => m.id == id
  }

  function MilestoneIdIsNot(id: string): Milestone -> bool {
    (m: Milestone) => m.id != id
  }

  function MergeTaskWith(u: TaskUpdate): Task -> Task {
    (t: Task) => MergeTask(t, u)
  }

  function MergeMilestoneWith(u: MilestoneUpdate): Milestone -> Milestone {
    (m: Milestone) => MergeMilestone(m, u)
  }

  /** The new task list of `updateTask(id, u)`: same length and order, the
      update merged into exactly the entries with that id. */
  function UpdateTasks(ts: seq<Task>, id: string, u: TaskUpdate): (r: seq<Task>)
    ensures |r| == |ts|
    ensures forall i :: 0 <= i < |ts| ==> r[i] == if ts[i].id == id then MergeTask(ts[i], u) else ts[i]
  {
    MapWhere(ts, TaskHasId(id), MergeTaskWith(u))
  }

  /** The new task list of `deleteTask(id)`. */
  function DeleteTasks(ts: seq<Task>, id: string): seq<Task> {
    Filter(ts, TaskIdIsNot(id))
  }

  function UpdateMilestones(ms: seq<Milestone>, id: string, u: MilestoneUpdate): (r: seq<Milestone>)
    ensures |r| == |ms|
    ensures forall i :: 0 <= i < |ms| ==> r[i] == if ms[i].id == id then MergeMilestone(ms[i], u) else ms[i]
  {
    MapWhere(ms, MilestoneHasId(id), MergeMilestoneWith(u))
  }

  function DeleteMilestones(ms: seq<Milestone>, id: string): seq<Milestone> {
    Filter(ms, MilestoneIdIsNot(id))
  }

  /** The `filter` callback of `dismissWarning(taskId, type)`. */
  function KeepsWarning(taskId: string, kindName: string): ConstraintWarning -> bool {
    (w: ConstraintWarning) => !(w.task.id == taskId && KindName(w.kind) == kindName)
  }

  function Dismiss(ws: seq<ConstraintWarning>, taskId: string, kindName: string): seq<ConstraintWarning> {
    Filter(ws, KeepsWarning(taskId, kindName))
  }

  // ---------------------------------------------------------------------
  // Properties of the pure parts
  // ---------------------------------------------------------------------

  /** An update with no fields is the identity. */
  function NoTaskChange(): TaskUpdate {
    TaskUpdate(None, None, None, None, None, None, None, None, None)
  }

  lemma UpdateNothing(ts: seq<Task>, id: string)
    ensures UpdateTasks(ts, id, NoTaskChange()) == ts
  {
    assert forall i :: 0 <= i < |ts| ==> MergeTask(ts[i], NoTaskChange()) == ts[i];
  }

  /** Applying the same update twice is applying it once, even when the
      update rewrites the id. */
  lemma UpdateTasksIdempotent(ts: seq<Task>, id: string, u: TaskUpdate)
    ensures UpdateTasks(UpdateTasks(ts, id, u), id, u) == UpdateTasks(ts, id, u)
  {
    MapWhereIdempotent(ts, TaskHasId(id), MergeTaskWith(u));
  }

  /** An update of an id no task has changes nothing. */
  lemma UpdateMissingId(ts: seq<Task>, id: string, u: TaskUpdate)
    requires forall i :: 0 <= i < |ts| ==> ts[i].id != id
    ensures UpdateTasks(ts, id, u) == ts
  {
  }

  /** `deleteTask` removes every occurrence of a task with that id, keeps
      every occurrence of the others, and keeps their order. */
  lemma DeleteTasksExactly(ts: seq<Task>, id: string, x: Task)
    ensures multiset(DeleteTasks(ts, id))[x] == if x.id == id then 0 else multiset(ts)[x]
    ensures IsSubsequence(DeleteTasks(ts, id), ts)
  {
    FilterCount(ts, TaskIdIsNot(id), x);
    FilterIsSubsequence(ts, TaskIdIsNot(id));
  }

  /** Deleting a freshly added task undoes the addition. */
  lemma DeleteUndoesAdd(ts: seq<Task>, t: Task, freshId: string)
    requires forall i :: 0 <= i < |ts| ==> ts[i].id != freshId
    ensures DeleteTasks(ts + [t.(id := freshId)], freshId) == ts
  {
    FilterAppend(ts, t.(id := freshId), TaskIdIsNot(freshId));
    FilterAll(ts, TaskIdIsNot(freshId));
  }

  lemma UpdateMilestonesIdempotent(ms: seq<Milestone>, id: string, u: MilestoneUpdate)
    ensures UpdateMilestones(UpdateMilestones(ms, id, u), id, u) == UpdateMilestones(ms, id, u)
  {
    MapWhereIdempotent(ms, MilestoneHasId(id), MergeMilestoneWith(u));
  }

  lemma DeleteMilestonesExactly(ms: seq<Milestone>, id: string, x: Milestone)
    ensures multiset(DeleteMilestones(ms, id))[x] == if x.id == id then 0 else multiset(ms)[x]
    ensures IsSubsequence(DeleteMilestones(ms, id), ms)
  {
    FilterCount(ms, MilestoneIdIsNot(id), x);
    FilterIsSubsequence(ms, MilestoneIdIsNot(id));
  }

  /** `dismissWarning` removes exactly the warnings with that (task id, type)
      pair and keeps the others in order. */
  lemma DismissExactly(ws: seq<ConstraintWarning>, taskId: string, kindName: string, w: ConstraintWarning)
    ensures multiset(Dismiss(ws, taskId, kindName))[w]
            == if w.task.id == taskId && KindName(w.kind) == kindName then 0 else multiset(ws)[w]
    ensures IsSubsequence(Dismiss(ws, taskId, kindName), ws)
  {
    FilterCount(ws, KeepsWarning(taskId, kindName), w);
    FilterIsSubsequence(ws, KeepsWarning(taskId, kindName));
  }

  /** Dismissing twice is dismissing once. */
  lemma DismissIdempotent(ws: seq<ConstraintWarning>, taskId: string, kindName: string)
    ensures Dismiss(Dismiss(ws, taskId, kindName), taskId, kindName) == Dismiss(ws, taskId, kindName)
  {
    var p := KeepsWarning(taskId, kindName);
    FilterFilter(ws, p, p, p);
  }

  /** Dismissing from some of a list's warnings leaves some of them. */
  lemma DismissKeepsSubsequence(ws: seq<ConstraintWarning>, all: seq<ConstraintWarning>, taskId: string, kindName: string)
    requires IsSubsequence(ws, all)
    ensures IsSubsequence(Dismiss(ws, taskId, kindName), all)
  {
    FilterIsSubsequence(ws, KeepsWarning(taskId, kindName));
    SubsequenceTransitive(Dismiss(ws, taskId, kindName), ws, all);
  }

  // ---------------------------------------------------------------------
  // The store
  // ---------------------------------------------------------------------

  class PlannerStore {
    var tasks: seq<Task>
    var milestones: seq<Milestone>
    var warnings: seq<ConstraintWarning>
    var view: View

    /** The warnings on show are some of the engine's warnings for the
        current tasks, in the engine's order: all of them after a task
        action, fewer after dismissals. */
    ghost predicate Valid()
      reads this
    {
      IsSubsequence(warnings, Warnings(tasks))
    }

    constructor()
      ensures tasks == [] && milestones == [] && warnings == [] && view == Week
      ensures Valid()
    {
      tasks := [];
      milestones := [];
      warnings := [];
      view := Week;
    }

    /** The common tail of the task actions: the new list replaces the old
        one and the warnings are recomputed from it, forgetting dismissals. */
    method ReplaceTasks(newTasks: seq<Task>)
      modifies this
      ensures tasks == newTasks && warnings == Warnings(tasks)
      ensures milestones == old(milestones) && view == old(view)
      ensures Valid()
    {
      var newWarnings := CheckConstraints(newTasks);
      tasks, warnings := newTasks, newWarnings;
      SubsequenceOfItself(warnings);
    }

    /** `addTask`: the task, with the fresh id, goes at the end. */
    method AddTask(taskData: Task, freshId: string)
      modifies this
      ensures tasks == old(tasks) + [taskData.(id := freshId)]
      ensures warnings == Warnings(tasks)
      ensures milestones == old(milestones) && view == old(view)
      ensures Valid()
    {
      var task := taskData.(id := freshId);
      ReplaceTasks(tasks + [task]);
    }

    /** `updateTask`. */
    method UpdateTask(id: string, updates: TaskUpdate)
      modifies this
      ensures tasks == UpdateTasks(old(tasks), id, updates)
      ensures warnings == Warnings(tasks)
      ensures milestones == old(milestones) && view == old(view)
      ensures Valid()
    {
      ReplaceTasks(UpdateTasks(tasks, id, updates));
    }

    /** `deleteTask`. */
    method DeleteTask(id: string)
      modifies this
      ensures tasks == DeleteTasks(old(tasks), id)
      ensures warnings == Warnings(tasks)
      ensures milestones == old(milestones) && view == old(view)
      ensures Valid()
    {
      ReplaceTasks(DeleteTasks(tasks, id));
    }

    /** `addMilestone`: appended with the fresh id; nothing else changes. */
    method AddMilestone(milestoneData: Milestone, freshId: string)
      modifies this
      ensures milestones == old(milestones) + [milestoneData.(id := freshId)]
      ensures tasks == old(tasks) && warnings == old(warnings) && view == old(view)
    {
      milestones := milestones + [milestoneData.(id := freshId)];
    }

    method UpdateMilestone(id: string, updates: MilestoneUpdate)
      modifies this
      ensures milestones == UpdateMilestones(old(milestones), id, updates)
      ensures tasks == old(tasks) && warnings == old(warnings) && view == old(view)
    {
      milestones := UpdateMilestones(milestones, id, updates);
    }

    method DeleteMilestone(id: string)
      modifies this
      ensures milestones == DeleteMilestones(old(milestones), id)
      ensures tasks == old(tasks) && warnings == old(warnings) && view == old(view)
    {
      milestones := DeleteMilestones(milestones, id);
    }

    method SetView(v: View)
      modifies this
      ensures view == v
      ensures tasks == old(tasks) && milestones == old(milestones) && warnings == old(warnings)
    {
      view := v;
    }

    /** `importData`: both lists replaced wholesale. */
    method ImportData(newTasks: seq<Task>, newMilestones: seq<Milestone>)
      modifies this
      ensures tasks == newTasks && milestones == newMilestones
      ensures warnings == Warnings(newTasks)
      ensures view == old(view)
      ensures Valid()
    {
      ReplaceTasks(newTasks);
      milestones := newMilestones;
    }

    /** `exportData`: the current lists; the store is not changed. */
    method ExportData() returns (exportedTasks: seq<Task>, exportedMilestones: seq<Milestone>)
      ensures exportedTasks == tasks && exportedMilestones == milestones
    {
      exportedTasks, exportedMilestones := tasks, milestones;
    }

    /** `dismissWarning(taskId, type)`. */
    method DismissWarning(taskId: string, kindName: string)
      requires Valid()
      modifies this
      ensures warnings == Dismiss(old(warnings), taskId, kindName)
      ensures tasks == old(tasks) && milestones == old(milestones) && view == old(view)
      ensures Valid()
    {
      DismissKeepsSubsequence(warnings, Warnings(tasks), taskId, kindName);
      warnings := Dismiss(warnings, taskId, kindName);
    }
  }

  /** A dismissed warning whose condition still holds is back after the
      next task action, here an update that changes nothing. */
  method DismissalIsForgotten(store: PlannerStore, w: ConstraintWarning)
    requires store.Valid() && w in Warnings(store.tasks)
    modifies store
    ensures w in store.warnings
  {
    store.DismissWarning(w.task.id, KindName(w.kind));
    DismissExactly(old(store.warnings), w.task.id, KindName(w.kind), w);
    assert w !in store.warnings;
    UpdateNothing(store.tasks, w.task.id);
    store.UpdateTask(w.task.id, NoTaskChange());
  }
}
