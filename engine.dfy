/** The scheduling-constraint engine, `checkConstraints`: the rules it applies,
    the warnings it emits and their order, as specification functions, and the
    imperative method that builds the same list with loops. */
module ConstraintEngine {
  import opened Seqs
  import opened Calendar
  import opened Types

  const VincentMessage := "Vincent has >5 long work nights this week (wants 2 evenings free)"
  const JannesLateMessage := "Jannes is scheduled after 21:00 on a weekday evening"
  const PhysicalBdMessage := "Physical-business-dev task scheduled on day other than Wednesday or Friday"

  /** Vincent may have at most this many evening tasks in one week. */
  const VincentEveningLimit := 5
  /** Jannes may be scheduled for at most 15 hours in one week. */
  const JannesMinuteLimit := 15 * 60

  /** `parseInt(...) >= bound`; a NaN hour satisfies no threshold. */
  predicate AtLeast(hour: Option<int>, bound: int) {
    hour.Some? && hour.value >= bound
  }

  // ---------------------------------------------------------------------
  // Rule predicates (the `filter` callbacks of the source)
  // ---------------------------------------------------------------------

  /** A Vincent task that ends at 19:00 or later. */
  predicate IsVincentLate(t: Task) {
    t.assignee == Vincent && AtLeast(t.end.hour, 19)
  }

  predicate IsJannes(t: Task) {
    t.assignee == Jannes
  }

  /** A Jannes task on Monday to Friday that ends at 21:00 or later. */
  predicate IsJannesLateEvening(t: Task) {
    var day := Weekday(t.date);
    t.assignee == Jannes && 1 <= day <= 5 && AtLeast(t.end.hour, 21)
  }

  predicate HasPhysicalBd(t: Task) {
    PhysicalBD in t.tags
  }

  /** Neither Wednesday (3) nor Friday (5). */
  predicate IsOffBdDay(t: Task) {
    var day := Weekday(t.date);
    day != 3 && day != 5
  }

  /** The tasks the physical-BD rule objects to. */
  predicate IsMisplacedBd(t: Task) {
    HasPhysicalBd(t) && IsOffBdDay(t)
  }

  // ---------------------------------------------------------------------
  // Jannes's weekly hours, in whole minutes
  // ---------------------------------------------------------------------

  /** Length of a task in minutes, `end - start`, not clamped at zero;
      `None` when any of the four numbers is NaN. */
  function Duration(t: Task): Option<int> {
    if t.start.hour.Some? && t.start.minute.Some? && t.end.hour.Some? && t.end.minute.Some? then
      Some((t.end.hour.value * 60 + t.end.minute.value) - (t.start.hour.value * 60 + t.start.minute.value))
    else None
  }

  /** The `reduce` over a week's Jannes tasks. NaN is absorbing, so one
      unparsable time makes the whole total NaN. */
  function TotalMinutes(ts: seq<Task>): Option<int> {
    if ts == [] then Some(0)
    else
      var rest := TotalMinutes(ts[1..]);
      var d := Duration(ts[0]);
      if d.Some? && rest.Some? then Some(d.value + rest.value) else None
  }

  /** `jannesHours > 15`: false for a NaN total. */
  predicate OverJannesLimit(total: Option<int>) {
    total.Some? && total.value > JannesMinuteLimit
  }

  /** The number a string of decimal digits denotes, most significant
      digit first. */
  function DigitsValue(s: string): int {
    if s == [] then 0 else 10 * DigitsValue(s[..|s| - 1]) + (s[|s| - 1] as int - '0' as int)
  }

  /** Decimal digits of `n`, without leading zeros. */
  function NatToString(n: nat): (s: string)
    ensures |s| >= 1
    ensures forall i :: 0 <= i < |s| ==> '0' <= s[i] <= '9'
    ensures DigitsValue(s) == n
    ensures |s| > 1 ==> s[0] != '0'
  {
    var digit := [(n % 10) as char + '0'];
    if n < 10 then digit
    else
      var r := NatToString(n / 10);
      assert (r + digit)[..|r|] == r;
      r + digit
  }

  /** The hour total with one decimal, from minutes, rounding half up;
      stands in for `toFixed(1)` on the floating-point total. */
  function HoursText(minutes: nat): string {
    var tenths := (minutes + 3) / 6;
    NatToString(tenths / 10) + "." + NatToString(tenths % 10)
  }

  function JannesHoursMessage(minutes: nat): string {
    "Jannes is scheduled for " + HoursText(minutes) + " hours this week (>15 hour limit)"
  }

  // ---------------------------------------------------------------------
  // Week buckets
  // ---------------------------------------------------------------------

  function KeyOf(t: Task): WeekKey {
    WeekKeyOf(t.date)
  }

  /** The week key of each task, in input order. */
  function Keys(ts: seq<Task>): seq<WeekKey> {
    seq(|ts|, i requires 0 <= i < |ts| => KeyOf(ts[i]))
  }

  /** The keys of the bucket dictionary in insertion (first-seen) order,
      which is the order `Object.values` visits the buckets. */
  function WeekKeys(ts: seq<Task>): seq<WeekKey> {
    Dedup(Keys(ts))
  }

  function InWeekOf(k: WeekKey): Task -> bool {
    t => KeyOf(t) == k
  }

  lemma KeysAppend(ts: seq<Task>, x: Task)
    ensures Keys(ts + [x]) == Keys(ts) + [KeyOf(x)]
  {
  }

  /** Every task's key is among the bucket keys. */
  lemma WeekKeysCover(ts: seq<Task>, x: Task)
    requires x in ts
    ensures KeyOf(x) in WeekKeys(ts)
  {
    var i :| 0 <= i < |ts| && ts[i] == x;
    assert Keys(ts)[i] == KeyOf(x);
    DedupMember(Keys(ts), KeyOf(x));
  }

  /** The bucket of key `k`: the tasks with that key, in input order. */
  function InWeek(ts: seq<Task>, k: WeekKey): seq<Task> {
    Filter(ts, InWeekOf(k))
  }

  lemma InWeekAppend(ts: seq<Task>, x: Task, k: WeekKey)
    ensures InWeek(ts + [x], k) == InWeek(ts, k) + (if KeyOf(x) == k then [x] else [])
  {
    FilterAppend(ts, x, InWeekOf(k));
  }

  /** The bucket that task `x` falls into. */
  function WeekOf(ts: seq<Task>, x: Task): seq<Task> {
    InWeek(ts, KeyOf(x))
  }

  // ---------------------------------------------------------------------
  // The warnings, in emission order
  // ---------------------------------------------------------------------

  /** One warning of `kind` with `message` per task of `ts`, in order. */
  function Warn(ts: seq<Task>, kind: WarningKind, message: string): seq<ConstraintWarning> {
    if ts == [] then []
    else Warn(ts[..|ts| - 1], kind, message) + [ConstraintWarning(message, ts[|ts| - 1], kind)]
  }

  lemma WarnAppend(ts: seq<Task>, x: Task, kind: WarningKind, message: string)
    ensures Warn(ts + [x], kind, message) == Warn(ts, kind, message) + [ConstraintWarning(message, x, kind)]
  {
    assert (ts + [x])[..|ts|] == ts;
  }

  /** Filtering one more task adds at most its own warning at the end. */
  lemma WarnFilterStep(prefix: seq<Task>, task: Task, p: Task -> bool, kind: WarningKind, message: string)
    ensures Warn(Filter(prefix + [task], p), kind, message)
         == Warn(Filter(prefix, p), kind, message) + (if p(task) then [ConstraintWarning(message, task, kind)] else [])
  {
    FilterAppend(prefix, task, p);
    if p(task) {
      WarnAppend(Filter(prefix, p), task, kind, message);
    } else {
      assert Filter(prefix + [task], p) == Filter(prefix, p);
    }
  }

  function VincentWarnings(week: seq<Task>): seq<ConstraintWarning> {
    var late := Filter(week, IsVincentLate);
    if |late| > VincentEveningLimit then Warn(late, VincentEvenings, VincentMessage) else []
  }

  function JannesHoursWarnings(week: seq<Task>): seq<ConstraintWarning> {
    var jannes := Filter(week, IsJannes);
    var total := TotalMinutes(jannes);
    if OverJannesLimit(total) then Warn(jannes, JannesHours, JannesHoursMessage(total.value)) else []
  }

  function JannesLateWarnings(week: seq<Task>): seq<ConstraintWarning> {
    Warn(Filter(week, IsJannesLateEvening), JannesLateEvenings, JannesLateMessage)
  }

  /** The three weekly rules on one bucket, in the source's order. */
  function WeekWarnings(week: seq<Task>): seq<ConstraintWarning> {
    VincentWarnings(week) + JannesHoursWarnings(week) + JannesLateWarnings(week)
  }

  /** The weekly rules on the buckets of keys `ks`, bucket after bucket. */
  function WeeklyWarnings(ks: seq<WeekKey>, ts: seq<Task>): seq<ConstraintWarning> {
    if ks == [] then []
    else WeeklyWarnings(ks[..|ks| - 1], ts) + WeekWarnings(InWeek(ts, ks[|ks| - 1]))
  }

  /** The global physical-BD rule, over the whole input in its order. */
  function PhysicalBdWarnings(ts: seq<Task>): seq<ConstraintWarning> {
    Warn(Filter(Filter(ts, HasPhysicalBd), IsOffBdDay), PhysicalBdDays, PhysicalBdMessage)
  }

  /** What `checkConstraints(ts)` returns. */
  function Warnings(ts: seq<Task>): seq<ConstraintWarning> {
    WeeklyWarnings(WeekKeys(ts), ts) + PhysicalBdWarnings(ts)
  }

  // ---------------------------------------------------------------------
  // The engine as the source runs it
  // ---------------------------------------------------------------------

  /** The grouping invariant: `keys` are the bucket keys of `prefix` in
      first-seen order, and `byWeek` maps each of them to its bucket. */
  ghost predicate Grouped(prefix: seq<Task>, keys: seq<WeekKey>, byWeek: map<WeekKey, seq<Task>>) {
    && keys == WeekKeys(prefix)
    && (forall k :: k in byWeek <==> k in keys)
    && (forall k :: k in byWeek ==> byWeek[k] == InWeek(prefix, k))
  }

  /** One step of the grouping: appending `task` to its bucket (created if
      missing) keeps the dictionary equal to the buckets of the longer prefix. */
  lemma GroupStep(prefix: seq<Task>, task: Task, keys: seq<WeekKey>, byWeek: map<WeekKey, seq<Task>>,
                  keys': seq<WeekKey>, byWeek': map<WeekKey, seq<Task>>)
    requires Grouped(prefix, keys, byWeek)
    requires keys' == if KeyOf(task) in byWeek then keys else keys + [KeyOf(task)]
    requires byWeek' == byWeek[KeyOf(task) := (if KeyOf(task) in byWeek then byWeek[KeyOf(task)] else []) + [task]]
    ensures Grouped(prefix + [task], keys', byWeek')
  {
    var key := KeyOf(task);
    KeysAppend(prefix, task);
    DedupAppend(Keys(prefix), key);
    forall k | k in byWeek'
      ensures byWeek'[k] == InWeek(prefix + [task], k)
    {
      InWeekAppend(prefix, task, k);
      if k == key && key !in byWeek {
        assert InWeek(prefix, k) == [] by {
          if InWeek(prefix, k) != [] {
            var y := InWeek(prefix, k)[0];
            assert y in prefix;
            WeekKeysCover(prefix, y);
          }
        }
      }
    }
  }

  /** `GroupStep` at position `i` of the input. */
  lemma GroupStepAt(tasks: seq<Task>, i: nat, keys: seq<WeekKey>, byWeek: map<WeekKey, seq<Task>>,
                    keys': seq<WeekKey>, byWeek': map<WeekKey, seq<Task>>)
    requires i < |tasks|
    requires Grouped(tasks[..i], keys, byWeek)
    requires keys' == if KeyOf(tasks[i]) in byWeek then keys else keys + [KeyOf(tasks[i])]
    requires byWeek' == byWeek[KeyOf(tasks[i]) := (if KeyOf(tasks[i]) in byWeek then byWeek[KeyOf(tasks[i])] else []) + [tasks[i]]]
    ensures Grouped(tasks[..i + 1], keys', byWeek')
  {
    assert tasks[..i + 1] == tasks[..i] + [tasks[i]];
    GroupStep(tasks[..i], tasks[i], keys, byWeek, keys', byWeek');
  }

  /** The `reduce` callback: append `task` to the bucket of its week key,
      creating the bucket (and recording its key) on first sight. */
  method AddToBucket(keys: seq<WeekKey>, tasksByWeek: map<WeekKey, seq<Task>>, task: Task)
    returns (keys': seq<WeekKey>, tasksByWeek': map<WeekKey, seq<Task>>)
    ensures keys' == if KeyOf(task) in tasksByWeek then keys else keys + [KeyOf(task)]
    ensures tasksByWeek' == tasksByWeek[KeyOf(task) := (if KeyOf(task) in tasksByWeek then tasksByWeek[KeyOf(task)] else []) + [task]]
  {
    var weekKey := WeekKeyOf(task.date);
    var bucket: seq<Task> := [];
    keys' := keys;
    if weekKey in tasksByWeek {
      bucket := tasksByWeek[weekKey];
    } else {
      keys' := keys + [weekKey];
    }
    tasksByWeek' := tasksByWeek[weekKey := bucket + [task]];
  }

  /** The grouping `reduce`: one pass over the tasks that appends each task
      to the bucket of its week key, creating the bucket on first sight. */
  method GroupByWeek(tasks: seq<Task>) returns (keys: seq<WeekKey>, tasksByWeek: map<WeekKey, seq<Task>>)
    ensures Grouped(tasks, keys, tasksByWeek)
  {
    keys := [];
    tasksByWeek := map[];
    var i := 0;
    while i < |tasks|
      invariant 0 <= i <= |tasks|
      invariant Grouped(tasks[..i], keys, tasksByWeek)
    {
      ghost var keys0, byWeek0 := keys, tasksByWeek;
      keys, tasksByWeek := AddToBucket(keys, tasksByWeek, tasks[i]);
      GroupStepAt(tasks, i, keys0, byWeek0, keys, tasksByWeek);
      i := i + 1;
    }
    assert tasks[..i] == tasks;
  }

  /** Pushes one warning of `kind` with `message` per task of `ts`. */
  method PushEach(warnings: seq<ConstraintWarning>, ts: seq<Task>, kind: WarningKind, message: string)
    returns (result: seq<ConstraintWarning>)
    ensures result == warnings + Warn(ts, kind, message)
  {
    result := warnings;
    var m := 0;
    while m < |ts|
      invariant 0 <= m <= |ts|
      invariant result == warnings + Warn(ts[..m], kind, message)
    {
      assert ts[..m + 1] == ts[..m] + [ts[m]];
      WarnAppend(ts[..m], ts[m], kind, message);
      result := result + [ConstraintWarning(message, ts[m], kind)];
      m := m + 1;
    }
    assert ts[..m] == ts;
  }

  /** Rule 1: Vincent has more than five long work nights this week. */
  method CheckVincentEvenings(warnings: seq<ConstraintWarning>, weekTasks: seq<Task>) returns (result: seq<ConstraintWarning>)
    ensures result == warnings + VincentWarnings(weekTasks)
  {
    result := warnings;
    var vincentLateNights := Filter(weekTasks, IsVincentLate);
    if |vincentLateNights| > VincentEveningLimit {
      result := PushEach(result, vincentLateNights, VincentEvenings, VincentMessage);
    }
  }

  /** Rule 2: Jannes is scheduled for more than 15 hours this week. */
  method CheckJannesHours(warnings: seq<ConstraintWarning>, weekTasks: seq<Task>) returns (result: seq<ConstraintWarning>)
    ensures result == warnings + JannesHoursWarnings(weekTasks)
  {
    result := warnings;
    var jannesTasks := Filter(weekTasks, IsJannes);
    var jannesMinutes := TotalMinutes(jannesTasks);
    if OverJannesLimit(jannesMinutes) {
      result := PushEach(result, jannesTasks, JannesHours, JannesHoursMessage(jannesMinutes.value));
    }
  }

  /** Rule 3: Jannes works past 21:00 on a weekday evening. */
  method CheckJannesLateEvenings(warnings: seq<ConstraintWarning>, weekTasks: seq<Task>) returns (result: seq<ConstraintWarning>)
    ensures result == warnings + JannesLateWarnings(weekTasks)
  {
    var jannesLateEvenings := Filter(weekTasks, IsJannesLateEvening);
    result := PushEach(warnings, jannesLateEvenings, JannesLateEvenings, JannesLateMessage);
  }

  /** The three weekly rules on one bucket (the body of the `forEach` over
      the buckets), pushing onto `warnings`. */
  method CheckWeek(warnings: seq<ConstraintWarning>, weekTasks: seq<Task>) returns (result: seq<ConstraintWarning>)
    ensures result == warnings + WeekWarnings(weekTasks)
  {
    var afterVincent := CheckVincentEvenings(warnings, weekTasks);
    var afterHours := CheckJannesHours(afterVincent, weekTasks);
    result := CheckJannesLateEvenings(afterHours, weekTasks);
    ConcatAssociative(warnings, VincentWarnings(weekTasks), JannesHoursWarnings(weekTasks), JannesLateWarnings(weekTasks));
  }

  /** The `forEach` callback of rule 4: warns about `task` unless it falls
      on a Wednesday or a Friday. */
  method CheckBdDay(warnings: seq<ConstraintWarning>, task: Task) returns (result: seq<ConstraintWarning>)
    ensures result == warnings + (if IsOffBdDay(task) then [ConstraintWarning(PhysicalBdMessage, task, PhysicalBdDays)] else [])
  {
    result := warnings;
    var dayOfWeek := Weekday(task.date);
    if dayOfWeek != 3 && dayOfWeek != 5 {
      result := result + [ConstraintWarning(PhysicalBdMessage, task, PhysicalBdDays)];
    }
  }

  /** One turn of the rule-4 loop extends the warnings by those of one more
      task. */
  lemma PhysicalBdStep(warnings: seq<ConstraintWarning>, ts: seq<Task>, n: nat,
                       before: seq<ConstraintWarning>, after: seq<ConstraintWarning>)
    requires n < |ts|
    requires before == warnings + Warn(Filter(ts[..n], IsOffBdDay), PhysicalBdDays, PhysicalBdMessage)
    requires after == before + (if IsOffBdDay(ts[n]) then [ConstraintWarning(PhysicalBdMessage, ts[n], PhysicalBdDays)] else [])
    ensures after == warnings + Warn(Filter(ts[..n + 1], IsOffBdDay), PhysicalBdDays, PhysicalBdMessage)
  {
    assert ts[..n + 1] == ts[..n] + [ts[n]];
    WarnFilterStep(ts[..n], ts[n], IsOffBdDay, PhysicalBdDays, PhysicalBdMessage);
  }

  /** Rule 4 over all tasks: a warning for each physical-BD task that is
      not on a Wednesday or a Friday, pushed onto `warnings`. */
  method CheckPhysicalBd(warnings: seq<ConstraintWarning>, tasks: seq<Task>) returns (result: seq<ConstraintWarning>)
    ensures result == warnings + PhysicalBdWarnings(tasks)
  {
    result := warnings;
    var physicalBdTasks := Filter(tasks, HasPhysicalBd);
    var n := 0;
    while n < |physicalBdTasks|
      invariant 0 <= n <= |physicalBdTasks|
      invariant result == warnings + Warn(Filter(physicalBdTasks[..n], IsOffBdDay), PhysicalBdDays, PhysicalBdMessage)
    {
      ghost var before := result;
      result := CheckBdDay(result, physicalBdTasks[n]);
      PhysicalBdStep(warnings, physicalBdTasks, n, before, result);
      n := n + 1;
    }
    assert physicalBdTasks[..n] == physicalBdTasks;
  }

  /** One turn of the loop over the buckets extends the warnings by those of
      one more bucket. */
  lemma WeeklyStep(tasks: seq<Task>, keys: seq<WeekKey>, j: nat,
                   before: seq<ConstraintWarning>, after: seq<ConstraintWarning>)
    requires j < |keys|
    requires before == WeeklyWarnings(keys[..j], tasks)
    requires after == before + WeekWarnings(InWeek(tasks, keys[j]))
    ensures after == WeeklyWarnings(keys[..j + 1], tasks)
  {
    assert keys[..j + 1][..j] == keys[..j];
  }

  /** `checkConstraints`: group the tasks into week buckets, run the three
      weekly rules on each bucket in first-seen order, then the physical-BD
      rule on all tasks in input order, pushing onto one list. */
  method CheckConstraints(tasks: seq<Task>) returns (warnings: seq<ConstraintWarning>)
    ensures warnings == Warnings(tasks)
  {
    warnings := [];
    var keys, tasksByWeek := GroupByWeek(tasks);

    var j := 0;
    while j < |keys|
      invariant 0 <= j <= |keys|
      invariant warnings == WeeklyWarnings(keys[..j], tasks)
    {
      ghost var before := warnings;
      assert keys[j] in keys;
      warnings := CheckWeek(warnings, tasksByWeek[keys[j]]);
      WeeklyStep(tasks, keys, j, before, warnings);
      j := j + 1;
    }
    assert keys[..j] == keys;
    assert warnings == WeeklyWarnings(WeekKeys(tasks), tasks);

    warnings := CheckPhysicalBd(warnings, tasks);
  }
}
