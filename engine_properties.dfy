/** What `checkConstraints` promises, proved about the specification
    functions of ConstraintEngine (and so, through the method's postcondition,
    about the method). Counting statements use multiplicities, so a task that
    occurs twice in the input is accounted for twice. */
module ConstraintProperties {
  import opened Seqs
  import opened Calendar
  import opened Types
  import opened ConstraintEngine

  /** The tasks that the warnings of `kind` refer to, in emission order. */
  function Subjects(ws: seq<ConstraintWarning>, kind: WarningKind): seq<Task> {
    if ws == [] then [] else (if ws[0].kind == kind then [ws[0].task] else []) + Subjects(ws[1..], kind)
  }

  /** Some warning of `kind` in `ws` refers to `x`. */
  ghost predicate HasWarning(ws: seq<ConstraintWarning>, x: Task, kind: WarningKind) {
    exists w :: w in ws && w.task == x && w.kind == kind
  }

  /** Why a warning may be in the output: its task is an input task, the
      rule of its kind holds of that task in its week, and its message is
      that rule's message. */
  ghost predicate Justified(ts: seq<Task>, w: ConstraintWarning) {
    && w.task in ts
    && match w.kind
       case VincentEvenings =>
         IsVincentLate(w.task) && |Filter(WeekOf(ts, w.task), IsVincentLate)| > VincentEveningLimit
         && w.message == VincentMessage
       case JannesHours =>
         var total := TotalMinutes(Filter(WeekOf(ts, w.task), IsJannes));
         IsJannes(w.task) && OverJannesLimit(total) && w.message == JannesHoursMessage(total.value)
       case JannesLateEvenings =>
         IsJannesLateEvening(w.task) && w.message == JannesLateMessage
       case PhysicalBdDays =>
         IsMisplacedBd(w.task) && w.message == PhysicalBdMessage
  }

  // ---------------------------------------------------------------------
  // Helpers about Subjects and Warn
  // ---------------------------------------------------------------------

  lemma {:induction false} SubjectsConcat(a: seq<ConstraintWarning>, b: seq<ConstraintWarning>, kind: WarningKind)
    ensures Subjects(a + b, kind) == Subjects(a, kind) + Subjects(b, kind)
  {
    if a == [] {
      assert a + b == b;
    } else {
      assert (a + b)[0] == a[0];
      assert (a + b)[1..] == a[1..] + b;
      SubjectsConcat(a[1..], b, kind);
    }
  }

  lemma {:induction false} SubjectsMember(ws: seq<ConstraintWarning>, kind: WarningKind, x: Task)
    ensures x in Subjects(ws, kind) <==> HasWarning(ws, x, kind)
  {
    if ws != [] {
      SubjectsMember(ws[1..], kind, x);
      assert ws == [ws[0]] + ws[1..];
      if HasWarning(ws, x, kind) {
        var w :| w in ws && w.task == x && w.kind == kind;
        if w != ws[0] {
          assert w in ws[1..];
        }
      }
    }
  }

  lemma {:induction false} SubjectsWarn(ts: seq<Task>, kind: WarningKind, message: string, k: WarningKind)
    ensures Subjects(Warn(ts, kind, message), k) == if k == kind then ts else []
  {
    if ts != [] {
      var init := ts[..|ts| - 1];
      var w := ConstraintWarning(message, ts[|ts| - 1], kind);
      SubjectsWarn(init, kind, message, k);
      SubjectsConcat(Warn(init, kind, message), [w], k);
      assert [w][1..] == [];
      assert ts == init + [ts[|ts| - 1]];
    }
  }

  lemma {:induction false} WarnMember(ts: seq<Task>, kind: WarningKind, message: string, w: ConstraintWarning)
    requires w in Warn(ts, kind, message)
    ensures w.task in ts && w.kind == kind && w.message == message
  {
    var init := ts[..|ts| - 1];
    if w != ConstraintWarning(message, ts[|ts| - 1], kind) {
      WarnMember(init, kind, message, w);
    }
  }

  // ---------------------------------------------------------------------
  // One bucket
  // ---------------------------------------------------------------------

  lemma WeekSubjectsSplit(b: seq<Task>, k: WarningKind)
    ensures Subjects(WeekWarnings(b), k)
            == Subjects(VincentWarnings(b), k) + Subjects(JannesHoursWarnings(b), k) + Subjects(JannesLateWarnings(b), k)
  {
    SubjectsConcat(VincentWarnings(b) + JannesHoursWarnings(b), JannesLateWarnings(b), k);
    SubjectsConcat(VincentWarnings(b), JannesHoursWarnings(b), k);
  }

  lemma VincentPart(b: seq<Task>, k: WarningKind)
    ensures Subjects(VincentWarnings(b), k)
            == if k == VincentEvenings && |Filter(b, IsVincentLate)| > VincentEveningLimit then Filter(b, IsVincentLate) else []
  {
    var late := Filter(b, IsVincentLate);
    if |late| > VincentEveningLimit {
      SubjectsWarn(late, VincentEvenings, VincentMessage, k);
    }
  }

  lemma JannesHoursPart(b: seq<Task>, k: WarningKind)
    ensures Subjects(JannesHoursWarnings(b), k)
            == if k == JannesHours && OverJannesLimit(TotalMinutes(Filter(b, IsJannes))) then Filter(b, IsJannes) else []
  {
    var jannes := Filter(b, IsJannes);
    var total := TotalMinutes(jannes);
    if OverJannesLimit(total) {
      SubjectsWarn(jannes, JannesHours, JannesHoursMessage(total.value), k);
    }
  }

  lemma JannesLatePart(b: seq<Task>, k: WarningKind)
    ensures Subjects(JannesLateWarnings(b), k) == if k == JannesLateEvenings then Filter(b, IsJannesLateEvening) else []
  {
    SubjectsWarn(Filter(b, IsJannesLateEvening), JannesLateEvenings, JannesLateMessage, k);
  }

  /** The subjects of each weekly rule on one bucket. */
  lemma VincentSubjects(b: seq<Task>)
    ensures Subjects(WeekWarnings(b), VincentEvenings)
            == if |Filter(b, IsVincentLate)| > VincentEveningLimit then Filter(b, IsVincentLate) else []
  {
    WeekSubjectsSplit(b, VincentEvenings);
    VincentPart(b, VincentEvenings);
    JannesHoursPart(b, VincentEvenings);
    JannesLatePart(b, VincentEvenings);
    ConcatWithEmpty(Subjects(VincentWarnings(b), VincentEvenings), Subjects(JannesHoursWarnings(b), VincentEvenings), Subjects(JannesLateWarnings(b), VincentEvenings));
  }

  lemma JannesHoursSubjects(b: seq<Task>)
    ensures Subjects(WeekWarnings(b), JannesHours)
            == if OverJannesLimit(TotalMinutes(Filter(b, IsJannes))) then Filter(b, IsJannes) else []
  {
    WeekSubjectsSplit(b, JannesHours);
    VincentPart(b, JannesHours);
    JannesHoursPart(b, JannesHours);
    JannesLatePart(b, JannesHours);
    ConcatWithEmpty(Subjects(VincentWarnings(b), JannesHours), Subjects(JannesHoursWarnings(b), JannesHours), Subjects(JannesLateWarnings(b), JannesHours));
  }

  lemma JannesLateSubjects(b: seq<Task>)
    ensures Subjects(WeekWarnings(b), JannesLateEvenings) == Filter(b, IsJannesLateEvening)
  {
    WeekSubjectsSplit(b, JannesLateEvenings);
    VincentPart(b, JannesLateEvenings);
    JannesHoursPart(b, JannesLateEvenings);
    JannesLatePart(b, JannesLateEvenings);
    ConcatWithEmpty(Subjects(VincentWarnings(b), JannesLateEvenings), Subjects(JannesHoursWarnings(b), JannesLateEvenings), Subjects(JannesLateWarnings(b), JannesLateEvenings));
  }

  lemma PhysicalBdNotWeekly(b: seq<Task>)
    ensures Subjects(WeekWarnings(b), PhysicalBdDays) == []
  {
    WeekSubjectsSplit(b, PhysicalBdDays);
    VincentPart(b, PhysicalBdDays);
    JannesHoursPart(b, PhysicalBdDays);
    JannesLatePart(b, PhysicalBdDays);
    ConcatWithEmpty(Subjects(VincentWarnings(b), PhysicalBdDays), Subjects(JannesHoursWarnings(b), PhysicalBdDays), Subjects(JannesLateWarnings(b), PhysicalBdDays));
  }

  /** Every warning of a bucket is justified by that bucket. */
  lemma WeekMember(b: seq<Task>, w: ConstraintWarning)
    requires w in WeekWarnings(b)
    ensures w.task in b
    ensures w.kind == VincentEvenings ==>
              IsVincentLate(w.task) && |Filter(b, IsVincentLate)| > VincentEveningLimit && w.message == VincentMessage
    ensures w.kind == JannesHours ==>
              IsJannes(w.task) && OverJannesLimit(TotalMinutes(Filter(b, IsJannes)))
              && w.message == JannesHoursMessage(TotalMinutes(Filter(b, IsJannes)).value)
    ensures w.kind == JannesLateEvenings ==> IsJannesLateEvening(w.task) && w.message == JannesLateMessage
    ensures w.kind != PhysicalBdDays
  {
    var late := Filter(b, IsVincentLate);
    var jannes := Filter(b, IsJannes);
    var total := TotalMinutes(jannes);
    if w in VincentWarnings(b) {
      WarnMember(late, VincentEvenings, VincentMessage, w);
    } else if w in JannesHoursWarnings(b) {
      WarnMember(jannes, JannesHours, JannesHoursMessage(total.value), w);
    } else {
      WarnMember(Filter(b, IsJannesLateEvening), JannesLateEvenings, JannesLateMessage, w);
    }
  }

  // ---------------------------------------------------------------------
  // Grouping
  // ---------------------------------------------------------------------

  /** A task occurs in the bucket of its own key as often as in the input,
      and in no other bucket. */
  lemma InWeekCount(ts: seq<Task>, k: WeekKey, x: Task)
    ensures multiset(InWeek(ts, k))[x] == if KeyOf(x) == k then multiset(ts)[x] else 0
  {
    FilterCount(ts, InWeekOf(k), x);
  }

  lemma WeekKeysDistinct(ts: seq<Task>)
    ensures Distinct(WeekKeys(ts))
  {
    DedupDistinct(Keys(ts));
  }

  /** Every bucket key comes from some task. */
  lemma WeekKeysOccupied(ts: seq<Task>, k: WeekKey)
    requires k in WeekKeys(ts)
    ensures exists t :: t in ts && KeyOf(t) == k
  {
    DedupMember(Keys(ts), k);
    var i :| 0 <= i < |ts| && Keys(ts)[i] == k;
    assert ts[i] in ts;
  }

  /** Every task lands in a bucket: its key is one of the bucket keys. */
  lemma EveryTaskBucketed(ts: seq<Task>)
    ensures forall t :: t in ts ==> KeyOf(t) in WeekKeys(ts)
  {
    forall t | t in ts
      ensures KeyOf(t) in WeekKeys(ts)
    {
      WeekKeysCover(ts, t);
    }
  }

  /** No bucket is empty. */
  lemma BucketsNonEmpty(ts: seq<Task>, k: WeekKey)
    requires k in WeekKeys(ts)
    ensures InWeek(ts, k) != []
  {
    WeekKeysOccupied(ts, k);
    var t :| t in ts && KeyOf(t) == k;
    InWeekCount(ts, k, t);
  }

  /** A bucket keeps its tasks in input order. */
  lemma BucketKeepsOrder(ts: seq<Task>, k: WeekKey)
    ensures IsSubsequence(InWeek(ts, k), ts)
  {
    FilterIsSubsequence(ts, InWeekOf(k));
  }

  /** Buckets are visited in first-seen order: when bucket `i` comes before
      bucket `j`, some task of bucket `i` comes before every task of bucket `j`. */
  lemma WeekKeysFirstSeen(ts: seq<Task>, i: int, j: int, q: int)
    requires 0 <= i < j < |WeekKeys(ts)|
    requires 0 <= q < |ts| && KeyOf(ts[q]) == WeekKeys(ts)[j]
    ensures exists p :: 0 <= p < q && KeyOf(ts[p]) == WeekKeys(ts)[i]
  {
    assert Keys(ts)[q] == KeyOf(ts[q]);
    DedupFirstSeen(Keys(ts), i, j, q);
    var p :| 0 <= p < q && Keys(ts)[p] == WeekKeys(ts)[i];
    assert KeyOf(ts[p]) == Keys(ts)[p];
  }
  // ---------------------------------------------------------------------
  // From buckets to the whole output
  // ---------------------------------------------------------------------

  /** A bucket's warnings refer only to the bucket's tasks. */
  lemma SubjectsInBucket(b: seq<Task>, kind: WarningKind, x: Task)
    requires x !in b
    ensures multiset(Subjects(WeekWarnings(b), kind))[x] == 0
  {
    SubjectsMember(WeekWarnings(b), kind, x);
    if HasWarning(WeekWarnings(b), x, kind) {
      var w :| w in WeekWarnings(b) && w.task == x && w.kind == kind;
      WeekMember(b, w);
    }
  }

  /** The bucket of another key never warns about `x`. */
  lemma OtherBucket(ts: seq<Task>, k: WeekKey, kind: WarningKind, x: Task)
    requires KeyOf(x) != k
    ensures multiset(Subjects(WeekWarnings(InWeek(ts, k)), kind))[x] == 0
  {
    InWeekCount(ts, k, x);
    SubjectsInBucket(InWeek(ts, k), kind, x);
  }

  /** The weekly warnings about `x` add up bucket by bucket. */
  lemma WeeklyCountStep(ks: seq<WeekKey>, ts: seq<Task>, kind: WarningKind, x: Task)
    requires ks != []
    ensures multiset(Subjects(WeeklyWarnings(ks, ts), kind))[x]
            == multiset(Subjects(WeeklyWarnings(ks[..|ks| - 1], ts), kind))[x]
               + multiset(Subjects(WeekWarnings(InWeek(ts, ks[|ks| - 1])), kind))[x]
  {
    SubjectsConcat(WeeklyWarnings(ks[..|ks| - 1], ts), WeekWarnings(InWeek(ts, ks[|ks| - 1])), kind);
  }

  /** Over distinct keys, the weekly warnings about `x` are those of the
      bucket of `x`'s own key, if that key is visited. */
  lemma {:induction false} WeeklyCount(ks: seq<WeekKey>, ts: seq<Task>, kind: WarningKind, x: Task)
    requires Distinct(ks)
    ensures multiset(Subjects(WeeklyWarnings(ks, ts), kind))[x]
            == if KeyOf(x) in ks then multiset(Subjects(WeekWarnings(WeekOf(ts, x)), kind))[x] else 0
  {
    if ks != [] {
      var init := ks[..|ks| - 1];
      var k := ks[|ks| - 1];
      DistinctPrefix(ks);
      WeeklyCount(init, ts, kind, x);
      WeeklyCountStep(ks, ts, kind, x);
      InSplit(ks, KeyOf(x));
      if KeyOf(x) != k {
        OtherBucket(ts, k, kind, x);
      }
    }
  }

  lemma {:induction false} WeeklyNoPhysicalBd(ks: seq<WeekKey>, ts: seq<Task>)
    ensures Subjects(WeeklyWarnings(ks, ts), PhysicalBdDays) == []
  {
    if ks != [] {
      var init := ks[..|ks| - 1];
      WeeklyNoPhysicalBd(init, ts);
      SubjectsConcat(WeeklyWarnings(init, ts), WeekWarnings(InWeek(ts, ks[|ks| - 1])), PhysicalBdDays);
      PhysicalBdNotWeekly(InWeek(ts, ks[|ks| - 1]));
    }
  }

  /** For a weekly rule, the warnings about `x` in the whole output are the
      ones its own bucket produces. */
  lemma WarningsCount(ts: seq<Task>, kind: WarningKind, x: Task)
    requires kind != PhysicalBdDays
    ensures multiset(Subjects(Warnings(ts), kind))[x] == multiset(Subjects(WeekWarnings(WeekOf(ts, x)), kind))[x]
  {
    var bd := Filter(Filter(ts, HasPhysicalBd), IsOffBdDay);
    SubjectsConcat(WeeklyWarnings(WeekKeys(ts), ts), PhysicalBdWarnings(ts), kind);
    SubjectsWarn(bd, PhysicalBdDays, PhysicalBdMessage, kind);
    WeekKeysDistinct(ts);
    WeeklyCount(WeekKeys(ts), ts, kind, x);
    if KeyOf(x) !in WeekKeys(ts) {
      if x in ts {
        WeekKeysCover(ts, x);
      }
      InWeekCount(ts, KeyOf(x), x);
      SubjectsInBucket(WeekOf(ts, x), kind, x);
    }
  }

  // ---------------------------------------------------------------------
  // Exactly who is warned, rule by rule
  // ---------------------------------------------------------------------

  /** `vincent-evenings`: a late Vincent task is warned about (once per
      occurrence) exactly when its week holds more than five of them; no
      other task ever is. */
  lemma VincentEveningsExactly(ts: seq<Task>, x: Task)
    ensures multiset(Subjects(Warnings(ts), VincentEvenings))[x]
            == if IsVincentLate(x) && |Filter(WeekOf(ts, x), IsVincentLate)| > VincentEveningLimit
               then multiset(ts)[x] else 0
  {
    var b := WeekOf(ts, x);
    WarningsCount(ts, VincentEvenings, x);
    VincentSubjects(b);
    FilterCount(b, IsVincentLate, x);
    InWeekCount(ts, KeyOf(x), x);
  }

  /** `jannes-hours`: every Jannes task of a week whose total exceeds 15
      hours is warned about; with a total of 15 hours or less, or with an
      unparsable time, none is; no other task ever is. */
  lemma JannesHoursExactly(ts: seq<Task>, x: Task)
    ensures multiset(Subjects(Warnings(ts), JannesHours))[x]
            == if IsJannes(x) && OverJannesLimit(TotalMinutes(Filter(WeekOf(ts, x), IsJannes)))
               then multiset(ts)[x] else 0
  {
    var b := WeekOf(ts, x);
    WarningsCount(ts, JannesHours, x);
    JannesHoursSubjects(b);
    FilterCount(b, IsJannes, x);
    InWeekCount(ts, KeyOf(x), x);
  }

  /** `jannes-late-evenings`: exactly the Jannes tasks on Monday to Friday
      ending at 21:00 or later, whatever their week's hours. */
  lemma JannesLateExactly(ts: seq<Task>, x: Task)
    ensures multiset(Subjects(Warnings(ts), JannesLateEvenings))[x]
            == if IsJannesLateEvening(x) then multiset(ts)[x] else 0
  {
    var b := WeekOf(ts, x);
    WarningsCount(ts, JannesLateEvenings, x);
    JannesLateSubjects(b);
    FilterCount(b, IsJannesLateEvening, x);
    InWeekCount(ts, KeyOf(x), x);
  }

  /** `physical-bd-days`: exactly the physical-BD tasks not on a Wednesday
      or Friday, in input order, whoever they belong to. */
  lemma PhysicalBdExactly(ts: seq<Task>)
    ensures Subjects(Warnings(ts), PhysicalBdDays) == Filter(ts, IsMisplacedBd)
  {
    var bd := Filter(Filter(ts, HasPhysicalBd), IsOffBdDay);
    SubjectsConcat(WeeklyWarnings(WeekKeys(ts), ts), PhysicalBdWarnings(ts), PhysicalBdDays);
    SubjectsWarn(bd, PhysicalBdDays, PhysicalBdMessage, PhysicalBdDays);
    WeeklyNoPhysicalBd(WeekKeys(ts), ts);
    FilterFilter(ts, HasPhysicalBd, IsOffBdDay, IsMisplacedBd);
  }

  /** No occurrence of a task gets two warnings of the same kind. */
  lemma AtMostOncePerKind(ts: seq<Task>, kind: WarningKind, x: Task)
    ensures multiset(Subjects(Warnings(ts), kind))[x] <= multiset(ts)[x]
  {
    match kind
    case VincentEvenings => VincentEveningsExactly(ts, x);
    case JannesHours => JannesHoursExactly(ts, x);
    case JannesLateEvenings => JannesLateExactly(ts, x);
    case PhysicalBdDays =>
      PhysicalBdExactly(ts);
      FilterCount(ts, IsMisplacedBd, x);
  }

  // ---------------------------------------------------------------------
  // Every warning is justified
  // ---------------------------------------------------------------------

  lemma {:induction false} WeeklyMember(ks: seq<WeekKey>, ts: seq<Task>, w: ConstraintWarning)
    requires w in WeeklyWarnings(ks, ts)
    ensures exists k :: k in ks && w in WeekWarnings(InWeek(ts, k))
  {
    var init := ks[..|ks| - 1];
    var k := ks[|ks| - 1];
    if w !in WeekWarnings(InWeek(ts, k)) {
      WeeklyMember(init, ts, w);
      var k' :| k' in init && w in WeekWarnings(InWeek(ts, k'));
      assert k' in ks;
    }
  }

  lemma WeeklyJustified(ts: seq<Task>, w: ConstraintWarning)
    requires w in WeeklyWarnings(WeekKeys(ts), ts)
    ensures Justified(ts, w)
  {
    WeeklyMember(WeekKeys(ts), ts, w);
    var k :| k in WeekKeys(ts) && w in WeekWarnings(InWeek(ts, k));
    WeekMember(InWeek(ts, k), w);
    assert KeyOf(w.task) == k;
  }

  /** Every warning refers to an input task, which breaks the rule the
      warning's kind names, and carries that rule's message. */
  lemma WarningJustified(ts: seq<Task>, w: ConstraintWarning)
    requires w in Warnings(ts)
    ensures Justified(ts, w)
  {
    if w in WeeklyWarnings(WeekKeys(ts), ts) {
      WeeklyJustified(ts, w);
    } else {
      var bd := Filter(Filter(ts, HasPhysicalBd), IsOffBdDay);
      WarnMember(bd, PhysicalBdDays, PhysicalBdMessage, w);
    }
  }

  /** Joy and Partners are never subject to the weekly rules. */
  lemma OthersOnlyPhysicalBd(ts: seq<Task>, w: ConstraintWarning)
    requires w in Warnings(ts)
    requires w.task.assignee == Joy || w.task.assignee == Partners
    ensures w.kind == PhysicalBdDays
  {
    WarningJustified(ts, w);
  }

  /** All `jannes-hours` warnings of one week carry the same message. */
  lemma JannesHoursOneMessage(ts: seq<Task>, w1: ConstraintWarning, w2: ConstraintWarning)
    requires w1 in Warnings(ts) && w2 in Warnings(ts)
    requires w1.kind == JannesHours && w2.kind == JannesHours
    requires KeyOf(w1.task) == KeyOf(w2.task)
    ensures w1.message == w2.message
  {
    WarningJustified(ts, w1);
    WarningJustified(ts, w2);
  }

  /** The engine never fails and finds nothing to say about no tasks. */
  lemma {:induction false} EmptyInput()
    ensures Warnings([]) == []
  {
    assert Keys([]) == [];
  }
  // ---------------------------------------------------------------------
  // Output order
  // ---------------------------------------------------------------------

  /** Position of a rule in the source's order of checks. */
  function Rank(kind: WarningKind): nat {
    match kind
    case VincentEvenings => 0
    case JannesHours => 1
    case JannesLateEvenings => 2
    case PhysicalBdDays => 3
  }

  /** `Warn` emits, at position `i`, the warning for the `i`-th task. */
  lemma {:induction false} WarnAt(ts: seq<Task>, kind: WarningKind, message: string, i: int)
    requires 0 <= i < |ts|
    ensures |Warn(ts, kind, message)| == |ts|
    ensures Warn(ts, kind, message)[i] == ConstraintWarning(message, ts[i], kind)
  {
    var init := ts[..|ts| - 1];
    if i < |init| {
      WarnAt(init, kind, message, i);
    } else if init != [] {
      WarnAt(init, kind, message, 0);
    }
  }

  lemma {:induction false} WarnLength(ts: seq<Task>, kind: WarningKind, message: string)
    ensures |Warn(ts, kind, message)| == |ts|
  {
    if ts != [] {
      WarnLength(ts[..|ts| - 1], kind, message);
    }
  }

  /** All warnings of one rule's `Warn` have that rule's kind. */
  lemma WarnKindAt(ts: seq<Task>, kind: WarningKind, message: string, i: int)
    requires 0 <= i < |Warn(ts, kind, message)|
    ensures Warn(ts, kind, message)[i].kind == kind
  {
    WarnLength(ts, kind, message);
    WarnAt(ts, kind, message, i);
  }

  /** Every warning of a list has kind `kind`. */
  ghost predicate AllOfKind(ws: seq<ConstraintWarning>, kind: WarningKind) {
    forall i :: 0 <= i < |ws| ==> ws[i].kind == kind
  }

  lemma WarnKinds(ts: seq<Task>, kind: WarningKind, message: string)
    ensures AllOfKind(Warn(ts, kind, message), kind)
  {
    forall i | 0 <= i < |Warn(ts, kind, message)|
      ensures Warn(ts, kind, message)[i].kind == kind
    {
      WarnKindAt(ts, kind, message, i);
    }
  }

  lemma WeekPartKinds(b: seq<Task>)
    ensures AllOfKind(VincentWarnings(b), VincentEvenings)
    ensures AllOfKind(JannesHoursWarnings(b), JannesHours)
    ensures AllOfKind(JannesLateWarnings(b), JannesLateEvenings)
  {
    var late := Filter(b, IsVincentLate);
    var jannes := Filter(b, IsJannes);
    var total := TotalMinutes(jannes);
    WarnKinds(late, VincentEvenings, VincentMessage);
    if OverJannesLimit(total) {
      WarnKinds(jannes, JannesHours, JannesHoursMessage(total.value));
    }
    WarnKinds(Filter(b, IsJannesLateEvening), JannesLateEvenings, JannesLateMessage);
  }

  /** Three single-kind parts in rank order make a list whose ranks never
      decrease. */
  lemma RankedParts(v: seq<ConstraintWarning>, h: seq<ConstraintWarning>, l: seq<ConstraintWarning>, i: int, j: int)
    requires AllOfKind(v, VincentEvenings) && AllOfKind(h, JannesHours) && AllOfKind(l, JannesLateEvenings)
    requires 0 <= i < j < |v + h + l|
    ensures Rank((v + h + l)[i].kind) <= Rank((v + h + l)[j].kind)
  {
    var ws := v + h + l;
    if j < |v| {
      assert ws[i] == v[i] && ws[j] == v[j];
    } else if j < |v| + |h| {
      assert ws[j] == h[j - |v|];
      if i >= |v| {
        assert ws[i] == h[i - |v|];
      } else {
        assert ws[i] == v[i];
      }
    } else {
      assert ws[j] == l[j - |v| - |h|];
    }
  }

  /** Within a bucket: all `vincent-evenings`, then all `jannes-hours`, then
      all `jannes-late-evenings`. */
  lemma WeekKindsOrdered(b: seq<Task>, i: int, j: int)
    requires 0 <= i < j < |WeekWarnings(b)|
    ensures Rank(WeekWarnings(b)[i].kind) <= Rank(WeekWarnings(b)[j].kind)
  {
    WeekPartKinds(b);
    RankedParts(VincentWarnings(b), JannesHoursWarnings(b), JannesLateWarnings(b), i, j);
  }

  lemma WeeklyKind(ks: seq<WeekKey>, ts: seq<Task>, w: ConstraintWarning)
    requires w in WeeklyWarnings(ks, ts)
    ensures w.kind != PhysicalBdDays
  {
    WeeklyMember(ks, ts, w);
    var k :| k in ks && w in WeekWarnings(InWeek(ts, k));
    WeekMember(InWeek(ts, k), w);
  }

  lemma WeeklyKinds(ts: seq<Task>)
    ensures forall w :: w in WeeklyWarnings(WeekKeys(ts), ts) ==> w.kind != PhysicalBdDays
  {
    forall w | w in WeeklyWarnings(WeekKeys(ts), ts)
      ensures w.kind != PhysicalBdDays
    {
      WeeklyKind(WeekKeys(ts), ts, w);
    }
  }

  lemma PhysicalBdKinds(ts: seq<Task>)
    ensures forall j :: 0 <= j < |PhysicalBdWarnings(ts)| ==> PhysicalBdWarnings(ts)[j].kind == PhysicalBdDays
  {
    forall j | 0 <= j < |PhysicalBdWarnings(ts)|
      ensures PhysicalBdWarnings(ts)[j].kind == PhysicalBdDays
    {
      WarnKindAt(Filter(Filter(ts, HasPhysicalBd), IsOffBdDay), PhysicalBdDays, PhysicalBdMessage, j);
    }
  }

  /** In a list made of a part without `physical-bd-days` warnings followed
      by a part of only such warnings, the kind tells the part. */
  lemma SplitKinds(weekly: seq<ConstraintWarning>, bd: seq<ConstraintWarning>, i: int)
    requires 0 <= i < |weekly + bd|
    requires forall w :: w in weekly ==> w.kind != PhysicalBdDays
    requires forall j :: 0 <= j < |bd| ==> bd[j].kind == PhysicalBdDays
    ensures (weekly + bd)[i].kind == PhysicalBdDays <==> i >= |weekly|
  {
    if i < |weekly| {
      assert (weekly + bd)[i] == weekly[i];
    } else {
      assert (weekly + bd)[i] == bd[i - |weekly|];
    }
  }

  /** Where the weekly part of the output ends. */
  lemma PhysicalBdOnlyAfter(ts: seq<Task>, i: int)
    requires 0 <= i < |Warnings(ts)|
    ensures Warnings(ts)[i].kind == PhysicalBdDays <==> i >= |WeeklyWarnings(WeekKeys(ts), ts)|
  {
    WeeklyKinds(ts);
    PhysicalBdKinds(ts);
    SplitKinds(WeeklyWarnings(WeekKeys(ts), ts), PhysicalBdWarnings(ts), i);
  }

  /** `physical-bd-days` warnings come after every weekly warning. */
  lemma PhysicalBdLast(ts: seq<Task>, i: int, j: int)
    requires 0 <= i < j < |Warnings(ts)|
    requires Warnings(ts)[i].kind == PhysicalBdDays
    ensures Warnings(ts)[j].kind == PhysicalBdDays
  {
    PhysicalBdOnlyAfter(ts, i);
    PhysicalBdOnlyAfter(ts, j);
  }

  /** A NaN total comes from, and only from, a task with an unparsable time. */
  lemma {:induction false} TotalMinutesNaN(ts: seq<Task>)
    ensures TotalMinutes(ts).None? <==> exists i :: 0 <= i < |ts| && Duration(ts[i]).None?
  {
    if ts != [] {
      TotalMinutesNaN(ts[1..]);
      if exists i :: 0 <= i < |ts[1..]| && Duration(ts[1..][i]).None? {
        var i :| 0 <= i < |ts[1..]| && Duration(ts[1..][i]).None?;
        assert ts[i + 1] == ts[1..][i];
      }
      if exists i :: 0 <= i < |ts| && Duration(ts[i]).None? {
        var i :| 0 <= i < |ts| && Duration(ts[i]).None?;
        if i > 0 {
          assert ts[1..][i - 1] == ts[i];
        }
      }
    }
  }
}
