/** The reminder policy: which reminders a task wants at a given instant. */
module ReminderPolicy {
  import opened Wrappers
  import opened LocalTime
  import opened Math
  import opened TaskStore

  datatype ReminderKind =
    | PreDeadline3D | PreDeadline1D | PreDeadline3H | Deadline | Overdue2H | Overdue | Overdue1D
    | OverdueDaily | AwaitingFollowUp | StatusCheck

  /** Unique key of a reminder row.  Policy and Daily are the keys the planner makes. */
  datatype DedupeKey =
    | Policy(task: nat, kind: ReminderKind)
    | Daily(task: nat, date: int)
    | Manual(task: nat, at: int)
    | FollowUp(task: nat, at: int)
    | Operation(key: OpKey)

  datatype ReminderSpec = ReminderSpec(remindAt: int, kind: ReminderKind, key: DedupeKey)

  predicate IsPolicyKey(key: DedupeKey, task: nat) {
    (key.Policy? || key.Daily?) && key.task == task
  }

  function PolicyOffsets(p: Priority): seq<(ReminderKind, int)> {
    match p
    case P1 => [(PreDeadline3D, -3 * DAY), (PreDeadline1D, -DAY), (PreDeadline3H, -3 * HOUR),
                (Deadline, 0), (Overdue2H, 2 * HOUR)]
    case P2 => [(PreDeadline1D, -DAY), (Deadline, 0), (ReminderKind.Overdue, 2 * HOUR)]
    case P3 => [(Deadline, 0), (Overdue1D, DAY)]
    case P4 => []
  }

  /** A deadline reminder is dropped once its time is over a minute past, except
      for the two overdue kinds that are always kept. */
  predicate IsKept(kind: ReminderKind, remindAt: int, now: int) {
    now - MINUTE <= remindAt || kind == ReminderKind.Overdue || kind == Overdue1D
  }

  function OffsetSpecs(id: nat, offsets: seq<(ReminderKind, int)>, due: int, now: int): seq<ReminderSpec> {
    if offsets == [] then []
    else
      var (kind, delta) := offsets[|offsets| - 1];
      OffsetSpecs(id, offsets[..|offsets| - 1], due, now) +
      if IsKept(kind, due + delta, now) then [ReminderSpec(Max(due + delta, now), kind, Policy(id, kind))] else []
  }

  predicate IsDailyDue(f: Fields, due: int, now: int, offset: int) {
    LocalDate(now, offset) > LocalDate(due, offset) + if f.priority == P3 then 1 else 0
  }

  function DailySpecs(id: nat, f: Fields, due: int, now: int, offset: int): seq<ReminderSpec> {
    if IsDailyDue(f, due, now, offset)
    then [ReminderSpec(now, OverdueDaily, Daily(id, LocalDate(now, offset)))] else []
  }

  function FollowUpSpecs(id: nat, f: Fields, due: int, now: int): seq<ReminderSpec> {
    if f.taskType == Awaiting
    then [ReminderSpec(Max(due + DAY, now), AwaitingFollowUp, Policy(id, AwaitingFollowUp))] else []
  }

  /** The reminders that task `id` with columns `f` wants at instant `now`. */
  function Specs(id: nat, f: Fields, now: int, offset: int): seq<ReminderSpec> {
    if !IsActive(f.status) || f.dueAt.None? || f.priority == P4 then []
    else
      var due := f.dueAt.value;
      OffsetSpecs(id, PolicyOffsets(f.priority), due, now)
      + DailySpecs(id, f, due, now, offset)
      + FollowUpSpecs(id, f, due, now)
  }

  /** The policy as the program computes it, appending to a list. */
  method ReminderSpecs(id: nat, f: Fields, now: int, offset: int) returns (specs: seq<ReminderSpec>)
    ensures specs == Specs(id, f, now, offset)
  {
    if !IsActive(f.status) || f.dueAt.None? {
      return [];
    }
    if f.priority == P4 {
      return [];
    }
    var due := f.dueAt.value;
    specs := [];
    var offsets := PolicyOffsets(f.priority);
    for i := 0 to |offsets|
      invariant specs == OffsetSpecs(id, offsets[..i], due, now)
    {
      assert offsets[..i + 1][..i] == offsets[..i];
      var (kind, delta) := offsets[i];
      var remindAt := due + delta;
      if remindAt < now - MINUTE && kind !in {ReminderKind.Overdue, Overdue1D} {
        continue;
      }
      specs := specs + [ReminderSpec(Max(remindAt, now), kind, Policy(id, kind))];
    }
    assert offsets[..|offsets|] == offsets;
    var today := LocalDate(now, offset);
    var dailyStart := LocalDate(due, offset) + if f.priority == P3 then 1 else 0;
    if today > dailyStart {
      specs := specs + [ReminderSpec(now, OverdueDaily, Daily(id, today))];
    }
    if f.taskType == Awaiting {
      var followUpAt := due + DAY;
      if followUpAt <= now {
        followUpAt := now;
      }
      specs := specs + [ReminderSpec(followUpAt, AwaitingFollowUp, Policy(id, AwaitingFollowUp))];
    }
  }

  /******* Wanted keys *******/

  predicate Wants(specs: seq<ReminderSpec>, key: DedupeKey) {
    exists i :: 0 <= i < |specs| && specs[i].key == key
  }

  ghost predicate DistinctKeys(specs: seq<ReminderSpec>) {
    forall i, j :: 0 <= i < j < |specs| ==> specs[i].key != specs[j].key
  }

  /** The offset, relative to the deadline, of a deadline reminder. */
  function NominalOffset(p: Priority, kind: ReminderKind): Option<int> {
    match (p, kind)
    case (P1, PreDeadline3D) => Some(-3 * DAY)
    case (P1, PreDeadline1D) => Some(-DAY)
    case (P1, PreDeadline3H) => Some(-3 * HOUR)
    case (P1, Deadline) => Some(0)
    case (P1, Overdue2H) => Some(2 * HOUR)
    case (P2, PreDeadline1D) => Some(-DAY)
    case (P2, Deadline) => Some(0)
    case (P2, Overdue) => Some(2 * HOUR)
    case (P3, Deadline) => Some(0)
    case (P3, Overdue1D) => Some(DAY)
    case _ => None
  }

  lemma OffsetSpecsKeys(id: nat, offsets: seq<(ReminderKind, int)>, due: int, now: int)
    requires forall i, j :: 0 <= i < j < |offsets| ==> offsets[i].0 != offsets[j].0
    ensures var specs := OffsetSpecs(id, offsets, due, now);
            && DistinctKeys(specs)
            && (forall i :: 0 <= i < |specs| ==> specs[i].key == Policy(id, specs[i].kind) && specs[i].remindAt >= now)
            && (forall i :: 0 <= i < |specs| ==> exists k :: 0 <= k < |offsets| && offsets[k].0 == specs[i].kind
                                                              && specs[i].remindAt == Max(due + offsets[k].1, now))
  {
    if offsets != [] {
      var front := offsets[..|offsets| - 1];
      var rest := OffsetSpecs(id, front, due, now);
      var (kind, delta) := offsets[|offsets| - 1];
      OffsetSpecsKeys(id, front, due, now);
      var specs := OffsetSpecs(id, offsets, due, now);
      forall i | 0 <= i < |specs|
        ensures exists k :: 0 <= k < |offsets| && offsets[k].0 == specs[i].kind
                            && specs[i].remindAt == Max(due + offsets[k].1, now)
      {
        if i < |rest| {
          var k :| 0 <= k < |front| && front[k].0 == rest[i].kind && rest[i].remindAt == Max(due + front[k].1, now);
          assert offsets[k].0 == specs[i].kind;
        } else {
          assert offsets[|offsets| - 1].0 == specs[i].kind;
        }
      }
    }
  }

  /** Which of the offsets are asked for. */
  lemma OffsetsAskedFor(id: nat, offsets: seq<(ReminderKind, int)>, due: int, now: int, k: nat)
    requires forall i, j :: 0 <= i < j < |offsets| ==> offsets[i].0 != offsets[j].0
    requires k < |offsets|
    ensures Wants(OffsetSpecs(id, offsets, due, now), Policy(id, offsets[k].0))
       <==> IsKept(offsets[k].0, due + offsets[k].1, now)
  {
    var front := offsets[..|offsets| - 1];
    var (kind, delta) := offsets[|offsets| - 1];
    var key := Policy(id, offsets[k].0);
    var rest := OffsetSpecs(id, front, due, now);
    var spec := ReminderSpec(Max(due + delta, now), kind, Policy(id, kind));
    var last := if IsKept(kind, due + delta, now) then [spec] else [];
    assert OffsetSpecs(id, offsets, due, now) == rest + last;
    WantsAppend(rest, last, key);
    assert Wants(last, key) <==> last != [] && last[0].key == key;
    if k < |front| {
      assert front[k] == offsets[k];
      OffsetsAskedFor(id, front, due, now, k);
    } else {
      OffsetSpecsKeys(id, front, due, now);
    }
  }

  lemma {:induction false} WantsAppend(a: seq<ReminderSpec>, b: seq<ReminderSpec>, key: DedupeKey)
    ensures Wants(a + b, key) <==> Wants(a, key) || Wants(b, key)
  {
    if Wants(a, key) {
      var i :| 0 <= i < |a| && a[i].key == key;
      assert (a + b)[i].key == key;
    }
    if Wants(b, key) {
      var i :| 0 <= i < |b| && b[i].key == key;
      assert (a + b)[|a| + i].key == key;
    }
  }

  /** When each policy key is wanted, without reference to how the list is built. */
  predicate IsWanted(id: nat, f: Fields, key: DedupeKey, now: int, offset: int) {
    && IsActive(f.status) && f.dueAt.Some? && f.priority != P4
    && IsPolicyKey(key, id)
    && match key {
         case Daily(_, date) =>
           && date == LocalDate(now, offset)
           && date > LocalDate(f.dueAt.value, offset) + if f.priority == P3 then 1 else 0
         case Policy(_, AwaitingFollowUp) => f.taskType == Awaiting
         case Policy(_, kind) =>
           && NominalOffset(f.priority, kind).Some?
           && (f.dueAt.value + NominalOffset(f.priority, kind).value >= now - MINUTE
               || kind == ReminderKind.Overdue || kind == Overdue1D)
         case _ => false
       }
  }

  lemma OffsetsAreNominal(p: Priority)
    ensures var offsets := PolicyOffsets(p);
            && (forall i, j :: 0 <= i < j < |offsets| ==> offsets[i].0 != offsets[j].0)
            && (forall k :: 0 <= k < |offsets| ==> NominalOffset(p, offsets[k].0) == Some(offsets[k].1))
    ensures forall kind :: NominalOffset(p, kind).Some? ==>
              exists k :: 0 <= k < |PolicyOffsets(p)| && PolicyOffsets(p)[k].0 == kind
  {
    forall kind | NominalOffset(p, kind).Some?
      ensures exists k :: 0 <= k < |PolicyOffsets(p)| && PolicyOffsets(p)[k].0 == kind
    {
      var os := PolicyOffsets(p);
      match p
      case P1 => assert os[0].0 == PreDeadline3D && os[1].0 == PreDeadline1D && os[2].0 == PreDeadline3H
                     && os[3].0 == Deadline && os[4].0 == Overdue2H;
      case P2 => assert os[0].0 == PreDeadline1D && os[1].0 == Deadline && os[2].0 == ReminderKind.Overdue;
      case P3 => assert os[0].0 == Deadline && os[1].0 == Overdue1D;
      case P4 =>
    }
  }

  lemma OffsetSpecsWanted(id: nat, p: Priority, due: int, now: int, key: DedupeKey)
    ensures Wants(OffsetSpecs(id, PolicyOffsets(p), due, now), key) <==>
              key.Policy? && key.task == id && NominalOffset(p, key.kind).Some?
              && IsKept(key.kind, due + NominalOffset(p, key.kind).value, now)
  {
    var offsets := PolicyOffsets(p);
    var specs := OffsetSpecs(id, offsets, due, now);
    OffsetsAreNominal(p);
    OffsetSpecsKeys(id, offsets, due, now);
    if Wants(specs, key) {
      var i :| 0 <= i < |specs| && specs[i].key == key;
      var k :| 0 <= k < |offsets| && offsets[k].0 == specs[i].kind;
      OffsetsAskedFor(id, offsets, due, now, k);
    }
    if key.Policy? && key.task == id && NominalOffset(p, key.kind).Some? {
      var k :| 0 <= k < |offsets| && offsets[k].0 == key.kind;
      OffsetsAskedFor(id, offsets, due, now, k);
    }
  }

  /** The list asks for a key exactly when the policy wants it. */
  lemma SpecsAreWanted(id: nat, f: Fields, now: int, offset: int, key: DedupeKey)
    ensures Wants(Specs(id, f, now, offset), key) <==> IsWanted(id, f, key, now, offset)
  {
    if IsActive(f.status) && f.dueAt.Some? && f.priority != P4 {
      var due := f.dueAt.value;
      var a := OffsetSpecs(id, PolicyOffsets(f.priority), due, now);
      var b := DailySpecs(id, f, due, now, offset);
      var c := FollowUpSpecs(id, f, due, now);
      OffsetSpecsWanted(id, f.priority, due, now, key);
      WantsAppend(a + b, c, key);
      WantsAppend(a, b, key);
      assert Wants(b, key) <==> b != [] && key == b[0].key;
      assert Wants(c, key) <==> c != [] && key == c[0].key;
    }
  }

  /** The list asks for each key once, and never for a time in the past. */
  lemma SpecsAreDistinct(id: nat, f: Fields, now: int, offset: int)
    ensures DistinctKeys(Specs(id, f, now, offset))
    ensures forall i :: 0 <= i < |Specs(id, f, now, offset)| ==>
              Specs(id, f, now, offset)[i].remindAt >= now && IsPolicyKey(Specs(id, f, now, offset)[i].key, id)
  {
    if IsActive(f.status) && f.dueAt.Some? && f.priority != P4 {
      var due := f.dueAt.value;
      var a := OffsetSpecs(id, PolicyOffsets(f.priority), due, now);
      var b := DailySpecs(id, f, due, now, offset);
      var c := FollowUpSpecs(id, f, due, now);
      OffsetSpecsAreDeadlines(id, f.priority, due, now);
      assert |b| <= 1 && |c| <= 1;
      assert Specs(id, f, now, offset) == a + b + c;
    }
  }

  lemma OffsetSpecsAreDeadlines(id: nat, p: Priority, due: int, now: int)
    ensures var a := OffsetSpecs(id, PolicyOffsets(p), due, now);
            && DistinctKeys(a)
            && forall i :: 0 <= i < |a| ==>
                 && a[i].remindAt >= now
                 && a[i].key.Policy? && a[i].key.task == id && a[i].key.kind != AwaitingFollowUp
  {
    var a := OffsetSpecs(id, PolicyOffsets(p), due, now);
    OffsetsAreNominal(p);
    OffsetSpecsKeys(id, PolicyOffsets(p), due, now);
    forall i | 0 <= i < |a|
      ensures a[i].key.Policy? && a[i].key.kind != AwaitingFollowUp
    {
      assert Wants(a, a[i].key);
      OffsetSpecsWanted(id, p, due, now, a[i].key);
    }
  }

  /** The nominal time of a wanted reminder, before the clock is applied. */
  function NominalTime(f: Fields, key: DedupeKey, now: int): int
    requires f.dueAt.Some?
  {
    match key
    case Policy(_, AwaitingFollowUp) => f.dueAt.value + DAY
    case Policy(_, kind) =>
      f.dueAt.value + if NominalOffset(f.priority, kind).Some? then NominalOffset(f.priority, kind).value else 0
    case _ => now
  }

  /** Each reminder asked for has the kind named by its key and its nominal time,
      or the current instant when that is past. */
  lemma SpecContents(id: nat, f: Fields, now: int, offset: int, i: nat)
    requires i < |Specs(id, f, now, offset)|
    ensures var spec := Specs(id, f, now, offset)[i];
            && f.dueAt.Some?
            && spec.remindAt == Max(NominalTime(f, spec.key, now), now)
            && spec.kind == if spec.key.Policy? then spec.key.kind else OverdueDaily
  {
    var due := f.dueAt.value;
    var a := OffsetSpecs(id, PolicyOffsets(f.priority), due, now);
    var b := DailySpecs(id, f, due, now, offset);
    var c := FollowUpSpecs(id, f, due, now);
    assert Specs(id, f, now, offset) == a + b + c;
    if i < |a| {
      OffsetSpecContents(id, f, due, now, i);
    } else if i < |a| + |b| {
      assert (a + b + c)[i] == b[i - |a|];
    } else {
      assert (a + b + c)[i] == c[i - |a| - |b|];
    }
  }

  lemma OffsetSpecContents(id: nat, f: Fields, due: int, now: int, i: nat)
    requires f.dueAt == Some(due) && i < |OffsetSpecs(id, PolicyOffsets(f.priority), due, now)|
    ensures var spec := OffsetSpecs(id, PolicyOffsets(f.priority), due, now)[i];
            && spec.key == Policy(id, spec.kind)
            && spec.remindAt == Max(NominalTime(f, spec.key, now), now)
  {
    var offsets := PolicyOffsets(f.priority);
    var a := OffsetSpecs(id, offsets, due, now);
    OffsetsAreNominal(f.priority);
    OffsetSpecsKeys(id, offsets, due, now);
    var k :| 0 <= k < |offsets| && offsets[k].0 == a[i].kind && a[i].remindAt == Max(due + offsets[k].1, now);
    assert NominalOffset(f.priority, a[i].kind) == Some(offsets[k].1);
  }

  /** For a task whose columns do not change, a wanted key that is dropped as the
      clock advances is never wanted again. */
  lemma DroppedKeyStaysDropped(id: nat, f: Fields, key: DedupeKey, offset: int, t0: int, t1: int, t2: int)
    requires t0 <= t1 <= t2
    requires Wants(Specs(id, f, t0, offset), key) && !Wants(Specs(id, f, t1, offset), key)
    ensures !Wants(Specs(id, f, t2, offset), key)
  {
    SpecsAreWanted(id, f, t0, offset, key);
    SpecsAreWanted(id, f, t1, offset, key);
    SpecsAreWanted(id, f, t2, offset, key);
    LaterDate(t0, t1, offset);
    LaterDate(t1, t2, offset);
  }

  lemma LaterDate(t: int, t': int, offset: int)
    requires t <= t'
    ensures LocalDate(t, offset) <= LocalDate(t', offset)
  {}
}
