/** What every run of task operations keeps: the audit log, versions, operation
    keys and the closed statuses. */
module TaskHistory {
  import opened Wrappers
  import opened TaskStore

  /******* Replaying the audit log *******/

  function ReplayOne(f: Fields, e: Event): Fields {
    match e.kind
    case TaskCreated => f
    case TaskCancelled => f.(status := Cancelled)
    case _ => if e.newValue.Some? then Apply(f, e.newValue.value) else f
  }

  /** The columns of task `id` after the events about it in `events`. */
  function Replay(f: Fields, events: seq<Event>, id: nat): Fields {
    if events == [] then f
    else
      var before := Replay(f, events[..|events| - 1], id);
      var e := events[|events| - 1];
      if e.task == id then ReplayOne(before, e) else before
  }

  function CountEvents(events: seq<Event>, id: nat): nat {
    if events == [] then 0
    else CountEvents(events[..|events| - 1], id) + if events[|events| - 1].task == id then 1 else 0
  }

  /** The event reports, as old values, exactly what the columns held before it. */
  predicate ReportsOldValue(f: Fields, e: Event) {
    match e.kind
    case TaskCreated => false
    case TaskCancelled => e.oldValue == None && e.newValue == None
    case _ => e.newValue.Some? && e.oldValue == Some(Snapshot(f, e.newValue.value))
  }

  predicate OldValuesFaithful(f: Fields, events: seq<Event>, id: nat) {
    forall k :: 0 <= k < |events| && events[k].task == id ==>
      ReportsOldValue(Replay(f, events[..k], id), events[k])
  }

  /** Putting the reported old values back undoes an update. */
  lemma OldValuesUndo(f: Fields, p: Patch)
    requires !NullsRequired(p)
    ensures Apply(Apply(f, p), Snapshot(f, p)) == f
  {}

  /******* One operation *******/

  /** What one operation does to the rows of an existing task. */
  ghost predicate Follows(s: Store, s': Store, id: nat)
    requires id < |s.tasks| <= |s'.tasks| && s.events <= s'.events
  {
    var added := s'.events[|s.events|..];
    && s'.tasks[id].key == s.tasks[id].key
    && s'.tasks[id].fields == Replay(s.tasks[id].fields, added, id)
    && s'.tasks[id].version == s.tasks[id].version + CountEvents(added, id)
    && OldValuesFaithful(s.tasks[id].fields, added, id)
  }

  lemma StepFollows(s: Store, op: Op, id: nat)
    requires id < |s.tasks|
    ensures |s.tasks| <= |Step(s, op).tasks| && s.events <= Step(s, op).events
    ensures |Step(s, op).events| <= |s.events| + 1
    ensures Follows(s, Step(s, op), id)
  {
    var s' := Step(s, op);
    var added := s'.events[|s.events|..];
    if |s'.events| == |s.events| {
      assert added == [];
    } else {
      var e := s'.events[|s.events|];
      assert added == [e];
      assert added[..0] == [];
      assert Replay(s.tasks[id].fields, added, id) ==
             if e.task == id then ReplayOne(s.tasks[id].fields, e) else s.tasks[id].fields;
    }
  }

  /******* Whole runs *******/

  lemma {:induction false} ReplayAppend(f: Fields, a: seq<Event>, b: seq<Event>, id: nat)
    ensures Replay(f, a + b, id) == Replay(Replay(f, a, id), b, id)
    ensures CountEvents(a + b, id) == CountEvents(a, id) + CountEvents(b, id)
  {
    if b == [] {
      assert a + b == a;
    } else {
      var n := |b| - 1;
      assert (a + b)[..|a + b| - 1] == a + b[..n];
      ReplayAppend(f, a, b[..n], id);
    }
  }

  lemma {:induction false} FollowsTransitive(s0: Store, s1: Store, s2: Store, id: nat)
    requires id < |s0.tasks| <= |s1.tasks| <= |s2.tasks|
    requires s0.events <= s1.events <= s2.events
    requires Follows(s0, s1, id) && Follows(s1, s2, id)
    ensures Follows(s0, s2, id)
  {
    var f := s0.tasks[id].fields;
    var a := s1.events[|s0.events|..];
    var b := s2.events[|s1.events|..];
    var ab := s2.events[|s0.events|..];
    assert ab == a + b;
    ReplayAppend(f, a, b, id);
    OldValuesAppend(f, a, b, id);
  }

  lemma {:induction false} OldValuesAppend(f: Fields, a: seq<Event>, b: seq<Event>, id: nat)
    requires OldValuesFaithful(f, a, id) && OldValuesFaithful(Replay(f, a, id), b, id)
    ensures OldValuesFaithful(f, a + b, id)
  {
    var ab := a + b;
    forall k | 0 <= k < |ab| && ab[k].task == id
      ensures ReportsOldValue(Replay(f, ab[..k], id), ab[k])
    {
      if k < |a| {
        assert ab[..k] == a[..k];
        assert ab[k] == a[k];
      } else {
        assert ab[..k] == a + b[..k - |a|];
        assert ab[k] == b[k - |a|];
        ReplayAppend(f, a, b[..k - |a|], id);
      }
    }
  }

  /** The audit log determines the task.  Over any run, the log only grows; its
      new events replayed over the row at the start of the run give the row at
      the end; every event's old values are the values just before it; and the
      version advances by one per event. */
  lemma {:induction false} AuditLogDeterminesTask(s: Store, ops: seq<Op>, id: nat)
    requires id < |s.tasks|
    ensures |s.tasks| <= |Run(s, ops).tasks| && s.events <= Run(s, ops).events
    ensures Follows(s, Run(s, ops), id)
    decreases |ops|
  {
    if ops == [] {
      assert s.events[|s.events|..] == [];
    } else {
      var front := ops[..|ops| - 1];
      AuditLogDeterminesTask(s, front, id);
      StepFollows(Run(s, front), ops[|ops| - 1], id);
      FollowsTransitive(s, Run(s, front), Run(s, ops), id);
    }
  }

  lemma {:induction false} RunGrows(s: Store, ops: seq<Op>)
    ensures |s.tasks| <= |Run(s, ops).tasks| && s.events <= Run(s, ops).events
    decreases |ops|
  {
    if ops != [] {
      RunGrows(s, ops[..|ops| - 1]);
    }
  }

  /** A run split in two. */
  lemma {:induction false} RunAppend(s: Store, a: seq<Op>, b: seq<Op>)
    ensures Run(s, a + b) == Run(Run(s, a), b)
    decreases |b|
  {
    if b == [] {
      assert a + b == a;
    } else {
      assert (a + b)[..|a + b| - 1] == a + b[..|b| - 1];
      RunAppend(s, a, b[..|b| - 1]);
    }
  }

  lemma StepKeepsInactive(s: Store, op: Op, id: nat)
    requires id < |s.tasks| && !IsActive(s.tasks[id].fields.status)
    ensures |s.tasks| <= |Step(s, op).tasks| && !IsActive(Step(s, op).tasks[id].fields.status)
  {}

  /** DONE and CANCELLED are closed: no run reopens such a task. */
  lemma {:induction false} InactiveForever(s: Store, ops: seq<Op>, id: nat)
    requires id < |s.tasks| && !IsActive(s.tasks[id].fields.status)
    ensures |s.tasks| <= |Run(s, ops).tasks|
    ensures !IsActive(Run(s, ops).tasks[id].fields.status)
    decreases |ops|
  {
    if ops != [] {
      InactiveForever(s, ops[..|ops| - 1], id);
      StepKeepsInactive(Run(s, ops[..|ops| - 1]), ops[|ops| - 1], id);
    }
  }

  /** A DONE task has a completion time, and an active one has none. */
  predicate HasRightCompletion(task: Task) {
    && (task.fields.status == Done ==> task.completedAt.Some?)
    && (IsActive(task.fields.status) ==> task.completedAt.None?)
  }

  lemma StepKeepsCompletion(s: Store, op: Op, id: nat)
    requires id < |s.tasks| && HasRightCompletion(s.tasks[id])
    ensures |s.tasks| <= |Step(s, op).tasks| && HasRightCompletion(Step(s, op).tasks[id])
  {}

  /** Completion times stay right over any run. */
  lemma {:induction false} CompletionStaysRight(s: Store, ops: seq<Op>, id: nat)
    requires id < |s.tasks| && HasRightCompletion(s.tasks[id])
    ensures |s.tasks| <= |Run(s, ops).tasks| && HasRightCompletion(Run(s, ops).tasks[id])
    decreases |ops|
  {
    if ops != [] {
      CompletionStaysRight(s, ops[..|ops| - 1], id);
      StepKeepsCompletion(Run(s, ops[..|ops| - 1]), ops[|ops| - 1], id);
    }
  }

  /******* Which statuses a task can reach *******/

  /** Some run brings the task to the status. */
  ghost predicate CanReach(s: Store, id: nat, target: TaskStatus)
    requires id < |s.tasks|
  {
    exists ops: seq<Op> :: id < |Run(s, ops).tasks| && Run(s, ops).tasks[id].fields.status == target
  }

  /** An active task can reach every status but OVERDUE, which only a creation
      gives; a DONE task can still be cancelled. */
  predicate IsWithinReach(status: TaskStatus, target: TaskStatus) {
    || target == status
    || (IsActive(status) && target != Overdue)
    || (status == Done && target == Cancelled)
  }

  lemma StepWithinReach(s: Store, op: Op, id: nat, status: TaskStatus)
    requires id < |s.tasks| && IsWithinReach(status, s.tasks[id].fields.status)
    ensures |s.tasks| <= |Step(s, op).tasks| && IsWithinReach(status, Step(s, op).tasks[id].fields.status)
  {}

  lemma {:induction false} RunWithinReach(s: Store, ops: seq<Op>, id: nat)
    requires id < |s.tasks|
    ensures |s.tasks| <= |Run(s, ops).tasks|
    ensures IsWithinReach(s.tasks[id].fields.status, Run(s, ops).tasks[id].fields.status)
    decreases |ops|
  {
    if ops != [] {
      RunWithinReach(s, ops[..|ops| - 1], id);
      StepWithinReach(Run(s, ops[..|ops| - 1]), ops[|ops| - 1], id, s.tasks[id].fields.status);
    }
  }

  function SetStatus(id: nat, status: TaskStatus): Op {
    OpUpdate(id, NoChange.(status := Set(Some(status))), None, None, 0)
  }

  lemma TwoOps(s: Store, a: Op, b: Op)
    ensures Run(s, [a]) == Step(s, a) && Run(s, [a, b]) == Step(Step(s, a), b)
  {
    assert [a, b][..1] == [a] && [a][..0] == [];
    assert Run(s, []) == s;
  }

  lemma CanBeCancelled(s: Store, id: nat)
    requires id < |s.tasks|
    ensures CanReach(s, id, Cancelled)
  {
    var cancel := OpCancel(id, None, None);
    TwoOps(s, cancel, cancel);
    assert Run(s, [cancel]).tasks[id].fields.status == Cancelled;
  }

  lemma SetStatusTakesEffect(s: Store, id: nat, status: TaskStatus)
    requires id < |s.tasks| && ValidTransition(s.tasks[id].fields.status, status)
    ensures |Step(s, SetStatus(id, status)).tasks| == |s.tasks|
    ensures Step(s, SetStatus(id, status)).tasks[id].fields.status == status
  {}

  lemma CanPassByUnknownParty(s: Store, id: nat, target: TaskStatus)
    requires id < |s.tasks| && IsActive(s.tasks[id].fields.status) && target != Overdue
    ensures CanReach(s, id, target)
  {
    var ops := [SetStatus(id, UnknownParty), SetStatus(id, target)];
    TwoOps(s, ops[0], ops[1]);
    SetStatusTakesEffect(s, id, UnknownParty);
    SetStatusTakesEffect(Step(s, ops[0]), id, target);
    assert Run(s, ops).tasks[id].fields.status == target;
  }

  /** Which statuses a task can reach over any run of operations: from every active
      status all but OVERDUE, by way of UNKNOWN_PARTY; from DONE only CANCELLED; and
      from CANCELLED none. */
  lemma ReachableStatusesExactly(s: Store, id: nat, target: TaskStatus)
    requires id < |s.tasks|
    ensures CanReach(s, id, target) <==> IsWithinReach(s.tasks[id].fields.status, target)
  {
    if CanReach(s, id, target) {
      var ops: seq<Op> :| id < |Run(s, ops).tasks| && Run(s, ops).tasks[id].fields.status == target;
      RunWithinReach(s, ops, id);
    }
    if target == s.tasks[id].fields.status {
      assert Run(s, []).tasks[id].fields.status == target;
    } else if target == Cancelled {
      CanBeCancelled(s, id);
    } else if IsWithinReach(s.tasks[id].fields.status, target) {
      CanPassByUnknownParty(s, id, target);
    }
  }

  /** If a run leaves the version of a task as it was, it leaves its columns as they
      were, so a version check detects every change in between. */
  lemma {:induction false} SameVersionSameFields(s: Store, ops: seq<Op>, id: nat)
    requires id < |s.tasks|
    ensures |s.tasks| <= |Run(s, ops).tasks|
    ensures Run(s, ops).tasks[id].version == s.tasks[id].version ==>
              Run(s, ops).tasks[id].fields == s.tasks[id].fields
  {
    AuditLogDeterminesTask(s, ops, id);
    var added := Run(s, ops).events[|s.events|..];
    if CountEvents(added, id) == 0 {
      NoEventsNoReplay(s.tasks[id].fields, added, id);
    }
  }

  lemma {:induction false} NoEventsNoReplay(f: Fields, events: seq<Event>, id: nat)
    requires CountEvents(events, id) == 0
    ensures Replay(f, events, id) == f
    decreases |events|
  {
    if events != [] {
      NoEventsNoReplay(f, events[..|events| - 1], id);
    }
  }

  /******* Reachable stores *******/

  ghost predicate UniqueKeys(events: seq<Event>) {
    forall i, j :: 0 <= i < j < |events| && events[i].key.Some? ==> events[i].key != events[j].key
  }

  /** Holds of every reachable store: event keys and task keys are unique, every
      task was created under a recorded key, and a task's version is the number
      of events about it. */
  ghost predicate Valid(s: Store) {
    && UniqueKeys(s.events)
    && (forall i, j :: 0 <= i < j < |s.tasks| ==> s.tasks[i].key != s.tasks[j].key)
    && (forall i :: 0 <= i < |s.tasks| ==> KeyRecorded(s.events, s.tasks[i].key))
    && (forall k :: 0 <= k < |s.events| ==> s.events[k].task < |s.tasks|)
    && (forall i :: 0 <= i < |s.tasks| ==> s.tasks[i].version == CountEvents(s.events, i))
  }

  lemma NoEventsAbout(events: seq<Event>, id: nat)
    requires forall k :: 0 <= k < |events| ==> events[k].task != id
    ensures CountEvents(events, id) == 0
  {}

  lemma RecordedAppend(events: seq<Event>, e: Event, key: OpKey)
    ensures KeyRecorded(events + [e], key) <==> KeyRecorded(events, key) || e.key == Some(key)
  {
    if KeyRecorded(events, key) {
      var i :| 0 <= i < |events| && events[i].key == Some(key);
      assert (events + [e])[i].key == Some(key);
    }
    if e.key == Some(key) {
      assert (events + [e])[|events|].key == Some(key);
    }
  }

  /** A committed operation appends one event, under a new key, and creates the
      event's task or advances its version. */
  ghost predicate Commits(s: Store, s': Store, e: Event) {
    && s'.events == s.events + [e]
    && (e.key.Some? ==> !KeyRecorded(s.events, e.key.value))
    && (if e.task == |s.tasks| then
          && |s'.tasks| == |s.tasks| + 1 && s'.tasks[..|s.tasks|] == s.tasks
          && s'.tasks[e.task].version == 1 && e.key == Some(s'.tasks[e.task].key)
        else
          && e.task < |s.tasks| == |s'.tasks| && s'.tasks == s.tasks[e.task := s'.tasks[e.task]]
          && s'.tasks[e.task].key == s.tasks[e.task].key
          && s'.tasks[e.task].version == s.tasks[e.task].version + 1)
  }

  lemma StepCommits(s: Store, op: Op)
    requires Valid(s) && |Step(s, op).events| != |s.events|
    ensures Step(s, op).events != [] && Commits(s, Step(s, op), Step(s, op).events[|Step(s, op).events| - 1])
  {}

  lemma {:induction false} CommitKeepsVersions(s: Store, s': Store, e: Event, i: nat)
    requires Valid(s) && Commits(s, s', e) && i < |s'.tasks|
    ensures s'.tasks[i].version == CountEvents(s'.events, i)
  {
    assert s'.events[..|s'.events| - 1] == s.events;
    if i == |s.tasks| {
      NoEventsAbout(s.events, i);
    } else {
      assert s.tasks[i].version == CountEvents(s.events, i);
    }
  }

  lemma {:induction false} CommitKeepsKeys(s: Store, s': Store, e: Event)
    requires Valid(s) && Commits(s, s', e)
    ensures UniqueKeys(s'.events)
    ensures forall i, j :: 0 <= i < j < |s'.tasks| ==> s'.tasks[i].key != s'.tasks[j].key
    ensures forall i :: 0 <= i < |s'.tasks| ==> KeyRecorded(s'.events, s'.tasks[i].key)
  {
    forall i | 0 <= i < |s'.tasks|
      ensures KeyRecorded(s'.events, s'.tasks[i].key)
      ensures i < |s.tasks| ==> s'.tasks[i].key == s.tasks[i].key && KeyRecorded(s.events, s'.tasks[i].key)
    {
      RecordedAppend(s.events, e, s'.tasks[i].key);
    }
  }

  lemma StepKeepsValid(s: Store, op: Op)
    requires Valid(s)
    ensures Valid(Step(s, op))
  {
    var s' := Step(s, op);
    if |s'.events| != |s.events| {
      StepCommits(s, op);
      var e := s'.events[|s'.events| - 1];
      CommitKeepsKeys(s, s', e);
      forall i | 0 <= i < |s'.tasks|
        ensures s'.tasks[i].version == CountEvents(s'.events, i)
      {
        CommitKeepsVersions(s, s', e, i);
      }
    }
  }

  lemma {:induction false} ReachableValid(s: Store, ops: seq<Op>)
    requires Valid(s)
    ensures Valid(Run(s, ops))
    decreases |ops|
  {
    if ops != [] {
      ReachableValid(s, ops[..|ops| - 1]);
      StepKeepsValid(Run(s, ops[..|ops| - 1]), ops[|ops| - 1]);
    }
  }

  lemma EmptyIsValid()
    ensures Valid(Empty)
  {}

  /******* Operation keys *******/

  lemma {:induction false} RecordedStays(events: seq<Event>, events': seq<Event>, key: OpKey)
    requires events <= events' && KeyRecorded(events, key)
    ensures KeyRecorded(events', key)
  {
    var i :| 0 <= i < |events| && events[i].key == Some(key);
    assert events'[i].key == Some(key);
  }

  /** Replaying a recorded operation key after any other operations answers with
      the current task and changes nothing, whatever the request now says. */
  lemma {:induction false} RecordedKeyIsInert(s: Store, ops: seq<Op>, key: OpKey, id: nat, p: Patch,
                                              version: Option<int>, now: int)
    requires KeyRecorded(s.events, key) && key != Api("") && id < |s.tasks|
    ensures Update(Run(s, ops), id, p, version, Some(key), now) == Outcome(Run(s, ops), Ok(id))
    ensures Cancel(Run(s, ops), id, version, Some(key)) == Outcome(Run(s, ops), Ok(id))
  {
    RunGrows(s, ops);
    RecordedStays(s.events, Run(s, ops).events, key);
  }

  /** The task created under a key stays where it is. */
  lemma {:induction false} CreatedTaskStays(s: Store, ops: seq<Op>, key: OpKey)
    requires HasTaskKey(s.tasks, key)
    ensures HasTaskKey(Run(s, ops).tasks, key) && TaskByKey(Run(s, ops).tasks, key) == TaskByKey(s.tasks, key)
    decreases |ops|
  {
    if ops != [] {
      var before := Run(s, ops[..|ops| - 1]);
      CreatedTaskStays(s, ops[..|ops| - 1], key);
      StepKeepsTaskByKey(before, ops[|ops| - 1], key);
    }
  }

  lemma TasksKeepKeys(s: Store, op: Op, i: nat)
    requires i < |s.tasks|
    ensures i < |Step(s, op).tasks| && Step(s, op).tasks[i].key == s.tasks[i].key
  {}

  lemma StepKeepsTaskByKey(s: Store, op: Op, key: OpKey)
    requires HasTaskKey(s.tasks, key)
    ensures HasTaskKey(Step(s, op).tasks, key) && TaskByKey(Step(s, op).tasks, key) == TaskByKey(s.tasks, key)
  {
    var tasks := Step(s, op).tasks;
    forall i: nat | i < |s.tasks|
      ensures i < |tasks| && tasks[i].key == s.tasks[i].key
    {
      TasksKeepKeys(s, op, i);
    }
    SameTaskByKey(s.tasks, tasks, key);
  }

  lemma SameTaskByKey(tasks: seq<Task>, tasks': seq<Task>, key: OpKey)
    requires HasTaskKey(tasks, key) && |tasks| <= |tasks'|
    requires forall i :: 0 <= i < |tasks| ==> tasks'[i].key == tasks[i].key
    ensures HasTaskKey(tasks', key) && TaskByKey(tasks', key) == TaskByKey(tasks, key)
  {
    var id := TaskByKey(tasks, key);
    assert tasks'[id].key == key;
    var id' := TaskByKey(tasks', key);
    assert id' <= id;
    assert tasks[id'].key == tasks'[id'].key;
  }

  /** Replaying a create after any other operations answers with the task that was
      created under its key, and changes nothing, whatever the request now says. */
  lemma {:induction false} ReplayedCreateIsInert(s: Store, ops: seq<Op>, key: OpKey, data: NewTask, generated: nat,
                                                 sources: nat)
    requires HasTaskKey(s.tasks, key) && data.key == Some(key)
    ensures Create(Run(s, ops), data, generated, sources) == Outcome(Run(s, ops), Ok(TaskByKey(s.tasks, key)))
  {
    CreatedTaskStays(s, ops, key);
  }

  /** The operation at position `i` of the run takes effect. */
  ghost predicate TakesEffect(s: Store, ops: seq<Op>, i: nat)
    requires i < |ops|
  {
    |Run(s, ops[..i + 1]).events| > |Run(s, ops[..i]).events|
  }

  lemma EffectRecordsKey(s: Store, op: Op)
    requires |Step(s, op).events| > |s.events|
    ensures RecordedKey(op).Some? ==> !KeyRecorded(s.events, RecordedKey(op).value)
    ensures RecordedKey(op).Some? ==> KeyRecorded(Step(s, op).events, RecordedKey(op).value)
  {
    var e := Step(s, op).events[|s.events|];
    if RecordedKey(op).Some? {
      assert e.key == RecordedKey(op);
      RecordedAppend(s.events, e, RecordedKey(op).value);
    }
  }

  lemma {:induction false} PrefixStep(s: Store, ops: seq<Op>, i: nat, j: nat)
    requires i < j <= |ops|
    ensures Run(s, ops[..i + 1]) == Step(Run(s, ops[..i]), ops[i])
    ensures Run(s, ops[..j]) == Run(Run(s, ops[..i + 1]), ops[i + 1..j])
  {
    assert ops[..i + 1][..i] == ops[..i];
    assert ops[..j] == ops[..i + 1] + ops[i + 1..j];
    RunAppend(s, ops[..i + 1], ops[i + 1..j]);
  }

  /** Each key takes effect at most once per run, across creates, updates and
      cancels, even the empty key that is never looked up. */
  lemma {:induction false} KeyTakesEffectOnce(s: Store, ops: seq<Op>, i: nat, j: nat)
    requires i < j < |ops| && RecordedKey(ops[i]).Some? && RecordedKey(ops[i]) == RecordedKey(ops[j])
    ensures !(TakesEffect(s, ops, i) && TakesEffect(s, ops, j))
  {
    if TakesEffect(s, ops, i) && TakesEffect(s, ops, j) {
      var key := RecordedKey(ops[i]).value;
      PrefixStep(s, ops, i, j);
      PrefixStep(s, ops, j, j + 1);
      EffectRecordsKey(Run(s, ops[..i]), ops[i]);
      EffectRecordsKey(Run(s, ops[..j]), ops[j]);
      RunGrows(Run(s, ops[..i + 1]), ops[i + 1..j]);
      RecordedStays(Run(s, ops[..i + 1]).events, Run(s, ops[..j]).events, key);
      assert false;
    }
  }

  /** The task and the version that an operation is conditional on, if any. */
  function Guard(op: Op): Option<(nat, int)> {
    match op
    case OpUpdate(id, _, Some(v), _, _) => Some((id, v))
    case OpCancel(id, Some(v), _) => Some((id, v))
    case _ => None
  }

  lemma EffectAdvancesVersion(s: Store, op: Op)
    requires Guard(op).Some? && |Step(s, op).events| > |s.events|
    ensures var (id, v) := Guard(op).value;
            id < |s.tasks| && s.tasks[id].version == v && Step(s, op).tasks[id].version == v + 1
  {}

  /** Versioned operations that take effect on one task use strictly increasing
      versions. */
  lemma {:induction false} AcceptedVersionsIncrease(s: Store, ops: seq<Op>, i: nat, j: nat)
    requires i < j < |ops| && TakesEffect(s, ops, i) && TakesEffect(s, ops, j)
    requires Guard(ops[i]).Some? && Guard(ops[j]).Some?
    requires Guard(ops[i]).value.0 == Guard(ops[j]).value.0
    ensures Guard(ops[i]).value.1 < Guard(ops[j]).value.1
  {
    var id := Guard(ops[i]).value.0;
    PrefixStep(s, ops, i, j);
    PrefixStep(s, ops, j, j + 1);
    EffectAdvancesVersion(Run(s, ops[..i]), ops[i]);
    EffectAdvancesVersion(Run(s, ops[..j]), ops[j]);
    AuditLogDeterminesTask(Run(s, ops[..i + 1]), ops[i + 1..j], id);
  }

  /******* From creation *******/

  /** From the creation of a task on, its row is the created row with the log
      replayed over it. */
  lemma {:induction false} CreatedRowReplays(ops: seq<Op>, id: nat) returns (i: nat)
    requires id < |Run(Empty, ops).tasks|
    ensures i < |ops| && ops[i].OpCreate?
    ensures |Run(Empty, ops[..i]).tasks| == id
    ensures Run(Empty, ops[..i + 1]).events <= Run(Empty, ops).events
    ensures var first := Run(Empty, ops[..i + 1]).events;
            && |first| > 0 && first[|first| - 1].task == id && first[|first| - 1].kind == TaskCreated
            && first[|first| - 1].newValue.Some?
            && first[|first| - 1].newValue.value.title == Set(Some(ops[i].data.fields.title))
    ensures var s := Run(Empty, ops);
            && s.tasks[id].fields == Replay(ops[i].data.fields, s.events, id)
            && OldValuesFaithful(ops[i].data.fields, s.events[|Run(Empty, ops[..i + 1]).events|..], id)
            && s.tasks[id].version == CountEvents(s.events, id)
  {
    i := CreationPoint(ops, id);
    var s0 := Run(Empty, ops[..i]);
    var s1 := Run(Empty, ops[..i + 1]);
    var s := Run(Empty, ops);
    PrefixStep(Empty, ops, i, |ops|);
    assert ops[..|ops|] == ops;
    EmptyIsValid();
    ReachableValid(Empty, ops[..i]);
    ReachableValid(Empty, ops);
    AuditLogDeterminesTask(s1, ops[i + 1..], id);
    CreationStep(s0, ops[i]);
    ReplayFromCreation(ops[i].data.fields, s0.events, s1.events, s.events, id);
  }

  lemma CreationStep(s: Store, op: Op)
    requires op.OpCreate? && |Step(s, op).tasks| > |s.tasks|
    ensures var s' := Step(s, op);
            && s'.tasks[|s.tasks|].fields == op.data.fields
            && s'.events[..|s'.events| - 1] == s.events
            && s'.events[|s'.events| - 1].task == |s.tasks| && s'.events[|s'.events| - 1].kind == TaskCreated
            && s'.events[|s'.events| - 1].newValue.Some?
            && s'.events[|s'.events| - 1].newValue.value.title == Set(Some(op.data.fields.title))
  {
    var s' := Step(s, op);
    assert s'.events == s.events + [s'.events[|s.events|]];
  }

  /** Events before a task's creation, and the creation itself, replay to nothing. */
  lemma {:induction false} ReplayFromCreation(f: Fields, before: seq<Event>, created: seq<Event>, all: seq<Event>,
                                              id: nat)
    requires forall k :: 0 <= k < |before| ==> before[k].task != id
    requires created != [] && created[..|created| - 1] == before
    requires created[|created| - 1].task == id && created[|created| - 1].kind == TaskCreated
    requires created <= all
    ensures Replay(f, all, id) == Replay(f, all[|created|..], id)
  {
    NoEventsAbout(before, id);
    NoEventsNoReplay(f, before, id);
    assert all == created + all[|created|..];
    ReplayAppend(f, created, all[|created|..], id);
  }

  lemma OnlyCreateAdds(s: Store, op: Op)
    ensures |s.tasks| <= |Step(s, op).tasks| <= |s.tasks| + 1
    ensures |Step(s, op).tasks| > |s.tasks| ==> op.OpCreate?
  {}

  lemma {:induction false} CreationPoint(ops: seq<Op>, id: nat) returns (i: nat)
    requires id < |Run(Empty, ops).tasks|
    ensures i < |ops| && ops[i].OpCreate?
    ensures |Run(Empty, ops[..i]).tasks| == id < |Run(Empty, ops[..i + 1]).tasks|
    decreases |ops|
  {
    var front := ops[..|ops| - 1];
    if id < |Run(Empty, front).tasks| {
      i := CreationPoint(front, id);
      assert front[..i] == ops[..i] && front[..i + 1] == ops[..i + 1];
    } else {
      i := |ops| - 1;
      assert ops[..i + 1] == ops;
      OnlyCreateAdds(Run(Empty, front), ops[i]);
    }
  }
}
