/** What each task operation makes of the tables, column by column. */
module TaskOutcomes {
  import opened Wrappers
  import opened TaskStore
  import opened TaskHistory

  /******* Columns *******/

  /** A column after an edit: as it was, or with the value that was set. */
  predicate Gets<T(==)>(edit: Edit<T>, before: Option<T>, after: Option<T>) {
    match edit
    case Keep => after == before
    case Set(v) => after == v
  }

  /** Every column has the value that the update sets, or keeps its own. */
  predicate ColumnsFollow(f: Fields, p: Patch, f': Fields) {
    && Gets(p.title, Some(f.title), Some(f'.title))
    && Gets(p.description, f.description, f'.description)
    && Gets(p.taskType, Some(f.taskType), Some(f'.taskType))
    && Gets(p.priority, Some(f.priority), Some(f'.priority))
    && Gets(p.assignee, f.assignee, f'.assignee)
    && Gets(p.startAt, f.startAt, f'.startAt)
    && Gets(p.dueAt, f.dueAt, f'.dueAt)
    && Gets(p.dueDate, f.dueDate, f'.dueDate)
    && Gets(p.duePrecision, Some(f.duePrecision), Some(f'.duePrecision))
    && Gets(p.nextCheckAt, f.nextCheckAt, f'.nextCheckAt)
    && Gets(p.status, Some(f.status), Some(f'.status))
  }

  /** The old value of a column is recorded if the update sets it. */
  predicate Records<T(==)>(edit: Edit<T>, before: Option<T>, was: Edit<T>) {
    was == if edit.Set? then Set(before) else Keep
  }

  predicate OldColumns(f: Fields, p: Patch, was: Patch) {
    && Records(p.title, Some(f.title), was.title)
    && Records(p.description, f.description, was.description)
    && Records(p.taskType, Some(f.taskType), was.taskType)
    && Records(p.priority, Some(f.priority), was.priority)
    && Records(p.assignee, f.assignee, was.assignee)
    && Records(p.startAt, f.startAt, was.startAt)
    && Records(p.dueAt, f.dueAt, was.dueAt)
    && Records(p.dueDate, f.dueDate, was.dueDate)
    && Records(p.duePrecision, Some(f.duePrecision), was.duePrecision)
    && Records(p.nextCheckAt, f.nextCheckAt, was.nextCheckAt)
    && Records(p.status, Some(f.status), was.status)
  }

  /** Exactly task `id` changes, to a row with the next version, and one event about
      it is logged under the key. */
  predicate ChangesTask(s: Store, s': Store, id: nat, key: Option<OpKey>) {
    && id < |s.tasks| == |s'.tasks| && |s'.events| == |s.events| + 1
    && (forall i :: 0 <= i < |s.tasks| && i != id ==> s'.tasks[i] == s.tasks[i])
    && s'.tasks[id].version == s.tasks[id].version + 1
    && s'.tasks[id].key == s.tasks[id].key && s'.tasks[id].lastRemindedAt == s.tasks[id].lastRemindedAt
    && s'.links == s.links
    && (forall k :: 0 <= k < |s.events| ==> s'.events[k] == s.events[k])
    && s'.events[|s.events|].task == id && s'.events[|s.events|].key == key
  }

  /******* Which status changes are refused *******/

  /** The changes between different statuses that are refused. */
  predicate IsRefusedChange(current: TaskStatus, next: TaskStatus) {
    || current == Done || current == Cancelled
    || next == Overdue
    || (next == New && current != UnknownParty)
    || (next == Planned && current in {InProgress, Waiting, Overdue})
    || (next == Waiting && current in {Postponed, OnHold, Overdue})
    || (next == OnHold && current !in {UnknownParty, InProgress})
    || (next == Postponed && current == OnHold)
  }

  lemma RefusedChangesExactly(current: TaskStatus, next: TaskStatus)
    ensures ValidTransition(current, next) <==> next == current || !IsRefusedChange(current, next)
  {
    assert next == Cancelled ==> next !in AllowedTransitions(current);
  }

  /******* Updates *******/

  /** The update neither sets a required column to null nor makes a refused change of
      status. */
  predicate IsLawful(f: Fields, p: Patch) {
    && p.title != Set(None) && p.taskType != Set(None) && p.priority != Set(None)
    && p.duePrecision != Set(None) && p.status != Set(None)
    && match p.status
       case Set(Some(next)) => next == f.status || !IsRefusedChange(f.status, next)
       case _ => true
  }

  /** An update takes effect if and only if its task exists, its key is new, its
      version is that of the task, and it is lawful; otherwise nothing changes. */
  lemma UpdateAcceptedExactly(s: Store, id: nat, p: Patch, version: Option<int>, key: Option<OpKey>, now: int)
    ensures var o := Update(s, id, p, version, key, now);
            && (o.store != s <==>
                && id < |s.tasks|
                && (key.Some? ==> forall k :: 0 <= k < |s.events| ==> s.events[k].key != key)
                && (version.Some? ==> version.value == s.tasks[id].version)
                && IsLawful(s.tasks[id].fields, p))
            && (o.store != s ==> o.reply == Ok(id))
            && (id >= |s.tasks| <==> o.reply == Err(NotFound))
  {
    if id < |s.tasks| && p.status.Set? && p.status.value.Some? {
      RefusedChangesExactly(s.tasks[id].fields.status, p.status.value.value);
    }
    if key.Some? {
      assert KeyRecorded(s.events, key.value) <==> exists k :: 0 <= k < |s.events| && s.events[k].key == key;
    }
    var s' := Update(s, id, p, version, key, now).store;
    assert |s'.events| != |s.events| ==> s' != s;
  }

  /** What a refused update answers: a recorded key is looked up first (unless it is
      empty), then the version is compared, then the change of status is checked;
      what is left is for the database to refuse. */
  lemma UpdateRefusals(s: Store, id: nat, p: Patch, version: Option<int>, key: Option<OpKey>, now: int)
    requires id < |s.tasks| && Update(s, id, p, version, key, now).store == s
    ensures var reply := Update(s, id, p, version, key, now).reply;
            var recorded := key.Some? && exists k :: 0 <= k < |s.events| && s.events[k].key == key;
            var conflict := version.Some? && version.value != s.tasks[id].version;
            var refused := match p.status
                           case Set(Some(next)) => next != s.tasks[id].fields.status
                                                   && IsRefusedChange(s.tasks[id].fields.status, next)
                           case _ => false;
            reply == if recorded && key != Some(Api("")) then Ok(id)
                     else if conflict then Err(VersionConflict)
                     else if refused then Err(InvalidTransition)
                     else Err(IntegrityError)
  {
    if p.status.Set? && p.status.value.Some? {
      RefusedChangesExactly(s.tasks[id].fields.status, p.status.value.value);
    }
    if key.Some? {
      assert KeyRecorded(s.events, key.value) <==> exists k :: 0 <= k < |s.events| && s.events[k].key == key;
    }
    UpdateAcceptedExactly(s, id, p, version, key, now);
  }

  /** What an update that takes effect does: every column, the completion time, and
      the event with the new values and the values before. */
  lemma UpdateOutcome(s: Store, id: nat, p: Patch, version: Option<int>, key: Option<OpKey>, now: int)
    requires Update(s, id, p, version, key, now).store != s
    ensures var s' := Update(s, id, p, version, key, now).store;
            && ChangesTask(s, s', id, key)
            && ColumnsFollow(s.tasks[id].fields, p, s'.tasks[id].fields)
            && s'.tasks[id].completedAt == (
                 if s'.tasks[id].fields.status == s.tasks[id].fields.status then s.tasks[id].completedAt
                 else if s'.tasks[id].fields.status == Done then Some(now) else None)
            && var e := s'.events[|s.events|];
               && e.kind == (if p.status.Set? then StatusChanged else TaskUpdated)
               && e.newValue == Some(p)
               && e.oldValue.Some? && OldColumns(s.tasks[id].fields, p, e.oldValue.value)
  {}

  /** Postponing moves the deadline and the status, and no other column. */
  lemma PostponeOutcome(s: Store, id: nat, newDueAt: int, version: Option<int>, key: Option<OpKey>, now: int)
    requires Update(s, id, PostponePatch(newDueAt), version, key, now).store != s
    ensures var s' := Update(s, id, PostponePatch(newDueAt), version, key, now).store;
            && ChangesTask(s, s', id, key)
            && s'.tasks[id].fields == s.tasks[id].fields.(dueAt := Some(newDueAt), status := Postponed)
  {
    UpdateOutcome(s, id, PostponePatch(newDueAt), version, key, now);
  }

  /** Completing sets the status, and the completion time of a task that was not DONE. */
  lemma CompleteOutcome(s: Store, id: nat, version: Option<int>, key: Option<OpKey>, now: int)
    requires Update(s, id, CompletePatch(), version, key, now).store != s
    ensures var s' := Update(s, id, CompletePatch(), version, key, now).store;
            && ChangesTask(s, s', id, key)
            && s'.tasks[id].fields == s.tasks[id].fields.(status := Done)
            && (s.tasks[id].fields.status != Done ==> s'.tasks[id].completedAt == Some(now))
  {
    UpdateOutcome(s, id, CompletePatch(), version, key, now);
  }

  /** Cancelling, which is accepted from every status, sets the status alone. */
  lemma CancelOutcome(s: Store, id: nat, version: Option<int>, key: Option<OpKey>)
    ensures var s' := Cancel(s, id, version, key).store;
            && (s' != s <==>
                && id < |s.tasks|
                && (key.Some? ==> forall k :: 0 <= k < |s.events| ==> s.events[k].key != key)
                && (version.Some? ==> version.value == s.tasks[id].version))
            && (s' != s ==>
                && ChangesTask(s, s', id, key) && Cancel(s, id, version, key).reply == Ok(id)
                && s'.tasks[id].fields == s.tasks[id].fields.(status := Cancelled)
                && s'.tasks[id].completedAt == s.tasks[id].completedAt
                && s'.events[|s.events|].kind == TaskCancelled)
  {
    if key.Some? {
      assert KeyRecorded(s.events, key.value) <==> exists k :: 0 <= k < |s.events| && s.events[k].key == key;
    }
    var s' := Cancel(s, id, version, key).store;
    assert |s'.events| != |s.events| ==> s' != s;
  }

  /** A create makes one task with the given columns under the given key, with an
      event and the link to its source, if and only if the key is new and the source,
      if one is named, exists. */
  lemma CreateOutcome(s: Store, data: NewTask, generated: nat, sources: nat)
    ensures var o := Create(s, data, generated, sources);
            var key := match data.key case Some(k) => k case None => Generated(generated);
            var n := |s.tasks|;
            && (o.store != s <==>
                && (forall i :: 0 <= i < n ==> s.tasks[i].key != key)
                && (forall k :: 0 <= k < |s.events| ==> s.events[k].key != Some(key))
                && (data.source.Some? ==> data.source.value < sources))
            && (o.store != s ==>
                && o.reply == Ok(n)
                && o.store.tasks == s.tasks + [Task(data.fields, 1, None, None, key)]
                && o.store.links == s.links + (if data.source.Some? then [Link(n, data.source.value)] else [])
                && |o.store.events| == |s.events| + 1
                && (forall k :: 0 <= k < |s.events| ==> o.store.events[k] == s.events[k])
                && var e := o.store.events[|s.events|];
                   && e.task == n && e.kind == TaskCreated && e.key == Some(key) && e.oldValue == None
                   && e.newValue.Some? && e.newValue.value.title == Set(Some(data.fields.title))
                   && e.newValue.value.taskType == Set(Some(data.fields.taskType)))
  {
    var key := match data.key case Some(k) => k case None => Generated(generated);
    assert HasTaskKey(s.tasks, key) <==> exists i :: 0 <= i < |s.tasks| && s.tasks[i].key == key;
    assert KeyRecorded(s.events, key) <==> exists k :: 0 <= k < |s.events| && s.events[k].key == Some(key);
    var s' := Create(s, data, generated, sources).store;
    assert |s'.tasks| != |s.tasks| ==> s' != s;
  }

  /******* The log, column by column *******/

  /** The value that the log last gave a column of the task, if any. */
  function LastEdit<T(==)>(events: seq<Event>, id: nat, column: Patch -> Edit<T>): Edit<T> {
    if events == [] then Keep
    else
      var e := events[|events| - 1];
      if e.task == id && e.kind in {TaskUpdated, StatusChanged} && e.newValue.Some? && column(e.newValue.value).Set?
      then column(e.newValue.value)
      else LastEdit(events[..|events| - 1], id, column)
  }

  /** The same of the status, which a cancellation gives, too. */
  function LastStatus(events: seq<Event>, id: nat): Edit<TaskStatus> {
    if events == [] then Keep
    else
      var e := events[|events| - 1];
      if e.task == id && e.kind == TaskCancelled then Set(Some(Cancelled))
      else if e.task == id && e.kind in {TaskUpdated, StatusChanged} && e.newValue.Some? && e.newValue.value.status.Set?
      then e.newValue.value.status
      else LastStatus(events[..|events| - 1], id)
  }

  /** Every column is what the log last gave it, or as in `f`. */
  predicate IsToldByLog(f: Fields, events: seq<Event>, id: nat, f': Fields) {
    && Gets(LastEdit(events, id, (p: Patch) => p.title), Some(f.title), Some(f'.title))
    && Gets(LastEdit(events, id, (p: Patch) => p.description), f.description, f'.description)
    && Gets(LastEdit(events, id, (p: Patch) => p.taskType), Some(f.taskType), Some(f'.taskType))
    && Gets(LastEdit(events, id, (p: Patch) => p.priority), Some(f.priority), Some(f'.priority))
    && Gets(LastEdit(events, id, (p: Patch) => p.assignee), f.assignee, f'.assignee)
    && Gets(LastEdit(events, id, (p: Patch) => p.startAt), f.startAt, f'.startAt)
    && Gets(LastEdit(events, id, (p: Patch) => p.dueAt), f.dueAt, f'.dueAt)
    && Gets(LastEdit(events, id, (p: Patch) => p.dueDate), f.dueDate, f'.dueDate)
    && Gets(LastEdit(events, id, (p: Patch) => p.duePrecision), Some(f.duePrecision), Some(f'.duePrecision))
    && Gets(LastEdit(events, id, (p: Patch) => p.nextCheckAt), f.nextCheckAt, f'.nextCheckAt)
    && Gets(LastStatus(events, id), Some(f.status), Some(f'.status))
  }

  /** Events that the service logs set no required column to null. */
  predicate IsLogged(e: Event) {
    match e.kind
    case TaskUpdated => e.newValue.Some? && !NullsRequired(e.newValue.value)
    case StatusChanged => e.newValue.Some? && !NullsRequired(e.newValue.value)
    case _ => true
  }

  predicate AllLogged(events: seq<Event>) {
    forall k :: 0 <= k < |events| ==> IsLogged(events[k])
  }

  lemma StepLogs(s: Store, op: Op)
    ensures s.events <= Step(s, op).events
    ensures AllLogged(Step(s, op).events[|s.events|..])
  {}

  lemma {:induction false} RunLogs(s: Store, ops: seq<Op>)
    ensures s.events <= Run(s, ops).events && AllLogged(Run(s, ops).events[|s.events|..])
    decreases |ops|
  {
    if ops != [] {
      var mid, s' := Run(s, ops[..|ops| - 1]), Run(s, ops);
      RunLogs(s, ops[..|ops| - 1]);
      StepLogs(mid, ops[|ops| - 1]);
      assert s'.events[|s.events|..] == mid.events[|s.events|..] + s'.events[|mid.events|..];
    }
  }

  lemma OneEventTells(f: Fields, front: seq<Event>, e: Event, id: nat)
    requires IsLogged(e) && IsToldByLog(f, front, id, Replay(f, front, id))
    ensures IsToldByLog(f, front + [e], id, Replay(f, front + [e], id))
  {
    assert (front + [e])[..|front + [e]| - 1] == front;
  }

  lemma {:induction false} LogTells(f: Fields, events: seq<Event>, id: nat)
    requires AllLogged(events)
    ensures IsToldByLog(f, events, id, Replay(f, events, id))
    decreases |events|
  {
    if events != [] {
      var front, e := events[..|events| - 1], events[|events| - 1];
      assert events == front + [e] && IsLogged(e);
      LogTells(f, front, id);
      OneEventTells(f, front, e, id);
    }
  }

  /** Over any run, each column of a task is what the new events last gave it, or as
      it was at the start: the deadline, the status and every other one. */
  lemma {:induction false} LogGivesColumns(s: Store, ops: seq<Op>, id: nat)
    requires id < |s.tasks|
    ensures id < |Run(s, ops).tasks| && s.events <= Run(s, ops).events
    ensures IsToldByLog(s.tasks[id].fields, Run(s, ops).events[|s.events|..], id, Run(s, ops).tasks[id].fields)
  {
    AuditLogDeterminesTask(s, ops, id);
    RunLogs(s, ops);
    LogTells(s.tasks[id].fields, Run(s, ops).events[|s.events|..], id);
  }
}
