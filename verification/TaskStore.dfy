/** The task tables and the effect of each task operation on them.

    A row's identity is its position in its table.  Every operation is one
    transaction: it either commits or leaves the store as it was. */
module TaskStore {
  import opened Wrappers

  /******* Rows *******/

  datatype TaskStatus =
    | New | UnknownParty | Planned | InProgress | Waiting
    | Done | Overdue | Postponed | OnHold | Cancelled

  datatype TaskType = MyTask | Delegated | Awaiting

  datatype Priority = P1 | P2 | P3 | P4

  datatype DuePrecision = Exact | Date | Approximate | Unknown

  /** Idempotency and operation keys, by the caller that makes them. */
  datatype OpKey =
    | Api(text: string)
    | Generated(uuid: nat)
    | TelegramNew(message: string)
    | TelegramCallback(callback: string)
    | TelegramFollowUp(callback: string)
    | TelegramEdit(task: nat, version: int)
    | CandidateCreate(source: nat)

  /** The columns that a task update may change and that its audit event records. */
  datatype Fields = Fields(
    title: string,
    description: Option<string>,
    taskType: TaskType,
    priority: Priority,
    assignee: Option<nat>,
    startAt: Option<int>,
    dueAt: Option<int>,
    dueDate: Option<int>,
    duePrecision: DuePrecision,
    nextCheckAt: Option<int>,
    status: TaskStatus)

  datatype Task = Task(
    fields: Fields,
    version: int,
    completedAt: Option<int>,
    lastRemindedAt: Option<int>,
    key: OpKey)

  /** One column of an update: left out, or set (possibly to null). */
  datatype Edit<+T> = Keep | Set(value: Option<T>)

  /** The columns set by an update; also the old and new values of its event. */
  datatype Patch = Patch(
    title: Edit<string>,
    description: Edit<string>,
    taskType: Edit<TaskType>,
    priority: Edit<Priority>,
    assignee: Edit<nat>,
    startAt: Edit<int>,
    dueAt: Edit<int>,
    dueDate: Edit<int>,
    duePrecision: Edit<DuePrecision>,
    nextCheckAt: Edit<int>,
    status: Edit<TaskStatus>)

  const NoChange := Patch(Keep, Keep, Keep, Keep, Keep, Keep, Keep, Keep, Keep, Keep, Keep)

  datatype EventKind = TaskCreated | TaskUpdated | StatusChanged | TaskCancelled

  datatype Event = Event(
    task: nat,
    kind: EventKind,
    oldValue: Option<Patch>,
    newValue: Option<Patch>,
    key: Option<OpKey>)

  /** A CREATED_FROM link between a task and a source message. */
  datatype Link = Link(task: nat, source: nat)

  datatype Store = Store(tasks: seq<Task>, events: seq<Event>, links: seq<Link>)

  const Empty := Store([], [], [])

  /******* Status machine *******/

  predicate IsActive(status: TaskStatus) {
    status != Done && status != Cancelled
  }

  function AllowedTransitions(status: TaskStatus): set<TaskStatus> {
    match status
    case New => {UnknownParty, Planned, InProgress, Waiting, Done, Postponed}
    case UnknownParty => {New, Planned, InProgress, Waiting, Done, Postponed, OnHold}
    case Planned => {UnknownParty, InProgress, Waiting, Done, Postponed}
    case InProgress => {UnknownParty, Waiting, Done, Postponed, OnHold}
    case Waiting => {UnknownParty, InProgress, Done, Postponed}
    case Postponed => {UnknownParty, Planned, InProgress, Done}
    case OnHold => {UnknownParty, Planned, InProgress, Done}
    case Overdue => {UnknownParty, Done, Postponed, InProgress}
    case Done => {}
    case Cancelled => {}
  }

  predicate ValidTransition(current: TaskStatus, next: TaskStatus) {
    || (next == Cancelled && IsActive(current))
    || next == current
    || next in AllowedTransitions(current)
  }

  /******* Patches *******/

  function Over<T>(edit: Edit<T>, current: Option<T>): Option<T> {
    match edit
    case Keep => current
    case Set(v) => v
  }

  /** The new value of a column that may not be null. */
  function OverRequired<T>(edit: Edit<T>, current: T): T {
    match edit
    case Set(Some(v)) => v
    case _ => current
  }

  function Prior<T>(edit: Edit<T>, current: Option<T>): Edit<T> {
    match edit
    case Keep => Keep
    case Set(_) => Set(current)
  }

  function Apply(f: Fields, p: Patch): Fields {
    Fields(
      OverRequired(p.title, f.title),
      Over(p.description, f.description),
      OverRequired(p.taskType, f.taskType),
      OverRequired(p.priority, f.priority),
      Over(p.assignee, f.assignee),
      Over(p.startAt, f.startAt),
      Over(p.dueAt, f.dueAt),
      Over(p.dueDate, f.dueDate),
      OverRequired(p.duePrecision, f.duePrecision),
      Over(p.nextCheckAt, f.nextCheckAt),
      OverRequired(p.status, f.status))
  }

  /** The current values of exactly the columns that `p` sets. */
  function Snapshot(f: Fields, p: Patch): Patch {
    Patch(
      Prior(p.title, Some(f.title)),
      Prior(p.description, f.description),
      Prior(p.taskType, Some(f.taskType)),
      Prior(p.priority, Some(f.priority)),
      Prior(p.assignee, f.assignee),
      Prior(p.startAt, f.startAt),
      Prior(p.dueAt, f.dueAt),
      Prior(p.dueDate, f.dueDate),
      Prior(p.duePrecision, Some(f.duePrecision)),
      Prior(p.nextCheckAt, f.nextCheckAt),
      Prior(p.status, Some(f.status)))
  }

  /** The update sets a column to null that the table declares NOT NULL. */
  predicate NullsRequired(p: Patch) {
    p.title == Set(None) || p.taskType == Set(None) || p.priority == Set(None)
    || p.duePrecision == Set(None) || p.status == Set(None)
  }

  /******* Operations *******/

  datatype TaskError = NotFound | VersionConflict | InvalidTransition | SourceNotFound | IntegrityError

  /** The store after an operation, and the task it answers with. */
  datatype Outcome = Outcome(store: Store, reply: Result<nat, TaskError>)

  datatype NewTask = NewTask(fields: Fields, key: Option<OpKey>, source: Option<nat>)

  predicate KeyRecorded(events: seq<Event>, key: OpKey) {
    exists i :: 0 <= i < |events| && events[i].key == Some(key)
  }

  predicate HasTaskKey(tasks: seq<Task>, key: OpKey) {
    exists i :: 0 <= i < |tasks| && tasks[i].key == key
  }

  /** The first task created under `key`. */
  function TaskByKey(tasks: seq<Task>, key: OpKey): (id: nat)
    requires HasTaskKey(tasks, key)
    ensures id < |tasks| && tasks[id].key == key
    ensures forall i :: 0 <= i < id ==> tasks[i].key != key
  {
    if tasks[0].key == key then 0
    else
      assert HasTaskKey(tasks[1..], key) by {
        var i :| 0 <= i < |tasks| && tasks[i].key == key;
        assert tasks[1..][i - 1].key == key;
      }
      var rest := TaskByKey(tasks[1..], key);
      assert forall i :: 1 <= i < 1 + rest ==> tasks[i] == tasks[1..][i - 1];
      1 + rest
  }

  /** Whether a caller's key is looked up before the operation: an empty key is not. */
  predicate IsLookedUp(key: Option<OpKey>) {
    key.Some? && key != Some(Api(""))
  }

  /** The event log has a unique index on keys, checked when the event is inserted. */
  predicate KeyClashes(events: seq<Event>, key: Option<OpKey>) {
    key.Some? && KeyRecorded(events, key.value)
  }

  /** Create a task, or answer with the one already created under the same key.
      `generated` is used when the caller gives no key; `sources` is the
      number of rows in the source message table. */
  function Create(s: Store, data: NewTask, generated: nat, sources: nat): Outcome {
    var key := if data.key.Some? then data.key.value else Generated(generated);
    if HasTaskKey(s.tasks, key) then
      Outcome(s, Ok(TaskByKey(s.tasks, key)))
    else if data.source.Some? && data.source.value >= sources then
      Outcome(s, Err(SourceNotFound))
    else if KeyRecorded(s.events, key) then
      Outcome(s, Err(IntegrityError))
    else
      var id := |s.tasks|;
      Outcome(
        Store(
          s.tasks + [Task(data.fields, 1, None, None, key)],
          s.events + [CreatedEvent(id, data.fields, key)],
          if data.source.Some? then s.links + [Link(id, data.source.value)] else s.links),
        Ok(id))
  }

  function CreatedEvent(id: nat, f: Fields, key: OpKey): Event {
    Event(id, TaskCreated, None,
          Some(NoChange.(title := Set(Some(f.title)), taskType := Set(Some(f.taskType)))),
          Some(key))
  }

  predicate ChangesStatus(f: Fields, p: Patch) {
    p.status.Set? && p.status.value.Some? && p.status.value.value != f.status
  }

  function UpdatedTask(task: Task, p: Patch, now: int): Task {
    task.(fields := Apply(task.fields, p),
          version := task.version + 1,
          completedAt := if !ChangesStatus(task.fields, p) then task.completedAt
                         else if p.status.value.value == Done then Some(now) else None)
  }

  function UpdatedEvent(id: nat, f: Fields, p: Patch, key: Option<OpKey>): Event {
    Event(id, if p.status.Set? && p.status.value.Some? then StatusChanged else TaskUpdated,
          Some(Snapshot(f, p)), Some(p), key)
  }

  function Update(s: Store, id: nat, p: Patch, version: Option<int>, key: Option<OpKey>, now: int): Outcome {
    if id >= |s.tasks| then
      Outcome(s, Err(NotFound))
    else if IsLookedUp(key) && KeyRecorded(s.events, key.value) then
      Outcome(s, Ok(id))
    else if version.Some? && version.value != s.tasks[id].version then
      Outcome(s, Err(VersionConflict))
    else if ChangesStatus(s.tasks[id].fields, p)
            && !ValidTransition(s.tasks[id].fields.status, p.status.value.value) then
      Outcome(s, Err(InvalidTransition))
    else if NullsRequired(p) || KeyClashes(s.events, key) then
      Outcome(s, Err(IntegrityError))
    else
      Outcome(
        s.(tasks := s.tasks[id := UpdatedTask(s.tasks[id], p, now)],
           events := s.events + [UpdatedEvent(id, s.tasks[id].fields, p, key)]),
        Ok(id))
  }

  function Cancel(s: Store, id: nat, version: Option<int>, key: Option<OpKey>): Outcome {
    if id >= |s.tasks| then
      Outcome(s, Err(NotFound))
    else if IsLookedUp(key) && KeyRecorded(s.events, key.value) then
      Outcome(s, Ok(id))
    else if version.Some? && version.value != s.tasks[id].version then
      Outcome(s, Err(VersionConflict))
    else if KeyClashes(s.events, key) then
      Outcome(s, Err(IntegrityError))
    else
      var task := s.tasks[id];
      Outcome(
        s.(tasks := s.tasks[id := task.(fields := task.fields.(status := Cancelled), version := task.version + 1)],
           events := s.events + [Event(id, TaskCancelled, None, None, key)]),
        Ok(id))
  }

  function CompletePatch(): Patch {
    NoChange.(status := Set(Some(Done)))
  }

  function PostponePatch(newDueAt: int): Patch {
    NoChange.(dueAt := Set(Some(newDueAt)), status := Set(Some(Postponed)))
  }

  /** The sender notes on the task when it was last reminded. */
  function Remind(s: Store, id: nat, now: int): Store {
    if id < |s.tasks| then s.(tasks := s.tasks[id := s.tasks[id].(lastRemindedAt := Some(now))]) else s
  }

  /******* Runs *******/

  datatype Op =
    | OpCreate(data: NewTask, generated: nat, sources: nat)
    | OpUpdate(id: nat, patch: Patch, version: Option<int>, key: Option<OpKey>, now: int)
    | OpCancel(id: nat, version: Option<int>, key: Option<OpKey>)
    | OpRemind(id: nat, now: int)

  function Step(s: Store, op: Op): Store {
    match op
    case OpCreate(data, generated, sources) => Create(s, data, generated, sources).store
    case OpUpdate(id, p, version, key, now) => Update(s, id, p, version, key, now).store
    case OpCancel(id, version, key) => Cancel(s, id, version, key).store
    case OpRemind(id, now) => Remind(s, id, now)
  }

  /** The store after a whole run of operations, in any interleaving of callers. */
  function Run(s: Store, ops: seq<Op>): Store {
    if ops == [] then s else Step(Run(s, ops[..|ops| - 1]), ops[|ops| - 1])
  }

  /** The key an operation records when it takes effect. */
  function RecordedKey(op: Op): Option<OpKey> {
    match op
    case OpCreate(data, generated, _) => if data.key.Some? then data.key else Some(Generated(generated))
    case OpUpdate(_, _, _, key, _) => key
    case OpCancel(_, _, key) => key
    case OpRemind(_, _) => None
  }
}
