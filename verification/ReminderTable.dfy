/** The reminder table and the effect of planning, sending, snoozing and adding
    on it, together with a log of every delivery attempt. */
module ReminderTable {
  import opened Wrappers
  import opened LocalTime
  import opened QuietHours
  import opened TaskStore
  import opened ReminderPolicy

  datatype ReminderStatus = Pending | Retry | Sent | Failed | Cancelled

  datatype Reminder = Reminder(
    task: nat,
    remindAt: int,
    kind: ReminderKind,
    status: ReminderStatus,
    attempts: nat,
    sentAt: Option<int>,
    lastError: Option<string>,
    key: DedupeKey)

  /** A row that the sender may still pick. */
  predicate IsOpen(r: Reminder) {
    r.status == Pending || r.status == Retry
  }

  /** A row whose delivery is over, successfully or not. */
  predicate IsFinal(r: Reminder) {
    r.status == Sent || r.status == Failed
  }

  predicate HasKey(rows: seq<Reminder>, key: DedupeKey) {
    exists i :: 0 <= i < |rows| && rows[i].key == key
  }

  /** The row under a key, if there is one. */
  function FindRow(rows: seq<Reminder>, key: DedupeKey): (found: Option<nat>)
    ensures found.Some? ==> found.value < |rows| && rows[found.value].key == key
    ensures found.None? ==> !HasKey(rows, key)
  {
    if rows == [] then None
    else if rows[|rows| - 1].key == key then Some(|rows| - 1)
    else FindRow(rows[..|rows| - 1], key)
  }

  function NewReminder(task: nat, remindAt: int, kind: ReminderKind, key: DedupeKey): Reminder {
    Reminder(task, remindAt, kind, Pending, 0, None, None, key)
  }

  /******* Planning *******/

  /** The reminder asked for under `key`, if any. */
  function SpecFor(specs: seq<ReminderSpec>, key: DedupeKey): (spec: Option<ReminderSpec>)
    ensures spec.Some? <==> Wants(specs, key)
    ensures spec.Some? ==> spec.value in specs && spec.value.key == key
  {
    if specs == [] then None
    else if specs[|specs| - 1].key == key then Some(specs[|specs| - 1])
    else
      var front := specs[..|specs| - 1];
      assert Wants(specs, key) ==> Wants(front, key) by {
        if Wants(specs, key) {
          var i :| 0 <= i < |specs| && specs[i].key == key;
          assert front[i].key == key;
        }
      }
      SpecFor(front, key)
  }

  predicate IsPolicyRow(r: Reminder, id: nat) {
    r.task == id && IsPolicyKey(r.key, id)
  }

  /** What planning task `id` does to an existing row. */
  function PlanRow(r: Reminder, id: nat, specs: seq<ReminderSpec>): Reminder {
    if !IsPolicyRow(r, id) then r
    else match SpecFor(specs, r.key)
      case None => if IsOpen(r) then r.(status := ReminderStatus.Cancelled) else r
      case Some(spec) => Reschedule(r, spec)
  }

  /** A wanted row: revived if cancelled, and never earlier than the policy time
      if pending. */
  function Reschedule(r: Reminder, spec: ReminderSpec): Reminder {
    if r.status == ReminderStatus.Cancelled then
      r.(status := Pending, remindAt := spec.remindAt, kind := spec.kind, lastError := None)
    else if r.status == Pending && r.remindAt < spec.remindAt then
      r.(remindAt := spec.remindAt)
    else r
  }

  /** The rows inserted for wanted keys that the table does not have. */
  function MissingRows(rows: seq<Reminder>, id: nat, specs: seq<ReminderSpec>): seq<Reminder> {
    if specs == [] then []
    else
      var spec := specs[|specs| - 1];
      MissingRows(rows, id, specs[..|specs| - 1]) +
      if HasKey(rows, spec.key) then [] else [NewReminder(id, spec.remindAt, spec.kind, spec.key)]
  }

  function PlanTask(rows: seq<Reminder>, id: nat, specs: seq<ReminderSpec>): seq<Reminder> {
    seq(|rows|, i requires 0 <= i < |rows| => PlanRow(rows[i], id, specs)) + MissingRows(rows, id, specs)
  }

  /** One planning round over the listed tasks. */
  function Plan(rows: seq<Reminder>, tasks: seq<Task>, listed: seq<nat>, now: int, offset: int): seq<Reminder>
    requires forall k :: 0 <= k < |listed| ==> listed[k] < |tasks|
  {
    if listed == [] then rows
    else
      var id := listed[|listed| - 1];
      PlanTask(Plan(rows, tasks, listed[..|listed| - 1], now, offset), id,
               Specs(id, tasks[id].fields, now, offset))
  }

  /******* Sending *******/

  /** What the Telegram client answers. */
  datatype Delivery = Delivered | NotDelivered(error: string)

  /** One delivery attempt, and whether the program was told that it got through. */
  datatype Attempt = Attempt(key: DedupeKey, task: nat, at: int, delivered: bool)

  const MAX_ATTEMPTS := 3
  const RETRY_DELAYS := [5 * MINUTE, 30 * MINUTE, 2 * HOUR]

  function RetryDelay(attempts: nat): (d: int)
    requires attempts > 0
    ensures d > 0
  {
    RETRY_DELAYS[if attempts - 1 <= 2 then attempts - 1 else 2]
  }

  predicate IsDue(r: Reminder, now: int) {
    IsOpen(r) && r.remindAt <= now
  }

  function Truncated(text: string, n: nat): string {
    if |text| <= n then text else text[..n]
  }

  /** What a send round does to a row it picked. */
  function SendRow(r: Reminder, active: bool, now: int, offset: int, w: Window, d: Delivery): Reminder
    requires ValidWindow(w)
  {
    if IsQuiet(now, offset, w) then
      r.(remindAt := QuietHoursEnd(now, offset, w), status := Pending)
    else if !active then
      r.(status := ReminderStatus.Cancelled)
    else match d
      case NotDelivered(error) =>
        var n := r.attempts + 1;
        var r' := r.(attempts := n, lastError := Some(Truncated(error, 2000)));
        if n >= MAX_ATTEMPTS then r'.(status := Failed)
        else r'.(status := Retry, remindAt := now + RetryDelay(n))
      case Delivered =>
        r.(status := Sent, sentAt := Some(now), attempts := r.attempts + 1)
  }

  /** The rows, the attempt log and the task tables together. */
  datatype World = World(store: Store, rows: seq<Reminder>, log: seq<Attempt>)

  predicate IsLive(s: Store, id: nat) {
    id < |s.tasks| && IsActive(s.tasks[id].fields.status)
  }

  /** One picked row of a send round. */
  function SendOne(w: World, i: nat, now: int, offset: int, q: Window, deliver: nat -> Delivery): World
    requires i < |w.rows| && ValidWindow(q)
  {
    var r := w.rows[i];
    var rows := w.rows[i := SendRow(r, IsLive(w.store, r.task), now, offset, q, deliver(i))];
    if IsQuiet(now, offset, q) || !IsLive(w.store, r.task) then w.(rows := rows)
    else
      World(
        if deliver(i).Delivered? then Remind(w.store, r.task, now) else w.store,
        rows,
        w.log + [Attempt(r.key, r.task, now, deliver(i).Delivered?)])
  }

  /** A send round over the picked rows, in order. */
  function SendBatch(w: World, picked: seq<nat>, now: int, offset: int, q: Window,
                     deliver: nat -> Delivery): (w': World)
    requires ValidWindow(q)
    requires forall k :: 0 <= k < |picked| ==> picked[k] < |w.rows|
    ensures |w'.rows| == |w.rows|
  {
    if picked == [] then w
    else
      SendOne(SendBatch(w, picked[..|picked| - 1], now, offset, q, deliver), picked[|picked| - 1],
              now, offset, q, deliver)
  }

  /** The rows due at `now`. */
  function DueRows(rows: seq<Reminder>, now: int): set<nat> {
    set i: nat | i < |rows| && IsDue(rows[i], now)
  }

  /** `picked` answers the sender's query: due rows, the earliest first, at most
      `limit` of them. */
  ghost predicate IsBatch(rows: seq<Reminder>, now: int, limit: nat, picked: seq<nat>) {
    && (forall k :: 0 <= k < |picked| ==> picked[k] in DueRows(rows, now))
    && (forall j, k :: 0 <= j < k < |picked| ==> picked[j] != picked[k])
    && (forall j, k :: 0 <= j < k < |picked| ==> rows[picked[j]].remindAt <= rows[picked[k]].remindAt)
    && |picked| == (if |DueRows(rows, now)| < limit then |DueRows(rows, now)| else limit)
    && (forall i, k :: i in DueRows(rows, now) && i !in picked && 0 <= k < |picked| ==>
          rows[picked[k]].remindAt <= rows[i].remindAt)
  }

  /******* Snoozing and adding *******/

  function SnoozeRow(r: Reminder, id: nat, until: int): Reminder {
    if r.task == id && IsOpen(r) then r.(remindAt := until, status := Pending, lastError := None) else r
  }

  function Snooze(rows: seq<Reminder>, id: nat, until: int): seq<Reminder> {
    seq(|rows|, i requires 0 <= i < |rows| => SnoozeRow(rows[i], id, until))
  }

  /** Adds a row unless its key is taken. */
  function Add(rows: seq<Reminder>, r: Reminder): seq<Reminder> {
    if HasKey(rows, r.key) then rows else rows + [r]
  }

  function ManualReminder(id: nat, at: int): Reminder {
    NewReminder(id, at, StatusCheck, Manual(id, at))
  }

  function FollowUpReminder(id: nat, at: int, key: Option<OpKey>): Reminder {
    NewReminder(id, at, AwaitingFollowUp, if IsLookedUp(key) then Operation(key.value) else FollowUp(id, at))
  }

  /******* Steps *******/

  datatype Step =
    | TaskStep(op: Op)
    | PlanStep(listed: seq<nat>, now: int, offset: int)
    | SendStep(picked: seq<nat>, limit: nat, now: int, offset: int, quiet: Window, deliver: nat -> Delivery)
    | SnoozeStep(task: nat, until: int)
    | ManualStep(task: nat, at: int)
    | FollowUpStep(task: nat, at: int, key: Option<OpKey>)

  /** The step is one that its caller can make in this state. */
  ghost predicate Enabled(w: World, step: Step) {
    match step
    case TaskStep(_) => true
    case PlanStep(listed, _, _) => forall k :: 0 <= k < |listed| ==> listed[k] < |w.store.tasks|
    case SendStep(picked, limit, now, _, quiet, _) => ValidWindow(quiet) && IsBatch(w.rows, now, limit, picked)
    case SnoozeStep(task, _) => task < |w.store.tasks|
    case ManualStep(task, _) => task < |w.store.tasks|
    case FollowUpStep(task, _, _) => task < |w.store.tasks|
  }

  function Next(w: World, step: Step): World
    requires Enabled(w, step)
  {
    match step
    case TaskStep(op) => w.(store := TaskStore.Step(w.store, op))
    case PlanStep(listed, now, offset) => w.(rows := Plan(w.rows, w.store.tasks, listed, now, offset))
    case SendStep(picked, _, now, offset, quiet, deliver) => SendBatch(w, picked, now, offset, quiet, deliver)
    case SnoozeStep(task, until) => w.(rows := Snooze(w.rows, task, until))
    case ManualStep(task, at) => w.(rows := Add(w.rows, ManualReminder(task, at)))
    case FollowUpStep(task, at, key) =>
      if w.store.tasks[task].fields.taskType != Awaiting then w
      else w.(rows := Add(w.rows, FollowUpReminder(task, at, key)))
  }

  /** A run: each step enabled in the state before it. */
  ghost predicate IsRun(w: World, steps: seq<Step>)
    decreases |steps|, 0
  {
    steps == [] ||
    (IsRun(w, steps[..|steps| - 1]) && Enabled(After(w, steps[..|steps| - 1]), steps[|steps| - 1]))
  }

  function After(w: World, steps: seq<Step>): World
    requires IsRun(w, steps)
    decreases |steps|, 1
  {
    if steps == [] then w else Next(After(w, steps[..|steps| - 1]), steps[|steps| - 1])
  }
}
