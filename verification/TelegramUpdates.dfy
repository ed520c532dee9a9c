/** The Telegram updates that change tasks, and which of them may be handled twice. */
module TelegramUpdates {
  import opened Wrappers
  import opened LocalTime
  import opened TaskStore
  import opened TaskHistory

  datatype Action = PressDone | PressWaiting | PressPostpone | PressCancel

  /** A `/new` message, a press of a task button or of the button that closes an
      awaited task, an `/edit` command, or an update that changes no task row. */
  datatype Update =
    | NewMessage(message: string, title: string)
    | Press(callback: string, action: Action, task: nat, version: int)
    | FollowUpPress(callback: string, task: nat, version: int)
    | EditCommand(task: nat, title: string)
    | NoTaskChange

  const MAX_TITLE := 500

  /** A title that a task may have; a message without one creates nothing. */
  predicate IsTitle(title: string) {
    1 <= |title| <= MAX_TITLE
  }

  const Defaults := Fields("", None, MyTask, P3, None, None, None, None, Unknown, None, New)

  function PressPatch(action: Action, now: int): Patch
    requires action != PressCancel
  {
    match action
    case PressDone => CompletePatch()
    case PressWaiting => NoChange.(status := Set(Some(Waiting)))
    case PressPostpone => PostponePatch(now + DAY)
  }

  /** The task operation that handling an update at `now` amounts to.  The key of
      an edit holds the version that the handler reads. */
  function Operation(s: Store, u: Update, now: int): Option<Op> {
    match u
    case NewMessage(message, title) =>
      if !IsTitle(title) then None
      else Some(OpCreate(NewTask(Defaults.(title := title), Some(TelegramNew(message)), None), 0, 0))
    case Press(callback, action, task, version) =>
      var key := Some(TelegramCallback(callback));
      Some(if action == PressCancel then OpCancel(task, Some(version), key)
           else OpUpdate(task, PressPatch(action, now), Some(version), key, now))
    case FollowUpPress(callback, task, version) =>
      if task >= |s.tasks| || s.tasks[task].fields.taskType != Awaiting then None
      else Some(OpUpdate(task, CompletePatch(), Some(version), Some(TelegramFollowUp(callback)), now))
    case EditCommand(task, title) =>
      if task >= |s.tasks| || !IsTitle(title) then None
      else
        var version := s.tasks[task].version;
        Some(OpUpdate(task, TitlePatch(title), Some(version), Some(TelegramEdit(task, version)), now))
    case NoTaskChange => None
  }

  function TitlePatch(title: string): Patch {
    NoChange.(title := Set(Some(title)))
  }

  function Handle(s: Store, u: Update, now: int): Store {
    var op := Operation(s, u, now);
    if op.None? then s else Step(s, op.value)
  }

  function Target(action: Action): TaskStatus {
    match action
    case PressDone => Done
    case PressWaiting => Waiting
    case PressPostpone => Postponed
    case PressCancel => TaskStatus.Cancelled
  }

  /** Whether a press that targets `target` can still be accepted: now, if its
      version is the current one, or after other operations, if it is newer. */
  predicate IsReachable(status: TaskStatus, target: TaskStatus, current: bool) {
    if current then ValidTransition(status, target)
    else IsActive(status) || status == target
  }

  /** The task has moved past the version of the press, or the press is refused for
      the task's status, now and later. */
  predicate IsRefused(task: Task, action: Action, version: int) {
    || version < task.version
    || (action != PressCancel && !IsReachable(task.fields.status, Target(action), version == task.version))
  }

  /** The same of the press that closes an awaited task. */
  predicate IsFollowUpRefused(task: Task, version: int) {
    || version < task.version
    || task.fields.status == TaskStatus.Cancelled
    || (version == task.version && task.fields.taskType != Awaiting)
  }

  /** Handling the update in this state, or in any later one, changes nothing:
      it was recorded, or it is refused for a reason that no later operation
      removes. */
  predicate IsSpent(s: Store, u: Update) {
    match u
    case NewMessage(message, title) =>
      !IsTitle(title) || HasTaskKey(s.tasks, TelegramNew(message)) || KeyRecorded(s.events, TelegramNew(message))
    case Press(callback, action, task, version) =>
      || KeyRecorded(s.events, TelegramCallback(callback))
      || (task < |s.tasks| && IsRefused(s.tasks[task], action, version))
    case FollowUpPress(callback, task, version) =>
      || KeyRecorded(s.events, TelegramFollowUp(callback))
      || (task < |s.tasks| && IsFollowUpRefused(s.tasks[task], version))
    case EditCommand(_, title) => !IsTitle(title)
    case NoTaskChange => true
  }

  lemma SpentHandlingChangesNothing(s: Store, u: Update, now: int)
    requires IsSpent(s, u)
    ensures Handle(s, u, now) == s
  {}

  lemma StepKeepsSpent(s: Store, u: Update, op: Op)
    requires IsSpent(s, u)
    ensures IsSpent(Step(s, op), u)
  {
    var s' := Step(s, op);
    match u
    case NewMessage(message, title) =>
      if HasTaskKey(s.tasks, TelegramNew(message)) {
        var i :| 0 <= i < |s.tasks| && s.tasks[i].key == TelegramNew(message);
        assert s'.tasks[i].key == TelegramNew(message);
      } else if KeyRecorded(s.events, TelegramNew(message)) {
        RecordedStays(s.events, s'.events, TelegramNew(message));
      }
    case Press(callback, action, task, version) =>
      if KeyRecorded(s.events, TelegramCallback(callback)) {
        RecordedStays(s.events, s'.events, TelegramCallback(callback));
      } else {
        PressStaysRefused(s, task, version, action, op);
      }
    case FollowUpPress(callback, task, version) =>
      if KeyRecorded(s.events, TelegramFollowUp(callback)) {
        RecordedStays(s.events, s'.events, TelegramFollowUp(callback));
      } else {
        FollowUpStaysRefused(s, task, version, op);
      }
    case EditCommand(_, _) =>
    case NoTaskChange =>
  }

  lemma PressStaysRefused(s: Store, task: nat, version: int, action: Action, op: Op)
    requires task < |s.tasks| && IsRefused(s.tasks[task], action, version)
    ensures |s.tasks| <= |Step(s, op).tasks| && IsRefused(Step(s, op).tasks[task], action, version)
  {}

  lemma FollowUpStaysRefused(s: Store, task: nat, version: int, op: Op)
    requires task < |s.tasks| && IsFollowUpRefused(s.tasks[task], version)
    ensures |s.tasks| <= |Step(s, op).tasks| && IsFollowUpRefused(Step(s, op).tasks[task], version)
  {}

  /** Redelivering a spent update after any other operations changes nothing. */
  lemma {:induction false} SpentForever(s: Store, u: Update, ops: seq<Op>)
    requires IsSpent(s, u)
    ensures IsSpent(Run(s, ops), u)
    decreases |ops|
  {
    if ops != [] {
      SpentForever(s, u, ops[..|ops| - 1]);
      StepKeepsSpent(Run(s, ops[..|ops| - 1]), u, ops[|ops| - 1]);
    }
  }

  /** The update may be delivered again after it is handled in this store: a press
      must be on a task that exists and name a version no newer than the task's, as
      every button that the bot itself sent does.  An edit may not, unless it is
      refused for its title. */
  predicate IsRepeatable(s: Store, u: Update) {
    match u
    case Press(_, _, task, version) => task < |s.tasks| && version <= s.tasks[task].version
    case FollowUpPress(_, task, version) => task < |s.tasks| && version <= s.tasks[task].version
    case EditCommand(_, title) => !IsTitle(title)
    case _ => true
  }

  /** Handling a repeatable update leaves it spent, accepted or refused. */
  lemma RepeatableIsSpentOnceHandled(s: Store, u: Update, now: int)
    requires IsRepeatable(s, u)
    ensures IsSpent(Handle(s, u, now), u)
  {
    if Operation(s, u, now).Some? && |Handle(s, u, now).events| > |s.events| {
      EffectRecordsKey(s, Operation(s, u, now).value);
    }
  }

  /** An update that is not repeatable is refused, or is an edit; it is not spent by
      being handled. */
  lemma SpentOnceHandledExactly(s: Store, u: Update, now: int)
    ensures IsSpent(Handle(s, u, now), u) <==> IsRepeatable(s, u) || IsSpent(s, u)
  {
    if IsRepeatable(s, u) {
      RepeatableIsSpentOnceHandled(s, u, now);
    } else if IsSpent(s, u) {
      SpentHandlingChangesNothing(s, u, now);
    } else {
      assert u.EditCommand? || Handle(s, u, now) == s;
    }
  }

  /******* The exact condition *******/

  /** Some later redelivery would change the store. */
  ghost predicate CanBite(s: Store, u: Update) {
    exists ops: seq<Op>, now: int :: Handle(Run(s, ops), u, now) != Run(s, ops)
  }

  function Retitle(id: nat): Op {
    OpUpdate(id, TitlePatch("x"), None, None, 0)
  }

  function Restart(id: nat): Op {
    OpUpdate(id, NoChange.(status := Set(Some(InProgress))), None, None, 0)
  }

  function Await(id: nat): Op {
    OpUpdate(id, NoChange.(taskType := Set(Some(Awaiting))), None, None, 0)
  }

  ghost predicate SameKeys(s: Store, s': Store) {
    forall key :: KeyRecorded(s'.events, key) <==> KeyRecorded(s.events, key)
  }

  /** An operation without a key records none. */
  lemma KeylessRecordsNothing(s: Store, op: Op)
    requires RecordedKey(op).None?
    ensures SameKeys(s, Step(s, op))
  {
    var s' := Step(s, op);
    if s'.events != s.events {
      forall key
        ensures KeyRecorded(s'.events, key) <==> KeyRecorded(s.events, key)
      {
        RecordedAppend(s.events, s'.events[|s.events|], key);
      }
    }
  }

  /** Keyless retitling advances the version to any later value and changes
      nothing else that a press looks at. */
  lemma {:induction false} RetitledTo(s: Store, id: nat, n: nat) returns (ops: seq<Op>)
    requires id < |s.tasks|
    ensures |Run(s, ops).tasks| == |s.tasks|
    ensures Run(s, ops).tasks[id].version == s.tasks[id].version + n
    ensures Run(s, ops).tasks[id].fields.status == s.tasks[id].fields.status
    ensures Run(s, ops).tasks[id].fields.taskType == s.tasks[id].fields.taskType
    ensures SameKeys(s, Run(s, ops))
    decreases n
  {
    if n == 0 {
      ops := [];
    } else {
      var front := RetitledTo(s, id, n - 1);
      ops := front + [Retitle(id)];
      assert ops[..|ops| - 1] == front;
      KeylessRecordsNothing(Run(s, front), Retitle(id));
    }
  }

  /** One keyless operation that takes effect on the task, then retitling. */
  lemma PreparedTo(s: Store, id: nat, first: Op, n: nat) returns (ops: seq<Op>)
    requires id < |s.tasks| && RecordedKey(first).None? && n > 0
    requires |Step(s, first).tasks| == |s.tasks| && Step(s, first).tasks[id].version == s.tasks[id].version + 1
    ensures |Run(s, ops).tasks| == |s.tasks|
    ensures Run(s, ops).tasks[id].version == s.tasks[id].version + n
    ensures Run(s, ops).tasks[id].fields.status == Step(s, first).tasks[id].fields.status
    ensures Run(s, ops).tasks[id].fields.taskType == Step(s, first).tasks[id].fields.taskType
    ensures SameKeys(s, Run(s, ops))
  {
    assert [first][..0] == [];
    assert Run(s, [first]) == Step(s, first);
    KeylessRecordsNothing(s, first);
    var more := RetitledTo(Step(s, first), id, n - 1);
    RunAppend(s, [first], more);
    ops := [first] + more;
  }

  lemma UnspentPressBites(s: Store, u: Update)
    requires u.Press? && u.task < |s.tasks| && !IsSpent(s, u)
    ensures CanBite(s, u)
  {
    var id := u.task;
    var task := s.tasks[id];
    var ops: seq<Op>;
    if u.version == task.version {
      ops := [];
    } else if IsActive(task.fields.status) {
      assert ValidTransition(task.fields.status, InProgress);
      ops := PreparedTo(s, id, Restart(id), u.version - task.version);
    } else {
      ops := RetitledTo(s, id, u.version - task.version);
    }
    var s2 := Run(s, ops);
    assert s2.tasks[id].version == u.version;
    assert !KeyRecorded(s2.events, TelegramCallback(u.callback));
    assert Handle(s2, u, 0) != s2 by {
      assert |Handle(s2, u, 0).events| > |s2.events|;
    }
  }

  lemma UnspentFollowUpBites(s: Store, u: Update)
    requires u.FollowUpPress? && u.task < |s.tasks| && !IsSpent(s, u)
    ensures CanBite(s, u)
  {
    var id := u.task;
    var ops: seq<Op> := [];
    if u.version > s.tasks[id].version {
      ops := PreparedTo(s, id, Await(id), u.version - s.tasks[id].version);
    }
    var s2 := Run(s, ops);
    assert s2.tasks[id].version == u.version && s2.tasks[id].fields.taskType == Awaiting;
    assert !KeyRecorded(s2.events, TelegramFollowUp(u.callback));
    assert Handle(s2, u, 0) != s2 by {
      assert |Handle(s2, u, 0).events| > |s2.events|;
    }
  }

  /** A bound on the versions that recorded edits name. */
  function EditBound(events: seq<Event>): (bound: int)
    ensures forall id: nat, version: int :: KeyRecorded(events, TelegramEdit(id, version)) ==> version < bound
  {
    if events == [] then 0
    else
      var e := events[|events| - 1];
      var bound := EditBound(events[..|events| - 1]);
      assert forall id: nat, version: int :: KeyRecorded(events, TelegramEdit(id, version)) ==>
               || KeyRecorded(events[..|events| - 1], TelegramEdit(id, version))
               || e.key == Some(TelegramEdit(id, version));
      match e.key
      case Some(TelegramEdit(_, version)) => if version >= bound then version + 1 else bound
      case _ => bound
  }

  lemma EditBites(s: Store, u: Update)
    requires u.EditCommand? && u.task < |s.tasks| && IsTitle(u.title)
    ensures CanBite(s, u)
  {
    var id := u.task;
    var version := s.tasks[id].version;
    var bound := EditBound(s.events);
    var ops := RetitledTo(s, id, if version < bound then bound - version else 0);
    var s2 := Run(s, ops);
    assert !KeyRecorded(s.events, TelegramEdit(id, s2.tasks[id].version));
    assert Handle(s2, u, 0) != s2 by {
      assert |Handle(s2, u, 0).events| > |s2.events|;
    }
  }

  /** The task that the update is about exists. */
  predicate NamesTask(s: Store, u: Update) {
    match u
    case Press(_, _, task, _) => task < |s.tasks|
    case FollowUpPress(_, task, _) => task < |s.tasks|
    case EditCommand(task, _) => task < |s.tasks|
    case _ => true
  }

  /** Once an update about a task that exists is handled, delivering it again is
      harmless, whatever happens in between, if and only if it was repeatable, or
      already spent, when it was handled. */
  lemma RedeliveryHarmlessExactly(s: Store, u: Update, now: int)
    requires NamesTask(s, u)
    ensures !CanBite(Handle(s, u, now), u) <==> IsRepeatable(s, u) || IsSpent(s, u)
  {
    var s' := Handle(s, u, now);
    SpentOnceHandledExactly(s, u, now);
    if IsSpent(s', u) {
      forall ops: seq<Op>, t: int
        ensures Handle(Run(s', ops), u, t) == Run(s', ops)
      {
        SpentForever(s', u, ops);
        SpentHandlingChangesNothing(Run(s', ops), u, t);
      }
    } else {
      assert |s.tasks| <= |s'.tasks|;
      match u {
        case Press(_, _, _, _) => UnspentPressBites(s', u);
        case FollowUpPress(_, _, _) => UnspentFollowUpBites(s', u);
        case EditCommand(_, _) => EditBites(s', u);
        case _ =>
      }
    }
  }
}
