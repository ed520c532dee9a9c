/** What the tables become when an update is handled for the first time. */
module TelegramOutcomes {
  import opened Wrappers
  import opened LocalTime
  import opened TaskStore
  import opened TaskOutcomes
  import opened TelegramUpdates

  predicate IsNewKey(s: Store, key: OpKey) {
    && (forall i :: 0 <= i < |s.tasks| ==> s.tasks[i].key != key)
    && (forall k :: 0 <= k < |s.events| ==> s.events[k].key != Some(key))
  }

  /** A `/new` message with a title of 1 to 500 characters and a new key makes one
      task of the owner's, with that title, priority P3 and no dates; any other
      leaves the tables as they are. */
  lemma NewMessageOutcome(s: Store, message: string, title: string, now: int)
    ensures var s' := Handle(s, NewMessage(message, title), now);
            var key := TelegramNew(message);
            && (s' != s <==> 1 <= |title| <= 500 && IsNewKey(s, key))
            && (s' != s ==>
                && s'.tasks == s.tasks + [Task(
                     Fields(title, None, MyTask, P3, None, None, None, None, Unknown, None, New),
                     1, None, None, key)]
                && s'.links == s.links && |s'.events| == |s.events| + 1
                && s'.events[|s.events|].task == |s.tasks| && s'.events[|s.events|].key == Some(key))
  {
    if 1 <= |title| <= 500 {
      var f := Fields(title, None, MyTask, P3, None, None, None, None, Unknown, None, New);
      CreateOutcome(s, NewTask(f, Some(TelegramNew(message)), None), 0, 0);
    }
  }

  /** The press is on a task that exists, with its current version, and was not
      recorded before. */
  predicate IsCurrent(s: Store, key: OpKey, task: nat, version: int) {
    && task < |s.tasks| && s.tasks[task].version == version
    && forall k :: 0 <= k < |s.events| ==> s.events[k].key != Some(key)
  }

  /** The statuses in which each button is accepted. */
  predicate IsAccepting(action: Action, status: TaskStatus) {
    match action
    case PressDone => status != Cancelled
    case PressWaiting => status in {New, UnknownParty, Planned, InProgress, Waiting}
    case PressPostpone => status in {New, UnknownParty, Planned, InProgress, Waiting, Overdue, Postponed}
    case PressCancel => true
  }

  /** A button press takes effect if and only if it is current and the task's status
      accepts it.  Then the task is DONE and completed now, WAITING, POSTPONED to a day
      from now, or CANCELLED, and no other column changes. */
  lemma PressOutcome(s: Store, callback: string, action: Action, task: nat, version: int, now: int)
    ensures var s' := Handle(s, Press(callback, action, task, version), now);
            var key := TelegramCallback(callback);
            && (s' != s <==> IsCurrent(s, key, task, version) && IsAccepting(action, s.tasks[task].fields.status))
            && (s' != s ==>
                var before, after := s.tasks[task], s'.tasks[task];
                && ChangesTask(s, s', task, Some(key))
                && match action {
                     case PressDone =>
                       && after.fields == before.fields.(status := Done)
                       && (before.fields.status != Done ==> after.completedAt == Some(now))
                     case PressWaiting => after.fields == before.fields.(status := Waiting)
                     case PressPostpone =>
                       after.fields == before.fields.(dueAt := Some(now + 24 * HOUR), status := Postponed)
                     case PressCancel => after.fields == before.fields.(status := TaskStatus.Cancelled)
                   })
  {
    var key := Some(TelegramCallback(callback));
    match action
    case PressDone =>
      UpdateAcceptedExactly(s, task, CompletePatch(), Some(version), key, now);
      if Handle(s, Press(callback, action, task, version), now) != s {
        CompleteOutcome(s, task, Some(version), key, now);
      }
    case PressWaiting =>
      var p := NoChange.(status := Set(Some(Waiting)));
      UpdateAcceptedExactly(s, task, p, Some(version), key, now);
      if Handle(s, Press(callback, action, task, version), now) != s {
        UpdateOutcome(s, task, p, Some(version), key, now);
      }
    case PressPostpone =>
      UpdateAcceptedExactly(s, task, PostponePatch(now + DAY), Some(version), key, now);
      if Handle(s, Press(callback, action, task, version), now) != s {
        PostponeOutcome(s, task, now + DAY, Some(version), key, now);
      }
    case PressCancel => CancelOutcome(s, task, Some(version), key);
  }

  /** The button of a follow-up closes a task that is awaited and not CANCELLED. */
  lemma FollowUpPressOutcome(s: Store, callback: string, task: nat, version: int, now: int)
    ensures var s' := Handle(s, FollowUpPress(callback, task, version), now);
            var key := TelegramFollowUp(callback);
            && (s' != s <==>
                && IsCurrent(s, key, task, version)
                && s.tasks[task].fields.taskType == Awaiting && s.tasks[task].fields.status != TaskStatus.Cancelled)
            && (s' != s ==>
                && ChangesTask(s, s', task, Some(key))
                && s'.tasks[task].fields == s.tasks[task].fields.(status := Done)
                && (s.tasks[task].fields.status != Done ==> s'.tasks[task].completedAt == Some(now)))
  {
    UpdateAcceptedExactly(s, task, CompletePatch(), Some(version), Some(TelegramFollowUp(callback)), now);
    if Handle(s, FollowUpPress(callback, task, version), now) != s {
      CompleteOutcome(s, task, Some(version), Some(TelegramFollowUp(callback)), now);
    }
  }

  /** An `/edit` of a task that exists gives it the title, whatever its version, unless
      an edit of that very version is recorded. */
  lemma EditOutcome(s: Store, task: nat, title: string, now: int)
    ensures var s' := Handle(s, EditCommand(task, title), now);
            && (s' != s <==>
                && task < |s.tasks| && 1 <= |title| <= 500
                && forall k :: 0 <= k < |s.events| ==>
                     s.events[k].key != Some(TelegramEdit(task, s.tasks[task].version)))
            && (s' != s ==>
                && ChangesTask(s, s', task, Some(TelegramEdit(task, s.tasks[task].version)))
                && s'.tasks[task].fields == s.tasks[task].fields.(title := title)
                && s'.tasks[task].completedAt == s.tasks[task].completedAt)
  {
    if task < |s.tasks| && 1 <= |title| <= 500 {
      var version := s.tasks[task].version;
      var key := Some(TelegramEdit(task, version));
      UpdateAcceptedExactly(s, task, TitlePatch(title), Some(version), key, now);
      if Handle(s, EditCommand(task, title), now) != s {
        UpdateOutcome(s, task, TitlePatch(title), Some(version), key, now);
      }
    }
  }
}
