/** What planning, sending, snoozing and adding make of the reminder table, column by
    column. */
module ReminderOutcomes {
  import opened Wrappers
  import opened LocalTime
  import opened Math
  import opened QuietHours
  import opened TaskStore
  import opened ReminderPolicy
  import opened ReminderTable
  import opened ReminderSafety
  import opened SendingRounds
  import opened PlanningRounds

  /******* Planning *******/

  /** A row that nobody has tried to send. */
  predicate IsUntried(r: Reminder) {
    r.status == Pending && r.attempts == 0 && r.sentAt == None && r.lastError == None
  }

  /** The row asks, by its key, for what the policy wants of its task now. */
  predicate IsAsWanted(r: Reminder, f: Fields, now: int, offset: int) {
    && IsWanted(r.task, f, r.key, now, offset)
    && f.dueAt.Some? && r.remindAt == Max(NominalTime(f, r.key, now), now)
    && r.kind == if r.key.Policy? then r.key.kind else OverdueDaily
  }

  /** The specification asked for under a wanted key is as the policy wants it. */
  lemma SpecIsAsWanted(id: nat, f: Fields, now: int, offset: int, key: DedupeKey)
    requires Wants(Specs(id, f, now, offset), key)
    ensures var spec := SpecFor(Specs(id, f, now, offset), key).value;
            && IsWanted(id, f, key, now, offset)
            && f.dueAt.Some? && spec.remindAt == Max(NominalTime(f, key, now), now)
            && spec.kind == if key.Policy? then key.kind else OverdueDaily
  {
    var specs := Specs(id, f, now, offset);
    SpecsAreWanted(id, f, now, offset, key);
    var spec := SpecFor(specs, key).value;
    var k :| 0 <= k < |specs| && specs[k] == spec;
    SpecContents(id, f, now, offset, k);
  }

  lemma {:induction false} InsertedForTask(rows: seq<Reminder>, id: nat, f: Fields, now: int, offset: int, i: nat)
    requires |rows| <= i < |PlanTask(rows, id, Specs(id, f, now, offset))|
    ensures var r := PlanTask(rows, id, Specs(id, f, now, offset))[i];
            r.task == id && IsUntried(r) && IsAsWanted(r, f, now, offset)
  {
    var specs := Specs(id, f, now, offset);
    SpecsAreDistinct(id, f, now, offset);
    MissingRowIsSettled(rows, id, specs, i - |rows|);
    SpecIsAsWanted(id, f, now, offset, MissingRows(rows, id, specs)[i - |rows|].key);
  }

  /** A row that a round inserts is about a listed task, and asks for what the policy
      wants of it: at the nominal time or now, whichever is later, of the kind that
      its key names, and not yet tried. */
  lemma {:induction false} InsertedRowOutcome(rows: seq<Reminder>, tasks: seq<Task>, listed: seq<nat>, now: int,
                                              offset: int, i: nat)
    requires forall k :: 0 <= k < |listed| ==> listed[k] < |tasks|
    requires |rows| <= i < |Plan(rows, tasks, listed, now, offset)|
    ensures var r := Plan(rows, tasks, listed, now, offset)[i];
            r.task in listed && IsUntried(r) && IsAsWanted(r, tasks[r.task].fields, now, offset)
    decreases |listed|
  {
    var front, id := listed[..|listed| - 1], listed[|listed| - 1];
    var mid := Plan(rows, tasks, front, now, offset);
    var specs := Specs(id, tasks[id].fields, now, offset);
    if i < |mid| {
      InsertedRowOutcome(rows, tasks, front, now, offset, i);
      if mid[i].task == id {
        AsWantedStays(mid[i], tasks[id].fields, now, offset);
      }
    } else {
      InsertedForTask(mid, id, tasks[id].fields, now, offset, i);
    }
  }

  /** Planning the task again leaves such a row as it is. */
  lemma AsWantedStays(r: Reminder, f: Fields, now: int, offset: int)
    requires IsUntried(r) && IsAsWanted(r, f, now, offset)
    ensures PlanRow(r, r.task, Specs(r.task, f, now, offset)) == r
  {
    SpecsAreWanted(r.task, f, now, offset, r.key);
    SpecIsAsWanted(r.task, f, now, offset, r.key);
  }

  /** A row of a listed task under a policy key that is no longer wanted is cancelled
      if it was open; otherwise it stays.  Rows under other keys, and rows of tasks
      that are not listed, stay. */
  lemma {:induction false} UnwantedRowOutcome(rows: seq<Reminder>, tasks: seq<Task>, listed: seq<nat>, now: int,
                                              offset: int, i: nat)
    requires forall k :: 0 <= k < |listed| ==> listed[k] < |tasks|
    requires i < |rows|
    requires rows[i].task in listed
             && (rows[i].key.Policy? || rows[i].key.Daily?) && rows[i].key.task == rows[i].task ==>
               !IsWanted(rows[i].task, tasks[rows[i].task].fields, rows[i].key, now, offset)
    ensures i < |Plan(rows, tasks, listed, now, offset)|
    ensures var r, r' := rows[i], Plan(rows, tasks, listed, now, offset)[i];
            if r.task in listed && (r.key.Policy? || r.key.Daily?) && r.key.task == r.task
               && (r.status == Pending || r.status == Retry)
            then r' == r.(status := ReminderStatus.Cancelled) else r' == r
  {
    RoundIsPointwise(rows, tasks, listed, now, offset);
    var r := rows[i];
    if r.task in listed {
      SpecsAreWanted(r.task, tasks[r.task].fields, now, offset, r.key);
    }
  }

  /******* Sending *******/

  /** The task of the row is open: neither DONE nor CANCELLED. */
  predicate IsForOpenTask(w: World, r: Reminder) {
    && r.task < |w.store.tasks|
    && w.store.tasks[r.task].fields.status != Done && w.store.tasks[r.task].fields.status != TaskStatus.Cancelled
  }

  /** The first instant after `now` whose local time is the hour and minute of `clock`. */
  predicate IsNextMinuteOf(r: int, now: int, offset: int, clock: int) {
    now < r <= now + DAY && TimeOfDay(r, offset) == clock - clock % MINUTE
  }

  lemma EndIsNextMinute(now: int, offset: int, q: Window)
    requires ValidWindow(q)
    ensures IsNextMinuteOf(QuietHoursEnd(now, offset, q), now, offset, q.end)
  {
    var clock := q.end - q.end % MINUTE;
    Split(LocalDate(now, offset), clock);
    Split(LocalDate(now, offset) + 1, clock);
  }

  /** A round picks PENDING and RETRY rows whose time has come, and any such row that it
      leaves is due no earlier than those, of which there are as many as the limit. */
  lemma PicksExactly(w: World, step: Step, i: nat)
    requires Enabled(w, step) && step.SendStep? && i < |w.rows|
    ensures var r := w.rows[i];
            var due := (r.status == Pending || r.status == Retry) && r.remindAt <= step.now;
            && (i in step.picked ==> due)
            && (due && i !in step.picked ==>
                  && |step.picked| == step.limit
                  && forall k :: 0 <= k < |step.picked| ==>
                       step.picked[k] < |w.rows| && w.rows[step.picked[k]].remindAt <= r.remindAt)
  {
    PicksAreDue(w.rows, step.now, step.limit, step.picked);
    PickedAreDue(w.rows, step.now, step.limit, step.picked);
    DifferenceCount(DueRows(w.rows, step.now), PickedRows(step.picked));
    if IsDue(w.rows[i], step.now) && i !in step.picked {
      assert i in DueRows(w.rows, step.now) - PickedRows(step.picked);
    }
  }

  /** A row that a send round did not pick stays as it is. */
  lemma UnpickedRowOutcome(w: World, step: Step, i: nat)
    requires Enabled(w, step) && step.SendStep? && i < |w.rows| && i !in step.picked
    ensures |Next(w, step).rows| == |w.rows| && Next(w, step).rows[i] == w.rows[i]
  {
    PicksAreDue(w.rows, step.now, step.limit, step.picked);
    BatchIsPointwise(w, step.picked, step.now, step.offset, step.quiet, step.deliver);
  }

  /** What a send round makes of a row it picked.  At a quiet instant it is deferred to
      the next time that the clock shows the end of the window.  Otherwise it is
      cancelled if its task is closed; SENT now if it is delivered; and after a failure
      it is tried again five or thirty minutes later, or FAILED at the third. */
  lemma PickedRowOutcome(w: World, step: Step, i: nat)
    requires Enabled(w, step) && step.SendStep? && i < |w.rows| && i in step.picked
    ensures |Next(w, step).rows| == |w.rows|
    ensures var r, r' := w.rows[i], Next(w, step).rows[i];
            if IsQuiet(step.now, step.offset, step.quiet) then
              && IsNextMinuteOf(r'.remindAt, step.now, step.offset, step.quiet.end)
              && r' == r.(status := Pending, remindAt := r'.remindAt)
            else if !IsForOpenTask(w, r) then r' == r.(status := ReminderStatus.Cancelled)
            else match step.deliver(i)
              case Delivered => r' == r.(status := Sent, sentAt := Some(step.now), attempts := r.attempts + 1)
              case NotDelivered(error) =>
                && r'.lastError.Some? && r'.lastError.value <= error
                && |r'.lastError.value| == Min(|error|, 2000)
                && r' == (if r.attempts >= 2 then r.(status := Failed)
                          else r.(status := Retry,
                                  remindAt := step.now + (if r.attempts == 0 then 5 else 30) * MINUTE))
                         .(attempts := r.attempts + 1, lastError := r'.lastError)
  {
    PicksAreDue(w.rows, step.now, step.limit, step.picked);
    BatchIsPointwise(w, step.picked, step.now, step.offset, step.quiet, step.deliver);
    EndIsNextMinute(step.now, step.offset, step.quiet);
  }

  /** Where the window has distinct ends and ends on a whole minute, a row picked at a
      quiet instant is deferred to the first audible one. */
  lemma DeferredRowOutcome(w: World, step: Step, i: nat)
    requires Enabled(w, step) && step.SendStep? && i < |w.rows| && i in step.picked
    requires IsQuiet(step.now, step.offset, step.quiet)
    requires step.quiet.start != step.quiet.end && step.quiet.end % MINUTE == 0
    ensures |Next(w, step).rows| == |w.rows|
    ensures var r' := Next(w, step).rows[i];
            && FirstAudible(step.now, r'.remindAt, step.offset, step.quiet)
            && r' == w.rows[i].(status := Pending, remindAt := r'.remindAt)
  {
    PicksAreDue(w.rows, step.now, step.limit, step.picked);
    BatchIsPointwise(w, step.picked, step.now, step.offset, step.quiet, step.deliver);
    EndIsFirstAudible(step.now, step.offset, step.quiet);
  }

  /** What the tasks keep through a batch: all but when they were last reminded. */
  ghost predicate SameButReminded(s: Store, s': Store) {
    && s'.events == s.events && s'.links == s.links && |s'.tasks| == |s.tasks|
    && forall id :: 0 <= id < |s.tasks| ==> s'.tasks[id] == s.tasks[id].(lastRemindedAt := s'.tasks[id].lastRemindedAt)
  }

  /** One of the rows picked is delivered and is about the task. */
  ghost predicate IsRemindedOf(w: World, picked: seq<nat>, deliver: nat -> Delivery, id: nat) {
    exists k :: 0 <= k < |picked| && picked[k] < |w.rows|
                && w.rows[picked[k]].task == id && deliver(picked[k]).Delivered?
  }

  /** When the task was last reminded, after a round that may have reminded it now. */
  function RemindedAt(w: World, now: int, offset: int, q: Window, id: nat, reminded: bool): Option<int>
    requires id < |w.store.tasks|
  {
    if !IsQuiet(now, offset, q) && IsLive(w.store, id) && reminded then Some(now) else w.store.tasks[id].lastRemindedAt
  }

  lemma OneReminds(w: World, i: nat, now: int, offset: int, q: Window, deliver: nat -> Delivery, id: nat)
    requires ValidWindow(q) && i < |w.rows| && id < |w.store.tasks|
    ensures var s' := SendOne(w, i, now, offset, q, deliver).store;
            && SameButReminded(w.store, s')
            && s'.tasks[id].lastRemindedAt
               == RemindedAt(w, now, offset, q, id, w.rows[i].task == id && deliver(i).Delivered?)
  {}

  lemma SameButRemindedTransitive(a: Store, b: Store, c: Store)
    requires SameButReminded(a, b) && SameButReminded(b, c)
    ensures SameButReminded(a, c)
  {}

  lemma {:induction false} BatchReminds(w: World, picked: seq<nat>, now: int, offset: int, q: Window,
                                        deliver: nat -> Delivery, id: nat)
    requires ValidWindow(q) && Distinct(picked) && id < |w.store.tasks|
    requires forall k :: 0 <= k < |picked| ==> picked[k] < |w.rows|
    ensures var s' := SendBatch(w, picked, now, offset, q, deliver).store;
            && SameButReminded(w.store, s')
            && s'.tasks[id].lastRemindedAt == RemindedAt(w, now, offset, q, id, IsRemindedOf(w, picked, deliver, id))
    decreases |picked|
  {
    if picked != [] {
      var front, last := picked[..|picked| - 1], picked[|picked| - 1];
      assert picked == front + [last] && last !in front;
      var mid := SendBatch(w, front, now, offset, q, deliver);
      BatchReminds(w, front, now, offset, q, deliver, id);
      BatchIsPointwise(w, front, now, offset, q, deliver);
      assert IsLive(mid.store, id) == IsLive(w.store, id) && mid.rows[last] == w.rows[last];
      OneReminds(mid, last, now, offset, q, deliver, id);
      SameButRemindedTransitive(w.store, mid.store, SendBatch(w, picked, now, offset, q, deliver).store);
      RemindedOfSnoc(w, front, last, deliver, id);
    }
  }

  lemma RemindedOfSnoc(w: World, front: seq<nat>, last: nat, deliver: nat -> Delivery, id: nat)
    ensures IsRemindedOf(w, front + [last], deliver, id) <==>
            || IsRemindedOf(w, front, deliver, id)
            || (last < |w.rows| && w.rows[last].task == id && deliver(last).Delivered?)
  {
    var picked := front + [last];
    if IsRemindedOf(w, front, deliver, id) {
      var k :| 0 <= k < |front| && front[k] < |w.rows| && w.rows[front[k]].task == id && deliver(front[k]).Delivered?;
      assert picked[k] == front[k];
    }
    if last < |w.rows| && w.rows[last].task == id && deliver(last).Delivered? {
      assert picked[|front|] == last;
    }
  }

  /** A send round notes on each open task that a reminder of it was delivered, and
      changes nothing else of the tasks. */
  lemma RemindedTaskOutcome(w: World, step: Step, id: nat)
    requires Enabled(w, step) && step.SendStep? && id < |w.store.tasks|
    ensures var s' := Next(w, step).store;
            && SameButReminded(w.store, s')
            && s'.tasks[id].lastRemindedAt ==
               if !IsQuiet(step.now, step.offset, step.quiet)
                  && w.store.tasks[id].fields.status != Done && w.store.tasks[id].fields.status != TaskStatus.Cancelled
                  && IsRemindedOf(w, step.picked, step.deliver, id)
               then Some(step.now) else w.store.tasks[id].lastRemindedAt
  {
    PicksAreDue(w.rows, step.now, step.limit, step.picked);
    BatchReminds(w, step.picked, step.now, step.offset, step.quiet, step.deliver, id);
  }

  /******* Snoozing and adding *******/

  /** A snooze moves exactly the PENDING and RETRY rows of its task to the instant, as
      PENDING rows without an error that keep their attempts. */
  lemma SnoozeOutcome(w: World, task: nat, until: int, i: nat)
    requires Enabled(w, SnoozeStep(task, until)) && i < |w.rows|
    ensures var w' := Next(w, SnoozeStep(task, until));
            && |w'.rows| == |w.rows| && w'.store == w.store && w'.log == w.log
            && w'.rows[i] == if w.rows[i].task == task && (w.rows[i].status == Pending || w.rows[i].status == Retry)
                             then w.rows[i].(remindAt := until, status := Pending, lastError := None) else w.rows[i]
  {}

  /** A manual reminder is a status check at its instant, unless the task has one then. */
  lemma ManualOutcome(w: World, task: nat, at: int)
    requires Enabled(w, ManualStep(task, at))
    ensures var w' := Next(w, ManualStep(task, at));
            var taken := exists i :: 0 <= i < |w.rows| && w.rows[i].key == Manual(task, at);
            && w'.store == w.store && w'.log == w.log
            && w'.rows == if taken then w.rows
                          else w.rows + [Reminder(task, at, StatusCheck, Pending, 0, None, None, Manual(task, at))]
  {}

  /** A follow-up of an awaited task is added at its instant, under the key of the press
      or, without one, of the task and instant; no other task gets one. */
  lemma FollowUpOutcome(w: World, task: nat, at: int, key: Option<OpKey>)
    requires Enabled(w, FollowUpStep(task, at, key))
    ensures var w' := Next(w, FollowUpStep(task, at, key));
            var dedupe := if key.None? || key == Some(Api("")) then FollowUp(task, at) else Operation(key.value);
            var taken := exists i :: 0 <= i < |w.rows| && w.rows[i].key == dedupe;
            && w'.store == w.store && w'.log == w.log
            && w'.rows == if w.store.tasks[task].fields.taskType != Awaiting || taken then w.rows
                          else w.rows + [Reminder(task, at, AwaitingFollowUp, Pending, 0, None, None, dedupe)]
  {}
}
