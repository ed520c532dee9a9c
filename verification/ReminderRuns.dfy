/** Safety of the reminder engine over every run. */
module ReminderRuns {
  import opened Wrappers
  import opened LocalTime
  import opened QuietHours
  import opened TaskStore
  import opened ReminderPolicy
  import opened ReminderTable
  import opened ReminderSafety
  import opened PlanningRounds

  lemma StartIsSound(s: Store)
    ensures Sound(World(s, [], []))
  {}

  /** Over every run from an empty reminder table, each key has at most one
      delivery and at most three attempts, each row's attempt count is the number
      of its logged attempts, and no attempt lacks a row. */
  lemma {:induction false} DeliveryLimits(s: Store, steps: seq<Step>, key: DedupeKey)
    requires IsRun(World(s, [], []), steps)
    ensures var w := After(World(s, [], []), steps);
            && Deliveries(w.log, key) <= 1
            && Attempts(w.log, key) <= MAX_ATTEMPTS
            && (forall i :: 0 <= i < |w.rows| && w.rows[i].key == key ==>
                  && w.rows[i].attempts == Attempts(w.log, key)
                  && (w.rows[i].status == Sent <==> Deliveries(w.log, key) == 1))
            && (Attempts(w.log, key) > 0 ==> HasKey(w.rows, key))
  {
    var w := After(World(s, [], []), steps);
    StartIsSound(s);
    RunKeepsSound(World(s, [], []), steps);
    if HasKey(w.rows, key) {
      var i :| 0 <= i < |w.rows| && w.rows[i].key == key;
      assert AgreesWithLog(w.rows[i], w.log);
    } else {
      UnloggedKey(w.rows, w.log, key);
    }
    forall i | 0 <= i < |w.rows| && w.rows[i].key == key
      ensures w.rows[i].attempts == Attempts(w.log, key) && (w.rows[i].status == Sent <==> Deliveries(w.log, key) == 1)
    {
      assert AgreesWithLog(w.rows[i], w.log);
    }
  }

  /** In every reachable state a task has at most one open overdue-daily row, and
      never two rows, open or not, for one local date. */
  lemma {:induction false} DailyReminders(s: Store, steps: seq<Step>, i: nat, j: nat)
    requires IsRun(World(s, [], []), steps)
    requires i < j < |After(World(s, [], []), steps).rows|
    requires var rows := After(World(s, [], []), steps).rows;
             rows[i].key.Daily? && rows[j].key.Daily? && rows[i].task == rows[j].task
    ensures var rows := After(World(s, [], []), steps).rows;
            !(IsOpen(rows[i]) && IsOpen(rows[j])) && rows[i].key.date != rows[j].key.date
  {
    StartIsSound(s);
    RunKeepsSound(World(s, [], []), steps);
    var rows := After(World(s, [], []), steps).rows;
    assert KeyNamesTask(rows[i]) && KeyNamesTask(rows[j]);
  }

  /******* Closed tasks *******/

  ghost predicate IsClosed(s: Store, id: nat) {
    id < |s.tasks| && !IsLive(s, id)
  }

  lemma StepAttempts(w: World, step: Step)
    requires Enabled(w, step)
    ensures w.log <= Next(w, step).log
    ensures forall k :: |w.log| <= k < |Next(w, step).log| ==>
              step.SendStep? && IsRoundAttempt(Next(w, step).log[k], w, step.picked, step.now, step.offset, step.quiet)
  {
    if step.SendStep? {
      PicksAreDue(w.rows, step.now, step.limit, step.picked);
      BatchAttempts(w, step.picked, step.now, step.offset, step.quiet, step.deliver);
    }
  }

  lemma ClosedStaysClosed(w: World, step: Step, id: nat)
    requires Enabled(w, step) && IsClosed(w.store, id)
    ensures IsClosed(Next(w, step).store, id)
  {
    match step
    case SendStep(picked, limit, now, offset, quiet, deliver) =>
      PicksAreDue(w.rows, now, limit, picked);
      BatchIsPointwise(w, picked, now, offset, quiet, deliver);
    case _ =>
  }

  /** Once a task is DONE or CANCELLED, no continuation of the run attempts to
      deliver any reminder about it. */
  lemma {:induction false} ClosedTaskIsNeverReminded(w: World, steps: seq<Step>, id: nat)
    requires IsRun(w, steps) && IsClosed(w.store, id)
    ensures IsClosed(After(w, steps).store, id)
    ensures w.log <= After(w, steps).log
    ensures forall k :: |w.log| <= k < |After(w, steps).log| ==> After(w, steps).log[k].task != id
    decreases |steps|
  {
    if steps != [] {
      var front := steps[..|steps| - 1];
      ClosedTaskIsNeverReminded(w, front, id);
      StepAttempts(After(w, front), steps[|steps| - 1]);
      ClosedStaysClosed(After(w, front), steps[|steps| - 1], id);
    }
  }

  /** Step `n` of the run logged attempt `k`. */
  ghost predicate IsLoggedBy(w: World, steps: seq<Step>, n: nat, k: nat)
    requires n < |steps| && IsRun(w, steps[..n]) && IsRun(w, steps[..n + 1])
  {
    |After(w, steps[..n]).log| <= k < |After(w, steps[..n + 1]).log|
  }

  lemma {:induction false} FindRound(w: World, steps: seq<Step>, k: nat) returns (n: nat)
    requires IsRun(w, steps) && |w.log| <= k < |After(w, steps).log|
    ensures n < |steps| && IsRun(w, steps[..n]) && IsRun(w, steps[..n + 1]) && IsLoggedBy(w, steps, n, k)
    ensures After(w, steps[..n + 1]).log[k] == After(w, steps).log[k]
    decreases |steps|
  {
    var front := steps[..|steps| - 1];
    if k < |After(w, front).log| {
      n := FindRound(w, front, k);
      assert front[..n] == steps[..n];
      assert front[..n + 1] == steps[..n + 1];
      StepAttempts(After(w, front), steps[|steps| - 1]);
    } else {
      n := |steps| - 1;
      assert steps[..n] == front;
      assert steps[..n + 1] == steps;
    }
  }

  /** No attempt is ever made at a quiet instant: each attempt of a run was logged by
      one of its send rounds, at an instant outside the window that the round read. */
  lemma {:induction false} NeverSentInQuietHours(w: World, steps: seq<Step>, k: nat) returns (n: nat)
    requires IsRun(w, steps) && |w.log| <= k < |After(w, steps).log|
    ensures n < |steps| && steps[n].SendStep?
    ensures IsRun(w, steps[..n]) && IsRun(w, steps[..n + 1]) && IsLoggedBy(w, steps, n, k)
    ensures After(w, steps).log[k].at == steps[n].now
    ensures !IsQuiet(After(w, steps).log[k].at, steps[n].offset, steps[n].quiet)
  {
    n := FindRound(w, steps, k);
    assert steps[..n + 1][..n] == steps[..n];
    var before := After(w, steps[..n]);
    StepAttempts(before, steps[n]);
    assert IsRoundAttempt(Next(before, steps[n]).log[k], before, steps[n].picked, steps[n].now, steps[n].offset,
                          steps[n].quiet);
  }

  /******* Retries *******/

  /** The instant of the last attempt under a key. */
  function LastAttempt(log: seq<Attempt>, key: DedupeKey): Option<int> {
    if log == [] then None
    else if log[|log| - 1].key == key then Some(log[|log| - 1].at)
    else LastAttempt(log[..|log| - 1], key)
  }

  /** A row that awaits a retry waits five minutes after its first attempt and
      thirty after its second. */
  predicate IsOnSchedule(r: Reminder, log: seq<Attempt>) {
    r.status == Retry ==>
      || (r.attempts == 1 && LastAttempt(log, r.key) == Some(r.remindAt - 5 * MINUTE))
      || (r.attempts == 2 && LastAttempt(log, r.key) == Some(r.remindAt - 30 * MINUTE))
  }

  ghost predicate OnSchedule(w: World) {
    forall i :: 0 <= i < |w.rows| ==> IsOnSchedule(w.rows[i], w.log)
  }

  lemma LastAttemptAppend(log: seq<Attempt>, a: Attempt, key: DedupeKey)
    ensures LastAttempt(log + [a], key) == if a.key == key then Some(a.at) else LastAttempt(log, key)
  {
    assert (log + [a])[..|log + [a]| - 1] == log;
  }

  lemma SendRowOnSchedule(r: Reminder, log: seq<Attempt>, active: bool, now: int, offset: int, q: Window, d: Delivery)
    requires ValidWindow(q) && IsOpen(r) && AgreesWithLog(r, log)
    ensures var r' := SendRow(r, active, now, offset, q, d);
            if IsQuiet(now, offset, q) || !active then IsOnSchedule(r', log)
            else IsOnSchedule(r', log + [Attempt(r.key, r.task, now, d.Delivered?)])
  {
    LastAttemptAppend(log, Attempt(r.key, r.task, now, d.Delivered?), r.key);
  }

  /** An attempt on another row changes nothing. */
  lemma OthersOnSchedule(rows: seq<Reminder>, log: seq<Attempt>, i: nat, a: Attempt)
    requires i < |rows| && UniqueKeys(rows) && a.key == rows[i].key
    requires forall j :: 0 <= j < |rows| ==> IsOnSchedule(rows[j], log)
    ensures forall j :: 0 <= j < |rows| && j != i ==> IsOnSchedule(rows[j], log + [a])
  {
    forall j | 0 <= j < |rows| && j != i
      ensures IsOnSchedule(rows[j], log + [a])
    {
      assert IsOnSchedule(rows[j], log);
      LastAttemptAppend(log, a, rows[j].key);
    }
  }

  lemma SendOneOnSchedule(w: World, i: nat, now: int, offset: int, q: Window, deliver: nat -> Delivery)
    requires i < |w.rows| && ValidWindow(q) && IsOpen(w.rows[i])
    requires Sound(w) && OnSchedule(w)
    ensures OnSchedule(SendOne(w, i, now, offset, q, deliver))
  {
    var r := w.rows[i];
    assert AgreesWithLog(r, w.log);
    SendRowOnSchedule(r, w.log, IsLive(w.store, r.task), now, offset, q, deliver(i));
    OthersOnSchedule(w.rows, w.log, i, Attempt(r.key, r.task, now, deliver(i).Delivered?));
    OneRowSent(w, i, now, offset, q, deliver);
  }

  lemma {:induction false} BatchOnSchedule(w: World, picked: seq<nat>, now: int, offset: int, q: Window,
                                           deliver: nat -> Delivery)
    requires ValidWindow(q) && Distinct(picked) && Sound(w) && OnSchedule(w)
    requires forall k :: 0 <= k < |picked| ==> picked[k] < |w.rows| && IsOpen(w.rows[picked[k]])
    ensures OnSchedule(SendBatch(w, picked, now, offset, q, deliver))
    decreases |picked|
  {
    if picked != [] {
      var front := picked[..|picked| - 1];
      var last := picked[|picked| - 1];
      BatchOnSchedule(w, front, now, offset, q, deliver);
      BatchSound(w, front, now, offset, q, deliver);
      BatchIsPointwise(w, front, now, offset, q, deliver);
      assert last !in front;
      SendOneOnSchedule(SendBatch(w, front, now, offset, q, deliver), last, now, offset, q, deliver);
    }
  }

  lemma ExtensionOnSchedule(w: World, rows: seq<Reminder>)
    requires OnSchedule(w) && QuietlyExtends(w.rows, rows)
    ensures OnSchedule(w.(rows := rows))
  {
    forall i | 0 <= i < |rows|
      ensures IsOnSchedule(rows[i], w.log)
    {
      if i < |w.rows| {
        assert IsOnSchedule(w.rows[i], w.log) && IsQuietChange(w.rows[i], rows[i]);
      }
    }
  }

  lemma StepOnSchedule(w: World, step: Step)
    requires Sound(w) && Enabled(w, step) && OnSchedule(w)
    ensures OnSchedule(Next(w, step))
  {
    match step
    case TaskStep(_) => ExtensionOnSchedule(w, w.rows);
    case PlanStep(listed, now, offset) =>
      PlanSound(w.rows, w.store.tasks, listed, now, offset);
      ExtensionOnSchedule(w, Next(w, step).rows);
    case SendStep(picked, limit, now, offset, quiet, deliver) =>
      PicksAreDue(w.rows, now, limit, picked);
      BatchOnSchedule(w, picked, now, offset, quiet, deliver);
    case SnoozeStep(task, until) =>
      SnoozeSound(w.rows, task, until);
      ExtensionOnSchedule(w, Next(w, step).rows);
    case ManualStep(task, at) =>
      AddSound(w.rows, ManualReminder(task, at));
      ExtensionOnSchedule(w, Next(w, step).rows);
    case FollowUpStep(task, at, key) =>
      AddSound(w.rows, FollowUpReminder(task, at, key));
      ExtensionOnSchedule(w, Add(w.rows, FollowUpReminder(task, at, key)));
  }

  lemma {:induction false} RunOnSchedule(w: World, steps: seq<Step>)
    requires Sound(w) && IsRun(w, steps) && OnSchedule(w)
    ensures OnSchedule(After(w, steps))
    decreases |steps|
  {
    if steps != [] {
      var front := steps[..|steps| - 1];
      RunOnSchedule(w, front);
      RunKeepsSound(w, front);
      StepOnSchedule(After(w, front), steps[|steps| - 1]);
    }
  }

  /** In every reachable state a row that awaits a retry has been attempted once or
      twice and is due five or thirty minutes after its last attempt, and a FAILED
      row has been attempted three times: the two-hour delay of the schedule is
      never used. */
  lemma RetrySchedule(s: Store, steps: seq<Step>, i: nat)
    requires IsRun(World(s, [], []), steps) && i < |After(World(s, [], []), steps).rows|
    ensures var w := After(World(s, [], []), steps);
            && IsOnSchedule(w.rows[i], w.log)
            && (w.rows[i].status == Failed ==> Attempts(w.log, w.rows[i].key) == MAX_ATTEMPTS)
  {
    StartIsSound(s);
    RunKeepsSound(World(s, [], []), steps);
    RunOnSchedule(World(s, [], []), steps);
    var w := After(World(s, [], []), steps);
    assert AgreesWithLog(w.rows[i], w.log);
  }

  /******* Snoozing *******/

  /** The row is not to be attempted before `until`. */
  predicate IsHeldUntil(r: Reminder, until: int) {
    IsOpen(r) ==> r.remindAt >= until
  }

  /** The step neither snoozes the row again nor revives it after a cancellation. */
  ghost predicate LeavesSnooze(w: World, step: Step, i: nat)
    requires Enabled(w, step)
  {
    i < |w.rows| &&
    !(step.SnoozeStep? && step.task == w.rows[i].task) &&
    !(i < |Next(w, step).rows| && w.rows[i].status == ReminderStatus.Cancelled
      && Next(w, step).rows[i].status != ReminderStatus.Cancelled)
  }

  ghost predicate AllLeaveSnooze(w: World, steps: seq<Step>, i: nat)
    requires IsRun(w, steps)
    decreases |steps|
  {
    steps == [] ||
    (AllLeaveSnooze(w, steps[..|steps| - 1], i)
     && LeavesSnooze(After(w, steps[..|steps| - 1]), steps[|steps| - 1], i))
  }

  lemma PlanHolds(r: Reminder, id: nat, specs: seq<ReminderSpec>, until: int)
    requires IsHeldUntil(r, until)
    requires !(r.status == ReminderStatus.Cancelled && PlanRow(r, id, specs).status != ReminderStatus.Cancelled)
    ensures IsHeldUntil(PlanRow(r, id, specs), until)
  {}

  lemma SendHolds(r: Reminder, active: bool, now: int, offset: int, q: Window, d: Delivery, until: int)
    requires ValidWindow(q) && IsDue(r, now) && IsHeldUntil(r, until)
    ensures IsHeldUntil(SendRow(r, active, now, offset, q, d), until)
  {}

  lemma SendStepHolds(w: World, step: Step, i: nat, until: int)
    requires Enabled(w, step) && step.SendStep? && i < |w.rows| && IsHeldUntil(w.rows[i], until)
    ensures |Next(w, step).rows| == |w.rows| && IsHeldUntil(Next(w, step).rows[i], until)
  {
    PicksAreDue(w.rows, step.now, step.limit, step.picked);
    BatchIsPointwise(w, step.picked, step.now, step.offset, step.quiet, step.deliver);
    if i in step.picked {
      var k :| 0 <= k < |step.picked| && step.picked[k] == i;
      SendHolds(w.rows[i], IsLive(w.store, w.rows[i].task), step.now, step.offset, step.quiet, step.deliver(i), until);
    }
  }

  lemma StepHolds(w: World, step: Step, i: nat, until: int)
    requires Enabled(w, step) && i < |w.rows| && IsHeldUntil(w.rows[i], until) && LeavesSnooze(w, step, i)
    ensures i < |Next(w, step).rows| && IsHeldUntil(Next(w, step).rows[i], until)
  {
    match step
    case PlanStep(listed, now, offset) =>
      RoundIsPointwise(w.rows, w.store.tasks, listed, now, offset);
      var r := w.rows[i];
      if r.task in listed {
        PlanHolds(r, r.task, Specs(r.task, w.store.tasks[r.task].fields, now, offset), until);
      }
    case SendStep(_, _, _, _, _, _) => SendStepHolds(w, step, i, until);
    case _ =>
  }

  lemma HeldRowIsNotAttempted(w: World, step: Step, i: nat, until: int, k: nat)
    requires Sound(w) && Enabled(w, step) && i < |w.rows| && IsHeldUntil(w.rows[i], until)
    requires |w.log| <= k < |Next(w, step).log| && Next(w, step).log[k].key == w.rows[i].key
    ensures Next(w, step).log[k].at >= until
  {
    StepAttempts(w, step);
    assert IsRoundAttempt(Next(w, step).log[k], w, step.picked, step.now, step.offset, step.quiet);
    var j :| j in step.picked && j < |w.rows| && w.rows[j].key == w.rows[i].key;
    assert j == i;
    PicksAreDue(w.rows, step.now, step.limit, step.picked);
    var n :| 0 <= n < |step.picked| && step.picked[n] == j;
  }

  /** Snooze is respected: from a state in which row `i` is held until `until`, a
      run that neither snoozes it again nor revives it makes no attempt on it
      before then. */
  lemma {:induction false} SnoozeIsRespected(w: World, steps: seq<Step>, i: nat, until: int)
    requires Sound(w) && IsRun(w, steps) && AllLeaveSnooze(w, steps, i)
    requires i < |w.rows| && IsHeldUntil(w.rows[i], until)
    ensures i < |After(w, steps).rows| && IsHeldUntil(After(w, steps).rows[i], until)
    ensures w.log <= After(w, steps).log
    ensures forall k :: |w.log| <= k < |After(w, steps).log| && After(w, steps).log[k].key == w.rows[i].key ==>
              After(w, steps).log[k].at >= until
    decreases |steps|
  {
    if steps != [] {
      var front := steps[..|steps| - 1];
      var step := steps[|steps| - 1];
      var mid := After(w, front);
      SnoozeIsRespected(w, front, i, until);
      RunKeepsSound(w, front);
      StepHolds(mid, step, i, until);
      StepAttempts(mid, step);
      forall k | |w.log| <= k < |After(w, steps).log| && After(w, steps).log[k].key == w.rows[i].key
        ensures After(w, steps).log[k].at >= until
      {
        if k >= |mid.log| {
          HeldRowIsNotAttempted(mid, step, i, until, k);
        }
      }
    }
  }

  /** After a snooze until `until`, no open row of the task is attempted before then,
      in any run that neither snoozes it again nor revives it after a cancellation. */
  lemma {:induction false} SnoozedTaskWaits(w: World, task: nat, until: int, steps: seq<Step>, i: nat)
    requires Sound(w) && Enabled(w, SnoozeStep(task, until))
    requires i < |w.rows| && w.rows[i].task == task && IsOpen(w.rows[i])
    requires IsRun(Next(w, SnoozeStep(task, until)), steps)
    requires AllLeaveSnooze(Next(w, SnoozeStep(task, until)), steps, i)
    ensures var w' := After(Next(w, SnoozeStep(task, until)), steps);
            && w.log <= w'.log
            && forall k :: |w.log| <= k < |w'.log| && w'.log[k].key == w.rows[i].key ==> w'.log[k].at >= until
  {
    var snoozed := Next(w, SnoozeStep(task, until));
    StepKeepsSound(w, SnoozeStep(task, until));
    assert snoozed.rows[i] == SnoozeRow(w.rows[i], task, until);
    SnoozeIsRespected(snoozed, steps, i, until);
  }
}
