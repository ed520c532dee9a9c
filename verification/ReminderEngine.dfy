/** The reminder engine as the program runs it: an object that updates the
    reminder table in place, over the task service it was given. */
module ReminderEngine {
  import opened Wrappers
  import opened LocalTime
  import opened QuietHours
  import opened TaskStore
  import opened ReminderPolicy
  import opened ReminderTable
  import opened ReminderSafety
  import Service = TaskService

  /** A row once the planner's first pass has cancelled it if it is not wanted. */
  function CancelUnwanted(r: Reminder, id: nat, specs: seq<ReminderSpec>): Reminder {
    if IsPolicyRow(r, id) && !Wants(specs, r.key) && IsOpen(r) then r.(status := ReminderStatus.Cancelled) else r
  }

  /** A row once the planner's second pass has seen the specs of `seen`. */
  function PartlyPlanned(r: Reminder, id: nat, specs: seq<ReminderSpec>, seen: seq<ReminderSpec>): Reminder {
    if IsPolicyRow(r, id) && Wants(specs, r.key) && !Wants(seen, r.key) then r else PlanRow(r, id, specs)
  }

  /** Seeing one more spec reschedules the row under its key and no other. */
  lemma OneMoreSeen(r: Reminder, id: nat, specs: seq<ReminderSpec>, k: nat)
    requires k < |specs| && DistinctKeys(specs)
    ensures IsPolicyRow(r, id) && r.key == specs[k].key ==>
              && PartlyPlanned(r, id, specs, specs[..k]) == r
              && PartlyPlanned(r, id, specs, specs[..k + 1]) == Reschedule(r, specs[k])
    ensures !(IsPolicyRow(r, id) && r.key == specs[k].key) ==>
              PartlyPlanned(r, id, specs, specs[..k + 1]) == PartlyPlanned(r, id, specs, specs[..k])
  {
    assert specs[..k + 1] == specs[..k] + [specs[k]];
    WantsAppend(specs[..k], [specs[k]], r.key);
    assert Wants([specs[k]], r.key) <==> [specs[k]][0].key == r.key;
    SpecForIsUnique(specs, k);
    assert !Wants(specs[..k], specs[k].key);
  }

  lemma SpecForIsUnique(specs: seq<ReminderSpec>, k: nat)
    requires k < |specs| && DistinctKeys(specs)
    ensures SpecFor(specs, specs[k].key) == Some(specs[k])
  {
    var spec := SpecFor(specs, specs[k].key);
    assert specs[k].key == specs[k].key;
    assert Wants(specs, specs[k].key);
    var i :| 0 <= i < |specs| && specs[i] == spec.value;
  }

  class ReminderEngine {
    const service: Service.TaskService
    var rows: seq<Reminder>
    ghost var log: seq<Attempt>

    ghost function View(): World
      reads this, service
    {
      World(service.View(), rows, log)
    }

    constructor (service: Service.TaskService)
      ensures this.service == service && View() == World(service.View(), [], [])
    {
      this.service := service;
      rows, log := [], [];
    }

    /** The policy rows of a task, by key. */
    method ExistingByKey(id: nat) returns (existing: map<DedupeKey, nat>)
      requires SoundTable(rows)
      ensures forall key :: key in existing ==> existing[key] < |rows| && rows[existing[key]].key == key
      ensures forall key :: IsPolicyKey(key, id) ==> (key in existing <==> HasKey(rows, key))
      ensures forall key :: key in existing ==> IsPolicyRow(rows[existing[key]], id)
    {
      existing := map[];
      for i := 0 to |rows|
        invariant forall key :: key in existing ==> existing[key] < i && rows[existing[key]].key == key
        invariant forall key :: key in existing ==> IsPolicyRow(rows[existing[key]], id)
        invariant forall j :: 0 <= j < i && IsPolicyRow(rows[j], id) ==> rows[j].key in existing
      {
        if IsPolicyRow(rows[i], id) {
          existing := existing[rows[i].key := i];
        }
      }
      forall key | IsPolicyKey(key, id)
        ensures key in existing <==> HasKey(rows, key)
      {
        if HasKey(rows, key) {
          var j :| 0 <= j < |rows| && rows[j].key == key;
          assert KeyNamesTask(rows[j]);
        }
      }
    }

    /** The planner's first pass over a task's rows. */
    method CancelUnwantedRows(id: nat, specs: seq<ReminderSpec>)
      modifies this`rows
      ensures |rows| == |old(rows)|
      ensures forall j :: 0 <= j < |rows| ==> rows[j] == CancelUnwanted(old(rows)[j], id, specs)
    {
      for i := 0 to |rows|
        invariant |rows| == |old(rows)|
        invariant forall j :: 0 <= j < i ==> rows[j] == CancelUnwanted(old(rows)[j], id, specs)
        invariant forall j :: i <= j < |rows| ==> rows[j] == old(rows)[j]
      {
        if IsPolicyRow(rows[i], id) && !Wants(specs, rows[i].key) {
          if IsOpen(rows[i]) {
            rows := rows[i := rows[i].(status := ReminderStatus.Cancelled)];
          }
        }
      }
    }

    /** Synchronises the rows of one task with what its policy asks for. */
    method PlanOne(id: nat, specs: seq<ReminderSpec>) returns (created: nat)
      requires SoundTable(rows) && DistinctKeys(specs)
      requires forall k :: 0 <= k < |specs| ==> IsPolicyKey(specs[k].key, id)
      modifies this`rows
      ensures rows == PlanTask(old(rows), id, specs)
      ensures created == |rows| - |old(rows)|
    {
      ghost var start := rows;
      var n := |rows|;
      var existing := ExistingByKey(id);
      CancelUnwantedRows(id, specs);
      created := 0;
      for k := 0 to |specs|
        invariant |rows| == n + created
        invariant forall j :: 0 <= j < n ==> rows[j] == PartlyPlanned(start[j], id, specs, specs[..k])
        invariant rows[n..] == MissingRows(start, id, specs[..k])
      {
        var spec := specs[k];
        assert specs[..k + 1][..k] == specs[..k];
        ghost var before := rows;
        if spec.key in existing {
          var e := existing[spec.key];
          OneMoreSeen(start[e], id, specs, k);
          rows := rows[e := Reschedule(rows[e], spec)];
        } else {
          rows := rows + [NewReminder(id, spec.remindAt, spec.kind, spec.key)];
          created := created + 1;
        }
        forall j | 0 <= j < n
          ensures rows[j] == PartlyPlanned(start[j], id, specs, specs[..k + 1])
        {
          assert before[j] == PartlyPlanned(start[j], id, specs, specs[..k]);
          OneMoreSeen(start[j], id, specs, k);
          assert start[j].key == spec.key ==> HasKey(start, spec.key);
        }
      }
      assert specs[..|specs|] == specs;
      assert rows == rows[..n] + rows[n..];
    }

    /** One planning round; answers with the number of rows it inserted. */
    method PlanReminders(listed: seq<nat>, now: int, offset: int) returns (created: nat)
      requires forall k :: 0 <= k < |listed| ==> listed[k] < |service.tasks|
      requires SoundTable(rows)
      modifies this`rows
      ensures rows == Plan(old(rows), service.tasks, listed, now, offset)
      ensures created == |rows| - |old(rows)|
      ensures SoundTable(rows)
    {
      created := 0;
      for i := 0 to |listed|
        invariant rows == Plan(old(rows), service.tasks, listed[..i], now, offset)
        invariant created == |rows| - |old(rows)|
        invariant SoundTable(rows)
      {
        var id := listed[i];
        var task := service.tasks[id];
        var specs := ReminderSpecs(id, task.fields, now, offset);
        SpecsAreDistinct(id, task.fields, now, offset);
        PlanTaskSound(rows, id, task.fields, now, offset);
        assert listed[..i + 1][..i] == listed[..i];
        var more := PlanOne(id, specs);
        created := created + more;
      }
      assert listed[..|listed|] == listed;
    }

    ghost predicate AreDue(sorted: seq<nat>, now: int)
      reads this
    {
      forall k :: 0 <= k < |sorted| ==> sorted[k] < |rows| && IsDue(rows[sorted[k]], now)
    }

    ghost predicate IsSorted(sorted: seq<nat>, now: int)
      reads this
      requires AreDue(sorted, now)
    {
      forall j, k :: 0 <= j < k < |sorted| ==> rows[sorted[j]].remindAt <= rows[sorted[k]].remindAt
    }

    method InsertByTime(sorted: seq<nat>, i: nat, now: int) returns (longer: seq<nat>)
      requires AreDue(sorted, now) && IsSorted(sorted, now)
      requires i < |rows| && IsDue(rows[i], now)
      ensures AreDue(longer, now) && IsSorted(longer, now)
      ensures exists p :: 0 <= p <= |sorted| && longer == sorted[..p] + [i] + sorted[p..]
    {
      var p := 0;
      while p < |sorted| && rows[sorted[p]].remindAt <= rows[i].remindAt
        invariant 0 <= p <= |sorted|
        invariant forall k :: 0 <= k < p ==> rows[sorted[k]].remindAt <= rows[i].remindAt
      {
        p := p + 1;
      }
      longer := sorted[..p] + [i] + sorted[p..];
    }

    static lemma InsertedOnce(sorted: seq<nat>, p: nat, i: nat)
      requires p <= |sorted| && Distinct(sorted) && i !in sorted
      ensures Distinct(sorted[..p] + [i] + sorted[p..])
      ensures forall j :: j in sorted[..p] + [i] + sorted[p..] <==> j == i || j in sorted
    {
      assert sorted == sorted[..p] + sorted[p..];
    }

    /** The sender's query, ordered and limited as the database does it: the due
        rows, earliest first, at most `limit`. */
    method QueryDue(now: int, limit: nat) returns (picked: seq<nat>)
      ensures IsBatch(rows, now, limit, picked)
    {
      var sorted: seq<nat> := [];
      for i := 0 to |rows|
        invariant AreDue(sorted, now) && IsSorted(sorted, now) && Distinct(sorted)
        invariant forall j :: j in sorted <==> 0 <= j < i && IsDue(rows[j], now)
      {
        if IsDue(rows[i], now) {
          ghost var before := sorted;
          sorted := InsertByTime(sorted, i, now);
          ghost var p :| 0 <= p <= |before| && sorted == before[..p] + [i] + before[p..];
          InsertedOnce(before, p, i);
        }
      }
      picked := if |sorted| <= limit then sorted else sorted[..limit];
      SortedIsBatch(now, limit, sorted, picked);
    }

    lemma {:induction false} SortedIsBatch(now: int, limit: nat, sorted: seq<nat>, picked: seq<nat>)
      requires AreDue(sorted, now) && IsSorted(sorted, now) && Distinct(sorted)
      requires forall j :: j in sorted <==> 0 <= j < |rows| && IsDue(rows[j], now)
      requires picked == if |sorted| <= limit then sorted else sorted[..limit]
      ensures IsBatch(rows, now, limit, picked)
    {
      PickedCount(sorted);
      assert DueRows(rows, now) == PickedRows(sorted);
      forall k | 0 <= k < |picked|
        ensures picked[k] in DueRows(rows, now)
      {
        assert sorted[k] == picked[k];
      }
      forall i, k | i in DueRows(rows, now) && i !in picked && 0 <= k < |picked|
        ensures rows[picked[k]].remindAt <= rows[i].remindAt
      {
        var j :| 0 <= j < |sorted| && sorted[j] == i;
        assert j >= |picked|;
      }
    }

    /** The number of deliveries among the attempts after the first `from`. */
    static function DeliveredSince(log: seq<Attempt>, from: nat): nat
      requires from <= |log|
    {
      if |log| == from then 0
      else DeliveredSince(log[..|log| - 1], from) + if log[|log| - 1].delivered then 1 else 0
    }

    /** Delivers, defers, retries or cancels one picked reminder. */
    method SendReminder(i: nat, now: int, offset: int, quiet: Window,
                        deliver: nat -> Delivery) returns (delivered: bool)
      requires i < |rows| && ValidWindow(quiet)
      modifies this`rows, this`log, service
      ensures View() == SendOne(old(View()), i, now, offset, quiet, deliver)
      ensures forall from: nat :: from <= |old(log)| ==>
                && from <= |log|
                && DeliveredSince(log, from) == DeliveredSince(old(log), from) + if delivered then 1 else 0
    {
      var r := rows[i];
      if IsQuiet(now, offset, quiet) {
        rows := rows[i := r.(remindAt := QuietHoursEnd(now, offset, quiet), status := Pending)];
        return false;
      }
      if r.task >= |service.tasks| || !IsActive(service.tasks[r.task].fields.status) {
        rows := rows[i := r.(status := ReminderStatus.Cancelled)];
        return false;
      }
      var answer := deliver(i);
      ghost var before := log;
      log := log + [Attempt(r.key, r.task, now, answer.Delivered?)];
      assert log[..|log| - 1] == before;
      if answer.NotDelivered? {
        r := r.(attempts := r.attempts + 1, lastError := Some(Truncated(answer.error, 2000)));
        if r.attempts >= MAX_ATTEMPTS {
          r := r.(status := Failed);
        } else {
          r := r.(status := Retry, remindAt := now + RetryDelay(r.attempts));
        }
        rows := rows[i := r];
        return false;
      }
      rows := rows[i := r.(status := Sent, sentAt := Some(now), attempts := r.attempts + 1)];
      service.Remind(r.task, now);
      return true;
    }

    /** One send round; without settings the round does nothing.  Answers with
        the number of messages delivered. */
    method SendDueReminders(now: int, offset: int, settings: Option<Window>, limit: nat, deliver: nat -> Delivery)
      returns (sent: nat, ghost picked: seq<nat>)
      requires settings.Some? ==> ValidWindow(settings.value)
      modifies this`rows, this`log, service
      ensures settings.None? ==> View() == old(View()) && sent == 0
      ensures settings.Some? ==>
                && IsBatch(old(rows), now, limit, picked)
                && Enabled(old(View()), SendStep(picked, limit, now, offset, settings.value, deliver))
                && View() == Next(old(View()), SendStep(picked, limit, now, offset, settings.value, deliver))
      ensures |old(log)| <= |log| && sent == DeliveredSince(log, |old(log)|)
    {
      sent, picked := 0, [];
      if settings.None? {
        return;
      }
      var quiet := settings.value;
      var due := QueryDue(now, limit);
      picked := due;
      ghost var start := View();
      PicksAreDue(rows, now, limit, due);
      for k := 0 to |due|
        invariant |rows| == |start.rows|
        invariant View() == SendBatch(start, due[..k], now, offset, quiet, deliver)
        invariant |start.log| <= |log| && sent == DeliveredSince(log, |start.log|)
      {
        assert due[..k + 1][..k] == due[..k];
        assert View() == SendBatch(start, due[..k + 1][..k], now, offset, quiet, deliver);
        var delivered := SendReminder(due[k], now, offset, quiet, deliver);
        if delivered {
          sent := sent + 1;
        }
      }
      assert due[..|due|] == due;
    }

    /** Moves every open reminder of a task; answers with how many there were. */
    method SnoozeTaskReminders(task: nat, until: int) returns (moved: nat)
      modifies this`rows
      ensures rows == Snooze(old(rows), task, until)
      ensures moved == |set i: nat | i < |old(rows)| && old(rows)[i].task == task && IsOpen(old(rows)[i])|
    {
      moved := 0;
      ghost var seen: set<nat> := {};
      for i := 0 to |rows|
        invariant |rows| == |old(rows)|
        invariant forall j :: 0 <= j < i ==> rows[j] == SnoozeRow(old(rows)[j], task, until)
        invariant forall j :: i <= j < |rows| ==> rows[j] == old(rows)[j]
        invariant seen == set j: nat | j < i && old(rows)[j].task == task && IsOpen(old(rows)[j])
        invariant moved == |seen|
      {
        var r := rows[i];
        if r.task == task && IsOpen(r) {
          rows := rows[i := r.(remindAt := until, status := Pending, lastError := None)];
          moved := moved + 1;
          seen := seen + {i};
        }
      }
    }

    /** Adds a manual reminder, or answers with the one already there. */
    method CreateManualReminder(task: nat, at: int) returns (row: nat)
      requires task < |service.tasks|
      modifies this`rows
      ensures View() == Next(old(View()), ManualStep(task, at))
      ensures row < |rows| && rows[row].key == Manual(task, at)
    {
      var existing := FindRow(rows, Manual(task, at));
      if existing.Some? {
        return existing.value;
      }
      row := |rows|;
      rows := rows + [NewReminder(task, at, StatusCheck, Manual(task, at))];
    }

    /** Adds a follow-up reminder; only tasks that await a result may have one. */
    method CreateFollowUpReminder(task: nat, at: int, key: Option<OpKey>) returns (row: Option<nat>)
      requires task < |service.tasks|
      modifies this`rows
      ensures View() == Next(old(View()), FollowUpStep(task, at, key))
      ensures row.Some? <==> service.tasks[task].fields.taskType == Awaiting
      ensures row.Some? ==> row.value < |rows| && rows[row.value].key == FollowUpReminder(task, at, key).key
    {
      if service.tasks[task].fields.taskType != Awaiting {
        return None;
      }
      var dedupe := if key.Some? && key.value != Api("") then Operation(key.value) else FollowUp(task, at);
      var existing := FindRow(rows, dedupe);
      if existing.Some? {
        return existing;
      }
      rows := rows + [NewReminder(task, at, AwaitingFollowUp, dedupe)];
      return Some(|rows| - 1);
    }
  }
}
