/** What every step of the reminder engine keeps, and what follows for whole runs
    that interleave planning, sending, snoozing, adding and task operations. */
module ReminderSafety {
  import opened Wrappers
  import opened LocalTime
  import opened QuietHours
  import opened TaskStore
  import opened ReminderPolicy
  import opened ReminderTable

  /******* The invariant *******/

  function Attempts(log: seq<Attempt>, key: DedupeKey): nat {
    if log == [] then 0
    else Attempts(log[..|log| - 1], key) + if log[|log| - 1].key == key then 1 else 0
  }

  function Deliveries(log: seq<Attempt>, key: DedupeKey): nat {
    if log == [] then 0
    else Deliveries(log[..|log| - 1], key) + if log[|log| - 1].key == key && log[|log| - 1].delivered then 1 else 0
  }

  ghost predicate UniqueKeys(rows: seq<Reminder>) {
    forall i, j :: 0 <= i < j < |rows| ==> rows[i].key != rows[j].key
  }

  /** A key that names a task names the task of its row. */
  predicate KeyNamesTask(r: Reminder) {
    r.key.Operation? || r.key.task == r.task
  }

  /** The row agrees with the attempts logged under its key. */
  predicate AgreesWithLog(r: Reminder, log: seq<Attempt>) {
    && r.attempts == Attempts(log, r.key)
    && Deliveries(log, r.key) == (if r.status == Sent then 1 else 0)
    && (r.status == Sent ==> 1 <= r.attempts <= MAX_ATTEMPTS)
    && (r.status == Failed ==> r.attempts == MAX_ATTEMPTS)
    && (!IsFinal(r) ==> r.attempts < MAX_ATTEMPTS)
  }

  /** Every attempt was made for a row of the table. */
  ghost predicate IsAccountedFor(a: Attempt, rows: seq<Reminder>) {
    exists i :: 0 <= i < |rows| && rows[i].key == a.key && rows[i].task == a.task
  }

  predicate IsOpenDaily(r: Reminder) {
    IsOpen(r) && r.key.Daily?
  }

  /** A task has at most one open overdue-daily reminder. */
  ghost predicate OneDaily(rows: seq<Reminder>) {
    forall i, j :: 0 <= i < j < |rows| && IsOpenDaily(rows[i]) && IsOpenDaily(rows[j]) ==>
      rows[i].task != rows[j].task
  }

  ghost predicate SoundTable(rows: seq<Reminder>) {
    UniqueKeys(rows) && (forall i :: 0 <= i < |rows| ==> KeyNamesTask(rows[i])) && OneDaily(rows)
  }

  ghost predicate SoundLog(rows: seq<Reminder>, log: seq<Attempt>) {
    && (forall i :: 0 <= i < |rows| ==> AgreesWithLog(rows[i], log))
    && (forall k :: 0 <= k < |log| ==> IsAccountedFor(log[k], rows))
  }

  ghost predicate Sound(w: World) {
    SoundTable(w.rows) && SoundLog(w.rows, w.log)
  }

  /******* Changes that attempt nothing *******/

  /** The row keeps its identity and its attempts, is neither made final nor changed
      once final, and awaits a retry only if it did before. */
  predicate IsQuietChange(r: Reminder, r': Reminder) {
    && r'.key == r.key && r'.task == r.task
    && r'.attempts == r.attempts && r'.sentAt == r.sentAt
    && (IsFinal(r) || IsFinal(r') || r'.status == Retry ==> r' == r)
  }

  predicate IsFresh(r: Reminder) {
    !IsFinal(r) && r.status != Retry && r.attempts == 0 && KeyNamesTask(r)
  }

  ghost predicate QuietlyExtends(rows: seq<Reminder>, rows': seq<Reminder>) {
    && |rows| <= |rows'|
    && (forall i :: 0 <= i < |rows| ==> IsQuietChange(rows[i], rows'[i]))
    && (forall i :: |rows| <= i < |rows'| ==> IsFresh(rows'[i]) && !HasKey(rows, rows'[i].key))
  }

  lemma {:induction false} UnloggedKey(rows: seq<Reminder>, log: seq<Attempt>, key: DedupeKey)
    requires forall k :: 0 <= k < |log| ==> IsAccountedFor(log[k], rows)
    requires !HasKey(rows, key)
    ensures Attempts(log, key) == 0 && Deliveries(log, key) == 0
  {
    if log != [] {
      assert IsAccountedFor(log[|log| - 1], rows);
      UnloggedKey(rows, log[..|log| - 1], key);
    }
  }

  lemma {:induction false} QuietExtensionKeepsLog(rows: seq<Reminder>, rows': seq<Reminder>, log: seq<Attempt>)
    requires SoundLog(rows, log) && QuietlyExtends(rows, rows')
    ensures SoundLog(rows', log)
  {
    forall i | 0 <= i < |rows'|
      ensures AgreesWithLog(rows'[i], log)
    {
      if i < |rows| {
        assert AgreesWithLog(rows[i], log);
      } else {
        UnloggedKey(rows, log, rows'[i].key);
      }
    }
    forall k | 0 <= k < |log|
      ensures IsAccountedFor(log[k], rows')
    {
      assert IsAccountedFor(log[k], rows);
      var i :| 0 <= i < |rows| && rows[i].key == log[k].key && rows[i].task == log[k].task;
      assert rows'[i].key == log[k].key;
    }
  }

  lemma {:induction false} QuietlyExtendsTransitive(a: seq<Reminder>, b: seq<Reminder>, c: seq<Reminder>)
    requires QuietlyExtends(a, b) && QuietlyExtends(b, c)
    ensures QuietlyExtends(a, c)
  {
    forall i | |a| <= i < |c|
      ensures IsFresh(c[i]) && !HasKey(a, c[i].key)
    {
      if i < |b| {
        assert IsQuietChange(b[i], c[i]);
      }
    }
  }

  /******* Planning *******/

  lemma {:induction false} MissingRowsHave(rows: seq<Reminder>, id: nat, specs: seq<ReminderSpec>)
    requires DistinctKeys(specs)
    requires forall i :: 0 <= i < |specs| ==> IsPolicyKey(specs[i].key, id)
    ensures var missing := MissingRows(rows, id, specs);
            && UniqueKeys(missing)
            && (forall i :: 0 <= i < |missing| ==>
                  IsFresh(missing[i]) && IsPolicyRow(missing[i], id)
                  && Wants(specs, missing[i].key) && !HasKey(rows, missing[i].key))
  {
    if specs != [] {
      var front := specs[..|specs| - 1];
      MissingRowsHave(rows, id, front);
      var rest := MissingRows(rows, id, front);
      var missing := MissingRows(rows, id, specs);
      forall i | 0 <= i < |missing|
        ensures Wants(specs, missing[i].key)
        ensures i < |rest| ==> missing[i].key != specs[|specs| - 1].key
      {
        if i < |rest| {
          var k :| 0 <= k < |front| && front[k].key == missing[i].key;
          assert specs[k].key == missing[i].key;
        } else {
          assert specs[|specs| - 1].key == missing[i].key;
        }
      }
    }
  }

  lemma {:induction false} MissingRowsComplete(rows: seq<Reminder>, id: nat, specs: seq<ReminderSpec>)
    ensures forall k :: 0 <= k < |specs| && !HasKey(rows, specs[k].key) ==>
              NewReminder(id, specs[k].remindAt, specs[k].kind, specs[k].key) in MissingRows(rows, id, specs)
  {
    if specs != [] {
      MissingRowsComplete(rows, id, specs[..|specs| - 1]);
    }
  }

  lemma {:induction false} PlanTaskExtends(rows: seq<Reminder>, id: nat, specs: seq<ReminderSpec>)
    requires UniqueKeys(rows)
    requires DistinctKeys(specs)
    requires forall i :: 0 <= i < |specs| ==> IsPolicyKey(specs[i].key, id)
    ensures QuietlyExtends(rows, PlanTask(rows, id, specs))
    ensures UniqueKeys(PlanTask(rows, id, specs))
  {
    MissingRowsHave(rows, id, specs);
    var rows' := PlanTask(rows, id, specs);
    forall i, j | 0 <= i < j < |rows'|
      ensures rows'[i].key != rows'[j].key
    {
      if i < |rows| <= j {
        assert rows[i].key == rows'[i].key;
      }
    }
  }

  /** After planning a task, its open policy rows are wanted rows. */
  lemma {:induction false} PlannedRowsAreWanted(rows: seq<Reminder>, id: nat, specs: seq<ReminderSpec>, i: nat)
    requires DistinctKeys(specs)
    requires forall k :: 0 <= k < |specs| ==> IsPolicyKey(specs[k].key, id)
    requires i < |PlanTask(rows, id, specs)|
    ensures var r := PlanTask(rows, id, specs)[i];
            IsPolicyRow(r, id) && IsOpen(r) ==> Wants(specs, r.key)
  {
    MissingRowsHave(rows, id, specs);
  }

  lemma PlanTaskSound(rows: seq<Reminder>, id: nat, f: Fields, now: int, offset: int)
    requires SoundTable(rows)
    ensures var rows' := PlanTask(rows, id, Specs(id, f, now, offset));
            SoundTable(rows') && QuietlyExtends(rows, rows')
  {
    var specs := Specs(id, f, now, offset);
    var rows' := PlanTask(rows, id, specs);
    SpecsAreDistinct(id, f, now, offset);
    PlanTaskExtends(rows, id, specs);
    MissingRowsHave(rows, id, specs);
    forall i, j | 0 <= i < j < |rows'| && IsOpenDaily(rows'[i]) && IsOpenDaily(rows'[j])
      ensures rows'[i].task != rows'[j].task
    {
      if rows'[i].task == id && rows'[j].task == id {
        PlannedDailyIsToday(rows, id, f, now, offset, i);
        PlannedDailyIsToday(rows, id, f, now, offset, j);
      }
    }
  }

  lemma PlannedDailyIsToday(rows: seq<Reminder>, id: nat, f: Fields, now: int, offset: int, i: nat)
    requires SoundTable(rows)
    requires i < |PlanTask(rows, id, Specs(id, f, now, offset))|
    requires var r := PlanTask(rows, id, Specs(id, f, now, offset))[i];
             r.task == id && IsOpenDaily(r) && KeyNamesTask(r)
    ensures PlanTask(rows, id, Specs(id, f, now, offset))[i].key == Daily(id, LocalDate(now, offset))
  {
    var specs := Specs(id, f, now, offset);
    var r := PlanTask(rows, id, specs)[i];
    SpecsAreDistinct(id, f, now, offset);
    PlannedRowsAreWanted(rows, id, specs, i);
    SpecsAreWanted(id, f, now, offset, r.key);
  }

  lemma {:induction false} PlanSound(rows: seq<Reminder>, tasks: seq<Task>, listed: seq<nat>, now: int, offset: int)
    requires forall k :: 0 <= k < |listed| ==> listed[k] < |tasks|
    requires SoundTable(rows)
    ensures var rows' := Plan(rows, tasks, listed, now, offset);
            SoundTable(rows') && QuietlyExtends(rows, rows')
    decreases |listed|
  {
    if listed != [] {
      var front := listed[..|listed| - 1];
      var id := listed[|listed| - 1];
      PlanSound(rows, tasks, front, now, offset);
      var mid := Plan(rows, tasks, front, now, offset);
      PlanTaskSound(mid, id, tasks[id].fields, now, offset);
      QuietlyExtendsTransitive(rows, mid, Plan(rows, tasks, listed, now, offset));
    }
  }

  /******* Snoozing and adding *******/

  lemma SnoozeSound(rows: seq<Reminder>, id: nat, until: int)
    requires SoundTable(rows)
    ensures SoundTable(Snooze(rows, id, until)) && QuietlyExtends(rows, Snooze(rows, id, until))
  {
    var rows' := Snooze(rows, id, until);
    assert forall i :: 0 <= i < |rows| ==> rows'[i] == SnoozeRow(rows[i], id, until);
  }

  lemma AddSound(rows: seq<Reminder>, r: Reminder)
    requires SoundTable(rows) && IsFresh(r) && !r.key.Daily?
    ensures SoundTable(Add(rows, r)) && QuietlyExtends(rows, Add(rows, r))
  {}

  /******* Sending *******/

  lemma LogAppend(log: seq<Attempt>, a: Attempt, key: DedupeKey)
    ensures Attempts(log + [a], key) == Attempts(log, key) + if a.key == key then 1 else 0
    ensures Deliveries(log + [a], key) == Deliveries(log, key) + if a.key == key && a.delivered then 1 else 0
  {
    assert (log + [a])[..|log + [a]| - 1] == log;
  }

  lemma SendRowAgrees(r: Reminder, log: seq<Attempt>, active: bool, now: int, offset: int, q: Window, d: Delivery)
    requires ValidWindow(q) && IsOpen(r) && AgreesWithLog(r, log)
    ensures var r' := SendRow(r, active, now, offset, q, d);
            && r'.key == r.key && r'.task == r.task
            && (IsQuiet(now, offset, q) || !active ==> AgreesWithLog(r', log) && !IsFinal(r'))
            && (!IsQuiet(now, offset, q) && active ==>
                  AgreesWithLog(r', log + [Attempt(r.key, r.task, now, d.Delivered?)]))
  {
    LogAppend(log, Attempt(r.key, r.task, now, d.Delivered?), r.key);
  }

  lemma ReplacedRowSound(rows: seq<Reminder>, i: nat, r: Reminder)
    requires i < |rows| && SoundTable(rows) && IsOpen(rows[i])
    requires r.key == rows[i].key && r.task == rows[i].task
    ensures SoundTable(rows[i := r])
  {}

  lemma AccountedForAfter(a: Attempt, rows: seq<Reminder>, i: nat, r: Reminder)
    requires i < |rows| && r.key == rows[i].key && r.task == rows[i].task && IsAccountedFor(a, rows)
    ensures IsAccountedFor(a, rows[i := r])
  {
    var j :| 0 <= j < |rows| && rows[j].key == a.key && rows[j].task == a.task;
    assert rows[i := r][j].key == a.key && rows[i := r][j].task == a.task;
  }

  lemma SendOneSound(w: World, i: nat, now: int, offset: int, q: Window, deliver: nat -> Delivery)
    requires i < |w.rows| && ValidWindow(q) && IsOpen(w.rows[i])
    requires Sound(w)
    ensures Sound(SendOne(w, i, now, offset, q, deliver))
  {
    var r := w.rows[i];
    var r' := SendRow(r, IsLive(w.store, r.task), now, offset, q, deliver(i));
    SendRowAgrees(r, w.log, IsLive(w.store, r.task), now, offset, q, deliver(i));
    ReplacedRowSound(w.rows, i, r');
    var a := Attempt(r.key, r.task, now, deliver(i).Delivered?);
    forall k | 0 <= k < |w.log|
      ensures IsAccountedFor(w.log[k], w.rows[i := r'])
    {
      AccountedForAfter(w.log[k], w.rows, i, r');
    }
    if !IsQuiet(now, offset, q) && IsLive(w.store, r.task) {
      LoggedRowsAgree(w.rows, w.log, i, w.rows[i := r'], a);
      assert w.rows[i := r'][i].key == a.key;
    }
  }

  lemma {:induction false} LoggedRowsAgree(rows: seq<Reminder>, log: seq<Attempt>, i: nat, rows': seq<Reminder>,
                                           a: Attempt)
    requires i < |rows| == |rows'| && UniqueKeys(rows) && a.key == rows[i].key
    requires forall j :: 0 <= j < |rows| && j != i ==> rows'[j] == rows[j]
    requires forall j :: 0 <= j < |rows| ==> AgreesWithLog(rows[j], log)
    requires AgreesWithLog(rows'[i], log + [a])
    ensures forall j :: 0 <= j < |rows'| ==> AgreesWithLog(rows'[j], log + [a])
  {
    forall j | 0 <= j < |rows'|
      ensures AgreesWithLog(rows'[j], log + [a])
    {
      if j != i {
        assert AgreesWithLog(rows[j], log);
        LogAppend(log, a, rows[j].key);
      }
    }
  }

  ghost predicate Distinct(picked: seq<nat>) {
    forall j, k :: 0 <= j < k < |picked| ==> picked[j] != picked[k]
  }

  function PickedRows(picked: seq<nat>): set<nat> {
    set i | i in picked
  }

  lemma PickedCount(picked: seq<nat>)
    requires Distinct(picked)
    ensures |PickedRows(picked)| == |picked|
  {
    if picked == [] {
      assert PickedRows(picked) == {};
    } else {
      var front := picked[..|picked| - 1];
      var last := picked[|picked| - 1];
      PickedCount(front);
      assert picked == front + [last];
      assert last !in front;
      assert PickedRows(picked) == PickedRows(front) + {last};
    }
  }

  /** Whether task statuses are as before. */
  ghost predicate SameLiveness(s: Store, s': Store) {
    |s'.tasks| == |s.tasks| && forall id :: IsLive(s', id) == IsLive(s, id)
  }

  /** The row at `i` after a round that picked it. */
  function SentRow(w: World, i: nat, now: int, offset: int, q: Window, deliver: nat -> Delivery): Reminder
    requires i < |w.rows| && ValidWindow(q)
  {
    SendRow(w.rows[i], IsLive(w.store, w.rows[i].task), now, offset, q, deliver(i))
  }

  lemma OneRowSent(w: World, i: nat, now: int, offset: int, q: Window, deliver: nat -> Delivery)
    requires i < |w.rows| && ValidWindow(q)
    ensures var w' := SendOne(w, i, now, offset, q, deliver);
            && SameLiveness(w.store, w'.store)
            && w'.rows == w.rows[i := SentRow(w, i, now, offset, q, deliver)]
  {}

  /** Picked rows are changed each on its own merits, and no other row is. */
  ghost predicate IsPointwise(w: World, w': World, picked: seq<nat>, now: int, offset: int, q: Window,
                              deliver: nat -> Delivery)
    requires ValidWindow(q)
  {
    && |w'.rows| == |w.rows|
    && SameLiveness(w.store, w'.store)
    && (forall i :: 0 <= i < |w.rows| && i !in picked ==> w'.rows[i] == w.rows[i])
    && (forall i :: 0 <= i < |w.rows| && i in picked ==> w'.rows[i] == SentRow(w, i, now, offset, q, deliver))
  }

  lemma {:induction false} OneMoreSent(w: World, mid: World, w': World, front: seq<nat>, last: nat, now: int,
                                       offset: int, q: Window, deliver: nat -> Delivery)
    requires ValidWindow(q) && IsPointwise(w, mid, front, now, offset, q, deliver)
    requires last < |w.rows| && last !in front
    requires w' == SendOne(mid, last, now, offset, q, deliver)
    ensures IsPointwise(w, w', front + [last], now, offset, q, deliver)
  {
    OneRowSent(mid, last, now, offset, q, deliver);
    assert mid.rows[last] == w.rows[last];
    assert IsLive(mid.store, w.rows[last].task) == IsLive(w.store, w.rows[last].task);
    assert w'.rows[last] == SentRow(w, last, now, offset, q, deliver);
  }

  lemma {:induction false} BatchIsPointwise(w: World, picked: seq<nat>, now: int, offset: int, q: Window,
                                            deliver: nat -> Delivery)
    requires ValidWindow(q) && Distinct(picked)
    requires forall k :: 0 <= k < |picked| ==> picked[k] < |w.rows|
    ensures IsPointwise(w, SendBatch(w, picked, now, offset, q, deliver), picked, now, offset, q, deliver)
    decreases |picked|
  {
    if picked != [] {
      var front := picked[..|picked| - 1];
      var last := picked[|picked| - 1];
      BatchIsPointwise(w, front, now, offset, q, deliver);
      assert picked == front + [last];
      assert last !in front;
      OneMoreSent(w, SendBatch(w, front, now, offset, q, deliver), SendBatch(w, picked, now, offset, q, deliver),
                  front, last, now, offset, q, deliver);
    }
  }

  /** The new attempts of a round: made now, outside quiet hours, for live tasks,
      on rows that were picked. */
  ghost predicate IsRoundAttempt(a: Attempt, w: World, picked: seq<nat>, now: int, offset: int, q: Window)
    requires ValidWindow(q)
  {
    && a.at == now && !IsQuiet(now, offset, q) && IsLive(w.store, a.task)
    && exists i :: i in picked && i < |w.rows| && w.rows[i].key == a.key && w.rows[i].task == a.task
  }

  lemma {:induction false} BatchAttempts(w: World, picked: seq<nat>, now: int, offset: int, q: Window,
                                         deliver: nat -> Delivery)
    requires ValidWindow(q) && Distinct(picked)
    requires forall k :: 0 <= k < |picked| ==> picked[k] < |w.rows|
    ensures var w' := SendBatch(w, picked, now, offset, q, deliver);
            && w.log <= w'.log
            && forall k :: |w.log| <= k < |w'.log| ==> IsRoundAttempt(w'.log[k], w, picked, now, offset, q)
    decreases |picked|
  {
    if picked != [] {
      var front := picked[..|picked| - 1];
      var last := picked[|picked| - 1];
      BatchAttempts(w, front, now, offset, q, deliver);
      BatchIsPointwise(w, front, now, offset, q, deliver);
      var mid := SendBatch(w, front, now, offset, q, deliver);
      var w' := SendBatch(w, picked, now, offset, q, deliver);
      assert last !in front && last in picked;
      assert mid.rows[last] == w.rows[last];
      forall k | |w.log| <= k < |w'.log|
        ensures IsRoundAttempt(w'.log[k], w, picked, now, offset, q)
      {
        if k < |mid.log| {
          assert IsRoundAttempt(mid.log[k], w, front, now, offset, q);
          var i :| i in front && i < |w.rows| && w.rows[i].key == mid.log[k].key && w.rows[i].task == mid.log[k].task;
          assert i in picked;
        }
      }
    }
  }

  lemma {:induction false} BatchSound(w: World, picked: seq<nat>, now: int, offset: int, q: Window,
                                      deliver: nat -> Delivery)
    requires ValidWindow(q) && Distinct(picked) && Sound(w)
    requires forall k :: 0 <= k < |picked| ==> picked[k] < |w.rows| && IsOpen(w.rows[picked[k]])
    ensures Sound(SendBatch(w, picked, now, offset, q, deliver))
    decreases |picked|
  {
    if picked != [] {
      var front := picked[..|picked| - 1];
      var last := picked[|picked| - 1];
      BatchSound(w, front, now, offset, q, deliver);
      BatchIsPointwise(w, front, now, offset, q, deliver);
      assert last !in front;
      SendOneSound(SendBatch(w, front, now, offset, q, deliver), last, now, offset, q, deliver);
    }
  }

  /******* Every step *******/

  /** What no step undoes: rows keep their identity, final rows are never left or
      touched, and logged attempts stay logged. */
  ghost predicate Progresses(w: World, w': World) {
    && |w.rows| <= |w'.rows|
    && (forall i :: 0 <= i < |w.rows| ==> w'.rows[i].key == w.rows[i].key && w'.rows[i].task == w.rows[i].task)
    && (forall i :: 0 <= i < |w.rows| && IsFinal(w.rows[i]) ==> w'.rows[i] == w.rows[i])
    && w.log <= w'.log
    && |w.store.tasks| <= |w'.store.tasks|
  }

  lemma {:induction false} QuietStepSound(w: World, rows: seq<Reminder>)
    requires Sound(w) && SoundTable(rows) && QuietlyExtends(w.rows, rows)
    ensures Sound(w.(rows := rows)) && Progresses(w, w.(rows := rows))
  {
    QuietExtensionKeepsLog(w.rows, rows, w.log);
    assert forall i :: 0 <= i < |w.rows| ==> IsQuietChange(w.rows[i], rows[i]);
  }

  lemma {:induction false} PicksAreDue(rows: seq<Reminder>, now: int, limit: nat, picked: seq<nat>)
    requires IsBatch(rows, now, limit, picked)
    ensures Distinct(picked)
    ensures forall k :: 0 <= k < |picked| ==> picked[k] < |rows| && IsDue(rows[picked[k]], now)
  {
    forall k | 0 <= k < |picked|
      ensures picked[k] < |rows| && IsDue(rows[picked[k]], now)
    {
      assert picked[k] in DueRows(rows, now);
    }
  }

  lemma {:induction false} BatchProgresses(w: World, picked: seq<nat>, now: int, offset: int, q: Window,
                                           deliver: nat -> Delivery)
    requires ValidWindow(q) && Distinct(picked)
    requires forall k :: 0 <= k < |picked| ==> picked[k] < |w.rows| && IsOpen(w.rows[picked[k]])
    ensures Progresses(w, SendBatch(w, picked, now, offset, q, deliver))
  {
    BatchIsPointwise(w, picked, now, offset, q, deliver);
    BatchAttempts(w, picked, now, offset, q, deliver);
    var w' := SendBatch(w, picked, now, offset, q, deliver);
    forall i | 0 <= i < |w.rows|
      ensures w'.rows[i].key == w.rows[i].key && w'.rows[i].task == w.rows[i].task
      ensures IsFinal(w.rows[i]) ==> w'.rows[i] == w.rows[i]
    {
      if i in picked {
        var k :| 0 <= k < |picked| && picked[k] == i;
        assert w'.rows[i] == SentRow(w, i, now, offset, q, deliver);
      }
    }
  }

  lemma {:induction false} SendStepSound(w: World, picked: seq<nat>, limit: nat, now: int, offset: int, q: Window,
                                         deliver: nat -> Delivery)
    requires Sound(w) && Enabled(w, SendStep(picked, limit, now, offset, q, deliver))
    ensures Sound(Next(w, SendStep(picked, limit, now, offset, q, deliver)))
    ensures Progresses(w, Next(w, SendStep(picked, limit, now, offset, q, deliver)))
  {
    PicksAreDue(w.rows, now, limit, picked);
    assert forall k :: 0 <= k < |picked| ==> picked[k] < |w.rows| && IsOpen(w.rows[picked[k]]);
    BatchSound(w, picked, now, offset, q, deliver);
    BatchProgresses(w, picked, now, offset, q, deliver);
  }

  lemma StepKeepsSound(w: World, step: Step)
    requires Sound(w) && Enabled(w, step)
    ensures Sound(Next(w, step)) && Progresses(w, Next(w, step))
  {
    match step
    case TaskStep(op) => TaskStepSound(w, op);
    case PlanStep(listed, now, offset) =>
      PlanSound(w.rows, w.store.tasks, listed, now, offset);
      QuietStepSound(w, Next(w, step).rows);
    case SendStep(picked, limit, now, offset, quiet, deliver) =>
      SendStepSound(w, picked, limit, now, offset, quiet, deliver);
    case SnoozeStep(task, until) =>
      SnoozeSound(w.rows, task, until);
      QuietStepSound(w, Next(w, step).rows);
    case ManualStep(task, at) =>
      AddSound(w.rows, ManualReminder(task, at));
      QuietStepSound(w, Next(w, step).rows);
    case FollowUpStep(task, at, key) =>
      AddSound(w.rows, FollowUpReminder(task, at, key));
      QuietStepSound(w, Add(w.rows, FollowUpReminder(task, at, key)));
  }

  lemma TaskStepSound(w: World, op: Op)
    requires Sound(w)
    ensures Sound(Next(w, TaskStep(op))) && Progresses(w, Next(w, TaskStep(op)))
  {
    assert |w.store.tasks| <= |TaskStore.Step(w.store, op).tasks|;
  }

  lemma {:induction false} ProgressesTransitive(a: World, b: World, c: World)
    requires Progresses(a, b) && Progresses(b, c)
    ensures Progresses(a, c)
  {}

  /** Over every run: the table stays sound, and SENT and FAILED are never left. */
  lemma {:induction false} RunKeepsSound(w: World, steps: seq<Step>)
    requires Sound(w) && IsRun(w, steps)
    ensures Sound(After(w, steps)) && Progresses(w, After(w, steps))
    decreases |steps|
  {
    if steps != [] {
      var front := steps[..|steps| - 1];
      RunKeepsSound(w, front);
      StepKeepsSound(After(w, front), steps[|steps| - 1]);
      ProgressesTransitive(w, After(w, front), After(w, steps));
    }
  }
}
