/** The Telegram buttons that add reminders, and what handling one twice does. */
module ReminderPresses {
  import opened Wrappers
  import opened LocalTime
  import opened Math
  import opened TaskStore
  import opened ReminderPolicy
  import opened ReminderTable
  import opened ReminderSafety

  /** "Remind me": in an hour, under a key that names that instant. */
  function RemindPress(task: nat, now: int): Step {
    ManualStep(task, now + HOUR)
  }

  /** "Remind me tomorrow" on an awaited task, under a key that names the press. */
  function FollowUpPress(callback: string, task: nat, now: int): Step {
    FollowUpStep(task, now + DAY, Some(TelegramFollowUp(callback)))
  }

  function FollowUpKey(callback: string): DedupeKey {
    Operation(TelegramFollowUp(callback))
  }

  /** What the two buttons add when they are handled first. */
  lemma PressesOutcome(w: World, callback: string, task: nat, now: int)
    requires task < |w.store.tasks|
    ensures !HasKey(w.rows, Manual(task, now + 60 * MINUTE)) ==>
              Next(w, RemindPress(task, now)).rows == w.rows + [
                Reminder(task, now + 60 * MINUTE, StatusCheck, Pending, 0, None, None, Manual(task, now + 60 * MINUTE))]
    ensures !HasKey(w.rows, FollowUpKey(callback)) && w.store.tasks[task].fields.taskType == Awaiting ==>
              Next(w, FollowUpPress(callback, task, now)).rows == w.rows + [
                Reminder(task, now + 24 * HOUR, AwaitingFollowUp, Pending, 0, None, None, FollowUpKey(callback))]
  {}

  /** Some later redelivery of the press would change the reminders. */
  ghost predicate CanAddAgain(w: World, callback: string, task: nat) {
    exists steps: seq<Step>, now: int ::
      IsRun(w, steps) && Enabled(After(w, steps), FollowUpPress(callback, task, now))
      && Next(After(w, steps), FollowUpPress(callback, task, now)) != After(w, steps)
  }

  function AwaitTask(task: nat): Step {
    TaskStep(OpUpdate(task, NoChange.(taskType := Set(Some(Awaiting))), None, None, 0))
  }

  lemma RefusedPressCanAdd(w: World, callback: string, task: nat)
    requires task < |w.store.tasks| && !HasKey(w.rows, FollowUpKey(callback))
    ensures CanAddAgain(w, callback, task)
  {
    var step := AwaitTask(task);
    assert [step][..0] == [];
    assert IsRun(w, []) && After(w, []) == w;
    assert IsRun(w, [step]) && After(w, [step]) == Next(w, step);
    var w1 := After(w, [step]);
    assert w1.store.tasks[task].fields.taskType == Awaiting && w1.rows == w.rows;
    assert |Next(w1, FollowUpPress(callback, task, 0)).rows| == |w.rows| + 1;
  }

  lemma KeysStay(w: World, w': World, key: DedupeKey)
    requires Progresses(w, w') && HasKey(w.rows, key)
    ensures HasKey(w'.rows, key)
  {
    var i :| 0 <= i < |w.rows| && w.rows[i].key == key;
    assert w'.rows[i].key == key;
  }

  /** Delivering a handled "remind me tomorrow" again is harmless, whatever happens in
      between, if and only if it found the task awaited or was recorded before. */
  lemma FollowUpPressHarmlessExactly(w: World, callback: string, task: nat, now: int)
    requires Sound(w) && task < |w.store.tasks|
    ensures !CanAddAgain(Next(w, FollowUpPress(callback, task, now)), callback, task) <==>
            w.store.tasks[task].fields.taskType == Awaiting || HasKey(w.rows, FollowUpKey(callback))
  {
    var press := FollowUpPress(callback, task, now);
    var w1 := Next(w, press);
    StepKeepsSound(w, press);
    if w.store.tasks[task].fields.taskType == Awaiting || HasKey(w.rows, FollowUpKey(callback)) {
      assert HasKey(w1.rows, FollowUpKey(callback)) by {
        if !HasKey(w.rows, FollowUpKey(callback)) {
          assert w1.rows[|w.rows|].key == FollowUpKey(callback);
        }
      }
      forall steps: seq<Step>, later: int |
        IsRun(w1, steps) && Enabled(After(w1, steps), FollowUpPress(callback, task, later))
        ensures Next(After(w1, steps), FollowUpPress(callback, task, later)) == After(w1, steps)
      {
        RunKeepsSound(w1, steps);
        KeysStay(w1, After(w1, steps), FollowUpKey(callback));
      }
    } else {
      RefusedPressCanAdd(w1, callback, task);
    }
  }

  /** A bound on the instants that manual reminders of the table name. */
  function ManualBound(rows: seq<Reminder>): (bound: int)
    ensures forall i :: 0 <= i < |rows| && rows[i].key.Manual? ==> rows[i].key.at < bound
  {
    if rows == [] then 0
    else
      var bound := ManualBound(rows[..|rows| - 1]);
      match rows[|rows| - 1].key
      case Manual(_, at) => Max(bound, at + 1)
      case _ => bound
  }

  /** A press of "remind me" leaves the reminders as they are if and only if the task
      has a manual reminder for an hour from the instant at which it is handled.  So
      no such press is safe to deliver twice: after any run, there is a later instant
      at which handling it again adds a second reminder. */
  lemma RemindPressNeverRepeatable(w: World, task: nat, now: int) returns (later: int)
    requires task < |w.store.tasks|
    ensures Next(w, RemindPress(task, now)) == w <==> HasKey(w.rows, Manual(task, now + HOUR))
    ensures later > now && |Next(w, RemindPress(task, later)).rows| == |w.rows| + 1
  {
    later := Max(ManualBound(w.rows), now) + 1;
    assert !HasKey(w.rows, Manual(task, later + HOUR));
  }

  /** One press, handled at instant 0 and again a microsecond later: two reminders. */
  lemma RemindedTwice(s: Store, task: nat)
    requires task < |s.tasks|
    ensures var w := Next(Next(World(s, [], []), RemindPress(task, 0)), RemindPress(task, 1));
            |w.rows| == 2 && w.rows[0].remindAt == HOUR && w.rows[1].remindAt == HOUR + 1
  {}
}
