/** What one planning round achieves for the tasks it lists. */
module PlanningRounds {
  import opened Wrappers
  import opened Math
  import opened TaskStore
  import opened ReminderPolicy
  import opened ReminderTable
  import opened ReminderSafety

  /** Planning task `id` again would change nothing. */
  ghost predicate IsSettled(rows: seq<Reminder>, id: nat, specs: seq<ReminderSpec>) {
    && (forall i :: 0 <= i < |rows| ==> PlanRow(rows[i], id, specs) == rows[i])
    && (forall k :: 0 <= k < |specs| ==> HasKey(rows, specs[k].key))
  }

  lemma PlanRowTwice(r: Reminder, id: nat, specs: seq<ReminderSpec>)
    ensures PlanRow(PlanRow(r, id, specs), id, specs) == PlanRow(r, id, specs)
  {}

  lemma {:induction false} PlanTaskKeepsKeys(rows: seq<Reminder>, id: nat, specs: seq<ReminderSpec>, key: DedupeKey)
    requires HasKey(rows, key)
    ensures HasKey(PlanTask(rows, id, specs), key)
  {
    var i :| 0 <= i < |rows| && rows[i].key == key;
    assert PlanTask(rows, id, specs)[i].key == key;
  }

  lemma {:induction false} PlanTaskSettles(rows: seq<Reminder>, id: nat, specs: seq<ReminderSpec>)
    requires DistinctKeys(specs)
    requires forall i :: 0 <= i < |specs| ==> IsPolicyKey(specs[i].key, id)
    ensures IsSettled(PlanTask(rows, id, specs), id, specs)
  {
    var rows' := PlanTask(rows, id, specs);
    MissingRowsHave(rows, id, specs);
    MissingRowsComplete(rows, id, specs);
    forall i | 0 <= i < |rows'|
      ensures PlanRow(rows'[i], id, specs) == rows'[i]
    {
      if i < |rows| {
        PlanRowTwice(rows[i], id, specs);
      } else {
        MissingRowIsSettled(rows, id, specs, i - |rows|);
      }
    }
    forall k | 0 <= k < |specs|
      ensures HasKey(rows', specs[k].key)
    {
      if HasKey(rows, specs[k].key) {
        PlanTaskKeepsKeys(rows, id, specs, specs[k].key);
      } else {
        var r := NewReminder(id, specs[k].remindAt, specs[k].kind, specs[k].key);
        assert r in rows';
        var j :| 0 <= j < |rows'| && rows'[j] == r;
      }
    }
  }

  /** An inserted row has the time its policy asks for. */
  lemma {:induction false} MissingRowIsSettled(rows: seq<Reminder>, id: nat, specs: seq<ReminderSpec>, i: nat)
    requires DistinctKeys(specs) && i < |MissingRows(rows, id, specs)|
    ensures var r := MissingRows(rows, id, specs)[i];
            && Wants(specs, r.key)
            && r == NewReminder(id, SpecFor(specs, r.key).value.remindAt, SpecFor(specs, r.key).value.kind, r.key)
  {
    var front := specs[..|specs| - 1];
    var last := specs[|specs| - 1];
    if i < |MissingRows(rows, id, front)| {
      MissingRowIsSettled(rows, id, front, i);
      var r := MissingRows(rows, id, front)[i];
      var k :| 0 <= k < |front| && front[k].key == r.key;
      assert specs[k].key == r.key;
      assert last.key != r.key;
    } else {
      assert specs[|specs| - 1].key == last.key;
    }
  }

  lemma {:induction false} OtherTaskStaysSettled(rows: seq<Reminder>, id: nat, specs: seq<ReminderSpec>, other: nat,
                                                 specs': seq<ReminderSpec>)
    requires other != id && IsSettled(rows, other, specs')
    requires DistinctKeys(specs)
    requires forall i :: 0 <= i < |specs| ==> IsPolicyKey(specs[i].key, id)
    ensures IsSettled(PlanTask(rows, id, specs), other, specs')
  {
    MissingRowsHave(rows, id, specs);
    var rows' := PlanTask(rows, id, specs);
    forall i | 0 <= i < |rows'|
      ensures PlanRow(rows'[i], other, specs') == rows'[i]
    {
      if i < |rows| {
        assert PlanRow(rows[i], other, specs') == rows[i];
      }
    }
    forall k | 0 <= k < |specs'|
      ensures HasKey(rows', specs'[k].key)
    {
      PlanTaskKeepsKeys(rows, id, specs, specs'[k].key);
    }
  }

  lemma {:induction false} PlanSettles(rows: seq<Reminder>, tasks: seq<Task>, listed: seq<nat>, now: int, offset: int,
                                       id: nat)
    requires forall k :: 0 <= k < |listed| ==> listed[k] < |tasks|
    requires id in listed
    ensures IsSettled(Plan(rows, tasks, listed, now, offset), id, Specs(id, tasks[id].fields, now, offset))
    decreases |listed|
  {
    var front := listed[..|listed| - 1];
    var last := listed[|listed| - 1];
    var specs := Specs(last, tasks[last].fields, now, offset);
    SpecsAreDistinct(last, tasks[last].fields, now, offset);
    if last == id {
      PlanTaskSettles(Plan(rows, tasks, front, now, offset), id, specs);
    } else {
      assert id in front;
      PlanSettles(rows, tasks, front, now, offset, id);
      OtherTaskStaysSettled(Plan(rows, tasks, front, now, offset), last, specs,
                            id, Specs(id, tasks[id].fields, now, offset));
    }
  }

  lemma {:induction false} NothingMissing(rows: seq<Reminder>, id: nat, specs: seq<ReminderSpec>)
    requires forall k :: 0 <= k < |specs| ==> HasKey(rows, specs[k].key)
    ensures MissingRows(rows, id, specs) == []
    decreases |specs|
  {
    if specs != [] {
      NothingMissing(rows, id, specs[..|specs| - 1]);
    }
  }

  /** A second round at the same instant changes nothing. */
  lemma {:induction false} SecondRoundChangesNothing(rows: seq<Reminder>, tasks: seq<Task>, listed: seq<nat>,
                                                     now: int, offset: int)
    requires forall k :: 0 <= k < |listed| ==> listed[k] < |tasks|
    ensures var rows' := Plan(rows, tasks, listed, now, offset);
            Plan(rows', tasks, listed, now, offset) == rows'
  {
    var rows' := Plan(rows, tasks, listed, now, offset);
    forall id | id in listed
      ensures IsSettled(rows', id, Specs(id, tasks[id].fields, now, offset))
    {
      PlanSettles(rows, tasks, listed, now, offset, id);
    }
    SettledRoundChangesNothing(rows', tasks, listed, now, offset);
  }

  lemma {:induction false} SettledRoundChangesNothing(rows: seq<Reminder>, tasks: seq<Task>, listed: seq<nat>,
                                                      now: int, offset: int)
    requires forall k :: 0 <= k < |listed| ==> listed[k] < |tasks|
    requires forall k :: 0 <= k < |listed| ==>
               IsSettled(rows, listed[k], Specs(listed[k], tasks[listed[k]].fields, now, offset))
    ensures Plan(rows, tasks, listed, now, offset) == rows
    decreases |listed|
  {
    if listed != [] {
      var id := listed[|listed| - 1];
      var specs := Specs(id, tasks[id].fields, now, offset);
      SettledRoundChangesNothing(rows, tasks, listed[..|listed| - 1], now, offset);
      assert IsSettled(rows, id, specs);
      NothingMissing(rows, id, specs);
      assert PlanTask(rows, id, specs) == rows;
    }
  }

  /** After a round, for every listed task: open policy rows carry wanted keys,
      and every wanted key has a row that is not cancelled. */
  lemma {:induction false} RoundSynchronises(rows: seq<Reminder>, tasks: seq<Task>, listed: seq<nat>, now: int,
                                             offset: int, id: nat)
    requires forall k :: 0 <= k < |listed| ==> listed[k] < |tasks|
    requires SoundTable(rows) && id in listed
    ensures var rows' := Plan(rows, tasks, listed, now, offset);
            var f := tasks[id].fields;
            && SoundTable(rows')
            && (forall i :: 0 <= i < |rows'| && IsPolicyRow(rows'[i], id) && IsOpen(rows'[i]) ==>
                  IsWanted(id, f, rows'[i].key, now, offset))
            && (forall key :: IsWanted(id, f, key, now, offset) ==>
                  exists i :: 0 <= i < |rows'| && rows'[i].key == key && rows'[i].status != ReminderStatus.Cancelled)
  {
    var rows' := Plan(rows, tasks, listed, now, offset);
    var f := tasks[id].fields;
    var specs := Specs(id, f, now, offset);
    PlanSound(rows, tasks, listed, now, offset);
    PlanSettles(rows, tasks, listed, now, offset, id);
    forall i | 0 <= i < |rows'| && IsPolicyRow(rows'[i], id) && IsOpen(rows'[i])
      ensures IsWanted(id, f, rows'[i].key, now, offset)
    {
      assert PlanRow(rows'[i], id, specs) == rows'[i];
      SpecsAreWanted(id, f, now, offset, rows'[i].key);
    }
    forall key | IsWanted(id, f, key, now, offset)
      ensures exists i :: 0 <= i < |rows'| && rows'[i].key == key && rows'[i].status != ReminderStatus.Cancelled
    {
      SpecsAreWanted(id, f, now, offset, key);
      var k :| 0 <= k < |specs| && specs[k].key == key;
      assert HasKey(rows', specs[k].key);
      var i :| 0 <= i < |rows'| && rows'[i].key == key;
      assert KeyNamesTask(rows'[i]);
      assert PlanRow(rows'[i], id, specs) == rows'[i];
    }
  }

  /** What a round does to each row that was there before it, however often the
      row's task is listed. */
  function PlannedRow(r: Reminder, tasks: seq<Task>, listed: seq<nat>, now: int, offset: int): Reminder
    requires forall k :: 0 <= k < |listed| ==> listed[k] < |tasks|
  {
    if r.task in listed then PlanRow(r, r.task, Specs(r.task, tasks[r.task].fields, now, offset)) else r
  }

  lemma {:induction false} OneMoreListed(r: Reminder, tasks: seq<Task>, front: seq<nat>, id: nat, now: int, offset: int)
    requires id < |tasks| && forall k :: 0 <= k < |front| ==> front[k] < |tasks|
    ensures PlanRow(PlannedRow(r, tasks, front, now, offset), id, Specs(id, tasks[id].fields, now, offset))
         == PlannedRow(r, tasks, front + [id], now, offset)
  {
    PlanRowTwice(r, id, Specs(id, tasks[id].fields, now, offset));
  }

  lemma {:induction false} RoundIsPointwise(rows: seq<Reminder>, tasks: seq<Task>, listed: seq<nat>, now: int,
                                            offset: int)
    requires forall k :: 0 <= k < |listed| ==> listed[k] < |tasks|
    ensures var rows' := Plan(rows, tasks, listed, now, offset);
            && |rows| <= |rows'|
            && forall i :: 0 <= i < |rows| ==> rows'[i] == PlannedRow(rows[i], tasks, listed, now, offset)
    decreases |listed|
  {
    if listed != [] {
      var front := listed[..|listed| - 1];
      var id := listed[|listed| - 1];
      var specs := Specs(id, tasks[id].fields, now, offset);
      RoundIsPointwise(rows, tasks, front, now, offset);
      assert listed == front + [id];
      var mid := Plan(rows, tasks, front, now, offset);
      forall i | 0 <= i < |rows|
        ensures PlanTask(mid, id, specs)[i] == PlannedRow(rows[i], tasks, listed, now, offset)
      {
        OneMoreListed(rows[i], tasks, front, id, now, offset);
      }
    }
  }

  /** Planning moves a still wanted pending row to the later of its own time and
      the policy time, revives a cancelled one at the policy time with the kind its
      key names, and leaves a row that awaits a retry alone. */
  lemma {:induction false} RoundKeepsLaterTimes(rows: seq<Reminder>, tasks: seq<Task>, listed: seq<nat>, now: int,
                                                offset: int, i: nat)
    requires forall k :: 0 <= k < |listed| ==> listed[k] < |tasks|
    requires i < |rows| && rows[i].task in listed && IsPolicyRow(rows[i], rows[i].task)
    requires IsWanted(rows[i].task, tasks[rows[i].task].fields, rows[i].key, now, offset)
    ensures i < |Plan(rows, tasks, listed, now, offset)|
    ensures var r' := Plan(rows, tasks, listed, now, offset)[i];
            var policyTime := Max(NominalTime(tasks[rows[i].task].fields, rows[i].key, now), now);
            var policyKind := if rows[i].key.Policy? then rows[i].key.kind else OverdueDaily;
            match rows[i].status {
              case Pending => r' == rows[i].(remindAt := Max(rows[i].remindAt, policyTime))
              case Cancelled =>
                r' == rows[i].(status := Pending, remindAt := policyTime, kind := policyKind, lastError := None)
              case _ => r' == rows[i]
            }
  {
    var r := rows[i];
    var f := tasks[r.task].fields;
    var specs := Specs(r.task, f, now, offset);
    RoundIsPointwise(rows, tasks, listed, now, offset);
    SpecsAreWanted(r.task, f, now, offset, r.key);
    var spec := SpecFor(specs, r.key).value;
    var k :| 0 <= k < |specs| && specs[k] == spec;
    SpecContents(r.task, f, now, offset, k);
  }
}
