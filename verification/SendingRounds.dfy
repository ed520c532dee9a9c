/** How send rounds drain the rows that are due. */
module SendingRounds {
  import opened LocalTime
  import opened Math
  import opened QuietHours
  import opened TaskStore
  import opened ReminderPolicy
  import opened ReminderTable
  import opened ReminderSafety

  /** Whatever happens to a picked row, it is no longer due at that instant. */
  lemma SentRowIsNotDue(r: Reminder, active: bool, now: int, offset: int, q: Window, d: Delivery)
    requires ValidWindow(q) && IsDue(r, now)
    ensures !IsDue(SendRow(r, active, now, offset, q, d), now)
  {}

  lemma {:induction false} PickedAreDue(rows: seq<Reminder>, now: int, limit: nat, picked: seq<nat>)
    requires IsBatch(rows, now, limit, picked)
    ensures PickedRows(picked) <= DueRows(rows, now)
    ensures |PickedRows(picked)| == Min(|DueRows(rows, now)|, limit)
  {
    forall i | i in PickedRows(picked)
      ensures i in DueRows(rows, now)
    {
      var k :| 0 <= k < |picked| && picked[k] == i;
    }
    PickedCount(picked);
  }

  lemma DifferenceCount(a: set<nat>, b: set<nat>)
    requires b <= a
    ensures |a - b| == |a| - |b|
  {
    assert a == (a - b) + b;
  }

  /** A send round at `now` takes exactly its picked rows out of those due at
      `now`, the smaller of the limit and the number due, and touches no other
      row, whatever mix of deliveries, failures, closed tasks and quiet hours. */
  lemma {:induction false} RoundDrainsDue(w: World, picked: seq<nat>, limit: nat, now: int, offset: int, q: Window,
                                          deliver: nat -> Delivery)
    requires ValidWindow(q) && IsBatch(w.rows, now, limit, picked)
    requires forall k :: 0 <= k < |picked| ==> picked[k] < |w.rows|
    ensures var w' := SendBatch(w, picked, now, offset, q, deliver);
            && DueRows(w'.rows, now) == DueRows(w.rows, now) - PickedRows(picked)
            && |DueRows(w'.rows, now)| == |DueRows(w.rows, now)| - Min(|DueRows(w.rows, now)|, limit)
            && forall i :: 0 <= i < |w.rows| && i !in picked ==> w'.rows[i] == w.rows[i]
  {
    PicksAreDue(w.rows, now, limit, picked);
    PickedAreDue(w.rows, now, limit, picked);
    DrainsPicked(w, picked, now, offset, q, deliver);
    DifferenceCount(DueRows(w.rows, now), PickedRows(picked));
  }

  lemma {:induction false} DrainsPicked(w: World, picked: seq<nat>, now: int, offset: int, q: Window,
                                        deliver: nat -> Delivery)
    requires ValidWindow(q) && Distinct(picked)
    requires forall k :: 0 <= k < |picked| ==> picked[k] < |w.rows| && IsDue(w.rows[picked[k]], now)
    ensures var w' := SendBatch(w, picked, now, offset, q, deliver);
            && DueRows(w'.rows, now) == DueRows(w.rows, now) - PickedRows(picked)
            && forall i :: 0 <= i < |w.rows| && i !in picked ==> w'.rows[i] == w.rows[i]
  {
    BatchIsPointwise(w, picked, now, offset, q, deliver);
    var w' := SendBatch(w, picked, now, offset, q, deliver);
    forall i: nat | i < |w.rows|
      ensures IsDue(w'.rows[i], now) <==> IsDue(w.rows[i], now) && i !in picked
    {
      if i in picked {
        var k :| 0 <= k < |picked| && picked[k] == i;
        assert w'.rows[i] == SentRow(w, i, now, offset, q, deliver);
        SentRowIsNotDue(w.rows[i], IsLive(w.store, w.rows[i].task), now, offset, q, deliver(i));
      }
    }
  }

  /** The run consists of send rounds at the instant `now` with one limit. */
  ghost predicate IsSendingAt(steps: seq<Step>, now: int, limit: nat) {
    forall k :: 0 <= k < |steps| ==> steps[k].SendStep? && steps[k].now == now && steps[k].limit == limit
  }

  lemma OneMoreRound(due: nat, before: nat, limit: nat)
    ensures due - Min(due, before) - Min(due - Min(due, before), limit) == due - Min(due, before + limit)
  {}

  lemma SendingStepDrains(w: World, step: Step)
    requires Enabled(w, step) && step.SendStep?
    ensures |DueRows(Next(w, step).rows, step.now)|
         == |DueRows(w.rows, step.now)| - Min(|DueRows(w.rows, step.now)|, step.limit)
  {
    PicksAreDue(w.rows, step.now, step.limit, step.picked);
    RoundDrainsDue(w, step.picked, step.limit, step.now, step.offset, step.quiet, step.deliver);
  }

  function Times(n: nat, limit: nat): nat {
    n * limit
  }

  lemma TimesOneMore(n: nat, limit: nat)
    ensures Times(n + 1, limit) == Times(n, limit) + limit
  {}

  /** Repeated rounds at a fixed instant take `limit` rows each until nothing is
      due: after n rounds, n times the limit fewer. */
  lemma {:induction false} RepeatedRoundsDrain(w: World, steps: seq<Step>, now: int, limit: nat)
    requires IsRun(w, steps) && IsSendingAt(steps, now, limit)
    ensures |DueRows(After(w, steps).rows, now)|
         == |DueRows(w.rows, now)| - Min(|DueRows(w.rows, now)|, Times(|steps|, limit))
    decreases |steps|
  {
    if steps != [] {
      var front := steps[..|steps| - 1];
      var step := steps[|steps| - 1];
      assert step.SendStep? && step.now == now && step.limit == limit;
      RepeatedRoundsDrain(w, front, now, limit);
      SendingStepDrains(After(w, front), step);
      OneMoreRound(|DueRows(w.rows, now)|, Times(|front|, limit), limit);
      TimesOneMore(|front|, limit);
    }
  }

  /** In particular nothing is due after as many rounds as there were due rows. */
  lemma {:induction false} RoundsTerminate(w: World, steps: seq<Step>, now: int, limit: nat)
    requires IsRun(w, steps) && IsSendingAt(steps, now, limit)
    requires limit > 0 && |steps| >= |DueRows(w.rows, now)|
    ensures DueRows(After(w, steps).rows, now) == {}
  {
    RepeatedRoundsDrain(w, steps, now, limit);
    EnoughRounds(|steps|, limit);
  }

  lemma EnoughRounds(n: nat, limit: nat)
    requires limit > 0
    ensures Times(n, limit) >= n
  {}
}
