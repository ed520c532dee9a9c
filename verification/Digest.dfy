/** Daily and weekly digests: sent inside a one-minute window, at most once per
    type and local date. */
module Digest {
  import opened Wrappers
  import opened LocalTime

  datatype DigestType = Morning | Evening | Weekly

  /** The owner's digest settings; weekdays are numbered from Monday = 1. */
  datatype Settings = Settings(morning: int, evening: int, reviewDay: int)

  const DIGEST_WINDOW := MINUTE

  ghost predicate ValidSettings(s: Settings) {
    0 <= s.morning < DAY && 0 <= s.evening < DAY
  }

  /** A digest that Telegram was seen to take, and the settings it was sent by. */
  datatype Message = Message(kind: DigestType, date: int, at: int, settings: Settings)

  /** The delivery records, and every digest that was sent. */
  datatype State = State(deliveries: set<(DigestType, int)>, sent: seq<Message>)

  const Start := State({}, [])

  function ConfiguredClock(kind: DigestType, s: Settings): int {
    if kind == Morning then s.morning else s.evening
  }

  /** Day 0 of the epoch is a Thursday. */
  function IsoWeekday(date: int): int {
    (date + 3) % 7 + 1
  }

  predicate IsDigestWindow(now: int, clock: int, offset: int) {
    var target := AtMinuteOf(now, offset, clock);
    target <= now < target + DIGEST_WINDOW
  }

  predicate IsDigestTime(kind: DigestType, now: int, s: Settings, offset: int) {
    && (kind == Weekly ==> IsoWeekday(LocalDate(now, offset)) == s.reviewDay)
    && IsDigestWindow(now, ConfiguredClock(kind, s), offset)
  }

  datatype Outcome = Skipped | Delivered | Raised

  /** One check of one digest: its instant, the settings row if there is one, and
      whether Telegram would accept the message. */
  datatype Check = Check(now: int, settings: Option<Settings>, reachable: bool)

  /** A failed send rolls the delivery record back. */
  function TrySend(st: State, kind: DigestType, check: Check, offset: int): (State, Outcome) {
    var date := LocalDate(check.now, offset);
    if check.settings.None? || !IsDigestTime(kind, check.now, check.settings.value, offset) then (st, Skipped)
    else if (kind, date) in st.deliveries then (st, Skipped)
    else if !check.reachable then (st, Raised)
    else
      var message := Message(kind, date, check.now, check.settings.value);
      (State(st.deliveries + {(kind, date)}, st.sent + [message]), Delivered)
  }

  /** One turn of the digest loop: its check of each digest.  The settings are read
      anew at each. */
  type Turn = DigestType -> Check

  /** A failed send skips the digests after it in the same turn. */
  function RunTurn(st: State, turn: Turn, offset: int): State {
    var (st1, o1) := TrySend(st, Morning, turn(Morning), offset);
    if o1.Raised? then st1
    else
      var (st2, o2) := TrySend(st1, Evening, turn(Evening), offset);
      if o2.Raised? then st2
      else TrySend(st2, Weekly, turn(Weekly), offset).0
  }

  function RunLoop(st: State, turns: seq<Turn>, offset: int): State {
    if turns == [] then st else RunTurn(RunLoop(st, turns[..|turns| - 1], offset), turns[|turns| - 1], offset)
  }

  function CountSent(sent: seq<Message>, kind: DigestType, date: int): nat {
    if sent == [] then 0
    else
      CountSent(sent[..|sent| - 1], kind, date) +
      if sent[|sent| - 1].kind == kind && sent[|sent| - 1].date == date then 1 else 0
  }

  /** There is a delivery record exactly for the digests that were sent, each of
      them once, on its date and inside its window by the settings read for it. */
  ghost predicate Valid(st: State, offset: int) {
    && (forall kind, date :: CountSent(st.sent, kind, date) == if (kind, date) in st.deliveries then 1 else 0)
    && (forall k :: 0 <= k < |st.sent| ==>
          && IsDigestTime(st.sent[k].kind, st.sent[k].at, st.sent[k].settings, offset)
          && st.sent[k].date == LocalDate(st.sent[k].at, offset))
  }

  lemma TrySendKeepsValid(st: State, kind: DigestType, check: Check, offset: int)
    requires Valid(st, offset)
    ensures Valid(TrySend(st, kind, check, offset).0, offset)
  {
    var st' := TrySend(st, kind, check, offset).0;
    if st' != st {
      assert st'.sent[..|st'.sent| - 1] == st.sent;
      forall k: DigestType, d: int
        ensures CountSent(st'.sent, k, d) == if (k, d) in st'.deliveries then 1 else 0
      {
        assert CountSent(st.sent, k, d) == if (k, d) in st.deliveries then 1 else 0;
      }
    }
  }

  lemma TurnKeepsValid(st: State, turn: Turn, offset: int)
    requires Valid(st, offset)
    ensures Valid(RunTurn(st, turn, offset), offset)
  {
    var (st1, _) := TrySend(st, Morning, turn(Morning), offset);
    var (st2, _) := TrySend(st1, Evening, turn(Evening), offset);
    TrySendKeepsValid(st, Morning, turn(Morning), offset);
    TrySendKeepsValid(st1, Evening, turn(Evening), offset);
    TrySendKeepsValid(st2, Weekly, turn(Weekly), offset);
  }

  /** The check is to send a digest that has not gone out. */
  predicate Owes(st: State, kind: DigestType, check: Check, offset: int) {
    && check.settings.Some? && IsDigestTime(kind, check.now, check.settings.value, offset)
    && (kind, LocalDate(check.now, offset)) !in st.deliveries
  }

  /** The order of the checks in a turn. */
  predicate ComesBefore(k: DigestType, kind: DigestType) {
    (k == Morning && kind != Morning) || (k == Evening && kind == Weekly)
  }

  /** A turn sends the digests that it owes, but for the first that Telegram does not
      take and the ones after it. */
  lemma TurnSendsExactly(st: State, turn: Turn, kind: DigestType, date: int, offset: int)
    ensures (kind, date) in RunTurn(st, turn, offset).deliveries <==>
            || (kind, date) in st.deliveries
            || (&& date == LocalDate(turn(kind).now, offset) && Owes(st, kind, turn(kind), offset)
                && turn(kind).reachable
                && forall k :: ComesBefore(k, kind) && Owes(st, k, turn(k), offset) ==> turn(k).reachable)
  {
    assert forall k :: ComesBefore(k, kind) ==> k == Morning || k == Evening;
    assert kind != Morning ==> ComesBefore(Morning, kind);
    assert kind == Weekly ==> ComesBefore(Evening, kind);
  }

  /** Under any sequence of turns, with any failures and any changes of the settings
      between checks, at most one digest of a type goes out per local date, inside
      its window, and a record exists only for a digest that was sent. */
  lemma {:induction false} AtMostOneDigest(turns: seq<Turn>, offset: int)
    ensures Valid(RunLoop(Start, turns, offset), offset)
    decreases |turns|
  {
    if turns != [] {
      AtMostOneDigest(turns[..|turns| - 1], offset);
      TurnKeepsValid(RunLoop(Start, turns[..|turns| - 1], offset), turns[|turns| - 1], offset);
    }
  }

  /** Day 0 was a Thursday, and weekdays follow each other. */
  lemma WeekdaysFollow(date: int)
    ensures IsoWeekday(0) == 4
    ensures IsoWeekday(date + 1) == if IsoWeekday(date) == 7 then 1 else IsoWeekday(date) + 1
    ensures 1 <= IsoWeekday(date) <= 7
  {}

  /** When a check may send a digest: in the minute of the local clock that is set for
      it, the morning one for the morning digest and the evening one for the others,
      and for the weekly digest on the day of review. */
  lemma DigestTimeExactly(kind: DigestType, now: int, s: Settings, offset: int)
    requires ValidSettings(s)
    ensures IsDigestTime(kind, now, s, offset) <==>
            && TimeOfDay(now, offset) / MINUTE == (match kind
                 case Morning => s.morning
                 case Evening => s.evening
                 case Weekly => s.evening) / MINUTE
            && (kind == Weekly ==> IsoWeekday(LocalDate(now, offset)) == s.reviewDay)
  {
    var clock := ConfiguredClock(kind, s);
    var day := LocalDate(now, offset);
    assert now + offset == day * DAY + TimeOfDay(now, offset);
    assert clock - clock % MINUTE == clock / MINUTE * MINUTE;
  }

  /******* Exactly once *******/

  /** The start of the window for the digest of `date`. */
  function WindowStart(kind: DigestType, date: int, s: Settings, offset: int): int {
    var clock := ConfiguredClock(kind, s);
    date * DAY + (clock - clock % MINUTE) - offset
  }

  predicate IsScheduled(kind: DigestType, date: int, s: Settings) {
    kind == Weekly ==> IsoWeekday(date) == s.reviewDay
  }

  /** The instant is inside the window for the digest of `date`. */
  predicate IsInWindow(now: int, kind: DigestType, date: int, s: Settings, offset: int) {
    WindowStart(kind, date, s, offset) <= now < WindowStart(kind, date, s, offset) + DIGEST_WINDOW
  }

  /** The window of a date lies inside that date, and is the one the check uses. */
  lemma WindowOfDate(kind: DigestType, date: int, now: int, s: Settings, offset: int)
    requires ValidSettings(s) && IsInWindow(now, kind, date, s, offset)
    ensures LocalDate(now, offset) == date
    ensures IsDigestTime(kind, now, s, offset) <==> IsScheduled(kind, date, s)
  {
    var clock := ConfiguredClock(kind, s);
    var minute := clock / MINUTE;
    assert clock - clock % MINUTE == minute * MINUTE;
    assert 0 <= minute * MINUTE <= DAY - MINUTE;
    DateOf(date, now + offset - date * DAY);
  }

  lemma DateOf(date: int, clock: int)
    requires 0 <= clock < DAY
    ensures (date * DAY + clock) / DAY == date
  {}

  /** Telegram accepts every message of these turns. */
  ghost predicate AllReachable(turns: seq<Turn>) {
    forall k, kind :: 0 <= k < |turns| ==> turns[k](kind).reachable
  }

  /** The checks of the digest all read these settings. */
  predicate AllRead(turns: seq<Turn>, kind: DigestType, s: Settings) {
    forall k :: 0 <= k < |turns| ==> turns[k](kind).settings == Some(s)
  }

  lemma ReachableTurnDelivers(st: State, turn: Turn, kind: DigestType, date: int, s: Settings, offset: int)
    requires ValidSettings(s) && IsScheduled(kind, date, s)
    requires forall k :: turn(k).reachable
    requires turn(kind).settings == Some(s) && IsInWindow(turn(kind).now, kind, date, s, offset)
    ensures (kind, date) in RunTurn(st, turn, offset).deliveries
  {
    WindowOfDate(kind, date, turn(kind).now, s, offset);
    assert turn(Morning).reachable && turn(Evening).reachable && turn(Weekly).reachable;
  }

  lemma {:induction false} RecordsStay(st: State, turns: seq<Turn>, n: nat, offset: int)
    requires n <= |turns|
    ensures RunLoop(st, turns[..n], offset).deliveries <= RunLoop(st, turns, offset).deliveries
    decreases |turns|
  {
    if n < |turns| {
      var front := turns[..|turns| - 1];
      assert front[..n] == turns[..n];
      RecordsStay(st, front, n, offset);
    } else {
      assert turns[..n] == turns;
    }
  }

  /** The check is one that may send the digest of `date`. */
  predicate IsTimely(check: Check, kind: DigestType, date: int, offset: int) {
    && LocalDate(check.now, offset) == date
    && check.settings.Some? && IsDigestTime(kind, check.now, check.settings.value, offset)
  }

  lemma UntimelyTurnSendsNothing(st: State, turn: Turn, kind: DigestType, date: int, offset: int)
    requires (kind, date) !in st.deliveries
    requires !IsTimely(turn(kind), kind, date, offset)
    ensures (kind, date) !in RunTurn(st, turn, offset).deliveries
  {}

  lemma {:induction false} UntimelyTurnsSendNothing(turns: seq<Turn>, kind: DigestType, date: int, offset: int)
    requires forall k :: 0 <= k < |turns| ==> !IsTimely(turns[k](kind), kind, date, offset)
    ensures (kind, date) !in RunLoop(Start, turns, offset).deliveries
    decreases |turns|
  {
    if turns != [] {
      var n := |turns| - 1;
      UntimelyTurnsSendNothing(turns[..n], kind, date, offset);
      UntimelyTurnSendsNothing(RunLoop(Start, turns[..n], offset), turns[n], kind, date, offset);
    }
  }

  lemma NotInWindow(kind: DigestType, date: int, now: int, s: Settings, offset: int)
    requires ValidSettings(s) && !IsInWindow(now, kind, date, s, offset)
    ensures !(LocalDate(now, offset) == date && IsDigestTime(kind, now, s, offset))
  {}

  /** Some check of the digest falls into the window of the date. */
  ghost predicate HitsWindow(turns: seq<Turn>, kind: DigestType, date: int, s: Settings, offset: int) {
    exists k :: 0 <= k < |turns| && IsInWindow(turns[k](kind).now, kind, date, s, offset)
  }

  /** If every send succeeds and the checks of a digest read the same settings,
      one digest of that type goes out for a scheduled date if a check falls into its
      window, and otherwise none. */
  lemma {:induction false} DigestSentExactly(turns: seq<Turn>, kind: DigestType, date: int, s: Settings, offset: int)
    requires ValidSettings(s) && IsScheduled(kind, date, s) && AllReachable(turns) && AllRead(turns, kind, s)
    ensures CountSent(RunLoop(Start, turns, offset).sent, kind, date)
         == if HitsWindow(turns, kind, date, s, offset) then 1 else 0
  {
    AtMostOneDigest(turns, offset);
    if HitsWindow(turns, kind, date, s, offset) {
      var k :| 0 <= k < |turns| && IsInWindow(turns[k](kind).now, kind, date, s, offset);
      assert turns[..k + 1][..k] == turns[..k];
      assert forall q :: turns[k](q).reachable;
      ReachableTurnDelivers(RunLoop(Start, turns[..k], offset), turns[k], kind, date, s, offset);
      RecordsStay(Start, turns, k + 1, offset);
      assert (kind, date) in RunLoop(Start, turns, offset).deliveries;
    } else {
      forall k | 0 <= k < |turns|
        ensures !IsTimely(turns[k](kind), kind, date, offset)
      {
        NotInWindow(kind, date, turns[k](kind).now, s, offset);
      }
      UntimelyTurnsSendNothing(turns, kind, date, offset);
    }
  }

  /** Consecutive checks of the digest are at most `gap` apart. */
  ghost predicate ChecksEvery(turns: seq<Turn>, kind: DigestType, gap: int) {
    forall k :: 0 <= k < |turns| - 1 ==> turns[k + 1](kind).now <= turns[k](kind).now + gap
  }

  /** The checks start no later than the window and reach it. */
  predicate Spans(turns: seq<Turn>, kind: DigestType, start: int) {
    turns != [] && turns[0](kind).now <= start <= turns[|turns| - 1](kind).now
  }

  lemma {:induction false} SomeCheckHitsWindow(turns: seq<Turn>, kind: DigestType, start: int) returns (k: nat)
    requires Spans(turns, kind, start) && ChecksEvery(turns, kind, DIGEST_WINDOW)
    ensures k < |turns| && start <= turns[k](kind).now < start + DIGEST_WINDOW
  {
    k := 0;
    while turns[k](kind).now < start
      invariant 0 <= k < |turns|
      invariant forall j :: 0 <= j < k ==> turns[j](kind).now < start
      decreases |turns| - k
    {
      if k == |turns| - 1 {
        assert false;
      }
      k := k + 1;
    }
    if k > 0 {
      assert turns[(k - 1) + 1](kind).now <= turns[k - 1](kind).now + DIGEST_WINDOW;
    }
  }

  /** If the checks of a digest read the same settings, are at most a minute apart,
      start no later than the configured time and reach it, and every send succeeds,
      exactly one digest of that type goes out for the date. */
  lemma ExactlyOneDigest(turns: seq<Turn>, kind: DigestType, date: int, s: Settings, offset: int)
    requires ValidSettings(s) && IsScheduled(kind, date, s) && AllReachable(turns) && AllRead(turns, kind, s)
    requires Spans(turns, kind, WindowStart(kind, date, s, offset)) && ChecksEvery(turns, kind, DIGEST_WINDOW)
    ensures CountSent(RunLoop(Start, turns, offset).sent, kind, date) == 1
  {
    var k := SomeCheckHitsWindow(turns, kind, WindowStart(kind, date, s, offset));
    assert IsInWindow(turns[k](kind).now, kind, date, s, offset);
    DigestSentExactly(turns, kind, date, s, offset);
  }

  /** One microsecond more than a minute between checks, and the digest can be
      missed altogether. */
  lemma LongerGapCanMiss(kind: DigestType, date: int, s: Settings, offset: int) returns (turns: seq<Turn>)
    requires ValidSettings(s) && IsScheduled(kind, date, s)
    ensures AllReachable(turns) && AllRead(turns, kind, s) && Spans(turns, kind, WindowStart(kind, date, s, offset))
    ensures ChecksEvery(turns, kind, DIGEST_WINDOW + 1)
    ensures CountSent(RunLoop(Start, turns, offset).sent, kind, date) == 0
  {
    var start := WindowStart(kind, date, s, offset);
    turns := [_ => Check(start - 1, Some(s), true), _ => Check(start + DIGEST_WINDOW, Some(s), true)];
    DigestSentExactly(turns, kind, date, s, offset);
  }

  /******* The loop as the program runs it *******/

  class DigestService {
    var deliveries: set<(DigestType, int)>
    ghost var sent: seq<Message>

    ghost function View(): State
      reads this
    {
      State(deliveries, sent)
    }

    constructor ()
      ensures View() == Start
    {
      deliveries, sent := {}, [];
    }

    method SendDigestIfDue(kind: DigestType, check: Check, offset: int) returns (outcome: Outcome)
      modifies this
      ensures (View(), outcome) == TrySend(old(View()), kind, check, offset)
    {
      if check.settings.None? {
        return Skipped;
      }
      var settings := check.settings.value;
      var clock := if kind == Morning then settings.morning else settings.evening;
      var date := LocalDate(check.now, offset);
      if kind == Weekly && IsoWeekday(date) != settings.reviewDay {
        return Skipped;
      }
      if !IsDigestWindow(check.now, clock, offset) {
        return Skipped;
      }
      if (kind, date) in deliveries {
        return Skipped;
      }
      var committed := deliveries;
      deliveries := deliveries + {(kind, date)};
      if !check.reachable {
        deliveries := committed;
        return Raised;
      }
      sent := sent + [Message(kind, date, check.now, settings)];
      return Delivered;
    }

    method RunDigestLoop(turns: seq<Turn>, offset: int)
      modifies this
      ensures View() == RunLoop(old(View()), turns, offset)
    {
      for i := 0 to |turns|
        invariant View() == RunLoop(old(View()), turns[..i], offset)
      {
        assert turns[..i + 1][..i] == turns[..i];
        var turn := turns[i];
        var outcome := SendDigestIfDue(Morning, turn(Morning), offset);
        if outcome.Raised? {
          continue;
        }
        outcome := SendDigestIfDue(Evening, turn(Evening), offset);
        if outcome.Raised? {
          continue;
        }
        outcome := SendDigestIfDue(Weekly, turn(Weekly), offset);
      }
      assert turns[..|turns|] == turns;
    }
  }
}
