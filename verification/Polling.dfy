/** Long polling with an offset that is held only in memory.

    Telegram keeps the updates until a request confirms them; the bot confirms
    an update by asking for the ones after it.  A crash forgets the offset, so
    handled updates are delivered again. */
module Polling {
  import opened Math
  import opened Wrappers
  import opened TaskStore
  import opened TaskHistory
  import opened TelegramUpdates

  /** The task store, what Telegram has confirmed, the bot's offset, the part
      `next..end` of the last answer still to be handled, and how many updates
      have been handled at least once. */
  datatype State = State(store: Store, confirmed: nat, offset: Option<nat>, next: nat, end: nat, handled: nat)

  function Start(s: Store): State {
    State(s, 0, None, 0, 0, 0)
  }

  datatype Move =
    | Fetch(available: nat)         // ask for updates, of which this many have arrived so far
    | HandleNext(now: int)          // handle the next one of the answer
    | HandleAndRaise(now: int)      // the handler commits, then fails to reply
    | RaiseBeforeCommit             // the handler fails before it commits
    | Crash                         // the process dies and restarts
    | Elsewhere(op: Op)             // the API or another job changes the tasks

  predicate Enabled(b: State, updates: seq<Update>, move: Move) {
    match move
    case Fetch(_) => b.next == b.end
    case HandleNext(_) => b.next < b.end <= |updates|
    case HandleAndRaise(_) => b.next < b.end <= |updates|
    case RaiseBeforeCommit => b.next < b.end <= |updates|
    case Crash => true
    case Elsewhere(_) => true
  }

  /** The first update of an answer to a request with this offset. */
  function FirstAnswered(confirmed: nat, offset: Option<nat>): nat {
    if offset.Some? then Max(confirmed, offset.value) else confirmed
  }

  function LastAnswered(first: nat, available: nat, arrived: nat): nat {
    Max(first, Min(available, arrived))
  }

  function HandledNext(b: State, updates: seq<Update>, now: int): State
    requires b.next < |updates|
  {
    b.(store := Handle(b.store, updates[b.next], now),
       offset := Some(b.next + 1),
       next := b.next + 1,
       handled := Max(b.handled, b.next + 1))
  }

  function Next(b: State, updates: seq<Update>, move: Move): State
    requires Enabled(b, updates, move)
  {
    match move
    case Fetch(available) =>
      var first := FirstAnswered(b.confirmed, b.offset);
      b.(confirmed := first, next := first, end := LastAnswered(first, available, |updates|))
    case HandleNext(now) => HandledNext(b, updates, now)
    case HandleAndRaise(now) => HandledNext(b, updates, now).(end := b.next + 1)
    case RaiseBeforeCommit => b.(offset := Some(b.next + 1), next := b.next + 1, end := b.next + 1)
    case Crash => b.(offset := None, next := 0, end := 0)
    case Elsewhere(op) => b.(store := Step(b.store, op))
  }

  /** A handler that fails ends the answer, whether it had committed or not: the rest
      of it is not handled, and the next request asks from the update after it. */
  lemma FailureEndsAnswer(b: State, updates: seq<Update>, now: int, move: Move, available: nat)
    requires Enabled(b, updates, move) && (move == RaiseBeforeCommit || move == HandleAndRaise(now))
    ensures var b' := Next(b, updates, move);
            && !Enabled(b', updates, HandleNext(now)) && Enabled(b', updates, Fetch(available))
            && Next(b', updates, Fetch(available)).next == Max(b.confirmed, b.next + 1)
            && b'.store == if move.RaiseBeforeCommit? then b.store else Handle(b.store, updates[b.next], now)
  {}

  ghost predicate IsRun(b: State, updates: seq<Update>, moves: seq<Move>)
    decreases |moves|, 0
  {
    moves == [] ||
    (IsRun(b, updates, moves[..|moves| - 1])
     && Enabled(After(b, updates, moves[..|moves| - 1]), updates, moves[|moves| - 1]))
  }

  function After(b: State, updates: seq<Update>, moves: seq<Move>): State
    requires IsRun(b, updates, moves)
    decreases |moves|, 1
  {
    if moves == [] then b
    else Next(After(b, updates, moves[..|moves| - 1]), updates, moves[|moves| - 1])
  }

  /******* The simple form: each update once, in order *******/

  datatype Input = First(now: int) | Other(op: Op)

  datatype Simple = Simple(store: Store, handled: nat)

  /** Handles the next update exactly once per First input. */
  function RunOnce(s: Simple, updates: seq<Update>, inputs: seq<Input>): Simple {
    if inputs == [] then s
    else
      var before := RunOnce(s, updates, inputs[..|inputs| - 1]);
      match inputs[|inputs| - 1]
      case First(now) =>
        if before.handled < |updates|
        then Simple(Handle(before.store, updates[before.handled], now), before.handled + 1) else before
      case Other(op) => before.(store := Step(before.store, op))
  }

  /** The inputs that a move stands for: none for a redelivery. */
  function Meaning(b: State, move: Move): seq<Input> {
    match move
    case HandleNext(now) => if b.next == b.handled then [First(now)] else []
    case HandleAndRaise(now) => if b.next == b.handled then [First(now)] else []
    case Elsewhere(op) => [Other(op)]
    case _ => []
  }

  ghost function Inputs(b: State, updates: seq<Update>, moves: seq<Move>): seq<Input>
    requires IsRun(b, updates, moves)
    decreases |moves|
  {
    if moves == [] then []
    else
      var front := moves[..|moves| - 1];
      Inputs(b, updates, front) + Meaning(After(b, updates, front), moves[|moves| - 1])
  }

  /******* Refinement *******/

  ghost predicate Valid(b: State, updates: seq<Update>) {
    && b.confirmed <= b.handled <= |updates|
    && b.next <= b.handled
    && b.next <= b.end <= |updates|
    && (b.offset.Some? ==> b.offset.value <= b.handled)
    && forall i :: 0 <= i < b.handled ==> IsSpent(b.store, updates[i])
  }

  /** An update handled for the first time is one whose redelivery is harmless,
      and no handler fails before it commits. */
  predicate IsBenign(b: State, updates: seq<Update>, move: Move)
    requires Enabled(b, updates, move)
  {
    match move
    case HandleNext(now) => b.next == b.handled ==> IsSpent(Handle(b.store, updates[b.next], now), updates[b.next])
    case HandleAndRaise(now) => b.next == b.handled ==> IsSpent(Handle(b.store, updates[b.next], now), updates[b.next])
    case RaiseBeforeCommit => false
    case _ => true
  }

  ghost predicate AllBenign(b: State, updates: seq<Update>, moves: seq<Move>)
    requires IsRun(b, updates, moves)
    decreases |moves|
  {
    moves == [] ||
    (AllBenign(b, updates, moves[..|moves| - 1])
     && IsBenign(After(b, updates, moves[..|moves| - 1]), updates, moves[|moves| - 1]))
  }

  lemma {:induction false} HandlingKeepsValid(b: State, updates: seq<Update>, now: int)
    requires Valid(b, updates) && b.next < b.end
    requires b.next == b.handled ==> IsSpent(Handle(b.store, updates[b.next], now), updates[b.next])
    ensures Valid(HandledNext(b, updates, now), updates)
    ensures b.next < b.handled ==> HandledNext(b, updates, now).store == b.store
  {
    var u := updates[b.next];
    if b.next < b.handled {
      SpentHandlingChangesNothing(b.store, u, now);
    } else {
      forall i | 0 <= i < b.handled
        ensures IsSpent(Handle(b.store, u, now), updates[i])
      {
        if Operation(b.store, u, now).Some? {
          StepKeepsSpent(b.store, updates[i], Operation(b.store, u, now).value);
        }
      }
    }
  }

  lemma {:induction false} MoveKeepsValid(b: State, updates: seq<Update>, move: Move)
    requires Valid(b, updates) && Enabled(b, updates, move) && IsBenign(b, updates, move)
    ensures Valid(Next(b, updates, move), updates)
    ensures Simple(Next(b, updates, move).store, Next(b, updates, move).handled)
         == RunOnce(Simple(b.store, b.handled), updates, Meaning(b, move))
  {
    match move
    case HandleNext(now) =>
      HandlingKeepsValid(b, updates, now);
      OneInput(Simple(b.store, b.handled), updates, First(now));
    case HandleAndRaise(now) =>
      HandlingKeepsValid(b, updates, now);
      OneInput(Simple(b.store, b.handled), updates, First(now));
    case Elsewhere(op) =>
      forall i | 0 <= i < b.handled
        ensures IsSpent(Step(b.store, op), updates[i])
      {
        StepKeepsSpent(b.store, updates[i], op);
      }
      OneInput(Simple(b.store, b.handled), updates, Other(op));
    case _ =>
  }

  lemma OneInput(s: Simple, updates: seq<Update>, input: Input)
    ensures RunOnce(s, updates, [input]) ==
            match input {
              case First(now) => if s.handled < |updates|
                then Simple(Handle(s.store, updates[s.handled], now), s.handled + 1) else s
              case Other(op) => s.(store := Step(s.store, op))
            }
  {
    assert [input][..0] == [];
  }

  lemma {:induction false} RunOnceAppend(s: Simple, updates: seq<Update>, a: seq<Input>, b: seq<Input>)
    ensures RunOnce(s, updates, a + b) == RunOnce(RunOnce(s, updates, a), updates, b)
    decreases |b|
  {
    if b == [] {
      assert a + b == a;
    } else {
      assert (a + b)[..|a + b| - 1] == a + b[..|b| - 1];
      RunOnceAppend(s, updates, a, b[..|b| - 1]);
    }
  }

  /** A polling run with any number of crashes and failed replies, interleaved
      with operations from elsewhere, ends in the same task store as handling
      each of the handled updates once, in order, at its first handling. */
  lemma {:induction false} CrashesAreInvisible(b: State, updates: seq<Update>, moves: seq<Move>)
    requires Valid(b, updates) && IsRun(b, updates, moves) && AllBenign(b, updates, moves)
    ensures Valid(After(b, updates, moves), updates)
    ensures Simple(After(b, updates, moves).store, After(b, updates, moves).handled)
         == RunOnce(Simple(b.store, b.handled), updates, Inputs(b, updates, moves))
    decreases |moves|
  {
    if moves != [] {
      var front := moves[..|moves| - 1];
      var mid := After(b, updates, front);
      CrashesAreInvisible(b, updates, front);
      MoveKeepsValid(mid, updates, moves[|moves| - 1]);
      RunOnceAppend(Simple(b.store, b.handled), updates,
                    Inputs(b, updates, front), Meaning(mid, moves[|moves| - 1]));
    }
  }

  /** No handler fails before it commits, and an update is repeatable in the store
      in which it is handled for the first time. */
  predicate IsRepeatableMove(b: State, updates: seq<Update>, move: Move)
    requires Enabled(b, updates, move)
  {
    match move
    case HandleNext(_) => b.next == b.handled ==> IsRepeatable(b.store, updates[b.next])
    case HandleAndRaise(_) => b.next == b.handled ==> IsRepeatable(b.store, updates[b.next])
    case RaiseBeforeCommit => false
    case _ => true
  }

  ghost predicate AllRepeatable(b: State, updates: seq<Update>, moves: seq<Move>)
    requires IsRun(b, updates, moves)
    decreases |moves|
  {
    moves == [] ||
    (AllRepeatable(b, updates, moves[..|moves| - 1])
     && IsRepeatableMove(After(b, updates, moves[..|moves| - 1]), updates, moves[|moves| - 1]))
  }

  lemma {:induction false} RepeatableIsBenign(b: State, updates: seq<Update>, moves: seq<Move>)
    requires IsRun(b, updates, moves) && AllRepeatable(b, updates, moves)
    ensures AllBenign(b, updates, moves)
    decreases |moves|
  {
    if moves != [] {
      var front := moves[..|moves| - 1];
      var mid := After(b, updates, front);
      RepeatableIsBenign(b, updates, front);
      match moves[|moves| - 1]
      case HandleNext(now) => SpentOnceHandledExactly(mid.store, updates[mid.next], now);
      case HandleAndRaise(now) => SpentOnceHandledExactly(mid.store, updates[mid.next], now);
      case _ =>
    }
  }

  /** The store after handling the updates one by one at the given instants. */
  function HandleAll(s: Store, updates: seq<Update>, nows: seq<int>): Store
    requires |updates| == |nows|
  {
    if updates == [] then s
    else
      Handle(HandleAll(s, updates[..|updates| - 1], nows[..|nows| - 1]), updates[|updates| - 1], nows[|nows| - 1])
  }

  /** With nothing happening elsewhere, that is the plain fold over the updates. */
  lemma {:induction false} OnlyFirstHandlings(s: Store, updates: seq<Update>,
                                              inputs: seq<Input>) returns (nows: seq<int>)
    requires forall k :: 0 <= k < |inputs| ==> inputs[k].First?
    ensures var once := RunOnce(Simple(s, 0), updates, inputs);
            && once.handled <= |updates| && |nows| == once.handled
            && once.store == HandleAll(s, updates[..once.handled], nows)
    decreases |inputs|
  {
    if inputs == [] {
      nows := [];
    } else {
      nows := OnlyFirstHandlings(s, updates, inputs[..|inputs| - 1]);
      var before := RunOnce(Simple(s, 0), updates, inputs[..|inputs| - 1]);
      if before.handled < |updates| {
        var n := before.handled;
        assert updates[..n + 1][..n] == updates[..n];
        nows := nows + [inputs[|inputs| - 1].now];
        assert nows[..n] + [nows[n]] == nows;
        assert nows[..|nows| - 1] == nows[..n];
      }
    }
  }

  /** Nothing but the bot changes the tasks. */
  predicate IsAlone(moves: seq<Move>) {
    forall k :: 0 <= k < |moves| ==> !moves[k].Elsewhere?
  }

  lemma {:induction false} AloneInputsAreFirst(b: State, updates: seq<Update>, moves: seq<Move>)
    requires IsRun(b, updates, moves) && IsAlone(moves)
    ensures forall k :: 0 <= k < |Inputs(b, updates, moves)| ==> Inputs(b, updates, moves)[k].First?
    decreases |moves|
  {
    if moves != [] {
      assert !moves[|moves| - 1].Elsewhere?;
      AloneInputsAreFirst(b, updates, moves[..|moves| - 1]);
    }
  }

  /** Crashes do not matter.  From any store, over any run with crashes that lose
      the offset and with failed replies, in which each update is repeatable when it
      is first handled and nothing else changes the tasks, the store ends as if each
      of the handled updates had been handled once, in order. */
  lemma {:induction false} CrashesDoNotMatter(s: Store, updates: seq<Update>, moves: seq<Move>)
    returns (nows: seq<int>)
    requires IsRun(Start(s), updates, moves) && AllRepeatable(Start(s), updates, moves) && IsAlone(moves)
    ensures var b := After(Start(s), updates, moves);
            && b.handled <= |updates| && |nows| == b.handled
            && b.store == HandleAll(s, updates[..b.handled], nows)
  {
    RepeatableIsBenign(Start(s), updates, moves);
    CrashesAreInvisible(Start(s), updates, moves);
    AloneInputsAreFirst(Start(s), updates, moves);
    nows := OnlyFirstHandlings(s, updates, Inputs(Start(s), updates, moves));
  }

  /** One undisturbed pass from an idle bot handles everything that has arrived. */
  lemma {:induction false} CleanPassHandlesAll(b: State, updates: seq<Update>, nows: seq<int>)
    requires Valid(b, updates) && b.next == b.end
    requires |nows| == |updates| - FirstAnswered(b.confirmed, b.offset)
    ensures var b' := Pass(b, updates, nows);
            b'.handled == |updates| && b'.next == b'.end == |updates|
  {
    PassHandles(b, updates, nows);
  }

  function Pass(b: State, updates: seq<Update>, nows: seq<int>): State
    requires b.next == b.end && FirstAnswered(b.confirmed, b.offset) + |nows| <= |updates|
    ensures Pass(b, updates, nows).next == FirstAnswered(b.confirmed, b.offset) + |nows|
    ensures Pass(b, updates, nows).end == |updates|
  {
    if nows == [] then Next(b, updates, Fetch(|updates|))
    else Next(Pass(b, updates, nows[..|nows| - 1]), updates, HandleNext(nows[|nows| - 1]))
  }

  lemma {:induction false} PassHandles(b: State, updates: seq<Update>, nows: seq<int>)
    requires b.next == b.end && b.handled <= |updates| && FirstAnswered(b.confirmed, b.offset) <= b.handled
    requires FirstAnswered(b.confirmed, b.offset) + |nows| <= |updates|
    ensures Pass(b, updates, nows).handled == Max(b.handled, FirstAnswered(b.confirmed, b.offset) + |nows|)
    decreases |nows|
  {
    if nows != [] {
      PassHandles(b, updates, nows[..|nows| - 1]);
    }
  }

  /******* Where it fails *******/

  lemma {:induction false} RunSnoc(b: State, updates: seq<Update>, moves: seq<Move>, move: Move)
    requires IsRun(b, updates, moves) && Enabled(After(b, updates, moves), updates, move)
    ensures IsRun(b, updates, moves + [move])
    ensures After(b, updates, moves + [move]) == Next(After(b, updates, moves), updates, move)
  {
    assert (moves + [move])[..|moves + [move]| - 1] == moves;
  }

  const PressedEarly := [Press("c", PressDone, 0, 2), Press("d", PressWaiting, 0, 1)]

  const OneTask := Handle(Empty, NewMessage("1", "a"), 0)

  /** The two presses handled in order: the first is refused, the second accepted. */
  const PressedOnce := Handle(Handle(OneTask, PressedEarly[0], 0), PressedEarly[1], 0)

  lemma OneTaskIsNew()
    ensures |OneTask.tasks| == 1 && OneTask.tasks[0].version == 1 && OneTask.tasks[0].fields.status == New
    ensures |OneTask.events| == 1 && OneTask.events[0].key == Some(TelegramNew("1"))
  {}

  lemma FirstPressIsRefused()
    ensures Handle(OneTask, PressedEarly[0], 0) == OneTask
  {
    OneTaskIsNew();
  }

  lemma SecondPressIsAccepted()
    ensures |PressedOnce.tasks| == 1 && PressedOnce.tasks[0].version == 2
    ensures PressedOnce.tasks[0].fields.status == Waiting
    ensures |PressedOnce.events| == 2 && PressedOnce.events[0].key == Some(TelegramNew("1"))
    ensures PressedOnce.events[1].key == Some(TelegramCallback("d"))
  {
    OneTaskIsNew();
    FirstPressIsRefused();
    assert !KeyRecorded(OneTask.events, TelegramCallback("d"));
  }

  lemma EarlyPressIsRefusedThenAccepted()
    ensures |PressedOnce.tasks| == 1 && PressedOnce.tasks[0].fields.status == Waiting
    ensures |Handle(PressedOnce, PressedEarly[0], 0).tasks| == 1
    ensures Handle(PressedOnce, PressedEarly[0], 0).tasks[0].fields.status == Done
  {
    SecondPressIsAccepted();
    LatePressIsAccepted(PressedOnce);
  }

  lemma LatePressIsAccepted(s: Store)
    requires |s.tasks| == 1 && s.tasks[0].version == 2 && s.tasks[0].fields.status == Waiting
    requires forall k :: 0 <= k < |s.events| ==> s.events[k].key != Some(TelegramCallback("c"))
    ensures |Handle(s, PressedEarly[0], 0).tasks| == 1
    ensures Handle(s, PressedEarly[0], 0).tasks[0].fields.status == Done
  {
    assert !KeyRecorded(s.events, TelegramCallback("c"));
  }

  /** A press with a version newer than the task's is refused at first.  Handled
      once, the two presses leave the task WAITING; if a crash has them delivered
      again, the first one is now accepted and the task ends DONE. */
  lemma {:induction false} EarlyPressIsNotHarmless() returns (once: seq<Move>, crashing: seq<Move>)
    ensures IsRun(Start(OneTask), PressedEarly, once) && IsRun(Start(OneTask), PressedEarly, crashing)
    ensures |After(Start(OneTask), PressedEarly, once).store.tasks| == 1
    ensures |After(Start(OneTask), PressedEarly, crashing).store.tasks| == 1
    ensures After(Start(OneTask), PressedEarly, once).store.tasks[0].fields.status == Waiting
    ensures After(Start(OneTask), PressedEarly, crashing).store.tasks[0].fields.status == Done
  {
    once := TwoHandled(Start(OneTask));
    crashing := OneRedelivered(Start(OneTask), once);
    EarlyPressIsRefusedThenAccepted();
  }

  lemma {:induction false} TwoHandled(b: State) returns (moves: seq<Move>)
    requires b.next == b.end && b.confirmed == 0 && b.offset == None
    ensures IsRun(b, PressedEarly, moves)
    ensures After(b, PressedEarly, moves) == State(
              Handle(Handle(b.store, PressedEarly[0], 0), PressedEarly[1], 0),
              0, Some(2), 2, 2, Max(Max(b.handled, 1), 2))
  {
    moves := [];
    RunSnoc(b, PressedEarly, moves, Fetch(2));
    moves := moves + [Fetch(2)];
    RunSnoc(b, PressedEarly, moves, HandleNext(0));
    moves := moves + [HandleNext(0)];
    RunSnoc(b, PressedEarly, moves, HandleNext(0));
    moves := moves + [HandleNext(0)];
  }

  lemma {:induction false} OneRedelivered(b: State, handled: seq<Move>) returns (moves: seq<Move>)
    requires IsRun(b, PressedEarly, handled) && After(b, PressedEarly, handled).confirmed == 0
    ensures IsRun(b, PressedEarly, moves)
    ensures After(b, PressedEarly, moves).store == Handle(After(b, PressedEarly, handled).store, PressedEarly[0], 0)
  {
    moves := handled;
    RunSnoc(b, PressedEarly, moves, Crash);
    moves := moves + [Crash];
    RunSnoc(b, PressedEarly, moves, Fetch(2));
    moves := moves + [Fetch(2)];
    RunSnoc(b, PressedEarly, moves, HandleNext(0));
    moves := moves + [HandleNext(0)];
  }

  const Edited := [EditCommand(0, "b")]

  /** Someone else renames the task. */
  const Renamed := Elsewhere(OpUpdate(0, TitlePatch("c"), None, None, 0))

  /** The task after the edit, and after the renaming that follows. */
  const EditedOnce := Handle(OneTask, Edited[0], 0)
  const RenamedOnce := Step(EditedOnce, Renamed.op)

  lemma EditIsAccepted()
    ensures |EditedOnce.tasks| == 1 && EditedOnce.tasks[0].version == 2
    ensures |EditedOnce.events| == 2 && EditedOnce.events[0].key == Some(TelegramNew("1"))
    ensures EditedOnce.events[1].key == Some(TelegramEdit(0, 1))
  {
    OneTaskIsNew();
    assert !KeyRecorded(OneTask.events, TelegramEdit(0, 1));
  }

  lemma RenamingIsAccepted()
    ensures |RenamedOnce.tasks| == 1 && RenamedOnce.tasks[0].version == 3 && RenamedOnce.tasks[0].fields.title == "c"
    ensures !KeyRecorded(RenamedOnce.events, TelegramEdit(0, 3))
  {
    EditIsAccepted();
    var events := RenamedOnce.events;
    assert |events| == 3 && events[2].key == None;
    assert events[0] == EditedOnce.events[0] && events[1] == EditedOnce.events[1];
  }

  lemma EditedTitles()
    ensures |RenamedOnce.tasks| == 1 && RenamedOnce.tasks[0].fields.title == "c"
    ensures |Handle(RenamedOnce, Edited[0], 0).tasks| == 1
    ensures Handle(RenamedOnce, Edited[0], 0).tasks[0].fields.title == "b"
  {
    RenamingIsAccepted();
  }

  /** The key of an edit holds the version that its handler reads, so an edit that
      is delivered again takes effect again: it undoes the title that the task was
      given in the meantime. */
  lemma {:induction false} EditUndoesLaterTitle() returns (once: seq<Move>, crashing: seq<Move>)
    ensures IsRun(Start(OneTask), Edited, once) && IsRun(Start(OneTask), Edited, crashing)
    ensures |After(Start(OneTask), Edited, once).store.tasks| == 1
    ensures |After(Start(OneTask), Edited, crashing).store.tasks| == 1
    ensures After(Start(OneTask), Edited, once).store.tasks[0].fields.title == "c"
    ensures After(Start(OneTask), Edited, crashing).store.tasks[0].fields.title == "b"
  {
    var b := Start(OneTask);
    once := [];
    RunSnoc(b, Edited, once, Fetch(1));
    once := once + [Fetch(1)];
    RunSnoc(b, Edited, once, HandleNext(0));
    once := once + [HandleNext(0)];
    RunSnoc(b, Edited, once, Renamed);
    once := once + [Renamed];
    crashing := once;
    RunSnoc(b, Edited, crashing, Crash);
    crashing := crashing + [Crash];
    RunSnoc(b, Edited, crashing, Fetch(1));
    crashing := crashing + [Fetch(1)];
    RunSnoc(b, Edited, crashing, HandleNext(0));
    crashing := crashing + [HandleNext(0)];
    EditedTitles();
  }

  /******* Updates that are lost *******/

  /** Some continuation of the run comes to handle update `i`. */
  ghost predicate CanBeDelivered(b: State, updates: seq<Update>, i: nat) {
    exists moves: seq<Move> :: IsRun(b, updates, moves) && IsNext(After(b, updates, moves), updates, i)
  }

  predicate IsNext(b: State, updates: seq<Update>, i: nat) {
    b.next == i < b.end <= |updates|
  }

  /** The update is confirmed and not in the rest of the answer. */
  predicate IsBehind(b: State, i: nat) {
    i < b.confirmed && !(b.next <= i < b.end)
  }

  /** An update that is behind stays behind. */
  lemma {:induction false} BehindForever(b: State, updates: seq<Update>, moves: seq<Move>, i: nat)
    requires IsRun(b, updates, moves) && IsBehind(b, i)
    ensures IsBehind(After(b, updates, moves), i)
    decreases |moves|
  {
    if moves != [] {
      BehindForever(b, updates, moves[..|moves| - 1], i);
    }
  }

  lemma {:induction false} RunAppends(b: State, updates: seq<Update>, first: seq<Move>, more: seq<Move>)
    requires IsRun(b, updates, first) && IsRun(After(b, updates, first), updates, more)
    ensures IsRun(b, updates, first + more)
    ensures After(b, updates, first + more) == After(After(b, updates, first), updates, more)
    decreases |more|
  {
    if more == [] {
      assert first + more == first;
    } else {
      var n := |more| - 1;
      RunAppends(b, updates, first, more[..n]);
      RunSnoc(b, updates, first + more[..n], more[n]);
      assert first + more == first + more[..n] + [more[n]];
    }
  }

  /** Handling the rest of an answer up to update `i`. */
  lemma {:induction false} HandledUpTo(b: State, updates: seq<Update>, i: nat) returns (moves: seq<Move>)
    requires b.next <= i < b.end <= |updates|
    ensures IsRun(b, updates, moves) && IsNext(After(b, updates, moves), updates, i)
    ensures After(b, updates, moves).end == b.end
    decreases i
  {
    if i == b.next {
      moves := [];
    } else {
      var front := HandledUpTo(b, updates, i - 1);
      RunSnoc(b, updates, front, HandleNext(0));
      moves := front + [HandleNext(0)];
    }
  }

  lemma CrashAndFetch(b: State, updates: seq<Update>) returns (moves: seq<Move>)
    ensures IsRun(b, updates, moves)
    ensures After(b, updates, moves).next == b.confirmed
    ensures After(b, updates, moves).end == Max(b.confirmed, |updates|)
  {
    RunSnoc(b, updates, [], Crash);
    RunSnoc(b, updates, [Crash], Fetch(|updates|));
    assert [] + [Crash] == [Crash];
    moves := [Crash] + [Fetch(|updates|)];
  }

  /** An update can still be delivered if and only if it is not confirmed, as a
      crash then has it delivered again, or is in the rest of the answer. */
  lemma {:induction false} DeliverableExactly(b: State, updates: seq<Update>, i: nat)
    requires i < |updates| && (b.next < b.end ==> b.end <= |updates|)
    ensures CanBeDelivered(b, updates, i) <==> i >= b.confirmed || b.next <= i < b.end
  {
    if IsBehind(b, i) {
      forall moves: seq<Move> | IsRun(b, updates, moves)
        ensures !IsNext(After(b, updates, moves), updates, i)
      {
        BehindForever(b, updates, moves, i);
      }
    } else if b.next <= i < b.end {
      var moves := HandledUpTo(b, updates, i);
    } else {
      var restart := CrashAndFetch(b, updates);
      var more := HandledUpTo(After(b, updates, restart), updates, i);
      RunAppends(b, updates, restart, more);
    }
  }

  /** The rest of an answer was not confirmed when it was asked for. */
  predicate AnswersAhead(b: State, updates: seq<Update>) {
    b.next < b.end ==> b.confirmed <= b.next && b.end <= |updates|
  }

  lemma {:induction false} RunAnswersAhead(b: State, updates: seq<Update>, moves: seq<Move>)
    requires AnswersAhead(b, updates) && IsRun(b, updates, moves)
    ensures AnswersAhead(After(b, updates, moves), updates)
    decreases |moves|
  {
    if moves != [] {
      RunAnswersAhead(b, updates, moves[..|moves| - 1]);
    }
  }

  lemma {:induction false} ElsewhereKeepsOffsets(b: State, updates: seq<Update>, moves: seq<Move>)
    requires IsRun(b, updates, moves) && forall k :: 0 <= k < |moves| ==> moves[k].Elsewhere?
    ensures After(b, updates, moves) == b.(store := After(b, updates, moves).store)
    decreases |moves|
  {
    if moves != [] {
      assert moves[|moves| - 1].Elsewhere?;
      ElsewhereKeepsOffsets(b, updates, moves[..|moves| - 1]);
    }
  }

  /** The offset moves past an update before its handler runs.  When the handler of
      an update fails before it commits, it has changed nothing.  The update is lost
      for every continuation if and only if the next thing the bot does is to ask
      for more updates; if the process dies first, the update is delivered again. */
  lemma {:induction false} FailureLosesUpdateExactly(s: Store, updates: seq<Update>, before: seq<Move>,
                                                     pause: seq<Move>, move: Move)
    requires IsRun(Start(s), updates, before)
    requires Enabled(After(Start(s), updates, before), updates, RaiseBeforeCommit)
    requires var failed := Next(After(Start(s), updates, before), updates, RaiseBeforeCommit);
             && IsRun(failed, updates, pause) && (forall k :: 0 <= k < |pause| ==> pause[k].Elsewhere?)
             && Enabled(After(failed, updates, pause), updates, move) && !move.Elsewhere?
    ensures var b := After(Start(s), updates, before);
            var failed := Next(b, updates, RaiseBeforeCommit);
            && failed.store == b.store
            && (!CanBeDelivered(Next(After(failed, updates, pause), updates, move), updates, b.next) <==> move.Fetch?)
  {
    var b := After(Start(s), updates, before);
    var failed := Next(b, updates, RaiseBeforeCommit);
    RunAnswersAhead(Start(s), updates, before);
    ElsewhereKeepsOffsets(failed, updates, pause);
    DeliverableExactly(Next(After(failed, updates, pause), updates, move), updates, b.next);
  }

  const Posted := [NewMessage("1", "a")]

  lemma FailedAndPolled(b: State, updates: seq<Update>) returns (moves: seq<Move>)
    requires b.next == b.end && b.confirmed == 0 && b.offset == None && |updates| == 1
    ensures IsRun(b, updates, moves)
    ensures After(b, updates, moves) == State(b.store, 1, Some(1), 1, 1, b.handled)
  {
    moves := [];
    RunSnoc(b, updates, moves, Fetch(1));
    moves := moves + [Fetch(1)];
    RunSnoc(b, updates, moves, RaiseBeforeCommit);
    moves := moves + [RaiseBeforeCommit];
    RunSnoc(b, updates, moves, Fetch(1));
    moves := moves + [Fetch(1)];
  }

  /** One message whose handler fails before it commits; after the next poll it is lost. */
  lemma {:induction false} LostUpdate() returns (moves: seq<Move>)
    ensures IsRun(Start(Empty), Posted, moves)
    ensures After(Start(Empty), Posted, moves).store == Empty
    ensures !CanBeDelivered(After(Start(Empty), Posted, moves), Posted, 0)
  {
    moves := FailedAndPolled(Start(Empty), Posted);
    DeliverableExactly(After(Start(Empty), Posted, moves), Posted, 0);
  }
}
