/** The polling loop as the bot runs it, against a Telegram server that keeps
    unconfirmed updates. */
module TelegramBot {
  import opened Wrappers
  import opened LocalTime
  import opened Math
  import opened TaskStore
  import opened TelegramUpdates
  import opened Polling
  import Service = TaskService

  class TelegramServer {
    const updates: seq<Update>
    var confirmed: nat

    constructor (updates: seq<Update>)
      ensures this.updates == updates && confirmed == 0
    {
      this.updates, confirmed := updates, 0;
    }

    /** Confirms everything below the offset and answers with the next updates,
        as positions in the queue. */
    method GetUpdates(offset: Option<nat>, available: nat) returns (first: nat, last: nat)
      modifies this
      ensures confirmed == first == FirstAnswered(old(confirmed), offset)
      ensures last == LastAnswered(first, available, |updates|)
      ensures first <= last && (last <= |updates| || first == last)
    {
      if offset.Some? && confirmed < offset.value {
        confirmed := offset.value;
      }
      first := confirmed;
      last := Max(first, Min(available, |updates|));
    }
  }

  /** One answer to the bot: how many updates have arrived, the instants at which
      it handles those it gets to, and whether its last reply then fails. */
  datatype Round = Round(available: nat, nows: seq<int>, raised: bool)

  /** Handling one answer: until it is exhausted, the process dies or a reply fails. */
  function HandleAnswer(b: State, updates: seq<Update>, nows: seq<int>, raised: bool): (b': State)
    requires b.next <= b.end && (b.next < b.end ==> b.end <= |updates|)
    ensures b'.next <= b'.end && (b'.next < b'.end ==> b'.end <= |updates|)
    decreases |nows|
  {
    if nows == [] || b.next == b.end then b
    else if raised && |nows| == 1 then Next(b, updates, HandleAndRaise(nows[0]))
    else HandleAnswer(Next(b, updates, HandleNext(nows[0])), updates, nows[1..], raised)
  }

  /** One life of the process: it dies when it leaves part of an answer unhandled. */
  function Life(b: State, updates: seq<Update>, rounds: seq<Round>): State
    requires b.next == b.end
    decreases |rounds|
  {
    if rounds == [] then b
    else
      var b' := HandleAnswer(Next(b, updates, Fetch(rounds[0].available)), updates, rounds[0].nows, rounds[0].raised);
      if b'.next < b'.end then Next(b', updates, Crash) else Life(b', updates, rounds[1..])
  }

  lemma {:induction false} AnswerIsRun(start: State, updates: seq<Update>, moves: seq<Move>, nows: seq<int>,
                                       raised: bool)
    returns (more: seq<Move>)
    requires IsRun(start, updates, moves)
    requires var b := After(start, updates, moves); b.next <= b.end && (b.next < b.end ==> b.end <= |updates|)
    requires RaiseBeforeCommit !in moves
    ensures IsRun(start, updates, more) && RaiseBeforeCommit !in more
    ensures After(start, updates, more) == HandleAnswer(After(start, updates, moves), updates, nows, raised)
    decreases |nows|
  {
    var b := After(start, updates, moves);
    if nows == [] || b.next == b.end {
      more := moves;
    } else if raised && |nows| == 1 {
      RunSnoc(start, updates, moves, HandleAndRaise(nows[0]));
      more := moves + [HandleAndRaise(nows[0])];
    } else {
      RunSnoc(start, updates, moves, HandleNext(nows[0]));
      more := AnswerIsRun(start, updates, moves + [HandleNext(nows[0])], nows[1..], raised);
    }
  }

  /** A life of the polling loop is a run of the protocol, so what is proved of
      every run holds of the loop. */
  lemma {:induction false} LifeIsRun(start: State, updates: seq<Update>, moves: seq<Move>, rounds: seq<Round>)
    returns (more: seq<Move>)
    requires IsRun(start, updates, moves) && After(start, updates, moves).next == After(start, updates, moves).end
    requires RaiseBeforeCommit !in moves
    ensures IsRun(start, updates, more) && RaiseBeforeCommit !in more
    ensures After(start, updates, more) == Life(After(start, updates, moves), updates, rounds)
    decreases |rounds|
  {
    if rounds == [] {
      more := moves;
    } else {
      RunSnoc(start, updates, moves, Fetch(rounds[0].available));
      more := AnswerIsRun(start, updates, moves + [Fetch(rounds[0].available)], rounds[0].nows, rounds[0].raised);
      var b := After(start, updates, more);
      if b.next < b.end {
        RunSnoc(start, updates, more, Crash);
        more := more + [Crash];
      } else {
        more := LifeIsRun(start, updates, more, rounds[1..]);
      }
    }
  }

  class TelegramBot {
    const service: Service.TaskService
    const server: TelegramServer

    constructor (service: Service.TaskService, server: TelegramServer)
      ensures this.service == service && this.server == server
    {
      this.service, this.server := service, server;
    }

    method HandleUpdate(u: Update, now: int)
      modifies service
      ensures service.View() == Handle(old(service.View()), u, now)
    {
      match u
      case NewMessage(message, title) =>
        if IsTitle(title) {
          var _ := service.Create(NewTask(Defaults.(title := title), Some(TelegramNew(message)), None), 0, 0);
        }
      case Press(callback, action, task, version) =>
        var key := Some(TelegramCallback(callback));
        var reply: Result<nat, TaskError>;
        match action {
          case PressDone => reply := service.Complete(task, key, Some(version), now);
          case PressWaiting =>
            reply := service.Update(task, NoChange.(status := Set(Some(Waiting))), Some(version), key, now);
          case PressPostpone => reply := service.Postpone(task, now + DAY, Some(version), key, now);
          case PressCancel => reply := service.Cancel(task, Some(version), key);
        }
      case FollowUpPress(callback, task, version) =>
        if task < |service.tasks| && service.tasks[task].fields.taskType == Awaiting {
          var _ := service.Complete(task, Some(TelegramFollowUp(callback)), Some(version), now);
        }
      case EditCommand(task, title) =>
        if task < |service.tasks| && IsTitle(title) {
          var version := service.tasks[task].version;
          var key := Some(TelegramEdit(task, version));
          var _ := service.Update(task, NoChange.(title := Set(Some(title))), Some(version), key, now);
        }
      case NoTaskChange =>
    }

    /** The body of the loop for one answer; `b` is the protocol state before it. */
    method HandleUpdates(offset0: Option<nat>, first: nat, end: nat, nows: seq<int>, fails: bool, ghost b: State)
      returns (offset: Option<nat>, died: bool)
      requires b == State(service.View(), server.confirmed, offset0, first, end, b.handled)
      requires first <= end && (first < end ==> end <= |server.updates|)
      modifies service
      ensures var b' := HandleAnswer(b, server.updates, nows, fails);
              && b' == State(service.View(), server.confirmed, offset, b'.next, b'.end, b'.handled)
              && (died <==> b'.next < b'.end)
    {
      offset := offset0;
      ghost var c := b;
      var k, raised := 0, false;
      while k < |nows| && first + k < end && !raised
        invariant k <= |nows| && first + k <= end
        invariant c == State(service.View(), server.confirmed, offset,
                             first + k, if raised then first + k else end, c.handled)
        invariant HandleAnswer(b, server.updates, nows, fails)
               == if raised then c else HandleAnswer(c, server.updates, nows[k..], fails)
      {
        assert nows[k..][1..] == nows[k + 1..];
        raised := fails && k + 1 == |nows|;
        c := Next(c, server.updates, if raised then HandleAndRaise(nows[k]) else HandleNext(nows[k]));
        offset := Some(first + k + 1);
        HandleUpdate(server.updates[first + k], nows[k]);
        k := k + 1;
      }
      died := !raised && first + k < end;
    }

    /** The polling loop, from a start with no offset to the end of the process. */
    method RunPolling(rounds: seq<Round>, ghost handled: nat)
      modifies service, server
      ensures var start := State(old(service.View()), old(server.confirmed), None, 0, 0, handled);
              var b := Life(start, server.updates, rounds);
              service.View() == b.store && server.confirmed == b.confirmed
    {
      ghost var b := State(service.View(), server.confirmed, None, 0, 0, handled);
      ghost var last := Life(b, server.updates, rounds);
      var offset: Option<nat> := None;
      for n := 0 to |rounds|
        invariant b == State(service.View(), server.confirmed, offset, b.next, b.next, b.handled)
        invariant Life(b, server.updates, rounds[n..]) == last
      {
        var round := rounds[n];
        assert rounds[n..][1..] == rounds[n + 1..];
        b := Next(b, server.updates, Fetch(round.available));
        ghost var answered := HandleAnswer(b, server.updates, round.nows, round.raised);
        var first, end := server.GetUpdates(offset, round.available);
        var died;
        offset, died := HandleUpdates(offset, first, end, round.nows, round.raised, b);
        b := answered;
        if died {
          return;
        }
      }
    }
  }
}
