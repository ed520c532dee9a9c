/** The inbox as the program runs it: syncs and presses update the source and
    candidate tables in place. */
module GmailInbox {
  import opened Wrappers
  import opened TaskStore
  import opened InboxTable
  import Service = TaskService

  class GmailInbox {
    const service: Service.TaskService
    var sources: seq<Source>
    var candidates: seq<Candidate>
    var lastPolled: Option<int>
    ghost var announced: seq<nat>

    ghost function View(): World
      reads this, service
    {
      World(Inbox(sources, candidates), service.View(), announced, lastPolled)
    }

    constructor (service: Service.TaskService)
      ensures this.service == service && View() == World(EmptyInbox, service.View(), [], None)
    {
      this.service := service;
      sources, candidates, announced, lastPolled := [], [], [], None;
    }

    method ChangeCandidate(source: nat, change: Candidate -> Candidate)
      modifies this`candidates
      ensures candidates == OnCandidate(old(candidates), source, change)
    {
      var found := FindCandidate(candidates, source);
      if found.Some? {
        candidates := candidates[found.value := change(candidates[found.value]).(source := source)];
      }
    }

    /** The sync of one stored message; `result` are the counters so far. */
    method ProcessMessage(i: nat, mail: Mail, env: Surroundings, k: nat, result: Counts, ghost bounced: nat)
      returns (n: Counts, ghost bounces: nat, aborted: bool)
      requires i < |sources|
      modifies this`sources, this`candidates, this`announced
      ensures Process(Sync(old(View()).inbox, result, old(announced), bounced, Row(i), false), i, mail, env, k)
           == Sync(View().inbox, n, announced, bounces, Row(i), aborted)
    {
      n, bounces, aborted := result, bounced, false;
      if mail.blocked || mail.rule == Some(IgnoreRule) {
        sources := sources[i := sources[i].(status := Ignored)];
        n := n.(ignored := n.ignored + 1);
        return;
      }
      var needsExtraction := NeedsExtraction(mail.rule);
      if !env.hasModel && (mail.rule.None? || needsExtraction) {
        sources := sources[i := sources[i].(status := Failed)];
        n := n.(failed := n.failed + 1);
        return;
      }
      var parsed := if mail.rule.Some? && !needsExtraction then Parsed(mail.rule.value.classification, None)
                    else mail.parse;
      if parsed.Unparsable? {
        sources := sources[i := sources[i].(status := Failed)];
        n := n.(failed := n.failed + 1);
        return;
      }
      if parsed.candidate.None? || !IsTaskLike(parsed.classification) {
        sources := sources[i := sources[i].(status := Processed, classification := Some(parsed.classification))];
        n := n.(processed := n.processed + 1);
        n := n.(ignored := n.ignored + 1);
        return;
      }
      sources := sources[i := sources[i].(status := Processed, classification := Some(parsed.classification),
                                          candidate := parsed.candidate)];
      candidates := Upsert(candidates, i, parsed.classification, parsed.candidate.value);
      n := n.(candidates := n.candidates + 1);
      if env.hasNotifier {
        match env.announce(k) {
          case Announced =>
            announced := announced + [i];
            n := n.(notified := n.notified + 1);
            ChangeCandidate(i, (r: Candidate) => r.(status := Notified, notificationFailed := false));
          case Bounced =>
            ChangeCandidate(i, (r: Candidate) => r.(notificationFailed := true));
            sources := sources[i := sources[i].(status := Failed)];
            n := n.(failed := n.failed + 1);
            bounces := bounces + 1;
            return;
          case Broken =>
            ChangeCandidate(i, (r: Candidate) => r.(notificationFailed := true));
            aborted := true;
            return;
        }
      }
      n := n.(processed := n.processed + 1);
    }

    /** The sync of one listed message; `source` is the row that the loop holds. */
    method SyncOne(id: string, env: Surroundings, k: nat, result: Counts, source: Current, ghost bounced: nat)
      returns (n: Counts, source': Current, ghost bounces: nat, aborted: bool)
      modifies this`sources, this`candidates, this`announced
      ensures SyncMessage(Sync(old(View()).inbox, result, old(announced), bounced, source, false), id, env, k)
           == Sync(View().inbox, n, announced, bounces, source', aborted)
    {
      n, source', bounces, aborted := result, source, bounced, false;
      var existing := FindSource(sources, Gmail, id);
      if existing.Some? && IsSettled(sources[existing.value]) {
        n := n.(duplicates := n.duplicates + 1);
        return;
      }
      match env.fetch(k) {
        case None =>
          aborted := source.Unassigned?;
          if !aborted {
            if source.Row? && source.index < |sources| {
              sources := sources[source.index := sources[source.index].(status := Failed)];
            }
            n := n.(failed := n.failed + 1);
          }
        case Some(mail) =>
          if existing.Some? {
            source' := Row(existing.value);
            n, bounces, aborted := ProcessMessage(existing.value, mail, env, k, result, bounced);
          } else if FindSource(sources, Gmail, mail.messageId).Some? {
            source' := NoRow;
            n := n.(duplicates := n.duplicates + 1);
          } else {
            var i := |sources|;
            sources := sources + [NewGmailSource(mail.messageId)];
            source' := Row(i);
            n := n.(stored := n.stored + 1);
            n, bounces, aborted := ProcessMessage(i, mail, env, k, n, bounced);
          }
      }
    }

    /** A sync at `now` over the messages that Gmail lists for the poll query; a
        completed one moves the instant from which the next one asks for mail. */
    method SyncAccount(now: int, start: Option<int>, list: Option<int> -> seq<string>, env: Surroundings)
      returns (result: Counts, ghost bounced: nat, aborted: bool)
      modifies this
      ensures var ids := list(PollAfter(old(lastPolled), start));
              var s := SyncAll(Begin(old(View()).inbox, old(announced)), ids, env);
              && result == s.counts && bounced == s.bounced && aborted == s.aborted
              && View() == Next(old(View()), SyncStep(now, ids, env))
      ensures View().store == old(View()).store
    {
      var ids := list(PollAfter(lastPolled, start));
      ghost var begin := Begin(View().inbox, announced);
      var source := Unassigned;
      result, bounced, aborted := Zero, 0, false;
      for k := 0 to |ids|
        invariant !aborted && lastPolled == old(lastPolled)
        invariant SyncAll(begin, ids[..k], env) == Sync(View().inbox, result, announced, bounced, source, false)
      {
        assert ids[..k + 1][..k] == ids[..k];
        result, source, bounced, aborted := SyncOne(ids[k], env, k, result, source, bounced);
        if aborted {
          AbortEnds(begin, ids, env, k + 1);
          return;
        }
      }
      assert ids[..|ids|] == ids;
      lastPolled := Some(now);
    }

    static lemma {:induction false} AbortEnds(s: Sync, ids: seq<string>, env: Surroundings, n: nat)
      requires n <= |ids| && SyncAll(s, ids[..n], env).aborted
      ensures SyncAll(s, ids, env) == SyncAll(s, ids[..n], env)
      decreases |ids|
    {
      if n == |ids| {
        assert ids[..n] == ids;
      } else {
        assert ids[..|ids| - 1][..n] == ids[..n];
        AbortEnds(s, ids[..|ids| - 1], env, n);
      }
    }

    method PressIgnore(i: nat)
      modifies this
      ensures View() == IgnorePress(old(View()), i)
    {
      if i < |sources| {
        sources := sources[i := sources[i].(status := Ignored)];
        ChangeCandidate(i, (r: Candidate) => r.(status := Rejected));
      }
    }

    method PressEdit(i: nat)
      modifies this
      ensures View() == EditPress(old(View()), i)
    {
      if i < |sources| {
        sources := sources[i := sources[i].(awaitingEdit := true)];
      }
    }

    /** Creates the task of a candidate, or finds the one already created. */
    method PressCreate(i: nat) returns (task: Option<nat>)
      modifies this, service
      ensures View() == CreatePress(old(View()), i)
      ensures task.Some? ==> task.value < |service.tasks| && service.tasks[task.value].key == CandidateCreate(i)
    {
      if i >= |sources| || sources[i].candidate.None? {
        return None;
      }
      var reply := service.Create(CandidateTask(i, sources[i].candidate.value), 0, |sources|);
      if reply.Err? {
        return None;
      }
      var id := reply.value;
      sources := sources[i := sources[i].(confirmed := true)];
      ChangeCandidate(i, (r: Candidate) => r.(status := Confirmed, task := Some(id)));
      return Some(id);
    }
  }
}
