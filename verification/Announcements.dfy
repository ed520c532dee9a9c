/** Which messages the owner is told of: what later polls of the mailbox can still
    announce, and when an announcement is made only once. */
module Announcements {
  import opened Wrappers
  import opened TaskStore
  import opened InboxTable
  import opened InboxHistory
  import opened SyncOutcomes

  /******* Announced by a sync *******/

  /** Entry `j` of the list of announcements is about the message. */
  predicate IsAbout(announced: seq<nat>, sources: seq<Source>, j: nat, id: string) {
    j < |announced| && announced[j] < |sources| && Matches(sources[announced[j]], Gmail, id)
  }

  /** The message has been announced since the list had `from` entries. */
  ghost predicate IsTold(announced: seq<nat>, sources: seq<Source>, from: nat, id: string) {
    exists j :: from <= j < |announced| && IsAbout(announced, sources, j, id)
  }

  lemma AboutStays(announced: seq<nat>, announced': seq<nat>, a: seq<Source>, b: seq<Source>, j: nat, id: string)
    requires announced <= announced' && Extends(a, b) && j < |announced| && announced[j] < |a|
    ensures IsAbout(announced', b, j, id) <==> IsAbout(announced, a, j, id)
  {}

  /** A message is announced only if it is asked for and its announcement is taken. */
  lemma MessageTells(s: Sync, id: string, env: Surroundings, k: nat)
    requires SoundSync(s) && !s.aborted && IsFaithfulAt(id, env, k)
    ensures var s' := SyncMessage(s, id, env, k);
            if !IsKnown(s.inbox.sources, id) && IsAnnouncedAs(env, k, Announced) then
              && |s'.announced| == |s.announced| + 1 && s'.announced[..|s.announced|] == s.announced
              && IsAbout(s'.announced, s'.inbox.sources, |s.announced|, id)
            else s'.announced == s.announced
    ensures Extends(s.inbox.sources, SyncMessage(s, id, env, k).inbox.sources)
  {
    if IsKnown(s.inbox.sources, id) {
      KnownIsDuplicate(s, id, env, k);
    } else if env.fetch(k).None? {
      UnreadMessage(s, id, env, k);
    } else {
      GotMessage(s, id, env, k);
      StoredOutcome(s, id, id);
      ProcessOutcome(Stored(s, id), Stored(s, id).current.index, env, k);
    }
  }

  /** Every announcement of a sync is about a listed message that was not settled when
      the sync began. */
  lemma {:induction false} SyncTells(x: Inbox, announced: seq<nat>, ids: seq<string>, env: Surroundings, id: string)
    requires SoundInbox(x) && AreRows(announced, x) && IsFaithful(ids, env)
    ensures var s := SyncAll(Begin(x, announced), ids, env);
            && announced <= s.announced && AreRows(s.announced, s.inbox) && Extends(x.sources, s.inbox.sources)
            && (IsTold(s.announced, s.inbox.sources, |announced|, id) ==> id in ids && !IsKnown(x.sources, id))
    decreases |ids|
  {
    var start := Begin(x, announced);
    if ids != [] {
      var front, last := ids[..|ids| - 1], ids[|ids| - 1];
      assert ids == front + [last];
      SyncSnoc(start, front, last, env);
      SyncTells(x, announced, front, env, id);
      BeginKeeps(x, announced);
      SyncSound(x.sources, start, front, env);
      var before := SyncAll(start, front, env);
      if !before.aborted {
        MessageSound(x.sources, before, last, env, |front|);
        MessageTells(before, last, env, |front|);
        LastTells(x, announced, before, SyncMessage(before, last, env, |front|), front, last, id);
      }
    }
  }

  lemma LastTells(x: Inbox, announced: seq<nat>, before: Sync, s: Sync, front: seq<string>, last: string, id: string)
    requires SoundSync(before) && Keeps(x.sources, before) && Extends(before.inbox.sources, s.inbox.sources)
    requires announced <= before.announced <= s.announced && |s.announced| <= |before.announced| + 1
    requires |s.announced| > |before.announced| ==>
               && IsAbout(s.announced, s.inbox.sources, |before.announced|, last)
               && !IsKnown(before.inbox.sources, last)
    requires IsTold(before.announced, before.inbox.sources, |announced|, id) ==> id in front && !IsKnown(x.sources, id)
    ensures IsTold(s.announced, s.inbox.sources, |announced|, id) ==> id in front + [last] && !IsKnown(x.sources, id)
  {
    if IsTold(s.announced, s.inbox.sources, |announced|, id) {
      var j :| |announced| <= j < |s.announced| && IsAbout(s.announced, s.inbox.sources, j, id);
      if j < |before.announced| {
        AboutStays(before.announced, s.announced, before.inbox.sources, s.inbox.sources, j, id);
      } else {
        assert id == last;
        if IsKnown(x.sources, id) {
          KnownStays(x.sources, before.inbox.sources, id);
        }
      }
    }
  }

  /******* Polling the mailbox *******/

  /** When Gmail received each message, and from when on the program reads mail. */
  datatype Mailbox = Mailbox(received: string -> int, start: Option<int>)

  /** The poll query admits the message: Gmail received it in the second from which
      mail is asked for, or later. */
  predicate IsListable(lastPolled: Option<int>, box: Mailbox, id: string) {
    var after := PollAfter(lastPolled, box.start);
    after.None? || box.received(id) >= after.value * SECOND
  }

  /** A sync as the program makes it: the clock has not gone back, each listed message
      is admitted by the poll query, and Gmail answers with what was asked for. */
  ghost predicate Admits(w: World, step: InboxStep, box: Mailbox) {
    step.SyncStep? ==>
      && (w.lastPolled.Some? ==> w.lastPolled.value <= step.now)
      && (forall k :: 0 <= k < |step.ids| ==> IsListable(w.lastPolled, box, step.ids[k]))
      && IsFaithful(step.ids, step.env)
  }

  ghost predicate IsPolledRun(w: World, steps: seq<InboxStep>, box: Mailbox)
    decreases |steps|
  {
    steps == [] ||
    (IsPolledRun(w, steps[..|steps| - 1], box)
     && Enabled(After(w, steps[..|steps| - 1]), steps[|steps| - 1])
     && Admits(After(w, steps[..|steps| - 1]), steps[|steps| - 1], box))
  }

  lemma {:induction false} PolledRunIsRun(w: World, steps: seq<InboxStep>, box: Mailbox)
    requires IsPolledRun(w, steps, box)
    ensures IsRun(w, steps)
    decreases |steps|
  {
    if steps != [] {
      PolledRunIsRun(w, steps[..|steps| - 1], box);
    }
  }

  /** Some continuation of polling announces the message anew. */
  ghost predicate CanBeAnnounced(w: World, id: string, box: Mailbox) {
    exists steps: seq<InboxStep> ::
      IsPolledRun(w, steps, box)
      && IsTold(After(w, steps).announced, After(w, steps).inbox.sources, |w.announced|, id)
  }

  lemma TimestampGrows(t: int, t': int)
    requires t <= t'
    ensures Timestamp(t) <= Timestamp(t')
  {}

  /** What a later poll lists, an earlier one would have. */
  lemma ListableShrinks(last: Option<int>, now: int, box: Mailbox, id: string)
    requires last.Some? ==> last.value <= now
    requires IsListable(Some(now), box, id)
    ensures IsListable(last, box, id)
  {
    var from := if box.start.Some? && (last.None? || last.value < box.start.value) then box.start else last;
    if from.Some? {
      var from' := if box.start.Some? && now < box.start.value then box.start.value else now;
      TimestampGrows(from.value, from');
    }
  }

  /** The message is settled or no longer listed. */
  ghost predicate IsGone(w: World, id: string, box: Mailbox) {
    IsKnown(w.inbox.sources, id) || !IsListable(w.lastPolled, box, id)
  }

  lemma StepTellsNothing(w: World, step: InboxStep, id: string, box: Mailbox)
    requires Sound(w) && Enabled(w, step) && Admits(w, step, box) && IsGone(w, id, box)
    ensures var w' := Next(w, step);
            && IsGone(w', id, box) && w.announced <= w'.announced
            && !IsTold(w'.announced, w'.inbox.sources, |w.announced|, id)
  {
    StepKeepsSound(w, step);
    var w' := Next(w, step);
    if IsKnown(w.inbox.sources, id) {
      KnownStays(w.inbox.sources, w'.inbox.sources, id);
    }
    match step
    case SyncStep(now, ids, env) =>
      SyncTells(w.inbox, w.announced, ids, env, id);
      if id in ids {
        var k :| 0 <= k < |ids| && ids[k] == id;
        assert IsListable(w.lastPolled, box, ids[k]);
      }
      if IsListable(Some(now), box, id) {
        ListableShrinks(w.lastPolled, now, box, id);
      }
    case _ =>
  }

  lemma {:induction false} GoneIsNeverAnnounced(w: World, steps: seq<InboxStep>, id: string, box: Mailbox)
    requires Sound(w) && IsPolledRun(w, steps, box) && IsGone(w, id, box)
    ensures var w' := After(w, steps);
            && IsGone(w', id, box) && w.announced <= w'.announced
            && !IsTold(w'.announced, w'.inbox.sources, |w.announced|, id)
    decreases |steps|
  {
    if steps != [] {
      var front, step := steps[..|steps| - 1], steps[|steps| - 1];
      var mid, w' := After(w, front), After(w, steps);
      GoneIsNeverAnnounced(w, front, id, box);
      PolledRunIsRun(w, front, box);
      RunKeepsSound(w, front);
      StepTellsNothing(mid, step, id, box);
      StepKeepsSound(mid, step);
      if IsTold(w'.announced, w'.inbox.sources, |w.announced|, id) {
        var j :| |w.announced| <= j < |w'.announced| && IsAbout(w'.announced, w'.inbox.sources, j, id);
        assert j < |mid.announced|;
        AboutStays(mid.announced, w'.announced, mid.inbox.sources, w'.inbox.sources, j, id);
        assert false;
      }
    }
  }

  /** The next sync, if it lists just this message and all goes well. */
  function FairSync(w: World, id: string): InboxStep {
    SyncStep(if w.lastPolled.Some? then w.lastPolled.value else 0, [id], Requests(id, Announced))
  }

  lemma FairSyncTells(w: World, id: string, box: Mailbox)
    requires Sound(w) && !IsGone(w, id, box)
    ensures IsPolledRun(w, [FairSync(w, id)], box)
    ensures var w' := After(w, [FairSync(w, id)]);
            IsTold(w'.announced, w'.inbox.sources, |w.announced|, id)
  {
    var step := FairSync(w, id);
    assert [step][..0] == [];
    assert IsPolledRun(w, [], box);
    assert After(w, [step]) == Next(w, step);
    OneMessage(w.inbox, w.announced, id, step.env);
    MessageTells(Begin(w.inbox, w.announced), id, step.env, 0);
    assert IsAbout(Next(w, step).announced, Next(w, step).inbox.sources, |w.announced|, id);
  }

  /** A mail message can still be announced if and only if it is not settled and the
      poll query still lists it. */
  lemma CanBeAnnouncedExactly(w: World, id: string, box: Mailbox)
    requires Sound(w)
    ensures CanBeAnnounced(w, id, box) <==> !IsKnown(w.inbox.sources, id) && IsListable(w.lastPolled, box, id)
  {
    if IsGone(w, id, box) {
      forall steps: seq<InboxStep> | IsPolledRun(w, steps, box)
        ensures !IsTold(After(w, steps).announced, After(w, steps).inbox.sources, |w.announced|, id)
      {
        GoneIsNeverAnnounced(w, steps, id, box);
      }
    } else {
      FairSyncTells(w, id, box);
    }
  }

  /** The message stays listed after a sync at `now`: the sync is cut short, or Gmail
      received the message in the second in which the sync began, or later. */
  ghost predicate StaysListed(w: World, now: int, ids: seq<string>, env: Surroundings, box: Mailbox, id: string) {
    IsCutShort(KnownIds(w.inbox.sources), ids, env) || IsListable(Some(now), box, id)
  }

  /** After a sync that comes to a message, for the last time, later polls can announce
      it if and only if this sync leaves it unsettled (it cannot be got, no model reads
      it, its announcement bounces, or the next message cannot be got) and it stays
      listed. */
  lemma {:induction false} MessageLostExactly(w: World, now: int, ids: seq<string>, env: Surroundings, box: Mailbox,
                                              k: nat)
    requires Sound(w) && Admits(w, SyncStep(now, ids, env), box)
    requires k < |ids| && ComesLast(KnownIds(w.inbox.sources), ids, env, k)
    ensures CanBeAnnounced(Next(w, SyncStep(now, ids, env)), ids[k], box) <==>
            && !(Settles(env, k) && !NextIsUnread(KnownIds(w.inbox.sources), ids, env, k))
            && StaysListed(w, now, ids, env, box, ids[k])
  {
    var known := KnownIds(w.inbox.sources);
    StepKeepsSound(w, SyncStep(now, ids, env));
    CanBeAnnouncedExactly(Next(w, SyncStep(now, ids, env)), ids[k], box);
    SyncIsOutlined(w.inbox, w.announced, ids, env);
    OutlineCutShort(known, ids, env);
    MessageFateExactly(known, ids, env, k);
    assert IsListable(w.lastPolled, box, ids[k]);
  }

  /** With a notifier, a message with a candidate that a sync comes to, for the last
      time, is announced by it, or can be by a later one, if and only if its
      announcement is taken, or bounces and the message stays listed. */
  lemma {:induction false} AnnouncementLostExactly(w: World, now: int, ids: seq<string>, env: Surroundings,
                                                   box: Mailbox, k: nat)
    requires Sound(w) && Admits(w, SyncStep(now, ids, env), box)
    requires k < |ids| && ComesLast(KnownIds(w.inbox.sources), ids, env, k)
    requires HasCandidate(env, k) && env.hasNotifier
    ensures var w' := Next(w, SyncStep(now, ids, env));
            if env.announce(k).Announced? then
              IsTold(w'.announced, w'.inbox.sources, |w.announced|, ids[k])
            else
              CanBeAnnounced(w', ids[k], box) <==>
              env.announce(k).Bounced? && StaysListed(w, now, ids, env, box, ids[k])
  {
    if env.announce(k).Announced? {
      AnnouncedSyncTells(w, now, ids, env, k);
    } else {
      MessageLostExactly(w, now, ids, env, box, k);
      if env.announce(k).Broken? {
        NothingAfterBroken(KnownIds(w.inbox.sources), ids, env, k);
      }
    }
  }

  lemma AnnouncedSyncTells(w: World, now: int, ids: seq<string>, env: Surroundings, k: nat)
    requires Sound(w) && IsFaithful(ids, env) && k < |ids|
    requires ComesTo(KnownIds(w.inbox.sources), ids, env, k) && IsAnnouncedAs(env, k, Announced)
    ensures var w' := Next(w, SyncStep(now, ids, env));
            IsTold(w'.announced, w'.inbox.sources, |w.announced|, ids[k])
  {
    assert ids == ids[..k] + [ids[k]] + ids[k + 1..];
    AnnouncedIsTold(w.inbox, w.announced, ids[..k], ids[k], ids[k + 1..], env);
  }

  lemma {:induction false} NothingAfterBroken(known: set<string>, ids: seq<string>, env: Surroundings, k: nat)
    requires k < |ids| && ComesTo(known, ids, env, k) && IsAnnouncedAs(env, k, Broken)
    ensures !NextIsUnread(known, ids, env, k)
  {
    forall j | k < j < |ids|
      ensures !ComesTo(known, ids, env, j)
    {
      AbortedStays(known, ids, env, k, j);
    }
  }

  lemma {:induction false} AbortedStays(known: set<string>, ids: seq<string>, env: Surroundings, k: nat, n: nat)
    requires k < n <= |ids| && ComesTo(known, ids, env, k) && IsAnnouncedAs(env, k, Broken)
    ensures OutlineOf(known, ids[..n], env).aborted
    decreases n
  {
    OneMore(known, ids, env, n - 1);
    if n > k + 1 {
      AbortedStays(known, ids, env, k, n - 1);
    }
  }

  lemma ToldStays(announced: seq<nat>, announced': seq<nat>, a: seq<Source>, b: seq<Source>, from: nat, id: string)
    requires announced <= announced' && Extends(a, b) && IsTold(announced, a, from, id)
    ensures IsTold(announced', b, from, id)
  {
    var j :| from <= j < |announced| && IsAbout(announced, a, j, id);
    AboutStays(announced, announced', a, b, j, id);
  }

  /** Who is told of after one more message: all that were, and it, if its announcement
      is taken. */
  lemma NextTold(x: Inbox, announced: seq<nat>, front: seq<string>, last: string, env: Surroundings, id: string)
    requires SoundInbox(x) && AreRows(announced, x) && IsFaithful(front + [last], env)
    requires var before := SyncAll(Begin(x, announced), front, env);
             || IsTold(before.announced, before.inbox.sources, |announced|, id)
             || (id == last && AsksFor(OutlineOf(KnownIds(x.sources), front, env), last)
                 && IsAnnouncedAs(env, |front|, Announced))
    ensures var s := SyncAll(Begin(x, announced), front + [last], env);
            IsTold(s.announced, s.inbox.sources, |announced|, id)
  {
    var start := Begin(x, announced);
    SyncSnoc(start, front, last, env);
    var before, s := SyncAll(start, front, env), SyncAll(start, front + [last], env);
    BeginKeeps(x, announced);
    SyncSound(x.sources, start, front, env);
    SyncTells(x, announced, front, env, id);
    SyncIsOutlined(x, announced, front, env);
    if !before.aborted {
      MessageTells(before, last, env, |front|);
      if IsTold(before.announced, before.inbox.sources, |announced|, id) {
        ToldStays(before.announced, s.announced, before.inbox.sources, s.inbox.sources, |announced|, id);
      } else {
        assert IsAbout(s.announced, s.inbox.sources, |before.announced|, id);
      }
    }
  }

  lemma {:induction false} AnnouncedIsTold(x: Inbox, announced: seq<nat>, front: seq<string>, id: string,
                                           rest: seq<string>, env: Surroundings)
    requires SoundInbox(x) && AreRows(announced, x) && IsFaithful(front + [id] + rest, env)
    requires AsksFor(OutlineOf(KnownIds(x.sources), front, env), id) && IsAnnouncedAs(env, |front|, Announced)
    ensures var s := SyncAll(Begin(x, announced), front + [id] + rest, env);
            IsTold(s.announced, s.inbox.sources, |announced|, id)
    decreases |rest|
  {
    if rest == [] {
      assert front + [id] + rest == front + [id];
      NextTold(x, announced, front, id, env, id);
    } else {
      var more, last := rest[..|rest| - 1], rest[|rest| - 1];
      assert front + [id] + rest == front + [id] + more + [last];
      SyncSnoc(Begin(x, announced), front + [id] + more, last, env);
      AnnouncedIsTold(x, announced, front, id, more, env);
      NextTold(x, announced, front + [id] + more, last, env, id);
    }
  }

  /******* Settled messages *******/

  /** The announcements grow by none about row `i`. */
  ghost predicate GrowsWithout(announced: seq<nat>, announced': seq<nat>, i: nat) {
    && announced <= announced'
    && forall j :: |announced| <= j < |announced'| ==> announced'[j] != i
  }

  /** What a message adds to the announcements is not about a row that was settled
      when the sync began. */
  lemma MessageTellsUnsettled(start: seq<Source>, s: Sync, id: string, env: Surroundings, k: nat, i: nat)
    requires SoundSync(s) && Keeps(start, s) && i < |start| && IsSettled(start[i])
    ensures GrowsWithout(s.announced, SyncMessage(s, id, env, k).announced, i)
  {
    assert IsSettled(s.inbox.sources[i]);
    var existing := FindSource(s.inbox.sources, Gmail, id);
    if env.fetch(k).Some? {
      var mail := env.fetch(k).value;
      if existing.Some? {
        if !IsSettled(s.inbox.sources[existing.value]) {
          ProcessTells(s.(current := Row(existing.value)), existing.value, mail, env, k);
        }
      } else {
        var i' := |s.inbox.sources|;
        ProcessTells(StoreMessage(s, mail.messageId).(current := Row(i')), i', mail, env, k);
      }
    }
  }

  lemma ProcessTells(s: Sync, i: nat, mail: Mail, env: Surroundings, k: nat)
    requires i < |s.inbox.sources|
    ensures var announced := Process(s, i, mail, env, k).announced;
            announced == s.announced || announced == s.announced + [i]
  {}

  lemma {:induction false} SyncTellsUnsettled(x: Inbox, announced: seq<nat>, ids: seq<string>, env: Surroundings,
                                              i: nat)
    requires SoundInbox(x) && AreRows(announced, x) && i < |x.sources| && IsSettled(x.sources[i])
    ensures GrowsWithout(announced, SyncAll(Begin(x, announced), ids, env).announced, i)
    decreases |ids|
  {
    if ids != [] {
      var front := ids[..|ids| - 1];
      var before := SyncAll(Begin(x, announced), front, env);
      SyncTellsUnsettled(x, announced, front, env, i);
      BeginKeeps(x, announced);
      SyncSound(x.sources, Begin(x, announced), front, env);
      if !before.aborted {
        MessageTellsUnsettled(x.sources, before, ids[|ids| - 1], env, |ids| - 1, i);
      }
    }
  }

  /** A settled source is never announced again, whatever later syncs list. */
  lemma {:induction false} SettledIsNotAnnounced(w: World, steps: seq<InboxStep>, i: nat)
    requires Sound(w) && IsRun(w, steps)
    requires i < |w.inbox.sources| && IsSettled(w.inbox.sources[i])
    ensures GrowsWithout(w.announced, After(w, steps).announced, i)
    decreases |steps|
  {
    if steps != [] {
      var front := steps[..|steps| - 1];
      var mid := After(w, front);
      SettledIsNotAnnounced(w, front, i);
      RunKeepsSound(w, front);
      match steps[|steps| - 1]
      case SyncStep(_, ids, env) => SyncTellsUnsettled(mid.inbox, mid.announced, ids, env, i);
      case _ =>
    }
  }

  /******* Announced once *******/

  /** Announced sources are settled, and announced once. */
  ghost predicate AnnouncedOnce(announced: seq<nat>, sources: seq<Source>) {
    && (forall j, k :: 0 <= j < k < |announced| ==> announced[j] != announced[k])
    && (forall k :: 0 <= k < |announced| ==> announced[k] < |sources| && IsSettled(sources[announced[k]]))
  }

  /** The message cannot be got, and the one got before it was announced: the handler
      takes the announced one for failed. */
  predicate Retracts(o: Outline, id: string, env: Surroundings, k: nat) {
    AsksFor(o, id) && env.fetch(k).None? && o.last.Some? && o.last.value.told
  }

  /** The outline tells whether the row that the sync holds has been announced. */
  ghost predicate KnowsTold(o: Outline, s: Sync) {
    o.last.Some? && s.current.Row? ==> (o.last.value.told <==> s.current.index in s.announced)
  }

  lemma UnreadOnce(o: Outline, s: Sync)
    requires SoundSync(s) && Outlines(o, s) && !s.aborted && KnowsTold(o, s)
    requires AnnouncedOnce(s.announced, s.inbox.sources)
    ensures var s' := CountUnread(s);
            && (AnnouncedOnce(s'.announced, s'.inbox.sources) <==> !(o.last.Some? && o.last.value.told))
            && s'.announced == s.announced && s'.current == s.current
  {
    if o.last.Some? && o.last.value.told {
      var k :| 0 <= k < |s.announced| && s.announced[k] == s.current.index;
      assert !IsSettled(CountUnread(s).inbox.sources[s.announced[k]]);
    }
  }

  /** Row `i`, which was not announced before, is changed and perhaps announced. */
  lemma OneMoreAnnounced(announced: seq<nat>, a: seq<Source>, b: seq<Source>, i: nat, told: bool)
    requires AnnouncedOnce(announced, a) && i < |a| == |b| && i !in announced
    requires forall j :: 0 <= j < |a| && j != i ==> b[j] == a[j]
    requires told ==> IsSettled(b[i])
    ensures AnnouncedOnce(if told then announced + [i] else announced, b)
  {}

  lemma GotOnce(o: Outline, s: Sync, id: string, env: Surroundings, k: nat)
    requires SoundSync(s) && Outlines(o, s) && AsksFor(o, id) && env.fetch(k).Some? && IsFaithfulAt(id, env, k)
    requires AnnouncedOnce(s.announced, s.inbox.sources)
    ensures var s' := SyncMessage(s, id, env, k);
            AnnouncedOnce(s'.announced, s'.inbox.sources) && KnowsTold(Follow(o, id, env, k), s')
  {
    GotMessage(s, id, env, k);
    StoredOutcome(s, id, id);
    var s1, s' := Stored(s, id), SyncMessage(s, id, env, k);
    var i := s1.current.index;
    ProcessOutcome(s1, i, env, k);
    StoredIsFresh(s, id);
    OneMoreAnnounced(s.announced, s1.inbox.sources, s'.inbox.sources, i, IsAnnouncedAs(env, k, Announced));
  }

  /** The row of a message that is asked for has not been announced, if announced rows
      are settled. */
  lemma StoredIsFresh(s: Sync, id: string)
    requires SoundSync(s) && !IsKnown(s.inbox.sources, id) && AnnouncedOnce(s.announced, s.inbox.sources)
    ensures Stored(s, id).current.index !in s.announced
    ensures AnnouncedOnce(s.announced, Stored(s, id).inbox.sources)
  {
    KnownIsFound(s.inbox.sources, id);
  }

  lemma MessageOnce(o: Outline, s: Sync, id: string, env: Surroundings, k: nat)
    requires SoundSync(s) && Outlines(o, s) && !s.aborted && KnowsTold(o, s) && IsFaithfulAt(id, env, k)
    requires AnnouncedOnce(s.announced, s.inbox.sources)
    ensures var s' := SyncMessage(s, id, env, k);
            && (AnnouncedOnce(s'.announced, s'.inbox.sources) <==> !Retracts(o, id, env, k))
            && KnowsTold(Follow(o, id, env, k), s')
  {
    if id in o.known {
      KnownIsDuplicate(s, id, env, k);
    } else if env.fetch(k).None? {
      UnreadMessage(s, id, env, k);
      UnreadOnce(o, s);
    } else {
      GotOnce(o, s, id, env, k);
    }
  }

  /** After every message of the sync, announced sources are settled and announced once. */
  ghost predicate OnceThroughout(x: Inbox, announced: seq<nat>, ids: seq<string>, env: Surroundings)
    decreases |ids|
  {
    && (ids != [] ==> OnceThroughout(x, announced, ids[..|ids| - 1], env))
    && var s := SyncAll(Begin(x, announced), ids, env);
       AnnouncedOnce(s.announced, s.inbox.sources)
  }

  /** The sync never fails to get the message after one that it announced. */
  predicate NeverRetracts(known: set<string>, ids: seq<string>, env: Surroundings) {
    ids == [] ||
    (NeverRetracts(known, ids[..|ids| - 1], env)
     && !Retracts(OutlineOf(known, ids[..|ids| - 1], env), ids[|ids| - 1], env, |ids| - 1))
  }

  /** Through a sync, announced sources stay settled and are announced once, if and
      only if the sync never fails to get the message after one that it announced. */
  lemma {:induction false} SyncAnnouncesOnceExactly(x: Inbox, announced: seq<nat>, ids: seq<string>,
                                                    env: Surroundings)
    requires SoundInbox(x) && AnnouncedOnce(announced, x.sources) && IsFaithful(ids, env)
    ensures OnceThroughout(x, announced, ids, env) <==> NeverRetracts(KnownIds(x.sources), ids, env)
    ensures OnceThroughout(x, announced, ids, env) ==>
              KnowsTold(OutlineOf(KnownIds(x.sources), ids, env), SyncAll(Begin(x, announced), ids, env))
    decreases |ids|
  {
    if ids != [] {
      var front, id := ids[..|ids| - 1], ids[|ids| - 1];
      var start, o := Begin(x, announced), OutlineOf(KnownIds(x.sources), front, env);
      assert ids == front + [id];
      SyncSnoc(start, front, id, env);
      SyncAnnouncesOnceExactly(x, announced, front, env);
      SyncIsOutlined(x, announced, front, env);
      BeginKeeps(x, announced);
      SyncSound(x.sources, start, front, env);
      if OnceThroughout(x, announced, front, env) && !o.aborted {
        MessageOnce(o, SyncAll(start, front, env), id, env, |front|);
      }
    }
  }

  /** The syncs of the run get what they ask for, if anything. */
  ghost predicate IsFaithfulRun(steps: seq<InboxStep>) {
    forall n :: 0 <= n < |steps| && steps[n].SyncStep? ==> IsFaithful(steps[n].ids, steps[n].env)
  }

  /** After every step of the run and every message of its syncs, announced sources
      are settled and announced once. */
  ghost predicate OnceThroughRun(w: World, steps: seq<InboxStep>)
    decreases |steps|
  {
    if steps == [] then AnnouncedOnce(w.announced, w.inbox.sources)
    else
      var mid := After(w, steps[..|steps| - 1]);
      && OnceThroughRun(w, steps[..|steps| - 1])
      && match steps[|steps| - 1]
         case SyncStep(_, ids, env) => OnceThroughout(mid.inbox, mid.announced, ids, env)
         case _ => AnnouncedOnce(After(w, steps).announced, After(w, steps).inbox.sources)
  }

  predicate RunNeverRetracts(w: World, steps: seq<InboxStep>)
    decreases |steps|
  {
    steps == [] ||
    (RunNeverRetracts(w, steps[..|steps| - 1])
     && match steps[|steps| - 1]
        case SyncStep(_, ids, env) =>
          NeverRetracts(KnownIds(After(w, steps[..|steps| - 1]).inbox.sources), ids, env)
        case _ => true)
  }

  lemma {:induction false} AnnouncedOnceExactly(w: World, steps: seq<InboxStep>)
    requires Sound(w) && AnnouncedOnce(w.announced, w.inbox.sources) && IsRun(w, steps) && IsFaithfulRun(steps)
    ensures OnceThroughRun(w, steps) <==> RunNeverRetracts(w, steps)
    ensures OnceThroughRun(w, steps) ==> AnnouncedOnce(After(w, steps).announced, After(w, steps).inbox.sources)
    decreases |steps|
  {
    if steps != [] {
      var front, step := steps[..|steps| - 1], steps[|steps| - 1];
      var mid := After(w, front);
      AnnouncedOnceExactly(w, front);
      RunKeepsSound(w, front);
      StepKeepsSound(mid, step);
      if OnceThroughRun(w, front) && step.SyncStep? {
        assert IsFaithful(step.ids, step.env);
        SyncAnnouncesOnceExactly(mid.inbox, mid.announced, step.ids, step.env);
      }
    }
  }

  /** From the start, every message is announced at most once, and no announced message
      is taken for failed, through a run if and only if none of its syncs fails to get
      the message after one that it announced. */
  lemma {:induction false} EachIsAnnouncedOnceExactly(steps: seq<InboxStep>)
    requires IsRun(Start, steps) && IsFaithfulRun(steps)
    ensures OnceThroughRun(Start, steps) <==> RunNeverRetracts(Start, steps)
    ensures RunNeverRetracts(Start, steps) ==>
              var announced := After(Start, steps).announced;
              forall j, k :: 0 <= j < k < |announced| ==> announced[j] != announced[k]
  {
    EmptyIsSound();
    AnnouncedOnceExactly(Start, steps);
  }

  /******* Polling the same listing again *******/

  lemma MessageFails(o: Outline, s: Sync, id: string, env: Surroundings, k: nat)
    requires SoundSync(s) && Outlines(o, s) && !s.aborted && IsFaithfulAt(id, env, k)
    ensures var s' := SyncMessage(s, id, env, k);
            && s'.counts.failed >= s.counts.failed
            && (s'.counts.failed == s.counts.failed && !s'.aborted ==>
                  id in Follow(o, id, env, k).known && o.known <= Follow(o, id, env, k).known)
  {
    if id in o.known {
      KnownIsDuplicate(s, id, env, k);
    } else if env.fetch(k).None? {
      UnreadMessage(s, id, env, k);
    } else {
      GotMessage(s, id, env, k);
      StoredOutcome(s, id, id);
    }
  }

  /** A completed sync without failures leaves every listed message settled. */
  lemma {:induction false} SyncKnowsAll(x: Inbox, announced: seq<nat>, ids: seq<string>, env: Surroundings)
    requires SoundInbox(x) && AreRows(announced, x) && IsFaithful(ids, env)
    requires !SyncAll(Begin(x, announced), ids, env).aborted
    ensures SyncAll(Begin(x, announced), ids, env).counts.failed == 0 ==>
              forall id :: id in ids ==> id in OutlineOf(KnownIds(x.sources), ids, env).known
    decreases |ids|
  {
    if ids != [] {
      var front, id := ids[..|ids| - 1], ids[|ids| - 1];
      var start := Begin(x, announced);
      assert ids == front + [id];
      SyncSnoc(start, front, id, env);
      SyncKnowsAll(x, announced, front, env);
      SyncIsOutlined(x, announced, front, env);
      BeginKeeps(x, announced);
      SyncSound(x.sources, start, front, env);
      MessageFails(OutlineOf(KnownIds(x.sources), front, env), SyncAll(start, front, env), id, env, |front|);
    }
  }

  lemma {:induction false} KnownListingIsAllDuplicates(s: Sync, ids: seq<string>, env: Surroundings)
    requires SoundSync(s) && !s.aborted
    requires forall id :: id in ids ==> IsKnown(s.inbox.sources, id)
    ensures SyncAll(s, ids, env) == s.(counts := s.counts.(duplicates := s.counts.duplicates + |ids|))
    decreases |ids|
  {
    if ids != [] {
      KnownListingIsAllDuplicates(s, ids[..|ids| - 1], env);
      var before := SyncAll(s, ids[..|ids| - 1], env);
      assert ids[|ids| - 1] in ids;
      KnownIsDuplicate(before, ids[|ids| - 1], env, |ids| - 1);
    }
  }

  /** Polling a listing again after a completed sync without failures finds only
      duplicates and changes no source and no candidate row, whatever else has
      happened to the inbox in between. */
  lemma {:induction false} RepollFindsOnlyDuplicates(w: World, now: int, ids: seq<string>, env: Surroundings,
                                                     steps: seq<InboxStep>, now': int, env': Surroundings)
    requires Sound(w) && IsFaithful(ids, env)
    requires !SyncAll(Begin(w.inbox, w.announced), ids, env).aborted
    requires SyncAll(Begin(w.inbox, w.announced), ids, env).counts.failed == 0
    requires IsRun(Next(w, SyncStep(now, ids, env)), steps)
    ensures var w' := After(Next(w, SyncStep(now, ids, env)), steps);
            var s := SyncAll(Begin(w'.inbox, w'.announced), ids, env');
            && s.counts == Zero.(duplicates := |ids|) && !s.aborted
            && Next(w', SyncStep(now', ids, env')) == w'.(lastPolled := Some(now'))
  {
    var w1 := Next(w, SyncStep(now, ids, env));
    var w' := After(w1, steps);
    StepKeepsSound(w, SyncStep(now, ids, env));
    RunKeepsSound(w1, steps);
    SyncKnowsAll(w.inbox, w.announced, ids, env);
    SyncIsOutlined(w.inbox, w.announced, ids, env);
    forall id | id in ids
      ensures IsKnown(w'.inbox.sources, id)
    {
      KnownStays(w1.inbox.sources, w'.inbox.sources, id);
    }
    KnownListingIsAllDuplicates(Begin(w'.inbox, w'.announced), ids, env');
  }

  /******* Witnesses *******/

  /** Every message was received at instant 0, and all mail is read. */
  const OldMail := Mailbox(_ => 0, None)

  lemma OneMessageWorld(w: World, now: int, id: string, env: Surroundings)
    ensures var s := SyncMessage(Begin(w.inbox, w.announced), id, env, 0);
            Next(w, SyncStep(now, [id], env)) == w.(inbox := s.inbox, announced := s.announced,
                                                    lastPolled := if s.aborted then w.lastPolled else Some(now))
  {
    OneMessage(w.inbox, w.announced, id, env);
  }

  /** One message whose announcement bounces in a sync ten seconds after Gmail received
      it: the sync completes, the message is failed, and no later poll announces it. */
  lemma LostBounce()
    ensures var w := Next(Start, SyncStep(10 * SECOND, ["m"], Requests("m", Bounced)));
            && |w.inbox.sources| == 1 && w.inbox.sources[0].status == Failed
            && !CanBeAnnounced(w, "m", OldMail)
  {
    var step := SyncStep(10 * SECOND, ["m"], Requests("m", Bounced));
    OneMessageWorld(Start, 10 * SECOND, "m", step.env);
    EmptyIsSound();
    StepKeepsSound(Start, step);
    CanBeAnnouncedExactly(Next(Start, step), "m", OldMail);
  }

  /** One message whose announcement breaks: the sync is cut short, and no later poll
      announces the message, which is still listed. */
  lemma LostAnnouncement()
    ensures var w := Next(Start, SyncStep(10 * SECOND, ["m"], Requests("m", Broken)));
            && w.lastPolled == None && IsListable(w.lastPolled, OldMail, "m")
            && !CanBeAnnounced(w, "m", OldMail)
  {
    var step := SyncStep(10 * SECOND, ["m"], Requests("m", Broken));
    OneMessageWorld(Start, 10 * SECOND, "m", step.env);
    EmptyIsSound();
    StepKeepsSound(Start, step);
    var w := Next(Start, step);
    assert Matches(w.inbox.sources[0], Gmail, "m") && IsSettled(w.inbox.sources[0]);
    CanBeAnnouncedExactly(w, "m", OldMail);
  }

  /** Two messages, of which the second cannot be got. */
  const SecondUnread := Surroundings(
    k => if k == 0 then Some(Mail("a", false, None, Parsed(TaskRequest, Some(ExamplePayload)))) else None,
    true, true, _ => Announced)

  lemma RetractedByNext()
    ensures var s := SyncAll(Begin(EmptyInbox, []), ["a", "b"], SecondUnread);
            && !s.aborted && s.announced == [0] && |s.inbox.sources| == 1
            && Matches(s.inbox.sources[0], Gmail, "a") && s.inbox.sources[0].status == Failed
  {
    var start := Begin(EmptyInbox, []);
    OneMessage(EmptyInbox, [], "a", SecondUnread);
    assert ["a", "b"][..1] == ["a"];
    assert SyncAll(start, ["a", "b"], SecondUnread)
        == SyncMessage(SyncAll(start, ["a"], SecondUnread), "b", SecondUnread, 1);
  }

  lemma ToldAgain(w: World)
    requires |w.inbox.sources| == 1 && Matches(w.inbox.sources[0], Gmail, "a") && !IsSettled(w.inbox.sources[0])
    requires w.announced == [0]
    ensures Next(w, FairSync(w, "a")).announced == [0, 0]
  {
    OneMessageWorld(w, FairSync(w, "a").now, "a", FairSync(w, "a").env);
    assert FindSource(w.inbox.sources, Gmail, "a") == Some(0);
  }

  /** The first message is announced and then taken for failed, as the second cannot be
      got; the next sync, in the same second, announces it again. */
  lemma AnnouncedTwice() returns (steps: seq<InboxStep>)
    ensures IsPolledRun(Start, steps, OldMail)
    ensures After(Start, steps).announced == [0, 0]
  {
    var first := SyncStep(0, ["a", "b"], SecondUnread);
    var w := Next(Start, first);
    RetractedByNext();
    ToldAgain(w);
    steps := [first, FairSync(w, "a")];
    assert steps[..1] == [first] && [first][..0] == [];
    assert IsPolledRun(Start, [], OldMail);
    assert After(Start, [first]) == w && IsPolledRun(Start, [first], OldMail);
  }
}
