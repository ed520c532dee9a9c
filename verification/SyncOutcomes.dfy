/** What becomes of each message of a sync, told from the inputs alone: a small
    outline of the sync that knows only which messages are settled. */
module SyncOutcomes {
  import opened Wrappers
  import opened TaskStore
  import opened InboxTable
  import opened InboxHistory

  /******* Known messages *******/

  /** The message is stored and settled. */
  ghost predicate IsKnown(sources: seq<Source>, id: string) {
    exists i :: 0 <= i < |sources| && Matches(sources[i], Gmail, id) && IsSettled(sources[i])
  }

  /** A message that is got is the one that was asked for. */
  predicate IsFaithfulAt(id: string, env: Surroundings, k: nat) {
    env.fetch(k).Some? ==> env.fetch(k).value.messageId == id
  }

  ghost predicate IsFaithful(ids: seq<string>, env: Surroundings) {
    forall k :: 0 <= k < |ids| ==> IsFaithfulAt(ids[k], env, k)
  }

  lemma KnownIsFound(sources: seq<Source>, id: string)
    requires UniqueSources(sources)
    ensures IsKnown(sources, id) <==>
            FindSource(sources, Gmail, id).Some? && IsSettled(sources[FindSource(sources, Gmail, id).value])
  {
    if IsKnown(sources, id) {
      var i :| 0 <= i < |sources| && Matches(sources[i], Gmail, id) && IsSettled(sources[i]);
      assert Matches(sources[i], Gmail, id);
    }
  }

  lemma {:induction false} KnownStays(a: seq<Source>, b: seq<Source>, id: string)
    requires Advances(a, b) && IsKnown(a, id)
    ensures IsKnown(b, id)
  {
    var i :| 0 <= i < |a| && Matches(a[i], Gmail, id) && IsSettled(a[i]);
    assert Matches(b[i], Gmail, id) && IsSettled(b[i]);
  }

  /******* One message *******/

  function VerdictAt(env: Surroundings, k: nat): Option<Verdict> {
    match env.fetch(k)
    case None => None
    case Some(mail) => Some(Judge(mail, env.hasModel))
  }

  predicate HasCandidate(env: Surroundings, k: nat) {
    VerdictAt(env, k).Some? && VerdictAt(env, k).value.Proposes?
  }

  /** How the candidate of the message at position `k` would be announced. */
  predicate IsAnnouncedAs(env: Surroundings, k: nat, a: Announcement) {
    HasCandidate(env, k) && env.hasNotifier && env.announce(k) == a
  }

  /** Handling the message at position `k` settles its source. */
  predicate Settles(env: Surroundings, k: nat) {
    && VerdictAt(env, k).Some? && !VerdictAt(env, k).value.Unprocessable?
    && !IsAnnouncedAs(env, k, Bounced)
  }

  /******* The outline *******/

  /** The message that was got last, and whether its candidate was announced. */
  datatype Last = Last(id: string, told: bool)

  /** What a sync has come to: the settled messages, the message got last, and
      whether it is cut short. */
  datatype Outline = Outline(known: set<string>, last: Option<Last>, aborted: bool)

  /** The sync asks Gmail for the message. */
  predicate AsksFor(o: Outline, id: string) {
    !o.aborted && id !in o.known
  }

  function Follow(o: Outline, id: string, env: Surroundings, k: nat): Outline {
    if !AsksFor(o, id) then o
    else if env.fetch(k).None? then
      match o.last
      case None => o.(aborted := true)
      case Some(last) => o.(known := o.known - {last.id})
    else
      Outline(if Settles(env, k) then o.known + {id} else o.known,
              Some(Last(id, IsAnnouncedAs(env, k, Announced))),
              IsAnnouncedAs(env, k, Broken))
  }

  /** The outline of a sync over the listing, from the messages settled before it. */
  function OutlineOf(known: set<string>, ids: seq<string>, env: Surroundings): Outline {
    if ids == [] then Outline(known, None, false)
    else Follow(OutlineOf(known, ids[..|ids| - 1], env), ids[|ids| - 1], env, |ids| - 1)
  }

  function KnownIds(sources: seq<Source>): set<string> {
    if sources == [] then {}
    else
      var s := sources[|sources| - 1];
      KnownIds(sources[..|sources| - 1]) + if s.sourceType == Gmail && IsSettled(s) then {s.externalId} else {}
  }

  lemma {:induction false} KnownIdsAreKnown(sources: seq<Source>, id: string)
    ensures id in KnownIds(sources) <==> IsKnown(sources, id)
    decreases |sources|
  {
    if sources != [] {
      var front := sources[..|sources| - 1];
      KnownIdsAreKnown(front, id);
      if IsKnown(front, id) {
        var i :| 0 <= i < |front| && Matches(front[i], Gmail, id) && IsSettled(front[i]);
        assert Matches(sources[i], Gmail, id);
      }
      if IsKnown(sources, id) {
        var i :| 0 <= i < |sources| && Matches(sources[i], Gmail, id) && IsSettled(sources[i]);
        assert i < |front| ==> Matches(front[i], Gmail, id);
      }
    }
  }

  /** The outline knows what the sync has settled and which row it holds. */
  ghost predicate Outlines(o: Outline, s: Sync) {
    && (forall id :: id in o.known <==> IsKnown(s.inbox.sources, id))
    && o.aborted == s.aborted
    && match o.last
       case None => s.current.Unassigned?
       case Some(last) =>
         && s.current.Row? && s.current.index < |s.inbox.sources|
         && Matches(s.inbox.sources[s.current.index], Gmail, last.id)
  }

  lemma ProcessOutcome(s: Sync, i: nat, env: Surroundings, k: nat)
    requires i < |s.inbox.sources| && !s.aborted && env.fetch(k).Some?
    ensures var s' := Process(s, i, env.fetch(k).value, env, k);
            && |s'.inbox.sources| == |s.inbox.sources|
            && (forall j :: 0 <= j < |s.inbox.sources| && j != i ==> s'.inbox.sources[j] == s.inbox.sources[j])
            && s'.inbox.sources[i].sourceType == s.inbox.sources[i].sourceType
            && s'.inbox.sources[i].externalId == s.inbox.sources[i].externalId
            && (IsSettled(s'.inbox.sources[i]) <==> Settles(env, k))
            && s'.bounced == s.bounced + (if IsAnnouncedAs(env, k, Bounced) then 1 else 0)
            && (s'.aborted <==> IsAnnouncedAs(env, k, Broken))
            && s'.current == s.current
            && s'.announced == if IsAnnouncedAs(env, k, Announced) then s.announced + [i] else s.announced
  {}

  /** Row `i`, which is that of message `id`, is changed and no other; then the
      message is known if the row is settled, and others are as before. */
  lemma OneRowChanged(a: seq<Source>, b: seq<Source>, i: nat, id: string, other: string)
    requires UniqueSources(a) && |a| == |b| && i < |a| && Matches(a[i], Gmail, id) && Matches(b[i], Gmail, id)
    requires forall j :: 0 <= j < |a| && j != i ==> b[j] == a[j]
    ensures IsKnown(b, other) <==> if other == id then IsSettled(b[i]) else IsKnown(a, other)
  {
    if IsKnown(b, other) {
      var j :| 0 <= j < |b| && Matches(b[j], Gmail, other) && IsSettled(b[j]);
      assert j != i ==> Matches(a[j], Gmail, other);
    }
    if other != id && IsKnown(a, other) {
      var j :| 0 <= j < |a| && Matches(a[j], Gmail, other) && IsSettled(a[j]);
      assert Matches(b[j], Gmail, other);
    }
    if other == id && IsSettled(b[i]) {
      assert Matches(b[i], Gmail, other);
    }
  }

  lemma StoredIsUnknown(sources: seq<Source>, s: Source, other: string)
    requires !IsSettled(s)
    ensures IsKnown(sources + [s], other) <==> IsKnown(sources, other)
  {
    if IsKnown(sources, other) {
      var j :| 0 <= j < |sources| && Matches(sources[j], Gmail, other) && IsSettled(sources[j]);
      assert Matches((sources + [s])[j], Gmail, other);
    }
  }

  /** The row of a message that is asked for, stored if it was not before. */
  function Stored(s: Sync, id: string): Sync {
    var existing := FindSource(s.inbox.sources, Gmail, id);
    if existing.Some? then s.(current := Row(existing.value))
    else StoreMessage(s, id).(current := Row(|s.inbox.sources|))
  }

  lemma StoredOutcome(s: Sync, id: string, other: string)
    requires SoundSync(s) && !IsKnown(s.inbox.sources, id)
    ensures var s1 := Stored(s, id);
            && UniqueSources(s1.inbox.sources) && s1.announced == s.announced && s1.bounced == s.bounced
            && s1.aborted == s.aborted && s1.counts.failed == s.counts.failed
            && s1.current.Row? && s1.current.index < |s1.inbox.sources|
            && Matches(s1.inbox.sources[s1.current.index], Gmail, id)
            && !IsSettled(s1.inbox.sources[s1.current.index])
            && (IsKnown(s1.inbox.sources, other) <==> IsKnown(s.inbox.sources, other))
            && Extends(s.inbox.sources, s1.inbox.sources)
  {
    KnownIsFound(s.inbox.sources, id);
    if FindSource(s.inbox.sources, Gmail, id).None? {
      AddSourceSound(s.inbox, NewGmailSource(id));
      StoredIsUnknown(s.inbox.sources, NewGmailSource(id), other);
    }
  }

  /** A message that is asked for and got is stored and processed. */
  lemma GotMessage(s: Sync, id: string, env: Surroundings, k: nat)
    requires SoundSync(s) && !IsKnown(s.inbox.sources, id) && env.fetch(k).Some? && IsFaithfulAt(id, env, k)
    ensures Stored(s, id).current.index < |Stored(s, id).inbox.sources|
    ensures SyncMessage(s, id, env, k)
         == Process(Stored(s, id), Stored(s, id).current.index, env.fetch(k).value, env, k)
  {
    KnownIsFound(s.inbox.sources, id);
  }

  lemma KnownIsDuplicate(s: Sync, id: string, env: Surroundings, k: nat)
    requires SoundSync(s) && IsKnown(s.inbox.sources, id)
    ensures SyncMessage(s, id, env, k) == CountDuplicate(s)
  {
    KnownIsFound(s.inbox.sources, id);
  }

  lemma UnreadMessage(s: Sync, id: string, env: Surroundings, k: nat)
    requires SoundSync(s) && !IsKnown(s.inbox.sources, id) && env.fetch(k).None?
    ensures SyncMessage(s, id, env, k) == CountUnread(s)
  {
    KnownIsFound(s.inbox.sources, id);
  }

  lemma UnreadFollows(o: Outline, s: Sync)
    requires SoundSync(s) && Outlines(o, s) && !s.aborted
    ensures Outlines(if o.last.None? then o.(aborted := true) else o.(known := o.known - {o.last.value.id}),
                     CountUnread(s))
  {
    if o.last.Some? {
      var i, s' := s.current.index, CountUnread(s);
      forall other
        ensures other in o.known - {o.last.value.id} <==> IsKnown(s'.inbox.sources, other)
      {
        OneRowChanged(s.inbox.sources, s'.inbox.sources, i, o.last.value.id, other);
      }
    }
  }

  lemma GotFollows(o: Outline, s: Sync, id: string, env: Surroundings, k: nat)
    requires SoundSync(s) && Outlines(o, s) && AsksFor(o, id) && env.fetch(k).Some? && IsFaithfulAt(id, env, k)
    ensures Outlines(Follow(o, id, env, k), SyncMessage(s, id, env, k))
    ensures SyncMessage(s, id, env, k).bounced == s.bounced + if IsAnnouncedAs(env, k, Bounced) then 1 else 0
  {
    GotMessage(s, id, env, k);
    StoredOutcome(s, id, id);
    var s1, s' := Stored(s, id), SyncMessage(s, id, env, k);
    ProcessOutcome(s1, s1.current.index, env, k);
    forall other
      ensures other in Follow(o, id, env, k).known <==> IsKnown(s'.inbox.sources, other)
    {
      StoredOutcome(s, id, other);
      OneRowChanged(s1.inbox.sources, s'.inbox.sources, s1.current.index, id, other);
    }
  }

  lemma MessageFollows(o: Outline, s: Sync, id: string, env: Surroundings, k: nat)
    requires SoundSync(s) && Outlines(o, s) && !s.aborted && IsFaithfulAt(id, env, k)
    ensures Outlines(Follow(o, id, env, k), SyncMessage(s, id, env, k))
    ensures SyncMessage(s, id, env, k).bounced
         == s.bounced + if AsksFor(o, id) && IsAnnouncedAs(env, k, Bounced) then 1 else 0
  {
    if id in o.known {
      KnownIsDuplicate(s, id, env, k);
    } else if env.fetch(k).None? {
      UnreadMessage(s, id, env, k);
      UnreadFollows(o, s);
    } else {
      GotFollows(o, s, id, env, k);
    }
  }

  /** A listing without its last message, and with it. */
  lemma SyncSnoc(s: Sync, front: seq<string>, id: string, env: Surroundings)
    ensures SyncAll(s, front + [id], env)
         == if SyncAll(s, front, env).aborted then SyncAll(s, front, env)
            else SyncMessage(SyncAll(s, front, env), id, env, |front|)
    ensures IsFaithful(front + [id], env) ==> IsFaithful(front, env) && IsFaithfulAt(id, env, |front|)
  {
    assert (front + [id])[..|front|] == front;
    if IsFaithful(front + [id], env) {
      forall k | 0 <= k < |front|
        ensures IsFaithfulAt(front[k], env, k)
      {
        assert (front + [id])[k] == front[k];
      }
      assert (front + [id])[|front|] == id;
    }
  }

  lemma OutlineSnoc(known: set<string>, front: seq<string>, id: string, env: Surroundings)
    ensures OutlineOf(known, front + [id], env) == Follow(OutlineOf(known, front, env), id, env, |front|)
  {
    assert (front + [id])[..|front|] == front;
  }

  lemma BeginOutlined(x: Inbox, announced: seq<nat>)
    ensures Outlines(Outline(KnownIds(x.sources), None, false), Begin(x, announced))
  {
    forall id
      ensures id in KnownIds(x.sources) <==> IsKnown(x.sources, id)
    {
      KnownIdsAreKnown(x.sources, id);
    }
  }

  lemma BeginKeeps(x: Inbox, announced: seq<nat>)
    ensures Keeps(x.sources, Begin(x, announced))
  {}

  /** The announcements of a listing that bounce. */
  function BouncesIn(known: set<string>, ids: seq<string>, env: Surroundings): nat {
    if ids == [] then 0
    else
      var n := |ids| - 1;
      BouncesIn(known, ids[..n], env)
      + if AsksFor(OutlineOf(known, ids[..n], env), ids[n]) && IsAnnouncedAs(env, n, Bounced) then 1 else 0
  }

  /** The outline is that of the sync: which messages end settled, and whether it is
      cut short, depends only on what was settled before, on the listing, and on what
      Gmail, the model and Telegram answer. */
  lemma {:induction false} SyncIsOutlined(x: Inbox, announced: seq<nat>, ids: seq<string>, env: Surroundings)
    requires SoundInbox(x) && AreRows(announced, x) && IsFaithful(ids, env)
    ensures Outlines(OutlineOf(KnownIds(x.sources), ids, env), SyncAll(Begin(x, announced), ids, env))
    ensures SyncAll(Begin(x, announced), ids, env).bounced == BouncesIn(KnownIds(x.sources), ids, env)
    decreases |ids|
  {
    if ids == [] {
      BeginOutlined(x, announced);
    } else {
      var front, id := ids[..|ids| - 1], ids[|ids| - 1];
      assert ids == front + [id];
      var start := Begin(x, announced);
      SyncSnoc(start, front, id, env);
      OutlineSnoc(KnownIds(x.sources), front, id, env);
      SyncIsOutlined(x, announced, front, env);
      BeginKeeps(x, announced);
      SyncSound(x.sources, start, front, env);
      if !SyncAll(start, front, env).aborted {
        MessageFollows(OutlineOf(KnownIds(x.sources), front, env), SyncAll(start, front, env), id, env, |front|);
      }
    }
  }

  /******* Counting *******/

  /** The sync comes to the message at position `k` and asks Gmail for it. */
  predicate ComesTo(known: set<string>, ids: seq<string>, env: Surroundings, k: nat)
    requires k < |ids|
  {
    AsksFor(OutlineOf(known, ids[..k], env), ids[k])
  }

  lemma ComesToInFront(known: set<string>, ids: seq<string>, env: Surroundings, k: nat)
    requires k < |ids| - 1
    ensures ComesTo(known, ids[..|ids| - 1], env, k) == ComesTo(known, ids, env, k)
  {
    assert ids[..|ids| - 1][..k] == ids[..k];
  }

  ghost predicate NeverBounces(known: set<string>, ids: seq<string>, env: Surroundings) {
    forall k :: 0 <= k < |ids| && IsAnnouncedAs(env, k, Bounced) ==> !ComesTo(known, ids, env, k)
  }

  lemma {:induction false} NothingBounces(known: set<string>, ids: seq<string>, env: Surroundings)
    ensures BouncesIn(known, ids, env) == 0 <==> NeverBounces(known, ids, env)
    decreases |ids|
  {
    if ids != [] {
      var n := |ids| - 1;
      NothingBounces(known, ids[..n], env);
      forall k | 0 <= k < n
        ensures ComesTo(known, ids[..n], env, k) == ComesTo(known, ids, env, k)
      {
        ComesToInFront(known, ids, env, k);
      }
    }
  }

  /** A completed sync counts each announcement that bounces twice, as a candidate
      and as failed, and everything else once.  So it counts every message once if
      and only if announcements bounce only for messages that it does not come to,
      as they are settled by then. */
  lemma {:induction false} EveryMessageCountedOnceExactly(x: Inbox, announced: seq<nat>, ids: seq<string>,
                                                          env: Surroundings)
    requires SoundInbox(x) && AreRows(announced, x) && IsFaithful(ids, env)
    requires !OutlineOf(KnownIds(x.sources), ids, env).aborted
    ensures var n := SyncAll(Begin(x, announced), ids, env).counts;
            var bounces := BouncesIn(KnownIds(x.sources), ids, env);
            && n.duplicates + n.ignored + n.candidates + n.failed == |ids| + bounces
            && (n.duplicates + n.ignored + n.candidates + n.failed == |ids| <==>
                NeverBounces(KnownIds(x.sources), ids, env))
            && n.notified == (if env.hasNotifier then n.candidates - bounces else 0)
            && n.candidates - bounces <= n.processed <= n.candidates - bounces + n.ignored
  {
    SyncIsOutlined(x, announced, ids, env);
    SyncAccounts(x, announced, ids, env);
    NothingBounces(KnownIds(x.sources), ids, env);
  }

  /** Mail in which each message is a request and is announced as given. */
  function Requests(id: string, a: Announcement): Surroundings {
    Surroundings(_ => Some(Mail(id, false, None, Parsed(TaskRequest, Some(ExamplePayload)))), true, true, _ => a)
  }

  lemma OneMessage(x: Inbox, announced: seq<nat>, id: string, env: Surroundings)
    ensures SyncAll(Begin(x, announced), [id], env) == SyncMessage(Begin(x, announced), id, env, 0)
  {
    assert [id][..0] == [];
    assert SyncAll(Begin(x, announced), [], env) == Begin(x, announced);
  }

  /** One message whose announcement bounces is counted twice. */
  lemma BouncedMessageCountedTwice()
    ensures var s := SyncAll(Begin(EmptyInbox, []), ["m"], Requests("m", Bounced));
            && !s.aborted && s.counts.candidates == 1 && s.counts.failed == 1 && s.counts.notified == 0
            && s.counts.processed == 0
  {
    OneMessage(EmptyInbox, [], "m", Requests("m", Bounced));
  }

  /** What cuts a sync short at position `k`: an announcement that breaks, or a message
      that cannot be got before any was. */
  predicate CutsShort(known: set<string>, ids: seq<string>, env: Surroundings, k: nat)
    requires k < |ids|
  {
    && ComesTo(known, ids, env, k)
    && (IsAnnouncedAs(env, k, Broken)
        || (env.fetch(k).None? && OutlineOf(known, ids[..k], env).last.None?))
  }

  ghost predicate IsCutShort(known: set<string>, ids: seq<string>, env: Surroundings) {
    exists k :: 0 <= k < |ids| && CutsShort(known, ids, env, k)
  }

  lemma OneMoreCut(known: set<string>, ids: seq<string>, env: Surroundings)
    requires ids != []
    ensures IsCutShort(known, ids, env) <==>
            IsCutShort(known, ids[..|ids| - 1], env) || CutsShort(known, ids, env, |ids| - 1)
  {
    var front := ids[..|ids| - 1];
    forall k: nat | k < |front|
      ensures CutsShort(known, front, env, k) == CutsShort(known, ids, env, k)
    {
      assert front[..k] == ids[..k];
    }
  }

  lemma {:induction false} OutlineCutShort(known: set<string>, ids: seq<string>, env: Surroundings)
    ensures OutlineOf(known, ids, env).aborted <==> IsCutShort(known, ids, env)
    decreases |ids|
  {
    if ids != [] {
      OutlineCutShort(known, ids[..|ids| - 1], env);
      OneMoreCut(known, ids, env);
    }
  }

  /** A sync is cut short if and only if it comes to an announcement that breaks, or
      the first message that it asks for cannot be got. */
  lemma {:induction false} AbortsExactly(x: Inbox, announced: seq<nat>, ids: seq<string>, env: Surroundings)
    requires SoundInbox(x) && AreRows(announced, x) && IsFaithful(ids, env)
    ensures SyncAll(Begin(x, announced), ids, env).aborted <==> IsCutShort(KnownIds(x.sources), ids, env)
  {
    SyncIsOutlined(x, announced, ids, env);
    OutlineCutShort(KnownIds(x.sources), ids, env);
  }

  /******* The fate of one message *******/

  /** The sync comes to the message at position `k` for the last time. */
  ghost predicate ComesLast(known: set<string>, ids: seq<string>, env: Surroundings, k: nat)
    requires k < |ids|
  {
    && ComesTo(known, ids, env, k)
    && forall j :: k < j < |ids| && ids[j] == ids[k] ==> !ComesTo(known, ids, env, j)
  }

  /** The next message that the sync asks for after position `k` is at `j`. */
  ghost predicate IsNextAsked(known: set<string>, ids: seq<string>, env: Surroundings, k: nat, j: nat)
    requires k < j < |ids|
  {
    ComesTo(known, ids, env, j) && forall m :: k < m < j ==> !ComesTo(known, ids, env, m)
  }

  /** The next message that the sync asks for after position `k` cannot be got. */
  ghost predicate NextIsUnread(known: set<string>, ids: seq<string>, env: Surroundings, k: nat) {
    exists j :: k < j < |ids| && IsNextAsked(known, ids, env, k, j) && env.fetch(j).None?
  }

  /** Up to position `n`, the sync asks for nothing after position `k`. */
  ghost predicate AsksNothing(known: set<string>, ids: seq<string>, env: Surroundings, k: nat, n: nat)
    requires n <= |ids|
  {
    forall m :: k < m < n ==> !ComesTo(known, ids, env, m)
  }

  lemma OneMore(known: set<string>, ids: seq<string>, env: Surroundings, n: nat)
    requires n < |ids|
    ensures OutlineOf(known, ids[..n + 1], env) == Follow(OutlineOf(known, ids[..n], env), ids[n], env, n)
  {
    assert ids[..n + 1] == ids[..n] + [ids[n]];
    OutlineSnoc(known, ids[..n], ids[n], env);
  }

  lemma {:induction false} StandsStill(known: set<string>, ids: seq<string>, env: Surroundings, k: nat, n: nat)
    requires k < n <= |ids| && AsksNothing(known, ids, env, k, n)
    ensures OutlineOf(known, ids[..n], env) == OutlineOf(known, ids[..k + 1], env)
    decreases n
  {
    if n > k + 1 {
      StandsStill(known, ids, env, k, n - 1);
      OneMore(known, ids, env, n - 1);
      assert !ComesTo(known, ids, env, n - 1);
    }
  }

  /** After the next message was asked for, nothing more happens to this one. */
  lemma {:induction false} DecidedByNext(known: set<string>, ids: seq<string>, env: Surroundings,
                                         k: nat, j: nat, n: nat)
    requires k < j < n <= |ids| && ComesLast(known, ids, env, k) && env.fetch(k).Some?
    requires IsNextAsked(known, ids, env, k, j)
    ensures var o := OutlineOf(known, ids[..n], env);
            && (ids[k] in o.known <==> Settles(env, k) && env.fetch(j).Some?)
            && (env.fetch(j).Some? ==> o.last.Some? && o.last.value.id != ids[k])
    decreases n
  {
    OneMore(known, ids, env, n - 1);
    if n == j + 1 {
      StandsStill(known, ids, env, k, j);
      OneMore(known, ids, env, k);
    } else {
      DecidedByNext(known, ids, env, k, j, n - 1);
    }
    assert ComesTo(known, ids, env, n - 1) ==> ids[n - 1] != ids[k];
  }

  /** The next message asked for, if there is one. */
  lemma {:induction false} FindNext(known: set<string>, ids: seq<string>, env: Surroundings, k: nat, n: nat)
    returns (j: nat)
    requires k < n <= |ids|
    ensures k < j <= n && AsksNothing(known, ids, env, k, j) && (j < n ==> ComesTo(known, ids, env, j))
    decreases n
  {
    if n == k + 1 {
      j := n;
    } else {
      j := FindNext(known, ids, env, k, n - 1);
      if j == n - 1 && !ComesTo(known, ids, env, j) {
        j := n;
      }
    }
  }

  lemma {:induction false} UnreadStaysUnknown(known: set<string>, ids: seq<string>, env: Surroundings, k: nat, n: nat)
    requires k < n <= |ids| && ComesLast(known, ids, env, k) && env.fetch(k).None?
    ensures ids[k] !in OutlineOf(known, ids[..n], env).known
    decreases n
  {
    OneMore(known, ids, env, n - 1);
    if n > k + 1 {
      UnreadStaysUnknown(known, ids, env, k, n - 1);
      assert ComesTo(known, ids, env, n - 1) ==> ids[n - 1] != ids[k];
    }
  }

  /** A message that a sync comes to, for the last time, ends settled if and only if
      it is got, its handling settles it, and the next message that the sync asks for
      can be got, too: otherwise the handler marks this one as failed. */
  lemma {:induction false} MessageFateExactly(known: set<string>, ids: seq<string>, env: Surroundings, k: nat)
    requires k < |ids| && ComesLast(known, ids, env, k)
    ensures ids[k] in OutlineOf(known, ids, env).known <==> Settles(env, k) && !NextIsUnread(known, ids, env, k)
  {
    assert ids[..|ids|] == ids;
    if env.fetch(k).None? {
      UnreadStaysUnknown(known, ids, env, k, |ids|);
    } else {
      var j := FindNext(known, ids, env, k, |ids|);
      if j < |ids| {
        DecidedByNext(known, ids, env, k, j, |ids|);
        assert IsNextAsked(known, ids, env, k, j);
      } else {
        StandsStill(known, ids, env, k, |ids|);
        OneMore(known, ids, env, k);
      }
    }
  }
}
