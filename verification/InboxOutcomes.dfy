/** What syncs, presses and texts make of the inbox, column by column and counter by
    counter. */
module InboxOutcomes {
  import opened Wrappers
  import opened TaskStore
  import TaskHistory
  import TaskOutcomes
  import opened InboxTable
  import opened InboxHistory
  import opened SyncOutcomes

  /******* Verdicts *******/

  const TASKS := {TaskRequest, Delegation, AwaitingResult}

  predicate IsFilteredOut(mail: Mail) {
    mail.blocked || mail.rule == Some(IgnoreRule)
  }

  /** The message is left to the language model: no rule classifies it, or one that
      classifies it as a task. */
  predicate IsForModel(mail: Mail) {
    && !IsFilteredOut(mail)
    && (mail.rule.None? || (mail.rule.value.ClassifyRule? && mail.rule.value.classification in TASKS))
  }

  /** Which messages are filtered, failed, processed without a task, and proposed. */
  lemma VerdictsExactly(mail: Mail, hasModel: bool, c: Classification, p: Payload)
    ensures Judge(mail, hasModel) == Filtered <==> IsFilteredOut(mail)
    ensures Judge(mail, hasModel) == Unprocessable <==> IsForModel(mail) && (!hasModel || mail.parse == Unparsable)
    ensures Judge(mail, hasModel) == Proposes(c, p) <==>
              IsForModel(mail) && hasModel && mail.parse == Parsed(c, Some(p)) && c in TASKS
    ensures Judge(mail, hasModel) == NoTask(c) <==>
              || (!IsFilteredOut(mail) && mail.rule == Some(ClassifyRule(c)) && c !in TASKS)
              || (IsForModel(mail) && hasModel && mail.parse.Parsed? && mail.parse.classification == c
                  && (mail.parse.candidate == None || c !in TASKS))
  {
    if !IsFilteredOut(mail) && mail.rule.Some? {
      assert IsTaskLike(mail.rule.value.classification) <==> mail.rule.value.classification in TASKS;
    }
  }

  /******* One processed message *******/

  /** The candidate row of a source, if it has one. */
  function CandidateOf(candidates: seq<Candidate>, i: nat): Option<Candidate> {
    var found := FindCandidate(candidates, i);
    if found.None? then None else Some(candidates[found.value])
  }

  ghost predicate Unique(candidates: seq<Candidate>) {
    forall j, k :: 0 <= j < k < |candidates| ==> candidates[j].source != candidates[k].source
  }

  lemma RowIsCandidate(candidates: seq<Candidate>, j: nat)
    requires Unique(candidates) && j < |candidates|
    ensures CandidateOf(candidates, candidates[j].source) == Some(candidates[j])
  {}

  lemma ChangedCandidate(candidates: seq<Candidate>, i: nat, change: Candidate -> Candidate, other: nat)
    requires Unique(candidates)
    ensures Unique(OnCandidate(candidates, i, change))
    ensures CandidateOf(OnCandidate(candidates, i, change), other) ==
            if other == i && CandidateOf(candidates, i).Some?
            then Some(change(CandidateOf(candidates, i).value).(source := i)) else CandidateOf(candidates, other)
  {
    var after := OnCandidate(candidates, i, change);
    if CandidateOf(candidates, other).Some? {
      RowIsCandidate(after, FindCandidate(candidates, other).value);
    }
  }

  lemma UpsertedCandidate(candidates: seq<Candidate>, i: nat, c: Classification, p: Payload, other: nat)
    requires Unique(candidates)
    ensures Unique(Upsert(candidates, i, c, p))
    ensures CandidateOf(Upsert(candidates, i, c, p), other) ==
            if other != i then CandidateOf(candidates, other)
            else match CandidateOf(candidates, i)
              case None => Some(Candidate(i, c, p, Pending, false, None))
              case Some(r) => Some(r.(classification := c, payload := p))
  {
    var after := Upsert(candidates, i, c, p);
    if CandidateOf(candidates, other).Some? {
      RowIsCandidate(after, FindCandidate(candidates, other).value);
    } else if other == i {
      RowIsCandidate(after, |candidates|);
    }
  }

  /** The candidate row of a proposed message: the proposal, marked as announced or as
      not announced, and otherwise as it was, or new. */
  predicate IsProposal(before: Option<Candidate>, after: Option<Candidate>, i: nat, c: Classification, p: Payload,
                       hasNotifier: bool, a: Announcement)
  {
    && after.Some?
    && var r := after.value;
       && r.source == i && r.classification == c && r.payload == p
       && r.task == (if before.Some? then before.value.task else None)
       && (if !hasNotifier then
             && r.status == (if before.Some? then before.value.status else Pending)
             && r.notificationFailed == (before.Some? && before.value.notificationFailed)
           else if a.Announced? then r.status == Notified && !r.notificationFailed
           else r.status == (if before.Some? then before.value.status else Pending) && r.notificationFailed)
  }

  /** What processing a message makes of its source, of the candidates, and of nothing
      else in the inbox. */
  lemma ProcessedOutcome(s: Sync, i: nat, mail: Mail, env: Surroundings, k: nat)
    requires SoundInbox(s.inbox) && i < |s.inbox.sources|
    ensures var s' := Process(s, i, mail, env, k);
            var source, source' := s.inbox.sources[i], s'.inbox.sources[i];
            && |s'.inbox.sources| == |s.inbox.sources|
            && (forall j :: 0 <= j < |s.inbox.sources| && j != i ==> s'.inbox.sources[j] == s.inbox.sources[j])
            && (forall j: nat :: j != i ==> CandidateOf(s'.inbox.candidates, j) == CandidateOf(s.inbox.candidates, j))
            && match Judge(mail, env.hasModel) {
                 case Filtered => source' == source.(status := Ignored) && s'.inbox.candidates == s.inbox.candidates
                 case Unprocessable => source' == source.(status := Failed) && s'.inbox.candidates == s.inbox.candidates
                 case NoTask(c) =>
                   && source' == source.(status := Processed, classification := Some(c))
                   && s'.inbox.candidates == s.inbox.candidates
                 case Proposes(c, p) =>
                   && source' == source.(classification := Some(c), candidate := Some(p),
                                         status := if env.hasNotifier && env.announce(k).Bounced? then Failed
                                                   else Processed)
                   && IsProposal(CandidateOf(s.inbox.candidates, i), CandidateOf(s'.inbox.candidates, i), i, c, p,
                                 env.hasNotifier, env.announce(k))
               }
  {
    match Judge(mail, env.hasModel)
    case Proposes(c, p) => ProposedCandidate(s, i, c, p, env.hasNotifier, env.announce(k));
    case _ =>
  }

  lemma ProposedCandidate(s: Sync, i: nat, c: Classification, p: Payload, hasNotifier: bool, a: Announcement)
    requires SoundInbox(s.inbox) && i < |s.inbox.sources|
    ensures var s' := Propose(s, i, c, p, hasNotifier, a);
            && IsProposal(CandidateOf(s.inbox.candidates, i), CandidateOf(s'.inbox.candidates, i), i, c, p,
                          hasNotifier, a)
            && (forall j: nat :: j != i ==> CandidateOf(s'.inbox.candidates, j) == CandidateOf(s.inbox.candidates, j))
  {
    var candidates := Upsert(s.inbox.candidates, i, c, p);
    forall j: nat
      ensures j != i ==> CandidateOf(candidates, j) == CandidateOf(s.inbox.candidates, j)
      ensures j != i ==> CandidateOf(MarkNotified(candidates, i), j) == CandidateOf(candidates, j)
      ensures j != i ==> CandidateOf(MarkUnnotified(candidates, i), j) == CandidateOf(candidates, j)
    {
      UpsertedCandidate(s.inbox.candidates, i, c, p, j);
      ChangedCandidate(candidates, i, (r: Candidate) => r.(status := Notified, notificationFailed := false), j);
      ChangedCandidate(candidates, i, (r: Candidate) => r.(notificationFailed := true), j);
    }
    UpsertedCandidate(s.inbox.candidates, i, c, p, i);
    ChangedCandidate(candidates, i, (r: Candidate) => r.(status := Notified, notificationFailed := false), i);
    ChangedCandidate(candidates, i, (r: Candidate) => r.(notificationFailed := true), i);
  }

  /******* A whole sync *******/

  /** What the row of a message shows after the sync came to it at position `k`: the
      outcome of its verdict, or FAILED in its stead. */
  ghost predicate Shows(x: Inbox, i: nat, id: string, env: Surroundings, k: nat) {
    && i < |x.sources| && Matches(x.sources[i], Gmail, id) && VerdictAt(env, k).Some?
    && var source := x.sources[i];
       match VerdictAt(env, k).value {
         case Filtered => source.status == Ignored || source.status == Failed
         case Unprocessable => source.status == Failed
         case NoTask(c) =>
           (source.status == Processed || source.status == Failed) && source.classification == Some(c)
         case Proposes(c, p) =>
           && (source.status == Processed || source.status == Failed)
           && source.classification == Some(c) && source.candidate == Some(p)
           && CandidateOf(x.candidates, i).Some?
           && var r := CandidateOf(x.candidates, i).value;
              && r.classification == c && r.payload == p
              && (IsAnnouncedAs(env, k, Announced) ==> r.status == Notified && !r.notificationFailed)
              && (IsAnnouncedAs(env, k, Bounced) || IsAnnouncedAs(env, k, Broken) ==> r.notificationFailed)
       }
  }

  lemma GotShows(s: Sync, id: string, env: Surroundings, k: nat) returns (i: nat)
    requires SoundSync(s) && !IsKnown(s.inbox.sources, id) && env.fetch(k).Some? && IsFaithfulAt(id, env, k)
    ensures Shows(SyncMessage(s, id, env, k).inbox, i, id, env, k)
  {
    GotMessage(s, id, env, k);
    StoredOutcome(s, id, id);
    var stored := Stored(s, id);
    i := stored.current.index;
    StoredIsSound(s, id);
    ProcessedOutcome(stored, i, env.fetch(k).value, env, k);
  }

  lemma StoredIsSound(s: Sync, id: string)
    requires SoundSync(s)
    ensures SoundInbox(Stored(s, id).inbox) && Stored(s, id).inbox.candidates == s.inbox.candidates
  {
    if FindSource(s.inbox.sources, Gmail, id).None? {
      AddSourceSound(s.inbox, NewGmailSource(id));
    }
  }

  /** A message that is not asked for, cannot be got, or is another one leaves the row
      as it is, or marks it as failed. */
  lemma OtherStillShows(s: Sync, other: string, env: Surroundings, n: nat, i: nat, id: string, k: nat)
    requires SoundSync(s) && IsFaithfulAt(other, env, n) && Shows(s.inbox, i, id, env, k)
    requires other != id || IsKnown(s.inbox.sources, other)
    ensures Shows(SyncMessage(s, other, env, n).inbox, i, id, env, k)
  {
    if IsKnown(s.inbox.sources, other) {
      KnownIsDuplicate(s, other, env, n);
    } else if env.fetch(n).None? {
      UnreadMessage(s, other, env, n);
    } else {
      GotMessage(s, other, env, n);
      StoredOutcome(s, other, other);
      StoredIsSound(s, other);
      ProcessedOutcome(Stored(s, other), Stored(s, other).current.index, env.fetch(n).value, env, n);
    }
  }

  lemma {:induction false} SyncShows(x: Inbox, announced: seq<nat>, front: seq<string>, id: string, rest: seq<string>,
                                     env: Surroundings) returns (i: nat)
    requires SoundInbox(x) && AreRows(announced, x) && IsFaithful(front + [id] + rest, env)
    requires AsksFor(OutlineOf(KnownIds(x.sources), front, env), id) && env.fetch(|front|).Some?
    requires forall j :: 0 <= j < |rest| && rest[j] == id ==>
               !AsksFor(OutlineOf(KnownIds(x.sources), front + [id] + rest[..j], env), rest[j])
    ensures Shows(SyncAll(Begin(x, announced), front + [id] + rest, env).inbox, i, id, env, |front|)
    decreases |rest|
  {
    var start := Begin(x, announced);
    BeginKeeps(x, announced);
    if rest == [] {
      assert front + [id] + rest == front + [id];
      SyncSnoc(start, front, id, env);
      SyncSound(x.sources, start, front, env);
      SyncIsOutlined(x, announced, front, env);
      i := GotShows(SyncAll(start, front, env), id, env, |front|);
    } else {
      var more, last := rest[..|rest| - 1], rest[|rest| - 1];
      var before := front + [id] + more;
      assert front + [id] + rest == before + [last];
      SyncSnoc(start, before, last, env);
      forall j | 0 <= j < |more| && more[j] == id
        ensures !AsksFor(OutlineOf(KnownIds(x.sources), front + [id] + more[..j], env), more[j])
      {
        assert more[..j] == rest[..j];
      }
      i := SyncShows(x, announced, front, id, more, env);
      SyncSound(x.sources, start, before, env);
      SyncIsOutlined(x, announced, before, env);
      if !SyncAll(start, before, env).aborted {
        OtherStillShows(SyncAll(start, before, env), last, env, |before|, i, id, |front|);
      }
    }
  }

  /** What a sync leaves of a message that it comes to, for the last time, and gets: its
      source shows the outcome of its verdict and its candidate row the proposal, and
      the source is settled unless the message fails or the next one asked for cannot
      be got, in which case it is FAILED. */
  lemma {:induction false} SyncedMessageOutcome(w: World, now: int, ids: seq<string>, env: Surroundings, k: nat)
    returns (i: nat)
    requires Sound(w) && IsFaithful(ids, env) && k < |ids| && env.fetch(k).Some?
    requires ComesLast(KnownIds(w.inbox.sources), ids, env, k)
    ensures var x := Next(w, SyncStep(now, ids, env)).inbox;
            && Shows(x, i, ids[k], env, k)
            && (x.sources[i].status != Failed <==>
                Settles(env, k) && !NextIsUnread(KnownIds(w.inbox.sources), ids, env, k))
  {
    var known, front, rest := KnownIds(w.inbox.sources), ids[..k], ids[k + 1..];
    assert ids == front + [ids[k]] + rest;
    forall j | 0 <= j < |rest| && rest[j] == ids[k]
      ensures !AsksFor(OutlineOf(known, front + [ids[k]] + rest[..j], env), rest[j])
    {
      assert ids[..k + 1 + j] == front + [ids[k]] + rest[..j];
      assert !ComesTo(known, ids, env, k + 1 + j);
    }
    i := SyncShows(w.inbox, w.announced, front, ids[k], rest, env);
    MessageFateExactly(known, ids, env, k);
    SyncIsOutlined(w.inbox, w.announced, ids, env);
    StepKeepsSound(w, SyncStep(now, ids, env));
    SettledRowIsKnown(Next(w, SyncStep(now, ids, env)).inbox, i, ids[k]);
  }

  /** Rows are only added for messages of the mailbox, without the owner's marks, and
      the rows that were there keep their message and their marks. */
  ghost predicate KeepsMarks(x: Inbox, x': Inbox) {
    && |x.sources| <= |x'.sources|
    && (forall i :: 0 <= i < |x.sources| ==>
          && x'.sources[i].sourceType == x.sources[i].sourceType
          && x'.sources[i].externalId == x.sources[i].externalId
          && x'.sources[i].awaitingEdit == x.sources[i].awaitingEdit
          && x'.sources[i].confirmed == x.sources[i].confirmed)
    && (forall i :: |x.sources| <= i < |x'.sources| ==>
          x'.sources[i].sourceType == Gmail && !x'.sources[i].awaitingEdit && !x'.sources[i].confirmed)
  }

  /** So it is through a sync of any listing, however fetches and announcements end. */
  lemma {:induction false} SyncKeepsMarks(s: Sync, ids: seq<string>, env: Surroundings)
    ensures KeepsMarks(s.inbox, SyncAll(s, ids, env).inbox)
    decreases |ids|
  {
    if ids != [] {
      var n := |ids| - 1;
      SyncKeepsMarks(s, ids[..n], env);
      MessageKeepsMarks(SyncAll(s, ids[..n], env), ids[n], env, n);
    }
  }

  lemma ProposingKeepsMarks(s: Sync, i: nat, c: Classification, p: Payload, hasNotifier: bool, a: Announcement)
    requires i < |s.inbox.sources|
    ensures KeepsMarks(s.inbox, Propose(s, i, c, p, hasNotifier, a).inbox)
    ensures |Propose(s, i, c, p, hasNotifier, a).inbox.sources| == |s.inbox.sources|
  {}

  lemma ProcessingKeepsMarks(s: Sync, i: nat, mail: Mail, env: Surroundings, k: nat)
    requires i < |s.inbox.sources|
    ensures KeepsMarks(s.inbox, Process(s, i, mail, env, k).inbox)
    ensures |Process(s, i, mail, env, k).inbox.sources| == |s.inbox.sources|
  {
    match Judge(mail, env.hasModel)
    case Proposes(c, p) => ProposingKeepsMarks(s, i, c, p, env.hasNotifier, env.announce(k));
    case _ =>
  }

  lemma MessageKeepsMarks(s: Sync, id: string, env: Surroundings, k: nat)
    ensures KeepsMarks(s.inbox, SyncMessage(s, id, env, k).inbox)
  {
    var existing := FindSource(s.inbox.sources, Gmail, id);
    if !(existing.Some? && IsSettled(s.inbox.sources[existing.value])) && env.fetch(k).Some? {
      var mail := env.fetch(k).value;
      if existing.Some? {
        ProcessingKeepsMarks(s.(current := Row(existing.value)), existing.value, mail, env, k);
      } else if FindSource(s.inbox.sources, Gmail, mail.messageId).None? {
        var i := |s.inbox.sources|;
        ProcessingKeepsMarks(StoreMessage(s, mail.messageId).(current := Row(i)), i, mail, env, k);
      }
    }
  }

  lemma SettledRowIsKnown(x: Inbox, i: nat, id: string)
    requires UniqueSources(x.sources) && i < |x.sources| && Matches(x.sources[i], Gmail, id)
    ensures IsKnown(x.sources, id) <==> IsSettled(x.sources[i])
  {
    if IsKnown(x.sources, id) {
      var j :| 0 <= j < |x.sources| && Matches(x.sources[j], Gmail, id) && IsSettled(x.sources[j]);
    }
  }

  /******* Counters *******/

  /** The number of listed messages that the sync asks for and that are of a kind. */
  function CountAsked(known: set<string>, ids: seq<string>, env: Surroundings, kind: nat -> bool): nat {
    if ids == [] then 0
    else
      var n := |ids| - 1;
      CountAsked(known, ids[..n], env, kind)
      + if AsksFor(OutlineOf(known, ids[..n], env), ids[n]) && kind(n) then 1 else 0
  }

  predicate IsFailure(env: Surroundings, k: nat) {
    VerdictAt(env, k).None? || VerdictAt(env, k).value.Unprocessable? || IsAnnouncedAs(env, k, Bounced)
  }

  predicate IsWithoutTask(env: Surroundings, k: nat) {
    VerdictAt(env, k).Some? && VerdictAt(env, k).value.NoTask?
  }

  predicate IsFilteredAt(env: Surroundings, k: nat) {
    VerdictAt(env, k).Some? && VerdictAt(env, k).value.Filtered?
  }

  /** The counters of a sync, by the kinds of the messages that it asked for. */
  predicate Counted(n: Counts, known: set<string>, ids: seq<string>, env: Surroundings) {
    && n.duplicates + CountAsked(known, ids, env, _ => true) == |ids|
    && n.failed == CountAsked(known, ids, env, (k: nat) => IsFailure(env, k))
    && n.ignored == CountAsked(known, ids, env, (k: nat) => IsFilteredAt(env, k) || IsWithoutTask(env, k))
    && n.candidates == CountAsked(known, ids, env, (k: nat) => HasCandidate(env, k))
    && n.processed == CountAsked(known, ids, env, (k: nat) =>
                        IsWithoutTask(env, k) || (HasCandidate(env, k) && !IsAnnouncedAs(env, k, Bounced)))
    && n.notified == CountAsked(known, ids, env, (k: nat) => IsAnnouncedAs(env, k, Announced))
  }

  lemma MessageCounted(s: Sync, id: string, env: Surroundings, k: nat, asked: bool)
    requires SoundSync(s) && !s.aborted && IsFaithfulAt(id, env, k) && asked == !IsKnown(s.inbox.sources, id)
    requires !SyncMessage(s, id, env, k).aborted
    ensures var n, n' := s.counts, SyncMessage(s, id, env, k).counts;
            && n'.duplicates == n.duplicates + (if asked then 0 else 1)
            && n'.failed == n.failed + (if asked && IsFailure(env, k) then 1 else 0)
            && n'.ignored == n.ignored + (if asked && (IsFilteredAt(env, k) || IsWithoutTask(env, k)) then 1 else 0)
            && n'.candidates == n.candidates + (if asked && HasCandidate(env, k) then 1 else 0)
            && n'.processed == n.processed
                 + (if asked && (IsWithoutTask(env, k) || (HasCandidate(env, k) && !IsAnnouncedAs(env, k, Bounced)))
                    then 1 else 0)
            && n'.notified == n.notified + (if asked && IsAnnouncedAs(env, k, Announced) then 1 else 0)
  {
    if !asked {
      KnownIsDuplicate(s, id, env, k);
    } else if env.fetch(k).None? {
      UnreadMessage(s, id, env, k);
    } else {
      GotMessage(s, id, env, k);
    }
  }

  lemma CountedSnoc(n: Counts, n': Counts, known: set<string>, front: seq<string>, id: string, env: Surroundings)
    requires Counted(n, known, front, env)
    requires var asked, k := AsksFor(OutlineOf(known, front, env), id), |front|;
             && n'.duplicates == n.duplicates + (if asked then 0 else 1)
             && n'.failed == n.failed + (if asked && IsFailure(env, k) then 1 else 0)
             && n'.ignored == n.ignored + (if asked && (IsFilteredAt(env, k) || IsWithoutTask(env, k)) then 1 else 0)
             && n'.candidates == n.candidates + (if asked && HasCandidate(env, k) then 1 else 0)
             && n'.processed == n.processed
                  + (if asked && (IsWithoutTask(env, k) || (HasCandidate(env, k) && !IsAnnouncedAs(env, k, Bounced)))
                     then 1 else 0)
             && n'.notified == n.notified + (if asked && IsAnnouncedAs(env, k, Announced) then 1 else 0)
    ensures Counted(n', known, front + [id], env)
  {
    assert (front + [id])[..|front + [id]| - 1] == front;
  }

  /** Each counter of a completed sync is the number of messages of its kind among
      those that the sync asked for; the others are the duplicates. */
  lemma {:induction false} CountersExactly(x: Inbox, announced: seq<nat>, ids: seq<string>, env: Surroundings)
    requires SoundInbox(x) && AreRows(announced, x) && IsFaithful(ids, env)
    requires !SyncAll(Begin(x, announced), ids, env).aborted
    ensures Counted(SyncAll(Begin(x, announced), ids, env).counts, KnownIds(x.sources), ids, env)
    decreases |ids|
  {
    if ids != [] {
      var front, id := ids[..|ids| - 1], ids[|ids| - 1];
      var start := Begin(x, announced);
      assert ids == front + [id];
      SyncSnoc(start, front, id, env);
      CountersExactly(x, announced, front, env);
      SyncIsOutlined(x, announced, front, env);
      BeginKeeps(x, announced);
      SyncSound(x.sources, start, front, env);
      var before := SyncAll(start, front, env);
      MessageCounted(before, id, env, |front|, !IsKnown(before.inbox.sources, id));
      CountedSnoc(before.counts, SyncMessage(before, id, env, |front|).counts, KnownIds(x.sources), front, id, env);
    }
  }

  /******* The poll query *******/

  /** Mail is asked for from the second of the last completed sync, or from that of the
      configured start if it is later; with neither, all mail is asked for.  Seconds are
      cut toward zero. */
  lemma PollQueryExactly(lastPolled: Option<int>, start: Option<int>)
    ensures PollAfter(lastPolled, start) == None <==> lastPolled == None && start == None
    ensures lastPolled.Some? && (start.Some? ==> start.value <= lastPolled.value) ==>
              PollAfter(lastPolled, start).Some? && IsSecondOf(PollAfter(lastPolled, start).value, lastPolled.value)
    ensures start.Some? && (lastPolled.Some? ==> lastPolled.value <= start.value) ==>
              PollAfter(lastPolled, start).Some? && IsSecondOf(PollAfter(lastPolled, start).value, start.value)
  {}

  predicate IsSecondOf(second: int, t: int) {
    if t >= 0 then second * 1_000_000 <= t < (second + 1) * 1_000_000
    else (second - 1) * 1_000_000 < t <= second * 1_000_000
  }

  /******* Presses and texts *******/

  /** The row that an inbox step changes, and that it changes no other. */
  predicate ChangesSource(x: Inbox, x': Inbox, i: nat) {
    && i < |x.sources| == |x'.sources|
    && forall j :: 0 <= j < |x.sources| && j != i ==> x'.sources[j] == x.sources[j]
  }

  lemma IgnorePressOutcome(w: World, i: nat)
    requires Sound(w) && i < |w.inbox.sources|
    ensures var w' := IgnorePress(w, i);
            && w'.store == w.store && ChangesSource(w.inbox, w'.inbox, i)
            && w'.inbox.sources[i] == w.inbox.sources[i].(status := Ignored)
            && (forall j: nat :: j != i ==> CandidateOf(w'.inbox.candidates, j) == CandidateOf(w.inbox.candidates, j))
            && match CandidateOf(w.inbox.candidates, i)
               case None => CandidateOf(w'.inbox.candidates, i) == None
               case Some(r) => CandidateOf(w'.inbox.candidates, i) == Some(r.(source := i, status := Rejected))
  {
    forall j: nat
      ensures j != i ==> CandidateOf(IgnorePress(w, i).inbox.candidates, j) == CandidateOf(w.inbox.candidates, j)
    {
      ChangedCandidate(w.inbox.candidates, i, (r: Candidate) => r.(status := Rejected), j);
    }
    ChangedCandidate(w.inbox.candidates, i, (r: Candidate) => r.(status := Rejected), i);
  }

  /** The edit button asks for a correction, and does nothing else. */
  lemma EditPressOutcome(w: World, i: nat)
    requires i < |w.inbox.sources|
    ensures var w' := EditPress(w, i);
            && w' == w.(inbox := w.inbox.(sources := w'.inbox.sources)) && ChangesSource(w.inbox, w'.inbox, i)
            && w'.inbox.sources[i] == w.inbox.sources[i].(awaitingEdit := true)
  {}

  /** Presses on a source that does not exist, and creating without a candidate, do
      nothing. */
  lemma IdlePressOutcome(w: World, i: nat)
    ensures i >= |w.inbox.sources| ==> IgnorePress(w, i) == EditPress(w, i) == CreatePress(w, i) == w
    ensures i < |w.inbox.sources| && w.inbox.sources[i].candidate == None ==> CreatePress(w, i) == w
  {}

  /** The assignee of a candidate is named by more than white space. */
  predicate IsNamed(name: Option<string>) {
    name.Some? && exists k :: 0 <= k < |name.value| && name.value[k] !in {' ', '\t', '\n', '\r'}
  }

  /** The create button makes the task of the stored candidate, with its title,
      description, type, priority and dates, unless there is one already, and confirms
      the source and its candidate row with that task. */
  lemma CreatePressOutcome(w: World, i: nat, p: Payload)
    requires Sound(w) && i < |w.inbox.sources| && w.inbox.sources[i].candidate == Some(p)
    ensures var w' := CreatePress(w, i);
            var status := if p.taskType != MyTask && !IsNamed(p.assigneeName) then UnknownParty else New;
            var task := Task(Fields(p.title, p.description, p.taskType, p.priority, None, None,
                                    p.dueAt, p.dueDate, p.duePrecision, None, status),
                             1, None, None, CandidateCreate(i));
            var made := exists id :: 0 <= id < |w.store.tasks| && w.store.tasks[id].key == CandidateCreate(i);
            && w'.store.tasks == (if made then w.store.tasks else w.store.tasks + [task])
            && w'.store.links == (if made then w.store.links else w.store.links + [Link(|w.store.tasks|, i)])
            && ChangesSource(w.inbox, w'.inbox, i)
            && w'.inbox.sources[i] == w.inbox.sources[i].(confirmed := true)
            && match CandidateOf(w.inbox.candidates, i)
               case None => CandidateOf(w'.inbox.candidates, i) == None
               case Some(r) =>
                 && CandidateOf(w'.inbox.candidates, i).Some?
                 && var r' := CandidateOf(w'.inbox.candidates, i).value;
                    && r' == r.(source := i, status := Confirmed, task := r'.task)
                    && r'.task.Some? && r'.task.value < |w'.store.tasks|
                    && w'.store.tasks[r'.task.value].key == CandidateCreate(i)
  {
    var data := CandidateTask(i, p);
    TaskOutcomes.CreateOutcome(w.store, data, 0, |w.inbox.sources|);
    assert HasTaskKey(w.store.tasks, CandidateCreate(i)) <==>
           exists id :: 0 <= id < |w.store.tasks| && w.store.tasks[id].key == CandidateCreate(i);
    assert KeyRecorded(w.store.events, CandidateCreate(i)) <==>
           exists k :: 0 <= k < |w.store.events| && w.store.events[k].key == Some(CandidateCreate(i));
    var o := Create(w.store, data, 0, |w.inbox.sources|);
    if o.reply.Ok? {
      var id := o.reply.value;
      ChangedCandidate(w.inbox.candidates, i, (r: Candidate) => r.(status := Confirmed, task := Some(id)), i);
    }
  }

  /** The task has the columns of the candidate. */
  predicate IsTaskOf(task: Task, p: Payload) {
    var f := task.fields;
    && f.title == p.title && f.description == p.description
    && f.taskType == p.taskType && f.priority == p.priority
    && f.dueAt == p.dueAt && f.dueDate == p.dueDate && f.duePrecision == p.duePrecision
  }

  lemma CreateMakesTask(w: World, i: nat, p: Payload)
    requires Sound(w) && i < |w.inbox.sources| && w.inbox.sources[i].candidate == Some(p)
    requires forall id :: 0 <= id < |w.store.tasks| ==> w.store.tasks[id].key != CandidateCreate(i)
    ensures var tasks := Next(w, CreateStep(i)).store.tasks;
            |tasks| == |w.store.tasks| + 1 && IsTaskOf(tasks[|w.store.tasks|], p)
  {
    CreatePressOutcome(w, i, p);
  }

  lemma ProposalShown(x: Inbox, i: nat, id: string, env: Surroundings, k: nat, c: Classification, p: Payload)
    requires Shows(x, i, id, env, k) && env.hasModel && IsForModel(env.fetch(k).value)
    requires env.fetch(k).value.parse == Parsed(c, Some(p)) && c in TASKS
    ensures x.sources[i].candidate == Some(p) && x.sources[i].classification == Some(c)
  {
    VerdictsExactly(env.fetch(k).value, env.hasModel, c, p);
  }

  /** After a sync that comes to a proposed message, for the last time, its source has
      the proposal, and the create button makes the task that was proposed. */
  lemma {:induction false} ProposedIsCreated(w: World, now: int, ids: seq<string>, env: Surroundings, k: nat,
                                             c: Classification, p: Payload) returns (i: nat)
    requires Sound(w) && IsFaithful(ids, env) && k < |ids| && env.fetch(k).Some?
    requires ComesLast(KnownIds(w.inbox.sources), ids, env, k)
    requires IsForModel(env.fetch(k).value) && env.hasModel
    requires env.fetch(k).value.parse == Parsed(c, Some(p)) && c in TASKS
    ensures var w' := Next(w, SyncStep(now, ids, env));
            && i < |w'.inbox.sources| && Matches(w'.inbox.sources[i], Gmail, ids[k])
            && w'.inbox.sources[i].candidate == Some(p) && w'.inbox.sources[i].classification == Some(c)
    ensures (forall id :: 0 <= id < |w.store.tasks| ==> w.store.tasks[id].key != CandidateCreate(i)) ==>
              var tasks := Next(Next(w, SyncStep(now, ids, env)), CreateStep(i)).store.tasks;
              |tasks| == |w.store.tasks| + 1 && IsTaskOf(tasks[|w.store.tasks|], p)
  {
    i := SyncedMessageOutcome(w, now, ids, env, k);
    var w' := Next(w, SyncStep(now, ids, env));
    StepKeepsSound(w, SyncStep(now, ids, env));
    ProposalShown(w'.inbox, i, ids[k], env, k, c, p);
    if forall id :: 0 <= id < |w.store.tasks| ==> w.store.tasks[id].key != CandidateCreate(i) {
      CreateMakesTask(w', i, p);
    }
  }

  /** The number of processed sources from row `i` on. */
  function ProcessedFrom(sources: seq<Source>, i: nat): nat
    requires i <= |sources|
    decreases |sources|
  {
    if |sources| == i then 0
    else
      ProcessedFrom(sources[..|sources| - 1], i) + if sources[|sources| - 1].status == Processed then 1 else 0
  }

  /** The source that a text is taken to correct is the latest processed one whose
      correction was asked for, if it is among the latest twenty processed ones. */
  lemma {:induction false} PendingExactly(sources: seq<Source>, limit: nat, i: nat)
    requires i < |sources|
    ensures LatestAwaiting(sources, limit) == Some(i) <==>
            && sources[i].status == Processed && sources[i].awaitingEdit
            && (forall j :: i < j < |sources| ==> !(sources[j].status == Processed && sources[j].awaitingEdit))
            && ProcessedFrom(sources, i) <= limit
    decreases |sources|
  {
    var n := |sources| - 1;
    var front := sources[..n];
    if limit > 0 {
      if i < n {
        PendingExactly(front, limit, i);
        PendingExactly(front, limit - 1, i);
      } else {
        assert ProcessedFrom(front, i) == 0;
      }
    } else if sources[i].status == Processed {
      SomeProcessed(sources, i);
    }
  }

  lemma {:induction false} SomeProcessed(sources: seq<Source>, i: nat)
    requires i < |sources| && sources[i].status == Processed
    ensures ProcessedFrom(sources, i) > 0
    decreases |sources|
  {
    if i < |sources| - 1 {
      SomeProcessed(sources[..|sources| - 1], i);
    }
  }

  /** A text that proposes a task is stored on the source that awaits one, or on a new
      source, whose candidate row it becomes. */
  lemma FreeTextOutcome(w: World, id: string, c: Classification, p: Payload, replied: bool)
    requires Sound(w)
    ensures var w' := FreeText(w, id, c, p, replied);
            var pending := LatestAwaiting(w.inbox.sources, 20);
            var i := if pending.Some? then pending.value else |w.inbox.sources|;
            var known := exists j :: 0 <= j < |w.inbox.sources| && Matches(w.inbox.sources[j], Telegram, id);
            if pending.None? && known then w' == w
            else
              && w'.store == w.store && w'.announced == w.announced
              && |w'.inbox.sources| == |w.inbox.sources| + (if pending.Some? then 0 else 1)
              && (forall j :: 0 <= j < |w.inbox.sources| && j != i ==> w'.inbox.sources[j] == w.inbox.sources[j])
              && (if pending.Some? then
                    w'.inbox.sources[i] == w.inbox.sources[i].(classification := Some(c), candidate := Some(p))
                  else
                    w'.inbox.sources[i] == Source(Telegram, id, Processed, Some(c), Some(p), false, false))
              && CandidateOf(w'.inbox.candidates, i).Some?
              && var r := CandidateOf(w'.inbox.candidates, i).value;
                 && r.source == i && r.classification == c && r.payload == p
                 && (replied ==> r.status == Notified && !r.notificationFailed)
  {
    var pending := PendingSource(w.inbox.sources);
    var i := if pending.Some? then pending.value else |w.inbox.sources|;
    UpsertedCandidate(w.inbox.candidates, i, c, p, i);
    ChangedCandidate(Upsert(w.inbox.candidates, i, c, p), i,
                     (r: Candidate) => r.(status := Notified, notificationFailed := false), i);
  }
}
