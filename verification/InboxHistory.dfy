/** What a sync accounts for, and what every run of syncs, presses, free text and
    task operations keeps. */
module InboxHistory {
  import opened Wrappers
  import opened TaskStore
  import TaskHistory
  import opened InboxTable

  /******* Accounting *******/

  /** The counters of a sync that has handled `fetched` messages so far. */
  ghost predicate Accounts(s: Sync, start: Inbox, announced: seq<nat>, fetched: nat, hasNotifier: bool) {
    var n := s.counts;
    && n.duplicates + n.ignored + n.candidates + n.failed == fetched + s.bounced
    && n.candidates - s.bounced <= n.processed <= n.candidates - s.bounced + n.ignored
    && s.bounced <= n.candidates && s.bounced <= n.failed
    && (if hasNotifier then n.notified == n.candidates - s.bounced else n.notified == 0 && s.bounced == 0)
    && |s.inbox.sources| == |start.sources| + n.stored
    && |s.announced| == |announced| + n.notified
  }

  lemma {:induction false} ProcessAccounts(s: Sync, i: nat, mail: Mail, env: Surroundings, k: nat,
                                           start: Inbox, announced: seq<nat>, fetched: nat)
    requires i < |s.inbox.sources| && Accounts(s, start, announced, fetched, env.hasNotifier)
    ensures var s' := Process(s, i, mail, env, k);
            !s'.aborted ==> Accounts(s', start, announced, fetched + 1, env.hasNotifier)
  {
    match Judge(mail, env.hasModel)
    case Proposes(c, p) =>
      var s' := Propose(s, i, c, p, env.hasNotifier, env.announce(k));
      assert |s'.inbox.sources| == |s.inbox.sources|;
    case _ =>
  }

  lemma {:induction false} StoringAccounts(s: Sync, id: string, start: Inbox, announced: seq<nat>, fetched: nat,
                                           hasNotifier: bool)
    requires Accounts(s, start, announced, fetched, hasNotifier)
    ensures Accounts(StoreMessage(s, id), start, announced, fetched, hasNotifier)
    ensures Accounts(CountDuplicate(s), start, announced, fetched + 1, hasNotifier)
  {}

  lemma {:induction false} MessageAccounts(s: Sync, id: string, env: Surroundings, k: nat,
                                           start: Inbox, announced: seq<nat>, fetched: nat)
    requires Accounts(s, start, announced, fetched, env.hasNotifier)
    ensures var s' := SyncMessage(s, id, env, k);
            !s'.aborted ==> Accounts(s', start, announced, fetched + 1, env.hasNotifier)
  {
    var existing := FindSource(s.inbox.sources, Gmail, id);
    if existing.Some? && IsSettled(s.inbox.sources[existing.value]) {
      StoringAccounts(s, id, start, announced, fetched, env.hasNotifier);
    } else if env.fetch(k).Some? {
      var mail := env.fetch(k).value;
      StoringAccounts(s, mail.messageId, start, announced, fetched, env.hasNotifier);
      if existing.Some? {
        ProcessAccounts(s.(current := Row(existing.value)), existing.value, mail, env, k, start, announced, fetched);
      } else if FindSource(s.inbox.sources, Gmail, mail.messageId).None? {
        var i := |s.inbox.sources|;
        var stored := StoreMessage(s, mail.messageId).(current := Row(i));
        ProcessAccounts(stored, i, mail, env, k, start, announced, fetched);
      }
    }
  }

  lemma {:induction false} SyncAccounts(x: Inbox, announced: seq<nat>, ids: seq<string>, env: Surroundings)
    ensures var s := SyncAll(Begin(x, announced), ids, env);
            !s.aborted ==> Accounts(s, x, announced, |ids|, env.hasNotifier)
    decreases |ids|
  {
    if ids == [] {
      NothingFetched(x, announced, env.hasNotifier);
    } else {
      var before := SyncAll(Begin(x, announced), ids[..|ids| - 1], env);
      var n := |ids| - 1;
      SyncAccounts(x, announced, ids[..n], env);
      if !before.aborted {
        MessageAccounts(before, ids[n], env, n, x, announced, n);
        assert SyncAll(Begin(x, announced), ids, env) == SyncMessage(before, ids[n], env, n);
      }
    }
  }

  lemma {:induction false} NothingFetched(x: Inbox, announced: seq<nat>, hasNotifier: bool)
    ensures Accounts(Begin(x, announced), x, announced, 0, hasNotifier)
  {}

  /******* Sources and candidates *******/

  ghost predicate UniqueSources(sources: seq<Source>) {
    forall i, j :: 0 <= i < j < |sources| ==>
      sources[i].sourceType != sources[j].sourceType || sources[i].externalId != sources[j].externalId
  }

  /** Each source has at most one candidate row. */
  ghost predicate UniqueCandidates(x: Inbox) {
    && (forall i, j :: 0 <= i < j < |x.candidates| ==> x.candidates[i].source != x.candidates[j].source)
    && (forall i :: 0 <= i < |x.candidates| ==> x.candidates[i].source < |x.sources|)
  }

  ghost predicate SoundInbox(x: Inbox) {
    UniqueSources(x.sources) && UniqueCandidates(x)
  }

  /** Source rows keep their identity. */
  ghost predicate Extends(a: seq<Source>, b: seq<Source>) {
    && |a| <= |b|
    && forall i :: 0 <= i < |a| ==> b[i].sourceType == a[i].sourceType && b[i].externalId == a[i].externalId
  }

  /** Source rows keep their identity, and settled ones stay settled. */
  ghost predicate Advances(a: seq<Source>, b: seq<Source>) {
    Extends(a, b) && forall i :: 0 <= i < |a| && IsSettled(a[i]) ==> IsSettled(b[i])
  }

  lemma {:induction false} AdvancesTransitive(a: seq<Source>, b: seq<Source>, c: seq<Source>)
    requires Advances(a, b) && Advances(b, c)
    ensures Advances(a, c)
  {}

  lemma UpsertUnique(x: Inbox, i: nat, c: Classification, p: Payload)
    requires UniqueCandidates(x) && i < |x.sources|
    ensures UniqueCandidates(x.(candidates := Upsert(x.candidates, i, c, p)))
  {}

  lemma MarksUnique(x: Inbox, i: nat)
    requires UniqueCandidates(x)
    ensures UniqueCandidates(x.(candidates := MarkNotified(x.candidates, i)))
    ensures UniqueCandidates(x.(candidates := MarkUnnotified(x.candidates, i)))
    ensures UniqueCandidates(x.(candidates := MarkRejected(x.candidates, i)))
    ensures forall id: nat :: UniqueCandidates(x.(candidates := MarkConfirmed(x.candidates, i, id)))
  {}

  lemma SetSourceSound(x: Inbox, i: nat, s: Source)
    requires SoundInbox(x) && i < |x.sources|
    requires s.sourceType == x.sources[i].sourceType && s.externalId == x.sources[i].externalId
    ensures SoundInbox(SetSource(x, i, s)) && Extends(x.sources, SetSource(x, i, s).sources)
    ensures (IsSettled(x.sources[i]) ==> IsSettled(s)) ==> Advances(x.sources, SetSource(x, i, s).sources)
  {}

  lemma AddSourceSound(x: Inbox, s: Source)
    requires SoundInbox(x)
    requires FindSource(x.sources, s.sourceType, s.externalId).None?
    ensures SoundInbox(x.(sources := x.sources + [s]))
    ensures Advances(x.sources, x.sources + [s])
  {
    assert forall i :: 0 <= i < |x.sources| ==> !Matches(x.sources[i], s.sourceType, s.externalId);
  }

  ghost predicate AreRows(announced: seq<nat>, x: Inbox) {
    forall k :: 0 <= k < |announced| ==> announced[k] < |x.sources|
  }

  ghost predicate SoundSync(s: Sync) {
    SoundInbox(s.inbox) && AreRows(s.announced, s.inbox)
  }

  lemma ProposeSound(s: Sync, i: nat, c: Classification, p: Payload, hasNotifier: bool, a: Announcement)
    requires SoundSync(s) && i < |s.inbox.sources| && !IsSettled(s.inbox.sources[i])
    ensures SoundSync(Propose(s, i, c, p, hasNotifier, a))
    ensures Advances(s.inbox.sources, Propose(s, i, c, p, hasNotifier, a).inbox.sources)
  {
    var source := s.inbox.sources[i].(status := Processed, classification := Some(c), candidate := Some(p));
    var x := SetSource(s.inbox, i, source);
    SetSourceSound(s.inbox, i, source);
    UpsertUnique(x, i, c, p);
    var y := x.(candidates := Upsert(x.candidates, i, c, p));
    MarksUnique(y, i);
    if hasNotifier && a.Bounced? {
      var failed := source.(status := Failed);
      SetSourceSound(s.inbox, i, failed);
      assert x.sources[i := failed] == s.inbox.sources[i := failed];
    }
  }

  lemma ProcessSound(s: Sync, i: nat, mail: Mail, env: Surroundings, k: nat)
    requires SoundSync(s) && i < |s.inbox.sources| && !IsSettled(s.inbox.sources[i])
    ensures SoundSync(Process(s, i, mail, env, k))
    ensures Advances(s.inbox.sources, Process(s, i, mail, env, k).inbox.sources)
    ensures Process(s, i, mail, env, k).current == s.current
  {
    match Judge(mail, env.hasModel)
    case Filtered => SetSourceSound(s.inbox, i, s.inbox.sources[i].(status := Ignored));
    case Unprocessable => SetSourceSound(s.inbox, i, s.inbox.sources[i].(status := Failed));
    case NoTask(c) =>
      SetSourceSound(s.inbox, i, s.inbox.sources[i].(status := Processed, classification := Some(c)));
    case Proposes(c, p) => ProposeSound(s, i, c, p, env.hasNotifier, env.announce(k));
  }

  /** Since its start the sync has left settled sources settled, and the row it
      holds was not settled then. */
  ghost predicate Keeps(start: seq<Source>, s: Sync) {
    && Advances(start, s.inbox.sources)
    && (s.current.Row? ==>
          s.current.index < |s.inbox.sources| && (s.current.index < |start| ==> !IsSettled(start[s.current.index])))
  }

  lemma UnreadSound(start: seq<Source>, s: Sync)
    requires SoundSync(s) && Keeps(start, s)
    ensures SoundSync(CountUnread(s)) && Keeps(start, CountUnread(s))
    ensures Extends(s.inbox.sources, CountUnread(s).inbox.sources)
  {
    if s.current.Row? {
      var i := s.current.index;
      SetSourceSound(s.inbox, i, s.inbox.sources[i].(status := Failed));
    }
  }

  lemma {:induction false} MessageSound(start: seq<Source>, s: Sync, id: string, env: Surroundings, k: nat)
    requires SoundSync(s) && Keeps(start, s)
    ensures SoundSync(SyncMessage(s, id, env, k)) && Keeps(start, SyncMessage(s, id, env, k))
    ensures Extends(s.inbox.sources, SyncMessage(s, id, env, k).inbox.sources)
  {
    var existing := FindSource(s.inbox.sources, Gmail, id);
    if existing.Some? && IsSettled(s.inbox.sources[existing.value]) {
    } else if env.fetch(k).None? {
      UnreadSound(start, s);
    } else {
      var mail := env.fetch(k).value;
      if existing.Some? {
        ProcessSound(s.(current := Row(existing.value)), existing.value, mail, env, k);
        AdvancesTransitive(start, s.inbox.sources, SyncMessage(s, id, env, k).inbox.sources);
      } else if FindSource(s.inbox.sources, Gmail, mail.messageId).None? {
        var i := |s.inbox.sources|;
        AddSourceSound(s.inbox, NewGmailSource(mail.messageId));
        var stored := StoreMessage(s, mail.messageId).(current := Row(i));
        ProcessSound(stored, i, mail, env, k);
        AdvancesTransitive(s.inbox.sources, stored.inbox.sources, SyncMessage(s, id, env, k).inbox.sources);
        AdvancesTransitive(start, s.inbox.sources, SyncMessage(s, id, env, k).inbox.sources);
      }
    }
  }

  lemma {:induction false} SyncSound(start: seq<Source>, s: Sync, ids: seq<string>, env: Surroundings)
    requires SoundSync(s) && Keeps(start, s)
    ensures SoundSync(SyncAll(s, ids, env)) && Keeps(start, SyncAll(s, ids, env))
    decreases |ids|
  {
    if ids != [] {
      var before := SyncAll(s, ids[..|ids| - 1], env);
      SyncSound(start, s, ids[..|ids| - 1], env);
      if !before.aborted {
        MessageSound(start, before, ids[|ids| - 1], env, |ids| - 1);
      }
    }
  }

  /******* Tasks and links *******/

  /** The number of links to a source. */
  function CountLinks(links: seq<Link>, source: nat): nat {
    if links == [] then 0
    else CountLinks(links[..|links| - 1], source) + if links[|links| - 1].source == source then 1 else 0
  }

  /** The number of links of a task. */
  function CountTaskLinks(links: seq<Link>, id: nat): nat {
    if links == [] then 0
    else CountTaskLinks(links[..|links| - 1], id) + if links[|links| - 1].task == id then 1 else 0
  }

  /** A link of a candidate's task leads to the candidate's source. */
  predicate LeadsBack(link: Link, task: Task) {
    task.key.CandidateCreate? ==> link.source == task.key.source
  }

  /** Links join tasks and sources that exist; a task has at most one, and a
      candidate's task has one, which leads to its source. */
  ghost predicate SoundLinks(s: Store, sources: nat) {
    && (forall k :: 0 <= k < |s.links| ==>
          && s.links[k].task < |s.tasks| && s.links[k].source < sources
          && LeadsBack(s.links[k], s.tasks[s.links[k].task]))
    && (forall id :: 0 <= id < |s.tasks| ==> CountTaskLinks(s.links, id) <= 1)
    && (forall id :: 0 <= id < |s.tasks| && s.tasks[id].key.CandidateCreate? ==> CountTaskLinks(s.links, id) == 1)
    && (forall i: nat :: KeyRecorded(s.events, CandidateCreate(i)) ==> HasTaskKey(s.tasks, CandidateCreate(i)))
  }

  ghost predicate Sound(w: World) {
    && SoundInbox(w.inbox) && AreRows(w.announced, w.inbox)
    && TaskHistory.Valid(w.store)
    && SoundLinks(w.store, |w.inbox.sources|)
  }

  lemma EmptyIsSound()
    ensures Sound(Start)
  {}

  lemma KeyAppend(tasks: seq<Task>, task: Task, key: OpKey)
    ensures HasTaskKey(tasks + [task], key) <==> HasTaskKey(tasks, key) || task.key == key
  {
    if HasTaskKey(tasks, key) {
      var i :| 0 <= i < |tasks| && tasks[i].key == key;
      assert (tasks + [task])[i].key == key;
    }
    if task.key == key {
      assert (tasks + [task])[|tasks|].key == key;
    }
  }

  lemma KeyUpdate(tasks: seq<Task>, id: nat, task: Task, key: OpKey)
    requires id < |tasks| && task.key == tasks[id].key
    ensures HasTaskKey(tasks[id := task], key) <==> HasTaskKey(tasks, key)
  {
    if HasTaskKey(tasks, key) {
      var i :| 0 <= i < |tasks| && tasks[i].key == key;
      assert tasks[id := task][i].key == key;
    }
  }

  lemma NoLinksOf(links: seq<Link>, id: nat)
    requires forall k :: 0 <= k < |links| ==> links[k].task != id
    ensures CountTaskLinks(links, id) == 0
  {}

  /** The key under which a create records its task. */
  function CreateKey(data: NewTask, generated: nat): OpKey {
    if data.key.Some? then data.key.value else Generated(generated)
  }

  /** Links, counted for each task, after the next task is added with its link. */
  ghost predicate AddsTask(s: Store, s': Store, task: Task, source: Option<nat>) {
    && s'.tasks == s.tasks + [task]
    && s'.links == if source.Some? then s.links + [Link(|s.tasks|, source.value)] else s.links
  }

  lemma AddedTaskLinks(s: Store, s': Store, task: Task, source: Option<nat>, id: nat)
    requires forall k :: 0 <= k < |s.links| ==> s.links[k].task < |s.tasks|
    requires AddsTask(s, s', task, source)
    ensures CountTaskLinks(s'.links, id)
         == if id == |s.tasks| then (if source.Some? then 1 else 0) else CountTaskLinks(s.links, id)
  {
    NoLinksOf(s.links, |s.tasks|);
    if source.Some? {
      assert s'.links[..|s'.links| - 1] == s.links;
    }
  }

  lemma AddedTaskKeepsLinks(s: Store, s': Store, task: Task, source: Option<nat>, sources: nat)
    requires SoundLinks(s, sources) && AddsTask(s, s', task, source)
    requires source.Some? ==> source.value < sources
    requires task.key.CandidateCreate? ==> source == Some(task.key.source)
    requires forall i: nat :: KeyRecorded(s'.events, CandidateCreate(i)) ==> HasTaskKey(s'.tasks, CandidateCreate(i))
    ensures SoundLinks(s', sources)
  {
    forall id | 0 <= id < |s'.tasks|
      ensures CountTaskLinks(s'.links, id) <= 1
      ensures s'.tasks[id].key.CandidateCreate? ==> CountTaskLinks(s'.links, id) == 1
    {
      AddedTaskLinks(s, s', task, source, id);
    }
    forall k | 0 <= k < |s'.links|
      ensures && s'.links[k].task < |s'.tasks| && s'.links[k].source < sources
              && LeadsBack(s'.links[k], s'.tasks[s'.links[k].task])
    {
      if k < |s.links| {
        assert LeadsBack(s.links[k], s.tasks[s.links[k].task]);
      }
    }
  }

  lemma CreateKeepsLinks(s: Store, data: NewTask, generated: nat, sources: nat)
    requires SoundLinks(s, sources)
    requires var key := CreateKey(data, generated); key.CandidateCreate? ==> data.source == Some(key.source)
    ensures SoundLinks(Create(s, data, generated, sources).store, sources)
  {
    var s' := Create(s, data, generated, sources).store;
    if |s'.tasks| > |s.tasks| {
      CreateKeepsKeys(s, s', s'.events[|s.events|]);
      AddedTaskKeepsLinks(s, s', s'.tasks[|s.tasks|], data.source, sources);
    }
  }

  lemma CreateKeepsKeys(s: Store, s': Store, e: Event)
    requires forall i: nat :: KeyRecorded(s.events, CandidateCreate(i)) ==> HasTaskKey(s.tasks, CandidateCreate(i))
    requires s'.events == s.events + [e] && |s'.tasks| == |s.tasks| + 1 && s'.tasks[..|s.tasks|] == s.tasks
    requires e.key == Some(s'.tasks[|s.tasks|].key)
    ensures forall i: nat :: KeyRecorded(s'.events, CandidateCreate(i)) ==> HasTaskKey(s'.tasks, CandidateCreate(i))
  {
    var task := s'.tasks[|s.tasks|];
    assert s'.tasks == s.tasks + [task];
    forall i: nat | KeyRecorded(s'.events, CandidateCreate(i))
      ensures HasTaskKey(s'.tasks, CandidateCreate(i))
    {
      KeyAppend(s.tasks, task, CandidateCreate(i));
      TaskHistory.RecordedAppend(s.events, e, CandidateCreate(i));
    }
  }

  lemma OrdinaryRecordsNoCandidate(s: Store, op: Op, i: nat)
    requires IsOrdinary(op)
    ensures KeyRecorded(Step(s, op).events, CandidateCreate(i)) ==> KeyRecorded(s.events, CandidateCreate(i))
  {
    var events := Step(s, op).events;
    if events != s.events {
      TaskHistory.RecordedAppend(s.events, events[|s.events|], CandidateCreate(i));
    }
  }

  lemma OrdinaryKeepsLinks(s: Store, op: Op, sources: nat)
    requires SoundLinks(s, sources) && IsOrdinary(op) && (op.OpCreate? ==> op.sources == sources)
    ensures SoundLinks(Step(s, op), sources)
  {
    var s' := Step(s, op);
    match op
    case OpCreate(data, generated, _) => CreateKeepsLinks(s, data, generated, sources);
    case _ =>
      if s' != s {
        var id := op.id;
        assert s'.tasks == s.tasks[id := s'.tasks[id]];
        forall i: nat | KeyRecorded(s'.events, CandidateCreate(i))
          ensures HasTaskKey(s'.tasks, CandidateCreate(i))
        {
          KeyUpdate(s.tasks, id, s'.tasks[id], CandidateCreate(i));
          OrdinaryRecordsNoCandidate(s, op, i);
        }
      }
  }

  lemma MoreSourcesKeepLinks(s: Store, sources: nat, sources': nat)
    requires SoundLinks(s, sources) && sources <= sources'
    ensures SoundLinks(s, sources')
  {}

  /******* Steps and runs *******/

  lemma IgnoreSound(w: World, i: nat)
    requires Sound(w)
    ensures Sound(IgnorePress(w, i)) && Advances(w.inbox.sources, IgnorePress(w, i).inbox.sources)
  {
    if i < |w.inbox.sources| {
      SetSourceSound(w.inbox, i, w.inbox.sources[i].(status := Ignored));
      MarksUnique(WithStatus(w.inbox, i, Ignored), i);
    }
  }

  lemma CreateSound(w: World, i: nat)
    requires Sound(w)
    ensures Sound(CreatePress(w, i)) && Advances(w.inbox.sources, CreatePress(w, i).inbox.sources)
  {
    if i < |w.inbox.sources| && w.inbox.sources[i].candidate.Some? {
      var data := CandidateTask(i, w.inbox.sources[i].candidate.value);
      var o := Create(w.store, data, 0, |w.inbox.sources|);
      CreateKeepsLinks(w.store, data, 0, |w.inbox.sources|);
      TaskHistory.StepKeepsValid(w.store, OpCreate(data, 0, |w.inbox.sources|));
      if o.reply.Ok? {
        var source := w.inbox.sources[i].(confirmed := true);
        SetSourceSound(w.inbox, i, source);
        MarksUnique(SetSource(w.inbox, i, source), i);
      }
    }
  }

  lemma TextSound(w: World, id: string, c: Classification, p: Payload, replied: bool)
    requires Sound(w)
    ensures Sound(FreeText(w, id, c, p, replied))
    ensures Advances(w.inbox.sources, FreeText(w, id, c, p, replied).inbox.sources)
  {
    var pending := PendingSource(w.inbox.sources);
    if pending.Some? {
      RewriteSound(w.inbox, pending.value, c, p);
    } else if FindSource(w.inbox.sources, Telegram, id).None? {
      var x := w.inbox.(sources := w.inbox.sources + [NewTelegramSource(id)]);
      AddSourceSound(w.inbox, NewTelegramSource(id));
      RewriteSound(x, |w.inbox.sources|, c, p);
      AdvancesTransitive(w.inbox.sources, x.sources, FreeText(w, id, c, p, replied).inbox.sources);
      MoreSourcesKeepLinks(w.store, |w.inbox.sources|, |x.sources|);
    }
  }

  lemma RewriteSound(x: Inbox, i: nat, c: Classification, p: Payload)
    requires SoundInbox(x) && i < |x.sources|
    ensures var s := x.sources[i].(status := Processed, classification := Some(c), candidate := Some(p));
            var x' := Inbox(x.sources[i := s], Upsert(x.candidates, i, c, p));
            && SoundInbox(x') && Advances(x.sources, x'.sources)
            && SoundInbox(x'.(candidates := MarkNotified(x'.candidates, i)))
  {
    var s := x.sources[i].(status := Processed, classification := Some(c), candidate := Some(p));
    SetSourceSound(x, i, s);
    UpsertUnique(SetSource(x, i, s), i, c, p);
    MarksUnique(Inbox(x.sources[i := s], Upsert(x.candidates, i, c, p)), i);
  }

  lemma StepKeepsSound(w: World, step: InboxStep)
    requires Sound(w) && Enabled(w, step)
    ensures Sound(Next(w, step)) && Advances(w.inbox.sources, Next(w, step).inbox.sources)
  {
    match step
    case SyncStep(_, ids, env) =>
      SyncSound(w.inbox.sources, Begin(w.inbox, w.announced), ids, env);
      MoreSourcesKeepLinks(w.store, |w.inbox.sources|, |Next(w, step).inbox.sources|);
    case IgnoreStep(i) => IgnoreSound(w, i);
    case EditStep(i) =>
      if i < |w.inbox.sources| {
        SetSourceSound(w.inbox, i, w.inbox.sources[i].(awaitingEdit := true));
      }
    case CreateStep(i) => CreateSound(w, i);
    case TextStep(id, c, p, replied) => TextSound(w, id, c, p, replied);
    case TaskStep(op) =>
      OrdinaryKeepsLinks(w.store, op, |w.inbox.sources|);
      TaskHistory.StepKeepsValid(w.store, op);
  }

  /** Over any run of syncs, presses, free text and task operations, no step takes a
      source out of {PROCESSED, IGNORED}, and each step keeps what `Sound` says. */
  lemma {:induction false} RunKeepsSound(w: World, steps: seq<InboxStep>)
    requires Sound(w) && IsRun(w, steps)
    ensures Sound(After(w, steps)) && Advances(w.inbox.sources, After(w, steps).inbox.sources)
    decreases |steps|
  {
    if steps != [] {
      var front := steps[..|steps| - 1];
      RunKeepsSound(w, front);
      StepKeepsSound(After(w, front), steps[|steps| - 1]);
      AdvancesTransitive(w.inbox.sources, After(w, front).inbox.sources, After(w, steps).inbox.sources);
    }
  }

  /** From the start: a message has at most one candidate row, and at most one task is
      created from its candidate, which then has exactly one link, leading to that
      message. */
  lemma OneOfEachPerSource(steps: seq<InboxStep>, source: nat)
    requires IsRun(Start, steps)
    ensures var w := After(Start, steps);
            && (forall j, k :: 0 <= j < k < |w.inbox.candidates| ==>
                  !(w.inbox.candidates[j].source == source && w.inbox.candidates[k].source == source))
            && (forall j, k :: 0 <= j < k < |w.store.tasks| ==>
                  !(w.store.tasks[j].key == CandidateCreate(source) && w.store.tasks[k].key == CandidateCreate(source)))
            && (forall id :: 0 <= id < |w.store.tasks| && w.store.tasks[id].key == CandidateCreate(source) ==>
                  && CountTaskLinks(w.store.links, id) == 1
                  && forall k :: 0 <= k < |w.store.links| && w.store.links[k].task == id ==>
                       w.store.links[k].source == source)
  {
    EmptyIsSound();
    RunKeepsSound(Start, steps);
    var w := After(Start, steps);
    assert forall k :: 0 <= k < |w.store.links| ==> LeadsBack(w.store.links[k], w.store.tasks[w.store.links[k].task]);
  }

  /** The task that the create button makes is the candidate as last corrected; once
      a task was made, later corrections and presses leave the tasks alone. */
  lemma {:induction false} CreatedTaskIsLastCandidate(w: World, i: nat, id: string, c: Classification, p: Payload,
                                                      replied: bool)
    requires Sound(w) && PendingSource(w.inbox.sources) == Some(i)
    ensures var w' := CreatePress(FreeText(w, id, c, p, replied), i);
            if HasTaskKey(w.store.tasks, CandidateCreate(i)) then w'.store == w.store
            else
              && w'.store.tasks == w.store.tasks + [Task(CandidateFields(p), 1, None, None, CandidateCreate(i))]
              && w'.store.links == w.store.links + [Link(|w.store.tasks|, i)]
              && exists j :: 0 <= j < |w'.inbox.candidates| && w'.inbox.candidates[j].source == i
                   && w'.inbox.candidates[j].payload == p && w'.inbox.candidates[j].status == Confirmed
                   && w'.inbox.candidates[j].task == Some(|w.store.tasks|)
  {
    UpsertStores(w.inbox, i, c, p);
    var w1 := FreeText(w, id, c, p, replied);
    var w' := CreatePress(w1, i);
    var j := FindCandidate(w1.inbox.candidates, i).value;
    if !HasTaskKey(w.store.tasks, CandidateCreate(i)) {
      assert w'.inbox.candidates[j].source == i;
    }
  }

  lemma UpsertStores(x: Inbox, i: nat, c: Classification, p: Payload)
    requires UniqueCandidates(x)
    ensures var found := FindCandidate(Upsert(x.candidates, i, c, p), i);
            && found.Some? && Upsert(x.candidates, i, c, p)[found.value].payload == p
            && FindCandidate(MarkNotified(Upsert(x.candidates, i, c, p), i), i) == found
  {
    var candidates := Upsert(x.candidates, i, c, p);
    var before := FindCandidate(x.candidates, i);
    var k := if before.Some? then before.value else |x.candidates|;
    assert candidates[k].source == i && candidates[k].payload == p;
    MarkedIsFound(candidates, i);
  }

  /** Marking a candidate row does not change where it is found. */
  lemma MarkedIsFound(candidates: seq<Candidate>, i: nat)
    requires forall j, k :: 0 <= j < k < |candidates| ==> candidates[j].source != candidates[k].source
    ensures FindCandidate(MarkNotified(candidates, i), i) == FindCandidate(candidates, i)
  {
    var found := FindCandidate(candidates, i);
    if found.Some? {
      assert MarkNotified(candidates, i)[found.value].source == i;
    }
  }

  /******* The source that awaits text *******/

  /** Which source awaits text depends on statuses and flags alone. */
  lemma {:induction false} SameAwaiting(a: seq<Source>, b: seq<Source>, limit: nat)
    requires |a| == |b|
    requires forall i :: 0 <= i < |a| ==> a[i].status == b[i].status && a[i].awaitingEdit == b[i].awaitingEdit
    ensures LatestAwaiting(a, limit) == LatestAwaiting(b, limit)
    decreases |a|
  {
    if a != [] && limit > 0 {
      SameAwaiting(a[..|a| - 1], b[..|b| - 1], limit);
      SameAwaiting(a[..|a| - 1], b[..|b| - 1], limit - 1);
    }
  }

  /** The source of `w` that awaits text, with the given candidate, and nothing else
      of the sources changed. */
  ghost predicate IsRewritten(w: World, w': World, i: nat, p: Payload) {
    && i < |w.inbox.sources| == |w'.inbox.sources|
    && w'.inbox.sources[i].candidate == Some(p)
    && (forall j :: 0 <= j < |w.inbox.sources| && j != i ==> w'.inbox.sources[j] == w.inbox.sources[j])
    && PendingSource(w'.inbox.sources) == Some(i)
  }

  lemma TextRewrites(w: World, i: nat, id: string, c: Classification, p: Payload, replied: bool)
    requires PendingSource(w.inbox.sources) == Some(i)
    ensures IsRewritten(w, FreeText(w, id, c, p, replied), i, p)
  {
    SameAwaiting(w.inbox.sources, FreeText(w, id, c, p, replied).inbox.sources, PENDING_LIMIT);
  }

  /** The request to correct a candidate is never cleared: from then on every text
      that proposes a task rewrites the same source, the last one counts, and none is
      stored as a message of its own. */
  lemma {:induction false} TextsRewriteTheSame(w: World, i: nat, steps: seq<InboxStep>)
    requires PendingSource(w.inbox.sources) == Some(i) && steps != []
    requires forall k :: 0 <= k < |steps| ==> steps[k].TextStep?
    ensures IsRewritten(w, After(w, steps), i, steps[|steps| - 1].payload)
    decreases |steps|
  {
    var front, step := steps[..|steps| - 1], steps[|steps| - 1];
    assert step.TextStep?;
    if front != [] {
      TextsRewriteTheSame(w, i, front);
    }
    TextRewrites(After(w, front), i, step.externalId, step.classification, step.payload, step.replied);
  }

  /******* Tasks *******/

  /** Mail never creates a task by itself: over any run without create presses and
      without operations from elsewhere, the task tables stay as they were. */
  lemma {:induction false} OnlyCreateTouchesTasks(w: World, steps: seq<InboxStep>)
    requires IsRun(w, steps)
    requires forall k :: 0 <= k < |steps| ==> !steps[k].CreateStep? && !steps[k].TaskStep?
    ensures After(w, steps).store == w.store
    decreases |steps|
  {
    if steps != [] {
      OnlyCreateTouchesTasks(w, steps[..|steps| - 1]);
      assert !steps[|steps| - 1].CreateStep? && !steps[|steps| - 1].TaskStep?;
    }
  }

  /******* Links of a source *******/

  /** The step is an API create that names the source and makes a task: the source
      exists and the key of the task is new. */
  predicate NamesSource(w: World, step: InboxStep, source: nat) {
    && step.TaskStep? && step.op.OpCreate?
    && step.op.data.source == Some(source) && source < |w.inbox.sources|
    && var key := CreateKey(step.op.data, step.op.generated);
       !HasTaskKey(w.store.tasks, key) && !KeyRecorded(w.store.events, key)
  }

  /** Step `k` of the run is an API create that names the source and makes a task. */
  predicate NamesAt(w: World, steps: seq<InboxStep>, k: nat, source: nat)
    requires k < |steps|
  {
    NamesSource(After(w, steps[..k]), steps[k], source)
  }

  /** The number of such steps. */
  function NamingSteps(w: World, steps: seq<InboxStep>, source: nat): nat
    decreases |steps|
  {
    if steps == [] then 0
    else NamingSteps(w, steps[..|steps| - 1], source) + if NamesAt(w, steps, |steps| - 1, source) then 1 else 0
  }

  /** 1 if a task was created from the candidate of the source, else 0. */
  function CandidateTasks(s: Store, source: nat): nat {
    if HasTaskKey(s.tasks, CandidateCreate(source)) then 1 else 0
  }

  lemma CreateAddsLink(s: Store, data: NewTask, generated: nat, sources: nat, source: nat)
    requires var key := CreateKey(data, generated); key.CandidateCreate? ==> data.source == Some(key.source)
    requires data.source.Some? ==> data.source.value < sources
    ensures var s' := Create(s, data, generated, sources).store;
            var key := CreateKey(data, generated);
            var made := !HasTaskKey(s.tasks, key) && !KeyRecorded(s.events, key) && data.source == Some(source);
            && CountLinks(s'.links, source) == CountLinks(s.links, source) + (if made then 1 else 0)
            && CandidateTasks(s', source)
               == CandidateTasks(s, source) + if made && key == CandidateCreate(source) then 1 else 0
  {
    var s' := Create(s, data, generated, sources).store;
    if |s'.tasks| > |s.tasks| {
      assert s'.tasks == s.tasks + [s'.tasks[|s.tasks|]];
      KeyAppend(s.tasks, s'.tasks[|s.tasks|], CandidateCreate(source));
      if data.source.Some? {
        assert s'.links[..|s'.links| - 1] == s.links;
      }
    }
  }

  lemma OtherKeepsLinks(s: Store, op: Op, source: nat)
    requires !op.OpCreate?
    ensures Step(s, op).links == s.links && CandidateTasks(Step(s, op), source) == CandidateTasks(s, source)
  {
    var s' := Step(s, op);
    if s' != s {
      assert s'.tasks == s.tasks[op.id := s'.tasks[op.id]];
      KeyUpdate(s.tasks, op.id, s'.tasks[op.id], CandidateCreate(source));
    }
  }

  /** A step adds a link to the source when it creates the task of its candidate,
      or when it is an API create that names it. */
  lemma StepLinks(w: World, step: InboxStep, source: nat)
    requires Enabled(w, step)
    ensures CountLinks(Next(w, step).store.links, source) + CandidateTasks(w.store, source)
         == CountLinks(w.store.links, source) + CandidateTasks(Next(w, step).store, source)
            + if NamesSource(w, step, source) then 1 else 0
  {
    match step
    case CreateStep(i) =>
      if i < |w.inbox.sources| && w.inbox.sources[i].candidate.Some? {
        CreateAddsLink(w.store, CandidateTask(i, w.inbox.sources[i].candidate.value), 0, |w.inbox.sources|, source);
      }
    case TaskStep(op) =>
      if !op.OpCreate? {
        OtherKeepsLinks(w.store, op, source);
      } else if op.data.source.None? || op.data.source.value < |w.inbox.sources| {
        CreateAddsLink(w.store, op.data, op.generated, op.sources, source);
      }
    case _ =>
  }

  lemma {:induction false} LinksCounted(w: World, steps: seq<InboxStep>, source: nat)
    requires IsRun(w, steps)
    ensures CountLinks(After(w, steps).store.links, source) + CandidateTasks(w.store, source)
         == CountLinks(w.store.links, source) + CandidateTasks(After(w, steps).store, source)
            + NamingSteps(w, steps, source)
    decreases |steps|
  {
    if steps != [] {
      LinksCounted(w, steps[..|steps| - 1], source);
      StepLinks(After(w, steps[..|steps| - 1]), steps[|steps| - 1], source);
    }
  }

  lemma NamesAtFront(w: World, steps: seq<InboxStep>, k: nat, source: nat)
    requires k < |steps| - 1
    ensures NamesAt(w, steps, k, source) == NamesAt(w, steps[..|steps| - 1], k, source)
  {
    assert steps[..|steps| - 1][..k] == steps[..k];
  }

  ghost predicate NeverNames(w: World, steps: seq<InboxStep>, source: nat) {
    forall k :: 0 <= k < |steps| ==> !NamesAt(w, steps, k, source)
  }

  lemma NeverNamesFront(w: World, steps: seq<InboxStep>, source: nat)
    requires steps != []
    ensures NeverNames(w, steps, source) <==>
            NeverNames(w, steps[..|steps| - 1], source) && !NamesAt(w, steps, |steps| - 1, source)
  {
    var front := steps[..|steps| - 1];
    forall k: nat | k < |front|
      ensures NamesAt(w, front, k, source) == NamesAt(w, steps, k, source)
    {
      NamesAtFront(w, steps, k, source);
    }
  }

  lemma {:induction false} NothingNames(w: World, steps: seq<InboxStep>, source: nat)
    ensures NamingSteps(w, steps, source) == 0 <==> NeverNames(w, steps, source)
    decreases |steps|
  {
    if steps != [] {
      NothingNames(w, steps[..|steps| - 1], source);
      NeverNamesFront(w, steps, source);
    }
  }

  /** From the start, a source has one link if a task was created from its candidate
      and otherwise none, if and only if no API create that names it made a task;
      each such create adds one link. */
  lemma OneLinkPerSourceExactly(steps: seq<InboxStep>, source: nat)
    requires IsRun(Start, steps)
    ensures var start := Start;
            var s := After(start, steps).store;
            && CountLinks(s.links, source) == CandidateTasks(s, source) + NamingSteps(start, steps, source)
            && (CountLinks(s.links, source) == CandidateTasks(s, source) <==>
                forall k :: 0 <= k < |steps| ==> !NamesAt(start, steps, k, source))
  {
    LinksCounted(Start, steps, source);
    NothingNames(Start, steps, source);
  }

  lemma ThreeSteps(w: World, a: InboxStep, b: InboxStep, c: InboxStep)
    ensures After(w, [a, b, c]) == Next(Next(Next(w, a), b), c)
    ensures Enabled(w, a) && Enabled(Next(w, a), b) && Enabled(Next(Next(w, a), b), c) ==> IsRun(w, [a, b, c])
  {
    assert [a, b, c][..2] == [a, b] && [a, b][..1] == [a] && [a][..0] == [];
    assert After(w, [a]) == Next(w, a);
    assert After(w, [a, b]) == Next(Next(w, a), b);
    assert IsRun(w, []);
    assert Enabled(w, a) ==> IsRun(w, [a]);
    assert Enabled(w, a) && Enabled(Next(w, a), b) ==> IsRun(w, [a, b]);
  }

  const ExamplePayload := Payload("t", None, MyTask, P3, None, None, None, Unknown)

  /** A task created from message 0 through the API. */
  const ExampleCreate := OpCreate(NewTask(CandidateFields(ExamplePayload), Some(Api("k")), Some(0)), 0, 1)

  lemma ButtonAfterApi(w: World)
    requires |w.inbox.sources| == 1 && w.inbox.sources[0].candidate == Some(ExamplePayload) && w.store == Empty
    ensures Next(Next(w, TaskStep(ExampleCreate)), CreateStep(0)).store.links == [Link(0, 0), Link(1, 0)]
  {
    var w' := Next(w, TaskStep(ExampleCreate));
    assert w'.store.links == [Link(0, 0)];
    assert |w'.store.tasks| == 1 && w'.store.tasks[0].key == Api("k");
    assert |w'.store.events| == 1 && w'.store.events[0].key == Some(Api("k"));
  }

  /** One message, one task created from it through the API and one by the button:
      two links to the same source. */
  lemma TwoLinksToOneSource() returns (steps: seq<InboxStep>)
    ensures IsRun(Start, steps)
    ensures CountLinks(After(Start, steps).store.links, 0) == 2
  {
    var start := Start;
    var text := TextStep("m", TaskRequest, ExamplePayload, true);
    steps := [text, TaskStep(ExampleCreate), CreateStep(0)];
    ThreeSteps(start, text, TaskStep(ExampleCreate), CreateStep(0));
    ButtonAfterApi(Next(start, text));
    TwoLinks(Link(0, 0), Link(1, 0));
  }

  lemma TwoLinks(a: Link, b: Link)
    ensures CountLinks([a, b], 0) == (if a.source == 0 then 1 else 0) + if b.source == 0 then 1 else 0
  {
    assert [a, b][..1] == [a] && [a][..0] == [];
    assert CountLinks([a], 0) == if a.source == 0 then 1 else 0;
  }
}
