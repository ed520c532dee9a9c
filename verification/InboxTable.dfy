/** Source messages, task candidates, and the effect of a Gmail sync and of the
    owner's button presses on them. */
module InboxTable {
  import opened Wrappers
  import opened TaskStore

  datatype SourceType = Gmail | Telegram

  datatype ProcessingStatus = NewSource | Processed | Ignored | Failed

  datatype Classification =
    | TaskRequest | Delegation | AwaitingResult
    | CalendarEvent | ReminderRequest | StatusUpdate | TaskComplete | Information | Spam | Unclear

  /** A task proposed by the language model. */
  datatype Payload = Payload(
    title: string,
    description: Option<string>,
    taskType: TaskType,
    priority: Priority,
    assigneeName: Option<string>,
    dueAt: Option<int>,
    dueDate: Option<int>,
    duePrecision: DuePrecision)

  datatype Source = Source(
    sourceType: SourceType,
    externalId: string,
    status: ProcessingStatus,
    classification: Option<Classification>,
    candidate: Option<Payload>,
    awaitingEdit: bool,
    confirmed: bool)

  datatype CandidateStatus = Pending | Notified | Confirmed | Rejected

  /** The candidate row of a source; at most one per source. */
  datatype Candidate = Candidate(
    source: nat,
    classification: Classification,
    payload: Payload,
    status: CandidateStatus,
    notificationFailed: bool,
    task: Option<nat>)

  datatype Inbox = Inbox(sources: seq<Source>, candidates: seq<Candidate>)

  const EmptyInbox := Inbox([], [])

  /** A source that a sync does not look at again. */
  predicate IsSettled(s: Source) {
    s.status == Processed || s.status == Ignored
  }

  predicate IsTaskLike(c: Classification) {
    c == TaskRequest || c == Delegation || c == AwaitingResult
  }

  /******* Tables *******/

  predicate Matches(s: Source, sourceType: SourceType, externalId: string) {
    s.sourceType == sourceType && s.externalId == externalId
  }

  /** The row of a message, if it is stored. */
  function FindSource(sources: seq<Source>, sourceType: SourceType, externalId: string): (found: Option<nat>)
    ensures found.Some? ==> found.value < |sources| && Matches(sources[found.value], sourceType, externalId)
    ensures found.None? ==> forall i :: 0 <= i < |sources| ==> !Matches(sources[i], sourceType, externalId)
  {
    if sources == [] then None
    else if Matches(sources[|sources| - 1], sourceType, externalId) then Some(|sources| - 1)
    else FindSource(sources[..|sources| - 1], sourceType, externalId)
  }

  function FindCandidate(candidates: seq<Candidate>, source: nat): (found: Option<nat>)
    ensures found.Some? ==> found.value < |candidates| && candidates[found.value].source == source
    ensures found.None? ==> forall i :: 0 <= i < |candidates| ==> candidates[i].source != source
  {
    if candidates == [] then None
    else if candidates[|candidates| - 1].source == source then Some(|candidates| - 1)
    else FindCandidate(candidates[..|candidates| - 1], source)
  }

  function Upsert(candidates: seq<Candidate>, source: nat, c: Classification, p: Payload): seq<Candidate> {
    var found := FindCandidate(candidates, source);
    if found.None? then candidates + [Candidate(source, c, p, Pending, false, None)]
    else candidates[found.value := candidates[found.value].(classification := c, payload := p)]
  }

  /** The candidate rows after a change to the row of one source, if it has one;
      the row stays with its source. */
  function OnCandidate(candidates: seq<Candidate>, source: nat, change: Candidate -> Candidate): seq<Candidate> {
    var found := FindCandidate(candidates, source);
    if found.None? then candidates
    else candidates[found.value := change(candidates[found.value]).(source := source)]
  }

  /******* Gmail sync *******/

  datatype Rule = IgnoreRule | ClassifyRule(classification: Classification)

  datatype Parse = Unparsable | Parsed(classification: Classification, candidate: Option<Payload>)

  /** What is learnt about a fetched message: the sender filter's verdict, the
      matching rule if any, and what the language model would make of it. */
  datatype Mail = Mail(messageId: string, blocked: bool, rule: Option<Rule>, parse: Parse)

  /** How announcing a candidate ends: delivered, refused with a value error (which
      the sync takes for a malformed message), or failed otherwise. */
  datatype Announcement = Announced | Bounced | Broken

  /** The world around one sync, by position in the listing.  A message whose answer
      ends in a value error is not got. */
  datatype Surroundings = Surroundings(
    fetch: nat -> Option<Mail>,
    hasModel: bool,
    hasNotifier: bool,
    announce: nat -> Announcement)

  datatype Counts = Counts(
    stored: nat, duplicates: nat, ignored: nat, candidates: nat, failed: nat, processed: nat, notified: nat)

  const Zero := Counts(0, 0, 0, 0, 0, 0, 0)

  /** The variable in which the loop keeps the source of the message it is at: not
      assigned yet, null, or a row. */
  datatype Current = Unassigned | NoRow | Row(index: nat)

  /** A sync in progress.  `announced` lists the sources whose candidates
      Telegram took, and `bounced` counts announcements that ended in a value error. */
  datatype Sync = Sync(
    inbox: Inbox, counts: Counts, announced: seq<nat>, bounced: nat, current: Current, aborted: bool)

  function SetSource(x: Inbox, i: nat, s: Source): Inbox
    requires i < |x.sources|
  {
    x.(sources := x.sources[i := s])
  }

  function WithStatus(x: Inbox, i: nat, status: ProcessingStatus): Inbox
    requires i < |x.sources|
  {
    SetSource(x, i, x.sources[i].(status := status))
  }

  function NeedsExtraction(rule: Option<Rule>): bool {
    rule.Some? && rule.value.ClassifyRule? && IsTaskLike(rule.value.classification)
  }

  /** The verdict on a message: ignored outright, failed, processed without a
      candidate, or a candidate. */
  datatype Verdict =
    | Filtered
    | Unprocessable
    | NoTask(classification: Classification)
    | Proposes(classification: Classification, payload: Payload)

  function Judge(mail: Mail, hasModel: bool): Verdict {
    if mail.blocked then Filtered
    else if mail.rule == Some(IgnoreRule) then Filtered
    else if !hasModel && (mail.rule.None? || NeedsExtraction(mail.rule)) then Unprocessable
    else if mail.rule.Some? && !NeedsExtraction(mail.rule) then NoTask(mail.rule.value.classification)
    else match mail.parse
      case Unparsable => Unprocessable
      case Parsed(c, candidate) =>
        if candidate.None? || !IsTaskLike(c) then NoTask(c) else Proposes(c, candidate.value)
  }

  /** The candidate rows once the owner has seen the candidate of a source. */
  function MarkNotified(candidates: seq<Candidate>, source: nat): seq<Candidate> {
    OnCandidate(candidates, source, (r: Candidate) => r.(status := Notified, notificationFailed := false))
  }

  function MarkUnnotified(candidates: seq<Candidate>, source: nat): seq<Candidate> {
    OnCandidate(candidates, source, (r: Candidate) => r.(notificationFailed := true))
  }

  /** Recording a candidate for source `i` and announcing it. */
  function Propose(s: Sync, i: nat, c: Classification, p: Payload, hasNotifier: bool, a: Announcement): Sync
    requires i < |s.inbox.sources|
  {
    var source := s.inbox.sources[i].(status := Processed, classification := Some(c), candidate := Some(p));
    var inbox := Inbox(s.inbox.sources[i := source], Upsert(s.inbox.candidates, i, c, p));
    var n := s.counts.(candidates := s.counts.candidates + 1);
    if !hasNotifier then
      s.(inbox := inbox, counts := n.(processed := n.processed + 1))
    else match a
      case Announced =>
        s.(inbox := inbox.(candidates := MarkNotified(inbox.candidates, i)),
           counts := n.(notified := n.notified + 1, processed := n.processed + 1),
           announced := s.announced + [i])
      case Bounced =>
        s.(inbox := WithStatus(inbox.(candidates := MarkUnnotified(inbox.candidates, i)), i, Failed),
           counts := n.(failed := n.failed + 1),
           bounced := s.bounced + 1)
      case Broken =>
        s.(inbox := inbox.(candidates := MarkUnnotified(inbox.candidates, i)),
           counts := n,
           aborted := true)
  }

  /** Processing the fetched message stored as source `i`. */
  function Process(s: Sync, i: nat, mail: Mail, env: Surroundings, k: nat): Sync
    requires i < |s.inbox.sources|
  {
    var n := s.counts;
    match Judge(mail, env.hasModel)
    case Filtered =>
      s.(inbox := WithStatus(s.inbox, i, Ignored), counts := n.(ignored := n.ignored + 1))
    case Unprocessable =>
      s.(inbox := WithStatus(s.inbox, i, Failed), counts := n.(failed := n.failed + 1))
    case NoTask(c) =>
      s.(inbox := SetSource(s.inbox, i, s.inbox.sources[i].(status := Processed, classification := Some(c))),
         counts := n.(processed := n.processed + 1, ignored := n.ignored + 1))
    case Proposes(c, p) =>
      Propose(s, i, c, p, env.hasNotifier, env.announce(k))
  }

  function NewGmailSource(id: string): Source {
    Source(Gmail, id, NewSource, None, None, false, false)
  }

  /** A message stored for the first time. */
  function StoreMessage(s: Sync, id: string): Sync {
    s.(inbox := s.inbox.(sources := s.inbox.sources + [NewGmailSource(id)]),
       counts := s.counts.(stored := s.counts.stored + 1))
  }

  function CountDuplicate(s: Sync): Sync {
    s.(counts := s.counts.(duplicates := s.counts.duplicates + 1))
  }

  function MarkFailed(x: Inbox, i: nat): Inbox {
    if i < |x.sources| then WithStatus(x, i, Failed) else x
  }

  /** A message that could not be got is taken for a malformed one.  The handler
      marks the source that the loop still holds, which is that of the message got
      before; if no message was got before, the handler itself fails. */
  function CountUnread(s: Sync): Sync {
    var n := s.counts.(failed := s.counts.failed + 1);
    match s.current
    case Unassigned => s.(aborted := true)
    case NoRow => s.(counts := n)
    case Row(i) => s.(inbox := MarkFailed(s.inbox, i), counts := n)
  }

  /** One listed message, at position `k` of the listing. */
  function SyncMessage(s: Sync, id: string, env: Surroundings, k: nat): Sync {
    var existing := FindSource(s.inbox.sources, Gmail, id);
    if existing.Some? && IsSettled(s.inbox.sources[existing.value]) then CountDuplicate(s)
    else match env.fetch(k)
      case None => CountUnread(s)
      case Some(mail) =>
        if existing.Some? then
          Process(s.(current := Row(existing.value)), existing.value, mail, env, k)
        else if FindSource(s.inbox.sources, Gmail, mail.messageId).Some? then
          CountDuplicate(s).(current := NoRow)
        else
          var i := |s.inbox.sources|;
          Process(StoreMessage(s, mail.messageId).(current := Row(i)), i, mail, env, k)
  }

  /** A sync over the listed messages.  A broken announcement ends it, after what
      it has done so far is committed; a first message that cannot be got ends it
      before it has done anything. */
  function SyncAll(s: Sync, ids: seq<string>, env: Surroundings): Sync {
    if ids == [] then s
    else
      var before := SyncAll(s, ids[..|ids| - 1], env);
      if before.aborted then before
      else SyncMessage(before, ids[|ids| - 1], env, |ids| - 1)
  }

  function Begin(x: Inbox, announced: seq<nat>): Sync {
    Sync(x, Zero, announced, 0, Unassigned, false)
  }

  /******* The poll query *******/

  const SECOND := 1_000_000

  /** A time stamp in whole seconds, cut toward zero. */
  function Timestamp(t: int): int {
    if t >= 0 then t / SECOND else -(-t / SECOND)
  }

  /** The second from which mail is asked for: that of the last completed sync, but
      not before the configured start; none if there is neither. */
  function PollAfter(lastPolled: Option<int>, start: Option<int>): Option<int> {
    var from := if start.Some? && (lastPolled.None? || lastPolled.value < start.value) then start else lastPolled;
    if from.None? then None else Some(Timestamp(from.value))
  }

  /******* The owner's presses and messages *******/

  predicate IsBlank(text: string) {
    forall i :: 0 <= i < |text| ==> text[i] in {' ', '\t', '\n', '\r'}
  }

  /** A delegated or awaited task without a counterpart starts as UNKNOWN_PARTY. */
  function CandidateTaskStatus(p: Payload): TaskStatus {
    if p.taskType != MyTask && (p.assigneeName.None? || IsBlank(p.assigneeName.value)) then UnknownParty else New
  }

  function CandidateFields(p: Payload): Fields {
    Fields(p.title, p.description, p.taskType, p.priority, None, None, p.dueAt, p.dueDate, p.duePrecision, None,
           CandidateTaskStatus(p))
  }

  function CandidateTask(source: nat, p: Payload): NewTask {
    NewTask(CandidateFields(p), Some(CandidateCreate(source)), Some(source))
  }

  /** The message tables, the task tables, what has been announced, and the instant
      of the last completed sync. */
  datatype World = World(inbox: Inbox, store: Store, announced: seq<nat>, lastPolled: Option<int>)

  const Start := World(EmptyInbox, Empty, [], None)

  function MarkRejected(candidates: seq<Candidate>, source: nat): seq<Candidate> {
    OnCandidate(candidates, source, (r: Candidate) => r.(status := Rejected))
  }

  function MarkConfirmed(candidates: seq<Candidate>, source: nat, id: nat): seq<Candidate> {
    OnCandidate(candidates, source, (r: Candidate) => r.(status := Confirmed, task := Some(id)))
  }

  function IgnorePress(w: World, i: nat): World {
    if i >= |w.inbox.sources| then w
    else
      var x := WithStatus(w.inbox, i, Ignored);
      w.(inbox := x.(candidates := MarkRejected(x.candidates, i)))
  }

  function EditPress(w: World, i: nat): World {
    if i >= |w.inbox.sources| then w
    else w.(inbox := SetSource(w.inbox, i, w.inbox.sources[i].(awaitingEdit := true)))
  }

  function CreatePress(w: World, i: nat): World {
    if i >= |w.inbox.sources| || w.inbox.sources[i].candidate.None? then w
    else
      var o := Create(w.store, CandidateTask(i, w.inbox.sources[i].candidate.value), 0, |w.inbox.sources|);
      if o.reply.Err? then w
      else
        var x := SetSource(w.inbox, i, w.inbox.sources[i].(confirmed := true));
        w.(inbox := x.(candidates := MarkConfirmed(x.candidates, i, o.reply.value)), store := o.store)
  }

  /** The source waits for the owner's corrected text. */
  predicate AwaitsText(s: Source) {
    s.awaitingEdit && s.status == Processed
  }

  const PENDING_LIMIT := 20

  /** The latest source that awaits text, among the latest `limit` processed ones. */
  function LatestAwaiting(sources: seq<Source>, limit: nat): (found: Option<nat>)
    ensures found.Some? ==> found.value < |sources| && AwaitsText(sources[found.value])
  {
    if sources == [] || limit == 0 then None
    else
      var n := |sources| - 1;
      if sources[n].status != Processed then LatestAwaiting(sources[..n], limit)
      else if sources[n].awaitingEdit then Some(n)
      else LatestAwaiting(sources[..n], limit - 1)
  }

  function PendingSource(sources: seq<Source>): (found: Option<nat>)
    ensures found.Some? ==> found.value < |sources| && AwaitsText(sources[found.value])
  {
    LatestAwaiting(sources, PENDING_LIMIT)
  }

  function NewTelegramSource(id: string): Source {
    Source(Telegram, id, NewSource, None, None, false, false)
  }

  /** Free text that the model turns into a candidate: it replaces the one of the
      source that awaits text, or is stored as a new source.  Once the owner has the
      reply, the candidate counts as notified, even a confirmed one. */
  function FreeText(w: World, externalId: string, c: Classification, p: Payload, replied: bool): World {
    var pending := PendingSource(w.inbox.sources);
    if pending.None? && FindSource(w.inbox.sources, Telegram, externalId).Some? then w
    else
      var sources := if pending.Some? then w.inbox.sources else w.inbox.sources + [NewTelegramSource(externalId)];
      var i := if pending.Some? then pending.value else |w.inbox.sources|;
      var s := sources[i].(status := Processed, classification := Some(c), candidate := Some(p));
      var candidates := Upsert(w.inbox.candidates, i, c, p);
      w.(inbox := Inbox(sources[i := s], if replied then MarkNotified(candidates, i) else candidates))
  }

  datatype InboxStep =
    | SyncStep(now: int, ids: seq<string>, env: Surroundings)
    | IgnoreStep(source: nat)
    | EditStep(source: nat)
    | CreateStep(source: nat)
    | TextStep(externalId: string, classification: Classification, payload: Payload, replied: bool)
    | TaskStep(op: Op)

  /** The operation does not use a candidate's key: only the create button does.
      A task created through the API may name a source, as the button's does. */
  predicate IsOrdinary(op: Op) {
    RecordedKey(op).Some? ==> !RecordedKey(op).value.CandidateCreate?
  }

  /** Steps of a run: syncs of any listing, which complete or are cut short, presses,
      free text, and other task operations, which see the source table as it is. */
  predicate Enabled(w: World, step: InboxStep) {
    match step
    case TaskStep(op) => IsOrdinary(op) && (op.OpCreate? ==> op.sources == |w.inbox.sources|)
    case _ => true
  }

  function Next(w: World, step: InboxStep): World {
    match step
    case SyncStep(now, ids, env) =>
      var s := SyncAll(Begin(w.inbox, w.announced), ids, env);
      w.(inbox := s.inbox, announced := s.announced, lastPolled := if s.aborted then w.lastPolled else Some(now))
    case IgnoreStep(i) => IgnorePress(w, i)
    case EditStep(i) => EditPress(w, i)
    case CreateStep(i) => CreatePress(w, i)
    case TextStep(id, c, p, replied) => FreeText(w, id, c, p, replied)
    case TaskStep(op) => w.(store := Step(w.store, op))
  }

  ghost predicate IsRun(w: World, steps: seq<InboxStep>)
    decreases |steps|
  {
    steps == [] ||
    (IsRun(w, steps[..|steps| - 1]) && Enabled(After(w, steps[..|steps| - 1]), steps[|steps| - 1]))
  }

  function After(w: World, steps: seq<InboxStep>): World
    decreases |steps|
  {
    if steps == [] then w else Next(After(w, steps[..|steps| - 1]), steps[|steps| - 1])
  }
}
