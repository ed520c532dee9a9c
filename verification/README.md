# AI Secretary: a verified model of its task, reminder and message engines

The project models the parts of AI Secretary in which time, retries and repeated
delivery meet shared tables:

- the task service: statuses, versions, operation keys and the audit log;
- the reminder engine on top of it: planning, sending, snoozing, adding;
- Telegram long polling with crashes, over the idempotent task operations;
- the Gmail sync and the owner's buttons for task candidates;
- the digest window, the deadline printer and parser, and the OAuth state.

`dafny verify dfyconfig.toml` checks everything.

## How it is built

A table is a sequence of rows and a row's identity is its position, so a fresh
id is the length of the table. Instants are microseconds since the Unix epoch
and a zone is a fixed offset. Each service call, loop turn or handled update is
one atomic step that commits or changes nothing.

| files | what they hold |
|---|---|
| `TaskStore`, `TaskOutcomes`, `TaskHistory`, `TaskService` | effect of each task operation, what it makes of each column, what all runs keep, the service as an object |
| `ReminderPolicy`, `ReminderTable`, `ReminderOutcomes`, `ReminderSafety`, `PlanningRounds`, `SendingRounds`, `ReminderRuns`, `ReminderPresses`, `ReminderEngine` | policy, effect of each reminder step, what it makes of each row, invariant, rounds, whole runs, redelivered presses, the engine as an object |
| `TelegramUpdates`, `TelegramOutcomes`, `Polling`, `TelegramBot` | updates as task operations, what they make of the task, the offset protocol and its refinement, the polling loop |
| `InboxTable`, `InboxHistory`, `SyncOutcomes`, `InboxOutcomes`, `Announcements`, `GmailInbox` | sources, candidates, syncs and presses; what all runs keep; which messages a sync settles; what it and the presses make of each row; what polling the mailbox can announce; the inbox as an object |
| `Digest`, `QuietHours`, `LocalTime` | windows of local time |
| `DeadlineText`, `CivilCalendar`, `Digits` | printed deadlines |
| `OAuthState`, `Base64Url`, `Utf8` | signed state |

Every effect is a function on values. The classes `TaskService`,
`ReminderEngine`, `TelegramBot`, `GmailInbox` and `DigestService` change their
fields step by step as the program does, and each method's contract equates its
new state with that function; the lemmas are about the functions. What an operation
makes of the tables is stated by the outcome lemmas as equations over the columns,
without the functions that compute it.

The Telegram client, the language model, the mail server and the clock are
parameters: functions or sequences that may answer anything. Safety of the inbox is
proved for syncs of any listing. What later polls can still announce is proved for
runs as the program polls (`IsPolledRun`): the poll query asks for mail received in
a given second or later, Gmail answers a request for a message with that message,
and the clock does not go back. The reminder log, the list of announced candidates
and the list of sent digests record what the program was told of its messages; one
that Telegram took after the program gave up on it is logged as not delivered.

## Where the code falls short of its promise

These were found by proof. The code is modelled as it is; each has the exact
condition under which the promise holds, told from what is known before the call,
and an input for which it fails.

- A quiet reminder is deferred to the first audible instant if and only if the
  window has distinct ends and ends on a whole minute: seconds of the end are
  dropped, and equal ends mean always quiet
  (`QuietHours.EndIsFirstAudibleExactly`, `QuietHours.HalfMinuteIsDropped`).
- Delivering a handled update again is harmless if and only if it was repeatable or
  spent when it was handled: a press must name a version no newer than the task's,
  and an `/edit` is never repeatable, because its key holds the version that its
  handler reads (`TelegramUpdates.RedeliveryHarmlessExactly`,
  `Polling.EarlyPressIsNotHarmless`, `Polling.EditUndoesLaterTitle`).
- The polling offset moves before the handler runs. An update whose handler fails
  before it commits is lost if and only if the bot asks for more updates before the
  process dies (`Polling.FailureLosesUpdateExactly`, `Polling.LostUpdate`).
- A sync counts each message once if and only if announcements raise a value error
  (a Telegram answer that is not JSON does) only for messages that are settled
  before the sync comes to them; otherwise such a message counts as a candidate and
  as failed (`SyncOutcomes.EveryMessageCountedOnceExactly`,
  `SyncOutcomes.BouncedMessageCountedTwice`).
- A message that a sync leaves unsettled can be tried again if and only if the sync is
  cut short, or Gmail received the message in the second in which the sync began or
  later, as the next query asks only for newer mail. So a candidate whose
  announcement raises a value error is mostly lost, and one whose announcement fails
  in another way always is (`Announcements.MessageLostExactly`,
  `Announcements.AnnouncementLostExactly`, `Announcements.LostBounce`,
  `Announcements.LostAnnouncement`).
- When a message cannot be got because of a value error, the handler marks the
  message got before it as failed. Announced messages stay settled and are announced
  once, through any run, if and only if no sync fails to get the message after one
  that it announced (`Announcements.EachIsAnnouncedOnceExactly`,
  `Announcements.AnnouncedTwice`).
- The request to correct a candidate is never cleared: every later text that
  proposes a task rewrites the same candidate (`InboxHistory.TextsRewriteTheSame`).
- A press of "remind me" that is delivered again adds a second reminder, as its key
  holds the instant of its handling; a press of "remind me tomorrow" is safe to
  deliver again if and only if the task was awaited when it was handled, or the press
  was recorded before (`ReminderPresses.RemindPressNeverRepeatable`,
  `ReminderPresses.RemindedTwice`, `ReminderPresses.FollowUpPressHarmlessExactly`).
- A source has no link but that of its own candidate's task if and only if no task
  was created through the API that names it
  (`InboxHistory.OneLinkPerSourceExactly`, `InboxHistory.TwoLinksToOneSource`).
- A deadline is read back if and only if its local year has four digits, as the
  year is printed unpadded (`DeadlineText.DateTimeRoundTrip`,
  `DeadlineText.EarlyYearIsNotReadBack`).
- An OAuth state verifies only for user ids without a dot
  (`OAuthState.StateVerifiesExactly`, `OAuthState.DottedUserExample`).
- A digest that can be delivered goes out if and only if a check falls into its
  minute. Checks a minute apart do; one microsecond more between them can miss it
  (`Digest.DigestSentExactly`, `Digest.LongerGapCanMiss`).

Besides, the two-hour delay of the retry schedule is never used
(`ReminderRuns.RetrySchedule`), and OVERDUE is a status that only a creation gives
(`TaskHistory.ReachableStatusesExactly`).

## Model

| member | source | states |
|---|---|---|
| TaskHistory.AuditLogDeterminesTask | app/tasks/service.py:249-339 | over any run the event log only grows, its new events replayed over a task's row give the row at the end, each event's old values are the values just before it, and the version advances by one per event |
| TaskHistory.CreatedRowReplays | app/tasks/service.py:142-193 | every task of a reachable store equals its created row with the whole log replayed over it, its first event is the creation event with its title, and its version is its event count |
| TaskHistory.OldValuesUndo | app/tasks/service.py:269-280 | putting an event's old values back restores all the columns the update changed |
| TaskOutcomes.LogGivesColumns | app/tasks/service.py:249-339 | over any run each of the eleven columns of a task is what the new events last gave it, or as it was |
| TaskHistory.InactiveForever | app/tasks/service.py:115-116 | DONE and CANCELLED are closed under every run of creates, updates, cancels and reminders |
| TaskHistory.ReachableStatusesExactly | app/tasks/service.py:59-117 | over any run of operations an active task can reach every status but OVERDUE, a DONE one only CANCELLED, and a CANCELLED one nothing else |
| TaskHistory.CompletionStaysRight | app/tasks/service.py:265-268 | in any run, a task that has a completion time if DONE and none if active stays so |
| TaskHistory.SameVersionSameFields | app/tasks/service.py:542-547 | a run that leaves the version of a task leaves its columns, so a version check detects every intervening change |
| TaskHistory.ReachableValid | app/tasks/models.py:325-327 | event keys and task keys stay unique, every task's key is recorded, versions are event counts |
| TaskHistory.RecordedKeyIsInert | app/tasks/service.py:257-262 | replaying a recorded operation key after any other operations answers with the task and changes nothing, whatever version or columns it now names |
| TaskHistory.ReplayedCreateIsInert | app/tasks/service.py:142-166 | replaying a create after any other operations answers with the task created under its key and changes nothing, whatever it now says |
| TaskHistory.KeyTakesEffectOnce | app/tasks/service.py:142-166 | among all operations of a run that carry one key, at most one takes effect |
| TaskHistory.AcceptedVersionsIncrease | app/tasks/service.py:263-272 | versioned operations that take effect on one task use strictly increasing versions |
| TaskOutcomes.UpdateAcceptedExactly | app/tasks/service.py:249-283 | an update takes effect if and only if its task exists, its key is new, its version is the task's, no required column is set to null and its change of status is allowed; otherwise nothing changes |
| TaskOutcomes.UpdateRefusals | app/tasks/service.py:256-272 | which of these a refused update answers with, in the order of the checks |
| TaskOutcomes.RefusedChangesExactly | app/tasks/service.py:59-117 | the refused changes of status, listed without the transition table |
| TaskOutcomes.UpdateOutcome | app/tasks/service.py:263-283 | an update that takes effect gives every column the value it sets and keeps every other, sets or clears the completion time, and logs an event with the new values and the ones before; no other task changes |
| TaskOutcomes.PostponeOutcome | app/tasks/service.py:299-316 | an accepted postponement has the new deadline and is POSTPONED, with every other column as it was |
| TaskOutcomes.CompleteOutcome | app/tasks/service.py:285-297 | an accepted completion is DONE, completed now unless it was DONE before |
| TaskOutcomes.CancelOutcome | app/tasks/service.py:318-339 | a cancellation is accepted from every status under a new key and the current version, and sets the status alone |
| TaskOutcomes.CreateOutcome | app/tasks/service.py:142-193 | a create makes one task with the given columns, version 1, its key, its event and its link, if and only if the key is new and the named source exists |
| TaskService.TaskService.Create | app/tasks/service.py:142-193 | the method ends in the state and with the answer of the create operation, including the existing task and all error exits |
| TaskService.TaskService.Update | app/tasks/service.py:249-283 | same for update: lookup of the key, version check, transition check, completion time, event |
| TaskService.TaskService.Complete | app/tasks/service.py:285-297 | completing is the update that sets the status to DONE |
| TaskService.TaskService.Postpone | app/tasks/service.py:299-316 | postponing is the update that sets the deadline and the status POSTPONED |
| TaskService.TaskService.Cancel | app/tasks/service.py:318-339 | cancelling skips transition checks, so DONE may become CANCELLED, and is otherwise guarded like update |
| QuietHours.EndIsFirstAudible | app/jobs/reminders.py:219-232 | with distinct ends and a whole-minute end, a quiet instant is deferred to the least audible instant after it, at most a day later, in same-day and wrapping windows |
| QuietHours.QuietIsArc | app/jobs/reminders.py:219-222 | quiet hours are the arc of the daily round from the start, included, to the end, excluded; with equal ends the whole round |
| QuietHours.EndIsFirstAudibleExactly | app/jobs/reminders.py:225-232 | at every quiet instant that holds if and only if the ends are distinct and the end is a whole minute |
| QuietHours.HalfMinuteIsDropped | app/jobs/reminders.py:225-232 | a window that ends half a minute past eight, and a reminder deferred to eight, when it is still quiet |
| ReminderPolicy.ReminderSpecs | app/jobs/reminders.py:83-138 | the appending loop computes the policy list |
| ReminderPolicy.SpecsAreWanted | app/jobs/reminders.py:88-137 | the list asks for a key if and only if the policy wants it, stated without the list: active task, deadline, priority table, one-minute grace, local date, type |
| ReminderPolicy.SpecsAreDistinct | app/jobs/reminders.py:83-138 | each key is asked for once, and never for a time in the past |
| ReminderPolicy.SpecContents | app/jobs/reminders.py:106-137 | each reminder has the kind named by its key and the later of its nominal time and now |
| ReminderPolicy.DroppedKeyStaysDropped | app/jobs/reminders.py:99-105 | for an unchanged task, a wanted key that is dropped as the clock advances is never wanted again |
| PlanningRounds.RoundSynchronises | app/jobs/reminders.py:154-216 | after a round, for each listed task, open policy rows carry wanted keys, every wanted key has a row that is not cancelled, and keys stay unique |
| PlanningRounds.SecondRoundChangesNothing | app/jobs/reminders.py:154-216 | a second round at the same instant leaves the table as it is |
| PlanningRounds.RoundIsPointwise | app/jobs/reminders.py:174-196 | a round treats each existing row by its own task's policy, however tasks are listed |
| PlanningRounds.RoundKeepsLaterTimes | app/jobs/reminders.py:178-196 | a wanted pending row moves to the later of its own and the policy time, a cancelled one is revived with the policy time and kind, others are left alone |
| ReminderOutcomes.InsertedRowOutcome | app/jobs/reminders.py:197-212 | every row that a round inserts is of a listed task and wanted, at the later of its nominal time and now, of the kind of its key, PENDING and untried |
| ReminderOutcomes.UnwantedRowOutcome | app/jobs/reminders.py:174-177 | an open policy row that is no longer wanted is cancelled with its other columns kept; sent, failed and other rows stay |
| SendingRounds.RoundDrainsDue | app/jobs/reminders.py:283-330 | a round takes exactly its picked rows, the smaller of limit and number due, out of the due set and touches no other row |
| SendingRounds.RepeatedRoundsDrain | app/jobs/reminders.py:283-330 | n rounds at one instant leave n times the limit fewer rows due, down to none |
| SendingRounds.RoundsTerminate | app/jobs/reminders.py:283-330 | so after as many rounds as there were due rows nothing is due |
| ReminderOutcomes.PicksExactly | app/jobs/reminders.py:283-296 | only PENDING and RETRY rows whose time has come are picked, and one is left out only when the limit is reached by rows due no later |
| ReminderOutcomes.PickedRowOutcome | app/jobs/reminders.py:297-329 | a picked row is deferred to the next time of the window's end, cancelled with its task, SENT now, tried again in five or thirty minutes, or FAILED at the third failure; every column is told |
| ReminderOutcomes.DeferredRowOutcome | app/jobs/reminders.py:298-304 | with distinct ends and a whole-minute end, a row picked at a quiet instant is PENDING at the first audible one |
| ReminderOutcomes.UnpickedRowOutcome | app/jobs/reminders.py:297-330 | a row that is not picked stays as it is |
| ReminderOutcomes.RemindedTaskOutcome | app/jobs/reminders.py:326-329 | a round notes now on exactly the open tasks of which a reminder was delivered, and changes nothing else of the tasks |
| ReminderSafety.StepKeepsSound | app/jobs/reminders.py:141-403 | every step keeps unique keys, one open daily row per task, and agreement of each row with the attempt log |
| ReminderSafety.RunKeepsSound | app/jobs/reminders.py:141-403 | over every interleaving SENT and FAILED rows never change, and rows and logged attempts are never lost |
| ReminderRuns.DeliveryLimits | app/jobs/reminders.py:297-330 | from an empty table, each key has at most one delivery and three attempts, and each row's count is its number of logged attempts |
| ReminderRuns.DailyReminders | app/jobs/reminders.py:114-126 | a task never has two open overdue-daily rows nor two rows for one local date |
| ReminderRuns.ClosedTaskIsNeverReminded | app/jobs/reminders.py:305-308 | once a task is DONE or CANCELLED no continuation attempts any reminder about it |
| ReminderRuns.NeverSentInQuietHours | app/jobs/reminders.py:298-304 | every attempt of a run was logged by one of its rounds, at an instant outside the window that this round read |
| ReminderRuns.RetrySchedule | app/jobs/reminders.py:315-324 | in every reachable state a RETRY row is due five minutes after its first attempt or thirty after its second, and a FAILED row has three attempts |
| ReminderRuns.SnoozeIsRespected | app/jobs/reminders.py:383-403 | a row held until an instant is not attempted before it in any run that neither snoozes it again nor revives it after cancellation |
| ReminderRuns.SnoozedTaskWaits | app/jobs/reminders.py:383-403 | after a snooze, no open row of the task is attempted before its end in any run that neither snoozes it again nor revives it |
| ReminderOutcomes.SnoozeOutcome | app/jobs/reminders.py:383-403 | a snooze moves exactly the open rows of its task to the instant, as PENDING ones without an error |
| ReminderOutcomes.ManualOutcome | app/jobs/reminders.py:334-354 | one status check at the instant, unless the task has a manual reminder then |
| ReminderOutcomes.FollowUpOutcome | app/jobs/reminders.py:357-380 | one follow-up of an awaited task at the instant under the press's key, unless that key has one |
| ReminderPresses.FollowUpPressHarmlessExactly | app/integrations/telegram/bot.py:738-752 | redelivering "remind me tomorrow" never changes the reminders, whatever happens in between, if and only if the task was awaited or the press recorded when it was handled |
| ReminderPresses.RemindPressNeverRepeatable | app/integrations/telegram/bot.py:631-636 | handling "remind me" changes nothing if and only if the task has a reminder for an hour from then; at some later instant it always adds another |
| ReminderPresses.PressesOutcome | app/integrations/telegram/bot.py:631-636 | the first press of "remind me" adds a status check an hour from now, and "remind me tomorrow" a follow-up a day from now |
| ReminderEngine.ReminderEngine.PlanReminders | app/jobs/reminders.py:141-216 | the loops end in the planned table, keep it sound, and answer with its growth |
| ReminderEngine.ReminderEngine.PlanOne | app/jobs/reminders.py:155-214 | the two passes over one task's rows compute its planned rows |
| ReminderEngine.ReminderEngine.QueryDue | app/jobs/reminders.py:283-296 | the query answers with the earliest due rows, without repetition, up to the limit |
| ReminderEngine.ReminderEngine.SendReminder | app/jobs/reminders.py:297-329 | one picked row is deferred, cancelled, retried, failed or sent, and logged |
| ReminderEngine.ReminderEngine.SendDueReminders | app/jobs/reminders.py:266-331 | the loop ends in the state of a send round and answers with the number of deliveries; without settings nothing changes |
| ReminderEngine.ReminderEngine.SnoozeTaskReminders | app/jobs/reminders.py:383-403 | the loop moves the open rows and answers with how many there were |
| ReminderEngine.ReminderEngine.CreateManualReminder | app/jobs/reminders.py:334-354 | adds the row or answers with the one under the same key |
| ReminderEngine.ReminderEngine.CreateFollowUpReminder | app/jobs/reminders.py:357-380 | refused unless the task awaits a result; otherwise adds or finds the row |
| TelegramUpdates.SpentOnceHandledExactly | app/integrations/telegram/bot.py:534-630 | handling an update leaves it spent if and only if it was repeatable or spent: a new-task message, a press whose version is no newer than the task's, an edit refused for its title |
| TelegramUpdates.SpentForever | app/tasks/service.py:256-263 | a spent update stays spent under any later operations |
| TelegramUpdates.RedeliveryHarmlessExactly | app/integrations/telegram/bot.py:557-630 | redelivery can never change the store, whatever happens in between, if and only if the update was repeatable or spent when it was handled |
| TelegramOutcomes.NewMessageOutcome | app/integrations/telegram/bot.py:534-550 | a new-task message with a title of 1 to 500 characters and a new key makes one task of the owner's, NEW, P3, without dates; any other changes nothing |
| TelegramOutcomes.PressOutcome | app/integrations/telegram/bot.py:606-630 | a press takes effect if and only if it is new, names the current version and the status accepts it; the task is then DONE and completed now, WAITING, POSTPONED to a day from now, or CANCELLED |
| TelegramOutcomes.FollowUpPressOutcome | app/integrations/telegram/bot.py:720-748 | the result button completes exactly an awaited task that is not cancelled, under a new key and the current version |
| TelegramOutcomes.EditOutcome | app/integrations/telegram/bot.py:557-579 | an edit gives the task its title, unless an edit of that version is recorded |
| Polling.CrashesAreInvisible | app/integrations/telegram/bot.py:92-107 | a run with any crashes, failed replies and operations from elsewhere ends in the store of handling each handled update once, in order, at its first handling |
| Polling.CrashesDoNotMatter | app/integrations/telegram/bot.py:92-107 | from any store, a run with any crashes and failed replies, of updates that are repeatable when first handled and with nothing else changing the tasks, ends in the fold over the handled updates |
| Polling.RepeatableIsBenign | app/integrations/telegram/bot.py:599-630 | runs of repeatable updates satisfy the condition of the refinement |
| Polling.CleanPassHandlesAll | app/integrations/telegram/bot.py:94-101 | an undisturbed pass from an idle bot handles every update that has arrived |
| Polling.FailureEndsAnswer | app/integrations/telegram/bot.py:97-107 | after a handler fails the rest of the answer is dropped, and the next request asks from the update after it |
| Polling.EarlyPressIsNotHarmless | app/integrations/telegram/bot.py:606-618 | two presses whose store differs with and without a crash, because one names a future version |
| Polling.EditUndoesLaterTitle | app/integrations/telegram/bot.py:557-579 | one edit whose redelivery undoes the title that the task was given in between |
| Polling.DeliverableExactly | app/integrations/telegram/bot.py:92-107 | an update can still be delivered by some continuation if and only if it is not confirmed or is in the rest of the answer |
| Polling.FailureLosesUpdateExactly | app/integrations/telegram/bot.py:97-107 | after a failure before the commit, which changes nothing, no continuation delivers the update if and only if the bot polls before the process dies |
| Polling.LostUpdate | app/integrations/telegram/bot.py:97-107 | one message that is lost in this way |
| TelegramBot.LifeIsRun | app/integrations/telegram/bot.py:92-107 | each life of the loop is a run of the protocol without uncommitted failures |
| TelegramBot.TelegramBot.HandleUpdate | app/integrations/telegram/bot.py:534-630 | the handlers perform the task operation of the update |
| TelegramBot.TelegramBot.RunPolling | app/integrations/telegram/bot.py:92-107 | the loop over answers ends in the store and confirmation of one life of the protocol |
| InboxHistory.SyncAccounts | app/integrations/gmail/service.py:114-295 | the counters of a completed sync balance against the listing, the source table's growth, and the announcements |
| SyncOutcomes.SyncIsOutlined | app/integrations/gmail/service.py:126-294 | which messages end settled, which row the loop holds and whether the sync is cut short follow a small outline of the inputs alone |
| SyncOutcomes.MessageFateExactly | app/integrations/gmail/service.py:137-294 | a message that a sync comes to for the last time ends settled if and only if it is got, its handling settles it, and the next message asked for can be got |
| SyncOutcomes.EveryMessageCountedOnceExactly | app/integrations/gmail/service.py:126-295 | the counters exceed the listing by the bounced announcements, so they agree if and only if announcements bounce only for messages that the sync does not come to |
| SyncOutcomes.BouncedMessageCountedTwice | app/integrations/gmail/service.py:271-294 | one message that is counted as candidate and as failed |
| SyncOutcomes.AbortsExactly | app/integrations/gmail/service.py:271-294 | a sync is cut short if and only if it comes to an announcement that breaks, or the first message that it asks for cannot be got |
| InboxOutcomes.VerdictsExactly | app/integrations/gmail/service.py:176-250 | which messages are filtered, failed, processed without a task, and proposed, told by filter, rule, model and parse |
| InboxOutcomes.ProcessedOutcome | app/integrations/gmail/service.py:176-288 | what processing makes of the source and the candidate row, column by column, for every verdict and announcement; nothing else of the inbox changes |
| InboxOutcomes.SyncedMessageOutcome | app/integrations/gmail/service.py:126-294 | after a whole sync, a message that it came to and got shows the outcome of its verdict, its candidate and announcement, or FAILED in the status alone |
| InboxOutcomes.SyncKeepsMarks | app/integrations/gmail/service.py:137-157 | no sync changes the owner's marks or the message of a row, and new rows are of the mailbox and unmarked |
| InboxOutcomes.CountersExactly | app/integrations/gmail/service.py:114-295 | each counter of a completed sync is the number of messages of its kind that it asked for, and the rest are duplicates |
| InboxOutcomes.PollQueryExactly | app/integrations/gmail/service.py:303-321 | mail is asked for from the second of the last completed sync or of a later configured start |
| InboxHistory.StepKeepsSound | app/integrations/telegram/bot.py:818-881 | each step keeps sources unique, settled sources settled, one candidate row per source, links between existing rows, one link for each candidate's task |
| InboxHistory.RunKeepsSound | app/integrations/gmail/service.py:126-135 | over any run no step takes a source out of PROCESSED and IGNORED, whatever is listed and however fetches and announcements end |
| InboxHistory.OneOfEachPerSource | app/integrations/telegram/bot.py:847-881 | each message has at most one candidate row, and at most one task from its candidate, which has exactly one link and that to the message |
| InboxHistory.OneLinkPerSourceExactly | app/tasks/service.py:168-185 | a source has the link of its candidate's task and one for each API create that named it and made a task; so only the first if and only if there was no such create |
| InboxHistory.TwoLinksToOneSource | app/api/routes/tasks.py:92-97 | one API create and one press of the button leave two links to one source |
| InboxHistory.CreatedTaskIsLastCandidate | app/integrations/telegram/bot.py:316-338 | the create button makes the task of the candidate as last corrected, with its link and record; once made, later corrections change no task |
| InboxOutcomes.ProposedIsCreated | app/integrations/telegram/bot.py:847-882 | a task proposed in a sync is stored with its message, and the create button makes it with the title, description, type, priority and dates proposed |
| InboxOutcomes.CreatePressOutcome | app/integrations/telegram/bot.py:847-882 | the create button adds the task of the stored candidate with its link, unless there is one, and confirms source and candidate row with it; UNKNOWN_PARTY exactly if it is not the owner's own and names nobody |
| InboxOutcomes.IgnorePressOutcome | app/integrations/telegram/bot.py:823-831 | exactly that source is IGNORED and its candidate row REJECTED |
| InboxOutcomes.FreeTextOutcome | app/integrations/telegram/bot.py:316-354 | a text becomes the candidate of the source that awaits one, or of a new one, and changes no other source |
| InboxOutcomes.PendingExactly | app/tasks/service.py:501-516 | a text corrects the latest processed source whose correction was asked for, if it is among the latest twenty processed |
| InboxHistory.TextsRewriteTheSame | app/integrations/telegram/bot.py:316-342 | once a source awaits text, every further text rewrites it, the last one counts, and no text is stored as a message of its own |
| InboxHistory.OnlyCreateTouchesTasks | app/integrations/gmail/service.py:255-286 | a run of syncs, ignore and edit presses and free text leaves the task tables alone |
| Announcements.RepollFindsOnlyDuplicates | app/integrations/gmail/service.py:126-135 | after a completed sync without failures and any further run, the same listing yields only duplicates and changes no source and no candidate |
| Announcements.SettledIsNotAnnounced | app/integrations/gmail/service.py:130-135 | no later sync announces a settled message |
| Announcements.CanBeAnnouncedExactly | app/integrations/gmail/service.py:112-135 | later polls can announce a message if and only if it is not settled and the poll query still lists it |
| Announcements.MessageLostExactly | app/integrations/gmail/service.py:289-322 | after a sync that comes to a message, for the last time, later polls can announce it if and only if the sync leaves it unsettled and is cut short or began no later than the second of its receipt |
| Announcements.AnnouncementLostExactly | app/integrations/gmail/service.py:271-322 | a candidate that a sync comes to is announced by it or can be later if and only if its announcement is taken, or bounces and the message stays listed |
| Announcements.LostAnnouncement | app/integrations/gmail/service.py:271-279 | one sync whose only message is still listed and never announced |
| Announcements.LostBounce | app/integrations/gmail/service.py:289-295 | one completed sync whose only message bounced and is never listed again |
| Announcements.SyncAnnouncesOnceExactly | app/integrations/gmail/service.py:137-294 | through a sync announced sources stay settled and are announced once if and only if it never fails to get the message after one that it announced |
| Announcements.EachIsAnnouncedOnceExactly | app/integrations/gmail/service.py:126-294 | the same from the start for any run of syncs, presses, text and task operations |
| Announcements.AnnouncedTwice | app/integrations/gmail/service.py:289-294 | two polls that announce one message twice |
| GmailInbox.GmailInbox.ProcessMessage | app/integrations/gmail/service.py:158-294 | the branches on filter, rule, model and announcement end in the state and counters of the specified verdict |
| GmailInbox.GmailInbox.SyncOne | app/integrations/gmail/service.py:127-294 | one listed message is a duplicate, is got and processed, or cannot be got and fails the row the loop holds |
| GmailInbox.GmailInbox.SyncAccount | app/integrations/gmail/service.py:101-322 | the loop over what the poll query lists ends in the specified state and counters, moves the poll instant only if it completes, and changes no task |
| GmailInbox.GmailInbox.PressCreate | app/integrations/telegram/bot.py:847-882 | creates or finds the candidate's task and confirms its rows |
| GmailInbox.GmailInbox.PressIgnore | app/integrations/telegram/bot.py:823-831 | marks the source ignored and its candidate rejected |
| Digest.AtMostOneDigest | app/jobs/digest.py:354-412 | under any turns, failures and changes of the settings between checks a record exists exactly for a digest that was sent, once per type and date, inside the window it was checked by |
| Digest.DigestSentExactly | app/jobs/digest.py:310-315 | with steady settings and sends that succeed, one digest goes out for a scheduled date if a check falls into its window, and otherwise none |
| Digest.ExactlyOneDigest | app/jobs/digest.py:310-315 | checks at most a minute apart that start no later than the configured time and reach it send exactly one digest for the date |
| Digest.LongerGapCanMiss | app/jobs/digest.py:28-28 | a gap one microsecond longer can miss the digest |
| Digest.DigestTimeExactly | app/jobs/digest.py:310-315 | a check may send in the minute of the local clock set for the digest, morning or evening, and weekly only on the day of review |
| Digest.TurnSendsExactly | app/jobs/digest.py:425-446 | a turn records exactly the digests it owes that come before the first one Telegram does not take |
| Digest.DigestService.SendDigestIfDue | app/jobs/digest.py:354-412 | one check skips, delivers and records, or fails and leaves no record |
| Digest.DigestService.RunDigestLoop | app/jobs/digest.py:425-446 | the loop is the sequence of turns in which a failed send skips the later digests |
| DeadlineText.DateTimeRoundTrip | app/integrations/telegram/bot.py:1069-1120 | a printed deadline is read back as its instant truncated to the minute, EXACT, if and only if its local year has four digits |
| DeadlineText.DateRoundTrip | app/integrations/telegram/bot.py:517-519 | a printed date is read back as the same date, with DATE precision, under the same condition, and the stored day is printed as that date |
| DeadlineText.TypedDateIsStable | app/integrations/telegram/bot.py:1095-1110 | any text read as a date names a day whose printed form is read as the same day, if and only if its year has four digits |
| DeadlineText.EarlyYearIsNotReadBack | app/integrations/telegram/bot.py:517-519 | a date that is printed and not read back |
| DeadlineText.RelativeDeadlines | app/integrations/telegram/bot.py:1073-1093 | today, tomorrow and the day after are read as that local day at the given time, with one or two digits of the hour, or at nine; a time that does not exist is refused |
| DeadlineText.TypedDateOutcome | app/integrations/telegram/bot.py:1095-1110 | a typed date with any of the separators is read as that day with DATE precision if the calendar has it, and otherwise refused |
| DeadlineText.TypedDateTimeOutcome | app/integrations/telegram/bot.py:1095-1120 | with a time it is read as that moment of the day, EXACT, if the clock has it |
| DeadlineText.KnownTexts | app/integrations/telegram/bot.py:514-519 | the texts of two known days and times |
| DeadlineText.KnownDeadlines | app/integrations/telegram/bot.py:514-515 | an instant of 2026 and the epoch are printed as their known dates |
| CivilCalendar.NextDay | app/integrations/telegram/bot.py:1069-1110 | the day after a date has the next number, through ends of months and years |
| OAuthState.StateVerifiesExactly | app/integrations/gmail/oauth_state.py:15-41 | the state made at t for any user verifies at n if and only if the user id has no dot and t <= n <= t + 600, and never as another user |
| OAuthState.WallClockIsRead | app/integrations/gmail/oauth_state.py:15-41 | without instants of their own, creation and verification read the wall clock, with the same exact condition |
| OAuthState.TransportIsTransparent | app/integrations/gmail/oauth_state.py:19-30 | UTF-8, base64url, stripped and restored padding do not change the text that is verified |
| OAuthState.DottedUserIsRefused | app/integrations/gmail/oauth_state.py:31-37 | a user id with a dot is never accepted |
| OAuthState.AcceptedIsSigned | app/integrations/gmail/oauth_state.py:26-41 | whatever state is accepted, whoever made it, carries the signature of the accepted user and of a time at most ten minutes old |
| Base64Url.UnpaddedRoundTrip | app/integrations/gmail/oauth_state.py:19-30 | decoding undoes encoding for all bytes, with padding stripped and restored (sections 5 and 3.2 of RFC 4648) |
| Base64Url.TestVectors | app/integrations/gmail/oauth_state.py:19-30 | test vectors of section 10 of RFC 4648, and the two URL-safe characters |
| Utf8.RoundTrip | app/integrations/gmail/oauth_state.py:19-30 | decoding undoes encoding for every text |
| Utf8.KnownEncodings | app/integrations/gmail/oauth_state.py:19-30 | the worked examples of section 7 of RFC 3629, from one to four bytes |

## Left out

- True concurrency: transactions run one after another, so the races that the integrity-error retries handle do not occur.
- Daylight saving and zone lookup: a zone is a fixed offset.
- Several users: there is one owner, as in the program's own setup.
- Soft deletion: no operation of the program sets the deletion time of a task.
- Key text: reminder and operation keys are structured values, and keys made by different callers are taken to be different; the texts they are rendered to are not modelled.
- The 500-task limit of the planner: the listed tasks are an input of the round.
- A send or digest whose commit fails after the message has left: each round commits.
- Gmail fetches that fail other than by a value error, and model calls that fail: they abort a sync and may lose uncommitted statuses; a sync here completes, is ended by its notifier, which commits first, or ends before it has done anything.
- Free-text edits of a task that awaits one, and the buttons of a candidate, as updates of the polling protocol: they do change tasks, and the streams of the refinement theorem do not contain them; the buttons are modelled as steps of the inbox.
- What reminder, history, digest and field-choice buttons change: no task column; in polling they are updates that change nothing, and `ReminderPresses` tells what a redelivered reminder button adds.
- Stored but unused columns: message metadata, confidence, error codes, sender fields, time stamps of candidates, and a task's source, parent, calendar and recurrence fields.
- The text of cards, digests and keyboards.
- Sender patterns, rule matching and the fixed part of the poll query: the filter's verdict, the matching rule and the listing are inputs.
- HTTP routes, migrations, dashboard, calendar sync, prompts and token encryption.
- The signature's value: it is any deterministic function to hexadecimal text.
- Base64 leniency: characters outside the alphabet are refused, where the language's decoder skips them.
- Digits, letters and white space outside ASCII and the Russian alphabet in the owner's text and in the time stamp of a state.
- Deadlines typed for instants outside the calendar's range: the program fails with an overflow where the model computes on.
