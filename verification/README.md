# Mailhelp, verified model

Mailhelp reads mail, proposes tasks and events, and writes them to calendars and task
lists only after a confirmation. This project models the parts of it that are hard to get
right and proves what they promise: progress and writes that survive a crash at any
point without being lost or repeated, and printers and parsers that undo each other.

How the model is built:

- Each module follows one part of the program. A loop or a method that changes state is a
  method here too, proved against a specification function; what the program promises is
  proved about that function.
- A crash is either the prefix of the durable effects of a call (`ConfirmedWrite`,
  `Drafts`, `ProposalRepository`, `MailboxRun`) or a step of its own that forgets the
  memory (`Checkpoints`, `Notifications`). A theorem over a run holds for every place at
  which every call may die.
- Answers of servers, models, clocks and users are parameters. The store is a set of
  records that are saved atomically, one at a time.
- Laws of the platform that are only used, not implemented, are stated as predicates over
  a parameter and shown to be satisfiable: upper-casing of characters
  (`ICalTree.AsciiCaseMapping`) the value of decimal
  digits (`PyText.AsciiDigitLaw`), and which characters count as digits at all
  (`ICalEvent.SuperscriptIsUncountable`).

| module | part of the program |
|---|---|
| `PyText` | strip, split, decimal numbers |
| `UidRanges`, `RunQueue`, `Checkpoints`, `BatchSelection`, `PollEvents`, `MailboxRun` | mailbox progress: finished UIDs, durable queue, the machine of all saves, selection of a batch, the saves of a poll, the service |
| `ConfirmedWrite`, `Drafts`, `Notifications`, `ProposalRepository` | effects with lost answers, and the multi-record save |
| `ICalText`, `ICalTree`, `ICalRoundTrip`, `ICalEvent`, `ICalTodo`, `ICalFields` | sections 3.1 and 3.3.11 of RFC 5545; what an updated event and a task say |
| `Utf8`, `ModifiedUtf7` | mailbox names: UTF-8 of RFC 3629, and section 5.1.3 of RFC 3501 |
| `ProposalRevision`, `RevisionEffects`, `TemporalAnswers`, `TemporalForms`, `ReportStore`, `CallBudget` | revisions and what they change, answers with times and the forms people write, report corrections, call budget |

Four results say where the program does less than its parts suggest. Each has an
if-and-only-if condition for all inputs, and an input at which the program fails it:

- A new batch is refused by its own stored model exactly when the mail budget is already
  used up (`BatchSelection.NewRunStorable`). A poll whose resumed mail takes the whole
  limit therefore fails if no queue has runnable mail left
  (`MailboxRun.MailboxRunService.Poll`, `MailboxRun.SpentByResumedMail`).
- Merged report events stay readable exactly while renumbering ends at 999
  (`ReportStore.MergeIsStorable`, `ReportStore.MergedIdTooLong`). The stored form allows
  the failing input, but the program's own numbering stays far below it: a model result has
  at most 20 events (src/mailhelp/activity/llm.py:17, 96-97), and one is added by hand only
  below 50 (src/mailhelp/activity/service.py:180-183), so one mail would have to be
  analysed dozens of times with collisions.
- After the call limit was lowered, the reported next time is exact only if the oldest
  and the decisive call were made at the same time (`CallBudget.LoweredLimit`,
  `CallBudget.LoweredLimitFails`).
- The projection of a mail has one notification per id and version exactly when no two
  shown proposals are of one version (`ProposalRepository.ProjectionUniqueExactly`). The
  builder gives proposals different ids
  (src/mailhelp/proposals/proposal_builder.py:110, 155-157); a mail holding the id of the
  revision twice would be refused (`ProposalRepository.OneIdTwice`).

## Model

| member | source | states |
|---|---|---|
| UidRanges.AddUid | src/mailhelp/mailbox/mailbox_run.py:25-38 | the loop over the ranges computes `Added`, whose meaning the next rows give |
| UidRanges.AddedIsExact | src/mailhelp/mailbox/mailbox_run.py:25-38 | exactly one UID is added to the set the ranges denote; order, floor and separation stay |
| UidRanges.Canonical | src/mailhelp/mailbox/mailbox_run.py:25-38 | separated ranges are determined by the set they denote |
| UidRanges.AddingCommutes | src/mailhelp/mailbox/mailbox_run.py:25-38 | the order in which mails finish leaves no trace, and finishing twice changes nothing |
| UidRanges.GapOneIsOrdered | src/mailhelp/domain/run.py:109-116 | separated ranges satisfy what the stored checkpoint validates |
| RunQueue.RunCounters | src/mailhelp/mailbox/mailbox_run.py:599-604 | the counting loop gives the histogram of the statuses |
| RunQueue.ChangeKeepsRun | src/mailhelp/domain/run.py:44-96 | every change of an entry, including the one of the proposal repository, keeps unique keys, counters, terminal results and waiting in agreement; identities stay and nothing terminal reopens |
| RunQueue.RunStaysComplete | src/mailhelp/domain/run.py:79-82 | over any sequence of changes a complete run stays complete and valid |
| RunQueue.SyncAgrees | src/mailhelp/persistence/proposals.py:116-140 | a synchronised finished entry waits exactly while a decision is open; synchronising twice is synchronising once |
| Checkpoints.StepKeepsInv | src/mailhelp/mailbox/mailbox_run.py:259-317 | every durable save, new UID generation and crash keeps the invariant that ties checkpoints, queues, poll memory and finished mail together |
| Checkpoints.EveryRunIsSound | src/mailhelp/mailbox/mailbox_run.py:366-378 | over all runs with crashes, restarts and growing UIDVALIDITY: ranges are ordered, separated and above the start, and every UID in them was processed in the checkpoint's own generation without failing or awaiting relevance |
| Checkpoints.UnfinishedStaysDiscoverable | src/mailhelp/mailbox/mailbox_run.py:440-467 | mail not finished in the current generation is never hidden from discovery |
| Checkpoints.ProgressIsKept | src/mailhelp/mailbox/mailbox_run.py:366-378 | over all runs the generation of a checkpoint only grows, and within it no finished UID is lost |
| BatchSelection.SelectBatch | src/mailhelp/mailbox/mailbox_run.py:474-487 | the selection loop with its early end computes `Batch`, limited by the budget or the batch size |
| BatchSelection.SortedByRank | src/mailhelp/mailbox/mailbox_run.py:474 | the stable descending sort is the ranking by time, then discovery order, of the same candidates |
| BatchSelection.BatchIsNewest | src/mailhelp/mailbox/mailbox_run.py:469-487 | the batch is distinct mail that does not wait, best first, at most `limit`; whatever is left out ranks behind all of it, and then it has exactly `limit` mails |
| BatchSelection.BestIsUnique | src/mailhelp/mailbox/mailbox_run.py:469-487 | a selection from the candidates in discovery order has this property if and only if it is the batch, order included |
| BatchSelection.SplitKeepsAll | src/mailhelp/mailbox/mailbox_run.py:488-490 | split by account every chosen mail stands at exactly one position of exactly one queue, and nothing else stands anywhere |
| BatchSelection.NewRunStorable | src/mailhelp/mailbox/mailbox_run.py:488-500 | a new queue passes its stored validation if and only if the remaining budget is not 0 (src/mailhelp/domain/run.py:74) |
| PollEvents.CrashAnywhere | src/mailhelp/mailbox/mailbox_run.py:502-556 | any prefix of the saves of a poll, followed by the loss of its memory, is a run that keeps the invariant |
| PollEvents.CallIsRun | src/mailhelp/mailbox/mailbox_run.py:387-556 | what any call of the service adds to the log is a run of the machine from the state before it to the state after it, and after any number of its saves the process may die with the invariant kept |
| PollEvents.CompleteEffect | src/mailhelp/mailbox/mailbox_run.py:366-378 | in every reached state completing changes one checkpoint only, and nothing at or below its boundary |
| PollEvents.CompletionIsExact | src/mailhelp/mailbox/mailbox_run.py:366-378 | in every reached state a completion above the boundary adds exactly its own UID to the ranges of its folder, raises the high-water mark to at least it, keeps boundary and generation, and leaves the same checkpoint in the memory of the poll |
| PollEvents.OutcomeIsDone | src/mailhelp/mailbox/mailbox_run.py:502-556 | a mail whose answer lets the batch go on has its result told in its queue entry, or still waits |
| PollEvents.CandidatesExactly | src/mailhelp/mailbox/imap.py:389-413 | the candidates of a folder are exactly its listed mail above the boundary and outside the finished ranges, with the receive time of the listing |
| PollEvents.UnfinishedIsCandidate | src/mailhelp/mailbox/mailbox_run.py:440-467 | after a discovery every listed mail above the boundary of a folder that can be read is a candidate, unless it was finished in this generation |
| PollEvents.ActiveExactly | src/mailhelp/mailbox/mailbox_run.py:387-430 | a poll continues exactly the positions, whole, of the configured accounts' queues that still have runnable mail |
| Checkpoints.LoadedPrefix | src/mailhelp/mailbox/mailbox_run.py:275-279 | a checkpoint written before ranges existed finished exactly the UIDs between its boundary and its high-water mark |
| MailboxRun.MailBudget.Take | src/mailhelp/mailbox/mailbox_run.py:56-58 | a limited budget loses one, an unlimited one stays |
| MailboxRun.MailboxRunService.StartCheckpoint | src/mailhelp/mailbox/mailbox_run.py:259-280 | the boundary is fixed by one save on first use and never again: at the historical start if one is given, else at the high-water mark |
| MailboxRun.MailboxRunService.PrepareFolder | src/mailhelp/mailbox/mailbox_run.py:440-467 | whatever fails in between, a folder is opened exactly when it is selected and listed and its boundary is known, not needed or can be found; it is then of the reported generation |
| MailboxRun.MailboxRunService.RestartGeneration | src/mailhelp/mailbox/mailbox_run.py:287-317 | the new generation and its empty ranges are durable before anything is listed |
| MailboxRun.MailboxRunService.CompleteUid | src/mailhelp/mailbox/mailbox_run.py:366-378 | what is saved passes the stored validation; an excluded UID saves nothing |
| MailboxRun.MailboxRunService.RememberGeneration | src/mailhelp/mailbox/mailbox_run.py:380-385 | an empty folder records the reported generation if none was known; its boundary and ranges and all other folders stay |
| MailboxRun.MailboxRunService.DiscoverFolder | src/mailhelp/mailbox/mailbox_run.py:440-467 | the folder is opened exactly when nothing needed fails, and gives exactly the candidates of its listing, otherwise none; all candidates are of the current generation, above the boundary and unfinished, other folders' contexts stay |
| MailboxRun.MailboxRunService.DiscoverAll | src/mailhelp/mailbox/mailbox_run.py:397-403 | unless queues continue or the budget is used up, every readable folder is opened and the candidates are exactly the wanted mail of all opened folders, in discovery order, whichever other folders fail; the log grows |
| MailboxRun.MailboxRunService.NewRuns | src/mailhelp/mailbox/mailbox_run.py:469-500 | every queue of the batch is durable before any mail of it is fetched, or the call raises because the budget is 0 |
| MailboxRun.MailboxRunService.ProcessQueued | src/mailhelp/mailbox/mailbox_run.py:502-556 | for every answer the exact saves, in order, and what they come to: a durable mail of the current generation is finished, told in its entry and, above the boundary, contained in the checkpoint of its opened folder, stored and in memory; a failed, held, broken or late one changes no checkpoint; one unit of budget for a mail that goes, and exactly which answers end the batch |
| MailboxRun.MailboxRunService.ProcessRuns | src/mailhelp/mailbox/mailbox_run.py:406-412 | position by position within the budget; every position passed is done, and it ends early only with the budget or at an answer that does not let the batch go on |
| MailboxRun.MailboxRunService.FinishEntry | src/mailhelp/mailbox/mailbox_run.py:558-597 | the terminal status of one entry is one save, all identities stay |
| MailboxRun.MailboxRunService.Settle | src/mailhelp/mailbox/mailbox_run.py:539-556 | the result of a mail that does not wait: told in its entry, and then, above the boundary, contained in the checkpoint unless it failed; it raises exactly when a durable mail has no opened folder |
| MailboxRun.MailboxRunService.Resume | src/mailhelp/mailbox/mailbox_run.py:658-704 | one due mail: finished, told and completed if its answer is durable, otherwise every record stays as it is |
| MailboxRun.MailboxRunService.CompleteResumed | src/mailhelp/mailbox/mailbox_run.py:607-655 | the queue entry is saved before the checkpoint; a mail with an open entry is told in it and, above the boundary, contained in its checkpoint afterwards; one without saves nothing |
| MailboxRun.MailboxRunService.ResumePending | src/mailhelp/mailbox/mailbox_run.py:658-704 | the due mails of a prefix of the records are resumed, each durable one finished and its open entry told; one unit of budget each, blocked mail is counted apart, and it stops only when one of the two is used up; queue positions only end |
| MailboxRun.MailboxRunService.Poll | src/mailhelp/mailbox/mailbox_run.py:183-202 | one poll with a limit of n processes at most n mails, resumed and queued together; its saves extend the log as a run of the machine; it is refused exactly when resumed mail spent the limit while mailboxes exist, processing is not halted and no queue is active |
| MailboxRun.MailboxRunService.PollGlobal | src/mailhelp/mailbox/mailbox_run.py:387-412 | unfinished queues continue alone, otherwise the newest batch of exactly the discovered mail is formed; all within the remaining budget and as an extension of the log; every position passed is done, and it ends early only with the budget or at an answer that does not let the batch go on; refused exactly without active queues and budget |
| MailboxRun.SpentByResumedMail | src/mailhelp/mailbox/mailbox_run.py:183-202 | a poll limited to one, with one due mail and no queue, is refused |
| ConfirmedWrite.Execution.Execute | src/mailhelp/external/confirmed.py:15-79 | the effects of a call are exactly its trace; it raises exactly when `Raises` says so, and otherwise what is returned is what is stored |
| ConfirmedWrite.AtMostOneWrite | src/mailhelp/external/confirmed.py:41-79 | over all calls on one version, each dying anywhere, at most one write is started, and none unless the version was confirmed |
| ConfirmedWrite.IntentIsDurable | src/mailhelp/external/confirmed.py:54-68 | directly before every started write its `writing` record is saved |
| ConfirmedWrite.CreatedIsProven | src/mailhelp/external/confirmed.py:82-91 | `created` is saved only directly after an answer of reconciliation or operation with this non-empty id |
| ConfirmedWrite.WriteExactlyWhen | src/mailhelp/external/confirmed.py:18-68 | a call starts a write if and only if all guards pass |
| ConfirmedWrite.SavedForItsAnswer | src/mailhelp/external/confirmed.py:41-79 | over all calls and crashes `failed` is saved only directly after a refusal, and `uncertain` only directly after a lost answer or a search that found nothing |
| ConfirmedWrite.AnswerIsStored | src/mailhelp/external/confirmed.py:69-91 | what an uninterrupted call stores for its answer: created with a valid id, uncertain without an answer, failed for a refusal, and otherwise still the record it started with |
| ConfirmedWrite.StartedIsNeverForgotten | src/mailhelp/external/confirmed.py:15-79 | over all calls and crashes a version whose write has started is in doubt, created or simulated, or failed after a refusal |
| ConfirmedWrite.WithoutAnswer | src/mailhelp/external/confirmed.py:18-53 | what a call stores that neither writes nor finds anything: nothing where a guard stops it, its simulation in test mode, the doubt after a vain search of a version that is not fresh |
| ConfirmedWrite.DoubtIsKept | src/mailhelp/external/confirmed.py:41-53 | over all calls and crashes a write in doubt stays in doubt, becomes created or becomes simulated, and it becomes simulated exactly when a test-mode call without mismatch meets it and lives to save |
| ConfirmedWrite.FoundResolves | src/mailhelp/external/confirmed.py:41-46 | corollary of the trace: a complete call whose reconciliation finds the object stores it as created with its id |
| Drafts.DraftService.Do | src/mailhelp/notifications/drafts.py:124-225 | every durable world on the way of a click is one of its trace, in order |
| Drafts.DraftService.Append | src/mailhelp/notifications/drafts.py:227-256 | the APPEND is on its way, answered and recorded in this order |
| Drafts.ActDoes | src/mailhelp/notifications/drafts.py:190-256 | exactly when a click on save does anything; then every durable world holds its own version and its own submitted text, before the mailbox is touched, and it ends saved with that copy, open again after a refusal, or in doubt without an answer |
| Drafts.GenerateDoes | src/mailhelp/notifications/drafts.py:152-174 | exactly when a reply is stored; it is the next version, open for editing, with the generated text, and the mailbox stays |
| Drafts.CancelDoes | src/mailhelp/notifications/drafts.py:176-188 | exactly when an open draft is discarded; the next version is empty and the mailbox stays |
| Drafts.DigestIsExact | src/mailhelp/notifications/drafts.py:152-195 | the digest of a click tells apart everything but the key under which it is remembered |
| Drafts.NeverTwoCopies | src/mailhelp/notifications/drafts.py:190-256 | over all runs with crashes, refusals, lost answers, lost sessions and user deletions: never two copies of one version, and a saved draft has its copy with exactly the stored text unless the user deleted it |
| Drafts.DoubtIsSettled | src/mailhelp/notifications/drafts.py:227-256 | saving a draft in doubt once more ends in saved with its copy, whether or not the lost APPEND took effect |
| Drafts.RepeatIsQuiet | src/mailhelp/notifications/drafts.py:117-150 | corollary of the trace: repeating a remembered click that is not in doubt changes nothing |
| Notifications.QuietIsOneInterval | src/mailhelp/notifications/notifications.py:54-61 | quiet time is one interval after its start, across midnight too |
| Notifications.HandedAtMost | src/mailhelp/notifications/notifications.py:134-210 | over every interleaving of producers, ticks and crashes an existing entry is handed over at most `max_attempts` times, and only while `sending` is durable |
| Notifications.ClosedForever | src/mailhelp/notifications/notifications.py:49-52 | sent, uncertain, cancelled, refused or interrupted stays so, and is never handed over again, while the entry exists |
| Notifications.InterruptedIsClosed | src/mailhelp/notifications/notifications.py:143-147 | corollary of the scan: what a crash interrupted is closed as uncertain by the next scan |
| Notifications.AnswerCloses | src/mailhelp/notifications/notifications.py:190-204 | for every reached state and every delivery in flight: delivered is sent, an unclear answer uncertain, a refusal final, and only a request to retry leaves it waiting, while attempts are left and not due before now |
| Notifications.AgainOnlyWhenAsked | src/mailhelp/notifications/notifications.py:134-210 | over every run an existing delivery is handed over again only after the sender asked to retry it |
| Notifications.PauseDoubles | src/mailhelp/notifications/notifications.py:199-204 | the pause before the next attempt starts at the initial one and doubles up to its limit |
| Notifications.ReadyExactly | src/mailhelp/notifications/notifications.py:134-162 | the scan finds exactly what waits, is wanted, may disturb now, and is due or was deferred |
| Notifications.ScanLeaves | src/mailhelp/notifications/notifications.py:141-162 | what the scan leaves of each record: unwanted ones are cancelled, disturbing ones deferred, interrupted ones uncertain, exhausted ones failed, and only old irrelevant history goes |
| Notifications.StartLeaves | src/mailhelp/notifications/notifications.py:171-188 | what leaves with a group is looked at again, and each attempt is counted before it is made |
| Notifications.GroupIsExact | src/mailhelp/notifications/notifications.py:134-164 | one message is for one category, channel, device and mailbox |
| Notifications.NewDeliveries | src/mailhelp/notifications/notifications.py:92-117 | one new record for each destination without one, due with its waiting group, never attempted, and pending or with the status it inherits |
| Notifications.NotificationService.Enqueue | src/mailhelp/notifications/notifications.py:84-124 | existing records never change, waiting records stay within the limit, the first new records that fit are stored, and the queue-full error comes exactly when some do not fit |
| Notifications.ScanLoop | src/mailhelp/notifications/notifications.py:141-162 | the loop over the records applies the scan to each exactly once |
| Notifications.StartLoop | src/mailhelp/notifications/notifications.py:171-188 | exactly the candidates now `sending` leave |
| Notifications.NotificationService.Deliver | src/mailhelp/notifications/notifications.py:166-210 | the saves and hand-overs of one group are exactly start, hand-over and answer, in this order, or only the start if no candidate leaves; the group is no longer ready |
| Notifications.NotificationService.Tick | src/mailhelp/notifications/notifications.py:134-164 | the tick is one scan followed by the delivery of every group the scan found ready, each exactly once, and leaves nothing in flight |
| ProposalRepository.Repository.SaveRevision | src/mailhelp/persistence/proposals.py:73-114 | the four saves in their order, cut off after any of them |
| ProposalRepository.Repository.SyncRun | src/mailhelp/persistence/proposals.py:116-140 | the search loop changes exactly the entry of the mail |
| ProposalRepository.Repository.RecordWriteAttempt | src/mailhelp/persistence/proposals.py:142-155 | the reference is in the projection once |
| ProposalRepository.Repository.MarkNotification | src/mailhelp/persistence/proposals.py:178-198 | the mark is made, and reported, exactly where the expected status stands |
| ProposalRepository.SaveConverges | src/mailhelp/persistence/proposals.py:47-114 | after any number of interruptions one complete call reaches the records an uninterrupted one would |
| ProposalRepository.SavedAgrees | src/mailhelp/persistence/proposals.py:73-114 | afterwards the current record is the proposal and the mail shows it, its notification and its write attempt |
| ProposalRepository.RunAgrees | src/mailhelp/persistence/proposals.py:116-140 | afterwards the finished entry of the mail waits exactly while one of its proposals needs clarification or confirmation; its terminal result stays |
| ProposalRepository.NotificationsExactly | src/mailhelp/persistence/proposals.py:82-103 | the notifications after a save are exactly the stored ones of versions the mail holds, with their progress, and one announcement of the saved version if it had none: done for one that exists already or was merged, pending otherwise |
| ProposalRepository.FirstMarkSucceeds | src/mailhelp/persistence/proposals.py:88-103 | a saved version without a notification has a pending one afterwards, so that its first mark succeeds, exactly if it is neither merged nor there already |
| ProposalRepository.AttemptsExactly | src/mailhelp/persistence/proposals.py:200-222 | the write attempts gain one exactly for a version that was or is being written, with the service of its kind |
| ProposalRepository.SavedTouchesOne | src/mailhelp/persistence/proposals.py:73-114 | a save changes the records of its own proposal only, and never a snapshot that exists |
| ProposalRepository.ProjectedIsValid | src/mailhelp/domain/mail.py:82-97 | the new projection keeps one notification per id and version and unique write attempts |
| ProposalRepository.ProjectionUniqueExactly | src/mailhelp/persistence/proposals.py:82-106 | for every mail the projection has one notification per id and version if and only if no two proposals of one version are shown; shown are those with a notification and those with the id of the revision |
| ProposalRepository.SnapshotIsForever | src/mailhelp/persistence/proposals.py:77-78 | over all operations a snapshot keeps the first value written for its version |
| ProposalRepository.NoStatusIsLost | src/mailhelp/persistence/proposals.py:88-103 | over all interleaved saves and marks the notification of a current version never goes back |
| ProposalRepository.AttemptIsForever | src/mailhelp/persistence/proposals.py:200-222 | over all operations on a valid mail a recorded write attempt is never lost and never doubled |
| ProposalRepository.OneIdTwice | src/mailhelp/persistence/proposals.py:86-103 | a mail in which the id of the revision stands at two positions gets a projection the stored mail refuses |
| ICalText.IcalTextIsEscaped | src/mailhelp/external/ical.py:83-86 | the chain of replacements escapes character by character |
| ICalText.TextRoundTrip | src/mailhelp/processing/calendar_parser.py:31-38 | escaping, then trimming and unescaping, returns any text newline-normalised and stripped |
| ICalText.WrittenIsText | src/mailhelp/external/ical.py:83-86 | what is written is one line of TEXT by section 3.3.11 of RFC 5545: every comma, semicolon and backslash is escaped |
| ICalText.ForeignEscapes | src/mailhelp/processing/calendar_parser.py:31-38 | `\n` and `\N` are line breaks, the three escaped characters themselves, and any other escape stays as written |
| ICalText.FoldIcalLine | src/mailhelp/external/ical.py:89-104 | the loop cuts the line into `Chunks` and joins them |
| ICalText.ChunksFit | src/mailhelp/external/ical.py:89-104 | every physical line has at most 75 octets and no piece is empty |
| ICalText.ChunksKeepAll | src/mailhelp/external/ical.py:89-104 | whole code points are kept, in order: cutting loses nothing |
| ICalText.UnfoldRendered | src/mailhelp/processing/calendar_parser.py:19-25 | unfolding restores all folded lines up to edge white space |
| ICalText.FoldRemoved | src/mailhelp/processing/calendar_parser.py:19-25 | a line break before a blank or a tab is removed with it, wherever it stands |
| ICalText.NoFoldKept | src/mailhelp/processing/calendar_parser.py:19-25 | text without such a line break stays as it is |
| ICalText.RenderedOnlyCrLf | src/mailhelp/external/ical.py:89-104 | written lines are separated by CRLF and nothing else |
| ICalText.SizesAreUtf8 | src/mailhelp/external/ical.py:89-104 | the sizes that decide where a line is cut are those of its UTF-8 octets |
| ICalTree.ParseCalendar | src/mailhelp/external/icalendar_data.py:58-92 | the stack loop accepts and rejects exactly as the specification by single steps |
| ICalRoundTrip.ReadsTree | src/mailhelp/external/icalendar_data.py:53-55 | reading the lines of a tree attaches exactly this tree, whatever comes before and after |
| ICalRoundTrip.PrintedIsRead | src/mailhelp/external/icalendar_data.py:95-96 | every printable calendar within the size limit is read back up to trailing white space of values |
| ICalRoundTrip.AcceptedIsReadTree | src/mailhelp/external/icalendar_data.py:58-92 | every accepted tree is in the form that can be printed |
| ICalRoundTrip.ErrorsExactly | src/mailhelp/external/icalendar_data.py:67-92 | a line is an error exactly if it opens a second calendar object or closes what is not open |
| ICalRoundTrip.BareLine | src/mailhelp/external/icalendar_data.py:67-89 | a line of any program without parameters: the name is read in upper case, the value as it stands; BEGIN and END take the stripped name in upper case |
| ICalRoundTrip.ParamLine | src/mailhelp/external/icalendar_data.py:67-89 | with a parameter its key is read in upper case too, its value as it stands |
| ICalRoundTrip.AcceptedIsBalanced | src/mailhelp/external/icalendar_data.py:67-92 | accepted lines are balanced at every prefix, and none stays open |
| ICalRoundTrip.AcceptedIsCalendar | src/mailhelp/external/icalendar_data.py:58-92 | an accepted object is one VCALENDAR from at most a million octets |
| ICalRoundTrip.LastParamCounts | src/mailhelp/external/icalendar_data.py:86-89 | of a parameter given twice the last value counts |
| ICalRoundTrip.WrittenForms | src/mailhelp/external/icalendar_data.py:95-96 | the printed forms of a component and of a property with and without a parameter |
| ICalRoundTrip.RoundTrip | src/mailhelp/external/icalendar_data.py:58-96 | for every accepted input whose printed form is within the limit, parse of serialize of parse is parse |
| ICalEvent.Master | src/mailhelp/external/icalendar_data.py:158-163 | the result is the only component of its kind and not recurring; it refuses exactly when there is no such component |
| ICalEvent.UpdatedEventIsRead | src/mailhelp/external/icalendar_data.py:166-176 | an updated resource read back differs in nothing but the owned properties of its one event |
| ICalEvent.RefusedExactly | src/mailhelp/external/icalendar_data.py:158-171 | the change raises exactly for a rejected resource, one without a master, or an old SEQUENCE of digits that are not all decimal |
| ICalEvent.UntouchedNames | src/mailhelp/external/icalendar_data.py:136-155 | every property not replaced keeps its values and order |
| ICalEvent.UntouchedOrder | src/mailhelp/external/icalendar_data.py:136-155 | all of them together keep their relative order |
| ICalEvent.SequenceAndDuration | src/mailhelp/external/icalendar_data.py:150-175 | exactly one SEQUENCE, "1" if the old one is missing or not all digits, and no DURATION beside a new DTEND |
| ICalEvent.SequenceCountsUp | src/mailhelp/external/icalendar_data.py:150-155 | an old SEQUENCE printed as n in the digits of any script becomes n + 1 |
| ICalFields.UpdateSays | src/mailhelp/external/icalendar_data.py:136-155 | an updated event read back says the title, the description and the place of the body where it has them, and the event's own otherwise |
| ICalFields.UpdateTimes | src/mailhelp/external/icalendar_data.py:136-155 | so with start and end, as a day or a moment; a cancellation says so, and the key is always there |
| ICalFields.UpdateStamps | src/mailhelp/external/icalendar_data.py:166-176 | exactly one DTSTAMP, of this update, and no LAST-MODIFIED |
| ICalFields.OthersAreKept | src/mailhelp/external/icalendar_data.py:136-176 | every property of any other name keeps its values, a DURATION as long as no new end is given |
| ICalTodo.TodoRoundTrip | src/mailhelp/external/icalendar_data.py:122-133 | title, description and key of a written task come back newline-normalised, stripped and cut to their limits |
| ICalFields.TodoCarries | src/mailhelp/external/icalendar_data.py:122-133 | a written task carries its identity, the time it was written, and its due time as a day or a moment |
| ICalFields.OpenExactly | src/mailhelp/external/icalendar_data.py:203-207 | an open task is read exactly if the calendar has a task and nothing in the first one says that it is completed or cancelled |
| ModifiedUtf7.EncodeMailboxName | src/mailhelp/mailbox/imap.py:114-134 | the loop with its pending buffer writes `Encoded` |
| ModifiedUtf7.DecodeMailboxName | src/mailhelp/mailbox/imap.py:80-111 | the scanning loop reads `DecodedName`, for seven-bit and for eight-bit names |
| ModifiedUtf7.PlainExactly | src/mailhelp/mailbox/imap.py:82-86 | a name with a byte above 127 is read if and only if it is the UTF-8 of that name |
| Utf8.DecodeExactly | src/mailhelp/mailbox/imap.py:82-86 | strict UTF-8 decoding gives a text if and only if the bytes are the encoding of this text |
| Utf8.CharBytesAre | src/mailhelp/mailbox/imap.py:82-86 | the octets carry the code point as in section 3 of RFC 3629 |
| ModifiedUtf7.RoundTrip | src/mailhelp/mailbox/imap.py:80-134 | for every name: decoding its encoding returns it if something but white space and no control character is in it, and is refused otherwise |
| ModifiedUtf7.EncodingIsInjective | src/mailhelp/mailbox/imap.py:114-134 | different names never share a wire form |
| ModifiedUtf7.EncodedIsAscii | src/mailhelp/mailbox/imap.py:114-134 | the wire form has seven-bit octets only |
| ModifiedUtf7.StandardAlphabet | src/mailhelp/mailbox/imap.py:114-134 | the alphabet is that of base64 in section 4 of RFC 4648, with a comma for the slash |
| ModifiedUtf7.SameBits | src/mailhelp/mailbox/imap.py:114-134 | octets and sextets are the same bits, the unused ones 0 |
| ModifiedUtf7.BigEndianUnits | src/mailhelp/mailbox/imap.py:114-134 | the shifted characters are UTF-16 with the high octet first, with surrogates above the first plane |
| ModifiedUtf7.PlainStays | src/mailhelp/mailbox/imap.py:114-134 | a printable ASCII name without `&` is sent as it is |
| ModifiedUtf7.AmpersandIs | src/mailhelp/mailbox/imap.py:123 | `&` is sent as `&-` |
| ModifiedUtf7.KnownName | src/mailhelp/mailbox/imap.py:114-134 | a part of the example in section 5.1.3 of RFC 3501 is sent as there |
| ProposalRevision.RequiredRevisionQuestions | src/mailhelp/domain/proposal.py:352-388 | the list is built in this order |
| ProposalRevision.QuestionsAreComplete | src/mailhelp/domain/proposal.py:352-388 | for an unmerged, unresolved proposal that keeps the interval rules no question is left if and only if it is creatable and an event has start and end |
| ProposalRevision.InvalidationIsValid | src/mailhelp/domain/proposal.py:391-400 | the permission reset of a valid proposal always passes its validation |
| ProposalRevision.InvalidationWithdraws | src/mailhelp/domain/proposal.py:391-400 | no special permission and no lost question remain, and only what needs none may be confirmed |
| RevisionEffects.AsksExactly | src/mailhelp/domain/proposal.py:352-388 | a question is derived if and only if it has to be asked, said for each of the thirteen |
| RevisionEffects.InvalidationTouches | src/mailhelp/domain/proposal.py:391-400 | the reset changes the four permissions, and of an open proposal its questions and the status they give; nothing else |
| RevisionEffects.InvalidationAsks | src/mailhelp/domain/proposal.py:391-400 | an open proposal asks afterwards exactly what it asked before and what has to be asked without the permissions |
| ProposalRevision.Revision.FixDay | src/mailhelp/domain/proposal.py:414-448 | the in-place edit of the changes is `DayFixed`, including every refusal |
| ProposalRevision.Revision.FixInterval | src/mailhelp/domain/proposal.py:451-479 | the in-place edit of the changes is `IntervalFixed`, including every refusal |
| ProposalRevision.ApplyProposalRevision | src/mailhelp/domain/proposal.py:482-504 | the stepwise application is `Revised` |
| ProposalRevision.RevisionKeeps | src/mailhelp/domain/proposal.py:482-504 | an accepted revision is valid, keeps identity and known start, adds one to the version, keeps every required question open, and awaits confirmation exactly without questions |
| ProposalRevision.RefusedOnlyForFacts | src/mailhelp/domain/proposal.py:238-317 | the final validation refuses a revision only for its facts, never for running out of questions |
| ProposalRevision.RevisionsKeep | src/mailhelp/domain/proposal.py:414-504 | over any sequence of revisions: identity stays, the version counts the accepted ones, and a known timed start is the same instant for ever |
| RevisionEffects.AcceptedExactly | src/mailhelp/domain/proposal.py:403-504 | a revision is accepted if and only if it answers an open question, is permitted, agrees with the known day and the confirmed start, nulls nothing that must be there, and its facts are consistent |
| RevisionEffects.FixedExactly | src/mailhelp/domain/proposal.py:414-479 | the two edits of the changes succeed exactly if no changed date contradicts the day and no changed start the confirmed one |
| RevisionEffects.FieldsAfter | src/mailhelp/domain/proposal.py:482-504 | afterwards every field has its given value or the stored one, and nothing a revision does not name has changed |
| RevisionEffects.FactsFixed | src/mailhelp/domain/proposal.py:414-479 | whenever the two edits succeed: facts are kept for as long as there is no interval, with the given day or the known one, the start as asked for, and no time of day beside a changed start |
| RevisionEffects.FactsAfter | src/mailhelp/domain/proposal.py:414-504 | so it is with the start and the known facts after every accepted revision |
| RevisionEffects.OpenAfter | src/mailhelp/domain/proposal.py:482-504 | open afterwards is exactly what was open and not answered, one occurrence of the answered question gone, and what has to be asked now |
| TemporalAnswers.NormalizeAnswer | src/mailhelp/temporal_answers.py:173-180 | the joined parts are the normal form |
| TemporalAnswers.ParsedIsProper | src/mailhelp/temporal_answers.py:123-170 | an accepted answer has existing dates and times only, and an end only with a start |
| TemporalAnswers.NormalizedIsRead | src/mailhelp/temporal_answers.py:53-71 | the ordered, backtracking match reads every normal form as the answer it stands for, under any reference |
| TemporalForms.GermanIsRead | src/mailhelp/temporal_answers.py:53-71 | `31.12.2026 10:00 bis 11:30` is day, month, year, start and end under any reference, and no answer exactly if the day does not exist |
| TemporalForms.ShortYearIsConfirmed | src/mailhelp/temporal_answers.py:146-156 | a two-digit year is an answer only if the reference is of a year that ends so, and then it is that year |
| TemporalForms.TodayIsRead | src/mailhelp/temporal_answers.py:72-134 | `heute`, with or without times, is the day of the reference, and no answer without one |
| TemporalForms.TodayAtIsRead | src/mailhelp/temporal_answers.py:72-134 | `heute um 10 Uhr` is that hour of the reference's day |
| TemporalForms.HoursAreRead | src/mailhelp/temporal_answers.py:55-71 | `10-12 Uhr` is two full hours, and no answer exactly if one is no hour of a day |
| TemporalForms.NormalShapes | src/mailhelp/temporal_answers.py:173-180 | a date is printed year first in ten characters, a time as `HH:MM` |
| TemporalAnswers.RecoveryNeedsNoReference | src/mailhelp/temporal_answers.py:109-180 | for every accepted answer the normal form gives the same facts under every reference date and none |
| ReportStore.ActivityReportStore.SaveMail | src/mailhelp/activity/store.py:62-74 | blocks of 500 behave as update-or-append on one list; one block is saved and the block form is kept |
| ReportStore.UpsertIs | src/mailhelp/activity/store.py:62-74 | no other mail changes, and the saved one is found |
| ReportStore.ActivityReportStore.SaveAnalysis | src/mailhelp/activity/store.py:76-94 | the stored mail, if any, is merged before it is replaced |
| ReportStore.MergeKeepsCorrections | src/mailhelp/activity/store.py:76-94 | the user's verdict, every manual event and the stored version of every event named again stay unchanged; a removed text stays removed, and everything else is the result's |
| ReportStore.EventsAreMerged | src/mailhelp/activity/store.py:76-94 | every model event of the result is in the merge: stored version first, otherwise as given, without evidence once the text is removed, under a number above all others exactly if a manual event has its id; the manual events follow |
| ReportStore.RemovedStaysRemoved | src/mailhelp/activity/store.py:80-83 | a later analysis never brings back a removed text, nor evidence where none is stored |
| ReportStore.MergeIsUnique | src/mailhelp/activity/store.py:85-93 | the merged ids are unique again |
| ReportStore.MergeIsStorable | src/mailhelp/activity/store.py:88-93 | the merged ids fit their stored pattern (src/mailhelp/activity/models.py:82) if and only if there is no collision or renumbering ends at 999 |
| ReportStore.MergedIdTooLong | src/mailhelp/activity/store.py:88-93 | a new event named like a manual `e1` beside a stored `e999` becomes `e1000`, which the stored pattern refuses |
| CallBudget.OpenRouterClient.ReserveCall | src/mailhelp/llm/openrouter.py:190-198 | whatever is stored: a call is granted exactly if fewer than `limit` calls are stored or the `limit`-th newest is 60 seconds old, and stored are then the younger ones and this one; a refusal saves nothing, and its time is exact if and only if the decisive call is as old as the oldest, always so if no more than the limit is stored |
| CallBudget.GrantsAreSpaced | src/mailhelp/llm/openrouter.py:190-198 | over any run with a clock that never goes back any `limit` + 1 consecutive calls span 60 seconds, although old entries are pruned |
| CallBudget.ExceededIsExact | src/mailhelp/llm/openrouter.py:194-196 | no reservation succeeds before the reported time, and one succeeds from then on if none comes first |
| CallBudget.LoweredLimit | src/mailhelp/llm/openrouter.py:194-196 | for any stored calls: refused under a lowered limit, the reported time is exact if and only if the decisive call is as old as the oldest that counts |
| CallBudget.LoweredLimitFails | src/mailhelp/llm/openrouter.py:194-196 | calls at 0 and 1, limit lowered to one: the reported 60 is too early |
| CallBudget.AllowedCalls | src/mailhelp/activity/budget.py:58 | at least one call, otherwise the whole part of the share |
| CallBudget.ReportCalls.WaitForShare | src/mailhelp/activity/budget.py:55-65 | the share is read from the settings once per call; it returns at the first waking with room or after a stop, with its call recorded, and without a stop keeps every spacing at least as wide as the present share |

## Left out

- `--ignore-historical-start` and the folder path for readers without discovery (src/mailhelp/mailbox/mailbox_run.py:209-257, 281-285).
- Checkpoints written before ranges existed: `Loaded` imports their prefix as the code does, but `EveryRunIsSound` starts from an empty store, because nothing records which of those UIDs were finished.
- A second change of UIDVALIDITY during one folder's boundary search; it makes the folder fail for this poll. In `MailboxRunService` the server's generation changes only between two calls (`RestartServer`); in `Checkpoints` it may change at any step.
- The stop event of a poll: stopping early is a prefix of the same saves.
- Folder lists, run summaries and log events of a poll.
- Wire quoting of mailbox names.
- Quoted iCalendar parameter values: the parser cuts at the first colon and every semicolon, and accepted trees are proved to have the form this needs.
- Case and digit tables of Unicode beyond the laws stated, the host language's limit of 4300 digits for a number (a longer SEQUENCE is counted up here), and the conversion of times, which arrive printed.
- Resources of new events and the summaries read from events (src/mailhelp/external/icalendar_data.py): they are built from the same printers, and only updates of events and tasks are modelled.
- Sharing of iCalendar components: `Component` is a value, so changing one event in place and sharing it with its calendar is not modelled.
- Retention of drafts, of report texts and of notifications' payloads; message headers; the oldest-first choice of evicted idempotency keys, which is any choice here.
- The order of deliveries inside one notification message, and rewriting of queue entries of earlier versions from outside the service.
- Existing briefing records that a new briefing inherits from: the inherited status is a parameter of `NotificationService.Enqueue`.
- Timestamps of records, the review archive, and fields of a proposal no rule reads (`content`).
- SHA-256 identities are the tuples they are computed from.
- Time zones: an instant is a local time with its offset, and times at a clock change are left out.
- Duplicate event ids inside one stored report mail: the merge is stated for versions with unique ids.
- The `reidentify` and deletion paths of the report store, the provider's own rate limits, and rounding of floating-point times: `CallBudget` counts in reals.
- All input and output: sockets, files, prompts and answers of language models, Telegram and the web pages.
