# Background tasks and line routing, verified

A Dafny model of the parts of AIShe that decide something hard: the background-task record shared by launcher, worker,
terminal, canceller and pollers; the line router; and the self-contained algorithms around them. Verify everything with
`dafny verify dfyconfig.toml`.

| file | models |
|---|---|
| `TaskRecord.dfy`, `TaskStore.dfy` | the record: what each closure makes of it, as functions, and the class that changes it in place |
| `TaskRuns.dfy`, `TaskProperties.dfy`, `TaskOutcomes.dfy`, `TaskQuestions.dfy` | every interleaving of those steps, and what all of them keep |
| `TaskTurns.dfy`, `TaskStates.dfy`, `TaskGuards.dfy` | how attempts end, are answered and resumed; the graph of states; who may take each step |
| `TaskReplay.dfy` | the stored record under a whole run: the class driven through any sequence of steps |
| `Steering.dfy`, `Plan.dfy` | rework instructions on their way into the transcript; replanning |
| `Segments.dfy`, `SegmentCuts.dfy` | splitting a line at its operators, and where exactly it is cut |
| `Router.dfy`, `RouteRules.dfy`, `RouteShapes.dfy` | the routing decision and its fast path; which lines run, and which shapes decide a line |
| `ConfigMerge.dfy`, `ConfigReader.dfy` | a project's table filtered by trust and merged; how a configuration is read and printed |
| `ProjectConfig.dfy`, `ConfigReports.dfy`, `ConfigExcerpt.dfy` | the configuration a project leaves, what its reported keys do, and an excerpt of the program's own |
| `EditDistance.dfy`, `Fuzzy.dfy`, `Wildcard.dfy` | optimal string alignment, subsequence scores, ranking, correction, wildcard patterns |
| `Calendar.dfy` | Gregorian dates from day numbers, in both copies |
| `MachO.dfy`, `MachOWriter.dfy`, `Outliner.dfy` | the load-command parser against a writer, and the compiler-flag check of the build |
| `Quoting.dfy`, `Startup.dfy` | shell words printed and read back; the marked block in a startup file |
| `StateSize.dfy` | the bounded scan of stored state |
| `Text.dfy`, `Wrappers.dfy` | characters, words and results shared by the others |

A step of the record protocol is one closure run under the record lock. It is a function from the stored record to the
record to save, or a refusal; a run is any sequence of steps. What a caller saw before taking the lock is a parameter of
its step and may be arbitrarily stale. Whether a process is alive, whether a signal or a checkpoint write succeeded, and
the clock are parameters too. No proof rests on checks made before the lock.

Where the code does not do what its documentation suggests, or a property needs a condition, the model follows the code
and the exact condition is proved:

- Active time is conserved exactly when no workflow stage is put back after it had been Starting for some time: putting it
  back drops the attempt unsettled (`TaskProperties.NoAttemptLost`, `TaskProperties.StageReturnLeaks`).
- An attempt can end and leave its question unanswered in exactly three ways: a reconcile that finds the worker gone and its
  checkpoint not waiting, the handoff of a foreground attempt, and a stage put back, which can hold a question only after a
  resume. Over every run a question stands on records of every state but Completed, Cancelled and Discarded
  (`TaskQuestions.NextFate`, `TaskQuestions.StageAsksOnlyAfterResume`, `TaskQuestions.MayHoldIsExact`).
- A record adopted from a checkpoint copies the checkpoint's steering revision and none of its instructions; reworked
  instructions all reach the transcript exactly when that revision was zero (`Steering.AdoptedDelivery`).
- A new verdict gets a new `result_revision` exactly below the top of the counter (`TaskOutcomes.FreshVerdictIsStamped`).
- An empty argument is displayed as nothing; a displayed command line parses back to its arguments exactly when none is
  empty (`Quoting.DisplayRoundTrip`).
- Looking up only the heads of a line's segments dispatches differently from a full scan exactly when the line comes down to
  a head of its own that is an executable and no segment's head (`Router.OneShotDiffersExactly`). Where no executable's name
  holds an operator character the dispatch is the same, and the hints that come with it differ exactly when the head of the
  line, or of what follows its sigil, is an executable, no builtin, and no segment's head: behind a sigil, or behind an
  assignment glued to an operator (`Router.HintDiffersExactly`).
- A prefix match of a query of n characters outranks every other match exactly while a quarter of its length, rounded down, is
  at most 500 plus a quarter of n + 1, rounded down; below 2004 characters it always does (`Fuzzy.PrefixBound`).
- A project key is reported as applied even where it has no effect. It takes effect exactly when the configuration can be
  printed, the merged table reads back, the program knows the key, and no connection selected by the same project puts its
  own provider or name there (`ConfigReports.ReportedTakesEffect`). Each way to fail has its input: a mode that is not text
  takes every other key down with it, an unknown key is ignored, and a provider gives way to the selected connection's
  (`ConfigReports.UnreadableMergeIsReported`, `ConfigReports.UnknownKeyIsReported`, `ConfigReports.ProviderIsOverwritten`).
- A trusted project that selects a known connection of another provider changes `aishe.provider` too, which is not reported.
  Apart from applied keys nothing else ever changes (`ProjectConfig.ChangesExactly`,
  `ConfigReports.ProviderChangesUnreported`).
- A directory entry whose record cannot be read is passed over. A scan that says complete reports the true totals exactly
  when no such entry leads to something that counts (`StateSize.StateSize`, `StateSize.ScanPastLostEntry`).

One property is proved under a sufficient condition only: a segment of a line splits to itself as long as no parenthesis is
opened after one closing too many. Without the condition it can fail, and need not
(`Segments.SegmentsSplitNoFurther`, `Segments.OverclosedSegmentsSplitAgain`).

## Model

| member | source | states |
|---|---|---|
| TaskStore.Record.SettleElapsed | src/background.rs:882-893 | adds the open attempt's milliseconds, capped at u64::MAX, to the elapsed time and closes the attempt; a second call changes nothing more |
| TaskStore.Record.InvalidatePending | src/background/interactions.rs:909-918 | no request stays answerable or answered; every other request keeps its status and its place |
| TaskStore.Record.WithdrawUnanswered | src/background.rs:871-879 | only unanswered requests are withdrawn; answers already given stay |
| TaskStore.Record.Publish | src/background.rs:831-854 | a completed result with a queued follow-up is published as Interrupted with status 75; a waiting worker keeps its pid, any other loses it |
| TaskStore.Record.ChargeChanges | src/background.rs:858-868 | an exceeded change budget turns any outcome into Failed with status 1 and marks the budget for good; otherwise nothing changes |
| TaskStore.Record.CloseRequests | src/background.rs:869-879 | after an exceeded budget no request can be answered; otherwise only a waiting record keeps its open questions |
| TaskStore.Record.FinishRecord | src/background.rs:822-880 | in-place form of Finished: an outcome lands only on Starting, Running or Interrupted, and any other record is left untouched in every field |
| TaskStore.Record.FinishNativeRecord | src/background.rs:764-820 | a callback for a foreign checkpoint is refused; on a cancelled record it only confirms status 130; missing evidence turns a completion into a failure |
| TaskStore.Record.Launch | src/background.rs:533-542 | a worker is recorded only while the record is still Starting, so a fast worker's own state is never replaced |
| TaskStore.Record.Attach | src/background.rs:574-600 | a checkpoint is linked once and never replaced; no effects are admitted outside Starting and Running; a refusal changes nothing |
| TaskStore.Record.FinishForeground | src/background.rs:1653-1668 | only the owning terminal's callback counts; it gives the terminal up in the same step; other refusals change nothing |
| TaskStore.Record.Cancel | src/background.rs:1144-1189 | the first cancel closure: only a cancellable record, only a process that is still the worker, and status 130 with every request closed |
| TaskStore.Record.ReleaseCancelled | src/background.rs:1225-1237 | the signalled process is forgotten only once it has stopped and only on a record that is still cancelled |
| TaskStore.Record.ClaimResume | src/background.rs:1301-1326 | resume's claim under the lock: the elapsed time is kept, a fresh attempt opens, the old outcome is forgotten; refused otherwise |
| TaskStore.Record.ClaimForeground | src/background.rs:1622-1649 | the claim succeeds only on the checkpoint and revision its caller read, with no live worker; refused otherwise with nothing changed |
| TaskStore.Record.Adopt | src/background.rs:1472-1487 | handing off settles and interrupts a foreground attempt, and leaves any other record alone |
| TaskStore.Record.Rework | src/background.rs:1680-1722 | an instruction is appended and the revision counts all of them, only after every guard; a refusal changes nothing |
| TaskStore.Record.CombinedLength | src/background.rs:1706-1714 | the loop adds the UTF-8 lengths of all stored instructions |
| TaskStore.Record.Discard | src/background.rs:1735-1770 | discarding closes every request and is refused while an attempt or a question is open |
| TaskStore.Record.Reconcile | src/background.rs:2182-2210 | reloaded under the lock, a record whose worker is gone becomes Waiting exactly when its checkpoint waits and a question or answer is open, else Interrupted; a live one is untouched |
| TaskStore.TaskFile.Save | src/background.rs:2311-2339 | what is stored equals the record but for result_revision, which is the larger of both and one more exactly when a settled record's stamped fields changed |
| TaskStore.TaskFile.StampAndSave | src/background.rs:2341-2356 | the stored updated_at_ms is the clock or one more than before, whichever is later |
| TaskStore.TaskFile.Reconcile | src/background.rs:2149-2212 | from a possibly stale copy: the copy decides only whether the lock is taken, the record found under it decides the rest |
| TaskStore.Record.ApplyChanges | src/background/changes.rs:193-224 | only a finished record within its change budget takes an application; an uncertain one fails it, a complete one marks it applied |
| TaskStore.Record.ClaimStage | src/background/scheduler.rs:430-440 | only a blocked stage starts, and its attempt opens |
| TaskStore.Record.ReturnStage | src/background/scheduler.rs:243-250 | a stage that could not be launched is blocked again and its attempt forgotten |
| TaskStore.Record.SealStage | src/background/scheduler.rs:152-161 | a stage is frozen only at the revision its caller saw |
| TaskStore.Record.UnsealStage | src/background/scheduler.rs:171-181 | a completed stage that could not be handed on fails, an applied one only says so |
| TaskStore.Record.NoteStage | src/background/scheduler.rs:289-299 | only a blocked stage takes the note |
| TaskStore.Record.CreateRequest | src/background/interactions.rs:404-440 | only an attempt in progress on the record's own checkpoint asks, once a call and within the bound |
| TaskStore.Record.RecordResponse | src/background/interactions.rs:635-674 | only a waiting record takes an answer, and each open question one |
| TaskStore.Record.ConsumeInteraction | src/background/interactions.rs:519-542 | only an attempt in progress on the record's own checkpoint uses an answer up |
| TaskStore.Record.QueueFollowup | src/background/interactions.rs:687-719 | a follow-up joins only a live native task, within the bound |
| TaskStore.Record.RemoveFollowup | src/background/interactions.rs:767-773 | only a queued follow-up that is not being delivered can be removed |
| TaskStore.Record.AcknowledgeFollowups | src/background/interactions.rs:849-882 | the loop marks every delivered follow-up received, or refuses the whole batch |
| TaskRuns.ReconcileIsNext | src/background.rs:2149-2212 | the protocol's reconcile step and the file's reconcile agree from any stale copy |
| TaskRuns.ChangeMovesClock | src/background.rs:822-893 | every step opens, closes, keeps or (stage return only) drops the open attempt, and an attempt is open exactly in Starting and Running |
| TaskProperties.Accounting | src/background.rs:822-893 | at the last event of any run: the elapsed time is the base plus what was closed, and active time splits into closed, dropped and still open |
| TaskProperties.ActiveTimeConserved | src/background.rs:822-893 | over every interleaving with a nondecreasing clock, elapsed time is the starting base plus exactly the milliseconds spent Starting or Running, less what stage returns drop, capped at u64::MAX; an attempt is open exactly in those states |
| TaskProperties.DroppedExactly | src/background/scheduler.rs:243-250 | a run drops no time if and only if no stage return meets a record that had been Starting for some time |
| TaskProperties.NothingDropped | src/background/scheduler.rs:243-250 | a run without stage returns drops no time |
| TaskProperties.NoAttemptLost | src/background.rs:882-893 | elapsed time is the base plus all active time, capped, over every run that takes no stage back after it had been Starting for some time; below the cap, only over such a run |
| TaskProperties.StageReturnLeaks | src/background/scheduler.rs:243-250 | a counterexample run: a stage claimed and returned a second later is charged nothing for that second |
| TaskOutcomes.VerdictSurvives | src/background.rs:822-831 | no interleaving of post-spawn, attach, finish, finish_native, finish_foreground, cancel's release and reconciles from any snapshots changes the verdict of a record that accepts no outcome |
| TaskOutcomes.OnlySettledSurvive | src/background.rs:822-831 | the verdict survives every such interleaving if and only if the record is not Starting, Running or Interrupted |
| TaskOutcomes.Overtaken | src/background.rs:724-749 | a single worker failure overtakes any record that still accepts an outcome |
| TaskOutcomes.ExitCodesFit | src/background.rs:764-880 | over every run Cancelled means status 130, Completed means 0, and an open attempt shows no old outcome |
| TaskOutcomes.SettledOutcomeSurvives | src/background.rs:822-831 | from the moment any run settles a record, late callbacks cannot change state, exit code, error, budget verdict, checkpoint or revision |
| TaskOutcomes.DiscardedIsFinal | src/background.rs:1735-1770 | Discarded is absorbing over every run |
| TaskOutcomes.CancelledStays | src/background.rs:1144-1189 | a cancellation is undone only by resume, rework or discard |
| TaskOutcomes.NextAdvances | src/background.rs:2341-2356 | every save has a strictly larger updated_at_ms even when the clock runs backwards, and a revision that never falls |
| TaskOutcomes.NextStamps | src/background.rs:2326-2339 | the revision rises by one exactly when a settled record's stamped fields change |
| TaskOutcomes.RevisionNeverFalls | src/background.rs:2326-2339 | over any run the revision never decreases |
| TaskOutcomes.RevisionIsFaithful | src/background.rs:2326-2339 | two saves of one run outside Starting, Running and Waiting with equal revisions below the cap have the same state, exit code, error, budget flag and checkpoint |
| TaskOutcomes.ResettlingAdvances | src/background.rs:2326-2339 | settling again after a new attempt always takes a larger revision |
| TaskOutcomes.FreshVerdictIsStamped | src/background.rs:2326-2339 | a settled save with a new verdict gets a new revision if and only if the counter is below its top |
| TaskOutcomes.StampFailsAtTop | src/background.rs:2337-2338 | a counterexample at the top of the counter: the verdict changes and the revision does not |
| TaskOutcomes.ForegroundClaimsWhatItSaw | src/background.rs:1622-1635 | a foreground claim that succeeds on a settled record claims the very verdict its caller read, however many steps came between |
| TaskOutcomes.HistoryOnlyGrows | src/background.rs:574-600 | over every run instructions are only appended, a linked checkpoint never changes, and an exceeded change budget stays |
| TaskOutcomes.CompletionIsEarned | src/background.rs:840-868 | Completed is published exactly for a completion with no follow-up queued and within the change budget |
| TaskOutcomes.OutcomeClosesQuestions | src/background.rs:855-879 | finish_record alone: after an outcome only a waiting record keeps a question, and after an exceeded budget no answer is left either |
| TaskOutcomes.CancelledAsksNothing | src/background.rs:1177-1180 | a cancelled or discarded record holds neither a question nor an answer |
| TaskQuestions.NextFate | src/background.rs:2182-2210 | a step ends an attempt and leaves its question if and only if it is a reconcile over a lost worker whose checkpoint does not wait, the handoff of a foreground attempt, or the return of a starting stage; only an attempt in progress that owns a checkpoint asks |
| TaskQuestions.QuestionsStandOnlyWhereTheyMay | src/background/interactions.rs:884-893 | over every run no question stands on a Completed, Cancelled or Discarded record |
| TaskQuestions.StandingQuestionWasLeft | src/background.rs:1472-1487 | a question on a record with no attempt in progress was left there by one of those three steps, and no attempt has been in progress since |
| TaskQuestions.QuestionHasCheckpoint | src/background/interactions.rs:895-907 | over every run a question stands only on a record that owns a checkpoint |
| TaskQuestions.StageAsksOnlyAfterResume | src/background/scheduler.rs:243-250 | over every run without a resume, a record that is starting or put back owns no checkpoint and holds no question |
| TaskQuestions.MayHoldIsExact | src/background/interactions.rs:404-440 | a question can stand in a state if and only if it is none of those three, with a run from start to each |
| TaskTurns.TurnsEnd | src/background.rs:764-820 | within the change budget each of the eight ways a turn can end leaves its own state and exit status; only a turn that waits keeps its worker and its questions, and a cancelled one leaves not even an answer |
| TaskTurns.TurnOverBudget | src/background.rs:858-879 | beyond the change budget every turn fails the task for good and nothing is left to be answered |
| TaskTurns.WorkersEnd | src/background.rs:724-749 | a worker without a checkpoint ends by its exit status alone: 0, 2, 130, anything else, or an error |
| TaskTurns.ForegroundEnds | src/background.rs:1653-1672 | the owning terminal's report ends the attempt as the worker's would and gives it up; another terminal's is refused |
| TaskTurns.NoneResumesUnanswered | src/background/interactions.rs:920-931 | no resume and no terminal opens an attempt while a question stands unanswered |
| TaskTurns.WaitingTurnIsResumed | src/background.rs:812-879 | a turn that waits keeps its questions; once each is answered a resume opens a new attempt on the same checkpoint with every answer at hand, and no time is added while the record waited |
| TaskStates.LinesAreExact | src/background.rs:822-893 | the state graph of the protocol: a kind of step can lead from one state to another if and only if the table says so |
| TaskStates.StepLeads | src/background.rs:822-893 | no step ever moves a record along any other line |
| TaskStates.LossIsNoticed | src/background.rs:2149-2210 | a poller ends an attempt exactly when its worker is recorded and gone, or none was recorded within five seconds; what is left waits or is interrupted |
| TaskStates.SealedStaysClosed | src/background/scheduler.rs:152-161 | a finished stage handed forward opens no attempt again over any run without unsealing it or claiming it at a terminal |
| TaskGuards.WorkerIsRecorded | src/background.rs:533-542 | a worker is recorded once, while the record is starting |
| TaskGuards.AttachOwns | src/background.rs:574-600 | a checkpoint is linked exactly to an attempt in progress, in its workspace, that owns none or this one |
| TaskGuards.ResumeOpens | src/background.rs:1301-1326 | exactly when a detached attempt is opened, with everything kept but the old outcome, the terminal and the worker |
| TaskGuards.TerminalOpens | src/background.rs:1622-1649 | exactly when a terminal opens one: on the checkpoint and revision it saw, where no terminal and no live worker has the record |
| TaskGuards.HandoffTakes | src/background.rs:1472-1487 | handing over takes a record from its terminal, settled and interrupted, and leaves any other alone |
| TaskGuards.CancelStops | src/background.rs:1144-1189 | exactly when a record is cancelled: a worker that can act was signalled and stays on the record, without one the checkpoint was marked |
| TaskGuards.StoppedWorkerIsForgotten | src/background.rs:1225-1237 | exactly when the signalled worker is forgotten |
| TaskGuards.CancelledIsConfirmed | src/background.rs:764-785 | a callback for another checkpoint is refused; on a cancelled record it only confirms the status, once the checkpoint is marked |
| TaskGuards.ReworkTakes | src/background.rs:1680-1722 | exactly when an instruction is taken: at rest, with a checkpoint, minutes and changes left, 32 KiB at most and 64 KiB in all |
| TaskGuards.DiscardTakes | src/background.rs:1735-1770 | exactly when a record is discarded, and that nothing on it can be answered any more |
| TaskGuards.ApplyTakes | src/background/changes.rs:193-224 | exactly when an application is recorded, and how each way it can end is |
| TaskGuards.StagesMove | src/background/scheduler.rs:430-440 | only a blocked stage starts, and a stage that has not been launched goes back |
| TaskGuards.StagesSeal | src/background/scheduler.rs:152-161 | exactly when a stage is frozen |
| TaskGuards.UnsealMoves | src/background/scheduler.rs:171-181 | the seal comes off whatever happened; only a completed stage fails |
| TaskGuards.AskTakes | src/background/interactions.rs:404-440 | exactly when a question is recorded: by the attempt in progress on its own checkpoint, once a call, 128 in all |
| TaskGuards.AnswerTakes | src/background/interactions.rs:635-674 | exactly when an answer is recorded, and when one is used |
| TaskGuards.FollowupsMove | src/background/interactions.rs:687-719 | exactly when a follow-up joins the end of the queue, and when it is taken back |
| TaskGuards.BatchIsReceived | src/background/interactions.rs:849-882 | a batch of deliveries is received as a whole, and nothing else is, or not at all |
| TaskGuards.StampFollowsClock | src/background.rs:2341-2356 | a save is stamped with the clock, or one millisecond after the last save where the clock is behind |
| TaskReplay.Perform | src/background.rs:2341-2356 | one process's update of the stored file is one step of the protocol, for every step |
| TaskReplay.Replay | src/background.rs:2341-2356 | any processes one after the other leave in the file what the run says |
| TaskReplay.Serve | src/background.rs:2341-2356 | what a new task's file holds after any run: the time accounting, an exit status that fits, questions only where they may stand and only on an owned checkpoint, history only extended |
| TaskReplay.ServeLate | src/background.rs:822-831 | late callbacks and stale reconciles leave the verdict in a settled file alone |
| Steering.ResumeCheckpoint | src/background.rs:605-639 | the loop appends exactly the instructions the checkpoint has not seen, and reopens a completed checkpoint when there is new work |
| Steering.ContinuedIsCurrent | src/background.rs:605-639 | continuing a checkpoint that holds its first k instructions always succeeds and yields all instructions once, in order |
| Steering.StepsStayConsistent | src/background.rs:605-639 | every checkpoint stored or held by a worker at revision k keeps holding exactly the first k instructions, over any order of saves, resumes and steps of the record protocol |
| Steering.EveryInstructionOnce | src/background.rs:605-639 | from start, over every run of the record protocol with stale workers saving in any order, resuming the stored checkpoint yields each instruction exactly once, in order |
| Steering.ProtocolMoves | src/background.rs:1680-1722 | every step of the record protocol changes the instructions by one rework or not at all |
| Steering.AdoptedDelivery | src/background.rs:1541-1542 | for a record adopted from a checkpoint, reworked instructions all reach the transcript if and only if the adopted revision was zero |
| Steering.ResumedIsOpen | src/background.rs:614-638 | a checkpoint resumed with an unseen instruction or a queued follow-up is never completed, and its status is left alone otherwise; its elapsed time is the larger of both |
| Steering.RefusedExactly | src/background.rs:615-617 | a checkpoint is refused exactly when it claims instructions the record never had |
| Plan.CollectCredits | src/background.rs:1790-1794 | the completed steps' texts and evidence, in order |
| Plan.BuildPlan | src/background.rs:1789-1820 | the loop builds the plan in which every text takes the first unused matching evidence |
| Plan.CompletedWorkConserved | src/background.rs:1789-1820 | for every text the new plan's completed steps carry the first min(requested, earned) pieces of its old evidence, in order and each once |
| Plan.PlanShape | src/background.rs:1789-1820 | one step a requested text, numbered from one; only completed steps carry evidence; without preservation none is completed |
| EditDistance.NextEntry | src/fuzzy.rs:77-84 | one table entry from the entries around it, with the adjacent swap |
| EditDistance.FillTable | src/fuzzy.rs:62-87 | the nested loops fill the table with the distances of all prefixes |
| EditDistance.EditDistance | src/fuzzy.rs:58-88 | edit_distance of two texts is the distance of their lowercased forms |
| EditDistance.NoCheaperScript | src/fuzzy.rs:58-88 | no alignment by match, substitute, insert, delete and unedited adjacent swap costs less than the table says |
| EditDistance.BestScript | src/fuzzy.rs:58-88 | some such alignment costs exactly what the table says |
| EditDistance.TableIsOptimal | src/fuzzy.rs:58-88 | the table's last entry is the least cost over all alignments |
| EditDistance.DistanceOfWords | src/fuzzy.rs:58-88 | symmetric; zero exactly when the lowercased texts are equal; between the length difference and the longer length |
| EditDistance.SwapIsOneEdit | src/fuzzy.rs:81-83 | one adjacent transposition is one edit |
| EditDistance.LoweredBoth | src/fuzzy.rs:59-60 | lowercasing goes character by character, in order |
| Fuzzy.Scan | src/fuzzy.rs:18-35 | the scan's matched count, first position and contiguous count are those of the earliest embedding |
| Fuzzy.SubsequenceScore | src/fuzzy.rs:11-52 | an empty query scores zero; otherwise the score of the lowercased texts |
| Fuzzy.ScoreMeansSubsequence | src/fuzzy.rs:11-52 | a score exists exactly when the query is a subsequence of the candidate |
| Fuzzy.ScoreIsExact | src/fuzzy.rs:11-52 | the score in terms of the earliest place of the query in the candidate: 1000 or 500, ten for each adjacent pair, less the first place and a quarter of the length |
| Fuzzy.OtherScore | src/fuzzy.rs:40-51 | the best score without the prefix bonus, in terms of the query's length |
| Fuzzy.InnerScore | src/fuzzy.rs:40-51 | that best score is reached |
| Fuzzy.PrefixBound | src/fuzzy.rs:40-51 | a prefix match outranks every other match of its query if and only if a quarter of its length is at most 500 plus a quarter of the query's length plus one |
| Fuzzy.PrefixBoundIsExact | src/fuzzy.rs:40-51 | at 2004 characters a one-letter query's prefix match only ties with another match |
| Fuzzy.PrefixOutranks | src/fuzzy.rs:40-51 | for a nonempty query any prefix match shorter than 2004 lowercased characters scores above every other match |
| Fuzzy.Correction | src/fuzzy.rs:94-116 | the one-pass choice is the preferred eligible name: nearer, then shorter in bytes, then alphabetically first |
| Fuzzy.CorrectionIsBest | src/fuzzy.rs:94-116 | any other name within the limit is further away, or as far and longer, or as far, as long and later in the alphabet |
| Fuzzy.CorrectionIsUnique | src/fuzzy.rs:94-116 | the correction depends on the set of names only, not on how they are enumerated |
| Fuzzy.Rank | src/fuzzy.rs:120-127 | the matching items, best score first, ties alphabetically |
| Fuzzy.RankingIsUnique | src/fuzzy.rs:120-127 | a ranked list is determined by its contents |
| Fuzzy.RankedMeans | src/fuzzy.rs:120-127 | in a ranked list scores never rise and equal scores stand in alphabetical order |
| Fuzzy.RankIgnoresOrder | src/fuzzy.rs:120-127 | ranking two orders of the same items gives the same list |
| Calendar.NextDateIsNextDay | src/audit.rs:669-680 | the day number counts the days of the Gregorian calendar one by one |
| Calendar.DayNumberIsInjective | src/audit.rs:669-680 | a day number names at most one date |
| Calendar.YearOfEra | src/audit.rs:672-675 | the era arithmetic finds the year and the day of the year for every day of a 400-year era |
| Audit.CivilIsTheDate | src/audit.rs:669-680 | for every day number the result is a real date and counting its days gives the number back |
| Audit.CivilInvertsDayNumber | src/audit.rs:669-680 | every date comes back from its day number, and the next day number gives the next calendar date |
| Audit.PrintedOrder | src/audit.rs:663-667 | printed dates of years up to 9999 sort as text in calendar order |
| Audit.DateTextsOrderDays | src/audit.rs:651-667 | two timestamps print the same date exactly when they fall on the same day, and text order is day order |
| History.CopiesAgree | src/histlog.rs:173-184 | the history's own conversion gives the audit log's date for every day number |
| History.LogsAgree | src/histlog.rs:157-171 | both logs print any known second alike |
| Audit.DateReadsBack | src/audit.rs:663-667 | a printed date of a year up to 9999 reads back as its year, month and day, in this order and in fixed places |
| Audit.MinuteReadsBack | src/audit.rs:651-661 | a printed time of day reads back as its hour and minute, so the second comes back up to 59 seconds |
| History.TimeReadsBack | src/histlog.rs:157-171 | the history's text reads back as the date and the minute of a known second; an unknown one is as wide, and blank |
| Segments.ScanPieces | src/dispatcher.rs:1211-1305 | the loop over quotes, escapes and parentheses cuts the line where the scanner does |
| Segments.SplitTopLevel | src/dispatcher.rs:1211-1309 | the trimmed, nonempty pieces in order |
| Segments.PiecesAreLossless | src/dispatcher.rs:1211-1305 | the pieces with the operators found put back between them are the text that was read |
| Segments.SplitIsLossless | src/dispatcher.rs:1204-1309 | the line is its segments with gaps of whitespace and operator characters around them, every inner gap holding an operator |
| Segments.SplitIsCompositional | src/dispatcher.rs:1211-1309 | where a ends outside quotes and escapes at depth zero, splitting a;b gives the segments of a followed by those of b |
| Segments.SegmentsSplitNoFurther | src/dispatcher.rs:1211-1309 | while no parenthesis is opened after one closing too many, every returned segment splits to itself |
| Segments.OverclosedSegmentsSplitAgain | src/dispatcher.rs:1243-1263 | a counterexample after one closing parenthesis too many: a returned segment splits again |
| Router.EffectiveCommandToken | src/dispatcher.rs:1049-1062 | the loop finds the first token that is no assignment |
| Router.OneShotCommands.ForLine | src/dispatcher.rs:705-719 | the set holds exactly the heads of the line's segments that are on the PATH and no builtins |
| Router.FastShellLine | src/dispatcher.rs:748-771 | admits a line as Admitted says, with only its own heads looked up |
| Router.AssignmentBeforeOperator | src/dispatcher.rs:1067-1079 | a word is an assignment whether or not operators follow it directly |
| Router.OneSegment | src/dispatcher.rs:888-937 | a trimmed line of at most one segment whose head holds no operator is that segment followed by a gap |
| Router.HeadBeforeGap | src/dispatcher.rs:1049-1062 | a head without operator characters is the head of the text before the gap |
| Router.HeadLookedUp | src/dispatcher.rs:705-725 | on a line of one segment the head is known to the one-shot set exactly when it is known to the full scan |
| Router.OneShotDecidesAlike | src/dispatcher.rs:698-719 | if no executable's name holds an operator character (semicolon, bar or ampersand), looking up only the segments' heads gives the verdict (kind, payload, reason, source, dispatch) and head of the full scan, for every line; for a plain line of one segment the whole decision |
| Router.MoreCommandsKeepAnswers | src/dispatcher.rs:781-952 | enlarging the command set never changes a Shell or Builtin answer |
| Router.OneShotWithinScan | src/dispatcher.rs:464-469 | the one-shot set is part of the scanned set |
| Router.ShellPayload | src/dispatcher.rs:781-952 | a shell answer's payload is the trimmed line, without a leading `!` |
| Router.AdmittedLinesRun | src/dispatcher.rs:748-771 | what the fast path admits, any router that knows at least its names runs with the same payload |
| Router.AdmissionIsExact | src/dispatcher.rs:748-771 | against the whole PATH the fast path admits precisely the shell lines, save those that start with a slash and name no executable file |
| Router.OneShotDiffersExactly | src/dispatcher.rs:705-771 | whatever is on the PATH, the two dispatch a line differently exactly when the line comes down to its own head, that head is an executable and no builtin, and it is not the head of the line's one segment |
| Router.SigilsOverride | src/dispatcher.rs:798-827 | whatever the text and the commands, a leading `?` or `#` sends it to the agent and a leading `!` to the shell, trimmed and otherwise unchanged |
| Router.OperatorNamesAreMissed | src/dispatcher.rs:705-719 | a counterexample: an executable named `a;` is run by the full router and missed by the one-shot lookup |
| Router.HintDiffersExactly | src/dispatcher.rs:975-1002 | where no executable's name holds an operator character, the two decisions are equal, hints included, unless the head of the trimmed line, or of what follows its sigil, is an executable left unlooked, and only then not |
| Router.SigilHidesKnownCommand | src/dispatcher.rs:984-1002 | a line where they differ: behind a sigil the head was not looked up |
| Router.AssignmentHidesKnownCommand | src/dispatcher.rs:984-1002 | another, without a sigil: the head stands behind an assignment glued to an operator |
| SegmentCuts.FirstCut | src/dispatcher.rs:1211-1305 | splitting against an independent reading of quotes, escapes and parentheses: a text without an open operator is one piece, any other is cut at the first one and goes on behind it |
| SegmentCuts.FinalIsAfter | src/dispatcher.rs:1211-1305 | cutting does not disturb quotes, escapes or parentheses |
| SegmentCuts.SplitsAtOperator | src/dispatcher.rs:1266-1304 | where a ends outside quotes, escapes and parentheses, a line splits at each of the four operators behind it, save the pipe of a clobbering redirect and an ampersand that belongs to the operator before |
| SegmentCuts.ClobberDoesNotCut | src/dispatcher.rs:1273-1277 | the pipe behind an arrow is no pipe |
| SegmentCuts.SegmentsHoldNoOperator | src/dispatcher.rs:1204-1210 | while no parenthesis is reopened below zero, no returned segment holds an operator outside quotes, escapes and parentheses |
| RouteRules.CompoundRunsExactly | src/dispatcher.rs:905-933 | a compound line no shape decides runs unless one of its segments is no assignment and its head is neither known nor a reserved word; then the whole line goes to the agent unchanged |
| RouteRules.SimpleRunsExactly | src/dispatcher.rs:935-952 | a line of one segment no shape decides runs if and only if its head is a known command |
| RouteRules.TwoPartsRun | src/dispatcher.rs:905-933 | two parts around any operator run if and only if both name known commands |
| RouteRules.FastPathRunsExactly | src/dispatcher.rs:905-933 | the fast path admits compound lines by the same rule |
| RouteRules.HintsAreExact | src/dispatcher.rs:975-1041 | the head, whether it is known, and whether a known command's name may have been meant as a word |
| RouteRules.BuiltinsAreKnown | src/dispatcher.rs:380-437 | by name: the builtins known without asking the shell, on every line and every PATH |
| RouteRules.OnlyNamesAreLookedUp | src/dispatcher.rs:1381-1392 | only bare names are looked up on the PATH |
| RouteShapes.ShapesDecide | src/dispatcher.rs:847-903 | whatever commands there are: builtins by name, shell syntax, definitions, control structures and assignments run, questions go to the agent, and only other plain lines are left to the command names |
| RouteShapes.SlashCommands | src/dispatcher.rs:824-845 | a known slash command goes to the builtin it names with the rest of its words |
| RouteShapes.HeadIsFirst | src/dispatcher.rs:1049-1063 | the head is the first word that is no assignment |
| RouteShapes.NoHead | src/dispatcher.rs:1049-1063 | where every word is an assignment there is no head |
| RouteShapes.AssignmentIsExact | src/dispatcher.rs:1067-1079 | a word is an assignment if and only if it is a name, an equals sign and anything |
| RouteShapes.AssignmentHeadIsExact | src/dispatcher.rs:1136-1157 | a segment is one if and only if it is a name, perhaps a plus or an index, an equals sign and anything |
| RouteShapes.WordDefines | src/dispatcher.rs:1084-1095 | what the function keyword defines, exactly |
| RouteShapes.ParensDefine | src/dispatcher.rs:1096-1104 | what a name and empty parentheses define, exactly |
| RouteShapes.QuestionsAreExact | src/dispatcher.rs:1169-1203 | which plain lines are questions: by their first two words, or by their first word and a question mark |
| RouteShapes.PunctuationIsDropped | src/dispatcher.rs:1192-1199 | punctuation at the end of the second word is dropped |
| RouteShapes.ShellIsNoQuestion | src/dispatcher.rs:1169-1192 | a line with a character of the shell's grammar is no question |
| RouteShapes.WordFirst | src/dispatcher.rs:1343-1345 | words are the runs between blanks, in order |
| ConfigMerge.DeepMerge | src/config.rs:1931-1940 | the recursive loop merges two tables as Merged says |
| ConfigMerge.MergedAt | src/config.rs:1931-1940 | path by path: the overlay's value wins, two tables merge, what a plain value replaces is gone, all else stays |
| ConfigMerge.FilterKeys | src/config.rs:1546-1554 | a section's loop splits its keys into what is granted and what is deferred, with values untouched |
| ConfigMerge.OverlayAishe | src/config.rs:1545-1558 | every aishe key that is not sensitive, or any when trusted, enters the overlay with its value; the rest is deferred |
| ConfigMerge.OverlayProviders | src/config.rs:1563-1583 | per provider only what trust grants enters the overlay; all other entries are deferred; no empty table is added |
| ConfigMerge.OverlayConnections | src/config.rs:1589-1614 | only the model choice of connections the user already has enters the overlay; all else is deferred |
| ConfigMerge.BuildOverlay | src/config.rs:1535-1637 | a key is reported applied or deferred exactly as Applies and Defers say, and the overlay holds the applied ones |
| ConfigMerge.OverlayIsApplied | src/config.rs:1535-1637 | whatever the overlay holds lies above or below an applied key |
| ConfigMerge.AppliedIsOverlaid | src/config.rs:1535-1637 | every applied key enters the overlay with the project's value |
| ConfigMerge.ChangesLieUnderApplied | src/config.rs:1641-1644 | the table handed on to be read differs from the old one only above and below applied keys |
| ConfigReader.ReadHolds | src/config.rs:190-330 | whatever is read from a table is a configuration: known fields only, each read or defaulted |
| ConfigReader.ShownReadsBack | src/config.rs:1641-1644 | a configuration printed as a table reads back as itself, with what printing leaves out |
| ConfigReader.ReadAt | src/config.rs:1643-1644 | a value standing in a table at a known path is read there, or nothing is |
| ConfigReader.SparedIsKept | src/config.rs:1641-1644 | what an overlay leaves alone survives printing, merging and reading back |
| ProjectConfig.Configuration.MergeProjectTable | src/config.rs:1535-1658 | the configuration afterwards is the merged table read back with the connection selected, or the old one where it does not print or read, with the reported keys |
| ProjectConfig.AfterIs | src/config.rs:1641-1655 | the configuration afterwards is the one read back, with the provider and the name of a known selected connection on top, and nothing else |
| ProjectConfig.StaysAConfiguration | src/config.rs:1639-1657 | a merge leaves a configuration |
| ProjectConfig.ChangesExactly | src/config.rs:1639-1657 | apart from what lies above or below the applied keys the configuration is unchanged, but for the provider, which changes if and only if the merge reads back and selects a known connection of another provider |
| ProjectConfig.UntrustedKeepsGuarded | src/config.rs:1833-1853 | by name: an untrusted project leaves every sensitive key of the configuration, and all below it, as it was |
| ProjectConfig.NoProjectImportsSecrets | src/config.rs:1585-1614 | by name: not even a trusted project adds a connection to the configuration or changes anything of one but its model and reasoning effort |
| ProjectConfig.UntrustedSelectsNoAgent | src/config.rs:1849-1851 | after an untrusted merge the mode is the old one or a text other than yolo and agent, in any case |
| ProjectConfig.UntrustedDoesNotInterfere | src/config.rs:1535-1658 | two untrusted projects that agree on the keys applied yield the same configuration |
| ProjectConfig.AppliesExactly | src/config.rs:1545-1637 | by name: a key of the project is applied if and only if it is harmless, or the project is trusted and trust is what it needs |
| ProjectConfig.ReportedOnce | src/config.rs:1545-1637 | each key a report can speak of is reported once, as applied or as deferred |
| ProjectConfig.NamesWhatItSpells | src/config.rs:1783-1797 | a text names a connection if and only if it spells that valid name, in either case and with blanks or underscores for hyphens |
| ConfigReports.ReportedTakesEffect | src/config.rs:1639-1657 | a plain value at or below a key reported as applied takes effect if and only if the merge reads back, the program knows the place and no selected connection overwrites it; where the merge does not read back, if and only if it stood there before |
| ConfigReports.HarmlessTakesEffect | src/config.rs:1639-1657 | what an untrusted project may set takes effect wherever the merge reads back and the program knows the place |
| ConfigReports.UnprintableIsLeft | src/config.rs:1641-1642 | a configuration that cannot be printed as a table is left as it is, whatever is reported |
| ConfigReports.RefusedValueSpoilsAll | src/config.rs:1643-1644 | one applied value the program cannot read leaves the whole configuration as it was |
| ConfigReports.AisheOnlyReadsBack | src/config.rs:1641-1644 | for a project of plain aishe keys: read back exactly when every known one can be read, and then their values replace the old ones and unknown keys are ignored |
| ConfigReports.UnreadableMergeIsReported | src/config.rs:1639-1657 | on every configuration: a mode given as a number is reported as applied, and nothing changes |
| ConfigReports.UnknownKeyIsReported | src/config.rs:1547-1554 | on every configuration: a key the program does not know is reported as applied, the merge reads back, and nothing changes |
| ConfigReports.ProviderIsOverwritten | src/config.rs:1305-1314 | a provider reported as applied gives way to that of the connection selected along with it |
| ConfigReports.ProviderChangesUnreported | src/config.rs:1305-1314 | selecting a known connection of another provider changes the provider, and only the connection is reported |
| ConfigExcerpt.ExcerptIsConfigured | src/config.rs:190-215 | an excerpt of the program's own configuration meets all that these results ask of a reader, and its defaults are a configuration |
| ConfigExcerpt.SelectingOpenAi | src/config.rs:1305-1314 | on those defaults: selecting the other connection turns the provider from anthropic to openai unreported |
| Wildcard.PatternMatches | src/environment.rs:246-267 | the loop that advances through the value piece by piece, and the token branch |
| Wildcard.GreedyIsComplete | src/environment.rs:246-262 | leftmost-first matching succeeds exactly when the pieces occur in order without overlap |
| Wildcard.MatchesInLonger | src/environment.rs:246-262 | whatever matches a starred pattern still does inside a longer value |
| Wildcard.StarredMeansGlob | src/environment.rs:246-262 | a starred pattern matches exactly the values some stretch of which it matches as a glob |
| Wildcard.PlainMeansWord | src/environment.rs:263-266 | a pattern without stars matches exactly where it is letters and digits and stands alone in the value |
| MachO.ParseChains | build_support/apple_link.rs:336-363 | the loop collects the pointer format of every segment with a nonzero offset, in order, or fails as a whole |
| MachO.ParseMachO | build_support/apple_link.rs:259-334 | the loop over load commands computes what Parsed says, with every read in bounds |
| MachO.GatheredMeans | build_support/apple_link.rs:273-322 | gathering succeeds exactly when no command is rejected and neither kind that may come once comes twice, and then holds what the commands say |
| MachO.WalkTiles | build_support/apple_link.rs:273-285 | the commands walked through lie end to end from byte 32, each at least eight bytes and inside the declared end |
| MachO.TilesAreWalked | build_support/apple_link.rs:273-285 | conversely any such tiling is the one the walk finds |
| MachO.ParsedMeans | build_support/apple_link.rs:259-334 | a file parses to an answer if and only if its load commands tile bytes 32 to the declared end in the declared number, exactly one states the minimum system, at most one states fixups, and each framework's flag is true exactly when it is imported and every import carries the delay marker |
| MachOWriter.ReadsBack | build_support/apple_link.rs:252-256 | a number written as four little-endian bytes reads back at any offset |
| MachOWriter.Utf8IsExact | build_support/apple_link.rs:299-301 | a name is accepted as text if and only if it is the UTF-8 form of some characters |
| MachOWriter.ChainsReadBack | build_support/apple_link.rs:336-363 | fixups written out as the linker lays them out are parsed as what was put in |
| MachOWriter.ItemIsRead | build_support/apple_link.rs:283-320 | every load command written out is read as what was meant, with its offsets, kinds and flags |
| MachOWriter.AssembledIsParsed | build_support/apple_link.rs:259-334 | a file put together from a header and load commands parses to what was put in |
| MachOWriter.ImportsReadExactly | build_support/apple_link.rs:294-301 | an import is accepted if and only if a text ended by a zero byte stands where it says, behind its header |
| MachOWriter.FixupsReadExactly | build_support/apple_link.rs:313-320 | fixups are accepted if and only if they lie in the file and can be read there |
| MachOWriter.VersionsReadExactly | build_support/apple_link.rs:284-293 | a stated version is accepted if and only if its number is there |
| MachOWriter.SegmentsReadExactly | build_support/apple_link.rs:340-355 | a table of segments is accepted if and only if every entry is zero or points to 22 bytes that are there |
| Outliner.MachineOutlinerDisabled | build_support/apple_link.rs:180-208 | true exactly when some LLVM option in the flags says never and no other option about outlining is given |
| Outliner.FourSpellings | build_support/apple_link.rs:183-193 | a codegen option is given in exactly four spellings |
| Outliner.PassedOn | build_support/apple_link.rs:194-197 | what is passed on to LLVM are the words behind llvm-args |
| Outliner.NothingPassedOn | build_support/apple_link.rs:194-197 | no other option passes anything on |
| Outliner.DashesAreIgnored | build_support/apple_link.rs:198-198 | leading dashes make no difference |
| Outliner.OnlyNever | build_support/apple_link.rs:199-205 | the one thing that may be said about outlining, word for word |
| Outliner.JoinedSplits | build_support/apple_link.rs:183-183 | arguments are found again as they were joined |
| Quoting.ReadDisplayed | src/dependencies.rs:184-188 | reading the space-joined display forms behind any words adds the nonempty arguments |
| Quoting.SplitHookWords | src/integration.rs:103-152 | the one-pass loop over quotes and escapes |
| Quoting.DisplayRoundTrip | src/dependencies.rs:262-271 | the space-joined display forms always parse, to the nonempty arguments in order; to the arguments themselves if and only if none is empty |
| Quoting.QuotedRoundTrip | src/activation.rs:31-31 | the always-quoted form round-trips every list of arguments, empty ones included |
| Quoting.DoubleQuotedRoundTrip | src/integration.rs:103-152 | double quotes with escapes round-trip every list of arguments too |
| Quoting.ReadBackslashInDouble | src/integration.rs:113-126 | between double quotes a backslash takes the five special characters and is kept before any other |
| Quoting.ReadBackslash | src/integration.rs:113-126 | outside quotes a backslash takes whatever is behind it |
| Quoting.UnquotedSplitsAtSpaces | src/integration.rs:135-144 | text without quotes and backslashes splits at its whitespace |
| Quoting.UnfinishedIsRefused | src/integration.rs:145-147 | an unclosed quote and a final backslash are refused |
| Quoting.ShownInstall | src/dependencies.rs:158-174 | what each manager is told to install a package without asking, as it is shown |
| Quoting.BuildInstallPlan | src/dependencies.rs:151-193 | fails exactly for unknown managers or missing sudo; otherwise the displayed text parses back to the program and arguments it runs |
| Startup.NativeShellMarks | src/activation.rs:144-147 | the program's two markers cannot overlap themselves or each other |
| Startup.MatchesAreAll | src/activation.rs:145-146 | left-to-right matching finds every occurrence of a marker |
| Startup.RevisedInstalled | src/activation.rs:156-183 | in a file with one installed block, applying swaps the block, removing takes it out, and the text on both sides stays |
| Startup.FirstApply | src/activation.rs:148-155 | applying to a file without markers puts the block first and keeps the text; removing changes nothing |
| Startup.ActivationUndoesItself | src/activation.rs:144-190 | removing after applying restores the text, applying twice is applying once, a new block replaces the old one |
| Startup.OutsideIsKept | src/activation.rs:156-183 | every successful revision of a marked file replaces one line-aligned marked stretch and keeps all text outside it |
| Startup.LinesMakeABlock | src/activation.rs:32-43 | complete lines between the two markers form a block if and only if they contain neither marker |
| Startup.AcceptedExactly | src/activation.rs:144-183 | a file is revised if and only if it has no marker, or each once, alone on its line and in order |
| StateSize.StateSize | src/diagnostics.rs:1610-1653 | terminates on every finite tree; never counts past the limit or overstates bytes; exact whenever it says complete; exact and complete precisely when readable if fewer entries than the limit exist; with nothing missing it is complete if and only if all is readable and fits the limit; a complete scan's totals are the true ones if and only if nothing it could not read or list leads to something that counts |
| StateSize.SeenIsTrue | src/diagnostics.rs:1640-1645 | what a scan can see is at most what is there, and all of it exactly where no lost entry hides something that counts |
| StateSize.ReadableIsExact | src/diagnostics.rs:1610-1653 | a tree is readable if and only if every directory that is met can be listed and every path that is met can be read |
| StateSize.ScanPastLostEntry | src/diagnostics.rs:1640-1645 | a complete scan over a directory that holds one file it cannot list: neither the file nor its bytes are counted |
| StateSize.TallyAppend | src/diagnostics.rs:1640-1645 | the tally of a worklist does not depend on when a directory's entries join it |
| StateSize.ListedIsTallied | src/diagnostics.rs:1640-1645 | the entries the scan goes on with tally as the directory's entries do, lost ones apart |

## Left out

- Process spawning, signals, process identity, alarms, git and worktrees: an oracle says what was alive and what succeeded.
- File locking, atomic renames and JSON: the lock is atomicity and the stored record is the value itself.
- Guards checked before the lock (liveness and budget in `resume_with_environment` and `claim_foreground`): not relied on.
- The update in which cancel sends SIGTERM, edited follow-ups and claimed deliveries: one step that changes only the stamp.
- Requests, responses and follow-ups: their statuses and guards; texts, bindings, delivery claims and digests are parameters.
- Workflow preparation and change application: one step each, with only the fields read here.
- `set_plan` and `set_step` as record updates: only `build_plan` is modelled; the plan is no field of the modelled record.
- Provider-turn and cost allowances, and whether a mailbox fits its size bound: parameters or not modelled.
- Steering.ResumeCheckpoint: redacts an instruction once, when it is stored; redacting it again on resume is taken to change nothing.
- Steering.EveryInstructionOnce: worker saves add to a transcript; compaction and sanitising of transcripts are not modelled.
- TaskOutcomes.RevisionIsFaithful: holds below the top of the counter; u128 clocks and i32 exit codes are unbounded elsewhere.
- Secret redaction: a function of the text.
- Unicode case folding: `EditDistance` and `Fuzzy` take any lowercase map; ASCII lowercase elsewhere is exact.
- UTF-8 byte offsets: strings are sequences of characters; only lengths that the code bounds or compares are counted in bytes.
- Routing: the shell's own aliases and functions, fetched in the background, only enlarge the command set.
- Routing: a name is executable on the PATH or not; differences between listing a directory and looking a name up are not modelled.
- Routing: bounded and escaped diagnostics, typo assistance and the generated shell integration.
- ConfigMerge.BuildOverlay: the order in which keys are reported, and their spelling as dotted text.
- ProjectConfig.Configuration.MergeProjectTable: which fields there are, their types and defaults are a parameter of the reader; the results hold for all that meet `ProjectConfig.Framed`, and `ConfigExcerpt` writes out part of the program's.
- Configuration: discovery and trust of the project file, validation of connections.
- Fuzzy.Rank: the library's sort is an insertion that meets the same order.
- Linking: `compatible_chains` and the choice of linker flags, short checks on a parsed file.
- Shell words: non-UTF-8 paths.
- State scan: the file system does not change during the scan.
- Scheduler and workflow internals; provider HTTP, OAuth, terminals, prompts, rendering and static tables.
