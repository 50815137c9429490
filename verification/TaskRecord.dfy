/** The durable background-task record and what each step, taken under the record
    lock, makes of it.

    A `Snapshot` is one stored value of `record.json`. Every function here maps the
    snapshot loaded under the lock to the snapshot the step wants saved; `Err` is a
    closure that bails, after which nothing is saved. */
module TaskRecord {
  import opened Wrappers
  import Text

  const U64_MAX: nat := 0xFFFF_FFFF_FFFF_FFFF
  const U128_MAX: nat := 0xFFFF_FFFF_FFFF_FFFF_FFFF_FFFF_FFFF_FFFF
  /** MAX_OBJECTIVE_BYTES */
  const MAX_OBJECTIVE_BYTES: nat := 64 * 1024
  /** How long a launcher may take to record the worker it spawned. */
  const LAUNCH_GRACE_MS: nat := 5_000

  datatype State =
    Starting | Running | Waiting | Blocked | Completed | Failed | Interrupted
    | Cancelled | Applied | Discarded

  datatype RequestStatus = Pending | Responded | Consumed | Invalidated

  datatype FollowupStatus = Queued | Received | Removed

  datatype Budget = Budget(maxMinutes: nat, maxChangedFiles: nat, maxChangedBytes: nat)

  datatype Snapshot = Snapshot(
    state: State,
    exitCode: Option<int>,
    error: Option<string>,
    pid: Option<nat>,
    processStart: Option<string>,
    elapsedMs: nat,
    attemptStartedAtMs: Option<nat>,
    resultRevision: nat,
    updatedAtMs: nat,
    steering: seq<string>,
    steeringRevision: nat,
    nativeTaskId: Option<string>,
    foreground: bool,
    workflowFrozen: bool,
    budget: Budget,
    budgetExceeded: bool,
    requests: seq<RequestStatus>,
    followups: seq<FollowupStatus>)

  /** NativeTurnState */
  datatype TurnState =
    TurnCompleted | TurnWaiting | TurnHandedOff | TurnCancelled | TurnDeclined
    | TurnBudgetExhausted | TurnIterationLimit | TurnFailed

  /** NativeTurnOutcome; `detail` is already redacted. */
  datatype Outcome = Outcome(taskId: string, turn: TurnState, detail: Option<string>)

  /** What a detached worker returned: an exit status, or a redacted error text. */
  datatype WorkerResult = Exited(code: nat) | Errored(text: string)

  /** Files and bytes changed in the task's worktree, when it has one. */
  type Usage = Option<(nat, nat)>

  // ----- clock and accounting -----

  function SatSub(a: nat, b: nat): nat { if a < b then 0 else a - b }

  function Elapsed(r: Snapshot, now: nat): nat {
    match r.attemptStartedAtMs
    case None => Min(U64_MAX, r.elapsedMs)
    case Some(started) => Min(U64_MAX, r.elapsedMs + Min(U64_MAX, SatSub(now, started)))
  }

  function Settled(r: Snapshot, now: nat): Snapshot {
    r.(elapsedMs := Elapsed(r, now), attemptStartedAtMs := None)
  }

  // ----- mailbox -----

  predicate HasQueued(followups: seq<FollowupStatus>) {
    Queued in followups
  }

  /** invalidate_pending: no request stays answerable or answered. */
  function InvalidateOpen(requests: seq<RequestStatus>): seq<RequestStatus> {
    seq(|requests|, i requires 0 <= i < |requests| =>
      if requests[i].Pending? || requests[i].Responded? then Invalidated else requests[i])
  }

  /** Only unanswered requests are withdrawn. */
  function WithdrawPending(requests: seq<RequestStatus>): seq<RequestStatus> {
    seq(|requests|, i requires 0 <= i < |requests| =>
      if requests[i].Pending? then Invalidated else requests[i])
  }

  predicate ReadyToResume(r: Snapshot) {
    Pending !in r.requests && Responded in r.requests
  }

  // ----- publishing an outcome -----

  predicate OverBudget(usage: Usage, budget: Budget) {
    usage.Some? &&
    ((budget.maxChangedFiles > 0 && usage.value.0 > budget.maxChangedFiles)
     || (budget.maxChangedBytes > 0 && usage.value.1 > budget.maxChangedBytes))
  }

  predicate AcceptsOutcome(s: State) {
    s.Starting? || s.Running? || s.Interrupted?
  }

  const FOLLOWUP_ARRIVED := "a follow-up arrived as the task finished; resume to deliver it"

  function BudgetText(usage: (nat, nat)): string {
    "task change budget exceeded: " + Text.Decimal(usage.0) + " files / " + Text.Decimal(usage.1) + " bytes"
  }

  /** The published outcome before the change budget and the mailbox are considered. */
  function Published(r: Snapshot, now: nat, state: State, code: int, error: Option<string>): Snapshot {
    var base := Settled(r, now).(
                pid := if state.Waiting? then r.pid else None,
                processStart := if state.Waiting? then r.processStart else None);
    if state.Completed? && HasQueued(r.followups) then
      base.(state := Interrupted, exitCode := Some(75), error := Some(FOLLOWUP_ARRIVED))
    else
      base.(state := state, exitCode := Some(code), error := error)
  }

  function Charged(r: Snapshot, usage: Usage): Snapshot {
    if OverBudget(usage, r.budget) then
      r.(state := Failed, exitCode := Some(1), error := Some(BudgetText(usage.value)), budgetExceeded := true)
    else r
  }

  function RequestsClosed(r: Snapshot): Snapshot {
    if r.budgetExceeded then r.(requests := InvalidateOpen(r.requests))
    else if r.state.Waiting? then r
    else r.(requests := WithdrawPending(r.requests))
  }

  /** finish_record */
  function Finished(r: Snapshot, now: nat, state: State, code: int, error: Option<string>, usage: Usage): Snapshot {
    if !AcceptsOutcome(r.state) then r else
      var p := Published(r, now, state, code, error);
      var closed := if state.Cancelled? || state.Applied? || state.Discarded?
                    then p.(requests := InvalidateOpen(p.requests)) else p;
      RequestsClosed(Charged(closed, usage))
  }

  /** finish */
  function WorkerFinished(r: Snapshot, now: nat, result: WorkerResult, usage: Usage): Snapshot {
    match result
    case Errored(text) => Finished(r, now, Failed, 1, Some(text), usage)
    case Exited(code) =>
      if code == 0 then Finished(r, now, Completed, 0, None, usage)
      else if code == 130 then Finished(r, now, Cancelled, 130, Some("agent was cancelled"), usage)
      else if code == 2 then Finished(r, now, Interrupted, 2, Some("agent admission was declined"), usage)
      else Finished(r, now, Failed, code, Some("agent exited with status " + Text.Decimal(code)), usage)
  }

  function TurnExit(turn: TurnState): nat {
    match turn
    case TurnCompleted => 0
    case TurnCancelled => 130
    case TurnBudgetExhausted => 124
    case TurnIterationLimit => 75
    case TurnFailed => 1
    case TurnDeclined => 2
    case TurnWaiting => 75
    case TurnHandedOff => 75
  }

  function TurnEnd(turn: TurnState): State {
    match turn
    case TurnCompleted => Completed
    case TurnWaiting => Waiting
    case TurnHandedOff => Interrupted
    case TurnCancelled => Cancelled
    case TurnDeclined => Interrupted
    case TurnBudgetExhausted => Failed
    case TurnIterationLimit => Failed
    case TurnFailed => Failed
  }

  /** finish_native_record. `missingEvidence` is the redacted failure of a required
      check; `cancelSaved` says whether the native checkpoint could be marked cancelled. */
  function NativeFinished(r: Snapshot, now: nat, outcome: Outcome, missingEvidence: Option<string>,
                          cancelSaved: bool, usage: Usage): Result<Snapshot, string> {
    if r.nativeTaskId != Some(outcome.taskId) then Err("outcome does not match its native checkpoint")
    else if r.state.Cancelled? then
      if cancelSaved then Ok(r.(exitCode := Some(130))) else Err("native checkpoint not saved")
    else if outcome.turn.TurnCompleted? && missingEvidence.Some? then
      Ok(Finished(r, now, Failed, 1, missingEvidence, usage))
    else
      Ok(Finished(r, now, TurnEnd(outcome.turn), TurnExit(outcome.turn), outcome.detail, usage))
  }

  /** finish_foreground, called in process `self`. */
  function ForegroundFinished(r: Snapshot, now: nat, self: nat, outcome: Outcome, missingEvidence: Option<string>,
                              cancelSaved: bool, usage: Usage): Result<Snapshot, string> {
    if !r.foreground then Ok(r)
    else if r.pid != Some(self) then Err("foreground task belongs to another terminal")
    else match NativeFinished(r, now, outcome, missingEvidence, cancelSaved, usage)
      case Err(e) => Err(e)
      case Ok(f) => Ok(f.(foreground := false, pid := None, processStart := None))
  }

  // ----- launching and attaching -----

  /** The launcher's checkpoint of the worker it spawned. */
  function Launched(r: Snapshot, worker: nat, identity: Option<string>): Snapshot {
    if r.state.Starting? then r.(pid := Some(worker), processStart := identity, state := Running) else r
  }

  /** attach_native_task, called in the worker process `self`. */
  function Attached(r: Snapshot, nativeId: string, workspaceOk: bool, self: nat, identity: Option<string>)
      : Result<Snapshot, string> {
    if !(r.state.Starting? || r.state.Running?) then Err("no further effects are admitted")
    else if !workspaceOk then Err("native checkpoint workspace does not match")
    else if r.nativeTaskId.Some? && r.nativeTaskId.value != nativeId then Err("already owns a native checkpoint")
    else
      var owned := r.(nativeTaskId := Some(nativeId));
      Ok(Launched(owned, self, identity))
  }

  // ----- claims -----

  predicate Resumable(s: State) {
    s.Waiting? || s.Interrupted? || s.Failed? || s.Cancelled?
  }

  /** A new attempt starts on the clock; the previous outcome is forgotten. */
  function AttemptOpened(r: Snapshot, state: State, foreground: bool, worker: Option<nat>, identity: Option<string>,
                         now: nat): Snapshot {
    r.(state := state, foreground := foreground, attemptStartedAtMs := Some(now),
      pid := worker, processStart := identity, exitCode := None, error := None)
  }

  /** The claim resume takes under the lock. */
  function Resumed(r: Snapshot, now: nat, ledgerClean: bool): Result<Snapshot, string> {
    if !Resumable(r.state) then Err("cannot resume")
    else if r.state.Waiting? && !ReadyToResume(r) then Err("needs an answer before it can resume")
    else if !ledgerClean then Err("task changes were already applied")
    else if r.workflowFrozen then Err("workflow stage was handed forward")
    else Ok(AttemptOpened(r, Starting, false, None, None, now))
  }

  /** The claim claim_foreground takes for process `self` after reading `seen`. */
  function ForegroundClaimed(r: Snapshot, now: nat, seen: Snapshot, live: bool, self: nat, identity: Option<string>)
      : Result<Snapshot, string> {
    if r.foreground
       || !(r.state.Waiting? || r.state.Interrupted? || r.state.Failed?)
       || r.nativeTaskId != seen.nativeTaskId
       || r.resultRevision != seen.resultRevision
       || (r.pid.Some? && live)
    then Err("changed while foreground handoff was pending")
    else if r.state.Waiting? && !ReadyToResume(r) then Err("needs an answer before it can resume")
    else Ok(AttemptOpened(r, Running, true, Some(self), identity, now))
  }

  /** Handing an existing task's saved checkpoint to a detached owner. */
  function Adopted(r: Snapshot, now: nat): Result<Snapshot, string> {
    if r.state.Cancelled? || r.state.Applied? || r.state.Discarded? then Err("cannot hand off")
    else if r.foreground then
      Ok(Settled(r, now).(state := Interrupted, pid := None, processStart := None, foreground := false))
    else Ok(r)
  }

  // ----- cancelling -----

  predicate Cancellable(s: State) {
    s.Starting? || s.Running? || s.Waiting? || s.Blocked?
  }

  /** The process cancel will signal; a paused worker only while it is still itself. */
  predicate SignalsWorker(r: Snapshot, live: bool) {
    r.pid.Some? && (!r.state.Waiting? || live)
  }

  function CancelMarked(r: Snapshot, now: nat): Snapshot {
    Settled(r, now).(state := Cancelled, exitCode := Some(130), error := Some("cancelled by user"),
      requests := InvalidateOpen(r.requests))
  }

  /** cancel's first closure; `live` is whether the recorded process is still the worker. */
  function CancelRequested(r: Snapshot, now: nat, live: bool, signalDelivered: bool, cancelSaved: bool)
      : Result<Snapshot, string> {
    if !Cancellable(r.state) then Ok(r)
    else if SignalsWorker(r, live) && !live then Err("process identity changed")
    else if SignalsWorker(r, live) && !signalDelivered then Err("could not signal task")
    else
      var c := CancelMarked(r, now);
      if SignalsWorker(r, live) then Ok(c)
      else if r.nativeTaskId.Some? && !cancelSaved then Err("native checkpoint not saved")
      else Ok(c.(pid := None, processStart := None))
  }

  /** cancel's last closure: release the signalled process once it has stopped. */
  function CancelReleased(r: Snapshot, signalled: nat, live: bool, cancelSaved: bool): Result<Snapshot, string> {
    if r.state.Cancelled? && r.pid == Some(signalled) && !live then
      if r.nativeTaskId.Some? && !cancelSaved then Err("native checkpoint not saved")
      else Ok(r.(pid := None, processStart := None))
    else Ok(r)
  }

  // ----- reconcile -----

  const NO_FINAL_CHECKPOINT := "background process ended without a final checkpoint"

  predicate Active(s: State) { s.Starting? || s.Running? }

  /** reconcile's decision, on the caller's own possibly stale copy, to take the lock at all. */
  predicate LooksDead(seen: Snapshot, now: nat, seenLive: bool) {
    Active(seen.state)
    && !(seen.state.Starting? && seen.pid.None? && SatSub(now, seen.updatedAtMs) < LAUNCH_GRACE_MS)
    && !(seen.pid.Some? && seenLive)
  }

  /** What reconcile makes of the record it reloads under the lock. `paused` says whether
      the native checkpoint was saved while waiting for a person. */
  function Reconciled(r: Snapshot, now: nat, live: bool, paused: bool): Snapshot {
    if !Active(r.state) || (r.pid.Some? && live) then r
    else
      var waits := paused && (Pending in r.requests || Responded in r.requests);
      Settled(r, now).(
        state := if waits then Waiting else Interrupted,
        pid := None, processStart := None,
        error := if waits then None else Some(NO_FINAL_CHECKPOINT))
  }

  // ----- rework, discard, apply -----

  /** validate_remaining_budget; `otherSpent` stands for the provider-turn and cost checks. */
  predicate HasBudgetLeft(r: Snapshot, now: nat, otherSpent: bool, checkpointElapsed: nat) {
    !otherSpent
    && Max(checkpointElapsed, Elapsed(r, now)) < r.budget.maxMinutes * 60_000
    && !r.budgetExceeded
  }

  function TotalLength(texts: seq<string>): nat {
    if texts == [] then 0 else Text.ByteLength(texts[0]) + TotalLength(texts[1..])
  }

  /** rework; `redacted` is the stored form of the trimmed `instructions`. */
  function Reworked(r: Snapshot, now: nat, instructions: string, redacted: string, ledgerClean: bool,
                    otherSpent: bool, checkpointElapsed: nat): Result<Snapshot, string> {
    if instructions == "" || Text.ByteLength(instructions) > MAX_OBJECTIVE_BYTES / 2 then Err("bad rework instructions")
    else if Active(r.state) || r.state.Waiting? || r.state.Applied? || r.state.Discarded? then Err("cannot be reworked")
    else if !ledgerClean then Err("task changes were already applied")
    else if r.workflowFrozen then Err("workflow stage was handed forward")
    else if r.nativeTaskId.None? then Err("no durable native checkpoint to rework")
    else if !HasBudgetLeft(r, now, otherSpent, checkpointElapsed) then Err("budget is exhausted")
    else if TotalLength(r.steering) + Text.ByteLength(instructions) > MAX_OBJECTIVE_BYTES
    then Err("combined instructions too long")
    else Ok(r.(steering := r.steering + [redacted], steeringRevision := |r.steering| + 1,
               state := Interrupted, error := None))
  }

  function DiscardedNow(r: Snapshot, worktreeRemoved: bool): Result<Snapshot, string> {
    if Active(r.state) || r.state.Waiting? then Err("cancel the task before discarding it")
    else if !worktreeRemoved then Err("could not remove task worktree")
    else Ok(r.(state := Discarded, requests := InvalidateOpen(r.requests)))
  }

  /** How an application of reviewed changes ended. */
  datatype ApplyEnd = Refused | Uncertain(text: string) | Partial | Complete

  /** apply_task_changes */
  function ChangesApplied(r: Snapshot, end: ApplyEnd): Result<Snapshot, string> {
    if r.budgetExceeded || !(r.state.Completed? || r.state.Failed? || r.state.Interrupted?) || end.Refused?
    then Err("task changes cannot be applied")
    else match end
      case Uncertain(text) => Ok(r.(state := Failed, error := Some(text)))
      case Complete => Ok(r.(state := Applied))
      case _ => Ok(r)
  }

  // ----- requests and follow-ups -----

  const MAX_REQUESTS: nat := 128
  const MAX_FOLLOWUPS: nat := 256

  /** The updates that touch the mailbox. `native` is the checkpoint the caller works on; `bound` says that the other
      identities, authorities and kinds match what the update checks. */
  datatype MailboxEdit =
    /** create_request; `existing` is the live request of the same tool call. */
    | Ask(native: string, bound: bool, existing: Option<nat>)
    | Answer(bound: bool, request: nat)
    /** consume_interaction; `matching` is the request whose response fits the action. */
    | Consume(native: string, bound: bool, matching: Option<nat>)
    | Queue(nativeEngine: bool, bound: bool)
    | Unqueue(unclaimed: bool, followup: nat)
    | Acknowledge(native: string, bound: bool, delivered: seq<nat>)
    /** Edits a text, claims a delivery or only signals: no field of the model changes. */
    | Untouched(bound: bool)

  /** create_request: one open question a call, asked by an attempt in progress. */
  function Asked(r: Snapshot, native: string, bound: bool, existing: Option<nat>): Result<seq<RequestStatus>, string> {
    if !Active(r.state) then Err("no interaction effects are admitted")
    else if r.nativeTaskId != Some(native) || !bound then Err("request does not match the task")
    else if existing.Some? && existing.value < |r.requests| && !r.requests[existing.value].Invalidated? then
      if r.requests[existing.value].Pending? then Ok(r.requests) else Err("already answered")
    else if |r.requests| >= MAX_REQUESTS then Err("request history is full")
    else Ok(r.requests + [Pending])
  }

  /** record_response: only a waiting record takes an answer, and each question one. */
  function Answered(r: Snapshot, bound: bool, request: nat): Result<seq<RequestStatus>, string> {
    if !r.state.Waiting? then Err("not waiting for a response")
    else if !bound || request >= |r.requests| || !r.requests[request].Pending? then Err("no such open question")
    else Ok(r.requests[request := Responded])
  }

  /** consume_interaction: a saved answer is used up by the attempt it admits. */
  function Used(r: Snapshot, native: string, bound: bool, matching: Option<nat>): Result<seq<RequestStatus>, string> {
    if !Active(r.state) then Err("no interaction effects are admitted")
    else if r.nativeTaskId != Some(native) || !bound then Err("request does not match the task")
    else if matching.Some? && matching.value < |r.requests|
            && (r.requests[matching.value].Responded? || r.requests[matching.value].Consumed?)
    then Ok(r.requests[matching.value := Consumed])
    else Ok(r.requests)
  }

  function Enqueued(r: Snapshot, nativeEngine: bool, bound: bool): Result<seq<FollowupStatus>, string> {
    if !Active(r.state) && !r.state.Waiting? then Err("use rework for finished tasks")
    else if r.nativeTaskId.None? && !nativeEngine then Err("live follow-ups require a native task")
    else if !bound || |r.followups| >= MAX_FOLLOWUPS then Err("follow-up not accepted")
    else Ok(r.followups + [Queued])
  }

  function Unqueued(r: Snapshot, unclaimed: bool, followup: nat): Result<seq<FollowupStatus>, string> {
    if followup >= |r.followups| || !r.followups[followup].Queued? || !unclaimed then Err("already being delivered")
    else Ok(r.followups[followup := Removed])
  }

  /** acknowledge_record_followups over the first `n` of the revisions delivered. */
  function Delivered(followups: seq<FollowupStatus>, delivered: seq<nat>, n: nat): Result<seq<FollowupStatus>, string>
    requires n <= |delivered|
  {
    if n == 0 then Ok(followups)
    else match Delivered(followups, delivered, n - 1)
      case Err(e) => Err(e)
      case Ok(before) =>
        var i := delivered[n - 1];
        if i >= |before| || before[i].Removed? then Err("no matching checkpoint")
        else Ok(before[i := Received])
  }

  function Acknowledged(r: Snapshot, native: string, bound: bool, delivered: seq<nat>)
      : Result<seq<FollowupStatus>, string> {
    if !Active(r.state) then Err("no interaction effects are admitted")
    else if r.nativeTaskId != Some(native) || !bound then Err("follow-up does not match the task")
    else Delivered(r.followups, delivered, |delivered|)
  }

  function WithRequests(r: Snapshot, requests: Result<seq<RequestStatus>, string>): Result<Snapshot, string> {
    match requests case Ok(q) => Ok(r.(requests := q)) case Err(e) => Err(e)
  }

  function WithFollowups(r: Snapshot, followups: Result<seq<FollowupStatus>, string>): Result<Snapshot, string> {
    match followups case Ok(f) => Ok(r.(followups := f)) case Err(e) => Err(e)
  }

  function MailboxEdited(r: Snapshot, edit: MailboxEdit): Result<Snapshot, string> {
    match edit
    case Ask(native, bound, existing) => WithRequests(r, Asked(r, native, bound, existing))
    case Answer(bound, request) => WithRequests(r, Answered(r, bound, request))
    case Consume(native, bound, matching) => WithRequests(r, Used(r, native, bound, matching))
    case Queue(nativeEngine, bound) => WithFollowups(r, Enqueued(r, nativeEngine, bound))
    case Unqueue(unclaimed, followup) => WithFollowups(r, Unqueued(r, unclaimed, followup))
    case Acknowledge(native, bound, delivered) => WithFollowups(r, Acknowledged(r, native, bound, delivered))
    case Untouched(bound) => if bound then Ok(r) else Err("nothing to change")
  }

  // ----- workflow scheduler -----

  function StageClaimed(r: Snapshot, now: nat): Result<Snapshot, string> {
    if !r.state.Blocked? then Err("workflow stage changed")
    else Ok(r.(state := Starting, attemptStartedAtMs := Some(now), error := None))
  }

  /** The scheduler puts a stage it could not launch back; the open attempt is dropped unsettled. */
  function StageReturned(r: Snapshot, text: string): Snapshot {
    if r.state.Blocked? || r.state.Starting? then
      r.(state := Blocked, attemptStartedAtMs := None, error := Some(text))
    else r
  }

  function StageSealed(r: Snapshot, seenRevision: nat): Result<Snapshot, string> {
    if !(r.state.Completed? || r.state.Applied?) || r.resultRevision != seenRevision
    then Err("stage changed before its dependency snapshot")
    else Ok(r.(workflowFrozen := true))
  }

  function StageUnsealed(r: Snapshot, text: string): Snapshot {
    var open := r.(workflowFrozen := false);
    if r.state.Completed? then open.(state := Failed, exitCode := Some(1), error := Some(text))
    else if r.state.Applied? then open.(error := Some(text))
    else open
  }

  function StageNoted(r: Snapshot, text: string): Snapshot {
    if r.state.Blocked? then r.(error := Some(text)) else r
  }

  // ----- saving -----

  predicate Unstamped(s: State) { Active(s) || s.Waiting? }

  /** Exactly the fields result_revision stands for. */
  datatype Stamp = Stamp(state: State, exitCode: Option<int>, error: Option<string>,
                         budgetExceeded: bool, nativeTaskId: Option<string>)

  function StampOf(r: Snapshot): Stamp {
    Stamp(r.state, r.exitCode, r.error, r.budgetExceeded, r.nativeTaskId)
  }

  /** save, with advance_result_revision against the record already on disk. */
  function Saved(previous: Snapshot, r: Snapshot): Snapshot {
    var revision := Max(previous.resultRevision, r.resultRevision);
    if !Unstamped(r.state) && StampOf(previous) != StampOf(r)
    then r.(resultRevision := Min(U64_MAX, revision + 1))
    else r.(resultRevision := revision)
  }

  /** The revision stamp update and reconcile put on what they save. */
  function Touched(r: Snapshot, clock: nat): Snapshot {
    r.(updatedAtMs := Max(clock, Min(U128_MAX, r.updatedAtMs + 1)))
  }

  /** A whole update: bail, or stamp and save. */
  function Updated(r: Snapshot, changed: Result<Snapshot, string>, clock: nat): Snapshot {
    match changed
    case Err(_) => r
    case Ok(c) => Saved(r, Touched(c, clock))
  }

  /** What reconcile leaves stored: nothing is saved unless the reloaded record is dead too. */
  function ReconcileStored(r: Snapshot, seen: Snapshot, seenLive: bool, live: bool, paused: bool, now: nat, clock: nat)
      : Snapshot {
    if LooksDead(seen, now, seenLive) && Active(r.state) && !(r.pid.Some? && live)
    then Updated(r, Ok(Reconciled(r, now, live, paused)), clock)
    else r
  }
}
