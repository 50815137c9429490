/** The record as the program edits it: a working copy loaded under the lock, changed
    field by field, and written back by the file that owns it. Every method is tied to
    the snapshot function of the same step in TaskRecord. */
module TaskStore {
  import opened Wrappers
  import opened TaskRecord
  import Text

  /** A closure that bails yields nothing; otherwise it leaves exactly what the step asks to save. */
  ghost predicate Yields(step: Result<Snapshot, string>, ok: bool, left: Snapshot) {
    match step
    case Ok(value) => ok && left == value
    case Err(_) => !ok
  }

  /** A loaded record, edited in place. */
  class Record {
    var state: State
    var exitCode: Option<int>
    var error: Option<string>
    var pid: Option<nat>
    var processStart: Option<string>
    var elapsedMs: nat
    var attemptStartedAtMs: Option<nat>
    var resultRevision: nat
    var updatedAtMs: nat
    var steering: seq<string>
    var steeringRevision: nat
    var nativeTaskId: Option<string>
    var foreground: bool
    var workflowFrozen: bool
    const budget: Budget
    var budgetExceeded: bool
    var requests: seq<RequestStatus>
    var followups: seq<FollowupStatus>

    ghost function Value(): Snapshot
      reads this
    {
      Snapshot(state, exitCode, error, pid, processStart, elapsedMs, attemptStartedAtMs, resultRevision,
               updatedAtMs, steering, steeringRevision, nativeTaskId, foreground, workflowFrozen, budget,
               budgetExceeded, requests, followups)
    }

    constructor (s: Snapshot)
      ensures Value() == s
    {
      state, exitCode, error := s.state, s.exitCode, s.error;
      pid, processStart := s.pid, s.processStart;
      elapsedMs, attemptStartedAtMs := s.elapsedMs, s.attemptStartedAtMs;
      resultRevision, updatedAtMs := s.resultRevision, s.updatedAtMs;
      steering, steeringRevision := s.steering, s.steeringRevision;
      nativeTaskId, foreground, workflowFrozen := s.nativeTaskId, s.foreground, s.workflowFrozen;
      budget, budgetExceeded := s.budget, s.budgetExceeded;
      requests, followups := s.requests, s.followups;
    }

    method SetOwner(worker: Option<nat>, identity: Option<string>)
      modifies this`pid, this`processStart
      ensures Value() == old(Value()).(pid := worker, processStart := identity)
    {
      pid, processStart := worker, identity;
    }

    method SetOutcome(newState: State, code: Option<int>, text: Option<string>)
      modifies this`state, this`exitCode, this`error
      ensures Value() == old(Value()).(state := newState, exitCode := code, error := text)
    {
      state, exitCode, error := newState, code, text;
    }

    method SettleElapsed(now: nat)
      modifies this
      ensures Value() == Settled(old(Value()), now)
    {
      var running := 0;
      if attemptStartedAtMs.Some? {
        running := Min(U64_MAX, SatSub(now, attemptStartedAtMs.value));
      }
      elapsedMs := Min(U64_MAX, elapsedMs + running);
      attemptStartedAtMs := None;
    }

    method InvalidatePending()
      modifies this`requests
      ensures requests == InvalidateOpen(old(requests))
    {
      for i := 0 to |requests|
        invariant |requests| == |old(requests)|
        invariant requests[..i] == InvalidateOpen(old(requests))[..i]
        invariant requests[i..] == old(requests)[i..]
      {
        if requests[i].Pending? || requests[i].Responded? {
          requests := requests[i := Invalidated];
        }
      }
    }

    method WithdrawUnanswered()
      modifies this`requests
      ensures requests == WithdrawPending(old(requests))
    {
      for i := 0 to |requests|
        invariant |requests| == |old(requests)|
        invariant requests[..i] == WithdrawPending(old(requests))[..i]
        invariant requests[i..] == old(requests)[i..]
      {
        if requests[i].Pending? {
          requests := requests[i := Invalidated];
        }
      }
    }

    /** The first half of finish_record: close the attempt and record its outcome. */
    method Publish(now: nat, newState: State, code: int, text: Option<string>)
      modifies this
      ensures Value() == Published(old(Value()), now, newState, code, text)
    {
      SettleElapsed(now);
      SetOutcome(newState, Some(code), text);
      if !newState.Waiting? {
        SetOwner(None, None);
      }
      if newState.Completed? && HasQueued(followups) {
        SetOutcome(Interrupted, Some(75), Some(FOLLOWUP_ARRIVED));
      }
    }

    /** The change budget overrides whatever outcome was published. */
    method ChargeChanges(usage: Usage)
      modifies this
      ensures Value() == Charged(old(Value()), usage)
    {
      if OverBudget(usage, budget) {
        SetOutcome(Failed, Some(1), Some(BudgetText(usage.value)));
        budgetExceeded := true;
      }
    }

    /** No question may look live once the task can no longer take the answer. */
    method CloseRequests()
      modifies this`requests
      ensures Value() == RequestsClosed(old(Value()))
    {
      if budgetExceeded {
        InvalidatePending();
      } else if !state.Waiting? {
        WithdrawUnanswered();
      }
    }

    method FinishRecord(now: nat, newState: State, code: int, text: Option<string>, usage: Usage)
      modifies this
      ensures Value() == Finished(old(Value()), now, newState, code, text, usage)
    {
      if !AcceptsOutcome(state) {
        return;
      }
      Publish(now, newState, code, text);
      if newState.Cancelled? || newState.Applied? || newState.Discarded? {
        InvalidatePending();
      }
      ChargeChanges(usage);
      CloseRequests();
    }

    method FinishNativeRecord(now: nat, outcome: Outcome, missingEvidence: Option<string>, cancelSaved: bool,
                              usage: Usage)
      returns (ok: bool)
      modifies this
      ensures Yields(NativeFinished(old(Value()), now, outcome, missingEvidence, cancelSaved, usage),
                     ok, Value())
    {
      if nativeTaskId != Some(outcome.taskId) {
        return false;
      }
      if state.Cancelled? {
        if !cancelSaved {
          return false;
        }
        exitCode := Some(130);
        return true;
      }
      var failed := outcome.turn.TurnCompleted? && missingEvidence.Some?;
      FinishRecord(now,
        if failed then Failed else TurnEnd(outcome.turn),
        if failed then 1 else TurnExit(outcome.turn),
        if failed then missingEvidence else outcome.detail,
        usage);
      return true;
    }

    method Launch(worker: nat, identity: Option<string>)
      modifies this
      ensures Value() == Launched(old(Value()), worker, identity)
    {
      if state.Starting? {
        pid := Some(worker);
        processStart := identity;
        state := Running;
      }
    }

    method Attach(nativeId: string, workspaceOk: bool, self: nat, identity: Option<string>) returns (ok: bool)
      modifies this
      ensures Yields(Attached(old(Value()), nativeId, workspaceOk, self, identity), ok, Value())
    {
      if !Active(state) || !workspaceOk {
        return false;
      }
      if nativeTaskId.Some? {
        if nativeTaskId.value != nativeId {
          return false;
        }
      } else {
        nativeTaskId := Some(nativeId);
      }
      Launch(self, identity);
      return true;
    }

    method FinishForeground(now: nat, self: nat, outcome: Outcome, missingEvidence: Option<string>, cancelSaved: bool,
                            usage: Usage)
      returns (ok: bool)
      modifies this
      ensures Yields(ForegroundFinished(old(Value()), now, self, outcome, missingEvidence, cancelSaved, usage),
                     ok, Value())
    {
      if !foreground {
        return true;
      }
      if pid != Some(self) {
        return false;
      }
      ok := FinishNativeRecord(now, outcome, missingEvidence, cancelSaved, usage);
      if ok {
        foreground := false;
        SetOwner(None, None);
      }
    }

    method MarkCancelled(now: nat)
      modifies this
      ensures Value() == CancelMarked(old(Value()), now)
    {
      SettleElapsed(now);
      SetOutcome(Cancelled, Some(130), Some("cancelled by user"));
      InvalidatePending();
    }

    method Cancel(now: nat, live: bool, signalDelivered: bool, cancelSaved: bool)
      returns (ok: bool, signalled: Option<nat>)
      modifies this
      ensures Yields(CancelRequested(old(Value()), now, live, signalDelivered, cancelSaved), ok, Value())
      ensures signalled.Some? ==> ok && live && signalled == old(pid)
      ensures ok && Cancellable(old(state)) && signalled.None? ==> pid.None?
    {
      signalled := None;
      if !Cancellable(state) {
        return true, None;
      }
      if pid.Some? && (!state.Waiting? || live) {
        if !live || !signalDelivered {
          return false, None;
        }
        signalled := pid;
      }
      MarkCancelled(now);
      if signalled.None? {
        SetOwner(None, None);
        if nativeTaskId.Some? && !cancelSaved {
          return false, None;
        }
      }
      return true, signalled;
    }

    method ReleaseCancelled(signalled: nat, live: bool, cancelSaved: bool) returns (ok: bool)
      modifies this
      ensures Yields(CancelReleased(old(Value()), signalled, live, cancelSaved), ok, Value())
    {
      if state.Cancelled? && pid == Some(signalled) && !live {
        SetOwner(None, None);
        if nativeTaskId.Some? && !cancelSaved {
          return false;
        }
      }
      return true;
    }

    /** The fields a claim resets when it starts a new attempt. */
    method OpenAttempt(newState: State, inForeground: bool, worker: Option<nat>, identity: Option<string>, now: nat)
      modifies this
      ensures Value() == AttemptOpened(old(Value()), newState, inForeground, worker, identity, now)
    {
      SetOutcome(newState, None, None);
      SetOwner(worker, identity);
      foreground := inForeground;
      attemptStartedAtMs := Some(now);
    }

    method ClaimResume(now: nat, ledgerClean: bool) returns (ok: bool)
      modifies this
      ensures Yields(Resumed(old(Value()), now, ledgerClean), ok, Value())
    {
      if !Resumable(state) {
        return false;
      }
      if state.Waiting? && (Pending in requests || Responded !in requests) {
        return false;
      }
      if !ledgerClean || workflowFrozen {
        return false;
      }
      OpenAttempt(Starting, false, None, None, now);
      return true;
    }

    method ClaimForeground(now: nat, seen: Snapshot, live: bool, self: nat, identity: Option<string>) returns (ok: bool)
      modifies this
      ensures Yields(ForegroundClaimed(old(Value()), now, seen, live, self, identity), ok, Value())
    {
      if foreground
         || !(state.Waiting? || state.Interrupted? || state.Failed?)
         || nativeTaskId != seen.nativeTaskId
         || resultRevision != seen.resultRevision
         || (pid.Some? && live)
      {
        return false;
      }
      if state.Waiting? && (Pending in requests || Responded !in requests) {
        return false;
      }
      OpenAttempt(Running, true, Some(self), identity, now);
      return true;
    }

    method Adopt(now: nat) returns (ok: bool)
      modifies this
      ensures Yields(Adopted(old(Value()), now), ok, Value())
    {
      if state.Cancelled? || state.Applied? || state.Discarded? {
        return false;
      }
      if foreground {
        SettleElapsed(now);
        state := Interrupted;
        SetOwner(None, None);
        foreground := false;
      }
      return true;
    }

    method Steer(redacted: string)
      modifies this`steering, this`steeringRevision
      ensures Value() == old(Value()).(steering := old(steering) + [redacted], steeringRevision := |old(steering)| + 1)
    {
      steering := steering + [redacted];
      steeringRevision := |steering|;
    }

    method Rework(now: nat, instructions: string, redacted: string, ledgerClean: bool,
                  otherSpent: bool, checkpointElapsed: nat) returns (ok: bool)
      modifies this
      ensures Yields(Reworked(old(Value()), now, instructions, redacted, ledgerClean, otherSpent, checkpointElapsed),
                     ok, Value())
    {
      if instructions == "" || Text.ByteLength(instructions) > MAX_OBJECTIVE_BYTES / 2 {
        return false;
      }
      if Active(state) || state.Waiting? || state.Applied? || state.Discarded? {
        return false;
      }
      if !ledgerClean || workflowFrozen || nativeTaskId.None? {
        return false;
      }
      var spent := CurrentElapsed(now);
      if otherSpent || Max(checkpointElapsed, spent) >= budget.maxMinutes * 60_000 || budgetExceeded {
        return false;
      }
      var total := CombinedLength();
      if total + Text.ByteLength(instructions) > MAX_OBJECTIVE_BYTES {
        return false;
      }
      Steer(redacted);
      SetOutcome(Interrupted, exitCode, None);
      return true;
    }

    method CurrentElapsed(now: nat) returns (spent: nat)
      ensures spent == Elapsed(Value(), now)
    {
      spent := elapsedMs;
      if attemptStartedAtMs.Some? {
        spent := spent + Min(U64_MAX, SatSub(now, attemptStartedAtMs.value));
      }
      spent := Min(U64_MAX, spent);
    }

    /** The sum rework bounds: every instruction recorded so far. */
    method CombinedLength() returns (total: nat)
      ensures total == TotalLength(steering)
    {
      total := 0;
      for i := 0 to |steering|
        invariant total + TotalLength(steering[i..]) == TotalLength(steering)
      {
        total := total + Text.ByteLength(steering[i]);
      }
    }

    method Discard(worktreeRemoved: bool) returns (ok: bool)
      modifies this
      ensures Yields(DiscardedNow(old(Value()), worktreeRemoved), ok, Value())
    {
      if Active(state) || state.Waiting? || !worktreeRemoved {
        return false;
      }
      state := Discarded;
      InvalidatePending();
      return true;
    }

    method Reconcile(now: nat, live: bool, paused: bool) returns (changed: bool)
      modifies this
      ensures Value() == Reconciled(old(Value()), now, live, paused)
      ensures changed == (Active(old(state)) && !(old(pid).Some? && live))
    {
      if !Active(state) || (pid.Some? && live) {
        return false;
      }
      SettleElapsed(now);
      if paused && (Pending in requests || Responded in requests) {
        SetOutcome(Waiting, exitCode, None);
      } else {
        SetOutcome(Interrupted, exitCode, Some(NO_FINAL_CHECKPOINT));
      }
      SetOwner(None, None);
      return true;
    }

    // ----- change review and workflow stages -----

    /** How apply_task_changes leaves the record: done, undecided, or with hunks remaining. */
    method ApplyChanges(end: ApplyEnd) returns (ok: bool)
      modifies this
      ensures Yields(ChangesApplied(old(Value()), end), ok, Value())
    {
      if budgetExceeded || !(state.Completed? || state.Failed? || state.Interrupted?) || end.Refused? {
        return false;
      }
      match end {
        case Uncertain(text) => SetOutcome(Failed, exitCode, Some(text));
        case Complete => state := Applied;
        case _ =>
      }
      return true;
    }

    method ClaimStage(now: nat) returns (ok: bool)
      modifies this
      ensures Yields(StageClaimed(old(Value()), now), ok, Value())
    {
      if !state.Blocked? {
        return false;
      }
      SetOutcome(Starting, exitCode, None);
      attemptStartedAtMs := Some(now);
      return true;
    }

    method ReturnStage(text: string)
      modifies this
      ensures Value() == StageReturned(old(Value()), text)
    {
      if state.Blocked? || state.Starting? {
        SetOutcome(Blocked, exitCode, Some(text));
        attemptStartedAtMs := None;
      }
    }

    method SealStage(seenRevision: nat) returns (ok: bool)
      modifies this
      ensures Yields(StageSealed(old(Value()), seenRevision), ok, Value())
    {
      if !(state.Completed? || state.Applied?) || resultRevision != seenRevision {
        return false;
      }
      workflowFrozen := true;
      return true;
    }

    method UnsealStage(text: string)
      modifies this
      ensures Value() == StageUnsealed(old(Value()), text)
    {
      workflowFrozen := false;
      if state.Completed? {
        SetOutcome(Failed, Some(1), Some(text));
      } else if state.Applied? {
        error := Some(text);
      }
    }

    method NoteStage(text: string)
      modifies this`error
      ensures Value() == StageNoted(old(Value()), text)
    {
      if state.Blocked? {
        error := Some(text);
      }
    }

    // ----- requests and follow-ups -----

    method CreateRequest(native: string, bound: bool, existing: Option<nat>) returns (ok: bool)
      modifies this`requests
      ensures Yields(WithRequests(old(Value()), Asked(old(Value()), native, bound, existing)), ok, Value())
    {
      if !Active(state) || nativeTaskId != Some(native) || !bound {
        return false;
      }
      if existing.Some? && existing.value < |requests| && !requests[existing.value].Invalidated? {
        return requests[existing.value].Pending?;
      }
      if |requests| >= MAX_REQUESTS {
        return false;
      }
      requests := requests + [Pending];
      return true;
    }

    method RecordResponse(bound: bool, request: nat) returns (ok: bool)
      modifies this`requests
      ensures Yields(WithRequests(old(Value()), Answered(old(Value()), bound, request)), ok, Value())
    {
      if !state.Waiting? || !bound || request >= |requests| || !requests[request].Pending? {
        return false;
      }
      requests := requests[request := Responded];
      return true;
    }

    method ConsumeInteraction(native: string, bound: bool, matching: Option<nat>) returns (ok: bool)
      modifies this`requests
      ensures Yields(WithRequests(old(Value()), Used(old(Value()), native, bound, matching)), ok, Value())
    {
      if !Active(state) || nativeTaskId != Some(native) || !bound {
        return false;
      }
      if matching.Some? && matching.value < |requests|
         && (requests[matching.value].Responded? || requests[matching.value].Consumed?)
      {
        requests := requests[matching.value := Consumed];
      }
      return true;
    }

    method QueueFollowup(nativeEngine: bool, bound: bool) returns (ok: bool)
      modifies this`followups
      ensures Yields(WithFollowups(old(Value()), Enqueued(old(Value()), nativeEngine, bound)), ok, Value())
    {
      if !(Active(state) || state.Waiting?) || (nativeTaskId.None? && !nativeEngine) || !bound
         || |followups| >= MAX_FOLLOWUPS
      {
        return false;
      }
      followups := followups + [Queued];
      return true;
    }

    method RemoveFollowup(unclaimed: bool, followup: nat) returns (ok: bool)
      modifies this`followups
      ensures Yields(WithFollowups(old(Value()), Unqueued(old(Value()), unclaimed, followup)), ok, Value())
    {
      if followup >= |followups| || !followups[followup].Queued? || !unclaimed {
        return false;
      }
      followups := followups[followup := Removed];
      return true;
    }

    method AcknowledgeFollowups(native: string, bound: bool, delivered: seq<nat>) returns (ok: bool)
      modifies this`followups
      ensures Yields(WithFollowups(old(Value()), Acknowledged(old(Value()), native, bound, delivered)), ok, Value())
    {
      if !Active(state) || nativeTaskId != Some(native) || !bound {
        return false;
      }
      for n := 0 to |delivered|
        invariant Delivered(old(followups), delivered, n) == Ok(followups)
      {
        var i := delivered[n];
        if i < |followups| && followups[i].Received? {
          assert followups[i := Received] == followups;
          continue;
        }
        if i >= |followups| || !followups[i].Queued? {
          NotDelivered(old(followups), delivered, n + 1);
          return false;
        }
        followups := followups[i := Received];
      }
      return true;
    }

    /** One update of the mailbox. */
    method EditMailbox(edit: MailboxEdit) returns (ok: bool)
      modifies this`requests, this`followups
      ensures Yields(MailboxEdited(old(Value()), edit), ok, Value())
    {
      hide Asked, Answered, Used, Enqueued, Unqueued, Acknowledged;
      match edit
      case Ask(native, bound, existing) => ok := CreateRequest(native, bound, existing);
      case Answer(bound, request) => ok := RecordResponse(bound, request);
      case Consume(native, bound, matching) => ok := ConsumeInteraction(native, bound, matching);
      case Queue(nativeEngine, bound) => ok := QueueFollowup(nativeEngine, bound);
      case Unqueue(unclaimed, followup) => ok := RemoveFollowup(unclaimed, followup);
      case Acknowledge(native, bound, delivered) => ok := AcknowledgeFollowups(native, bound, delivered);
      case Untouched(bound) => ok := bound;
    }
  }

  /** One revision that cannot be acknowledged refuses the whole batch. */
  lemma {:induction false} NotDelivered(followups: seq<FollowupStatus>, delivered: seq<nat>, n: nat)
    requires n <= |delivered| && Delivered(followups, delivered, n).Err?
    ensures Delivered(followups, delivered, |delivered|).Err?
    decreases |delivered| - n
  {
    if n < |delivered| {
      NotDelivered(followups, delivered, n + 1);
    }
  }

  /** record.json behind its lock: each method is one update, or reconcile's own
      locked section. `clock` is the wall clock read when the save is stamped. */
  class TaskFile {
    var stored: Snapshot

    constructor (initial: Snapshot)
      ensures stored == initial
    {
      stored := initial;
    }

    method Save(record: Record)
      modifies this
      ensures stored == Saved(old(stored), record.Value())
    {
      var value := Snapshot(record.state, record.exitCode, record.error, record.pid, record.processStart,
                            record.elapsedMs, record.attemptStartedAtMs,
                            Max(stored.resultRevision, record.resultRevision),
                            record.updatedAtMs, record.steering, record.steeringRevision,
                            record.nativeTaskId, record.foreground, record.workflowFrozen,
                            record.budget, record.budgetExceeded, record.requests, record.followups);
      if !Unstamped(value.state)
         && (stored.state != value.state
             || stored.exitCode != value.exitCode
             || stored.error != value.error
             || stored.budgetExceeded != value.budgetExceeded
             || stored.nativeTaskId != value.nativeTaskId)
      {
        value := value.(resultRevision := Min(U64_MAX, value.resultRevision + 1));
      }
      stored := value;
    }

    /** The tail of update: stamp the working copy and save it. */
    method StampAndSave(record: Record, clock: nat)
      modifies this, record
      ensures stored == Saved(old(stored), Touched(old(record.Value()), clock))
    {
      record.updatedAtMs := Max(clock, Min(U128_MAX, record.updatedAtMs + 1));
      Save(record);
    }

    method PostSpawn(worker: nat, identity: Option<string>, clock: nat)
      modifies this
      ensures stored == Updated(old(stored), Ok(Launched(old(stored), worker, identity)), clock)
    {
      var record := new Record(stored);
      record.Launch(worker, identity);
      StampAndSave(record, clock);
    }

    method Attach(nativeId: string, workspaceOk: bool, self: nat, identity: Option<string>, clock: nat)
      modifies this
      ensures stored == Updated(old(stored), Attached(old(stored), nativeId, workspaceOk, self, identity), clock)
    {
      var record := new Record(stored);
      var ok := record.Attach(nativeId, workspaceOk, self, identity);
      if ok {
        StampAndSave(record, clock);
      }
    }

    method Finish(result: WorkerResult, usage: Usage, now: nat, clock: nat)
      modifies this
      ensures stored == Updated(old(stored), Ok(WorkerFinished(old(stored), now, result, usage)), clock)
    {
      var record := new Record(stored);
      if result.Errored? {
        record.FinishRecord(now, Failed, 1, Some(result.text), usage);
      } else {
        var code := result.code;
        if code == 0 {
          record.FinishRecord(now, Completed, 0, None, usage);
        } else if code == 130 {
          record.FinishRecord(now, Cancelled, 130, Some("agent was cancelled"), usage);
        } else if code == 2 {
          record.FinishRecord(now, Interrupted, 2, Some("agent admission was declined"), usage);
        } else {
          record.FinishRecord(now, Failed, code, Some("agent exited with status " + Text.Decimal(code)), usage);
        }
      }
      StampAndSave(record, clock);
    }

    method FinishNative(outcome: Outcome, missingEvidence: Option<string>, cancelSaved: bool, usage: Usage,
                        now: nat, clock: nat)
      modifies this
      ensures stored == Updated(old(stored), NativeFinished(old(stored), now, outcome, missingEvidence, cancelSaved,
                                                       usage), clock)
    {
      var record := new Record(stored);
      var ok := record.FinishNativeRecord(now, outcome, missingEvidence, cancelSaved, usage);
      if ok {
        StampAndSave(record, clock);
      }
    }

    method FinishForeground(self: nat, outcome: Outcome, missingEvidence: Option<string>, cancelSaved: bool,
                            usage: Usage, now: nat, clock: nat)
      modifies this
      ensures stored == Updated(old(stored), ForegroundFinished(old(stored), now, self, outcome, missingEvidence,
                                                            cancelSaved, usage), clock)
    {
      var record := new Record(stored);
      var ok := record.FinishForeground(now, self, outcome, missingEvidence, cancelSaved, usage);
      if ok {
        StampAndSave(record, clock);
      }
    }

    /** cancel's first update; the process it signalled is returned for the later release. */
    method Cancel(live: bool, signalDelivered: bool, cancelSaved: bool, now: nat, clock: nat)
      returns (signalled: Option<nat>)
      modifies this
      ensures stored == Updated(old(stored),
                                CancelRequested(old(stored), now, live, signalDelivered, cancelSaved), clock)
      ensures signalled.Some? ==> signalled == old(stored).pid && live
    {
      var record := new Record(stored);
      var ok;
      ok, signalled := record.Cancel(now, live, signalDelivered, cancelSaved);
      if ok {
        StampAndSave(record, clock);
      }
    }

    method ReleaseCancelled(signalled: nat, live: bool, cancelSaved: bool, clock: nat)
      modifies this
      ensures stored == Updated(old(stored), CancelReleased(old(stored), signalled, live, cancelSaved), clock)
    {
      var record := new Record(stored);
      var ok := record.ReleaseCancelled(signalled, live, cancelSaved);
      if ok {
        StampAndSave(record, clock);
      }
    }

    method ClaimResume(ledgerClean: bool, now: nat, clock: nat)
      modifies this
      ensures stored == Updated(old(stored), Resumed(old(stored), now, ledgerClean), clock)
    {
      var record := new Record(stored);
      var ok := record.ClaimResume(now, ledgerClean);
      if ok {
        StampAndSave(record, clock);
      }
    }

    method ClaimForeground(seen: Snapshot, live: bool, self: nat, identity: Option<string>, now: nat, clock: nat)
      modifies this
      ensures stored == Updated(old(stored), ForegroundClaimed(old(stored), now, seen, live, self, identity), clock)
    {
      var record := new Record(stored);
      var ok := record.ClaimForeground(now, seen, live, self, identity);
      if ok {
        StampAndSave(record, clock);
      }
    }

    method Adopt(now: nat, clock: nat)
      modifies this
      ensures stored == Updated(old(stored), Adopted(old(stored), now), clock)
    {
      var record := new Record(stored);
      var ok := record.Adopt(now);
      if ok {
        StampAndSave(record, clock);
      }
    }

    method Rework(instructions: string, redacted: string, ledgerClean: bool, otherSpent: bool,
                  checkpointElapsed: nat, now: nat, clock: nat)
      modifies this
      ensures stored == Updated(old(stored), Reworked(old(stored), now, instructions, redacted, ledgerClean,
                                                      otherSpent, checkpointElapsed), clock)
    {
      var record := new Record(stored);
      var ok := record.Rework(now, instructions, redacted, ledgerClean, otherSpent, checkpointElapsed);
      if ok {
        StampAndSave(record, clock);
      }
    }

    method Discard(worktreeRemoved: bool, clock: nat)
      modifies this
      ensures stored == Updated(old(stored), DiscardedNow(old(stored), worktreeRemoved), clock)
    {
      var record := new Record(stored);
      var ok := record.Discard(worktreeRemoved);
      if ok {
        StampAndSave(record, clock);
      }
    }

    /** reconcile on a caller's copy `seen`. The caller's copy only decides whether to
        look; what is written depends on the record reloaded under the lock. */
    method Reconcile(seen: Snapshot, seenLive: bool, live: bool, paused: bool, now: nat, clock: nat)
      returns (reloaded: Snapshot)
      modifies this
      ensures stored == ReconcileStored(old(stored), seen, seenLive, live, paused, now, clock)
      ensures reloaded == if LooksDead(seen, now, seenLive) then stored else seen
    {
      if !LooksDead(seen, now, seenLive) {
        return seen;
      }
      var record := new Record(stored);
      var changed := record.Reconcile(now, live, paused);
      if changed {
        StampAndSave(record, clock);
      }
      return stored;
    }

    method Apply(end: ApplyEnd, clock: nat)
      modifies this
      ensures stored == Updated(old(stored), ChangesApplied(old(stored), end), clock)
    {
      var record := new Record(stored);
      var ok := record.ApplyChanges(end);
      if ok {
        StampAndSave(record, clock);
      }
    }

    method ClaimStage(now: nat, clock: nat)
      modifies this
      ensures stored == Updated(old(stored), StageClaimed(old(stored), now), clock)
    {
      var record := new Record(stored);
      var ok := record.ClaimStage(now);
      if ok {
        StampAndSave(record, clock);
      }
    }

    method ReturnStage(text: string, clock: nat)
      modifies this
      ensures stored == Updated(old(stored), Ok(StageReturned(old(stored), text)), clock)
    {
      var record := new Record(stored);
      record.ReturnStage(text);
      StampAndSave(record, clock);
    }

    method SealStage(seenRevision: nat, clock: nat)
      modifies this
      ensures stored == Updated(old(stored), StageSealed(old(stored), seenRevision), clock)
    {
      var record := new Record(stored);
      var ok := record.SealStage(seenRevision);
      if ok {
        StampAndSave(record, clock);
      }
    }

    method UnsealStage(text: string, clock: nat)
      modifies this
      ensures stored == Updated(old(stored), Ok(StageUnsealed(old(stored), text)), clock)
    {
      var record := new Record(stored);
      record.UnsealStage(text);
      StampAndSave(record, clock);
    }

    method NoteStage(text: string, clock: nat)
      modifies this
      ensures stored == Updated(old(stored), Ok(StageNoted(old(stored), text)), clock)
    {
      var record := new Record(stored);
      record.NoteStage(text);
      StampAndSave(record, clock);
    }

    method EditMailbox(edit: MailboxEdit, clock: nat)
      modifies this
      ensures stored == Updated(old(stored), MailboxEdited(old(stored), edit), clock)
    {
      var record := new Record(stored);
      var ok := record.EditMailbox(edit);
      if ok {
        StampAndSave(record, clock);
      }
    }
  }
}
