/** Every interleaving of the steps that change one record: launcher, worker, terminal,
    canceller, pollers, the change reviewer and the workflow scheduler. A step carries
    what its caller saw outside the lock; nothing constrains how stale that is. */
module TaskRuns {
  import opened Wrappers
  import opened TaskRecord
  import Text

  datatype Step =
    | PostSpawn(worker: nat, identity: Option<string>)
    | Attach(nativeId: string, workspaceOk: bool, self: nat, identity: Option<string>)
    | Finish(result: WorkerResult, usage: Usage)
    | FinishNative(outcome: Outcome, missingEvidence: Option<string>, cancelSaved: bool, usage: Usage)
    | FinishForeground(self: nat, outcome: Outcome, missingEvidence: Option<string>, cancelSaved: bool, usage: Usage)
    | Cancel(live: bool, signalDelivered: bool, cancelSaved: bool)
    | ReleaseCancelled(signalled: nat, live: bool, cancelSaved: bool)
    | ClaimResume(ledgerClean: bool)
    | ClaimForeground(seen: Snapshot, live: bool, self: nat, identity: Option<string>)
    | Adopt
    | Rework(instructions: string, redacted: string, ledgerClean: bool, otherSpent: bool, checkpointElapsed: nat)
    | Discard(worktreeRemoved: bool)
    | Reconcile(seen: Snapshot, seenLive: bool, live: bool, paused: bool)
    | Apply(end: ApplyEnd)
    | StageClaim
    | StageReturn(text: string)
    | StageSeal(seenRevision: nat)
    | StageUnseal(text: string)
    | StageNote(text: string)
    | Mailbox(edit: MailboxEdit)

  /** `now` is the clock inside the closure; `clock` is read again to stamp the save. */
  datatype Event = Event(now: nat, clock: nat, step: Step)

  /** What one closure wants saved. reconcile's caller-side guard is in `Next`. */
  function Change(r: Snapshot, now: nat, step: Step): Result<Snapshot, string> {
    match step
    case PostSpawn(worker, identity) => Ok(Launched(r, worker, identity))
    case Attach(nativeId, workspaceOk, self, identity) => Attached(r, nativeId, workspaceOk, self, identity)
    case Finish(result, usage) => Ok(WorkerFinished(r, now, result, usage))
    case FinishNative(outcome, missing, cancelSaved, usage) =>
      NativeFinished(r, now, outcome, missing, cancelSaved, usage)
    case FinishForeground(self, outcome, missing, cancelSaved, usage) =>
      ForegroundFinished(r, now, self, outcome, missing, cancelSaved, usage)
    case Cancel(live, signalDelivered, cancelSaved) => CancelRequested(r, now, live, signalDelivered, cancelSaved)
    case ReleaseCancelled(signalled, live, cancelSaved) => CancelReleased(r, signalled, live, cancelSaved)
    case ClaimResume(ledgerClean) => Resumed(r, now, ledgerClean)
    case ClaimForeground(seen, live, self, identity) => ForegroundClaimed(r, now, seen, live, self, identity)
    case Adopt => Adopted(r, now)
    case Rework(text, redacted, ledgerClean, otherSpent, used) =>
      Reworked(r, now, text, redacted, ledgerClean, otherSpent, used)
    case Discard(worktreeRemoved) => DiscardedNow(r, worktreeRemoved)
    case Reconcile(_, _, live, paused) =>
      if Active(r.state) && !(r.pid.Some? && live) then Ok(Reconciled(r, now, live, paused))
      else Err("nothing to reconcile")
    case Apply(end) => ChangesApplied(r, end)
    case StageClaim => StageClaimed(r, now)
    case StageReturn(text) => Ok(StageReturned(r, text))
    case StageSeal(seenRevision) => StageSealed(r, seenRevision)
    case StageUnseal(text) => Ok(StageUnsealed(r, text))
    case StageNote(text) => Ok(StageNoted(r, text))
    case Mailbox(edit) => MailboxEdited(r, edit)
  }

  function Next(r: Snapshot, e: Event): Snapshot {
    if e.step.Reconcile? && !LooksDead(e.step.seen, e.now, e.step.seenLive) then r
    else Updated(r, Change(r, e.now, e.step), e.clock)
  }

  function Run(r: Snapshot, es: seq<Event>): Snapshot {
    if es == [] then r else Next(Run(r, es[..|es| - 1]), es[|es| - 1])
  }

  /** Next agrees with what the file method of reconcile stores. */
  lemma ReconcileIsNext(r: Snapshot, e: Event)
    requires e.step.Reconcile?
    ensures Next(r, e) == ReconcileStored(r, e.step.seen, e.step.seenLive, e.step.live, e.step.paused, e.now, e.clock)
  {
  }

  // ----- single steps -----

  lemma CancelIs(r: Snapshot, now: nat, step: Step)
    requires step.Cancel?
    ensures Change(r, now, step) == CancelRequested(r, now, step.live, step.signalDelivered, step.cancelSaved)
  {
  }

  lemma FinishIs(r: Snapshot, now: nat, step: Step)
    requires step.Finish?
    ensures Change(r, now, step) == Ok(WorkerFinished(r, now, step.result, step.usage))
  {
  }

  lemma MailboxIs(r: Snapshot, now: nat, step: Step)
    requires step.Mailbox?
    ensures Change(r, now, step) == MailboxEdited(r, step.edit)
  {
  }

  // ----- where records come from -----

  /** start, a workflow stage, or a native checkpoint parked for handoff. */
  predicate Created(r: Snapshot, at: nat) {
    && r.resultRevision == 0 && !r.budgetExceeded && !r.foreground && r.steering == []
    && r.elapsedMs <= U64_MAX && r.updatedAtMs == at && r.requests == [] && r.followups == []
    && (   (r.state.Starting? && r.attemptStartedAtMs == Some(at) && r.elapsedMs == 0 && r.exitCode.None?
         && r.error.None?)
        || (r.state.Blocked? && r.attemptStartedAtMs.None? && r.elapsedMs == 0 && r.exitCode.None?)
        || (r.state.Interrupted? && r.attemptStartedAtMs.None? && r.exitCode == Some(75) && r.nativeTaskId.Some?))
  }

  // ----- fields a save leaves alone -----

  lemma SavedFields(r: Snapshot, c: Snapshot, clock: nat)
    ensures var s := Updated(r, Ok(c), clock);
            StampOf(s) == StampOf(c) && s.elapsedMs == c.elapsedMs && s.attemptStartedAtMs == c.attemptStartedAtMs
            && s.steering == c.steering && s.steeringRevision == c.steeringRevision && s.pid == c.pid
            && s.foreground == c.foreground
  {
  }

  /** The mailbox updates change requests and follow-ups alone. */
  lemma MailboxFields(r: Snapshot, edit: MailboxEdit)
    ensures var c := MailboxEdited(r, edit);
            c.Ok? ==> c.value == r.(requests := c.value.requests, followups := c.value.followups)
  {
    hide Asked, Answered, Used, Enqueued, Unqueued, Acknowledged;
  }

  // ----- what publishing an outcome does -----

  /** The fields no outcome, claim or cancellation touches. */
  predicate CarriesOver(r: Snapshot, c: Snapshot) {
    && c.steering == r.steering && c.steeringRevision == r.steeringRevision
    && c.resultRevision == r.resultRevision && c.updatedAtMs == r.updatedAtMs && c.budget == r.budget
    && c.nativeTaskId == r.nativeTaskId && (r.budgetExceeded ==> c.budgetExceeded)
  }

  lemma PublishedFacts(r: Snapshot, now: nat, state: State, code: int, error: Option<string>)
    ensures var p := Published(r, now, state, code, error);
            && CarriesOver(r, p) && p.attemptStartedAtMs.None? && p.elapsedMs == Elapsed(r, now)
            && ((p.state == state && p.exitCode == Some(code) && p.error == error) || p.state.Interrupted?)
  {
  }

  lemma ChargedFacts(r: Snapshot, usage: Usage)
    ensures var c := Charged(r, usage);
            && CarriesOver(r, c) && c.attemptStartedAtMs == r.attemptStartedAtMs && c.elapsedMs == r.elapsedMs
            && ((c.state == r.state && c.exitCode == r.exitCode && c.error == r.error) || c.state.Failed?)
  {
  }

  lemma RequestsClosedFacts(r: Snapshot)
    ensures var c := RequestsClosed(r);
            && CarriesOver(r, c) && c.attemptStartedAtMs == r.attemptStartedAtMs && c.elapsedMs == r.elapsedMs
            && c.state == r.state && c.exitCode == r.exitCode && c.error == r.error
  {
  }

  /** Only an unsettled attempt takes an outcome; the change budget and a late follow-up may replace it. */
  lemma FinishedFacts(r: Snapshot, now: nat, state: State, code: int, error: Option<string>, usage: Usage)
    ensures var c := Finished(r, now, state, code, error, usage);
            && CarriesOver(r, c)
            && (!AcceptsOutcome(r.state) ==> c == r)
            && (AcceptsOutcome(r.state) ==> c.attemptStartedAtMs.None? && c.elapsedMs == Elapsed(r, now))
            && (AcceptsOutcome(r.state) ==>
                  (c.state == state && c.exitCode == Some(code) && c.error == error)
                  || c.state.Failed? || c.state.Interrupted?)
  {
    if AcceptsOutcome(r.state) {
      var p := Published(r, now, state, code, error);
      PublishedFacts(r, now, state, code, error);
      var closed := if state.Cancelled? || state.Applied? || state.Discarded?
                    then p.(requests := InvalidateOpen(p.requests)) else p;
      ChargedFacts(closed, usage);
      RequestsClosedFacts(Charged(closed, usage));
    }
  }

  // ----- active-time accounting -----

  /** The attempt clock is open exactly while a worker may be running. */
  predicate ClockMatchesState(r: Snapshot) {
    (Active(r.state) <==> r.attemptStartedAtMs.Some?) && r.elapsedMs <= U64_MAX
  }

  datatype ClockMove = Keeps | Opens | Closes | Drops

  /** What a step does to the attempt clock. */
  predicate Moves(r: Snapshot, s: Snapshot, now: nat, move: ClockMove) {
    match move
    case Keeps => s.attemptStartedAtMs == r.attemptStartedAtMs && s.elapsedMs == r.elapsedMs
    case Opens => r.attemptStartedAtMs.None? && s.attemptStartedAtMs == Some(now) && s.elapsedMs == r.elapsedMs
    case Closes => r.attemptStartedAtMs.Some? && s.attemptStartedAtMs.None? && s.elapsedMs == Elapsed(r, now)
    case Drops => r.attemptStartedAtMs.Some? && s.attemptStartedAtMs.None? && s.elapsedMs == r.elapsedMs
  }

  /** The scheduler returning a stage it had already started: its open attempt is dropped. */
  predicate DropsAttempt(r: Snapshot, step: Step) {
    step.StageReturn? && r.state.Starting?
  }

  function MoveOf(r: Snapshot, s: Snapshot, step: Step): ClockMove {
    if DropsAttempt(r, step) then Drops
    else if r.attemptStartedAtMs.Some? && s.attemptStartedAtMs.None? then Closes
    else if r.attemptStartedAtMs.None? && s.attemptStartedAtMs.Some? then Opens
    else Keeps
  }

  /** A step that never drops an attempt: the clock keeps, opens or closes. */
  predicate ClockSound(r: Snapshot, c: Snapshot, now: nat) {
    ClockMatchesState(c) && (Moves(r, c, now, Keeps) || Moves(r, c, now, Opens) || Moves(r, c, now, Closes))
  }

  lemma FinishedClock(r: Snapshot, now: nat, state: State, code: int, error: Option<string>, usage: Usage)
    requires ClockMatchesState(r) && !Active(state)
    ensures ClockSound(r, Finished(r, now, state, code, error, usage), now)
  {
    FinishedFacts(r, now, state, code, error, usage);
  }

  lemma WorkerClock(r: Snapshot, now: nat, result: WorkerResult, usage: Usage)
    requires ClockMatchesState(r)
    ensures ClockSound(r, WorkerFinished(r, now, result, usage), now)
  {
    hide Finished, ClockSound;
    match result
    case Errored(text) => FinishedClock(r, now, Failed, 1, Some(text), usage);
    case Exited(code) =>
      FinishedClock(r, now, Completed, 0, None, usage);
      FinishedClock(r, now, Cancelled, 130, Some("agent was cancelled"), usage);
      FinishedClock(r, now, Interrupted, 2, Some("agent admission was declined"), usage);
      FinishedClock(r, now, Failed, code, Some("agent exited with status " + Text.Decimal(code)), usage);
  }

  lemma NativeClock(r: Snapshot, now: nat, outcome: Outcome, missing: Option<string>, cancelSaved: bool, usage: Usage)
    requires ClockMatchesState(r)
    ensures var c := NativeFinished(r, now, outcome, missing, cancelSaved, usage);
            c.Ok? ==> ClockSound(r, c.value, now)
  {
    hide Finished;
    FinishedClock(r, now, Failed, 1, missing, usage);
    FinishedClock(r, now, TurnEnd(outcome.turn), TurnExit(outcome.turn), outcome.detail, usage);
  }

  lemma CallbackClock(r: Snapshot, now: nat, step: Step)
    requires ClockMatchesState(r)
    requires step.Finish? || step.FinishNative? || step.FinishForeground?
    ensures var c := Change(r, now, step); c.Ok? ==> ClockSound(r, c.value, now)
  {
    hide Finished, WorkerFinished, NativeFinished;
    match step
    case Finish(result, usage) => WorkerClock(r, now, result, usage);
    case FinishNative(outcome, missing, cancelSaved, usage) =>
      NativeClock(r, now, outcome, missing, cancelSaved, usage);
    case FinishForeground(_, outcome, missing, cancelSaved, usage) =>
      NativeClock(r, now, outcome, missing, cancelSaved, usage);
    case _ =>
  }

  lemma ClaimClock(r: Snapshot, now: nat, step: Step)
    requires ClockMatchesState(r)
    requires step.ClaimResume? || step.ClaimForeground? || step.StageClaim?
    ensures var c := Change(r, now, step); c.Ok? ==> ClockSound(r, c.value, now)
  {
    hide InvalidateOpen, MailboxEdited, NativeFinished, WorkerFinished, ReadyToResume;
  }

  lemma ReleaseClock(r: Snapshot, now: nat, step: Step)
    requires ClockMatchesState(r)
    requires step.Cancel? || step.ReleaseCancelled?
    ensures var c := Change(r, now, step); c.Ok? ==> ClockSound(r, c.value, now)
  {
    hide InvalidateOpen, MailboxEdited, NativeFinished, WorkerFinished, ReadyToResume;
  }

  lemma AdoptClock(r: Snapshot, now: nat, step: Step)
    requires ClockMatchesState(r)
    requires step.Adopt? || step.Reconcile?
    ensures var c := Change(r, now, step); c.Ok? ==> ClockSound(r, c.value, now)
  {
    hide InvalidateOpen, MailboxEdited, NativeFinished, WorkerFinished, ReadyToResume;
  }

  lemma QuietClock(r: Snapshot, now: nat, step: Step)
    requires ClockMatchesState(r)
    requires step.Rework? || step.Discard? || step.Apply?
    ensures var c := Change(r, now, step); c.Ok? ==> ClockSound(r, c.value, now)
  {
    hide InvalidateOpen, HasBudgetLeft, TotalLength;
  }

  lemma MailboxClock(r: Snapshot, now: nat, step: Step)
    requires ClockMatchesState(r) && step.Mailbox?
    ensures var c := Change(r, now, step); c.Ok? ==> ClockSound(r, c.value, now)
  {
    hide MailboxEdited;
    MailboxFields(r, step.edit);
  }

  lemma StageClock(r: Snapshot, now: nat, step: Step)
    requires ClockMatchesState(r)
    requires step.PostSpawn? || step.Attach? || step.StageSeal? || step.StageUnseal? || step.StageNote?
    ensures var c := Change(r, now, step); c.Ok? ==> ClockSound(r, c.value, now)
  {
    hide InvalidateOpen, MailboxEdited, NativeFinished, WorkerFinished, ReadyToResume;
  }

  lemma ChangeMovesClock(r: Snapshot, now: nat, step: Step)
    requires ClockMatchesState(r)
    ensures Change(r, now, step).Ok? ==>
              var c := Change(r, now, step).value;
              ClockMatchesState(c) && Moves(r, c, now, MoveOf(r, c, step))
  {
    if step.Finish? || step.FinishNative? || step.FinishForeground? {
      CallbackClock(r, now, step);
    } else if step.ClaimResume? || step.ClaimForeground? || step.StageClaim? {
      ClaimClock(r, now, step);
    } else if step.Adopt? || step.Reconcile? {
      AdoptClock(r, now, step);
    } else if step.Cancel? || step.ReleaseCancelled? {
      ReleaseClock(r, now, step);
    } else if step.Mailbox? {
      MailboxClock(r, now, step);
    } else if step.Rework? || step.Discard? || step.Apply? {
      QuietClock(r, now, step);
    } else if !step.StageReturn? {
      StageClock(r, now, step);
    }
  }
}
