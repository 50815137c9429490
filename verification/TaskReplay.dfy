/** The stored record under a whole run: what holds of every sequence of steps holds of the file. */
module TaskReplay {
  import opened Wrappers
  import opened TaskRecord
  import opened TaskRuns
  import opened TaskStore
  import TaskOutcomes
  import TaskProperties
  import TaskQuestions

  predicate IsWorkers(step: Step) {
    step.PostSpawn? || step.Attach? || step.Finish? || step.FinishNative? || step.FinishForeground?
  }

  predicate IsSchedulers(step: Step) {
    step.StageClaim? || step.StageReturn? || step.StageSeal? || step.StageUnseal? || step.StageNote?
  }

  method PerformWorkers(file: TaskFile, e: Event)
    requires IsWorkers(e.step)
    modifies file
    ensures file.stored == Next(old(file.stored), e)
  {
    hide Updated;
    match e.step
    case PostSpawn(worker, identity) => file.PostSpawn(worker, identity, e.clock);
    case Attach(nativeId, workspaceOk, self, identity) => file.Attach(nativeId, workspaceOk, self, identity, e.clock);
    case Finish(result, usage) => file.Finish(result, usage, e.now, e.clock);
    case FinishNative(outcome, missing, cancelSaved, usage) =>
      file.FinishNative(outcome, missing, cancelSaved, usage, e.now, e.clock);
    case FinishForeground(self, outcome, missing, cancelSaved, usage) =>
      file.FinishForeground(self, outcome, missing, cancelSaved, usage, e.now, e.clock);
  }

  method PerformSchedulers(file: TaskFile, e: Event)
    requires IsSchedulers(e.step)
    modifies file
    ensures file.stored == Next(old(file.stored), e)
  {
    hide Updated;
    match e.step
    case StageClaim => file.ClaimStage(e.now, e.clock);
    case StageReturn(text) => file.ReturnStage(text, e.clock);
    case StageSeal(seenRevision) => file.SealStage(seenRevision, e.clock);
    case StageUnseal(text) => file.UnsealStage(text, e.clock);
    case StageNote(text) => file.NoteStage(text, e.clock);
  }

  method PerformUsers(file: TaskFile, e: Event)
    requires !IsWorkers(e.step) && !IsSchedulers(e.step)
    modifies file
    ensures file.stored == Next(old(file.stored), e)
  {
    hide Updated;
    match e.step
    case Cancel(live, signalDelivered, cancelSaved) =>
      var signalled := file.Cancel(live, signalDelivered, cancelSaved, e.now, e.clock);
    case ReleaseCancelled(signalled, live, cancelSaved) => file.ReleaseCancelled(signalled, live, cancelSaved, e.clock);
    case ClaimResume(ledgerClean) => file.ClaimResume(ledgerClean, e.now, e.clock);
    case ClaimForeground(seen, live, self, identity) =>
      file.ClaimForeground(seen, live, self, identity, e.now, e.clock);
    case Adopt => file.Adopt(e.now, e.clock);
    case Rework(text, redacted, ledgerClean, otherSpent, used) =>
      file.Rework(text, redacted, ledgerClean, otherSpent, used, e.now, e.clock);
    case Discard(worktreeRemoved) => file.Discard(worktreeRemoved, e.clock);
    case Reconcile(seen, seenLive, live, paused) =>
      ReconcileIsNext(file.stored, e);
      var reloaded := file.Reconcile(seen, seenLive, live, paused, e.now, e.clock);
    case Apply(end) => file.Apply(end, e.clock);
    case Mailbox(edit) => file.EditMailbox(edit, e.clock);
  }

  /** One process takes the lock, runs its closure and saves, or leaves the file alone. */
  method Perform(file: TaskFile, e: Event)
    modifies file
    ensures file.stored == Next(old(file.stored), e)
  {
    hide Next;
    if IsWorkers(e.step) {
      PerformWorkers(file, e);
    } else if IsSchedulers(e.step) {
      PerformSchedulers(file, e);
    } else {
      PerformUsers(file, e);
    }
  }

  /** Any processes, one after the other. */
  method Replay(file: TaskFile, es: seq<Event>)
    modifies file
    ensures file.stored == Run(old(file.stored), es)
  {
    hide Next;
    for i := 0 to |es|
      invariant file.stored == Run(old(file.stored), es[..i])
    {
      assert es[..i + 1][..i] == es[..i];
      Perform(file, es[i]);
    }
    assert es[..|es|] == es;
  }

  /** What a new task's file says after any run in which the clock does not run backwards. */
  method Serve(file: TaskFile, start: nat, es: seq<Event>, until: nat)
    requires Created(file.stored, start) && TaskProperties.Ordered(start, es, until)
    modifies file
    ensures (Active(file.stored.state) <==> file.stored.attemptStartedAtMs.Some?)
    ensures TaskProperties.DroppedMs(old(file.stored), es)
            <= TaskProperties.ActiveMs(old(file.stored), start, es, until)
    ensures Elapsed(file.stored, until)
            == Min(U64_MAX, old(file.stored).elapsedMs + TaskProperties.ActiveMs(old(file.stored), start, es, until)
                            - TaskProperties.DroppedMs(old(file.stored), es))
    ensures TaskOutcomes.CodesFit(file.stored)
    ensures TaskQuestions.CanHold(file.stored)
    ensures TaskQuestions.HasQuestion(file.stored) ==> file.stored.nativeTaskId.Some?
    ensures TaskOutcomes.Extends(old(file.stored), file.stored)
  {
    hide Run, Elapsed;
    TaskProperties.ActiveTimeConserved(file.stored, start, es, until);
    TaskOutcomes.ExitCodesFit(file.stored, start, es);
    TaskOutcomes.HistoryOnlyGrows(file.stored, es);
    TaskQuestions.QuestionsStandOnlyWhereTheyMay(file.stored, start, es);
    TaskQuestions.QuestionHasCheckpoint(file.stored, start, es);
    Replay(file, es);
  }

  /** Late callbacks and stale reconciles find a settled file as they leave it. */
  method ServeLate(file: TaskFile, es: seq<Event>)
    requires !AcceptsOutcome(file.stored.state) && TaskOutcomes.CancelledWith130(file.stored)
    requires TaskOutcomes.AllLate(es)
    modifies file
    ensures TaskOutcomes.SameVerdict(old(file.stored), file.stored)
  {
    hide Run;
    TaskOutcomes.VerdictSurvives(file.stored, es);
    Replay(file, es);
  }
}
