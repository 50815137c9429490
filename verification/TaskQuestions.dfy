/** Where a question to the user can stand, over every run of the record protocol. */
module TaskQuestions {
  import opened Wrappers
  import opened TaskRecord
  import opened TaskRuns
  import TaskOutcomes
  import Text

  // ----- which steps close, keep or leave a question -----

  /** An attempt is in progress, or its worker waits for the answer. */
  predicate InProgress(s: State) {
    Active(s) || s.Waiting?
  }

  predicate HasQuestion(r: Snapshot) {
    Pending in r.requests
  }

  /** The steps that end an attempt and leave its question: reconcile over a lost worker whose checkpoint does not wait,
      handing off a foreground attempt, and putting back a stage that was already starting. */
  predicate LeavesQuestion(r: Snapshot, e: Event) {
    && HasQuestion(r)
    && InProgress(r.state)
    && match e.step
       case Reconcile(seen, seenLive, live, paused) =>
         LooksDead(seen, e.now, seenLive) && Active(r.state) && !(r.pid.Some? && live) && !paused
       case Adopt => r.foreground
       case StageReturn(_) => r.state.Starting?
       case _ => false
  }

  /** The questions after a step, where its closure succeeds. */
  predicate Fate(r: Snapshot, c: Snapshot, leaves: bool) {
    && (HasQuestion(c) ==> HasQuestion(r) || (Active(r.state) && r.nativeTaskId.Some?))
    && (HasQuestion(c) && InProgress(r.state) && !InProgress(c.state) <==> leaves)
    && (HasQuestion(c) && CanHold(r) ==> MayHold(c.state))
  }

  /** The states in which a question can stand. */
  predicate MayHold(s: State) {
    !(s.Completed? || s.Cancelled? || s.Discarded?)
  }

  predicate CanHold(r: Snapshot) {
    HasQuestion(r) ==> MayHold(r.state)
  }

  /** An outcome, a cancellation and a discard leave no question behind; only an outcome that waits keeps one. */
  lemma FinishedFate(r: Snapshot, now: nat, state: State, code: int, error: Option<string>, usage: Usage)
    requires !Active(state)
    ensures Fate(r, Finished(r, now, state, code, error, usage), false)
  {
    if AcceptsOutcome(r.state) {
      TaskOutcomes.OutcomeClosesQuestions(r, now, state, code, error, usage);
    }
    hide Finished;
  }

  lemma CallbackFate(r: Snapshot, now: nat, step: Step)
    requires step.Finish? || step.FinishNative? || step.FinishForeground?
    ensures var c := Change(r, now, step); c.Ok? ==> Fate(r, c.value, false)
  {
    hide Finished;
    match step
    case Finish(result, usage) =>
      match result {
        case Errored(text) => FinishedFate(r, now, Failed, 1, Some(text), usage);
        case Exited(code) =>
          FinishedFate(r, now, Completed, 0, None, usage);
          FinishedFate(r, now, Cancelled, 130, Some("agent was cancelled"), usage);
          FinishedFate(r, now, Interrupted, 2, Some("agent admission was declined"), usage);
          FinishedFate(r, now, Failed, code, Some("agent exited with status " + Text.Decimal(code)), usage);
      }
    case FinishNative(outcome, missing, _, usage) =>
      FinishedFate(r, now, Failed, 1, missing, usage);
      FinishedFate(r, now, TurnEnd(outcome.turn), TurnExit(outcome.turn), outcome.detail, usage);
    case FinishForeground(_, outcome, missing, _, usage) =>
      FinishedFate(r, now, Failed, 1, missing, usage);
      FinishedFate(r, now, TurnEnd(outcome.turn), TurnExit(outcome.turn), outcome.detail, usage);
    case _ =>
  }

  lemma ClaimFate(r: Snapshot, now: nat, step: Step)
    requires step.ClaimResume? || step.ClaimForeground? || step.Attach? || step.PostSpawn? || step.StageClaim?
    ensures var c := Change(r, now, step); c.Ok? ==> Fate(r, c.value, false)
  {
    hide InvalidateOpen, MailboxEdited, NativeFinished, WorkerFinished;
  }

  lemma CancelFate(r: Snapshot, now: nat, step: Step)
    requires step.Cancel?
    ensures var c := Change(r, now, step); c.Ok? ==> Fate(r, c.value, false)
  {
    hide Change, InvalidateOpen, Elapsed;
    CancelIs(r, now, step);
    TaskOutcomes.NothingOpen(r.requests);
  }

  lemma ReviewFate(r: Snapshot, now: nat, step: Step)
    requires step.ReleaseCancelled? || step.Rework? || step.Discard? || step.Apply?
    ensures var c := Change(r, now, step); c.Ok? ==> Fate(r, c.value, false)
  {
    hide InvalidateOpen, Elapsed, MailboxEdited, HasBudgetLeft, TotalLength, NativeFinished, WorkerFinished;
    TaskOutcomes.NothingOpen(r.requests);
  }

  lemma StageFate(r: Snapshot, now: nat, step: Step)
    requires step.StageSeal? || step.StageUnseal? || step.StageNote?
    ensures var c := Change(r, now, step); c.Ok? ==> Fate(r, c.value, false)
  {
    hide InvalidateOpen, MailboxEdited, NativeFinished, WorkerFinished;
  }

  lemma MailboxFate(r: Snapshot, edit: MailboxEdit)
    ensures var c := MailboxEdited(r, edit); c.Ok? ==> Fate(r, c.value, false)
  {
  }

  lemma LeaverFate(r: Snapshot, e: Event)
    requires e.step.Reconcile? || e.step.Adopt? || e.step.StageReturn?
    requires e.step.Reconcile? ==> LooksDead(e.step.seen, e.now, e.step.seenLive)
    ensures var c := Change(r, e.now, e.step);
            && (c.Ok? ==> Fate(r, c.value, LeavesQuestion(r, e)))
            && (LeavesQuestion(r, e) ==> c.Ok?)
  {
    hide InvalidateOpen, Elapsed, MailboxEdited, NativeFinished, WorkerFinished, LooksDead;
  }

  lemma ChangeFate(r: Snapshot, e: Event)
    requires e.step.Reconcile? ==> LooksDead(e.step.seen, e.now, e.step.seenLive)
    ensures var c := Change(r, e.now, e.step);
            && (c.Ok? ==> Fate(r, c.value, LeavesQuestion(r, e)))
            && (LeavesQuestion(r, e) ==> c.Ok?)
  {
    hide Change, Fate, MailboxEdited, LooksDead;
    var step := e.step;
    if step.Finish? || step.FinishNative? || step.FinishForeground? {
      CallbackFate(r, e.now, step);
    } else if step.ClaimResume? || step.ClaimForeground? || step.Attach? || step.PostSpawn? || step.StageClaim? {
      ClaimFate(r, e.now, step);
    } else if step.Cancel? {
      CancelFate(r, e.now, step);
    } else if step.Reconcile? || step.Adopt? || step.StageReturn? {
      LeaverFate(r, e);
    } else if step.Mailbox? {
      MailboxFate(r, step.edit);
      MailboxIs(r, e.now, step);
    } else if step.StageSeal? || step.StageUnseal? || step.StageNote? {
      StageFate(r, e.now, step);
    } else {
      ReviewFate(r, e.now, step);
    }
  }

  /** A step ends an attempt and leaves its question exactly in the three ways named; a question is only ever
      asked by an attempt in progress that owns a checkpoint; and none comes to stand on a completed, cancelled or
      discarded record. */
  lemma NextFate(r: Snapshot, e: Event)
    ensures Fate(r, Next(r, e), LeavesQuestion(r, e))
  {
    hide Change;
    if !(e.step.Reconcile? && !LooksDead(e.step.seen, e.now, e.step.seenLive)) {
      ChangeFate(r, e);
      var change := Change(r, e.now, e.step);
    }
  }

  // ----- over every run -----

  /** Over every run no question stands on a completed, cancelled or discarded record. */
  lemma {:induction false} QuestionsStandOnlyWhereTheyMay(r: Snapshot, at: nat, es: seq<Event>)
    requires Created(r, at)
    ensures CanHold(Run(r, es))
  {
    if es != [] {
      hide Next, LeavesQuestion;
      var prior := es[..|es| - 1];
      QuestionsStandOnlyWhereTheyMay(r, at, prior);
      NextFate(Run(r, prior), es[|es| - 1]);
    }
  }

  /** A question that stands on a record no attempt of which is in progress was left there by one of the three
      steps, and no attempt has been in progress since. */
  lemma {:induction false} StandingQuestionWasLeft(r: Snapshot, at: nat, es: seq<Event>) returns (i: nat)
    requires Created(r, at) && HasQuestion(Run(r, es)) && !InProgress(Run(r, es).state)
    ensures i < |es| && LeavesQuestion(Run(r, es[..i]), es[i])
    ensures forall j :: i < j <= |es| ==> !InProgress(Run(r, es[..j]).state)
  {
    hide Next, LeavesQuestion;
    var prior, e := es[..|es| - 1], es[|es| - 1];
    var before := Run(r, prior);
    NextFate(before, e);
    assert es[..|es|] == es;
    if InProgress(before.state) {
      i := |es| - 1;
    } else {
      i := StandingQuestionWasLeft(r, at, prior);
      assert prior[..i] == es[..i];
      forall j | i < j <= |prior| ensures !InProgress(Run(r, es[..j]).state) {
        assert prior[..j] == es[..j];
      }
    }
  }

  // ----- a question has a checkpoint, and a stage one only after a resume -----

  /** Over every run a question stands only on a record that owns a checkpoint. */
  lemma {:induction false} QuestionHasCheckpoint(r: Snapshot, at: nat, es: seq<Event>)
    requires Created(r, at)
    ensures HasQuestion(Run(r, es)) ==> Run(r, es).nativeTaskId.Some?
  {
    if es != [] {
      hide Next, LeavesQuestion;
      var prior, e := es[..|es| - 1], es[|es| - 1];
      QuestionHasCheckpoint(r, at, prior);
      NextFate(Run(r, prior), e);
      TaskOutcomes.NextExtends(Run(r, prior), e);
    }
  }

  /** Not yet launched, or put back. */
  predicate Unlaunched(r: Snapshot) {
    r.state.Starting? || r.state.Blocked?
  }

  /** As start and the workflow preparation leave a record: only one parked for handoff owns a checkpoint. */
  predicate Unattached(r: Snapshot) {
    Unlaunched(r) ==> r.nativeTaskId.None?
  }

  lemma FinishedAttached(r: Snapshot, now: nat, state: State, code: int, error: Option<string>, usage: Usage)
    requires !state.Starting? && !state.Blocked? && Unattached(r)
    ensures Unattached(Finished(r, now, state, code, error, usage))
  {
    FinishedFacts(r, now, state, code, error, usage);
    hide Finished;
  }

  lemma CallbackAttached(r: Snapshot, now: nat, step: Step)
    requires (step.Finish? || step.FinishNative? || step.FinishForeground?) && Unattached(r)
    ensures var c := Change(r, now, step); c.Ok? ==> Unattached(c.value)
  {
    hide Finished;
    forall state: State, code, error, usage | !state.Starting? && !state.Blocked?
      ensures Unattached(Finished(r, now, state, code, error, usage))
    {
      FinishedAttached(r, now, state, code, error, usage);
    }
  }

  lemma ClaimAttached(r: Snapshot, now: nat, step: Step)
    requires Unattached(r)
    requires step.ClaimForeground? || step.Attach? || step.PostSpawn? || step.Adopt?
             || step.StageClaim? || step.StageReturn? || step.StageSeal? || step.StageUnseal? || step.StageNote?
    ensures var c := Change(r, now, step); c.Ok? ==> Unattached(c.value)
  {
    hide InvalidateOpen, Elapsed, MailboxEdited, NativeFinished, WorkerFinished, ReadyToResume;
  }

  lemma ReviewAttached(r: Snapshot, now: nat, step: Step)
    requires Unattached(r)
    requires step.Cancel? || step.ReleaseCancelled? || step.Rework? || step.Discard? || step.Apply? || step.Reconcile?
    ensures var c := Change(r, now, step); c.Ok? ==> Unattached(c.value)
  {
    hide InvalidateOpen, Elapsed, MailboxEdited, HasBudgetLeft, TotalLength, NativeFinished, WorkerFinished;
  }

  lemma NextAttached(r: Snapshot, e: Event)
    requires Unattached(r) && !e.step.ClaimResume?
    ensures Unattached(Next(r, e))
  {
    var step := e.step;
    if step.Finish? || step.FinishNative? || step.FinishForeground? {
      CallbackAttached(r, e.now, step);
    } else if step.Cancel? || step.ReleaseCancelled? || step.Rework? || step.Discard? || step.Apply?
              || step.Reconcile? {
      ReviewAttached(r, e.now, step);
    } else if step.Mailbox? {
      MailboxIs(r, e.now, step);
      MailboxFields(r, step.edit);
    } else {
      ClaimAttached(r, e.now, step);
    }
    hide Change;
    var change := Change(r, e.now, step);
  }

  /** A stage that starts or is put back can hold a question only after a resume: no other step brings a record that
      owns a checkpoint there. */
  lemma {:induction false} StageAsksOnlyAfterResume(r: Snapshot, at: nat, es: seq<Event>)
    requires Created(r, at) && Unattached(r)
    requires forall i :: 0 <= i < |es| ==> !es[i].step.ClaimResume?
    ensures Unattached(Run(r, es))
    ensures Unlaunched(Run(r, es)) ==> !HasQuestion(Run(r, es))
  {
    hide Next;
    QuestionHasCheckpoint(r, at, es);
    if es != [] {
      var prior := es[..|es| - 1];
      StageAsksOnlyAfterResume(r, at, prior);
      NextAttached(Run(r, prior), es[|es| - 1]);
    }
  }

  // ----- each of these states is reached -----

  const START := Snapshot(Starting, None, None, None, None, 0, Some(0), 0, 0, [], 0, None, false, false,
                          Budget(1, 0, 0), false, [], [])

  const NATIVE := "task-1"
  const ATTACH := Event(0, 0, Attach(NATIVE, true, 1, None))
  const ASK := Event(0, 0, Mailbox(Ask(NATIVE, true, None)))
  const RESUME := Event(LAUNCH_GRACE_MS, 0, ClaimResume(true))
  const TAKEN_BACK := Event(LAUNCH_GRACE_MS, 0, StageReturn("no worker"))

  /** A poller finds the worker gone; its checkpoint waits for a person or does not. */
  function Lost(paused: bool): Event {
    Event(LAUNCH_GRACE_MS, 0, Reconcile(START, false, false, paused))
  }

  function Applying(end: ApplyEnd): Event {
    Event(LAUNCH_GRACE_MS, 0, Apply(end))
  }

  predicate Stands(r: Snapshot, s: State) {
    r.state == s && r.requests == [Pending] && !r.budgetExceeded && !r.workflowFrozen
  }

  lemma AskStands(r: Snapshot)
    requires Active(r.state) && r.requests == [] && !r.budgetExceeded && !r.workflowFrozen
    requires r.nativeTaskId == Some(NATIVE)
    ensures Stands(Next(r, ASK), r.state)
  {
    MailboxIs(r, 0, ASK.step);
    hide Change;
    assert r.requests + [Pending] == [Pending];
  }

  lemma AttachRuns()
    ensures var r := Next(START, ATTACH);
            && r.state == Running && r.requests == [] && !r.budgetExceeded && !r.workflowFrozen
            && r.nativeTaskId == Some(NATIVE)
  {
  }

  lemma LostStands(r: Snapshot, paused: bool)
    requires Stands(r, Running)
    ensures Stands(Next(r, Lost(paused)), if paused then Waiting else Interrupted)
  {
    hide Elapsed;
    assert r.requests[0] == Pending;
    assert LooksDead(START, LAUNCH_GRACE_MS, false);
  }

  lemma ResumeStands(r: Snapshot)
    requires Stands(r, Interrupted)
    ensures Stands(Next(r, RESUME), Starting)
  {
  }

  lemma ReturnStands(r: Snapshot)
    requires Stands(r, Starting)
    ensures Stands(Next(r, TAKEN_BACK), Blocked)
  {
  }

  lemma ApplyStands(r: Snapshot, end: ApplyEnd)
    requires Stands(r, Interrupted) && (end.Complete? || end.Uncertain?)
    ensures Stands(Next(r, Applying(end)), if end.Complete? then Applied else Failed)
  {
  }

  lemma RunPush(r: Snapshot, es: seq<Event>, e: Event)
    ensures Run(r, es + [e]) == Next(Run(r, es), e)
  {
    hide Next;
    assert (es + [e])[..|es|] == es;
  }

  /** Its worker attaches a checkpoint and asks. */
  lemma ReachedAsking() returns (es: seq<Event>)
    ensures Stands(Run(START, es), Running)
  {
    hide Next;
    AttachRuns();
    RunPush(START, [], ATTACH);
    AskStands(Next(START, ATTACH));
    RunPush(START, [] + [ATTACH], ASK);
    es := [] + [ATTACH] + [ASK];
  }

  /** A run to each state that may hold a question. */
  lemma Reached(s: State) returns (es: seq<Event>)
    requires MayHold(s)
    ensures Stands(Run(START, es), s)
  {
    hide Run, Next, Stands;
    es := ReachedAsking();
    if s.Running? {
      return;
    }
    RunPush(START, es, Lost(s.Waiting?));
    LostStands(Run(START, es), s.Waiting?);
    es := es + [Lost(s.Waiting?)];
    if s.Starting? || s.Blocked? {
      RunPush(START, es, RESUME);
      ResumeStands(Run(START, es));
      es := es + [RESUME];
      if s.Blocked? {
        RunPush(START, es, TAKEN_BACK);
        ReturnStands(Run(START, es));
        es := es + [TAKEN_BACK];
      }
    } else if s.Applied? || s.Failed? {
      var end := if s.Applied? then Complete else Uncertain("unknown");
      RunPush(START, es, Applying(end));
      ApplyStands(Run(START, es), end);
      es := es + [Applying(end)];
    }
  }

  /** The states in which a question can stand are exactly these. */
  lemma MayHoldIsExact(s: State)
    ensures MayHold(s) <==>
            exists r, at, es ::
              Created(r, at) && Unattached(r) && HasQuestion(Run(r, es)) && Run(r, es).state == s
  {
    hide Run;
    if MayHold(s) {
      var es := Reached(s);
      assert Created(START, 0);
      assert [Pending][0] in [Pending];
    }
    if r, at, es :| Created(r, at) && Unattached(r) && HasQuestion(Run(r, es)) && Run(r, es).state == s {
      QuestionsStandOnlyWhereTheyMay(r, at, es);
    }
  }
}
