/** Which outcomes survive which steps, and what result_revision stands for. */
module TaskOutcomes {
  import opened Wrappers
  import opened TaskRecord
  import Text
  import opened TaskRuns

  // ----- outcomes against late callbacks -----

  /** Steps that report on an attempt its owner may long have ended. */
  predicate Late(step: Step) {
    step.PostSpawn? || step.Attach? || step.Finish? || step.FinishNative? || step.FinishForeground?
    || step.Reconcile? || step.ReleaseCancelled?
  }

  predicate AllLate(es: seq<Event>) {
    forall i :: 0 <= i < |es| ==> Late(es[i].step)
  }

  /** Every cancelled record carries the interrupt exit status. */
  predicate CancelledWith130(r: Snapshot) {
    r.state.Cancelled? ==> r.exitCode == Some(130)
  }

  predicate SameVerdict(r: Snapshot, c: Snapshot) {
    StampOf(c) == StampOf(r) && c.resultRevision == r.resultRevision
  }

  lemma LateChange(r: Snapshot, now: nat, step: Step)
    requires !AcceptsOutcome(r.state) && CancelledWith130(r) && Late(step)
    ensures var c := Change(r, now, step); c.Ok? ==> SameVerdict(r, c.value)
  {
    hide InvalidateOpen, WithdrawPending, Elapsed, MailboxEdited, TurnEnd, TurnExit;
    match step
    case Finish(result, usage) =>
      assert WorkerFinished(r, now, result, usage) == r;
    case _ =>
  }

  lemma LateNext(r: Snapshot, e: Event)
    requires !AcceptsOutcome(r.state) && CancelledWith130(r) && Late(e.step)
    ensures SameVerdict(r, Next(r, e))
  {
    LateChange(r, e.now, e.step);
    hide Change;
    var change := Change(r, e.now, e.step);
  }

  /** No interleaving of late callbacks and of reconciles from any snapshot disturbs a settled outcome. */
  lemma {:induction false} VerdictSurvives(r: Snapshot, es: seq<Event>)
    requires !AcceptsOutcome(r.state) && CancelledWith130(r) && AllLate(es)
    ensures SameVerdict(r, Run(r, es))
  {
    if es != [] {
      var prior := es[..|es| - 1];
      VerdictSurvives(r, prior);
      LateNext(Run(r, prior), es[|es| - 1]);
    }
  }

  /** A lost worker overtakes any attempt that still accepts an outcome. */
  lemma Overtaken(r: Snapshot)
    requires AcceptsOutcome(r.state)
    ensures Run(r, [Event(0, 0, Finish(Errored("lost"), None))]).state.Failed?
  {
    hide Finished;
    var e := Event(0, 0, Finish(Errored("lost"), None));
    FinishIs(r, 0, e.step);
    assert [e][..0] == [] && Run(r, [e]) == Next(r, e);
    FailedStays(r, Some("lost"));
    SavedFields(r, WorkerFinished(r, 0, Errored("lost"), None), 0);
    hide Change;
  }

  lemma FailedStays(r: Snapshot, error: Option<string>)
    requires AcceptsOutcome(r.state)
    ensures Finished(r, 0, Failed, 1, error, None).state.Failed?
  {
    hide InvalidateOpen, WithdrawPending, Elapsed;
  }

  /** The converse: an attempt still open, or interrupted, can always be overtaken. */
  lemma OnlySettledSurvive(r: Snapshot)
    requires CancelledWith130(r)
    ensures !AcceptsOutcome(r.state) <==> forall es :: AllLate(es) ==> SameVerdict(r, Run(r, es))
  {
    hide Run;
    if !AcceptsOutcome(r.state) {
      forall es | AllLate(es)
        ensures SameVerdict(r, Run(r, es))
      {
        VerdictSurvives(r, es);
      }
    } else {
      Overtaken(r);
      assert AllLate([Event(0, 0, Finish(Errored("lost"), None))]);
    }
  }

  // ----- exit statuses against states -----

  /** An attempt in progress shows no old outcome; Completed means 0 and Cancelled means 130. */
  predicate CodesFit(r: Snapshot) {
    && CancelledWith130(r)
    && (r.state.Completed? ==> r.exitCode == Some(0))
    && (Active(r.state) ==> r.exitCode.None? && r.error.None?)
    && (r.state.Blocked? ==> r.exitCode.None?)
  }

  lemma FinishedCode(r: Snapshot, now: nat, state: State, code: int, error: Option<string>, usage: Usage)
    requires CodesFit(r) && !Active(state) && !state.Blocked?
    requires (state.Cancelled? ==> code == 130) && (state.Completed? ==> code == 0)
    ensures CodesFit(Finished(r, now, state, code, error, usage))
  {
    FinishedFacts(r, now, state, code, error, usage);
    hide Finished;
  }

  lemma CallbackCode(r: Snapshot, now: nat, step: Step)
    requires CodesFit(r) && (step.Finish? || step.FinishNative? || step.FinishForeground?)
    ensures var c := Change(r, now, step); c.Ok? ==> CodesFit(c.value)
  {
    hide Finished;
    match step
    case Finish(result, usage) =>
      match result {
        case Errored(text) => FinishedCode(r, now, Failed, 1, Some(text), usage);
        case Exited(code) =>
          FinishedCode(r, now, Completed, 0, None, usage);
          FinishedCode(r, now, Cancelled, 130, Some("agent was cancelled"), usage);
          FinishedCode(r, now, Interrupted, 2, Some("agent admission was declined"), usage);
          FinishedCode(r, now, Failed, code, Some("agent exited with status " + Text.Decimal(code)), usage);
      }
    case FinishNative(outcome, missing, _, usage) =>
      FinishedCode(r, now, Failed, 1, missing, usage);
      FinishedCode(r, now, TurnEnd(outcome.turn), TurnExit(outcome.turn), outcome.detail, usage);
    case FinishForeground(_, outcome, missing, _, usage) =>
      FinishedCode(r, now, Failed, 1, missing, usage);
      FinishedCode(r, now, TurnEnd(outcome.turn), TurnExit(outcome.turn), outcome.detail, usage);
    case _ =>
  }

  lemma ClaimCode(r: Snapshot, now: nat, step: Step)
    requires CodesFit(r)
    requires step.ClaimResume? || step.ClaimForeground? || step.Adopt? || step.Attach? || step.PostSpawn?
             || step.StageClaim?
    ensures var c := Change(r, now, step); c.Ok? ==> CodesFit(c.value)
  {
    hide InvalidateOpen, WithdrawPending, Elapsed, ReadyToResume, MailboxEdited, WorkerFinished, NativeFinished,
         Finished;
  }

  lemma ReleaseCode(r: Snapshot, now: nat, step: Step)
    requires CodesFit(r)
    requires step.Cancel? || step.ReleaseCancelled? || step.Reconcile? || step.Discard?
    ensures var c := Change(r, now, step); c.Ok? ==> CodesFit(c.value)
  {
    hide InvalidateOpen, WithdrawPending, Elapsed, ReadyToResume, MailboxEdited, WorkerFinished, NativeFinished,
         Finished;
  }

  lemma MailboxCode(r: Snapshot, now: nat, step: Step)
    requires CodesFit(r) && step.Mailbox?
    ensures var c := Change(r, now, step); c.Ok? ==> CodesFit(c.value)
  {
    hide MailboxEdited;
    MailboxFields(r, step.edit);
  }

  lemma StageCode(r: Snapshot, now: nat, step: Step)
    requires CodesFit(r)
    requires step.StageReturn? || step.StageSeal? || step.StageUnseal? || step.StageNote?
    ensures var c := Change(r, now, step); c.Ok? ==> CodesFit(c.value)
  {
  }

  lemma ReviewCode(r: Snapshot, now: nat, step: Step)
    requires CodesFit(r) && (step.Rework? || step.Apply?)
    ensures var c := Change(r, now, step); c.Ok? ==> CodesFit(c.value)
  {
    hide Elapsed, HasBudgetLeft, TotalLength;
  }

  lemma ChangeCode(r: Snapshot, now: nat, step: Step)
    requires CodesFit(r)
    ensures var c := Change(r, now, step); c.Ok? ==> CodesFit(c.value)
  {
    hide *;
    if step.Finish? || step.FinishNative? || step.FinishForeground? {
      CallbackCode(r, now, step);
    } else if step.ClaimResume? || step.ClaimForeground? || step.Adopt? || step.Attach? || step.PostSpawn?
              || step.StageClaim? {
      ClaimCode(r, now, step);
    } else if step.Cancel? || step.ReleaseCancelled? || step.Reconcile? || step.Discard? {
      ReleaseCode(r, now, step);
    } else if step.Mailbox? {
      MailboxCode(r, now, step);
    } else if step.Rework? || step.Apply? {
      ReviewCode(r, now, step);
    } else {
      StageCode(r, now, step);
    }
  }

  /** Over every run of a record created without an error: the exit status fits the state. */
  lemma {:induction false} ExitCodesFit(r: Snapshot, at: nat, es: seq<Event>)
    requires Created(r, at)
    ensures CodesFit(Run(r, es))
  {
    if es != [] {
      var prior, e := es[..|es| - 1], es[|es| - 1];
      ExitCodesFit(r, at, prior);
      var before := Run(r, prior);
      ChangeCode(before, e.now, e.step);
      hide Change;
      var change := Change(before, e.now, e.step);
    }
  }

  lemma {:induction false} RunAppend(r: Snapshot, es: seq<Event>, more: seq<Event>)
    ensures Run(r, es + more) == Run(Run(r, es), more)
  {
    hide Next;
    if more == [] {
      assert es + more == es;
    } else {
      var less := more[..|more| - 1];
      RunAppend(r, es, less);
      assert (es + more)[..|es + more| - 1] == es + less;
    }
  }

  /** From the moment any run settles a record, the late callbacks that follow cannot change
      its state, exit code, error, budget verdict, checkpoint or revision. */
  lemma SettledOutcomeSurvives(r: Snapshot, at: nat, es: seq<Event>, late: seq<Event>)
    requires Created(r, at) && AllLate(late) && !AcceptsOutcome(Run(r, es).state)
    ensures SameVerdict(Run(r, es), Run(r, es + late))
  {
    ExitCodesFit(r, at, es);
    RunAppend(r, es, late);
    VerdictSurvives(Run(r, es), late);
    hide Run;
  }

  // ----- who may leave a terminal state -----

  predicate Revives(step: Step) {
    step.ClaimResume? || step.Rework? || step.Discard?
  }

  /** The steps that are not late callbacks, on a discarded record. */
  lemma DiscardedRefuses(r: Snapshot, now: nat, step: Step)
    requires r.state.Discarded? && !Late(step)
    ensures var c := Change(r, now, step); c.Ok? ==> SameVerdict(r, c.value)
  {
    hide InvalidateOpen, WithdrawPending, Elapsed, ReadyToResume, MailboxEdited, WorkerFinished, NativeFinished,
         Finished;
    if step.Mailbox? {
      MailboxFields(r, step.edit);
    }
  }

  lemma CancelledRefuses(r: Snapshot, now: nat, step: Step)
    requires r.state.Cancelled? && r.exitCode == Some(130) && !Revives(step) && !Late(step)
    ensures var c := Change(r, now, step); c.Ok? ==> SameVerdict(r, c.value)
  {
    hide InvalidateOpen, WithdrawPending, Elapsed, ReadyToResume, MailboxEdited, WorkerFinished, NativeFinished,
         Finished;
    if step.Mailbox? {
      MailboxFields(r, step.edit);
    }
  }

  lemma TerminalNext(r: Snapshot, e: Event)
    requires r.state.Discarded? || (r.state.Cancelled? && r.exitCode == Some(130) && !Revives(e.step))
    ensures SameVerdict(r, Next(r, e))
  {
    hide Change;
    if Late(e.step) {
      LateChange(r, e.now, e.step);
    } else if r.state.Discarded? {
      DiscardedRefuses(r, e.now, e.step);
    } else {
      CancelledRefuses(r, e.now, e.step);
    }
    var change := Change(r, e.now, e.step);
  }

  /** Discarded is absorbing, with its whole verdict. */
  lemma {:induction false} DiscardedIsFinal(r: Snapshot, es: seq<Event>)
    requires r.state.Discarded?
    ensures SameVerdict(r, Run(r, es))
  {
    if es != [] {
      var prior := es[..|es| - 1];
      DiscardedIsFinal(r, prior);
      TerminalNext(Run(r, prior), es[|es| - 1]);
      hide Next;
    }
  }

  /** A cancellation is undone only by resume, rework or discard. */
  lemma {:induction false} CancelledStays(r: Snapshot, es: seq<Event>)
    requires r.state.Cancelled? && r.exitCode == Some(130)
    requires forall i :: 0 <= i < |es| ==> !Revives(es[i].step)
    ensures SameVerdict(r, Run(r, es))
  {
    if es != [] {
      var prior := es[..|es| - 1];
      CancelledStays(r, prior);
      TerminalNext(Run(r, prior), es[|es| - 1]);
      hide Next;
    }
  }

  // ----- what only grows -----

  /** History a step may extend but never rewrite. */
  predicate Extends(r: Snapshot, c: Snapshot) {
    && r.steering <= c.steering
    && (r.nativeTaskId.Some? ==> c.nativeTaskId == r.nativeTaskId)
    && (r.budgetExceeded ==> c.budgetExceeded)
    && c.budget == r.budget
  }

  predicate ExtendsUnsaved(r: Snapshot, c: Snapshot) {
    Extends(r, c) && c.resultRevision == r.resultRevision && c.updatedAtMs == r.updatedAtMs
  }

  lemma FinishedExtends(r: Snapshot, now: nat, state: State, code: int, error: Option<string>, usage: Usage)
    ensures ExtendsUnsaved(r, Finished(r, now, state, code, error, usage))
  {
    FinishedFacts(r, now, state, code, error, usage);
    hide Finished;
  }

  lemma CallbackExtends(r: Snapshot, now: nat, step: Step)
    requires step.Finish? || step.FinishNative? || step.FinishForeground?
    ensures var c := Change(r, now, step); c.Ok? ==> ExtendsUnsaved(r, c.value)
  {
    hide Finished;
    match step
    case Finish(result, usage) =>
      match result {
        case Errored(text) => FinishedExtends(r, now, Failed, 1, Some(text), usage);
        case Exited(code) =>
          FinishedExtends(r, now, Completed, 0, None, usage);
          FinishedExtends(r, now, Cancelled, 130, Some("agent was cancelled"), usage);
          FinishedExtends(r, now, Interrupted, 2, Some("agent admission was declined"), usage);
          FinishedExtends(r, now, Failed, code, Some("agent exited with status " + Text.Decimal(code)), usage);
      }
    case FinishNative(outcome, missing, _, usage) =>
      FinishedExtends(r, now, Failed, 1, missing, usage);
      FinishedExtends(r, now, TurnEnd(outcome.turn), TurnExit(outcome.turn), outcome.detail, usage);
    case FinishForeground(_, outcome, missing, _, usage) =>
      FinishedExtends(r, now, Failed, 1, missing, usage);
      FinishedExtends(r, now, TurnEnd(outcome.turn), TurnExit(outcome.turn), outcome.detail, usage);
    case _ =>
  }

  lemma ClaimExtends(r: Snapshot, now: nat, step: Step)
    requires step.ClaimResume? || step.ClaimForeground? || step.Adopt? || step.Attach? || step.PostSpawn?
    ensures var c := Change(r, now, step); c.Ok? ==> ExtendsUnsaved(r, c.value)
  {
    hide InvalidateOpen, WithdrawPending, Elapsed, ReadyToResume, MailboxEdited, WorkerFinished, NativeFinished,
         Finished;
  }

  lemma ReconcileExtends(r: Snapshot, now: nat, step: Step)
    requires step.Reconcile?
    ensures var c := Change(r, now, step); c.Ok? ==> ExtendsUnsaved(r, c.value)
  {
    hide InvalidateOpen, WithdrawPending, Elapsed, ReadyToResume, MailboxEdited, WorkerFinished, NativeFinished,
         Finished;
  }

  lemma CancelExtends(r: Snapshot, now: nat, step: Step)
    requires step.Cancel?
    ensures var c := Change(r, now, step); c.Ok? ==> ExtendsUnsaved(r, c.value)
  {
    hide Change, InvalidateOpen, Elapsed;
    CancelIs(r, now, step);
  }

  lemma ReleaseExtends(r: Snapshot, now: nat, step: Step)
    requires step.ReleaseCancelled?
    ensures var c := Change(r, now, step); c.Ok? ==> ExtendsUnsaved(r, c.value)
  {
    hide InvalidateOpen, WithdrawPending, Elapsed, ReadyToResume, MailboxEdited, WorkerFinished, NativeFinished,
         Finished;
  }

  lemma ReviewExtends(r: Snapshot, now: nat, step: Step)
    requires step.Rework? || step.Discard? || step.Apply?
    ensures var c := Change(r, now, step); c.Ok? ==> ExtendsUnsaved(r, c.value)
  {
    hide InvalidateOpen, Elapsed, HasBudgetLeft, TotalLength;
  }

  lemma MailboxExtends(r: Snapshot, now: nat, step: Step)
    requires step.Mailbox?
    ensures var c := Change(r, now, step); c.Ok? ==> ExtendsUnsaved(r, c.value)
  {
    hide MailboxEdited;
    MailboxFields(r, step.edit);
  }

  lemma StageExtends(r: Snapshot, now: nat, step: Step)
    requires step.StageClaim? || step.StageReturn? || step.StageSeal? || step.StageUnseal? || step.StageNote?
    ensures var c := Change(r, now, step); c.Ok? ==> ExtendsUnsaved(r, c.value)
  {
    hide InvalidateOpen, WithdrawPending, Elapsed, ReadyToResume, MailboxEdited, WorkerFinished, NativeFinished,
         Finished;
  }

  lemma ChangeExtends(r: Snapshot, now: nat, step: Step)
    ensures var c := Change(r, now, step); c.Ok? ==> ExtendsUnsaved(r, c.value)
  {
    hide *;
    if step.Finish? || step.FinishNative? || step.FinishForeground? {
      CallbackExtends(r, now, step);
    } else if step.ClaimResume? || step.ClaimForeground? || step.Adopt? || step.Attach? || step.PostSpawn? {
      ClaimExtends(r, now, step);
    } else if step.Reconcile? {
      ReconcileExtends(r, now, step);
    } else if step.Cancel? {
      CancelExtends(r, now, step);
    } else if step.ReleaseCancelled? {
      ReleaseExtends(r, now, step);
    } else if step.Mailbox? {
      MailboxExtends(r, now, step);
    } else if step.Rework? || step.Discard? || step.Apply? {
      ReviewExtends(r, now, step);
    } else {
      StageExtends(r, now, step);
    }
  }

  /** A step either leaves the stored record alone, or saves a successor with a strictly later
      update stamp, whatever the wall clock says, and a revision that never falls. */
  lemma NextAdvances(r: Snapshot, e: Event)
    requires r.updatedAtMs < U128_MAX
    ensures var s := Next(r, e);
            Extends(r, s) && (s == r || s.updatedAtMs > r.updatedAtMs)
            && (r.resultRevision <= U64_MAX ==> r.resultRevision <= s.resultRevision <= U64_MAX)
  {
    ChangeExtends(r, e.now, e.step);
    hide Change;
    var change := Change(r, e.now, e.step);
  }

  // ----- the result revision -----

  lemma NextStamps(r: Snapshot, e: Event)
    requires r.resultRevision < U64_MAX
    ensures var s := Next(r, e);
            && s.resultRevision == r.resultRevision + (if !Unstamped(s.state) && StampOf(s) != StampOf(r) then 1 else 0)
  {
    ChangeExtends(r, e.now, e.step);
    hide Change;
    var change := Change(r, e.now, e.step);
  }

  /** A settled save with a new verdict gets a new revision exactly below the counter's top. */
  lemma FreshVerdictIsStamped(r: Snapshot, e: Event)
    requires r.resultRevision <= U64_MAX
    ensures var s := Next(r, e);
            !Unstamped(s.state) && StampOf(s) != StampOf(r) ==>
              (s.resultRevision != r.resultRevision <==> r.resultRevision < U64_MAX)
  {
    ChangeExtends(r, e.now, e.step);
    hide Change;
    var change := Change(r, e.now, e.step);
  }

  lemma NextKeepsRevision(r: Snapshot, e: Event)
    requires r.resultRevision <= U64_MAX
    ensures r.resultRevision <= Next(r, e).resultRevision <= U64_MAX
  {
    ChangeExtends(r, e.now, e.step);
    hide Change;
    var change := Change(r, e.now, e.step);
  }

  /** Over any run the revision never falls and never passes the counter's top. */
  lemma {:induction false} RevisionNeverFalls(r: Snapshot, es: seq<Event>, i: nat, j: nat)
    requires r.resultRevision <= U64_MAX && i <= j <= |es|
    ensures r.resultRevision <= Run(r, es[..i]).resultRevision <= Run(r, es[..j]).resultRevision <= U64_MAX
    decreases j
  {
    hide Next;
    if j == 0 {
      assert es[..0] == [];
    } else if i < j {
      RevisionNeverFalls(r, es, i, j - 1);
      assert es[..j][..j - 1] == es[..j - 1];
      NextKeepsRevision(Run(r, es[..j - 1]), es[j - 1]);
    } else {
      RevisionNeverFalls(r, es, j - 1, j - 1);
      assert es[..j][..j - 1] == es[..j - 1];
      NextKeepsRevision(Run(r, es[..j - 1]), es[j - 1]);
    }
  }

  /** Below the counter's top, equal revisions of two settled saves mean the same verdict. */
  lemma {:induction false} RevisionIsFaithful(r: Snapshot, es: seq<Event>, i: nat, j: nat)
    requires r.resultRevision <= U64_MAX && i <= j <= |es|
    requires !Unstamped(Run(r, es[..i]).state) && !Unstamped(Run(r, es[..j]).state)
    requires Run(r, es[..i]).resultRevision == Run(r, es[..j]).resultRevision < U64_MAX
    ensures StampOf(Run(r, es[..i])) == StampOf(Run(r, es[..j]))
    decreases j
  {
    hide Next;
    if i < j {
      var before := Run(r, es[..j - 1]);
      assert es[..j][..j - 1] == es[..j - 1];
      RevisionNeverFalls(r, es, i, j - 1);
      NextKeepsRevision(before, es[j - 1]);
      NextStamps(before, es[j - 1]);
      RevisionIsFaithful(r, es, i, j - 1);
    }
  }

  /** Settling again after a new attempt always takes a larger revision. */
  lemma {:induction false} ResettlingAdvances(r: Snapshot, es: seq<Event>, i: nat, k: nat, j: nat)
    requires r.resultRevision <= U64_MAX && i <= k <= j <= |es|
    requires !Unstamped(Run(r, es[..i]).state) && Unstamped(Run(r, es[..k]).state) && !Unstamped(Run(r, es[..j]).state)
    requires Run(r, es[..i]).resultRevision < U64_MAX
    ensures Run(r, es[..i]).resultRevision < Run(r, es[..j]).resultRevision
    decreases j
  {
    hide Next;
    var before := Run(r, es[..j - 1]);
    assert es[..j][..j - 1] == es[..j - 1];
    RevisionNeverFalls(r, es, i, j - 1);
    NextKeepsRevision(before, es[j - 1]);
    if !Unstamped(before.state) {
      ResettlingAdvances(r, es, i, k, j - 1);
    } else if before.resultRevision < U64_MAX {
      NextStamps(before, es[j - 1]);
    }
  }

  /** At the top of the counter the stamp is no longer faithful: a sealed stage that fails keeps its revision. */
  lemma StampFailsAtTop(r: Snapshot)
    requires r.state.Completed? && r.resultRevision == U64_MAX
    ensures var s := Next(r, Event(0, 0, StageUnseal("no snapshot")));
            s.state.Failed? && s.resultRevision == r.resultRevision && StampOf(s) != StampOf(r)
  {
  }

  /** A foreground claim that succeeds on a settled record claims the very outcome its caller read,
      however many steps came between. */
  lemma ForegroundClaimsWhatItSaw(r: Snapshot, es: seq<Event>, i: nat, now: nat, live: bool, self: nat,
                                  identity: Option<string>)
    requires r.resultRevision <= U64_MAX && i <= |es|
    requires ForegroundClaimed(Run(r, es), now, Run(r, es[..i]), live, self, identity).Ok?
    requires !Run(r, es[..i]).state.Waiting? && !Active(Run(r, es[..i]).state) && !Run(r, es).state.Waiting?
    requires Run(r, es).resultRevision < U64_MAX
    ensures StampOf(Run(r, es[..i])) == StampOf(Run(r, es))
  {
    hide Run;
    assert es[..|es|] == es;
    RevisionIsFaithful(r, es, i, |es|);
  }

  /** The history of a whole run: instructions are only appended, a linked checkpoint and an
      exceeded change budget stay for good. */
  lemma {:induction false} HistoryOnlyGrows(r: Snapshot, es: seq<Event>)
    ensures Extends(r, Run(r, es))
  {
    if es != [] {
      var prior, e := es[..|es| - 1], es[|es| - 1];
      hide Next;
      HistoryOnlyGrows(r, prior);
      NextExtends(Run(r, prior), e);
    }
  }

  lemma NextExtends(r: Snapshot, e: Event)
    ensures Extends(r, Next(r, e))
  {
    ChangeExtends(r, e.now, e.step);
    hide Change;
    var change := Change(r, e.now, e.step);
  }

  // ----- what a published outcome guarantees -----

  /** The steps of publishing, one after the other. */
  lemma FinishedSteps(r: Snapshot, now: nat, state: State, code: int, error: Option<string>, usage: Usage)
      returns (charged: Snapshot)
    requires AcceptsOutcome(r.state)
    ensures Finished(r, now, state, code, error, usage) == RequestsClosed(charged)
    ensures charged.state.Completed? <==> state.Completed? && !HasQueued(r.followups) && !OverBudget(usage, r.budget)
    ensures charged.state.Waiting? ==> state.Waiting? && charged.requests == r.requests
    ensures charged.requests == r.requests || charged.requests == InvalidateOpen(r.requests)
    ensures !Active(state) ==> !Active(charged.state)
  {
    hide InvalidateOpen, RequestsClosed, BudgetText, Elapsed, HasQueued, OverBudget;
    var p := Published(r, now, state, code, error);
    charged := Charged(if state.Cancelled? || state.Applied? || state.Discarded?
                       then p.(requests := InvalidateOpen(p.requests)) else p, usage);
  }

  /** Completed is published exactly for a completion with no follow-up waiting and within the change budget. */
  lemma CompletionIsEarned(r: Snapshot, now: nat, state: State, code: int, error: Option<string>, usage: Usage)
    requires AcceptsOutcome(r.state)
    ensures Finished(r, now, state, code, error, usage).state.Completed?
            <==> state.Completed? && !HasQueued(r.followups) && !OverBudget(usage, r.budget)
  {
    hide Finished, HasQueued, OverBudget, InvalidateOpen, WithdrawPending;
    var charged := FinishedSteps(r, now, state, code, error, usage);
  }

  lemma NothingOpen(requests: seq<RequestStatus>)
    ensures Pending !in InvalidateOpen(requests) && Responded !in InvalidateOpen(requests)
    ensures Pending !in WithdrawPending(requests)
  {
  }

  /** What finish_record leaves to be answered: nothing unless the record then waits, and after an exceeded
      budget not even an answer. Other ways to end an attempt are not this strict. */
  lemma OutcomeClosesQuestions(r: Snapshot, now: nat, state: State, code: int, error: Option<string>, usage: Usage)
    requires AcceptsOutcome(r.state)
    ensures var f := Finished(r, now, state, code, error, usage);
            && (!f.state.Waiting? ==> Pending !in f.requests)
            && (f.budgetExceeded ==> Pending !in f.requests && Responded !in f.requests)
            && (Pending in f.requests ==> Pending in r.requests)
  {
    hide Finished, InvalidateOpen, WithdrawPending;
    var charged := FinishedSteps(r, now, state, code, error, usage);
    NothingOpen(charged.requests);
    NothingOpen(r.requests);
  }

  /** A cancellation and a discard leave neither a question nor an answer. */
  lemma CancelledAsksNothing(r: Snapshot, now: nat)
    ensures Pending !in CancelMarked(r, now).requests && Responded !in CancelMarked(r, now).requests
    ensures var d := DiscardedNow(r, true); d.Ok? ==> Pending !in d.value.requests && Responded !in d.value.requests
  {
    hide InvalidateOpen, Settled;
    NothingOpen(r.requests);
  }
}
