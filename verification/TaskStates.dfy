/** The states a record can go through: which step leads from which state to which, and no other. */
module TaskStates {
  import opened Wrappers
  import opened TaskRecord
  import opened TaskRuns
  import TaskTurns
  import Text

  /** The step can move some record from state `s` to state `t`. */
  predicate Leads(step: Step, s: State, t: State) {
    match step
    case PostSpawn(_, _) => s.Starting? && t.Running?
    case Attach(_, _, _, _) => s.Starting? && t.Running?
    case Finish(_, _) => Ending(s) && (t.Completed? || t.Failed? || t.Interrupted? || t.Cancelled?)
    case FinishNative(_, _, _, _) =>
      Ending(s) && (t.Completed? || t.Failed? || t.Interrupted? || t.Cancelled? || t.Waiting?)
    case FinishForeground(_, _, _, _, _) =>
      Ending(s) && (t.Completed? || t.Failed? || t.Interrupted? || t.Cancelled? || t.Waiting?)
    case Cancel(_, _, _) => (s.Starting? || s.Running? || s.Waiting? || s.Blocked?) && t.Cancelled?
    case ClaimResume(_) => (s.Waiting? || s.Interrupted? || s.Failed? || s.Cancelled?) && t.Starting?
    case ClaimForeground(_, _, _, _) => (s.Waiting? || s.Interrupted? || s.Failed?) && t.Running?
    case Adopt => !(s.Cancelled? || s.Applied? || s.Discarded?) && t.Interrupted?
    case Rework(_, _, _, _, _) => (s.Completed? || s.Failed? || s.Cancelled? || s.Blocked?) && t.Interrupted?
    case Discard(_) => !(s.Starting? || s.Running? || s.Waiting?) && t.Discarded?
    case Reconcile(_, _, _, _) => (s.Starting? || s.Running?) && (t.Waiting? || t.Interrupted?)
    case Apply(_) => (s.Completed? || s.Failed? || s.Interrupted?) && (t.Applied? || t.Failed?)
    case StageClaim => s.Blocked? && t.Starting?
    case StageReturn(_) => s.Starting? && t.Blocked?
    case StageUnseal(_) => s.Completed? && t.Failed?
    case _ => false
  }

  predicate Ending(s: State) {
    s.Starting? || s.Running? || s.Interrupted?
  }

  /** A closure that succeeds leaves the state, or moves it along. */
  predicate Keeps(r: Snapshot, c: Snapshot, step: Step) {
    c.state == r.state || Leads(step, r.state, c.state)
  }

  lemma FinishedState(r: Snapshot, now: nat, state: State, code: int, error: Option<string>, usage: Usage)
    ensures var f := Finished(r, now, state, code, error, usage);
            f.state == r.state
            || (Ending(r.state) && (f.state == state || f.state.Failed? || f.state.Interrupted?))
  {
    FinishedFacts(r, now, state, code, error, usage);
    hide Finished;
  }

  lemma CallbackState(r: Snapshot, now: nat, step: Step)
    requires step.Finish? || step.FinishNative? || step.FinishForeground?
    ensures var c := Change(r, now, step); c.Ok? ==> Keeps(r, c.value, step)
  {
    forall state: State, code, error, usage
      ensures var f := Finished(r, now, state, code, error, usage);
              f.state == r.state
              || (Ending(r.state) && (f.state == state || f.state.Failed? || f.state.Interrupted?))
    {
      FinishedState(r, now, state, code, error, usage);
    }
    hide Finished;
  }

  lemma ClaimState(r: Snapshot, now: nat, step: Step)
    requires step.PostSpawn? || step.Attach? || step.ClaimResume? || step.ClaimForeground? || step.Adopt?
    ensures var c := Change(r, now, step); c.Ok? ==> Keeps(r, c.value, step)
  {
    hide InvalidateOpen, Elapsed, MailboxEdited, NativeFinished, WorkerFinished, ReadyToResume;
  }

  lemma ReleaseState(r: Snapshot, now: nat, step: Step)
    requires step.Cancel? || step.ReleaseCancelled? || step.Discard? || step.Reconcile?
    ensures var c := Change(r, now, step); c.Ok? ==> Keeps(r, c.value, step)
  {
    hide InvalidateOpen, Elapsed, MailboxEdited, NativeFinished, WorkerFinished, ReadyToResume;
  }

  lemma ReviewState(r: Snapshot, now: nat, step: Step)
    requires step.Rework? || step.Apply?
    ensures var c := Change(r, now, step); c.Ok? ==> Keeps(r, c.value, step)
  {
    hide InvalidateOpen, Elapsed, MailboxEdited, HasBudgetLeft, TotalLength, NativeFinished, WorkerFinished;
  }

  lemma StageState(r: Snapshot, now: nat, step: Step)
    requires step.StageClaim? || step.StageReturn? || step.StageSeal? || step.StageUnseal? || step.StageNote?
    ensures var c := Change(r, now, step); c.Ok? ==> Keeps(r, c.value, step)
  {
    hide InvalidateOpen, MailboxEdited, NativeFinished, WorkerFinished;
  }

  /** Whatever a step does to the state, it follows one of the lines above. */
  lemma StepLeads(r: Snapshot, e: Event)
    ensures Next(r, e).state == r.state || Leads(e.step, r.state, Next(r, e).state)
  {
    var step := e.step;
    if step.Finish? || step.FinishNative? || step.FinishForeground? {
      CallbackState(r, e.now, step);
    } else if step.PostSpawn? || step.Attach? || step.ClaimResume? || step.ClaimForeground? || step.Adopt? {
      ClaimState(r, e.now, step);
    } else if step.Cancel? || step.ReleaseCancelled? || step.Discard? || step.Reconcile? {
      ReleaseState(r, e.now, step);
    } else if step.Mailbox? {
      MailboxIs(r, e.now, step);
      MailboxFields(r, step.edit);
    } else if step.Rework? || step.Apply? {
      ReviewState(r, e.now, step);
    } else {
      StageState(r, e.now, step);
    }
    hide Change, Leads;
    var change := Change(r, e.now, step);
  }

  // ----- every line is taken -----

  predicate SameKind(a: Step, b: Step) {
    match a
    case PostSpawn(_, _) => b.PostSpawn?
    case Attach(_, _, _, _) => b.Attach?
    case Finish(_, _) => b.Finish?
    case FinishNative(_, _, _, _) => b.FinishNative?
    case FinishForeground(_, _, _, _, _) => b.FinishForeground?
    case Cancel(_, _, _) => b.Cancel?
    case ReleaseCancelled(_, _, _) => b.ReleaseCancelled?
    case ClaimResume(_) => b.ClaimResume?
    case ClaimForeground(_, _, _, _) => b.ClaimForeground?
    case Adopt => b.Adopt?
    case Rework(_, _, _, _, _) => b.Rework?
    case Discard(_) => b.Discard?
    case Reconcile(_, _, _, _) => b.Reconcile?
    case Apply(_) => b.Apply?
    case StageClaim => b.StageClaim?
    case StageReturn(_) => b.StageReturn?
    case StageSeal(_) => b.StageSeal?
    case StageUnseal(_) => b.StageUnseal?
    case StageNote(_) => b.StageNote?
    case Mailbox(_) => b.Mailbox?
  }

  /** A record with a worker, a checkpoint and an answer. */
  function Sample(s: State, foreground: bool): Snapshot {
    Snapshot(s, None, None, Some(1), None, 0, None, 0, 0, [], 0, Some("task"), foreground, false, Budget(1, 0, 0),
             false, [Responded], [])
  }

  function ResultFor(t: State): WorkerResult {
    match t
    case Completed => Exited(0)
    case Interrupted => Exited(2)
    case Cancelled => Exited(130)
    case _ => Errored("lost")
  }

  function OutcomeFor(t: State): Outcome {
    Outcome("task", match t
                    case Completed => TurnCompleted
                    case Interrupted => TurnHandedOff
                    case Cancelled => TurnCancelled
                    case Waiting => TurnWaiting
                    case _ => TurnFailed, None)
  }

  /** A step of the same kind that leads to `t`, on the sample record. */
  function StepTo(step: Step, s: State, t: State): Step {
    match step
    case PostSpawn(_, _) => PostSpawn(1, None)
    case Attach(_, _, _, _) => Attach("task", true, 1, None)
    case Finish(_, _) => Finish(ResultFor(t), None)
    case FinishNative(_, _, _, _) => FinishNative(OutcomeFor(t), None, true, None)
    case FinishForeground(_, _, _, _, _) => FinishForeground(1, OutcomeFor(t), None, true, None)
    case Cancel(_, _, _) => Cancel(true, true, true)
    case ClaimResume(_) => ClaimResume(true)
    case ClaimForeground(_, _, _, _) => ClaimForeground(Sample(s, false), false, 1, None)
    case Rework(_, _, _, _, _) => Rework("more", "more", true, false, 0)
    case Discard(_) => Discard(true)
    case Reconcile(_, _, _, _) => Reconcile(Sample(s, false), false, false, t.Waiting?)
    case Apply(_) => Apply(if t.Applied? then Complete else Uncertain("unknown"))
    case _ => step
  }

  function RecordFor(step: Step, s: State): Snapshot {
    Sample(s, step.FinishForeground? || step.Adopt?)
  }

  predicate Taken(step: Step, s: State, t: State) {
    var e := Event(0, 0, StepTo(step, s, t));
    SameKind(e.step, step) && Next(RecordFor(step, s), e).state == t
  }

  lemma NextIsSaved(r: Snapshot, step: Step)
    requires !step.Reconcile? && Change(r, 0, step).Ok?
    ensures Next(r, Event(0, 0, step)).state == Change(r, 0, step).value.state
  {
    hide Change;
  }

  lemma FinishTaken(step: Step, s: State, t: State)
    requires Leads(step, s, t) && step.Finish?
    ensures Taken(step, s, t)
  {
    hide Change, Next, TaskTurns.LetsGo, TaskTurns.Settles;
    TaskTurns.WorkersEnd(Sample(s, false), 0, ResultFor(t), None);
    NextIsSaved(Sample(s, false), Finish(ResultFor(t), None));
  }

  lemma NativeTaken(step: Step, s: State, t: State)
    requires Leads(step, s, t) && step.FinishNative?
    ensures Taken(step, s, t)
  {
    hide Change, Next, TaskTurns.LetsGo, TaskTurns.Settles;
    TaskTurns.TurnsEnd(Sample(s, false), 0, OutcomeFor(t), None, true, None);
    NextIsSaved(Sample(s, false), FinishNative(OutcomeFor(t), None, true, None));
  }

  lemma ForegroundTaken(step: Step, s: State, t: State)
    requires Leads(step, s, t) && step.FinishForeground?
    ensures Taken(step, s, t)
  {
    hide Change, Next, TaskTurns.LetsGo, TaskTurns.Settles;
    TaskTurns.TurnsEnd(Sample(s, true), 0, OutcomeFor(t), None, true, None);
    TaskTurns.ForegroundEnds(Sample(s, true), 0, 1, OutcomeFor(t), None, true, None);
    NextIsSaved(Sample(s, true), FinishForeground(1, OutcomeFor(t), None, true, None));
  }

  lemma ClaimTaken(step: Step, s: State, t: State)
    requires Leads(step, s, t)
    requires step.PostSpawn? || step.Attach? || step.ClaimResume? || step.ClaimForeground? || step.Adopt?
    ensures Taken(step, s, t)
  {
    hide NativeFinished, WorkerFinished, MailboxEdited;
    assert Sample(s, false).requests[0] == Responded;
  }

  lemma ReleaseTaken(step: Step, s: State, t: State)
    requires Leads(step, s, t) && (step.Cancel? || step.Discard? || step.Reconcile?)
    ensures Taken(step, s, t)
  {
    hide NativeFinished, WorkerFinished, MailboxEdited;
    assert Sample(s, false).requests[0] == Responded;
  }

  lemma ReviewTaken(step: Step, s: State, t: State)
    requires Leads(step, s, t) && (step.Rework? || step.Apply?)
    ensures Taken(step, s, t)
  {
    hide NativeFinished, WorkerFinished, MailboxEdited;
    assert Text.ByteLength("more") <= 16;
  }

  lemma StageTaken(step: Step, s: State, t: State)
    requires Leads(step, s, t) && (step.StageClaim? || step.StageReturn? || step.StageUnseal?)
    ensures Taken(step, s, t)
  {
    hide NativeFinished, WorkerFinished, MailboxEdited;
  }

  ghost predicate CanLead(step: Step, s: State, t: State) {
    exists r: Snapshot, e: Event :: r.state == s && SameKind(e.step, step) && Next(r, e).state == t
  }

  /** Exactly these lines: a kind of step can move a record from one state to another if and only if it is drawn. */
  lemma LinesAreExact(step: Step, s: State, t: State)
    requires s != t
    ensures Leads(step, s, t) <==> CanLead(step, s, t)
  {
    hide Next, Leads;
    if Leads(step, s, t) {
      LineIsTaken(step, s, t);
      var r, e := RecordFor(step, s), Event(0, 0, StepTo(step, s, t));
      assert r.state == s && SameKind(e.step, step) && Next(r, e).state == t;
    }
    if CanLead(step, s, t) {
      var r: Snapshot, e: Event :| r.state == s && SameKind(e.step, step) && Next(r, e).state == t;
      StepLeads(r, e);
      KindsLeadAlike(e.step, step, s, t);
    }
  }

  lemma KindsLeadAlike(a: Step, b: Step, s: State, t: State)
    requires SameKind(a, b)
    ensures Leads(a, s, t) == Leads(b, s, t)
  {
  }

  lemma LineIsTaken(step: Step, s: State, t: State)
    requires Leads(step, s, t)
    ensures Taken(step, s, t)
  {
    hide Taken;
    if step.Finish? {
      FinishTaken(step, s, t);
    } else if step.FinishNative? {
      NativeTaken(step, s, t);
    } else if step.FinishForeground? {
      ForegroundTaken(step, s, t);
    } else if step.PostSpawn? || step.Attach? || step.ClaimResume? || step.ClaimForeground? || step.Adopt? {
      ClaimTaken(step, s, t);
    } else if step.Cancel? || step.Discard? || step.Reconcile? {
      ReleaseTaken(step, s, t);
    } else if step.Rework? || step.Apply? {
      ReviewTaken(step, s, t);
    } else {
      StageTaken(step, s, t);
    }
  }

  // ----- when a lost worker is noticed -----

  /** A poller that sees the stored record ends its attempt exactly when the worker is recorded and gone, or none has
      been recorded within five seconds of the launch; the record then waits where its checkpoint does and something
      was asked. */
  lemma LossIsNoticed(r: Snapshot, e: Event, live: bool, paused: bool)
    requires e.step == Reconcile(r, live, live, paused)
    ensures Next(r, e).state ==
            if IsLost(r, e.now, live) then
              if paused && (Pending in r.requests || Responded in r.requests) then Waiting else Interrupted
            else r.state
  {
    hide Elapsed, NativeFinished, WorkerFinished, MailboxEdited, Saved;
    ReconcileIsNext(r, e);
    SavedState(r, Touched(Reconciled(r, e.now, live, paused), e.clock));
  }

  predicate IsLost(r: Snapshot, now: nat, live: bool) {
    && (r.state.Starting? || r.state.Running?)
    && if r.pid.Some? then !live else r.state.Running? || now >= r.updatedAtMs + 5_000
  }

  lemma SavedState(previous: Snapshot, r: Snapshot)
    ensures Saved(previous, r).state == r.state
  {
  }

  // ----- sealed stages -----

  /** Finished, handed forward, and at no terminal. */
  predicate Sealed(r: Snapshot) {
    && r.workflowFrozen && !r.foreground
    && (r.state.Completed? || r.state.Applied? || r.state.Failed? || r.state.Discarded?)
  }

  /** A stage handed forward opens no attempt again, over every run in which nobody takes the seal off and no terminal
      claims it. */
  lemma {:induction false} SealedStaysClosed(r: Snapshot, es: seq<Event>)
    requires Sealed(r)
    requires forall i :: 0 <= i < |es| ==> !es[i].step.StageUnseal? && !es[i].step.ClaimForeground?
    ensures Sealed(Run(r, es))
  {
    if es != [] {
      hide Next, Sealed;
      var prior, e := es[..|es| - 1], es[|es| - 1];
      SealedStaysClosed(r, prior);
      SealHolds(Run(r, prior), e);
    }
  }

  lemma SealHolds(r: Snapshot, e: Event)
    requires Sealed(r) && !e.step.StageUnseal? && !e.step.ClaimForeground?
    ensures Sealed(Next(r, e))
  {
    var step := e.step;
    if step.Finish? || step.FinishNative? || step.FinishForeground? {
      LateSeal(r, e.now, step);
    } else if step.Mailbox? {
      MailboxIs(r, e.now, step);
      MailboxFields(r, step.edit);
    } else if step.Rework? || step.Discard? || step.Apply? || step.Cancel? || step.ReleaseCancelled? {
      ReviewSeal(r, e.now, step);
    } else {
      QuietSeal(r, e.now, step);
    }
    hide Change;
    var change := Change(r, e.now, step);
  }

  lemma LateSeal(r: Snapshot, now: nat, step: Step)
    requires Sealed(r) && (step.Finish? || step.FinishNative? || step.FinishForeground?)
    ensures var c := Change(r, now, step); c.Ok? ==> Sealed(c.value)
  {
    hide InvalidateOpen, WithdrawPending, Elapsed, TurnEnd, TurnExit;
  }

  lemma ReviewSeal(r: Snapshot, now: nat, step: Step)
    requires Sealed(r)
    requires step.Rework? || step.Discard? || step.Apply? || step.Cancel? || step.ReleaseCancelled?
    ensures var c := Change(r, now, step); c.Ok? ==> Sealed(c.value)
  {
    hide InvalidateOpen, Elapsed, MailboxEdited, HasBudgetLeft, TotalLength, NativeFinished, WorkerFinished;
  }

  lemma QuietSeal(r: Snapshot, now: nat, step: Step)
    requires Sealed(r) && !step.StageUnseal? && !step.ClaimForeground? && !step.Mailbox?
    requires !(step.Finish? || step.FinishNative? || step.FinishForeground?)
    requires !(step.Rework? || step.Discard? || step.Apply? || step.Cancel? || step.ReleaseCancelled?)
    ensures var c := Change(r, now, step); c.Ok? ==> Sealed(c.value)
  {
    hide InvalidateOpen, Elapsed, MailboxEdited, NativeFinished, WorkerFinished, ReadyToResume;
  }
}
