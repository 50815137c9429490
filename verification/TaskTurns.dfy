/** How a turn of the agent ends its attempt, and how a question it asked is answered and the attempt resumed. */
module TaskTurns {
  import opened Wrappers
  import opened TaskRecord
  import opened TaskRuns
  import Text

  /** The changes stay within the limits that are set; zero sets none. */
  predicate Within(usage: Usage, budget: Budget) {
    usage.Some? ==>
      && (budget.maxChangedFiles == 0 || usage.value.0 <= budget.maxChangedFiles)
      && (budget.maxChangedBytes == 0 || usage.value.1 <= budget.maxChangedBytes)
  }

  lemma WithinIsNotOver(usage: Usage, budget: Budget)
    ensures Within(usage, budget) <==> !OverBudget(usage, budget)
  {
  }

  /** An owned attempt reports how its turn ended. */
  predicate Reports(r: Snapshot, outcome: Outcome, usage: Usage) {
    && (r.state.Starting? || r.state.Running? || r.state.Interrupted?)
    && r.nativeTaskId == Some(outcome.taskId)
    && Within(usage, r.budget) && !r.budgetExceeded
  }

  predicate Ends(r: Snapshot, s: Snapshot, state: State, code: int, error: Option<string>) {
    s.state == state && s.exitCode == Some(code) && s.error == error
  }

  /** The worker is gone and its questions with it; answers already given stay. */
  predicate LetsGo(r: Snapshot, s: Snapshot) {
    && s.pid.None? && s.processStart.None?
    && |s.requests| == |r.requests|
    && forall i :: 0 <= i < |r.requests| ==>
         s.requests[i] == if r.requests[i].Pending? then Invalidated else r.requests[i]
  }

  /** The attempt is settled and its change budget was kept. */
  predicate Settles(r: Snapshot, now: nat, s: Snapshot) {
    s.attemptStartedAtMs.None? && s.elapsedMs == Elapsed(r, now) && !s.budgetExceeded
  }

  lemma Withdrawn(r: Snapshot, s: Snapshot)
    requires s.requests == WithdrawPending(r.requests) && s.pid.None? && s.processStart.None?
    ensures LetsGo(r, s)
  {
  }

  lemma FailureEnds(r: Snapshot, now: nat, state: State, code: int, error: Option<string>, usage: Usage)
    requires AcceptsOutcome(r.state) && !OverBudget(usage, r.budget) && !r.budgetExceeded
    requires state.Failed? || state.Interrupted?
    ensures var f := Finished(r, now, state, code, error, usage);
            Ends(r, f, state, code, error) && LetsGo(r, f) && Settles(r, now, f)
  {
    hide OverBudget, Elapsed, WithdrawPending, LetsGo, HasQueued;
    Withdrawn(r, Finished(r, now, state, code, error, usage));
  }

  lemma CompletionEnds(r: Snapshot, now: nat, error: Option<string>, usage: Usage)
    requires AcceptsOutcome(r.state) && !OverBudget(usage, r.budget) && !r.budgetExceeded
    ensures var f := Finished(r, now, Completed, 0, error, usage);
            && (if Queued in r.followups then Ends(r, f, Interrupted, 75, Some(FOLLOWUP_ARRIVED))
                else Ends(r, f, Completed, 0, error))
            && LetsGo(r, f) && Settles(r, now, f)
  {
    hide OverBudget, Elapsed, WithdrawPending, LetsGo, FOLLOWUP_ARRIVED, Finished;
    WithoutCharge(r, now, error, usage);
    Withdrawn(r, Finished(r, now, Completed, 0, error, usage));
  }

  lemma WithoutCharge(r: Snapshot, now: nat, error: Option<string>, usage: Usage)
    requires AcceptsOutcome(r.state) && !OverBudget(usage, r.budget)
    ensures Finished(r, now, Completed, 0, error, usage) == RequestsClosed(Published(r, now, Completed, 0, error))
  {
    hide OverBudget, Published, RequestsClosed;
    PublishedBudget(r, now, Completed, 0, error);
  }

  lemma WaitEnds(r: Snapshot, now: nat, code: int, error: Option<string>, usage: Usage)
    requires AcceptsOutcome(r.state) && !OverBudget(usage, r.budget) && !r.budgetExceeded
    ensures var f := Finished(r, now, Waiting, code, error, usage);
            && Ends(r, f, Waiting, code, error) && Settles(r, now, f)
            && f.requests == r.requests && f.pid == r.pid && f.processStart == r.processStart
            && f.nativeTaskId == r.nativeTaskId && f.workflowFrozen == r.workflowFrozen
  {
    hide OverBudget, Elapsed, HasQueued;
  }

  lemma CancelEnds(r: Snapshot, now: nat, code: int, error: Option<string>, usage: Usage)
    requires AcceptsOutcome(r.state) && !OverBudget(usage, r.budget) && !r.budgetExceeded
    ensures var f := Finished(r, now, Cancelled, code, error, usage);
            && Ends(r, f, Cancelled, code, error) && Settles(r, now, f)
            && Pending !in f.requests && Responded !in f.requests && f.pid.None? && f.processStart.None?
  {
    hide OverBudget, Elapsed, HasQueued;
  }

  /** Within the change budget every turn ends its attempt in its own way, with its own exit status: only a turn that
      waits keeps its worker and its questions. */
  lemma TurnsEnd(r: Snapshot, now: nat, outcome: Outcome, missing: Option<string>, cancelSaved: bool, usage: Usage)
    requires Reports(r, outcome, usage)
    ensures var c := Change(r, now, FinishNative(outcome, missing, cancelSaved, usage));
            && c.Ok?
            && Settles(r, now, c.value)
            && match outcome.turn
               case TurnCompleted =>
                 LetsGo(r, c.value)
                 && (if missing.Some? then Ends(r, c.value, Failed, 1, missing)
                     else if Queued in r.followups then Ends(r, c.value, Interrupted, 75, Some(FOLLOWUP_ARRIVED))
                     else Ends(r, c.value, Completed, 0, outcome.detail))
               case TurnWaiting =>
                 Ends(r, c.value, Waiting, 75, outcome.detail)
                 && c.value.requests == r.requests && c.value.pid == r.pid && c.value.processStart == r.processStart
                 && c.value.nativeTaskId == r.nativeTaskId && c.value.workflowFrozen == r.workflowFrozen
               case TurnHandedOff => Ends(r, c.value, Interrupted, 75, outcome.detail) && LetsGo(r, c.value)
               case TurnDeclined => Ends(r, c.value, Interrupted, 2, outcome.detail) && LetsGo(r, c.value)
               case TurnBudgetExhausted => Ends(r, c.value, Failed, 124, outcome.detail) && LetsGo(r, c.value)
               case TurnIterationLimit => Ends(r, c.value, Failed, 75, outcome.detail) && LetsGo(r, c.value)
               case TurnFailed => Ends(r, c.value, Failed, 1, outcome.detail) && LetsGo(r, c.value)
               case TurnCancelled =>
                 Ends(r, c.value, Cancelled, 130, outcome.detail)
                 && Pending !in c.value.requests && Responded !in c.value.requests
                 && c.value.pid.None? && c.value.processStart.None?
  {
    hide OverBudget, Finished, Ends, LetsGo, Settles, Change;
    WithinIsNotOver(usage, r.budget);
    NativeIs(r, now, outcome, missing, cancelSaved, usage);
    match outcome.turn
    case TurnCompleted =>
      CompletionEnds(r, now, outcome.detail, usage);
      FailureEnds(r, now, Failed, 1, missing, usage);
    case TurnWaiting => WaitEnds(r, now, 75, outcome.detail, usage);
    case TurnHandedOff => FailureEnds(r, now, Interrupted, 75, outcome.detail, usage);
    case TurnDeclined => FailureEnds(r, now, Interrupted, 2, outcome.detail, usage);
    case TurnBudgetExhausted => FailureEnds(r, now, Failed, 124, outcome.detail, usage);
    case TurnIterationLimit => FailureEnds(r, now, Failed, 75, outcome.detail, usage);
    case TurnFailed => FailureEnds(r, now, Failed, 1, outcome.detail, usage);
    case TurnCancelled => CancelEnds(r, now, 130, outcome.detail, usage);
  }

  lemma NativeIs(r: Snapshot, now: nat, outcome: Outcome, missing: Option<string>, cancelSaved: bool, usage: Usage)
    ensures Change(r, now, FinishNative(outcome, missing, cancelSaved, usage))
            == NativeFinished(r, now, outcome, missing, cancelSaved, usage)
  {
  }

  /** Beyond the change budget every turn fails the task for good, and nothing is left to be answered. */
  lemma TurnOverBudget(r: Snapshot, now: nat, outcome: Outcome, missing: Option<string>, cancelSaved: bool,
                       usage: Usage)
    requires (r.state.Starting? || r.state.Running? || r.state.Interrupted?) && r.nativeTaskId == Some(outcome.taskId)
    requires !Within(usage, r.budget)
    ensures var c := Change(r, now, FinishNative(outcome, missing, cancelSaved, usage));
            && c.Ok? && c.value.state == Failed && c.value.exitCode == Some(1) && c.value.budgetExceeded
            && Pending !in c.value.requests && Responded !in c.value.requests
  {
    hide OverBudget, Change, BudgetText, HasQueued, TurnEnd, TurnExit, Elapsed, InvalidateOpen;
    WithinIsNotOver(usage, r.budget);
    NativeIs(r, now, outcome, missing, cancelSaved, usage);
    forall state, code, error ensures Overdrawn(Finished(r, now, state, code, error, usage)) {
      OverBudgetEnds(r, now, state, code, error, usage);
    }
    hide Finished;
  }

  predicate Overdrawn(s: Snapshot) {
    && s.state == Failed && s.exitCode == Some(1) && s.budgetExceeded
    && Pending !in s.requests && Responded !in s.requests
  }

  lemma OverBudgetEnds(r: Snapshot, now: nat, state: State, code: int, error: Option<string>, usage: Usage)
    requires AcceptsOutcome(r.state) && OverBudget(usage, r.budget)
    ensures Overdrawn(Finished(r, now, state, code, error, usage))
  {
    hide OverBudget, BudgetText, Overdrawn, Published, InvalidateOpen, RequestsClosed, Charged;
    var p := Published(r, now, state, code, error);
    var closed := if state.Cancelled? || state.Applied? || state.Discarded?
                  then p.(requests := InvalidateOpen(p.requests)) else p;
    PublishedBudget(r, now, state, code, error);
    ChargedCloses(closed, usage);
  }

  lemma PublishedBudget(r: Snapshot, now: nat, state: State, code: int, error: Option<string>)
    ensures Published(r, now, state, code, error).budget == r.budget
  {
    hide Elapsed, HasQueued;
  }

  lemma ChargedCloses(r: Snapshot, usage: Usage)
    requires OverBudget(usage, r.budget)
    ensures Overdrawn(RequestsClosed(Charged(r, usage)))
  {
    hide OverBudget, BudgetText;
  }

  /** How a worker without a checkpoint ends: by its exit status alone. */
  lemma WorkersEnd(r: Snapshot, now: nat, result: WorkerResult, usage: Usage)
    requires (r.state.Starting? || r.state.Running? || r.state.Interrupted?)
    requires Within(usage, r.budget) && !r.budgetExceeded
    ensures var c := Change(r, now, Finish(result, usage));
            && c.Ok? && Settles(r, now, c.value)
            && match result
               case Errored(text) => Ends(r, c.value, Failed, 1, Some(text)) && LetsGo(r, c.value)
               case Exited(code) =>
                 if code == 0 then
                   LetsGo(r, c.value)
                   && (if Queued in r.followups then Ends(r, c.value, Interrupted, 75, Some(FOLLOWUP_ARRIVED))
                       else Ends(r, c.value, Completed, 0, None))
                 else if code == 2 then
                   c.value.state == Interrupted && c.value.exitCode == Some(2) && LetsGo(r, c.value)
                 else if code == 130 then
                   c.value.state == Cancelled && c.value.exitCode == Some(130) && c.value.pid.None?
                   && Pending !in c.value.requests && Responded !in c.value.requests
                 else c.value.state == Failed && c.value.exitCode == Some(code) && LetsGo(r, c.value)
  {
    hide OverBudget, Finished, LetsGo, Settles, Change;
    WithinIsNotOver(usage, r.budget);
    FinishIs(r, now, Finish(result, usage));
    match result
    case Errored(text) => FailureEnds(r, now, Failed, 1, Some(text), usage);
    case Exited(code) =>
      CompletionEnds(r, now, None, usage);
      CancelEnds(r, now, 130, Some("agent was cancelled"), usage);
      FailureEnds(r, now, Interrupted, 2, Some("agent admission was declined"), usage);
      FailureEnds(r, now, Failed, code, Some("agent exited with status " + Text.Decimal(code)), usage);
  }

  /** The terminal that owns the attempt reports the same way and gives it up; another's report is refused. */
  lemma ForegroundEnds(r: Snapshot, now: nat, self: nat, outcome: Outcome, missing: Option<string>, cancelSaved: bool,
                       usage: Usage)
    ensures var c := Change(r, now, FinishForeground(self, outcome, missing, cancelSaved, usage));
            var n := Change(r, now, FinishNative(outcome, missing, cancelSaved, usage));
            if !r.foreground then c == Ok(r)
            else if r.pid != Some(self) then c.Err?
            else match n
              case Ok(s) => c == Ok(s.(foreground := false, pid := None, processStart := None))
              case Err(_) => c.Err?
  {
    NativeIs(r, now, outcome, missing, cancelSaved, usage);
    hide NativeFinished;
  }

  // ----- answering and resuming -----

  /** A person answers every open question among the first `k`, in order. */
  function Answering(requests: seq<RequestStatus>, k: nat): seq<Event>
    requires k <= |requests|
  {
    if k == 0 then []
    else Answering(requests, k - 1)
         + if requests[k - 1].Pending? then [Event(0, 0, Mailbox(Answer(true, k - 1)))] else []
  }

  /** The first `k` questions are answered; the worker, its checkpoint and its clock are as they were. */
  predicate AnsweredUpTo(r: Snapshot, s: Snapshot, k: nat) {
    && s.state.Waiting? && s.elapsedMs == r.elapsedMs && s.attemptStartedAtMs == r.attemptStartedAtMs
    && s.workflowFrozen == r.workflowFrozen && s.nativeTaskId == r.nativeTaskId && s.pid == r.pid
    && |s.requests| == |r.requests|
    && forall i :: 0 <= i < |r.requests| ==>
         s.requests[i] == if i < k && r.requests[i].Pending? then Responded else r.requests[i]
  }

  lemma AnswerIs(r: Snapshot, request: nat)
    requires r.state.Waiting? && request < |r.requests| && r.requests[request].Pending?
    ensures var s := Next(r, Event(0, 0, Mailbox(Answer(true, request))));
            && s.state.Waiting? && s.elapsedMs == r.elapsedMs && s.attemptStartedAtMs == r.attemptStartedAtMs
            && s.workflowFrozen == r.workflowFrozen && s.nativeTaskId == r.nativeTaskId && s.pid == r.pid
            && s.requests == r.requests[request := Responded]
  {
    MailboxIs(r, 0, Mailbox(Answer(true, request)));
    hide Change;
  }

  lemma {:induction false} AnswersArrive(r: Snapshot, k: nat)
    requires r.state.Waiting? && k <= |r.requests|
    ensures AnsweredUpTo(r, Run(r, Answering(r.requests, k)), k)
  {
    hide Next;
    if k > 0 {
      AnswersArrive(r, k - 1);
      var es := Answering(r.requests, k - 1);
      if r.requests[k - 1].Pending? {
        var e := Event(0, 0, Mailbox(Answer(true, k - 1)));
        assert (es + [e])[..|es|] == es;
        AnswerIs(Run(r, es), k - 1);
      } else {
        assert es + [] == es;
      }
    }
  }

  /** No resume and no terminal opens an attempt while a question stands unanswered. */
  lemma NoneResumesUnanswered(r: Snapshot, e: Event)
    requires r.state.Waiting? && Pending in r.requests && (e.step.ClaimResume? || e.step.ClaimForeground?)
    ensures Next(r, e) == r
  {
  }

  lemma ResumeOpens(r: Snapshot, now: nat, clock: nat)
    requires r.state.Waiting? && Pending !in r.requests && Responded in r.requests && !r.workflowFrozen
    ensures var s := Next(r, Event(now, clock, ClaimResume(true)));
            && s.state.Starting? && s.attemptStartedAtMs == Some(now) && s.elapsedMs == r.elapsedMs
            && s.requests == r.requests && s.exitCode.None? && s.nativeTaskId == r.nativeTaskId
  {
  }

  /** A turn that waits keeps its question; the question can be answered, and once every question is, a resume opens a
      new attempt on the same checkpoint, with every answer at hand and no time added while the record waited. */
  lemma WaitingTurnIsResumed(r: Snapshot, finish: Event, outcome: Outcome, missing: Option<string>, saved: bool,
                             usage: Usage, now: nat, clock: nat)
    requires Reports(r, outcome, usage) && outcome.turn == TurnWaiting && Pending in r.requests && !r.workflowFrozen
    requires finish.step == FinishNative(outcome, missing, saved, usage)
    ensures var waiting := Next(r, finish);
            var answered := Run(waiting, Answering(waiting.requests, |waiting.requests|));
            var resumed := Next(answered, Event(now, clock, ClaimResume(true)));
            && waiting.state.Waiting? && waiting.requests == r.requests && waiting.pid == r.pid
            && AnsweredUpTo(waiting, answered, |waiting.requests|)
            && resumed.state.Starting? && resumed.attemptStartedAtMs == Some(now)
            && resumed.elapsedMs == Elapsed(r, finish.now) && resumed.nativeTaskId == r.nativeTaskId
            && resumed.requests == answered.requests && Pending !in resumed.requests
  {
    hide Next, Run, Elapsed;
    WaitingTurnWaits(r, finish, outcome, missing, saved, usage);
    var waiting := Next(r, finish);
    AnswersArrive(waiting, |waiting.requests|);
    var answered := Run(waiting, Answering(waiting.requests, |waiting.requests|));
    AllAnswered(waiting, answered);
    ResumeOpens(answered, now, clock);
  }

  lemma AllAnswered(waiting: Snapshot, answered: Snapshot)
    requires AnsweredUpTo(waiting, answered, |waiting.requests|) && Pending in waiting.requests
    ensures Pending !in answered.requests && Responded in answered.requests
  {
    var i: nat :| i < |waiting.requests| && waiting.requests[i] == Pending;
    assert answered.requests[i] == Responded;
  }

  lemma WaitingTurnWaits(r: Snapshot, finish: Event, outcome: Outcome, missing: Option<string>, saved: bool,
                         usage: Usage)
    requires Reports(r, outcome, usage) && outcome.turn == TurnWaiting
    requires finish.step == FinishNative(outcome, missing, saved, usage)
    ensures var s := Next(r, finish);
            && s.state.Waiting? && s.requests == r.requests && s.pid == r.pid && s.nativeTaskId == r.nativeTaskId
            && s.elapsedMs == Elapsed(r, finish.now) && s.workflowFrozen == r.workflowFrozen
  {
    TurnsEnd(r, finish.now, outcome, missing, saved, usage);
    hide Change, Elapsed;
  }
}
