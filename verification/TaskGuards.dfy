/** Who may do what to a record: when each step is taken, and everything it then changes. */
module TaskGuards {
  import opened Wrappers
  import opened TaskRecord
  import opened TaskRuns
  import Text

  // ----- taking an attempt -----

  /** The launcher and the worker itself record the worker, once: only while the record is starting. */
  lemma WorkerIsRecorded(r: Snapshot, now: nat, worker: nat, identity: Option<string>)
    ensures Change(r, now, PostSpawn(worker, identity))
            == Ok(if r.state == Starting then r.(state := Running, pid := Some(worker), processStart := identity)
                  else r)
  {
  }

  /** A worker links its checkpoint only to an attempt in progress in the same workspace, and never a second one. */
  lemma AttachOwns(r: Snapshot, now: nat, nativeId: string, workspaceOk: bool, self: nat, identity: Option<string>)
    ensures var c := Change(r, now, Attach(nativeId, workspaceOk, self, identity));
            if (r.state == Starting || r.state == Running) && workspaceOk
               && (r.nativeTaskId == None || r.nativeTaskId == Some(nativeId))
            then c == Change(r.(nativeTaskId := Some(nativeId)), now, PostSpawn(self, identity))
            else c.Err?
  {
  }

  /** Nothing stands in the way of a new attempt but an unanswered question, where the record waits for one. */
  predicate Answered(r: Snapshot) {
    r.state == Waiting ==> Pending !in r.requests && Responded in r.requests
  }

  predicate Resting(s: State) {
    s == Waiting || s == Interrupted || s == Failed
  }

  /** A new attempt: on the clock from now on, without the old outcome; its time so far, its questions and its
      checkpoint are kept. */
  predicate Opens(r: Snapshot, c: Snapshot, now: nat, state: State, foreground: bool, worker: Option<nat>,
                  identity: Option<string>) {
    && c.state == state && c.foreground == foreground && c.pid == worker && c.processStart == identity
    && c.attemptStartedAtMs == Some(now) && c.exitCode == None && c.error == None
    && c == r.(state := c.state, foreground := c.foreground, pid := c.pid, processStart := c.processStart,
               attemptStartedAtMs := c.attemptStartedAtMs, exitCode := c.exitCode, error := c.error)
  }

  /** A detached attempt is opened for a record at rest or cancelled, answered where it waits, with a clean ledger and
      not handed forward; its worker is yet to come. */
  lemma ResumeOpens(r: Snapshot, now: nat, ledgerClean: bool)
    ensures var c := Change(r, now, ClaimResume(ledgerClean));
            if (Resting(r.state) || r.state == Cancelled) && Answered(r) && ledgerClean && !r.workflowFrozen
            then c.Ok? && Opens(r, c.value, now, Starting, false, None, None)
            else c.Err?
  {
  }

  /** A terminal opens one only on the very checkpoint and revision it has seen, where no terminal and no live worker
      has the record. */
  lemma TerminalOpens(r: Snapshot, now: nat, seen: Snapshot, live: bool, self: nat, identity: Option<string>)
    ensures var c := Change(r, now, ClaimForeground(seen, live, self, identity));
            if Resting(r.state) && Answered(r) && !r.foreground && !(r.pid != None && live)
               && r.nativeTaskId == seen.nativeTaskId && r.resultRevision == seen.resultRevision
            then c.Ok? && Opens(r, c.value, now, Running, true, Some(self), identity)
            else c.Err?
  {
  }

  /** Handing a record over takes it from its terminal, settled and interrupted; one at no terminal is left alone. */
  lemma HandoffTakes(r: Snapshot, now: nat)
    ensures var c := Change(r, now, Adopt);
            if r.state == Cancelled || r.state == Applied || r.state == Discarded then c.Err?
            else if r.foreground then
              c == Ok(r.(state := Interrupted, foreground := false, pid := None, processStart := None,
                         elapsedMs := Elapsed(r, now), attemptStartedAtMs := None))
            else c == Ok(r)
  {
    hide Elapsed;
  }

  // ----- cancelling -----

  /** A worker that can still act: one that waits counts only while it lives. */
  predicate MustBeSignalled(r: Snapshot, live: bool) {
    r.pid != None && (r.state == Waiting ==> live)
  }

  predicate NothingAsked(before: seq<RequestStatus>, after: seq<RequestStatus>) {
    && |after| == |before|
    && forall i :: 0 <= i < |before| ==>
         after[i] == if before[i] == Pending || before[i] == Responded then Invalidated else before[i]
  }

  predicate IsCancelled(r: Snapshot, c: Snapshot, now: nat) {
    && c.state == Cancelled && c.exitCode == Some(130) && c.error == Some("cancelled by user")
    && NothingAsked(r.requests, c.requests)
    && c.elapsedMs == Elapsed(r, now) && c.attemptStartedAtMs == None
    && c == r.(state := c.state, exitCode := c.exitCode, error := c.error, requests := c.requests,
               elapsedMs := c.elapsedMs, attemptStartedAtMs := c.attemptStartedAtMs, pid := c.pid,
               processStart := c.processStart)
  }

  /** A worker is signalled before its record is cancelled, and stays on the record until it has stopped; without one
      the checkpoint must be marked first. A finished record is left alone. */
  lemma CancelStops(r: Snapshot, now: nat, live: bool, delivered: bool, saved: bool)
    ensures var c := Change(r, now, Cancel(live, delivered, saved));
            if !(r.state == Starting || r.state == Running || r.state == Waiting || r.state == Blocked) then c == Ok(r)
            else if MustBeSignalled(r, live) then
              (if live && delivered then c.Ok? && IsCancelled(r, c.value, now) && c.value.pid == r.pid
               else c.Err?)
            else
              (if r.nativeTaskId == None || saved then c.Ok? && IsCancelled(r, c.value, now) && c.value.pid == None
               else c.Err?)
  {
    hide Elapsed;
  }

  /** The signalled worker is forgotten only on a record still cancelled, once it has stopped and its checkpoint is
      marked. */
  lemma StoppedWorkerIsForgotten(r: Snapshot, now: nat, signalled: nat, live: bool, saved: bool)
    ensures var c := Change(r, now, ReleaseCancelled(signalled, live, saved));
            if r.state == Cancelled && r.pid == Some(signalled) && !live then
              (if r.nativeTaskId == None || saved then c == Ok(r.(pid := None, processStart := None)) else c.Err?)
            else c == Ok(r)
  {
  }

  /** A callback that finds its record cancelled confirms the cancellation, once its checkpoint is marked; a callback
      for another checkpoint is refused. */
  lemma CancelledIsConfirmed(r: Snapshot, now: nat, outcome: Outcome, missing: Option<string>, saved: bool,
                             usage: Usage)
    ensures var c := Change(r, now, FinishNative(outcome, missing, saved, usage));
            && (r.nativeTaskId != Some(outcome.taskId) ==> c.Err?)
            && (r.nativeTaskId == Some(outcome.taskId) && r.state == Cancelled ==>
                  if saved then c == Ok(r.(exitCode := Some(130))) else c.Err?)
  {
    hide Finished;
  }

  // ----- reviewing -----

  function Sum(texts: seq<string>): nat {
    if texts == [] then 0 else Sum(texts[..|texts| - 1]) + Text.ByteLength(texts[|texts| - 1])
  }

  lemma {:induction false} SumFirst(text: string, more: seq<string>)
    ensures Sum([text] + more) == Text.ByteLength(text) + Sum(more)
  {
    var all := [text] + more;
    if more == [] {
      assert all[..0] == [] && all[0] == text;
    } else {
      assert all[..|all| - 1] == [text] + more[..|more| - 1];
      SumFirst(text, more[..|more| - 1]);
    }
  }

  lemma {:induction false} SumIsTotal(texts: seq<string>)
    ensures Sum(texts) == TotalLength(texts)
  {
    if texts != [] {
      SumIsTotal(texts[1..]);
      SumFirst(texts[0], texts[1..]);
      assert texts == [texts[0]] + texts[1..];
    }
  }

  /** An instruction is taken by a record at rest that owns a checkpoint, was not handed forward or partly applied, and
      has minutes and changes left; it is at most 32 KiB, and all of them together 64 KiB. */
  predicate TakesInstruction(r: Snapshot, now: nat, text: string, ledgerClean: bool, spent: bool, used: nat) {
    && !(r.state == Starting || r.state == Running || r.state == Waiting || r.state == Applied || r.state == Discarded)
    && r.nativeTaskId != None && !r.workflowFrozen && ledgerClean
    && !r.budgetExceeded && !spent
    && used < r.budget.maxMinutes * 60 * 1000 && Elapsed(r, now) < r.budget.maxMinutes * 60 * 1000
    && text != "" && Text.ByteLength(text) <= 32 * 1024 && Sum(r.steering) + Text.ByteLength(text) <= 64 * 1024
  }

  lemma ReworkTakes(r: Snapshot, now: nat, text: string, redacted: string, ledgerClean: bool, spent: bool, used: nat)
    ensures var c := Change(r, now, Rework(text, redacted, ledgerClean, spent, used));
            if TakesInstruction(r, now, text, ledgerClean, spent, used)
            then c == Ok(r.(state := Interrupted, error := None, steering := r.steering + [redacted],
                            steeringRevision := |r.steering| + 1))
            else c.Err?
  {
    hide Elapsed;
    SumIsTotal(r.steering);
    hide TotalLength, Sum;
  }

  /** A record with no attempt and no question open is discarded once its worktree is gone. */
  lemma DiscardTakes(r: Snapshot, now: nat, removed: bool)
    ensures var c := Change(r, now, Discard(removed));
            if !(r.state == Starting || r.state == Running || r.state == Waiting) && removed
            then c.Ok? && NothingAsked(r.requests, c.value.requests)
                 && c.value == r.(state := Discarded, requests := c.value.requests)
            else c.Err?
  {
  }

  /** Only a finished record within its change budget takes an application; one that ends uncertainly fails it. */
  lemma ApplyTakes(r: Snapshot, now: nat, end: ApplyEnd)
    ensures var c := Change(r, now, Apply(end));
            if r.budgetExceeded || end == Refused
               || !(r.state == Completed || r.state == Failed || r.state == Interrupted)
            then c.Err?
            else match end
              case Complete => c == Ok(r.(state := Applied))
              case Uncertain(text) => c == Ok(r.(state := Failed, error := Some(text)))
              case _ => c == Ok(r)
  {
  }

  // ----- workflow stages -----

  lemma StagesSeal(r: Snapshot, now: nat, seen: nat)
    ensures var c := Change(r, now, StageSeal(seen));
            if (r.state == Completed || r.state == Applied) && r.resultRevision == seen
            then c == Ok(r.(workflowFrozen := true)) else c.Err?
  {
  }

  lemma StagesNote(r: Snapshot, now: nat, text: string)
    ensures Change(r, now, StageNote(text)) == Ok(if r.state == Blocked then r.(error := Some(text)) else r)
  {
  }

  lemma StagesMove(r: Snapshot, now: nat, text: string)
    ensures var c := Change(r, now, StageClaim);
            if r.state == Blocked then c == Ok(r.(state := Starting, attemptStartedAtMs := Some(now), error := None))
            else c.Err?
    ensures Change(r, now, StageReturn(text))
            == Ok(if r.state == Blocked || r.state == Starting
                  then r.(state := Blocked, attemptStartedAtMs := None, error := Some(text)) else r)
  {
  }

  /** The seal comes off whatever happened; a completed stage that could not be handed on fails, an applied one says
      so. */
  lemma UnsealMoves(r: Snapshot, now: nat, text: string)
    ensures var c := Change(r, now, StageUnseal(text));
            && c.Ok? && !c.value.workflowFrozen
            && (r.state == Completed ==> c.value.state == Failed && c.value.exitCode == Some(1))
            && (r.state != Completed ==> c.value.state == r.state && c.value.exitCode == r.exitCode)
            && c.value.error == (if r.state == Completed || r.state == Applied then Some(text) else r.error)
  {
  }

  // ----- the mailbox -----

  /** A question is asked by the attempt in progress, on its own checkpoint; the same call asks once, and is refused
      once it was answered; 128 are kept. */
  lemma AskTakes(r: Snapshot, native: string, bound: bool, existing: Option<nat>)
    ensures var c := MailboxEdited(r, Ask(native, bound, existing));
            var again := existing != None && existing.value < |r.requests| && r.requests[existing.value] != Invalidated;
            if !(r.state == Starting || r.state == Running) || r.nativeTaskId != Some(native) || !bound then c.Err?
            else if again then (if r.requests[existing.value] == Pending then c == Ok(r) else c.Err?)
            else if |r.requests| < 128 then c == Ok(r.(requests := r.requests + [Pending]))
            else c.Err?
  {
  }

  /** An open question takes one answer, from a person, while the record waits; the answer is used by the next attempt
      on the same checkpoint, and stays used. */
  lemma AnswerTakes(r: Snapshot, native: string, bound: bool, request: nat, matching: Option<nat>)
    ensures var c := MailboxEdited(r, Answer(bound, request));
            if r.state == Waiting && bound && request < |r.requests| && r.requests[request] == Pending
            then c == Ok(r.(requests := r.requests[request := Responded])) else c.Err?
    ensures var c := MailboxEdited(r, Consume(native, bound, matching));
            if !(r.state == Starting || r.state == Running) || r.nativeTaskId != Some(native) || !bound then c.Err?
            else if matching != None && matching.value < |r.requests|
                    && (r.requests[matching.value] == Responded || r.requests[matching.value] == Consumed)
            then c == Ok(r.(requests := r.requests[matching.value := Consumed]))
            else c == Ok(r)
  {
  }

  /** A follow-up joins the end of the queue of a live native task, at most 256, and can be taken back while nobody
      delivers it. */
  lemma FollowupsMove(r: Snapshot, engine: bool, bound: bool, unclaimed: bool, i: nat)
    ensures var c := MailboxEdited(r, Queue(engine, bound));
            if (r.state == Starting || r.state == Running || r.state == Waiting) && (r.nativeTaskId != None || engine)
               && bound && |r.followups| < 256
            then c == Ok(r.(followups := r.followups + [Queued])) else c.Err?
    ensures var c := MailboxEdited(r, Unqueue(unclaimed, i));
            if i < |r.followups| && r.followups[i] == Queued && unclaimed
            then c == Ok(r.(followups := r.followups[i := Removed])) else c.Err?
  {
  }

  /** A batch of deliveries is received as a whole: every one of them, and nothing else; or, where one of them is none
      of the queue's or was taken back, nothing. */
  lemma BatchIsReceived(r: Snapshot, native: string, bound: bool, delivered: seq<nat>)
    ensures var c := MailboxEdited(r, Acknowledge(native, bound, delivered));
            if (r.state == Starting || r.state == Running) && r.nativeTaskId == Some(native) && bound
               && AllStand(r.followups, delivered)
            then c.Ok? && ReceivedAt(r.followups, delivered, c.value.followups)
                 && c.value == r.(followups := c.value.followups)
            else c.Err?
  {
    hide AllStand, ReceivedAt, Delivered;
    BatchSoFar(r.followups, delivered, |delivered|);
    assert delivered[..|delivered|] == delivered;
  }

  predicate AllStand(followups: seq<FollowupStatus>, ds: seq<nat>) {
    forall d <- ds :: d < |followups| && followups[d] != Removed
  }

  predicate ReceivedAt(followups: seq<FollowupStatus>, ds: seq<nat>, after: seq<FollowupStatus>) {
    && |after| == |followups|
    && forall i :: 0 <= i < |followups| ==> after[i] == if i in ds then Received else followups[i]
  }

  lemma OneMore(followups: seq<FollowupStatus>, ds: seq<nat>, d: nat, before: seq<FollowupStatus>)
    requires AllStand(followups, ds) && ReceivedAt(followups, ds, before)
    ensures AllStand(followups, ds + [d]) <==> d < |before| && before[d] != Removed
    ensures d < |before| ==> ReceivedAt(followups, ds + [d], before[d := Received])
  {
    assert forall i: nat :: i in ds + [d] <==> i in ds || i == d;
    assert d in ds ==> d < |followups| && followups[d] != Removed && before[d] == Received;
    assert d < |before| && d !in ds ==> before[d] == followups[d];
  }

  lemma NoneStand(followups: seq<FollowupStatus>, ds: seq<nat>, d: nat)
    requires !AllStand(followups, ds)
    ensures !AllStand(followups, ds + [d])
  {
    var bad :| bad in ds && !(bad < |followups| && followups[bad] != Removed);
    assert bad in ds + [d];
  }

  lemma {:induction false} BatchSoFar(followups: seq<FollowupStatus>, delivered: seq<nat>, n: nat)
    requires n <= |delivered|
    ensures var c := Delivered(followups, delivered, n);
            if AllStand(followups, delivered[..n]) then c.Ok? && ReceivedAt(followups, delivered[..n], c.value)
            else c.Err?
  {
    hide AllStand, ReceivedAt;
    if n == 0 {
      assert AllStand(followups, []) && ReceivedAt(followups, [], followups) by {
        NothingDelivered(followups);
      }
    } else {
      var ds, d := delivered[..n - 1], delivered[n - 1];
      BatchSoFar(followups, delivered, n - 1);
      assert delivered[..n] == ds + [d];
      if AllStand(followups, ds) {
        OneMore(followups, ds, d, Delivered(followups, delivered, n - 1).value);
      } else {
        NoneStand(followups, ds, d);
      }
    }
  }

  lemma NothingDelivered(followups: seq<FollowupStatus>)
    ensures AllStand(followups, []) && ReceivedAt(followups, [], followups)
  {
  }

  // ----- saving -----

  /** What a step saves is stamped with the clock, or one millisecond after the last save where the clock is behind. */
  lemma StampFollowsClock(r: Snapshot, c: Snapshot, clock: nat)
    requires r.updatedAtMs < U128_MAX && c.updatedAtMs == r.updatedAtMs
    ensures Updated(r, Ok(c), clock).updatedAtMs == if clock > r.updatedAtMs then clock else r.updatedAtMs + 1
  {
  }
}
