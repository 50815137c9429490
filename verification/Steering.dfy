/** How rework instructions travel from the record into the native transcript.

    A checkpoint remembers how many instructions its transcript already holds; resuming
    appends the ones recorded since. Several workers may hold copies of the checkpoint and
    save them in any order. */
module Steering {
  import opened Wrappers
  import opened TaskRecord
  import TaskRuns

  datatype Message = ReworkRequest(text: string) | Other(text: string)

  /** The status of a native checkpoint. */
  datatype NativeStatus = NativeActive | NativeInterrupted | NativeCompleted | NativeFailed

  datatype Checkpoint = Checkpoint(messages: seq<Message>, steeringRevision: nat, status: NativeStatus, elapsedMs: nat)

  /** The instructions a transcript carries, in order. */
  function Requests(messages: seq<Message>): seq<string> {
    if messages == [] then []
    else (if messages[0].ReworkRequest? then [messages[0].text] else []) + Requests(messages[1..])
  }

  function AsRequests(texts: seq<string>): seq<Message> {
    seq(|texts|, i requires 0 <= i < |texts| => ReworkRequest(texts[i]))
  }

  lemma NoRequests()
    ensures Requests([]) == []
  {
  }

  lemma RequestsStep(first: Message, more: seq<Message>)
    ensures Requests([first] + more) == (if first.ReworkRequest? then [first.text] else []) + Requests(more)
  {
    assert ([first] + more)[1..] == more;
  }

  lemma {:induction false} RequestsConcat(a: seq<Message>, b: seq<Message>)
    ensures Requests(a + b) == Requests(a) + Requests(b)
  {
    hide Requests;
    if a == [] {
      NoRequests();
      assert a + b == b;
    } else {
      RequestsConcat(a[1..], b);
      RequestsStep(a[0], a[1..]);
      RequestsStep(a[0], a[1..] + b);
      assert [a[0]] + a[1..] == a && [a[0]] + (a[1..] + b) == a + b;
    }
  }

  lemma {:induction false} RequestsOfRequests(texts: seq<string>)
    ensures Requests(AsRequests(texts)) == texts
  {
    if texts != [] {
      RequestsOfRequests(texts[1..]);
      assert AsRequests(texts)[1..] == AsRequests(texts[1..]);
    }
  }

  // ----- resuming -----

  predicate HasNewWork(record: Snapshot, checkpoint: Checkpoint) {
    checkpoint.steeringRevision < record.steeringRevision || HasQueued(record.followups)
  }

  /** resume_checkpoint once the native checkpoint is loaded and its workspace matches. */
  function Continued(record: Snapshot, checkpoint: Checkpoint, now: nat): Result<Checkpoint, string> {
    if checkpoint.steeringRevision > record.steeringRevision then Err("invalid steering checkpoint")
    else
      var unseen := if checkpoint.steeringRevision <= |record.steering|
                   then record.steering[checkpoint.steeringRevision..] else [];
      Ok(Checkpoint(
           checkpoint.messages + AsRequests(unseen),
           record.steeringRevision,
           if checkpoint.status.NativeCompleted? && HasNewWork(record, checkpoint) then NativeInterrupted
           else checkpoint.status,
           Max(checkpoint.elapsedMs, Elapsed(record, now))))
  }

  /** The loop of resume_checkpoint: skip what the transcript holds, push the rest. */
  method ResumeCheckpoint(record: Snapshot, checkpoint: Checkpoint, now: nat) returns (r: Result<Checkpoint, string>)
    ensures r == Continued(record, checkpoint, now)
  {
    var elapsed := Max(checkpoint.elapsedMs, Elapsed(record, now));
    if checkpoint.steeringRevision > record.steeringRevision {
      return Err("invalid steering checkpoint");
    }
    var hasNewSteering := checkpoint.steeringRevision < record.steeringRevision;
    var messages := checkpoint.messages;
    var i := checkpoint.steeringRevision;
    while i < |record.steering|
      invariant checkpoint.steeringRevision <= |record.steering| ==>
                  checkpoint.steeringRevision <= i <= |record.steering|
                  && messages == checkpoint.messages + AsRequests(record.steering[checkpoint.steeringRevision..i])
      invariant checkpoint.steeringRevision > |record.steering| ==>
                  i == checkpoint.steeringRevision && messages == checkpoint.messages
      decreases |record.steering| - i
    {
      messages := messages + [ReworkRequest(record.steering[i])];
      i := i + 1;
    }
    var status := checkpoint.status;
    if status.NativeCompleted? && (hasNewSteering || HasQueued(record.followups)) {
      status := NativeInterrupted;
    }
    if checkpoint.steeringRevision > |record.steering| {
      assert checkpoint.messages + AsRequests([]) == checkpoint.messages;
    } else {
      assert record.steering[checkpoint.steeringRevision..i] == record.steering[checkpoint.steeringRevision..];
    }
    r := Ok(Checkpoint(messages, record.steeringRevision, status, elapsed));
  }

  /** A checkpoint resumed with an instruction it has not seen, or with a follow-up waiting, is never a completed one;
      otherwise its status is left alone. No time that was spent is forgotten, and none is added. */
  lemma ResumedIsOpen(record: Snapshot, checkpoint: Checkpoint, now: nat)
    requires Continued(record, checkpoint, now).Ok?
    ensures var resumed := Continued(record, checkpoint, now).value;
            && (checkpoint.steeringRevision < record.steeringRevision || Queued in record.followups ==>
                  resumed.status ==
                  if checkpoint.status == NativeCompleted then NativeInterrupted else checkpoint.status)
            && (checkpoint.steeringRevision == record.steeringRevision && Queued !in record.followups ==>
                  resumed.status == checkpoint.status)
            && resumed.elapsedMs >= Elapsed(record, now) && resumed.elapsedMs >= checkpoint.elapsedMs
            && (resumed.elapsedMs == Elapsed(record, now) || resumed.elapsedMs == checkpoint.elapsedMs)
            && resumed.steeringRevision == record.steeringRevision
            && (checkpoint.steeringRevision >= |record.steering| ==> resumed.messages == checkpoint.messages)
  {
    hide Elapsed;
    assert AsRequests([]) == [];
    assert checkpoint.steeringRevision == |record.steering| ==> record.steering[checkpoint.steeringRevision..] == [];
  }

  /** A checkpoint is refused exactly when it claims instructions the record never had. */
  lemma RefusedExactly(record: Snapshot, checkpoint: Checkpoint, now: nat)
    ensures Continued(record, checkpoint, now).Err? <==> checkpoint.steeringRevision > record.steeringRevision
  {
  }

  // ----- what a step of the record protocol does to the instructions -----

  predicate SameSteering(a: Snapshot, b: Snapshot) {
    a.steering == b.steering && a.steeringRevision == b.steeringRevision
  }

  lemma FinishedSteering(r: Snapshot, now: nat, state: State, code: int, error: Option<string>, usage: Usage)
    ensures SameSteering(r, Finished(r, now, state, code, error, usage))
  {
    TaskRuns.FinishedFacts(r, now, state, code, error, usage);
    hide Finished;
  }

  lemma CallbackSteering(r: Snapshot, now: nat, step: TaskRuns.Step)
    requires step.Finish? || step.FinishNative? || step.FinishForeground?
    ensures var c := TaskRuns.Change(r, now, step); c.Ok? ==> SameSteering(r, c.value)
  {
    forall state, code, error, usage
      ensures SameSteering(r, Finished(r, now, state, code, error, usage))
    {
      FinishedSteering(r, now, state, code, error, usage);
    }
    hide Finished;
  }

  predicate IsClaim(step: TaskRuns.Step) {
    step.ClaimResume? || step.ClaimForeground? || step.Adopt? || step.Attach? || step.PostSpawn?
  }

  predicate IsRelease(step: TaskRuns.Step) {
    step.Cancel? || step.ReleaseCancelled? || step.Reconcile?
  }

  lemma ClaimSteering(r: Snapshot, now: nat, step: TaskRuns.Step)
    requires IsClaim(step)
    ensures var c := TaskRuns.Change(r, now, step); c.Ok? ==> SameSteering(r, c.value)
  {
    hide InvalidateOpen, Elapsed, NativeFinished, WorkerFinished, ReadyToResume;
  }

  lemma ReleaseSteering(r: Snapshot, now: nat, step: TaskRuns.Step)
    requires IsRelease(step)
    ensures var c := TaskRuns.Change(r, now, step); c.Ok? ==> SameSteering(r, c.value)
  {
    hide InvalidateOpen, Elapsed, NativeFinished, WorkerFinished, ReadyToResume;
  }

  lemma OtherSteering(r: Snapshot, now: nat, step: TaskRuns.Step)
    requires !IsClaim(step) && !IsRelease(step)
    requires !(step.Finish? || step.FinishNative? || step.FinishForeground? || step.Rework?)
    ensures var c := TaskRuns.Change(r, now, step); c.Ok? ==> SameSteering(r, c.value)
  {
    hide InvalidateOpen, Elapsed, NativeFinished, WorkerFinished, ReadyToResume;
  }

  /** Whatever step the record takes, its instructions change by one Rework or not at all. */
  lemma ProtocolMoves(r: Snapshot, e: TaskRuns.Event)
    ensures var s := TaskRuns.Next(r, e);
            SameSteering(r, s)
            || (e.step.Rework? && s.steering == r.steering + [e.step.redacted]
                && s.steeringRevision == |r.steering| + 1)
  {
    if e.step.Finish? || e.step.FinishNative? || e.step.FinishForeground? {
      CallbackSteering(r, e.now, e.step);
      hide TaskRuns.Change;
      var change := TaskRuns.Change(r, e.now, e.step);
    } else if IsClaim(e.step) {
      ClaimSteering(r, e.now, e.step);
      hide TaskRuns.Change;
      var change := TaskRuns.Change(r, e.now, e.step);
    } else if IsRelease(e.step) {
      ReleaseSteering(r, e.now, e.step);
      hide TaskRuns.Change;
      var change := TaskRuns.Change(r, e.now, e.step);
    } else if !e.step.Rework? {
      OtherSteering(r, e.now, e.step);
      hide TaskRuns.Change;
      var change := TaskRuns.Change(r, e.now, e.step);
    }
  }

  // ----- the whole system: record, stored checkpoint, and every worker's copy -----

  datatype System = System(record: Snapshot, stored: Option<Checkpoint>, workers: seq<Checkpoint>)

  datatype Move =
    /** One step of the record protocol, whatever it is. */
    | OnRecord(e: TaskRuns.Event)
    /** A fresh worker starts its own transcript. */
    | Begin
    /** A worker loads and continues the stored checkpoint. */
    | Resume(now: nat)
    /** Worker `w` adds something that is not a rework request. */
    | Say(w: nat, text: string, status: NativeStatus, elapsedMs: nat)
    /** Worker `w` saves its copy, possibly over a newer one. */
    | Save(w: nat)

  function Step(s: System, m: Move): System {
    match m
    case OnRecord(e) => s.(record := TaskRuns.Next(s.record, e))
    case Begin => s.(workers := s.workers + [Checkpoint([], 0, NativeActive, 0)])
    case Resume(now) =>
      if s.stored.None? then s
      else (match Continued(s.record, s.stored.value, now)
            case Err(_) => s
            case Ok(c) => s.(workers := s.workers + [c]))
    case Say(w, text, status, elapsedMs) =>
      if w >= |s.workers| then s
      else s.(workers := s.workers[w := s.workers[w].(messages := s.workers[w].messages + [Other(text)],
                                                      status := status, elapsedMs := elapsedMs)])
    case Save(w) => if w >= |s.workers| then s else s.(stored := Some(s.workers[w]))
  }

  function Steps(s: System, ms: seq<Move>): System
    decreases |ms|
  {
    if ms == [] then s else Steps(Step(s, ms[0]), ms[1..])
  }

  /** A checkpoint at revision k holds exactly the first k instructions, in order. */
  predicate Faithful(c: Checkpoint, steering: seq<string>) {
    c.steeringRevision <= |steering| && Requests(c.messages) == steering[..c.steeringRevision]
  }

  predicate Consistent(s: System) {
    && s.record.steeringRevision == |s.record.steering|
    && (s.stored.Some? ==> Faithful(s.stored.value, s.record.steering))
    && forall w :: 0 <= w < |s.workers| ==> Faithful(s.workers[w], s.record.steering)
  }

  /** Continuing a faithful checkpoint always succeeds and brings it fully up to date. */
  lemma ContinuedIsCurrent(record: Snapshot, c: Checkpoint, now: nat)
    requires record.steeringRevision == |record.steering| && Faithful(c, record.steering)
    ensures Continued(record, c, now).Ok?
    ensures Requests(Continued(record, c, now).value.messages) == record.steering
    ensures Faithful(Continued(record, c, now).value, record.steering)
    ensures c.messages <= Continued(record, c, now).value.messages
  {
    var unseen := record.steering[c.steeringRevision..];
    RequestsConcat(c.messages, AsRequests(unseen));
    RequestsOfRequests(unseen);
    assert record.steering[..c.steeringRevision] + unseen == record.steering;
  }

  lemma FaithfulSurvivesRework(c: Checkpoint, steering: seq<string>, text: string)
    requires Faithful(c, steering)
    ensures Faithful(c, steering + [text])
  {
    assert (steering + [text])[..c.steeringRevision] == steering[..c.steeringRevision];
  }

  lemma StepStaysConsistent(s: System, m: Move)
    requires Consistent(s)
    ensures Consistent(Step(s, m))
  {
    hide TaskRuns.Next;
    match m
    case OnRecord(e) =>
      ProtocolMoves(s.record, e);
      forall c, text | Faithful(c, s.record.steering)
        ensures Faithful(c, s.record.steering + [text])
      {
        FaithfulSurvivesRework(c, s.record.steering, text);
      }
    case Resume(now) =>
      if s.stored.Some? {
        ContinuedIsCurrent(s.record, s.stored.value, now);
      }
    case Say(w, text, status, elapsedMs) =>
      if w < |s.workers| {
        RequestsConcat(s.workers[w].messages, [Other(text)]);
        assert Requests([Other(text)]) == [];
      }
    case _ =>
  }

  /** A record as start leaves it: no instructions, no checkpoint, no worker. */
  predicate Started(s: System, at: nat) {
    TaskRuns.Created(s.record, at) && s.record.steeringRevision == 0 && s.stored.None? && s.workers == []
  }

  /** The steps of the record protocol among the moves. */
  function OnRecords(ms: seq<Move>): seq<TaskRuns.Event> {
    if ms == [] then []
    else OnRecords(ms[..|ms| - 1]) + (if ms[|ms| - 1].OnRecord? then [ms[|ms| - 1].e] else [])
  }

  lemma {:induction false} StepsAppend(s: System, ms: seq<Move>, m: Move)
    ensures Steps(s, ms + [m]) == Step(Steps(s, ms), m)
    decreases |ms|
  {
    hide Step;
    if ms != [] {
      StepsAppend(Step(s, ms[0]), ms[1..], m);
      assert (ms + [m])[1..] == ms[1..] + [m];
    } else {
      assert Steps(Step(s, m), []) == Step(s, m);
      assert ([] + [m])[1..] == [];
    }
  }

  /** In between, the record goes through a run of its own protocol. */
  lemma {:induction false} RecordRuns(s: System, ms: seq<Move>)
    ensures Steps(s, ms).record == TaskRuns.Run(s.record, OnRecords(ms))
    decreases |ms|
  {
    hide TaskRuns.Next;
    if ms != [] {
      var prior, m := ms[..|ms| - 1], ms[|ms| - 1];
      RecordRuns(s, prior);
      StepsAppend(s, prior, m);
      assert prior + [m] == ms;
      if m.OnRecord? {
        assert (OnRecords(prior) + [m.e])[..|OnRecords(prior)|] == OnRecords(prior);
      } else {
        assert OnRecords(ms) == OnRecords(prior);
      }
    }
  }

  lemma {:induction false} StepsStayConsistent(s: System, ms: seq<Move>)
    requires Consistent(s)
    ensures Consistent(Steps(s, ms))
    decreases |ms|
  {
    if ms != [] {
      StepStaysConsistent(s, ms[0]);
      StepsStayConsistent(Step(s, ms[0]), ms[1..]);
    }
  }

  /** Over every run of the record protocol from start, with workers saving stale copies in any order: every stored
      checkpoint holds exactly its first k instructions, and resuming it yields a transcript
      with each instruction once, in order. */
  lemma EveryInstructionOnce(s: System, at: nat, ms: seq<Move>, now: nat)
    requires Started(s, at)
    ensures Steps(s, ms).record == TaskRuns.Run(s.record, OnRecords(ms))
    ensures var t := Steps(s, ms);
            t.stored.Some? ==>
              && Faithful(t.stored.value, t.record.steering)
              && Continued(t.record, t.stored.value, now).Ok?
              && Requests(Continued(t.record, t.stored.value, now).value.messages) == t.record.steering
  {
    RecordRuns(s, ms);
    StepsStayConsistent(s, ms);
    var t := Steps(s, ms);
    if t.stored.Some? {
      ContinuedIsCurrent(t.record, t.stored.value, now);
    }
  }

  // ----- records adopted from a checkpoint that was already steered -----

  function Reworked(record: Snapshot, texts: seq<string>): Snapshot {
    record.(steering := record.steering + texts,
      steeringRevision := if texts == [] then record.steeringRevision else |record.steering| + |texts|)
  }

  /** Adoption copies the checkpoint's revision but none of its instructions. The new ones
      then reach the transcript, all of them, exactly when that revision was zero. */
  lemma AdoptedDelivery(record: Snapshot, c: Checkpoint, texts: seq<string>, now: nat)
    requires record.steering == [] && record.steeringRevision == c.steeringRevision
    requires texts != []
    ensures var r := Continued(Reworked(record, texts), c, now);
            ((r.Ok? && Requests(r.value.messages) == Requests(c.messages) + texts) <==> c.steeringRevision == 0)
  {
    var after := Reworked(record, texts);
    var k := c.steeringRevision;
    if k <= |texts| {
      assert after.steering == texts;
      RequestsConcat(c.messages, AsRequests(texts[k..]));
      RequestsOfRequests(texts[k..]);
      assert |Requests(c.messages) + texts[k..]| == |Requests(c.messages)| + |texts| - k;
    }
  }
}
