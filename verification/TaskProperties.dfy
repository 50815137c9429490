/** What every run of the record protocol keeps. */
module TaskProperties {
  import opened Wrappers
  import opened TaskRecord
  import opened TaskRuns

  // ----- active time is charged exactly once -----

  function LastTime(start: nat, es: seq<Event>): nat {
    if es == [] then start else es[|es| - 1].now
  }

  /** The wall clock never runs backwards from `start` through the events to `until`. */
  predicate Ordered(start: nat, es: seq<Event>, until: nat) {
    if es == [] then start <= until
    else Ordered(start, es[..|es| - 1], es[|es| - 1].now) && es[|es| - 1].now <= until
  }

  /** Milliseconds the record spent in Starting or Running, read off the run itself. */
  function ActiveMs(r: Snapshot, start: nat, es: seq<Event>, until: nat): nat {
    var tail := if Active(Run(r, es).state) then SatSub(until, LastTime(start, es)) else 0;
    if es == [] then tail
    else ActiveMs(r, start, es[..|es| - 1], es[|es| - 1].now) + tail
  }

  /** Milliseconds lost when the scheduler takes back a stage it had already started. */
  function DroppedMs(r: Snapshot, es: seq<Event>): nat {
    if es == [] then 0
    else
      var before, e := Run(r, es[..|es| - 1]), es[|es| - 1];
      DroppedMs(r, es[..|es| - 1])
      + if DropsAttempt(before, e.step) && before.attemptStartedAtMs.Some?
        then SatSub(e.now, before.attemptStartedAtMs.value) else 0
  }

  lemma NextMovesClock(r: Snapshot, e: Event)
    requires ClockMatchesState(r)
    ensures ClockMatchesState(Next(r, e)) && Moves(r, Next(r, e), e.now, MoveOf(r, Next(r, e), e.step))
  {
    ChangeMovesClock(r, e.now, e.step);
    var change := Change(r, e.now, e.step);
    if change.Ok? {
      SavedFields(r, change.value, e.clock);
    }
  }

  /** The books at the last event: what is settled, what was dropped, what is still open. */
  lemma {:induction false} Accounting(r: Snapshot, start: nat, es: seq<Event>) returns (closed: nat)
    requires Created(r, start) && Ordered(start, es, LastTime(start, es))
    ensures var v, last := Run(r, es), LastTime(start, es);
            && ClockMatchesState(v)
            && (v.attemptStartedAtMs.Some? ==> v.attemptStartedAtMs.value <= last)
            && v.elapsedMs == Min(U64_MAX, r.elapsedMs + closed)
            && ActiveMs(r, start, es, last) == closed + DroppedMs(r, es)
                 + (if v.attemptStartedAtMs.Some? then last - v.attemptStartedAtMs.value else 0)
  {
    if es == [] {
      closed := 0;
    } else {
      var before, e := es[..|es| - 1], es[|es| - 1];
      var paid := Accounting(r, start, before);
      var u, v := Run(r, before), Run(r, es);
      NextMovesClock(u, e);
      closed := if MoveOf(u, v, e.step).Closes? then paid + (e.now - u.attemptStartedAtMs.value) else paid;
      ActiveMsUntil(r, start, before, e.now);
    }
  }

  /** Waiting past the last event adds exactly the wait, if the record is active. */
  lemma ActiveMsUntil(r: Snapshot, start: nat, es: seq<Event>, until: nat)
    requires LastTime(start, es) <= until
    ensures ActiveMs(r, start, es, until) == ActiveMs(r, start, es, LastTime(start, es))
              + (if Active(Run(r, es).state) then until - LastTime(start, es) else 0)
  {
  }

  lemma OrderedPrefix(start: nat, es: seq<Event>, until: nat)
    requires Ordered(start, es, until)
    ensures Ordered(start, es, LastTime(start, es)) && LastTime(start, es) <= until
  {
  }

  /** Over every run with a nondecreasing clock, the elapsed time is the starting base plus
      exactly the milliseconds spent active, capped at u64::MAX; the one leak is a stage the
      scheduler started and took back. */
  lemma ActiveTimeConserved(r: Snapshot, start: nat, es: seq<Event>, until: nat)
    requires Created(r, start) && Ordered(start, es, until)
    ensures var v := Run(r, es);
            && (Active(v.state) <==> v.attemptStartedAtMs.Some?)
            && DroppedMs(r, es) <= ActiveMs(r, start, es, until)
            && Elapsed(v, until) == Min(U64_MAX, r.elapsedMs + ActiveMs(r, start, es, until) - DroppedMs(r, es))
  {
    hide Run;
    OrderedPrefix(start, es, until);
    var closed := Accounting(r, start, es);
    ActiveMsUntil(r, start, es, until);
  }

  /** Event `i` takes back a stage that had been Starting for some time. */
  predicate TakesBack(r: Snapshot, es: seq<Event>, i: int)
    requires 0 <= i < |es|
  {
    var before := Run(r, es[..i]);
    && DropsAttempt(before, es[i].step)
    && before.attemptStartedAtMs.Some?
    && before.attemptStartedAtMs.value < es[i].now
  }

  lemma {:induction false} DroppedExactly(r: Snapshot, es: seq<Event>)
    ensures DroppedMs(r, es) == 0 <==> forall i :: 0 <= i < |es| ==> !TakesBack(r, es, i)
  {
    hide Run;
    if es != [] {
      var prior := es[..|es| - 1];
      DroppedExactly(r, prior);
      forall i | 0 <= i < |prior| ensures TakesBack(r, es, i) == TakesBack(r, prior, i) {
        assert es[..i] == prior[..i];
      }
      var last := TakesBack(r, es, |es| - 1);
    }
  }

  /** No time is lost over a run that takes no started stage back, even at the counter's cap; below the cap, only
      over such a run. */
  lemma NoAttemptLost(r: Snapshot, start: nat, es: seq<Event>, until: nat)
    requires Created(r, start) && Ordered(start, es, until)
    ensures (forall i :: 0 <= i < |es| ==> !TakesBack(r, es, i))
            ==> Elapsed(Run(r, es), until) == Min(U64_MAX, r.elapsedMs + ActiveMs(r, start, es, until))
    ensures r.elapsedMs + ActiveMs(r, start, es, until) <= U64_MAX
            ==> (Elapsed(Run(r, es), until) == r.elapsedMs + ActiveMs(r, start, es, until)
                 <==> forall i :: 0 <= i < |es| ==> !TakesBack(r, es, i))
  {
    hide Run, ActiveMs, DroppedMs, TakesBack;
    ActiveTimeConserved(r, start, es, until);
    DroppedExactly(r, es);
  }

  predicate NoStageReturns(es: seq<Event>) {
    forall i :: 0 <= i < |es| ==> !es[i].step.StageReturn?
  }

  /** A run without the scheduler's return is such a run. */
  lemma NothingDropped(r: Snapshot, es: seq<Event>)
    requires NoStageReturns(es)
    ensures DroppedMs(r, es) == 0
  {
    hide Run, DroppedMs;
    DroppedExactly(r, es);
  }

  lemma StageTakenBack(r: Snapshot)
    requires r.state.Blocked? && r.elapsedMs == 0
    ensures var claimed := Next(r, Event(1_000, 1_000, StageClaim));
            Active(claimed.state) && claimed.state.Starting? && claimed.elapsedMs == 0
    ensures var back := Next(Next(r, Event(1_000, 1_000, StageClaim)), Event(2_000, 2_000, StageReturn("no worker")));
            !Active(back.state) && back.attemptStartedAtMs.None? && back.elapsedMs == 0
  {
  }

  /** The leak is real: a stage started and returned a second later is charged nothing for it. */
  lemma StageReturnLeaks(r: Snapshot)
    requires Created(r, 0) && r.state.Blocked?
    ensures var es := [Event(1_000, 1_000, StageClaim), Event(2_000, 2_000, StageReturn("no worker"))];
            Ordered(0, es, 2_000) && ActiveMs(r, 0, es, 2_000) == 1_000 && Elapsed(Run(r, es), 2_000) == 0
  {
    StageTakenBack(r);
    hide Next;
    var claim, back := Event(1_000, 1_000, StageClaim), Event(2_000, 2_000, StageReturn("no worker"));
    var es := [claim, back];
    assert es[..1] == [claim] && [claim][..0] == [];
    assert Run(r, [claim]) == Next(r, claim);
    assert Run(r, es) == Next(Next(r, claim), back);
    assert ActiveMs(r, 0, [claim], 2_000) == ActiveMs(r, 0, [], 1_000) + 1_000;
    assert ActiveMs(r, 0, es, 2_000) == ActiveMs(r, 0, [claim], 2_000);
    assert Ordered(0, [claim], 2_000);
  }
}
