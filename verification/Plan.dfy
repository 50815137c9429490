/** Replacing a task's plan without losing completed work. */
module Plan {
  import opened Wrappers

  datatype StepState = Pending | Active | Completed | Blocked

  datatype PlanStep = PlanStep(id: nat, text: string, state: StepState, evidence: Option<string>)

  /** A completed step's text and evidence, available for one reuse. */
  type Credit = (string, Option<string>)

  function Credits(plan: seq<PlanStep>): seq<Credit> {
    if plan == [] then []
    else (if plan[0].state.Completed? then [(plan[0].text, plan[0].evidence)] else []) + Credits(plan[1..])
  }

  /** The position of the first credit for `text`, or the number of credits. */
  function Position(credits: seq<Credit>, text: string): (i: nat)
    ensures i <= |credits|
    ensures i < |credits| ==> credits[i].0 == text
    ensures forall j :: 0 <= j < i ==> credits[j].0 != text
  {
    if credits == [] || credits[0].0 == text then 0 else 1 + Position(credits[1..], text)
  }

  function Without(credits: seq<Credit>, i: nat): seq<Credit>
    requires i < |credits|
  {
    credits[..i] + credits[i + 1..]
  }

  /** The step one requested text becomes. */
  function StepFor(credits: seq<Credit>, text: string, preserve: bool, id: nat): PlanStep {
    var i := Position(credits, text);
    if preserve && i < |credits| then PlanStep(id, text, Completed, credits[i].1)
    else PlanStep(id, text, Pending, None)
  }

  /** The credits it leaves for the texts after it. */
  function Left(credits: seq<Credit>, text: string, preserve: bool): seq<Credit> {
    var i := Position(credits, text);
    if preserve && i < |credits| then Without(credits, i) else credits
  }

  /** build_plan on already cleaned texts, numbering from `id`. */
  function Planned(credits: seq<Credit>, texts: seq<string>, preserve: bool, id: nat): seq<PlanStep>
    decreases |texts|
  {
    if texts == [] then []
    else [StepFor(credits, texts[0], preserve, id)]
         + Planned(Left(credits, texts[0], preserve), texts[1..], preserve, id + 1)
  }

  /** The credits left over once every text has taken its own. */
  function Unused(credits: seq<Credit>, texts: seq<string>, preserve: bool): seq<Credit>
    decreases |texts|
  {
    if texts == [] then credits else Unused(Left(credits, texts[0], preserve), texts[1..], preserve)
  }

  lemma {:induction false} PlannedAppend(credits: seq<Credit>, texts: seq<string>, text: string, preserve: bool,
                                         id: nat)
    ensures var left := Unused(credits, texts, preserve);
            && Planned(credits, texts + [text], preserve, id)
               == Planned(credits, texts, preserve, id) + [StepFor(left, text, preserve, id + |texts|)]
            && Unused(credits, texts + [text], preserve) == Left(left, text, preserve)
    decreases |texts|
  {
    hide StepFor, Left;
    if texts == [] {
      assert texts + [text] == [text] && [text][1..] == [];
    } else {
      PlannedAppend(Left(credits, texts[0], preserve), texts[1..], text, preserve, id + 1);
      assert (texts + [text])[1..] == texts[1..] + [text];
    }
  }

  function Cleaned(steps: seq<string>, clean: string -> string): seq<string> {
    seq(|steps|, i requires 0 <= i < |steps| => clean(steps[i]))
  }

  method CollectCredits(existing: seq<PlanStep>) returns (completed: seq<Credit>)
    ensures completed == Credits(existing)
  {
    completed := [];
    for k := 0 to |existing|
      invariant Credits(existing) == completed + Credits(existing[k..])
    {
      if existing[k].state.Completed? {
        completed := completed + [(existing[k].text, existing[k].evidence)];
      }
    }
  }

  /** One requested text takes the first completed step of the same text, which is then used up. */
  method TakeStep(completed: seq<Credit>, text: string, preserve: bool, id: nat)
    returns (step: PlanStep, left: seq<Credit>)
    ensures step == StepFor(completed, text, preserve, id) && left == Left(completed, text, preserve)
  {
    var matched := if preserve then Position(completed, text) else |completed|;
    if matched < |completed| {
      return PlanStep(id, text, Completed, completed[matched].1), Without(completed, matched);
    }
    return PlanStep(id, text, Pending, None), completed;
  }

  lemma PlannedNothing(credits: seq<Credit>, preserve: bool)
    ensures Planned(credits, [], preserve, 1) == [] && Unused(credits, [], preserve) == credits
  {
  }

  /** build_plan: collect the completed steps, then let each requested text take the first match.
      `clean` trims and redacts a text. */
  method BuildPlan(existing: seq<PlanStep>, steps: seq<string>, preserve: bool, clean: string -> string)
    returns (plan: seq<PlanStep>)
    ensures plan == Planned(Credits(existing), Cleaned(steps, clean), preserve, 1)
  {
    hide Planned, Unused, StepFor, Left, Credits;
    var completed := CollectCredits(existing);
    ghost var credits, texts := completed, Cleaned(steps, clean);
    PlannedNothing(credits, preserve);
    assert texts[..0] == [];
    plan := [];
    for index := 0 to |steps|
      invariant completed == Unused(credits, texts[..index], preserve)
      invariant plan == Planned(credits, texts[..index], preserve, 1)
    {
      var text := clean(steps[index]);
      PlannedAppend(credits, texts[..index], text, preserve, 1);
      assert texts[..index] + [text] == texts[..index + 1];
      var step;
      step, completed := TakeStep(completed, text, preserve, index + 1);
      plan := plan + [step];
    }
    assert texts[..|steps|] == texts;
  }

  // ----- conservation -----

  /** The evidence completed steps hold for one text, in order. */
  function EvidenceFor(credits: seq<Credit>, text: string): seq<Option<string>> {
    if credits == [] then []
    else (if credits[0].0 == text then [credits[0].1] else []) + EvidenceFor(credits[1..], text)
  }

  function Requested(texts: seq<string>, text: string): nat {
    if texts == [] then 0 else (if texts[0] == text then 1 else 0) + Requested(texts[1..], text)
  }

  lemma EvidenceStep(first: Credit, more: seq<Credit>, text: string)
    ensures EvidenceFor([first] + more, text) == EvidenceFor([first], text) + EvidenceFor(more, text)
  {
    assert ([first] + more)[1..] == more && [first][1..] == [];
  }

  lemma NoEvidence(text: string)
    ensures EvidenceFor([], text) == []
  {
  }

  lemma {:induction false} EvidenceConcat(a: seq<Credit>, b: seq<Credit>, text: string)
    ensures EvidenceFor(a + b, text) == EvidenceFor(a, text) + EvidenceFor(b, text)
  {
    hide EvidenceFor;
    if a == [] {
      NoEvidence(text);
      assert a + b == b;
    } else {
      EvidenceConcat(a[1..], b, text);
      EvidenceStep(a[0], a[1..], text);
      EvidenceStep(a[0], a[1..] + b, text);
      assert [a[0]] + a[1..] == a && [a[0]] + (a[1..] + b) == a + b;
    }
  }

  lemma {:induction false} NoneBefore(credits: seq<Credit>, text: string)
    requires forall j :: 0 <= j < |credits| ==> credits[j].0 != text
    ensures EvidenceFor(credits, text) == []
  {
    if credits != [] {
      NoneBefore(credits[1..], text);
    }
  }

  /** Taking the first credit for one text takes the head of its evidence and nothing from any other. */
  lemma TakeFirst(credits: seq<Credit>, taken: string, text: string)
    requires Position(credits, taken) < |credits|
    ensures var i := Position(credits, taken);
            EvidenceFor(credits, text)
            == (if text == taken then [credits[i].1] else []) + EvidenceFor(Without(credits, i), text)
  {
    var i := Position(credits, taken);
    assert credits == credits[..i] + [credits[i]] + credits[i + 1..];
    EvidenceConcat(credits[..i] + [credits[i]], credits[i + 1..], text);
    EvidenceConcat(credits[..i], [credits[i]], text);
    EvidenceConcat(credits[..i], credits[i + 1..], text);
    assert [credits[i]][1..] == [];
    if text == taken {
      NoneBefore(credits[..i], text);
    }
  }

  lemma {:induction false} PositionMissing(credits: seq<Credit>, text: string)
    requires Position(credits, text) == |credits|
    ensures EvidenceFor(credits, text) == []
  {
    NoneBefore(credits, text);
  }

  lemma CreditsCons(step: PlanStep, rest: seq<PlanStep>)
    ensures Credits([step] + rest)
            == (if step.state.Completed? then [(step.text, step.evidence)] else []) + Credits(rest)
  {
    assert ([step] + rest)[1..] == rest;
  }

  /** One requested text moves one piece of its own evidence, if any is left, and no other. */
  lemma StepTakesEvidence(credits: seq<Credit>, taken: string, id: nat, text: string)
    ensures EvidenceFor(credits, text)
            == EvidenceFor(Credits([StepFor(credits, taken, true, id)]), text)
               + EvidenceFor(Left(credits, taken, true), text)
    ensures |EvidenceFor(Credits([StepFor(credits, taken, true, id)]), text)|
            == if text == taken && EvidenceFor(credits, text) != [] then 1 else 0
  {
    var step := StepFor(credits, taken, true, id);
    CreditsCons(step, []);
    assert [step] + [] == [step];
    if Position(credits, taken) < |credits| {
      TakeFirst(credits, taken, text);
      assert [(step.text, step.evidence)][1..] == [];
    } else if text == taken {
      PositionMissing(credits, text);
    }
  }

  /** Replanning keeps, for every text, exactly as many completed steps as are both requested
      and earned, reusing their evidence in original order and each piece once. */
  lemma {:induction false} CompletedWorkConserved(credits: seq<Credit>, texts: seq<string>, id: nat, text: string)
    ensures EvidenceFor(Credits(Planned(credits, texts, true, id)), text)
            == EvidenceFor(credits, text)[..Min(Requested(texts, text), |EvidenceFor(credits, text)|)]
    decreases |texts|
  {
    if texts != [] {
      hide StepFor, Left;
      var step, left := StepFor(credits, texts[0], true, id), Left(credits, texts[0], true);
      CompletedWorkConserved(left, texts[1..], id + 1, text);
      var rest := Planned(left, texts[1..], true, id + 1);
      CreditsCons(step, rest);
      CreditsCons(step, []);
      assert [step] + [] == [step];
      EvidenceConcat(Credits([step]), Credits(rest), text);
      StepTakesEvidence(credits, texts[0], id, text);
    }
  }

  /** Steps are the requested texts, numbered from 1, and only completed ones carry evidence;
      without preservation nothing is completed. */
  lemma {:induction false} PlanShape(credits: seq<Credit>, texts: seq<string>, preserve: bool, id: nat)
    ensures var plan := Planned(credits, texts, preserve, id);
            && |plan| == |texts|
            && forall k :: 0 <= k < |plan| ==>
                 && plan[k].id == id + k && plan[k].text == texts[k]
                 && (plan[k].state.Completed? || (plan[k].state.Pending? && plan[k].evidence.None?))
                 && (!preserve ==> plan[k].state.Pending?)
    decreases |texts|
  {
    if texts != [] {
      hide Left;
      PlanShape(Left(credits, texts[0], preserve), texts[1..], preserve, id + 1);
    }
  }
}
