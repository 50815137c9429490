/** Adding and removing the marked block in a shell startup file. */
module Startup {
  import opened Wrappers
  import opened Text

  /** The lines that open and close a block. */
  datatype Marks = Marks(open: string, close: string)

  const NATIVE_SHELL :=
    Marks("#" + (" >>> " + "AIShe native shell" + " >>>"), "#" + (" <<< " + "AIShe native shell" + " <<<"))

  /** The non-overlapping occurrences of `mark` at or after `from`, left to right. */
  function Matches(text: string, mark: string, from: nat): seq<nat>
    requires mark != ""
    ensures forall i :: 0 <= i < |Matches(text, mark, from)| ==> Matches(text, mark, from)[i] + |mark| <= |text|
    decreases |text| - from
  {
    if from + |mark| > |text| then []
    else if OccursAt(text, mark, from) then [from] + Matches(text, mark, from + |mark|)
    else Matches(text, mark, from + 1)
  }

  predicate LineStart(text: string, k: nat) {
    k == 0 || (k <= |text| && text[k - 1] == '\n')
  }

  predicate LineEnd(text: string, k: nat) {
    k >= |text| || text[k] == '\n'
  }

  /** Where the text after the block starts again. */
  function RestAfter(m: Marks, text: string, end: nat): nat {
    if end + |m.close| < |text| then end + |m.close| + 1 else end + |m.close|
  }

  /** revised_startup on a file whose only markers are at `start` and `end`. */
  function Spliced(m: Marks, original: string, start: nat, end: nat, block: string, remove: bool)
      : Result<string, string>
    requires start <= |original| && end + |m.close| <= |original|
  {
    if !LineStart(original, start) || !LineStart(original, end) then Err("markers are embedded in other text")
    else if !LineEnd(original, start + |m.open|) then Err("start marker contains extra text")
    else if !LineEnd(original, end + |m.close|) then Err("end marker contains extra text")
    else Ok(original[..start] + (if remove then "" else block) + original[RestAfter(m, original, end)..])
  }

  /** revised_startup, for any pair of marker lines. */
  function Revised(m: Marks, original: string, block: string, remove: bool): Result<string, string>
    requires AreMarks(m)
  {
    var starts, ends := Matches(original, m.open, 0), Matches(original, m.close, 0);
    if starts == [] && ends == [] then Ok(if remove then original else block + original)
    else if |starts| == 1 && |ends| == 1 && starts[0] < ends[0]
    then Spliced(m, original, starts[0], ends[0], block, remove)
    else Err("markers are incomplete or duplicated")
  }

  // ----- occurrences of a marker -----

  /** A one-line text whose first character appears nowhere else in it. */
  predicate IsMark(mark: string) {
    mark != "" && '\n' !in mark && forall i :: 0 < i < |mark| ==> mark[i] != mark[0]
  }

  predicate AreMarks(m: Marks) {
    IsMark(m.open) && IsMark(m.close) && m.open != m.close && |m.open| == |m.close|
  }

  /** Neither a hash nor a newline. */
  predicate IsTail(tail: string) {
    forall i :: 0 <= i < |tail| ==> tail[i] != '#' && tail[i] != '\n'
  }

  lemma TailMakesMark(tail: string)
    requires IsTail(tail)
    ensures IsMark("#" + tail)
  {
  }

  lemma TailsJoin(a: string, b: string, c: string)
    requires IsTail(a) && IsTail(b) && IsTail(c)
    ensures IsTail(a + b + c)
  {
  }

  /** The two markers the program writes. */
  lemma NativeShellMarks()
    ensures AreMarks(NATIVE_SHELL)
  {
    assert IsTail(" >>> ") && IsTail(" >>>") && IsTail(" <<< ") && IsTail(" <<<") && IsTail("AIShe native shell");
    TailsJoin(" >>> ", "AIShe native shell", " >>>");
    TailsJoin(" <<< ", "AIShe native shell", " <<<");
    TailMakesMark(" >>> " + "AIShe native shell" + " >>>");
    TailMakesMark(" <<< " + "AIShe native shell" + " <<<");
    hide IsTail, IsMark;
    assert NATIVE_SHELL.open[2] == '>' && NATIVE_SHELL.close[2] == '<';
  }

  lemma NoOverlap(text: string, mark: string, i: nat, j: nat)
    requires IsMark(mark) && OccursAt(text, mark, i) && i < j < i + |mark|
    ensures !OccursAt(text, mark, j)
  {
    assert text[j] == text[i..i + |mark|][j - i] == mark[j - i];
    assert j + |mark| <= |text| ==> text[j] == text[j..j + |mark|][0];
  }

  /** Left-to-right matching finds every occurrence of a marker: two of them cannot overlap. */
  lemma {:induction false} MatchesAreAll(text: string, mark: string, from: nat, k: nat)
    requires IsMark(mark)
    ensures k in Matches(text, mark, from) <==> from <= k && OccursAt(text, mark, k)
    decreases |text| - from
  {
    if from + |mark| <= |text| {
      if OccursAt(text, mark, from) {
        MatchesAreAll(text, mark, from + |mark|, k);
        if from < k < from + |mark| {
          NoOverlap(text, mark, from, k);
        }
      } else {
        MatchesAreAll(text, mark, from + 1, k);
      }
    }
  }

  lemma {:induction false} MatchesGrow(text: string, mark: string, from: nat)
    requires mark != ""
    ensures forall i :: 0 <= i < |Matches(text, mark, from)| ==> from <= Matches(text, mark, from)[i]
    ensures forall i, j :: 0 <= i < j < |Matches(text, mark, from)| ==>
                             Matches(text, mark, from)[i] < Matches(text, mark, from)[j]
    decreases |text| - from
  {
    if from + |mark| <= |text| {
      MatchesGrow(text, mark, if OccursAt(text, mark, from) then from + |mark| else from + 1);
    }
  }

  ghost predicate Absent(text: string, mark: string) {
    forall k: nat :: !OccursAt(text, mark, k)
  }

  ghost predicate OnlyAt(text: string, mark: string, at: nat) {
    forall k: nat :: OccursAt(text, mark, k) <==> k == at
  }

  lemma NoMatches(text: string, mark: string)
    requires IsMark(mark)
    ensures Matches(text, mark, 0) == [] <==> Absent(text, mark)
  {
    var found := Matches(text, mark, 0);
    forall k: nat
      ensures k in found <==> OccursAt(text, mark, k)
    {
      MatchesAreAll(text, mark, 0, k);
    }
    if found != [] {
      assert found[0] in found;
    }
  }

  lemma SecondIsLater(found: seq<nat>)
    requires |found| > 1 && forall i, j :: 0 <= i < j < |found| ==> found[i] < found[j]
    ensures found[0] < found[1]
  {
  }

  lemma OneMatch(text: string, mark: string, at: nat)
    requires IsMark(mark)
    ensures Matches(text, mark, 0) == [at] <==> OnlyAt(text, mark, at)
  {
    var found := Matches(text, mark, 0);
    forall k: nat
      ensures k in found <==> OccursAt(text, mark, k)
    {
      MatchesAreAll(text, mark, 0, k);
    }
    MatchesGrow(text, mark, 0);
    if OnlyAt(text, mark, at) {
      assert at in found;
      assert forall i :: 0 <= i < |found| ==> found[i] in found;
      if |found| > 1 {
        SecondIsLater(found);
      }
    }
    if found == [at] {
      assert forall k :: k in found <==> k == at;
    }
  }

  predicate EndsLine(s: string) {
    s == "" || s[|s| - 1] == '\n'
  }

  /** A marker cannot run across the end of a line. */
  lemma NoStraddling(a: string, b: string, mark: string, k: nat)
    requires IsMark(mark) && EndsLine(a) && k < |a| < k + |mark|
    ensures !OccursAt(a + b, mark, k)
  {
    if k + |mark| <= |a + b| {
      assert (a + b)[k..k + |mark|][|a| - 1 - k] == '\n';
    }
  }

  /** Text that ends its line keeps a marker on one side of the seam. */
  lemma SplitAtSeam(a: string, b: string, mark: string, k: nat)
    requires IsMark(mark) && EndsLine(a)
    ensures OccursAt(a + b, mark, k) <==> OccursAt(a, mark, k) || (|a| <= k && OccursAt(b, mark, k - |a|))
  {
    if k + |mark| <= |a| {
      assert (a + b)[k..k + |mark|] == a[k..k + |mark|];
    } else if k < |a| {
      NoStraddling(a, b, mark, k);
    } else if k + |mark| <= |a + b| {
      assert (a + b)[k..k + |mark|] == b[k - |a|..k - |a| + |mark|];
    }
  }

  // ----- blocks -----

  /** One marker pair on whole lines, from the first character to the last newline. */
  ghost predicate IsBlock(m: Marks, block: string) {
    && |block| >= |m.open| + |m.close| + 2
    && block[|block| - 1] == '\n'
    && OnlyAt(block, m.open, 0) && LineEnd(block, |m.open|)
    && OnlyAt(block, m.close, |block| - |m.close| - 1) && LineStart(block, |block| - |m.close| - 1)
  }

  ghost predicate Unmarked(m: Marks, text: string) {
    Absent(text, m.open) && Absent(text, m.close)
  }

  lemma MarkOfMiddle(pre: string, block: string, post: string, mark: string, at: nat)
    requires IsMark(mark) && EndsLine(pre) && EndsLine(block)
    requires Absent(pre, mark) && OnlyAt(block, mark, at) && Absent(post, mark)
    ensures Matches(pre + block + post, mark, 0) == [|pre| + at]
  {
    hide OccursAt, IsMark, Matches;
    var text := pre + block + post;
    assert EndsLine(pre + block);
    forall k: nat
      ensures OccursAt(text, mark, k) <==> k == |pre| + at
    {
      SplitAtSeam(pre + block, post, mark, k);
      SplitAtSeam(pre, block, mark, k);
    }
    OneMatch(text, mark, |pre| + at);
  }

  /** Where the markers of an installed block are. */
  lemma MarksOf(m: Marks, pre: string, block: string, post: string)
    requires AreMarks(m) && IsBlock(m, block) && Unmarked(m, pre) && Unmarked(m, post) && EndsLine(pre)
    ensures Matches(pre + block + post, m.open, 0) == [|pre|]
    ensures Matches(pre + block + post, m.close, 0) == [|pre| + |block| - |m.close| - 1]
  {
    hide OnlyAt, Absent, IsMark, Matches;
    MarkOfMiddle(pre, block, post, m.open, 0);
    MarkOfMiddle(pre, block, post, m.close, |block| - |m.close| - 1);
  }

  /** With one pair of markers in order, revising means splicing between them. */
  lemma RevisedAt(m: Marks, text: string, start: nat, end: nat, block: string, remove: bool)
    requires AreMarks(m) && Matches(text, m.open, 0) == [start] && Matches(text, m.close, 0) == [end] && start < end
    ensures start + |m.open| <= |text| && end + |m.close| <= |text|
    ensures Revised(m, text, block, remove) == Spliced(m, text, start, end, block, remove)
  {
    hide Matches, IsMark, Spliced;
    assert Matches(text, m.open, 0)[0] == start && Matches(text, m.close, 0)[0] == end;
  }

  /** A file with one installed block: applying swaps the block, removing takes it out, and the
      text on both sides stays. */
  lemma RevisedInstalled(m: Marks, pre: string, old1: string, post: string, block: string, remove: bool)
    requires AreMarks(m) && IsBlock(m, old1) && Unmarked(m, pre) && Unmarked(m, post) && EndsLine(pre)
    ensures Revised(m, pre + old1 + post, block, remove) == Ok(pre + (if remove then "" else block) + post)
  {
    var text := pre + old1 + post;
    var end := |pre| + |old1| - |m.close| - 1;
    MarksOf(m, pre, old1, post);
    RevisedAt(m, text, |pre|, end, block, remove);
    hide Matches, OnlyAt, Absent, Revised, IsMark;
    assert text[..|pre|] == pre;
    assert text[|pre| + |old1|..] == post;
    assert text[end + |m.close|] == old1[|old1| - 1];
    assert text[end - 1] == old1[|old1| - |m.close| - 2];
    assert text[|pre| + |m.open|] == old1[|m.open|];
    if pre != "" {
      assert text[|pre| - 1] == pre[|pre| - 1];
    }
  }

  // ----- the law of activation -----

  /** Applying to a file without markers puts the block first and keeps the text. */
  lemma FirstApply(m: Marks, text: string, block: string)
    requires AreMarks(m) && Unmarked(m, text)
    ensures Revised(m, text, block, false) == Ok(block + text) && Revised(m, text, block, true) == Ok(text)
  {
    NoMatches(text, m.open);
    NoMatches(text, m.close);
    hide Matches;
  }

  /** For any text without markers and any well-formed blocks: removing after applying returns
      the original text, applying twice is applying once, and a new block replaces the old one. */
  lemma ActivationUndoesItself(m: Marks, text: string, block: string, newer: string)
    requires AreMarks(m) && Unmarked(m, text) && IsBlock(m, block)
    ensures var applied := Revised(m, text, block, false);
            && applied.Ok?
            && Revised(m, applied.value, newer, true) == Ok(text)
            && Revised(m, applied.value, block, false) == applied
            && Revised(m, applied.value, newer, false) == Revised(m, text, newer, false)
  {
    hide Revised, IsBlock;
    FirstApply(m, text, block);
    FirstApply(m, text, newer);
    EmptyIsUnmarked(m);
    assert "" + block + text == block + text;
    RevisedInstalled(m, "", block, text, newer, true);
    RevisedInstalled(m, "", block, text, block, false);
    RevisedInstalled(m, "", block, text, newer, false);
    assert "" + "" + text == text;
    assert "" + newer + text == newer + text;
  }

  lemma EmptyIsUnmarked(m: Marks)
    requires AreMarks(m)
    ensures Unmarked(m, "")
  {
  }

  /** What a revision may touch: a line-aligned stretch from a start marker to an end marker. */
  ghost predicate IsMarkedStretch(m: Marks, s: string) {
    && |s| > |m.open| + |m.close|
    && s[..|m.open|] == m.open
    && (EndsLine(s) ==> s[|s| - 1 - |m.close|..|s| - 1] == m.close)
    && (!EndsLine(s) ==> s[|s| - |m.close|..] == m.close)
  }

  lemma CharInside(text: string, mark: string, start: nat, k: nat)
    requires OccursAt(text, mark, start) && start <= k < start + |mark|
    ensures text[k] == mark[k - start]
  {
    assert text[start..start + |mark|][k - start] == text[k];
  }

  /** A marker that starts its line lies after any marker it follows. */
  lemma NextLine(text: string, first: string, second: string, start: nat, end: nat)
    requires IsMark(first) && OccursAt(text, first, start) && OccursAt(text, second, end)
    requires start < end && LineStart(text, end)
    ensures start + |first| < end
  {
    if end <= start + |first| {
      CharInside(text, first, start, end - 1);
    }
  }

  /** The stretch between the markers of a file that can be revised. */
  lemma StretchOf(m: Marks, text: string, start: nat, end: nat)
    requires AreMarks(m) && OccursAt(text, m.open, start) && OccursAt(text, m.close, end)
    requires start < end && LineStart(text, end) && LineEnd(text, end + |m.close|)
    ensures start < RestAfter(m, text, end) <= |text| && IsMarkedStretch(m, text[start..RestAfter(m, text, end)])
  {
    NextLine(text, m.open, m.close, start, end);
    var after := end + |m.close|;
    var rest := RestAfter(m, text, end);
    SliceOfSlice(text, start, rest, 0, |m.open|);
    SliceOfSlice(text, start, rest, end - start, after - start);
    StretchIsMarked(m, text[start..rest], end - start);
  }

  lemma StretchIsMarked(m: Marks, s: string, end: nat)
    requires AreMarks(m) && |m.open| < end && end + |m.close| <= |s| <= end + |m.close| + 1
    requires s[..|m.open|] == m.open && s[end..end + |m.close|] == m.close
    requires |s| > end + |m.close| ==> s[|s| - 1] == '\n'
    ensures IsMarkedStretch(m, s)
  {
    if |s| == end + |m.close| {
      assert s[|s| - 1] == s[end..end + |m.close|][|m.close| - 1];
    }
  }

  lemma SliceOfSlice(text: string, from: nat, to: nat, a: nat, b: nat)
    requires a <= b && from + b <= to <= |text|
    ensures text[from..to][a..b] == text[from + a..from + b]
  {
    forall k | 0 <= k < b - a ensures text[from..to][a..b][k] == text[from + a..from + b][k] {
    }
  }

  lemma FoundMarks(m: Marks, original: string, block: string, remove: bool) returns (start: nat, end: nat)
    requires AreMarks(m) && Revised(m, original, block, remove).Ok? && !Unmarked(m, original)
    ensures Matches(original, m.open, 0) == [start] && Matches(original, m.close, 0) == [end]
    ensures OccursAt(original, m.open, start) && OccursAt(original, m.close, end) && start < end
  {
    NoMatches(original, m.open);
    NoMatches(original, m.close);
    start, end := Matches(original, m.open, 0)[0], Matches(original, m.close, 0)[0];
    OneMatch(original, m.open, start);
    OneMatch(original, m.close, end);
    hide Matches, OccursAt;
  }

  lemma ThreeParts(text: string, i: nat, j: nat)
    requires i <= j <= |text|
    ensures text == text[..i] + text[i..j] + text[j..]
  {
  }

  lemma SplicedParts(m: Marks, text: string, start: nat, end: nat, block: string, remove: bool)
    requires AreMarks(m) && OccursAt(text, m.open, start) && OccursAt(text, m.close, end) && start < end
    requires Spliced(m, text, start, end, block, remove).Ok?
    ensures start < RestAfter(m, text, end) <= |text|
    ensures EndsLine(text[..start]) && IsMarkedStretch(m, text[start..RestAfter(m, text, end)])
    ensures Spliced(m, text, start, end, block, remove)
            == Ok(text[..start] + (if remove then "" else block) + text[RestAfter(m, text, end)..])
  {
    StretchOf(m, text, start, end);
    hide IsMark, IsMarkedStretch, OccursAt;
  }

  /** Every successful revision of a marked file replaces one marked stretch and keeps all text
      before and after it. */
  lemma OutsideIsKept(m: Marks, original: string, block: string, remove: bool)
      returns (pre: string, marked: string, post: string)
    requires AreMarks(m) && Revised(m, original, block, remove).Ok? && !Unmarked(m, original)
    ensures original == pre + marked + post && EndsLine(pre) && IsMarkedStretch(m, marked)
    ensures Revised(m, original, block, remove) == Ok(pre + (if remove then "" else block) + post)
  {
    var start, end := FoundMarks(m, original, block, remove);
    RevisedAt(m, original, start, end, block, remove);
    hide *;
    SplicedParts(m, original, start, end, block, remove);
    var rest := RestAfter(m, original, end);
    pre, marked, post := original[..start], original[start..rest], original[rest..];
    ThreeParts(original, start, rest);
  }

  /** Each marker occurs once, alone on its line, the start marker first. */
  ghost predicate OnWholeLines(m: Marks, text: string, start: nat, end: nat) {
    && OnlyAt(text, m.open, start) && OnlyAt(text, m.close, end) && start < end
    && start + |m.open| < |text| && end + |m.close| <= |text|
    && (start == 0 || text[start - 1] == '\n') && text[end - 1] == '\n'
    && text[start + |m.open|] == '\n'
    && (end + |m.close| == |text| || text[end + |m.close|] == '\n')
  }

  /** A file is revised exactly when it has no marker at all, or each of them once, on lines of their own and in order;
      any other file is refused. */
  lemma AcceptedExactly(m: Marks, original: string, block: string, remove: bool)
    requires AreMarks(m)
    ensures Revised(m, original, block, remove).Ok?
            <==> Unmarked(m, original) || exists start, end :: OnWholeLines(m, original, start, end)
  {
    hide OnWholeLines;
    if Unmarked(m, original) {
      FirstApply(m, original, block);
    } else {
      if Revised(m, original, block, remove).Ok? {
        var start, end := FoundMarks(m, original, block, remove);
        RevisedAt(m, original, start, end, block, remove);
        OneMatch(original, m.open, start);
        OneMatch(original, m.close, end);
        SplicedOnLines(m, original, start, end, block, remove);
      }
      if start, end :| OnWholeLines(m, original, start, end) {
        LinesAreSpliced(m, original, start, end, block, remove);
      }
    }
  }

  lemma SplicedOnLines(m: Marks, text: string, start: nat, end: nat, block: string, remove: bool)
    requires AreMarks(m) && OnlyAt(text, m.open, start) && OnlyAt(text, m.close, end) && start < end
    requires start + |m.open| <= |text| && end + |m.close| <= |text|
    requires Spliced(m, text, start, end, block, remove).Ok?
    ensures OnWholeLines(m, text, start, end)
  {
    assert OccursAt(text, m.open, start) && OccursAt(text, m.close, end);
    NextLine(text, m.open, m.close, start, end);
    hide IsMark;
  }

  lemma LinesAreSpliced(m: Marks, text: string, start: nat, end: nat, block: string, remove: bool)
    requires AreMarks(m) && OnWholeLines(m, text, start, end)
    ensures Revised(m, text, block, remove).Ok?
  {
    OneMatch(text, m.open, start);
    OneMatch(text, m.close, end);
    RevisedAt(m, text, start, end, block, remove);
    hide Matches, OnlyAt, IsMark, Revised;
  }

  // ----- the generated block -----

  lemma MarkLine(mark: string, other: string)
    requires IsMark(mark) && IsMark(other) && |mark| == |other| && mark != other
    ensures OnlyAt(mark + "\n", mark, 0) && Absent(mark + "\n", other)
  {
    var line := mark + "\n";
    assert line[0..|mark|] == mark;
    forall k: nat
      ensures OccursAt(line, mark, k) <==> k == 0
      ensures !OccursAt(line, other, k)
    {
      if k == 1 {
        assert |mark| + 1 <= |line| ==> line[1..1 + |mark|][|mark| - 1] == '\n';
      }
    }
  }

  /** Where the three parts of a block put a marker. */
  lemma MarkInParts(a: string, b: string, c: string, mark: string, k: nat)
    requires IsMark(mark) && EndsLine(a) && EndsLine(b)
    ensures OccursAt(a + b + c, mark, k)
            <==> OccursAt(a, mark, k) || (|a| <= k && OccursAt(b, mark, k - |a|))
                 || (|a + b| <= k && OccursAt(c, mark, k - |a + b|))
  {
    SplitAtSeam(a + b, c, mark, k);
    SplitAtSeam(a, b, mark, k);
  }

  /** Any complete lines can stand between the markers, exactly when they contain neither. */
  lemma LinesMakeABlock(m: Marks, lines: string)
    requires AreMarks(m) && EndsLine(lines)
    ensures IsBlock(m, (m.open + "\n") + lines + (m.close + "\n")) <==> Unmarked(m, lines)
  {
    var head, foot := m.open + "\n", m.close + "\n";
    var block := head + lines + foot;
    MarkLine(m.open, m.close);
    MarkLine(m.close, m.open);
    forall k: nat
      ensures OccursAt(block, m.open, k) <==> k == 0 || (|head| <= k && OccursAt(lines, m.open, k - |head|))
      ensures OccursAt(block, m.close, k)
              <==> k == |head + lines| || (|head| <= k && OccursAt(lines, m.close, k - |head|))
    {
      MarkInParts(head, lines, foot, m.open, k);
      MarkInParts(head, lines, foot, m.close, k);
    }
    hide OccursAt;
    if !Absent(lines, m.open) {
      var k: nat :| OccursAt(lines, m.open, k);
      assert OccursAt(block, m.open, k + |head|);
    }
    if !Absent(lines, m.close) {
      var k: nat :| OccursAt(lines, m.close, k);
      assert OccursAt(block, m.close, k + |head|);
      OccursInside(lines, m.close, k);
    }
  }

  lemma OccursInside(text: string, mark: string, k: nat)
    requires OccursAt(text, mark, k)
    ensures k + |mark| <= |text|
  {
  }
}
