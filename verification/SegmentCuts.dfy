/** Where a line is cut: at every operator outside quotes, escapes and parentheses, and nowhere else. */
module SegmentCuts {
  import opened Wrappers
  import opened Text
  import opened Segments

  /** What holds after reading some text: inside a quote, behind a backslash, or some parentheses deep. */
  datatype Mode = Mode(single: bool, double: bool, escaped: bool, depth: int) {
    predicate Open() {
      !single && !double && !escaped && depth <= 0
    }
  }

  const BARE := Mode(false, false, false, 0)

  /** One character more; inside parentheses neither quotes nor backslashes count. */
  function Reading(m: Mode, c: char): Mode {
    if m.escaped then m.(escaped := false)
    else if m.single then m.(single := c != '\'')
    else if m.double then m.(double := c != '"', escaped := c == '\\')
    else if c == '(' then m.(depth := m.depth + 1)
    else if c == ')' then m.(depth := m.depth - 1)
    else if m.depth > 0 then m
    else m.(single := c == '\'', double := c == '"', escaped := c == '\\')
  }

  function After(m: Mode, text: string): Mode {
    if text == "" then m else Reading(After(m, text[..|text| - 1]), text[|text| - 1])
  }

  /** `>`, with nothing but whitespace behind it. */
  predicate ArrowBefore(text: string) {
    exists k :: 0 <= k < |text| && text[k] == '>' && BlankFrom(text, k + 1)
  }

  predicate BlankFrom(text: string, k: nat) {
    forall j :: k <= j < |text| ==> IsWhitespace(text[j])
  }

  /** The length of the operator at `i`, zero where there is none; the `|` of a `>|` is none. */
  function OperatorWidth(text: string, i: nat): nat
    requires i < |text|
  {
    var doubled := i + 1 < |text| && text[i + 1] == text[i];
    if text[i] == ';' then 1
    else if text[i] == '&' then (if doubled then 2 else 0)
    else if text[i] == '|' && !ArrowBefore(text[..i]) then (if doubled then 2 else 1)
    else 0
  }

  /** An operator stands open at `i`, where `m` holds at the start of `text`. */
  predicate CutsAt(m: Mode, text: string, i: nat) {
    i < |text| && After(m, text[..i]).Open() && OperatorWidth(text, i) > 0
  }

  predicate CutsFirstAt(m: Mode, text: string, i: nat) {
    CutsAt(m, text, i) && forall j: nat :: j < i ==> !CutsAt(m, text, j)
  }

  function ModeOf(s: Scan): Mode {
    Mode(s.inSingle, s.inDouble, s.escaped, s.depth)
  }

  function ScanIn(m: Mode, cur: string): Scan {
    Scan(cur, m.single, m.double, m.escaped, m.depth)
  }

  lemma {:induction false} ArrowIsBefore(text: string)
    ensures EndsWithArrow(text) <==> ArrowBefore(text)
  {
    if text != "" {
      var n := |text| - 1;
      ArrowUnfolds(text);
      if IsWhitespace(text[n]) {
        ArrowIsBefore(text[..n]);
      }
    }
  }

  lemma ArrowUnfolds(text: string)
    requires text != ""
    ensures var n := |text| - 1;
            && EndsWithArrow(text) == (if IsWhitespace(text[n]) then EndsWithArrow(text[..n]) else text[n] == '>')
            && ArrowBefore(text) == (if IsWhitespace(text[n]) then ArrowBefore(text[..n]) else text[n] == '>')
  {
    var n := |text| - 1;
    if ArrowBefore(text) {
      var k: nat :| k <= n && text[k] == '>' && BlankFrom(text, k + 1);
      assert k < n ==> text[..n][k] == '>' && BlankFrom(text[..n], k + 1);
    }
    if ArrowBefore(text[..n]) && IsWhitespace(text[n]) {
      var k: nat :| k < n && text[..n][k] == '>' && BlankFrom(text[..n], k + 1);
      assert forall j :: 0 <= j < n ==> text[..n][j] == text[j];
      assert BlankFrom(text, k + 1);
    }
    if text[n] == '>' {
      assert BlankFrom(text, n + 1);
    }
  }

  /** The scanner cuts exactly where an operator stands open, and otherwise reads on. */
  lemma ScannerReads(m: Mode, text: string, i: nat)
    requires i < |text|
    ensures var s := ScanIn(After(m, text[..i]), text[..i]);
            Classify(s, text[i], if i + 1 < |text| then Some(text[i + 1]) else None)
            == if CutsAt(m, text, i) then Cut(OperatorWidth(text, i))
               else Take(ScanIn(After(m, text[..i + 1]), text[..i + 1]))
  {
    hide EndsWithArrow, ArrowBefore;
    ArrowIsBefore(text[..i]);
    assert text[..i + 1][..i] == text[..i];
  }

  /** What the scanner, `i` characters into `text` without a cut, makes of the rest. */
  lemma {:induction false} FirstCutFrom(m: Mode, text: string, i: nat)
    requires i <= |text| && forall j: nat :: j < i ==> !CutsAt(m, text, j)
    ensures var pieces := Pieces(ScanIn(After(m, text[..i]), text[..i]), text[i..]);
            && ((forall j: nat :: !CutsAt(m, text, j)) ==> pieces == [text])
            && forall j: nat :: CutsFirstAt(m, text, j) ==>
                 pieces == [text[..j]] + Pieces(ScanIn(After(m, text[..j]), ""), text[j + OperatorWidth(text, j)..])
    decreases |text| - i
  {
    hide Pieces, Classify, OperatorWidth, After;
    var s := ScanIn(After(m, text[..i]), text[..i]);
    if i == |text| {
      assert text[..i] == text && text[i..] == "";
      NothingLeft(s);
    } else {
      ReadNext(s, text, i);
      ScannerReads(m, text, i);
      if CutsAt(m, text, i) {
        assert forall j: nat :: CutsFirstAt(m, text, j) ==> j == i;
      } else {
        FirstCutFrom(m, text, i + 1);
      }
    }
  }

  /** The whole of splitting: a text without an open operator is one piece; otherwise the piece before the first open
      operator is cut off, and the text behind that operator is split as before, at the same depth. */
  lemma FirstCut(start: Scan, text: string)
    requires StartsSegment(start)
    ensures (forall j: nat :: !CutsAt(ModeOf(start), text, j)) ==> Pieces(start, text) == [text]
    ensures forall j: nat :: CutsFirstAt(ModeOf(start), text, j) ==>
              Pieces(start, text)
              == [text[..j]] + Pieces(ScanIn(After(ModeOf(start), text[..j]), ""), text[j + OperatorWidth(text, j)..])
  {
    hide CutsFirstAt, CutsAt;
    assert text[..0] == "" && text[0..] == text;
    FirstCutFrom(ModeOf(start), text, 0);
  }

  // ----- what follows for whole lines -----

  lemma {:induction false} PiecesAreShort(s: Scan, input: string)
    ensures forall piece <- Pieces(s, input) :: |piece| <= |s.cur| + |input|
    decreases |input|
  {
    hide Classify;
    if input != "" {
      match Classify(s, input[0], Peek(input))
      case Take(next) =>
        TakenCur(s, input[0], Peek(input), next);
        PiecesAreShort(next, input[1..]);
      case Cut(width) =>
        CutWeaves(s, input, width);
        PiecesAreShort(Fresh(s), input[width..]);
    }
  }

  lemma {:induction false} KeptIsShort(pieces: seq<string>, n: nat)
    requires forall piece <- pieces :: |piece| < n
    ensures forall t <- Kept(pieces) :: |t| < n
  {
    hide Trim;
    if pieces != [] {
      var before, after := TrimmedAround(pieces[0]);
      KeptIsShort(pieces[1..], n);
    }
  }

  lemma {:induction false} FirstOf(m: Mode, text: string, i: nat) returns (first: nat)
    requires CutsAt(m, text, i)
    ensures CutsFirstAt(m, text, first)
  {
    hide CutsAt;
    if j: nat :| j < i && CutsAt(m, text, j) {
      first := FirstOf(m, text, j);
    } else {
      first := i;
    }
  }

  /** A text that splits to itself holds no open operator. */
  lemma WholeHoldsNone(t: string)
    requires Split(t) == [t]
    ensures forall i: nat :: !CutsAt(BARE, t, i)
  {
    hide Pieces, Kept, CutsAt, After, OperatorWidth;
    if i: nat :| CutsAt(BARE, t, i) {
      var first := FirstOf(BARE, t, i);
      CutIsInside(BARE, t, first);
      FirstCut(BEGIN, t);
      var width := OperatorWidth(t, first);
      var rest := Pieces(ScanIn(After(BARE, t[..first]), ""), t[first + width..]);
      PiecesAreShort(ScanIn(After(BARE, t[..first]), ""), t[first + width..]);
      KeptIsShort([t[..first]] + rest, |t|);
      assert false;
    }
  }

  lemma CutIsInside(m: Mode, text: string, i: nat)
    requires CutsAt(m, text, i)
    ensures i < |text| && 0 < OperatorWidth(text, i) <= |text| - i
  {
    hide ArrowBefore, After;
  }

  /** No returned segment holds an operator outside quotes, escapes and parentheses. */
  lemma SegmentsHoldNoOperator(line: string)
    requires NeverReopens(BEGIN, line)
    ensures forall t <- Split(line), i: nat :: !CutsAt(BARE, t, i)
  {
    hide Split, CutsAt;
    SegmentsSplitNoFurther(line);
    forall t | t in Split(line) ensures forall i: nat :: !CutsAt(BARE, t, i) {
      WholeHoldsNone(t);
    }
  }

  // ----- splitting at each operator -----

  /** Leading pipes open nothing. */
  lemma {:induction false} LeadingPipe(s: Scan, b: string)
    requires StartsSegment(s)
    ensures Kept(Pieces(s, "|" + b)) == Kept(Pieces(s, b))
    decreases |b|
  {
    hide Trim;
    var whole := "|" + b;
    assert whole[1..] == b;
    if b != "" && b[0] == '|' {
      assert whole[2..] == b[1..] && b == "|" + b[1..];
      assert Pieces(s, whole) == [""] + Pieces(s, b[1..]);
      NothingKept(Pieces(s, b[1..]));
      LeadingPipe(s, b[1..]);
    } else {
      assert Pieces(s, whole) == [""] + Pieces(s, b);
      NothingKept(Pieces(s, b));
    }
  }

  lemma NothingKept(pieces: seq<string>)
    ensures Kept([""] + pieces) == Kept(pieces)
  {
    assert ([""] + pieces)[1..] == pieces && Trim("") == "";
  }

  /** The operator joins on to what has been read: a `|` behind an arrow and an `&` behind an `&` do. */
  predicate Joins(s: Scan, a: string, op: string) {
    || (op != "" && op[0] == '|' && EndsWithArrow(Final(s, a).cur))
    || (op == "&&" && a != "" && a[|a| - 1] == '&')
  }

  lemma OperatorAfter(s: Scan, op: string, b: string)
    requires ModeOf(s).Open() && IsOperator(op) && !Joins(s, "", op)
    ensures Kept(Pieces(s, op + b)) == Kept([s.cur]) + Kept(Pieces(Fresh(s), b))
  {
    hide EndsWithArrow, Kept;
    var whole := op + b;
    if op == "|" && b != "" && b[0] == '|' {
      assert whole[2..] == b[1..] && b == "|" + b[1..];
      LeadingPipe(Fresh(s), b[1..]);
      KeptAcross([s.cur], Pieces(Fresh(s), b[1..]));
    } else {
      assert whole[|op|..] == b;
      assert Pieces(s, whole) == [s.cur] + Pieces(Fresh(s), b);
      KeptAcross([s.cur], Pieces(Fresh(s), b));
    }
  }

  /** A pipe that ends the text, and one with another operator behind it. */
  lemma PipeThenPipe(s: Scan, op: string, b: string)
    requires Classify(s, '|', None).Cut? && IsOperator(op) && op[0] == '|'
    ensures Kept(Pieces(s, "|" + op + b)) == Kept(Pieces(s, "|")) + Kept(Pieces(Fresh(s), b))
  {
    hide Kept, Pieces;
    var rest := if op == "|" then b else "|" + b;
    PipesCut(s, op, b);
    KeptAcross([s.cur], Pieces(Fresh(s), rest));
    if op != "|" {
      LeadingPipe(Fresh(s), b);
    }
    NothingKept([]);
    KeptAcross([s.cur], [""]);
    assert [""] + [] == [""];
    KeptOfNone();
  }

  lemma KeptOfNone()
    ensures Kept([]) == []
  {
  }

  lemma PipesCut(s: Scan, op: string, b: string)
    requires Classify(s, '|', None).Cut? && IsOperator(op) && op[0] == '|'
    ensures StartsSegment(Fresh(s))
    ensures Pieces(s, "|" + op + b) == [s.cur] + Pieces(Fresh(s), if op == "|" then b else "|" + b)
    ensures Pieces(s, "|") == [s.cur] + [""]
  {
    hide EndsWithArrow;
    var whole := "|" + op + b;
    assert whole[2..] == (if op == "|" then b else "|" + b) && whole[1] == '|';
    assert Classify(s, whole[0], Peek(whole)) == Cut(2);
    assert "|"[1..] == "" && Classify(s, "|"[0], Peek("|")) == Cut(1);
    NothingLeft(Fresh(s));
  }

  lemma {:induction false} KeptAcrossOperator(s: Scan, a: string, op: string, b: string)
    requires ModeOf(Final(s, a)).Open() && IsOperator(op) && !Joins(s, a, op)
    ensures Kept(Pieces(s, a + op + b)) == Kept(Pieces(s, a)) + Kept(Pieces(Fresh(Final(s, a)), b))
    decreases |a|
  {
    hide EndsWithArrow, Kept, Classify;
    var whole := a + op + b;
    if a == "" {
      assert whole == op + b;
      OperatorAfter(s, op, b);
      NothingLeft(s);
    } else if a == "|" && op[0] == '|' && Classify(s, a[0], Peek(a)).Cut? {
      PipeThenPipe(s, op, b);
      PipeEnds(s);
    } else {
      MoveBefore(s, a, op, b);
      match Classify(s, a[0], Peek(a))
      case Take(next) =>
        assert whole[1..] == a[1..] + op + b;
        KeptAcrossOperator(next, a[1..], op, b);
      case Cut(width) =>
        CutWithin(s, a, width);
        assert whole[width..] == a[width..] + op + b;
        KeptAcrossOperator(Fresh(s), a[width..], op, b);
        KeptAcross([s.cur], Pieces(Fresh(s), a[width..]));
        KeptAcross([s.cur], Pieces(Fresh(s), whole[width..]));
    }
  }

  lemma PipeEnds(s: Scan)
    requires Classify(s, '|', None).Cut?
    ensures Final(s, "|") == Fresh(s)
  {
    hide EndsWithArrow;
    assert "|"[1..] == "";
  }

  /** What follows the operator is seen no earlier than the operator. */
  lemma MoveBefore(s: Scan, a: string, op: string, b: string)
    requires a != "" && IsOperator(op) && !(op == "&&" && a[|a| - 1] == '&')
    requires !(a == "|" && op[0] == '|' && Classify(s, a[0], Peek(a)).Cut?)
    ensures Classify(s, a[0], Peek(a)) == Classify(s, (a + op + b)[0], Peek(a + op + b))
  {
    hide EndsWithArrow;
  }

  lemma {:induction false} AfterFirst(m: Mode, c: char, text: string)
    ensures After(m, [c] + text) == After(Reading(m, c), text)
  {
    hide Reading;
    var whole := [c] + text;
    if text == "" {
      assert whole[..0] == "";
    } else {
      assert whole[..|whole| - 1] == [c] + text[..|text| - 1];
      AfterFirst(m, c, text[..|text| - 1]);
    }
  }

  lemma NothingAfter(m: Mode)
    ensures After(m, "") == m
  {
  }

  /** Cutting does not disturb the mode. */
  lemma {:induction false} FinalIsAfter(s: Scan, text: string)
    ensures ModeOf(Final(s, text)) == After(ModeOf(s), text)
    decreases |text|
  {
    hide EndsWithArrow, Reading, Classify, After;
    if text == "" {
      NothingAfter(ModeOf(s));
    } else {
      assert text == [text[0]] + text[1..];
      AfterFirst(ModeOf(s), text[0], text[1..]);
      MoveReads(s, text[0], Peek(text));
      match Classify(s, text[0], Peek(text))
      case Take(next) => FinalIsAfter(next, text[1..]);
      case Cut(width) =>
        CutWeaves(s, text, width);
        FinalIsAfter(Fresh(s), text[width..]);
        if width == 2 {
          assert text[1..] == [text[1]] + text[2..];
          AfterFirst(ModeOf(s), text[1], text[2..]);
          MoveReads(s, text[1], Peek(text));
        }
    }
  }

  lemma MoveReads(s: Scan, c: char, ahead: Option<char>)
    ensures match Classify(s, c, ahead)
            case Take(next) => ModeOf(next) == Reading(ModeOf(s), c)
            case Cut(width) => ModeOf(s) == Reading(ModeOf(s), c) && (width == 2 ==> ahead == Some(c))
  {
    hide EndsWithArrow;
  }

  /** What is being read is the end of the text. */
  lemma {:induction false} CurIsLast(s: Scan, text: string) returns (k: nat)
    ensures k <= |s.cur + text| && Final(s, text).cur == (s.cur + text)[k..]
    decreases |text|
  {
    hide Classify;
    k := 0;
    if text != "" {
      match Classify(s, text[0], Peek(text))
      case Take(next) =>
        TakenCur(s, text[0], Peek(text), next);
        k := CurIsLast(next, text[1..]);
        MoveFirst(s.cur, text);
      case Cut(width) =>
        CutWithin(s, text, width);
        k := CurIsLast(Fresh(s), text[width..]);
        EndOfEnd(s.cur, text, width, k);
        k := k + |s.cur| + width;
    }
  }

  lemma CutWithin(s: Scan, text: string, width: nat)
    requires text != "" && Classify(s, text[0], Peek(text)) == Cut(width)
    ensures 0 < width <= |text|
  {
    hide EndsWithArrow;
  }

  lemma EndOfEnd(front: string, text: string, width: nat, k: nat)
    requires width <= |text| && k <= |"" + text[width..]|
    ensures k + |front| + width <= |front + text|
    ensures ("" + text[width..])[k..] == (front + text)[k + |front| + width..]
  {
  }

  lemma ArrowAtEnd(text: string, k: nat)
    requires k <= |text| && ArrowBefore(text[k..])
    ensures ArrowBefore(text)
  {
    var i: nat :| i < |text[k..]| && text[k..][i] == '>' && BlankFrom(text[k..], i + 1);
    assert text[k + i] == '>';
    forall j | k + i + 1 <= j < |text| ensures IsWhitespace(text[j]) {
      assert text[j] == text[k..][j - k];
    }
    assert BlankFrom(text, k + i + 1);
  }

  /** Where `a` ends outside quotes, escapes and parentheses, the line splits at any operator behind it, unless that
      operator is the `|` of a `>|` or its first `&` belongs to an `&&` before it. */
  lemma SplitsAtOperator(a: string, op: string, b: string)
    requires After(BARE, a) == BARE && IsOperator(op)
    requires op[0] == '|' ==> !ArrowBefore(a)
    requires op == "&&" && a != "" ==> a[|a| - 1] != '&'
    ensures Split(a + op + b) == Split(a) + Split(b)
  {
    hide Pieces, Kept, Final, EndsWithArrow, ArrowBefore, After;
    FinalIsAfter(BEGIN, a);
    ArrowOfLast(a);
    assert !Joins(BEGIN, a, op);
    KeptAcrossOperator(BEGIN, a, op, b);
    assert Fresh(Final(BEGIN, a)) == BEGIN;
  }

  lemma ArrowOfLast(a: string)
    ensures EndsWithArrow(Final(BEGIN, a).cur) ==> ArrowBefore(a)
  {
    hide Final, EndsWithArrow, ArrowBefore;
    var k := CurIsLast(BEGIN, a);
    assert BEGIN.cur + a == a;
    ArrowIsBefore(Final(BEGIN, a).cur);
    if ArrowBefore(a[k..]) {
      ArrowAtEnd(a, k);
    }
  }

  // ----- the `|` of a `>|` -----

  lemma {:induction false} AfterBoth(m: Mode, a: string, b: string)
    ensures After(m, a + b) == After(After(m, a), b)
  {
    hide Reading;
    if b == "" {
      assert a + b == a;
    } else {
      assert (a + b)[..|a + b| - 1] == a + b[..|b| - 1];
      AfterBoth(m, a, b[..|b| - 1]);
    }
  }

  lemma CutsBefore(m: Mode, a: string, b: string, i: nat)
    requires i < |a| && CutsAt(m, a + b, i) && (i + 1 < |a| || a[i] != '&')
    ensures CutsAt(m, a, i)
  {
    hide After, ArrowBefore;
    assert (a + b)[..i] == a[..i];
  }

  lemma CutsBehind(m: Mode, a: string, b: string, i: nat)
    requires CutsAt(m, a + b, |a| + i)
    ensures CutsAt(After(m, a), b, i)
  {
    hide ArrowBefore, Reading;
    assert (a + b)[..|a| + i] == a + b[..i];
    AfterBoth(m, a, b[..i]);
    if ArrowBefore(b[..i]) {
      assert (a + b[..i])[|a|..] == b[..i];
      ArrowAtEnd(a + b[..i], |a|);
    }
  }

  /** A redirection that overwrites is one command: the `|` behind the arrow is no pipe. */
  lemma ClobberDoesNotCut(a: string, b: string)
    requires After(BARE, a) == BARE && ArrowBefore(a)
    requires forall i: nat :: !CutsAt(BARE, a, i) && !CutsAt(BARE, b, i)
    ensures Pieces(BEGIN, a + "|" + b) == [a + "|" + b]
  {
    hide CutsAt, After, ArrowBefore, Pieces;
    var front := a + "|";
    PipeIsArrows(a);
    assert front[..|front| - 1] == a;
    PipeKeeps(a);
    forall i: nat ensures !CutsAt(BARE, front + b, i) {
      if CutsAt(BARE, front + b, i) {
        if i < |front| {
          CutsBefore(BARE, front, b, i);
          if i < |a| {
            ArrowEnds(a);
            CutsBefore(BARE, a, "|", i);
          }
        } else {
          CutsBehind(BARE, front, b, i - |front|);
        }
      }
    }
    FirstCut(BEGIN, front + b);
  }

  lemma PipeKeeps(a: string)
    requires After(BARE, a) == BARE
    ensures After(BARE, a + "|") == BARE
  {
    assert (a + "|")[..|a|] == a;
  }

  lemma PipeIsArrows(a: string)
    requires ArrowBefore(a)
    ensures !CutsAt(BARE, a + "|", |a|)
  {
    hide After, ArrowBefore;
    assert (a + "|")[..|a|] == a;
  }

  lemma ArrowEnds(a: string)
    requires ArrowBefore(a)
    ensures a != "" && a[|a| - 1] != '&'
  {
  }
}
