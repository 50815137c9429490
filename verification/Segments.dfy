/** Splitting a line at its top-level operators, aware of quotes, escapes and parentheses. */
module Segments {
  import opened Wrappers
  import opened Text

  // ----- the scanner -----

  /** `cur` is the segment being read; `depth` counts unquoted parentheses and may go negative. */
  datatype Scan = Scan(cur: string, inSingle: bool, inDouble: bool, escaped: bool, depth: int)

  const BEGIN := Scan("", false, false, false, 0)

  /** What one character does: join the segment, or end it by an operator of one or two characters. */
  datatype Move = Take(next: Scan) | Cut(width: nat)

  predicate EndsWithArrow(cur: string) {
    var t := TrimEnd(cur);
    t != "" && t[|t| - 1] == '>'
  }

  function Classify(s: Scan, c: char, next: Option<char>): Move {
    var taken := s.(cur := s.cur + [c]);
    if s.escaped then Take(taken.(escaped := false))
    else if s.inSingle then Take(taken.(inSingle := c != '\''))
    else if s.inDouble then (if c == '\\' then Take(taken.(escaped := true)) else Take(taken.(inDouble := c != '"')))
    else if c == '(' then Take(taken.(depth := s.depth + 1))
    else if c == ')' then Take(taken.(depth := s.depth - 1))
    else if s.depth > 0 then Take(taken)
    else if c == '\\' then Take(taken.(escaped := true))
    else if c == '|' && EndsWithArrow(s.cur) then Take(taken)
    else if c == '\'' then Take(taken.(inSingle := true))
    else if c == '"' then Take(taken.(inDouble := true))
    else if c == ';' then Cut(1)
    else if c == '|' then Cut(if next == Some('|') then 2 else 1)
    else if c == '&' && next == Some('&') then Cut(2)
    else Take(taken)
  }

  function Fresh(s: Scan): Scan {
    s.(cur := "")
  }

  /** The untrimmed pieces, the one being read first. */
  function Pieces(s: Scan, input: string): (pieces: seq<string>)
    ensures pieces != []
    decreases |input|
  {
    if input == "" then [s.cur]
    else match Classify(s, input[0], Peek(input))
      case Take(next) => Pieces(next, input[1..])
      case Cut(width) => [s.cur] + Pieces(Fresh(s), input[width..])
  }

  /** The operators between the pieces. */
  function Operators(s: Scan, input: string): seq<string>
    decreases |input|
  {
    if input == "" then []
    else match Classify(s, input[0], Peek(input))
      case Take(next) => Operators(next, input[1..])
      case Cut(width) => [input[..width]] + Operators(Fresh(s), input[width..])
  }

  /** The scanner's state once `input` is read. */
  function Final(s: Scan, input: string): Scan
    decreases |input|
  {
    if input == "" then s
    else match Classify(s, input[0], Peek(input))
      case Take(next) => Final(next, input[1..])
      case Cut(width) => Final(Fresh(s), input[width..])
  }

  function Kept(pieces: seq<string>): seq<string> {
    if pieces == [] then []
    else (if Trim(pieces[0]) == "" then [] else [Trim(pieces[0])]) + Kept(pieces[1..])
  }

  /** split_top_level */
  function Split(line: string): seq<string> {
    Kept(Pieces(BEGIN, line))
  }

  /** split_top_level: the scanning loop, then trimming and dropping the empty segments. */
  method SplitTopLevel(line: string) returns (segments: seq<string>)
    ensures segments == Split(line)
  {
    var pieces := ScanPieces(line);
    segments := KeepSegments(pieces);
  }

  method KeepSegments(pieces: seq<string>) returns (segments: seq<string>)
    ensures segments == Kept(pieces)
  {
    hide Trim, Kept;
    segments := [];
    KeptNone(pieces);
    for k := 0 to |pieces|
      invariant Kept(pieces) == segments + Kept(pieces[k..])
    {
      KeptStep(pieces, k);
      var s := Trim(pieces[k]);
      if s != "" {
        segments := segments + [s];
      }
    }
  }

  lemma KeptStep(pieces: seq<string>, k: nat)
    requires k < |pieces|
    ensures Kept(pieces[k..]) == (if Trim(pieces[k]) == "" then [] else [Trim(pieces[k])]) + Kept(pieces[k + 1..])
  {
    hide Trim;
    assert pieces[k..][1..] == pieces[k + 1..];
  }

  lemma KeptNone(pieces: seq<string>)
    ensures Kept(pieces[|pieces|..]) == [] && pieces[0..] == pieces
  {
  }

  method ScanPieces(line: string) returns (pieces: seq<string>)
    ensures pieces == Pieces(BEGIN, line)
  {
    hide Pieces, EndsWithArrow;
    pieces := [];
    var cur := "";
    var inSingle, inDouble, escaped := false, false, false;
    var depth := 0;
    var i := 0;
    assert line[0..] == line;
    while i < |line|
      invariant i <= |line|
      invariant Pieces(BEGIN, line) == pieces + Pieces(Scan(cur, inSingle, inDouble, escaped, depth), line[i..])
    {
      var c := line[i];
      ReadNext(Scan(cur, inSingle, inDouble, escaped, depth), line, i);
      if escaped {
        cur := cur + [c];
        escaped := false;
        i := i + 1;
        continue;
      }
      if inSingle {
        cur := cur + [c];
        if c == '\'' {
          inSingle := false;
        }
        i := i + 1;
        continue;
      }
      if inDouble {
        cur := cur + [c];
        if c == '\\' {
          escaped := true;
        } else if c == '"' {
          inDouble := false;
        }
        i := i + 1;
        continue;
      }
      if c == '(' {
        depth := depth + 1;
        cur := cur + [c];
        i := i + 1;
        continue;
      }
      if c == ')' {
        depth := depth - 1;
        cur := cur + [c];
        i := i + 1;
        continue;
      }
      if depth > 0 {
        cur := cur + [c];
        i := i + 1;
        continue;
      }
      if c == '\\' {
        cur := cur + [c];
        escaped := true;
        i := i + 1;
      } else if c == '|' && EndsWithArrow(cur) {
        cur := cur + [c];
        i := i + 1;
      } else if c == '\'' {
        inSingle := true;
        cur := cur + [c];
        i := i + 1;
      } else if c == '"' {
        inDouble := true;
        cur := cur + [c];
        i := i + 1;
      } else if c == ';' {
        pieces := pieces + [cur];
        cur := "";
        i := i + 1;
      } else if c == '|' {
        pieces := pieces + [cur];
        cur := "";
        i := i + if i + 1 < |line| && line[i + 1] == '|' then 2 else 1;
      } else if c == '&' && i + 1 < |line| && line[i + 1] == '&' {
        pieces := pieces + [cur];
        cur := "";
        i := i + 2;
      } else {
        cur := cur + [c];
        i := i + 1;
      }
    }
    assert line[i..] == "";
    NothingLeft(Scan(cur, inSingle, inDouble, escaped, depth));
    pieces := pieces + [cur];
  }

  lemma NothingLeft(s: Scan)
    ensures Pieces(s, "") == [s.cur] && Operators(s, "") == []
  {
  }

  lemma ReadNext(s: Scan, line: string, i: nat)
    requires i < |line|
    ensures var move := Classify(s, line[i], if i + 1 < |line| then Some(line[i + 1]) else None);
            match move
            case Take(next) => Pieces(s, line[i..]) == Pieces(next, line[i + 1..])
            case Cut(width) =>
              i + width <= |line| && Pieces(s, line[i..]) == [s.cur] + Pieces(Fresh(s), line[i + width..])
  {
    var move := Classify(s, line[i], if i + 1 < |line| then Some(line[i + 1]) else None);
    assert line[i..][1..] == line[i + 1..];
    if move.Cut? && move.width == 2 {
      assert line[i..][2..] == line[i + 2..];
    }
  }

  // ----- nothing but operators and outer whitespace is lost -----

  predicate IsOperator(op: string) {
    op == ";" || op == "|" || op == "||" || op == "&&"
  }

  function Weave(pieces: seq<string>, operators: seq<string>): string
    requires |pieces| == |operators| + 1
  {
    if operators == [] then pieces[0] else pieces[0] + operators[0] + Weave(pieces[1..], operators[1..])
  }

  ghost predicate WeavesTo(pieces: seq<string>, operators: seq<string>, text: string) {
    && |pieces| == |operators| + 1
    && (forall op <- operators :: IsOperator(op))
    && Weave(pieces, operators) == text
  }

  lemma PiecesTake(s: Scan, input: string, next: Scan)
    requires input != "" && Classify(s, input[0], Peek(input)) == Take(next)
    ensures Pieces(s, input) == Pieces(next, input[1..])
  {
    hide Classify;
  }

  lemma OperatorsTake(s: Scan, input: string, next: Scan)
    requires input != "" && Classify(s, input[0], Peek(input)) == Take(next)
    ensures Operators(s, input) == Operators(next, input[1..])
  {
    hide Classify;
  }

  lemma MoveFirst(cur: string, input: string)
    requires input != ""
    ensures (cur + [input[0]]) + input[1..] == cur + input
  {
  }

  lemma TakenCur(s: Scan, c: char, ahead: Option<char>, next: Scan)
    requires Classify(s, c, ahead) == Take(next)
    ensures next.cur == s.cur + [c]
  {
    hide EndsWithArrow;
  }

  lemma CutWeaves(s: Scan, input: string, width: nat)
    requires input != "" && Classify(s, input[0], Peek(input)) == Cut(width)
    ensures 0 < width <= |input| && IsOperator(input[..width])
    ensures Pieces(s, input) == [s.cur] + Pieces(Fresh(s), input[width..])
    ensures Operators(s, input) == [input[..width]] + Operators(Fresh(s), input[width..])
  {
    hide EndsWithArrow;
  }

  /** The pieces with the operators put back between them are the text that was read. */
  lemma {:induction false} PiecesAreLossless(s: Scan, input: string)
    ensures WeavesTo(Pieces(s, input), Operators(s, input), s.cur + input)
    decreases |input|
  {
    hide Classify, Pieces, Operators, WeavesTo;
    if input == "" {
      NothingLeft(s);
      WeaveOne(s.cur);
      assert s.cur + input == s.cur;
    } else {
      match Classify(s, input[0], Peek(input))
      case Take(next) =>
        PiecesTake(s, input, next);
        OperatorsTake(s, input, next);
        TakenCur(s, input[0], Peek(input), next);
        MoveFirst(s.cur, input);
        PiecesAreLossless(next, input[1..]);
      case Cut(width) =>
        CutWeaves(s, input, width);
        var op, rest := input[..width], input[width..];
        PiecesAreLossless(Fresh(s), rest);
        assert Fresh(s).cur + rest == rest && s.cur + op + rest == s.cur + input;
        WeaveMore(s.cur, op, Pieces(Fresh(s), rest), Operators(Fresh(s), rest), rest);
    }
  }

  lemma WeaveOne(piece: string)
    ensures WeavesTo([piece], [], piece)
  {
  }

  lemma WeaveMore(piece: string, op: string, pieces: seq<string>, operators: seq<string>, text: string)
    requires WeavesTo(pieces, operators, text) && IsOperator(op)
    ensures WeavesTo([piece] + pieces, [op] + operators, piece + op + text)
  {
    assert ([piece] + pieces)[1..] == pieces && ([op] + operators)[1..] == operators;
  }

  predicate InGap(c: char) {
    IsWhitespace(c) || c == ';' || c == '|' || c == '&'
  }

  /** Only whitespace and operator characters. */
  predicate IsGap(gap: string) {
    forall i :: 0 <= i < |gap| ==> InGap(gap[i])
  }

  predicate HoldsOperator(gap: string) {
    exists i :: 0 <= i < |gap| && (gap[i] == ';' || gap[i] == '|' || gap[i] == '&')
  }

  function Interleave(gaps: seq<string>, segments: seq<string>): string
    requires |gaps| == |segments| + 1
  {
    if segments == [] then gaps[0] else gaps[0] + segments[0] + Interleave(gaps[1..], segments[1..])
  }

  /** `segments` are what is left of `line` when gaps are taken out, the inner ones holding an operator each. */
  ghost predicate Covers(line: string, gaps: seq<string>, segments: seq<string>) {
    && |gaps| == |segments| + 1
    && (forall k :: 0 <= k < |gaps| ==> IsGap(gaps[k]))
    && (forall k :: 0 < k < |segments| ==> HoldsOperator(gaps[k]))
    && line == Interleave(gaps, segments)
  }

  lemma {:induction false} TrimmedAround(s: string) returns (before: string, after: string)
    ensures s == before + Trim(s) + after && AllWhitespace(before) && AllWhitespace(after)
    ensures Trim(s) != "" ==> !IsWhitespace(Trim(s)[0]) && !IsWhitespace(Trim(s)[|Trim(s)| - 1])
  {
    before := StartTrimmed(s);
    after := EndTrimmed(TrimStart(s));
  }

  lemma {:induction false} StartTrimmed(s: string) returns (before: string)
    ensures s == before + TrimStart(s) && AllWhitespace(before)
    ensures TrimStart(s) != "" ==> !IsWhitespace(TrimStart(s)[0])
  {
    before := "";
    if s != "" && IsWhitespace(s[0]) {
      before := StartTrimmed(s[1..]);
      before := [s[0]] + before;
    }
  }

  lemma {:induction false} EndTrimmed(s: string) returns (after: string)
    ensures s == TrimEnd(s) + after && AllWhitespace(after)
    ensures TrimEnd(s) != "" ==> TrimEnd(s)[0] == s[0] && !IsWhitespace(TrimEnd(s)[|TrimEnd(s)| - 1])
  {
    after := "";
    if s != "" && IsWhitespace(s[|s| - 1]) {
      after := EndTrimmed(s[..|s| - 1]);
      after := after + [s[|s| - 1]];
    }
  }

  lemma AddGap(front: string, text: string, gaps: seq<string>, segments: seq<string>) returns (more: seq<string>)
    requires Covers(text, gaps, segments) && IsGap(front)
    ensures Covers(front + text, more, segments) && more[0] == front + gaps[0]
  {
    more := [front + gaps[0]] + gaps[1..];
    assert more[1..] == gaps[1..];
    forall k | 0 < k < |segments| ensures HoldsOperator(more[k]) {
      assert more[k] == gaps[k];
    }
    if segments != [] {
      var rest := Interleave(gaps[1..], segments[1..]);
      assert front + gaps[0] + segments[0] + rest == front + (gaps[0] + segments[0] + rest);
    }
  }

  lemma AddSegment(before: string, segment: string, text: string, gaps: seq<string>, segments: seq<string>)
    requires Covers(text, gaps, segments) && IsGap(before)
    requires segments != [] ==> HoldsOperator(gaps[0])
    ensures Covers(before + segment + text, [before] + gaps, [segment] + segments)
  {
    assert ([before] + gaps)[1..] == gaps && ([segment] + segments)[1..] == segments;
  }

  lemma OperatorIsGap(op: string)
    requires IsOperator(op)
    ensures IsGap(op) && forall rest :: HoldsOperator(op + rest)
  {
    forall rest ensures HoldsOperator(op + rest) {
      assert (op + rest)[0] == op[0];
    }
  }

  lemma HoldsBehind(front: string, gap: string)
    requires HoldsOperator(gap)
    ensures HoldsOperator(front + gap)
  {
    var i: nat :| i < |gap| && (gap[i] == ';' || gap[i] == '|' || gap[i] == '&');
    assert (front + gap)[|front| + i] == gap[i];
  }

  lemma {:induction false} WovenIsCovered(pieces: seq<string>, operators: seq<string>) returns (gaps: seq<string>)
    requires |pieces| == |operators| + 1 && forall op <- operators :: IsOperator(op)
    ensures Covers(Weave(pieces, operators), gaps, Kept(pieces))
  {
    hide Trim;
    var piece, kept, more := pieces[0], Trim(pieces[0]), Kept(pieces[1..]);
    var text := "";
    gaps := [""];
    if operators != [] {
      var op := operators[0];
      assert op in operators;
      var rest := WovenIsCovered(pieces[1..], operators[1..]);
      OperatorIsGap(op);
      gaps := AddGap(op, Weave(pieces[1..], operators[1..]), rest, more);
      text := op + Weave(pieces[1..], operators[1..]);
    }
    assert Weave(pieces, operators) == piece + text;
    gaps := CoverPiece(piece, text, gaps, more);
  }

  lemma CoverPiece(piece: string, text: string, gaps: seq<string>, segments: seq<string>) returns (more: seq<string>)
    requires gaps != [] && Covers(text, gaps, segments) && (segments != [] ==> HoldsOperator(gaps[0]))
    ensures Covers(piece + text, more, (if Trim(piece) == "" then [] else [Trim(piece)]) + segments)
  {
    hide Trim, Covers, IsGap;
    var before, after := TrimmedAround(piece);
    WhitespaceIsGap(before);
    WhitespaceIsGap(after);
    more := AddGap(after, text, gaps, segments);
    if segments != [] {
      HoldsBehind(after, gaps[0]);
    }
    if Trim(piece) == "" {
      more := AddGap(before, after + text, more, segments);
      assert before + (after + text) == piece + text;
      assert [] + segments == segments;
    } else {
      AddSegment(before, Trim(piece), after + text, more, segments);
      more := [before] + more;
      assert before + Trim(piece) + (after + text) == piece + text;
    }
  }

  lemma WhitespaceIsGap(s: string)
    requires AllWhitespace(s)
    ensures IsGap(s)
  {
  }

  /** Splitting drops only operators and outer whitespace, and keeps the segments in order. */
  lemma SplitIsLossless(line: string) returns (gaps: seq<string>)
    ensures Covers(line, gaps, Split(line))
  {
    PiecesAreLossless(BEGIN, line);
    assert BEGIN.cur + line == line;
    gaps := WovenIsCovered(Pieces(BEGIN, line), Operators(BEGIN, line));
  }

  // ----- splitting the two sides of a `;` apart -----

  lemma {:induction false} PiecesAcross(s: Scan, a: string, b: string)
    requires var end := Final(s, a); !end.escaped && !end.inSingle && !end.inDouble && end.depth <= 0
    ensures Pieces(s, a + ";" + b) == Pieces(s, a) + Pieces(Fresh(Final(s, a)), b)
    decreases |a|
  {
    hide EndsWithArrow;
    var whole := a + ";" + b;
    if a == "" {
      assert whole[1..] == b;
    } else {
      var move := Classify(s, a[0], Peek(a));
      assert move == Classify(s, whole[0], Peek(whole));
      match move
      case Take(next) =>
        assert whole[1..] == a[1..] + ";" + b;
        PiecesAcross(next, a[1..], b);
      case Cut(width) =>
        assert whole[width..] == a[width..] + ";" + b;
        PiecesAcross(Fresh(s), a[width..], b);
    }
  }

  lemma {:induction false} KeptAcross(p: seq<string>, q: seq<string>)
    ensures Kept(p + q) == Kept(p) + Kept(q)
  {
    hide Trim;
    if p == [] {
      assert p + q == q;
    } else {
      assert (p + q)[1..] == p[1..] + q;
      KeptAcross(p[1..], q);
    }
  }

  /** Where `a` ends outside quotes and escapes with balanced parentheses, `a;b` splits as its two halves do. */
  lemma SplitIsCompositional(a: string, b: string)
    requires var end := Final(BEGIN, a); !end.escaped && !end.inSingle && !end.inDouble && end.depth == 0
    ensures Split(a + ";" + b) == Split(a) + Split(b)
  {
    PiecesAcross(BEGIN, a, b);
    KeptAcross(Pieces(BEGIN, a), Pieces(BEGIN, b));
  }

  // ----- segments do not split further -----

  /** An unquoted opening parenthesis while more have been closed than opened. */
  predicate Reopens(s: Scan, c: char) {
    c == '(' && s.depth < 0 && !s.escaped && !s.inSingle && !s.inDouble
  }

  /** No parenthesis is opened after one closing too many. */
  predicate NeverReopens(s: Scan, input: string)
    decreases |input|
  {
    input == ""
    || (&& !Reopens(s, input[0])
        && match Classify(s, input[0], Peek(input))
           case Take(next) => NeverReopens(next, input[1..])
           case Cut(width) => NeverReopens(Fresh(s), input[width..]))
  }

  /** Every character of `input` joins the current segment. */
  predicate NoCut(s: Scan, input: string)
    decreases |input|
  {
    input == ""
    || match Classify(s, input[0], Peek(input))
       case Take(next) => NoCut(next, input[1..])
       case Cut(_) => false
  }

  lemma {:induction false} UncutIsOnePiece(s: Scan, input: string)
    requires NoCut(s, input)
    ensures Pieces(s, input) == [s.cur + input]
    decreases |input|
  {
    hide EndsWithArrow;
    if input == "" {
      assert s.cur + input == s.cur;
    } else {
      var next := Classify(s, input[0], Peek(input)).next;
      UncutIsOnePiece(next, input[1..]);
      assert next.cur + input[1..] == s.cur + input;
    }
  }

  lemma {:induction false} UncutPrefix(s: Scan, input: string, more: string)
    requires NoCut(s, input + more)
    ensures NoCut(s, input)
    decreases |input|
  {
    hide EndsWithArrow;
    if input != "" {
      var whole := input + more;
      var next := Classify(s, whole[0], Peek(whole)).next;
      assert Classify(s, input[0], Peek(input)) == Take(next);
      assert whole[1..] == input[1..] + more;
      UncutPrefix(next, input[1..], more);
    }
  }

  lemma {:induction false} ArrowBehindWhitespace(before: string, cur: string)
    requires AllWhitespace(before)
    ensures EndsWithArrow(before + cur) == EndsWithArrow(cur)
  {
    if cur == "" {
      assert before + cur == before;
      AllTrimmed(before);
    } else {
      var whole := before + cur;
      assert whole[|whole| - 1] == cur[|cur| - 1];
      if IsWhitespace(cur[|cur| - 1]) {
        assert whole[..|whole| - 1] == before + cur[..|cur| - 1];
        ArrowBehindWhitespace(before, cur[..|cur| - 1]);
      }
    }
  }

  lemma {:induction false} AllTrimmed(s: string)
    requires AllWhitespace(s)
    ensures TrimEnd(s) == ""
  {
    if s != "" {
      AllTrimmed(s[..|s| - 1]);
    }
  }

  /** Leading whitespace in the segment so far makes no difference. */
  lemma {:induction false} UncutBehindWhitespace(s: Scan, before: string, input: string)
    requires AllWhitespace(before)
    requires NoCut(s.(cur := before + s.cur), input)
    ensures NoCut(s, input)
    decreases |input|
  {
    hide EndsWithArrow;
    if input != "" {
      ArrowBehindWhitespace(before, s.cur);
      var padded := s.(cur := before + s.cur);
      var next := Classify(s, input[0], Peek(input)).next;
      assert before + (s.cur + [input[0]]) == padded.cur + [input[0]];
      assert Classify(padded, input[0], Peek(input)).next == next.(cur := before + next.cur);
      UncutBehindWhitespace(next, before, input[1..]);
    }
  }

  lemma {:induction false} UncutAfterWhitespace(before: string, input: string)
    requires AllWhitespace(before) && NoCut(BEGIN, before + input)
    ensures NoCut(BEGIN, input)
  {
    hide EndsWithArrow;
    SkipWhitespace(BEGIN, before, input);
    assert BEGIN.cur + before == before + BEGIN.cur;
    UncutBehindWhitespace(BEGIN, before, input);
  }

  lemma {:induction false} SkipWhitespace(s: Scan, before: string, input: string)
    requires AllWhitespace(before) && NoCut(s, before + input)
    requires !s.escaped && !s.inSingle && !s.inDouble && s.depth == 0
    ensures NoCut(s.(cur := s.cur + before), input)
    decreases |before|
  {
    hide EndsWithArrow;
    if before == "" {
      assert before + input == input && s.cur + before == s.cur;
    } else {
      var whole := before + input;
      assert IsWhitespace(whole[0]) && whole[1..] == before[1..] + input;
      var next := s.(cur := s.cur + [whole[0]]);
      assert Classify(s, whole[0], Peek(whole)) == Take(next);
      SkipWhitespace(next, before[1..], input);
      assert next.cur + before[1..] == s.cur + before;
    }
  }

  lemma TrimmedUncut(piece: string)
    requires NoCut(BEGIN, piece) && Trim(piece) != ""
    ensures Split(Trim(piece)) == [Trim(piece)]
  {
    hide NoCut, Trim, EndsWithArrow;
    var before, after := TrimmedAround(piece);
    var t := Trim(piece);
    assert before + t + after == before + (t + after);
    UncutAfterWhitespace(before, t + after);
    UncutPrefix(BEGIN, t, after);
    UncutIsOnePiece(BEGIN, t);
    assert BEGIN.cur + t == t;
    TrimTwice(t);
    KeptOne(t);
  }

  lemma KeptOne(t: string)
    requires Trim(t) == t != ""
    ensures Kept([t]) == [t]
  {
  }

  lemma TrimTwice(t: string)
    requires t != "" ==> !IsWhitespace(t[0]) && !IsWhitespace(t[|t| - 1])
    ensures Trim(t) == t
  {
  }

  /** The first piece is read without a cut, also by a scanner that starts it at a depth nearer to zero. */
  lemma {:induction false} FirstPieceUncut(s: Scan, depth: int, input: string)
    requires NeverReopens(s, input) && (s.depth == depth || s.depth < depth <= 0)
    ensures s.cur <= Pieces(s, input)[0] <= s.cur + input
    ensures NoCut(s.(depth := depth), Pieces(s, input)[0][|s.cur|..])
    decreases |input|
  {
    hide Classify, NoCut;
    assert s.cur[|s.cur|..] == "";
    NothingUncut(s.(depth := depth));
    if input != "" {
      match Classify(s, input[0], Peek(input))
      case Take(next) =>
        TakenDepth(s, depth, input[0], Peek(input), next);
        FirstPieceUncut(next, depth + next.depth - s.depth, input[1..]);
        assert next.cur + input[1..] == s.cur + input;
        RestUncut(s, depth, input, next, Pieces(next, input[1..])[0]);
      case Cut(_) =>
    }
  }

  lemma NothingUncut(s: Scan)
    ensures NoCut(s, "")
  {
  }

  lemma TakenDepth(s: Scan, depth: int, c: char, ahead: Option<char>, next: Scan)
    requires Classify(s, c, ahead) == Take(next) && !Reopens(s, c) && (s.depth == depth || s.depth < depth <= 0)
    ensures next.cur == s.cur + [c]
    ensures var moved := depth + next.depth - s.depth; next.depth == moved || next.depth < moved <= 0
  {
    hide EndsWithArrow;
  }

  lemma RestUncut(s: Scan, depth: int, input: string, next: Scan, piece: string)
    requires input != "" && !Reopens(s, input[0]) && (s.depth == depth || s.depth < depth <= 0)
    requires Classify(s, input[0], Peek(input)) == Take(next)
    requires next.cur <= piece <= s.cur + input
    requires NoCut(next.(depth := depth + next.depth - s.depth), piece[|next.cur|..])
    ensures NoCut(s.(depth := depth), piece[|s.cur|..])
  {
    hide EndsWithArrow;
    var rest := piece[|s.cur|..];
    assert next.cur == s.cur + [input[0]];
    assert rest[0] == next.cur[|s.cur|] == input[0];
    assert rest[1..] == piece[|next.cur|..];
    if |rest| > 1 {
      assert rest[1] == piece[|next.cur|] == (s.cur + input)[|next.cur|] == input[1];
    }
    assert Classify(s.(depth := depth), rest[0], Peek(rest)) == Take(next.(depth := depth + next.depth - s.depth));
  }

  /** Where a segment starts: nothing read, outside quotes, no parenthesis open. */
  predicate StartsSegment(s: Scan) {
    s.cur == "" && !s.escaped && !s.inSingle && !s.inDouble && s.depth <= 0
  }

  /** Every cut starts the next segment. */
  lemma {:induction false} CutsStartSegments(s: Scan, input: string) returns (start: Scan, rest: string)
    requires NeverReopens(s, input) && |Pieces(s, input)| > 1
    ensures StartsSegment(start) && |rest| < |input| && NeverReopens(start, rest)
    ensures Pieces(s, input)[1..] == Pieces(start, rest)
    decreases |input|
  {
    hide EndsWithArrow;
    match Classify(s, input[0], Peek(input))
    case Take(next) => start, rest := CutsStartSegments(next, input[1..]);
    case Cut(width) => start, rest := Fresh(s), input[width..];
  }

  lemma {:induction false} PiecesSplitNoFurther(start: Scan, input: string)
    requires StartsSegment(start) && NeverReopens(start, input)
    ensures forall t <- Kept(Pieces(start, input)) :: Split(t) == [t]
    decreases |input|
  {
    hide NoCut, Trim, NeverReopens, Split;
    var pieces := Pieces(start, input);
    FirstPieceUncut(start, 0, input);
    assert pieces[0][|start.cur|..] == pieces[0] && start.(depth := 0) == BEGIN;
    if Trim(pieces[0]) != "" {
      TrimmedUncut(pieces[0]);
    }
    if |pieces| > 1 {
      var next, rest := CutsStartSegments(start, input);
      PiecesSplitNoFurther(next, rest);
    } else {
      assert pieces[1..] == [];
    }
  }

  /** While no parenthesis is opened after one closing too many, every returned segment splits to itself. */
  lemma SegmentsSplitNoFurther(line: string)
    requires NeverReopens(BEGIN, line)
    ensures forall t <- Split(line) :: Split(t) == [t]
  {
    PiecesSplitNoFurther(BEGIN, line);
  }

  /** After one closing parenthesis too many, quotes inside parentheses count again and a segment may split twice. */
  lemma OverclosedSegmentsSplitAgain()
    ensures Split(");(');'") == [")", "(');'"]
    ensures Split("(');'") == ["(')", "'"]
  {
    hide *;
    OverclosedSegment();
    ItSplitsAgain();
  }

  lemma OverclosedSegment()
    ensures Split(");(');'") == [")", "(');'"]
  {
    hide Pieces, EndsWithArrow, Kept;
    var closed := Scan(")", false, false, false, -1);
    TakeOne(BEGIN, ");(');'", ";(');'", closed);
    CutOne(closed, ";(');'", "(');'");
    assert Fresh(closed) == BEGIN.(depth := -1);
    QuotedAfterOverclosing();
    assert [")"] + ["(');'"] == [")", "(');'"];
    KeptTwo(")", "(');'");
  }

  lemma QuotedAfterOverclosing()
    ensures Pieces(BEGIN.(depth := -1), "(');'") == ["(');'"]
  {
    hide Pieces, EndsWithArrow;
    var a, b, c, d := Scan("(", false, false, false, 0), Scan("('", true, false, false, 0),
                      Scan("(')", true, false, false, 0), Scan("(');", true, false, false, 0);
    TakeOne(BEGIN.(depth := -1), "(');'", "');'", a);
    TakeOne(a, "');'", ");'", b);
    TakeOne(b, ");'", ";'", c);
    TakeOne(c, ";'", "'", d);
    TakeOne(d, "'", "", Scan("(');'", false, false, false, 0));
    NothingLeft(Scan("(');'", false, false, false, 0));
  }

  lemma ItSplitsAgain()
    ensures Split("(');'") == ["(')", "'"]
  {
    hide Pieces, EndsWithArrow, Kept;
    var a, b, c := Scan("(", false, false, false, 1), Scan("('", false, false, false, 1),
                   Scan("(')", false, false, false, 0);
    TakeOne(BEGIN, "(');'", "');'", a);
    TakeOne(a, "');'", ");'", b);
    TakeOne(b, ");'", ";'", c);
    CutOne(c, ";'", "'");
    assert Fresh(c) == BEGIN;
    TakeOne(BEGIN, "'", "", Scan("'", true, false, false, 0));
    NothingLeft(Scan("'", true, false, false, 0));
    assert ["(')"] + ["'"] == ["(')", "'"];
    KeptTwo("(')", "'");
  }

  lemma TakeOne(s: Scan, input: string, rest: string, next: Scan)
    requires input != "" && input[1..] == rest && next.cur == s.cur + [input[0]]
    requires var move := Classify(s, input[0], Peek(input)); move.Take? && next == move.next.(cur := next.cur)
    ensures Pieces(s, input) == Pieces(next, rest)
  {
  }

  lemma CutOne(s: Scan, input: string, rest: string)
    requires !s.escaped && !s.inSingle && !s.inDouble && s.depth <= 0
    requires input != "" && input[0] == ';' && input[1..] == rest
    ensures Pieces(s, input) == [s.cur] + Pieces(Fresh(s), rest)
  {
  }

  lemma KeptTwo(a: string, b: string)
    requires a != "" && !IsWhitespace(a[0]) && !IsWhitespace(a[|a| - 1])
    requires b != "" && !IsWhitespace(b[0]) && !IsWhitespace(b[|b| - 1])
    ensures Kept([a, b]) == [a, b]
  {
    assert [a, b][1..] == [b];
    TrimTwice(a);
    TrimTwice(b);
    KeptOne(b);
  }
}
