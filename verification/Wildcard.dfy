/** Matching an environment's name against the patterns of a policy. */
module Wildcard {
  import opened Wrappers
  import opened Text

  // ----- searching -----

  /** The leftmost occurrence. */
  function Leftmost(text: string, piece: string): (found: Option<nat>)
    ensures found.Some? ==> OccursAt(text, piece, found.value)
    ensures found.Some? ==> forall i :: 0 <= i < found.value ==> !OccursAt(text, piece, i)
    ensures found.None? ==> forall i :: !OccursAt(text, piece, i)
  {
    LeftmostFrom(text, piece, 0)
  }

  function LeftmostFrom(text: string, piece: string, start: nat): (found: Option<nat>)
    requires start <= |text|
    ensures found.Some? ==> start <= found.value && OccursAt(text, piece, found.value)
    ensures found.Some? ==> forall i :: start <= i < found.value ==> !OccursAt(text, piece, i)
    ensures found.None? ==> forall i :: start <= i ==> !OccursAt(text, piece, i)
    decreases |text| - start
  {
    if OccursAt(text, piece, start) then Some(start)
    else if start == |text| then None
    else LeftmostFrom(text, piece, start + 1)
  }

  // ----- patterns with stars -----

  /** The nonempty runs between the stars. */
  function Pieces(pattern: string): seq<string>
    decreases |pattern|
  {
    var i := Find(pattern, '*');
    (if i == 0 then [] else [pattern[..i]]) + if i == |pattern| then [] else Pieces(pattern[i + 1..])
  }

  /** Each piece is found leftmost in what the one before it left over. */
  predicate Greedy(pieces: seq<string>, rest: string) {
    pieces == []
    || (var found := Leftmost(rest, pieces[0]);
        found.Some? && Greedy(pieces[1..], rest[found.value + |pieces[0]|..]))
  }

  /** The tokens between characters that are neither letters nor digits, empty ones included. */
  function Tokens(value: string): (tokens: seq<string>)
    ensures tokens != []
    decreases |value|
  {
    var n := RunLength(value);
    [value[..n]] + if n == |value| then [] else Tokens(value[n + 1..])
  }

  function RunLength(value: string): (n: nat)
    ensures n <= |value| && (n < |value| ==> !IsAlphanumeric(value[n]))
    ensures forall i :: 0 <= i < n ==> IsAlphanumeric(value[i])
  {
    if value == "" || !IsAlphanumeric(value[0]) then 0 else 1 + RunLength(value[1..])
  }

  /** pattern_matches */
  predicate Matches(pattern: string, value: string) {
    var p := Lower(Trim(pattern));
    var v := Lower(value);
    if '*' in p then Greedy(Pieces(p), v) else p in Tokens(v)
  }

  method PatternMatches(pattern: string, value: string) returns (matched: bool)
    ensures matched == Matches(pattern, value)
  {
    hide Pieces, Trim, Lower;
    var p := Lower(Trim(pattern));
    var v := Lower(value);
    if '*' in p {
      var pieces := Pieces(p);
      var rest := v;
      for k := 0 to |pieces|
        invariant Greedy(pieces, v) == Greedy(pieces[k..], rest)
      {
        assert pieces[k..][1..] == pieces[k + 1..];
        var found := Leftmost(rest, pieces[k]);
        if found.None? {
          return false;
        }
        rest := rest[found.value + |pieces[k]|..];
      }
      return true;
    }
    return p in Tokens(v);
  }

  // ----- greedy matching is complete -----

  /** The pieces stand at `at`, in order and without overlap. */
  predicate PlacedAt(pieces: seq<string>, text: string, at: seq<int>) {
    && |at| == |pieces|
    && (forall k :: 0 <= k < |pieces| ==> OccursAt(text, pieces[k], at[k]))
    && (forall k :: 0 < k < |pieces| ==> at[k - 1] + |pieces[k - 1]| <= at[k])
  }

  lemma OccursBehind(front: string, text: string, piece: string, i: int)
    requires OccursAt(text, piece, i)
    ensures OccursAt(front + text, piece, |front| + i)
  {
    assert (front + text)[|front| + i..|front| + i + |piece|] == text[i..i + |piece|];
  }

  lemma OccursInSuffix(text: string, cut: nat, piece: string, i: int)
    requires cut <= i && OccursAt(text, piece, i)
    ensures OccursAt(text[cut..], piece, i - cut)
  {
    assert text[cut..][i - cut..i - cut + |piece|] == text[i..i + |piece|];
  }

  lemma {:induction false} GreedyIsPlaced(pieces: seq<string>, text: string) returns (at: seq<int>)
    requires Greedy(pieces, text)
    ensures PlacedAt(pieces, text, at)
  {
    hide Leftmost;
    at := [];
    if pieces != [] {
      hide PlacedAt;
      var i := Leftmost(text, pieces[0]).value;
      var later := GreedyIsPlaced(pieces[1..], text[i + |pieces[0]|..]);
      at := PlacedFirst(pieces[0], pieces[1..], text, i, later);
      assert [pieces[0]] + pieces[1..] == pieces;
    }
  }

  lemma PlacedFirst(first: string, pieces: seq<string>, text: string, i: nat, later: seq<int>) returns (at: seq<int>)
    requires OccursAt(text, first, i) && PlacedAt(pieces, text[i + |first|..], later)
    ensures PlacedAt([first] + pieces, text, at)
  {
    hide OccursAt;
    var cut := i + |first|;
    at := [i] + seq(|later|, k requires 0 <= k < |later| => cut + later[k]);
    var all := [first] + pieces;
    OccursBounds(text, first, i);
    assert text == text[..cut] + text[cut..];
    forall k | 1 <= k < |all| ensures OccursAt(text, all[k], at[k]) && at[k - 1] + |all[k - 1]| <= at[k] {
      OccursBehind(text[..cut], text[cut..], pieces[k - 1], later[k - 1]);
      OccursBounds(text[cut..], pieces[k - 1], later[k - 1]);
      if k > 1 {
        assert later[k - 2] + |pieces[k - 2]| <= later[k - 1];
      }
    }
  }

  lemma OccursBounds(text: string, piece: string, i: int)
    requires OccursAt(text, piece, i)
    ensures 0 <= i && i + |piece| <= |text|
  {
  }

  lemma {:induction false} PlacedIsGreedy(pieces: seq<string>, text: string, at: seq<int>)
    requires PlacedAt(pieces, text, at)
    ensures Greedy(pieces, text)
  {
    if pieces != [] {
      assert OccursAt(text, pieces[0], at[0]);
      var cut := Leftmost(text, pieces[0]).value + |pieces[0]|;
      PlacedAfter(pieces, text, at, cut);
      var later := seq(|at| - 1, k requires 0 <= k < |at| - 1 => at[k + 1] - cut);
      PlacedIsGreedy(pieces[1..], text[cut..], later);
    }
  }

  /** Every later piece stands behind any cut at or before the end of the first. */
  lemma {:induction false} PlacedAfter(pieces: seq<string>, text: string, at: seq<int>, cut: nat)
    requires pieces != [] && PlacedAt(pieces, text, at) && cut <= at[0] + |pieces[0]|
    ensures cut <= |text|
    ensures PlacedAt(pieces[1..], text[cut..], seq(|at| - 1, k requires 0 <= k < |at| - 1 => at[k + 1] - cut))
  {
    assert OccursAt(text, pieces[0], at[0]);
    forall k | 1 <= k < |pieces| ensures cut <= at[k] && OccursAt(text[cut..], pieces[k], at[k] - cut) {
      PlacedInOrder(pieces, text, at, k);
      OccursInSuffix(text, cut, pieces[k], at[k]);
    }
    var later := seq(|at| - 1, k requires 0 <= k < |at| - 1 => at[k + 1] - cut);
    forall k | 0 < k < |pieces[1..]| ensures later[k - 1] + |pieces[1..][k - 1]| <= later[k] {
      assert at[k] + |pieces[k]| <= at[k + 1];
    }
  }

  lemma {:induction false} PlacedInOrder(pieces: seq<string>, text: string, at: seq<int>, k: nat)
    requires PlacedAt(pieces, text, at) && 1 <= k < |pieces|
    ensures at[0] + |pieces[0]| <= at[k]
  {
    if k > 1 {
      PlacedInOrder(pieces, text, at, k - 1);
      assert at[k - 1] + |pieces[k - 1]| <= at[k];
    }
  }

  /** Leftmost-first matching succeeds exactly when the pieces occur somewhere in order without overlap. */
  lemma GreedyIsComplete(pieces: seq<string>, text: string)
    ensures Greedy(pieces, text) <==> exists at :: PlacedAt(pieces, text, at)
  {
    if Greedy(pieces, text) {
      var at := GreedyIsPlaced(pieces, text);
    }
    if at :| PlacedAt(pieces, text, at) {
      PlacedIsGreedy(pieces, text, at);
    }
  }

  lemma GreedyInLonger(pieces: seq<string>, front: string, text: string, back: string)
    requires Greedy(pieces, text)
    ensures Greedy(pieces, front + text + back)
  {
    var at := GreedyIsPlaced(pieces, text);
    var moved := seq(|at|, k requires 0 <= k < |at| => |front| + at[k]);
    forall k | 0 <= k < |pieces| ensures OccursAt(front + text + back, pieces[k], moved[k]) {
      OccursBehind(front, text, pieces[k], at[k]);
      assert (front + text + back)[moved[k]..moved[k] + |pieces[k]|]
          == (front + text)[moved[k]..moved[k] + |pieces[k]|];
    }
    forall k | 0 < k < |pieces| ensures moved[k - 1] + |pieces[k - 1]| <= moved[k] {
      assert at[k - 1] + |pieces[k - 1]| <= at[k];
    }
    PlacedIsGreedy(pieces, front + text + back, moved);
  }

  /** Whatever matches a starred pattern still does inside a longer value. */
  lemma MatchesInLonger(pattern: string, front: string, value: string, back: string)
    requires '*' in Lower(Trim(pattern)) && Matches(pattern, value)
    ensures Matches(pattern, front + value + back)
  {
    GreedyInLonger(Pieces(Lower(Trim(pattern))), Lower(front), Lower(value), Lower(back));
    assert Lower(front + value + back) == Lower(front) + Lower(value) + Lower(back);
  }

  // ----- what a starred pattern means -----

  /** The whole of `text` matches, a star standing for any text. */
  predicate Glob(pattern: string, text: string)
    decreases |pattern|, |text|
  {
    if pattern == "" then text == ""
    else if pattern[0] == '*' then Glob(pattern[1..], text) || (text != "" && Glob(pattern, text[1..]))
    else text != "" && text[0] == pattern[0] && Glob(pattern[1..], text[1..])
  }

  /** Some stretch of `text` matches. */
  ghost predicate GlobWithin(pattern: string, text: string) {
    exists i: nat, j: nat :: i <= j <= |text| && Glob(pattern, text[i..j])
  }

  lemma {:induction false} GlobLiteral(literal: string, pattern: string, text: string)
    requires '*' !in literal
    ensures Glob(literal + pattern, text) <==> literal <= text && Glob(pattern, text[|literal|..])
  {
    if literal == "" {
      assert literal + pattern == pattern;
    } else {
      assert (literal + pattern)[1..] == literal[1..] + pattern;
      if |literal| <= |text| && text[0] == literal[0] {
        GlobLiteral(literal[1..], pattern, text[1..]);
        assert text[1..][|literal| - 1..] == text[|literal|..];
      } else if text != "" && text[0] == literal[0] {
        GlobLiteral(literal[1..], pattern, text[1..]);
      }
    }
  }

  lemma {:induction false} StarSkips(pattern: string, text: string, k: nat)
    requires k <= |text| && Glob(pattern, text[k..])
    ensures Glob("*" + pattern, text)
  {
    assert ("*" + pattern)[1..] == pattern;
    if k > 0 {
      assert text[1..][k - 1..] == text[k..];
      StarSkips(pattern, text[1..], k - 1);
    }
  }

  lemma {:induction false} StarSkipped(pattern: string, text: string) returns (k: nat)
    requires Glob("*" + pattern, text)
    ensures k <= |text| && Glob(pattern, text[k..])
  {
    assert ("*" + pattern)[1..] == pattern;
    k := 0;
    if !Glob(pattern, text) {
      k := StarSkipped(pattern, text[1..]);
      k := k + 1;
      assert text[1..][k - 1..] == text[k..];
    }
  }

  lemma PiecesStep(pattern: string)
    ensures var i := Find(pattern, '*');
            Pieces(pattern) == (if i == 0 then [] else [pattern[..i]])
                               + if i == |pattern| then [] else Pieces(pattern[i + 1..])
  {
    hide Find;
    var i := Find(pattern, '*');
    if i < |pattern| {
      var later := Pieces(pattern[i + 1..]);
      assert Pieces(pattern) == (if i == 0 then [] else [pattern[..i]]) + later;
    }
  }

  lemma {:induction false} GlobIsGreedy(pattern: string, text: string)
    requires Glob(pattern, text)
    ensures Greedy(Pieces(pattern), text)
    decreases |pattern|
  {
    hide Leftmost, Glob, Greedy, Pieces;
    var i := Find(pattern, '*');
    var literal, more := pattern[..i], pattern[i..];
    assert pattern == literal + more;
    GlobLiteral(literal, more, text);
    var left := text[i..];
    var later := if i == |pattern| then [] else Pieces(pattern[i + 1..]);
    PiecesStep(pattern);
    if i < |pattern| {
      assert more == "*" + pattern[i + 1..];
      var k := StarSkipped(pattern[i + 1..], left);
      GlobIsGreedy(pattern[i + 1..], left[k..]);
      GreedyInLonger(later, left[..k], left[k..], "");
      assert left[..k] + left[k..] + "" == left;
    } else {
      GreedyNothing(left);
    }
    if i > 0 {
      GreedyFirst(literal, later, text);
    } else {
      assert left == text && [] + later == later;
    }
  }

  lemma GreedyNothing(text: string)
    ensures Greedy([], text)
  {
  }

  lemma GreedyFirst(literal: string, later: seq<string>, text: string)
    requires literal <= text && Greedy(later, text[|literal|..])
    ensures Greedy([literal] + later, text)
  {
    hide Leftmost;
    assert OccursAt(text, literal, 0);
    FirstFound(text, literal);
    assert ([literal] + later)[1..] == later;
  }

  lemma FirstFound(text: string, piece: string)
    requires OccursAt(text, piece, 0)
    ensures Leftmost(text, piece) == Some(0)
  {
  }

  lemma {:induction false} GreedyIsGlob(pattern: string, text: string) returns (i: nat, j: nat)
    requires Greedy(Pieces(pattern), text)
    ensures i <= j <= |text| && Glob(pattern, text[i..j])
    decreases |pattern|
  {
    hide Leftmost, Glob, Greedy, Pieces;
    var n := Find(pattern, '*');
    var later := if n == |pattern| then [] else Pieces(pattern[n + 1..]);
    PiecesStep(pattern);
    i := 0;
    if n > 0 {
      i := FirstPlace(pattern[..n], later, text);
    } else {
      assert [] + later == later && text[0..] == text;
    }
    var cut := i + n;
    assert text[i..cut] == pattern[..n] && Greedy(later, text[cut..]);
    j := cut;
    if n == |pattern| {
      LiteralIsGlob(pattern);
      assert pattern[..n] == pattern;
    } else {
      var i', j' := GreedyIsGlob(pattern[n + 1..], text[cut..]);
      j := cut + j';
      assert text[cut..][..j'] == text[cut..j] && text[i..j] == pattern[..n] + text[cut..j];
      assert text[cut..][i'..j'] == text[cut..j][i'..];
      PutTogether(pattern, n, text[cut..j], i');
    }
  }

  lemma FirstPlace(literal: string, later: seq<string>, text: string) returns (i: nat)
    requires Greedy([literal] + later, text)
    ensures i + |literal| <= |text| && text[i..i + |literal|] == literal && Greedy(later, text[i + |literal|..])
  {
    hide Leftmost;
    i := Leftmost(text, literal).value;
    assert ([literal] + later)[1..] == later;
    assert OccursAt(text, literal, i);
  }

  lemma LiteralIsGlob(literal: string)
    requires '*' !in literal
    ensures Glob(literal, literal)
  {
    GlobLiteral(literal, "", literal);
    assert literal + "" == literal && literal[|literal|..] == "";
  }

  lemma PutTogether(pattern: string, n: nat, tail: string, skip: nat)
    requires n < |pattern| && pattern[n] == '*' && '*' !in pattern[..n]
    requires skip <= |tail| && Glob(pattern[n + 1..], tail[skip..])
    ensures Glob(pattern, pattern[..n] + tail)
  {
    StarSkips(pattern[n + 1..], tail, skip);
    assert pattern == pattern[..n] + ("*" + pattern[n + 1..]);
    assert (pattern[..n] + tail)[n..] == tail;
    GlobLiteral(pattern[..n], "*" + pattern[n + 1..], pattern[..n] + tail);
  }

  /** A starred pattern matches exactly the values some stretch of which it matches as a glob, cases aside. */
  lemma StarredMeansGlob(pattern: string, value: string)
    requires '*' in Lower(Trim(pattern))
    ensures Matches(pattern, value) <==> GlobWithin(Lower(Trim(pattern)), Lower(value))
  {
    hide Trim, Lower, Pieces, Greedy;
    var p, v := Lower(Trim(pattern)), Lower(value);
    if Greedy(Pieces(p), v) {
      var i, j := GreedyIsGlob(p, v);
    }
    if i: nat, j: nat :| i <= j <= |v| && Glob(p, v[i..j]) {
      GlobIsGreedy(p, v[i..j]);
      GreedyInLonger(Pieces(p), v[..i], v[i..j], v[j..]);
      assert v[..i] + v[i..j] + v[j..] == v;
    }
  }

  // ----- what a plain pattern means -----

  predicate AllAlphanumeric(s: string) {
    forall i :: 0 <= i < |s| ==> IsAlphanumeric(s[i])
  }

  predicate StandsAlone(value: string, word: string, i: int) {
    && OccursAt(value, word, i)
    && (i == 0 || !IsAlphanumeric(value[i - 1]))
    && (i + |word| == |value| || !IsAlphanumeric(value[i + |word|]))
  }

  lemma TokensStep(value: string)
    ensures var n := RunLength(value);
            Tokens(value) == [value[..n]] + if n == |value| then [] else Tokens(value[n + 1..])
  {
    hide RunLength, IsAlphanumeric;
  }

  /** What stands alone behind a separator stands alone in the whole. */
  lemma StandsBehind(value: string, cut: nat, word: string, i: int)
    requires cut < |value| && !IsAlphanumeric(value[cut]) && i > cut
    ensures StandsAlone(value[cut + 1..], word, i - cut - 1) <==> StandsAlone(value, word, i)
  {
    var later := value[cut + 1..];
    assert value == value[..cut + 1] + later;
    if OccursAt(later, word, i - cut - 1) {
      OccursBehind(value[..cut + 1], later, word, i - cut - 1);
    }
    if OccursAt(value, word, i) {
      OccursInSuffix(value, cut + 1, word, i);
    }
  }

  lemma StandsFirst(value: string)
    ensures StandsAlone(value, value[..RunLength(value)], 0) && AllAlphanumeric(value[..RunLength(value)])
  {
  }

  lemma {:induction false} TokenStandsAlone(value: string, word: string) returns (i: int)
    requires word in Tokens(value)
    ensures AllAlphanumeric(word) && StandsAlone(value, word, i) && i >= 0
    decreases |value|
  {
    hide Tokens, StandsAlone, AllAlphanumeric;
    var n := RunLength(value);
    TokensStep(value);
    StandsFirst(value);
    i := 0;
    if word != value[..n] {
      i := TokenStandsAlone(value[n + 1..], word);
      i := n + 1 + i;
      StandsBehind(value, n, word, i);
    }
  }

  lemma {:induction false} StandingWordIsToken(value: string, word: string, i: int)
    requires AllAlphanumeric(word) && StandsAlone(value, word, i)
    ensures word in Tokens(value)
    decreases |value|
  {
    hide Tokens, StandsAlone, AllAlphanumeric;
    var n := RunLength(value);
    TokensStep(value);
    if i <= n {
      FirstToken(value, word, i);
    } else {
      StandsWithin(value, word, i);
      StandsBehind(value, n, word, i);
      StandingWordIsToken(value[n + 1..], word, i - n - 1);
    }
  }

  lemma StandsWithin(value: string, word: string, i: int)
    requires StandsAlone(value, word, i)
    ensures 0 <= i <= |value|
  {
  }

  lemma FirstToken(value: string, word: string, i: int)
    requires StandsAlone(value, word, i) && AllAlphanumeric(word) && i <= RunLength(value)
    ensures word == value[..RunLength(value)]
  {
    assert i == 0;
    forall k | 0 <= k < |word| ensures IsAlphanumeric(value[k]) {
      assert value[0..|word|][k] == word[k];
    }
  }

  /** A pattern without stars matches exactly where it is letters and digits and stands alone in the value. */
  lemma PlainMeansWord(pattern: string, value: string)
    requires '*' !in Lower(Trim(pattern))
    ensures var word := Lower(Trim(pattern));
            Matches(pattern, value) <==> AllAlphanumeric(word) && exists i :: StandsAlone(Lower(value), word, i)
  {
    hide Tokens, StandsAlone, Lower, Trim, AllAlphanumeric;
    var word, v := Lower(Trim(pattern)), Lower(value);
    if word in Tokens(v) {
      var i := TokenStandsAlone(v, word);
    }
    if i :| AllAlphanumeric(word) && StandsAlone(v, word, i) {
      StandingWordIsToken(v, word, i);
    }
  }
}
