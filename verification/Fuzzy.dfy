/** Completion fallbacks: subsequence scores, ranking and spelling correction. */
module Fuzzy {
  import opened Wrappers
  import opened EditDistance
  import opened Text

  // ----- subsequence_score, on lowercased texts -----

  /** Positions where the characters of `q` occur, in order, in `c`. */
  ghost predicate Embeds(at: seq<nat>, q: string, c: string) {
    && |at| == |q|
    && (forall k :: 0 <= k < |at| ==> at[k] < |c| && c[at[k]] == q[k])
    && (forall j, k :: 0 <= j < k < |at| ==> at[j] < at[k])
  }

  ghost predicate IsSubsequence(q: string, c: string) {
    exists at :: Embeds(at, q, c)
  }

  /** Where the first `i` characters of `c` match `q`, taking each character as early as possible. */
  function Matched(c: string, q: string, i: nat): (at: seq<nat>)
    requires i <= |c|
    ensures |at| <= |q|
  {
    if i == 0 then []
    else
      var prior := Matched(c, q, i - 1);
      if |prior| < |q| && c[i - 1] == q[|prior|] then prior + [i - 1] else prior
  }

  /** The matched positions embed the matched part of `q`. */
  lemma {:induction false} MatchedEmbeds(c: string, q: string, i: nat)
    requires i <= |c|
    ensures var at := Matched(c, q, i);
            Embeds(at, q[..|at|], c) && forall k :: 0 <= k < |at| ==> at[k] < i
  {
    if i > 0 {
      MatchedEmbeds(c, q, i - 1);
    }
  }

  /** How many matched characters directly follow the one before. */
  function Contiguous(at: seq<nat>): nat {
    if |at| < 2 then 0
    else Contiguous(at[..|at| - 1]) + (if at[|at| - 2] + 1 == at[|at| - 1] then 1 else 0)
  }

  predicate StartsWith(c: string, q: string) {
    q <= c
  }

  predicate Contains(c: string, q: string) {
    exists k :: 0 <= k <= |c| && OccursAt(c, q, k)
  }

  function Bonus(c: string, q: string): nat {
    if StartsWith(c, q) then 1000 else if Contains(c, q) then 500 else 0
  }

  function Score(c: string, q: string): Option<int> {
    var at := Matched(c, q, |c|);
    if |at| != |q| then None
    else Some(Bonus(c, q) + Contiguous(at) * 10 - (if at == [] then 0 else at[0]) - |c| / 4)
  }

  lemma NothingMatchedYet(c: string, q: string)
    ensures Matched(c, q, 0) == [] && Contiguous([]) == 0
  {
  }

  lemma MatchedStep(c: string, q: string, i: nat)
    requires i < |c|
    ensures var at := Matched(c, q, i);
            && |at| <= |q|
            && Matched(c, q, i + 1) == (if |at| < |q| && c[i] == q[|at|] then at + [i] else at)
  {
  }

  lemma ContiguousStep(at: seq<nat>, i: nat)
    ensures Contiguous(at + [i]) == Contiguous(at) + (if at != [] && at[|at| - 1] + 1 == i then 1 else 0)
  {
    assert (at + [i])[..|at|] == at;
  }

  /** The scan of subsequence_score: how many characters matched, where the first one did, and
      how many followed their predecessor directly. */
  method Scan(cand: string, q: string) returns (matched: nat, first: Option<nat>, contiguous: nat)
    ensures var at := Matched(cand, q, |cand|);
            matched == |at| && first == (if at == [] then None else Some(at[0])) && contiguous == Contiguous(at)
  {
    hide Matched, Contiguous;
    NothingMatchedYet(cand, q);
    var previous: Option<nat> := None;
    matched, first, contiguous := 0, None, 0;
    ghost var at: seq<nat> := [];
    for i := 0 to |cand|
      invariant at == Matched(cand, q, i) && |at| <= |q|
      invariant matched == |at| && contiguous == Contiguous(at)
      invariant first == if at == [] then None else Some(at[0])
      invariant previous == if at == [] then None else Some(at[|at| - 1])
    {
      MatchedStep(cand, q, i);
      if matched < |q| && cand[i] == q[matched] {
        ContiguousStep(at, i);
        if first.None? {
          first := Some(i);
        }
        if previous.Some? && previous.value + 1 == i {
          contiguous := contiguous + 1;
        }
        previous := Some(i);
        matched := matched + 1;
        at := at + [i];
      }
    }
  }

  /** subsequence_score; nothing typed yet scores zero against every candidate. */
  method SubsequenceScore(candidate: string, query: string, lower: Lowercase) returns (score: Option<int>)
    ensures score == if query == "" then Some(0) else Score(Lowered(candidate, lower), Lowered(query, lower))
  {
    hide Matched, Contiguous;
    if query == "" {
      return Some(0);
    }
    var cand, q := Lowered(candidate, lower), Lowered(query, lower);
    var qi, first, contiguous := Scan(cand, q);
    if qi != |q| {
      return None;
    }
    var total := 0;
    if StartsWith(cand, q) {
      total := total + 1000;
    } else if Contains(cand, q) {
      total := total + 500;
    }
    total := total + contiguous * 10;
    total := total - first.GetOr(0);
    total := total - |cand| / 4;
    return Some(total);
  }

  /** Matching as early as possible never falls behind any embedding. */
  lemma {:induction false} GreedyIsAhead(c: string, q: string, i: nat, at: seq<nat>, k: nat)
    requires i <= |c| && k <= |q| && Embeds(at, q[..k], c)
    requires forall j :: 0 <= j < k ==> at[j] < i
    ensures k <= |Matched(c, q, i)|
  {
    if k > 0 {
      var last := at[k - 1];
      var shorter := at[..k - 1];
      assert Embeds(shorter, q[..k - 1], c);
      GreedyIsAhead(c, q, last, shorter, k - 1);
      MatchedGrows(c, q, last + 1, i);
      assert c[last] == q[k - 1];
    }
  }

  lemma {:induction false} MatchedGrows(c: string, q: string, i: nat, j: nat)
    requires i <= j <= |c|
    ensures Matched(c, q, i) <= Matched(c, q, j)
  {
    hide Matched;
    if i < j {
      MatchedGrows(c, q, i, j - 1);
      MatchedStep(c, q, j - 1);
    }
  }

  /** A score exists exactly for the subsequences. */
  lemma ScoreMeansSubsequence(c: string, q: string)
    ensures Score(c, q).Some? <==> IsSubsequence(q, c)
  {
    var greedy := Matched(c, q, |c|);
    MatchedEmbeds(c, q, |c|);
    if |greedy| == |q| {
      assert q[..|q|] == q;
      assert Embeds(greedy, q, c);
    }
    if IsSubsequence(q, c) {
      var at :| Embeds(at, q, c);
      assert q[..|q|] == q;
      GreedyIsAhead(c, q, |c|, at, |q|);
    }
  }

  /** No embedding stands earlier anywhere than the greedy one. */
  lemma GreedyIsEarliest(c: string, q: string, at: seq<nat>)
    requires Embeds(at, q, c)
    ensures var greedy := Matched(c, q, |c|);
            Embeds(greedy, q, c) && forall k :: 0 <= k < |q| ==> greedy[k] <= at[k]
  {
    hide Matched;
    assert q[..|q|] == q;
    GreedyIsAhead(c, q, |c|, at, |q|);
    MatchedEmbeds(c, q, |c|);
    forall k | 0 <= k < |q| ensures Matched(c, q, |c|)[k] <= at[k] {
      NoLaterThan(c, q, at, k);
    }
  }

  lemma NoLaterThan(c: string, q: string, at: seq<nat>, k: nat)
    requires Embeds(at, q, c) && k < |q| && |Matched(c, q, |c|)| == |q|
    ensures Matched(c, q, |c|)[k] <= at[k]
  {
    PrefixEmbeds(c, q, at, k + 1);
    hide Matched, Embeds;
    AtGrows(c, q, at, k);
    GreedyIsAhead(c, q, at[k] + 1, at[..k + 1], k + 1);
    MatchedEmbeds(c, q, at[k] + 1);
    MatchedGrows(c, q, at[k] + 1, |c|);
    var early := Matched(c, q, at[k] + 1);
    assert early[k] < at[k] + 1;
  }

  lemma PrefixEmbeds(c: string, q: string, at: seq<nat>, n: nat)
    requires Embeds(at, q, c) && n <= |q|
    ensures |at| == |q| && Embeds(at[..n], q[..n], c)
  {
  }

  lemma AtGrows(c: string, q: string, at: seq<nat>, k: nat)
    requires Embeds(at, q, c) && k < |q|
    ensures |at| == |q| && at[k] < |c| && forall j :: 0 <= j <= k ==> at[j] < at[k] + 1
  {
  }

  /** The places where one matched character stands directly behind the one before. */
  function Adjacent(at: seq<nat>): set<nat> {
    set k | 0 < k < |at| && Adjoins(at, k)
  }

  predicate Adjoins(at: seq<nat>, k: nat)
    requires 0 < k < |at|
  {
    at[k] == at[k - 1] + 1
  }

  lemma {:induction false} AdjacentAreCounted(at: seq<nat>)
    ensures |Adjacent(at)| == Contiguous(at)
  {
    if |at| < 2 {
      assert Adjacent(at) == {};
    } else {
      var front, last := at[..|at| - 1], |at| - 1;
      AdjacentAreCounted(front);
      assert forall k :: 0 < k < last ==> Adjoins(front, k) == Adjoins(at, k);
      assert Adjacent(at) == Adjacent(front) + if at[last] == at[last - 1] + 1 then {last} else {};
    }
  }

  /** `at` is where a query stands earliest in a candidate. */
  ghost predicate IsEarliest(at: seq<nat>, q: string, c: string) {
    && Embeds(at, q, c)
    && forall other :: Embeds(other, q, c) ==> forall k :: 0 <= k < |at| ==> at[k] <= other[k]
  }

  /** The score: a thousand for a prefix, half of that for a text found elsewhere; ten for each adjacent pair of matched
      characters; less the place of the first one and a quarter of the candidate's length. */
  lemma ScoreIsExact(c: string, q: string, at: seq<nat>)
    requires IsEarliest(at, q, c)
    ensures Score(c, q)
            == Some((if q <= c then 1000 else if exists front, back :: c == front + q + back then 500 else 0)
                    + 10 * |Adjacent(at)| - (if q == "" then 0 else at[0]) - |c| / 4)
  {
    hide Matched, Contiguous, Adjacent, Contains, IsEarliest;
    EarliestIsGreedy(c, q, at);
    AdjacentAreCounted(at);
    FoundIsContained(c, q);
  }

  lemma EarliestIsGreedy(c: string, q: string, at: seq<nat>)
    requires IsEarliest(at, q, c)
    ensures Matched(c, q, |c|) == at && |at| == |q|
  {
    hide Matched;
    GreedyIsEarliest(c, q, at);
    var greedy := Matched(c, q, |c|);
    assert forall k :: 0 <= k < |q| ==> at[k] == greedy[k];
  }

  lemma FoundIsContained(c: string, q: string)
    ensures Contains(c, q) <==> exists front, back :: c == front + q + back
  {
    if Contains(c, q) {
      var k :| 0 <= k <= |c| && OccursAt(c, q, k);
      assert c == c[..k] + q + c[k + |q|..];
    }
    if front, back :| c == front + q + back {
      assert OccursAt(c, q, |front|);
    }
  }

  /** The positions 0, 1, 2, …: a match that runs from the start. */
  ghost predicate IsRun(at: seq<nat>) {
    forall k :: 0 <= k < |at| ==> at[k] == k
  }

  lemma EmptyRun()
    ensures IsRun([])
  {
  }

  lemma RunExtends(at: seq<nat>)
    requires IsRun(at)
    ensures IsRun(at + [|at|])
  {
  }

  lemma PrefixAt(c: string, q: string, k: nat)
    requires StartsWith(c, q) && k < |q|
    ensures k < |c| && c[k] == q[k]
  {
  }

  lemma {:induction false} PrefixMatched(c: string, q: string, i: nat)
    requires StartsWith(c, q) && i <= |c|
    ensures IsRun(Matched(c, q, i)) && |Matched(c, q, i)| == if i < |q| then i else |q|
  {
    hide Matched, IsRun, StartsWith;
    if i == 0 {
      NothingMatchedYet(c, q);
      EmptyRun();
    } else {
      PrefixMatched(c, q, i - 1);
      var at := Matched(c, q, i - 1);
      MatchedStep(c, q, i - 1);
      if i <= |q| {
        PrefixAt(c, q, i - 1);
        assert |at| == i - 1;
        RunExtends(at);
        assert Matched(c, q, i) == at + [|at|];
      }
    }
  }

  lemma {:induction false} ConsecutiveRun(at: seq<nat>)
    requires IsRun(at) && at != []
    ensures Contiguous(at) == |at| - 1
  {
    if |at| >= 2 {
      ConsecutiveRun(at[..|at| - 1]);
    }
  }

  lemma {:induction false} ContiguousBound(at: seq<nat>)
    ensures Contiguous(at) <= if at == [] then 0 else |at| - 1
    ensures at != [] && Contiguous(at) == |at| - 1 ==> forall k :: 0 <= k < |at| ==> at[k] == at[0] + k
  {
    if |at| >= 2 {
      ContiguousBound(at[..|at| - 1]);
    }
  }

  lemma PrefixScore(c: string, q: string)
    requires q != "" && q <= c
    ensures Score(c, q) == Some(1000 + 10 * (|q| - 1) - |c| / 4)
  {
    PrefixMatched(c, q, |c|);
    ConsecutiveRun(Matched(c, q, |c|));
    hide Matched, Contiguous;
  }

  lemma RunMatchesPrefix(c: string, q: string)
    requires |Matched(c, q, |c|)| == |q| && IsRun(Matched(c, q, |c|))
    ensures q <= c
  {
    var at := Matched(c, q, |c|);
    MatchedEmbeds(c, q, |c|);
    if q != "" {
      assert at[|q| - 1] < |c|;
    }
    forall k | 0 <= k < |q|
      ensures c[k] == q[k]
    {
      assert c[at[k]] == q[k];
    }
  }

  /** A match that is no prefix match embeds the query in a longer text. */
  lemma OtherIsLonger(c: string, q: string)
    requires !(q <= c) && Score(c, q).Some?
    ensures |c| > |q|
  {
    ScoreMeansSubsequence(c, q);
    var at :| Embeds(at, q, c);
    if |c| <= |q| {
      EmbedsFrom(at, q, c, |q|);
      forall k | 0 <= k < |q| ensures c[k] == q[k] {
        EmbedsFrom(at, q, c, k);
        EmbedsUpTo(at, q, c, k);
      }
      assert false;
    }
  }

  /** Positions that only grow reach at least as far as their count. */
  lemma {:induction false} EmbedsFrom(at: seq<nat>, q: string, c: string, k: nat)
    requires Embeds(at, q, c) && k <= |q|
    ensures k < |q| ==> at[k] >= k
    ensures k == |q| && q != "" ==> |c| >= |q|
  {
    if k > 0 {
      EmbedsFrom(at, q, c, k - 1);
    }
  }

  lemma {:induction false} EmbedsUpTo(at: seq<nat>, q: string, c: string, k: nat)
    requires Embeds(at, q, c) && k < |q|
    ensures at[k] + |q| <= |c| + k
    decreases |q| - k
  {
    if k + 1 < |q| {
      EmbedsUpTo(at, q, c, k + 1);
    }
  }

  lemma OtherScore(c: string, q: string)
    requires q != "" && !(q <= c) && Score(c, q).Some?
    ensures Score(c, q).value <= 499 + 10 * (|q| - 1) - (|q| + 1) / 4
  {
    OtherIsLonger(c, q);
    var at := Matched(c, q, |c|);
    ContiguousBound(at);
    if Contiguous(at) == |at| - 1 && at[0] == 0 {
      RunMatchesPrefix(c, q);
    }
  }

  /** The query behind a character it does not hold is matched from the second position on. */
  lemma {:induction false} InnerMatched(x: char, q: string, i: nat)
    requires x !in q && i <= |q|
    ensures Matched([x] + q, q, i + 1) == seq(i, k => k + 1)
  {
    hide Matched;
    var c := [x] + q;
    if i == 0 {
      NothingMatchedYet(c, q);
      MatchedStep(c, q, 0);
      assert q != "" ==> q[0] in q;
    } else {
      InnerMatched(x, q, i - 1);
      MatchedStep(c, q, i);
      assert seq(i - 1, k => k + 1) + [i] == seq(i, k => k + 1);
    }
  }

  lemma {:induction false} ShiftedRun(n: nat)
    requires n > 0
    ensures Contiguous(seq(n, k => k + 1)) == n - 1
  {
    if n > 1 {
      ShiftedRun(n - 1);
      ContiguousStep(seq(n - 1, k => k + 1), n);
      assert seq(n - 1, k => k + 1) + [n] == seq(n, k => k + 1);
    }
  }

  /** The best score without the prefix bonus. */
  lemma InnerScore(x: char, q: string)
    requires q != "" && x !in q
    ensures !(q <= [x] + q) && Score([x] + q, q) == Some(499 + 10 * (|q| - 1) - (|q| + 1) / 4)
  {
    hide Matched, Contiguous;
    var c := [x] + q;
    assert q[0] in q;
    InnerMatched(x, q, |q|);
    ShiftedRun(|q|);
    assert c[1..1 + |q|] == q;
    assert OccursAt(c, q, 1);
  }

  predicate Outranks(a: string, b: string, q: string) {
    Score(a, q).Some? && Score(b, q).Some? && Score(a, q).value > Score(b, q).value
  }

  /** A prefix match outranks every other match of the query exactly up to a length that grows with the query. */
  lemma PrefixBound(prefixed: string, q: string, x: char)
    requires q != "" && q <= prefixed && x !in q
    ensures (forall other :: !(q <= other) && Score(other, q).Some? ==> Outranks(prefixed, other, q))
            <==> |prefixed| / 4 <= 500 + (|q| + 1) / 4
  {
    hide Score;
    PrefixScore(prefixed, q);
    InnerScore(x, q);
    forall other | !(q <= other) && Score(other, q).Some?
      ensures Score(other, q).value <= 499 + 10 * (|q| - 1) - (|q| + 1) / 4
    {
      OtherScore(other, q);
    }
  }

  /** In particular any prefix match shorter than 2004 lowercased characters outranks every other match. */
  lemma PrefixOutranks(prefixed: string, other: string, q: string)
    requires q != "" && q <= prefixed && |prefixed| < 2004
    requires !(q <= other) && Score(other, q).Some?
    ensures Outranks(prefixed, other, q)
  {
    PrefixScore(prefixed, q);
    OtherScore(other, q);
  }

  /** At 2004 characters a one-letter query can tie. */
  lemma PrefixBoundIsExact(prefixed: string)
    requires "a" <= prefixed && |prefixed| == 2004
    ensures !("a" <= "ba") && Score("ba", "a") == Score(prefixed, "a") == Some(499)
  {
    PrefixScore(prefixed, "a");
    InnerScore('b', "a");
    assert ['b'] + "a" == "ba";
  }

  // ----- correction -----

  function Apart(a: string, b: string, lower: Lowercase): nat {
    var x, y := Lowered(a, lower), Lowered(b, lower);
    Distance(x, y, |x|, |y|)
  }

  predicate Eligible(query: string, c: string, maxDist: nat, lower: Lowercase) {
    1 <= Apart(query, c, lower) <= maxDist
  }

  /** Closer first, then shorter, then alphabetically earlier. */
  predicate Preferred(query: string, a: string, b: string, lower: Lowercase) {
    var da, db := Apart(query, a, lower), Apart(query, b, lower);
    da < db || (da == db && (ByteLength(a) < ByteLength(b) || (ByteLength(a) == ByteLength(b) && Before(a, b))))
  }

  ghost predicate IsCorrection(r: Option<string>, query: string, names: set<string>, maxDist: nat, lower: Lowercase) {
    match r
    case None => forall c :: c in names ==> !Eligible(query, c, maxDist, lower)
    case Some(best) =>
      best in names && Eligible(query, best, maxDist, lower)
      && forall c :: c in names && Eligible(query, c, maxDist, lower) && c != best ==> Preferred(query, best, c, lower)
  }

  /** A correction is one of the names, at least one edit away and at most as many as are allowed; any other such name
      is further away, or as far and longer, or as far, as long and later in the alphabet. */
  lemma CorrectionIsBest(best: string, c: string, query: string, names: set<string>, maxDist: nat, lower: Lowercase)
    requires IsCorrection(Some(best), query, names, maxDist, lower) && c in names && c != best
    requires 1 <= Apart(query, c, lower) <= maxDist
    ensures best in names && 1 <= Apart(query, best, lower) <= maxDist
    ensures var d, e := Apart(query, best, lower), Apart(query, c, lower);
            var m, n := ByteLength(best), ByteLength(c);
            d < e || (d == e && (m < n || (m == n && Before(best, c))))
  {
    hide Apart, ByteLength, Before;
  }

  lemma PreferredIsTotal(query: string, a: string, b: string, lower: Lowercase)
    ensures a == b || Preferred(query, a, b, lower) || Preferred(query, b, a, lower)
    ensures !(Preferred(query, a, b, lower) && Preferred(query, b, a, lower))
  {
    BeforeIsTotal(a, b);
  }

  lemma PreferredIsTransitive(query: string, a: string, b: string, c: string, lower: Lowercase)
    requires Preferred(query, a, b, lower) && Preferred(query, b, c, lower)
    ensures Preferred(query, a, c, lower)
  {
    hide Apart, ByteLength;
    if Before(a, b) && Before(b, c) {
      BeforeIsTransitive(a, b, c);
    }
  }

  function Names(candidates: seq<string>): set<string> {
    set c | c in candidates
  }

  /** One more candidate: keep the incumbent, or replace it with a preferred newcomer. */
  lemma CorrectionExtends(r: Option<string>, query: string, names: set<string>, c: string, maxDist: nat,
                          lower: Lowercase)
    requires IsCorrection(r, query, names, maxDist, lower)
    ensures var takes := Eligible(query, c, maxDist, lower) && (r.None? || Preferred(query, c, r.value, lower));
            IsCorrection(if takes then Some(c) else r, query, names + {c}, maxDist, lower)
  {
    hide Eligible, Preferred;
    if r.Some? {
      PreferredIsTotal(query, c, r.value, lower);
      if Preferred(query, c, r.value, lower) {
        forall x | x in names && Eligible(query, x, maxDist, lower) && x != r.value
          ensures Preferred(query, c, x, lower)
        {
          PreferredIsTransitive(query, c, r.value, x, lower);
        }
      }
    }
  }

  /** correction: one pass keeping the best candidate so far. */
  method Correction(query: string, candidates: seq<string>, maxDist: nat, lower: Lowercase)
    returns (best: Option<string>)
    ensures IsCorrection(best, query, Names(candidates), maxDist, lower)
  {
    hide IsCorrection, Names;
    best := None;
    var bestDistance := 0;
    NoNames(query, maxDist, lower);
    assert candidates[..0] == [];
    for i := 0 to |candidates|
      invariant IsCorrection(best, query, Names(candidates[..i]), maxDist, lower)
      invariant best.Some? ==> bestDistance == Apart(query, best.value, lower)
    {
      var cand := candidates[i];
      CorrectionExtends(best, query, Names(candidates[..i]), cand, maxDist, lower);
      NamesExtend(candidates, i);
      var d := EditDistance.EditDistance(query, cand, lower);
      if d == 0 || d > maxDist {
        continue;
      }
      var better := best.None?
        || d < bestDistance
        || (d == bestDistance
            && (ByteLength(cand) < ByteLength(best.value)
                || (ByteLength(cand) == ByteLength(best.value) && Before(cand, best.value))));
      if better {
        best, bestDistance := Some(cand), d;
      }
    }
    assert candidates[..|candidates|] == candidates;
  }

  lemma NoNames(query: string, maxDist: nat, lower: Lowercase)
    ensures IsCorrection(None, query, Names([]), maxDist, lower)
  {
  }

  lemma NamesExtend(candidates: seq<string>, i: nat)
    requires i < |candidates|
    ensures Names(candidates[..i + 1]) == Names(candidates[..i]) + {candidates[i]}
  {
    assert candidates[..i + 1] == candidates[..i] + [candidates[i]];
  }

  /** The correction depends on the set of names only, not on how they are enumerated. */
  lemma CorrectionIsUnique(query: string, names: set<string>, maxDist: nat, lower: Lowercase, a: Option<string>,
                            b: Option<string>)
    requires IsCorrection(a, query, names, maxDist, lower) && IsCorrection(b, query, names, maxDist, lower)
    ensures a == b
  {
    hide Eligible, Preferred;
    if a.Some? && b.Some? {
      PreferredIsTotal(query, a.value, b.value, lower);
    }
  }

  // ----- rank -----

  function QueryScore(c: string, query: string, lower: Lowercase): Option<int> {
    if query == "" then Some(0) else Score(Lowered(c, lower), Lowered(query, lower))
  }

  /** Best score first; ties alphabetically. `key` gives a name its score. */
  predicate Precedes(a: (int, string), b: (int, string)) {
    a.0 > b.0 || (a.0 == b.0 && !Before(b.1, a.1))
  }

  predicate Ranked(items: seq<(int, string)>) {
    forall i, j :: 0 <= i < j < |items| ==> Precedes(items[i], items[j])
  }

  /** In a ranked list scores never rise, and equal scores stand in alphabetical order. */
  lemma RankedMeans(items: seq<(int, string)>, i: nat, j: nat)
    requires Ranked(items) && i < j < |items|
    ensures items[i].0 >= items[j].0
    ensures items[i].0 == items[j].0 ==> items[i].1 == items[j].1 || Before(items[i].1, items[j].1)
  {
    BeforeIsTotal(items[i].1, items[j].1);
    assert Precedes(items[i], items[j]);
  }

  lemma PrecedesIsTotalOrder(a: (int, string), b: (int, string), c: (int, string))
    ensures Precedes(a, b) || Precedes(b, a)
    ensures Precedes(a, b) && Precedes(b, a) ==> a == b
    ensures Precedes(a, b) && Precedes(b, c) ==> Precedes(a, c)
  {
    BeforeIsTotal(a.1, b.1);
    BeforeIsTotal(b.1, c.1);
    BeforeIsTotal(a.1, c.1);
    if Before(c.1, a.1) && Before(a.1, b.1) {
      BeforeIsTransitive(c.1, a.1, b.1);
    }
  }

  /** The first item of a ranked list precedes every item. */
  lemma HeadPrecedes(items: seq<(int, string)>, x: (int, string))
    requires Ranked(items) && x in items
    ensures Precedes(items[0], x)
  {
    var i :| 0 <= i < |items| && items[i] == x;
    PrecedesIsTotalOrder(x, x, x);
  }

  lemma TailsAgree(a: seq<(int, string)>, b: seq<(int, string)>)
    requires a != [] && b != [] && a[0] == b[0] && multiset(a) == multiset(b)
    ensures multiset(a[1..]) == multiset(b[1..])
  {
    assert a == [a[0]] + a[1..] && b == [b[0]] + b[1..];
    assert multiset(a[1..]) == multiset(a) - multiset{a[0]};
    assert multiset(b[1..]) == multiset(b) - multiset{b[0]};
  }

  /** A ranked list is determined by its contents: equal multisets rank equally. */
  lemma {:induction false} RankingIsUnique(a: seq<(int, string)>, b: seq<(int, string)>)
    requires Ranked(a) && Ranked(b) && multiset(a) == multiset(b)
    ensures a == b
    decreases |a|
  {
    hide Precedes;
    assert |a| == |multiset(a)| == |multiset(b)| == |b|;
    if a != [] {
      assert a[0] in multiset(b) && b[0] in multiset(a);
      HeadPrecedes(a, b[0]);
      HeadPrecedes(b, a[0]);
      PrecedesIsTotalOrder(a[0], b[0], b[0]);
      TailsAgree(a, b);
      RankingIsUnique(a[1..], b[1..]);
      assert a == [a[0]] + a[1..] && b == [b[0]] + b[1..];
    }
  }

  /** The matching items with their scores, in input order. */
  function Scored(items: seq<string>, query: string, lower: Lowercase): seq<(int, string)> {
    if items == [] then []
    else
      (match QueryScore(items[0], query, lower)
       case None => []
       case Some(score) => [(score, items[0])])
      + Scored(items[1..], query, lower)
  }

  function Second(items: seq<(int, string)>): seq<string> {
    seq(|items|, i requires 0 <= i < |items| => items[i].1)
  }

  /** Insert one item into a ranked list, before the first item it precedes. */
  method InsertRanked(items: seq<(int, string)>, x: (int, string)) returns (r: seq<(int, string)>)
    requires Ranked(items)
    ensures Ranked(r) && multiset(r) == multiset(items) + multiset{x}
  {
    hide Precedes;
    var i := 0;
    while i < |items| && Precedes(items[i], x)
      invariant i <= |items|
      invariant forall k :: 0 <= k < i ==> Precedes(items[k], x)
    {
      i := i + 1;
    }
    r := items[..i] + [x] + items[i..];
    assert items == items[..i] + items[i..];
    forall k | i <= k < |items|
      ensures Precedes(x, items[k])
    {
      PrecedesIsTotalOrder(x, items[i], items[k]);
    }
  }

  /** rank: score every item, keep the matches, sort them in place best first. */
  method Rank(items: seq<string>, query: string, lower: Lowercase) returns (names: seq<string>)
    ensures exists ranked :: Ranked(ranked) && multiset(ranked) == multiset(Scored(items, query, lower))
                            && names == Second(ranked)
  {
    hide Ranked, QueryScore, Scored;
    var ranked: seq<(int, string)> := [];
    NothingScored(items, query, lower);
    for i := 0 to |items|
      invariant Ranked(ranked)
      invariant multiset(ranked) + multiset(Scored(items[i..], query, lower)) == multiset(Scored(items, query, lower))
    {
      ScoredStep(items, i, query, lower);
      var score := QueryScore(items[i], query, lower);
      if score.Some? {
        ranked := InsertRanked(ranked, (score.value, items[i]));
      }
    }
    names := Second(ranked);
  }

  lemma NothingScored(items: seq<string>, query: string, lower: Lowercase)
    ensures Ranked([]) && Scored(items[|items|..], query, lower) == [] && items[0..] == items
  {
  }

  lemma ScoredStep(items: seq<string>, i: nat, query: string, lower: Lowercase)
    requires i < |items|
    ensures multiset(Scored(items[i..], query, lower)) ==
            (match QueryScore(items[i], query, lower)
             case None => multiset{}
             case Some(score) => multiset{(score, items[i])})
            + multiset(Scored(items[i + 1..], query, lower))
  {
    hide QueryScore;
    assert items[i..][1..] == items[i + 1..];
  }

  lemma ScoredFirst(x: string, more: seq<string>, query: string, lower: Lowercase)
    ensures Scored([x] + more, query, lower) == Scored([x], query, lower) + Scored(more, query, lower)
  {
    hide QueryScore;
    assert ([x] + more)[1..] == more && [x][1..] == [];
  }

  lemma ScoredNothing(query: string, lower: Lowercase)
    ensures Scored([], query, lower) == []
  {
  }

  lemma {:induction false} ScoredConcat(a: seq<string>, b: seq<string>, query: string, lower: Lowercase)
    ensures Scored(a + b, query, lower) == Scored(a, query, lower) + Scored(b, query, lower)
  {
    hide Scored;
    if a == [] {
      ScoredNothing(query, lower);
      assert a + b == b;
    } else {
      ScoredConcat(a[1..], b, query, lower);
      ScoredFirst(a[0], a[1..], query, lower);
      ScoredFirst(a[0], a[1..] + b, query, lower);
      assert [a[0]] + a[1..] == a && [a[0]] + (a[1..] + b) == a + b;
    }
  }

  /** Taking one item out takes its score out. */
  lemma ScoredWithout(b: seq<string>, i: nat, query: string, lower: Lowercase)
    requires i < |b|
    ensures multiset(b[..i] + b[i + 1..]) == multiset(b) - multiset{b[i]}
    ensures multiset(Scored(b, query, lower))
            == multiset(Scored([b[i]], query, lower)) + multiset(Scored(b[..i] + b[i + 1..], query, lower))
  {
    hide Scored;
    assert b == b[..i] + ([b[i]] + b[i + 1..]);
    ScoredConcat(b[..i], [b[i]] + b[i + 1..], query, lower);
    ScoredConcat([b[i]], b[i + 1..], query, lower);
    ScoredConcat(b[..i], b[i + 1..], query, lower);
  }

  /** Reordering the input reorders the scored items and nothing else. */
  lemma {:induction false} ScoredPermutes(a: seq<string>, b: seq<string>, query: string, lower: Lowercase)
    requires multiset(a) == multiset(b)
    ensures multiset(Scored(a, query, lower)) == multiset(Scored(b, query, lower))
    decreases |a|
  {
    hide Scored;
    assert |a| == |multiset(a)| == |multiset(b)| == |b|;
    if a != [] {
      assert a[0] in multiset(b);
      var i :| 0 <= i < |b| && b[i] == a[0];
      ScoredWithout(a, 0, query, lower);
      ScoredWithout(b, i, query, lower);
      ScoredPermutes(a[..0] + a[1..], b[..i] + b[i + 1..], query, lower);
    }
  }

  /** rank does not depend on the order of its input. */
  lemma RankIgnoresOrder(a: seq<string>, b: seq<string>, query: string, lower: Lowercase,
                         x: seq<(int, string)>, y: seq<(int, string)>)
    requires multiset(a) == multiset(b)
    requires Ranked(x) && multiset(x) == multiset(Scored(a, query, lower))
    requires Ranked(y) && multiset(y) == multiset(Scored(b, query, lower))
    ensures Second(x) == Second(y)
  {
    ScoredPermutes(a, b, query, lower);
    RankingIsUnique(x, y);
  }
}
