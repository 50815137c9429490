/** Optimal string alignment: the table edit_distance fills, against the cheapest way of
    turning one text into the other. */
module EditDistance {
  import opened Wrappers

  /** A lowercase map yields one or more characters for each one. */
  type Lowercase = char -> seq<char>

  function Lowered(s: string, lower: Lowercase): string {
    if s == "" then "" else lower(s[0]) + Lowered(s[1..], lower)
  }

  /** Lowercasing goes character by character. */
  lemma {:induction false} LoweredBoth(a: string, b: string, lower: Lowercase)
    ensures Lowered(a + b, lower) == Lowered(a, lower) + Lowered(b, lower)
    ensures |a| == 1 ==> Lowered(a, lower) == lower(a[0])
  {
    if a == "" {
      assert a + b == b;
    } else {
      assert (a + b)[1..] == a[1..] + b;
      LoweredBoth(a[1..], b, lower);
    }
  }

  // ----- what a distance is -----

  /** One edit at the end of both texts; a swapped pair is not edited again. */
  datatype Edit = Keep | Substitute | Insert | Delete | Swap

  /** `script` turns the first `i` characters of `a` into the first `j` of `b`. */
  predicate Aligns(script: seq<Edit>, a: string, b: string, i: nat, j: nat)
    requires i <= |a| && j <= |b|
  {
    if script == [] then i == 0 && j == 0
    else
      var rest := script[..|script| - 1];
      match script[|script| - 1]
      case Keep => i > 0 && j > 0 && a[i - 1] == b[j - 1] && Aligns(rest, a, b, i - 1, j - 1)
      case Substitute => i > 0 && j > 0 && Aligns(rest, a, b, i - 1, j - 1)
      case Insert => j > 0 && Aligns(rest, a, b, i, j - 1)
      case Delete => i > 0 && Aligns(rest, a, b, i - 1, j)
      case Swap =>
        i > 1 && j > 1 && a[i - 1] == b[j - 2] && a[i - 2] == b[j - 1] && Aligns(rest, a, b, i - 2, j - 2)
  }

  function Cost(script: seq<Edit>): nat {
    if script == [] then 0
    else Cost(script[..|script| - 1]) + (if script[|script| - 1].Keep? then 0 else 1)
  }

  // ----- the recurrence -----

  predicate Swapped(a: string, b: string, i: nat, j: nat)
    requires i <= |a| && j <= |b|
  {
    i > 1 && j > 1 && a[i - 1] == b[j - 2] && a[i - 2] == b[j - 1]
  }

  /** An inner entry from the entries above, to the left, diagonally back and two diagonals back. */
  function Entry(a: string, b: string, i: nat, j: nat, up: nat, left: nat, diagonal: nat, twoBack: nat): nat
    requires 0 < i <= |a| && 0 < j <= |b|
  {
    var cost := if a[i - 1] != b[j - 1] then 1 else 0;
    var v := Min(Min(up + 1, left + 1), diagonal + cost);
    if Swapped(a, b, i, j) then Min(v, twoBack + 1) else v
  }

  /** The entry of row `i`, column `j`. */
  function Distance(a: string, b: string, i: nat, j: nat): nat
    requires i <= |a| && j <= |b|
  {
    if i == 0 then j
    else if j == 0 then i
    else Entry(a, b, i, j, Distance(a, b, i - 1, j), Distance(a, b, i, j - 1), Distance(a, b, i - 1, j - 1),
               if i > 1 && j > 1 then Distance(a, b, i - 2, j - 2) else 0)
  }

  lemma DistanceUnfolds(a: string, b: string, i: nat, j: nat)
    requires i <= |a| && j <= |b|
    ensures i == 0 ==> Distance(a, b, i, j) == j
    ensures j == 0 ==> Distance(a, b, i, j) == i
    ensures i > 0 && j > 0 ==>
              Distance(a, b, i, j)
              == Entry(a, b, i, j, Distance(a, b, i - 1, j), Distance(a, b, i, j - 1), Distance(a, b, i - 1, j - 1),
                       if i > 1 && j > 1 then Distance(a, b, i - 2, j - 2) else 0)
  {
  }

  /** Row `x` holds the distances up to but not including column `y`. */
  ghost predicate RowFilled(d: array2<nat>, a: string, b: string, x: nat, y: nat)
    requires d.Length0 == |a| + 1 && d.Length1 == |b| + 1 && x <= |a| && y <= |b| + 1
    reads d
  {
    forall k :: 0 <= k < y ==> d[x, k] == Distance(a, b, x, k)
  }

  /** The first `rows` rows hold the distances. */
  ghost predicate TableFilled(d: array2<nat>, a: string, b: string, rows: nat)
    requires d.Length0 == |a| + 1 && d.Length1 == |b| + 1 && rows <= |a| + 1
    reads d
  {
    forall x, k :: 0 <= x < rows && 0 <= k <= |b| ==> d[x, k] == Distance(a, b, x, k)
  }

  /** The loop body: the entry at `i`, `j` from the part of the table already filled. */
  method NextEntry(d: array2<nat>, a: string, b: string, i: nat, j: nat) returns (v: nat)
    requires 0 < i <= |a| && 0 < j <= |b| && d.Length0 == |a| + 1 && d.Length1 == |b| + 1
    ensures v == Entry(a, b, i, j, d[i - 1, j], d[i, j - 1], d[i - 1, j - 1],
                       if i > 1 && j > 1 then d[i - 2, j - 2] else 0)
  {
    var cost := if a[i - 1] != b[j - 1] then 1 else 0;
    v := Min(Min(d[i - 1, j] + 1, d[i, j - 1] + 1), d[i - 1, j - 1] + cost);
    if i > 1 && j > 1 && a[i - 1] == b[j - 2] && a[i - 2] == b[j - 1] {
      v := Min(v, d[i - 2, j - 2] + 1);
    }
  }

  method FillRow(d: array2<nat>, a: string, b: string, i: nat)
    requires d.Length0 == |a| + 1 && d.Length1 == |b| + 1 && 0 < i <= |a| && d[i, 0] == i
    requires TableFilled(d, a, b, i)
    modifies d
    ensures TableFilled(d, a, b, i + 1)
    ensures forall x, y :: 0 <= x <= |a| && 0 <= y <= |b| && x != i ==> d[x, y] == old(d[x, y])
  {
    hide Entry, Distance;
    DistanceUnfolds(a, b, i, 0);
    for j := 1 to |b| + 1
      invariant forall x, y :: 0 <= x <= |a| && 0 <= y <= |b| && x != i ==> d[x, y] == old(d[x, y])
      invariant RowFilled(d, a, b, i, j)
    {
      var v := NextEntry(d, a, b, i, j);
      assert v == Distance(a, b, i, j) by {
        DistanceUnfolds(a, b, i, j);
      }
      d[i, j] := v;
    }
  }

  /** edit_distance on the lowercased texts: fill the table row by row. */
  method FillTable(a: string, b: string) returns (distance: nat)
    ensures distance == Distance(a, b, |a|, |b|)
  {
    hide Entry, Distance;
    var n, m := |a|, |b|;
    DistanceUnfolds(a, b, n, m);
    if n == 0 {
      return m;
    }
    if m == 0 {
      return n;
    }
    var d := new nat[n + 1, m + 1];
    for i := 0 to n + 1
      invariant forall x :: 0 <= x < i ==> d[x, 0] == x
    {
      d[i, 0] := i;
    }
    for j := 0 to m + 1
      invariant forall x :: 0 <= x <= n ==> d[x, 0] == x
      invariant forall y :: 0 <= y < j ==> d[0, y] == y
    {
      d[0, j] := j;
    }
    assert TableFilled(d, a, b, 1) by {
      forall k | 0 <= k <= m
        ensures d[0, k] == Distance(a, b, 0, k)
      {
        DistanceUnfolds(a, b, 0, k);
      }
    }
    for i := 1 to n + 1
      invariant forall x :: i <= x <= n ==> d[x, 0] == x
      invariant TableFilled(d, a, b, i)
    {
      FillRow(d, a, b, i);
    }
    return d[n, m];
  }

  /** edit_distance */
  method EditDistance(a: string, b: string, lower: Lowercase) returns (distance: nat)
    ensures var x, y := Lowered(a, lower), Lowered(b, lower); distance == Distance(x, y, |x|, |y|)
  {
    distance := FillTable(Lowered(a, lower), Lowered(b, lower));
  }

  /** An entry is the least of its ways in, and one of them reaches it. */
  lemma EntryIsLeast(a: string, b: string, i: nat, j: nat, up: nat, left: nat, diagonal: nat, twoBack: nat)
    requires 0 < i <= |a| && 0 < j <= |b|
    ensures var e := Entry(a, b, i, j, up, left, diagonal, twoBack);
            var cost := if a[i - 1] != b[j - 1] then 1 else 0;
            && e <= up + 1 && e <= left + 1 && e <= diagonal + cost && (Swapped(a, b, i, j) ==> e <= twoBack + 1)
            && (e == up + 1 || e == left + 1 || e == diagonal + cost || (Swapped(a, b, i, j) && e == twoBack + 1))
  {
  }

  lemma DistanceIsLeast(a: string, b: string, i: nat, j: nat)
    requires 0 < i <= |a| && 0 < j <= |b|
    ensures var e := Distance(a, b, i, j);
            var cost := if a[i - 1] != b[j - 1] then 1 else 0;
            && e <= Distance(a, b, i - 1, j) + 1
            && e <= Distance(a, b, i, j - 1) + 1
            && e <= Distance(a, b, i - 1, j - 1) + cost
            && (Swapped(a, b, i, j) ==> e <= Distance(a, b, i - 2, j - 2) + 1)
            && (   e == Distance(a, b, i - 1, j) + 1
                || e == Distance(a, b, i, j - 1) + 1
                || e == Distance(a, b, i - 1, j - 1) + cost
                || (Swapped(a, b, i, j) && e == Distance(a, b, i - 2, j - 2) + 1))
  {
    hide Entry;
    EntryIsLeast(a, b, i, j, Distance(a, b, i - 1, j), Distance(a, b, i, j - 1), Distance(a, b, i - 1, j - 1),
      if i > 1 && j > 1 then Distance(a, b, i - 2, j - 2) else 0);
  }

  // ----- the table is optimal -----

  /** No alignment costs less than the table says. */
  lemma {:induction false} NoCheaperScript(script: seq<Edit>, a: string, b: string, i: nat, j: nat)
    requires i <= |a| && j <= |b| && Aligns(script, a, b, i, j)
    ensures Distance(a, b, i, j) <= Cost(script)
  {
    hide Entry;
    if script != [] {
      if i > 0 && j > 0 {
        DistanceIsLeast(a, b, i, j);
      }
      var rest := script[..|script| - 1];
      match script[|script| - 1]
      case Keep => NoCheaperScript(rest, a, b, i - 1, j - 1);
      case Substitute => NoCheaperScript(rest, a, b, i - 1, j - 1);
      case Insert => NoCheaperScript(rest, a, b, i, j - 1);
      case Delete => NoCheaperScript(rest, a, b, i - 1, j);
      case Swap => NoCheaperScript(rest, a, b, i - 2, j - 2);
    }
  }

  /** Some alignment costs exactly what the table says. */
  lemma {:induction false} BestScript(a: string, b: string, i: nat, j: nat) returns (script: seq<Edit>)
    requires i <= |a| && j <= |b|
    ensures Aligns(script, a, b, i, j) && Cost(script) == Distance(a, b, i, j)
  {
    hide Aligns, Cost, Distance, Entry;
    DistanceUnfolds(a, b, i, j);
    var last;
    if i == 0 && j == 0 {
      NoEdits(a, b);
      return [];
    } else if i == 0 {
      DistanceUnfolds(a, b, i, j - 1);
      script := BestScript(a, b, i, j - 1);
      last := Insert;
    } else if j == 0 {
      DistanceUnfolds(a, b, i - 1, j);
      script := BestScript(a, b, i - 1, j);
      last := Delete;
    } else {
      DistanceIsLeast(a, b, i, j);
      var d := Distance(a, b, i, j);
      if d == Distance(a, b, i - 1, j) + 1 {
        script := BestScript(a, b, i - 1, j);
        last := Delete;
      } else if d == Distance(a, b, i, j - 1) + 1 {
        script := BestScript(a, b, i, j - 1);
        last := Insert;
      } else if d == Distance(a, b, i - 1, j - 1) + (if a[i - 1] != b[j - 1] then 1 else 0) {
        script := BestScript(a, b, i - 1, j - 1);
        last := if a[i - 1] == b[j - 1] then Keep else Substitute;
      } else {
        script := BestScript(a, b, i - 2, j - 2);
        last := Swap;
      }
    }
    OneMoreEdit(script, last, a, b, i, j);
    script := script + [last];
  }

  lemma OneMoreEdit(script: seq<Edit>, last: Edit, a: string, b: string, i: nat, j: nat)
    requires i <= |a| && j <= |b|
    ensures Cost(script + [last]) == Cost(script) + if last.Keep? then 0 else 1
    ensures Aligns(script + [last], a, b, i, j) ==
            match last
            case Keep => i > 0 && j > 0 && a[i - 1] == b[j - 1] && Aligns(script, a, b, i - 1, j - 1)
            case Substitute => i > 0 && j > 0 && Aligns(script, a, b, i - 1, j - 1)
            case Insert => j > 0 && Aligns(script, a, b, i, j - 1)
            case Delete => i > 0 && Aligns(script, a, b, i - 1, j)
            case Swap => Swapped(a, b, i, j) && Aligns(script, a, b, i - 2, j - 2)
  {
    assert (script + [last])[..|script|] == script;
  }

  lemma NoEdits(a: string, b: string)
    ensures Aligns([], a, b, 0, 0) && Cost([]) == 0 && Distance(a, b, 0, 0) == 0
  {
  }

  ghost predicate IsLeastCost(d: nat, a: string, b: string) {
    && (exists script :: Aligns(script, a, b, |a|, |b|) && Cost(script) == d)
    && (forall script :: Aligns(script, a, b, |a|, |b|) ==> d <= Cost(script))
  }

  /** The table computes the least cost over all alignments. */
  lemma TableIsOptimal(a: string, b: string)
    ensures IsLeastCost(Distance(a, b, |a|, |b|), a, b)
  {
    var best := BestScript(a, b, |a|, |b|);
    forall script | Aligns(script, a, b, |a|, |b|)
      ensures Distance(a, b, |a|, |b|) <= Cost(script)
    {
      NoCheaperScript(script, a, b, |a|, |b|);
    }
  }

  // ----- what callers rely on -----

  lemma EntryIsSymmetric(a: string, b: string, i: nat, j: nat, up: nat, left: nat, diagonal: nat, twoBack: nat)
    requires 0 < i <= |a| && 0 < j <= |b|
    ensures Entry(a, b, i, j, up, left, diagonal, twoBack) == Entry(b, a, j, i, left, up, diagonal, twoBack)
  {
  }

  lemma {:induction false} Symmetric(a: string, b: string, i: nat, j: nat)
    requires i <= |a| && j <= |b|
    ensures Distance(a, b, i, j) == Distance(b, a, j, i)
  {
    if i > 0 && j > 0 {
      Symmetric(a, b, i - 1, j);
      Symmetric(a, b, i, j - 1);
      Symmetric(a, b, i - 1, j - 1);
      if i > 1 && j > 1 {
        Symmetric(a, b, i - 2, j - 2);
      }
      EntryIsSymmetric(a, b, i, j, Distance(a, b, i - 1, j), Distance(a, b, i, j - 1), Distance(a, b, i - 1, j - 1),
        if i > 1 && j > 1 then Distance(a, b, i - 2, j - 2) else 0);
      hide Entry;
    }
  }

  lemma {:induction false} ZeroMeansEqual(a: string, b: string, i: nat, j: nat)
    requires i <= |a| && j <= |b|
    ensures Distance(a, b, i, j) == 0 <==> a[..i] == b[..j]
  {
    hide Distance;
    DistanceUnfolds(a, b, i, j);
    if i > 0 && j > 0 {
      ZeroMeansEqual(a, b, i - 1, j - 1);
      DistanceIsLeast(a, b, i, j);
      assert a[..i] == a[..i - 1] + [a[i - 1]] && b[..j] == b[..j - 1] + [b[j - 1]];
      if a[..i] == b[..j] {
        assert a[..i - 1] == a[..i][..i - 1] == b[..j][..i - 1] == b[..j - 1];
        assert a[i - 1] == a[..i][i - 1] == b[..j][i - 1];
      }
    }
  }

  lemma {:induction false} Bounded(a: string, b: string, i: nat, j: nat)
    requires i <= |a| && j <= |b|
    ensures i - j <= Distance(a, b, i, j) && j - i <= Distance(a, b, i, j)
    ensures Distance(a, b, i, j) <= if i < j then j else i
  {
    hide Distance, Entry;
    DistanceUnfolds(a, b, i, j);
    if i > 0 && j > 0 {
      Bounded(a, b, i - 1, j);
      Bounded(a, b, i, j - 1);
      Bounded(a, b, i - 1, j - 1);
      if i > 1 && j > 1 {
        Bounded(a, b, i - 2, j - 2);
      }
      DistanceIsLeast(a, b, i, j);
    }
  }

  /** The distance of two words: symmetric, zero exactly when they are equal up to case, and
      between the difference of their lengths and the longer length. */
  lemma DistanceOfWords(a: string, b: string, lower: Lowercase)
    ensures var x, y := Lowered(a, lower), Lowered(b, lower);
            var d := Distance(x, y, |x|, |y|);
            && d == Distance(y, x, |y|, |x|)
            && (d == 0 <==> x == y)
            && |x| - |y| <= d && |y| - |x| <= d && d <= (if |x| < |y| then |y| else |x|)
  {
    var x, y := Lowered(a, lower), Lowered(b, lower);
    Symmetric(x, y, |x|, |y|);
    ZeroMeansEqual(x, y, |x|, |y|);
    Bounded(x, y, |x|, |y|);
    assert x[..|x|] == x && y[..|y|] == y;
  }

  /** One adjacent transposition is one edit: no alignment without Swap does as well. */
  lemma {:induction false} SwapIsOneEdit(a: string, b: string, i: nat)
    requires 2 <= i <= |a| && i <= |b|
    requires a[..i - 2] == b[..i - 2] && a[i - 1] == b[i - 2] && a[i - 2] == b[i - 1] && a[i - 1] != a[i - 2]
    ensures Distance(a, b, i, i) == 1
  {
    ZeroMeansEqual(a, b, i - 2, i - 2);
    ZeroMeansEqual(a, b, i, i);
    DistanceIsLeast(a, b, i, i);
    hide Distance;
    assert a[..i][i - 1] != b[..i][i - 1];
  }
}
