/** Characters, whitespace and printing shared by the other modules. */
module Text {
  import opened Wrappers

  /** Code point order, which is also the byte order of the UTF-8 encodings. */
  predicate Before(a: string, b: string) {
    if b == "" then false
    else if a == "" then true
    else a[0] < b[0] || (a[0] == b[0] && Before(a[1..], b[1..]))
  }

  lemma {:induction false} BeforeIsTotal(a: string, b: string)
    ensures a == b || Before(a, b) || Before(b, a)
    ensures !(Before(a, b) && Before(b, a)) && !Before(a, a)
  {
    if a != "" && b != "" {
      BeforeIsTotal(a[1..], b[1..]);
      if a[0] == b[0] && a[1..] == b[1..] {
        assert a == [a[0]] + a[1..] && b == [b[0]] + b[1..];
      }
    }
    if a != "" {
      BeforeIsTotal(a[1..], a[1..]);
    }
  }

  lemma {:induction false} BeforeIsTransitive(a: string, b: string, c: string)
    requires Before(a, b) && Before(b, c)
    ensures Before(a, c)
  {
    if a != "" && a[0] == b[0] == c[0] {
      BeforeIsTransitive(a[1..], b[1..], c[1..]);
    }
  }

  /** Texts of one length compare by their heads first. */
  lemma {:induction false} BeforeByHead(a: string, b: string, x: string, y: string)
    requires |a| == |b| && Before(a, b)
    ensures Before(a + x, b + y)
  {
    assert (a + x)[1..] == a[1..] + x && (b + y)[1..] == b[1..] + y;
    if a[0] == b[0] {
      BeforeByHead(a[1..], b[1..], x, y);
    }
  }

  lemma {:induction false} BeforeByTail(p: string, x: string, y: string)
    requires Before(x, y)
    ensures Before(p + x, p + y)
  {
    if p == "" {
      assert p + x == x && p + y == y;
    } else {
      assert (p + x)[1..] == p[1..] + x && (p + y)[1..] == p[1..] + y;
      BeforeByTail(p[1..], x, y);
    }
  }

  // ----- lengths -----

  /** Bytes a character takes in UTF-8. */
  function Width(c: char): nat {
    if c as int < 0x80 then 1 else if c as int < 0x800 then 2 else if c as int < 0x1_0000 then 3 else 4
  }

  function ByteLength(s: string): nat {
    if s == "" then 0 else Width(s[0]) + ByteLength(s[1..])
  }

  // ----- whitespace -----

  /** Unicode's White_Space property. */
  predicate IsWhitespace(c: char) {
    var n := c as int;
    9 <= n <= 13 || n == 0x20 || n == 0x85 || n == 0xA0 || n == 0x1680 || 0x2000 <= n <= 0x200A
    || n == 0x2028 || n == 0x2029 || n == 0x202F || n == 0x205F || n == 0x3000
  }

  predicate AllWhitespace(s: string) {
    forall i :: 0 <= i < |s| ==> IsWhitespace(s[i])
  }

  function TrimStart(s: string): string {
    if s != "" && IsWhitespace(s[0]) then TrimStart(s[1..]) else s
  }

  function TrimEnd(s: string): string {
    if s != "" && IsWhitespace(s[|s| - 1]) then TrimEnd(s[..|s| - 1]) else s
  }

  function Trim(s: string): string {
    TrimEnd(TrimStart(s))
  }

  predicate IsAlphabetic(c: char) {
    'a' <= c <= 'z' || 'A' <= c <= 'Z'
  }

  predicate IsDigit(c: char) {
    '0' <= c <= '9'
  }

  predicate IsAlphanumeric(c: char) {
    IsAlphabetic(c) || IsDigit(c)
  }

  // ----- searching and lower case -----

  /** The first position of `c`, or the length where it does not occur. */
  function Find(s: string, c: char): (i: nat)
    ensures i <= |s| && (i < |s| ==> s[i] == c) && c !in s[..i]
  {
    if s == "" || s[0] == c then 0 else
      var i := 1 + Find(s[1..], c);
      assert s[..i] == [s[0]] + s[1..][..i - 1];
      i
  }

  lemma {:induction false} FindAcross(s: string, more: string, c: char)
    ensures Find(s + more, c) == if Find(s, c) < |s| then Find(s, c) else |s| + Find(more, c)
  {
    if s == "" {
      assert s + more == more;
    } else if s[0] != c {
      assert (s + more)[1..] == s[1..] + more;
      FindAcross(s[1..], more, c);
    }
  }

  predicate OccursAt(text: string, piece: string, i: int) {
    0 <= i && i + |piece| <= |text| && text[i..i + |piece|] == piece
  }

  /** The character after the first. */
  function Peek(input: string): Option<char> {
    if |input| > 1 then Some(input[1]) else None
  }

  function LowerChar(c: char): char {
    if 'A' <= c <= 'Z' then (c as int + 32) as char else c
  }

  function Lower(s: string): string {
    seq(|s|, i requires 0 <= i < |s| => LowerChar(s[i]))
  }

  // ----- words -----

  function Word(s: string): (word: string)
    ensures |word| <= |s| && word == s[..|word|]
    ensures s != "" && !IsWhitespace(s[0]) ==> word != ""
  {
    if s == "" || IsWhitespace(s[0]) then "" else [s[0]] + Word(s[1..])
  }

  /** tokenize: the maximal runs of characters other than whitespace. */
  function Tokenize(line: string): seq<string>
    decreases |line|
  {
    if line == "" then []
    else if IsWhitespace(line[0]) then Tokenize(line[1..])
    else [Word(line)] + Tokenize(line[|Word(line)|..])
  }

  // ----- decimal numbers -----

  function Digit(n: nat): char
    requires n < 10
  {
    ('0' as int + n) as char
  }

  function Decimal(n: nat): string {
    if n < 10 then [Digit(n)] else Decimal(n / 10) + [Digit(n % 10)]
  }

  function Power10(width: nat): nat {
    if width == 0 then 1 else 10 * Power10(width - 1)
  }

  /** The last `width` decimal digits. */
  function Digits(n: nat, width: nat): (s: string)
    ensures |s| == width
  {
    if width == 0 then "" else Digits(n / 10, width - 1) + [Digit(n % 10)]
  }

  /** Zero-padded to `width`, longer when the number needs it. */
  function Padded(n: nat, width: nat): string {
    if n < Power10(width) then Digits(n, width) else Decimal(n)
  }

  lemma {:induction false} DigitsOrder(a: nat, b: nat, width: nat)
    requires a < b < Power10(width)
    ensures Before(Digits(a, width), Digits(b, width))
  {
    if a / 10 < b / 10 {
      DigitsOrder(a / 10, b / 10, width - 1);
      BeforeByHead(Digits(a / 10, width - 1), Digits(b / 10, width - 1), [Digit(a % 10)], [Digit(b % 10)]);
    } else {
      assert a % 10 < b % 10;
      BeforeByTail(Digits(a / 10, width - 1), [Digit(a % 10)], [Digit(b % 10)]);
    }
  }

  // ----- what the classes hold -----

  const SMALL := "abcdefghijklmnopqrstuvwxyz"
  const CAPITAL := "ABCDEFGHIJKLMNOPQRSTUVWXYZ"

  /** Letters and digits are those of ASCII. */
  lemma ClassesAreExact(c: char)
    ensures IsAlphabetic(c) <==> c in SMALL || c in CAPITAL
    ensures IsDigit(c) <==> c in "0123456789"
    ensures IsAlphanumeric(c) <==> c in SMALL || c in CAPITAL || c in "0123456789"
  {
    if c in SMALL {
      var i: nat :| i < |SMALL| && SMALL[i] == c;
    }
  }

  /** Capitals become the small letter of the same place in the alphabet; every other character stays. */
  lemma LowerIsExact(s: string, i: nat)
    requires i < |s|
    ensures |Lower(s)| == |s|
    ensures forall k :: 0 <= k < 26 && s[i] == CAPITAL[k] ==> Lower(s)[i] == SMALL[k]
    ensures s[i] !in CAPITAL ==> Lower(s)[i] == s[i]
  {
  }

  /** The characters Unicode gives the White_Space property. */
  lemma WhitespaceIsExact(c: char)
    ensures IsWhitespace(c) <==>
            c as int in {0x09, 0x0A, 0x0B, 0x0C, 0x0D, 0x20, 0x85, 0xA0, 0x1680, 0x2000, 0x2001, 0x2002, 0x2003, 0x2004,
                         0x2005, 0x2006, 0x2007, 0x2008, 0x2009, 0x200A, 0x2028, 0x2029, 0x202F, 0x205F, 0x3000}
  {
  }

  /** Trimming takes all the blank space at both ends, and nothing else. */
  lemma TrimIsExact(before: string, text: string, after: string)
    requires AllWhitespace(before) && AllWhitespace(after)
    requires text != "" ==> !IsWhitespace(text[0]) && !IsWhitespace(text[|text| - 1])
    ensures Trim(before + text + after) == text
    decreases |before| + |after|
  {
    var whole := before + text + after;
    if before != "" {
      assert whole[1..] == before[1..] + text + after;
      TrimIsExact(before[1..], text, after);
    } else if after != "" {
      assert whole == text + after;
      if text == "" {
        assert whole == after && after[1..] == after[1..] + "" + "";
        TrimIsExact(after[1..], "", "");
      } else {
        assert TrimStart(whole) == whole;
        assert whole[..|whole| - 1] == text + after[..|after| - 1];
        assert "" + text + after[..|after| - 1] == text + after[..|after| - 1];
        TrimIsExact("", text, after[..|after| - 1]);
      }
    } else {
      assert whole == text;
    }
  }
}
