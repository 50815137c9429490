/** The shapes of a line that decide it before any command name is looked up. */
module RouteShapes {
  import opened Wrappers
  import opened Text
  import opened Segments
  import opened Router

  // ----- words -----

  lemma {:induction false} WordOf(word: string, rest: string)
    requires forall i :: 0 <= i < |word| ==> !IsWhitespace(word[i])
    requires rest != "" ==> IsWhitespace(rest[0])
    ensures Word(word + rest) == word
  {
    if word == "" {
      assert word + rest == rest;
    } else {
      assert (word + rest)[1..] == word[1..] + rest;
      WordOf(word[1..], rest);
    }
  }

  lemma {:induction false} BlankHasNoWords(blank: string)
    requires AllWhitespace(blank)
    ensures Tokenize(blank) == []
  {
    if blank != "" {
      BlankHasNoWords(blank[1..]);
    }
  }

  /** Blank space in front of a text makes no difference to its words. */
  lemma {:induction false} WordsBehindBlank(blank: string, text: string)
    requires AllWhitespace(blank)
    ensures Tokenize(blank + text) == Tokenize(text)
  {
    if blank == "" {
      assert blank + text == text;
    } else {
      assert (blank + text)[1..] == blank[1..] + text;
      WordsBehindBlank(blank[1..], text);
    }
  }

  /** A word in front of blank space, or alone, is the first word. */
  lemma WordFirst(word: string, rest: string)
    requires word != "" && forall i :: 0 <= i < |word| ==> !IsWhitespace(word[i])
    requires rest != "" ==> IsWhitespace(rest[0])
    ensures Tokenize(word + rest) == [word] + Tokenize(rest)
  {
    WordOf(word, rest);
    assert (word + rest)[|word|..] == rest;
  }

  // ----- heads -----

  /** The head is the first word that is no assignment. */
  lemma {:induction false} HeadIsFirst(tokens: seq<string>, saw: bool, k: nat)
    requires k < |tokens| && !IsAssignment(tokens[k]) && forall j :: 0 <= j < k ==> IsAssignment(tokens[j])
    ensures HeadOf(tokens, saw) == Token(tokens[k])
    decreases k
  {
    hide IsAssignment;
    if k > 0 {
      HeadIsFirst(tokens[1..], true, k - 1);
    }
  }

  /** Where every word is an assignment there is no head; a text without words says nothing at all. */
  lemma {:induction false} NoHead(tokens: seq<string>, saw: bool)
    requires forall token <- tokens :: IsAssignment(token)
    ensures HeadOf(tokens, saw) == if saw || tokens != [] then AssignmentsOnly else NoToken
  {
    hide IsAssignment;
    if tokens != [] {
      NoHead(tokens[1..], true);
    }
  }

  // ----- assignments -----

  /** A shell variable's name. */
  predicate IsIdentifier(name: string) {
    && name != ""
    && ('a' <= name[0] <= 'z' || 'A' <= name[0] <= 'Z' || name[0] == '_')
    && forall c <- name :: 'a' <= c <= 'z' || 'A' <= c <= 'Z' || '0' <= c <= '9' || c == '_'
  }

  lemma IdentifierIsName(name: string)
    ensures IsIdentifier(name) <==> IsName(name)
  {
    assert forall i :: 0 <= i < |name| ==> name[i] in name;
  }

  lemma {:induction false} FirstFound(front: string, c: char, back: string)
    requires c !in front
    ensures Find(front + [c] + back, c) == |front|
  {
    var whole := front + [c] + back;
    if front != "" {
      assert whole[1..] == front[1..] + [c] + back;
      FirstFound(front[1..], c, back);
    }
  }

  /** A word is an assignment exactly when it is a name, `=`, and anything. */
  lemma AssignmentIsExact(token: string)
    ensures IsAssignment(token) <==> exists name, value :: token == name + "=" + value && IsIdentifier(name)
  {
    hide IsName, IsIdentifier;
    if IsAssignment(token) {
      var eq := Find(token, '=');
      IdentifierIsName(token[..eq]);
      assert token == token[..eq] + "=" + token[eq + 1..];
    }
    if name, value :| token == name + "=" + value && IsIdentifier(name) {
      IdentifierIsName(name);
      NoEqualsIn(name);
      FirstFound(name, '=', value);
      assert token[..|name|] == name;
    }
  }

  lemma NoEqualsIn(name: string)
    requires IsIdentifier(name)
    ensures '=' !in name && '[' !in name && '+' !in name && forall i :: 0 <= i < |name| ==> !IsWhitespace(name[i])
  {
    assert forall i :: 0 <= i < |name| ==> name[i] in name;
  }

  /** What may stand between a variable's name and the `=`: a `+` that appends, an index. */
  predicate IsMark(mark: string) {
    || mark == "" || mark == "+"
    || (mark[0] == '[' && IsIndex(mark))
    || (|mark| > 1 && mark[0] == '+' && mark[1] == '[' && IsIndex(mark))
  }

  predicate IsIndex(mark: string) {
    '=' !in mark && forall i :: 0 <= i < |mark| ==> !IsWhitespace(mark[i])
  }

  lemma MarkIsIndex(mark: string)
    requires IsMark(mark)
    ensures IsIndex(mark)
  {
  }

  ghost predicate AssignsTo(segment: string, blank: string, name: string, mark: string, value: string) {
    && segment == blank + name + mark + "=" + value
    && AllWhitespace(blank) && IsIdentifier(name) && IsMark(mark)
  }

  lemma {:induction false} StartBehind(blank: string, text: string)
    requires AllWhitespace(blank) && (text != "" ==> !IsWhitespace(text[0]))
    ensures TrimStart(blank + text) == text
  {
    if blank == "" {
      assert blank + text == text;
    } else {
      assert (blank + text)[1..] == blank[1..] + text;
      StartBehind(blank[1..], text);
    }
  }

  /** The part of the left side up to an index, without a final `+`. */
  function Base(left: string): string {
    var plain := left[..Find(left, '[')];
    if plain != "" && plain[|plain| - 1] == '+' then plain[..|plain| - 1] else plain
  }

  lemma BaseOfMarked(name: string, mark: string)
    requires IsIdentifier(name) && IsMark(mark)
    ensures Base(name + mark) == name
  {
    hide IsIdentifier;
    NoEqualsIn(name);
    FindAcross(name, mark, '[');
    var left := name + mark;
    if mark == "" {
      assert left == name;
    } else if mark == "+" {
      assert left[..|left| - 1] == name;
    } else if mark[0] == '[' {
      assert left[..|name|] == name;
    } else {
      assert mark[1..][0] == '[' && Find(mark, '[') == 1;
      assert left[..|name| + 1] == name + "+";
      assert (name + "+")[..|name|] == name;
    }
  }

  lemma MarkBehindBase(left: string)
    requires IsIdentifier(Base(left)) && IsIndex(left)
    ensures Base(left) <= left && IsMark(left[|Base(left)|..])
  {
    hide IsIdentifier;
    var n, at := Base(left), Find(left, '[');
    var mark := left[|n|..];
    NoEqualsIn(n);
    assert IsIndex(mark);
    assert left == left[..at] + left[at..];
  }

  /** A segment is an assignment exactly when it is a name, perhaps a `+` or an index, `=`, and anything. */
  lemma AssignmentHeadIsExact(segment: string)
    ensures IsAssignmentHead(segment)
            <==> exists blank, name, mark, value :: AssignsTo(segment, blank, name, mark, value)
  {
    hide IsAssignmentHead;
    if IsAssignmentHead(segment) {
      var blank, name, mark, value := HeadAssigns(segment);
    }
    if blank, name, mark, value :| AssignsTo(segment, blank, name, mark, value) {
      AssignsMeansHead(segment, blank, name, mark, value);
    }
  }

  lemma HeadAssigns(segment: string) returns (blank: string, name: string, mark: string, value: string)
    requires IsAssignmentHead(segment)
    ensures AssignsTo(segment, blank, name, mark, value)
  {
    hide IsMark, IsIndex, IsIdentifier, Base, TrimStart, AllWhitespace;
    var s := TrimStart(segment);
    var left := s[..Find(s, '=')];
    LeftSide(segment);
    LeftIsIndex(left);
    MarkBehindBase(left);
    blank := StartTrimmed(segment);
    name, mark, value := Base(left), left[|Base(left)|..], s[|left| + 1..];
    Rejoined(s, name, mark);
    assert blank + name + mark + "=" + value == blank + (name + mark + "=" + value);
  }

  lemma LeftSide(segment: string)
    requires IsAssignmentHead(segment)
    ensures var s := TrimStart(segment);
            var left := s[..Find(s, '=')];
            && Find(s, '=') < |s| && '=' !in left && IsIdentifier(Base(left))
            && forall i :: 0 <= i < |left| ==> !IsWhitespace(left[i])
  {
    hide IsIdentifier, IsName, TrimStart, IsWhitespace;
    var s := TrimStart(segment);
    IdentifierIsName(Base(s[..Find(s, '=')]));
  }

  lemma Rejoined(s: string, name: string, mark: string)
    requires |name + mark| < |s| && s[..|name + mark|] == name + mark && s[|name + mark|] == '='
    ensures s == name + mark + "=" + s[|name + mark| + 1..]
  {
  }

  lemma LeftIsIndex(left: string)
    requires '=' !in left && forall i :: 0 <= i < |left| ==> !IsWhitespace(left[i])
    ensures IsIndex(left)
  {
  }

  lemma AssignsMeansHead(segment: string, blank: string, name: string, mark: string, value: string)
    requires AssignsTo(segment, blank, name, mark, value)
    ensures IsAssignmentHead(segment)
  {
    hide IsIdentifier, IsMark, IsName;
    NoEqualsIn(name);
    MarkIsIndex(mark);
    BaseOfMarked(name, mark);
    IdentifierIsName(name);
    var left := name + mark;
    var s := left + "=" + value;
    assert segment == blank + s;
    NameIsNotEmpty(name);
    assert s[0] == name[0];
    StartBehind(blank, s);
    FirstFound(left, '=', value);
    assert s[..|left|] == left;
  }

  lemma NameIsNotEmpty(name: string)
    requires IsIdentifier(name)
    ensures name != ""
  {
  }

  // ----- function definitions -----

  /** A function's name: a letter or `_`, then letters, digits, `_` and `-`. */
  predicate IsFunction(name: string) {
    && name != ""
    && ('a' <= name[0] <= 'z' || 'A' <= name[0] <= 'Z' || name[0] == '_')
    && forall c <- name :: 'a' <= c <= 'z' || 'A' <= c <= 'Z' || '0' <= c <= '9' || c == '_' || c == '-'
  }

  lemma FunctionIsName(name: string)
    ensures IsFunction(name) <==> IsFunctionName(name)
    ensures IsFunction(name) ==> forall i :: 0 <= i < |name| ==>
              !IsWhitespace(name[i]) && name[i] != '(' && name[i] != '{'
  {
    assert forall i :: 0 <= i < |name| ==> name[i] in name;
  }

  /** `name ()`, with or without blanks. */
  ghost predicate DefinesByParens(t: string, name: string, a: string, b: string, rest: string) {
    t == name + a + "(" + b + ")" + rest && IsFunction(name) && AllWhitespace(a) && AllWhitespace(b)
  }

  /** `function name`, ended by a blank, a parenthesis or a brace. */
  ghost predicate DefinesByWord(t: string, name: string, a: string, rest: string) {
    && t == "function " + a + name + rest && IsFunction(name) && AllWhitespace(a)
    && (rest != "" ==> IsWhitespace(rest[0]) || rest[0] == '(' || rest[0] == '{')
  }

  lemma {:induction false} UpToBraceOf(name: string, rest: string)
    requires forall i :: 0 <= i < |name| ==> !IsWhitespace(name[i]) && name[i] != '(' && name[i] != '{'
    requires rest != "" ==> IsWhitespace(rest[0]) || rest[0] == '(' || rest[0] == '{'
    ensures UpToBrace(name + rest) == name
  {
    if name == "" {
      assert name + rest == rest;
    } else {
      assert (name + rest)[1..] == name[1..] + rest;
      UpToBraceOf(name[1..], rest);
    }
  }

  lemma {:induction false} UpToBraceIs(s: string) returns (rest: string)
    ensures s == UpToBrace(s) + rest
    ensures rest != "" ==> IsWhitespace(rest[0]) || rest[0] == '(' || rest[0] == '{'
  {
    rest := s;
    if !(s == "" || IsWhitespace(s[0]) || s[0] == '(' || s[0] == '{') {
      rest := UpToBraceIs(s[1..]);
    }
  }

  /** A line that begins with the word `function` defines what that form names, if anything. */
  lemma WordDefines(line: string, name: string)
    requires FUNCTION <= Trim(line)
    ensures FunctionName(line) == Some(name) <==> exists a, rest :: DefinesByWord(Trim(line), name, a, rest)
  {
    hide Trim, TrimStart, IsFunction, IsFunctionName, AllWhitespace;
    var t := Trim(line);
    var behind := t[|FUNCTION|..];
    FunctionIsName(name);
    if FunctionName(line) == Some(name) {
      var a := StartTrimmed(behind);
      var rest := UpToBraceIs(TrimStart(behind));
      assert t == FUNCTION + behind;
      assert t == "function " + a + name + rest;
      assert DefinesByWord(t, name, a, rest);
    }
    if a, rest :| DefinesByWord(t, name, a, rest) {
      assert behind == a + (name + rest);
      FunctionIsNotEmpty(name);
      StartBehind(a, name + rest);
      UpToBraceOf(name, rest);
    }
  }

  lemma FunctionIsNotEmpty(name: string)
    requires IsFunction(name)
    ensures name != "" && !IsWhitespace(name[0])
  {
    FunctionIsName(name);
  }

  /** Any other line defines a function exactly when it begins with its name and empty parentheses. */
  lemma ParensDefine(line: string, name: string)
    requires !(FUNCTION <= Trim(line))
    ensures FunctionName(line) == Some(name) <==> exists a, b, rest :: DefinesByParens(Trim(line), name, a, b, rest)
  {
    hide Trim, TrimStart, TrimEnd, IsFunction, IsFunctionName, AllWhitespace;
    var t := Trim(line);
    var paren := Find(t, '(');
    FunctionIsName(name);
    if FunctionName(line) == Some(name) {
      FunctionIsNotEmpty(name);
      var b := StartTrimmed(t[paren + 1..]);
      var inner := TrimStart(t[paren + 1..]);
      var a := NameInFront(line, t[..paren]);
      assert t == t[..paren] + "(" + t[paren + 1..];
      assert inner == ")" + inner[1..];
      assert t == name + a + "(" + b + ")" + inner[1..];
      assert DefinesByParens(t, name, a, b, inner[1..]);
    }
    if a, b, rest :| DefinesByParens(t, name, a, b, rest) {
      NoParenIn(name, a);
      assert t == (name + a) + "(" + (b + (")" + rest));
      FirstFound(name + a, '(', b + (")" + rest));
      assert t[..|name + a|] == name + a && t[|name + a| + 1..] == b + (")" + rest);
      StartBehind(b, ")" + rest);
      TrimNameBack(name, a);
    }
  }

  lemma NoParenIn(name: string, a: string)
    requires IsFunction(name) && AllWhitespace(a)
    ensures '(' !in name + a
  {
    FunctionIsName(name);
  }

  lemma {:induction false} EndBefore(text: string, blank: string)
    requires AllWhitespace(blank) && (text != "" ==> !IsWhitespace(text[|text| - 1]))
    ensures TrimEnd(text + blank) == text
    decreases |blank|
  {
    var whole := text + blank;
    if blank == "" {
      assert whole == text;
    } else {
      assert whole[..|whole| - 1] == text + blank[..|blank| - 1];
      EndBefore(text, blank[..|blank| - 1]);
    }
  }

  lemma TrimNameBack(name: string, a: string)
    requires IsFunction(name) && AllWhitespace(a)
    ensures Trim(name + a) == name
  {
    hide TrimEnd;
    FunctionIsName(name);
    FunctionIsNotEmpty(name);
    assert (name + a)[0] == name[0];
    EndBefore(name, a);
  }

  /** A trimmed line begins with no blank, so what is left of the name is behind it. */
  lemma NameInFront(line: string, front: string) returns (a: string)
    requires front <= Trim(line) && Trim(front) != ""
    ensures front == Trim(front) + a && AllWhitespace(a)
  {
    TrimmedStarts(line);
    assert front[0] == Trim(line)[0];
    a := EndTrimmed(front);
    hide TrimEnd;
  }

  lemma TrimmedStarts(line: string)
    ensures Trim(line) != "" ==> !IsWhitespace(Trim(line)[0])
  {
    hide Trim;
    var before, after := TrimmedAround(line);
  }

  // ----- what each shape decides -----

  /** No sigil, and no slash command of the program's own. */
  predicate IsPlainLine(world: World, t: string) {
    t != "" && !HasSigil(t) && SlashWords(world, t).None?
  }

  /** The program's own builtins, by name. */
  predicate NamesBuiltin(t: string) {
    Word(t) in {"cd", "pushd", "popd", "dirs", "export", "unset", "source", ".", "exit", "quit", "jobs", "fg", "bg",
                "wait", "disown", "history"}
  }

  /** A path, a command substitution or a subshell. */
  predicate BeginsWithSyntax(t: string) {
    "/" <= t || "./" <= t || "~/" <= t || "(" <= t || "$(" <= t
  }

  /** A test, an arithmetic command, a group, or the first word of a control structure. */
  predicate BeginsConstruct(t: string) {
    || "[[" <= t || "((" <= t || "{" <= t
    || Word(t) in {"if", "case", "for", "select", "while", "until", "repeat", "time", "function"}
  }

  predicate Assigns(t: string) {
    Head(t).AssignmentsOnly? || IsAssignmentHead(t)
  }

  /** Whatever commands there are: a builtin's name goes to the builtin with its words, shell syntax, definitions,
      control structures and assignments run as they are, and a question goes to the agent; all other plain lines are
      left to the command names. */
  lemma ShapesDecide(world: World, commands: set<string>, line: string)
    requires IsPlainLine(world, Trim(line))
    ensures var t, verdict := Trim(line), Route(world, commands, line).verdict;
            if NamesBuiltin(t) then verdict.dispatch == Builtin(Tokenize(t))
            else if BeginsWithSyntax(t) || FunctionName(t).Some? || BeginsConstruct(t) || Assigns(t) then
              verdict.dispatch == Shell(t)
            else if LooksLikeQuestion(t) then
              verdict.dispatch == NaturalLanguage(t) && verdict.reason == QuestionGrammar
            else EarlyVerdict(world, t).None?
  {
    hide Trim, Split, Head, IsAssignmentHead, LooksLikeQuestion, LooksLikeCollision, FunctionName, SlashWords, Tokenize,
         LateVerdict, IsConstruct;
    BuiltinsAre(Trim(line));
    ConstructsAre(line);
  }

  lemma BuiltinsAre(t: string)
    ensures NamesBuiltin(t) <==> Word(t) in INTERCEPTED
  {
  }

  lemma ConstructsAre(line: string)
    ensures BeginsConstruct(Trim(line)) <==> IsConstruct(Trim(line))
  {
    TrimmedStarts(line);
    hide Trim;
  }

  /** A known slash command goes to the builtin it names, with the rest of its words. */
  lemma SlashCommands(world: World, commands: set<string>, line: string, name: string, rest: string)
    requires Trim(line) == "/" + name + rest && name in world.slash && name != ""
    requires forall i :: 0 <= i < |name| ==> !IsWhitespace(name[i])
    requires rest != "" ==> IsWhitespace(rest[0])
    ensures Route(world, commands, line).verdict.dispatch == Builtin(["aishe", world.slash[name]] + Tokenize(rest))
  {
    hide Trim, Split, Head, IsAssignmentHead, LooksLikeQuestion, LooksLikeCollision, FunctionName, Tokenize,
         LateVerdict;
    assert Trim(line)[1..] == name + rest;
    WordFirst(name, rest);
  }

  // ----- questions -----

  predicate HoldsAny(t: string, cs: string) {
    exists c <- t :: c in cs
  }

  /** A line with a character of the shell's grammar in it, or of one word alone, is no question. */
  lemma ShellIsNoQuestion(t: string)
    requires HoldsAny(t, "|;&<>$`(){}") && t[0] != '?' && t[0] != '#' && Trim(t) == t
    ensures !LooksLikeQuestion(t)
  {
    var c :| c in t && c in "|;&<>$`(){}";
    var i: nat :| i < |t| && t[i] == c;
    assert t[i] in SHELL_EVIDENCE;
  }

  /** Two words that open a question, in any case, with or without punctuation behind the second. */
  predicate OpensQuestion(first: string, second: string) {
    || (first in {"what", "where", "when", "why", "who", "how"}
        && second in {"is", "are", "was", "were", "do", "does", "did", "can", "could", "would", "should", "will"})
    || (first == "who" && second == "am")
    || (first == "how" && second in {"many", "much", "long", "far", "old", "often"})
    || (first in {"can", "could", "would", "will", "do"} && second == "you")
    || (first == "should" && (second == "i" || second == "we"))
    || (first in {"is", "are"} && second == "there")
    || (first in {"does", "did"} && second == "the")
  }

  /** Words that open a question when a question mark closes it. */
  predicate MayOpenQuestion(first: string) {
    first in {"what", "where", "who", "when", "why", "how", "which", "whose", "whom", "can", "could", "would", "will",
              "should", "is", "are", "do", "does", "did"}
  }

  /** A trimmed line without sigils and shell grammar is a question exactly when its first two words open one, or its
      first word may and it ends with a question mark; either way it has a second word. */
  lemma QuestionsAreExact(t: string)
    requires Trim(t) == t && t != "" && !HasSigil(t) && !HoldsAny(t, "|;&<>$`(){}") && |Tokenize(t)| >= 2
    ensures var first, second := Lower(Tokenize(t)[0]), Lower(WithoutPunctuation(Tokenize(t)[1]));
            LooksLikeQuestion(t)
            <==> second != "" && (OpensQuestion(first, second) || (t[|t| - 1] == '?' && MayOpenQuestion(first)))
  {
    hide Trim, Tokenize, Lower, WithoutPunctuation;
    assert forall i :: 0 <= i < |t| ==> t[i] in t;
    NoEvidence(t);
    PairsAre(Lower(Tokenize(t)[0]), Lower(WithoutPunctuation(Tokenize(t)[1])));
    TrailingAre(Lower(Tokenize(t)[0]));
    hide OpensQuestion, MayOpenQuestion, QUESTION_PAIRS, TRAILING_QUESTION_HEADS, SHELL_EVIDENCE;
  }

  lemma NoEvidence(t: string)
    requires !HoldsAny(t, "|;&<>$`(){}")
    ensures !HasShellEvidence(t)
  {
    forall i | 0 <= i < |t| ensures t[i] !in SHELL_EVIDENCE {
      assert t[i] in t;
    }
  }

  lemma PairsAre(first: string, second: string)
    ensures OpensQuestion(first, second) <==> first in QUESTION_PAIRS && second in QUESTION_PAIRS[first]
  {
  }

  lemma TrailingAre(first: string)
    ensures MayOpenQuestion(first) <==> first in TRAILING_QUESTION_HEADS
  {
  }

  /** Punctuation at the end of a word is dropped, whatever else it holds. */
  lemma {:induction false} PunctuationIsDropped(core: string, tail: string)
    requires core != "" ==> IsIdentifierChar(core[|core| - 1])
    requires forall c <- tail :: !IsIdentifierChar(c)
    ensures WithoutPunctuation(core + tail) == core
  {
    if tail == "" {
      assert core + tail == core;
    } else {
      var whole := core + tail;
      assert tail[|tail| - 1] in tail && whole[|whole| - 1] == tail[|tail| - 1];
      assert whole[..|whole| - 1] == core + tail[..|tail| - 1];
      assert forall c <- tail[..|tail| - 1] :: c in tail;
      PunctuationIsDropped(core, tail[..|tail| - 1]);
    }
  }

  predicate IsIdentifierChar(c: char) {
    'a' <= c <= 'z' || 'A' <= c <= 'Z' || '0' <= c <= '9' || c == '_'
  }

  /** A one-word line is no question. */
  lemma OneWordIsNoQuestion(t: string)
    requires Trim(t) == t && t != "" && !HasSigil(t) && |Tokenize(t)| <= 1
    ensures !LooksLikeQuestion(t)
  {
    hide Trim, Tokenize;
  }
}
