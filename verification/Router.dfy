/** Deciding whether a line is a shell command, a builtin or natural language. */
module Router {
  import opened Wrappers
  import opened Text
  import opened Segments

  predicate IsNameChar(c: char) {
    IsAlphanumeric(c) || c == '_'
  }

  predicate IsName(s: string) {
    s != "" && !IsDigit(s[0]) && forall i :: 0 <= i < |s| ==> IsNameChar(s[i])
  }

  // ----- effective heads -----

  datatype EffectiveHead = AssignmentsOnly | Token(token: string) | NoToken

  /** is_assignment */
  predicate IsAssignment(token: string) {
    var eq := Find(token, '=');
    eq < |token| && IsName(token[..eq])
  }

  function HeadOf(tokens: seq<string>, sawAssignment: bool): EffectiveHead {
    if tokens == [] then (if sawAssignment then AssignmentsOnly else NoToken)
    else if IsAssignment(tokens[0]) then HeadOf(tokens[1..], true)
    else Token(tokens[0])
  }

  /** What effective_command_token answers for the tokens of `text`. */
  function Head(text: string): EffectiveHead {
    HeadOf(Tokenize(text), false)
  }

  method EffectiveCommandToken(tokens: seq<string>) returns (head: EffectiveHead)
    ensures head == HeadOf(tokens, false)
  {
    var sawAssignment := false;
    for i := 0 to |tokens|
      invariant HeadOf(tokens, false) == HeadOf(tokens[i..], sawAssignment)
    {
      assert tokens[i..][1..] == tokens[i + 1..];
      if IsAssignment(tokens[i]) {
        sawAssignment := true;
      } else {
        return Token(tokens[i]);
      }
    }
    return if sawAssignment then AssignmentsOnly else NoToken;
  }

  // ----- line shapes that need no command set -----

  /** is_assignment_head */
  predicate IsAssignmentHead(segment: string) {
    var s := TrimStart(segment);
    var eq := Find(s, '=');
    var name := s[..eq];
    var plain := name[..Find(name, '[')];
    var base := if plain != "" && plain[|plain| - 1] == '+' then plain[..|plain| - 1] else plain;
    && eq < |s|
    && name != ""
    && (forall i :: 0 <= i < |name| ==> !IsWhitespace(name[i]))
    && IsName(base)
  }

  predicate IsFunctionName(s: string) {
    s != "" && !IsDigit(s[0]) && s[0] != '-' && forall i :: 0 <= i < |s| ==> IsNameChar(s[i]) || s[i] == '-'
  }

  function UpToBrace(s: string): string {
    if s == "" || IsWhitespace(s[0]) || s[0] == '(' || s[0] == '{' then "" else [s[0]] + UpToBrace(s[1..])
  }

  const FUNCTION := "function "

  /** function_def_name */
  function FunctionName(line: string): Option<string> {
    var t := Trim(line);
    var paren := Find(t, '(');
    if FUNCTION <= t then
      var name := UpToBrace(TrimStart(t[|FUNCTION|..]));
      if IsFunctionName(name) then Some(name) else None
    else if paren < |t| && ")" <= TrimStart(t[paren + 1..]) && IsFunctionName(Trim(t[..paren])) then
      Some(Trim(t[..paren]))
    else None
  }

  const CONSTRUCTS := {"if", "for", "while", "until", "case", "select", "function", "time", "repeat"}

  /** is_shell_construct_head */
  predicate IsConstruct(line: string) {
    var t := TrimStart(line);
    "[[" <= t || "((" <= t || "{" <= t || Word(t) in CONSTRUCTS
  }

  predicate StartsWithShellSyntax(line: string) {
    "./" <= line || "/" <= line || "~/" <= line || "$(" <= line || "(" <= line
  }

  const QUESTION_VERBS := {"is", "are", "was", "were", "do", "does", "did", "can", "could", "would", "should", "will"}

  const QUESTION_PAIRS: map<string, set<string>> :=
    map["what" := QUESTION_VERBS, "where" := QUESTION_VERBS, "when" := QUESTION_VERBS, "why" := QUESTION_VERBS,
        "who" := QUESTION_VERBS + {"am"}, "how" := QUESTION_VERBS + {"many", "much", "long", "far", "old", "often"},
        "can" := {"you"}, "could" := {"you"}, "would" := {"you"}, "will" := {"you"}, "should" := {"i", "we"},
        "is" := {"there"}, "are" := {"there"}, "do" := {"you"}, "does" := {"the"}, "did" := {"the"}]

  const TRAILING_QUESTION_HEADS :=
    {"what", "where", "who", "when", "why", "how", "which", "whose", "whom", "can", "could", "would", "will", "should",
     "is", "are", "do", "does", "did"}

  const SHELL_EVIDENCE := {'|', ';', '&', '<', '>', '$', '`', '(', ')', '{', '}'}

  predicate HasShellEvidence(line: string) {
    exists i :: 0 <= i < |line| && line[i] in SHELL_EVIDENCE
  }

  function WithoutPunctuation(word: string): string {
    if word != "" && !IsNameChar(word[|word| - 1]) then WithoutPunctuation(word[..|word| - 1]) else word
  }

  /** looks_like_question */
  predicate LooksLikeQuestion(line: string) {
    var t := Trim(line);
    var words := Tokenize(t);
    var first := if words == [] then "" else Lower(words[0]);
    var second := if |words| < 2 then "" else Lower(WithoutPunctuation(words[1]));
    && t != ""
    && (t[0] == '?' || t[0] == '#'
        || (&& t[0] != '!'
            && !HasShellEvidence(t)
            && second != ""
            && ((first in QUESTION_PAIRS && second in QUESTION_PAIRS[first])
                || (t[|t| - 1] == '?' && first in TRAILING_QUESTION_HEADS))))
  }

  const RESERVED_WORDS :=
    {"if", "then", "elif", "else", "fi", "for", "while", "until", "do", "done", "case", "esac", "select", "function",
     "time", "in", "{", "}", "!", "[[", "((", "[", "repeat"}

  const COLLISION_HEADS :=
    {"what", "where", "who", "time", "test", "find", "install", "open", "say", "yes", "false", "true", "read", "type",
     "source", "history"}

  /** looks_like_known_command_collision */
  predicate LooksLikeCollision(line: string) {
    var words := Tokenize(line);
    && !HasShellEvidence(line)
    && |words| >= 3
    && Lower(words[0]) in COLLISION_HEADS
    && forall i :: 1 <= i < |words| ==> !("-" <= words[i])
  }

  // ----- decisions -----

  datatype Dispatch = Shell(line: string) | NaturalLanguage(text: string) | Builtin(words: seq<string>)
  datatype RouteKind = ShellKind | NaturalLanguageKind | BuiltinKind
  datatype RouteReason =
    | EmptyInput | ForcedAgent | ForcedShell | SlashCommand | InterceptedBuiltin | ShellSyntax | FunctionDefinition
    | ControlStructure | Assignment | QuestionGrammar | CompoundShell | CompoundUnknown | KnownCommand | UnknownInput
  datatype RouteSource = Rust | Explicit

  /** The part of a decision that does not look at the command set again. */
  datatype Verdict =
    Verdict(kind: RouteKind, normalized: string, reason: RouteReason, source: RouteSource, dispatch: Dispatch)

  datatype RouteDecision = RouteDecision(verdict: Verdict, head: Option<string>, knownCommand: bool, ambiguous: bool)

  /** What routing asks of the machine: slash aliases with their command ids, and the executable files. */
  datatype World = World(slash: map<string, string>, path: set<string>, executables: set<string>)

  const INTERCEPTED :=
    {"cd", "export", "unset", "source", ".", "exit", "quit", "pushd", "popd", "dirs", "jobs", "fg", "bg", "wait",
     "disown", "history"}

  const BUILTINS_TO_KILL :=
    {"alias", "autoload", "bindkey", "command", "compgen", "declare", "echo", "eval", "exec", "fc", "getopts", "hash",
     "jobs", "kill"}

  const BUILTINS_TO_TYPE :=
    {"let", "local", "print", "printf", "pushd", "popd", "read", "readonly", "set", "setopt", "shift", "test", "trap",
     "type"}

  const BUILTINS_TO_FG :=
    {"typeset", "ulimit", "umask", "wait", "which", "zmodload", "cd", "export", "unset", "source", "true", "false",
     "bg", "fg"}

  const BUILTINS_TO_ZCOMPILE :=
    {"disown", "enable", "disable", "where", "whence", ":", "repeat", "noglob", "unsetopt", "integer", "float",
     "unhash", "unfunction", "zcompile"}

  const FALLBACK_BUILTINS := BUILTINS_TO_KILL + BUILTINS_TO_TYPE + BUILTINS_TO_FG + BUILTINS_TO_ZCOMPILE

  predicate IsBuiltinName(name: string) {
    name in FALLBACK_BUILTINS || name in INTERCEPTED
  }

  function ShellVerdict(line: string, reason: RouteReason): Verdict {
    Verdict(ShellKind, line, reason, Rust, Shell(line))
  }

  function AgentVerdict(text: string, reason: RouteReason, source: RouteSource): Verdict {
    Verdict(NaturalLanguageKind, text, reason, source, NaturalLanguage(text))
  }

  function SlashWords(world: World, line: string): Option<seq<string>> {
    if !("/" <= line) then None else
      var parts := Tokenize(line[1..]);
      if parts == [] || parts[0] !in world.slash then None
      else Some(["aishe", world.slash[parts[0]]] + parts[1..])
  }

  /** The answers that look at the line alone, in the order they are tried. */
  function EarlyVerdict(world: World, trimmed: string): Option<Verdict> {
    if trimmed == "" then Some(AgentVerdict("", EmptyInput, Rust))
    else if trimmed[0] == '?' || trimmed[0] == '#' then Some(AgentVerdict(Trim(trimmed[1..]), ForcedAgent, Explicit))
    else if trimmed[0] == '!' then
      var rest := Trim(trimmed[1..]);
      Some(Verdict(ShellKind, rest, ForcedShell, Explicit, Shell(rest)))
    else if SlashWords(world, trimmed).Some? then
      Some(Verdict(BuiltinKind, trimmed, SlashCommand, Rust, Builtin(SlashWords(world, trimmed).value)))
    else if Word(trimmed) in INTERCEPTED then
      Some(Verdict(BuiltinKind, trimmed, InterceptedBuiltin, Rust, Builtin(Tokenize(trimmed))))
    else if StartsWithShellSyntax(trimmed) then Some(ShellVerdict(trimmed, ShellSyntax))
    else if FunctionName(trimmed).Some? then Some(ShellVerdict(trimmed, FunctionDefinition))
    else if IsConstruct(trimmed) then Some(ShellVerdict(trimmed, ControlStructure))
    else if Head(trimmed).AssignmentsOnly? || IsAssignmentHead(trimmed) then Some(ShellVerdict(trimmed, Assignment))
    else if LooksLikeQuestion(trimmed) then Some(AgentVerdict(trimmed, QuestionGrammar, Rust))
    else None
  }

  predicate SegmentIsShell(commands: set<string>, segment: string) {
    IsAssignmentHead(segment)
    || match Head(segment)
       case Token(t) => t in commands || t in RESERVED_WORDS
       case _ => true
  }

  /** The answers that ask for command names. */
  function LateVerdict(commands: set<string>, trimmed: string): Verdict {
    var segments := Split(trimmed);
    if |segments| > 1 then
      if forall k :: 0 <= k < |segments| ==> SegmentIsShell(commands, segments[k])
      then ShellVerdict(trimmed, CompoundShell)
      else AgentVerdict(trimmed, CompoundUnknown, Rust)
    else if Head(trimmed).Token? && Head(trimmed).token in commands then ShellVerdict(trimmed, KnownCommand)
    else AgentVerdict(trimmed, UnknownInput, Rust)
  }

  function RouteVerdict(world: World, commands: set<string>, trimmed: string): Verdict {
    match EarlyVerdict(world, trimmed)
    case Some(verdict) => verdict
    case None => LateVerdict(commands, trimmed)
  }

  /** decision */
  function Decide(commands: set<string>, verdict: Verdict): RouteDecision {
    var head := match Head(verdict.normalized) case Token(t) => Some(t) case _ => None;
    var known := head.Some? && head.value in commands;
    RouteDecision(verdict, head, known,
                  known && (verdict.reason == QuestionGrammar || LooksLikeCollision(verdict.normalized)))
  }

  /** route_with_evidence */
  function Route(world: World, commands: set<string>, line: string): RouteDecision {
    Decide(commands, RouteVerdict(world, commands, Trim(line)))
  }

  // ----- command sets -----

  /** path_executable_exists */
  predicate OnPath(world: World, name: string) {
    name != "" && '/' !in name && name in world.path
  }

  /** Every builtin and every executable of a full PATH scan; file names are nonempty and hold no slash. */
  function ScannedCommands(world: World): set<string> {
    FALLBACK_BUILTINS + INTERCEPTED + set name | name in world.path && OnPath(world, name)
  }

  function SegmentHeads(segments: seq<string>): set<string> {
    set segment | segment in segments && Head(segment).Token? :: Head(segment).token
  }

  function VerifiedHeads(world: World, segments: seq<string>): set<string> {
    set name | name in SegmentHeads(segments) && OnPath(world, name) && !IsBuiltinName(name)
  }

  /** What a one-shot command set answers `contains` for. */
  function OneShotNames(world: World, line: string): set<string> {
    FALLBACK_BUILTINS + INTERCEPTED + VerifiedHeads(world, Split(line))
  }

  class OneShotCommands {
    var verifiedHeads: set<string>

    constructor ForLine(world: World, line: string)
      ensures verifiedHeads == VerifiedHeads(world, Split(line))
    {
      hide FALLBACK_BUILTINS, INTERCEPTED, Tokenize, HeadOf, Split, OnPath;
      verifiedHeads := {};
      new;
      var segments := SplitTopLevel(line);
      for k := 0 to |segments|
        invariant verifiedHeads == VerifiedHeads(world, segments[..k])
      {
        VerifyOne(world, segments, k);
        var head := EffectiveCommandToken(Tokenize(segments[k]));
        if head.Token? && !Contains(head.token) && OnPath(world, head.token) {
          verifiedHeads := verifiedHeads + {head.token};
        }
      }
      assert segments[..|segments|] == segments;
    }

    predicate Contains(token: string)
      reads this
    {
      token in FALLBACK_BUILTINS || token in INTERCEPTED || token in verifiedHeads
    }
  }

  lemma VerifyOne(world: World, segments: seq<string>, k: nat)
    requires k < |segments|
    ensures var head := Head(segments[k]);
            VerifiedHeads(world, segments[..k + 1]) ==
            VerifiedHeads(world, segments[..k])
            + if head.Token? && OnPath(world, head.token) && !IsBuiltinName(head.token) then {head.token} else {}
  {
    hide HeadOf, Tokenize, IsBuiltinName, OnPath;
    assert segments[..k + 1] == segments[..k] + [segments[k]];
  }

  /** fast_shell_line */
  method FastShellLine(world: World, line: string) returns (admitted: Option<string>)
    ensures admitted == Admitted(world, line)
  {
    var trimmed := Trim(line);
    if "/" <= trimmed {
      var head := EffectiveCommandToken(Tokenize(trimmed));
      if !head.Token? || head.token !in world.executables {
        return None;
      }
    }
    var commands := new OneShotCommands.ForLine(world, trimmed);
    var names := FALLBACK_BUILTINS + INTERCEPTED + commands.verifiedHeads;
    var dispatch := Route(world, names, trimmed).verdict.dispatch;
    return if dispatch.Shell? then Some(dispatch.line) else None;
  }

  function Admitted(world: World, line: string): Option<string> {
    var trimmed := Trim(line);
    var dispatch := Route(world, OneShotNames(world, trimmed), trimmed).verdict.dispatch;
    if "/" <= trimmed && !(Head(trimmed).Token? && Head(trimmed).token in world.executables) then None
    else if dispatch.Shell? then Some(dispatch.line)
    else None
  }

  // ----- the head of a line and of its first segment -----

  predicate HoldsOperatorChar(s: string) {
    exists i :: 0 <= i < |s| && IsOperatorChar(s[i])
  }

  predicate IsOperatorChar(c: char) {
    c == ';' || c == '|' || c == '&'
  }

  lemma {:induction false} WordStops(s: string, g: string)
    requires |Word(s)| < |s|
    ensures IsWhitespace(s[|Word(s)|]) && Word(s + g) == Word(s)
  {
    if !IsWhitespace(s[0]) {
      WordStops(s[1..], g);
      assert (s + g)[1..] == s[1..] + g;
    }
  }

  lemma {:induction false} WordGoesOn(s: string, g: string)
    requires Word(s) == s
    ensures Word(s + g) == s + Word(g)
  {
    if s == "" {
      assert s + g == g;
    } else {
      assert Word(s[1..]) == s[1..];
      WordGoesOn(s[1..], g);
      assert (s + g)[1..] == s[1..] + g;
    }
  }

  /** A word is an assignment whether or not operators follow it directly. */
  lemma AssignmentBeforeOperator(word: string, more: string)
    requires word != "" && (more != "" ==> IsOperatorChar(more[0]))
    ensures IsAssignment(word + more) <==> IsAssignment(word)
  {
    var whole := word + more;
    FindAcross(word, more, '=');
    var eq := Find(word, '=');
    if eq < |word| {
      assert whole[..eq] == word[..eq];
    } else if Find(more, '=') < |more| {
      assert whole[..|word| + Find(more, '=')][|word|] == more[0];
    }
  }

  /** No operator begins an assignment. */
  lemma OperatorIsNoAssignment(word: string)
    requires word != "" && IsOperatorChar(word[0])
    ensures !IsAssignment(word)
  {
    var eq := Find(word, '=');
    if eq < |word| {
      assert eq > 0 && word[..eq][0] == word[0];
    }
  }

  lemma {:induction false} HeadOfGap(g: string, saw: bool)
    requires IsGap(g)
    ensures var head := HeadOf(Tokenize(g), saw); head.Token? ==> HoldsOperatorChar(head.token)
    decreases |g|
  {
    if g != "" {
      if IsWhitespace(g[0]) {
        HeadOfGap(g[1..], saw);
      } else {
        OperatorIsNoAssignment(Word(g));
        assert Word(g)[0] == g[0];
      }
    }
  }

  /** A head without operators is the head of the text before the gap. */
  lemma {:induction false} HeadBeforeGap(t: string, g: string, saw: bool)
    requires IsGap(g)
    requires var head := HeadOf(Tokenize(t + g), saw); head.Token? && !HoldsOperatorChar(head.token)
    ensures HeadOf(Tokenize(t), saw) == HeadOf(Tokenize(t + g), saw)
    decreases |t|
  {
    hide IsAssignment;
    if t == "" {
      assert t + g == g;
      HeadOfGap(g, saw);
    } else if IsWhitespace(t[0]) {
      assert (t + g)[1..] == t[1..] + g;
      HeadBeforeGap(t[1..], g, saw);
    } else {
      var word := Word(t);
      if |word| < |t| {
        WordStops(t, g);
        assert (t + g)[|word|..] == t[|word|..] + g;
        if IsAssignment(word) {
          HeadBeforeGap(t[|word|..], g, true);
        }
      } else {
        LastWord(t, g, saw);
      }
    }
  }

  lemma LastWord(t: string, g: string, saw: bool)
    requires IsGap(g) && t != "" && !IsWhitespace(t[0]) && Word(t) == t
    requires var head := HeadOf(Tokenize(t + g), saw); head.Token? && !HoldsOperatorChar(head.token)
    ensures HeadOf(Tokenize(t), saw) == HeadOf(Tokenize(t + g), saw)
  {
    hide IsAssignment;
    var more := Word(g);
    assert more != "" ==> more[0] == g[0] && (t + more)[|t|] == more[0];
    WordGoesOn(t, g);
    AssignmentBeforeOperator(t, more);
    assert (t + g)[|t + more|..] == g[|more|..];
    assert t[|t|..] == "";
    HeadOfGap(g[|more|..], true);
    assert more == "" ==> t + more == t;
  }

  // ----- looking up only the segments' heads -----

  /** For a line that is trimmed and has one segment, the segment comes first. */
  lemma OneSegment(line: string) returns (gap: string)
    requires Trim(line) == line != "" && |Split(line)| <= 1
    requires Head(line).Token? && !HoldsOperatorChar(Head(line).token)
    ensures |Split(line)| == 1 && IsGap(gap) && line == Split(line)[0] + gap
  {
    hide Split, Head, Trim, Kept, Pieces;
    var gaps := SplitIsLossless(line);
    var segments := Split(line);
    if segments == [] {
      assert line == gaps[0] && IsGap(gaps[0]);
      HeadUnfolds(line);
      HeadOfGap(line, false);
      assert false;
    } else {
      assert segments[1..] == [] && Interleave(gaps[1..], segments[1..]) == gaps[1];
      assert line == gaps[0] + segments[0] + gaps[1];
      gap := gaps[1];
      if gaps[0] != "" {
        TrimmedStart(line);
        assert line[0] == gaps[0][0];
        OperatorFirst(line);
        assert false;
      }
      assert line == segments[0] + gap;
    }
  }

  lemma HeadUnfolds(text: string)
    ensures Head(text) == HeadOf(Tokenize(text), false)
  {
  }

  lemma TrimmedStart(line: string)
    requires Trim(line) == line != ""
    ensures !IsWhitespace(line[0])
  {
    hide Trim;
    var before, after := TrimmedAround(line);
  }

  lemma OperatorFirst(line: string)
    requires line != "" && IsOperatorChar(line[0])
    ensures Head(line).Token? && HoldsOperatorChar(Head(line).token)
  {
    OperatorIsNoAssignment(Word(line));
    assert Word(line)[0] == line[0];
  }

  /** No executable on the PATH has an operator character in its name. */
  predicate PlainPath(world: World) {
    forall name <- world.path :: OnPath(world, name) ==> !HoldsOperatorChar(name)
  }

  /** The head of a trimmed line of one segment is a known command for one set exactly when it is for the other. */
  lemma HeadLookedUp(world: World, line: string)
    requires PlainPath(world) && Trim(line) == line != "" && |Split(line)| <= 1 && Head(line).Token?
    ensures Head(line).token in OneShotNames(world, line) <==> Head(line).token in ScannedCommands(world)
  {
    hide Split, HeadOf, Tokenize, Trim, FALLBACK_BUILTINS, INTERCEPTED;
    var name := Head(line).token;
    if OnPath(world, name) {
      var gap := OneSegment(line);
      HeadBeforeGap(Split(line)[0], gap, false);
      assert Split(line)[0] in Split(line);
    }
  }

  lemma SegmentLookedUp(world: World, line: string, segment: string)
    requires segment in Split(line)
    ensures SegmentIsShell(OneShotNames(world, line), segment) <==> SegmentIsShell(ScannedCommands(world), segment)
  {
    hide Split, Head, FALLBACK_BUILTINS, INTERCEPTED, RESERVED_WORDS, IsAssignmentHead;
  }

  lemma LateAlike(world: World, line: string)
    requires PlainPath(world) && Trim(line) == line != ""
    ensures LateVerdict(OneShotNames(world, line), line) == LateVerdict(ScannedCommands(world), line)
  {
    hide Split, Head, OneShotNames, ScannedCommands, PlainPath, SegmentIsShell, Trim;
    if |Split(line)| > 1 {
      forall k | 0 <= k < |Split(line)|
        ensures SegmentIsShell(OneShotNames(world, line), Split(line)[k])
                <==> SegmentIsShell(ScannedCommands(world), Split(line)[k])
      {
        SegmentLookedUp(world, line, Split(line)[k]);
      }
    } else if Head(line).Token? {
      HeadLookedUp(world, line);
    }
  }

  lemma TrimIdempotent(line: string)
    ensures Trim(Trim(line)) == Trim(line)
  {
    hide Trim;
    var before, after := TrimmedAround(line);
    TrimTwice(Trim(line));
  }

  predicate HasSigil(trimmed: string) {
    trimmed != "" && (trimmed[0] == '?' || trimmed[0] == '#' || trimmed[0] == '!')
  }

  /** What a decision carries on: the line, without its sigil. */
  function Carried(trimmed: string): string {
    if HasSigil(trimmed) then Trim(trimmed[1..]) else trimmed
  }

  lemma CarriedIsNormalized(world: World, commands: set<string>, trimmed: string)
    ensures RouteVerdict(world, commands, trimmed).normalized == Carried(trimmed)
  {
    hide SlashWords, IsConstruct, FunctionName, IsAssignmentHead, LooksLikeQuestion, Head, Split, INTERCEPTED,
         StartsWithShellSyntax, SegmentIsShell, Trim;
  }

  /** Where no executable's name holds an operator character, looking up only the heads of the line's segments
      answers as the builtins and the whole PATH do; a plain line of one segment even gets the same diagnostic
      facts. */
  lemma OneShotDecidesAlike(world: World, line: string)
    requires PlainPath(world)
    ensures var one := Route(world, OneShotNames(world, Trim(line)), Trim(line));
            var full := Route(world, ScannedCommands(world), line);
            && one.verdict == full.verdict
            && one.head == full.head
            && (!HasSigil(Trim(line)) && |Split(Trim(line))| <= 1 ==> one == full)
  {
    hide Split, Head, OneShotNames, ScannedCommands, PlainPath, EarlyVerdict, LateVerdict, Trim, LooksLikeCollision;
    var t := Trim(line);
    TrimIdempotent(line);
    if t != "" {
      LateAlike(world, t);
    } else {
      HeadUnfolds("");
    }
    EarlyAlike(world, t);
    var verdict := RouteVerdict(world, ScannedCommands(world), t);
    if !HasSigil(t) && |Split(t)| <= 1 {
      CarriedIsNormalized(world, ScannedCommands(world), t);
      if t != "" && Head(t).Token? {
        HeadLookedUp(world, t);
      }
    }
  }

  lemma EarlyAlike(world: World, trimmed: string)
    ensures trimmed == "" ==> EarlyVerdict(world, trimmed).Some? && Head(trimmed).NoToken?
  {
  }

  /** More command names never change an answer that is not natural language. */
  lemma MoreCommandsKeepAnswers(world: World, few: set<string>, many: set<string>, line: string)
    requires few <= many
    ensures Route(world, few, line).verdict.dispatch.NaturalLanguage?
            || Route(world, many, line).verdict == Route(world, few, line).verdict
  {
    hide EarlyVerdict, Split, Head, IsAssignmentHead, RESERVED_WORDS, Trim, LooksLikeCollision;
    var t := Trim(line);
    if EarlyVerdict(world, t).None? && LateVerdict(few, t).dispatch.Shell? {
      LateKeepsAnswers(few, many, t);
    }
  }

  lemma LateKeepsAnswers(few: set<string>, many: set<string>, trimmed: string)
    requires few <= many && LateVerdict(few, trimmed).dispatch.Shell?
    ensures LateVerdict(many, trimmed) == LateVerdict(few, trimmed)
  {
    hide Split, Head, IsAssignmentHead, RESERVED_WORDS;
    var segments := Split(trimmed);
    forall k | 0 <= k < |segments| && SegmentIsShell(few, segments[k])
      ensures SegmentIsShell(many, segments[k])
    {
    }
  }

  lemma OneShotWithinScan(world: World, line: string)
    ensures OneShotNames(world, line) <= ScannedCommands(world)
  {
  }

  lemma ShellPayload(world: World, commands: set<string>, trimmed: string)
    requires RouteVerdict(world, commands, trimmed).dispatch.Shell?
    ensures RouteVerdict(world, commands, trimmed).dispatch.line
            == if HasSigil(trimmed) then Trim(trimmed[1..]) else trimmed
  {
    hide SlashWords, IsConstruct, FunctionName, IsAssignmentHead, LooksLikeQuestion, Head, Split, INTERCEPTED,
         StartsWithShellSyntax, SegmentIsShell, Trim;
  }

  /** What the fast path admits, any router that knows at least its names runs in the shell with the same payload: the
      trimmed line, without its `!`. */
  lemma AdmittedLinesRun(world: World, commands: set<string>, line: string)
    ensures Admitted(world, line).Some? && OneShotNames(world, Trim(line)) <= commands ==>
              Route(world, commands, line).verdict.dispatch == Shell(Admitted(world, line).value)
    ensures Admitted(world, line).Some? ==>
              Admitted(world, line).value == if HasSigil(Trim(line)) then Trim(Trim(line)[1..]) else Trim(line)
  {
    hide Split, Head, OneShotNames, EarlyVerdict, LateVerdict, Trim, LooksLikeCollision;
    var t := Trim(line);
    TrimIdempotent(line);
    if Admitted(world, line).Some? {
      ShellPayload(world, OneShotNames(world, t), t);
      if OneShotNames(world, t) <= commands {
        MoreCommandsKeepAnswers(world, OneShotNames(world, t), commands, t);
      }
    }
  }

  /** Against the whole PATH the fast path is exact: it admits precisely the shell lines, save those that start with a
      slash and do not name an executable file. */
  lemma AdmissionIsExact(world: World, line: string)
    requires PlainPath(world)
    ensures var full := Route(world, ScannedCommands(world), line).verdict.dispatch;
            var t := Trim(line);
            Admitted(world, line) ==
            if full.Shell? && ("/" <= t ==> Head(t).Token? && Head(t).token in world.executables) then Some(full.line)
            else None
  {
    hide Route, OneShotNames, ScannedCommands, Head, Trim, PlainPath;
    OneShotDecidesAlike(world, line);
  }

  // ----- forcing a route -----

  lemma {:induction false} EndBehind(c: char, s: string)
    ensures TrimEnd([c] + s) == if TrimEnd(s) == "" && IsWhitespace(c) then "" else [c] + TrimEnd(s)
  {
    var whole := [c] + s;
    if s == "" {
      assert whole == [c] && [c][..0] == "" && [c] + "" == [c];
    } else if IsWhitespace(s[|s| - 1]) {
      assert whole[|whole| - 1] == s[|s| - 1] && whole[..|whole| - 1] == [c] + s[..|s| - 1];
      EndBehind(c, s[..|s| - 1]);
    } else {
      assert whole[|whole| - 1] == s[|s| - 1];
    }
  }

  /** Trimming one end first makes no difference. */
  lemma {:induction false} TrimEndFirst(s: string)
    ensures TrimStart(TrimEnd(s)) == Trim(s)
  {
    if s != "" {
      assert s == [s[0]] + s[1..];
      EndBehind(s[0], s[1..]);
      TrimEndFirst(s[1..]);
      if IsWhitespace(s[0]) && TrimEnd(s[1..]) != "" {
        assert ([s[0]] + TrimEnd(s[1..]))[1..] == TrimEnd(s[1..]);
      }
    }
  }

  lemma {:induction false} EndTwice(s: string)
    ensures TrimEnd(TrimEnd(s)) == TrimEnd(s)
  {
    if s != "" && IsWhitespace(s[|s| - 1]) {
      EndTwice(s[..|s| - 1]);
    }
  }

  /** The documented overrides: whatever the text and the commands, a leading `?` or `#` sends it to the agent and a
      leading `!` to the shell, trimmed and otherwise unchanged. */
  lemma SigilsOverride(world: World, commands: set<string>, text: string)
    ensures Route(world, commands, "?" + text).verdict.dispatch == NaturalLanguage(Trim(text))
    ensures Route(world, commands, "#" + text).verdict.dispatch == NaturalLanguage(Trim(text))
    ensures Route(world, commands, "!" + text).verdict.dispatch == Shell(Trim(text))
  {
    hide SlashWords, LooksLikeCollision, TrimEnd, TrimStart;
    SigilTrimmed('?', text);
    SigilTrimmed('#', text);
    SigilTrimmed('!', text);
  }

  lemma SigilTrimmed(sigil: char, text: string)
    requires !IsWhitespace(sigil)
    ensures var t := Trim([sigil] + text); t != "" && t[0] == sigil && Trim(t[1..]) == Trim(text)
  {
    EndBehind(sigil, text);
    assert ([sigil] + TrimEnd(text))[1..] == TrimEnd(text);
    TrimEndFirst(text);
    EndTwice(TrimStart(text));
  }

  // ----- where the two part -----

  /** The line comes down to its own head, which is on the PATH and is not the head of its one segment. */
  predicate HeadUnlooked(world: World, trimmed: string) {
    && EarlyVerdict(world, trimmed).None?
    && |Split(trimmed)| <= 1
    && Head(trimmed).Token?
    && OnPath(world, Head(trimmed).token)
    && !IsBuiltinName(Head(trimmed).token)
    && Head(trimmed).token !in SegmentHeads(Split(trimmed))
  }

  /** Whatever is on the PATH, the two lookups dispatch a line alike except exactly in that case. */
  lemma OneShotDiffersExactly(world: World, line: string)
    ensures var one := Route(world, OneShotNames(world, Trim(line)), Trim(line));
            var full := Route(world, ScannedCommands(world), line);
            one.verdict.dispatch == full.verdict.dispatch <==> !HeadUnlooked(world, Trim(line))
  {
    hide Split, Head, OneShotNames, ScannedCommands, EarlyVerdict, Trim, LooksLikeCollision, SegmentIsShell;
    var t := Trim(line);
    TrimIdempotent(line);
    if EarlyVerdict(world, t).None? {
      forall segment | segment in Split(t)
        ensures SegmentIsShell(OneShotNames(world, t), segment) <==> SegmentIsShell(ScannedCommands(world), segment)
      {
        SegmentLookedUp(world, t, segment);
      }
      if Head(t).Token? {
        NameLookedUp(world, t, Head(t).token);
      }
    }
  }

  /** The head of what a decision carries on is an executable that was not among the heads looked up. */
  predicate HintUnlooked(world: World, trimmed: string) {
    var head := Head(Carried(trimmed));
    && head.Token?
    && OnPath(world, head.token)
    && !IsBuiltinName(head.token)
    && head.token !in SegmentHeads(Split(trimmed))
  }

  /** On a plain PATH the two make the same decision, hints included, except exactly in that case. */
  lemma HintDiffersExactly(world: World, line: string)
    requires PlainPath(world)
    ensures var one := Route(world, OneShotNames(world, Trim(line)), Trim(line));
            var full := Route(world, ScannedCommands(world), line);
            one == full <==> !HintUnlooked(world, Trim(line))
  {
    hide Split, Head, OneShotNames, ScannedCommands, PlainPath, EarlyVerdict, LateVerdict, Trim, LooksLikeCollision,
         OnPath, IsBuiltinName, Carried;
    var t := Trim(line);
    TrimIdempotent(line);
    OneShotDecidesAlike(world, line);
    CarriedIsNormalized(world, ScannedCommands(world), t);
    if Head(Carried(t)).Token? {
      NameLookedUp(world, t, Head(Carried(t)).token);
    }
  }

  /** A name is known to the scan and not to the one-shot set exactly when it is on the PATH and was not looked up. */
  lemma NameLookedUp(world: World, line: string, name: string)
    ensures name in OneShotNames(world, line) ==> name in ScannedCommands(world)
    ensures name in ScannedCommands(world) && name !in OneShotNames(world, line)
            <==> OnPath(world, name) && !IsBuiltinName(name) && name !in SegmentHeads(Split(line))
  {
    hide Split, FALLBACK_BUILTINS, INTERCEPTED, SegmentHeads;
  }

  lemma OneWord(word: string)
    requires word != "" && forall i :: 0 <= i < |word| ==> !IsWhitespace(word[i])
    ensures Word(word) == word && Tokenize(word) == [word] && Trim(word) == word
    ensures !IsAssignment(word) ==> Head(word) == Token(word)
  {
    hide IsAssignment;
    WholeWord(word);
    assert word[|word|..] == "";
    TrimTwice(word);
    assert Tokenize(word) == [word] + Tokenize("");
  }

  lemma {:induction false} WholeWord(word: string)
    requires forall i :: 0 <= i < |word| ==> !IsWhitespace(word[i])
    ensures Word(word) == word
  {
    if word != "" {
      WholeWord(word[1..]);
    }
  }

  lemma NoEqualsNoAssignment(word: string)
    requires '=' !in word
    ensures !IsAssignment(word)
  {
  }

  lemma LetterJoins(cur: string, c: char, next: Option<char>)
    requires IsAlphabetic(c) || c == '?' || c == '=' || c == ' '
    ensures Classify(Scan(cur, false, false, false, 0), c, next) == Take(Scan(cur + [c], false, false, false, 0))
  {
    hide EndsWithArrow;
  }

  lemma SplitDropsOperator()
    ensures Split("a;") == ["a"]
  {
    hide Pieces, EndsWithArrow;
    LetterJoins("", 'a', Peek("a;"));
    TakeOne(BEGIN, "a;", ";", Scan("a", false, false, false, 0));
    CutOne(Scan("a", false, false, false, 0), ";", "");
    assert Fresh(Scan("a", false, false, false, 0)) == BEGIN;
    NothingLeft(BEGIN);
    assert ["a"] + [""] == ["a", ""] && ["a", ""][1..] == [""];
    TrimTwice("a");
    TrimTwice("");
  }

  lemma NoEarlyVerdict()
    ensures EarlyVerdict(World(map[], {"a;"}, {}), "a;") == None
  {
    hide IsAssignmentHead, FunctionName, IsConstruct, LooksLikeQuestion, Head, Tokenize, Word, INTERCEPTED, SlashWords,
         IsAssignment;
    OneWord("a;");
    NoEqualsNoAssignment("a;");
    NoShape();
    assert SlashWords(World(map[], {"a;"}, {}), "a;") == None by {
      NoSlashWords();
    }
    NotIntercepted();
  }

  lemma NoSlashWords()
    ensures SlashWords(World(map[], {"a;"}, {}), "a;") == None
  {
    hide Tokenize;
  }

  lemma NoShape()
    ensures !IsAssignmentHead("a;") && FunctionName("a;") == None && !IsConstruct("a;") && !LooksLikeQuestion("a;")
  {
    NoConstruct();
    NoQuestion();
    NoAssignmentHead();
  }

  lemma NoAssignmentHead()
    ensures !IsAssignmentHead("a;")
  {
  }

  lemma NoConstruct()
    ensures !IsConstruct("a;")
  {
  }

  lemma NoQuestion()
    ensures !LooksLikeQuestion("a;")
  {
    OneWord("a;");
    assert HasShellEvidence("a;") by {
      assert "a;"[1] in SHELL_EVIDENCE;
    }
  }

  lemma NotIntercepted()
    ensures "a;" !in INTERCEPTED
  {
  }

  lemma NotAmongFirst(name: string)
    requires |name| == 2 && (name[1] == ';' || name[0] == 'l')
    ensures name !in BUILTINS_TO_KILL && name !in BUILTINS_TO_TYPE
  {
  }

  lemma NotAmongLast(name: string)
    requires |name| == 2 && (name[1] == ';' || name[0] == 'l')
    ensures name !in BUILTINS_TO_FG && name !in BUILTINS_TO_ZCOMPILE
  {
  }

  lemma NoBuiltin(name: string)
    requires |name| == 2 && (name[1] == ';' || name[0] == 'l')
    ensures name !in FALLBACK_BUILTINS
  {
    hide BUILTINS_TO_KILL, BUILTINS_TO_TYPE, BUILTINS_TO_FG, BUILTINS_TO_ZCOMPILE;
    NotAmongFirst(name);
    NotAmongLast(name);
  }

  lemma ListIsNotIntercepted(name: string)
    requires |name| == 2 && name[0] == 'l'
    ensures name !in INTERCEPTED
  {
  }

  /** An executable named `a;` is found by a scan and not by looking up the segment's head `a`. */
  lemma OperatorNamesAreMissed()
    ensures var world := World(map[], {"a;"}, {});
            && Route(world, ScannedCommands(world), "a;").verdict.dispatch == Shell("a;")
            && Route(world, OneShotNames(world, "a;"), "a;").verdict.dispatch == NaturalLanguage("a;")
  {
    hide Split, EarlyVerdict, Tokenize, FALLBACK_BUILTINS, INTERCEPTED, IsAssignment, Trim, Head, LooksLikeCollision;
    var world := World(map[], {"a;"}, {});
    OneWord("a;");
    NoEqualsNoAssignment("a;");
    OneWord("a");
    NoEqualsNoAssignment("a");
    SplitDropsOperator();
    NoEarlyVerdict();
    NotIntercepted();
    NoBuiltin("a;");
    KnownOnlyToScan(world, "a;", ["a"], "a");
    assert LateVerdict(ScannedCommands(world), "a;").dispatch == Shell("a;");
  }

  lemma KnownOnlyToScan(world: World, name: string, segments: seq<string>, head: string)
    requires OnPath(world, name) && segments != []
    ensures name in ScannedCommands(world)
    ensures !IsBuiltinName(name) && segments == [segments[0]] && Head(segments[0]) == Token(head) && head != name ==>
              name !in FALLBACK_BUILTINS + INTERCEPTED + VerifiedHeads(world, segments)
  {
    hide Head, FALLBACK_BUILTINS, INTERCEPTED;
  }

  /** After a sigil only the full scan knows whether the words that follow start with a command. */
  lemma SigilHidesKnownCommand()
    ensures var world := World(map[], {"ls"}, {});
            var one := Route(world, OneShotNames(world, "?ls"), "?ls");
            var full := Route(world, ScannedCommands(world), "?ls");
            one.verdict == full.verdict && !one.knownCommand && full.knownCommand
  {
    hide Split, Tokenize, FALLBACK_BUILTINS, INTERCEPTED, IsAssignment, Trim, Head, LooksLikeCollision;
    var world := World(map[], {"ls"}, {});
    OneWord("?ls");
    NoEqualsNoAssignment("?ls");
    OneWord("ls");
    NoEqualsNoAssignment("ls");
    assert "?ls"[1..] == "ls";
    SplitKeepsWord();
    NoBuiltin("ls");
    ListIsNotIntercepted("ls");
    KnownOnlyToScan(world, "ls", ["?ls"], "?ls");
  }

  lemma SplitKeepsWord()
    ensures Split("?ls") == ["?ls"]
  {
    hide Pieces, EndsWithArrow;
    LetterJoins("", '?', Peek("?ls"));
    LetterJoins("?", 'l', Peek("ls"));
    LetterJoins("?l", 's', Peek("s"));
    TakeOne(BEGIN, "?ls", "ls", Scan("?", false, false, false, 0));
    TakeOne(Scan("?", false, false, false, 0), "ls", "s", Scan("?l", false, false, false, 0));
    TakeOne(Scan("?l", false, false, false, 0), "s", "", Scan("?ls", false, false, false, 0));
    NothingLeft(Scan("?ls", false, false, false, 0));
    OneWord("?ls");
    KeptOne("?ls");
  }

  lemma SplitAtAssignment()
    ensures Split("A=;b ls") == ["A=", "b ls"]
  {
    hide Pieces, EndsWithArrow;
    LetterJoins("", 'A', Peek("A=;b ls"));
    LetterJoins("A", '=', Peek("=;b ls"));
    TakeOne(BEGIN, "A=;b ls", "=;b ls", Scan("A", false, false, false, 0));
    TakeOne(Scan("A", false, false, false, 0), "=;b ls", ";b ls", Scan("A=", false, false, false, 0));
    CutOne(Scan("A=", false, false, false, 0), ";b ls", "b ls");
    assert Fresh(Scan("A=", false, false, false, 0)) == BEGIN;
    PlainPiece();
    assert ["A="] + ["b ls"] == ["A=", "b ls"];
    KeptTwo("A=", "b ls");
  }

  lemma PlainPiece()
    ensures Pieces(BEGIN, "b ls") == ["b ls"]
  {
    hide Pieces, EndsWithArrow;
    LetterJoins("", 'b', Peek("b ls"));
    LetterJoins("b", ' ', Peek(" ls"));
    LetterJoins("b ", 'l', Peek("ls"));
    LetterJoins("b l", 's', Peek("s"));
    TakeOne(BEGIN, "b ls", " ls", Scan("b", false, false, false, 0));
    TakeOne(Scan("b", false, false, false, 0), " ls", "ls", Scan("b ", false, false, false, 0));
    TakeOne(Scan("b ", false, false, false, 0), "ls", "s", Scan("b l", false, false, false, 0));
    TakeOne(Scan("b l", false, false, false, 0), "s", "", Scan("b ls", false, false, false, 0));
    NothingLeft(Scan("b ls", false, false, false, 0));
  }

  /** The head behind a first word. */
  lemma HeadBehind(first: string, rest: string)
    requires first != "" && forall i :: 0 <= i < |first| ==> !IsWhitespace(first[i])
    ensures Tokenize(first + (" " + rest)) == [first] + Tokenize(rest)
  {
    var text := first + (" " + rest);
    WholeWord(first);
    WordGoesOn(first, " " + rest);
    assert first + Word(" " + rest) == first;
    assert text[|first|..] == " " + rest && (" " + rest)[1..] == rest;
    assert Tokenize(" " + rest) == Tokenize(rest);
  }

  lemma AssignmentHeads()
    ensures Head("A=;b ls") == Token("ls") && Head("A=").AssignmentsOnly? && Head("b ls") == Token("b")
  {
    hide Tokenize, IsAssignment;
    assert "A=;b ls" == "A=;b" + (" " + "ls") && "b ls" == "b" + (" " + "ls");
    HeadBehind("A=;b", "ls");
    HeadBehind("b", "ls");
    OneWord("ls");
    OneWord("A=");
    NoEqualsNoAssignment("ls");
    NoEqualsNoAssignment("b");
    NamedA("A=;b");
    NamedA("A=");
    assert ["A=;b"] + ["ls"] == ["A=;b", "ls"] && ["A=;b", "ls"][1..] == ["ls"] && ["A="][1..] == [];
  }

  lemma NamedA(word: string)
    requires |word| >= 2 && word[0] == 'A' && word[1] == '='
    ensures IsAssignment(word)
  {
    assert word[1..][0] == '=';
    assert word[..1] == "A";
  }

  lemma AssignmentIsUnlooked()
    ensures HintUnlooked(World(map[], {"ls"}, {}), "A=;b ls")
  {
    hide Split, Head, FALLBACK_BUILTINS, INTERCEPTED;
    SplitAtAssignment();
    AssignmentHeads();
    NoBuiltin("ls");
    ListIsNotIntercepted("ls");
    assert SegmentHeads(["A=", "b ls"]) == {"b"};
  }

  /** Without a sigil too: behind an assignment glued to an operator the line's own head may be no segment's head. */
  lemma AssignmentHidesKnownCommand()
    ensures var world := World(map[], {"ls"}, {});
            Route(world, OneShotNames(world, "A=;b ls"), "A=;b ls") != Route(world, ScannedCommands(world), "A=;b ls")
  {
    hide Split, Head, Trim, OneShotNames, ScannedCommands, RouteVerdict, Decide, HintUnlooked;
    var world := World(map[], {"ls"}, {});
    AssignmentIsUnlooked();
    assert "A=;b ls"[0] == 'A' && "A=;b ls"[|"A=;b ls"| - 1] == 's';
    TrimTwice("A=;b ls");
    assert forall i :: 0 <= i < |"ls"| ==> !IsOperatorChar("ls"[i]);
    HintDiffersExactly(world, "A=;b ls");
  }
}
