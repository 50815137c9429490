/** What each kind of line is taken for. */
module RouteRules {
  import opened Wrappers
  import opened Text
  import opened Segments
  import opened SegmentCuts
  import opened Router
  import opened RouteShapes

  // ----- lines whose answer depends on command names -----

  /** The answer depends on the command names: no sigil, slash command, builtin, shell syntax, definition, control
      structure, assignment or question decides the line. */
  predicate Undecided(world: World, line: string) {
    EarlyVerdict(world, Trim(line)).None?
  }

  /** A segment that names a command nobody knows. */
  predicate NamesNoCommand(commands: set<string>, segment: string) {
    && !IsAssignmentHead(segment)
    && Head(segment).Token?
    && Head(segment).token !in commands
    && Head(segment).token !in
       {"if", "then", "elif", "else", "fi", "case", "esac", "in", "for", "select", "while", "until", "do", "done",
        "repeat", "function", "time", "{", "}", "[", "[[", "((", "!"}
  }

  lemma ShellIsNamed(commands: set<string>, segment: string)
    ensures SegmentIsShell(commands, segment) <==> !NamesNoCommand(commands, segment)
  {
    hide Head, IsAssignmentHead;
  }

  /** A compound line runs exactly when none of its segments names an unknown command; one that does sends the whole
      line to the agent, unchanged. */
  lemma CompoundRunsExactly(world: World, commands: set<string>, line: string)
    requires Undecided(world, line) && |Split(Trim(line))| > 1
    ensures var verdict := Route(world, commands, line).verdict;
            if exists segment <- Split(Trim(line)) :: NamesNoCommand(commands, segment)
            then verdict.dispatch == NaturalLanguage(Trim(line)) && verdict.reason == CompoundUnknown
            else verdict.dispatch == Shell(Trim(line)) && verdict.reason == CompoundShell
  {
    hide EarlyVerdict, Split, Head, Trim, SegmentIsShell, NamesNoCommand, LooksLikeCollision;
    var segments := Split(Trim(line));
    forall k | 0 <= k < |segments|
      ensures SegmentIsShell(commands, segments[k]) <==> !NamesNoCommand(commands, segments[k])
    {
      ShellIsNamed(commands, segments[k]);
    }
    if segment :| segment in segments && NamesNoCommand(commands, segment) {
      var k: nat :| k < |segments| && segments[k] == segment;
      assert !SegmentIsShell(commands, segments[k]);
    }
  }

  /** A line of one segment runs exactly when its head is a known command. */
  lemma SimpleRunsExactly(world: World, commands: set<string>, line: string)
    requires Undecided(world, line) && |Split(Trim(line))| <= 1
    ensures var verdict := Route(world, commands, line).verdict;
            if Head(Trim(line)).Token? && Head(Trim(line)).token in commands
            then verdict.dispatch == Shell(Trim(line)) && verdict.reason == KnownCommand
            else verdict.dispatch == NaturalLanguage(Trim(line)) && verdict.reason == UnknownInput
  {
    hide EarlyVerdict, Split, Head, Trim, LooksLikeCollision;
  }

  /** Two parts around an operator run exactly when both name known commands. */
  lemma TwoPartsRun(world: World, commands: set<string>, a: string, op: string, b: string)
    requires IsOperator(op) && After(BARE, a) == BARE && !ArrowBefore(a) && (a != "" ==> a[|a| - 1] != '&')
    requires Split(a) == [a] && Split(b) == [b] && Undecided(world, a + op + b) && Trim(a + op + b) == a + op + b
    ensures Route(world, commands, a + op + b).verdict.dispatch
            == if NamesNoCommand(commands, a) || NamesNoCommand(commands, b) then NaturalLanguage(a + op + b)
               else Shell(a + op + b)
  {
    hide EarlyVerdict, Split, Trim, NamesNoCommand, Route;
    SplitsAtOperator(a, op, b);
    CompoundRunsExactly(world, commands, a + op + b);
    assert Split(a + op + b) == [a, b];
    assert a in [a, b] && b in [a, b];
  }

  /** What the fast path admits among such lines: the same rule, with the executables and builtins it looks up. */
  lemma FastPathRunsExactly(world: World, line: string)
    requires Undecided(world, line) && |Split(Trim(line))| > 1 && !("/" <= Trim(line))
    ensures Admitted(world, line) ==
            if exists segment <- Split(Trim(line)) :: NamesNoCommand(OneShotNames(world, Trim(line)), segment) then None
            else Some(Trim(line))
  {
    hide EarlyVerdict, Split, Trim, NamesNoCommand, Route, OneShotNames;
    TrimIdempotent(line);
    CompoundRunsExactly(world, OneShotNames(world, Trim(line)), Trim(line));
  }

  // ----- hints -----

  /** A phrase of at least three words that begins like a command and uses neither its options nor shell grammar. */
  predicate ReadsLikePhrase(text: string) {
    && |Tokenize(text)| >= 3
    && Lower(Tokenize(text)[0]) in
       {"what", "who", "where", "time", "history", "find", "open", "install", "read", "type", "test", "source", "say",
        "yes", "true", "false"}
    && (forall i :: 1 <= i < |Tokenize(text)| ==> !("-" <= Tokenize(text)[i]))
    && !HoldsAny(text, "|;&<>$`(){}")
  }

  /** The hints that come with a decision: the head of what is carried on, whether it is a known command, and whether a
      known command's name may have been meant as a word. */
  lemma HintsAreExact(world: World, commands: set<string>, line: string)
    ensures var decision := Route(world, commands, line);
            var carried := Carried(Trim(line));
            && decision.head == (if Head(carried).Token? then Some(Head(carried).token) else None)
            && (decision.knownCommand <==> Head(carried).Token? && Head(carried).token in commands)
            && (decision.ambiguous
                <==> decision.knownCommand
                     && (decision.verdict.reason == QuestionGrammar || ReadsLikePhrase(carried)))
  {
    hide Trim, Split, Head, EarlyVerdict, LateVerdict, Carried, ReadsLikePhrase, LooksLikeCollision;
    CarriedIsNormalized(world, commands, Trim(line));
    CollisionIsPhrase(Carried(Trim(line)));
  }

  lemma CollisionIsPhrase(text: string)
    ensures LooksLikeCollision(text) <==> ReadsLikePhrase(text)
  {
    hide Tokenize, Lower;
    if !HoldsAny(text, "|;&<>$`(){}") {
      NoEvidence(text);
    } else {
      EvidenceIsHeld(text);
    }
    hide SHELL_EVIDENCE;
  }

  lemma EvidenceIsHeld(text: string)
    requires HoldsAny(text, "|;&<>$`(){}")
    ensures HasShellEvidence(text)
  {
    var c :| c in text && c in "|;&<>$`(){}";
    var i: nat :| i < |text| && text[i] == c;
    assert text[i] in SHELL_EVIDENCE;
  }

  /** Only a bare name is looked up on the PATH. */
  lemma OnlyNamesAreLookedUp(world: World, line: string, name: string)
    ensures name in ScannedCommands(world) || name in OneShotNames(world, line) ==>
              IsBuiltinName(name) || (name != "" && '/' !in name && name in world.path)
  {
    hide Split, Head, FALLBACK_BUILTINS, INTERCEPTED;
  }

  /** The shell's builtins that are known without asking it, by name. */
  predicate IsShellBuiltin(name: string) {
    || name in {"alias", "autoload", "bindkey", "command", "compgen", "declare", "echo", "eval", "exec", "fc",
                "getopts", "hash", "jobs", "kill"}
    || name in {"let", "local", "print", "printf", "pushd", "popd", "read", "readonly", "set", "setopt", "shift",
                "test", "trap", "type"}
    || name in {"typeset", "ulimit", "umask", "wait", "which", "zmodload", "cd", "export", "unset", "source", "true",
                "false", "bg", "fg"}
    || name in {"disown", "enable", "disable", "where", "whence", ":", "repeat", "noglob", "unsetopt", "integer",
                "float", "unhash", "unfunction", "zcompile"}
  }

  lemma BuiltinsBySet(name: string)
    ensures IsShellBuiltin(name) <==>
            || name in BUILTINS_TO_KILL || name in BUILTINS_TO_TYPE || name in BUILTINS_TO_FG
            || name in BUILTINS_TO_ZCOMPILE
  {
  }

  /** They are known on every line and every PATH. */
  lemma BuiltinsAreKnown(world: World, line: string, name: string)
    ensures IsShellBuiltin(name) <==> name in FALLBACK_BUILTINS
    ensures IsShellBuiltin(name) ==> name in OneShotNames(world, line) && name in ScannedCommands(world)
  {
    hide Split, Head, IsShellBuiltin, BUILTINS_TO_KILL, BUILTINS_TO_TYPE, BUILTINS_TO_FG, BUILTINS_TO_ZCOMPILE,
         INTERCEPTED;
    BuiltinsBySet(name);
  }
}
