/** Shell words: the splitter that reads them and the two printers that write them. */
module Quoting {
  import opened Wrappers
  import opened Text

  // ----- split_hook_words -----

  /** Where the splitter stands between two characters. */
  datatype Splitter = Splitter(words: seq<string>, word: string, quote: Option<char>, escaped: bool, started: bool)

  const START := Splitter([], "", None, false, false)

  /** Characters a backslash escapes inside double quotes; newline keeps its character. */
  predicate EscapedInDouble(next: Option<char>) {
    next.Some? && next.value in ['$', '`', '"', '\\', '\n']
  }

  /** One character, with the next one in sight. */
  function Step(s: Splitter, c: char, next: Option<char>): Splitter {
    if s.escaped then s.(word := s.word + [c], escaped := false, started := true)
    else if c == '\\' && s.quote != Some('\'') then
      if s.quote == Some('"') && !EscapedInDouble(next) then s.(word := s.word + [c], started := true)
      else s.(escaped := true, started := true)
    else if c == '\'' || c == '"' then
      if s.quote == Some(c) then s.(quote := None)
      else if s.quote.None? then s.(quote := Some(c), started := true)
      else s.(word := s.word + [c])
    else if IsWhitespace(c) && s.quote.None? then
      if s.started then s.(words := s.words + [s.word], word := "", started := false) else s
    else s.(word := s.word + [c], started := true)
  }

  function Run(s: Splitter, input: string): Splitter
    decreases |input|
  {
    if input == "" then s else Run(Step(s, input[0], Peek(input)), input[1..])
  }

  function Finish(s: Splitter): Result<seq<string>, string> {
    if s.escaped || s.quote.Some? then Err("unterminated quote or escape")
    else Ok(if s.started then s.words + [s.word] else s.words)
  }

  function Split(input: string): Result<seq<string>, string> {
    Finish(Run(START, input))
  }

  /** split_hook_words: one pass over the characters. */
  method SplitHookWords(input: string) returns (r: Result<seq<string>, string>)
    ensures r == Split(input)
  {
    var words: seq<string> := [];
    var word := "";
    var quote: Option<char> := None;
    var escaped, started := false, false;
    for i := 0 to |input|
      invariant Run(START, input) == Run(Splitter(words, word, quote, escaped, started), input[i..])
    {
      var character := input[i];
      ghost var next := Peek(input[i..]);
      if escaped {
        word := word + [character];
        escaped := false;
        started := true;
      } else if character == '\\' && quote != Some('\'') {
        if quote == Some('"') && !(i + 1 < |input| && input[i + 1] in ['$', '`', '"', '\\', '\n']) {
          word := word + [character];
        } else {
          escaped := true;
        }
        started := true;
      } else if character == '\'' || character == '"' {
        if quote == Some(character) {
          quote := None;
        } else if quote.None? {
          quote := Some(character);
          started := true;
        } else {
          word := word + [character];
        }
      } else if IsWhitespace(character) && quote.None? {
        if started {
          words := words + [word];
          word := "";
          started := false;
        }
      } else {
        word := word + [character];
        started := true;
      }
    }
    if escaped || quote.Some? {
      return Err("unterminated quote or escape");
    }
    if started {
      words := words + [word];
    }
    return Ok(words);
  }

  // ----- the printers -----

  /** Each single quote closes the quoting, is escaped, and reopens it. */
  function EscapeQuotes(v: string): string {
    if v == "" then ""
    else (if v[0] == '\'' then "'\\''" else [v[0]]) + EscapeQuotes(v[1..])
  }

  function SingleQuoted(v: string): string {
    "'" + EscapeQuotes(v) + "'"
  }

  predicate IsPlain(v: string) {
    forall i :: 0 <= i < |v| ==> IsAlphanumeric(v[i]) || v[i] in ['/', '.', '_', '-']
  }

  /** shell_display_arg */
  function DisplayArg(v: string): string {
    if IsPlain(v) then v else SingleQuoted(v)
  }

  function Join(parts: seq<string>): string {
    if parts == [] then ""
    else if |parts| == 1 then parts[0]
    else parts[0] + " " + Join(parts[1..])
  }

  function Printed(args: seq<string>, print1: string -> string): seq<string> {
    seq(|args|, i requires 0 <= i < |args| => print1(args[i]))
  }

  // ----- reading back one printed argument -----

  predicate Outside(s: Splitter) {
    s.quote.None? && !s.escaped
  }

  lemma ReadFirst(s: Splitter, c: char, rest: string)
    ensures Run(s, [c] + rest) == Run(Step(s, c, Peek([c] + rest)), rest)
  {
    hide Step;
    assert ([c] + rest)[1..] == rest;
  }

  lemma PlainStep(s: Splitter, c: char, next: Option<char>)
    requires Outside(s) && IsPlain([c])
    ensures Step(s, c, next) == s.(word := s.word + [c], started := true)
  {
    assert [c][0] == c;
  }

  lemma {:induction false} ReadPlain(s: Splitter, v: string, rest: string)
    requires Outside(s) && IsPlain(v)
    ensures Run(s, v + rest) == Run(s.(word := s.word + v, started := s.started || v != ""), rest)
    decreases |v|
  {
    hide Run, Step;
    if v == "" {
      assert v + rest == rest && s.word + v == s.word;
    } else {
      var c, more := v[0], v[1..];
      assert [c] + (more + rest) == v + rest;
      ReadFirst(s, c, more + rest);
      PlainStep(s, c, Peek(v + rest));
      ReadPlain(s.(word := s.word + [c], started := true), more, rest);
      assert s.word + [c] + more == s.word + v;
    }
  }

  /** One literal character inside single quotes. */
  lemma ReadLiteral(s: Splitter, c: char, rest: string)
    requires s.quote == Some('\'') && !s.escaped && s.started && c != '\''
    ensures Run(s, [c] + rest) == Run(s.(word := s.word + [c]), rest)
  {
    assert ([c] + rest)[1..] == rest;
  }

  /** The four characters that stand for a single quote. */
  lemma ReadEscapedQuote(s: Splitter, rest: string)
    requires s.quote == Some('\'') && !s.escaped && s.started
    ensures Run(s, "'\\''" + rest) == Run(s.(word := s.word + "'"), rest)
  {
    var i0, i1, i2 := "'\\''" + rest, "\\''" + rest, "''" + rest;
    var i3 := "'" + rest;
    assert i0[1..] == i1 && i1[1..] == i2 && i2[1..] == i3 && i3[1..] == rest;
    var t := s.(quote := None);
    assert Run(s, i0) == Run(t, i1);
    assert Run(t, i1) == Run(t.(escaped := true), i2);
    assert Run(t.(escaped := true), i2) == Run(t.(word := s.word + "'"), i3);
    assert Run(t.(word := s.word + "'"), i3) == Run(s.(word := s.word + "'"), rest);
  }

  lemma EscapeStep(c: char, v: string, rest: string)
    ensures EscapeQuotes([c] + v) + rest == (if c == '\'' then "'\\''" else [c]) + (EscapeQuotes(v) + rest)
  {
    assert ([c] + v)[1..] == v;
  }

  lemma EscapeNothing(rest: string)
    ensures EscapeQuotes("") + rest == rest
  {
  }

  lemma {:induction false} ReadEscaped(s: Splitter, v: string, rest: string)
    requires s.quote == Some('\'') && !s.escaped && s.started
    ensures Run(s, EscapeQuotes(v) + rest) == Run(s.(word := s.word + v), rest)
    decreases |v|
  {
    hide Step, Run, EscapeQuotes;
    if v == "" {
      EscapeNothing(rest);
      assert s.word + v == s.word;
    } else {
      var c, more := v[0], v[1..];
      assert [c] + more == v && s.word + [c] + more == s.word + v;
      EscapeStep(c, more, rest);
      if c == '\'' {
        ReadEscapedQuote(s, EscapeQuotes(more) + rest);
      } else {
        ReadLiteral(s, c, EscapeQuotes(more) + rest);
      }
      ReadEscaped(s.(word := s.word + [c]), more, rest);
    }
  }

  lemma ReadQuote(s: Splitter, rest: string)
    requires !s.escaped && (s.quote.None? || s.quote == Some('\''))
    ensures Run(s, "'" + rest)
            == Run(if s.quote.None? then s.(quote := Some('\''), started := true) else s.(quote := None), rest)
  {
    assert ("'" + rest)[1..] == rest;
  }

  lemma ReadSingleQuoted(s: Splitter, v: string, rest: string)
    requires Outside(s)
    ensures Run(s, SingleQuoted(v) + rest) == Run(s.(word := s.word + v, started := true), rest)
  {
    hide Step, Run;
    assert SingleQuoted(v) + rest == "'" + (EscapeQuotes(v) + ("'" + rest));
    ReadQuote(s, EscapeQuotes(v) + ("'" + rest));
    var open := s.(quote := Some('\''), started := true);
    ReadEscaped(open, v, "'" + rest);
    ReadQuote(open.(word := s.word + v), rest);
  }

  lemma ReadArg(s: Splitter, v: string, rest: string)
    requires Outside(s)
    ensures Run(s, DisplayArg(v) + rest) == Run(s.(word := s.word + v, started := s.started || v != ""), rest)
  {
    hide Step, Run;
    if IsPlain(v) {
      ReadPlain(s, v, rest);
    } else {
      ReadSingleQuoted(s, v, rest);
    }
  }

  lemma ReadSpace(s: Splitter, rest: string)
    requires Outside(s)
    ensures Run(s, " " + rest)
            == Run(if s.started then s.(words := s.words + [s.word], word := "", started := false) else s, rest)
  {
    assert (" " + rest)[1..] == rest;
  }

  // ----- whole command lines -----

  function NonEmpty(args: seq<string>): seq<string> {
    if args == [] then [] else (if args[0] == "" then [] else [args[0]]) + NonEmpty(args[1..])
  }

  /** A splitter between two words. */
  function Between(words: seq<string>): Splitter {
    Splitter(words, "", None, false, false)
  }

  /** The words once one more argument is read; an empty one was printed as nothing. */
  function With(words: seq<string>, arg: string): seq<string> {
    if arg == "" then words else words + [arg]
  }

  lemma ReadOne(words: seq<string>, arg: string)
    ensures Finish(Run(Between(words), DisplayArg(arg))) == Ok(With(words, arg))
  {
    hide Step, Run, DisplayArg;
    var s := Between(words);
    assert DisplayArg(arg) + "" == DisplayArg(arg);
    ReadArg(s, arg, "");
    assert "" + arg == arg;
    RunNothing(s.(word := arg, started := arg != ""));
  }

  lemma ReadOneAndSpace(words: seq<string>, arg: string, rest: string)
    ensures Run(Between(words), DisplayArg(arg) + (" " + rest)) == Run(Between(With(words, arg)), rest)
  {
    hide Step, Run, DisplayArg;
    var s := Between(words);
    ReadArg(s, arg, " " + rest);
    assert "" + arg == arg;
    ReadSpace(s.(word := arg, started := arg != ""), rest);
  }

  lemma JoinFirst(first: string, more: seq<string>)
    ensures Join([first] + more) == if more == [] then first else first + (" " + Join(more))
  {
    assert ([first] + more)[1..] == more;
  }

  lemma NonEmptyFirst(words: seq<string>, first: string, more: seq<string>)
    ensures words + NonEmpty([first] + more) == With(words, first) + NonEmpty(more)
  {
    assert ([first] + more)[1..] == more;
  }

  lemma NonEmptyNothing(words: seq<string>)
    ensures words + NonEmpty([]) == words
  {
  }

  lemma {:induction false} ReadDisplayed(words: seq<string>, args: seq<string>)
    ensures Finish(Run(Between(words), Join(Printed(args, DisplayArg)))) == Ok(words + NonEmpty(args))
    decreases |args|
  {
    hide Step, Run, DisplayArg, Join, NonEmpty;
    if args == [] {
      RunNothing(Between(words));
      NonEmptyNothing(words);
      JoinNothing();
    } else {
      var arg, more := args[0], args[1..];
      var rest := Printed(more, DisplayArg);
      assert Printed(args, DisplayArg) == [DisplayArg(arg)] + rest && [arg] + more == args;
      JoinFirst(DisplayArg(arg), rest);
      NonEmptyFirst(words, arg, more);
      if more == [] {
        ReadOne(words, arg);
        NonEmptyNothing(With(words, arg));
      } else {
        ReadOneAndSpace(words, arg, Join(rest));
        ReadDisplayed(With(words, arg), more);
      }
    }
  }

  lemma JoinNothing()
    ensures Join([]) == ""
  {
  }

  lemma RunNothing(s: Splitter)
    ensures Run(s, "") == s
  {
  }

  lemma {:induction false} NothingDropped(args: seq<string>)
    ensures |NonEmpty(args)| <= |args|
    ensures NonEmpty(args) == args <==> forall i :: 0 <= i < |args| ==> args[i] != ""
  {
    if args != [] {
      NothingDropped(args[1..]);
      assert args == [args[0]] + args[1..];
    }
  }

  /** The displayed command line always parses. It parses back to the arguments it was printed
      from exactly when none of them is empty: an empty argument prints as nothing. */
  lemma DisplayRoundTrip(args: seq<string>)
    ensures Split(Join(Printed(args, DisplayArg))) == Ok(NonEmpty(args))
    ensures Split(Join(Printed(args, DisplayArg))) == Ok(args) <==> forall i :: 0 <= i < |args| ==> args[i] != ""
  {
    hide Run, DisplayArg;
    ReadDisplayed([], args);
    assert [] + NonEmpty(args) == NonEmpty(args);
    NothingDropped(args);
  }

  lemma {:induction false} ReadQuoted(words: seq<string>, args: seq<string>)
    ensures Finish(Run(Between(words), Join(Printed(args, SingleQuoted)))) == Ok(words + args)
    decreases |args|
  {
    hide Step, Run, SingleQuoted;
    var s := Between(words);
    if args == [] {
      RunNothing(s);
      assert words + args == words;
    } else {
      var parts := Printed(args, SingleQuoted);
      assert parts[1..] == Printed(args[1..], SingleQuoted);
      assert "" + args[0] == args[0];
      if |args| == 1 {
        assert Join(parts) == SingleQuoted(args[0]) + "";
        ReadSingleQuoted(s, args[0], "");
        RunNothing(s.(word := "" + args[0], started := true));
        assert words + args == words + [args[0]];
      } else {
        var rest := Join(parts[1..]);
        assert Join(parts) == SingleQuoted(args[0]) + (" " + rest);
        ReadSingleQuoted(s, args[0], " " + rest);
        ReadSpace(s.(word := "" + args[0], started := true), rest);
        ReadQuoted(words + [args[0]], args[1..]);
        assert words + [args[0]] + args[1..] == words + args;
      }
    }
  }

  /** The form that always quotes round-trips every list of arguments, empty ones included. */
  lemma QuotedRoundTrip(args: seq<string>)
    ensures Split(Join(Printed(args, SingleQuoted))) == Ok(args)
  {
    hide Run, SingleQuoted;
    ReadQuoted([], args);
    assert [] + args == args;
  }

  // ----- double quotes, escapes and plain text -----

  /** A backslash in front of each of the four characters that need one between double quotes. */
  function EscapeDouble(v: string): string {
    if v == "" then ""
    else (if v[0] == '$' || v[0] == '`' || v[0] == '"' || v[0] == '\\' then ['\\', v[0]] else [v[0]])
         + EscapeDouble(v[1..])
  }

  function DoubleQuoted(v: string): string {
    "\"" + EscapeDouble(v) + "\""
  }

  lemma EscapeDoubleStep(c: char, v: string, rest: string)
    ensures EscapeDouble([c] + v) + rest
            == (if c == '$' || c == '`' || c == '"' || c == '\\' then ['\\', c] else [c]) + (EscapeDouble(v) + rest)
  {
    assert ([c] + v)[1..] == v;
  }

  /** Between double quotes every other character stands for itself. */
  lemma ReadInDouble(s: Splitter, c: char, rest: string)
    requires s.quote == Some('"') && !s.escaped && s.started && c != '"' && c != '\\'
    ensures Run(s, [c] + rest) == Run(s.(word := s.word + [c]), rest)
  {
    assert ([c] + rest)[1..] == rest;
  }

  /** Between double quotes a backslash takes the special character behind it, and is itself kept before any other. */
  lemma ReadBackslashInDouble(s: Splitter, c: char, rest: string)
    requires s.quote == Some('"') && !s.escaped && s.started
    ensures c == '$' || c == '`' || c == '"' || c == '\\' || c == '\n' ==>
              Run(s, "\\" + ([c] + rest)) == Run(s.(word := s.word + [c]), rest)
    ensures !(c == '$' || c == '`' || c == '"' || c == '\\' || c == '\n') ==>
              Run(s, "\\" + ([c] + rest)) == Run(s.(word := s.word + "\\" + [c]), rest)
  {
    var i0, i1 := "\\" + ([c] + rest), [c] + rest;
    assert i0[1..] == i1 && i1[1..] == rest;
    if c == '$' || c == '`' || c == '"' || c == '\\' || c == '\n' {
      assert Run(s, i0) == Run(s.(escaped := true), i1);
      assert Run(s.(escaped := true), i1) == Run(s.(word := s.word + [c]), rest);
    } else {
      assert Run(s, i0) == Run(s.(word := s.word + "\\"), i1);
    }
  }

  /** Outside quotes a backslash takes whatever is behind it. */
  lemma ReadBackslash(s: Splitter, c: char, rest: string)
    requires Outside(s)
    ensures Run(s, "\\" + ([c] + rest)) == Run(s.(word := s.word + [c], started := true), rest)
  {
    var i0, i1 := "\\" + ([c] + rest), [c] + rest;
    assert i0[1..] == i1 && i1[1..] == rest;
    assert Run(s, i0) == Run(s.(escaped := true, started := true), i1);
  }

  lemma EscapeDoubleNothing(rest: string)
    ensures EscapeDouble("") + rest == rest
  {
  }

  lemma {:induction false} ReadEscapedDouble(s: Splitter, v: string, rest: string)
    requires s.quote == Some('"') && !s.escaped && s.started
    ensures Run(s, EscapeDouble(v) + rest) == Run(s.(word := s.word + v), rest)
    decreases |v|
  {
    hide Step, Run, EscapeDouble;
    if v == "" {
      EscapeDoubleNothing(rest);
      assert s.word + v == s.word;
    } else {
      var c, more := v[0], v[1..];
      assert [c] + more == v && s.word + [c] + more == s.word + v;
      EscapeDoubleStep(c, more, rest);
      var behind := EscapeDouble(more) + rest;
      if c == '$' || c == '`' || c == '"' || c == '\\' {
        assert ['\\', c] + behind == "\\" + ([c] + behind);
        ReadBackslashInDouble(s, c, behind);
      } else {
        ReadInDouble(s, c, behind);
      }
      ReadEscapedDouble(s.(word := s.word + [c]), more, rest);
    }
  }

  lemma ReadDoubleQuote(s: Splitter, rest: string)
    requires !s.escaped && (s.quote.None? || s.quote == Some('"'))
    ensures Run(s, "\"" + rest)
            == Run(if s.quote.None? then s.(quote := Some('"'), started := true) else s.(quote := None), rest)
  {
    assert ("\"" + rest)[1..] == rest;
  }

  lemma ReadDoubleQuoted(s: Splitter, v: string, rest: string)
    requires Outside(s)
    ensures Run(s, DoubleQuoted(v) + rest) == Run(s.(word := s.word + v, started := true), rest)
  {
    hide Step, Run;
    assert DoubleQuoted(v) + rest == "\"" + (EscapeDouble(v) + ("\"" + rest));
    ReadDoubleQuote(s, EscapeDouble(v) + ("\"" + rest));
    var open := s.(quote := Some('"'), started := true);
    ReadEscapedDouble(open, v, "\"" + rest);
    ReadDoubleQuote(open.(word := s.word + v), rest);
  }

  /** Double quotes round-trip every list of arguments too. */
  lemma {:induction false} ReadDoubles(words: seq<string>, args: seq<string>)
    ensures Finish(Run(Between(words), Join(Printed(args, DoubleQuoted)))) == Ok(words + args)
    decreases |args|
  {
    hide Step, Run, DoubleQuoted, Join;
    var s := Between(words);
    if args == [] {
      RunNothing(s);
      JoinNothing();
      assert words + args == words;
    } else {
      var arg, more := args[0], args[1..];
      var parts := Printed(more, DoubleQuoted);
      assert Printed(args, DoubleQuoted) == [DoubleQuoted(arg)] + parts && "" + arg == arg;
      assert words + [arg] + more == words + args;
      JoinFirst(DoubleQuoted(arg), parts);
      if more == [] {
        assert parts == [] && words + [arg] == words + args;
        assert DoubleQuoted(arg) + "" == DoubleQuoted(arg);
        ReadDoubleQuoted(s, arg, "");
        RunNothing(s.(word := arg, started := true));
      } else {
        ReadDoubleQuoted(s, arg, " " + Join(parts));
        ReadSpace(s.(word := arg, started := true), Join(parts));
        ReadDoubles(words + [arg], more);
      }
    }
  }

  lemma DoubleQuotedRoundTrip(args: seq<string>)
    ensures Split(Join(Printed(args, DoubleQuoted))) == Ok(args)
  {
    hide Run, DoubleQuoted;
    ReadDoubles([], args);
    assert [] + args == args;
  }

  /** Text without quotes and backslashes. */
  predicate IsUnquoted(text: string) {
    forall i :: 0 <= i < |text| ==> text[i] != '\'' && text[i] != '"' && text[i] != '\\'
  }

  function Ahead(s: Splitter, text: string): seq<string> {
    if s.started then [s.word + Word(text)] + Tokenize(text[|Word(text)|..]) else Tokenize(text)
  }

  lemma {:induction false} ReadWords(s: Splitter, text: string)
    requires Outside(s) && IsUnquoted(text) && (!s.started ==> s.word == "")
    ensures Finish(Run(s, text)) == Ok(s.words + Ahead(s, text))
    decreases |text|
  {
    if text == "" {
      assert s.word + Word(text) == s.word && text[0..] == "";
      assert [s.word] + [] == [s.word] && s.words + [] == s.words;
    } else {
      var c, more := text[0], text[1..];
      var next := Step(s, c, Peek(text));
      ReadWords(next, more);
      WordsAhead(s, text, next);
    }
  }

  lemma WordsAhead(s: Splitter, text: string, next: Splitter)
    requires Outside(s) && IsUnquoted(text) && (!s.started ==> s.word == "") && text != ""
    requires next == Step(s, text[0], Peek(text))
    ensures next.words + Ahead(next, text[1..]) == s.words + Ahead(s, text)
  {
    var c, more := text[0], text[1..];
    if IsWhitespace(c) {
      assert Word(text) == "" && text[0..] == text;
      assert s.word + "" == s.word;
      assert s.words + [s.word] + Tokenize(more) == s.words + ([s.word] + Tokenize(more));
    } else {
      assert Word(text) == [c] + Word(more);
      assert next.word + Word(more) == s.word + Word(text);
      assert text[|Word(text)|..] == more[|Word(more)|..];
      assert !s.started ==> "" + Word(text) == Word(text);
    }
  }

  /** Text without quotes and backslashes splits at its whitespace. */
  lemma UnquotedSplitsAtSpaces(text: string)
    requires IsUnquoted(text)
    ensures Split(text) == Ok(Tokenize(text))
  {
    ReadWords(START, text);
    assert [] + Tokenize(text) == Tokenize(text);
  }

  /** A quote that is never closed and a backslash at the end are refused. */
  lemma UnfinishedIsRefused(v: string)
    ensures Split("'" + EscapeQuotes(v)).Err? && Split("\"" + EscapeDouble(v)).Err?
    ensures IsPlain(v) ==> Split(v + "\\").Err?
  {
    hide Step, Run;
    assert EscapeQuotes(v) + "" == EscapeQuotes(v) && EscapeDouble(v) + "" == EscapeDouble(v);
    ReadQuote(START, EscapeQuotes(v));
    ReadEscaped(START.(quote := Some('\''), started := true), v, "");
    RunNothing(START.(quote := Some('\''), started := true, word := "" + v));
    ReadDoubleQuote(START, EscapeDouble(v));
    ReadEscapedDouble(START.(quote := Some('"'), started := true), v, "");
    RunNothing(START.(quote := Some('"'), started := true, word := "" + v));
    if IsPlain(v) {
      ReadPlain(START, v, "\\");
      LoneBackslash(START.(word := "" + v, started := v != ""));
    }
  }

  lemma LoneBackslash(s: Splitter)
    requires Outside(s)
    ensures Finish(Run(s, "\\")).Err?
  {
    assert "\\"[1..] == "";
  }

  // ----- install plans -----

  datatype InstallPlan =
    InstallPlan(manager: string, program: string, args: seq<string>, display: string, needsPrivilege: bool)

  /** How each supported manager is named and told to install a package. */
  function ManagerArgs(manager: string, package: string): Option<(string, seq<string>)> {
    if manager == "apt-get" then Some(("apt", ["install", "-y", package]))
    else if manager == "dnf" then Some(("dnf", ["install", "-y", package]))
    else if manager == "yum" then Some(("yum", ["install", "-y", package]))
    else if manager == "zypper" then Some(("zypper", ["--non-interactive", "install", package]))
    else if manager == "pacman" then Some(("pacman", ["-S", "--noconfirm", package]))
    else if manager == "apk" then Some(("apk", ["add", package]))
    else None
  }

  /** build_package_install_plan. What the plan shows is what it runs: the displayed text parses
      back to the program and its arguments, unless one of them is empty. */
  method BuildInstallPlan(package: string, manager: string, binary: string, sudo: Option<string>, isRoot: bool)
    returns (r: Result<InstallPlan, string>)
    ensures r.Ok? <==> ManagerArgs(manager, package).Some? && (isRoot || sudo.Some?)
    ensures r.Ok? ==>
              var plan, words := r.value, [r.value.program] + r.value.args;
              && Split(plan.display) == Ok(NonEmpty(words))
              && ("" !in words ==> Split(plan.display) == Ok(words))
              && plan.needsPrivilege == !isRoot
              && plan.manager == ManagerArgs(manager, package).value.0
              && words == (if isRoot then [] else [sudo.value]) + [binary] + ManagerArgs(manager, package).value.1
  {
    hide ManagerArgs, Split, Join, NonEmpty, DisplayArg;
    var known := ManagerArgs(manager, package);
    if known.None? {
      return Err("unsupported package manager");
    }
    var args: seq<string> := [];
    var program := binary;
    if !isRoot {
      if sudo.None? {
        return Err("installation needs administrator access but sudo is unavailable");
      }
      args := args + [binary];
      program := sudo.value;
    }
    args := args + known.value.1;
    var words := [program] + args;
    DisplayRoundTrip(words);
    var display := Join(Printed(words, DisplayArg));
    return Ok(InstallPlan(known.value.0, program, args, display, !isRoot));
  }

  /** What the plan shows for a package and a manager whose names need no quotes: the manager's own way to install it
      without asking. */
  lemma ShownInstall(manager: string, binary: string, package: string)
    requires ManagerArgs(manager, package).Some? && IsPlain(binary) && IsPlain(package)
    ensures var how := if manager == "zypper" then " --non-interactive install "
                       else if manager == "pacman" then " -S --noconfirm "
                       else if manager == "apk" then " add "
                       else " install -y ";
            Join(Printed([binary] + ManagerArgs(manager, package).value.1, DisplayArg)) == binary + how + package
  {
    hide Join, Printed, DisplayArg, IsPlain;
    Spelled();
    var args := ManagerArgs(manager, package).value.1;
    if |args| == 2 {
      JoinThree(binary, args[0], package);
    } else {
      JoinFour(binary, args[0], args[1], package);
    }
  }

  lemma Spelled()
    ensures " " + "add" + " " == " add " && " " + "install" + " " + "-y" + " " == " install -y "
    ensures " " + "-S" + " " + "--noconfirm" + " " == " -S --noconfirm "
    ensures " " + "--non-interactive" + " " + "install" + " " == " --non-interactive install "
    ensures IsPlain("add") && IsPlain("install") && IsPlain("-y") && IsPlain("-S") && IsPlain("--noconfirm")
    ensures IsPlain("--non-interactive")
  {
  }

  lemma PlainShows(v: string)
    requires IsPlain(v)
    ensures DisplayArg(v) == v
  {
  }

  lemma JoinThree(a: string, b: string, c: string)
    requires IsPlain(a) && IsPlain(b) && IsPlain(c)
    ensures Join(Printed([a] + [b, c], DisplayArg)) == a + (" " + b + " ") + c
  {
    hide DisplayArg, IsPlain;
    PlainShows(a);
    PlainShows(b);
    PlainShows(c);
    assert Printed([a] + [b, c], DisplayArg) == [a, b, c];
    assert [a, b, c][1..] == [b, c] && [b, c][1..] == [c];
    assert Join([b, c]) == b + " " + c;
    assert a + " " + (b + " " + c) == a + (" " + b + " ") + c;
  }

  lemma JoinFour(a: string, b: string, c: string, d: string)
    requires IsPlain(a) && IsPlain(b) && IsPlain(c) && IsPlain(d)
    ensures Join(Printed([a] + [b, c, d], DisplayArg)) == a + (" " + b + " " + c + " ") + d
  {
    hide DisplayArg, IsPlain;
    PlainShows(a);
    PlainShows(b);
    PlainShows(c);
    PlainShows(d);
    assert Printed([a] + [b, c, d], DisplayArg) == [a, b, c, d];
    assert [a, b, c, d][1..] == [b, c, d] && [b, c, d][1..] == [c, d] && [c, d][1..] == [d];
    assert Join([c, d]) == c + " " + d;
    assert Join([b, c, d]) == b + " " + (c + " " + d);
    assert a + " " + (b + " " + (c + " " + d)) == a + (" " + b + " " + c + " ") + d;
  }
}
