/** Whether the compiler flags of a build switch machine outlining off. */
module Outliner {
  import opened Wrappers
  import opened Text

  /** The pieces between the separators, empty ones included. */
  function SplitOn(s: string, separator: char): (pieces: seq<string>)
    ensures pieces != []
    decreases |s|
  {
    var i := Find(s, separator);
    [s[..i]] + if i == |s| then [] else SplitOn(s[i + 1..], separator)
  }

  const LLVM_ARGS := "llvm-args="
  const OUTLINER := "enable-machine-outliner"
  const NEVER := "enable-machine-outliner=never"

  predicate AnnouncesCodegen(argument: string) {
    argument == "-C" || argument == "--codegen"
  }

  function Stripped(s: string, prefix: string): Option<string> {
    if prefix <= s then Some(s[|prefix|..]) else None
  }

  /** The codegen option an argument gives: the whole of it after a bare flag, what follows an attached one
      otherwise. */
  function CodegenOption(arguments: seq<string>, k: nat): Option<string>
    requires k < |arguments|
  {
    if k > 0 && AnnouncesCodegen(arguments[k - 1]) then Some(arguments[k])
    else if "-C" <= arguments[k] then Stripped(arguments[k], "-C")
    else Stripped(arguments[k], "--codegen=")
  }

  function WithoutDashes(s: string): string {
    if s != "" && s[0] == '-' then WithoutDashes(s[1..]) else s
  }

  /** The words passed on to LLVM by one argument. */
  function LlvmWords(arguments: seq<string>, k: nat): seq<string>
    requires k < |arguments|
  {
    match CodegenOption(arguments, k)
    case None => []
    case Some(option) => match Stripped(option, LLVM_ARGS) case None => [] case Some(value) => Tokenize(value)
  }

  function Undashed(words: seq<string>): seq<string> {
    if words == [] then [] else Undashed(words[..|words| - 1]) + [WithoutDashes(words[|words| - 1])]
  }

  /** The LLVM options given by the first `n` arguments, in order. */
  function LlvmOptions(arguments: seq<string>, n: nat): seq<string>
    requires n <= |arguments|
  {
    if n == 0 then [] else LlvmOptions(arguments, n - 1) + Undashed(LlvmWords(arguments, n - 1))
  }

  /** No option says anything but never about outlining. */
  predicate NoClash(options: seq<string>) {
    forall option <- options :: OUTLINER <= option ==> option == NEVER
  }

  /** The words of one argument: whether they say never, or clash with it. */
  method CheckWords(words: seq<string>) returns (never: bool, clash: bool)
    ensures clash <==> !NoClash(Undashed(words))
    ensures !clash ==> never == (NEVER in Undashed(words))
  {
    hide WithoutDashes, OUTLINER, NEVER, Undashed;
    never, clash := false, false;
    UndashedNone();
    assert words[..0] == [];
    for j := 0 to |words|
      invariant never == (NEVER in Undashed(words[..j])) && !clash
      invariant NoClash(Undashed(words[..j]))
    {
      var llvmOption := WithoutDashes(words[j]);
      UndashedStep(words, j);
      if llvmOption == NEVER {
        never := true;
      } else if OUTLINER <= llvmOption {
        assert llvmOption in Undashed(words[..j + 1]);
        UndashedGrows(words, j + 1, llvmOption);
        return never, true;
      }
    }
    assert words[..|words|] == words;
  }

  /** machine_outliner_disabled: outlining is off when some option says never and none says anything else about it. */
  method MachineOutlinerDisabled(encoded: string) returns (disabled: bool)
    ensures var arguments := SplitOn(encoded, 0x1f as char);
            var options := LlvmOptions(arguments, |arguments|);
            disabled <==> NEVER in options && NoClash(options)
  {
    hide SplitOn, Tokenize, LLVM_ARGS, AnnouncesCodegen, OUTLINER, NEVER, Undashed, LlvmOptions, LlvmWords;
    disabled := false;
    var codegenNext := false;
    var arguments := SplitOn(encoded, 0x1f as char);
    NoOptions(arguments);
    for k := 0 to |arguments|
      invariant codegenNext == (k > 0 && AnnouncesCodegen(arguments[k - 1]))
      invariant disabled == (NEVER in LlvmOptions(arguments, k))
      invariant NoClash(LlvmOptions(arguments, k))
    {
      var argument := arguments[k];
      var option :=
        if codegenNext then Some(argument)
        else if "-C" <= argument then Stripped(argument, "-C")
        else Stripped(argument, "--codegen=");
      codegenNext := AnnouncesCodegen(argument);
      WordsOf(arguments, k, option);
      MoreOptions(arguments, k);
      if option.None? || Stripped(option.value, LLVM_ARGS).None? {
        continue;
      }
      var never, clash := CheckWords(Tokenize(Stripped(option.value, LLVM_ARGS).value));
      if clash {
        ghost var bad :| bad in LlvmOptions(arguments, k + 1) && OUTLINER <= bad && bad != NEVER;
        OptionsGrow(arguments, k + 1, |arguments|, bad);
        return false;
      }
      disabled := disabled || never;
    }
  }

  lemma NoOptions(arguments: seq<string>)
    ensures LlvmOptions(arguments, 0) == []
  {
  }

  lemma WordsOf(arguments: seq<string>, k: nat, option: Option<string>)
    requires k < |arguments| && option == CodegenOption(arguments, k)
    ensures LlvmWords(arguments, k) ==
            if option.None? || Stripped(option.value, LLVM_ARGS).None? then []
            else Tokenize(Stripped(option.value, LLVM_ARGS).value)
  {
    hide Tokenize;
  }

  lemma MoreOptions(arguments: seq<string>, k: nat)
    requires k < |arguments|
    ensures var before, words := LlvmOptions(arguments, k), Undashed(LlvmWords(arguments, k));
            && LlvmOptions(arguments, k + 1) == before + words
            && (NEVER in before + words <==> NEVER in before || NEVER in words)
            && (NoClash(before + words) <==> NoClash(before) && NoClash(words))
    ensures Undashed([]) == []
  {
    hide LlvmWords, NEVER, OUTLINER;
    var before, words := LlvmOptions(arguments, k), Undashed(LlvmWords(arguments, k));
    assert forall option :: option in before + words <==> option in before || option in words;
  }

  lemma UndashedNone()
    ensures Undashed([]) == []
  {
  }

  lemma UndashedStep(words: seq<string>, j: nat)
    requires j < |words|
    ensures words[..0] == [] && Undashed(words[..j + 1]) == Undashed(words[..j]) + [WithoutDashes(words[j])]
  {
    assert words[..j + 1][..j] == words[..j];
  }

  lemma {:induction false} UndashedGrows(words: seq<string>, n: nat, option: string)
    requires n <= |words| && option in Undashed(words[..n])
    ensures option in Undashed(words)
    decreases |words| - n
  {
    if n == |words| {
      assert words[..n] == words;
    } else {
      UndashedStep(words, n);
      UndashedGrows(words, n + 1, option);
    }
  }

  lemma {:induction false} OptionsGrow(arguments: seq<string>, few: nat, many: nat, option: string)
    requires few <= many <= |arguments| && option in LlvmOptions(arguments, few)
    ensures option in LlvmOptions(arguments, many)
    decreases many - few
  {
    if few < many {
      OptionsGrow(arguments, few + 1, many, option);
    }
  }

  // ----- what counts as an option -----

  /** A codegen option is given in one of four spellings: behind a bare `-C` or `--codegen`, or attached to `-C` or to
      `--codegen=`. */
  lemma FourSpellings(arguments: seq<string>, k: nat, option: string)
    requires k < |arguments|
    ensures CodegenOption(arguments, k) == Some(option) <==>
            if k > 0 && (arguments[k - 1] == "-C" || arguments[k - 1] == "--codegen") then arguments[k] == option
            else arguments[k] == "-C" + option || arguments[k] == "--codegen=" + option
  {
    var argument := arguments[k];
    if "-C" <= argument {
      assert argument == "-C" + argument[2..];
    }
    if "--codegen=" <= argument {
      assert argument == "--codegen=" + argument[10..];
    }
    assert ("-C" + option)[2..] == option && ("--codegen=" + option)[10..] == option;
    assert ("--codegen=" + option)[1] == '-' && "-C"[1] == 'C' && ("-C" + option)[1] == 'C';
  }

  /** What it passes on to LLVM are the words behind `llvm-args=`. */
  lemma PassedOn(arguments: seq<string>, k: nat, value: string)
    requires k < |arguments| && CodegenOption(arguments, k) == Some("llvm-args=" + value)
    ensures LlvmWords(arguments, k) == Tokenize(value)
  {
    hide CodegenOption, Tokenize;
    assert ("llvm-args=" + value)[|LLVM_ARGS|..] == value;
  }

  lemma NothingPassedOn(arguments: seq<string>, k: nat)
    requires k < |arguments|
    requires forall value :: CodegenOption(arguments, k) != Some("llvm-args=" + value)
    ensures LlvmWords(arguments, k) == []
  {
    hide CodegenOption, Tokenize;
    var option := CodegenOption(arguments, k);
    if option.Some? && LLVM_ARGS <= option.value {
      assert option.value == "llvm-args=" + option.value[|LLVM_ARGS|..];
    }
  }

  /** Leading dashes, however many, make no difference. */
  lemma {:induction false} DashesAreIgnored(dashes: string, option: string)
    requires (forall c <- dashes :: c == '-') && (option != "" ==> option[0] != '-')
    ensures WithoutDashes(dashes + option) == option
  {
    if dashes == "" {
      assert dashes + option == option;
    } else {
      assert dashes[0] in dashes && (dashes + option)[1..] == dashes[1..] + option;
      assert forall c <- dashes[1..] :: c in dashes;
      DashesAreIgnored(dashes[1..], option);
    }
  }

  /** The one thing that may be said about outlining, word for word. */
  lemma OnlyNever(options: seq<string>)
    ensures NEVER in options && NoClash(options) <==>
            && "enable-machine-outliner=never" in options
            && forall option <- options :: "enable-machine-outliner" <= option ==>
                 option == "enable-machine-outliner=never"
  {
  }

  function Joined(arguments: seq<string>, separator: char): string {
    if arguments == [] then ""
    else if |arguments| == 1 then arguments[0]
    else arguments[0] + [separator] + Joined(arguments[1..], separator)
  }

  lemma JoinedFirst(first: string, more: seq<string>, separator: char)
    ensures Joined([first] + more, separator)
            == first + if more == [] then "" else [separator] + Joined(more, separator)
  {
    assert ([first] + more)[1..] == more;
  }

  lemma SplitFirst(first: string, rest: string, separator: char)
    requires separator !in first && (rest != "" ==> rest[0] == separator)
    ensures SplitOn(first + rest, separator) == [first] + if rest == "" then [] else SplitOn(rest[1..], separator)
  {
    hide Find;
    FoundBehind(first, rest, separator);
    assert (first + rest)[..|first|] == first;
    assert rest != "" ==> (first + rest)[|first| + 1..] == rest[1..];
  }

  lemma FoundBehind(first: string, rest: string, separator: char)
    requires separator !in first && (rest != "" ==> rest[0] == separator)
    ensures Find(first + rest, separator) == |first|
  {
    NotFound(first, separator);
    FindAcross(first, rest, separator);
  }

  /** Arguments that hold no separator are found again as they were joined. */
  lemma {:induction false} JoinedSplits(arguments: seq<string>, separator: char)
    requires arguments != [] && forall argument <- arguments :: separator !in argument
    ensures SplitOn(Joined(arguments, separator), separator) == arguments
  {
    hide Joined, SplitOn;
    var first, more := arguments[0], arguments[1..];
    assert arguments == [first] + more;
    JoinedFirst(first, more, separator);
    var rest := if more == [] then "" else [separator] + Joined(more, separator);
    SplitFirst(first, rest, separator);
    if more != [] {
      JoinedSplits(more, separator);
      assert rest[1..] == Joined(more, separator);
    }
  }

  lemma NotFound(s: string, c: char)
    requires c !in s
    ensures Find(s, c) == |s|
  {
  }
}
