/** Reading the load commands of a linked executable, to see which loader features it really uses. */
module MachO {
  import opened Wrappers

  type Byte = n: int | 0 <= n < 256

  const MAGIC := 0xfeed_facf
  const BUILD_VERSION := 0x32
  const VERSION_MIN_MACOSX := 0x24
  const LOAD_DYLIB := 0xc
  const OTHER_DYLIBS := {0x8000_0018, 0x8000_001f, 0x8000_0023}
  const CHAINED_FIXUPS := 0x8000_0034
  const DELAY_MARKER := 0x1a74_1800

  function ByteAt(bytes: seq<Byte>, i: nat): (n: nat)
    requires i < |bytes|
    ensures n < 0x100
  {
    bytes[i]
  }

  /** u32_at: little-endian, or nothing where the four bytes are not all there. */
  function U32At(bytes: seq<Byte>, offset: nat): (n: Option<nat>)
    ensures n.Some? <==> offset + 4 <= |bytes|
    ensures n.Some? ==> n.value < 0x1_0000_0000
  {
    if offset + 4 <= |bytes| then
      Some(ByteAt(bytes, offset) + 0x100 * ByteAt(bytes, offset + 1) + 0x1_0000 * ByteAt(bytes, offset + 2)
           + 0x100_0000 * ByteAt(bytes, offset + 3))
    else None
  }

  // ----- chained fixups -----

  datatype Chains =
    Chains(version: nat, importsFormat: nat, importsCount: nat, symbolsFormat: nat, pointerFormats: seq<nat>)

  /** The pointer format of the segment whose offset stands at `index`: nothing at all for a zero offset, `None` where
      the segment cannot be read. */
  function SegmentFormat(bytes: seq<Byte>, starts: nat, index: nat): Option<seq<nat>> {
    match U32At(bytes, starts + 4 + index * 4)
    case None => None
    case Some(relative) =>
      if relative == 0 then Some([])
      else match U32At(bytes, starts + relative)
        case None => None
        case Some(size) =>
          if size < 22 || starts + relative + size > |bytes| then None
          else Some([ByteAt(bytes, starts + relative + 6) + 0x100 * ByteAt(bytes, starts + relative + 7)])
  }

  function PointerFormats(bytes: seq<Byte>, starts: nat, count: nat): Option<seq<nat>> {
    if count == 0 then Some([])
    else match (PointerFormats(bytes, starts, count - 1), SegmentFormat(bytes, starts, count - 1))
      case (Some(front), Some(last)) => Some(front + last)
      case _ => None
  }

  /** parse_chains */
  function ChainsIn(bytes: seq<Byte>): Option<Chains> {
    match U32At(bytes, 4)
    case None => None
    case Some(starts) =>
      match U32At(bytes, starts)
      case None => None
      case Some(count) =>
        match (PointerFormats(bytes, starts, count), U32At(bytes, 0), U32At(bytes, 16), U32At(bytes, 20),
               U32At(bytes, 24))
        case (Some(formats), Some(version), Some(importsCount), Some(importsFormat), Some(symbolsFormat)) =>
          Some(Chains(version, importsFormat, importsCount, symbolsFormat, formats))
        case _ => None
  }

  method ParseChains(bytes: seq<Byte>) returns (chains: Option<Chains>)
    ensures chains == ChainsIn(bytes)
  {
    hide U32At;
    var starts := U32At(bytes, 4);
    if starts.None? {
      return None;
    }
    var count := U32At(bytes, starts.value);
    if count.None? {
      return None;
    }
    var formats: seq<nat> := [];
    for index := 0 to count.value
      invariant PointerFormats(bytes, starts.value, index) == Some(formats)
    {
      ghost var before := index;
      var relative := U32At(bytes, starts.value + 4 + index * 4);
      if relative.None? {
        StaysNone(bytes, starts.value, index + 1, count.value);
        return None;
      }
      if relative.value == 0 {
        assert formats + [] == formats;
        continue;
      }
      var segment := starts.value + relative.value;
      var size := U32At(bytes, segment);
      if size.None? || size.value < 22 || segment + size.value > |bytes| {
        StaysNone(bytes, starts.value, index + 1, count.value);
        return None;
      }
      formats := formats + [ByteAt(bytes, segment + 6) + 0x100 * ByteAt(bytes, segment + 7)];
    }
    var version, importsCount := U32At(bytes, 0), U32At(bytes, 16);
    var importsFormat, symbolsFormat := U32At(bytes, 20), U32At(bytes, 24);
    if version.None? || importsCount.None? || importsFormat.None? || symbolsFormat.None? {
      return None;
    }
    return Some(Chains(version.value, importsFormat.value, importsCount.value, symbolsFormat.value, formats));
  }

  lemma {:induction false} StaysNone(bytes: seq<Byte>, starts: nat, few: nat, many: nat)
    requires few <= many && PointerFormats(bytes, starts, few).None?
    ensures PointerFormats(bytes, starts, many).None?
    decreases many - few
  {
    if few < many {
      StaysNone(bytes, starts, few + 1, many);
    }
  }

  // ----- one load command -----

  datatype Command =
    | Rejected
    | MinOs(version: nat)
    | Dylib(coreFoundation: bool, security: bool, delayed: bool)
    | Fixups(chains: Chains)
    | Ignored

  function ZeroAt(bytes: seq<Byte>): (i: nat)
    ensures i <= |bytes| && (i < |bytes| ==> bytes[i] == 0) && forall k :: 0 <= k < i ==> bytes[k] != 0
  {
    if bytes == [] || bytes[0] == 0 then 0 else 1 + ZeroAt(bytes[1..])
  }

  predicate IsTail(b: int) {
    0x80 <= b <= 0xBF
  }

  /** Well-formed UTF-8 as in section 4 of RFC 3629. */
  predicate IsUtf8(b: seq<Byte>) {
    b == []
    || (b[0] <= 0x7F && IsUtf8(b[1..]))
    || (|b| >= 2 && 0xC2 <= b[0] <= 0xDF && IsTail(b[1]) && IsUtf8(b[2..]))
    || (&& |b| >= 3 && 0xE0 <= b[0] <= 0xEF && IsTail(b[1]) && IsTail(b[2])
        && (b[0] == 0xE0 ==> b[1] >= 0xA0) && (b[0] == 0xED ==> b[1] <= 0x9F) && IsUtf8(b[3..]))
    || (&& |b| >= 4 && 0xF0 <= b[0] <= 0xF4 && IsTail(b[1]) && IsTail(b[2]) && IsTail(b[3])
        && (b[0] == 0xF0 ==> b[1] >= 0x90) && (b[0] == 0xF4 ==> b[1] <= 0x8F) && IsUtf8(b[4..]))
  }

  function Ascii(text: string): seq<Byte>
    requires forall i :: 0 <= i < |text| ==> text[i] as int < 128
  {
    seq(|text|, i requires 0 <= i < |text| => text[i] as int)
  }

  predicate EndsWith(name: seq<Byte>, suffix: seq<Byte>) {
    |suffix| <= |name| && name[|name| - |suffix|..] == suffix
  }

  function FrameworkSuffix(framework: string): seq<Byte>
    requires forall i :: 0 <= i < |framework| ==> framework[i] as int < 128
  {
    Ascii("/") + Ascii(framework) + Ascii(".framework/Versions/A/") + Ascii(framework)
  }

  predicate IsDylib(cmd: nat) {
    cmd == LOAD_DYLIB || cmd in OTHER_DYLIBS
  }

  predicate IsSet(flags: nat, bit: nat)
    requires bit > 0
  {
    flags / bit % 2 == 1
  }

  /** The delay marker; reading it never runs past a command long enough to hold a name at `nameOffset`. */
  predicate IsDelayed(command: seq<Byte>, cmd: nat, nameOffset: nat)
    requires nameOffset < |command|
  {
    && cmd == LOAD_DYLIB
    && nameOffset >= 28
    && U32At(command, 12).value == DELAY_MARKER
    && IsSet(U32At(command, 24).value, 8)
  }

  function DylibCommand(command: seq<Byte>, cmd: nat): Command {
    match U32At(command, 8)
    case None => Rejected
    case Some(nameOffset) =>
      if nameOffset < 24 || nameOffset > |command| then Rejected
      else
        var text := command[nameOffset..];
        var length := ZeroAt(text);
        var name := text[..length];
        if length == |text| || !IsUtf8(name) then Rejected
        else Dylib(EndsWith(name, FrameworkSuffix("CoreFoundation")), EndsWith(name, FrameworkSuffix("Security")),
                   IsDelayed(command, cmd, nameOffset))
  }

  function FixupsCommand(bytes: seq<Byte>, command: seq<Byte>): Command {
    match (U32At(command, 8), U32At(command, 12))
    case (Some(start), Some(size)) =>
      if start + size > |bytes| then Rejected
      else (match ChainsIn(bytes[start..start + size]) case Some(chains) => Fixups(chains) case None => Rejected)
    case _ => Rejected
  }

  function VersionCommand(command: seq<Byte>, offset: nat): Command {
    match U32At(command, offset) case Some(version) => MinOs(version) case None => Rejected
  }

  /** One round of parse_macho's match on a command of the file. */
  function Classify(bytes: seq<Byte>, command: seq<Byte>, cmd: nat): Command {
    if cmd == BUILD_VERSION then
      match U32At(command, 8)
      case None => Rejected
      case Some(platform) => if platform == 1 then VersionCommand(command, 12) else Ignored
    else if cmd == VERSION_MIN_MACOSX then VersionCommand(command, 8)
    else if IsDylib(cmd) then DylibCommand(command, cmd)
    else if cmd == CHAINED_FIXUPS then FixupsCommand(bytes, command)
    else Ignored
  }

  // ----- the whole file -----

  datatype MachO = MachO(cpuType: nat, minOs: nat, delayed: (bool, bool), chains: Option<Chains>)

  /** A command reaches from `here` to `next`: as long as it says, at least eight bytes, and not past the end. */
  predicate Reaches(bytes: seq<Byte>, here: nat, next: nat, end: nat) {
    here + 8 <= next <= end && U32At(bytes, here + 4) == Some(next - here)
  }

  /** The load commands lie end to end from byte 32 to the declared end. */
  predicate Tiles(bytes: seq<Byte>, cuts: seq<nat>, end: nat) {
    && cuts != []
    && cuts[0] == 32
    && cuts[|cuts| - 1] == end <= |bytes|
    && forall k {:trigger cuts[k]} :: 0 < k < |cuts| ==> Reaches(bytes, cuts[k - 1], cuts[k], end)
  }

  function CommandAt(bytes: seq<Byte>, here: nat, next: nat): Command
    requires here + 8 <= next <= |bytes|
  {
    Classify(bytes, bytes[here..next], U32At(bytes, here).value)
  }

  /** The commands met so far with the offsets that bound them. */
  datatype Walk = Walk(cuts: seq<nat>, commands: seq<Command>)

  function Offset(walk: Walk): nat {
    if walk.cuts == [] then 0 else walk.cuts[|walk.cuts| - 1]
  }

  function Step(bytes: seq<Byte>, end: nat, walk: Walk): Option<Walk>
    requires end <= |bytes|
  {
    var here := Offset(walk);
    match U32At(bytes, here + 4)
    case None => None
    case Some(size) =>
      if size < 8 || here + size > end then None
      else Some(Walk(walk.cuts + [here + size], walk.commands + [CommandAt(bytes, here, here + size)]))
  }

  function Walked(bytes: seq<Byte>, end: nat, n: nat): Option<Walk>
    requires end <= |bytes|
  {
    if n == 0 then Some(Walk([32], []))
    else match Walked(bytes, end, n - 1)
      case None => None
      case Some(walk) => Step(bytes, end, walk)
  }

  /** What parse_macho's loop has gathered. */
  datatype Gathered =
    Gathered(minOs: Option<nat>, coreFoundation: Option<bool>, security: Option<bool>, chains: Option<Chains>)

  function Seen(before: Option<bool>, matches: bool, delayed: bool): Option<bool> {
    if matches then Some(before.GetOr(true) && delayed) else before
  }

  function Gather(g: Gathered, command: Command): Option<Gathered> {
    match command
    case Rejected => None
    case MinOs(version) => if g.minOs.Some? then None else Some(g.(minOs := Some(version)))
    case Dylib(coreFoundation, security, delayed) =>
      Some(g.(coreFoundation := Seen(g.coreFoundation, coreFoundation, delayed),
              security := Seen(g.security, security, delayed)))
    case Fixups(chains) => if g.chains.Some? then None else Some(g.(chains := Some(chains)))
    case Ignored => Some(g)
  }

  function GatherAll(commands: seq<Command>): Option<Gathered> {
    if commands == [] then Some(Gathered(None, None, None, None))
    else match GatherAll(commands[..|commands| - 1])
      case None => None
      case Some(g) => Gather(g, commands[|commands| - 1])
  }

  function Finish(cpuType: nat, g: Gathered): Option<MachO> {
    match g.minOs
    case None => None
    case Some(minOs) => Some(MachO(cpuType, minOs, (g.coreFoundation.GetOr(false), g.security.GetOr(false)), g.chains))
  }

  /** parse_macho */
  function Parsed(bytes: seq<Byte>): Option<MachO> {
    match (U32At(bytes, 0), U32At(bytes, 4), U32At(bytes, 16), U32At(bytes, 20))
    case (Some(magic), Some(cpuType), Some(commands), Some(size)) =>
      var end := 32 + size;
      if magic != MAGIC || end > |bytes| then None
      else (
        match Walked(bytes, end, commands)
        case None => None
        case Some(walk) =>
          if Offset(walk) != end then None
          else match GatherAll(walk.commands)
            case None => None
            case Some(g) => Finish(cpuType, g))
    case _ => None
  }

  method ParseMachO(bytes: seq<Byte>) returns (parsed: Option<MachO>)
    ensures parsed == Parsed(bytes)
  {
    hide U32At, CommandAt, Gather, Finish, GatherAll, Walked;
    var magic, cpuType := U32At(bytes, 0), U32At(bytes, 4);
    var commands, size := U32At(bytes, 16), U32At(bytes, 20);
    if magic != Some(MAGIC) || cpuType.None? || commands.None? || size.None? {
      return None;
    }
    var end := 32 + size.value;
    if end > |bytes| {
      return None;
    }
    var g := Gathered(None, None, None, None);
    var offset := 32;
    ghost var walk := Walk([32], []);
    StartsEmpty(bytes, end);
    for i := 0 to commands.value
      invariant Walked(bytes, end, i) == Some(walk) && offset == Offset(walk)
      invariant GatherAll(walk.commands) == Some(g)
    {
      GoesOn(bytes, end, i, walk);
      var length := U32At(bytes, offset + 4);
      if length.None? || length.value < 8 || offset + length.value > end {
        NoWalk(bytes, end, i + 1, commands.value);
        return None;
      }
      var next := offset + length.value;
      var command := CommandAt(bytes, offset, next);
      GathersOn(walk.commands, command);
      walk := Walk(walk.cuts + [next], walk.commands + [command]);
      var more := Gather(g, command);
      if more.None? {
        NothingGathered(bytes, end, i + 1, commands.value);
        return None;
      }
      g := more.value;
      offset := next;
    }
    if offset != end {
      return None;
    }
    return Finish(cpuType.value, g);
  }

  lemma StartsEmpty(bytes: seq<Byte>, end: nat)
    requires end <= |bytes|
    ensures Walked(bytes, end, 0) == Some(Walk([32], [])) && GatherAll([]) == Some(Gathered(None, None, None, None))
  {
  }

  lemma GoesOn(bytes: seq<Byte>, end: nat, i: nat, walk: Walk)
    requires end <= |bytes| && Walked(bytes, end, i) == Some(walk)
    ensures Walked(bytes, end, i + 1) == Step(bytes, end, walk)
  {
  }

  lemma GathersOn(commands: seq<Command>, command: Command)
    requires GatherAll(commands).Some?
    ensures GatherAll(commands + [command]) == Gather(GatherAll(commands).value, command)
  {
    assert (commands + [command])[..|commands|] == commands;
  }

  lemma {:induction false} NoWalk(bytes: seq<Byte>, end: nat, few: nat, many: nat)
    requires end <= |bytes| && few <= many && Walked(bytes, end, few).None?
    ensures Walked(bytes, end, many).None?
    decreases many - few
  {
    hide Step;
    if few < many {
      NoWalk(bytes, end, few + 1, many);
    }
  }

  lemma {:induction false} NothingGathered(bytes: seq<Byte>, end: nat, few: nat, many: nat)
    requires end <= |bytes| && few <= many
    requires Walked(bytes, end, few).Some? && GatherAll(Walked(bytes, end, few).value.commands).None?
    ensures Walked(bytes, end, many).Some? ==> GatherAll(Walked(bytes, end, many).value.commands).None?
    decreases many - few
  {
    hide CommandAt, Gather;
    if few < many {
      var walk := Walked(bytes, end, few).value;
      GoesOn(bytes, end, few, walk);
      if Walked(bytes, end, few + 1).None? {
        NoWalk(bytes, end, few + 1, many);
      } else {
        var longer := Walked(bytes, end, few + 1).value;
        assert longer.commands[..|longer.commands| - 1] == walk.commands;
        NothingGathered(bytes, end, few + 1, many);
      }
    }
  }

  // ----- what an accepted file is -----

  function CommandsAt(bytes: seq<Byte>, cuts: seq<nat>, end: nat): seq<Command>
    requires Tiles(bytes, cuts, end)
  {
    seq(|cuts| - 1, k requires 0 <= k < |cuts| - 1 =>
          assert Reaches(bytes, cuts[k + 1 - 1], cuts[k + 1], end);
          CommandAt(bytes, cuts[k], cuts[k + 1]))
  }

  /** At most one command states a minimum system: the one that states `version`. */
  predicate MinOsIs(commands: seq<Command>, version: Option<nat>) {
    match version
    case None => forall j :: 0 <= j < |commands| ==> !commands[j].MinOs?
    case Some(v) =>
      exists k :: 0 <= k < |commands| && commands[k] == MinOs(v)
                  && forall j :: 0 <= j < |commands| && commands[j].MinOs? ==> j == k
  }

  /** At most one command states chained fixups: the one that states `chains`. */
  predicate FixupsAre(commands: seq<Command>, chains: Option<Chains>) {
    match chains
    case None => forall j :: 0 <= j < |commands| ==> !commands[j].Fixups?
    case Some(c) =>
      exists k :: 0 <= k < |commands| && commands[k] == Fixups(c)
                  && forall j :: 0 <= j < |commands| && commands[j].Fixups? ==> j == k
  }

  datatype Framework = CoreFoundation | Security

  predicate Imports(command: Command, framework: Framework) {
    command.Dylib? && if framework.CoreFoundation? then command.coreFoundation else command.security
  }

  predicate Imported(commands: seq<Command>, framework: Framework) {
    exists k :: 0 <= k < |commands| && Imports(commands[k], framework)
  }

  predicate AllDelayed(commands: seq<Command>, framework: Framework) {
    forall k :: 0 <= k < |commands| && Imports(commands[k], framework) ==> commands[k].delayed
  }

  predicate NoneRejected(commands: seq<Command>) {
    forall k :: 0 <= k < |commands| ==> !commands[k].Rejected?
  }

  predicate FlagIs(commands: seq<Command>, framework: Framework, flag: Option<bool>) {
    flag == if Imported(commands, framework) then Some(AllDelayed(commands, framework)) else None
  }

  predicate Sums(commands: seq<Command>, g: Gathered) {
    && NoneRejected(commands)
    && MinOsIs(commands, g.minOs)
    && FixupsAre(commands, g.chains)
    && FlagIs(commands, CoreFoundation, g.coreFoundation)
    && FlagIs(commands, Security, g.security)
  }

  lemma MinOsAfter(commands: seq<Command>, version: Option<nat>, last: Command)
    requires MinOsIs(commands, version)
    ensures !last.MinOs? ==> MinOsIs(commands + [last], version)
    ensures last.MinOs? && version.None? ==> MinOsIs(commands + [last], Some(last.version))
    ensures last.MinOs? && version.Some? ==> forall v :: !MinOsIs(commands + [last], v)
  {
    var longer := commands + [last];
    assert forall j :: 0 <= j < |commands| ==> longer[j] == commands[j];
    assert longer[|commands|] == last;
    if version.Some? {
      var k :| 0 <= k < |commands| && commands[k] == MinOs(version.value)
               && forall j :: 0 <= j < |commands| && commands[j].MinOs? ==> j == k;
      assert longer[k] == MinOs(version.value);
    }
  }

  lemma FixupsAfter(commands: seq<Command>, chains: Option<Chains>, last: Command)
    requires FixupsAre(commands, chains)
    ensures !last.Fixups? ==> FixupsAre(commands + [last], chains)
    ensures last.Fixups? && chains.None? ==> FixupsAre(commands + [last], Some(last.chains))
    ensures last.Fixups? && chains.Some? ==> forall c :: !FixupsAre(commands + [last], c)
  {
    var longer := commands + [last];
    assert forall j :: 0 <= j < |commands| ==> longer[j] == commands[j];
    assert longer[|commands|] == last;
    if chains.Some? {
      var k :| 0 <= k < |commands| && commands[k] == Fixups(chains.value)
               && forall j :: 0 <= j < |commands| && commands[j].Fixups? ==> j == k;
      assert longer[k] == Fixups(chains.value);
    }
  }

  lemma FlagAfter(commands: seq<Command>, framework: Framework, flag: Option<bool>, last: Command)
    requires FlagIs(commands, framework, flag)
    ensures FlagIs(commands + [last], framework,
                   Seen(flag, Imports(last, framework), last.Dylib? && last.delayed))
  {
    var longer := commands + [last];
    assert forall j :: 0 <= j < |commands| ==> longer[j] == commands[j];
    assert longer[|commands|] == last;
    if Imported(commands, framework) {
      var k :| 0 <= k < |commands| && Imports(commands[k], framework);
      assert Imports(longer[k], framework);
    }
  }

  lemma RejectedAfter(commands: seq<Command>, last: Command)
    ensures NoneRejected(commands + [last]) <==> NoneRejected(commands) && !last.Rejected?
  {
    var longer := commands + [last];
    assert forall j :: 0 <= j < |commands| ==> longer[j] == commands[j];
    assert longer[|commands|] == last;
  }

  predicate MinOsOnce(commands: seq<Command>) {
    forall j, k :: 0 <= j < k < |commands| ==> !(commands[j].MinOs? && commands[k].MinOs?)
  }

  predicate FixupsOnce(commands: seq<Command>) {
    forall j, k :: 0 <= j < k < |commands| ==> !(commands[j].Fixups? && commands[k].Fixups?)
  }

  lemma OnceBefore(front: seq<Command>, last: Command, g: Gathered)
    requires Sums(front, g) && MinOsOnce(front + [last]) && FixupsOnce(front + [last])
    ensures MinOsOnce(front) && FixupsOnce(front)
    ensures last.MinOs? ==> g.minOs.None?
    ensures last.Fixups? ==> g.chains.None?
  {
    var longer := front + [last];
    assert forall j :: 0 <= j < |front| ==> longer[j] == front[j];
    assert longer[|front|] == last;
    PrefixOnce(front, last);
  }

  lemma PrefixOnce(front: seq<Command>, last: Command)
    requires MinOsOnce(front + [last]) && FixupsOnce(front + [last])
    ensures MinOsOnce(front) && FixupsOnce(front)
  {
    var longer := front + [last];
    assert forall j :: 0 <= j < |front| ==> longer[j] == front[j];
  }

  lemma SumsOnce(commands: seq<Command>, g: Gathered)
    requires Sums(commands, g)
    ensures NoneRejected(commands) && MinOsOnce(commands) && FixupsOnce(commands)
  {
  }

  /** Gathering succeeds exactly when no command is rejected and none of the two kinds that may come once comes
      twice, and then it holds what the commands say. */
  lemma {:induction false} GatheredMeans(commands: seq<Command>)
    ensures GatherAll(commands).Some? <==> NoneRejected(commands) && MinOsOnce(commands) && FixupsOnce(commands)
    ensures GatherAll(commands).Some? ==> Sums(commands, GatherAll(commands).value)
  {
    hide MinOsIs, FixupsAre, FlagIs, NoneRejected, MinOsOnce, FixupsOnce;
    if commands == [] {
      NoCommands();
    } else {
      var front, last := commands[..|commands| - 1], commands[|commands| - 1];
      assert commands == front + [last];
      GatheredMeans(front);
      RejectedAfter(front, last);
      if GatherAll(front).Some? {
        var g := GatherAll(front).value;
        MinOsAfter(front, g.minOs, last);
        FixupsAfter(front, g.chains, last);
        FlagAfter(front, CoreFoundation, g.coreFoundation, last);
        FlagAfter(front, Security, g.security, last);
        if MinOsOnce(commands) && FixupsOnce(commands) {
          OnceBefore(front, last, g);
        }
        if GatherAll(commands).Some? {
          SumsOnce(commands, GatherAll(commands).value);
        }
      } else if MinOsOnce(commands) && FixupsOnce(commands) {
        PrefixOnce(front, last);
      }
    }
  }

  lemma SumsAreUnique(commands: seq<Command>, g: Gathered)
    requires Sums(commands, g)
    ensures GatherAll(commands) == Some(g)
  {
    SumsOnce(commands, g);
    GatheredMeans(commands);
  }

  lemma NoCommands()
    ensures Sums([], Gathered(None, None, None, None)) && MinOsOnce([]) && FixupsOnce([])
  {
  }

  /** `m` is what the commands that tile the file say: exactly one minimum system, at most one set of fixups, and a
      framework counts as delayed where it is imported and every import of it carries the marker. */
  predicate Describes(bytes: seq<Byte>, cuts: seq<nat>, m: MachO) {
    && |bytes| >= 24
    && U32At(bytes, 0) == Some(MAGIC)
    && U32At(bytes, 4) == Some(m.cpuType)
    && U32At(bytes, 16) == Some(|cuts| - 1)
    && Tiles(bytes, cuts, 32 + U32At(bytes, 20).value)
    && var commands := CommandsAt(bytes, cuts, 32 + U32At(bytes, 20).value);
    && NoneRejected(commands)
    && MinOsIs(commands, Some(m.minOs))
    && FixupsAre(commands, m.chains)
    && m.delayed.0 == (Imported(commands, CoreFoundation) && AllDelayed(commands, CoreFoundation))
    && m.delayed.1 == (Imported(commands, Security) && AllDelayed(commands, Security))
  }

  /** What has been walked through tiles the file up to the offset reached. */
  predicate TiledSoFar(bytes: seq<Byte>, end: nat, walk: Walk)
    requires end <= |bytes|
  {
    && walk.cuts != []
    && walk.cuts[0] == 32
    && |walk.commands| == |walk.cuts| - 1
    && forall k {:trigger walk.cuts[k]} :: 0 < k < |walk.cuts| ==>
         && Reaches(bytes, walk.cuts[k - 1], walk.cuts[k], end)
         && walk.commands[k - 1] == CommandAt(bytes, walk.cuts[k - 1], walk.cuts[k])
  }

  lemma {:induction false} WalkTiles(bytes: seq<Byte>, end: nat, n: nat)
    requires end <= |bytes| && Walked(bytes, end, n).Some?
    ensures TiledSoFar(bytes, end, Walked(bytes, end, n).value) && |Walked(bytes, end, n).value.cuts| == n + 1
  {
    hide TiledSoFar, Step;
    if n == 0 {
      StartsTiled(bytes, end);
    } else {
      WalkTiles(bytes, end, n - 1);
      StepTiles(bytes, end, Walked(bytes, end, n - 1).value);
    }
  }

  lemma StartsTiled(bytes: seq<Byte>, end: nat)
    requires end <= |bytes|
    ensures TiledSoFar(bytes, end, Walk([32], []))
  {
  }

  lemma StepTiles(bytes: seq<Byte>, end: nat, walk: Walk)
    requires end <= |bytes| && TiledSoFar(bytes, end, walk) && Step(bytes, end, walk).Some?
    ensures TiledSoFar(bytes, end, Step(bytes, end, walk).value)
    ensures |Step(bytes, end, walk).value.cuts| == |walk.cuts| + 1
  {
    hide CommandAt, U32At;
    var longer := Step(bytes, end, walk).value;
    forall k | 0 < k < |longer.cuts|
      ensures && Reaches(bytes, longer.cuts[k - 1], longer.cuts[k], end)
              && longer.commands[k - 1] == CommandAt(bytes, longer.cuts[k - 1], longer.cuts[k])
    {
      if k < |walk.cuts| {
        assert longer.cuts[k] == walk.cuts[k] && longer.cuts[k - 1] == walk.cuts[k - 1];
      }
    }
  }

  lemma CommandsAtEach(bytes: seq<Byte>, cuts: seq<nat>, end: nat, k: nat)
    requires Tiles(bytes, cuts, end) && 0 < k < |cuts|
    ensures Reaches(bytes, cuts[k - 1], cuts[k], end)
    ensures |CommandsAt(bytes, cuts, end)| == |cuts| - 1
    ensures CommandsAt(bytes, cuts, end)[k - 1] == CommandAt(bytes, cuts[k - 1], cuts[k])
  {
    hide CommandAt, U32At;
  }

  lemma WalkIsWhole(bytes: seq<Byte>, end: nat, walk: Walk)
    requires end <= |bytes| && TiledSoFar(bytes, end, walk) && Offset(walk) == end
    ensures Tiles(bytes, walk.cuts, end) && CommandsAt(bytes, walk.cuts, end) == walk.commands
  {
    hide CommandAt, CommandsAt, U32At;
    var commands := CommandsAt(bytes, walk.cuts, end);
    CommandsCount(bytes, walk.cuts, end);
    forall i | 0 <= i < |commands| ensures commands[i] == walk.commands[i] {
      var k := i + 1;
      CommandsAtEach(bytes, walk.cuts, end, k);
      assert Reaches(bytes, walk.cuts[k - 1], walk.cuts[k], end);
    }
  }

  lemma CommandsCount(bytes: seq<Byte>, cuts: seq<nat>, end: nat)
    requires Tiles(bytes, cuts, end)
    ensures |CommandsAt(bytes, cuts, end)| == |cuts| - 1
  {
  }

  lemma OneFurther(bytes: seq<Byte>, end: nat, n: nat, walk: Walk, next: nat)
    requires end <= |bytes| && n > 0 && Walked(bytes, end, n - 1) == Some(walk)
    requires Reaches(bytes, Offset(walk), next, end)
    ensures Walked(bytes, end, n)
            == Some(Walk(walk.cuts + [next], walk.commands + [CommandAt(bytes, Offset(walk), next)]))
  {
    hide CommandAt, U32At;
  }

  lemma {:induction false} TilesAreWalked(bytes: seq<Byte>, cuts: seq<nat>, end: nat, n: nat)
    requires Tiles(bytes, cuts, end) && n < |cuts|
    ensures Walked(bytes, end, n) == Some(Walk(cuts[..n + 1], CommandsAt(bytes, cuts, end)[..n]))
  {
    hide CommandAt, U32At, CommandsAt, Step, Reaches;
    CommandsCount(bytes, cuts, end);
    var commands := CommandsAt(bytes, cuts, end);
    if n == 0 {
      assert cuts[..1] == [32] && commands[..0] == [];
    } else {
      TilesAreWalked(bytes, cuts, end, n - 1);
      CommandsAtEach(bytes, cuts, end, n);
      OneFurther(bytes, end, n, Walk(cuts[..n], commands[..n - 1]), cuts[n]);
      assert cuts[..n + 1] == cuts[..n] + [cuts[n]] && commands[..n] == commands[..n - 1] + [commands[n - 1]];
    }
  }

  /** Parsing accepts a file exactly when its load commands tile it and describe the answer; there is no other
      answer. */
  lemma ParsedMeans(bytes: seq<Byte>, m: MachO)
    ensures Parsed(bytes) == Some(m) <==> exists cuts :: Describes(bytes, cuts, m)
  {
    if Parsed(bytes) == Some(m) {
      var cuts := ParsedIsDescribed(bytes);
    }
    if cuts :| Describes(bytes, cuts, m) {
      DescribedIsParsed(bytes, cuts, m);
    }
  }

  lemma ParsedIsDescribed(bytes: seq<Byte>) returns (cuts: seq<nat>)
    requires Parsed(bytes).Some?
    ensures Describes(bytes, cuts, Parsed(bytes).value)
  {
    hide CommandAt, CommandsAt, Walked, GatherAll, MinOsIs, FixupsAre, NoneRejected, Imported, AllDelayed, Tiles, U32At;
    var end := 32 + U32At(bytes, 20).value;
    var walk := Walked(bytes, end, U32At(bytes, 16).value).value;
    WalkTiles(bytes, end, U32At(bytes, 16).value);
    WalkIsWhole(bytes, end, walk);
    cuts := walk.cuts;
    GatheredMeans(walk.commands);
    var g := GatherAll(walk.commands).value;
    assert Parsed(bytes) == Finish(U32At(bytes, 4).value, g);
  }

  lemma DescribedIsParsed(bytes: seq<Byte>, cuts: seq<nat>, m: MachO)
    requires Describes(bytes, cuts, m)
    ensures Parsed(bytes) == Some(m)
  {
    hide U32At, CommandAt, Walked, GatherAll, MinOsIs, FixupsAre, NoneRejected, Imported, AllDelayed;
    var end := 32 + U32At(bytes, 20).value;
    var commands := CommandsAt(bytes, cuts, end);
    TilesAreWalked(bytes, cuts, end, |cuts| - 1);
    assert cuts[..|cuts|] == cuts && commands[..|commands|] == commands;
    var coreFoundation :=
      if Imported(commands, CoreFoundation) then Some(AllDelayed(commands, CoreFoundation)) else None;
    var security := if Imported(commands, Security) then Some(AllDelayed(commands, Security)) else None;
    SumsAreUnique(commands, Gathered(Some(m.minOs), coreFoundation, security, m.chains));
  }
}
