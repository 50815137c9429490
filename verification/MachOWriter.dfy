/** Executables written out byte by byte, and what the parser makes of them. */
module MachOWriter {
  import opened Wrappers
  import opened MachO

  // ----- little-endian numbers -----

  type Word = n: nat | n < 0x1_0000_0000

  function Little(n: Word): (bytes: seq<Byte>)
    ensures |bytes| == 4
  {
    [n % 0x100, n / 0x100 % 0x100, n / 0x1_0000 % 0x100, n / 0x100_0000]
  }

  function Little16(n: nat): (bytes: seq<Byte>)
    requires n < 0x1_0000
    ensures |bytes| == 2
  {
    [n % 0x100, n / 0x100]
  }

  lemma Quarters(n: Word)
    ensures n % 0x100 + 0x100 * (n / 0x100 % 0x100) + 0x1_0000 * (n / 0x1_0000 % 0x100)
            + 0x100_0000 * (n / 0x100_0000) == n
  {
    var m, k := n / 0x100, n / 0x1_0000;
    assert n == 0x100 * m + n % 0x100 && m == 0x100 * k + m % 0x100;
    assert k == 0x100 * (n / 0x100_0000) + k % 0x100;
  }

  lemma FourAt(bytes: seq<Byte>, offset: nat, four: seq<Byte>)
    requires offset + 4 <= |bytes| && bytes[offset..offset + 4] == four
    ensures bytes[offset] == four[0] && bytes[offset + 1] == four[1]
    ensures bytes[offset + 2] == four[2] && bytes[offset + 3] == four[3]
  {
  }

  /** A number written out reads back, wherever it stands. */
  lemma ReadsBack(bytes: seq<Byte>, offset: nat, n: Word)
    requires offset + 4 <= |bytes| && bytes[offset..offset + 4] == Little(n)
    ensures U32At(bytes, offset) == Some(n)
  {
    FourAt(bytes, offset, Little(n));
    Quarters(n);
  }

  lemma Behind(front: seq<Byte>, n: Word, back: seq<Byte>)
    ensures U32At(front + Little(n) + back, |front|) == Some(n)
  {
    var whole := front + Little(n) + back;
    assert whole[|front|..|front| + 4] == Little(n);
    ReadsBack(whole, |front|, n);
  }

  // ----- texts -----

  /** A Unicode scalar value. */
  predicate IsScalar(c: nat) {
    c < 0xD800 || 0xE000 <= c < 0x11_0000
  }

  /** Its UTF-8 form, as in section 3 of RFC 3629. */
  function Encoded(c: nat): seq<Byte>
    requires IsScalar(c)
  {
    if c < 0x80 then [c]
    else if c < 0x800 then [0xC0 + c / 0x40, 0x80 + c % 0x40]
    else if c < 0x1_0000 then [0xE0 + c / 0x1000, 0x80 + c / 0x40 % 0x40, 0x80 + c % 0x40]
    else [0xF0 + c / 0x4_0000, 0x80 + c / 0x1000 % 0x40, 0x80 + c / 0x40 % 0x40, 0x80 + c % 0x40]
  }

  ghost predicate AllScalars(cs: seq<nat>) {
    forall c <- cs :: IsScalar(c)
  }

  function EncodedText(cs: seq<nat>): seq<Byte>
    requires AllScalars(cs)
  {
    if cs == [] then [] else Encoded(cs[0]) + EncodedText(cs[1..])
  }

  lemma EncodedHead(c: nat)
    requires IsScalar(c)
    ensures var e := Encoded(c);
            || (|e| == 1 && e[0] <= 0x7F)
            || (|e| == 2 && 0xC2 <= e[0] <= 0xDF && IsTail(e[1]))
            || (&& |e| == 3 && 0xE0 <= e[0] <= 0xEF && IsTail(e[1]) && IsTail(e[2])
                && (e[0] == 0xE0 ==> e[1] >= 0xA0) && (e[0] == 0xED ==> e[1] <= 0x9F))
            || (&& |e| == 4 && 0xF0 <= e[0] <= 0xF4 && IsTail(e[1]) && IsTail(e[2]) && IsTail(e[3])
                && (e[0] == 0xF0 ==> e[1] >= 0x90) && (e[0] == 0xF4 ==> e[1] <= 0x8F))
  {
  }

  lemma OneMore(c: nat, b: seq<Byte>)
    requires IsScalar(c) && IsUtf8(b)
    ensures IsUtf8(Encoded(c) + b)
  {
    hide Encoded;
    var whole, n := Encoded(c) + b, |Encoded(c)|;
    EncodedHead(c);
    assert whole[n..] == b;
  }

  lemma {:induction false} EncodedIsUtf8(cs: seq<nat>)
    requires AllScalars(cs)
    ensures IsUtf8(EncodedText(cs))
  {
    if cs != [] {
      EncodedIsUtf8(cs[1..]);
      OneMore(cs[0], EncodedText(cs[1..]));
    }
  }

  lemma Sixes(q: nat, r: nat)
    requires r < 0x40
    ensures (0x40 * q + r) / 0x40 == q && (0x40 * q + r) % 0x40 == r
  {
  }

  lemma SixesTwice(c: nat)
    ensures c / 0x1000 == c / 0x40 / 0x40 && c / 0x4_0000 == c / 0x40 / 0x40 / 0x40
  {
  }

  lemma TwoBytes(x: Byte, y: Byte) returns (c: nat)
    requires 0xC2 <= x <= 0xDF && IsTail(y)
    ensures IsScalar(c) && Encoded(c) == [x, y]
  {
    var p: nat, q: nat := x - 0xC0, y - 0x80;
    c := 0x40 * p + q;
    Sixes(p, q);
  }

  lemma ThreeBytes(x: Byte, y: Byte, z: Byte) returns (c: nat)
    requires 0xE0 <= x <= 0xEF && IsTail(y) && IsTail(z)
    requires (x == 0xE0 ==> y >= 0xA0) && (x == 0xED ==> y <= 0x9F)
    ensures IsScalar(c) && Encoded(c) == [x, y, z]
  {
    var p: nat, q: nat, r: nat := x - 0xE0, y - 0x80, z - 0x80;
    c := 0x40 * (0x40 * p + q) + r;
    Sixes(p, q);
    Sixes(0x40 * p + q, r);
    SixesTwice(c);
  }

  lemma FourBytes(w: Byte, x: Byte, y: Byte, z: Byte) returns (c: nat)
    requires 0xF0 <= w <= 0xF4 && IsTail(x) && IsTail(y) && IsTail(z)
    requires (w == 0xF0 ==> x >= 0x90) && (w == 0xF4 ==> x <= 0x8F)
    ensures IsScalar(c) && Encoded(c) == [w, x, y, z]
  {
    var o: nat, p: nat, q: nat, r: nat := w - 0xF0, x - 0x80, y - 0x80, z - 0x80;
    c := 0x40 * (0x40 * (0x40 * o + p) + q) + r;
    Sixes(o, p);
    Sixes(0x40 * o + p, q);
    Sixes(0x40 * (0x40 * o + p) + q, r);
    SixesTwice(c);
  }

  /** The first character of well-formed bytes. */
  lemma FirstDecoded(b: seq<Byte>) returns (c: nat)
    requires b != [] && IsUtf8(b)
    ensures IsScalar(c) && Encoded(c) <= b && IsUtf8(b[|Encoded(c)|..])
  {
    hide Encoded;
    if b[0] <= 0x7F {
      c := b[0];
      OneByte(c);
    } else if b[0] <= 0xDF {
      c := TwoBytes(b[0], b[1]);
    } else if b[0] <= 0xEF {
      c := ThreeBytes(b[0], b[1], b[2]);
    } else {
      c := FourBytes(b[0], b[1], b[2], b[3]);
    }
  }

  lemma OneByte(c: Byte)
    requires c <= 0x7F
    ensures Encoded(c) == [c]
  {
  }

  lemma {:induction false} Decoded(b: seq<Byte>) returns (cs: seq<nat>)
    requires IsUtf8(b)
    ensures AllScalars(cs) && EncodedText(cs) == b
    decreases |b|
  {
    cs := [];
    if b != [] {
      var c := FirstDecoded(b);
      var rest := Decoded(b[|Encoded(c)|..]);
      cs := [c] + rest;
      assert cs[1..] == rest;
    }
  }

  /** A name is accepted as text exactly when it is the UTF-8 form of some characters. */
  lemma Utf8IsExact(b: seq<Byte>)
    ensures IsUtf8(b) <==> exists cs :: AllScalars(cs) && EncodedText(cs) == b
  {
    if IsUtf8(b) {
      var cs := Decoded(b);
    }
    if cs :| AllScalars(cs) && EncodedText(cs) == b {
      EncodedIsUtf8(cs);
    }
  }

  // ----- chained fixups -----

  /** Chunks of `width` bytes each, end to end. */
  function Flat(chunks: seq<seq<Byte>>): seq<Byte> {
    if chunks == [] then [] else chunks[0] + Flat(chunks[1..])
  }

  ghost predicate AllWide(chunks: seq<seq<Byte>>, width: nat) {
    forall chunk <- chunks :: |chunk| == width
  }

  lemma {:induction false} FlatLength(chunks: seq<seq<Byte>>, width: nat)
    requires AllWide(chunks, width)
    ensures |Flat(chunks)| == |chunks| * width
  {
    if chunks != [] {
      FlatLength(chunks[1..], width);
      OneLess(|chunks|, width);
    }
  }

  lemma OneLess(k: nat, width: nat)
    requires k > 0
    ensures k * width == (k - 1) * width + width
  {
  }

  lemma {:induction false} ChunkAt(chunks: seq<seq<Byte>>, width: nat, k: nat)
    requires AllWide(chunks, width) && k < |chunks|
    ensures 0 <= k * width && k * width + width <= |Flat(chunks)|
    ensures Flat(chunks)[k * width..k * width + width] == chunks[k]
  {
    var later := Flat(chunks[1..]);
    if k > 0 {
      ChunkAt(chunks[1..], width, k - 1);
      OneLess(k, width);
      Shifted(chunks[0], later, (k - 1) * width, width);
    }
  }

  lemma Shifted(front: seq<Byte>, back: seq<Byte>, i: nat, n: nat)
    requires i + n <= |back|
    ensures (front + back)[|front| + i..|front| + i + n] == back[i..i + n]
  {
  }

  function Zeros(n: nat): (bytes: seq<Byte>)
    ensures |bytes| == n
  {
    seq(n, _ => 0)
  }

  /** A segment's fixups: its size, its page size and its pointer format, or none at all. */
  function SlotOf(format: Option<nat>): (bytes: seq<Byte>)
    requires format.Some? ==> format.value < 0x1_0000
    ensures |bytes| == 22
  {
    match format
    case None => Zeros(22)
    case Some(f) => Little(22) + Little16(0x4000) + Little16(f) + Zeros(14)
  }

  ghost predicate Formats(formats: seq<Option<nat>>) {
    && |formats| < 0x100_0000
    && forall format <- formats :: format.Some? ==> format.value < 0x1_0000
  }

  function Offsets(formats: seq<Option<nat>>): (offsets: seq<seq<Byte>>)
    requires |formats| < 0x100_0000
  {
    seq(|formats|, k requires 0 <= k < |formats| =>
      if formats[k].None? then Little(0) else Little(4 + 4 * |formats| + 22 * k))
  }

  function Slots(formats: seq<Option<nat>>): (slots: seq<seq<Byte>>)
    requires Formats(formats)
  {
    seq(|formats|, k requires 0 <= k < |formats| => SlotOf(formats[k]))
  }

  /** The table of segments: how many, where each one's fixups begin, and the fixups. */
  function Starts(formats: seq<Option<nat>>): seq<Byte>
    requires Formats(formats)
  {
    Little(|formats|) + Flat(Offsets(formats)) + Flat(Slots(formats))
  }

  /** The fixups as the linker lays them out. */
  function Written(chains: Chains, formats: seq<Option<nat>>): seq<Byte>
    requires Formats(formats)
    requires chains.version < 0x1_0000_0000 && chains.importsFormat < 0x1_0000_0000
    requires chains.importsCount < 0x1_0000_0000 && chains.symbolsFormat < 0x1_0000_0000
  {
    Little(chains.version) + Little(28) + Little(0) + Little(0)
    + Little(chains.importsCount) + Little(chains.importsFormat) + Little(chains.symbolsFormat)
    + Starts(formats)
  }

  function Present(formats: seq<Option<nat>>): seq<nat> {
    if formats == [] then []
    else Present(formats[..|formats| - 1])
         + match formats[|formats| - 1] case Some(f) => [f] case None => []
  }

  /** The table of segments is read back, from wherever in `bytes` it stands. */
  lemma {:induction false} FormatsReadBack(bytes: seq<Byte>, starts: nat, formats: seq<Option<nat>>, n: nat)
    requires Formats(formats) && n <= |formats|
    requires starts <= |bytes| && bytes[starts..] == Starts(formats)
    ensures PointerFormats(bytes, starts, n) == Some(Present(formats[..n]))
  {
    hide SegmentFormat, Starts, Formats;
    if n > 0 {
      FormatsReadBack(bytes, starts, formats, n - 1);
      assert formats[..n][..n - 1] == formats[..n - 1];
      SegmentReadsBack(bytes, starts, formats, n - 1);
    }
  }

  lemma SegmentReadsBack(bytes: seq<Byte>, starts: nat, formats: seq<Option<nat>>, k: nat)
    requires Formats(formats) && k < |formats|
    requires starts <= |bytes| && bytes[starts..] == Starts(formats)
    ensures SegmentFormat(bytes, starts, k) == Some(match formats[k] case Some(f) => [f] case None => [])
  {
    hide U32At, Flat, SlotOf;
    OffsetStands(bytes, starts, formats, k);
    if formats[k].Some? {
      SlotStands(bytes, starts, formats, k);
      SlotReadsBack(bytes, starts + (4 + 4 * |formats| + 22 * k), formats[k].value);
    }
  }

  lemma OffsetStands(bytes: seq<Byte>, starts: nat, formats: seq<Option<nat>>, k: nat)
    requires Formats(formats) && k < |formats|
    requires starts <= |bytes| && bytes[starts..] == Starts(formats)
    ensures U32At(bytes, starts + 4 + k * 4)
            == Some(if formats[k].None? then 0 else 4 + 4 * |formats| + 22 * k)
  {
    hide U32At, Flat, Slots;
    var offsets, at := Offsets(formats), starts + 4 + k * 4;
    ChunkAt(offsets, 4, k);
    assert Starts(formats)[4 + k * 4..4 + k * 4 + 4] == Flat(offsets)[k * 4..k * 4 + 4];
    assert bytes[at..at + 4] == bytes[starts..][4 + k * 4..4 + k * 4 + 4];
    ReadsBack(bytes, at, if formats[k].None? then 0 else 4 + 4 * |formats| + 22 * k);
  }

  lemma SlotStands(bytes: seq<Byte>, starts: nat, formats: seq<Option<nat>>, k: nat)
    requires Formats(formats) && k < |formats|
    requires starts <= |bytes| && bytes[starts..] == Starts(formats)
    ensures var at := starts + (4 + 4 * |formats| + 22 * k);
            at + 22 <= |bytes| && bytes[at..at + 22] == SlotOf(formats[k])
  {
    hide Flat, SlotOf;
    var slots, front := Slots(formats), 4 + 4 * |formats|;
    FlatLength(Offsets(formats), 4);
    ChunkAt(slots, 22, k);
    var at := starts + (front + 22 * k);
    assert Starts(formats)[front..] == Flat(slots);
    assert bytes[at..at + 22] == bytes[starts..][front + 22 * k..front + 22 * k + 22];
    assert Starts(formats)[front + 22 * k..front + 22 * k + 22] == Flat(slots)[k * 22..k * 22 + 22];
  }

  lemma SlotReadsBack(bytes: seq<Byte>, at: nat, format: nat)
    requires format < 0x1_0000 && at + 22 <= |bytes| && bytes[at..at + 22] == SlotOf(Some(format))
    ensures U32At(bytes, at) == Some(22)
    ensures ByteAt(bytes, at + 6) + 0x100 * ByteAt(bytes, at + 7) == format
  {
    hide U32At;
    var slot := bytes[at..at + 22];
    assert bytes[at..at + 4] == slot[..4] == Little(22);
    ReadsBack(bytes, at, 22);
    assert bytes[at + 6] == slot[6] == format % 0x100 && bytes[at + 7] == slot[7] == format / 0x100;
  }

  /** Fixups written out are parsed as what was put in. */
  lemma ChainsReadBack(chains: Chains, formats: seq<Option<nat>>)
    requires Formats(formats) && chains.pointerFormats == Present(formats)
    requires chains.version < 0x1_0000_0000 && chains.importsFormat < 0x1_0000_0000
    requires chains.importsCount < 0x1_0000_0000 && chains.symbolsFormat < 0x1_0000_0000
    ensures ChainsIn(Written(chains, formats)) == Some(chains)
  {
    hide U32At, Starts, PointerFormats, Formats;
    var bytes := Written(chains, formats);
    assert bytes[0..4] == Little(chains.version) && bytes[4..8] == Little(28);
    assert bytes[16..20] == Little(chains.importsCount) && bytes[20..24] == Little(chains.importsFormat);
    assert bytes[24..28] == Little(chains.symbolsFormat);
    assert bytes[28..] == Starts(formats);
    ReadsBack(bytes, 0, chains.version);
    ReadsBack(bytes, 4, 28);
    ReadsBack(bytes, 16, chains.importsCount);
    ReadsBack(bytes, 20, chains.importsFormat);
    ReadsBack(bytes, 24, chains.symbolsFormat);
    CountStands(bytes, 28, formats);
    FormatsReadBack(bytes, 28, formats, |formats|);
    assert formats[..|formats|] == formats;
  }

  lemma CountStands(bytes: seq<Byte>, starts: nat, formats: seq<Option<nat>>)
    requires Formats(formats) && starts <= |bytes| && bytes[starts..] == Starts(formats)
    ensures U32At(bytes, starts) == Some(|formats|)
  {
    hide U32At;
    assert bytes[starts..starts + 4] == bytes[starts..][..4] == Little(|formats|);
    ReadsBack(bytes, starts, |formats|);
  }

  // ----- load commands -----

  /** A load command by what it says; `rest` is what may follow. */
  datatype Item =
    | Build(platform: Word, version: Word, rest: seq<Byte>)
    | Oldest(version: Word, rest: seq<Byte>)
    /** Imports the library `name`; only a longer header has room for flags. */
    | Load(kind: Word, marker: Word, flags: Option<nat>, name: seq<Byte>, rest: seq<Byte>)
    /** The chained fixups stand at `start` in the file. */
    | Fixed(start: Word, chains: Chains, formats: seq<Option<nat>>, rest: seq<Byte>)
    | Unread(kind: Word, rest: seq<Byte>)

  ghost predicate FitsWord(chains: Chains) {
    && chains.version < 0x1_0000_0000 && chains.importsFormat < 0x1_0000_0000
    && chains.importsCount < 0x1_0000_0000 && chains.symbolsFormat < 0x1_0000_0000
  }

  ghost predicate Sane(item: Item) {
    match item
    case Load(kind, _, flags, name, _) =>
      && kind in {0xc, 0x8000_0018, 0x8000_001f, 0x8000_0023}
      && (flags.Some? ==> flags.value < 0x1_0000_0000)
      && 0 !in name && IsUtf8(name)
    case Fixed(_, chains, formats, _) =>
      && Formats(formats) && FitsWord(chains) && chains.pointerFormats == Present(formats)
      && |Written(chains, formats)| < 0x1_0000_0000
    case Unread(kind, _) =>
      kind !in {0x32, 0x24, 0xc, 0x8000_0018, 0x8000_001f, 0x8000_0023, 0x8000_0034}
    case _ => true
  }

  function KindOf(item: Item): Word {
    match item
    case Build(_, _, _) => 0x32
    case Oldest(_, _) => 0x24
    case Load(kind, _, _, _, _) => kind
    case Fixed(_, _, _, _) => 0x8000_0034
    case Unread(kind, _) => kind
  }

  ghost function Payload(item: Item): seq<Byte>
    requires Sane(item)
  {
    match item
    case Build(platform, version, rest) => Little(platform) + Little(version) + rest
    case Oldest(version, rest) => Little(version) + rest
    case Load(_, marker, flags, name, rest) =>
      Little(if flags.Some? then 28 else 24) + Little(marker) + Little(0) + Little(0)
      + (if flags.Some? then Little(flags.value) else []) + (name + [0] + rest)
    case Fixed(start, chains, formats, rest) => Little(start) + Little(|Written(chains, formats)|) + rest
    case Unread(_, rest) => rest
  }

  ghost predicate Sized(item: Item) {
    Sane(item) && 8 + |Payload(item)| < 0x1_0000_0000
  }

  ghost function Bytes(item: Item): (bytes: seq<Byte>)
    requires Sized(item)
    ensures |bytes| == 8 + |Payload(item)|
  {
    Little(KindOf(item)) + Little(8 + |Payload(item)|) + Payload(item)
  }

  function Chars(text: string): seq<Byte> {
    seq(|text|, i requires 0 <= i < |text| => text[i] as int % 0x100)
  }

  /** The end of a system framework's path. */
  function PathOf(framework: string): seq<Byte> {
    Chars("/") + Chars(framework) + Chars(".framework/Versions/A/") + Chars(framework)
  }

  /** What is put in, in the parser's terms. */
  function Meaning(item: Item): Command {
    match item
    case Build(platform, version, _) => if platform == 1 then MinOs(version) else Ignored
    case Oldest(version, _) => MinOs(version)
    case Load(kind, marker, flags, name, _) =>
      Dylib(EndsWith(name, PathOf("CoreFoundation")), EndsWith(name, PathOf("Security")),
            kind == 0xc && marker == 0x1a74_1800 && flags.Some? && flags.value / 8 % 2 == 1)
    case Fixed(_, chains, _, _) => Fixups(chains)
    case Unread(_, _) => Ignored
  }

  /** The fixups an item points to stand there. */
  ghost predicate Placed(file: seq<Byte>, item: Item)
    requires Sane(item)
  {
    item.Fixed? ==>
      var chains := Written(item.chains, item.formats);
      item.start + |chains| <= |file| && file[item.start..item.start + |chains|] == chains
  }

  lemma PayloadStands(item: Item)
    requires Sized(item)
    ensures Bytes(item)[8..] == Payload(item)
  {
  }

  lemma BuildIsRead(file: seq<Byte>, item: Item)
    requires Sized(item) && item.Build?
    ensures Classify(file, Bytes(item), 0x32) == Meaning(item)
  {
    hide U32At, Little;
    var bytes := Bytes(item);
    PayloadStands(item);
    assert bytes[8..12] == bytes[8..][..4] == Little(item.platform);
    assert bytes[12..16] == bytes[8..][4..8] == Little(item.version);
    ReadsBack(bytes, 8, item.platform);
    ReadsBack(bytes, 12, item.version);
  }

  lemma OldestIsRead(file: seq<Byte>, item: Item)
    requires Sized(item) && item.Oldest?
    ensures Classify(file, Bytes(item), 0x24) == Meaning(item)
  {
    hide U32At, Little;
    var bytes := Bytes(item);
    PayloadStands(item);
    assert bytes[8..12] == bytes[8..][..4] == Little(item.version);
    ReadsBack(bytes, 8, item.version);
  }

  lemma FixedIsRead(file: seq<Byte>, item: Item)
    requires Sized(item) && item.Fixed? && Placed(file, item)
    ensures Classify(file, Bytes(item), 0x8000_0034) == Meaning(item)
  {
    hide U32At, Little, Written, ChainsIn, Present, Formats;
    var bytes, size := Bytes(item), |Written(item.chains, item.formats)|;
    PayloadStands(item);
    assert bytes[8..12] == bytes[8..][..4] == Little(item.start);
    assert bytes[12..16] == bytes[8..][4..8] == Little(size);
    ReadsBack(bytes, 8, item.start);
    ReadsBack(bytes, 12, size);
    ChainsReadBack(item.chains, item.formats);
  }

  lemma {:induction false} ZeroFound(name: seq<Byte>, rest: seq<Byte>)
    requires 0 !in name
    ensures ZeroAt(name + [0] + rest) == |name|
  {
    var text := name + [0] + rest;
    if name != [] {
      assert text[1..] == name[1..] + [0] + rest;
      ZeroFound(name[1..], rest);
    }
  }

  lemma PathIsSuffix(framework: string)
    requires forall i :: 0 <= i < |framework| ==> framework[i] as int < 128
    ensures FrameworkSuffix(framework) == PathOf(framework)
  {
    hide Ascii;
    AsciiChars("/");
    AsciiChars(framework);
    AsciiChars(".framework/Versions/A/");
  }

  lemma AsciiChars(text: string)
    requires forall i :: 0 <= i < |text| ==> text[i] as int < 128
    ensures Ascii(text) == Chars(text)
  {
  }

  /** The parts of an import. */
  lemma LoadStands(item: Item)
    requires Sized(item) && item.Load?
    ensures var bytes := Bytes(item);
            var at := if item.flags.Some? then 28 else 24;
            && U32At(bytes, 8) == Some(at) && U32At(bytes, 12) == Some(item.marker)
            && (item.flags.Some? ==> U32At(bytes, 24) == Some(item.flags.value))
            && at <= |bytes| && bytes[at..] == item.name + [0] + item.rest
  {
    hide U32At, Little, IsUtf8;
    var bytes := Bytes(item);
    var at := if item.flags.Some? then 28 else 24;
    PayloadStands(item);
    assert bytes[8..12] == bytes[8..][..4] == Little(at);
    assert bytes[12..16] == bytes[8..][4..8] == Little(item.marker);
    ReadsBack(bytes, 8, at);
    ReadsBack(bytes, 12, item.marker);
    if item.flags.Some? {
      assert bytes[24..28] == bytes[8..][16..20] == Little(item.flags.value);
      ReadsBack(bytes, 24, item.flags.value);
    }
    assert bytes[at..] == bytes[8..][at - 8..];
  }

  lemma LoadIsRead(file: seq<Byte>, item: Item)
    requires Sized(item) && item.Load?
    ensures Classify(file, Bytes(item), item.kind) == Meaning(item)
  {
    hide U32At, Little, IsUtf8, Bytes, ZeroAt, EndsWith, FrameworkSuffix, PathOf;
    LoadStands(item);
    ZeroFound(item.name, item.rest);
    PathIsSuffix("CoreFoundation");
    PathIsSuffix("Security");
    assert (item.name + [0] + item.rest)[..|item.name|] == item.name;
  }

  /** Whatever is written as a load command is read as what was meant. */
  lemma ItemIsRead(file: seq<Byte>, item: Item)
    requires Sized(item) && Placed(file, item)
    ensures Classify(file, Bytes(item), KindOf(item)) == Meaning(item)
  {
    hide U32At, Bytes, IsUtf8, Written, Formats, Present;
    match item
    case Build(_, _, _) => BuildIsRead(file, item);
    case Oldest(_, _) => OldestIsRead(file, item);
    case Load(_, _, _, _, _) => LoadIsRead(file, item);
    case Fixed(_, _, _, _) => FixedIsRead(file, item);
    case Unread(_, _) =>
  }

  // ----- whole files -----

  ghost predicate AllSized(items: seq<Item>) {
    forall item <- items :: Sized(item)
  }

  ghost function AllBytes(items: seq<Item>): seq<Byte>
    requires AllSized(items)
  {
    if items == [] then [] else AllBytes(items[..|items| - 1]) + Bytes(items[|items| - 1])
  }

  function Meanings(items: seq<Item>): seq<Command> {
    seq(|items|, k requires 0 <= k < |items| => Meaning(items[k]))
  }

  /** An executable: the magic number, the processor, two unread words, how many commands and their size, two more
      unread words, the commands, and everything else. */
  ghost function Assembled(cpuType: Word, filler: (Word, Word, Word, Word), items: seq<Item>, data: seq<Byte>)
      : seq<Byte>
    requires AllSized(items) && |items| < 0x1_0000_0000 && |AllBytes(items)| < 0x1_0000_0000
  {
    [0xcf, 0xfa, 0xed, 0xfe] + Little(cpuType) + Little(filler.0) + Little(filler.1)
    + Little(|items|) + Little(|AllBytes(items)|) + Little(filler.2) + Little(filler.3)
    + AllBytes(items) + data
  }

  lemma HeaderStands(cpuType: Word, filler: (Word, Word, Word, Word), items: seq<Item>, data: seq<Byte>)
    requires AllSized(items) && |items| < 0x1_0000_0000 && |AllBytes(items)| < 0x1_0000_0000
    ensures var file := Assembled(cpuType, filler, items, data);
            && U32At(file, 0) == Some(0xfeed_facf) && U32At(file, 4) == Some(cpuType)
            && U32At(file, 16) == Some(|items|) && U32At(file, 20) == Some(|AllBytes(items)|)
            && 32 + |AllBytes(items)| <= |file| && file[32..32 + |AllBytes(items)|] == AllBytes(items)
  {
    hide AllBytes, Little;
    var file := Assembled(cpuType, filler, items, data);
    assert file[4..8] == Little(cpuType);
    assert file[16..20] == Little(|items|) && file[20..24] == Little(|AllBytes(items)|);
    ReadsBack(file, 4, cpuType);
    ReadsBack(file, 16, |items|);
    ReadsBack(file, 20, |AllBytes(items)|);
    MagicStands(file);
    assert file[32..] == AllBytes(items) + data;
  }

  lemma MagicStands(file: seq<Byte>)
    requires |file| >= 4 && file[0] == 0xcf && file[1] == 0xfa && file[2] == 0xed && file[3] == 0xfe
    ensures U32At(file, 0) == Some(0xfeed_facf)
  {
  }

  ghost predicate Holds(file: seq<Byte>, end: nat, items: seq<Item>) {
    && AllSized(items)
    && end == 32 + |AllBytes(items)| <= |file|
    && file[32..end] == AllBytes(items)
    && forall item <- items :: Placed(file, item)
  }

  ghost predicate WalkedTo(file: seq<Byte>, end: nat, items: seq<Item>, n: nat, walk: Walk)
    requires Holds(file, end, items) && n <= |items|
  {
    && Walked(file, end, n) == Some(walk)
    && walk.commands == Meanings(items)[..n]
    && Offset(walk) == 32 + |AllBytes(items[..n])|
  }

  /** The walk finds the commands that were put in, one after the other. */
  lemma {:induction false} WalksThrough(file: seq<Byte>, end: nat, items: seq<Item>, n: nat) returns (walk: Walk)
    requires Holds(file, end, items) && n <= |items|
    ensures WalkedTo(file, end, items, n, walk)
  {
    hide Holds, WalkedTo;
    if n == 0 {
      walk := Walk([32], []);
      WalkBegins(file, end, items);
    } else {
      var before := WalksThrough(file, end, items, n - 1);
      walk := WalkGoesOn(file, end, items, n, before);
    }
  }

  lemma WalkBegins(file: seq<Byte>, end: nat, items: seq<Item>)
    requires Holds(file, end, items)
    ensures WalkedTo(file, end, items, 0, Walk([32], []))
  {
    hide AllSized, Placed;
    NoBytes();
    assert items[..0] == [] && Meanings(items)[..0] == [];
  }

  lemma WalkGoesOn(file: seq<Byte>, end: nat, items: seq<Item>, n: nat, before: Walk) returns (walk: Walk)
    requires Holds(file, end, items) && 0 < n <= |items| && WalkedTo(file, end, items, n - 1, before)
    ensures WalkedTo(file, end, items, n, walk)
  {
    hide AllBytes, Sized, Placed, Bytes, Meaning, Walked, Meanings;
    var item := items[n - 1];
    ItemStands(file, end, items, n - 1);
    WalksOn(file, end, n, before, item);
    walk := Walk(before.cuts + [Offset(before) + |Bytes(item)|], before.commands + [Meaning(item)]);
    OneMeaning(items, n);
  }

  lemma OneMeaning(items: seq<Item>, n: nat)
    requires 0 < n <= |items|
    ensures |Meanings(items)| == |items|
    ensures Meanings(items)[..n] == Meanings(items)[..n - 1] + [Meaning(items[n - 1])]
  {
    hide Meaning;
  }

  lemma WalksOn(file: seq<Byte>, end: nat, n: nat, walk: Walk, item: Item)
    requires end <= |file| && n > 0 && Walked(file, end, n - 1) == Some(walk)
    requires Sized(item) && Placed(file, item) && Offset(walk) + |Bytes(item)| <= end
    requires file[Offset(walk)..Offset(walk) + |Bytes(item)|] == Bytes(item)
    ensures Walked(file, end, n)
            == Some(Walk(walk.cuts + [Offset(walk) + |Bytes(item)|], walk.commands + [Meaning(item)]))
  {
    hide U32At, CommandAt, Bytes, Placed, Walked, Sane, Payload, Classify, Meaning;
    ItemIsRead(file, item);
    WordsOf(file, Offset(walk), item);
    OneFurther(file, end, n, walk, Offset(walk) + |Bytes(item)|);
  }

  lemma NoBytes()
    ensures AllBytes([]) == []
  {
  }

  /** Item `n` stands behind the ones before it. */
  lemma ItemStands(file: seq<Byte>, end: nat, items: seq<Item>, n: nat)
    requires AllSized(items) && n < |items| && end == 32 + |AllBytes(items)| <= |file|
    requires file[32..end] == AllBytes(items)
    ensures var here := 32 + |AllBytes(items[..n])|;
            && 32 + |AllBytes(items[..n + 1])| == here + |Bytes(items[n])| <= end
            && file[here..here + |Bytes(items[n])|] == Bytes(items[n])
  {
    hide Sized, Bytes, AllBytes;
    LastBytes(items, n);
    PrefixBytes(items, n + 1);
    Within(file, 32, end, AllBytes(items[..n]), Bytes(items[n]));
  }

  lemma LastBytes(items: seq<Item>, n: nat)
    requires AllSized(items) && n < |items|
    ensures AllBytes(items[..n + 1]) == AllBytes(items[..n]) + Bytes(items[n])
  {
    hide Sized, Bytes;
    assert items[..n + 1][..n] == items[..n];
  }

  lemma Within(file: seq<Byte>, from: nat, end: nat, front: seq<Byte>, bytes: seq<Byte>)
    requires from <= end <= |file| && front + bytes <= file[from..end]
    ensures var here := from + |front|; here + |bytes| <= end && file[here..here + |bytes|] == bytes
  {
    var here := from + |front|;
    assert file[here..here + |bytes|] == (front + bytes)[|front|..];
  }

  lemma {:induction false} PrefixBytes(items: seq<Item>, n: nat)
    requires AllSized(items) && n <= |items|
    ensures AllBytes(items[..n]) <= AllBytes(items)
    decreases |items| - n
  {
    hide Sized, Bytes;
    if n == |items| {
      assert items[..n] == items;
    } else {
      assert items[..n + 1][..n] == items[..n];
      PrefixBytes(items, n + 1);
    }
  }

  lemma BytesBegin(item: Item)
    requires Sized(item)
    ensures Bytes(item)[..4] == Little(KindOf(item)) && Bytes(item)[4..8] == Little(|Bytes(item)|)
  {
    hide Payload, Little, Sane;
  }

  lemma Slice(file: seq<Byte>, here: nat, n: nat, i: nat, j: nat)
    requires here + n <= |file| && i <= j <= n
    ensures file[here + i..here + j] == file[here..here + n][i..j]
  {
    var whole := file[here..here + n];
    assert forall k :: 0 <= k < j - i ==> file[here + i..here + j][k] == whole[i..j][k];
  }

  lemma WordsOf(file: seq<Byte>, here: nat, item: Item)
    requires Sized(item) && here + |Bytes(item)| <= |file| && file[here..here + |Bytes(item)|] == Bytes(item)
    ensures U32At(file, here) == Some(KindOf(item)) && U32At(file, here + 4) == Some(|Bytes(item)|)
    ensures CommandAt(file, here, here + |Bytes(item)|) == Classify(file, Bytes(item), KindOf(item))
  {
    hide Payload, Little, Sane, Classify, Bytes, KindOf, U32At;
    BytesBegin(item);
    var bytes := file[here..here + |Bytes(item)|];
    assert |bytes| >= 8;
    Slice(file, here, |bytes|, 0, 4);
    Slice(file, here, |bytes|, 4, 8);
    ReadsBack(file, here, KindOf(item));
    ReadsBack(file, here + 4, |Bytes(item)|);
  }

  /** A file put together from a header and load commands is parsed as what was put in; what several commands amount to
      is what gathering makes of them. */
  lemma AssembledIsParsed(cpuType: Word, filler: (Word, Word, Word, Word), items: seq<Item>, data: seq<Byte>)
    requires AllSized(items) && |items| < 0x1_0000_0000 && |AllBytes(items)| < 0x1_0000_0000
    requires forall item <- items :: Placed(Assembled(cpuType, filler, items, data), item)
    ensures Parsed(Assembled(cpuType, filler, items, data)) ==
            match GatherAll(Meanings(items)) case Some(g) => Finish(cpuType, g) case None => None
  {
    hide Assembled, AllBytes, Sized, Placed, U32At, Walked, GatherAll, Finish;
    var file := Assembled(cpuType, filler, items, data);
    HeaderStands(cpuType, filler, items, data);
    var walk := WalksThrough(file, 32 + |AllBytes(items)|, items, |items|);
    assert items[..|items|] == items && Meanings(items)[..|items|] == Meanings(items);
  }

  // ----- what is refused -----

  /** A text ended by a zero byte stands where the import says, behind its header. */
  ghost predicate NameStands(command: seq<Byte>, at: nat, name: seq<Byte>, rest: seq<Byte>) {
    && U32At(command, 8) == Some(at)
    && 24 <= at <= |command|
    && command[at..] == name + [0] + rest
    && 0 !in name && IsUtf8(name)
  }

  /** An import is accepted exactly when it names a library so. */
  lemma ImportsReadExactly(file: seq<Byte>, command: seq<Byte>, kind: nat)
    requires kind in {0xc, 0x8000_0018, 0x8000_001f, 0x8000_0023}
    ensures !Classify(file, command, kind).Rejected? <==> exists at, name, rest :: NameStands(command, at, name, rest)
  {
    hide U32At, IsUtf8, EndsWith, FrameworkSuffix, IsDelayed;
    assert Classify(file, command, kind) == DylibCommand(command, kind);
    if !DylibCommand(command, kind).Rejected? {
      var at := U32At(command, 8).value;
      var text := command[at..];
      var n := ZeroAt(text);
      assert text == text[..n] + [0] + text[n + 1..] && 0 !in text[..n];
      assert NameStands(command, at, text[..n], text[n + 1..]);
    }
    if at, name, rest :| NameStands(command, at, name, rest) {
      ZeroFound(name, rest);
      assert (name + [0] + rest)[..|name|] == name;
    }
  }

  /** The segment's entry is zero, or points to at least 22 bytes that are there. */
  predicate SegmentStands(bytes: seq<Byte>, starts: nat, k: nat) {
    match U32At(bytes, starts + 4 + 4 * k)
    case None => false
    case Some(relative) =>
      relative == 0
      || match U32At(bytes, starts + relative)
         case None => false
         case Some(size) => 22 <= size <= |bytes| - starts - relative
  }

  lemma SegmentReadsExactly(bytes: seq<Byte>, starts: nat, k: nat)
    ensures SegmentFormat(bytes, starts, k).Some? <==> SegmentStands(bytes, starts, k)
  {
    hide U32At;
    if U32At(bytes, starts + 4 + 4 * k).Some? {
      var relative := U32At(bytes, starts + 4 + 4 * k).value;
      U32Within(bytes, starts + relative);
    }
  }

  lemma U32Within(bytes: seq<Byte>, offset: nat)
    ensures U32At(bytes, offset).Some? ==> offset + 4 <= |bytes|
  {
  }

  /** A table of segments is accepted exactly when every one stands. */
  lemma {:induction false} SegmentsReadExactly(bytes: seq<Byte>, starts: nat, n: nat)
    ensures PointerFormats(bytes, starts, n).Some? <==> forall k: nat :: k < n ==> SegmentStands(bytes, starts, k)
  {
    hide U32At;
    if n > 0 {
      SegmentsReadExactly(bytes, starts, n - 1);
      SegmentReadsExactly(bytes, starts, n - 1);
      hide SegmentStands, SegmentFormat;
    }
  }

  /** Fixups are accepted exactly when they lie in the file and can be read there. */
  lemma FixupsReadExactly(file: seq<Byte>, command: seq<Byte>)
    ensures !Classify(file, command, 0x8000_0034).Rejected? <==>
            && |command| >= 16
            && var start, size := U32At(command, 8).value, U32At(command, 12).value;
               start + size <= |file| && ChainsIn(file[start..start + size]).Some?
  {
    hide ChainsIn;
  }

  /** A stated version is accepted exactly when its number is there; a build for another platform states none. */
  lemma VersionsReadExactly(file: seq<Byte>, command: seq<Byte>)
    ensures !Classify(file, command, 0x24).Rejected? <==> |command| >= 12
    ensures !Classify(file, command, 0x32).Rejected? <==>
            |command| >= 12 && (U32At(command, 8) == Some(1) ==> |command| >= 16)
  {
  }
}
