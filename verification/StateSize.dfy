/** The bounded scan that measures how much state is stored on disk. */
module StateSize {
  const U64_MAX: nat := 0xFFFF_FFFF_FFFF_FFFF

  /** What a path leads to. */
  datatype Node =
    | File(length: nat)
    | Directory(entries: seq<Entry>)
    /** A directory that cannot be listed, with what it hides. */
    | ClosedDirectory(within: seq<Entry>)
    | Symlink
    | Special
    | Missing
    /** Something of which not even the kind can be read. */
    | Unreadable(what: Node)

  /** A directory's entry; the record of a lost one fails to be read, and what it leads to stays unseen. */
  datatype Entry = Known(node: Node) | Lost(hidden: Node)

  datatype Size = Size(present: bool, complete: bool, entries: nat, bytes: nat)

  /** A forest as a scan can see it: how many nodes it counts, their bytes, and what stands in its way. */
  datatype Tally = Tally(steps: nat, entries: nat, bytes: nat, readable: bool, present: bool, missing: bool)

  const NOTHING := Tally(0, 0, 0, true, false, false)

  function Join(a: Tally, b: Tally): Tally {
    Tally(a.steps + b.steps, a.entries + b.entries, a.bytes + b.bytes, a.readable && b.readable,
          a.present || b.present, a.missing || b.missing)
  }

  /** One node with all it holds. A link is counted and not followed. */
  function TallyNode(node: Node): (t: Tally)
    ensures t.steps > 0
  {
    match node
    case File(length) => Tally(1, 1, length, true, true, false)
    case Directory(entries) => Join(Tally(1, 1, 0, true, true, false), TallyEntries(entries))
    case ClosedDirectory(_) => Tally(1, 1, 0, false, true, false)
    case Symlink => Tally(1, 1, 0, true, true, false)
    case Special => Tally(1, 1, 0, true, true, false)
    case Missing => Tally(1, 0, 0, true, false, true)
    case Unreadable(_) => Tally(1, 0, 0, false, true, false)
  }

  function TallyEntry(entry: Entry): Tally {
    match entry
    case Known(node) => TallyNode(node)
    case Lost(_) => NOTHING
  }

  function TallyEntries(entries: seq<Entry>): Tally {
    if entries == [] then NOTHING
    else Join(TallyEntries(entries[..|entries| - 1]), TallyEntry(entries[|entries| - 1]))
  }

  function TallyAll(nodes: seq<Node>): Tally {
    if nodes == [] then NOTHING else Join(TallyAll(nodes[..|nodes| - 1]), TallyNode(nodes[|nodes| - 1]))
  }

  /** The entries whose records could be read. */
  function Listed(entries: seq<Entry>): seq<Node> {
    if entries == [] then []
    else
      var last := entries[|entries| - 1];
      Listed(entries[..|entries| - 1]) + if last.Known? then [last.node] else []
  }

  lemma TallyPush(nodes: seq<Node>, node: Node)
    ensures TallyAll(nodes + [node]) == Join(TallyAll(nodes), TallyNode(node))
  {
    hide TallyNode, Join;
    assert (nodes + [node])[..|nodes|] == nodes;
  }

  lemma {:induction false} ListedIsTallied(entries: seq<Entry>)
    ensures TallyAll(Listed(entries)) == TallyEntries(entries)
  {
    hide TallyNode, TallyAll;
    if entries == [] {
      TallyNone();
    } else {
      var front := entries[..|entries| - 1];
      ListedIsTallied(front);
      match entries[|entries| - 1]
      case Known(node) => TallyPush(Listed(front), node);
      case Lost(_) => assert Listed(front) + [] == Listed(front);
    }
  }

  lemma TallyNone()
    ensures TallyAll([]) == NOTHING
  {
  }

  lemma {:induction false} TallyAppend(a: seq<Node>, b: seq<Node>)
    ensures TallyAll(a + b) == Join(TallyAll(a), TallyAll(b))
  {
    hide TallyNode, TallyAll;
    if b == [] {
      TallyNone();
      assert a + b == a;
    } else {
      var front, last := b[..|b| - 1], b[|b| - 1];
      TallyAppend(a, front);
      TallyPush(a + front, last);
      TallyPush(front, last);
      assert front + [last] == b && a + front + [last] == a + b;
    }
  }

  // ----- what a scan can read -----

  /** Every directory that is met can be listed, and every path that is met can be read. */
  predicate CanRead(node: Node) {
    match node
    case Directory(entries) => forall k :: 0 <= k < |entries| && entries[k].Known? ==> CanRead(entries[k].node)
    case ClosedDirectory(_) => false
    case Unreadable(_) => false
    case _ => true
  }

  predicate CanReadEach(entries: seq<Entry>) {
    forall k :: 0 <= k < |entries| && entries[k].Known? ==> CanRead(entries[k].node)
  }

  lemma EachButLast(entries: seq<Entry>)
    requires entries != []
    ensures var front, last := entries[..|entries| - 1], entries[|entries| - 1];
            CanReadEach(entries) <==> CanReadEach(front) && (last.Known? ==> CanRead(last.node))
  {
    hide CanRead;
    var front := entries[..|entries| - 1];
    assert forall k :: 0 <= k < |front| ==> front[k] == entries[k];
  }

  lemma {:induction false} EntriesAreReadable(entries: seq<Entry>)
    ensures TallyEntries(entries).readable <==> CanReadEach(entries)
    decreases entries
  {
    hide CanRead, TallyNode, CanReadEach;
    if entries == [] {
      NoneToRead();
    } else {
      EntriesAreReadable(entries[..|entries| - 1]);
      EachButLast(entries);
      EntryIsReadable(entries[|entries| - 1]);
    }
  }

  lemma {:induction false} EntryIsReadable(entry: Entry)
    ensures TallyEntry(entry).readable <==> (entry.Known? ==> CanRead(entry.node))
    decreases entry
  {
    hide CanRead, TallyNode;
    if entry.Known? {
      ReadableIsExact(entry.node);
    }
  }

  lemma NoneToRead()
    ensures CanReadEach([])
  {
  }

  /** What can be read is what the tally calls readable. */
  lemma {:induction false} ReadableIsExact(node: Node)
    ensures TallyNode(node).readable <==> CanRead(node)
    decreases node
  {
    if node.Directory? {
      EntriesAreReadable(node.entries);
      hide TallyEntries;
    }
  }

  // ----- what a scan cannot see -----

  /** One node with all it really holds: its counted nodes and their bytes, lost entries included. */
  function TrueNode(node: Node): (nat, nat) {
    match node
    case File(length) => (1, length)
    case Directory(entries) => (1 + TrueEntries(entries).0, TrueEntries(entries).1)
    case ClosedDirectory(within) => (1 + TrueEntries(within).0, TrueEntries(within).1)
    case Missing => (0, 0)
    case Unreadable(what) => TrueNode(what)
    case _ => (1, 0)
  }

  function TrueEntry(entry: Entry): (nat, nat) {
    match entry
    case Known(node) => TrueNode(node)
    case Lost(hidden) => TrueNode(hidden)
  }

  function TrueEntries(entries: seq<Entry>): (nat, nat) {
    if entries == [] then (0, 0)
    else
      var front, last := TrueEntries(entries[..|entries| - 1]), TrueEntry(entries[|entries| - 1]);
      (front.0 + last.0, front.1 + last.1)
  }

  function TrueAll(nodes: seq<Node>): (nat, nat) {
    if nodes == [] then (0, 0)
    else
      var front, last := TrueAll(nodes[..|nodes| - 1]), TrueNode(nodes[|nodes| - 1]);
      (front.0 + last.0, front.1 + last.1)
  }

  /** Nothing is there, whatever is known of it. */
  predicate CountsNothing(node: Node) {
    match node
    case Missing => true
    case Unreadable(what) => CountsNothing(what)
    case _ => false
  }

  predicate EntryCountsNothing(entry: Entry) {
    match entry
    case Known(node) => CountsNothing(node)
    case Lost(hidden) => CountsNothing(hidden)
  }

  /** Whatever a scan cannot read or list leads to nothing that would be counted. */
  predicate NodeHidesNothing(node: Node) {
    match node
    case Directory(entries) => EntriesHideNothing(entries)
    case ClosedDirectory(within) => forall k :: 0 <= k < |within| ==> EntryCountsNothing(within[k])
    case Unreadable(what) => CountsNothing(what)
    case _ => true
  }

  predicate EntryHidesNothing(entry: Entry) {
    match entry
    case Known(node) => NodeHidesNothing(node)
    case Lost(hidden) => CountsNothing(hidden)
  }

  predicate EntriesHideNothing(entries: seq<Entry>) {
    entries == []
    || (EntriesHideNothing(entries[..|entries| - 1]) && EntryHidesNothing(entries[|entries| - 1]))
  }

  predicate HidesNothing(nodes: seq<Node>) {
    forall k :: 0 <= k < |nodes| ==> NodeHidesNothing(nodes[k])
  }

  /** What is seen is at most what is there, and all of it exactly where nothing counted is hidden. */
  predicate Fits(seen: Tally, actual: (nat, nat), open: bool) {
    && seen.entries <= actual.0 && seen.bytes <= actual.1
    && (seen.entries == actual.0 <==> open)
    && (open ==> seen.bytes == actual.1)
  }

  lemma {:induction false} NothingCounts(node: Node)
    ensures CountsNothing(node) <==> TrueNode(node).0 == 0
    ensures CountsNothing(node) ==> TrueNode(node).1 == 0
  {
    if node.Unreadable? {
      NothingCounts(node.what);
    }
  }

  lemma {:induction false} NothingsCount(entries: seq<Entry>)
    ensures (forall k :: 0 <= k < |entries| ==> EntryCountsNothing(entries[k])) <==> TrueEntries(entries).0 == 0
    ensures TrueEntries(entries).0 == 0 ==> TrueEntries(entries).1 == 0
  {
    if entries != [] {
      var front, last := entries[..|entries| - 1], entries[|entries| - 1];
      NothingsCount(front);
      match last {
        case Known(node) => NothingCounts(node);
        case Lost(hidden) => NothingCounts(hidden);
      }
      assert EntryCountsNothing(last) <==> TrueEntry(last).0 == 0;
      assert forall k :: 0 <= k < |front| ==> front[k] == entries[k];
      hide EntryCountsNothing, TrueEntry;
    }
  }

  lemma {:induction false} NodeFits(node: Node)
    ensures Fits(TallyNode(node), TrueNode(node), NodeHidesNothing(node))
    decreases node
  {
    match node
    case Directory(entries) =>
      EntriesFit(entries);
      hide TallyEntries, TrueEntries, EntriesHideNothing;
    case ClosedDirectory(within) => NothingsCount(within);
    case Unreadable(what) => NothingCounts(what);
    case _ =>
  }

  lemma {:induction false} EntryFits(entry: Entry)
    ensures Fits(TallyEntry(entry), TrueEntry(entry), EntryHidesNothing(entry))
    decreases entry
  {
    match entry
    case Known(node) => NodeFits(node);
    case Lost(hidden) => NothingCounts(hidden);
  }

  lemma {:induction false} EntriesFit(entries: seq<Entry>)
    ensures Fits(TallyEntries(entries), TrueEntries(entries), EntriesHideNothing(entries))
    decreases entries
  {
    if entries != [] {
      EntriesFit(entries[..|entries| - 1]);
      EntryFits(entries[|entries| - 1]);
      hide TallyEntry, TrueEntry, EntryHidesNothing;
    }
  }

  /** The totals a scan can reach are the true ones exactly when no lost entry leads to something that counts. */
  lemma {:induction false} SeenIsTrue(nodes: seq<Node>)
    ensures Fits(TallyAll(nodes), TrueAll(nodes), HidesNothing(nodes))
  {
    hide TallyNode, TrueNode, NodeHidesNothing;
    if nodes != [] {
      var front, last := nodes[..|nodes| - 1], nodes[|nodes| - 1];
      SeenIsTrue(front);
      NodeFits(last);
      assert HidesNothing(nodes) <==> HidesNothing(front) && NodeHidesNothing(last) by {
        assert forall k :: 0 <= k < |front| ==> front[k] == nodes[k];
      }
    }
  }

  // ----- the scan -----

  function Saturated(n: nat): nat {
    if n > U64_MAX then U64_MAX else n
  }

  /** Sums stop at the largest 64-bit number. */
  lemma SaturatesAtTheTop(n: nat)
    ensures Saturated(n) == if n > 18_446_744_073_709_551_615 then 18_446_744_073_709_551_615 else n
  {
  }

  /** state_size: pops the pending paths one by one, adding the entries of each directory it meets. */
  method StateSize(paths: seq<Node>, limit: nat) returns (result: Size)
    ensures var all := TallyAll(paths);
            && result.entries <= limit
            && result.entries <= all.entries
            && result.bytes <= Saturated(all.bytes)
            && (result.present ==> all.present)
            && (result.complete ==>
                  all.readable && result == Size(all.present, true, all.entries, Saturated(all.bytes)))
            && (all.entries < limit ==> result == Size(all.present, all.readable, all.entries, Saturated(all.bytes)))
            && (!all.missing ==> (result.complete <==> all.readable && all.entries <= limit))
    ensures result.entries <= TrueAll(paths).0 && result.bytes <= Saturated(TrueAll(paths).1)
    ensures result.complete ==>
              (result.entries == TrueAll(paths).0 && result.bytes == Saturated(TrueAll(paths).1)
               <==> HidesNothing(paths))
  {
    hide TallyEntries, Listed, TrueAll, HidesNothing;
    SeenIsTrue(paths);
    result := Size(false, true, 0, 0);
    var pending := paths;
    ghost var all := TallyAll(paths);
    ghost var counted := 0;
    while pending != []
      invariant result.entries <= limit
      invariant result.entries + TallyAll(pending).entries == all.entries
      invariant counted + TallyAll(pending).bytes == all.bytes && result.bytes == Saturated(counted)
      invariant (result.complete && TallyAll(pending).readable) == all.readable
      invariant (result.present || TallyAll(pending).present) == all.present
      invariant TallyAll(pending).missing ==> all.missing
      decreases TallyAll(pending).steps
    {
      var path := pending[|pending| - 1];
      pending := pending[..|pending| - 1];
      if result.entries >= limit {
        result := result.(complete := false);
        break;
      }
      match path
      case Missing =>
      case Unreadable(_) => result := result.(present := true, complete := false);
      case Symlink => result := result.(present := true, entries := result.entries + 1);
      case Special => result := result.(present := true, entries := result.entries + 1);
      case File(length) =>
        counted := counted + length;
        result := result.(present := true, entries := result.entries + 1, bytes := Saturated(result.bytes + length));
      case ClosedDirectory(_) => result := result.(present := true, entries := result.entries + 1, complete := false);
      case Directory(entries) =>
        TallyAppend(pending, Listed(entries));
        ListedIsTallied(entries);
        pending := pending + Listed(entries);
        result := result.(present := true, entries := result.entries + 1);
    }
  }

  lemma OneNode(node: Node)
    ensures TallyAll([node]) == TallyNode(node) && TrueAll([node]) == TrueNode(node)
  {
    hide TallyNode, TrueNode;
    assert [node][..0] == [];
  }

  lemma OneEntry(entry: Entry)
    ensures TallyEntries([entry]) == TallyEntry(entry) && TrueEntries([entry]) == TrueEntry(entry)
  {
    hide TallyEntry, TrueEntry;
    assert [entry][..0] == [];
  }

  /** A scan of a directory that holds one file it cannot list says complete and counts neither the file nor its
      bytes. */
  method ScanPastLostEntry(length: nat) returns (result: Size)
    ensures result == Size(true, true, 1, 0)
    ensures TrueAll([Directory([Lost(File(length))])]) == (2, length)
  {
    hide TallyAll, TrueAll, TallyEntries, TrueEntries, HidesNothing;
    OneEntry(Lost(File(length)));
    OneNode(Directory([Lost(File(length))]));
    result := StateSize([Directory([Lost(File(length))])], 2);
  }
}
