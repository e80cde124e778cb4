/** A directory's bytes, its 32-byte entries, and the state machine that joins long names. */
module Directories {
  import opened Results
  import opened Bytes
  import opened Report
  import opened Chains
  import opened Geometries
  import opened DosTimes

  const SLOT := 32
  const ATTR_VOLUME := 8
  const ATTR_DIR := 0x10
  const ATTR_LONG := 0x0F
  const DELETED := 0xE5
  const LAST_PART := 0x40
  const SPACE := 0x20

  /** One 32-byte directory entry. */
  type Raw = e: seq<byte> | |e| == SLOT witness seq(SLOT, _ => 0)

  // Bytes of a directory.

  /** `b"".join(self.cluster(c) for c in chain)`. */
  function ClustersOf(d: Disk, chain: seq<nat>): (r: Result<seq<byte>, Problem>)
    requires forall i :: 0 <= i < |chain| ==> 2 <= chain[i]
    ensures r.Ok? ==> |r.value| == |chain| * d.g.ClusterBytes()
  {
    if chain == [] then Ok([])
    else
      var first :- Sectors(d.img, d.base, d.g.ClusterLba(chain[0]), d.g.spc);
      var rest :- ClustersOf(d, chain[1..]);
      MulSuccessor(|chain| - 1, d.g.ClusterBytes());
      Ok(first + rest)
  }

  lemma MulSuccessor(n: nat, m: nat)
    ensures (n + 1) * m == m + n * m
  {
  }

  /** The chain that starts at `first`, as `Volume.chain` answers it. */
  ghost function ChainOf(d: Disk, first: nat): (r: Result<seq<nat>, Fault>)
    requires Mounted(d)
    ensures r == Chain(TableOf(d), first)
    ensures r.Ok? ==> r.value != [] && forall i :: 0 <= i < |r.value| ==> 2 <= r.value[i] <= d.g.MaxCluster()
  {
    var t := TableOf(d);
    if Chain(t, first).Ok? then
      ChainBound(t, first);
      var s := Chain(t, first).value;
      assert forall i :: 0 <= i < |s| ==> s[i] in s && t.Used(s[i]);
      Chain(t, first)
    else Chain(t, first)
  }

  /** The data of a directory: the root (first 0), which is a fixed run on FAT16, or a chain. */
  ghost function DirBytes(d: Disk, first: nat): (r: Result<seq<byte>, Problem>)
    requires Mounted(d)
    ensures r.Ok? ==> |r.value| % SLOT == 0
  {
    var start := if first == 0 && d.g.kind.Fat32? then d.g.rootCluster else first;
    if start == 0 then
      WholeSlots(d.g.RootSectors());
      Sectors(d.img, d.base, d.g.RootStart(), d.g.RootSectors())
    else
      match ChainOf(d, start)
      case Err(fault) => Err(BrokenRead(fault))
      case Ok(chain) =>
        WholeClusters(|chain|, d.g.spc);
        ClustersOf(d, chain)
  }

  lemma WholeSlots(n: nat)
    ensures n * SECTOR % SLOT == 0
  {
    assert n * SECTOR == SLOT * (n * 16);
  }

  lemma WholeClusters(n: nat, spc: nat)
    ensures n * (spc * SECTOR) % SLOT == 0
  {
    assert n * (spc * SECTOR) == n * spc * SECTOR;
    WholeSlots(n * spc);
  }

  /** The entries before the first that begins with a zero byte. */
  function Slots(data: seq<byte>): seq<Raw>
    requires |data| % SLOT == 0
  {
    if data == [] || data[0] == 0 then [] else [data[..SLOT]] + Slots(data[SLOT..])
  }

  ghost function RawEntries(d: Disk, first: nat): Result<seq<Raw>, Problem>
    requires Mounted(d)
  {
    var data :- DirBytes(d, first);
    Ok(Slots(data))
  }

  // Short names and checksums.

  function RStrip(s: seq<byte>): seq<byte> {
    if s != [] && s[|s| - 1] == SPACE then RStrip(s[..|s| - 1]) else s
  }

  /** `str.lower` on a Latin-1 character. */
  function Lower(c: byte): byte {
    if 0x41 <= c <= 0x5A || (0xC0 <= c <= 0xDE && c != 0xD7) then c + 0x20 else c
  }

  /** Latin-1 bytes as text, in lower case if the entry's case bit says so. */
  function Text(s: seq<byte>, lower: bool): Name {
    seq(|s|, i requires 0 <= i < |s| => if lower then Lower(s[i]) else s[i])
  }

  function ShortName(short: seq<byte>, caseBits: byte): Name
    requires |short| == 11
  {
    var base := RStrip(short[..8]);
    var ext := RStrip(short[8..]);
    var kanji := if base != [] && base[0] == 0x05 then [DELETED] + base[1..] else base;
    Text(kanji, Bit(caseBits, 0x08)) + if ext == [] then [] else DOT + Text(ext, Bit(caseBits, 0x10))
  }

  /** `lfn_checksum` from the sum `s`: rotate right, then add, in 8 bits. */
  function Checksum(s: byte, short: seq<byte>): byte
    decreases |short|
  {
    if short == [] then s else Checksum((s % 2 * 0x80 + s / 2 + short[0]) % 0x100, short[1..])
  }

  // Long names.

  /** A part's 26 bytes of text. */
  type Chunk = c: seq<byte> | |c| == 26 witness seq(26, _ => 0)

  function Chars(e: Raw): Chunk {
    e[1..11] + e[14..26] + e[28..32]
  }

  function Units(s: seq<byte>): (r: Name)
    requires |s| % 2 == 0
    ensures |r| == |s| / 2
    ensures forall i :: 0 <= i < |r| ==> r[i] == Le16(s, 2 * i)
  {
    seq(|s| / 2, i requires 0 <= i < |s| / 2 => Le16(s, 2 * i))
  }

  /** `text.split("\x00")[0]`. */
  function UntilNul(s: Name): Name {
    if s == [] || s[0] == 0 then [] else [s[0]] + UntilNul(s[1..])
  }

  /** The text of parts `k` to `n`, in order. */
  function Joined(parts: map<nat, Chunk>, k: nat, n: nat): (r: seq<byte>)
    requires forall i :: k <= i <= n ==> i in parts
    ensures k <= n ==> |r| == 26 * (n - k + 1)
    ensures |r| % 2 == 0
    decreases n + 1 - k
  {
    if k > n then [] else parts[k] + Joined(parts, k + 1, n)
  }

  /** The parts seen and not yet used: the parts by number, the first's number, and its checksum. */
  datatype Run = NoRun | Run(parts: map<nat, Chunk>, want: nat, sum: byte)

  /** What an entry is to the machine: a long-name part, or anything else. */
  datatype Slot = Part(seqNo: nat, marked: bool, sum: byte, chars: Chunk) | NoPart

  function View(e: Raw): Slot {
    if e[0] != DELETED && e[11] == ATTR_LONG then Part(e[0] % 0x20, Bit(e[0], LAST_PART), e[13], Chars(e)) else NoPart
  }

  /** A live entry that is neither a part nor the volume's label. */
  predicate IsShort(e: Raw) {
    e[0] != DELETED && e[11] != ATTR_LONG && !Bit(e[11], ATTR_VOLUME)
  }

  /** Whether an unmarked part continues the run. */
  predicate Continues(r: Run, s: Slot)
    requires s.Part?
  {
    r.Run? && s.seqNo as int == r.want - |r.parts| && s.sum == r.sum
  }

  /** The run after an entry. */
  function NextRun(r: Run, s: Slot): Run {
    if s.NoPart? then NoRun
    else if s.marked then Run(map[s.seqNo := s.chars], s.seqNo, s.sum)
    else if !Continues(r, s) then NoRun
    else r.(parts := r.parts[s.seqNo := s.chars])
  }

  /** Exactly the parts 1 to `want`. */
  predicate Complete(r: Run)
    requires r.Run?
  {
    && |r.parts| == r.want
    && (forall k | 1 <= k <= r.want :: k in r.parts)
    && (forall k | k in r.parts :: 1 <= k <= r.want)
  }

  /** What `entries` yields for a short entry. */
  datatype Entry = Entry(name: Name, attr: byte, first: nat, size: nat, mtime: Option<int>) {

    predicate IsDir() {
      Bit(attr, ATTR_DIR)
    }
  }

  /** A problem that `entries` reports, or an entry that it yields. */
  datatype Event = Flaw(problem: Problem) | Found(entry: Entry)

  function StoredName(r: Run, e: Raw): Name
  {
    if r.Run? && Complete(r) && Checksum(0, e[..11]) == r.sum then UntilNul(Units(Joined(r.parts, 1, r.want)))
    else ShortName(e[..11], e[12])
  }

  /** What is wrong with the long name before a short entry. */
  function NameFlaws(r: Run, e: Raw, dir: Name): seq<Event> {
    if r.NoRun? then []
    else if !Complete(r) then [Flaw(PartsMissing(dir, ShortName(e[..11], e[12])))]
    else if Checksum(0, e[..11]) != r.sum then [Flaw(ChecksumWrong(dir, ShortName(e[..11], e[12])))]
    else []
  }

  /** The events of one entry, `r` being the run before it. */
  function EventsOf(kind: Kind, r: Run, e: Raw, dir: Name): seq<Event>
  {
    if View(e).Part? then
      if !View(e).marked && !Continues(r, View(e)) then [Flaw(PartOutOfOrder(dir))] else []
    else if !IsShort(e) then []
    else
      var hi, lo := Le16(e, 20), Le16(e, 26);
      var name := StoredName(r, e);
      NameFlaws(r, e, dir)
      + (if kind.Fat16? && hi != 0 then [Flaw(HighHalf(dir, name, hi))] else [])
      + [Found(Entry(name, e[11], if kind.Fat32? then hi * 0x1_0000 + lo else lo, Le32(e, 28),
                     DosTime(Le16(e, 22), Le16(e, 24))))]
  }

  function Views(es: seq<Raw>): (r: seq<Slot>)
    ensures |r| == |es|
    ensures forall i :: 0 <= i < |r| ==> r[i] == View(es[i])
  {
    seq(|es|, i requires 0 <= i < |es| => View(es[i]))
  }

  /** The run after the first `i` entries. */
  function RunAt(ss: seq<Slot>, i: nat): Run
    requires i <= |ss|
  {
    if i == 0 then NoRun else NextRun(RunAt(ss, i - 1), ss[i - 1])
  }

  /** `entries`: the events of the first `n` entries, each after the run before it. */
  function Decode(kind: Kind, es: seq<Raw>, n: nat, dir: Name): seq<Event>
    requires n <= |es|
  {
    if n == 0 then []
    else Decode(kind, es, n - 1, dir) + EventsOf(kind, RunAt(Views(es), n - 1), es[n - 1], dir)
  }

  ghost function Events(d: Disk, first: nat, dir: Name): Result<seq<Event>, Problem>
    requires Mounted(d)
  {
    var es :- RawEntries(d, first);
    Ok(Decode(d.g.kind, es, |es|, dir))
  }
}
