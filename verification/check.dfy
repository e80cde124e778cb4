/** The whole check of a volume: its copies and fields, the walk, and what the walk leaves unreached. */
module Checks {
  import opened Results
  import opened Bytes
  import opened Report
  import opened Chains
  import opened Geometries
  import opened Directories
  import opened Walks

  /** The clusters whose entry is 0. */
  ghost function FreeSet(t: Table): set<nat> {
    set c: nat | c < |t.next| && t.Free(c)
  }

  ghost function BadSet(t: Table): set<nat> {
    set c: nat | c < |t.next| && t.Bad(c)
  }

  ghost function UsedSet(t: Table): set<nat> {
    set c: nat | c < |t.next| && t.Used(c)
  }

  /** `free_clusters`. */
  ghost function FreeCount(t: Table): nat {
    |FreeSet(t)|
  }

  /** The copies before `n` that differ from the first. */
  function CopyProblems(fats: seq<seq<byte>>, n: nat): seq<Problem>
    requires n <= |fats|
  {
    if n <= 1 then []
    else CopyProblems(fats, n - 1) + if fats[n - 1] != fats[0] then [CopyDiffers(n)] else []
  }

  const LEAD := 0x41615252
  const STRUC := 0x61417272
  const TRAIL := 0xAA550000
  const UNKNOWN := 0xFFFF_FFFF

  /** What FSInfo says that is wrong, `free` clusters being free and `last` the last. */
  function FsInfoProblems(fs: seq<byte>, free: nat, last: nat): seq<Problem>
    requires |fs| == SECTOR
  {
    if (Le32(fs, 0), Le32(fs, 484), Le32(fs, 508)) != (LEAD, STRUC, TRAIL) then [FsInfoSignatures]
    else
      var count, hint := Le32(fs, 488), Le32(fs, 492);
      (if count != UNKNOWN && count != free then [FsInfoCount(count, free)] else [])
      + if hint != UNKNOWN && !(2 <= hint <= last) then [FsInfoHint(hint)] else []
  }

  function FieldProblems(g: Geometry): seq<Problem> {
    (if g.version != 0 then [Version(g.version)] else [])
    + (if Bit(g.extFlags, 0x80) then [MirroringOff] else [])
    + (if 2 <= g.rootCluster <= g.MaxCluster() then [] else [RootOutside(g.rootCluster)])
  }

  /** `fat32_problems`. */
  ghost function Fat32Problems(d: Disk): Result<seq<Problem>, Problem>
    requires Mounted(d)
  {
    var fs :- Sectors(d.img, d.base, d.g.fsinfo, 1);
    Ok(FieldProblems(d.g) + FsInfoProblems(fs, FreeCount(TableOf(d)), d.g.MaxCluster()))
  }

  function MediaProblems(d: Disk): seq<Problem>
    requires Mounted(d)
  {
    OpenAccepted(d);
    if FatOf(d, 0) % 0x100 != d.img[d.base + 21] then [MediaByte] else []
  }

  /** What the check reports before it walks. */
  ghost function HeadProblems(d: Disk): Result<seq<Problem>, Problem>
    requires Mounted(d)
  {
    OpenAccepted(d);
    var whole := CopyProblems(d.fats, d.g.nfats) + MediaProblems(d);
    if d.g.kind.Fat16? then Ok(whole)
    else
      var more :- Fat32Problems(d);
      Ok(whole + more)
  }

  lemma BytesPositive(d: Disk)
    requires Mounted(d)
    ensures 0 < d.g.ClusterBytes() && TableOf(d).Sane() && 1 <= d.g.nfats
  {
    OpenAccepted(d);
  }

  /** What the walk leaves, the problems before it being `head`. */
  ghost function Walked(d: Disk, fold: Fold, head: seq<Problem>): Result<State, Problem>
    requires Mounted(d)
  {
    BytesPositive(d);
    var acts :- WalkActions(d, fold);
    Ok(Replay(TableOf(d), d.g.ClusterBytes(), Start(head), acts))
  }

  /** What `read` answers for a path: the first item of that name, whatever its case. */
  function FirstNamed(fold: Fold, out: seq<Item>, key: Name): Option<Item> {
    if out == [] then None else if fold(out[0].path) == key then Some(out[0]) else FirstNamed(fold, out[1..], key)
  }

  /** `path.strip("/")`. */
  function Strip(path: Name): Name {
    if path != [] && path[0] == SLASH then Strip(path[1..])
    else if path != [] && path[|path| - 1] == SLASH then Strip(path[..|path| - 1])
    else path
  }

  function Cut(data: seq<byte>, size: nat): seq<byte> {
    if size <= |data| then data[..size] else data
  }

  /** A file's bytes, from its first cluster and its size. */
  ghost function Content(d: Disk, first: nat, size: nat): Result<seq<byte>, Problem>
    requires Mounted(d)
  {
    if size == 0 then Ok([])
    else
      match ChainOf(d, first)
      case Err(fault) => Err(BrokenRead(fault))
      case Ok(chain) =>
        var data :- ClustersOf(d, chain);
        Ok(Cut(data, size))
  }

  ghost function ReadItem(d: Disk, path: Name, item: Option<Item>): Result<seq<byte>, Problem>
    requires Mounted(d)
  {
    match item
    case None => Err(NotFound(path))
    case Some(i) => if i.isDir then Err(IsADirectory(path)) else Content(d, i.first, i.size)
  }

  /** `read`. */
  ghost function ReadPath(d: Disk, fold: Fold, path: Name): Result<seq<byte>, Problem>
    requires Mounted(d)
  {
    var s :- Walked(d, fold, []);
    ReadItem(d, path, FirstNamed(fold, s.out, fold(ROOT + Strip(path))))
  }

  /** The clusters below `n` in use and in no owner's chain, in order. */
  ghost function Unreached(t: Table, owner: map<nat, Name>, n: nat): seq<nat>
    requires n <= |t.next|
  {
    if n == 0 then []
    else Unreached(t, owner, n - 1) + if t.Used(n - 1) && n - 1 !in owner then [n - 1] else []
  }

  ghost function LeakProblems(t: Table, owner: map<nat, Name>): seq<Problem> {
    var leaks := Unreached(t, owner, |t.next|);
    if leaks == [] then [] else [Leaked(leaks)]
  }

  /** `check`. */
  ghost function Check(d: Disk, fold: Fold): Result<seq<Problem>, Problem>
    requires Mounted(d)
  {
    var head :- HeadProblems(d);
    var s :- Walked(d, fold, head);
    Ok(s.problems + LeakProblems(TableOf(d), s.owner))
  }

  /** Every reader of a volume is told of nothing wrong. */
  ghost predicate ChecksClean(d: Disk, fold: Fold) {
    Mounted(d) && Check(d, fold) == Ok([])
  }
}
