/** A healthy volume, byte by byte, with a directory of two clusters, that stays healthy for the check when the
    directory's first entry is pointed at the first cluster of the file in it: that file's bytes happen to be a
    directory's, and list a file at the directory's second cluster. */
module SampleDirectory {
  import opened Results
  import opened Bytes
  import opened Report
  import opened Seqs
  import opened Chains
  import opened Geometries
  import opened Directories
  import opened LongNames
  import opened Walks
  import opened Checks
  import opened Heads
  import opened SameWalks
  import opened FatWrites
  import opened Paths
  import opened DamageFound
  import opened DamageHeads
  import opened DamageDirs
  import opened Shapes
  import opened HealthyVolumes
  import opened SampleLayout

  /** The chains 2, 3 and 4. */
  function FatByte(i: nat): byte {
    if i == 0 then 0xF8 else if 1 <= i <= 3 || 6 <= i <= 9 then 0xFF else if i == 4 then 3 else 0
  }

  const DIR := Laid(0x44, SPACE, 0x10, 2, 0, 0)
  const ITSELF := Laid(0x2E, SPACE, 0x10, 2, 0, 0)
  const PARENT := Laid(0x2E, 0x2E, 0x10, 0, 0, 0)

  /** The file listed in cluster `at`: A at 4 in 3, and B at 3 in 4. */
  function FileIn(at: nat): Laid
    requires at == 3 || at == 4
  {
    if at == 3 then Laid(0x41, SPACE, 0x20, 4, 5, 0) else Laid(0x42, SPACE, 0x20, 3, 5, 0)
  }

  /** The root, and then clusters 2, with two links and fourteen deleted entries, 3 and 4. */
  function TailByte(i: nat): byte {
    if i < 512 then (if i < 32 then EntryByte(DIR, i) else 0)
    else if i < 544 then EntryByte(ITSELF, i - 512)
    else if i < 576 then EntryByte(PARENT, i - 544)
    else if i < 1024 then (if i % 32 == 0 then DELETED else 0)
    else if i < 1056 then EntryByte(FileIn(3), i - 1024)
    else if 1536 <= i < 1568 then EntryByte(FileIn(4), i - 1536)
    else 0
  }

  const SAMPLE := Small(FatByte, TailByte)

  function Next(at: nat, c: nat): nat {
    if c == 0 then 0xFFF8 else if c == 1 || c == 3 || c == 4 then 0xFFFF else if c == 2 then at else 0
  }

  /** The FAT, with `at` in cluster 2's entry. */
  ghost predicate IsTable(t: Table, at: nat) {
    && (at == 3 || at == 4) && |t.next| == 4087 && t.eoc == 0xFFF8 && t.bad == 0xFFF7
    && forall c :: 0 <= c < 4087 ==> t.next[c] == Next(at, c)
  }

  lemma ChainsAre(t: Table, at: nat)
    requires IsTable(t, at)
    ensures Chain(t, 2) == Ok([2, at]) && Chain(t, 7 - at) == Ok([7 - at])
    ensures UsedSet(t) == Elems([2, at] + [7 - at]) && NoDup([2, at] + [7 - at])
  {
    hide Chain, UsedSet, IsChain, Elems;
    PathsAre(t, at);
    ChainExact(t, 2, [2, at]);
    ChainExact(t, 7 - at, [7 - at]);
    InUse(t, at);
  }

  lemma PathsAre(t: Table, at: nat)
    requires IsTable(t, at)
    ensures IsChain(t, 2, [2, at]) && IsChain(t, 7 - at, [7 - at])
  {
  }

  lemma InUse(t: Table, at: nat)
    requires IsTable(t, at)
    ensures UsedSet(t) == Elems([2, at] + [7 - at])
  {
    assert UsedSet(t) == {2, 3, 4};
    assert Elems([2, at] + [7 - at]) == {2, 3, 4};
  }

  // Entries of a directory's bytes.

  /** Whole entries, none beginning with a zero byte, are all there, and what follows them follows. */
  lemma {:induction false} SlotsWhole(a: seq<byte>, b: seq<byte>)
    requires |a| % SLOT == 0 && |b| % SLOT == 0 && forall i :: 0 <= i < |a| / SLOT ==> a[i * SLOT] != 0
    ensures |Slots(a)| == |a| / SLOT && Slots(a + b) == Slots(a) + Slots(b)
    ensures forall i :: 0 <= i < |a| / SLOT ==> Slots(a)[i] == a[i * SLOT..i * SLOT + SLOT]
    decreases |a|
  {
    if a == [] {
      assert a + b == b;
    } else {
      var rest := a[SLOT..];
      assert a[0 * SLOT] != 0;
      forall i | 0 <= i < |rest| / SLOT ensures rest[i * SLOT] != 0 {
        assert rest[i * SLOT] == a[(i + 1) * SLOT];
      }
      SlotsWhole(rest, b);
      assert (a + b)[..SLOT] == a[..SLOT] && (a + b)[SLOT..] == rest + b;
      assert [a[..SLOT]] + (Slots(rest) + Slots(b)) == [a[..SLOT]] + Slots(rest) + Slots(b);
    }
  }

  /** Deleted entries are read over. */
  lemma {:induction false} DeletedSilent(kind: Kind, es: seq<Raw>, n: nat, m: nat, dir: Name)
    requires n <= m <= |es| && forall i :: n <= i < m ==> es[i][0] == DELETED
    ensures Decode(kind, es, m, dir) == Decode(kind, es, n, dir)
  {
    hide EventsOf, View, RunAt, Views;
    if n == m {
    } else {
      DeletedSilent(kind, es, n, m - 1, dir);
      DeletedOne(kind, RunAt(Views(es), m - 1), es[m - 1], dir);
    }
  }

  lemma DeletedOne(kind: Kind, r: Run, e: Raw, dir: Name)
    requires e[0] == DELETED
    ensures EventsOf(kind, r, e, dir) == [] && View(e).NoPart?
  {
  }

  /** An entry that no part stands before. */
  lemma DecodeNext(kind: Kind, es: seq<Raw>, n: nat, dir: Name)
    requires n < |es| && (n > 0 ==> View(es[n - 1]).NoPart?)
    ensures Decode(kind, es, n + 1, dir) == Decode(kind, es, n, dir) + EventsOf(kind, NoRun, es[n], dir)
  {
    hide EventsOf, View;
  }

  // The directory.

  /** The volume, with `at` in cluster 2's entry. */
  ghost predicate IsSample(d: Disk, at: nat) {
    Mounted(d) && SameData(Volume(SAMPLE), d) && IsTable(TableOf(d), at) && (at == 3 || at == 4)
  }

  function Cluster(c: nat): seq<byte>
    requires 2 <= c
  {
    BytesFrom(SAMPLE, SAMPLE.TailAt() + (c - 1) * SECTOR, SECTOR)
  }

  lemma ClusterRead(c: nat)
    requires 2 <= c <= 4
    ensures Sectors(ImageOf(SAMPLE), 0, SMALL.ClusterLba(c), 1) == Ok(Cluster(c))
  {
    hide BytesFrom, ByteAt, ImageOf, Sectors;
    assert SMALL.ClusterLba(c) == 32 + c;
    SectorsAt(SAMPLE, 32 + c, 1);
  }

  lemma ClustersRead(at: nat)
    requires at == 3 || at == 4
    ensures ClustersOf(Volume(SAMPLE), [2, at]) == Ok(Cluster(2) + Cluster(at))
  {
    hide BytesFrom, ByteAt, ImageOf, Sectors, Cluster;
    var d := Volume(SAMPLE);
    ClusterRead(2);
    ClusterRead(at);
    assert ClustersOf(d, []) == Ok([]);
    assert [2, at][1..] == [at] && [at][1..] == [];
    assert Cluster(at) + [] == Cluster(at);
    assert ClustersOf(d, [at]) == Ok(Cluster(at));
  }

  lemma DirRead(d: Disk, at: nat)
    requires IsSample(d, at)
    ensures |Cluster(2) + Cluster(at)| % SLOT == 0
    ensures RawEntries(d, 2) == Ok(Slots(Cluster(2) + Cluster(at)))
  {
    hide Mounted, TableOf, SameData, Chain, Cluster, Slots, ImageOf, BytesFrom, IsTable;
    ChainsAre(TableOf(d), at);
    ClustersRead(at);
    ClustersSame(Volume(SAMPLE), d, [2, at]);
    assert DirBytes(d, 2) == Ok(Cluster(2) + Cluster(at));
  }

  lemma FileSlot(at: nat)
    requires at == 3 || at == 4
    ensures Slots(Cluster(at)) == [Cluster(at)[..SLOT]] && LaidEntry(Cluster(at)[..SLOT], FileIn(at))
  {
    var b := Cluster(at);
    assert b[0] == FileIn(at).name && b[SLOT] == 0;
    assert b[SLOT..][0] == 0;
    forall i | 0 <= i < SLOT ensures b[..SLOT][i] == EntryByte(FileIn(at), i) {
      assert b[i] == TailByte((at - 1) * SECTOR + i);
    }
    hide BytesFrom, ByteAt, Cluster, EntryByte;
    assert Slots(b[SLOT..]) == [];
    assert [b[..SLOT]] + [] == [b[..SLOT]];
  }

  lemma LinkSlots(a: seq<byte>, i: nat)
    requires a == Cluster(2) && i < 16
    ensures a[i * SLOT] != 0 && (i >= 2 ==> a[i * SLOT] == DELETED)
    ensures i == 0 ==> LaidEntry(a[i * SLOT..i * SLOT + SLOT], ITSELF)
    ensures i == 1 ==> LaidEntry(a[i * SLOT..i * SLOT + SLOT], PARENT)
  {
    assert a[i * SLOT] == TailByte(SECTOR + i * SLOT);
    if i < 2 {
      var l, e := if i == 0 then ITSELF else PARENT, a[i * SLOT..i * SLOT + SLOT];
      forall m | 0 <= m < SLOT ensures e[m] == EntryByte(l, m) {
        assert a[i * SLOT + m] == TailByte(SECTOR + i * SLOT + m);
      }
    }
    hide BytesFrom, ByteAt, Cluster;
  }

  /** The directory's entries: its two links, the deleted ones, and the file. */
  ghost predicate DirEntries(es: seq<Raw>, at: nat)
    requires at == 3 || at == 4
  {
    && |es| == 17 && LaidEntry(es[0], ITSELF) && LaidEntry(es[1], PARENT) && LaidEntry(es[16], FileIn(at))
    && forall i :: 2 <= i < 16 ==> es[i][0] == DELETED
  }

  lemma DirSlots(at: nat)
    requires (at == 3 || at == 4) && |Cluster(2) + Cluster(at)| % SLOT == 0
    ensures DirEntries(Slots(Cluster(2) + Cluster(at)), at)
  {
    hide Slots, LaidEntry, FileIn, BytesFrom;
    var a, b := Cluster(2), Cluster(at);
    assert |a| == SECTOR && |b| == SECTOR;
    hide Cluster;
    forall i | 0 <= i < 16 ensures a[i * SLOT] != 0 {
      LinkSlots(a, i);
    }
    SlotsWhole(a, b);
    FileSlot(at);
    LinkSlots(a, 0);
    LinkSlots(a, 1);
    var es := Slots(a + b);
    forall i | 2 <= i < 16 ensures es[i][0] == DELETED {
      LinkSlots(a, i);
    }
  }

  function Found3(at: nat): seq<Event>
    requires at == 3 || at == 4
  {
    [Found(EntryOfLaid(ITSELF)), Found(EntryOfLaid(PARENT)), Found(EntryOfLaid(FileIn(at)))]
  }

  lemma DirDecoded(es: seq<Raw>, at: nat, dir: Name)
    requires (at == 3 || at == 4) && DirEntries(es, at)
    ensures Decode(Fat16, es, 17, dir) == Found3(at)
  {
    hide EventsOf, View, LaidEntry, EntryOfLaid, Decode;
    EntryRead(Fat16, es[0], ITSELF, dir);
    EntryRead(Fat16, es[1], PARENT, dir);
    EntryRead(Fat16, es[16], FileIn(at), dir);
    DeletedOne(Fat16, NoRun, es[15], dir);
    DecodeNext(Fat16, es, 0, dir);
    DecodeNext(Fat16, es, 1, dir);
    DeletedSilent(Fat16, es, 2, 16, dir);
    DecodeNext(Fat16, es, 16, dir);
    DecodeNone(Fat16, es, dir);
  }

  lemma DecodeNone(kind: Kind, es: seq<Raw>, dir: Name)
    ensures Decode(kind, es, 0, dir) == []
  {
  }

  lemma DirEvents(d: Disk, at: nat, dir: Name)
    requires IsSample(d, at)
    ensures Events(d, 2, dir) == Ok(Found3(at))
  {
    hide Mounted, TableOf, SameData, Cluster, Slots, Decode, IsTable, RawEntries, DirEntries, Found3, BytesFrom, ByteAt,
         ImageOf;
    SameLayout(Volume(SAMPLE), d);
    assert d.g.kind == Fat16;
    DirRead(d, at);
    DirSlots(at);
    var es := Slots(Cluster(2) + Cluster(at));
    SeventeenEntries(es, at);
    DirDecoded(es, at, dir);
  }

  lemma SeventeenEntries(es: seq<Raw>, at: nat)
    requires (at == 3 || at == 4) && DirEntries(es, at)
    ensures |es| == 17
  {
  }

  // The root.

  lemma RootSlots()
    ensures Slots(BytesFrom(SAMPLE, SAMPLE.TailAt(), SECTOR)) == [BytesFrom(SAMPLE, SAMPLE.TailAt(), 32)]
    ensures LaidEntry(BytesFrom(SAMPLE, SAMPLE.TailAt(), 32), DIR)
  {
    var root := BytesFrom(SAMPLE, SAMPLE.TailAt(), SECTOR);
    assert root[0] == 0x44 && root[32] == 0;
    assert root[..32] == BytesFrom(SAMPLE, SAMPLE.TailAt(), 32);
    assert root[32..][0] == 0;
    hide BytesFrom, ByteAt;
    assert Slots(root[32..]) == [];
    assert [root[..32]] + [] == [root[..32]];
  }

  lemma RootEvents(d: Disk, at: nat)
    requires IsSample(d, at) && Mounted(Volume(SAMPLE))
    ensures Events(d, 0, ROOT) == Ok([Found(EntryOfLaid(DIR))])
  {
    hide Mounted, EventsOf, View, Slots, Decode, RawEntries, BytesFrom, ByteAt, ImageOf, LaidEntry, TableOf,
         SameData, IsTable, EntryOfLaid;
    var e: Raw := BytesFrom(SAMPLE, SAMPLE.TailAt(), 32);
    RootSlots();
    EntryRead(Fat16, e, DIR, ROOT);
    SmallRoot(SAMPLE, [e]);
    DecodeOne(Fat16, e, ROOT);
    SameLayout(Volume(SAMPLE), d);
    RootOnFat16(Volume(SAMPLE));
    EventsSame(Volume(SAMPLE), d, 0, ROOT);
  }

  // The walk and the check.

  const PATH: Name := [SLASH, 0x44]

  lemma FileFitsIn(d: Disk, at: nat, f: Entry)
    requires Mounted(d) && d.g == SMALL && (at == 3 || at == 4) && Chain(TableOf(d), 7 - at) == Ok([7 - at])
    requires f.first == 7 - at && f.size == 5
    ensures SizeFits(d, f)
  {
    hide Mounted, TableOf, Chain;
  }

  lemma NameIs(l: Laid)
    ensures var e := EntryOfLaid(l);
      && e.name == (if l.second == SPACE then [l.name] else [l.name, l.second])
      && e.attr == l.attr && e.first == l.first as int && e.size == l.low as int + 0x100 * l.high as int
  {
  }

  lemma OneLetter(e: Entry, c: byte)
    requires e.name == [c] && c != 0x2E
    ensures !IsDots(e)
  {
    assert DOT[0] == 0x2E && DOTDOT[0] == 0x2E;
  }

  lemma EntriesAre(at: nat, e: Entry, a: Entry, b: Entry, f: Entry)
    requires (at == 3 || at == 4) && e == EntryOfLaid(DIR) && a == EntryOfLaid(ITSELF) && b == EntryOfLaid(PARENT)
    requires f == EntryOfLaid(FileIn(at))
    ensures !IsDots(e) && FolderBit(e) && e.size == 0 && e.first == 2 && Join([], e.name) == PATH
    ensures a.name == DOT && a.first == 2 && b.name == DOTDOT && b.first == 0
    ensures !IsDots(f) && !FolderBit(f) && f.first == 7 - at && f.size == 5
  {
    hide EntryOfLaid, IsDots;
    NameIs(DIR);
    NameIs(ITSELF);
    NameIs(PARENT);
    NameIs(FileIn(at));
    OneLetter(e, 0x44);
    OneLetter(f, if at == 3 then 0x41 else 0x42);
    assert Join([], e.name) == PATH;
  }

  lemma LayoutIs(d: Disk, at: nat)
    requires IsSample(d, at)
    ensures d.g == SMALL
  {
    hide Mounted, TableOf, IsTable, ImageOf;
    SameLayout(Volume(SAMPLE), d);
  }

  lemma ClustersAre(t: Table, at: nat, e: Entry, f: Entry)
    requires (at == 3 || at == 4) && e.first == 2 && f.first == 7 - at
    requires Chain(t, 2) == Ok([2, at]) && Chain(t, 7 - at) == Ok([7 - at])
    requires UsedSet(t) == Elems([2, at] + [7 - at])
    ensures var clusters := ClustersIn(t, [Folder(e, [File(f)])]);
      NoDup(clusters) && forall c: nat :: c in clusters <==> t.Used(c)
  {
    hide Chain, UsedSet;
    assert [Folder(e, [File(f)])][1..] == [] && [File(f)][1..] == [];
    assert ClustersIn(t, [File(f)]) == [7 - at] + [] + [];
    var clusters := ClustersIn(t, [Folder(e, [File(f)])]);
    assert clusters == [2, at] + [7 - at];
    UsedAre(t, clusters);
  }

  /** With either table the volume is a tree: the directory, and in it the file. */
  lemma SampleClean(d: Disk, at: nat, fold: Fold)
    requires IsSample(d, at) && Mounted(Volume(SAMPLE)) && SoundFields(d)
    ensures ChecksClean(d, fold) && Walked(d, fold, []).Ok?
    ensures var f := EntryOfLaid(FileIn(at));
      Walked(d, fold, []).value.out == [Item(PATH, true, 2, 0), Item(PATH + [0x2F] + f.name, false, f.first, f.size)]
  {
    hide Mounted, TableOf, FatOf, UsedSet, Chain, IsTable, SameData, Volume, Events, Walked, Check, Join, EntryOfLaid,
         FileIn, IsDots, SoundFields, Holds, SizeFits, FolderBit, ClustersIn, NoDup, ItemsIn;
    var e, a, b, f := EntryOfLaid(DIR), EntryOfLaid(ITSELF), EntryOfLaid(PARENT), EntryOfLaid(FileIn(at));
    var nodes := [Folder(e, [File(f)])];
    EntriesAre(at, e, a, b, f);
    LayoutIs(d, at);
    ChainsAre(TableOf(d), at);
    FileFitsIn(d, at, f);
    RootEvents(d, at);
    DirEvents(d, at, PATH);
    HoldsFile(d, fold, 2, 0, PATH, 1, a, b, f);
    assert [] + [Found(e)] == [Found(e)];
    HoldsFolder(d, fold, 0, 0, [], 0, [], e, [File(f)]);
    ClustersAre(TableOf(d), at, e, f);
    assert RootChain(d) + ClustersIn(TableOf(d), nodes) == ClustersIn(TableOf(d), nodes);
    TreeClean(d, fold, nodes);
    OneFolderListed([], e, [File(f)]);
    JoinIs([], e.name);
    OneFileListed(PATH, f);
  }

  lemma JoinIs(dir: Name, name: Name)
    ensures Join(dir, name) == dir + [0x2F] + name
  {
  }

  // The volume, and the damaged one.

  lemma Original()
    ensures IsSample(Volume(SAMPLE), 3) && SoundFields(Volume(SAMPLE))
  {
    var d := Volume(SAMPLE);
    hide Mounted, BytesFrom, ByteAt, ImageOf, FatOf, TableOf, SoundFields;
    SmallOpens(SAMPLE);
    TableIs(SAMPLE, TableOf(d));
    NextAll(TableOf(d));
  }

  lemma NextAll(t: Table)
    requires |t.next| == 4087 && forall c :: 0 <= c < 4087 ==> t.next[c] == FatValue(SAMPLE, c)
    ensures FatValue(SAMPLE, 0) == 0xFFF8 && forall c :: 0 <= c < 4087 ==> t.next[c] == Next(3, c)
  {
  }

  lemma Damaged(fold: Fold)
    requires IsSample(Volume(SAMPLE), 3) && ChecksClean(Volume(SAMPLE), fold)
    ensures IsSample(Rewritten(Volume(SAMPLE), 2, 4), 4) && SoundFields(Rewritten(Volume(SAMPLE), 2, 4))
  {
    hide Mounted, BytesFrom, ByteAt, ImageOf, FatOf, TableOf, HeadProblems, Check, Rewritten, SameData,
         SameOutside, CountProblems, SoundFields;
    var d := Volume(SAMPLE);
    var d' := Rewritten(d, 2, 4);
    assert Plain(d.g, 4) && Packable(d.g, 4);
    RewrittenTable(d, 2, 4);
    RewrittenMounts(d, 2, 4);
    SameLayout(d, d');
    DamagedHead(d, fold, 2, 4);
    HeadExact(d');
  }

  /** The directory's chain is 2, 3, and its file's is 4. With 4 for 3 in cluster 2's entry the volume checks clean as
      it did before, though the entry reads as another: 4 is the first cluster of something below the directory. */
  lemma NotSeenBelow(fold: Fold)
    ensures var d := Volume(SAMPLE);
      && ChecksClean(d, fold) && Walked(d, fold, []).Ok?
      && var out := Walked(d, fold, []).value.out;
         && DirectoryOf(d, fold, out, PATH, [2, 3]) && !NothingBelowAt(out, PATH, 4) && FatOf(d, 2) == 3
         && ChecksClean(Rewritten(d, 2, 4), fold) && FatOf(Rewritten(d, 2, 4), 2) == 4
  {
    hide Mounted, BytesFrom, ByteAt, ImageOf, FatOf, TableOf, SoundFields, Check, Rewritten, SameData,
         Walked, Chain, Volume;
    var d := Volume(SAMPLE);
    Original();
    SampleClean(d, 3, fold);
    Damaged(fold);
    SampleClean(Rewritten(d, 2, 4), 4, fold);
    ChainsAre(TableOf(d), 3);
    var out := Walked(d, fold, []).value.out;
    assert out[0].isDir && out[0].path == PATH;
    assert Below(PATH, out[1].path) && out[1].first == 4;
  }
}
