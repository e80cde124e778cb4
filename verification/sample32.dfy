/** A healthy FAT32 volume, byte by byte: the smallest number of clusters there is, two FAT copies, FSInfo with a
    free count, and a file of two clusters in the root. */
module SampleVolume32 {
  import opened Results
  import opened Bytes
  import opened Report
  import opened Seqs
  import opened Chains
  import opened Geometries
  import opened Directories
  import opened LongNames
  import opened Walks
  import opened Checks
  import opened Partition
  import opened Contents
  import opened FatWrites
  import opened Heads
  import opened Leaks
  import opened SameTables
  import opened Shapes
  import opened HealthyVolumes
  import opened SampleLayout

  const FREE := 65522

  /** 600 bytes at cluster 3. */
  const FILE := Laid(0x41, SPACE, 0x20, 3, 0x58, 0x02)

  function BootByte(i: nat): byte {
    if i == 12 then 2 else if i == 13 then 1 else if i == 14 then 8 else if i == 16 then 2 else if i == 21 then 0xF8
    else if i == 32 then 0xFD else if i == 33 then 0x03 else if i == 34 then 0x01 else if i == 37 then 2
    else if i == 44 then 2 else if i == 48 then 1 else if i == 50 then 6
    else if i == 510 then 0x55 else if i == 511 then 0xAA else 0
  }

  /** The signatures, 65522 free clusters, and no hint. */
  function FsInfoByte(i: nat): byte {
    if i == 0 || i == 1 then 0x52 else if i == 2 then 0x61 else if i == 3 then 0x41
    else if i == 484 || i == 485 then 0x72 else if i == 486 then 0x41 else if i == 487 then 0x61
    else if i == 488 then 0xF2 else if i == 489 then 0xFF else if 492 <= i <= 495 then 0xFF
    else if i == 510 then 0x55 else if i == 511 then 0xAA else 0
  }

  /** The chains 2, of the root, and 3, 4. */
  function FatByte(i: nat): byte {
    if i == 0 then 0xF8 else if i == 3 || i == 7 || i == 11 || i == 19 then 0x0F
    else if i <= 10 || 16 <= i <= 18 then 0xFF else if i == 12 then 4 else 0
  }

  /** The boot sector, FSInfo, and nothing else. */
  function HeadByte(i: nat): byte {
    if i < 512 then BootByte(i) else if i < 1024 then FsInfoByte(i - 512) else 0
  }

  function RootByte(i: nat): byte {
    if i < 32 then EntryByte(FILE, i) else 0
  }

  const LAYOUT := Geometry(Fat32, 1, 8, 2, 0, 66557, 512, 65525, 2, 0, 0, 1, 6)
  const SAMPLE := Sample(LAYOUT, HeadByte, FatByte, RootByte)

  lemma BootFields(b: seq<byte>)
    requires |b| == SECTOR && forall i :: 0 <= i < SECTOR ==> b[i] == BootByte(i)
    ensures b[13] == 1 && b[16] == 2 && Le16(b, 11) == SECTOR && Le16(b, 14) == 8 && Le16(b, 17) == 0
    ensures Le16(b, 19) == 0 && Le16(b, 22) == 0 && Le32(b, 32) == 66557 && Le32(b, 36) == 512
    ensures Le16(b, 40) == 0 && Le16(b, 42) == 0 && Le32(b, 44) == 2 && Le16(b, 48) == 1 && Le16(b, 50) == 6
  {
    assert b[11] == 0 && b[12] == 2 && b[14] == 8 && b[15] == 0 && b[17] == 0 && b[18] == 0 && b[19] == 0;
    assert b[20] == 0 && b[22] == 0 && b[23] == 0 && b[32] == 0xFD && b[33] == 3 && b[34] == 1 && b[35] == 0;
    assert b[36] == 0 && b[37] == 2 && b[38] == 0 && b[39] == 0 && b[40] == 0 && b[41] == 0 && b[42] == 0 && b[43] == 0;
    assert b[44] == 2 && b[45] == 0 && b[46] == 0 && b[47] == 0 && b[48] == 1 && b[49] == 0 && b[50] == 6 && b[51] == 0;
    hide BootByte;
  }

  lemma BootLaid()
    ensures Layout(BytesFrom(SAMPLE, 0, SECTOR)) == Ok(LAYOUT)
  {
    hide BytesFrom, ByteAt, BootByte, Le16, Le32;
    HeadBytes(SAMPLE, 0, SECTOR);
    BootFields(BytesFrom(SAMPLE, 0, SECTOR));
  }

  // The FAT.

  function Next(c: nat): nat {
    if c == 0 then 0x0FFF_FFF8 else if c == 1 || c == 2 || c == 4 then 0x0FFF_FFFF else if c == 3 then 4 else 0
  }

  ghost predicate IsTable(t: Table) {
    && |t.next| == 65527 && t.eoc == 0x0FFF_FFF8 && t.bad == 0x0FFF_FFF7
    && forall c :: 0 <= c < 65527 ==> t.next[c] == Next(c)
  }

  lemma NextAll(t: Table)
    requires |t.next| == 65527 && t.eoc == 0x0FFF_FFF8 && t.bad == 0x0FFF_FFF7
    requires forall c :: 0 <= c < 65527 ==> t.next[c] == FatValue(SAMPLE, c)
    ensures IsTable(t) && FatValue(SAMPLE, 0) == 0x0FFF_FFF8
  {
  }

  lemma ChainsAre(t: Table)
    requires IsTable(t)
    ensures Chain(t, 2) == Ok([2]) && Chain(t, 3) == Ok([3, 4])
    ensures UsedSet(t) == Elems([2] + [3, 4]) && NoDup([2] + [3, 4]) && FreeCount(t) == FREE && t.Free(5)
  {
    hide Chain, UsedSet, IsChain, Elems, FreeCount;
    PathsAre(t);
    ChainExact(t, 2, [2]);
    ChainExact(t, 3, [3, 4]);
    InUse(t);
  }

  lemma PathsAre(t: Table)
    requires IsTable(t)
    ensures IsChain(t, 2, [2]) && IsChain(t, 3, [3, 4])
  {
  }

  lemma InUse(t: Table)
    requires IsTable(t)
    ensures UsedSet(t) == Elems([2] + [3, 4]) && FreeCount(t) == FREE
  {
    assert UsedSet(t) == {2, 3, 4} && BadSet(t) == {};
    assert Elems([2] + [3, 4]) == {2, 3, 4};
    SetsCount(t);
  }

  // The boot sector's fields, and FSInfo.

  lemma FsInfoIs(fs: seq<byte>)
    requires |fs| == SECTOR && forall i :: 0 <= i < SECTOR ==> fs[i] == FsInfoByte(i)
    ensures Le32(fs, 0) == 0x41615252 && Le32(fs, 484) == 0x61417272 && Le32(fs, 508) == 0xAA550000
    ensures Le32(fs, 488) == FREE && Le32(fs, 492) == 0xFFFFFFFF
  {
    assert fs[0] == 0x52 && fs[1] == 0x52 && fs[2] == 0x61 && fs[3] == 0x41;
    assert fs[484] == 0x72 && fs[485] == 0x72 && fs[486] == 0x41 && fs[487] == 0x61;
    assert fs[508] == 0 && fs[509] == 0 && fs[510] == 0x55 && fs[511] == 0xAA;
    assert fs[488] == 0xF2 && fs[489] == 0xFF && fs[490] == 0 && fs[491] == 0;
    assert fs[492] == 0xFF && fs[493] == 0xFF && fs[494] == 0xFF && fs[495] == 0xFF;
    hide FsInfoByte;
  }

  lemma HeadSound()
    requires Mounted(Volume(SAMPLE)) && FatValue(SAMPLE, 0) == 0x0FFF_FFF8 && FreeCount(TableOf(Volume(SAMPLE))) == FREE
    ensures SoundFields(Volume(SAMPLE))
  {
    hide Mounted, FatOf, BytesFrom, ImageOf, ByteAt, Sectors, Le32, SoundCopies, TableOf, FreeCount;
    CopiesSound(SAMPLE);
    var d := Volume(SAMPLE);
    SectorsAt(SAMPLE, 1, 1);
    HeadBytes(SAMPLE, SECTOR, SECTOR);
    FsInfoIs(BytesFrom(SAMPLE, SECTOR, SECTOR));
    SectorFields(d.img, d.base, d.g.fsinfo);
  }

  // The root.

  lemma RootSlots()
    ensures Slots(BytesFrom(SAMPLE, SAMPLE.TailAt(), SECTOR)) == [BytesFrom(SAMPLE, SAMPLE.TailAt(), 32)]
  {
    var root := BytesFrom(SAMPLE, SAMPLE.TailAt(), SECTOR);
    assert root[0] == 0x41 && root[32] == 0;
    assert root[..32] == BytesFrom(SAMPLE, SAMPLE.TailAt(), 32);
    assert root[32..][0] == 0;
    hide BytesFrom, ByteAt;
    assert Slots(root[32..]) == [];
    assert [root[..32]] + [] == [root[..32]];
  }

  lemma RootRead(e: Raw)
    requires Mounted(Volume(SAMPLE)) && ChainOf(Volume(SAMPLE), 2) == Ok([2])
    requires Slots(BytesFrom(SAMPLE, SAMPLE.TailAt(), SECTOR)) == [e]
    ensures RawEntries(Volume(SAMPLE), 0) == Ok([e])
  {
    hide Mounted, BytesFrom, ImageOf, Slots, Sectors, TableOf, Chain;
    SectorsAt(SAMPLE, 1032, 1);
    assert LAYOUT.ClusterLba(2) == 1032;
    assert ClustersOf(Volume(SAMPLE), []) == Ok([]);
    assert [2][1..] == [];
    assert BytesFrom(SAMPLE, SAMPLE.TailAt(), SECTOR) + [] == BytesFrom(SAMPLE, SAMPLE.TailAt(), SECTOR);
    assert DirBytes(Volume(SAMPLE), 0) == Ok(BytesFrom(SAMPLE, SAMPLE.TailAt(), SECTOR));
  }

  lemma RootLaid(e: Raw)
    requires e == BytesFrom(SAMPLE, SAMPLE.TailAt(), 32)
    ensures LaidEntry(e, FILE)
  {
  }

  function TheFile(): Entry {
    EntryOfLaid(FILE)
  }

  lemma RootEvents()
    requires Mounted(Volume(SAMPLE)) && ChainOf(Volume(SAMPLE), 2) == Ok([2])
    ensures Events(Volume(SAMPLE), 0, ROOT) == Ok([Found(TheFile())])
  {
    hide Mounted, EventsOf, View, Slots, Sectors, Decode, RawEntries, TableOf, Chain;
    RootSlots();
    var e: Raw := BytesFrom(SAMPLE, SAMPLE.TailAt(), 32);
    RootLaid(e);
    EntryRead(Fat32, e, FILE, ROOT);
    hide BytesFrom, ByteAt, ImageOf, LaidEntry;
    RootRead(e);
    DecodeOne(Fat32, e, ROOT);
    assert Volume(SAMPLE).g.kind == Fat32;
    hide Volume;
  }

  lemma FileFitsIn(d: Disk)
    requires Mounted(d) && d.g == LAYOUT && Chain(TableOf(d), 3) == Ok([3, 4])
    ensures SizeFits(d, Entry([0x41], 0x20, 3, 600, None))
  {
    hide Mounted, TableOf, Chain;
  }

  lemma RootHolds(d: Disk, fold: Fold, e: Entry)
    requires Mounted(d) && Events(d, 0, ROOT) == Ok([Found(e)]) && !IsDots(e) && !FolderBit(e) && SizeFits(d, e)
    ensures Holds(d, fold, 0, 0, [], 0, [File(e)])
  {
    hide Mounted, Events, SizeFits, IsDots, FolderBit;
    assert Entries(d, fold, 0, 0, [], 0, [], {} + {fold(e.name)}, false, false, []);
    FileFirst(d, fold, 0, 0, [], 0, e, [], {}, false, false, []);
    assert [Found(e)] + [] == [Found(e)] && [File(e)] + [] == [File(e)];
  }

  lemma ClustersAre(t: Table, e: Entry)
    requires e.first == 3 && Chain(t, 3) == Ok([3, 4]) && UsedSet(t) == Elems([2] + [3, 4])
    ensures var clusters := [2] + ClustersIn(t, [File(e)]);
      NoDup(clusters) && forall c: nat :: c in clusters <==> t.Used(c)
  {
    hide Chain, UsedSet;
    assert [File(e)][1..] == [];
    assert ClustersIn(t, [File(e)]) == [3, 4] + [] + [];
    var clusters := [2] + ClustersIn(t, [File(e)]);
    assert clusters == [2] + [3, 4];
    UsedAre(t, clusters);
  }

  /** The volume checks clean, under any folding; its file has the chain 3, 4; it has a free cluster, FSInfo knows how
      many, and a second FAT copy: what the FAT32 halves of the theorems ask is met. */
  lemma Sample32Healthy(fold: Fold)
    ensures var d := Volume(SAMPLE);
      && ChecksClean(d, fold) && d.g.kind.Fat32? && HoldsAll(d) && FsInfoReserved(d.g) && |d.fats| == 2
      && TableOf(d).Free(5) && FreeCount(TableOf(d)) == FREE
      && Walked(d, fold, []).Ok? && Walked(d, fold, []).value.out == [Item([0x2F, 0x41], false, 3, 600)]
      && ChainOf(d, 3) == Ok([3, 4])
  {
    hide Mounted, BytesFrom, ByteAt, ImageOf, FatOf, TableOf, Events, Chain, UsedSet, FreeCount, SoundFields, Holds,
         IsTable, HoldsAll, FsInfoReserved, Volume, TheFile, SizeFits, Walked, Check, IsDots, ItemsIn, ClustersIn;
    var d := Volume(SAMPLE);
    VolumeIs(d);
    ChainsAre(TableOf(d));
    RootEvents();
    TheFileIs();
    FileFitsIn(d);
    RootHolds(d, fold, TheFile());
    ClustersAre(TableOf(d), TheFile());
    TreeClean(d, fold, [File(TheFile())]);
    OneFileListed([], TheFile());
    assert [] + [0x2F] + [0x41] == [0x2F, 0x41];
  }

  lemma VolumeIs(d: Disk)
    requires d == Volume(SAMPLE)
    ensures Mounted(d) && SoundFields(d) && HoldsAll(d) && FsInfoReserved(d.g) && d.g == LAYOUT && |d.fats| == 2
    ensures IsTable(TableOf(d))
  {
    hide Mounted, BytesFrom, ByteAt, FatOf, TableOf, SoundFields, FatValue, Layout, IsTable, Chain, UsedSet, FreeCount;
    BootLaid();
    Opens(SAMPLE);
    TableIs(SAMPLE, TableOf(d));
    NextAll(TableOf(d));
    ChainsAre(TableOf(d));
    HeadSound();
  }

  lemma TheFileIs()
    ensures TheFile() == Entry([0x41], 0x20, 3, 600, None) && !IsDots(TheFile())
  {
  }

  /** On this volume, the entry of cluster 4 is 0x0FFFFFFF. With 0xFFFFFFFF in the second copy alone the check
      reports that copy; with 0xFFFFFFFF in both it reports nothing, though every entry reads as it did. */
  lemma Sample32Seen(fold: Fold)
    ensures var d := Volume(SAMPLE);
      && ChecksClean(d, fold) && |d.fats| == 2
      && var one := OneCopy(d, 1, 4, 0xFFFF_FFFF);
         var both := Rewritten(one, 4, 0xFFFF_FFFF);
         && Mounted(one) && Mounted(both) && TableOf(both) == TableOf(one)
         && Check(one, fold) == Ok([CopyDiffers(2)]) && Check(both, fold) == Ok([])
  {
    Sample32Healthy(fold);
    hide Mounted, FatOf, TableOf, Check, BytesFrom, ImageOf, OneCopy, Rewritten, Alters, Walked;
    FatReads(SAMPLE, 4);
    Altered(Volume(SAMPLE));
    ReservedBitsSeen(Volume(SAMPLE), fold, 4, 0xFFFF_FFFF);
  }

  lemma Altered(d: Disk)
    requires d == Volume(SAMPLE)
    ensures Alters(d, 1, 4, 0xFFFF_FFFF)
  {
    hide ImageOf, SetCopy, Pack;
    var fat, x := Fat(SAMPLE), Pack(0xFFFF_FFFF, 4);
    LastByte();
    FatByteAt(SAMPLE, 19);
    assert fat[19] == 0x0F;
    assert Splice(fat, 16, x)[19] == x[3];
  }

  lemma LastByte()
    ensures Pack(0xFFFF_FFFF, 4)[3] == 0xFF
  {
    Pack32(0xFFFF_FFFF);
    var x := Pack(0xFFFF_FFFF, 4);
    hide Pack;
    assert Le32(x, 0) == x[0] as int + 0x100 * x[1] as int + 0x1_0000 * (x[2] as int + 0x100 * x[3] as int);
  }
}
