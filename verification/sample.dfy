/** One healthy volume, byte by byte, with two files in its root. What is asked of volumes elsewhere (a clean check, an
    image that is whole, reserved sectors, files with chains, free clusters) is met by it. */
module SampleVolume {
  import opened Results
  import opened Bytes
  import opened Report
  import opened Seqs
  import opened Chains
  import opened Geometries
  import opened Directories
  import opened LongNames
  import opened Walks
  import opened Checks
  import opened Contents
  import opened Heads
  import opened Leaks
  import opened Shapes
  import opened HealthyVolumes
  import opened SampleLayout

  /** The chains 2, 3, 4 and 5. */
  function FatByte(i: nat): byte {
    if i == 0 then 0xF8 else if i == 1 || i == 2 || i == 3 then 0xFF
    else if i == 4 then 3 else if i == 6 then 4 else if 8 <= i <= 11 then 0xFF else 0
  }

  /** 1300 bytes at cluster 2. */
  const FILE_A := Laid(0x41, SPACE, 0x20, 2, 0x14, 0x05)

  /** 5 bytes at cluster 5. */
  const FILE_B := Laid(0x42, SPACE, 0x20, 5, 5, 0)

  function RootByte(i: nat): byte {
    if i < 32 then EntryByte(FILE_A, i) else if i < 64 then EntryByte(FILE_B, i - 32) else 0
  }

  const SAMPLE := Small(FatByte, RootByte)

  function Next(c: nat): nat {
    if c == 0 then 0xFFF8 else if c == 1 || c == 4 || c == 5 then 0xFFFF
    else if c == 2 then 3 else if c == 3 then 4 else 0
  }

  lemma NextAll(t: Table)
    requires |t.next| == 4087 && forall c :: 0 <= c < 4087 ==> t.next[c] == FatValue(SAMPLE, c)
    ensures FatValue(SAMPLE, 0) == 0xFFF8 && forall c :: 0 <= c < 4087 ==> t.next[c] == Next(c)
  {
  }

  lemma ChainsAre(t: Table)
    requires |t.next| == 4087 && t.eoc == 0xFFF8 && t.bad == 0xFFF7
        && forall c :: 0 <= c < 4087 ==> t.next[c] == Next(c)
    ensures Chain(t, 2) == Ok([2, 3, 4]) && Chain(t, 5) == Ok([5])
    ensures UsedSet(t) == Elems([2, 3, 4] + [5]) && t.Free(6)
  {
    hide Chain, UsedSet, IsChain, Elems;
    PathsAre(t);
    ChainExact(t, 2, [2, 3, 4]);
    ChainExact(t, 5, [5]);
    InUse(t);
  }

  lemma PathsAre(t: Table)
    requires |t.next| == 4087 && t.eoc == 0xFFF8 && t.bad == 0xFFF7
        && forall c :: 0 <= c < 4087 ==> t.next[c] == Next(c)
    ensures IsChain(t, 2, [2, 3, 4]) && IsChain(t, 5, [5])
  {
  }

  lemma InUse(t: Table)
    requires |t.next| == 4087 && t.bad == 0xFFF7 && forall c :: 0 <= c < 4087 ==> t.next[c] == Next(c)
    ensures UsedSet(t) == Elems([2, 3, 4] + [5])
  {
    assert UsedSet(t) == {2, 3, 4, 5};
    assert Elems([2, 3, 4] + [5]) == {2, 3, 4, 5};
  }

  // The root.

  lemma RootSlots()
    ensures Slots(BytesFrom(SAMPLE, SAMPLE.TailAt(), SECTOR))
         == [BytesFrom(SAMPLE, SAMPLE.TailAt(), 32), BytesFrom(SAMPLE, SAMPLE.TailAt() + 32, 32)]
  {
    var root := BytesFrom(SAMPLE, SAMPLE.TailAt(), SECTOR);
    assert root[0] == 0x41 && root[32] == 0x42 && root[64] == 0;
    assert root[..32] == BytesFrom(SAMPLE, SAMPLE.TailAt(), 32);
    assert root[32..][..32] == BytesFrom(SAMPLE, SAMPLE.TailAt() + 32, 32);
    assert root[32..][32..] == root[64..];
    assert root[32..][0] == 0x42 && root[64..][0] == 0;
    hide BytesFrom, ByteAt;
    assert Slots(root[64..]) == [];
    assert Slots(root[32..]) == [BytesFrom(SAMPLE, SAMPLE.TailAt() + 32, 32)] + [];
  }

  lemma RootEvents()
    requires Mounted(Volume(SAMPLE))
    ensures Events(Volume(SAMPLE), 0, ROOT) == Ok([Found(EntryOfLaid(FILE_A)), Found(EntryOfLaid(FILE_B))])
  {
    hide Mounted, EventsOf, View, Slots, Sectors, Decode, RawEntries;
    RootSlots();
    var a, b: Raw := BytesFrom(SAMPLE, SAMPLE.TailAt(), 32), BytesFrom(SAMPLE, SAMPLE.TailAt() + 32, 32);
    RootLaid(a, b);
    EntryRead(Fat16, a, FILE_A, ROOT);
    EntryRead(Fat16, b, FILE_B, ROOT);
    hide BytesFrom, ByteAt, ImageOf, LaidEntry;
    SmallRoot(SAMPLE, [a, b]);
    DecodeTwo(Fat16, a, b, ROOT);
    assert Volume(SAMPLE).g.kind == Fat16;
    hide Volume;
    var x, y := Found(EntryOfLaid(FILE_A)), Found(EntryOfLaid(FILE_B));
    assert EventsOf(Fat16, NoRun, a, ROOT) == [x] && EventsOf(Fat16, NoRun, b, ROOT) == [y];
    assert [x] + [y] == [x, y];
  }

  lemma RootLaid(a: Raw, b: Raw)
    requires a == BytesFrom(SAMPLE, SAMPLE.TailAt(), 32) && b == BytesFrom(SAMPLE, SAMPLE.TailAt() + 32, 32)
    ensures LaidEntry(a, FILE_A) && LaidEntry(b, FILE_B)
  {
  }

  /** The volume checks clean, under any folding that keeps its two names apart; its files have the chains
      2, 3, 4 and 5; it has a free cluster, and a second FAT copy. */
  lemma SampleHealthy(fold: Fold)
    requires fold([0x41]) != fold([0x42])
    ensures var d := Volume(SAMPLE);
      && ChecksClean(d, fold) && HoldsAll(d) && FsInfoReserved(d.g) && d.g.nfats == 2 && TableOf(d).Free(6)
      && Walked(d, fold, []).Ok?
      && Walked(d, fold, []).value.out == [Item([0x2F, 0x41], false, 2, 1300), Item([0x2F, 0x42], false, 5, 5)]
      && ChainOf(d, 2) == Ok([2, 3, 4]) && ChainOf(d, 5) == Ok([5])
  {
    hide Mounted, BytesFrom, ByteAt, ImageOf, FatOf, TableOf, Events, Chain, SoundFields, UsedSet, FatValue,
         HoldsAll, FsInfoReserved, Volume, EntryOfLaid, Holds, SizeFits, Walked, Check, IsDots, ItemsIn;
    var d, a, b := Volume(SAMPLE), EntryOfLaid(FILE_A), EntryOfLaid(FILE_B);
    VolumeIs(d);
    NextAll(TableOf(d));
    ChainsAre(TableOf(d));
    RootEvents();
    NamesAre();
    FilesFit(d);
    RootHolds(d, fold, a, b);
    ClustersAre(TableOf(d), a, b);
    TreeClean(d, fold, [File(a), File(b)]);
    TwoListed(a, b);
  }

  lemma VolumeIs(d: Disk)
    requires d == Volume(SAMPLE)
    ensures Mounted(d) && SoundFields(d) && HoldsAll(d) && FsInfoReserved(d.g) && d.g == SMALL
    ensures var t := TableOf(d);
      && |t.next| == 4087 && t.eoc == 0xFFF8 && t.bad == 0xFFF7
      && forall c :: 0 <= c < 4087 ==> t.next[c] == FatValue(SAMPLE, c)
  {
    hide Mounted, BytesFrom, ByteAt, FatOf, TableOf, SoundFields, FatValue;
    SmallOpens(SAMPLE);
    TableIs(SAMPLE, TableOf(d));
    NextAll(TableOf(d));
  }

  lemma NamesAre()
    ensures EntryOfLaid(FILE_A) == Entry([0x41], 0x20, 2, 1300, None)
    ensures EntryOfLaid(FILE_B) == Entry([0x42], 0x20, 5, 5, None)
    ensures !IsDots(EntryOfLaid(FILE_A)) && !IsDots(EntryOfLaid(FILE_B))
  {
  }

  lemma FilesFit(d: Disk)
    requires Mounted(d) && d.g == SMALL && Chain(TableOf(d), 2) == Ok([2, 3, 4]) && Chain(TableOf(d), 5) == Ok([5])
    ensures SizeFits(d, Entry([0x41], 0x20, 2, 1300, None)) && SizeFits(d, Entry([0x42], 0x20, 5, 5, None))
  {
    hide Mounted, TableOf, Chain;
  }

  lemma RootHolds(d: Disk, fold: Fold, a: Entry, b: Entry)
    requires Mounted(d) && Events(d, 0, ROOT) == Ok([Found(a), Found(b)]) && fold(a.name) != fold(b.name)
    requires !IsDots(a) && !FolderBit(a) && SizeFits(d, a) && !IsDots(b) && !FolderBit(b) && SizeFits(d, b)
    ensures Holds(d, fold, 0, 0, [], 0, [File(a), File(b)])
  {
    hide Mounted, Events, SizeFits, IsDots, FolderBit;
    assert Entries(d, fold, 0, 0, [], 0, [], {fold(a.name)} + {fold(b.name)}, false, false, []);
    FileFirst(d, fold, 0, 0, [], 0, b, [], {fold(a.name)}, false, false, []);
    assert {} + {fold(a.name)} == {fold(a.name)} && [Found(b)] + [] == [Found(b)] && [File(b)] + [] == [File(b)];
    FileFirst(d, fold, 0, 0, [], 0, a, [Found(b)], {}, false, false, [File(b)]);
    assert [Found(a)] + [Found(b)] == [Found(a), Found(b)] && [File(a)] + [File(b)] == [File(a), File(b)];
  }

  lemma ClustersAre(t: Table, a: Entry, b: Entry)
    requires a.first == 2 && b.first == 5 && Chain(t, 2) == Ok([2, 3, 4]) && Chain(t, 5) == Ok([5])
    requires UsedSet(t) == Elems([2, 3, 4] + [5])
    ensures var clusters := ClustersIn(t, [File(a), File(b)]);
      clusters == [2, 3, 4, 5] && NoDup(clusters) && forall c: nat :: c in clusters <==> t.Used(c)
  {
    hide Chain, UsedSet;
    assert [File(a), File(b)][1..] == [File(b)] && [File(b)][1..] == [];
    assert ClustersIn(t, [File(b)]) == [5] + [] + [];
    assert [2, 3, 4] + [] + [5] == [2, 3, 4, 5] == [2, 3, 4] + [5];
    var clusters := ClustersIn(t, [File(a), File(b)]);
    assert clusters == [2, 3, 4] + [5];
    UsedAre(t, clusters);
  }

  lemma TwoListed(a: Entry, b: Entry)
    requires a.name == [0x41] && b.name == [0x42]
    ensures ItemsIn([], [File(a), File(b)])
         == [Item([0x2F, 0x41], false, a.first, a.size), Item([0x2F, 0x42], false, b.first, b.size)]
  {
    assert [File(a), File(b)][1..] == [File(b)];
    assert [] + [0x2F] + a.name == [0x2F, 0x41] && [] + [0x2F] + b.name == [0x2F, 0x42];
    OneFileListed([], b);
  }
}
