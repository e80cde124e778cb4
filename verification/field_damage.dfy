/** One field of a clean volume written otherwise: FSInfo's count, hint and signatures, FAT32's mirroring, version and
    root cluster, and the media byte. For every value, what the check then says. */
module FieldDamages {
  import opened Results
  import opened Bytes
  import opened Report
  import opened Chains
  import opened Geometries
  import opened Directories
  import opened Walks
  import opened Ownership
  import opened Checks
  import opened Heads
  import opened BootSectors
  import opened SameWalks
  import opened FatWrites
  import opened SectorWrites
  import opened Rewrites
  import opened Partition
  import opened SameTables

  // The fields beside.

  lemma Beside16(b: seq<byte>, at: nat, x: seq<byte>, o: nat)
    requires at + |x| <= |b| && o + 2 <= |b| && (o + 2 <= at || at + |x| <= o)
    ensures Le16(Splice(b, at, x), o) == Le16(b, o)
  {
  }

  lemma Beside32(b: seq<byte>, at: nat, x: seq<byte>, o: nat)
    requires at + |x| <= |b| && o + 4 <= |b| && (o + 4 <= at || at + |x| <= o)
    ensures Le32(Splice(b, at, x), o) == Le32(b, o)
  {
    Beside16(b, at, x, o);
    Beside16(b, at, x, o + 2);
  }

  lemma Written16(b: seq<byte>, at: nat, v: nat)
    requires at + 2 <= |b| && v < 0x1_0000
    ensures Le16(Splice(b, at, Pack(v, 2)), at) == v
  {
    Pack16(v);
    var x := Pack(v, 2);
    hide Pack;
    assert Splice(b, at, x)[at] == x[0] && Splice(b, at, x)[at + 1] == x[1];
  }

  lemma Written32(b: seq<byte>, at: nat, v: nat)
    requires at + 4 <= |b| && v < 0x1_0000_0000
    ensures Le32(Splice(b, at, Pack(v, 4)), at) == v
  {
    Pack32(v);
    var x := Pack(v, 4);
    hide Pack;
    var s := Splice(b, at, x);
    assert s[at] == x[0] && s[at + 1] == x[1] && s[at + 2] == x[2] && s[at + 3] == x[3];
  }

  // FSInfo.

  /** FSInfo, with bytes written at `o`. */
  function InfoSet(d: Disk, o: nat, v: nat): Disk {
    d.(img := BootSet(d.img, d.base, d.g.fsinfo * 512 + o, Pack(v, 4)))
  }

  ghost predicate InfoApart(d: Disk) {
    d.g.kind.Fat32? && 1 <= d.g.fsinfo < d.g.reserved
  }

  lemma InfoMounts(d: Disk, o: nat, v: nat)
    requires Mounted(d) && InfoApart(d) && o + 4 <= 512
    ensures var d' := InfoSet(d, o, v);
      Mounted(d') && SameData(d, d') && SameBoot(d, d') && TableOf(d') == TableOf(d) && d'.fats == d.fats
    ensures Sectors(d.img, d.base, d.g.fsinfo, 1).Ok? && |Sectors(d.img, d.base, d.g.fsinfo, 1).value| == 512
    ensures Sectors(InfoSet(d, o, v).img, d.base, d.g.fsinfo, 1)
         == Ok(Splice(Sectors(d.img, d.base, d.g.fsinfo, 1).value, o, Pack(v, 4)))
  {
    hide Mounted, TableOf, SameData, SameBoot, Sectors, BootSet, Pack, Splice;
    var offset := d.g.fsinfo * 512 + o;
    ReservedInside(d);
    ReservedKeeps(d, d.g.fsinfo, offset, Pack(v, 4));
    ReservedSector(d.img, d.base, d.g, d.g.fsinfo, offset, Pack(v, 4), d.g.fsinfo);
  }

  lemma MediaStays(d: Disk, d': Disk)
    requires Mounted(d) && Mounted(d') && SameBoot(d, d') && TableOf(d') == TableOf(d) && d'.g.clusters == d.g.clusters
    ensures MediaProblems(d') == MediaProblems(d)
  {
    hide Mounted, FatOf, MediaProblems;
    SameByte(d.img, d'.img, d.base, 21);
    assert TableOf(d').next[0] == TableOf(d).next[0];
    MediaSame(d, d');
  }

  /** Such a write makes FSInfo's own report the check's, whatever it is. */
  lemma InfoFound(d: Disk, fold: Fold, o: nat, v: nat)
    requires ChecksClean(d, fold) && InfoApart(d) && o + 4 <= 512
    ensures var d' := InfoSet(d, o, v);
      && Mounted(d') && Sectors(d.img, d.base, d.g.fsinfo, 1).Ok?
      && |Sectors(d.img, d.base, d.g.fsinfo, 1).value| == 512
      && var fs := Sectors(d.img, d.base, d.g.fsinfo, 1).value;
         && FsInfoProblems(fs, FreeCount(TableOf(d)), d.g.MaxCluster()) == []
         && Check(d', fold) == Ok(FsInfoProblems(Splice(fs, o, Pack(v, 4)), FreeCount(TableOf(d)), d.g.MaxCluster()))
  {
    hide Mounted, TableOf, SameData, SameBoot, Sectors, BootSet, Pack, Splice, Check, HeadProblems, MediaProblems,
         CopyProblems, FsInfoProblems, FieldProblems, FreeCount, WalkActions, Walked;
    var d' := InfoSet(d, o, v);
    InfoMounts(d, o, v);
    CleanHead(d, fold);
    HeadClean(d);
    SameLayout(d, d');
    MediaStays(d, d');
    var fs := Sectors(d.img, d.base, d.g.fsinfo, 1).value;
    var more := FsInfoProblems(Splice(fs, o, Pack(v, 4)), FreeCount(TableOf(d)), d.g.MaxCluster());
    assert FieldProblems(d.g) == [];
    assert [] + more == more;
    assert Fat32Problems(d') == Ok(more);
    HeadIs(d', more);
    WalkEqual(d, d', fold, []);
    CleanButHead(d, d', fold, more);
  }

  lemma InfoReports(fs: seq<byte>, free: nat, last: nat)
    requires |fs| == 512
    ensures var right := Le32(fs, 0) == 0x41615252 && Le32(fs, 484) == 0x61417272 && Le32(fs, 508) == 0xAA550000;
      var count, hint := Le32(fs, 488), Le32(fs, 492);
      FsInfoProblems(fs, free, last)
        == if !right then [FsInfoSignatures]
           else (if count == 0xFFFFFFFF || count == free then [] else [FsInfoCount(count, free)])
                + if hint == 0xFFFFFFFF || 2 <= hint <= last then [] else [FsInfoHint(hint)]
  {
    hide Le32;
  }

  /** The five fields of FSInfo, one of them written. */
  lemma InfoFields(fs: seq<byte>, o: nat, v: nat)
    requires |fs| == 512 && v < 0x1_0000_0000 && o in {0, 484, 488, 492, 508}
    ensures forall p: nat :: p in {0, 484, 488, 492, 508} ==>
      Le32(Splice(fs, o, Pack(v, 4)), p) == if p == o then v else Le32(fs, p)
  {
    hide Le32, Splice, Pack;
    Written32(fs, o, v);
    forall p: nat | p in {0, 484, 488, 492, 508} && p != o
      ensures Le32(Splice(fs, o, Pack(v, 4)), p) == Le32(fs, p)
    {
      Beside32(fs, o, Pack(v, 4), p);
    }
  }

  /** What one field written into a sound FSInfo is reported for. */
  lemma InfoWritten(fs: seq<byte>, o: nat, v: nat, free: nat, last: nat)
    requires |fs| == 512 && v < 0x1_0000_0000 && o in {0, 484, 488, 492, 508} && FsInfoProblems(fs, free, last) == []
    ensures FsInfoProblems(Splice(fs, o, Pack(v, 4)), free, last) ==
      if o == 488 then (if v == 0xFFFFFFFF || v == free then [] else [FsInfoCount(v, free)])
      else if o == 492 then (if v == 0xFFFFFFFF || 2 <= v <= last then [] else [FsInfoHint(v)])
      else if v == (if o == 0 then 0x41615252 else if o == 484 then 0x61417272 else 0xAA550000) then []
      else [FsInfoSignatures]
  {
    hide Le32, Splice, Pack, FsInfoProblems;
    InfoReports(fs, free, last);
    InfoFields(fs, o, v);
    InfoReports(Splice(fs, o, Pack(v, 4)), free, last);
    assert [FsInfoCount(v, free)] + [] == [FsInfoCount(v, free)] && [] + [FsInfoHint(v)] == [FsInfoHint(v)];
  }

  /** A free count is reported if and only if it is neither unknown nor the count there is. */
  lemma CountFound(d: Disk, fold: Fold, v: nat)
    requires ChecksClean(d, fold) && InfoApart(d) && v < 0x1_0000_0000
    ensures Mounted(InfoSet(d, 488, v))
    ensures Check(InfoSet(d, 488, v), fold)
         == Ok(if v == 0xFFFFFFFF || v == FreeCount(TableOf(d)) then [] else [FsInfoCount(v, FreeCount(TableOf(d)))])
  {
    hide Mounted, TableOf, Check, Sectors, InfoSet, Splice, FreeCount, Pack, FsInfoProblems;
    InfoFound(d, fold, 488, v);
    InfoWritten(Sectors(d.img, d.base, d.g.fsinfo, 1).value, 488, v, FreeCount(TableOf(d)), d.g.MaxCluster());
  }

  /** A hint is reported if and only if it is neither unknown nor a cluster. */
  lemma HintFound(d: Disk, fold: Fold, v: nat)
    requires ChecksClean(d, fold) && InfoApart(d) && v < 0x1_0000_0000
    ensures Mounted(InfoSet(d, 492, v))
    ensures Check(InfoSet(d, 492, v), fold)
         == Ok(if v == 0xFFFFFFFF || 2 <= v <= d.g.clusters + 1 then [] else [FsInfoHint(v)])
  {
    hide Mounted, TableOf, Check, Sectors, InfoSet, Splice, FreeCount, Pack, FsInfoProblems;
    InfoFound(d, fold, 492, v);
    InfoWritten(Sectors(d.img, d.base, d.g.fsinfo, 1).value, 492, v, FreeCount(TableOf(d)), d.g.MaxCluster());
  }

  /** A signature is reported if and only if it is another. */
  lemma SignatureFound(d: Disk, fold: Fold, o: nat, v: nat)
    requires ChecksClean(d, fold) && InfoApart(d) && v < 0x1_0000_0000 && o in {0, 484, 508}
    ensures Mounted(InfoSet(d, o, v))
    ensures var right := if o == 0 then 0x41615252 else if o == 484 then 0x61417272 else 0xAA550000;
      Check(InfoSet(d, o, v), fold) == Ok(if v == right then [] else [FsInfoSignatures])
  {
    hide Mounted, TableOf, Check, Sectors, InfoSet, Splice, FreeCount, Pack, FsInfoProblems;
    InfoFound(d, fold, o, v);
    InfoWritten(Sectors(d.img, d.base, d.g.fsinfo, 1).value, o, v, FreeCount(TableOf(d)), d.g.MaxCluster());
  }

  // The boot sector.

  /** The boot sector's fields but mirroring, version and root cluster. */
  ghost predicate SameFields(b: seq<byte>, b': seq<byte>)
    requires |b| == |b'| == 512
  {
    && b'[13] == b[13] && b'[16] == b[16] && b'[510] == b[510] && b'[511] == b[511]
    && Le16(b', 11) == Le16(b, 11) && Le16(b', 14) == Le16(b, 14) && Le16(b', 17) == Le16(b, 17)
    && Le16(b', 19) == Le16(b, 19) && Le16(b', 22) == Le16(b, 22) && Le32(b', 32) == Le32(b, 32)
    && Le32(b', 36) == Le32(b, 36) && Le16(b', 48) == Le16(b, 48) && Le16(b', 50) == Le16(b, 50)
  }

  /** The layout with the boot sector's mirroring, version and root cluster. */
  function Refielded(g: Geometry, b: seq<byte>): Geometry
    requires |b| == 512
  {
    g.(extFlags := Le16(b, 40), version := Le16(b, 42), rootCluster := if g.kind.Fat32? then Le32(b, 44) else 0)
  }

  lemma SaysRefielded(b: seq<byte>, b': seq<byte>, g: Geometry)
    requires |b| == |b'| == 512 && SameFields(b, b') && Says(b, g)
    ensures Says(b', Refielded(g, b'))
  {
    hide Le16, Le32;
  }

  lemma FieldsBeside(b: seq<byte>, offset: nat, x: seq<byte>)
    requires |b| == 512 && ((offset == 21 && |x| == 1) || (40 <= offset && offset + |x| <= 48))
    ensures SameFields(b, Splice(b, offset, x))
  {
    forall o: nat | o in {11, 14, 17, 19, 22, 48, 50} ensures Le16(Splice(b, offset, x), o) == Le16(b, o) {
      Beside16(b, offset, x, o);
    }
    Beside32(b, offset, x, 32);
    Beside32(b, offset, x, 36);
    hide Le16, Le32;
  }

  /** The boot sector, with bytes written at `offset`: the media byte, or a field of FAT32. */
  function BootDisk(d: Disk, offset: nat, x: seq<byte>, g: Geometry): Disk {
    Disk(BootSet(d.img, d.base, offset, x), d.base, g, d.fats)
  }

  lemma BootMounts(d: Disk, offset: nat, x: seq<byte>)
    requires Mounted(d) && 1 <= d.g.reserved
    requires (offset == 21 && |x| == 1) || (40 <= offset && offset + |x| <= 48)
    ensures d.base + 512 <= |d.img|
    ensures var boot := d.img[d.base..d.base + 512];
      var boot' := Splice(boot, offset, x);
      && Says(boot, d.g)
      && Mounted(BootDisk(d, offset, x, Refielded(d.g, boot')))
      && var img' := BootSet(d.img, d.base, offset, x);
         |img'| == |d.img| && img'[d.base..d.base + 512] == boot'
  {
    hide Mounted, Layout, Says, BootSet, Splice, Le16, Le32, SameFrom;
    BootOf(d);
    ReservedInside(d);
    var boot := d.img[d.base..d.base + 512];
    var boot' := Splice(boot, offset, x);
    assert boot[510] == d.img[d.base + 510] && boot[511] == d.img[d.base + 511];
    FieldsBeside(boot, offset, x);
    LayoutExact(boot, d.g);
    SaysRefielded(boot, boot', d.g);
    LayoutExact(boot', Refielded(d.g, boot'));
    ReservedSlices(d.img, d.base, d.g, 0, offset, x);
    ReservedOpens(d, 0, offset, x, boot', Refielded(d.g, boot'));
  }

  // The walk.

  /** `d'` is `d` but for the boot sector, mirroring and version. */
  ghost predicate BootApart(d: Disk, d': Disk) {
    && d'.base == d.base && d'.fats == d.fats && |d'.img| == |d.img|
    && d'.g == d.g.(extFlags := d'.g.extFlags, version := d'.g.version)
    && forall s: nat, n: nat :: d.g.reserved <= s ==> Sectors(d'.img, d.base, s, n) == Sectors(d.img, d.base, s, n)
  }

  lemma ClusterApart(d: Disk, d': Disk, c: nat)
    requires BootApart(d, d') && 2 <= c
    ensures Sectors(d'.img, d'.base, d'.g.ClusterLba(c), d'.g.spc) == Sectors(d.img, d.base, d.g.ClusterLba(c), d.g.spc)
  {
    hide Sectors;
    SamePlace(d.g, d'.g, c);
    hide Geometry.ClusterLba;
  }

  lemma SamePlace(g: Geometry, g': Geometry, c: nat)
    requires 2 <= c && g' == g.(extFlags := g'.extFlags, version := g'.version)
    ensures g'.ClusterLba(c) == g.ClusterLba(c) && g.reserved <= g.ClusterLba(c)
  {
    assert g'.DataStart() == g.DataStart() && g.reserved <= g.DataStart();
    hide Geometry.DataStart;
  }

  lemma {:induction false} ClustersApart(d: Disk, d': Disk, chain: seq<nat>)
    requires BootApart(d, d') && forall i :: 0 <= i < |chain| ==> 2 <= chain[i]
    ensures ClustersOf(d', chain) == ClustersOf(d, chain)
  {
    hide Sectors, BootApart, Geometry.ClusterLba;
    if chain == [] {
    } else {
      ClusterApart(d, d', chain[0]);
      ClustersApart(d, d', chain[1..]);
    }
  }

  lemma BytesApart(d: Disk, d': Disk, first: nat)
    requires Mounted(d) && Mounted(d') && BootApart(d, d') && TableOf(d') == TableOf(d)
    ensures DirBytes(d', first) == DirBytes(d, first)
  {
    hide Mounted, TableOf, Follow, Sectors, ClustersOf;
    var start := if first == 0 && d.g.kind.Fat32? then d.g.rootCluster else first;
    if start == 0 {
      assert d.g.reserved <= d.g.RootStart();
    } else if ChainOf(d, start).Ok? {
      ClustersApart(d, d', ChainOf(d, start).value);
    }
  }

  lemma EventsApart(d: Disk, d': Disk)
    requires Mounted(d) && Mounted(d') && BootApart(d, d') && TableOf(d') == TableOf(d)
    ensures SameEvents(d, d')
  {
    hide Mounted, TableOf, Sectors, DirBytes, Decode, Slots;
    forall first: nat, dir ensures Events(d', first, dir) == Events(d, first, dir) {
      BytesApart(d, d', first);
    }
  }

  lemma WalkApart(d: Disk, d': Disk, fold: Fold)
    requires Mounted(d) && Mounted(d') && BootApart(d, d')
    ensures TableOf(d') == TableOf(d) && WalkActions(d', fold) == WalkActions(d, fold)
  {
    hide Mounted, TableOf, Sectors, Follow, Visit, SameEvents, Prepend;
    TableFromFats(d, d');
    EventsApart(d, d');
    VisitEqual(d, d', fold, TopPlace());
  }

  // FAT32's fields.

  ghost predicate BootFields(d: Disk) {
    d.g.kind.Fat32? && 1 <= d.g.reserved && 1 <= d.g.fsinfo
  }

  /** The volume after the write: what its own fields are reported for. */
  lemma BootHead(d: Disk, d': Disk, fold: Fold)
    requires ChecksClean(d, fold) && Mounted(d') && d.g.kind.Fat32?
    requires d'.base == d.base && d'.fats == d.fats && TableOf(d') == TableOf(d)
    requires MediaProblems(d') == MediaProblems(d)
    requires d'.g == d.g.(extFlags := d'.g.extFlags, version := d'.g.version, rootCluster := d'.g.rootCluster)
    requires Sectors(d'.img, d.base, d.g.fsinfo, 1) == Sectors(d.img, d.base, d.g.fsinfo, 1)
    ensures FieldProblems(d.g) == [] && HeadProblems(d') == Ok(FieldProblems(d'.g))
  {
    hide Mounted, TableOf, Sectors, Check, HeadProblems, MediaProblems, CopyProblems, FsInfoProblems, FieldProblems,
         FreeCount;
    CleanHead(d, fold);
    HeadClean(d);
    var fs := Sectors(d.img, d.base, d.g.fsinfo, 1).value;
    assert FieldProblems(d'.g) + [] == FieldProblems(d'.g);
    HeadIs(d', FieldProblems(d'.g));
  }

  /** A write of a FAT32 field, mirroring, version or root cluster: the volume opens with it, its table is the same, and
      its fields are reported for what they say. */
  lemma BootFound(d: Disk, fold: Fold, offset: nat, x: seq<byte>)
    requires ChecksClean(d, fold) && BootFields(d) && 40 <= offset && offset + |x| <= 48
    ensures d.base + 512 <= |d.img|
    ensures var boot := d.img[d.base..d.base + 512];
      var d' := BootDisk(d, offset, x, Refielded(d.g, Splice(boot, offset, x)));
      && Says(boot, d.g) && Mounted(d') && TableOf(d') == TableOf(d)
      && FieldProblems(d.g) == [] && HeadProblems(d') == Ok(FieldProblems(d'.g))
      && (d'.g.rootCluster == d.g.rootCluster ==> Check(d', fold) == Ok(FieldProblems(d'.g)))
  {
    hide Mounted, TableOf, Sectors, Check, HeadProblems, MediaProblems, FieldProblems, BootSet, Splice, Says, Le16,
         Le32, WalkActions;
    BootMounts(d, offset, x);
    var boot := d.img[d.base..d.base + 512];
    var d' := BootDisk(d, offset, x, Refielded(d.g, Splice(boot, offset, x)));
    TableFromFats(d, d');
    BehindBoot(d, offset, x);
    MediaKept(d, d', offset, x);
    BootHead(d, d', fold);
    if d'.g.rootCluster == d.g.rootCluster {
      WalkApart(d, d', fold);
      CleanButHead(d, d', fold, FieldProblems(d'.g));
    }
  }

  lemma BehindBoot(d: Disk, offset: nat, x: seq<byte>)
    requires Mounted(d) && 1 <= d.g.reserved && offset + |x| <= 512
    ensures forall s: nat, n: nat :: 1 <= s ==>
      Sectors(BootSet(d.img, d.base, offset, x), d.base, s, n) == Sectors(d.img, d.base, s, n)
  {
    hide Mounted, Sectors, Splice;
    ReservedInside(d);
    var img' := BootSet(d.img, d.base, offset, x);
    forall lo, hi | d.base + SECTOR <= lo <= hi <= |d.img| ensures img'[lo..hi] == d.img[lo..hi] {
      SpliceBeside(d.img, d.base + offset, x, lo, hi);
    }
    hide BootSet;
    forall s: nat, n: nat | 1 <= s ensures Sectors(img', d.base, s, n) == Sectors(d.img, d.base, s, n) {
      SameSectors(d.img, img', d.base, 1, s, n);
    }
  }

  lemma MediaKept(d: Disk, d': Disk, offset: nat, x: seq<byte>)
    requires Mounted(d) && Mounted(d') && d.base + 512 <= |d.img| && 40 <= offset && offset + |x| <= 48
    requires d'.base == d.base && d'.img == BootSet(d.img, d.base, offset, x)
    requires TableOf(d') == TableOf(d) && d'.g.clusters == d.g.clusters
    ensures MediaProblems(d') == MediaProblems(d)
  {
    hide Mounted, FatOf, MediaProblems;
    assert d'.img[d.base + 21] == d.img[d.base + 21];
    assert TableOf(d').next[0] == TableOf(d).next[0];
    MediaSame(d, d');
  }

  lemma FieldsReport(g: Geometry, g': Geometry)
    requires FieldProblems(g) == [] && g'.clusters == g.clusters
    ensures g' == g.(extFlags := g'.extFlags) ==>
      FieldProblems(g') == if g'.extFlags / 0x80 % 2 == 1 then [MirroringOff] else []
    ensures g' == g.(version := g'.version) ==>
      FieldProblems(g') == if g'.version != 0 then [Version(g'.version)] else []
    ensures g' == g.(rootCluster := g'.rootCluster) ==>
      FieldProblems(g') == if 2 <= g'.rootCluster <= g.clusters + 1 then [] else [RootOutside(g'.rootCluster)]
  {
  }

  /** With mirroring flags `v`, the check reports that mirroring is off if and only if bit 7 is set. */
  lemma MirrorFound(d: Disk, fold: Fold, v: nat)
    requires ChecksClean(d, fold) && BootFields(d) && v < 0x1_0000
    ensures var d' := BootDisk(d, 40, Pack(v, 2), d.g.(extFlags := v));
      Mounted(d') && Check(d', fold) == Ok(if v / 0x80 % 2 == 1 then [MirroringOff] else [])
  {
    hide Mounted, TableOf, Check, HeadProblems, Splice, Le16, Le32, Pack, BootSet, Says, FieldProblems;
    BootFound(d, fold, 40, Pack(v, 2));
    var boot := d.img[d.base..d.base + 512];
    Written16(boot, 40, v);
    Beside16(boot, 40, Pack(v, 2), 42);
    Beside32(boot, 40, Pack(v, 2), 44);
    SaysFields(boot, d.g);
    assert Refielded(d.g, Splice(boot, 40, Pack(v, 2))) == d.g.(extFlags := v);
    FieldsReport(d.g, d.g.(extFlags := v));
  }

  /** A version is reported if and only if it is not 0. */
  lemma VersionFound(d: Disk, fold: Fold, v: nat)
    requires ChecksClean(d, fold) && BootFields(d) && v < 0x1_0000
    ensures var d' := BootDisk(d, 42, Pack(v, 2), d.g.(version := v));
      Mounted(d') && Check(d', fold) == Ok(if v != 0 then [Version(v)] else [])
  {
    hide Mounted, TableOf, Check, HeadProblems, Splice, Le16, Le32, Pack, BootSet, Says, FieldProblems;
    BootFound(d, fold, 42, Pack(v, 2));
    var boot := d.img[d.base..d.base + 512];
    Written16(boot, 42, v);
    Beside16(boot, 42, Pack(v, 2), 40);
    Beside32(boot, 42, Pack(v, 2), 44);
    SaysFields(boot, d.g);
    assert Refielded(d.g, Splice(boot, 42, Pack(v, 2))) == d.g.(version := v);
    FieldsReport(d.g, d.g.(version := v));
  }

  // The root cluster.

  /** A walk whose root's chain begins outside the volume: one problem, and nothing is held. */
  lemma NoRoot(d: Disk, fold: Fold, head: seq<Problem>)
    requires Mounted(d) && d.g.kind.Fat32? && !(2 <= d.g.rootCluster <= d.g.MaxCluster())
    ensures Walked(d, fold, head) == Ok(Start(head + [Broken(ROOT, Outside(d.g.rootCluster))]))
  {
    hide Mounted, Visit;
    BytesPositive(d);
    var t, n, claim, s := TableOf(d), d.g.ClusterBytes(), Claim(ROOT, d.g.rootCluster, None), Start(head);
    assert |t.next| == d.g.MaxCluster() + 1;
    hide TableOf;
    assert Chain(t, d.g.rootCluster) == Err(Outside(d.g.rootCluster));
    hide Follow;
    assert [claim][1..] == [];
    assert Replay(t, n, s, [claim]) == Replay(t, n, Step(t, n, s, claim), []);
  }

  /** A root cluster past the volume is reported, the root has no chain, and every cluster in use is leaked. */
  lemma RootFound(d: Disk, fold: Fold, v: nat)
    requires ChecksClean(d, fold) && BootFields(d) && v < 0x1_0000_0000 && !(2 <= v <= d.g.clusters + 1)
    ensures var d' := BootDisk(d, 44, Pack(v, 4), d.g.(rootCluster := v));
      Mounted(d') && exists leaks: seq<nat> ::
        && Check(d', fold) == Ok([RootOutside(v), Broken([0x2F], Outside(v)), Leaked(leaks)])
        && (forall i, j :: 0 <= i < j < |leaks| ==> leaks[i] < leaks[j])
        && forall c: nat :: c in leaks <==> TableOf(d).Used(c)
  {
    hide Mounted, TableOf, Check, HeadProblems, Splice, Le16, Le32, Pack, BootSet, Walked, Unreached, Says,
         FieldProblems;
    BootFound(d, fold, 44, Pack(v, 4));
    var boot := d.img[d.base..d.base + 512];
    Written32(boot, 44, v);
    Beside16(boot, 44, Pack(v, 4), 40);
    Beside16(boot, 44, Pack(v, 4), 42);
    SaysFields(boot, d.g);
    assert Refielded(d.g, Splice(boot, 44, Pack(v, 4))) == d.g.(rootCluster := v);
    FieldsReport(d.g, d.g.(rootCluster := v));
    var d' := BootDisk(d, 44, Pack(v, 4), d.g.(rootCluster := v));
    var t := TableOf(d);
    NoRoot(d', fold, [RootOutside(v)]);
    RootUsed(d, fold);
    var leaks := Unreached(t, map[], |t.next|);
    UnreachedExact(t, map[], |t.next|);
    assert d.g.rootCluster in leaks;
    LostCheck(d', fold, v, leaks);
  }

  lemma RootUsed(d: Disk, fold: Fold)
    requires ChecksClean(d, fold) && d.g.kind.Fat32?
    ensures TableOf(d).Used(d.g.rootCluster)
  {
    hide Mounted, TableOf, HeadProblems, Visit, Held, Replay, Follow;
    var t := TableOf(d);
    CleanExact(d, fold);
    BytesPositive(d);
    var acts := WalkActions(d, fold).value;
    assert acts[0] == Claim(ROOT, d.g.rootCluster, None);
    assert Sound(t, d.g.ClusterBytes(), acts[0]);
    ChainBound(t, d.g.rootCluster);
  }

  lemma LostCheck(d: Disk, fold: Fold, v: nat, leaks: seq<nat>)
    requires Mounted(d) && HeadProblems(d) == Ok([RootOutside(v)]) && leaks != []
    requires Walked(d, fold, [RootOutside(v)]) == Ok(Start([RootOutside(v)] + [Broken(ROOT, Outside(v))]))
    requires Unreached(TableOf(d), map[], |TableOf(d).next|) == leaks
    ensures Check(d, fold) == Ok([RootOutside(v), Broken([0x2F], Outside(v)), Leaked(leaks)])
  {
    hide Mounted, TableOf, HeadProblems, Walked, Unreached;
    assert [RootOutside(v)] + [Broken(ROOT, Outside(v))] + [Leaked(leaks)]
        == [RootOutside(v), Broken(ROOT, Outside(v)), Leaked(leaks)];
  }

  // The media byte.

  /** A media byte is reported if and only if it is not the low byte of the FAT's first entry. */
  lemma MediaFound(d: Disk, fold: Fold, v: byte)
    requires ChecksClean(d, fold) && 1 <= d.g.reserved && (d.g.kind.Fat32? ==> 1 <= d.g.fsinfo)
    ensures var d' := BootDisk(d, 21, [v], d.g);
      Mounted(d') && Check(d', fold) == Ok(if v as int == FatOf(d, 0) % 0x100 then [] else [MediaByte])
  {
    hide Mounted, TableOf, Check, HeadProblems, Splice, Le16, Le32, BootSet, Says, FatOf, WalkActions, Sectors;
    BootMounts(d, 21, [v]);
    var boot := d.img[d.base..d.base + 512];
    Beside16(boot, 21, [v], 40);
    Beside16(boot, 21, [v], 42);
    Beside32(boot, 21, [v], 44);
    SaysFields(boot, d.g);
    assert Refielded(d.g, Splice(boot, 21, [v])) == d.g;
    var d' := BootDisk(d, 21, [v], d.g);
    BehindBoot(d, 21, [v]);
    WalkApart(d, d', fold);
    var head := if v as int == FatOf(d, 0) % 0x100 then [] else [MediaByte];
    MediaHead(d, d', fold, v, head);
    CleanButHead(d, d', fold, head);
  }

  lemma SaysFields(b: seq<byte>, g: Geometry)
    requires |b| == 512 && Says(b, g)
    ensures Refielded(g, b) == g
  {
    hide Le16, Le32;
  }

  lemma MediaHead(d: Disk, d': Disk, fold: Fold, v: byte, head: seq<Problem>)
    requires ChecksClean(d, fold) && Mounted(d') && d.base + 512 <= |d.img| && TableOf(d') == TableOf(d)
    requires d' == BootDisk(d, 21, [v], d.g)
    requires Sectors(d'.img, d.base, d.g.fsinfo, 1) == Sectors(d.img, d.base, d.g.fsinfo, 1) || d.g.kind.Fat16?
    requires head == if v as int == FatOf(d, 0) % 0x100 then [] else [MediaByte]
    ensures HeadProblems(d') == Ok(head)
  {
    hide Mounted, TableOf, Check, CopyProblems, FatOf, Fat32Problems, Sectors;
    CleanHead(d, fold);
    HeadClean(d);
    assert d'.img[d.base + 21] == v;
    assert TableOf(d').next[0] == TableOf(d).next[0];
    assert MediaProblems(d') == head;
    if d.g.kind.Fat32? {
      Fat32ProblemsSame(d, d');
    }
    assert [] + head == head && head + [] == head;
  }
}
