/** Writing into a volume's reserved sectors: the boot sector, FSInfo, and their copies. The FATs, and everything behind
    them, stay as they were. */
module SectorWrites {
  import opened Results
  import opened Bytes
  import opened Geometries
  import opened SameWalks
  import opened FatWrites

  /** `boot_set`: bytes written at an offset of the volume. */
  function BootSet(img: seq<byte>, base: nat, offset: nat, x: seq<byte>): seq<byte> {
    Splice(img, base + offset, x)
  }

  /** The bytes are written inside one reserved sector. */
  predicate InSector(g: Geometry, lba: nat, offset: nat, n: nat) {
    lba < g.reserved && lba * SECTOR <= offset && offset + n <= lba * SECTOR + SECTOR
  }

  lemma ReservedSlices(img: seq<byte>, base: nat, g: Geometry, lba: nat, offset: nat, x: seq<byte>)
    requires InSector(g, lba, offset, |x|) && base + g.reserved * SECTOR <= |img|
    ensures var img' := BootSet(img, base, offset, x);
      && |img'| == |img|
      && SameFrom(img, img', base + g.reserved * SECTOR)
      && base + SECTOR <= |img|
      && img'[base..base + SECTOR]
         == if lba == 0 then Splice(img[base..base + SECTOR], offset, x) else img[base..base + SECTOR]
  {
    hide Splice, SameFrom;
    if lba == 0 {
      SpliceInside(img, base + offset, x, base, base + SECTOR);
    } else {
      SpliceBeside(img, base + offset, x, base, base + SECTOR);
    }
    ReservedBehind(img, base, g, lba, offset, x);
  }

  lemma ReservedBehind(img: seq<byte>, base: nat, g: Geometry, lba: nat, offset: nat, x: seq<byte>)
    requires InSector(g, lba, offset, |x|) && base + g.reserved * SECTOR <= |img|
    ensures SameFrom(img, BootSet(img, base, offset, x), base + g.reserved * SECTOR)
  {
    hide Splice;
    forall lo, hi | base + g.reserved * SECTOR <= lo <= hi <= |img|
      ensures BootSet(img, base, offset, x)[lo..hi] == img[lo..hi]
    {
      SpliceBeside(img, base + offset, x, lo, hi);
    }
  }

  /** Each reserved sector, after the write. */
  lemma ReservedSector(img: seq<byte>, base: nat, g: Geometry, lba: nat, offset: nat, x: seq<byte>, s: nat)
    requires InSector(g, lba, offset, |x|) && s < g.reserved && base + g.reserved * SECTOR <= |img|
    ensures Sectors(img, base, s, 1).Ok? && |Sectors(img, base, s, 1).value| == SECTOR
    ensures Sectors(BootSet(img, base, offset, x), base, s, 1)
         == if s == lba then Ok(Splice(Sectors(img, base, s, 1).value, offset - lba * SECTOR, x))
            else Sectors(img, base, s, 1)
  {
    var lo := base + s * SECTOR;
    if s == lba {
      SpliceInside(img, base + offset, x, lo, lo + SECTOR);
    } else {
      SpliceBeside(img, base + offset, x, lo, lo + SECTOR);
    }
  }

  /** What lies behind the reserved sectors reads as it did. */
  lemma ReservedData(d: Disk, lba: nat, offset: nat, x: seq<byte>)
    requires Mounted(d) && InSector(d.g, lba, offset, |x|)
    ensures var img' := BootSet(d.img, d.base, offset, x);
      && |img'| == |d.img|
      && forall s: nat, n: nat :: d.g.reserved <= s ==> Sectors(img', d.base, s, n) == Sectors(d.img, d.base, s, n)
  {
    ReservedInside(d);
    ReservedSlices(d.img, d.base, d.g, lba, offset, x);
    hide Mounted, Sectors, SameFrom, BootSet;
    var img' := BootSet(d.img, d.base, offset, x);
    forall s: nat, n: nat | d.g.reserved <= s ensures Sectors(img', d.base, s, n) == Sectors(d.img, d.base, s, n) {
      SameSectors(d.img, img', d.base, d.g.reserved, s, n);
    }
  }

  /** A write that leaves the boot sector one of the same FATs leaves a volume with the same FATs. */
  lemma ReservedOpens(d: Disk, lba: nat, offset: nat, x: seq<byte>, boot: seq<byte>, g: Geometry)
    requires Mounted(d) && InSector(d.g, lba, offset, |x|)
    requires g.reserved == d.g.reserved && g.nfats == d.g.nfats && g.fatSectors == d.g.fatSectors
    requires d.base + SECTOR <= |d.img| && |boot| == SECTOR && boot[510] == 0x55 && boot[511] == 0xAA
    requires boot == if lba == 0 then Splice(d.img[d.base..d.base + SECTOR], offset, x)
                     else d.img[d.base..d.base + SECTOR]
    requires Layout(boot) == Ok(g)
    ensures Mounted(Disk(BootSet(d.img, d.base, offset, x), d.base, g, d.fats))
  {
    hide Mounted, Layout, BootSet, Sectors, Splice, SameFrom;
    var img' := BootSet(d.img, d.base, offset, x);
    FatCount(d);
    ReservedInside(d);
    ReservedSlices(d.img, d.base, d.g, lba, offset, x);
    ReservedFats(d, lba, offset, x, g);
    MarkIn(img', d.base, boot);
    OpensAs(img', d.base, g, d.fats);
  }

  lemma MarkIn(img: seq<byte>, base: nat, boot: seq<byte>)
    requires base + SECTOR <= |img| && img[base..base + SECTOR] == boot && boot[510] == 0x55 && boot[511] == 0xAA
    ensures img[base + 510] == 0x55 && img[base + 511] == 0xAA
  {
    assert img[base + 510] == boot[510] && img[base + 511] == boot[511];
  }

  /** The FAT copies read as they did. */
  lemma ReservedFats(d: Disk, lba: nat, offset: nat, x: seq<byte>, g: Geometry)
    requires Mounted(d) && InSector(d.g, lba, offset, |x|)
    requires g.reserved == d.g.reserved && g.nfats == d.g.nfats && g.fatSectors == d.g.fatSectors
    ensures |d.fats| == g.nfats
    ensures forall k :: 0 <= k < g.nfats ==>
      Sectors(BootSet(d.img, d.base, offset, x), d.base, g.CopyLba(k), g.fatSectors) == Ok(d.fats[k])
  {
    hide Mounted, BootSet, Sectors;
    FatCount(d);
    ReservedData(d, lba, offset, x);
    var img' := BootSet(d.img, d.base, offset, x);
    forall k | 0 <= k < g.nfats ensures Sectors(img', d.base, g.CopyLba(k), g.fatSectors) == Ok(d.fats[k]) {
      ReservedFirst(d.g, k);
      CopyRead(d, k);
    }
  }

  lemma TableFromFats(d: Disk, d': Disk)
    requires Mounted(d) && Mounted(d') && d'.fats == d.fats && d'.g.kind == d.g.kind && d'.g.clusters == d.g.clusters
    ensures TableOf(d') == TableOf(d)
  {
    forall c: nat | c <= d.g.MaxCluster() ensures FatOf(d', c) == FatOf(d, c) {
    }
    assert TableOf(d').next == TableOf(d).next;
  }

  ghost predicate SameBoot(d: Disk, d': Disk) {
    && d'.base == d.base && |d'.img| == |d.img| && d.base + SECTOR <= |d.img|
    && d'.img[d.base..d.base + SECTOR] == d.img[d.base..d.base + SECTOR]
  }

  lemma SameByte(img: seq<byte>, img': seq<byte>, base: nat, i: nat)
    requires i < SECTOR && base + SECTOR <= |img| && base + SECTOR <= |img'|
    requires img'[base..base + SECTOR] == img[base..base + SECTOR]
    ensures img'[base + i] == img[base + i]
  {
    assert img'[base + i] == img'[base..base + SECTOR][i];
    assert img[base + i] == img[base..base + SECTOR][i];
  }

  /** A write behind the boot sector changes nothing that the walk reads, nor the boot sector. */
  lemma ReservedKeeps(d: Disk, lba: nat, offset: nat, x: seq<byte>)
    requires Mounted(d) && 1 <= lba && InSector(d.g, lba, offset, |x|)
    ensures var d' := d.(img := BootSet(d.img, d.base, offset, x));
      Mounted(d') && SameData(d, d') && TableOf(d') == TableOf(d) && SameBoot(d, d')
  {
    hide Mounted, Layout, BootSet, Sectors, TableOf, SameFrom;
    BootOf(d);
    ReservedInside(d);
    ReservedFirst(d.g, 0);
    var boot := d.img[d.base..d.base + SECTOR];
    assert boot[510] == d.img[d.base + 510] && boot[511] == d.img[d.base + 511];
    ReservedSlices(d.img, d.base, d.g, lba, offset, x);
    ReservedOpens(d, lba, offset, x, boot, d.g);
    ReservedData(d, lba, offset, x);
    TableFromFats(d, d.(img := BootSet(d.img, d.base, offset, x)));
  }
}
