/** What the check says of a volume's own fields, before the walk: its FAT copies, the media byte, and on FAT32 the
    version, mirroring, the root cluster and FSInfo. */
module Heads {
  import opened Results
  import opened Bytes
  import opened Report
  import opened Geometries
  import opened Checks

  lemma HeadClean(d: Disk)
    requires Mounted(d)
    ensures |d.fats| == d.g.nfats
    ensures HeadProblems(d) == Ok([]) <==>
      && CopyProblems(d.fats, d.g.nfats) + MediaProblems(d) == []
      && (d.g.kind.Fat32? ==> Fat32Problems(d) == Ok([]))
  {
    MountedAccepted(d);
    hide Mounted, CopyProblems, MediaProblems, Fat32Problems;
  }

  lemma HeadIs(d: Disk, more: seq<Problem>)
    requires Mounted(d) && d.g.kind.Fat32? && CopyProblems(d.fats, d.g.nfats) + MediaProblems(d) == []
    requires Fat32Problems(d) == Ok(more)
    ensures HeadProblems(d) == Ok(more)
  {
    hide Mounted, CopyProblems, MediaProblems, Fat32Problems;
    assert [] + more == more;
  }

  lemma {:induction false} CopiesEqual(fats: seq<seq<byte>>, n: nat)
    requires n <= |fats|
    ensures CopyProblems(fats, n) == [] <==> forall k :: 0 < k < n ==> fats[k] == fats[0]
  {
    if n <= 1 {
    } else {
      CopiesEqual(fats, n - 1);
    }
  }

  /** Every FAT copy is the first, and the first entry has the boot sector's media byte. */
  ghost predicate SoundCopies(d: Disk)
    requires Mounted(d)
  {
    && d.base + 21 < |d.img| && FatOf(d, 0) % 0x100 == d.img[d.base + 21]
    && forall k :: 0 <= k < |d.fats| ==> d.fats[k] == d.fats[0]
  }

  /** FSInfo, in the sector that begins at the byte `at`: its three signatures, a free count that is the clusters' or
      unknown, and a hint that is a cluster or unknown. */
  ghost predicate SoundFsInfo(d: Disk, at: nat)
    requires Mounted(d)
  {
    && at + 512 <= |d.img|
    && Le32(d.img, at) == 0x41615252 && Le32(d.img, at + 484) == 0x61417272 && Le32(d.img, at + 508) == 0xAA550000
    && (Le32(d.img, at + 488) == 0xFFFFFFFF || Le32(d.img, at + 488) == FreeCount(TableOf(d)))
    && (Le32(d.img, at + 492) == 0xFFFFFFFF || 2 <= Le32(d.img, at + 492) <= d.g.MaxCluster())
  }

  /** The volume's own fields are right. */
  ghost predicate SoundFields(d: Disk)
    requires Mounted(d)
  {
    && SoundCopies(d)
    && (d.g.kind.Fat32? ==>
          && d.g.version == 0 && d.g.extFlags / 0x80 % 2 == 0 && 2 <= d.g.rootCluster <= d.g.MaxCluster()
          && SoundFsInfo(d, d.base + d.g.fsinfo * 512))
  }

  lemma SectorFields(img: seq<byte>, base: nat, lba: nat)
    ensures Sectors(img, base, lba, 1).Ok? <==> base + lba * 512 + 512 <= |img|
    ensures Sectors(img, base, lba, 1).Ok? ==>
      var s, at := Sectors(img, base, lba, 1).value, base + lba * 512;
      |s| == 512 && forall o: nat :: o + 4 <= 512 ==> Le32(s, o) == Le32(img, at + o)
  {
  }

  lemma FsInfoExact(d: Disk)
    requires Mounted(d) && Sectors(d.img, d.base, d.g.fsinfo, 1).Ok?
    ensures FsInfoProblems(Sectors(d.img, d.base, d.g.fsinfo, 1).value, FreeCount(TableOf(d)), d.g.MaxCluster()) == []
      <==> SoundFsInfo(d, d.base + d.g.fsinfo * 512)
  {
    hide Mounted, TableOf, FreeCount, Le32, Sectors;
    SectorFields(d.img, d.base, d.g.fsinfo);
  }

  lemma FieldsExact(g: Geometry)
    ensures FieldProblems(g) == [] <==>
      g.version == 0 && g.extFlags / 0x80 % 2 == 0 && 2 <= g.rootCluster <= g.MaxCluster()
  {
  }

  lemma CopiesExact(d: Disk)
    requires Mounted(d)
    ensures CopyProblems(d.fats, d.g.nfats) + MediaProblems(d) == [] <==> SoundCopies(d)
  {
    MountedAccepted(d);
    CopiesEqual(d.fats, d.g.nfats);
    hide Mounted, FatOf, CopyProblems;
  }

  /** Nothing is reported before the walk if and only if the volume's own fields are right. */
  lemma HeadExact(d: Disk)
    requires Mounted(d)
    ensures HeadProblems(d) == Ok([]) <==> SoundFields(d)
  {
    hide Mounted, TableOf, HeadProblems, CopyProblems, MediaProblems, SoundCopies, SoundFsInfo, FieldProblems,
         FsInfoProblems, Sectors;
    HeadClean(d);
    CopiesExact(d);
    if d.g.kind.Fat32? {
      FieldsExact(d.g);
      SectorFields(d.img, d.base, d.g.fsinfo);
      if Sectors(d.img, d.base, d.g.fsinfo, 1).Ok? {
        FsInfoExact(d);
      } else {
        NoSector(d);
      }
    }
  }

  lemma NoSector(d: Disk)
    requires Mounted(d) && Sectors(d.img, d.base, d.g.fsinfo, 1).Err?
    ensures !SoundFsInfo(d, d.base + d.g.fsinfo * 512)
  {
    hide Mounted, TableOf, FreeCount, Le32;
  }
}
