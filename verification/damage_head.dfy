/** What a damaged volume's own fields say: nothing, but for FSInfo's count where a cluster became free. */
module DamageHeads {
  import opened Results
  import opened Bytes
  import opened Report
  import opened Chains
  import opened Geometries
  import opened Walks
  import opened Checks
  import opened Heads
  import opened SameWalks
  import opened FatWrites
  import opened Rewrites
  import opened Partition
  import opened Leaks
  import opened DamageFound
  import opened SameTables

  /** FSInfo's free count, if it says one, is one too few once a cluster of a chain is free. */
  ghost function CountProblems(d: Disk): seq<Problem>
    requires Mounted(d) && Sectors(d.img, d.base, d.g.fsinfo, 1).Ok?
  {
    var said := Le32(Sectors(d.img, d.base, d.g.fsinfo, 1).value, FSINFO_COUNT);
    if said == UNKNOWN then [] else [FsInfoCount(said, said + 1)]
  }

  lemma FreeSame(t: Table, c: nat, value: nat)
    requires t.Used(c) && value != 0
    ensures FreeCount(Changed(t, c, value)) == FreeCount(t)
  {
    assert FreeSet(Changed(t, c, value)) == FreeSet(t);
  }

  lemma FreeGrows(t: Table, c: nat)
    requires t.Used(c)
    ensures FreeCount(Changed(t, c, 0)) == FreeCount(t) + 1
  {
    assert FreeSet(Changed(t, c, 0)) == FreeSet(t) + {c} && c !in FreeSet(t);
  }

  lemma CountMoved(fs: seq<byte>, free: nat, last: nat)
    requires |fs| == SECTOR && FsInfoProblems(fs, free, last) == []
    ensures var said := Le32(fs, FSINFO_COUNT);
      FsInfoProblems(fs, free + 1, last) == if said == UNKNOWN then [] else [FsInfoCount(said, said + 1)]
  {
    hide Le32;
  }

  lemma Fat32Moved(d: Disk, d': Disk)
    requires Mounted(d) && Mounted(d') && d'.g == d.g && Fat32Problems(d) == Ok([])
    requires FreeCount(TableOf(d')) == FreeCount(TableOf(d)) + 1
    requires Sectors(d'.img, d'.base, d.g.fsinfo, 1) == Sectors(d.img, d.base, d.g.fsinfo, 1)
    ensures Sectors(d.img, d.base, d.g.fsinfo, 1).Ok? && Fat32Problems(d') == Ok(CountProblems(d))
  {
    hide Mounted, TableOf, FreeCount, FieldProblems, FsInfoProblems, Sectors, Le32;
    var fs := Sectors(d.img, d.base, d.g.fsinfo, 1).value;
    CountMoved(fs, FreeCount(TableOf(d)), d.g.MaxCluster());
    assert FieldProblems(d.g) == [];
    assert [] + CountProblems(d) == CountProblems(d);
  }

  lemma WholeDamaged(d: Disk, c: nat, value: nat)
    requires Mounted(d) && 2 <= c <= d.g.MaxCluster() && 1 <= d.g.reserved && Packable(d.g, value)
    requires CopyProblems(d.fats, d.g.nfats) + MediaProblems(d) == [] && |d.fats| == d.g.nfats
    ensures var d' := Rewritten(d, c, value);
      && Mounted(d') && |d'.fats| == |d.fats| && CopyProblems(d'.fats, d.g.nfats) + MediaProblems(d') == []
  {
    hide Mounted, SameData, SameOutside, MediaProblems, CopyProblems, Rewritten, FatOf;
    var d' := Rewritten(d, c, value);
    RewrittenMounts(d, c, value);
    RewrittenTable(d, c, value);
    ReservedInside(d);
    SameLayout(d, d');
    DamageFound.SameDataSize(d, d');
    SameByteBefore(d.img, d'.img, d.base, d.g);
    assert TableOf(d').next[0] == TableOf(d).next[0];
    MediaSame(d, d');
    HeadClean(d');
    CopiesStay(d, c, value);
    WholeSame(d, d');
  }

  /** One entry of a used cluster of a clean volume changed: before the walk the check reports nothing, or, where
      the cluster became free on FAT32, that FSInfo's count is one too few. */
  lemma DamagedHead(d: Disk, fold: Fold, c: nat, value: nat)
    requires ChecksClean(d, fold) && TableOf(d).Used(c) && Plain(d.g, value)
    requires 1 <= d.g.reserved && (d.g.kind.Fat32? ==> d.g.fsinfo < d.g.reserved)
    ensures Mounted(Rewritten(d, c, value)) && (d.g.kind.Fat32? ==> Sectors(d.img, d.base, d.g.fsinfo, 1).Ok?)
    ensures HeadProblems(Rewritten(d, c, value)) == Ok(if d.g.kind.Fat32? && value == 0 then CountProblems(d) else [])
  {
    hide Mounted, SameData, SameOutside, MediaProblems, CopyProblems, HeadProblems, Fat32Problems, Rewritten, FatOf,
         FreeCount, Sectors, CountProblems;
    var d' := Rewritten(d, c, value);
    CleanHead(d, fold);
    HeadClean(d);
    WholeDamaged(d, c, value);
    RewrittenMounts(d, c, value);
    RewrittenTable(d, c, value);
    SameLayout(d, d');
    assert TableOf(d') == Changed(TableOf(d), c, value);
    if d.g.kind.Fat32? {
      ReservedInside(d);
      DamageFound.SameDataSize(d, d');
      SameSectorsBefore(d.img, d'.img, d.base, d.g, d.g.fsinfo);
      if value == 0 {
        FreeGrows(TableOf(d), c);
        Fat32Moved(d, d');
        HeadIs(d', CountProblems(d));
      } else {
        FreeSame(TableOf(d), c, value);
        Fat32ProblemsSame(d, d');
        FieldsReadable(d);
        HeadIs(d', []);
      }
    } else {
      HeadClean(d');
    }
  }

  lemma FieldsReadable(d: Disk)
    requires Mounted(d) && Fat32Problems(d).Ok?
    ensures Sectors(d.img, d.base, d.g.fsinfo, 1).Ok?
  {
    hide Mounted, TableOf, FsInfoProblems, FieldProblems;
  }
}
