/** Which damages to a file's chain are found: all that change it. */
module DamageDecides {
  import opened Chains
  import opened Geometries
  import opened Walks
  import opened Ownership
  import opened Checks
  import opened Heads
  import opened FatWrites
  import opened Partition
  import opened Damages
  import opened DamageFound
  import opened DamageLinks
  import opened SameTables
  import opened SameWalks

  /** If the damaged volume checks clean, then the entry says what it said, or it is the last and an end mark. */
  lemma CleanOnlySame(d: Disk, fold: Fold, out: seq<Item>, x: nat, p: seq<nat>, j: nat, value: nat)
    requires FileOf(d, fold, out, x, p) && j < |p| && 1 <= d.g.reserved && Plain(d.g, value)
    requires p[j] < |TableOf(d).next| && ChecksClean(Rewritten(d, p[j], value), fold)
    ensures value == TableOf(d).next[p[j]] || (j + 1 == |p| && value >= d.g.Eoc())
  {
    hide Mounted, TableOf, Chain, Walked, Check, Rewritten, Plain, IsChain, NoNotes, Claims, ClaimsBefore, ClaimsAfter,
         WalkActions, Covered, AllSound, Held, UsedSet, Around;
    FileFits(d, fold, out, x, p);
    DamagedWalk(d, fold, out, x, p, j, value);
    var a := FileClaim(out[x]);
    var acts := CleanCovers(d, fold);
    var acts' := CleanCovers(Rewritten(d, p[j], value), fold);
    assert a in Claims(acts);
    ClaimsAre(acts, a);
    var h := ClaimIndex(acts, a);
    if value != TableOf(d).next[p[j]] {
      HolderDecides(TableOf(d), acts, h, p, j, value, acts');
    }
  }

  lemma FileEnds(d: Disk, fold: Fold, out: seq<Item>, x: nat, p: seq<nat>, j: nat)
    requires FileOf(d, fold, out, x, p) && j + 1 == |p|
    ensures p[j] < |TableOf(d).next| && TableOf(d).next[p[j]] >= d.g.Eoc()
  {
    hide Mounted, FatOf, Chain, Walked, Check;
    FileFits(d, fold, out, x, p);
  }

  lemma PlainDecides(d: Disk, fold: Fold, out: seq<Item>, x: nat, p: seq<nat>, j: nat, value: nat)
    requires FileOf(d, fold, out, x, p) && j < |p| && 1 <= d.g.reserved && Plain(d.g, value)
    requires d.g.kind.Fat32? ==> d.g.fsinfo < d.g.reserved
    ensures p[j] <= d.g.MaxCluster()
    ensures ChecksClean(Rewritten(d, p[j], value), fold) <==>
      value == FatOf(d, p[j]) || (j + 1 == |p| && value >= d.g.Eoc())
  {
    hide Mounted, FatOf, Chain, Walked, Check, Rewritten, Plain;
    FileFits(d, fold, out, x, p);
    assert TableOf(d).next[p[j]] == FatOf(d, p[j]);
    if j + 1 == |p| {
      FileEnds(d, fold, out, x, p, j);
    }
    hide FileOf, TableOf;
    if ChecksClean(Rewritten(d, p[j], value), fold) {
      CleanOnlySame(d, fold, out, x, p, j, value);
    } else if value == FatOf(d, p[j]) || (j + 1 == |p| && value >= d.g.Eoc()) {
      StaysClean(d, fold, p[j], value);
    }
  }

  // Values with reserved bits.

  lemma ReadIsPlain(g: Geometry, value: nat)
    requires Packable(g, value)
    ensures Plain(g, Read(g, value)) && Packable(g, Read(g, value)) && Read(g, Read(g, value)) == Read(g, value)
  {
  }

  lemma SameDataTurned(a: Disk, b: Disk)
    requires SameData(a, b)
    ensures SameData(b, a)
  {
  }

  /** Volumes with two values of one reading in an entry. */
  lemma ReadsAlike(d: Disk, c: nat, value: nat)
    requires Mounted(d) && c <= d.g.MaxCluster() && 1 <= d.g.reserved && Packable(d.g, value)
    requires d.g.kind.Fat32? ==> d.g.fsinfo < d.g.reserved
    ensures SameReading(Rewritten(d, c, Read(d.g, value)), Rewritten(d, c, value))
  {
    hide Mounted, TableOf, FatOf, Rewritten, SameData, SameOutside, Sectors, Packable, Read;
    var a, b := Rewritten(d, c, Read(d.g, value)), Rewritten(d, c, value);
    ReadIsPlain(d.g, value);
    RewrittenTable(d, c, value);
    RewrittenTable(d, c, Read(d.g, value));
    RewrittenMounts(d, c, value);
    RewrittenMounts(d, c, Read(d.g, value));
    CopiesStay(d, c, value);
    CopiesStay(d, c, Read(d.g, value));
    SameLayout(d, a);
    SameLayout(d, b);
    SameDataSize(d, a);
    SameDataTurned(d, a);
    SameDataTrans(a, d, b);
    ReservedInside(d);
    SameByteBefore(d.img, a.img, d.base, d.g);
    SameByteBefore(d.img, b.img, d.base, d.g);
    if d.g.kind.Fat32? {
      SameSectorsBefore(d.img, a.img, d.base, d.g, d.g.fsinfo);
      SameSectorsBefore(d.img, b.img, d.base, d.g, d.g.fsinfo);
    }
    forall e: nat | e <= d.g.MaxCluster() ensures FatOf(b, e) == FatOf(a, e) {
      OneReads(a, b, e);
    }
  }

  /** What an entry reads as decides the check: writing a value with reserved bits into an entry of a clean volume
      is reported as writing the value without them is, problem for problem. */
  lemma ReadDecides(d: Disk, fold: Fold, c: nat, value: nat)
    requires ChecksClean(d, fold) && c <= d.g.MaxCluster() && 1 <= d.g.reserved && Packable(d.g, value)
    requires d.g.kind.Fat32? ==> d.g.fsinfo < d.g.reserved
    ensures Mounted(Rewritten(d, c, value)) && Mounted(Rewritten(d, c, Read(d.g, value)))
    ensures Check(Rewritten(d, c, value), fold) == Check(Rewritten(d, c, Read(d.g, value)), fold)
  {
    hide Mounted, TableOf, FatOf, Rewritten, Check, HeadProblems, Read, Packable, SameReading, CopyProblems, Walked,
         Fat32Problems, MediaProblems;
    var a, b := Rewritten(d, c, Read(d.g, value)), Rewritten(d, c, value);
    CleanHead(d, fold);
    HeadClean(d);
    CopiesEqual(d.fats, d.g.nfats);
    CopiesStay(d, c, value);
    CopiesStay(d, c, Read(d.g, value));
    ReadsAlike(d, c, value);
    ReadingData(a, b);
    assert AlikeAsBefore(a.fats, b.fats);
    ReservedBitsInvisible(a, b, fold);
  }

  /** Whatever is written into the entry of any cluster of any file of a clean volume, be it a mark, a cluster of
      its own chain, of another file's, of a directory's or of FAT32's root, a free one, a bad one, or no cluster
      at all, with reserved bits or without: the volume checks clean if and only if the entry reads as it did
      before, or it was the chain's last and still is an end mark. */
  lemma DamageDecides(d: Disk, fold: Fold, out: seq<Item>, x: nat, p: seq<nat>, j: nat, value: nat)
    requires FileOf(d, fold, out, x, p) && j < |p| && 1 <= d.g.reserved && Packable(d.g, value)
    requires d.g.kind.Fat32? ==> d.g.fsinfo < d.g.reserved
    ensures p[j] <= d.g.MaxCluster()
    ensures ChecksClean(Rewritten(d, p[j], value), fold) <==>
      Read(d.g, value) == FatOf(d, p[j]) || (j + 1 == |p| && Read(d.g, value) >= d.g.Eoc())
  {
    hide Mounted, FatOf, Chain, Walked, Check, Rewritten, Plain, Read, Packable;
    ReadIsPlain(d.g, value);
    PlainDecides(d, fold, out, x, p, j, Read(d.g, value));
    ReadDecides(d, fold, p[j], value);
  }
}
