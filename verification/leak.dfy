/** `leak_a_cluster`: a volume damaged in exactly one way. */
module Leaks {
  import opened Results
  import opened Bytes
  import opened Report
  import opened Chains
  import opened Geometries
  import opened Directories
  import opened Walks
  import opened Ownership
  import opened Checks
  import opened Heads
  import opened SameWalks
  import opened FatWrites
  import opened SectorWrites
  import opened Rewrites
  import opened Partition

  /** The mark that ends a chain, as it is written. */
  function End(g: Geometry): nat {
    if g.kind.Fat32? then 0x0FFF_FFFF else 0xFFFF
  }

  const ONES: seq<byte> := [0xFF, 0xFF, 0xFF, 0xFF, 0xFF, 0xFF, 0xFF, 0xFF]
  const FSINFO_COUNT := 488

  /** FSInfo's free count and hint marked unknown, in the sector `lba`. */
  function Forget(img: seq<byte>, base: nat, lba: nat): seq<byte> {
    BootSet(img, base, lba * SECTOR + FSINFO_COUNT, ONES)
  }

  /** The image after the leak of the cluster `c`. */
  function LeakBytes(d: Disk, c: nat): seq<byte>
    requires Mounted(d) && c <= d.g.MaxCluster()
  {
    var marked := SetCopies(d.img, d.base, d.g, d.g.nfats, c, End(d.g));
    if d.g.kind.Fat32? then Forget(Forget(marked, d.base, d.g.fsinfo), d.base, d.g.backupBoot + 1) else marked
  }

  /** The last free cluster, if there is one. */
  ghost predicate IsLastFree(t: Table, c: nat) {
    t.Free(c) && forall e: nat :: t.Free(e) ==> e <= c
  }

  /** An image's bytes, changed in place. */
  class Image {
    var data: seq<byte>

    constructor (data: seq<byte>)
      ensures this.data == data
    {
      this.data := data;
    }

    /** Marks the last free cluster in use, with nothing holding it. A boot sector that counts no FATs is
        nothing to leak from: the first question about its FAT fails. */
    method LeakACluster(base: nat) returns (r: Result<nat, Problem>)
      requires Open(data, base).Ok? ==> 1 <= Open(data, base).value.g.nfats
      modifies this
      ensures Open(old(data), base).Err? ==> r == Err(Open(old(data), base).error) && data == old(data)
      ensures Open(old(data), base).Ok? ==>
        var d := Open(old(data), base).value;
        && Mounted(d)
        && (r.Ok? ==> IsLastFree(TableOf(d), r.value) && data == LeakBytes(d, r.value))
        && (r.Err? ==> r.error == NothingFree && data == old(data) && forall e :: !TableOf(d).Free(e))
    {
      hide Open, Mounted, LeakBytes, FatOf;
      var volume := Open(data, base);
      if volume.Err? {
        return Err(volume.error);
      }
      var d := volume.value;
      OpenMounts(data, base);
      var leaked := LastFree(d);
      if leaked.None? {
        return Err(NothingFree);
      }
      Mark(d, leaked.value);
      return Ok(leaked.value);
    }

    method Mark(d: Disk, c: nat)
      requires Mounted(d) && c <= d.g.MaxCluster() && data == d.img
      modifies this
      ensures data == LeakBytes(d, c)
    {
      hide Mounted, SetCopy, Forget;
      for k := 0 to d.g.nfats
        invariant data == SetCopies(d.img, d.base, d.g, k, c, End(d.g))
      {
        data := SetCopy(data, d.base, d.g, k, c, End(d.g));
      }
      if d.g.kind.Fat32? {
        data := Forget(data, d.base, d.g.fsinfo);
        data := Forget(data, d.base, d.g.backupBoot + 1);
      }
    }
  }

  lemma OpenMounts(img: seq<byte>, base: nat)
    requires Open(img, base).Ok? && 1 <= Open(img, base).value.g.nfats
    ensures var d := Open(img, base).value; Mounted(d) && d.img == img && d.base == base
  {
    hide Layout, Copies;
  }

  method LastFree(d: Disk) returns (r: Option<nat>)
    requires Mounted(d)
    ensures match r case Some(c) => IsLastFree(TableOf(d), c) case None => forall e :: !TableOf(d).Free(e)
  {
    hide Mounted, FatOf;
    ghost var t := TableOf(d);
    var c: nat := d.g.MaxCluster() + 1;
    while 2 < c
      invariant c <= |t.next| && forall e: nat :: t.Free(e) ==> e < c
    {
      c := c - 1;
      if FatOf(d, c) == 0 {
        return Some(c);
      }
    }
    return None;
  }

  /** The leak's sectors are where FAT32 keeps them: reserved, and not the boot sector. */
  predicate FsInfoReserved(g: Geometry) {
    1 <= g.reserved && (g.kind.Fat32? ==> 1 <= g.fsinfo < g.reserved && g.backupBoot + 1 < g.reserved)
  }

  // FSInfo.

  lemma ForgottenFields(fs: seq<byte>)
    requires |fs| == SECTOR
    ensures var after := Splice(fs, FSINFO_COUNT, ONES);
      && Le32(after, 0) == Le32(fs, 0) && Le32(after, 484) == Le32(fs, 484) && Le32(after, 508) == Le32(fs, 508)
      && Le32(after, 488) == UNKNOWN && Le32(after, 492) == UNKNOWN
  {
    var after := Splice(fs, FSINFO_COUNT, ONES);
    assert after[0] == fs[0] && after[1] == fs[1] && after[2] == fs[2] && after[3] == fs[3];
    assert after[484] == fs[484] && after[485] == fs[485] && after[486] == fs[486] && after[487] == fs[487];
    assert after[508] == fs[508] && after[509] == fs[509] && after[510] == fs[510] && after[511] == fs[511];
  }

  /** Forgetting in a reserved sector changes nothing that the walk reads, nor the boot sector. */
  lemma ForgetKeeps(d: Disk, lba: nat)
    requires Mounted(d) && 1 <= lba < d.g.reserved
    ensures var d' := d.(img := Forget(d.img, d.base, lba));
      Mounted(d') && SameData(d, d') && TableOf(d') == TableOf(d) && SameBoot(d, d')
  {
    hide Mounted, TableOf, SameData, BootSet;
    ReservedKeeps(d, lba, lba * SECTOR + FSINFO_COUNT, ONES);
  }

  lemma ForgetSector(img: seq<byte>, base: nat, g: Geometry, lba: nat, s: nat)
    requires 1 <= lba < g.reserved && s < g.reserved && base + g.reserved * SECTOR <= |img|
    ensures Sectors(img, base, s, 1).Ok? && |Sectors(img, base, s, 1).value| == SECTOR
    ensures Sectors(Forget(img, base, lba), base, s, 1) ==
      if s == lba then Ok(Splice(Sectors(img, base, s, 1).value, FSINFO_COUNT, ONES)) else Sectors(img, base, s, 1)
  {
    hide Sectors, BootSet, Splice;
    ReservedSector(img, base, g, lba, lba * SECTOR + FSINFO_COUNT, ONES, s);
  }

  // The volume after the leak.

  /** The volume whose image is `LeakBytes`. */
  function LeakDisk(d: Disk, c: nat): Disk
    requires Mounted(d) && c <= d.g.MaxCluster()
  {
    Rewritten(d, c, End(d.g)).(img := LeakBytes(d, c))
  }

  /** The reserved sectors after the leak: FSInfo's two fields are unknown in `x` and in `y`, and nothing else is
      changed. */
  ghost predicate Forgotten(d: Disk, d': Disk, x: nat, y: nat) {
    forall s: nat :: s < d.g.reserved ==>
      && Sectors(d.img, d.base, s, 1).Ok? && |Sectors(d.img, d.base, s, 1).value| == SECTOR
      && Sectors(d'.img, d.base, s, 1)
         == Ok(if s == x || s == y then Splice(Sectors(d.img, d.base, s, 1).value, FSINFO_COUNT, ONES)
               else Sectors(d.img, d.base, s, 1).value)
  }

  lemma RewrittenBoot(d: Disk, c: nat, value: nat)
    requires Mounted(d) && c <= d.g.MaxCluster() && 1 <= d.g.reserved
    ensures SameBoot(d, Rewritten(d, c, value))
    ensures forall s: nat :: s < d.g.reserved ==>
      Sectors(Rewritten(d, c, value).img, d.base, s, 1) == Sectors(d.img, d.base, s, 1)
  {
    RewrittenMounts(d, c, value);
    MountedInside(d);
    ReservedInside(d);
    var img' := Rewritten(d, c, value).img;
    hide Mounted, Rewritten, Accepted, CopyBytes, Geometry.CopyLba, Geometry.RootStart;
    assert img'[d.base..d.base + SECTOR] == d.img[d.base..d.base + SECTOR];
    forall s: nat | s < d.g.reserved ensures Sectors(img', d.base, s, 1) == Sectors(d.img, d.base, s, 1) {
      assert img'[d.base + s * SECTOR..d.base + s * SECTOR + SECTOR]
          == d.img[d.base + s * SECTOR..d.base + s * SECTOR + SECTOR];
    }
  }

  lemma ForgetTwice(a: Disk, x: nat, y: nat)
    requires Mounted(a) && 1 <= x < a.g.reserved && 1 <= y < a.g.reserved
    ensures var e := a.(img := Forget(Forget(a.img, a.base, x), a.base, y));
      Mounted(e) && SameData(a, e) && SameBoot(a, e) && TableOf(e) == TableOf(a)
  {
    hide Mounted, TableOf, SameData, SameBoot, Forget;
    ForgetKeeps(a, x);
    var b := a.(img := Forget(a.img, a.base, x));
    ForgetKeeps(b, y);
    var e := b.(img := Forget(b.img, b.base, y));
    SameDataTrans(a, b, e);
    SameBootTrans(a, b, e);
  }

  lemma ForgetTwiceReads(a: Disk, x: nat, y: nat)
    requires Mounted(a) && 1 <= x < a.g.reserved && 1 <= y < a.g.reserved
    ensures Forgotten(a, a.(img := Forget(Forget(a.img, a.base, x), a.base, y)), x, y)
  {
    hide Mounted, Sectors, Splice, Forget;
    ReservedInside(a);
    ForgetSize(a, x);
    forall s: nat | s < a.g.reserved
      ensures Sectors(a.img, a.base, s, 1).Ok? && |Sectors(a.img, a.base, s, 1).value| == SECTOR
      ensures Sectors(Forget(Forget(a.img, a.base, x), a.base, y), a.base, s, 1)
           == Ok(if s == x || s == y then Splice(Sectors(a.img, a.base, s, 1).value, FSINFO_COUNT, ONES)
                 else Sectors(a.img, a.base, s, 1).value)
    {
      ForgetSector(a.img, a.base, a.g, x, s);
      ForgetSector(Forget(a.img, a.base, x), a.base, a.g, y, s);
      SpliceTwice(Sectors(a.img, a.base, s, 1).value, FSINFO_COUNT, ONES);
    }
  }

  lemma ForgetSize(d: Disk, lba: nat)
    requires Mounted(d) && 1 <= lba < d.g.reserved
    ensures |Forget(d.img, d.base, lba)| == |d.img|
  {
    hide Mounted, BootSet;
    ReservedData(d, lba, lba * SECTOR + FSINFO_COUNT, ONES);
  }

  lemma LeakImage(d: Disk, c: nat)
    requires Mounted(d) && c <= d.g.MaxCluster()
    ensures var a := Rewritten(d, c, End(d.g));
      && a.g == d.g && a.base == d.base
      && LeakDisk(d, c) == if d.g.kind.Fat32?
                           then a.(img := Forget(Forget(a.img, a.base, a.g.fsinfo), a.base, a.g.backupBoot + 1)) else a
  {
    hide Mounted, SetCopies, Forget;
  }

  lemma ReadEnd(g: Geometry)
    ensures Read(g, End(g)) == End(g) && Packable(g, End(g))
  {
  }

  lemma LeakMounts(d: Disk, c: nat)
    requires Mounted(d) && c <= d.g.MaxCluster() && FsInfoReserved(d.g)
    ensures var d' := LeakDisk(d, c);
      && Mounted(d') && SameData(d, d') && SameBoot(d, d')
      && TableOf(d') == Changed(TableOf(d), c, End(d.g))
      && (d.g.kind.Fat32? ==> Forgotten(d, d', d.g.fsinfo, d.g.backupBoot + 1))
  {
    hide Mounted, TableOf, SameData, SameOutside, SameBoot, Rewritten, LeakDisk, Sectors, Splice, Forget, Read,
         Packable, End;
    ReadEnd(d.g);
    RewrittenTable(d, c, End(d.g));
    RewrittenMounts(d, c, End(d.g));
    RewrittenBoot(d, c, End(d.g));
    LeakImage(d, c);
    if d.g.kind.Fat32? {
      var a := Rewritten(d, c, End(d.g));
      ForgetTwice(a, a.g.fsinfo, a.g.backupBoot + 1);
      ForgetTwiceReads(a, a.g.fsinfo, a.g.backupBoot + 1);
      SameDataTrans(d, a, LeakDisk(d, c));
      SameBootTrans(d, a, LeakDisk(d, c));
    }
  }

  /** What the leak writes: the end mark in the cluster's entry of every copy, and on FAT32 an unknown count and hint in
      FSInfo and in the copy behind the backup boot sector. */
  lemma LeakWritten(d: Disk, c: nat)
    requires Mounted(d) && c <= d.g.MaxCluster() && FsInfoReserved(d.g)
    ensures var d' := LeakDisk(d, c);
      && Mounted(d') && |d'.fats| == d.g.nfats
      && (forall k :: 0 <= k < d.g.nfats ==>
            && |d'.fats[k]| == d.g.fatSectors * 512
            && if d.g.kind.Fat32? then c * 4 + 4 <= |d'.fats[k]| && Le32(d'.fats[k], c * 4) == 0x0FFFFFFF
               else c * 2 + 2 <= |d'.fats[k]| && Le16(d'.fats[k], c * 2) == 0xFFFF)
      && (d.g.kind.Fat32? ==> ForgottenAt(d', d.base + d.g.fsinfo * 512)
                              && ForgottenAt(d', d.base + (d.g.backupBoot + 1) * 512))
  {
    hide Mounted, SameData, SameBoot, LeakDisk, TableOf, Changed, Forgotten;
    var d' := LeakDisk(d, c);
    LeakMounts(d, c);
    SameLayout(d, d');
    MountedAccepted(d');
    LeakFats(d, c);
    forall k | 0 <= k < d.g.nfats
      ensures if d.g.kind.Fat32? then c * 4 + 4 <= |d'.fats[k]| && Le32(d'.fats[k], c * 4) == 0x0FFFFFFF
              else c * 2 + 2 <= |d'.fats[k]| && Le16(d'.fats[k], c * 2) == 0xFFFF
    {
      CopyWritten(d, c, k);
    }
    if d.g.kind.Fat32? {
      ForgottenRead(d, d', d.g.fsinfo, d.g.backupBoot + 1, d.g.fsinfo);
      ForgottenRead(d, d', d.g.fsinfo, d.g.backupBoot + 1, d.g.backupBoot + 1);
    }
  }

  /** The free count and the hint of the sector that begins at the byte `at` are unknown. */
  predicate ForgottenAt(d: Disk, at: nat) {
    at + 512 <= |d.img| && Le32(d.img, at + 488) == 0xFFFFFFFF && Le32(d.img, at + 492) == 0xFFFFFFFF
  }

  lemma ForgottenRead(d: Disk, d': Disk, x: nat, y: nat, s: nat)
    requires Forgotten(d, d', x, y) && (s == x || s == y) && s < d.g.reserved && d'.base == d.base
    ensures ForgottenAt(d', d.base + s * 512)
  {
    hide Sectors, Le32, Splice;
    ForgottenFields(Sectors(d.img, d.base, s, 1).value);
    SectorFields(d'.img, d.base, s);
  }

  lemma LeakFats(d: Disk, c: nat)
    requires Mounted(d) && c <= d.g.MaxCluster()
    ensures LeakDisk(d, c).fats == SetFats(d.g, d.fats, c, if d.g.kind.Fat32? then 0x0FFFFFFF else 0xFFFF)
  {
    hide Mounted, LeakBytes, SetCopies;
  }

  lemma CopyWritten(d: Disk, c: nat, k: nat)
    requires Mounted(d) && c <= d.g.MaxCluster() && k < d.g.nfats
    requires LeakDisk(d, c).fats == SetFats(d.g, d.fats, c, if d.g.kind.Fat32? then 0x0FFFFFFF else 0xFFFF)
    ensures k < |LeakDisk(d, c).fats|
    ensures var fat := LeakDisk(d, c).fats[k];
      if d.g.kind.Fat32? then c * 4 + 4 <= |fat| && Le32(fat, c * 4) == 0x0FFFFFFF
      else c * 2 + 2 <= |fat| && Le16(fat, c * 2) == 0xFFFF
  {
    hide Mounted, LeakDisk, Pack, Splice, Le32, Le16, Accepted;
    MountedAccepted(d);
    EntryInside(d.g, k, c);
    if d.g.kind.Fat32? {
      Entry32Set(d.fats[k], c, c, 0x0FFFFFFF);
    } else {
      Entry16Set(d.fats[k], c, c, 0xFFFF);
    }
  }

  lemma SameBootTrans(a: Disk, b: Disk, c: Disk)
    requires SameBoot(a, b) && SameBoot(b, c)
    ensures SameBoot(a, c)
  {
  }

  // What the check makes of it.

  lemma FsInfoClean(fs: seq<byte>, free: nat, last: nat, free': nat)
    requires |fs| == SECTOR && FsInfoProblems(fs, free, last) == []
    ensures FsInfoProblems(Splice(fs, FSINFO_COUNT, ONES), free', last) == []
  {
    ForgottenFields(fs);
    hide Splice, Le32;
  }

  lemma Fat32Clean(d: Disk, d': Disk)
    requires Mounted(d) && Mounted(d') && d'.g == d.g && d'.base == d.base && d.g.fsinfo < d.g.reserved
    requires Forgotten(d, d', d.g.fsinfo, d.g.backupBoot + 1)
    requires Fat32Problems(d) == Ok([])
    ensures Fat32Problems(d') == Ok([])
  {
    hide Mounted, TableOf, FreeCount, FieldProblems, FsInfoProblems, Sectors, Splice;
    FsInfoClean(Sectors(d.img, d.base, d.g.fsinfo, 1).value, FreeCount(TableOf(d)), d.g.MaxCluster(),
        FreeCount(TableOf(d')));
  }

  lemma LeakMedia(d: Disk, c: nat)
    requires Mounted(d) && 2 <= c <= d.g.MaxCluster() && FsInfoReserved(d.g)
    ensures Mounted(LeakDisk(d, c)) && MediaProblems(LeakDisk(d, c)) == MediaProblems(d)
  {
    hide Mounted, SameData, MediaProblems, Forgotten, FatOf, LeakDisk;
    var d' := LeakDisk(d, c);
    LeakMounts(d, c);
    SameByte(d.img, d'.img, d.base, 21);
    assert TableOf(d').next[0] == TableOf(d).next[0];
    MediaSame(d, d');
  }

  lemma LeakCopies(d: Disk, c: nat)
    requires c <= d.g.MaxCluster() && Mounted(d)
    ensures |LeakDisk(d, c).fats| == |d.fats|
    ensures forall k :: 0 < k < |d.fats| && d.fats[k] == d.fats[0] ==> LeakDisk(d, c).fats[k] == LeakDisk(d, c).fats[0]
  {
    hide Mounted, LeakBytes, SetCopies, Splice, Pack;
  }

  lemma LeakHeadClean(d: Disk, c: nat)
    requires Mounted(d) && 2 <= c <= d.g.MaxCluster() && FsInfoReserved(d.g) && HeadProblems(d) == Ok([])
    ensures Mounted(LeakDisk(d, c)) && HeadProblems(LeakDisk(d, c)) == Ok([])
  {
    hide Mounted, HeadProblems, SameData, SameBoot, CopyProblems, MediaProblems, Fat32Problems, Forgotten,
         LeakDisk, TableOf, Changed;
    var d' := LeakDisk(d, c);
    LeakMounts(d, c);
    LeakMedia(d, c);
    LeakCopies(d, c);
    HeadClean(d);
    HeadClean(d');
    WholeSame(d, d');
    SameLayout(d, d');
    if d.g.kind.Fat32? {
      Fat32Clean(d, d');
    }
  }

  /** Every chain that can be followed is the same when a free cluster's entry changes. */
  lemma FreeChanged(t: Table, c: nat, value: nat, first: nat)
    requires t.Sane() && t.Free(c) && Chain(t, first).Ok?
    ensures SameChain(t, Changed(t, c, value), first)
  {
    ChainBound(t, first);
    ChainElsewhere(t, c, value, first);
  }

  lemma UsedChanged(t: Table, c: nat, value: nat, e: nat)
    requires t.Sane() && t.Holds(c) && value >= t.eoc
    ensures Changed(t, c, value).Used(e) <==> t.Used(e) || e == c
  {
  }

  lemma Singleton(u: seq<nat>, c: nat)
    requires forall i, j :: 0 <= i < j < |u| ==> u[i] < u[j]
    requires forall x: nat :: x in u <==> x == c
    ensures u == [c]
  {
    assert |u| >= 2 ==> u[0] < u[1];
    assert c in u;
    forall i | 0 <= i < |u| ensures u[i] == c {
      assert u[i] in u;
    }
  }

  lemma OnlyLeak(t: Table, c: nat, value: nat, owner: map<nat, Name>)
    requires t.Sane() && t.Free(c) && value >= t.eoc && owner.Keys == UsedSet(t)
    ensures Unreached(Changed(t, c, value), owner, |t.next|) == [c]
  {
    var t' := Changed(t, c, value);
    var u := Unreached(t', owner, |t.next|);
    UnreachedExact(t', owner, |t.next|);
    forall x: nat ensures x in u <==> x == c {
      if x < |t.next| {
        UsedChanged(t, c, value, x);
        assert x in UsedSet(t) <==> t.Used(x);
      }
    }
    Singleton(u, c);
  }

  lemma FreeFalls(t: Table, c: nat, value: nat)
    requires t.Free(c) && value != 0
    ensures FreeCount(Changed(t, c, value)) == FreeCount(t) - 1
  {
    assert FreeSet(Changed(t, c, value)) == FreeSet(t) - {c};
    assert c in FreeSet(t);
  }

  /** The walk over the leaked volume is the walk over the volume. */
  lemma LeakWalk(d: Disk, fold: Fold, c: nat)
    requires ChecksClean(d, fold) && FsInfoReserved(d.g) && TableOf(d).Free(c)
    ensures Mounted(LeakDisk(d, c)) && Walked(LeakDisk(d, c), fold, []) == Walked(d, fold, [])
    ensures Walked(d, fold, []).Ok? && Walked(d, fold, []).value.problems == []
    ensures Walked(d, fold, []).value.owner.Keys == UsedSet(TableOf(d))
  {
    hide Mounted, SameData, SameBoot, Forgotten, LeakDisk, Chain, WalkActions, HeadProblems, Replay, Held,
         UsedSet;
    var t, d', n := TableOf(d), LeakDisk(d, c), d.g.ClusterBytes();
    LeakMounts(d, c);
    BytesPositive(d);
    BytesPositive(d');
    CleanExact(d, fold);
    var acts := WalkActions(d, fold).value;
    forall i | 0 <= i < |acts| && acts[i].Claim? ensures SameChain(t, TableOf(d'), acts[i].start) {
      assert Sound(t, n, acts[i]);
      FreeChanged(t, c, End(d.g), acts[i].start);
    }
    SameLayout(d, d');
    WalkSame(d, d', fold);
    ReplaySame(t, TableOf(d'), n, Start([]), acts);
    ReplayExact(t, n, Start([]), acts);
  }

  lemma CheckIs(d: Disk, fold: Fold, s: State, leaks: seq<nat>)
    requires Mounted(d) && HeadProblems(d) == Ok([]) && Walked(d, fold, []) == Ok(s) && s.problems == []
    requires Unreached(TableOf(d), s.owner, |TableOf(d).next|) == leaks
    ensures Check(d, fold) == Ok(if leaks == [] then [] else [Leaked(leaks)])
  {
    hide Mounted, HeadProblems, Walked, TableOf, Unreached;
    var more := LeakProblems(TableOf(d), s.owner);
    assert s.problems + more == more;
  }

  /** On a volume that checks clean, marking a free cluster in use is one problem and no other: the leak of
      that cluster. The walk comes to the same listing, owners and times; every chain that could be followed
      is the same; and one cluster fewer is free. */
  lemma LeakExact(d: Disk, fold: Fold, c: nat)
    requires ChecksClean(d, fold) && FsInfoReserved(d.g) && TableOf(d).Free(c)
    ensures var d' := LeakDisk(d, c);
      && Mounted(d') && d'.img == LeakBytes(d, c)
      && Check(d', fold) == Ok([Leaked([c])])
      && Walked(d', fold, []) == Walked(d, fold, [])
      && FreeCount(TableOf(d')) == FreeCount(TableOf(d)) - 1
  {
    hide Mounted, SameData, SameBoot, Forgotten, Walked, HeadProblems, UsedSet, LeakDisk, Unreached, FreeCount,
         Check, Changed;
    var t, d' := TableOf(d), LeakDisk(d, c);
    LeakMounts(d, c);
    LeakWalk(d, fold, c);
    CleanHead(d, fold);
    LeakHeadClean(d, c);
    FreeFalls(t, c, End(d.g));
    var s := Walked(d, fold, []).value;
    OnlyLeak(t, c, End(d.g), s.owner);
    ChangedLength(t, c, End(d.g));
    CheckIs(d', fold, s, [c]);
    LeakImg(d, c);
  }

  lemma LeakImg(d: Disk, c: nat)
    requires Mounted(d) && c <= d.g.MaxCluster()
    ensures LeakDisk(d, c).img == LeakBytes(d, c)
  {
    hide Mounted, LeakBytes, Rewritten;
  }

  /** Nothing a reader could read is changed by the leak. */
  lemma LeakReads(d: Disk, first: nat, size: nat, c: nat)
    requires Mounted(d) && FsInfoReserved(d.g) && TableOf(d).Free(c) && ChainOf(d, first).Ok?
    ensures Mounted(LeakDisk(d, c))
    ensures ChainOf(LeakDisk(d, c), first) == ChainOf(d, first)
    ensures Content(LeakDisk(d, c), first, size) == Content(d, first, size)
  {
    hide Mounted, SameBoot, Forgotten, LeakDisk, Chain, ClustersOf;
    LeakMounts(d, c);
    FreeChanged(TableOf(d), c, End(d.g), first);
    ClustersSame(d, LeakDisk(d, c), ChainOf(d, first).value);
  }
}
