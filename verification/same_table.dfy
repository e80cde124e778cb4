/** Volumes that read as the same table: FAT32's reserved bits, and damage to a copy that is not the first. */
module SameTables {
  import opened Results
  import opened Bytes
  import opened Report
  import opened Chains
  import opened Geometries
  import opened Directories
  import opened Walks
  import opened Ownership
  import opened Checks
  import opened Heads
  import opened SameWalks
  import opened FatWrites
  import opened Rewrites
  import opened Partition
  import opened DamageFound

  /** Every directory reads the same. */
  ghost predicate SameEvents(d: Disk, d': Disk)
    requires Mounted(d) && Mounted(d')
  {
    forall first: nat, dir :: Events(d', first, dir) == Events(d, first, dir)
  }

  lemma {:induction false} VisitEqual(d: Disk, d': Disk, fold: Fold, p: Place)
    requires Mounted(d) && Mounted(d') && SameEvents(d, d') && TableOf(d') == TableOf(d)
    ensures Visit(d', fold, p) == Visit(d, fold, p)
    decreases if p.depth > MAX_DEPTH then 0 else MAX_DEPTH + 1 - p.depth, 1, 0
  {
    hide Mounted, TableOf, Scan, Events, Chain;
    if p.depth <= MAX_DEPTH {
      if Events(d, p.first, Where(p.path)).Ok? {
        ScanEqual(d, d', fold, p, Events(d, p.first, Where(p.path)).value, NOTHING);
      }
    }
  }

  lemma {:induction false} ScanEqual(d: Disk, d': Disk, fold: Fold, p: Place, events: seq<Event>, seen: Seen)
    requires Mounted(d) && Mounted(d') && SameEvents(d, d') && TableOf(d') == TableOf(d) && p.depth <= MAX_DEPTH
    ensures Scan(d', fold, p, events, seen) == Scan(d, fold, p, events, seen)
    decreases MAX_DEPTH + 1 - p.depth, 0, |events|
  {
    hide Mounted, TableOf, SameEvents, Visit, EntryActions, Enters, SeeEntry, Prepend;
    if events == [] {
    } else if events[0].Flaw? {
      ScanEqual(d, d', fold, p, events[1..], seen);
    } else {
      var e := events[0].entry;
      if Enters(TableOf(d), e) {
        VisitEqual(d, d', fold, Inside(p, e));
      }
      ScanEqual(d, d', fold, p, events[1..], SeeEntry(fold, seen, e));
    }
  }

  /** The walk depends on the table and on the bytes from the root on, and on nothing else of the FATs. */
  lemma WalkEqual(d: Disk, d': Disk, fold: Fold, head: seq<Problem>)
    requires Mounted(d) && Mounted(d') && SameData(d, d') && TableOf(d') == TableOf(d)
    ensures WalkActions(d', fold) == WalkActions(d, fold)
    ensures Walked(d', fold, head) == Walked(d, fold, head)
  {
    hide Mounted, TableOf, SameData, Visit, Prepend, Chain, Replay, Events;
    SameLayout(d, d');
    forall first: nat, dir ensures Events(d', first, dir) == Events(d, first, dir) {
      EventsSame(d, d', first, dir);
    }
    VisitEqual(d, d', fold, TopPlace());
  }

  // The check, its report of the copies apart.

  /** What the kind of the volume adds to the head. */
  ghost function KindProblems(d: Disk): Result<seq<Problem>, Problem>
    requires Mounted(d)
  {
    if d.g.kind.Fat32? then Fat32Problems(d) else Ok([])
  }

  /** Everything the check reports but copies that differ. */
  ghost function RestOfCheck(d: Disk, fold: Fold): Result<seq<Problem>, Problem>
    requires Mounted(d)
  {
    var more :- KindProblems(d);
    var s :- Walked(d, fold, []);
    Ok(MediaProblems(d) + more + s.problems + LeakProblems(TableOf(d), s.owner))
  }

  lemma HeadSplit(d: Disk)
    requires Mounted(d)
    ensures |d.fats| == d.g.nfats
    ensures HeadProblems(d)
         == match KindProblems(d)
            case Err(problem) => Err(problem)
            case Ok(more) => Ok(CopyProblems(d.fats, d.g.nfats) + (MediaProblems(d) + more))
  {
    hide Mounted, Fat32Problems, MediaProblems, CopyProblems;
    CopiesCount(d);
    var copies, media := CopyProblems(d.fats, d.g.nfats), MediaProblems(d);
    if d.g.kind.Fat32? {
      if Fat32Problems(d).Ok? {
        assert copies + media + Fat32Problems(d).value == copies + (media + Fat32Problems(d).value);
      }
    } else {
      assert media + [] == media;
    }
  }

  lemma CopiesCount(d: Disk)
    requires Mounted(d)
    ensures |d.fats| == d.g.nfats
  {
    MountedAccepted(d);
  }

  lemma WalkedAfter(d: Disk, fold: Fold, head: seq<Problem>)
    requires Mounted(d)
    ensures Walked(d, fold, head)
         == match Walked(d, fold, []) case Err(problem) => Err(problem) case Ok(s) => Ok(After(head, s))
  {
    hide Mounted, TableOf, WalkActions, Replay;
    BytesPositive(d);
    assert After(head, Start([])) == Start(head);
    if WalkActions(d, fold).Ok? {
      ReplayAfter(TableOf(d), d.g.ClusterBytes(), head, Start([]), WalkActions(d, fold).value);
    }
  }

  /** The copies that differ are reported first, and decide nothing else. */
  lemma CheckSplit(d: Disk, fold: Fold)
    requires Mounted(d)
    ensures |d.fats| == d.g.nfats
    ensures Check(d, fold)
         == match RestOfCheck(d, fold)
            case Err(problem) => Err(problem)
            case Ok(rest) => Ok(CopyProblems(d.fats, d.g.nfats) + rest)
  {
    HeadSplit(d);
    hide Mounted, TableOf, Walked, HeadProblems, KindProblems, MediaProblems, CopyProblems, LeakProblems;
    if HeadProblems(d).Ok? {
      WalkedAfter(d, fold, HeadProblems(d).value);
      if Walked(d, fold, []).Ok? {
        var s := Walked(d, fold, []).value;
        Regroup(CopyProblems(d.fats, d.g.nfats), MediaProblems(d) + KindProblems(d).value, s.problems,
                LeakProblems(TableOf(d), s.owner));
      }
    }
  }

  lemma Regroup(a: seq<Problem>, b: seq<Problem>, c: seq<Problem>, e: seq<Problem>)
    ensures a + b + c + e == a + (b + c + e)
  {
  }

  lemma {:induction false} CopyReported(fats: seq<seq<byte>>, n: nat, k: nat)
    requires n <= |fats|
    ensures CopyDiffers(k + 1) in CopyProblems(fats, n) <==> 0 < k < n && fats[k] != fats[0]
  {
    if n <= 1 {
    } else {
      CopyReported(fats, n - 1, k);
    }
  }

  lemma {:induction false} CopiesSame(fats: seq<seq<byte>>, fats': seq<seq<byte>>, n: nat)
    requires n <= |fats| == |fats'|
    requires forall k :: 0 < k < |fats| ==> (fats'[k] == fats'[0] <==> fats[k] == fats[0])
    ensures CopyProblems(fats', n) == CopyProblems(fats, n)
  {
    if n <= 1 {
    } else {
      CopiesSame(fats, fats', n - 1);
    }
  }

  /** The same copies are like the first. */
  ghost predicate AlikeAsBefore(fats: seq<seq<byte>>, fats': seq<seq<byte>>)
    requires |fats'| == |fats|
  {
    forall k :: 0 < k < |fats| ==> (fats'[k] == fats'[0] <==> fats[k] == fats[0])
  }

  lemma CopiesDecide(fats: seq<seq<byte>>, fats': seq<seq<byte>>)
    requires |fats'| == |fats|
    ensures CopyProblems(fats', |fats|) == CopyProblems(fats, |fats|) <==> AlikeAsBefore(fats, fats')
  {
    hide CopyProblems;
    if AlikeAsBefore(fats, fats') {
      CopiesSame(fats, fats', |fats|);
    }
    if CopyProblems(fats', |fats|) == CopyProblems(fats, |fats|) {
      forall k | 0 < k < |fats| ensures fats'[k] == fats'[0] <==> fats[k] == fats[0] {
        CopyReported(fats, |fats|, k);
        CopyReported(fats', |fats|, k);
      }
    }
  }

  /** A volume with a clean one's table and walk: only what its own fields are reported for is reported. */
  lemma CleanButHead(d: Disk, d': Disk, fold: Fold, head: seq<Problem>)
    requires ChecksClean(d, fold) && Mounted(d') && TableOf(d') == TableOf(d)
    requires d'.g.spc == d.g.spc && WalkActions(d', fold) == WalkActions(d, fold)
    requires HeadProblems(d') == Ok(head)
    ensures Check(d', fold) == Ok(head)
  {
    hide Mounted, TableOf, HeadProblems, WalkActions, Held, AllSound, Replay, LeakProblems, UsedSet;
    var n := d.g.ClusterBytes();
    CleanExact(d, fold);
    BytesPositive(d);
    BytesPositive(d');
    var acts := WalkActions(d, fold).value;
    ReplayExact(TableOf(d), n, Start(head), acts);
    var s := Replay(TableOf(d), n, Start(head), acts);
    NoLeaks(TableOf(d), s.owner);
    assert s.problems + [] == s.problems;
  }

  // FAT32's reserved bits.

  /** `d'` differs from `d` in its FATs at most, and every entry of its first copy reads the same. So it is when
      reserved bits are changed. */
  ghost predicate SameReading(d: Disk, d': Disk) {
    && Mounted(d) && Mounted(d') && SameData(d, d')
    && (d.g.kind.Fat32? ==> Sectors(d'.img, d.base, d.g.fsinfo, 1) == Sectors(d.img, d.base, d.g.fsinfo, 1))
    && d.base + SECTOR <= |d.img| && d'.img[d.base + 21] == d.img[d.base + 21]
    && (forall c :: 0 <= c <= d.g.MaxCluster() ==> FatOf(d', c) == FatOf(d, c))
    && |d.fats| == |d'.fats|
  }

  lemma SameReadingTable(d: Disk, d': Disk)
    requires SameReading(d, d')
    ensures TableOf(d') == TableOf(d)
  {
    hide Mounted, FatOf, SameData, Sectors;
    SameLayout(d, d');
    assert TableOf(d').next == TableOf(d).next;
  }

  lemma SameReadingMedia(d: Disk, d': Disk)
    requires SameReading(d, d')
    ensures MediaProblems(d') == MediaProblems(d)
  {
    hide Mounted, FatOf, TableOf, SameData, Sectors, MediaProblems;
    SameLayout(d, d');
    SameDataSize(d, d');
    MediaSame(d, d');
  }

  lemma SameReadingFat32(d: Disk, d': Disk)
    requires SameReading(d, d') && d.g.kind.Fat32?
    ensures Fat32Problems(d') == Fat32Problems(d)
  {
    SameReadingTable(d, d');
    hide Mounted, FatOf, TableOf, SameData, Sectors, Fat32Problems;
    SameLayout(d, d');
    Fat32ProblemsSame(d, d');
  }

  lemma SameReadingRest(d: Disk, d': Disk, fold: Fold)
    requires SameReading(d, d')
    ensures TableOf(d') == TableOf(d) && Walked(d', fold, []) == Walked(d, fold, [])
    ensures RestOfCheck(d', fold) == RestOfCheck(d, fold)
  {
    SameReadingTable(d, d');
    SameReadingMedia(d, d');
    ReadingData(d, d');
    SameLayout(d, d');
    if d.g.kind.Fat32? {
      SameReadingFat32(d, d');
    }
    hide SameReading, Mounted, TableOf, SameData, Walked, LeakProblems, MediaProblems, Fat32Problems;
    WalkEqual(d, d', fold, []);
  }

  lemma ReadingData(d: Disk, d': Disk)
    requires SameReading(d, d')
    ensures SameData(d, d') && Mounted(d) && Mounted(d') && |d'.fats| == |d.fats|
  {
  }

  /** The reserved bits are invisible but for one thing. Two volumes whose entries read the same have the same
      chains, the same walk and the same free clusters; and their checks answer the same, problem for problem, if
      and only if the same copies are like the first, or the check answers no problems but fails. The check
      compares copies whole, with their reserved bits. */
  lemma ReservedBitsInvisible(d: Disk, d': Disk, fold: Fold)
    requires SameReading(d, d')
    ensures |d'.fats| == |d.fats|
    ensures TableOf(d') == TableOf(d) && FreeCount(TableOf(d')) == FreeCount(TableOf(d))
    ensures Walked(d', fold, []) == Walked(d, fold, [])
    ensures Check(d', fold) == Check(d, fold) <==> Check(d, fold).Err? || AlikeAsBefore(d.fats, d'.fats)
  {
    SameReadingRest(d, d', fold);
    ReadingData(d, d');
    SameLayout(d, d');
    hide SameReading, Mounted, TableOf, RestOfCheck, SameData, Walked, Check, CopyProblems, AlikeAsBefore, FreeCount;
    CheckSplit(d, fold);
    CheckSplit(d', fold);
    CopiesDecide(d.fats, d'.fats);
    if RestOfCheck(d, fold).Ok? {
      SameBefore(CopyProblems(d.fats, d.g.nfats), CopyProblems(d'.fats, d.g.nfats), RestOfCheck(d, fold).value);
    }
  }

  lemma SameBefore(a: seq<Problem>, b: seq<Problem>, rest: seq<Problem>)
    ensures a + rest == b + rest <==> a == b
  {
    if a + rest == b + rest {
      assert |a| == |b| && a == (a + rest)[..|a|] == (b + rest)[..|b|] == b;
    }
  }

  /** The volume after `fat_set` on each of some entries in turn. */
  function RewrittenAll(d: Disk, edits: seq<(nat, nat)>): Disk {
    if edits == [] then d
    else
      var (c, value) := edits[|edits| - 1];
      Rewritten(RewrittenAll(d, edits[..|edits| - 1]), c, value)
  }

  /** Each edit writes what the entry reads as, with whatever reserved bits. */
  ghost predicate ReservedEdits(d: Disk, edits: seq<(nat, nat)>)
    requires Mounted(d)
  {
    forall i :: 0 <= i < |edits| ==>
      edits[i].0 <= d.g.MaxCluster() && Packable(d.g, edits[i].1) && Read(d.g, edits[i].1) == FatOf(d, edits[i].0)
  }

  /** What edits of reserved bits keep: all but the FATs, what every entry reads as, and copies that were alike. */
  ghost predicate KeptAll(d: Disk, d': Disk) {
    && Mounted(d) && Mounted(d') && SameData(d, d') && SameOutside(d.img, d'.img, d.base, d.g)
    && TableOf(d') == TableOf(d) && |d'.fats| == |d.fats|
    && forall k :: 0 < k < |d.fats| && d.fats[k] == d.fats[0] ==> d'.fats[k] == d'.fats[0]
  }

  lemma KeptNone(d: Disk)
    requires Mounted(d)
    ensures KeptAll(d, d)
  {
    hide Mounted;
  }

  lemma KeptTrans(a: Disk, b: Disk, c: Disk)
    requires KeptAll(a, b) && KeptAll(b, c)
    ensures KeptAll(a, c)
  {
    hide Mounted, TableOf, SameOutside, SameData;
    SameDataTrans(a, b, c);
    SameLayout(a, b);
    SameOutsideTrans(a.img, b.img, c.img, a.base, a.g);
  }

  lemma SameOutsideTrans(a: seq<byte>, b: seq<byte>, c: seq<byte>, base: nat, g: Geometry)
    requires SameOutside(a, b, base, g) && SameOutside(b, c, base, g)
    ensures SameOutside(a, c, base, g)
  {
    hide Geometry.RootStart;
  }

  /** One edit. */
  lemma KeptOne(d: Disk, c: nat, value: nat)
    requires Mounted(d) && c <= d.g.MaxCluster() && 1 <= d.g.reserved && Packable(d.g, value)
    requires Read(d.g, value) == FatOf(d, c)
    ensures KeptAll(d, Rewritten(d, c, value))
  {
    RewrittenTable(d, c, value);
    RewrittenMounts(d, c, value);
    CopiesStay(d, c, value);
    var t := TableOf(d);
    assert t.next[c] == FatOf(d, c);
    assert t.next[c := Read(d.g, value)] == t.next;
    hide Mounted, FatOf, SameData, Rewritten, SameOutside;
  }

  lemma {:induction false} EditsKeep(d: Disk, edits: seq<(nat, nat)>)
    requires Mounted(d) && ReservedEdits(d, edits) && 1 <= d.g.reserved
    ensures KeptAll(d, RewrittenAll(d, edits))
    decreases |edits|
  {
    hide Mounted, TableOf, FatOf, Rewritten, KeptAll;
    if edits == [] {
      KeptNone(d);
    } else {
      var before := edits[..|edits| - 1];
      var (c, value) := edits[|edits| - 1];
      EditsKeep(d, before);
      var d' := RewrittenAll(d, before);
      KeptReads(d, d', c);
      KeptOne(d', c, value);
      KeptTrans(d, d', Rewritten(d', c, value));
    }
  }

  lemma KeptReads(d: Disk, d': Disk, c: nat)
    requires KeptAll(d, d') && c <= d.g.MaxCluster()
    ensures Mounted(d') && d'.g == d.g && FatOf(d', c) == FatOf(d, c)
  {
    hide Mounted, FatOf, SameData, TableOf, SameOutside;
    SameLayout(d, d');
    OneReads(d, d', c);
  }

  lemma KeptIsSame(d: Disk, d': Disk)
    requires KeptAll(d, d') && 1 <= d.g.reserved && (d.g.kind.Fat32? ==> d.g.fsinfo < d.g.reserved)
    ensures SameReading(d, d')
  {
    MountedAccepted(d);
    hide Mounted, FatOf, SameData, SameOutside, Sectors, Accepted, TableOf;
    ReservedInside(d);
    SameByteBefore(d.img, d'.img, d.base, d.g);
    if d.g.kind.Fat32? {
      SameSectorsBefore(d.img, d'.img, d.base, d.g, d.g.fsinfo);
    }
    forall c: nat | c <= d.g.MaxCluster() ensures d'.g == d.g && FatOf(d', c) == FatOf(d, c) {
      KeptReads(d, d', c);
    }
    SameLayout(d, d');
  }

  ghost predicate CopiesAlike(d: Disk) {
    forall k :: 0 < k < |d.fats| ==> d.fats[k] == d.fats[0]
  }

  /** The reserved bits of any entries, in any number, set in every copy: every entry reads as it did, the walk and
      the free count are as they were, and so is the check's answer, problem for problem, if and only if no copy
      became like the first that was not, or the check fails. Where the copies were alike they stay alike. */
  lemma ReservedBitsOfAll(d: Disk, edits: seq<(nat, nat)>, fold: Fold)
    requires Mounted(d) && ReservedEdits(d, edits) && 1 <= d.g.reserved
    requires d.g.kind.Fat32? ==> d.g.fsinfo < d.g.reserved
    ensures var d' := RewrittenAll(d, edits);
      && Mounted(d') && d'.g == d.g && TableOf(d') == TableOf(d) && FreeCount(TableOf(d')) == FreeCount(TableOf(d))
      && Walked(d', fold, []) == Walked(d, fold, []) && |d'.fats| == |d.fats|
      && (Check(d', fold) == Check(d, fold) <==> Check(d, fold).Err? || AlikeAsBefore(d.fats, d'.fats))
      && (CopiesAlike(d) ==> AlikeAsBefore(d.fats, d'.fats))
  {
    var d' := RewrittenAll(d, edits);
    EditsKeep(d, edits);
    AlikeKept(d, d');
    KeptIsSame(d, d');
    KeptMounts(d, d');
    hide Mounted, TableOf, Walked, Check, RewrittenAll, KeptAll, ReservedEdits, SameReading, FreeCount, AlikeAsBefore;
    ReservedBitsInvisible(d, d', fold);
  }

  lemma KeptMounts(d: Disk, d': Disk)
    requires KeptAll(d, d')
    ensures Mounted(d) && Mounted(d') && d'.g == d.g && |d'.fats| == |d.fats|
  {
    hide Mounted, TableOf;
  }

  lemma AlikeKept(d: Disk, d': Disk)
    requires KeptAll(d, d')
    ensures |d'.fats| == |d.fats| && (CopiesAlike(d) ==> AlikeAsBefore(d.fats, d'.fats))
  {
    hide Mounted, TableOf, SameData, SameOutside;
  }

  /** The same of one entry. */
  lemma ReservedBitsSet(d: Disk, c: nat, value: nat, fold: Fold)
    requires Mounted(d) && c <= d.g.MaxCluster() && 1 <= d.g.reserved && Packable(d.g, value)
    requires d.g.kind.Fat32? ==> d.g.fsinfo < d.g.reserved
    requires Read(d.g, value) == FatOf(d, c)
    ensures var d' := Rewritten(d, c, value);
      && Mounted(d') && TableOf(d') == TableOf(d) && Walked(d', fold, []) == Walked(d, fold, [])
      && |d'.fats| == |d.fats|
      && (Check(d', fold) == Check(d, fold) <==> Check(d, fold).Err? || AlikeAsBefore(d.fats, d'.fats))
      && (CopiesAlike(d) ==> AlikeAsBefore(d.fats, d'.fats))
  {
    hide Mounted, TableOf, FatOf, Walked, Check, Rewritten, AlikeAsBefore, CopiesAlike, FreeCount;
    var edits := [(c, value)];
    assert edits[..0] == [] && RewrittenAll(d, []) == d;
    assert RewrittenAll(d, edits) == Rewritten(d, c, value);
    ReservedBitsOfAll(d, edits, fold);
  }

  lemma SameSectorsBefore(img: seq<byte>, img': seq<byte>, base: nat, g: Geometry, s: nat)
    requires SameOutside(img, img', base, g) && s < g.reserved && base + g.reserved * SECTOR <= |img|
    ensures Sectors(img', base, s, 1) == Sectors(img, base, s, 1)
  {
    hide Geometry.RootStart;
    var at := base + s * SECTOR;
    assert img'[at..at + SECTOR] == img[at..at + SECTOR];
  }

  lemma SameByteBefore(img: seq<byte>, img': seq<byte>, base: nat, g: Geometry)
    requires SameOutside(img, img', base, g) && 1 <= g.reserved && base + g.reserved * SECTOR <= |img|
    ensures img'[base + 21] == img[base + 21]
  {
    assert img'[base + 21..base + 22] == img[base + 21..base + 22];
    assert img'[base + 21] == img'[base + 21..base + 22][0] && img[base + 21] == img[base + 21..base + 22][0];
  }

  lemma FieldsStay(d: Disk, d': Disk)
    requires Mounted(d) && Mounted(d') && TableOf(d') == TableOf(d) && SameData(d, d')
        && SameOutside(d.img, d'.img, d.base, d.g)
    requires 1 <= d.g.reserved && (d.g.kind.Fat32? ==> d.g.fsinfo < d.g.reserved)
    ensures MediaProblems(d') == MediaProblems(d)
    ensures d.g.kind.Fat32? ==> Fat32Problems(d') == Fat32Problems(d)
  {
    hide Mounted, FatOf, SameData, SameOutside, Sectors, Fat32Problems, MediaProblems;
    ReservedInside(d);
    SameLayout(d, d');
    SameDataSize(d, d');
    assert TableOf(d').next[0] == TableOf(d).next[0];
    SameByteBefore(d.img, d'.img, d.base, d.g);
    MediaSame(d, d');
    if d.g.kind.Fat32? {
      SameSectorsBefore(d.img, d'.img, d.base, d.g, d.g.fsinfo);
      Fat32ProblemsSame(d, d');
    }
  }

  lemma CopiesStay(d: Disk, c: nat, value: nat)
    ensures |Rewritten(d, c, value).fats| == |d.fats|
    ensures var fats := Rewritten(d, c, value).fats;
      forall k :: 0 < k < |d.fats| && d.fats[k] == d.fats[0] ==> fats[k] == fats[0]
  {
    hide Splice, Pack, SetCopies;
  }

  // One copy alone.

  /** The volume after `fat_set` on copy `k` alone. */
  function OneCopy(d: Disk, k: nat, c: nat, value: nat): Disk
    requires k < |d.fats|
  {
    d.(img := SetCopy(d.img, d.base, d.g, k, c, value),
       fats := d.fats[k := Splice(d.fats[k], c * d.g.EntryBytes(), Pack(value, d.g.EntryBytes()))])
  }

  /** The bytes of copy `k` are not already what is written. */
  predicate Alters(d: Disk, k: nat, c: nat, value: nat) {
    1 <= k < |d.fats| && OneCopy(d, k, c, value).fats[k] != d.fats[k]
  }

  lemma OneCopyMounts(d: Disk, k: nat, c: nat, value: nat)
    requires Mounted(d) && 1 <= k < d.g.nfats && k < |d.fats| && c <= d.g.MaxCluster() && 1 <= d.g.reserved
    ensures var d' := OneCopy(d, k, c, value);
      Mounted(d') && SameData(d, d') && SameOutside(d.img, d'.img, d.base, d.g) && TableOf(d') == TableOf(d)
  {
    hide Mounted, Layout, SetCopy, Accepted, Pack, Splice, SameOutside, Sectors, CopyBytes, FatsInside, TableOf,
         SameData, FatOf;
    var d' := OneCopy(d, k, c, value);
    MountedInside(d);
    FatCount(d);
    BootOf(d);
    ReservedInside(d);
    SetCopyOutside(d.img, d.base, d.g, k, c, value);
    OneCopySectors(d, k, c, value);
    OneCopyBoot(d, k, c, value);
    OpensAs(d'.img, d'.base, d'.g, d'.fats);
    OneCopyData(d, d');
    FirstCopyDecides(d, d');
  }

  lemma FirstCopyDecides(d: Disk, d': Disk)
    requires Mounted(d) && Mounted(d') && d'.g == d.g && 0 < |d.fats| && 0 < |d'.fats| && d'.fats[0] == d.fats[0]
    ensures TableOf(d') == TableOf(d)
  {
    forall c: nat | c <= d.g.MaxCluster() ensures FatOf(d', c) == FatOf(d, c) {
    }
    assert TableOf(d').next == TableOf(d).next;
  }

  lemma OneCopyData(d: Disk, d': Disk)
    requires d'.g == d.g && d'.base == d.base && SameOutside(d.img, d'.img, d.base, d.g)
    ensures SameData(d, d')
  {
    hide Sectors, Geometry.RootStart;
    assert SameFrom(d.img, d'.img, d.base + d.g.RootStart() * SECTOR);
    forall lba: nat, n: nat | d.g.RootStart() <= lba
      ensures Sectors(d'.img, d.base, lba, n) == Sectors(d.img, d.base, lba, n)
    {
      SameSectors(d.img, d'.img, d.base, d.g.RootStart(), lba, n);
    }
  }

  lemma OneCopySectors(d: Disk, k: nat, c: nat, value: nat)
    requires Mounted(d) && k < d.g.nfats && k < |d.fats| && c <= d.g.MaxCluster()
    ensures var d' := OneCopy(d, k, c, value);
      && |d'.img| == |d.img| && |d'.fats| == d.g.nfats
      && forall m :: 0 <= m < d.g.nfats ==> Sectors(d'.img, d.base, d.g.CopyLba(m), d.g.fatSectors) == Ok(d'.fats[m])
  {
    MountedInside(d);
    var d' := OneCopy(d, k, c, value);
    SetCopyEffect(d.img, d.base, d.g, k, c, value, k);
    hide Mounted, SetCopy, Accepted, Pack, Splice, Sectors;
    forall m | 0 <= m < d.g.nfats
      ensures Sectors(d'.img, d.base, d.g.CopyLba(m), d.g.fatSectors) == Ok(d'.fats[m])
    {
      SetCopyEffect(d.img, d.base, d.g, k, c, value, m);
      CopySectors(d'.img, d.base, d.g, m);
    }
  }

  lemma OneCopyBoot(d: Disk, k: nat, c: nat, value: nat)
    requires Mounted(d) && k < d.g.nfats && k < |d.fats| && c <= d.g.MaxCluster() && 1 <= d.g.reserved
    ensures var img := OneCopy(d, k, c, value).img;
      && |img| == |d.img| && d.base + SECTOR <= |img|
      && img[d.base..d.base + SECTOR] == d.img[d.base..d.base + SECTOR]
      && img[d.base + 510] == d.img[d.base + 510] && img[d.base + 511] == d.img[d.base + 511]
  {
    MountedInside(d);
    ReservedInside(d);
    SetCopyOutside(d.img, d.base, d.g, k, c, value);
    hide Mounted, SetCopy, Accepted;
    var img := OneCopy(d, k, c, value).img;
    assert img[d.base..d.base + SECTOR] == d.img[d.base..d.base + SECTOR];
    assert img[d.base + 510] == img[d.base..d.base + SECTOR][510]
        && img[d.base + 511] == img[d.base..d.base + SECTOR][511];
  }

  lemma {:induction false} OneDiffers(fats: seq<seq<byte>>, k: nat, n: nat)
    requires k < n <= |fats| && 0 < k && fats[k] != fats[0]
    requires forall m :: 0 < m < n && m != k ==> fats[m] == fats[0]
    ensures CopyProblems(fats, n) == [CopyDiffers(k + 1)]
  {
    if n == k + 1 {
      CopiesEqual(fats, k);
    } else {
      OneDiffers(fats, k, n - 1);
    }
  }

  lemma OneCopyDiffers(d: Disk, k: nat, c: nat, value: nat)
    requires Alters(d, k, c, value) && CopyProblems(d.fats, |d.fats|) == []
    ensures var fats := OneCopy(d, k, c, value).fats;
      |fats| == |d.fats| && CopyProblems(fats, |d.fats|) == [CopyDiffers(k + 1)]
  {
    hide SetCopy, Splice, Pack, CopyProblems;
    CopiesEqual(d.fats, |d.fats|);
    OneDiffers(OneCopy(d, k, c, value).fats, k, |d.fats|);
  }

  lemma HeadDiffers(d: Disk, d': Disk, copy: nat)
    requires Mounted(d) && Mounted(d') && d'.g == d.g && |d'.fats| == |d.fats| && HeadProblems(d) == Ok([])
    requires CopyProblems(d.fats, |d.fats|) == [] ==> CopyProblems(d'.fats, |d.fats|) == [CopyDiffers(copy)]
    requires MediaProblems(d') == MediaProblems(d) && (d.g.kind.Fat32? ==> Fat32Problems(d') == Fat32Problems(d))
    ensures HeadProblems(d') == Ok([CopyDiffers(copy)])
  {
    MountedAccepted(d);
    hide Mounted, Fat32Problems, MediaProblems, CopyProblems;
    var copies := CopyProblems(d.fats, |d.fats|);
    assert copies == [] && MediaProblems(d) == [];
    assert [CopyDiffers(copy)] + [] == [CopyDiffers(copy)];
  }

  lemma OneCopyHead(d: Disk, k: nat, c: nat, value: nat)
    requires Mounted(d) && Alters(d, k, c, value) && c <= d.g.MaxCluster() && 1 <= d.g.reserved
    requires d.g.kind.Fat32? ==> d.g.fsinfo < d.g.reserved
    requires HeadProblems(d) == Ok([])
    ensures Mounted(OneCopy(d, k, c, value)) && HeadProblems(OneCopy(d, k, c, value)) == Ok([CopyDiffers(k + 1)])
  {
    hide Mounted, SameData, SameOutside, Fat32Problems, HeadProblems, OneCopy, Alters, CopyProblems, MediaProblems,
         TableOf;
    FatCount(d);
    AltersOne(d, k, c, value);
    OneCopyMounts(d, k, c, value);
    var d' := OneCopy(d, k, c, value);
    SameLayout(d, d');
    if CopyProblems(d.fats, |d.fats|) == [] {
      OneCopyDiffers(d, k, c, value);
    }
    OneCopySize(d, k, c, value);
    FieldsStay(d, d');
    HeadDiffers(d, d', k + 1);
  }

  lemma OneCopySize(d: Disk, k: nat, c: nat, value: nat)
    requires k < |d.fats|
    ensures |OneCopy(d, k, c, value).fats| == |d.fats|
  {
  }

  /** A change to one copy that is not the first is one problem and no other: that copy differs. */
  lemma CopyFound(d: Disk, fold: Fold, k: nat, c: nat, value: nat)
    requires ChecksClean(d, fold) && Alters(d, k, c, value) && c <= d.g.MaxCluster() && 1 <= d.g.reserved
    requires d.g.kind.Fat32? ==> d.g.fsinfo < d.g.reserved
    ensures Mounted(OneCopy(d, k, c, value))
    ensures Check(OneCopy(d, k, c, value), fold) == Ok([CopyDiffers(k + 1)])
  {
    hide Mounted, TableOf, FatOf, SameData, SameOutside, HeadProblems, OneCopy, Alters, WalkActions, Check, Walked;
    MountedAccepted(d);
    AltersOne(d, k, c, value);
    CleanHead(d, fold);
    OneCopyMounts(d, k, c, value);
    OneCopyHead(d, k, c, value);
    var d' := OneCopy(d, k, c, value);
    SameLayout(d, d');
    WalkEqual(d, d', fold, []);
    CleanButHead(d, d', fold, [CopyDiffers(k + 1)]);
  }

  lemma AltersOne(d: Disk, k: nat, c: nat, value: nat)
    requires Alters(d, k, c, value)
    ensures 1 <= k < |d.fats|
  {
  }

  /** Where the check does see reserved bits: a copy whose entry differs from the first's in these alone is
      reported; and setting them in every copy makes that report vanish, though no entry reads otherwise. */
  lemma ReservedBitsSeen(d: Disk, fold: Fold, c: nat, value: nat)
    requires ChecksClean(d, fold) && |d.fats| == 2 && Alters(d, 1, c, value) && c <= d.g.MaxCluster()
    requires 1 <= d.g.reserved && (d.g.kind.Fat32? ==> d.g.fsinfo < d.g.reserved)
    requires Packable(d.g, value) && Read(d.g, value) == FatOf(d, c)
    ensures var one := OneCopy(d, 1, c, value);
      var both := Rewritten(one, c, value);
      && Mounted(one) && Mounted(both) && TableOf(both) == TableOf(one)
      && Check(one, fold) == Ok([CopyDiffers(2)]) && Check(both, fold) == Ok([])
  {
    hide Mounted, TableOf, FatOf, Check, Rewritten, OneCopy, Alters, SameData, SameOutside, RestOfCheck, CopyProblems,
         KeptAll, SameReading, HeadProblems, AlikeAsBefore;
    var one, both := OneCopy(d, 1, c, value), Rewritten(OneCopy(d, 1, c, value), c, value);
    CopiesCount(d);
    CleanHead(d, fold);
    CopyFound(d, fold, 1, c, value);
    OneCopyMounts(d, 1, c, value);
    SameLayout(d, one);
    OneReads(d, one, c);
    KeptOne(one, c, value);
    KeptIsSame(one, both);
    KeptMounts(one, both);
    SameReadingRest(one, both, fold);
    BothAlike(d, c, value);
    CheckSplit(one, fold);
    CheckSplit(both, fold);
    OneReport(one.fats);
    CopiesEqual(both.fats, |both.fats|);
    assert [CopyDiffers(2)] + RestOfCheck(one, fold).value == [CopyDiffers(2)];
    assert [] + RestOfCheck(one, fold).value == [];
  }

  lemma OneReads(d: Disk, d': Disk, c: nat)
    requires Mounted(d) && Mounted(d') && d'.g == d.g && TableOf(d') == TableOf(d) && c <= d.g.MaxCluster()
    ensures FatOf(d', c) == FatOf(d, c)
  {
    hide Mounted, FatOf;
    assert FatOf(d', c) == TableOf(d').next[c] && FatOf(d, c) == TableOf(d).next[c];
  }

  lemma OneReport(fats: seq<seq<byte>>)
    requires |fats| == 2 && fats[1] != fats[0]
    ensures CopyProblems(fats, 2) == [CopyDiffers(2)]
  {
    assert CopyProblems(fats, 1) == [];
  }

  lemma BothAlike(d: Disk, c: nat, value: nat)
    requires Mounted(d) && HeadProblems(d) == Ok([]) && |d.fats| == 2 && Alters(d, 1, c, value) && c <= d.g.MaxCluster()
    ensures var one := OneCopy(d, 1, c, value);
      var both := Rewritten(one, c, value);
      && |one.fats| == 2 && one.fats[1] != one.fats[0] && |both.fats| == 2 && both.fats[1] == both.fats[0]
  {
    hide Mounted, HeadProblems, CopyProblems, MediaProblems, Fat32Problems, Splice, Pack, SetCopies, SetCopy;
    HeadClean(d);
    CopiesEqual(d.fats, d.g.nfats);
    EntryFits(d, c);
    SpliceTwice(d.fats[0], c * d.g.EntryBytes(), Pack(value, d.g.EntryBytes()));
  }

  lemma EntryFits(d: Disk, c: nat)
    requires Mounted(d) && c <= d.g.MaxCluster()
    ensures 0 < |d.fats| && c * d.g.EntryBytes() + d.g.EntryBytes() <= |d.fats[0]|
  {
    hide Mounted, Accepted;
    MountedAccepted(d);
    EntryInside(d.g, 0, c);
  }
}
