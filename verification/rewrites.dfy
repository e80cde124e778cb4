/** Volumes with one FAT entry changed: which chains, problems and counts stay as they were. */
module Rewrites {
  import opened Chains
  import opened Geometries
  import opened Checks
  import opened Heads
  import opened SameWalks

  /** `t` with the entry of `c` changed. */
  function Changed(t: Table, c: nat, value: nat): Table
    requires c < |t.next|
  {
    t.(next := t.next[c := value])
  }

  lemma ChangedLength(t: Table, c: nat, value: nat)
    requires c < |t.next|
    ensures |Changed(t, c, value).next| == |t.next|
  {
  }

  lemma PathElsewhere(t: Table, c: nat, value: nat, first: nat, s: seq<nat>)
    requires c < |t.next| && IsChain(t, first, s) && c !in s
    ensures IsChain(Changed(t, c, value), first, s)
  {
    var t' := Changed(t, c, value);
    forall i | 0 < i < |s| ensures t'.Links(s[i - 1], s[i]) {
      assert t.Links(s[i - 1], s[i]);
      assert s[i - 1] in s;
    }
    assert s[|s| - 1] in s;
  }

  /** A chain that does not hold the changed cluster is the same chain. */
  lemma ChainElsewhere(t: Table, c: nat, value: nat, first: nat)
    requires c < |t.next| && Chain(t, first).Ok? && c !in Chain(t, first).value
    ensures SameChain(t, Changed(t, c, value), first)
  {
    var s := Chain(t, first).value;
    ChainExact(t, first, s);
    PathElsewhere(t, c, value, first, s);
    ChainExact(Changed(t, c, value), first, s);
  }

  /** What a FAT32 volume's fields and FSInfo say does not depend on the FATs, but for the free count. */
  lemma Fat32ProblemsSame(d: Disk, d': Disk)
    requires Mounted(d) && Mounted(d') && d'.g == d.g && FreeCount(TableOf(d')) == FreeCount(TableOf(d))
    requires Sectors(d'.img, d'.base, d.g.fsinfo, 1) == Sectors(d.img, d.base, d.g.fsinfo, 1)
    ensures Fat32Problems(d') == Fat32Problems(d)
  {
    hide Mounted, TableOf, FreeCount, Sectors, FieldProblems, FsInfoProblems;
  }

  lemma MediaSame(d: Disk, d': Disk)
    requires Mounted(d) && Mounted(d') && d'.base == d.base && FatOf(d', 0) == FatOf(d, 0)
    requires d.base + 21 < |d.img| && d.base + 21 < |d'.img| && d'.img[d.base + 21] == d.img[d.base + 21]
    ensures MediaProblems(d') == MediaProblems(d)
  {
    hide Mounted, FatOf;
  }

  /** A change made alike in every copy leaves the copies alike, and the media byte where it was. */
  lemma WholeSame(d: Disk, d': Disk)
    requires Mounted(d) && Mounted(d') && |d.fats| == |d'.fats|
    requires forall k :: 0 < k < |d.fats| && d.fats[k] == d.fats[0] ==> d'.fats[k] == d'.fats[0]
    requires MediaProblems(d') == MediaProblems(d)
    requires CopyProblems(d.fats, |d.fats|) + MediaProblems(d) == []
    ensures CopyProblems(d'.fats, |d.fats|) + MediaProblems(d') == []
  {
    hide Mounted, MediaProblems, CopyProblems;
    CopiesEqual(d.fats, |d.fats|);
    CopiesEqual(d'.fats, |d.fats|);
    var copies := CopyProblems(d.fats, |d.fats|);
    assert copies == [];
  }
}
