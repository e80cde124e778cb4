/** What the check of a clean volume reports once one entry of one file's chain is damaged, in every FAT copy. */
module DamageFound {
  import opened Results
  import opened Bytes
  import opened Report
  import opened Seqs
  import opened Chains
  import opened Geometries
  import opened Directories
  import opened Walks
  import opened Ownership
  import opened Checks
  import opened SameWalks
  import opened FatWrites
  import opened Rewrites
  import opened Partition
  import opened Damages

  // A clean volume's claims.

  lemma {:induction false} ClaimListed(acts: seq<Action>, i: nat)
    requires i < |acts| && acts[i].Claim?
    ensures acts[i] in Claims(acts)
    decreases |acts|
  {
    if i == 0 {
    } else {
      ClaimListed(acts[1..], i - 1);
    }
  }

  /** What a clean volume's listing is: `out` listed, by actions that are sound and claim each used cluster once. */
  ghost predicate CleanListing(d: Disk, fold: Fold, out: seq<Item>, acts: seq<Action>) {
    && Mounted(d) && 0 < d.g.ClusterBytes() && WalkActions(d, fold) == Ok(acts) && Listed(acts) == out
    && AllSound(TableOf(d), d.g.ClusterBytes(), acts) && NoNotes(acts) && Claims(acts) == WalkClaims(d.g, out)
    && AllFit(TableOf(d), d.g.ClusterBytes(), out)
    && AllSound(TableOf(d), d.g.ClusterBytes(), WalkClaims(d.g, out))
    && NoDup(Held(TableOf(d), WalkClaims(d.g, out)))
    && Elems(Held(TableOf(d), WalkClaims(d.g, out))) == UsedSet(TableOf(d))
  }

  lemma CleanVolume(d: Disk, fold: Fold) returns (out: seq<Item>, acts: seq<Action>)
    requires ChecksClean(d, fold)
    ensures CleanListing(d, fold, out, acts) && Walked(d, fold, []).Ok? && out == Walked(d, fold, []).value.out
  {
    hide Mounted, TableOf, HeadProblems, WalkActions, Replay, Held, AllSound, AllFit, UsedSet, Claims, WalkClaims,
         NoNotes;
    CleanExact(d, fold);
    BytesPositive(d);
    acts := WalkActions(d, fold).value;
    out := Listed(acts);
    WalkMatched(d, fold);
    ClaimsSound(TableOf(d), d.g.ClusterBytes(), acts);
    HeldByClaims(TableOf(d), acts);
    ReplayExact(TableOf(d), d.g.ClusterBytes(), Start([]), acts);
    assert Start([]).out + Listed(acts) == Listed(acts);
  }

  predicate IsFile(item: Item) {
    !item.isDir && item.size > 0
  }

  function FileClaim(item: Item): Action {
    Claim(item.path, item.first, Some(item.size))
  }

  /** The claims before the item `x` of the listing, and after it. */
  function ClaimsBefore(g: Geometry, out: seq<Item>, x: nat): seq<Action>
    requires x <= |out|
  {
    WalkClaims(g, out[..x])
  }

  function ClaimsAfter(out: seq<Item>, x: nat): seq<Action>
    requires x < |out|
  {
    ItemClaims(out[x + 1..])
  }

  lemma ClaimsSplit(g: Geometry, out: seq<Item>, x: nat)
    requires x < |out| && IsFile(out[x])
    ensures WalkClaims(g, out) == ClaimsBefore(g, out, x) + [FileClaim(out[x])] + ClaimsAfter(out, x)
  {
    hide ItemClaims;
    assert out == out[..x] + ([out[x]] + out[x + 1..]);
    ItemClaimsAppend(out[..x], [out[x]] + out[x + 1..]);
    ItemClaimsAppend([out[x]], out[x + 1..]);
    OneItem(out[x]);
    var root := if g.kind.Fat32? then [Claim(ROOT, g.rootCluster, None)] else [];
    assert root + (ItemClaims(out[..x]) + ([FileClaim(out[x])] + ClaimsAfter(out, x)))
        == (root + ItemClaims(out[..x])) + [FileClaim(out[x])] + ClaimsAfter(out, x);
  }

  lemma OneItem(item: Item)
    requires IsFile(item)
    ensures ItemClaims([item]) == [FileClaim(item)]
  {
    assert [item][1..] == [];
  }

  /** Sound claims that do not hold the changed cluster stay as they are. */
  lemma {:induction false} KeepClaims(t: Table, clusterBytes: nat, acts: seq<Action>, c: nat, value: nat)
    requires 0 < clusterBytes && AllSound(t, clusterBytes, acts) && c !in Held(t, acts) && c < |t.next|
    ensures var t' := Changed(t, c, value);
      && AllSound(t', clusterBytes, acts) && Held(t', acts) == Held(t, acts)
      && forall a :: a in acts && a.Claim? ==> SameChain(t, t', a.start)
    decreases |acts|
  {
    hide Chain, Changed;
    if acts == [] {
    } else {
      assert forall i :: 0 <= i < |acts[1..]| ==> acts[1..][i] == acts[i + 1];
      KeepClaims(t, clusterBytes, acts[1..], c, value);
      assert Sound(t, clusterBytes, acts[0]);
      if acts[0].Claim? {
        ChainElsewhere(t, c, value, acts[0].start);
      }
      forall i | 0 <= i < |acts| ensures Sound(Changed(t, c, value), clusterBytes, acts[i]) {
        if i > 0 {
          assert Sound(Changed(t, c, value), clusterBytes, acts[1..][i - 1]);
        }
      }
    }
  }

  /** One file of a clean volume, with its chain. */
  ghost predicate FileOf(d: Disk, fold: Fold, out: seq<Item>, x: nat, p: seq<nat>) {
    && ChecksClean(d, fold) && Walked(d, fold, []).Ok? && out == Walked(d, fold, []).value.out
    && x < |out| && IsFile(out[x]) && ChainOf(d, out[x].first) == Ok(p)
  }

  /** A value that is written as it is read. */
  predicate Plain(g: Geometry, value: nat) {
    Packable(g, value) && Read(g, value) == value
  }

  lemma HeldThree(t: Table, pre: seq<Action>, a: Action, post: seq<Action>)
    requires a.Claim? && Chain(t, a.start).Ok?
    ensures Held(t, pre + [a] + post) == Held(t, pre) + Chain(t, a.start).value + Held(t, post)
  {
    hide Chain;
    HeldAppend(t, pre + [a], post);
    HeldAppend(t, pre, [a]);
    assert Held(t, [a]) == HeldBy(t, a) + Held(t, []);
  }

  lemma FileFits(d: Disk, fold: Fold, out: seq<Item>, x: nat, p: seq<nat>)
    requires FileOf(d, fold, out, x, p)
    ensures 0 < d.g.ClusterBytes() && |p| == ClustersFor(out[x].size, d.g.ClusterBytes())
    ensures IsChain(TableOf(d), out[x].first, p) && NoDup(p) && p != [] && p[0] == out[x].first
    ensures forall i :: 0 <= i < |p| ==> p[i] <= d.g.MaxCluster() && TableOf(d).Used(p[i])
  {
    hide Mounted, FatOf, Follow, CleanListing, Walked, Check;
    BytesPositive(d);
    var out', acts := CleanVolume(d, fold);
    FitsAt(d, fold, out, acts, x);
    ChainExact(TableOf(d), out[x].first, p);
    ChainBound(TableOf(d), out[x].first);
    assert forall i :: 0 <= i < |p| ==> p[i] in p;
  }

  lemma FitsAt(d: Disk, fold: Fold, out: seq<Item>, acts: seq<Action>, x: nat)
    requires CleanListing(d, fold, out, acts) && x < |out|
    ensures Fits(TableOf(d), d.g.ClusterBytes(), out[x])
  {
    hide Mounted, TableOf, Fits;
  }

  /** The damaged volume opens, and the walk comes to the same entries; every claim but the damaged one is as
      it was, and their clusters and the damaged chain's are all different. */
  lemma DamagedWalk(d: Disk, fold: Fold, out: seq<Item>, x: nat, p: seq<nat>, j: nat, value: nat)
    requires FileOf(d, fold, out, x, p) && j < |p| && 1 <= d.g.reserved && Plain(d.g, value)
    ensures 0 < d.g.ClusterBytes() && p[j] <= d.g.MaxCluster()
    ensures var d', t, n := Rewritten(d, p[j], value), TableOf(d), d.g.ClusterBytes();
      var pre, post := ClaimsBefore(d.g, out, x), ClaimsAfter(out, x);
      && Mounted(d') && TableOf(d') == Changed(t, p[j], value) && d'.g == d.g && d'.base == d.base
      && WalkActions(d', fold) == WalkActions(d, fold) && WalkActions(d, fold).Ok?
      && NoNotes(WalkActions(d, fold).value)
      && Claims(WalkActions(d, fold).value) == pre + [FileClaim(out[x])] + post
      && Around(TableOf(d'), n, pre, post, p)
      && Elems(Held(TableOf(d'), pre) + p + Held(TableOf(d'), post)) == UsedSet(t)
  {
    hide Mounted, TableOf, Chain, Held, AllSound, Walked, Check, SameData, Rewritten, WalkActions, UsedSet, Listed,
         ClaimsBefore, ClaimsAfter, SameOutside, Plain;
    var out', acts := CleanVolume(d, fold);
    FileFits(d, fold, out, x, p);
    PlainIs(d.g, value);
    var c, d', t, n := p[j], Rewritten(d, p[j], value), TableOf(d), d.g.ClusterBytes();
    RewrittenTable(d, c, value);
    RewrittenMounts(d, c, value);
    var pre, a, post := ClaimsBefore(d.g, out, x), FileClaim(out[x]), ClaimsAfter(out, x);
    ClaimsSplit(d.g, out, x);
    HeldThree(t, pre, a, post);
    NoDupThree(Held(t, pre), p, Held(t, post));
    SoundParts(t, n, pre, a, post);
    assert c in Elems(p);
    KeepClaims(t, n, pre, c, value);
    KeepClaims(t, n, post, c, value);
    SameLayout(d, d');
    forall i | 0 <= i < |acts| && acts[i].Claim? && acts[i].bytes.None?
        ensures SameChain(t, TableOf(d'), acts[i].start) {
      ClaimListed(acts, i);
    }
    WalkSame(d, d', fold);
  }

  lemma PlainIs(g: Geometry, value: nat)
    requires Plain(g, value)
    ensures Packable(g, value) && Read(g, value) == value
  {
  }

  lemma SoundParts(t: Table, clusterBytes: nat, pre: seq<Action>, a: Action, post: seq<Action>)
    requires 0 < clusterBytes && AllSound(t, clusterBytes, pre + [a] + post)
    ensures AllSound(t, clusterBytes, pre) && AllSound(t, clusterBytes, post)
  {
    hide Sound;
    var all := pre + [a] + post;
    assert forall i :: 0 <= i < |pre| ==> pre[i] == all[i];
    assert forall i :: 0 <= i < |post| ==> post[i] == all[|pre| + 1 + i];
  }

  // The check.

  lemma SectorsLength(img: seq<byte>, img': seq<byte>, base: nat, lba: nat, n: nat)
    requires |img'| == |img|
    ensures Sectors(img', base, lba, n).Ok? == Sectors(img, base, lba, n).Ok?
  {
  }

  lemma HeadOk(d: Disk, d': Disk)
    requires Mounted(d) && Mounted(d') && d'.g == d.g && d'.base == d.base && |d'.img| == |d.img| && HeadProblems(d).Ok?
    ensures HeadProblems(d').Ok?
  {
    MountedAccepted(d');
    hide Mounted, TableOf, CopyProblems, MediaProblems, FsInfoProblems, FieldProblems, Sectors;
    SectorsLength(d.img, d'.img, d.base, d.g.fsinfo, 1);
  }

  lemma CheckOf(d: Disk, fold: Fold, acts: seq<Action>, claims: seq<Action>, head: seq<Problem>)
    requires Mounted(d) && HeadProblems(d) == Ok(head) && WalkActions(d, fold) == Ok(acts)
    requires NoNotes(acts) && Claims(acts) == claims
    ensures 0 < d.g.ClusterBytes()
    ensures var r := Replay(TableOf(d), d.g.ClusterBytes(), Start(head), claims);
      Check(d, fold) == Ok(r.problems + LeakProblems(TableOf(d), r.owner))
  {
    hide Mounted, TableOf, HeadProblems, WalkActions, Replay, LeakProblems, Claims, NoNotes;
    BytesPositive(d);
    ClaimsDecide(TableOf(d), d.g.ClusterBytes(), Start(head), Start(head), acts);
  }

  /** What is leaked, once the walk has held the clusters `held`. */
  lemma LeaksAre(t: Table, owner: map<nat, Name>, held: seq<nat>) returns (leaks: seq<nat>)
    requires owner.Keys == Elems(held)
    ensures LeakProblems(t, owner) == if leaks == [] then [] else [Leaked(leaks)]
    ensures RisingBelow(leaks, |t.next|)
    ensures forall c: nat :: c in leaks <==> t.Used(c) && c !in held
  {
    leaks := Unreached(t, owner, |t.next|);
    UnreachedExact(t, owner, |t.next|);
    UnreachedRises(t, owner, |t.next|);
    assert forall c: nat :: c in owner <==> c in Elems(held);
  }

  /** The damaged volume's check, from its claims. */
  lemma DamagedCheck(d: Disk, fold: Fold, out: seq<Item>, x: nat, p: seq<nat>, j: nat, value: nat)
    returns (head: seq<Problem>)
    requires FileOf(d, fold, out, x, p) && j < |p| && 1 <= d.g.reserved && Plain(d.g, value)
    ensures 0 < d.g.ClusterBytes() && p[j] <= d.g.MaxCluster()
    ensures var d', n := Rewritten(d, p[j], value), d.g.ClusterBytes();
      var pre, post := ClaimsBefore(d.g, out, x), ClaimsAfter(out, x);
      && Mounted(d') && HeadProblems(d') == Ok(head) && TableOf(d') == Changed(TableOf(d), p[j], value)
      && Around(TableOf(d'), n, pre, post, p)
      && Elems(Held(TableOf(d'), pre) + p + Held(TableOf(d'), post)) == UsedSet(TableOf(d))
      && var r := Replay(TableOf(d'), n, Start(head), pre + [FileClaim(out[x])] + post);
         Check(d', fold) == Ok(r.problems + LeakProblems(TableOf(d'), r.owner))
  {
    hide Mounted, TableOf, Chain, Held, AllSound, Walked, Check, Rewritten, WalkActions, UsedSet, Replay, LeakProblems,
         ClaimsBefore, ClaimsAfter, Plain, HeadProblems, NoNotes, Claims, Around, Changed;
    FileFits(d, fold, out, x, p);
    DamagedWalk(d, fold, out, x, p, j, value);
    var d' := Rewritten(d, p[j], value);
    CleanHead(d, fold);
    SameSize(d, p[j], value);
    HeadOk(d, d');
    head := HeadProblems(d').value;
    CheckOf(d', fold, WalkActions(d, fold).value,
            ClaimsBefore(d.g, out, x) + [FileClaim(out[x])] + ClaimsAfter(out, x), head);
  }

  lemma SameSize(d: Disk, c: nat, value: nat)
    requires Mounted(d) && c <= d.g.MaxCluster() && 1 <= d.g.reserved
    ensures |Rewritten(d, c, value).img| == |d.img|
  {
    hide Mounted, SameData, Rewritten;
    RewrittenMounts(d, c, value);
    SameDataSize(d, Rewritten(d, c, value));
  }

  lemma SameDataSize(d: Disk, d': Disk)
    requires SameData(d, d')
    ensures |d'.img| == |d.img|
  {
  }

  /** A link's value is written as it is read, and is no mark. */
  lemma LinkPlain(g: Geometry, value: nat)
    requires value < g.Bad()
    ensures Plain(g, value)
  {
  }

  lemma EndPlain(g: Geometry, value: nat)
    requires g.Eoc() <= value < if g.kind.Fat32? then 0x1000_0000 else 0x1_0000
    ensures Plain(g, value)
  {
  }

  lemma UsedStill(t: Table, c: nat, value: nat, e: nat)
    requires t.Used(c) && value != 0 && value != t.bad
    ensures Changed(t, c, value).Used(e) <==> t.Used(e)
  {
  }

  lemma InParts<T>(a: seq<T>, b: seq<T>, c: seq<T>, x: T)
    requires NoDup(a + b + c)
    ensures x in b ==> x !in a + c
    ensures x in a + b + c <==> x in a + c || x in b
  {
    NoDupThree(a, b, c);
    assert x in b <==> x in Elems(b);
    assert x in a <==> x in Elems(a);
    assert x in c <==> x in Elems(c);
  }

  lemma AroundLess(t: Table, clusterBytes: nat, pre: seq<Action>, post: seq<Action>, p: seq<nat>)
    requires 0 < clusterBytes && Around(t, clusterBytes, pre, post, p)
    ensures Around(t, clusterBytes, pre, post, []) && NoDup(Held(t, pre) + p + Held(t, post))
  {
    hide AllSound, Held;
    NoDupThree(Held(t, pre), p, Held(t, post));
    NoDupThree(Held(t, pre), [], Held(t, post));
  }

  lemma InUse(t: Table, c: nat, held: seq<nat>)
    requires Elems(held) == UsedSet(t)
    ensures t.Used(c) <==> c in held
  {
    assert c in UsedSet(t) <==> t.Used(c);
    assert c in Elems(held) <==> c in held;
  }

  /** A leak is reported if there is one. */
  function LeakReport(leaks: seq<nat>): seq<Problem> {
    if leaks == [] then [] else [Leaked(leaks)]
  }

  /** Whatever breaks a chain is found, and it alone but for what the volume's own fields say: the file's
      clusters, which it can no longer hold, are leaked, those of them that are still in use. */
  lemma BrokenFound(d: Disk, fold: Fold, out: seq<Item>, x: nat, p: seq<nat>, j: nat, value: nat)
    returns (head: seq<Problem>, leaks: seq<nat>)
    requires FileOf(d, fold, out, x, p) && j < |p| && 1 <= d.g.reserved && Plain(d.g, value)
    requires FaultOf(TableOf(d), p, j, value).Some?
    ensures p[j] <= d.g.MaxCluster()
    ensures var d' := Rewritten(d, p[j], value);
      && Mounted(d') && HeadProblems(d') == Ok(head)
      && Check(d', fold)
           == Ok(head + [Broken(out[x].path, FaultOf(TableOf(d), p, j, value).value)] + LeakReport(leaks))
    ensures RisingBelow(leaks, d.g.MaxCluster() + 1)
    ensures forall c: nat :: c in leaks <==> c in p && (c == p[j] ==> value != 0 && value != d.g.Bad())
  {
    hide Mounted, TableOf, Chain, Held, AllSound, Walked, Check, Rewritten, Replay, LeakProblems, ClaimsBefore,
         ClaimsAfter, Plain, HeadProblems, IsChain, FaultOf, Changed;
    FileFits(d, fold, out, x, p);
    head := DamagedCheck(d, fold, out, x, p, j, value);
    var t, n, fault := TableOf(d), d.g.ClusterBytes(), FaultOf(TableOf(d), p, j, value).value;
    var t', pre, post := TableOf(Rewritten(d, p[j], value)), ClaimsBefore(d.g, out, x), ClaimsAfter(out, x);
    ChainDamaged(t, p, j, value);
    ChangedLength(t, p[j], value);
    AroundLess(t', n, pre, post, p);
    BrokenClaim(t', n, head, pre, FileClaim(out[x]), post, fault);
    var r := Replay(t', n, Start(head), pre + [FileClaim(out[x])] + post);
    leaks := LeaksAre(t', r.owner, Held(t', pre) + Held(t', post));
    forall c: nat ensures c in leaks <==> c in p && (c == p[j] ==> value != 0 && value != t.bad) {
      UsedAfter(t, p[j], value, c);
      InParts(Held(t', pre), p, Held(t', post), c);
      InUse(t, c, Held(t', pre) + p + Held(t', post));
    }
  }

  lemma UsedAfter(t: Table, c: nat, value: nat, e: nat)
    requires t.Used(c)
    ensures Changed(t, c, value).Used(e) <==> t.Used(e) && (e == c ==> value != 0 && value != t.bad)
  {
  }

  /** Pointed back into its own chain, an entry is found: the file's chain loops, and all of it is leaked. */
  lemma LoopFound(d: Disk, fold: Fold, out: seq<Item>, x: nat, p: seq<nat>, i: nat, j: nat)
    returns (head: seq<Problem>, leaks: seq<nat>)
    requires FileOf(d, fold, out, x, p) && i <= j < |p| && 1 <= d.g.reserved && p[i] < d.g.Bad()
    ensures p[j] <= d.g.MaxCluster()
    ensures var d' := Rewritten(d, p[j], p[i]);
      && Mounted(d') && HeadProblems(d') == Ok(head)
      && Check(d', fold) == Ok(head + [Broken(out[x].path, LoopsBackTo(p[i])), Leaked(leaks)])
    ensures RisingBelow(leaks, d.g.MaxCluster() + 1) && forall c: nat :: c in leaks <==> c in p
  {
    hide Mounted, TableOf, Chain, Walked, Check, Rewritten, Plain, HeadProblems;
    LinkPlain(d.g, p[i]);
    FileFits(d, fold, out, x, p);
    assert p[i] == p[..j + 1][i] && p[i] in p[..j + 1];
    assert FaultOf(TableOf(d), p, j, p[i]) == Some(LoopsBackTo(p[i]));
    head, leaks := BrokenFound(d, fold, out, x, p, j, p[i]);
    assert p[0] in leaks;
    assert head + [Broken(out[x].path, LoopsBackTo(p[i]))] + [Leaked(leaks)]
        == head + [Broken(out[x].path, LoopsBackTo(p[i])), Leaked(leaks)];
  }

  /** Set to 0, an entry is found: the chain runs into a free cluster after its own. The chain's other clusters
      are leaked, and the one of the entry is free. */
  lemma FreeFound(d: Disk, fold: Fold, out: seq<Item>, x: nat, p: seq<nat>, j: nat)
    returns (head: seq<Problem>, leaks: seq<nat>)
    requires FileOf(d, fold, out, x, p) && j < |p| && 1 <= d.g.reserved
    ensures p[j] <= d.g.MaxCluster()
    ensures var d' := Rewritten(d, p[j], 0);
      && Mounted(d') && HeadProblems(d') == Ok(head)
      && Check(d', fold) == Ok(head + [Broken(out[x].path, IntoFree(p[j]))] + LeakReport(leaks))
    ensures RisingBelow(leaks, d.g.MaxCluster() + 1) && forall c: nat :: c in leaks <==> c in p && c != p[j]
  {
    hide Mounted, TableOf, Chain, Walked, Check, Rewritten, Plain, HeadProblems;
    LinkPlain(d.g, 0);
    BytesPositive(d);
    assert FaultOf(TableOf(d), p, j, 0) == Some(IntoFree(p[j]));
    head, leaks := BrokenFound(d, fold, out, x, p, j, 0);
  }

  /** Pointed at a free cluster, an entry is found: the chain runs into a free cluster after that one, and all of
      the chain is leaked. */
  lemma FreeClusterFound(d: Disk, fold: Fold, out: seq<Item>, x: nat, p: seq<nat>, j: nat, f: nat)
    returns (head: seq<Problem>, leaks: seq<nat>)
    requires FileOf(d, fold, out, x, p) && j < |p| && 1 <= d.g.reserved && TableOf(d).Free(f) && f < d.g.Bad()
    ensures p[j] <= d.g.MaxCluster()
    ensures var d' := Rewritten(d, p[j], f);
      && Mounted(d') && HeadProblems(d') == Ok(head)
      && Check(d', fold) == Ok(head + [Broken(out[x].path, IntoFree(f)), Leaked(leaks)])
    ensures RisingBelow(leaks, d.g.MaxCluster() + 1) && forall c: nat :: c in leaks <==> c in p
  {
    hide Mounted, TableOf, Chain, Walked, Check, Rewritten, Plain, HeadProblems;
    LinkPlain(d.g, f);
    FileFits(d, fold, out, x, p);
    BytesPositive(d);
    assert FaultOf(TableOf(d), p, j, f) == Some(IntoFree(f));
    head, leaks := BrokenFound(d, fold, out, x, p, j, f);
    assert p[0] in leaks;
    assert head + [Broken(out[x].path, IntoFree(f))] + [Leaked(leaks)]
        == head + [Broken(out[x].path, IntoFree(f)), Leaked(leaks)];
  }

  /** Ended early, a chain is found: it no longer has the clusters its size needs, and the rest are leaked. */
  lemma ShortFound(d: Disk, fold: Fold, out: seq<Item>, x: nat, p: seq<nat>, j: nat, end: nat)
    returns (head: seq<Problem>, leaks: seq<nat>)
    requires FileOf(d, fold, out, x, p) && j + 1 < |p| && 1 <= d.g.reserved
    requires d.g.Eoc() <= end < if d.g.kind.Fat32? then 0x1000_0000 else 0x1_0000
    ensures p[j] <= d.g.MaxCluster()
    ensures var d' := Rewritten(d, p[j], end);
      && Mounted(d') && HeadProblems(d') == Ok(head)
      && Check(d', fold) == Ok(head + [SizeMismatch(out[x].path, out[x].size, |p|, j + 1), Leaked(leaks)])
    ensures RisingBelow(leaks, d.g.MaxCluster() + 1) && forall c: nat :: c in leaks <==> c in p[j + 1..]
  {
    hide Mounted, TableOf, Chain, Held, AllSound, Walked, Check, Rewritten, Replay, LeakProblems, ClaimsBefore,
         ClaimsAfter, Plain, HeadProblems, IsChain, ClustersFor;
    EndPlain(d.g, end);
    FileFits(d, fold, out, x, p);
    head := DamagedCheck(d, fold, out, x, p, j, end);
    var t, n := TableOf(d), d.g.ClusterBytes();
    var t', pre, post := TableOf(Rewritten(d, p[j], end)), ClaimsBefore(d.g, out, x), ClaimsAfter(out, x);
    var kept, lost := p[..j + 1], p[j + 1..];
    ChainDamaged(t, p, j, end);
    AroundPart(t', n, pre, post, p, j + 1);
    MisfitClaim(t', n, head, pre, FileClaim(out[x]), post, kept);
    var r := Replay(t', n, Start(head), pre + [FileClaim(out[x])] + post);
    leaks := LeaksAre(t', r.owner, Held(t', pre) + kept + Held(t', post));
    forall c: nat ensures c in leaks <==> c in lost {
      UsedStill(t, p[j], end, c);
      InFour(Held(t', pre), kept, lost, Held(t', post), c);
      assert p == kept + lost;
      InUse(t, c, Held(t', pre) + p + Held(t', post));
    }
    assert p[j + 1] == lost[0] && lost[0] in leaks;
    var mismatch := SizeMismatch(out[x].path, out[x].size, |p|, j + 1);
    assert r.problems + [Leaked(leaks)] == head + [mismatch, Leaked(leaks)];
  }

  lemma AroundPart(t: Table, clusterBytes: nat, pre: seq<Action>, post: seq<Action>, p: seq<nat>, k: nat)
    requires 0 < clusterBytes && Around(t, clusterBytes, pre, post, p) && k <= |p|
    ensures Around(t, clusterBytes, pre, post, p[..k])
    ensures NoDup(Held(t, pre) + (p[..k] + p[k..]) + Held(t, post))
  {
    hide AllSound, Held;
    assert p == p[..k] + p[k..];
    NoDupThree(Held(t, pre), p, Held(t, post));
    NoDupAppend(p[..k], p[k..]);
    ElemsAppend(p[..k], p[k..]);
    NoDupThree(Held(t, pre), p[..k], Held(t, post));
  }

  lemma InFour<T>(a: seq<T>, b: seq<T>, c: seq<T>, e: seq<T>, x: T)
    requires NoDup(a + (b + c) + e)
    ensures x in c ==> x !in a + b + e
    ensures x in a + (b + c) + e <==> x in a + b + e || x in c
  {
    NoDupThree(a, b + c, e);
    NoDupAppend(b, c);
    ElemsAppend(b, c);
    assert x in b <==> x in Elems(b);
    assert x in c <==> x in Elems(c);
    assert x in b + c <==> x in Elems(b + c);
    assert x in a <==> x in Elems(a);
    assert x in e <==> x in Elems(e);
  }

  // Two files.

  lemma SplitAfter(out: seq<Item>, x: nat, y: nat)
    requires x < y < |out| && IsFile(out[y])
    ensures ClaimsAfter(out, x) == ItemClaims(out[x + 1..y]) + [FileClaim(out[y])] + ClaimsAfter(out, y)
  {
    hide ItemClaims;
    assert out[x + 1..] == out[x + 1..y] + ([out[y]] + out[y + 1..]);
    ItemClaimsAppend(out[x + 1..y], [out[y]] + out[y + 1..]);
    ItemClaimsAppend([out[y]], out[y + 1..]);
    OneItem(out[y]);
  }

  lemma SplitBefore(g: Geometry, out: seq<Item>, x: nat, y: nat)
    requires y < x < |out| && IsFile(out[y])
    ensures ClaimsBefore(g, out, x) == ClaimsBefore(g, out, y) + [FileClaim(out[y])] + ItemClaims(out[y + 1..x])
  {
    hide ItemClaims;
    assert out[..x] == out[..y] + ([out[y]] + out[y + 1..x]);
    ItemClaimsAppend(out[..y], [out[y]] + out[y + 1..x]);
    ItemClaimsAppend([out[y]], out[y + 1..x]);
    OneItem(out[y]);
    var root := if g.kind.Fat32? then [Claim(ROOT, g.rootCluster, None)] else [];
    assert root + (ItemClaims(out[..y]) + ([FileClaim(out[y])] + ItemClaims(out[y + 1..x])))
        == (root + ItemClaims(out[..y])) + [FileClaim(out[y])] + ItemClaims(out[y + 1..x]);
  }

  /** Two listed files of a clean volume share no cluster. */
  lemma FilesApart(d: Disk, fold: Fold, out: seq<Item>, x: nat, p: seq<nat>, y: nat, q: seq<nat>)
    requires FileOf(d, fold, out, x, p) && FileOf(d, fold, out, y, q) && x != y
    ensures Elems(p) !! Elems(q)
  {
    hide Mounted, TableOf, Walked, Check, Follow, FatOf;
    FileFits(d, fold, out, x, p);
    forall c | c in p ensures c !in q {
      var i :| 0 <= i < |p| && p[i] == c;
      CleanPartition(d, fold, c);
      var holders, k := Holders(d, out), if d.g.kind.Fat32? && Chain(TableOf(d), d.g.rootCluster).Ok? then 1 else 0;
      HolderAt(d, out, x, k);
      HolderAt(d, out, y, k);
      assert c in holders[k + x] && holders[k + y] == q;
    }
  }

  lemma AroundSplit(t: Table, clusterBytes: nat, pre: seq<Action>, mid: seq<Action>, b: Action, post: seq<Action>,
                    p: seq<nat>, q: seq<nat>)
    requires 0 < clusterBytes && b.Claim? && Chain(t, b.start) == Ok(q)
    requires Around(t, clusterBytes, pre, mid + [b] + post, p)
    ensures AroundTwo(t, clusterBytes, pre, mid, post, p, q)
    ensures Held(t, pre) + p + Held(t, mid + [b] + post) == Held(t, pre) + p + Held(t, mid) + q + Held(t, post)
  {
    hide Chain, AllSound, Held;
    HeldThree(t, mid, b, post);
    SoundParts(t, clusterBytes, mid, b, post);
    assert Held(t, pre) + p + (Held(t, mid) + q + Held(t, post)) == Held(t, pre) + p + Held(t, mid) + q + Held(t, post);
  }

  lemma AroundSplitBefore(t: Table, clusterBytes: nat, pre: seq<Action>, b: Action, mid: seq<Action>, post: seq<Action>,
                          q: seq<nat>, p: seq<nat>)
    requires 0 < clusterBytes && b.Claim? && Chain(t, b.start) == Ok(q)
    requires Around(t, clusterBytes, pre + [b] + mid, post, p)
    ensures AroundTwo(t, clusterBytes, pre, mid, post, q, p)
    ensures Held(t, pre + [b] + mid) + p + Held(t, post) == Held(t, pre) + q + Held(t, mid) + p + Held(t, post)
  {
    hide Chain, AllSound, Held;
    HeldThree(t, pre, b, mid);
    SoundParts(t, clusterBytes, pre, b, mid);
  }

  /** What is lost of a chain that is cut: the clusters that the walk no longer comes to. */
  lemma LostPart(t: Table, t': Table, c: nat, value: nat, owner: map<nat, Name>, a: seq<nat>, p: seq<nat>, j: nat,
                 e: seq<nat>)
    returns (leaks: seq<nat>)
    requires t.Used(c) && t' == Changed(t, c, value) && value != 0 && value != t.bad
    requires j < |p| && NoDup(a + (p[..j + 1] + p[j + 1..]) + e)
    requires owner.Keys == Elems(a + p[..j + 1] + e) && Elems(a + p + e) == UsedSet(t)
    ensures LeakProblems(t', owner) == LeakReport(leaks) && RisingBelow(leaks, |t.next|)
    ensures forall e: nat :: e in leaks <==> e in p[j + 1..]
  {
    hide Changed, LeakProblems, UsedSet;
    assert |t'.next| == |t.next| by { ChangedLength(t, c, value); }
    leaks := LeaksAre(t', owner, a + p[..j + 1] + e);
    assert p == p[..j + 1] + p[j + 1..];
    forall x: nat ensures x in leaks <==> x in p[j + 1..] {
      UsedStill(t, c, value, x);
      InFour(a, p[..j + 1], p[j + 1..], e, x);
      InUse(t, x, a + p + e);
    }
  }

  /** What a volume's check adds when its file `x`, cut after `p[j]`, runs on into the chain of the file `y`: each
      cluster that the two now share is cross-linked, by the one that the walk comes to second, and the file's
      size may no longer be its chain's. */
  function CrossReport(out: seq<Item>, x: nat, y: nat, has: nat, shared: seq<nat>, clusterBytes: nat): seq<Problem>
    requires x < |out| && y < |out| && 0 < clusterBytes
  {
    var misfit := Misfit(FileClaim(out[x]), clusterBytes, has);
    if x < y then misfit + CrossList(out[y].path, shared, out[x].path)
    else CrossList(out[x].path, shared, out[y].path) + misfit
  }

  /** Pointed into another file's chain, any entry of a file is found: each cluster that the two now share is
      reported as cross-linked; the size is, unless the new chain happens to be as long as the old one; and the
      clusters that the chain had after the entry are leaked. */
  lemma CrossFound(d: Disk, fold: Fold, out: seq<Item>, x: nat, p: seq<nat>, j: nat, y: nat, q: seq<nat>, k: nat)
    returns (head: seq<Problem>, leaks: seq<nat>)
    requires FileOf(d, fold, out, x, p) && FileOf(d, fold, out, y, q) && x != y
    requires j < |p| && k < |q| && 1 <= d.g.reserved && q[k] < d.g.Bad()
    ensures p[j] <= d.g.MaxCluster() && 0 < d.g.ClusterBytes()
    ensures var d' := Rewritten(d, p[j], q[k]);
      && Mounted(d') && HeadProblems(d') == Ok(head)
      && Check(d', fold) ==
         Ok(head + CrossReport(out, x, y, j + 1 + |q| - k, q[k..], d.g.ClusterBytes()) + LeakReport(leaks))
    ensures RisingBelow(leaks, d.g.MaxCluster() + 1) && forall c: nat :: c in leaks <==> c in p[j + 1..]
  {
    hide Mounted, TableOf, Chain, Walked, Check, Rewritten, HeadProblems, Plain, IsChain, Around, Changed, UsedSet,
         Held, Replay, LeakProblems, ClaimsBefore, ClaimsAfter;
    FileFits(d, fold, out, x, p);
    FileFits(d, fold, out, y, q);
    FilesApart(d, fold, out, x, p, y, q);
    LinkPlain(d.g, q[k]);
    BytesPositive(d);
    var c, t, a := p[j], TableOf(d), FileClaim(out[x]);
    head := DamagedCheck(d, fold, out, x, p, j, q[k]);
    var t', n := TableOf(Rewritten(d, c, q[k])), d.g.ClusterBytes();
    ChainCrossed(t, p, j, q, k);
    assert c in Elems(p);
    ChainElsewhere(t, c, q[k], out[y].first);
    var pre, post := ClaimsBefore(d.g, out, x), ClaimsAfter(out, x);
    AroundPart(t', n, pre, post, p, j + 1);
    if x < y {
      CrossAfter(t', n, d.g, head, out, x, p[..j + 1], y, q, k);
    } else {
      CrossBefore(t', n, d.g, head, out, x, p[..j + 1], y, q, k);
    }
    var r := Replay(t', n, Start(head), pre + [a] + post);
    leaks := LostPart(t, t', c, q[k], r.owner, Held(t', pre), p, j, Held(t', post));
  }

  /** The other file is met after the damaged one. */
  lemma CrossAfter(t: Table, n: nat, g: Geometry, head: seq<Problem>, out: seq<Item>, x: nat, kept: seq<nat>, y: nat,
                   q: seq<nat>, k: nat)
    requires 0 < n && t.Sane() && x < y < |out| && IsFile(out[y]) && k <= |q| && |q| == ClustersFor(out[y].size, n)
    requires Around(t, n, ClaimsBefore(g, out, x), ClaimsAfter(out, x), kept)
    requires Chain(t, out[x].first) == Ok(kept + q[k..]) && Chain(t, out[y].first) == Ok(q)
    ensures var pre, post := ClaimsBefore(g, out, x), ClaimsAfter(out, x);
      var r := Replay(t, n, Start(head), pre + [FileClaim(out[x])] + post);
      && r.problems == head + CrossReport(out, x, y, |kept| + |q| - k, q[k..], n)
      && r.owner.Keys == Elems(Held(t, pre) + kept + Held(t, post))
  {
    hide Chain, Held, AllSound, Replay, ClaimsBefore, ClaimsAfter, ClustersFor, CrossList, Around, AroundTwo,
         ItemClaims;
    var a, b := FileClaim(out[x]), FileClaim(out[y]);
    var pre, mid, post := ClaimsBefore(g, out, x), ItemClaims(out[x + 1..y]), ClaimsAfter(out, y);
    SplitAfter(out, x, y);
    AroundSplit(t, n, pre, mid, b, post, kept, q);
    CrossFirst(t, n, head, pre, a, mid, b, post, kept, q, k);
    assert pre + [a] + (mid + [b] + post) == pre + [a] + mid + [b] + post;
    assert head + (Misfit(a, n, |kept| + |q| - k) + CrossList(b.path, q[k..], a.path))
        == head + Misfit(a, n, |kept| + |q| - k) + CrossList(b.path, q[k..], a.path);
  }

  /** The other file is met before the damaged one. */
  lemma CrossBefore(t: Table, n: nat, g: Geometry, head: seq<Problem>, out: seq<Item>, x: nat, kept: seq<nat>, y: nat,
                    q: seq<nat>, k: nat)
    requires 0 < n && t.Sane() && y < x < |out| && IsFile(out[y]) && k <= |q| && |q| == ClustersFor(out[y].size, n)
    requires Around(t, n, ClaimsBefore(g, out, x), ClaimsAfter(out, x), kept)
    requires Chain(t, out[x].first) == Ok(kept + q[k..]) && Chain(t, out[y].first) == Ok(q)
    ensures var pre, post := ClaimsBefore(g, out, x), ClaimsAfter(out, x);
      var r := Replay(t, n, Start(head), pre + [FileClaim(out[x])] + post);
      && r.problems == head + CrossReport(out, x, y, |kept| + |q| - k, q[k..], n)
      && r.owner.Keys == Elems(Held(t, pre) + kept + Held(t, post))
  {
    hide Chain, Held, AllSound, Replay, ClaimsBefore, ClaimsAfter, ClustersFor, CrossList, Around, AroundTwo,
         ItemClaims;
    var a, b := FileClaim(out[x]), FileClaim(out[y]);
    var pre, mid, post := ClaimsBefore(g, out, y), ItemClaims(out[y + 1..x]), ClaimsAfter(out, x);
    SplitBefore(g, out, x, y);
    AroundSplitBefore(t, n, pre, b, mid, post, q, kept);
    CrossSecond(t, n, head, pre, b, mid, a, post, q, kept, k);
    assert head + (CrossList(a.path, q[k..], b.path) + Misfit(a, n, |kept| + |q| - k))
        == head + CrossList(a.path, q[k..], b.path) + Misfit(a, n, |kept| + |q| - k);
  }
}
