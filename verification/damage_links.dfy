/** Which FATs can be clean at all. Every cluster in use is in just one chain: so its entry is an end mark or names
    a cluster in use, which no other entry names, and no entries lead in a ring. One changed entry breaks this, but
    for a few values. */
module DamageLinks {
  import opened Results
  import opened Seqs
  import opened Chains
  import opened Geometries
  import opened Walks
  import opened Ownership
  import opened Checks
  import opened SameWalks
  import opened FatWrites
  import opened Rewrites
  import opened Partition
  import opened DamageFound
  import opened DamageHeads

  /** The chains that actions hold, action for action. */
  ghost function Parts(t: Table, acts: seq<Action>): (r: seq<seq<nat>>)
    ensures |r| == |acts| && forall i :: 0 <= i < |r| ==> r[i] == HeldBy(t, acts[i])
  {
    seq(|acts|, i requires 0 <= i < |acts| => HeldBy(t, acts[i]))
  }

  lemma {:induction false} HeldParts(t: Table, acts: seq<Action>)
    ensures Held(t, acts) == Flatten(Parts(t, acts))
    decreases |acts|
  {
    hide HeldBy;
    if acts == [] {
    } else {
      HeldParts(t, acts[1..]);
      assert Parts(t, acts)[1..] == Parts(t, acts[1..]);
    }
  }

  /** The actions' chains are sound, and hold every cluster in use, each once. */
  ghost predicate Covered(t: Table, acts: seq<Action>) {
    && t.Sane() && NoDup(Flatten(Parts(t, acts))) && Elems(Flatten(Parts(t, acts))) == UsedSet(t)
    && forall i :: 0 <= i < |acts| && acts[i].Claim? ==> Chain(t, acts[i].start).Ok?
  }

  lemma CleanCovers(d: Disk, fold: Fold) returns (acts: seq<Action>)
    requires ChecksClean(d, fold)
    ensures WalkActions(d, fold) == Ok(acts) && Covered(TableOf(d), acts)
    ensures 0 < d.g.ClusterBytes() && AllSound(TableOf(d), d.g.ClusterBytes(), acts)
  {
    hide Mounted, TableOf, HeadProblems, WalkActions, Held, UsedSet, Chain;
    CleanExact(d, fold);
    BytesPositive(d);
    acts := WalkActions(d, fold).value;
    HeldParts(TableOf(d), acts);
    forall i | 0 <= i < |acts| && acts[i].Claim? ensures Chain(TableOf(d), acts[i].start).Ok? {
      assert Sound(TableOf(d), d.g.ClusterBytes(), acts[i]);
    }
  }

  /** Where a cluster in use is held. */
  lemma WhereHeld(t: Table, acts: seq<Action>, c: nat) returns (i: nat, k: nat, s: seq<nat>)
    requires Covered(t, acts) && t.Used(c)
    ensures i < |acts| && acts[i].Claim? && Chain(t, acts[i].start) == Ok(s) && IsChain(t, acts[i].start, s)
    ensures k < |s| && s[k] == c
  {
    hide Chain, IsChain;
    var ss := Parts(t, acts);
    assert c in UsedSet(t);
    assert c in Flatten(ss);
    FlattenWhere(ss, c);
    i :| 0 <= i < |ss| && c in ss[i];
    s := ss[i];
    k :| 0 <= k < |s| && s[k] == c;
    ChainExact(t, acts[i].start, s);
  }

  /** Only one action holds a cluster, at one place of its chain. */
  lemma HeldOnce(t: Table, acts: seq<Action>, i: nat, k: nat, j: nat, l: nat)
    requires Covered(t, acts) && i < |acts| && j < |acts| && acts[i].Claim? && acts[j].Claim?
    requires k < |Chain(t, acts[i].start).value| && l < |Chain(t, acts[j].start).value|
    requires Chain(t, acts[i].start).value[k] == Chain(t, acts[j].start).value[l]
    ensures i == j && k == l
  {
    hide Chain;
    var ss := Parts(t, acts);
    assert ss[i][k] in ss[i] && ss[j][l] in ss[j];
    FlattenApart(ss, i, j, ss[i][k]);
    PartNoDup(ss, i);
  }

  lemma SaneTable(t: Table, acts: seq<Action>)
    requires Covered(t, acts)
    ensures t.Sane()
  {
  }

  lemma ChainUsed(t: Table, acts: seq<Action>, i: nat, s: seq<nat>, k: nat)
    requires Covered(t, acts) && i < |acts| && acts[i].Claim? && Chain(t, acts[i].start) == Ok(s) && k < |s|
    ensures t.Used(s[k])
  {
    hide Follow, Parts, UsedSet;
    ChainBound(t, acts[i].start);
    assert s[k] in s;
  }

  /** The entry of a cluster in use is an end mark, or names the next of its chain. */
  lemma NextHeld(t: Table, acts: seq<Action>, c: nat) returns (i: nat, k: nat, s: seq<nat>)
    requires Covered(t, acts) && t.Used(c) && t.next[c] < t.eoc
    ensures i < |acts| && acts[i].Claim? && Chain(t, acts[i].start) == Ok(s) && IsChain(t, acts[i].start, s)
    ensures k + 1 < |s| && s[k] == c && s[k + 1] == t.next[c] && t.Used(t.next[c])
  {
    hide Chain, Covered;
    i, k, s := WhereHeld(t, acts, c);
    if k + 1 < |s| {
      assert t.Links(s[k], s[k + 1]);
      ChainUsed(t, acts, i, s, k + 1);
    }
  }

  /** No two entries name one cluster. */
  lemma OneBefore(t: Table, acts: seq<Action>, a: nat, b: nat, c: nat)
    requires Covered(t, acts) && t.Links(a, c) && t.Links(b, c)
    ensures a == b
  {
    hide Chain, Covered, IsChain;
    var i, k, s := NextHeld(t, acts, a);
    var j, l, r := NextHeld(t, acts, b);
    HeldOnce(t, acts, i, k + 1, j, l + 1);
  }

  /** A chain that comes to the start of a linked stretch follows it. */
  lemma {:induction false} Along(t: Table, s: seq<nat>, u: nat, p: seq<nat>, m: nat)
    requires s != [] && IsChain(t, s[0], s) && Linked(t, p) && m < |p| && u < |s| && s[u] == p[0]
    ensures u + m < |s| && s[u + m] == p[m]
  {
    if m == 0 {
    } else {
      Along(t, s, u, p, m - 1);
      assert t.Links(p[m - 1], p[m]);
      if u + m < |s| {
        assert t.Links(s[u + m - 1], s[u + m]);
      }
    }
  }

  /** No entries lead in a ring. */
  lemma NoRing(t: Table, acts: seq<Action>, p: seq<nat>)
    requires Covered(t, acts) && p != [] && Linked(t, p) && t.Used(p[|p| - 1])
    ensures !t.Links(p[|p| - 1], p[0])
  {
    hide Covered, Chain;
    var last := p[|p| - 1];
    if t.Links(last, p[0]) {
      var i, k, s := NextHeld(t, acts, last);
      Along(t, s, k + 1, p, |p| - 1);
      ChainApart(t, s, k, k + |p|);
    }
  }

  lemma ChainApart(t: Table, s: seq<nat>, k: nat, l: nat)
    requires s != [] && IsChain(t, s[0], s) && k < l < |s|
    ensures s[k] != s[l]
  {
    ChainNoDup(t, s[0], s);
  }

  /** No entry names the cluster: if it is in use, a chain begins there. */
  ghost predicate Unnamed(t: Table, c: nat) {
    forall b: nat :: !t.Links(b, c)
  }

  lemma NamedBefore(t: Table, s: seq<nat>, k: nat)
    requires s != [] && IsChain(t, s[0], s) && 0 < k < |s|
    ensures !Unnamed(t, s[k])
  {
    assert t.Links(s[k - 1], s[k]);
  }

  lemma ChainHead(t: Table, first: nat, s: seq<nat>)
    requires IsChain(t, first, s)
    ensures s != [] && s[0] == first
  {
  }

  /** A cluster in use that no entry names is the first of a chain. */
  lemma HeadHeld(t: Table, acts: seq<Action>, c: nat) returns (i: nat, s: seq<nat>)
    requires Covered(t, acts) && t.Used(c) && Unnamed(t, c)
    ensures i < |acts| && acts[i].Claim? && acts[i].start == c && Chain(t, c) == Ok(s) && IsChain(t, c, s)
  {
    hide Chain, Covered, IsChain, Unnamed;
    var k;
    i, k, s := WhereHeld(t, acts, c);
    ChainHead(t, acts[i].start, s);
    if k > 0 {
      NamedBefore(t, s, k);
    }
  }

  /** What else an entry of a FAT without a fault can say, for this to be without a fault as well: an end mark; a free
      or bad mark, if it is a chain's first; or the first cluster of another chain. */
  ghost predicate Undecided(t: Table, c: nat, value: nat) {
    if value >= t.eoc then true
    else if value == 0 || value == t.bad then Unnamed(t, c)
    else t.Used(value) && Unnamed(t, value) && Chain(t, value).Ok? && c !in Chain(t, value).value
  }

  lemma LinksDecide(t: Table, acts: seq<Action>, c: nat, value: nat, acts': seq<Action>)
    requires Covered(t, acts) && t.Used(c) && value != t.next[c] && Covered(Changed(t, c, value), acts')
    ensures Undecided(t, c, value)
  {
    hide Chain, Covered;
    if value >= t.eoc {
    } else if value == 0 || value == t.bad {
      MarkDecides(t, acts, c, value, acts');
    } else {
      LinkNew(t, acts, c, value, acts');
      LinkOther(t, acts, c, value, acts');
    }
  }

  /** No entry names a cluster that is free or bad. */
  lemma MarkDecides(t: Table, acts: seq<Action>, c: nat, value: nat, acts': seq<Action>)
    requires Covered(t, acts) && t.Used(c) && Covered(Changed(t, c, value), acts') && (value == 0 || value == t.bad)
    ensures Unnamed(t, c)
  {
    hide Chain, Covered;
    var t' := Changed(t, c, value);
    forall b: nat ensures !t.Links(b, c) {
      if t.Links(b, c) {
        NoRingOne(t, acts, c);
        var i, k, s := NextHeld(t', acts', b);
      }
    }
  }

  lemma NoRingOne(t: Table, acts: seq<Action>, c: nat)
    requires Covered(t, acts) && t.Used(c)
    ensures !t.Links(c, c)
  {
    hide Covered;
    NoRing(t, acts, [c]);
  }

  /** The cluster a changed entry names is in use, and no other entry names it. */
  lemma LinkNew(t: Table, acts: seq<Action>, c: nat, value: nat, acts': seq<Action>)
    requires Covered(t, acts) && t.Used(c) && value != t.next[c] && Covered(Changed(t, c, value), acts')
    requires value < t.eoc && value != 0 && value != t.bad
    ensures t.Used(value) && Unnamed(t, value)
  {
    hide Chain, Covered;
    var t' := Changed(t, c, value);
    var i, k, s := NextHeld(t', acts', c);
    forall b: nat ensures !t.Links(b, value) {
      if t.Links(b, value) {
        assert t'.Links(b, value) && t'.Links(c, value);
        OneBefore(t', acts', b, c, value);
      }
    }
  }

  /** It is not the first of the changed entry's own chain. */
  lemma LinkOther(t: Table, acts: seq<Action>, c: nat, value: nat, acts': seq<Action>)
    requires Covered(t, acts) && t.Used(c) && Covered(Changed(t, c, value), acts')
    requires value < t.eoc && value != 0 && value != t.bad && t.Used(value) && Unnamed(t, value)
    ensures Chain(t, value).Ok? && c !in Chain(t, value).value
  {
    hide Chain, Covered;
    var t' := Changed(t, c, value);
    var i, s := HeadHeld(t, acts, value);
    if c in s {
      var k :| 0 <= k < |s| && s[k] == c;
      KeptStretch(t, s, k, value);
      NoRing(t', acts', s[..k + 1]);
    }
  }

  lemma KeptStretch(t: Table, s: seq<nat>, k: nat, value: nat)
    requires s != [] && IsChain(t, s[0], s) && k < |s|
    ensures Linked(Changed(t, s[k], value), s[..k + 1])
  {
    var t', p := Changed(t, s[k], value), s[..k + 1];
    ChainNoDup(t, s[0], s);
    forall i | 0 < i < |p| ensures t'.Links(p[i - 1], p[i]) {
      assert t.Links(s[i - 1], s[i]);
    }
  }

  // Which claims there are.

  ghost predicate Claimed(acts: seq<Action>, a: Action) {
    a in acts && a.Claim?
  }

  lemma ClaimedAppend(a: seq<Action>, b: seq<Action>, x: Action)
    ensures Claimed(a + b, x) <==> Claimed(a, x) || Claimed(b, x)
  {
  }

  lemma {:induction false} ClaimsAre(acts: seq<Action>, x: Action)
    ensures x in Claims(acts) <==> Claimed(acts, x)
    decreases |acts|
  {
    if acts == [] {
    } else {
      ClaimsAre(acts[1..], x);
      assert acts == [acts[0]] + acts[1..];
      ClaimedAppend([acts[0]], acts[1..], x);
    }
  }

  lemma ClaimIndex(acts: seq<Action>, a: Action) returns (h: nat)
    requires Claimed(acts, a)
    ensures h < |acts| && acts[h] == a && a.Claim?
  {
    h :| 0 <= h < |acts| && acts[h] == a;
  }

  // One holder's chain, its entry at `p[j]` changed.

  /** A cut chain leaves a cluster that nothing holds. */
  lemma CutLeaves(t: Table, acts: seq<Action>, h: nat, p: seq<nat>, j: nat, value: nat, acts': seq<Action>)
    requires Covered(t, acts) && h < |acts| && acts[h].Claim? && Chain(t, acts[h].start) == Ok(p) && j + 1 < |p|
    requires t.Used(p[j]) && value >= t.eoc && Covered(Changed(t, p[j], value), acts')
    ensures exists a :: a in acts' && a.Claim? && a !in acts
  {
    hide Covered, Chain;
    var t', c, lost := Changed(t, p[j], value), p[j], p[j + 1];
    ChainExact(t, acts[h].start, p);
    ChainNoDup(t, acts[h].start, p);
    ChainUsed(t, acts, h, p, j + 1);
    var i, k, s := WhereHeld(t', acts', lost);
    if acts'[i] in acts {
      var m :| 0 <= m < |acts| && acts[m] == acts'[i];
      NotHeld(t, acts, h, p, j, value, m, s, k);
    }
  }

  lemma NotHeld(t: Table, acts: seq<Action>, h: nat, p: seq<nat>, j: nat, value: nat, m: nat, s: seq<nat>, k: nat)
    requires Covered(t, acts) && h < |acts| && acts[h].Claim? && IsChain(t, acts[h].start, p) && j + 1 < |p|
    requires value >= t.eoc && m < |acts| && acts[m].Claim? && t.Holds(p[j])
    requires Chain(Changed(t, p[j], value), acts[m].start) == Ok(s) && k < |s|
    ensures s[k] != p[j + 1]
  {
    hide Covered, Chain;
    var t', c := Changed(t, p[j], value), p[j];
    ChainExact(t, acts[h].start, p);
    ChainNoDup(t, acts[h].start, p);
    ClaimChain(t, acts, m);
    var q := Chain(t, acts[m].start).value;
    if c in q {
      var l :| 0 <= l < |q| && q[l] == c;
      HeldOnce(t, acts, m, l, h, j);
      KeptStretch(t, p, j, value);
      ChainExact(t', p[0], p[..j + 1]);
      assert s == p[..j + 1];
    } else {
      ChainElsewhere(t, c, value, acts[m].start);
      if s[k] == p[j + 1] {
        HeldOnce(t, acts, m, k, h, j + 1);
      }
    }
  }

  lemma ClaimChain(t: Table, acts: seq<Action>, i: nat)
    requires Covered(t, acts) && i < |acts| && acts[i].Claim?
    ensures Chain(t, acts[i].start).Ok?
  {
  }

  /** A chain whose holder is still there does not begin at a free or a bad cluster. */
  lemma HeadMarked(t: Table, c: nat, value: nat, acts': seq<Action>, a: Action)
    requires t.Holds(c) && (value == 0 || value == t.bad) && Covered(Changed(t, c, value), acts')
    requires a.Claim? && a in acts'
    ensures a.start != c
  {
    hide Covered, Chain;
    var i :| 0 <= i < |acts'| && acts'[i] == a;
    ClaimChain(Changed(t, c, value), acts', i);
    SaneTable(Changed(t, c, value), acts');
    ChainBound(Changed(t, c, value), a.start);
    var s := Chain(Changed(t, c, value), a.start).value;
    assert s[0] in s;
  }

  /** A chain that a changed entry names is not another's as well. */
  lemma HeadNamed(t: Table, c: nat, value: nat, acts': seq<Action>, a: Action)
    requires t.Holds(c) && value != 0 && value != t.bad && value < t.eoc && Covered(Changed(t, c, value), acts')
    requires a.Claim? && a in acts'
    ensures a.start != value
  {
    hide Covered, Chain;
    var t' := Changed(t, c, value);
    if a.start == value {
      var m :| 0 <= m < |acts'| && acts'[m] == a;
      ClaimChain(t', acts', m);
      SaneTable(t', acts');
      ChainBound(t', value);
      var i, k, s := NextHeld(t', acts', c);
      HeldOnce(t', acts', i, k + 1, m, 0);
    }
  }

  /** Both FATs without a fault, the changed chain's holder still there, and so the one of the cluster now named, if
      there was one, and no new one for the clusters cut off: then nothing changed, or the last end mark did. */
  lemma HolderDecides(t: Table, acts: seq<Action>, h: nat, p: seq<nat>, j: nat, value: nat, acts': seq<Action>)
    requires Covered(t, acts) && h < |acts| && acts[h].Claim? && Chain(t, acts[h].start) == Ok(p) && j < |p|
    requires t.Used(p[j]) && value != t.next[p[j]] && Covered(Changed(t, p[j], value), acts')
    requires acts[h] in acts' && forall a :: a in acts && a.Claim? && a.start == value ==> a in acts'
    requires value >= t.eoc ==> forall a :: a in acts' && a.Claim? ==> a in acts
    ensures j + 1 == |p| && value >= t.eoc
  {
    hide Covered, Chain, IsChain, Unnamed;
    LinksDecide(t, acts, p[j], value, acts');
    SaneTable(t, acts);
    ChainExact(t, acts[h].start, p);
    ChainHead(t, acts[h].start, p);
    if value >= t.eoc {
      if j + 1 < |p| {
        CutLeaves(t, acts, h, p, j, value, acts');
      }
    } else if value == 0 || value == t.bad {
      if j > 0 {
        NamedBefore(t, p, j);
      } else {
        HeadMarked(t, p[0], value, acts', acts[h]);
      }
    } else {
      var i, s := HeadHeld(t, acts, value);
      HeadNamed(t, p[j], value, acts', acts[i]);
    }
  }

  // A change that changes no chain.

  lemma {:induction false} FollowSame(t: Table, c: nat, value: nat, first: nat, out: seq<nat>)
    requires t.Sane() && c < |t.next| && Met(t, out)
    requires value == t.next[c] || (t.next[c] >= t.eoc && value >= t.eoc)
    ensures Met(Changed(t, c, value), out) && Follow(Changed(t, c, value), first, out) == Follow(t, first, out)
    decreases |t.next| - |out|
  {
    var t' := Changed(t, c, value);
    assert forall x :: t'.Holds(x) <==> t.Holds(x);
    if !t.Holds(first) || first in out {
    } else {
      MetBound(t, out + [first]);
      if t.next[first] >= t.eoc || t.next[first] == 0 || t.next[first] == t.bad {
      } else {
        FollowSame(t, c, value, t.next[first], out + [first]);
      }
    }
  }

  lemma ChainStays(t: Table, c: nat, value: nat, first: nat)
    requires t.Sane() && c < |t.next| && (value == t.next[c] || (t.next[c] >= t.eoc && value >= t.eoc))
    ensures SameChain(t, Changed(t, c, value), first)
  {
    FollowSame(t, c, value, first, []);
  }

  lemma UsedStays(t: Table, c: nat, value: nat)
    requires t.Sane() && t.Used(c) && (value == t.next[c] || (t.next[c] >= t.eoc && value >= t.eoc))
    ensures UsedSet(Changed(t, c, value)) == UsedSet(t) && value != 0
  {
    assert |Changed(t, c, value).next| == |t.next|;
  }

  lemma {:induction false} HeldStays(t: Table, t': Table, clusterBytes: nat, acts: seq<Action>)
    requires 0 < clusterBytes && AllSound(t, clusterBytes, acts) && forall first: nat :: SameChain(t, t', first)
    ensures AllSound(t', clusterBytes, acts) && Held(t', acts) == Held(t, acts)
    decreases |acts|
  {
    hide Chain;
    if acts == [] {
    } else {
      assert forall i :: 0 <= i < |acts[1..]| ==> acts[1..][i] == acts[i + 1];
      HeldStays(t, t', clusterBytes, acts[1..]);
      assert Sound(t, clusterBytes, acts[0]);
      if acts[0].Claim? {
        assert SameChain(t, t', acts[0].start);
      }
      forall i | 0 <= i < |acts| ensures Sound(t', clusterBytes, acts[i]) {
        if i > 0 {
          assert Sound(t', clusterBytes, acts[1..][i - 1]);
        }
      }
    }
  }

  /** An entry of a cluster in use that says what it said, or is an end mark as it was, leaves the volume clean. */
  lemma StaysClean(d: Disk, fold: Fold, c: nat, value: nat)
    requires ChecksClean(d, fold) && TableOf(d).Used(c) && 1 <= d.g.reserved && Plain(d.g, value)
    requires d.g.kind.Fat32? ==> d.g.fsinfo < d.g.reserved
    requires var t := TableOf(d); value == t.next[c] || (t.next[c] >= t.eoc && value >= t.eoc)
    ensures ChecksClean(Rewritten(d, c, value), fold)
  {
    hide Mounted, FatOf, TableOf, HeadProblems, WalkActions, Rewritten, SameData, SameOutside, UsedSet, Held, AllSound,
         CountProblems, Plain, Packable, SameChain;
    var d', t := Rewritten(d, c, value), TableOf(d);
    BytesPositive(d);
    CleanExact(d, fold);
    var acts := WalkActions(d, fold).value;
    PlainIs(d.g, value);
    UsedStays(t, c, value);
    RewrittenTable(d, c, value);
    RewrittenMounts(d, c, value);
    SameLayout(d, d');
    DamagedHead(d, fold, c, value);
    assert TableOf(d') == Changed(t, c, value);
    forall first: nat ensures SameChain(t, TableOf(d'), first) {
      ChainStays(t, c, value, first);
    }
    WalkSame(d, d', fold);
    HeldStays(t, TableOf(d'), d.g.ClusterBytes(), acts);
    CleanExact(d', fold);
  }
}
