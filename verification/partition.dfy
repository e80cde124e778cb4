/** What a clean check is worth: every cluster is free, bad, or in exactly one listed chain. */
module Partition {
  import opened Results
  import opened Report
  import opened Seqs
  import opened Chains
  import opened Geometries
  import opened Directories
  import opened Walks
  import opened Ownership
  import opened Checks

  // From actions to listed items.

  /** The clusters a listed item holds: none, for an empty file. */
  ghost function ItemChain(t: Table, item: Item): seq<nat> {
    if (item.isDir || item.size > 0) && Chain(t, item.first).Ok? then Chain(t, item.first).value else []
  }

  ghost function ItemChains(t: Table, items: seq<Item>): (r: seq<seq<nat>>)
    ensures |r| == |items|
    ensures forall i :: 0 <= i < |items| ==> r[i] == ItemChain(t, items[i])
  {
    if items == [] then [] else [ItemChain(t, items[0])] + ItemChains(t, items[1..])
  }

  /** A directory has a chain and no size; an empty file has no cluster; any other file has a chain of just
      the clusters its size needs. */
  ghost predicate Fits(t: Table, clusterBytes: nat, item: Item)
    requires 0 < clusterBytes
  {
    if item.isDir then item.size == 0 && Chain(t, item.first).Ok?
    else if item.size == 0 then item.first == 0
    else Chain(t, item.first).Ok? && |Chain(t, item.first).value| == ClustersFor(item.size, clusterBytes)
  }

  ghost predicate AllFit(t: Table, clusterBytes: nat, items: seq<Item>)
    requires 0 < clusterBytes
  {
    forall i :: 0 <= i < |items| ==> Fits(t, clusterBytes, items[i])
  }

  /** The claims among the actions. */
  function Claims(acts: seq<Action>): seq<Action>
    decreases |acts|
  {
    if acts == [] then [] else (if acts[0].Claim? then [acts[0]] else []) + Claims(acts[1..])
  }

  lemma {:induction false} ClaimsAppend(a: seq<Action>, b: seq<Action>)
    ensures Claims(a + b) == Claims(a) + Claims(b)
    decreases |a|
  {
    if a == [] {
      assert a + b == b;
    } else {
      assert (a + b)[0] == a[0] && (a + b)[1..] == a[1..] + b;
      ClaimsAppend(a[1..], b);
    }
  }

  /** What a listed item claims. */
  function ItemClaim(item: Item): seq<Action> {
    if item.isDir then [Claim(item.path, item.first, None)]
    else if item.size > 0 then [Claim(item.path, item.first, Some(item.size))]
    else []
  }

  function ItemClaims(items: seq<Item>): seq<Action> {
    if items == [] then [] else ItemClaim(items[0]) + ItemClaims(items[1..])
  }

  lemma {:induction false} ItemClaimsAppend(a: seq<Item>, b: seq<Item>)
    ensures ItemClaims(a + b) == ItemClaims(a) + ItemClaims(b)
  {
    if a == [] {
      assert a + b == b;
    } else {
      assert (a + b)[0] == a[0] && (a + b)[1..] == a[1..] + b;
      ItemClaimsAppend(a[1..], b);
    }
  }

  /** If the actions are sound, what they claim is, in order, what their listing holds. */
  ghost predicate Matched(t: Table, clusterBytes: nat, acts: seq<Action>)
    requires 0 < clusterBytes
  {
    AllSound(t, clusterBytes, acts) ==>
      && Claims(acts) == ItemClaims(Listed(acts))
      && AllFit(t, clusterBytes, Listed(acts))
  }

  /** Only claims hold clusters. */
  lemma {:induction false} HeldByClaims(t: Table, acts: seq<Action>)
    ensures Held(t, acts) == Held(t, Claims(acts))
    decreases |acts|
  {
    hide Chain;
    if acts == [] {
    } else {
      HeldByClaims(t, acts[1..]);
      if acts[0].Claim? {
        HeldAppend(t, [acts[0]], Claims(acts[1..]));
        assert Held(t, [acts[0]]) == HeldBy(t, acts[0]) + Held(t, []);
      } else {
        assert HeldBy(t, acts[0]) == [];
        assert Claims(acts) == [] + Claims(acts[1..]) == Claims(acts[1..]);
      }
    }
  }

  lemma {:induction false} HeldByItems(t: Table, items: seq<Item>)
    ensures Held(t, ItemClaims(items)) == Flatten(ItemChains(t, items))
  {
    hide Chain;
    if items == [] {
    } else {
      HeldByItems(t, items[1..]);
      HeldAppend(t, ItemClaim(items[0]), ItemClaims(items[1..]));
      if ItemClaim(items[0]) != [] {
        var c := ItemClaim(items[0])[0];
        assert ItemClaim(items[0]) == [c];
        assert Held(t, [c]) == HeldBy(t, c) + Held(t, []) == HeldBy(t, c);
      }
      assert ItemChains(t, items)[1..] == ItemChains(t, items[1..]);
    }
  }

  lemma MatchedAppend(t: Table, clusterBytes: nat, a: seq<Action>, b: seq<Action>)
    requires 0 < clusterBytes && Matched(t, clusterBytes, a) && Matched(t, clusterBytes, b)
    ensures Matched(t, clusterBytes, a + b)
  {
    hide Sound, Fits, ItemChain, HeldBy;
    if AllSound(t, clusterBytes, a + b) {
      assert forall i :: 0 <= i < |a| ==> a[i] == (a + b)[i];
      assert forall i :: 0 <= i < |b| ==> b[i] == (a + b)[|a| + i];
      ListedAppend(a, b);
      ClaimsAppend(a, b);
      ItemClaimsAppend(Listed(a), Listed(b));
    }
  }

  lemma NoteMatched(t: Table, clusterBytes: nat, problem: Problem)
    requires 0 < clusterBytes
    ensures Matched(t, clusterBytes, [Note(problem)])
  {
    assert !Sound(t, clusterBytes, [Note(problem)][0]);
  }

  lemma NoneMatched(t: Table, clusterBytes: nat)
    requires 0 < clusterBytes
    ensures Matched(t, clusterBytes, [])
  {
  }

  lemma StampMatched(t: Table, clusterBytes: nat, at: Name, mtime: Option<int>)
    requires 0 < clusterBytes
    ensures Matched(t, clusterBytes, [Stamp(at, mtime)])
  {
    assert Claims([Stamp(at, mtime)]) == [] + Claims([]);
    assert Listed([Stamp(at, mtime)]) == [] + Listed([]);
  }

  lemma DirMatched(t: Table, clusterBytes: nat, dir: Name, e: Entry)
    requires 0 < clusterBytes
    ensures Matched(t, clusterBytes, DirActions(t, dir, e))
  {
    hide Follow;
    var full := Join(dir, e.name);
    if e.size != 0 {
      assert !Sound(t, clusterBytes, DirActions(t, dir, e)[0]);
    } else if e.first == 0 {
      assert !Sound(t, clusterBytes, DirActions(t, dir, e)[0]);
    } else if Chain(t, e.first).Err? {
      assert !Sound(t, clusterBytes, DirActions(t, dir, e)[0]);
    } else {
      var claim, list := Claim(full, e.first, None), List(dir, e.name, true, e.first, 0);
      assert DirActions(t, dir, e) == [claim] + [list];
      PairMatched(t, clusterBytes, [claim], [list], Item(full, true, e.first, 0));
    }
  }

  lemma FileMatched(t: Table, clusterBytes: nat, dir: Name, e: Entry)
    requires 0 < clusterBytes
    ensures Matched(t, clusterBytes, FileActions(dir, e))
  {
    hide Follow;
    var full := Join(dir, e.name);
    var list := List(dir, e.name, false, e.first, e.size);
    var acts := FileActions(dir, e);
    if e.size == 0 && e.first == 0 {
      assert acts == [list] + [];
      PairMatched(t, clusterBytes, [list], [], Item(full, false, 0, 0));
    } else if e.size == 0 || e.first == 0 {
      assert !Sound(t, clusterBytes, acts[1]);
    } else {
      assert acts == [list] + [Claim(full, e.first, Some(e.size))];
      if AllSound(t, clusterBytes, acts) {
        assert Sound(t, clusterBytes, acts[1]);
        PairMatched(t, clusterBytes, [list], [acts[1]], Item(full, false, e.first, e.size));
      }
    }
  }

  /** A listing and its claim, in either order. */
  lemma PairMatched(t: Table, clusterBytes: nat, a: seq<Action>, b: seq<Action>, item: Item)
    requires 0 < clusterBytes && |a| == 1 && |b| <= 1 && Fits(t, clusterBytes, item)
    requires Listed(a) + Listed(b) == [item] && Claims(a) + Claims(b) == ItemClaim(item)
    ensures Matched(t, clusterBytes, a + b)
  {
    hide Fits, ItemClaim;
    ListedAppend(a, b);
    ClaimsAppend(a, b);
    assert [item][1..] == [];
    assert ItemClaims([item]) == ItemClaim(item) + ItemClaims([]);
  }

  lemma EntryMatched(t: Table, clusterBytes: nat, fold: Fold, p: Place, seen: Seen, e: Entry)
    requires 0 < clusterBytes
    ensures Matched(t, clusterBytes, EntryActions(t, fold, p, seen, e))
  {
    hide Matched, DirActions, FileActions;
    NoneMatched(t, clusterBytes);
    if e.name == DOT {
      NoteMatched(t, clusterBytes, DotWrong(p.path, e.first, p.first));
    } else if e.name == DOTDOT {
      NoteMatched(t, clusterBytes, DotDotWrong(p.path, e.first, p.parent));
    } else {
      var full := Join(p.path, e.name);
      var second := if fold(e.name) in seen.names then [Note(SecondOfName(full))] else [];
      var rest := if e.IsDir() then DirActions(t, p.path, e) else FileActions(p.path, e);
      StampMatched(t, clusterBytes, full, e.mtime);
      NoteMatched(t, clusterBytes, SecondOfName(full));
      DirMatched(t, clusterBytes, p.path, e);
      FileMatched(t, clusterBytes, p.path, e);
      MatchedAppend(t, clusterBytes, [Stamp(full, e.mtime)], second);
      MatchedAppend(t, clusterBytes, [Stamp(full, e.mtime)] + second, rest);
    }
  }

  lemma {:induction false} VisitMatched(d: Disk, fold: Fold, p: Place)
    requires Mounted(d) && Visit(d, fold, p).Ok? && 0 < d.g.ClusterBytes()
    ensures Matched(TableOf(d), d.g.ClusterBytes(), Visit(d, fold, p).value)
    decreases if p.depth > MAX_DEPTH then 0 else MAX_DEPTH + 1 - p.depth, 1, 0
  {
    hide Matched, Mounted, Events, Scan, TableOf;
    if p.depth > MAX_DEPTH {
      NoteMatched(TableOf(d), d.g.ClusterBytes(), TooDeep(p.path));
    } else {
      ScanMatched(d, fold, p, Events(d, p.first, Where(p.path)).value, NOTHING);
    }
  }

  lemma {:induction false} ScanMatched(d: Disk, fold: Fold, p: Place, events: seq<Event>, seen: Seen)
    requires Mounted(d) && p.depth <= MAX_DEPTH && Scan(d, fold, p, events, seen).Ok? && 0 < d.g.ClusterBytes()
    ensures Matched(TableOf(d), d.g.ClusterBytes(), Scan(d, fold, p, events, seen).value)
    decreases MAX_DEPTH + 1 - p.depth, 0, |events|
  {
    hide Matched, Mounted, TableOf, EntryActions, Enters, Visit, SeeEntry;
    var t, n := TableOf(d), d.g.ClusterBytes();
    NoneMatched(t, n);
    if events == [] {
      NoteMatched(t, n, DotsMissing(p.path));
    } else if events[0].Flaw? {
      ScanMatched(d, fold, p, events[1..], seen);
      NoteMatched(t, n, events[0].problem);
      MatchedAppend(t, n, [Note(events[0].problem)], Scan(d, fold, p, events[1..], seen).value);
    } else {
      var e := events[0].entry;
      var inner := if Enters(t, e) then Visit(d, fold, Inside(p, e)) else Ok([]);
      if Enters(t, e) {
        VisitMatched(d, fold, Inside(p, e));
      }
      EntryMatched(t, n, fold, p, seen, e);
      ScanMatched(d, fold, p, events[1..], SeeEntry(fold, seen, e));
      MatchedAppend(t, n, EntryActions(t, fold, p, seen, e), inner.value);
      MatchedAppend(t, n, EntryActions(t, fold, p, seen, e) + inner.value,
                    Scan(d, fold, p, events[1..], SeeEntry(fold, seen, e)).value);
    }
  }

  // Leaks and counts.

  lemma {:induction false} UnreachedHas(t: Table, owner: map<nat, Name>, n: nat, c: nat)
    requires n <= |t.next|
    ensures c in Unreached(t, owner, n) <==> c < n && t.Used(c) && c !in owner
  {
    if n == 0 {
    } else {
      UnreachedHas(t, owner, n - 1, c);
    }
  }

  predicate RisingBelow(u: seq<nat>, n: nat) {
    (forall i :: 0 <= i < |u| ==> u[i] < n) && (forall i, j :: 0 <= i < j < |u| ==> u[i] < u[j])
  }

  lemma {:induction false} UnreachedRises(t: Table, owner: map<nat, Name>, n: nat)
    requires n <= |t.next|
    ensures RisingBelow(Unreached(t, owner, n), n)
  {
    if n == 0 {
    } else {
      UnreachedRises(t, owner, n - 1);
    }
  }

  /** The leaks are the clusters in use that have no owner, each once, in rising order. */
  lemma UnreachedExact(t: Table, owner: map<nat, Name>, n: nat)
    requires n <= |t.next|
    ensures var u := Unreached(t, owner, n);
      && (forall c: nat :: c in u <==> c < n && t.Used(c) && c !in owner)
      && (forall i, j :: 0 <= i < j < |u| ==> u[i] < u[j])
  {
    UnreachedRises(t, owner, n);
    forall c: nat ensures c in Unreached(t, owner, n) <==> c < n && t.Used(c) && c !in owner {
      UnreachedHas(t, owner, n, c);
    }
  }

  lemma NoLeaks(t: Table, owner: map<nat, Name>)
    ensures LeakProblems(t, owner) == [] <==> UsedSet(t) <= owner.Keys
  {
    var u := Unreached(t, owner, |t.next|);
    UnreachedExact(t, owner, |t.next|);
    if u != [] {
      assert u[0] in u && u[0] in UsedSet(t);
    }
  }

  lemma SetsCount(t: Table)
    requires t.Sane() && 2 <= |t.next|
    ensures |FreeSet(t)| + |BadSet(t)| + |UsedSet(t)| == |t.next| - 2
  {
    var free, bad, used := FreeSet(t), BadSet(t), UsedSet(t);
    assert free !! bad && (free + bad) !! used;
    var all := free + bad + used;
    assert |free + bad| == |free| + |bad| && |all| == |free + bad| + |used|;
    SameElements(all, 2, |t.next|);
  }

  lemma SameElements(s: set<nat>, lo: nat, hi: nat)
    requires lo <= hi && forall c: nat :: c in s <==> lo <= c < hi
    ensures |s| == hi - lo
  {
    RangeCard(lo, hi);
    assert s == Range(lo, hi);
  }

  /** The actions of a walk never claim a cluster that is not in use. */
  lemma {:induction false} HeldUsed(t: Table, acts: seq<Action>)
    requires t.Sane()
    ensures forall c :: c in Held(t, acts) ==> c < |t.next| && t.Used(c)
    decreases |acts|
  {
    hide Follow;
    if acts == [] {
    } else {
      HeldUsed(t, acts[1..]);
      if acts[0].Claim? && Chain(t, acts[0].start).Ok? {
        ChainBound(t, acts[0].start);
      }
    }
  }

  /** The check is clean exactly when there is nothing wrong with the volume's own fields, every action of the
      walk is sound, no cluster is claimed twice, and the clusters claimed are just the clusters in use. */
  lemma CleanExact(d: Disk, fold: Fold)
    requires Mounted(d)
    ensures 0 < d.g.ClusterBytes()
    ensures Check(d, fold) == Ok([]) <==>
      && HeadProblems(d) == Ok([]) && WalkActions(d, fold).Ok?
      && var acts := WalkActions(d, fold).value;
         && AllSound(TableOf(d), d.g.ClusterBytes(), acts) && NoDup(Held(TableOf(d), acts))
         && Elems(Held(TableOf(d), acts)) == UsedSet(TableOf(d))
  {
    hide Mounted, HeadProblems, WalkActions, Replay, AllSound, Held;
    BytesPositive(d);
    if HeadProblems(d).Ok? && WalkActions(d, fold).Ok? {
      hide UsedSet, LeakProblems;
      var t, n, head, acts := TableOf(d), d.g.ClusterBytes(), HeadProblems(d).value, WalkActions(d, fold).value;
      var s := Replay(t, n, Start(head), acts);
      ReplayExact(t, n, Start(head), acts);
      ReplayExact(t, n, Start([]), acts);
      NoLeaks(t, s.owner);
      HeldInUse(t, acts);
    }
  }

  lemma HeldInUse(t: Table, acts: seq<Action>)
    requires t.Sane()
    ensures Elems(Held(t, acts)) <= UsedSet(t)
  {
    HeldUsed(t, acts);
  }

  /** The chains of a clean volume: FAT32's root first, then every listed item's. */
  ghost function Holders(d: Disk, out: seq<Item>): seq<seq<nat>>
    requires Mounted(d)
  {
    var t := TableOf(d);
    (if d.g.kind.Fat32? && Chain(t, d.g.rootCluster).Ok? then [Chain(t, d.g.rootCluster).value] else [])
    + ItemChains(t, out)
  }

  function Total<T>(ss: seq<seq<T>>): nat {
    if ss == [] then 0 else |ss[0]| + Total(ss[1..])
  }

  lemma {:induction false} FlattenTotal<T>(ss: seq<seq<T>>)
    ensures |Flatten(ss)| == Total(ss)
  {
    if ss == [] {
    } else {
      FlattenTotal(ss[1..]);
    }
  }

  lemma {:induction false} FlattenHas<T>(ss: seq<seq<T>>, i: nat, x: T)
    requires i < |ss| && x in ss[i]
    ensures x in Flatten(ss)
  {
    if i == 0 {
    } else {
      FlattenHas(ss[1..], i - 1, x);
    }
  }

  lemma {:induction false} FlattenWhere<T>(ss: seq<seq<T>>, x: T)
    ensures x in Flatten(ss) <==> exists i :: 0 <= i < |ss| && x in ss[i]
  {
    if ss == [] {
    } else {
      FlattenWhere(ss[1..], x);
      if x in Flatten(ss[1..]) {
        var i :| 0 <= i < |ss[1..]| && x in ss[1..][i];
        assert x in ss[i + 1];
      }
      if i :| 0 <= i < |ss| && x in ss[i] {
        FlattenHas(ss, i, x);
      }
    }
  }

  /** Sequences whose concatenation repeats nothing share nothing. */
  lemma {:induction false} FlattenApart<T>(ss: seq<seq<T>>, i: nat, j: nat, x: T)
    requires NoDup(Flatten(ss)) && i < |ss| && j < |ss| && x in ss[i] && x in ss[j]
    ensures i == j
  {
    NoDupAppend(ss[0], Flatten(ss[1..]));
    assert x in Elems(ss[0]) ==> x !in Elems(Flatten(ss[1..]));
    if 0 < i && 0 < j {
      FlattenApart(ss[1..], i - 1, j - 1, x);
    } else if 0 < i {
      FlattenHas(ss[1..], i - 1, x);
    } else if 0 < j {
      FlattenHas(ss[1..], j - 1, x);
    }
  }

  lemma ClaimFirst(t: Table, clusterBytes: nat, claim: Action, rest: seq<Action>)
    requires 0 < clusterBytes && claim.Claim? && AllSound(t, clusterBytes, [claim] + rest)
    ensures AllSound(t, clusterBytes, rest) && Chain(t, claim.start).Ok?
    ensures Listed([claim] + rest) == Listed(rest)
    ensures Held(t, [claim] + rest) == Chain(t, claim.start).value + Held(t, rest)
  {
    hide Follow;
    var acts := [claim] + rest;
    assert Sound(t, clusterBytes, acts[0]);
    assert acts[1..] == rest;
    assert forall i :: 0 <= i < |rest| ==> rest[i] == acts[i + 1];
  }

  lemma ClaimsFirst(claim: Action, rest: seq<Action>)
    requires claim.Claim?
    ensures Claims([claim] + rest) == [claim] + Claims(rest)
  {
    assert ([claim] + rest)[1..] == rest;
  }

  lemma VisitHeld(d: Disk, fold: Fold)
    requires Mounted(d) && Visit(d, fold, TopPlace()).Ok? && 0 < d.g.ClusterBytes()
    requires AllSound(TableOf(d), d.g.ClusterBytes(), Visit(d, fold, TopPlace()).value)
    ensures var acts := Visit(d, fold, TopPlace()).value;
      && Held(TableOf(d), acts) == Flatten(ItemChains(TableOf(d), Listed(acts)))
      && Claims(acts) == ItemClaims(Listed(acts))
      && AllFit(TableOf(d), d.g.ClusterBytes(), Listed(acts))
  {
    hide Mounted, Visit, TableOf, AllSound, AllFit, ItemChain, Chain, Held, Listed, Claims, ItemClaims;
    VisitMatched(d, fold, TopPlace());
    HeldByClaims(TableOf(d), Visit(d, fold, TopPlace()).value);
    HeldByItems(TableOf(d), Listed(Visit(d, fold, TopPlace()).value));
  }

  /** The claims of a walk: FAT32's root, then those of the listing. */
  function WalkClaims(g: Geometry, out: seq<Item>): seq<Action> {
    (if g.kind.Fat32? then [Claim(ROOT, g.rootCluster, None)] else []) + ItemClaims(out)
  }

  lemma WalkMatched(d: Disk, fold: Fold)
    requires Mounted(d) && WalkActions(d, fold).Ok? && 0 < d.g.ClusterBytes()
    requires AllSound(TableOf(d), d.g.ClusterBytes(), WalkActions(d, fold).value)
    ensures var acts := WalkActions(d, fold).value;
      && Held(TableOf(d), acts) == Flatten(Holders(d, Listed(acts)))
      && Claims(acts) == WalkClaims(d.g, Listed(acts))
      && AllFit(TableOf(d), d.g.ClusterBytes(), Listed(acts))
      && (d.g.kind.Fat32? ==> Chain(TableOf(d), d.g.rootCluster).Ok?)
  {
    hide Mounted, Visit, TableOf, Chain, AllFit, AllSound, Held, Listed, ItemChain, Claims, ItemClaims;
    var t, n, acts := TableOf(d), d.g.ClusterBytes(), WalkActions(d, fold).value;
    if d.g.kind.Fat16? {
      VisitHeld(d, fold);
      assert [] + ItemClaims(Listed(acts)) == ItemClaims(Listed(acts));
      assert [] + ItemChains(t, Listed(acts)) == ItemChains(t, Listed(acts));
    } else {
      var claim := Claim(ROOT, d.g.rootCluster, None);
      if Chain(t, d.g.rootCluster).Err? {
        assert acts == [claim] + [];
        ClaimFirst(t, n, claim, []);
      } else {
        var rest := Visit(d, fold, TopPlace()).value;
        ClaimFirst(t, n, claim, rest);
        ClaimsFirst(claim, rest);
        VisitHeld(d, fold);
        var root := [Chain(t, d.g.rootCluster).value];
        assert (root + ItemChains(t, Listed(rest)))[1..] == ItemChains(t, Listed(rest));
      }
    }
  }

  /** A clean check partitions the volume. Every listed directory and file holds a chain that fits it. Every
      cluster is exactly one of free, bad, or in one chain, and in one chain only. Nothing is lost: the free
      clusters, the bad ones and the lengths of the chains add up to the clusters there are. */
  lemma CleanPartition(d: Disk, fold: Fold, c: nat)
    requires ChecksClean(d, fold) && 2 <= c <= d.g.MaxCluster()
    ensures Walked(d, fold, []).Ok? && 0 < d.g.ClusterBytes()
    ensures var t, out := TableOf(d), Walked(d, fold, []).value.out;
      var holders := Holders(d, out);
      && AllFit(t, d.g.ClusterBytes(), out)
      && (t.Used(c) <==> exists i :: 0 <= i < |holders| && c in holders[i])
      && (forall i, j :: 0 <= i < |holders| && 0 <= j < |holders| && c in holders[i] && c in holders[j] ==> i == j)
      && (forall i :: 0 <= i < |holders| ==> NoDup(holders[i]))
      && (t.Free(c) || t.Bad(c) || t.Used(c)) && !(t.Free(c) && t.Bad(c))
      && FreeCount(t) + |BadSet(t)| + Total(holders) == d.g.clusters
  {
    hide Mounted, HeadProblems, WalkActions, Replay, Held, AllSound, Holders, AllFit;
    CleanExact(d, fold);
    BytesPositive(d);
    WalkMatched(d, fold);
    var t, n, acts := TableOf(d), d.g.ClusterBytes(), WalkActions(d, fold).value;
    ReplayExact(t, n, Start([]), acts);
    assert Start([]).out + Listed(acts) == Listed(acts);
    var holders := Holders(d, Listed(acts));
    FlattenWhere(holders, c);
    FlattenTotal(holders);
    NoDupCard(Flatten(holders));
    SetsCount(t);
    assert c in UsedSet(t) <==> t.Used(c);
    forall i, j | 0 <= i < |holders| && 0 <= j < |holders| && c in holders[i] && c in holders[j] ensures i == j {
      FlattenApart(holders, i, j, c);
    }
    forall i | 0 <= i < |holders| ensures NoDup(holders[i]) {
      PartNoDup(holders, i);
    }
  }

  lemma {:induction false} PartNoDup<T>(ss: seq<seq<T>>, i: nat)
    requires NoDup(Flatten(ss)) && i < |ss|
    ensures NoDup(ss[i])
  {
    NoDupAppend(ss[0], Flatten(ss[1..]));
    if i == 0 {
    } else {
      PartNoDup(ss[1..], i - 1);
    }
  }

  lemma {:induction false} ClaimsSound(t: Table, clusterBytes: nat, acts: seq<Action>)
    requires 0 < clusterBytes && AllSound(t, clusterBytes, acts)
    ensures AllSound(t, clusterBytes, Claims(acts)) && NoNotes(acts)
    decreases |acts|
  {
    hide Sound;
    if acts == [] {
    } else {
      assert forall i :: 0 <= i < |acts[1..]| ==> acts[1..][i] == acts[i + 1];
      ClaimsSound(t, clusterBytes, acts[1..]);
      assert Sound(t, clusterBytes, acts[0]);
      forall i | 0 <= i < |acts| ensures !acts[i].Note? {
        assert Sound(t, clusterBytes, acts[i]);
        SoundNoNote(t, clusterBytes, acts[i]);
      }
    }
  }

  lemma SoundNoNote(t: Table, clusterBytes: nat, a: Action)
    requires 0 < clusterBytes && Sound(t, clusterBytes, a)
    ensures !a.Note?
  {
  }

  lemma HolderAt(d: Disk, out: seq<Item>, x: nat, k: nat)
    requires Mounted(d) && x < |out|
    requires k == if d.g.kind.Fat32? && Chain(TableOf(d), d.g.rootCluster).Ok? then 1 else 0
    ensures k + x < |Holders(d, out)| && Holders(d, out)[k + x] == ItemChain(TableOf(d), out[x])
  {
    hide Mounted, TableOf, Chain, ItemChain;
  }

  lemma CleanHead(d: Disk, fold: Fold)
    requires ChecksClean(d, fold)
    ensures HeadProblems(d) == Ok([])
  {
    hide Mounted, HeadProblems, WalkActions, AllSound;
    CleanExact(d, fold);
  }
}
