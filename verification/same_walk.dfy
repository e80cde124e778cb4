/** Two volumes that differ in their FATs alone: when does the walk come to the same entries on both? */
module SameWalks {
  import opened Results
  import opened Report
  import opened Chains
  import opened Geometries
  import opened Directories
  import opened Walks

  /** `d'` has `d`'s layout and, from the root on, `d`'s bytes. */
  ghost predicate SameData(d: Disk, d': Disk) {
    && d'.base == d.base && d'.g == d.g && |d'.img| == |d.img|
    && forall lba: nat, n: nat :: d.g.RootStart() <= lba ==>
         Sectors(d'.img, d.base, lba, n) == Sectors(d.img, d.base, lba, n)
  }

  ghost predicate SameChain(t: Table, t': Table, first: nat) {
    Chain(t', first) == Chain(t, first)
  }

  /** Every directory that the actions claim has the same chain in both tables. */
  ghost predicate SameDirs(t: Table, t': Table, acts: seq<Action>) {
    forall i :: 0 <= i < |acts| && acts[i].Claim? && acts[i].bytes.None? ==> SameChain(t, t', acts[i].start)
  }

  lemma SameDirsParts(t: Table, t': Table, a: seq<Action>, b: seq<Action>)
    requires SameDirs(t, t', a + b)
    ensures SameDirs(t, t', a) && SameDirs(t, t', b)
  {
    assert forall i :: 0 <= i < |a| ==> a[i] == (a + b)[i];
    assert forall i :: 0 <= i < |b| ==> b[i] == (a + b)[|a| + i];
  }

  lemma {:induction false} ClustersSame(d: Disk, d': Disk, chain: seq<nat>)
    requires SameData(d, d') && forall i :: 0 <= i < |chain| ==> 2 <= chain[i]
    ensures ClustersOf(d', chain) == ClustersOf(d, chain)
  {
    hide Sectors, SameData;
    if chain == [] {
    } else {
      ClusterSame(d, d', chain[0]);
      ClustersSame(d, d', chain[1..]);
    }
  }

  lemma ClusterSame(d: Disk, d': Disk, c: nat)
    requires SameData(d, d') && 2 <= c
    ensures Sectors(d'.img, d'.base, d'.g.ClusterLba(c), d'.g.spc) == Sectors(d.img, d.base, d.g.ClusterLba(c), d.g.spc)
    ensures d'.g == d.g
  {
    hide Sectors;
    assert d.g.RootStart() <= d.g.ClusterLba(c);
  }

  /** The chain a directory's entries are read from, if they are in one. */
  function DirStart(g: Geometry, first: nat): nat {
    if first == 0 && g.kind.Fat32? then g.rootCluster else first
  }

  lemma EventsSame(d: Disk, d': Disk, first: nat, dir: Name)
    requires Mounted(d) && Mounted(d') && SameData(d, d')
    requires DirStart(d.g, first) != 0 ==> SameChain(TableOf(d), TableOf(d'), DirStart(d.g, first))
    ensures Events(d', first, dir) == Events(d, first, dir)
  {
    hide Mounted, TableOf, Decode, Slots, Chain, Sectors, ClustersOf;
    var start := DirStart(d.g, first);
    if start != 0 && ChainOf(d, start).Ok? {
      ClustersSame(d, d', ChainOf(d, start).value);
    }
    assert DirBytes(d', first) == DirBytes(d, first);
  }

  lemma EntrySame(t: Table, t': Table, fold: Fold, p: Place, seen: Seen, e: Entry)
    requires SameDirs(t, t', EntryActions(t, fold, p, seen, e))
    ensures EntryActions(t', fold, p, seen, e) == EntryActions(t, fold, p, seen, e)
    ensures Enters(t', e) == Enters(t, e)
    ensures Enters(t, e) ==> SameChain(t, t', e.first)
  {
    hide Chain, FileActions, DotActions;
    if !IsDots(e) && e.IsDir() && e.first != 0 {
      var full := Join(p.path, e.name);
      var head := [Stamp(full, e.mtime)] + if fold(e.name) in seen.names then [Note(SecondOfName(full))] else [];
      var more := DirActions(t, p.path, e);
      assert EntryActions(t, fold, p, seen, e) == head + more;
      SameDirsParts(t, t', head, more);
      var sized := if e.size != 0 then [Note(DirectorySize(full, e.size))] else [];
      assert more[|sized|] == Claim(full, e.first, None);
    }
  }

  /** A walk that claims the same directories comes to the same entries. */
  lemma {:induction false} VisitSame(d: Disk, d': Disk, fold: Fold, p: Place)
    requires Mounted(d) && Mounted(d') && SameData(d, d') && Visit(d, fold, p).Ok?
    requires SameDirs(TableOf(d), TableOf(d'), Visit(d, fold, p).value)
    requires DirStart(d.g, p.first) != 0 ==> SameChain(TableOf(d), TableOf(d'), DirStart(d.g, p.first))
    ensures Visit(d', fold, p) == Visit(d, fold, p)
    decreases if p.depth > MAX_DEPTH then 0 else MAX_DEPTH + 1 - p.depth, 1, 0
  {
    hide Mounted, TableOf, SameChain, SameDirs, SameData, Scan, Events;
    if p.depth <= MAX_DEPTH {
      EventsSame(d, d', p.first, Where(p.path));
      ScanSame(d, d', fold, p, Events(d, p.first, Where(p.path)).value, NOTHING);
    }
  }

  lemma {:induction false} ScanSame(d: Disk, d': Disk, fold: Fold, p: Place, events: seq<Event>, seen: Seen)
    requires Mounted(d) && Mounted(d') && SameData(d, d') && p.depth <= MAX_DEPTH
    requires Scan(d, fold, p, events, seen).Ok?
    requires SameDirs(TableOf(d), TableOf(d'), Scan(d, fold, p, events, seen).value)
    ensures Scan(d', fold, p, events, seen) == Scan(d, fold, p, events, seen)
    decreases MAX_DEPTH + 1 - p.depth, 0, |events|
  {
    hide Mounted, TableOf, SameChain, SameDirs, SameData, Visit, EntryActions, Enters, SeeEntry;
    var t, t' := TableOf(d), TableOf(d');
    if events == [] {
    } else if events[0].Flaw? {
      SameDirsParts(t, t', [Note(events[0].problem)], Scan(d, fold, p, events[1..], seen).value);
      ScanSame(d, d', fold, p, events[1..], seen);
    } else {
      var e := events[0].entry;
      var inner := if Enters(t, e) then Visit(d, fold, Inside(p, e)) else Ok([]);
      var rest := Scan(d, fold, p, events[1..], SeeEntry(fold, seen, e));
      var mine := EntryActions(t, fold, p, seen, e);
      SameDirsParts(t, t', mine + inner.value, rest.value);
      SameDirsParts(t, t', mine, inner.value);
      EntrySame(t, t', fold, p, seen, e);
      if Enters(t, e) {
        EntersStart(d.g, t, e);
        VisitSame(d, d', fold, Inside(p, e));
      }
      ScanSame(d, d', fold, p, events[1..], SeeEntry(fold, seen, e));
    }
  }

  lemma EntersStart(g: Geometry, t: Table, e: Entry)
    requires Enters(t, e)
    ensures DirStart(g, e.first) == e.first
  {
  }

  lemma WalkSame(d: Disk, d': Disk, fold: Fold)
    requires Mounted(d) && Mounted(d') && SameData(d, d') && WalkActions(d, fold).Ok?
    requires SameDirs(TableOf(d), TableOf(d'), WalkActions(d, fold).value)
    ensures WalkActions(d', fold) == WalkActions(d, fold)
  {
    hide Mounted, TableOf, SameData, Visit, Chain;
    var t, t', acts := TableOf(d), TableOf(d'), WalkActions(d, fold).value;
    ClusterSame(d, d', 2);
    if d.g.kind.Fat32? {
      assert acts[0] == Claim(ROOT, d.g.rootCluster, None);
      assert SameChain(t, t', d.g.rootCluster);
      if Chain(t, d.g.rootCluster).Ok? {
        SameDirsParts(t, t', [acts[0]], Visit(d, fold, TopPlace()).value);
        VisitSame(d, d', fold, TopPlace());
      }
    } else {
      RootOnFat16(d);
      VisitSame(d, d', fold, TopPlace());
    }
  }

  lemma RootOnFat16(d: Disk)
    requires d.g.kind.Fat16?
    ensures DirStart(d.g, 0) == 0
  {
  }

  /** The same actions do the same, if every chain they claim is the same. */
  lemma {:induction false} ReplaySame(t: Table, t': Table, clusterBytes: nat, s: State, acts: seq<Action>)
    requires 0 < clusterBytes
    requires forall i :: 0 <= i < |acts| && acts[i].Claim? ==> SameChain(t, t', acts[i].start)
    ensures Replay(t', clusterBytes, s, acts) == Replay(t, clusterBytes, s, acts)
    decreases |acts|
  {
    hide Chain, Take;
    if acts == [] {
    } else {
      ReplaySame(t, t', clusterBytes, Step(t, clusterBytes, s, acts[0]), acts[1..]);
    }
  }

  lemma SameLayout(d: Disk, d': Disk)
    requires SameData(d, d')
    ensures d'.g == d.g && d'.base == d.base
  {
  }

  lemma SameDataTrans(a: Disk, b: Disk, c: Disk)
    requires SameData(a, b) && SameData(b, c)
    ensures SameData(a, c)
  {
  }
}
