/** Damage to a directory's own chain. The walk may come to other entries then: what does it still claim, and what
    may it claim now? */
module DamageDirs {
  import opened Results
  import opened Bytes
  import opened Report
  import opened Chains
  import opened Geometries
  import opened Directories
  import opened LongNames
  import opened Walks
  import opened Ownership
  import opened Checks
  import opened SameWalks
  import opened FatWrites
  import opened Rewrites
  import opened Partition
  import opened Paths
  import opened DamageFound
  import opened DamageLinks
  import opened DamageDecides

  // Where claims are made.

  /** Only an entry that is not a dot link claims, and what it claims is the same in every table. */
  lemma EntryClaims(t: Table, t': Table, fold: Fold, p: Place, seen: Seen, e: Entry, x: Action)
    ensures Claimed(EntryActions(t', fold, p, seen, e), x) <==> Claimed(EntryActions(t, fold, p, seen, e), x)
    ensures Claimed(EntryActions(t, fold, p, seen, e), x) ==> x.path == Join(p.path, e.name) && x.start == e.first
    ensures Enters(t, e) ==> Claimed(EntryActions(t, fold, p, seen, e), Claim(Join(p.path, e.name), e.first, None))
  {
    hide Chain;
    if !IsDots(e) {
      var full := Join(p.path, e.name);
      var head := [Stamp(full, e.mtime)] + if fold(e.name) in seen.names then [Note(SecondOfName(full))] else [];
      var more := if e.IsDir() then DirActions(t, p.path, e) else FileActions(p.path, e);
      var more' := if e.IsDir() then DirActions(t', p.path, e) else FileActions(p.path, e);
      assert EntryActions(t, fold, p, seen, e) == head + more && EntryActions(t', fold, p, seen, e) == head + more';
      assert !Claimed(head, x);
      ClaimedAppend(head, more, x);
      ClaimedAppend(head, more', x);
      if e.IsDir() {
        DirClaims(t, p.path, e, x);
        DirClaims(t', p.path, e, x);
        DirClaims(t, p.path, e, Claim(full, e.first, None));
        ClaimedAppend(head, more, Claim(full, e.first, None));
      }
    }
  }

  lemma DirClaims(t: Table, dir: Name, e: Entry, x: Action)
    ensures Claimed(DirActions(t, dir, e), x) <==> e.first != 0 && x == Claim(Join(dir, e.name), e.first, None)
  {
    hide Chain;
    var full := Join(dir, e.name);
    var sized := if e.size != 0 then [Note(DirectorySize(full, e.size))] else [];
    var list := if Chain(t, e.first).Ok? then [List(dir, e.name, true, e.first, 0)] else [];
    var claim := [Claim(full, e.first, None)];
    if e.first == 0 {
    } else {
      assert DirActions(t, dir, e) == sized + (claim + list);
      ClaimedAppend(sized, claim + list, x);
      ClaimedAppend(claim, list, x);
    }
  }

  lemma BelowJoin(dir: Name, name: Name)
    ensures Below(dir, Join(dir, name))
  {
  }

  lemma BelowDeeper(dir: Name, name: Name, q: Name)
    requires Below(Join(dir, name), q)
    ensures Below(dir, q)
  {
    BelowJoin(dir, name);
  }

  lemma {:induction false} VisitBelow(d: Disk, fold: Fold, p: Place, x: Action)
    requires Mounted(d) && Visit(d, fold, p).Ok? && Claimed(Visit(d, fold, p).value, x)
    ensures Below(p.path, x.path)
    decreases if p.depth > MAX_DEPTH then 0 else MAX_DEPTH + 1 - p.depth, 1, 0
  {
    hide Mounted, Events, Scan, Below;
    if p.depth > MAX_DEPTH {
    } else {
      ScanBelow(d, fold, p, Events(d, p.first, Where(p.path)).value, NOTHING, x);
    }
  }

  lemma {:induction false} ScanBelow(d: Disk, fold: Fold, p: Place, events: seq<Event>, seen: Seen, x: Action)
    requires Mounted(d) && p.depth <= MAX_DEPTH && Scan(d, fold, p, events, seen).Ok?
    requires Claimed(Scan(d, fold, p, events, seen).value, x)
    ensures Below(p.path, x.path)
    decreases MAX_DEPTH + 1 - p.depth, 0, |events|
  {
    hide Mounted, TableOf, EntryActions, Enters, Visit, SeeEntry, Below;
    if events == [] {
    } else if events[0].Flaw? {
      ScanBelow(d, fold, p, events[1..], seen, x);
    } else {
      var t, e := TableOf(d), events[0].entry;
      var mine := EntryActions(t, fold, p, seen, e);
      var inner := if Enters(t, e) then Visit(d, fold, Inside(p, e)) else Ok([]);
      var rest := Scan(d, fold, p, events[1..], SeeEntry(fold, seen, e));
      ClaimedAppend(mine + inner.value, rest.value, x);
      ClaimedAppend(mine, inner.value, x);
      if Claimed(mine, x) {
        EntryClaims(t, t, fold, p, seen, e, x);
        BelowJoin(p.path, e.name);
      } else if Claimed(inner.value, x) {
        VisitBelow(d, fold, Inside(p, e), x);
        BelowDeeper(p.path, e.name, x.path);
      } else {
        ScanBelow(d, fold, p, events[1..], SeeEntry(fold, seen, e), x);
      }
    }
  }

  // What stays claimed.

  /** Of the directories that the actions claim, only `dir`, at `start`, may have another chain in `t'`. */
  ghost predicate OnlyDir(t: Table, t': Table, dir: Name, start: nat, acts: seq<Action>) {
    forall i :: 0 <= i < |acts| && acts[i].Claim? && acts[i].bytes.None? ==>
      SameChain(t, t', acts[i].start) || (acts[i].start == start && acts[i].path == dir)
  }

  lemma OnlyDirParts(t: Table, t': Table, dir: Name, start: nat, a: seq<Action>, b: seq<Action>)
    requires OnlyDir(t, t', dir, start, a + b)
    ensures OnlyDir(t, t', dir, start, a) && OnlyDir(t, t', dir, start, b)
  {
    assert forall i :: 0 <= i < |a| ==> a[i] == (a + b)[i];
    assert forall i :: 0 <= i < |b| ==> b[i] == (a + b)[|a| + i];
  }

  lemma OnlyDirAt(t: Table, t': Table, dir: Name, start: nat, acts: seq<Action>, x: Action)
    requires OnlyDir(t, t', dir, start, acts) && Claimed(acts, x) && x.bytes.None?
    ensures SameChain(t, t', x.start) || (x.start == start && x.path == dir)
  {
  }

  /** A directory that claims something not below `dir` is entered still. */
  lemma EnteredStays(d: Disk, t': Table, fold: Fold, p: Place, seen: Seen, e: Entry, dir: Name, start: nat, x: Action)
    requires Mounted(d) && Enters(TableOf(d), e) && Visit(d, fold, Inside(p, e)).Ok?
    requires OnlyDir(TableOf(d), t', dir, start, EntryActions(TableOf(d), fold, p, seen, e))
    requires Claimed(Visit(d, fold, Inside(p, e)).value, x) && !Below(dir, x.path)
    ensures Enters(t', e) && SameChain(TableOf(d), t', e.first)
  {
    hide Mounted, TableOf, OnlyDir, Visit, EntryActions, Below, Claimed, Chain;
    var t, own := TableOf(d), Claim(Join(p.path, e.name), e.first, None);
    EntryClaims(t, t, fold, p, seen, e, own);
    OnlyDirAt(t, t', dir, start, EntryActions(t, fold, p, seen, e), own);
    VisitBelow(d, fold, Inside(p, e), x);
  }

  /** All that is claimed but what is below the directory `dir` is claimed still. */
  lemma {:induction false} VisitPersists(d: Disk, d': Disk, fold: Fold, p: Place, dir: Name, start: nat, x: Action)
    requires Mounted(d) && Mounted(d') && SameData(d, d') && Visit(d, fold, p).Ok? && Visit(d', fold, p).Ok?
    requires DirStart(d.g, p.first) != 0 ==> SameChain(TableOf(d), TableOf(d'), DirStart(d.g, p.first))
    requires OnlyDir(TableOf(d), TableOf(d'), dir, start, Visit(d, fold, p).value)
    requires Claimed(Visit(d, fold, p).value, x) && !Below(dir, x.path)
    ensures Claimed(Visit(d', fold, p).value, x)
    decreases if p.depth > MAX_DEPTH then 0 else MAX_DEPTH + 1 - p.depth, 1, 0
  {
    hide Mounted, TableOf, SameChain, OnlyDir, SameData, Scan, Events, Below;
    if p.depth > MAX_DEPTH {
    } else {
      EventsSame(d, d', p.first, Where(p.path));
      ScanPersists(d, d', fold, p, Events(d, p.first, Where(p.path)).value, NOTHING, dir, start, x);
    }
  }

  lemma {:induction false} ScanPersists(d: Disk, d': Disk, fold: Fold, p: Place, events: seq<Event>, seen: Seen,
                                        dir: Name, start: nat, x: Action)
    requires Mounted(d) && Mounted(d') && SameData(d, d') && p.depth <= MAX_DEPTH
    requires Scan(d, fold, p, events, seen).Ok? && Scan(d', fold, p, events, seen).Ok?
    requires OnlyDir(TableOf(d), TableOf(d'), dir, start, Scan(d, fold, p, events, seen).value)
    requires Claimed(Scan(d, fold, p, events, seen).value, x) && !Below(dir, x.path)
    ensures Claimed(Scan(d', fold, p, events, seen).value, x)
    decreases MAX_DEPTH + 1 - p.depth, 0, |events|
  {
    hide Mounted, TableOf, SameChain, OnlyDir, SameData, Visit, EntryActions, Enters, SeeEntry, Below, Claimed;
    var t, t' := TableOf(d), TableOf(d');
    if events == [] {
    } else if events[0].Flaw? {
      var note, rest, rest' := [Note(events[0].problem)], Scan(d, fold, p, events[1..], seen),
                               Scan(d', fold, p, events[1..], seen);
      OnlyDirParts(t, t', dir, start, note, rest.value);
      ClaimedAppend(note, rest.value, x);
      ClaimedAppend(note, rest'.value, x);
      NotesNoClaim(events[0].problem, x);
      ScanPersists(d, d', fold, p, events[1..], seen, dir, start, x);
    } else {
      var e := events[0].entry;
      var mine, mine' := EntryActions(t, fold, p, seen, e), EntryActions(t', fold, p, seen, e);
      var inner := if Enters(t, e) then Visit(d, fold, Inside(p, e)) else Ok([]);
      var inner' := if Enters(t', e) then Visit(d', fold, Inside(p, e)) else Ok([]);
      var rest, rest' := Scan(d, fold, p, events[1..], SeeEntry(fold, seen, e)),
                         Scan(d', fold, p, events[1..], SeeEntry(fold, seen, e));
      OnlyDirParts(t, t', dir, start, mine + inner.value, rest.value);
      OnlyDirParts(t, t', dir, start, mine, inner.value);
      ClaimedAppend(mine + inner.value, rest.value, x);
      ClaimedAppend(mine, inner.value, x);
      ClaimedAppend(mine' + inner'.value, rest'.value, x);
      ClaimedAppend(mine', inner'.value, x);
      if Claimed(mine, x) {
        EntryClaims(t, t', fold, p, seen, e, x);
      } else if Claimed(inner.value, x) {
        if !Enters(t, e) {
          NoneClaims(x);
        }
        EnteredStays(d, t', fold, p, seen, e, dir, start, x);
        EntersStart(d.g, t, e);
        VisitPersists(d, d', fold, Inside(p, e), dir, start, x);
      } else {
        ScanPersists(d, d', fold, p, events[1..], SeeEntry(fold, seen, e), dir, start, x);
      }
    }
  }

  lemma NotesNoClaim(problem: Problem, x: Action)
    ensures !Claimed([Note(problem)], x)
  {
  }

  lemma NoneClaims(x: Action)
    ensures !Claimed([], x)
  {
  }

  // What a cut chain leaves.

  /** The chain ends earlier in `t'`. */
  ghost predicate CutChain(t: Table, t': Table, first: nat) {
    Chain(t, first).Ok? && Chain(t', first).Ok? && Chain(t', first).value <= Chain(t, first).value
  }

  ghost predicate SameOrCut(t: Table, t': Table, first: nat) {
    SameChain(t, t', first) || CutChain(t, t', first)
  }

  ghost predicate DirsCut(t: Table, t': Table, acts: seq<Action>) {
    forall i :: 0 <= i < |acts| && acts[i].Claim? && acts[i].bytes.None? ==> SameOrCut(t, t', acts[i].start)
  }

  lemma DirsCutParts(t: Table, t': Table, a: seq<Action>, b: seq<Action>)
    requires DirsCut(t, t', a + b)
    ensures DirsCut(t, t', a) && DirsCut(t, t', b)
  {
    assert forall i :: 0 <= i < |a| ==> a[i] == (a + b)[i];
    assert forall i :: 0 <= i < |b| ==> b[i] == (a + b)[|a| + i];
  }

  lemma {:induction false} ClustersCut(d: Disk, s: seq<nat>, s': seq<nat>)
    requires s' <= s && (forall i :: 0 <= i < |s| ==> 2 <= s[i]) && ClustersOf(d, s).Ok?
    ensures ClustersOf(d, s').Ok? && ClustersOf(d, s').value <= ClustersOf(d, s).value
  {
    hide Sectors;
    if s' == [] {
    } else {
      ClustersCut(d, s[1..], s'[1..]);
    }
  }

  lemma {:induction false} SlotsCut(a: seq<byte>, b: seq<byte>)
    requires a <= b && |a| % SLOT == 0 && |b| % SLOT == 0
    ensures Slots(a) <= Slots(b)
    decreases |a|
  {
    if a == [] || a[0] == 0 {
    } else {
      assert a[..SLOT] == b[..SLOT];
      SlotsCut(a[SLOT..], b[SLOT..]);
    }
  }

  lemma {:induction false} DecodeCut(kind: Kind, a: seq<Raw>, b: seq<Raw>, n: nat, dir: Name)
    requires a <= b && |a| <= n <= |b|
    ensures Decode(kind, a, |a|, dir) <= Decode(kind, b, n, dir)
  {
    hide EventsOf, View, RunAt, Views;
    if n == |a| {
      assert b == a + b[|a|..];
      DecodePrefix(kind, a, b[|a|..], |a|, dir);
    } else {
      DecodeCut(kind, a, b, n - 1, dir);
    }
  }

  /** A directory that ends earlier has its first entries. */
  lemma EventsCut(d: Disk, d': Disk, first: nat, dir: Name)
    requires Mounted(d) && Mounted(d') && SameData(d, d') && Events(d, first, dir).Ok?
    requires DirStart(d.g, first) != 0 ==> SameOrCut(TableOf(d), TableOf(d'), DirStart(d.g, first))
    ensures Events(d', first, dir).Ok? && Events(d', first, dir).value <= Events(d, first, dir).value
  {
    hide Mounted, TableOf, Decode, Slots, Chain, Sectors, ClustersOf, SameData, SameChain;
    var start := DirStart(d.g, first);
    if start == 0 || SameChain(TableOf(d), TableOf(d'), start) {
      EventsSame(d, d', first, dir);
    } else {
      SameLayout(d, d');
      var s, s' := ChainOf(d, start).value, ChainOf(d', start).value;
      ClustersSame(d, d', s');
      ClustersCut(d, s, s');
      SlotsCut(DirBytes(d', first).value, DirBytes(d, first).value);
      var a, b := RawEntries(d', first).value, RawEntries(d, first).value;
      DecodeCut(d.g.kind, a, b, |b|, dir);
    }
  }

  /** If no directory's chain became another but by ending earlier, nothing is claimed that was not. */
  lemma {:induction false} VisitCut(d: Disk, d': Disk, fold: Fold, p: Place)
    requires Mounted(d) && Mounted(d') && SameData(d, d') && Visit(d, fold, p).Ok?
    requires DirStart(d.g, p.first) != 0 ==> SameOrCut(TableOf(d), TableOf(d'), DirStart(d.g, p.first))
    requires DirsCut(TableOf(d), TableOf(d'), Visit(d, fold, p).value)
    ensures Visit(d', fold, p).Ok?
    ensures forall x :: Claimed(Visit(d', fold, p).value, x) ==> Claimed(Visit(d, fold, p).value, x)
    decreases if p.depth > MAX_DEPTH then 0 else MAX_DEPTH + 1 - p.depth, 1, 0
  {
    hide Mounted, TableOf, SameOrCut, DirsCut, SameData, Scan, Events, Claimed;
    if p.depth > MAX_DEPTH {
    } else {
      var dir := Where(p.path);
      EventsCut(d, d', p.first, dir);
      ScanCut(d, d', fold, p, Events(d, p.first, dir).value, Events(d', p.first, dir).value, NOTHING);
    }
  }

  lemma {:induction false} ScanCut(d: Disk, d': Disk, fold: Fold, p: Place, events: seq<Event>, events': seq<Event>,
                                   seen: Seen)
    requires Mounted(d) && Mounted(d') && SameData(d, d') && p.depth <= MAX_DEPTH && events' <= events
    requires Scan(d, fold, p, events, seen).Ok?
    requires DirsCut(TableOf(d), TableOf(d'), Scan(d, fold, p, events, seen).value)
    ensures Scan(d', fold, p, events', seen).Ok?
    ensures forall x :: Claimed(Scan(d', fold, p, events', seen).value, x)
              ==> Claimed(Scan(d, fold, p, events, seen).value, x)
    decreases MAX_DEPTH + 1 - p.depth, 0, |events|
  {
    hide Mounted, TableOf, SameOrCut, DirsCut, SameData, Visit, EntryActions, Enters, SeeEntry, Claimed;
    var t, t' := TableOf(d), TableOf(d');
    if events' == [] {
      forall x ensures !Claimed(LastActions(p, seen), x) {
        LastNoClaim(p, seen, x);
      }
    } else if events[0].Flaw? {
      var note, rest := [Note(events[0].problem)], Scan(d, fold, p, events[1..], seen);
      DirsCutParts(t, t', note, rest.value);
      ScanCut(d, d', fold, p, events[1..], events'[1..], seen);
      var rest' := Scan(d', fold, p, events'[1..], seen);
      forall x | Claimed(note + rest'.value, x) ensures Claimed(note + rest.value, x) {
        ClaimedAppend(note, rest.value, x);
        ClaimedAppend(note, rest'.value, x);
      }
    } else {
      var e := events[0].entry;
      var mine, mine' := EntryActions(t, fold, p, seen, e), EntryActions(t', fold, p, seen, e);
      var inner := if Enters(t, e) then Visit(d, fold, Inside(p, e)) else Ok([]);
      var rest := Scan(d, fold, p, events[1..], SeeEntry(fold, seen, e));
      DirsCutParts(t, t', mine + inner.value, rest.value);
      DirsCutParts(t, t', mine, inner.value);
      EnteredCut(t, t', fold, p, seen, e);
      if Enters(t, e) {
        EntersStart(d.g, t, e);
        VisitCut(d, d', fold, Inside(p, e));
      }
      ScanCut(d, d', fold, p, events[1..], events'[1..], SeeEntry(fold, seen, e));
      var inner' := if Enters(t', e) then Visit(d', fold, Inside(p, e)) else Ok([]);
      var rest' := Scan(d', fold, p, events'[1..], SeeEntry(fold, seen, e));
      forall x | Claimed(mine' + inner'.value + rest'.value, x) ensures Claimed(mine + inner.value + rest.value, x) {
        ClaimedAppend(mine' + inner'.value, rest'.value, x);
        ClaimedAppend(mine', inner'.value, x);
        ClaimedAppend(mine + inner.value, rest.value, x);
        ClaimedAppend(mine, inner.value, x);
        EntryClaims(t, t', fold, p, seen, e, x);
      }
    }
  }

  lemma LastNoClaim(p: Place, seen: Seen, x: Action)
    ensures !Claimed(LastActions(p, seen), x)
  {
  }

  /** The same directories are entered. */
  lemma EnteredCut(t: Table, t': Table, fold: Fold, p: Place, seen: Seen, e: Entry)
    requires DirsCut(t, t', EntryActions(t, fold, p, seen, e))
    ensures Enters(t', e) == Enters(t, e) && (Enters(t, e) ==> SameOrCut(t, t', e.first))
  {
    hide EntryActions, Chain;
    if !IsDots(e) && e.IsDir() && e.first != 0 {
      DirEntryClaims(t, fold, p, seen, e);
      var own := Claim(Join(p.path, e.name), e.first, None);
      assert SameOrCut(t, t', own.start);
    }
  }

  lemma DirEntryClaims(t: Table, fold: Fold, p: Place, seen: Seen, e: Entry)
    requires !IsDots(e) && e.IsDir() && e.first != 0
    ensures Claimed(EntryActions(t, fold, p, seen, e), Claim(Join(p.path, e.name), e.first, None))
  {
    hide Chain;
    var full := Join(p.path, e.name);
    var head := [Stamp(full, e.mtime)] + if fold(e.name) in seen.names then [Note(SecondOfName(full))] else [];
    var own := Claim(full, e.first, None);
    assert EntryActions(t, fold, p, seen, e) == head + DirActions(t, p.path, e);
    DirClaims(t, p.path, e, own);
    ClaimedAppend(head, DirActions(t, p.path, e), own);
  }

  // The whole walk.

  function RootClaim(g: Geometry): Action {
    Claim(ROOT, g.rootCluster, None)
  }

  /** On FAT32 the walk is the root's claim and the visit, if the root has a chain. */
  lemma WalkParts(d: Disk, fold: Fold, x: Action)
    requires Mounted(d) && WalkActions(d, fold).Ok?
    ensures var acts := WalkActions(d, fold).value;
      if d.g.kind.Fat16? then Visit(d, fold, TopPlace()) == Ok(acts)
      else
        && acts != [] && acts[0] == RootClaim(d.g) && Claimed(acts, RootClaim(d.g))
        && if Chain(TableOf(d), d.g.rootCluster).Err? then acts == [RootClaim(d.g)]
           else Visit(d, fold, TopPlace()).Ok? && acts == [RootClaim(d.g)] + Visit(d, fold, TopPlace()).value
                && (Claimed(acts, x) <==> x == RootClaim(d.g) || Claimed(Visit(d, fold, TopPlace()).value, x))
  {
    hide Mounted, TableOf, Visit, Chain;
    if d.g.kind.Fat32? && Chain(TableOf(d), d.g.rootCluster).Ok? {
      ClaimedAppend([RootClaim(d.g)], Visit(d, fold, TopPlace()).value, x);
    }
  }

  lemma WalkPersists(d: Disk, d': Disk, fold: Fold, dir: Name, start: nat, x: Action)
    requires Mounted(d) && Mounted(d') && SameData(d, d') && WalkActions(d, fold).Ok? && WalkActions(d', fold).Ok?
    requires d.g.kind.Fat16? || dir != [] ==> OnlyDir(TableOf(d), TableOf(d'), dir, start, WalkActions(d, fold).value)
    requires d.g.kind.Fat32? && dir != [] ==> SameChain(TableOf(d), TableOf(d'), d.g.rootCluster)
    requires Claimed(WalkActions(d, fold).value, x)
    requires (d.g.kind.Fat32? && x == RootClaim(d.g)) || !Below(dir, x.path)
    ensures Claimed(WalkActions(d', fold).value, x)
  {
    hide Mounted, TableOf, SameData, Visit, Chain, WalkActions, OnlyDir, Claimed, Below;
    SameLayout(d, d');
    WalkParts(d, fold, x);
    WalkParts(d', fold, x);
    if d.g.kind.Fat16? {
      RootOnFat16(d);
      VisitPersists(d, d', fold, TopPlace(), dir, start, x);
    } else if x == RootClaim(d.g) {
    } else {
      if Chain(TableOf(d), d.g.rootCluster).Err? {
        OneClaim(RootClaim(d.g), x);
      }
      VisitBelow(d, fold, TopPlace(), x);
      if dir != [] {
        OnlyDirParts(TableOf(d), TableOf(d'), dir, start, [RootClaim(d.g)], Visit(d, fold, TopPlace()).value);
        RootStart(d);
        VisitPersists(d, d', fold, TopPlace(), dir, start, x);
      }
    }
  }

  lemma OneClaim(a: Action, x: Action)
    ensures Claimed([a], x) ==> x == a
  {
  }

  lemma RootStart(d: Disk)
    requires d.g.kind.Fat32?
    ensures DirStart(d.g, TopPlace().first) == d.g.rootCluster
  {
  }

  lemma WalkCut(d: Disk, d': Disk, fold: Fold)
    requires Mounted(d) && Mounted(d') && SameData(d, d') && WalkActions(d, fold).Ok?
    requires DirsCut(TableOf(d), TableOf(d'), WalkActions(d, fold).value)
    ensures WalkActions(d', fold).Ok?
    ensures forall x :: Claimed(WalkActions(d', fold).value, x) ==> Claimed(WalkActions(d, fold).value, x)
  {
    hide Mounted, TableOf, SameData, Visit, Chain, DirsCut, Claimed;
    var acts := WalkActions(d, fold).value;
    SameLayout(d, d');
    WalkParts(d, fold, RootClaim(d.g));
    if d.g.kind.Fat16? {
      RootOnFat16(d);
      VisitCut(d, d', fold, TopPlace());
    } else {
      DirsCutAt(TableOf(d), TableOf(d'), acts);
      RootStart(d);
      if Chain(TableOf(d), d.g.rootCluster).Ok? {
        DirsCutParts(TableOf(d), TableOf(d'), [RootClaim(d.g)], Visit(d, fold, TopPlace()).value);
        VisitCut(d, d', fold, TopPlace());
      }
      forall x | Claimed(WalkActions(d', fold).value, x) ensures Claimed(acts, x) {
        WalkParts(d, fold, x);
        WalkParts(d', fold, x);
      }
    }
  }

  lemma DirsCutAt(t: Table, t': Table, acts: seq<Action>)
    requires DirsCut(t, t', acts) && acts != [] && acts[0].Claim? && acts[0].bytes.None?
    ensures SameOrCut(t, t', acts[0].start)
    ensures Chain(t', acts[0].start).Ok? <==> Chain(t, acts[0].start).Ok?
  {
    hide Chain;
  }

  // Directories of a clean volume.

  /** A directory of a clean volume, and its chain: a listed one, or FAT32's root, whose path is empty. */
  ghost predicate DirectoryOf(d: Disk, fold: Fold, out: seq<Item>, dir: Name, p: seq<nat>) {
    && ChecksClean(d, fold) && Walked(d, fold, []).Ok? && out == Walked(d, fold, []).value.out
    && if d.g.kind.Fat32? && dir == [] then ChainOf(d, d.g.rootCluster) == Ok(p)
       else exists x :: 0 <= x < |out| && out[x].isDir && out[x].path == dir && ChainOf(d, out[x].first) == Ok(p)
  }

  lemma {:induction false} ItemsClaim(items: seq<Item>, x: Action)
    ensures x in ItemClaims(items) <==> exists y :: 0 <= y < |items| && x in ItemClaim(items[y])
  {
    hide ItemClaim;
    if items == [] {
    } else {
      ItemsClaim(items[1..], x);
      if x in ItemClaims(items[1..]) {
        var y :| 0 <= y < |items[1..]| && x in ItemClaim(items[1..][y]);
        assert x in ItemClaim(items[y + 1]);
      }
      if y :| 0 <= y < |items| && x in ItemClaim(items[y]) {
        assert y > 0 ==> items[y] == items[1..][y - 1];
      }
    }
  }

  lemma NotTheRoot(d: Disk, fold: Fold, out: seq<Item>, acts: seq<Action>, x: nat)
    requires CleanListing(d, fold, out, acts) && x < |out| && out[x].isDir
    ensures d.g.kind.Fat32? ==> out[x].first != d.g.rootCluster
  {
    hide Mounted, TableOf, WalkActions, Chain, Claims, WalkClaims, AllSound, Held, UsedSet, AllFit, NoNotes, Holders,
         Listed;
    if d.g.kind.Fat32? {
      HeldByClaims(TableOf(d), acts);
      WalkMatched(d, fold);
      DirectoryNotRoot(d, out, x);
    }
  }

  predicate Holder(g: Geometry, dir: Name, a: Action) {
    if g.kind.Fat32? && dir == [] then a == RootClaim(g)
    else a.Claim? && a.path == dir && (g.kind.Fat32? ==> a != RootClaim(g))
  }

  /** The action that claims a directory's chain. */
  lemma DirHolder(d: Disk, fold: Fold, out: seq<Item>, dir: Name, p: seq<nat>, acts: seq<Action>) returns (h: nat)
    requires DirectoryOf(d, fold, out, dir, p) && WalkActions(d, fold) == Ok(acts)
    ensures h < |acts| && acts[h].Claim? && acts[h].bytes.None? && Chain(TableOf(d), acts[h].start) == Ok(p)
    ensures Holder(d.g, dir, acts[h])
  {
    hide Mounted, TableOf, Walked, Check, WalkActions, Chain, Claims, ItemClaims, AllSound, Held, UsedSet, AllFit,
         NoNotes, Claimed;
    var out', acts' := CleanVolume(d, fold);
    var a: Action;
    if d.g.kind.Fat32? && dir == [] {
      a := RootClaim(d.g);
    } else {
      var x :| 0 <= x < |out| && out[x].isDir && out[x].path == dir && ChainOf(d, out[x].first) == Ok(p);
      a := Claim(dir, out[x].first, None);
      NotTheRoot(d, fold, out, acts, x);
      assert a in ItemClaim(out[x]);
      ItemsClaim(out, a);
    }
    assert a in WalkClaims(d.g, out);
    ClaimsAre(acts, a);
    h := ClaimIndex(acts, a);
  }

  /** Another action's chain does not hold the changed cluster, and stays the same. */
  lemma OthersStay(t: Table, acts: seq<Action>, h: nat, p: seq<nat>, j: nat, value: nat, i: nat)
    requires Covered(t, acts) && h < |acts| && acts[h].Claim? && Chain(t, acts[h].start) == Ok(p) && j < |p|
    requires t.Holds(p[j]) && i < |acts| && acts[i].Claim? && i != h
    ensures SameChain(t, Changed(t, p[j], value), acts[i].start)
  {
    hide Covered, Chain, SameChain;
    ClaimChain(t, acts, i);
    var q := Chain(t, acts[i].start).value;
    if p[j] in q {
      var l :| 0 <= l < |q| && q[l] == p[j];
      HeldOnce(t, acts, i, l, h, j);
    }
    ChainElsewhere(t, p[j], value, acts[i].start);
  }

  lemma OnlyOne(t: Table, acts: seq<Action>, h: nat, p: seq<nat>, j: nat, value: nat, dir: Name)
    requires Covered(t, acts) && h < |acts| && acts[h].Claim? && Chain(t, acts[h].start) == Ok(p) && j < |p|
    requires t.Holds(p[j]) && acts[h].path == dir
    ensures OnlyDir(t, Changed(t, p[j], value), dir, acts[h].start, acts)
  {
    hide Covered, Chain, SameChain;
    forall i | 0 <= i < |acts| && acts[i].Claim? && i != h
        ensures SameChain(t, Changed(t, p[j], value), acts[i].start) {
      OthersStay(t, acts, h, p, j, value, i);
    }
  }

  lemma OnlyCut(t: Table, acts: seq<Action>, h: nat, p: seq<nat>, j: nat, value: nat)
    requires Covered(t, acts) && h < |acts| && acts[h].Claim? && Chain(t, acts[h].start) == Ok(p) && j < |p|
    requires t.Holds(p[j]) && value >= t.eoc
    ensures DirsCut(t, Changed(t, p[j], value), acts)
  {
    hide Covered, Chain, SameChain;
    var t' := Changed(t, p[j], value);
    ChainExact(t, acts[h].start, p);
    KeptStretch(t, p, j, value);
    ChainExact(t', p[0], p[..j + 1]);
    assert SameOrCut(t, t', acts[h].start);
    forall i | 0 <= i < |acts| && acts[i].Claim? ensures SameOrCut(t, t', acts[i].start) {
      if i != h {
        OthersStay(t, acts, h, p, j, value, i);
      }
    }
  }

  /** Nothing below the directory begins at the cluster. */
  predicate NothingBelowAt(out: seq<Item>, dir: Name, c: nat) {
    forall y :: 0 <= y < |out| && Below(dir, out[y].path) ==> out[y].first != c
  }

  /** What begins at a cluster is FAT32's root, or an item. */
  lemma StartsAt(d: Disk, fold: Fold, out: seq<Item>, acts: seq<Action>, dir: Name, c: nat, a: Action)
    requires CleanListing(d, fold, out, acts) && Claimed(acts, a) && a.start == c && NothingBelowAt(out, dir, c)
    ensures (d.g.kind.Fat32? && a == RootClaim(d.g)) || !Below(dir, a.path)
  {
    hide Mounted, TableOf, WalkActions, Chain, Claims, ItemClaims, AllSound, Held, UsedSet, AllFit, NoNotes, Claimed,
         Below, ItemClaim;
    ClaimsAre(acts, a);
    if !(d.g.kind.Fat32? && a == RootClaim(d.g)) {
      assert a in ItemClaims(out);
      ItemsClaim(out, a);
      var y :| 0 <= y < |out| && a in ItemClaim(out[y]);
      ClaimOfItem(out[y], a);
    }
  }

  lemma ClaimOfItem(item: Item, a: Action)
    requires a in ItemClaim(item)
    ensures a.Claim? && a.start == item.first && a.path == item.path
  {
  }

  lemma NotBelowItself(dir: Name)
    ensures !Below(dir, dir)
  {
  }

  /** The only directory with another chain is the damaged one. */
  lemma Persisting(d: Disk, t': Table, fold: Fold, dir: Name, p: seq<nat>, j: nat, value: nat, acts: seq<Action>,
                   h: nat)
    requires Mounted(d) && WalkActions(d, fold) == Ok(acts) && Covered(TableOf(d), acts)
    requires h < |acts| && acts[h].Claim? && Chain(TableOf(d), acts[h].start) == Ok(p) && Holder(d.g, dir, acts[h])
    requires j < |p| && TableOf(d).Holds(p[j]) && t' == Changed(TableOf(d), p[j], value)
    ensures d.g.kind.Fat16? || dir != [] ==> OnlyDir(TableOf(d), t', dir, acts[h].start, acts)
    ensures d.g.kind.Fat32? && dir != [] ==> SameChain(TableOf(d), t', d.g.rootCluster)
  {
    hide Mounted, TableOf, WalkActions, Chain, Covered, Changed, OnlyDir, SameChain;
    if d.g.kind.Fat16? || dir != [] {
      OnlyOne(TableOf(d), acts, h, p, j, value, dir);
    }
    if d.g.kind.Fat32? && dir != [] {
      WalkParts(d, fold, RootClaim(d.g));
      OthersStay(TableOf(d), acts, h, p, j, value, 0);
    }
  }

  /** What the damaged volume's walk still claims, and does not claim anew. */
  lemma DamagedClaims(d: Disk, d': Disk, fold: Fold, out: seq<Item>, dir: Name, p: seq<nat>, j: nat, value: nat,
                      acts: seq<Action>, h: nat)
    requires CleanListing(d, fold, out, acts) && WalkActions(d, fold) == Ok(acts)
    requires Mounted(d) && Covered(TableOf(d), acts)
    requires h < |acts| && acts[h].Claim? && acts[h].bytes.None? && Chain(TableOf(d), acts[h].start) == Ok(p)
    requires Holder(d.g, dir, acts[h])
    requires j < |p| && TableOf(d).Holds(p[j]) && NothingBelowAt(out, dir, value)
    requires Mounted(d') && SameData(d, d') && TableOf(d') == Changed(TableOf(d), p[j], value)
    requires WalkActions(d', fold).Ok?
    ensures var acts' := WalkActions(d', fold).value;
      && Claimed(acts', acts[h]) && (forall a :: Claimed(acts, a) && a.start == value ==> Claimed(acts', a))
      && (value >= d.g.Eoc() ==> forall a :: Claimed(acts', a) ==> Claimed(acts, a))
  {
    hide Mounted, TableOf, SameData, WalkActions, Chain, Covered, Below, NothingBelowAt, Changed, OnlyDir, SameChain,
         DirsCut, CleanListing;
    var t, acts' := TableOf(d), WalkActions(d', fold).value;
    Persisting(d, TableOf(d'), fold, dir, p, j, value, acts, h);
    NotBelowItself(dir);
    WalkPersists(d, d', fold, dir, acts[h].start, acts[h]);
    forall a | Claimed(acts, a) && a.start == value ensures Claimed(acts', a) {
      StartsAt(d, fold, out, acts, dir, value, a);
      WalkPersists(d, d', fold, dir, acts[h].start, a);
    }
    if value >= d.g.Eoc() {
      OnlyCut(t, acts, h, p, j, value);
      WalkCut(d, d', fold);
    }
  }

  lemma DirChain(d: Disk, fold: Fold, out: seq<Item>, dir: Name, p: seq<nat>, j: nat)
    requires DirectoryOf(d, fold, out, dir, p) && j < |p|
    ensures p[j] <= d.g.MaxCluster() && TableOf(d).Used(p[j])
  {
    hide Mounted, FatOf, Walked, Check, Chain, Covered;
    var acts := CleanCovers(d, fold);
    var h := DirHolder(d, fold, out, dir, p, acts);
    ChainUsed(TableOf(d), acts, h, p, j);
  }

  lemma CleanActs(d: Disk, fold: Fold, out: seq<Item>) returns (acts: seq<Action>)
    requires ChecksClean(d, fold) && Walked(d, fold, []).Ok? && out == Walked(d, fold, []).value.out
    ensures CleanListing(d, fold, out, acts) && WalkActions(d, fold) == Ok(acts) && Covered(TableOf(d), acts)
  {
    hide Mounted, TableOf, Walked, Check, WalkActions, Covered, AllSound, Held, UsedSet, AllFit, NoNotes, Claims,
         WalkClaims, Listed;
    acts := CleanCovers(d, fold);
    var out', acts' := CleanVolume(d, fold);
  }

  /** If the damaged volume checks clean, then the entry says what it said, or it is the last and an end mark. */
  lemma DirOnlySame(d: Disk, fold: Fold, out: seq<Item>, dir: Name, p: seq<nat>, j: nat, value: nat)
    requires DirectoryOf(d, fold, out, dir, p) && j < |p| && 1 <= d.g.reserved && Plain(d.g, value)
    requires NothingBelowAt(out, dir, value) && p[j] < |TableOf(d).next|
    requires ChecksClean(Rewritten(d, p[j], value), fold)
    ensures value == TableOf(d).next[p[j]] || (j + 1 == |p| && value >= d.g.Eoc())
  {
    hide Mounted, TableOf, Chain, Walked, Check, Rewritten, Plain, WalkActions, Covered, CleanListing, SameData,
         SameOutside, NothingBelowAt, AllSound;
    var d', t := Rewritten(d, p[j], value), TableOf(d);
    DirChain(d, fold, out, dir, p, j);
    PlainIs(d.g, value);
    RewrittenTable(d, p[j], value);
    RewrittenMounts(d, p[j], value);
    SameLayout(d, d');
    assert TableOf(d') == Changed(t, p[j], value);
    var acts := CleanActs(d, fold, out);
    var acts' := CleanCovers(d', fold);
    var h := DirHolder(d, fold, out, dir, p, acts);
    DamagedClaims(d, d', fold, out, dir, p, j, value, acts, h);
    if value != t.next[p[j]] {
      assert t.eoc == d.g.Eoc();
      forall a | a in acts' && a.Claim? && value >= t.eoc ensures a in acts {
        assert Claimed(acts', a);
      }
      HolderDecides(t, acts, h, p, j, value, acts');
    }
  }

  lemma PlainDirDecides(d: Disk, fold: Fold, out: seq<Item>, dir: Name, p: seq<nat>, j: nat, value: nat)
    requires DirectoryOf(d, fold, out, dir, p) && j < |p| && 1 <= d.g.reserved && Plain(d.g, value)
    requires d.g.kind.Fat32? ==> d.g.fsinfo < d.g.reserved
    requires NothingBelowAt(out, dir, value)
    ensures p[j] <= d.g.MaxCluster()
    ensures ChecksClean(Rewritten(d, p[j], value), fold) <==>
      value == FatOf(d, p[j]) || (j + 1 == |p| && value >= d.g.Eoc())
  {
    hide Mounted, FatOf, Chain, Walked, Check, Rewritten, Plain, NothingBelowAt;
    DirChain(d, fold, out, dir, p, j);
    assert TableOf(d).next[p[j]] == FatOf(d, p[j]);
    if j + 1 == |p| {
      DirEnds(d, fold, out, dir, p, j);
    }
    hide DirectoryOf, TableOf;
    if ChecksClean(Rewritten(d, p[j], value), fold) {
      DirOnlySame(d, fold, out, dir, p, j, value);
    } else if value == FatOf(d, p[j]) || (j + 1 == |p| && value >= d.g.Eoc()) {
      StaysClean(d, fold, p[j], value);
    }
  }

  lemma DirEnds(d: Disk, fold: Fold, out: seq<Item>, dir: Name, p: seq<nat>, j: nat)
    requires DirectoryOf(d, fold, out, dir, p) && j + 1 == |p|
    ensures TableOf(d).Ends(p[j])
  {
    hide Mounted, FatOf, Walked, Check, Chain, Covered;
    var acts := CleanCovers(d, fold);
    var h := DirHolder(d, fold, out, dir, p, acts);
    ChainExact(TableOf(d), acts[h].start, p);
  }

  /** Whatever is written into the entry of any cluster of any directory of a clean volume, FAT32's root included: if
      it does not name the first cluster of something below that directory, the volume checks clean if and only if
      the entry reads as it did before, or it was the chain's last and still is an end mark. What is below the
      directory may not be listed any more, and its clusters may then be taken for the directory's own. */
  lemma DirectoryDecides(d: Disk, fold: Fold, out: seq<Item>, dir: Name, p: seq<nat>, j: nat, value: nat)
    requires DirectoryOf(d, fold, out, dir, p) && j < |p| && 1 <= d.g.reserved && Packable(d.g, value)
    requires d.g.kind.Fat32? ==> d.g.fsinfo < d.g.reserved
    requires NothingBelowAt(out, dir, Read(d.g, value))
    ensures p[j] <= d.g.MaxCluster()
    ensures ChecksClean(Rewritten(d, p[j], value), fold) <==>
      Read(d.g, value) == FatOf(d, p[j]) || (j + 1 == |p| && Read(d.g, value) >= d.g.Eoc())
  {
    hide Mounted, FatOf, Chain, Walked, Check, Rewritten, Plain, Read, Packable, NothingBelowAt;
    ReadIsPlain(d.g, value);
    PlainDirDecides(d, fold, out, dir, p, j, Read(d.g, value));
    ReadDecides(d, fold, p[j], value);
  }
}
