/** What a volume that checks clean is: a tree of files and directories. The tree is given by itself, with no walk;
    then the check is clean if and only if the volume's own fields are right and there is such a tree. */
module Shapes {
  import opened Results
  import opened Report
  import opened Seqs
  import opened Chains
  import opened Geometries
  import opened Directories
  import opened Walks
  import opened Ownership
  import opened Checks
  import opened Heads
  import opened Partition
  import opened Paths

  /** A file or a directory, by its entry. */
  datatype Node = File(entry: Entry) | Folder(entry: Entry, inside: seq<Node>)

  predicate FolderBit(e: Entry) {
    e.attr / 0x10 % 2 == 1
  }

  /** A file's chain has just the clusters that its size needs; an empty file has none. */
  ghost predicate SizeFits(d: Disk, e: Entry)
    requires Mounted(d)
  {
    if e.size == 0 then e.first == 0
    else
      e.first != 0
      && match Chain(TableOf(d), e.first)
         case Err(_) => false
         case Ok(chain) =>
           var bytes := d.g.spc * 512; (|chain| - 1) * bytes < e.size <= |chain| * bytes
  }

  /** The directory at the cluster `own`, in the one at `parent`, holds `nodes`: so do its entries say. Directories are
      at most 64 deep. */
  ghost predicate Holds(d: Disk, fold: Fold, own: nat, parent: nat, path: Name, level: nat, nodes: seq<Node>)
    requires Mounted(d)
    decreases 65 - level, 1, 0
  {
    && level <= 64
    && var events := Events(d, own, if path == [] then [0x2F] else path);
       events.Ok? && Entries(d, fold, own, parent, path, level, events.value, {}, false, false, nodes)
  }

  /** What is read of a directory is, in order, `nodes`, between them its own two links, and nothing else: `.`, which
      names it, and `..`, which names the one it is in. All but the root have both. No two names are alike, but for
      their case, nor like those of `names`. */
  ghost predicate Entries(d: Disk, fold: Fold, own: nat, parent: nat, path: Name, level: nat, events: seq<Event>,
                          names: set<Name>, dot: bool, dotdot: bool, nodes: seq<Node>)
    requires Mounted(d) && level <= 64
    decreases 65 - level, 0, |events|
  {
    if events == [] then nodes == [] && (own != 0 ==> dot && dotdot)
    else
      events[0].Found?
      && var e, rest := events[0].entry, events[1..];
         if e.name == [0x2E] then
           e.first == own && Entries(d, fold, own, parent, path, level, rest, names, true, dotdot, nodes)
         else if e.name == [0x2E, 0x2E] then
           e.first == parent && Entries(d, fold, own, parent, path, level, rest, names, dot, true, nodes)
         else
           && nodes != [] && nodes[0].entry == e && fold(e.name) !in names
           && (match nodes[0]
               case File(_) => !FolderBit(e) && SizeFits(d, e)
               case Folder(_, inside) =>
                 && FolderBit(e) && e.size == 0 && e.first != 0 && Chain(TableOf(d), e.first).Ok?
                 && Holds(d, fold, e.first, own, path + [0x2F] + e.name, level + 1, inside))
           && Entries(d, fold, own, parent, path, level, rest, names + {fold(e.name)}, dot, dotdot, nodes[1..])
  }

  /** The clusters of a tree, chain by chain. */
  ghost function ClustersIn(t: Table, nodes: seq<Node>): seq<nat> {
    if nodes == [] then []
    else
      var e := nodes[0].entry;
      (if Chain(t, e.first).Ok? then Chain(t, e.first).value else [])
      + (if nodes[0].Folder? then ClustersIn(t, nodes[0].inside) else [])
      + ClustersIn(t, nodes[1..])
  }

  /** The listing of a tree: a directory, what is in it, and then what follows it. */
  function ItemsIn(path: Name, nodes: seq<Node>): seq<Item>
    decreases nodes
  {
    if nodes == [] then []
    else
      var e := nodes[0].entry;
      var full := path + [0x2F] + e.name;
      (match nodes[0]
       case File(_) => [Item(full, false, e.first, e.size)]
       case Folder(_, inside) => [Item(full, true, e.first, 0)] + ItemsIn(full, inside))
      + ItemsIn(path, nodes[1..])
  }

  /** What the walk does on such a directory: nothing is noted, and what it claims and lists is the tree's. */
  ghost predicate Does(t: Table, clusterBytes: nat, acts: seq<Action>, path: Name, nodes: seq<Node>)
    requires 0 < clusterBytes
  {
    AllSound(t, clusterBytes, acts) && Held(t, acts) == ClustersIn(t, nodes) && Listed(acts) == ItemsIn(path, nodes)
  }

  // One entry.

  lemma FitsExactly(size: nat, bytes: nat, n: nat)
    requires 0 < bytes && 0 < size
    ensures n == ClustersFor(size, bytes) <==> (n - 1) * bytes < size <= n * bytes
  {
    var x := size + bytes - 1;
    var q := x / bytes;
    assert x == q * bytes + x % bytes;
    assert (q - 1) * bytes == q * bytes - bytes && (n - 1) * bytes == n * bytes - bytes;
    if n < q {
      Times(n, q - 1, bytes);
    } else if n > q {
      Times(q, n - 1, bytes);
    }
  }

  lemma Times(a: int, b: int, m: nat)
    requires a <= b
    ensures a * m <= b * m
  {
  }

  /** A link is passed over in silence if and only if it names what it must. */
  lemma LinkDoes(t: Table, clusterBytes: nat, fold: Fold, own: nat, path: Name, parent: nat, level: nat, seen: Seen,
                 e: Entry)
    requires 0 < clusterBytes && IsDots(e)
    ensures var acts := EntryActions(t, fold, Place(own, path, parent, level), seen, e);
      && (AllSound(t, clusterBytes, acts) <==> e.first == if e.name == [0x2E] then own else parent)
      && Held(t, acts) == [] && Listed(acts) == []
  {
    var acts := EntryActions(t, fold, Place(own, path, parent, level), seen, e);
    if acts != [] {
      assert !Sound(t, clusterBytes, acts[0]);
      assert acts[1..] == [];
    }
  }

  lemma TwoActions(t: Table, clusterBytes: nat, a: Action, b: Action)
    requires 0 < clusterBytes
    ensures AllSound(t, clusterBytes, [a, b]) <==> Sound(t, clusterBytes, a) && Sound(t, clusterBytes, b)
    ensures Held(t, [a, b]) == HeldBy(t, a) + HeldBy(t, b)
    ensures Listed([a, b]) == Listed([a]) + Listed([b])
  {
    hide Sound, HeldBy;
    assert [a, b][1..] == [b] && [b][1..] == [] && [a][1..] == [];
    assert Held(t, [b]) == HeldBy(t, b) + [];
    if AllSound(t, clusterBytes, [a, b]) {
      assert Sound(t, clusterBytes, [a, b][0]) && Sound(t, clusterBytes, [a, b][1]);
    }
  }

  lemma OneAction(t: Table, clusterBytes: nat, a: Action)
    requires 0 < clusterBytes
    ensures AllSound(t, clusterBytes, [a]) <==> Sound(t, clusterBytes, a)
    ensures Held(t, [a]) == HeldBy(t, a)
    ensures Listed([a])
         == if a.List? then [Item(Join(a.dir, a.name), a.isDir, a.first, a.size)] else []
  {
    hide Sound, HeldBy;
    assert [a][1..] == [];
    assert Held(t, [a]) == HeldBy(t, a) + [];
    if AllSound(t, clusterBytes, [a]) {
      assert Sound(t, clusterBytes, [a][0]);
    }
  }

  lemma SoundAppend(t: Table, clusterBytes: nat, a: seq<Action>, b: seq<Action>)
    requires 0 < clusterBytes
    ensures AllSound(t, clusterBytes, a + b) <==> AllSound(t, clusterBytes, a) && AllSound(t, clusterBytes, b)
    ensures Held(t, a + b) == Held(t, a) + Held(t, b) && Listed(a + b) == Listed(a) + Listed(b)
  {
    hide Sound;
    HeldAppend(t, a, b);
    ListedAppend(a, b);
    if AllSound(t, clusterBytes, a + b) {
      assert forall i :: 0 <= i < |a| ==> a[i] == (a + b)[i];
      assert forall i :: 0 <= i < |b| ==> b[i] == (a + b)[|a| + i];
    }
  }

  /** What every entry but a link begins with. */
  lemma HeadDoes(t: Table, clusterBytes: nat, fold: Fold, full: Name, names: set<Name>, e: Entry)
    requires 0 < clusterBytes
    ensures var head := [Stamp(full, e.mtime)] + if fold(e.name) in names then [Note(SecondOfName(full))] else [];
      && (AllSound(t, clusterBytes, head) <==> fold(e.name) !in names)
      && Held(t, head) == [] && Listed(head) == []
  {
    OneAction(t, clusterBytes, Stamp(full, e.mtime));
    OneAction(t, clusterBytes, Note(SecondOfName(full)));
    SoundAppend(t, clusterBytes, [Stamp(full, e.mtime)], [Note(SecondOfName(full))]);
    SoundAppend(t, clusterBytes, [Stamp(full, e.mtime)], []);
  }

  lemma FileDoes(d: Disk, dir: Name, e: Entry)
    requires Mounted(d) && 0 < d.g.ClusterBytes()
    ensures var t, acts := TableOf(d), FileActions(dir, e);
      && (AllSound(t, d.g.ClusterBytes(), acts) <==> SizeFits(d, e))
      && (SizeFits(d, e) ==>
            && Held(t, acts) == (if Chain(t, e.first).Ok? then Chain(t, e.first).value else [])
            && Listed(acts) == [Item(Join(dir, e.name), false, e.first, e.size)])
  {
    hide Mounted, TableOf, Follow, Sound;
    var t, n, full := TableOf(d), d.g.ClusterBytes(), Join(dir, e.name);
    var list := List(dir, e.name, false, e.first, e.size);
    var more := if e.size == 0 then (if e.first != 0 then [Note(EmptyHolds(full, e.first))] else [])
                else if e.first == 0 then [Note(BytesNoCluster(full, e.size))]
                else [Claim(full, e.first, Some(e.size))];
    BytesPositive(d);
    assert FileActions(dir, e) == [list] + more;
    SoundAppend(t, n, [list], more);
    OneAction(t, n, list);
    ListSound(t, n, list);
    if more != [] {
      OneAction(t, n, more[0]);
    }
    ClaimFits(d, Claim(full, e.first, Some(e.size)), e.size);
    NoteUnsound(t, n, EmptyHolds(full, e.first));
    NoteUnsound(t, n, BytesNoCluster(full, e.size));
    NoneAtZero(t);
  }

  lemma NoneAtZero(t: Table)
    ensures Chain(t, 0).Err?
  {
  }

  lemma ListSound(t: Table, clusterBytes: nat, a: Action)
    requires 0 < clusterBytes && (a.List? || a.Stamp?)
    ensures Sound(t, clusterBytes, a) && HeldBy(t, a) == []
  {
  }

  lemma NoteUnsound(t: Table, clusterBytes: nat, problem: Problem)
    requires 0 < clusterBytes
    ensures !Sound(t, clusterBytes, Note(problem))
  {
  }

  lemma ClaimFits(d: Disk, claim: Action, size: nat)
    requires Mounted(d) && 0 < d.g.ClusterBytes() && claim.Claim? && claim.bytes == Some(size)
    ensures size > 0 && claim.start != 0 ==>
      (Sound(TableOf(d), d.g.ClusterBytes(), claim) <==>
         match Chain(TableOf(d), claim.start)
         case Err(_) => false
         case Ok(chain) => var bytes := d.g.spc * 512; (|chain| - 1) * bytes < size <= |chain| * bytes)
  {
    hide Mounted, TableOf, Follow, ClustersFor;
    if size > 0 && Chain(TableOf(d), claim.start).Ok? {
      FitsExactly(size, d.g.ClusterBytes(), |Chain(TableOf(d), claim.start).value|);
    }
  }

  lemma DirDoes(t: Table, clusterBytes: nat, dir: Name, e: Entry)
    requires 0 < clusterBytes && t.Sane()
    ensures var acts := DirActions(t, dir, e);
      && (AllSound(t, clusterBytes, acts) <==> e.size == 0 && e.first != 0 && Chain(t, e.first).Ok?)
      && (e.size == 0 && e.first != 0 && Chain(t, e.first).Ok? ==>
            && Held(t, acts) == Chain(t, e.first).value
            && Listed(acts) == [Item(Join(dir, e.name), true, e.first, 0)])
  {
    hide Follow;
    var full := Join(dir, e.name);
    var sized := if e.size != 0 then [Note(DirectorySize(full, e.size))] else [];
    var claim, list := Claim(full, e.first, None), List(dir, e.name, true, e.first, 0);
    var rest := if e.first == 0 then [Note(DirectoryNoCluster(full))]
                else [claim] + if Chain(t, e.first).Ok? then [list] else [];
    assert DirActions(t, dir, e) == sized + rest;
    SoundAppend(t, clusterBytes, sized, rest);
    OneAction(t, clusterBytes, Note(DirectorySize(full, e.size)));
    OneAction(t, clusterBytes, Note(DirectoryNoCluster(full)));
    OneAction(t, clusterBytes, claim);
    TwoActions(t, clusterBytes, claim, list);
    OneAction(t, clusterBytes, list);
    assert [claim] + [list] == [claim, list] && [claim] + [] == [claim];
  }

  // The walk of a tree.

  lemma BitIs(e: Entry)
    ensures e.IsDir() <==> FolderBit(e)
  {
  }

  /** What a node's entry does, before the walk goes into it. */
  lemma NodeDoes(d: Disk, fold: Fold, p: Place, seen: Seen, e: Entry)
    requires Mounted(d) && 0 < d.g.ClusterBytes() && !IsDots(e)
    ensures var t, acts := TableOf(d), EntryActions(TableOf(d), fold, p, seen, e);
      var chain := if Chain(t, e.first).Ok? then Chain(t, e.first).value else [];
      && (AllSound(t, d.g.ClusterBytes(), acts) <==>
            && fold(e.name) !in seen.names
            && if FolderBit(e) then e.size == 0 && e.first != 0 && Chain(t, e.first).Ok? else SizeFits(d, e))
      && (AllSound(t, d.g.ClusterBytes(), acts) ==>
            && Held(t, acts) == chain
            && Listed(acts) == [Item(Join(p.path, e.name), FolderBit(e), e.first, if FolderBit(e) then 0 else e.size)]
            && (Enters(t, e) <==> FolderBit(e)))
  {
    hide Mounted, TableOf, Follow, Sound, DirActions, FileActions, SizeFits;
    var t, n, full := TableOf(d), d.g.ClusterBytes(), Join(p.path, e.name);
    BytesPositive(d);
    BitIs(e);
    var head := [Stamp(full, e.mtime)] + if fold(e.name) in seen.names then [Note(SecondOfName(full))] else [];
    var more := if e.IsDir() then DirActions(t, p.path, e) else FileActions(p.path, e);
    assert EntryActions(t, fold, p, seen, e) == head + more;
    HeadDoes(t, n, fold, full, seen.names, e);
    SoundAppend(t, n, head, more);
    if e.IsDir() {
      DirDoes(t, n, p.path, e);
    } else {
      FileDoes(d, p.path, e);
    }
  }

  /** What the walk does in a directory that holds a tree is the tree. */
  lemma {:induction false} HoldsDoes(d: Disk, fold: Fold, own: nat, parent: nat, path: Name, level: nat,
                                     nodes: seq<Node>)
    requires Mounted(d) && 0 < d.g.ClusterBytes() && Holds(d, fold, own, parent, path, level, nodes)
    ensures Visit(d, fold, Place(own, path, parent, level)).Ok?
    ensures Does(TableOf(d), d.g.ClusterBytes(), Visit(d, fold, Place(own, path, parent, level)).value, path, nodes)
    decreases 65 - level, 1, 0
  {
    hide Mounted, TableOf, Events, Does, Scan, Entries;
    var events := Events(d, own, if path == [] then [0x2F] else path).value;
    EntriesDo(d, fold, own, parent, path, level, events, NOTHING, nodes);
  }

  lemma {:induction false} EntriesDo(d: Disk, fold: Fold, own: nat, parent: nat, path: Name, level: nat,
                                     events: seq<Event>, seen: Seen, nodes: seq<Node>)
    requires Mounted(d) && 0 < d.g.ClusterBytes() && level <= 64
    requires Entries(d, fold, own, parent, path, level, events, seen.names, seen.dot, seen.dotdot, nodes)
    ensures var scan := Scan(d, fold, Place(own, path, parent, level), events, seen);
      scan.Ok? && Does(TableOf(d), d.g.ClusterBytes(), scan.value, path, nodes)
    decreases 65 - level, 0, |events|
  {
    hide Mounted, TableOf, AllSound, Held, Listed, Visit, Holds, EntryActions, Enters, Follow, SizeFits, Does,
         ClustersIn, ItemsIn;
    var t, n, p := TableOf(d), d.g.ClusterBytes(), Place(own, path, parent, level);
    BytesPositive(d);
    NoneDoes(t, n, path);
    if events == [] {
      assert Scan(d, fold, p, events, seen) == Ok([]);
    } else {
      var e := events[0].entry;
      var mine, after := EntryActions(t, fold, p, seen, e), SeeEntry(fold, seen, e);
      if IsDots(e) {
        LinkDoes(t, n, fold, own, path, parent, level, seen, e);
        NotEntered(t, e);
        EntriesDo(d, fold, own, parent, path, level, events[1..], after, nodes);
        DoesMore(t, n, mine, Scan(d, fold, p, events[1..], after).value, path, nodes);
      } else {
        NodeDoes(d, fold, p, seen, e);
        EntriesDo(d, fold, own, parent, path, level, events[1..], after, nodes[1..]);
        if nodes[0].Folder? {
          HoldsDoes(d, fold, e.first, own, path + [0x2F] + e.name, level + 1, nodes[0].inside);
        }
        var inner := if Enters(t, e) then Visit(d, fold, Inside(p, e)).value else [];
        DoesNode(t, n, mine, inner, Scan(d, fold, p, events[1..], after).value, path, nodes);
      }
    }
  }

  /** A link does nothing. */
  lemma DoesMore(t: Table, clusterBytes: nat, mine: seq<Action>, rest: seq<Action>, path: Name, nodes: seq<Node>)
    requires 0 < clusterBytes && AllSound(t, clusterBytes, mine) && Held(t, mine) == [] && Listed(mine) == []
    requires Does(t, clusterBytes, rest, path, nodes)
    ensures Does(t, clusterBytes, mine + [] + rest, path, nodes)
  {
    hide AllSound, Held, Listed, ClustersIn, ItemsIn;
    assert mine + [] == mine;
    SoundAppend(t, clusterBytes, mine, rest);
  }

  /** The first node, then what is in it, then the others. */
  lemma DoesNode(t: Table, clusterBytes: nat, mine: seq<Action>, inner: seq<Action>, rest: seq<Action>, path: Name,
                 nodes: seq<Node>)
    requires 0 < clusterBytes && nodes != []
    requires var e := nodes[0].entry;
      && AllSound(t, clusterBytes, mine)
      && Held(t, mine) == (if Chain(t, e.first).Ok? then Chain(t, e.first).value else [])
      && Listed(mine) == [Item(Join(path, e.name), nodes[0].Folder?, e.first, if nodes[0].Folder? then 0 else e.size)]
    requires if nodes[0].Folder? then Does(t, clusterBytes, inner, Join(path, nodes[0].entry.name), nodes[0].inside)
             else inner == []
    requires Does(t, clusterBytes, rest, path, nodes[1..])
    ensures Does(t, clusterBytes, mine + inner + rest, path, nodes)
  {
    hide AllSound, Held, Listed, Follow;
    NoneDoes(t, clusterBytes, path);
    SoundAppend(t, clusterBytes, mine, inner);
    SoundAppend(t, clusterBytes, mine + inner, rest);
  }

  lemma NoneDoes(t: Table, clusterBytes: nat, path: Name)
    requires 0 < clusterBytes
    ensures AllSound(t, clusterBytes, []) && Held(t, []) == [] && Listed([]) == []
    ensures Does(t, clusterBytes, [], path, [])
  {
  }

  lemma NotEntered(t: Table, e: Entry)
    requires IsDots(e)
    ensures !Enters(t, e)
  {
  }

  /** And where the walk notes nothing, there is a tree. */
  lemma {:induction false} VisitHolds(d: Disk, fold: Fold, own: nat, parent: nat, path: Name, level: nat)
    returns (nodes: seq<Node>)
    requires Mounted(d) && 0 < d.g.ClusterBytes() && Visit(d, fold, Place(own, path, parent, level)).Ok?
    requires AllSound(TableOf(d), d.g.ClusterBytes(), Visit(d, fold, Place(own, path, parent, level)).value)
    ensures Holds(d, fold, own, parent, path, level, nodes)
    decreases if level > 64 then 0 else 65 - level, 1, 0
  {
    hide Mounted, TableOf, Events, Scan, Entries, AllSound;
    if level > 64 {
      NoteUnsound(TableOf(d), d.g.ClusterBytes(), TooDeep(path));
      OneAction(TableOf(d), d.g.ClusterBytes(), Note(TooDeep(path)));
      assert false;
    } else {
      var events := Events(d, own, if path == [] then [0x2F] else path).value;
      nodes := ScanHolds(d, fold, own, parent, path, level, events, NOTHING);
    }
  }

  lemma {:induction false} ScanHolds(d: Disk, fold: Fold, own: nat, parent: nat, path: Name, level: nat,
                                     events: seq<Event>, seen: Seen)
    returns (nodes: seq<Node>)
    requires Mounted(d) && 0 < d.g.ClusterBytes() && level <= 64
    requires var scan := Scan(d, fold, Place(own, path, parent, level), events, seen);
      scan.Ok? && AllSound(TableOf(d), d.g.ClusterBytes(), scan.value)
    ensures Entries(d, fold, own, parent, path, level, events, seen.names, seen.dot, seen.dotdot, nodes)
    decreases 65 - level, 0, |events|
  {
    hide Mounted, TableOf, AllSound, Held, Listed, Visit, Holds, EntryActions, Enters, Follow, SizeFits;
    var t, n, p := TableOf(d), d.g.ClusterBytes(), Place(own, path, parent, level);
    nodes := [];
    if events == [] {
      LastSound(t, n, p, seen);
    } else if events[0].Flaw? {
      var rest := Scan(d, fold, p, events[1..], seen).value;
      NoteUnsound(t, n, events[0].problem);
      OneAction(t, n, Note(events[0].problem));
      SoundAppend(t, n, [Note(events[0].problem)], rest);
      assert false;
    } else {
      var e := events[0].entry;
      var mine, after := EntryActions(t, fold, p, seen, e), SeeEntry(fold, seen, e);
      var inner := if Enters(t, e) then Visit(d, fold, Inside(p, e)).value else [];
      var rest := Scan(d, fold, p, events[1..], after).value;
      SoundAppend(t, n, mine, inner);
      SoundAppend(t, n, mine + inner, rest);
      var more := ScanHolds(d, fold, own, parent, path, level, events[1..], after);
      if IsDots(e) {
        LinkDoes(t, n, fold, own, path, parent, level, seen, e);
        nodes := more;
      } else {
        NodeDoes(d, fold, p, seen, e);
        if FolderBit(e) {
          var inside := VisitHolds(d, fold, e.first, own, path + [0x2F] + e.name, level + 1);
          nodes := [Folder(e, inside)] + more;
        } else {
          nodes := [File(e)] + more;
        }
        assert nodes[1..] == more;
      }
    }
  }

  lemma LastSound(t: Table, clusterBytes: nat, p: Place, seen: Seen)
    requires 0 < clusterBytes
    ensures AllSound(t, clusterBytes, LastActions(p, seen)) <==> p.first != 0 ==> seen.dot && seen.dotdot
  {
    OneAction(t, clusterBytes, Note(DotsMissing(p.path)));
  }

  // The whole volume.

  /** The chain of FAT32's root. */
  ghost function RootChain(d: Disk): seq<nat>
    requires Mounted(d)
  {
    if d.g.kind.Fat32? && Chain(TableOf(d), d.g.rootCluster).Ok? then Chain(TableOf(d), d.g.rootCluster).value else []
  }

  /** The volume is the tree: its root holds it, and its chains, with FAT32's root's, have every cluster in use, each
      once. */
  ghost predicate IsTree(d: Disk, fold: Fold, nodes: seq<Node>)
    requires Mounted(d)
  {
    && (d.g.kind.Fat32? ==> Chain(TableOf(d), d.g.rootCluster).Ok?)
    && Holds(d, fold, 0, 0, [], 0, nodes)
    && var clusters := RootChain(d) + ClustersIn(TableOf(d), nodes);
       NoDup(clusters) && forall c: nat :: c in clusters <==> TableOf(d).Used(c)
  }

  lemma UsedAre(t: Table, clusters: seq<nat>)
    ensures Elems(clusters) == UsedSet(t) <==> forall c: nat :: c in clusters <==> t.Used(c)
  {
    assert forall c: nat :: c in Elems(clusters) <==> c in clusters;
    assert forall c: nat :: c in UsedSet(t) <==> t.Used(c);
  }

  /** The walk's claims, with FAT32's root. */
  lemma WalkIs(d: Disk, fold: Fold)
    requires Mounted(d) && 0 < d.g.ClusterBytes()
    ensures var t, n, acts, visit := TableOf(d), d.g.ClusterBytes(), WalkActions(d, fold), Visit(d, fold, TopPlace());
      if d.g.kind.Fat32? && Chain(t, d.g.rootCluster).Err? then acts.Ok? && !AllSound(t, n, acts.value)
      else
        && acts.Ok? == visit.Ok?
        && (acts.Ok? ==>
              && (AllSound(t, n, acts.value) <==> AllSound(t, n, visit.value))
              && Held(t, acts.value) == RootChain(d) + Held(t, visit.value)
              && Listed(acts.value) == Listed(visit.value))
  {
    hide Mounted, TableOf, Visit, Follow, AllSound, Held, Listed, Sound;
    var t, n, claim := TableOf(d), d.g.ClusterBytes(), Claim(ROOT, d.g.rootCluster, None);
    OneAction(t, n, claim);
    RootSound(t, n, d.g.rootCluster);
    if d.g.kind.Fat32? && Visit(d, fold, TopPlace()).Ok? {
      SoundAppend(t, n, [claim], Visit(d, fold, TopPlace()).value);
    } else if d.g.kind.Fat16? && Visit(d, fold, TopPlace()).Ok? {
      assert [] + Held(t, Visit(d, fold, TopPlace()).value) == Held(t, Visit(d, fold, TopPlace()).value);
    }
  }

  lemma RootSound(t: Table, clusterBytes: nat, root: nat)
    requires 0 < clusterBytes
    ensures var claim := Claim(ROOT, root, None);
      && (Sound(t, clusterBytes, claim) <==> Chain(t, root).Ok?)
      && HeldBy(t, claim) == if Chain(t, root).Ok? then Chain(t, root).value else []
  {
    hide Follow;
  }

  /** A volume with sound fields that is a tree checks clean, and lists the tree. */
  lemma TreeClean(d: Disk, fold: Fold, nodes: seq<Node>)
    requires Mounted(d) && SoundFields(d) && IsTree(d, fold, nodes)
    ensures ChecksClean(d, fold) && Walked(d, fold, []).Ok? && Walked(d, fold, []).value.out == ItemsIn([], nodes)
  {
    hide Mounted, TableOf, HeadProblems, WalkActions, Holds, Visit, AllSound, Held, Listed, Replay, ClustersIn, UsedSet,
         NoDup, Elems, Follow, SoundFields;
    var t, n := TableOf(d), d.g.ClusterBytes();
    BytesPositive(d);
    HeadExact(d);
    HoldsDoes(d, fold, 0, 0, [], 0, nodes);
    WalkIs(d, fold);
    UsedAre(t, RootChain(d) + ClustersIn(t, nodes));
    CleanExact(d, fold);
    ReplayExact(t, n, Start([]), WalkActions(d, fold).value);
    assert Start([]).out + ItemsIn([], nodes) == ItemsIn([], nodes);
  }

  /** A volume checks clean if and only if its own fields are sound and it is a tree; and the tree is what it lists. */
  lemma CleanIsTree(d: Disk, fold: Fold)
    requires Mounted(d)
    ensures ChecksClean(d, fold) <==> SoundFields(d) && exists nodes :: IsTree(d, fold, nodes)
    ensures ChecksClean(d, fold) ==> Walked(d, fold, []).Ok? && forall nodes :: IsTree(d, fold, nodes) ==>
      Walked(d, fold, []).value.out == ItemsIn([], nodes)
  {
    hide Mounted, HeadProblems, IsTree, Walked, Check, SoundFields;
    HeadExact(d);
    if ChecksClean(d, fold) {
      CleanHead(d, fold);
      var nodes := TheTree(d, fold);
    }
    if SoundFields(d) {
      forall nodes | IsTree(d, fold, nodes)
        ensures ChecksClean(d, fold) && Walked(d, fold, []).Ok? && Walked(d, fold, []).value.out == ItemsIn([], nodes)
      {
        TreeClean(d, fold, nodes);
      }
    }
  }

  lemma TheTree(d: Disk, fold: Fold) returns (nodes: seq<Node>)
    requires ChecksClean(d, fold)
    ensures IsTree(d, fold, nodes) && Walked(d, fold, []).Ok?
  {
    hide Mounted, TableOf, HeadProblems, WalkActions, Holds, Visit, AllSound, Held, Listed, ClustersIn, UsedSet, NoDup,
         Elems, Follow, Replay;
    var t, n := TableOf(d), d.g.ClusterBytes();
    BytesPositive(d);
    CleanExact(d, fold);
    WalkIs(d, fold);
    nodes := VisitHolds(d, fold, 0, 0, [], 0);
    HoldsDoes(d, fold, 0, 0, [], 0, nodes);
    UsedAre(t, RootChain(d) + ClustersIn(t, nodes));
  }

  // The links.

  /** The directory has both its links, the one names it, and the other the cluster `parent`; and it has no other. */
  ghost predicate LinksRight(d: Disk, item: Item, parent: nat)
    requires Mounted(d)
  {
    var events := Events(d, item.first, item.path);
    && events.Ok?
    && (exists e :: Found(e) in events.value && e.name == [0x2E])
    && (exists e :: Found(e) in events.value && e.name == [0x2E, 0x2E])
    && (forall e :: Found(e) in events.value && e.name == [0x2E] ==> e.first == item.first)
    && (forall e :: Found(e) in events.value && e.name == [0x2E, 0x2E] ==> e.first == parent)
  }

  /** The links of the directory `i` are right, whose own directory is the root of these items, at the cluster `own`, or
      is listed before it. */
  ghost predicate LinkedAt(d: Disk, base: Name, own: nat, items: seq<Item>, i: nat)
    requires Mounted(d) && i < |items|
  {
    var dir := Parent(items[i].path);
    || (dir == base && LinksRight(d, items[i], own))
    || exists j :: 0 <= j < i && items[j].isDir && items[j].path == dir && LinksRight(d, items[i], items[j].first)
  }

  ghost predicate AllLinked(d: Disk, base: Name, own: nat, items: seq<Item>)
    requires Mounted(d)
  {
    forall i :: 0 <= i < |items| && items[i].isDir ==> LinkedAt(d, base, own, items, i)
  }

  lemma LinkedMore(d: Disk, base: Name, own: nat, a: seq<Item>, b: seq<Item>)
    requires Mounted(d) && AllLinked(d, base, own, a) && AllLinked(d, base, own, b)
    ensures AllLinked(d, base, own, a + b)
  {
    hide Mounted, LinksRight;
    var all := a + b;
    forall i | 0 <= i < |all| && all[i].isDir ensures LinkedAt(d, base, own, all, i) {
      if i < |a| {
        assert LinkedAt(d, base, own, a, i);
        if !(Parent(a[i].path) == base && LinksRight(d, a[i], own)) {
          var j :| 0 <= j < i && a[j].isDir && a[j].path == Parent(a[i].path) && LinksRight(d, a[i], a[j].first);
          assert all[j] == a[j];
        }
      } else {
        assert LinkedAt(d, base, own, b, i - |a|);
        if !(Parent(all[i].path) == base && LinksRight(d, all[i], own)) {
          var j :| 0 <= j < i - |a| && b[j].isDir && b[j].path == Parent(all[i].path)
                   && LinksRight(d, all[i], b[j].first);
          assert all[|a| + j] == b[j];
        }
      }
    }
  }

  /** A directory and what is in it. */
  lemma LinkedInside(d: Disk, base: Name, own: nat, item: Item, inner: seq<Item>)
    requires Mounted(d) && item.isDir && Parent(item.path) == base && LinksRight(d, item, own)
    requires AllLinked(d, item.path, item.first, inner)
    ensures AllLinked(d, base, own, [item] + inner)
  {
    hide Mounted, LinksRight, LinkedAt, Parent;
    var all := [item] + inner;
    forall i | 0 <= i < |all| && all[i].isDir ensures LinkedAt(d, base, own, all, i) {
      if i == 0 {
        FirstLinked(d, base, own, item, inner);
      } else {
        assert all[i] == inner[i - 1];
        LaterLinked(d, base, own, item, inner, i - 1);
      }
    }
  }

  lemma FirstLinked(d: Disk, base: Name, own: nat, item: Item, inner: seq<Item>)
    requires Mounted(d) && Parent(item.path) == base && LinksRight(d, item, own)
    ensures LinkedAt(d, base, own, [item] + inner, 0)
  {
    hide Mounted, LinksRight, Parent;
  }

  lemma LaterLinked(d: Disk, base: Name, own: nat, item: Item, inner: seq<Item>, i: nat)
    requires Mounted(d) && item.isDir && i < |inner| && LinkedAt(d, item.path, item.first, inner, i)
    ensures LinkedAt(d, base, own, [item] + inner, i + 1)
  {
    hide Mounted, LinksRight, Parent;
    var all := [item] + inner;
    assert all[i + 1] == inner[i] && all[0] == item;
    if !(Parent(inner[i].path) == item.path && LinksRight(d, inner[i], item.first)) {
      var j :| 0 <= j < i && inner[j].isDir && inner[j].path == Parent(inner[i].path)
               && LinksRight(d, inner[i], inner[j].first);
      assert all[1 + j] == inner[j];
    }
  }

  /** What a directory's entries say of its links. */
  lemma {:induction false} EntriesLink(d: Disk, fold: Fold, own: nat, parent: nat, path: Name, level: nat,
                                       events: seq<Event>, names: set<Name>, dot: bool, dotdot: bool, nodes: seq<Node>)
    requires Mounted(d) && level <= 64
    requires Entries(d, fold, own, parent, path, level, events, names, dot, dotdot, nodes)
    ensures forall e :: Found(e) in events && e.name == [0x2E] ==> e.first == own
    ensures forall e :: Found(e) in events && e.name == [0x2E, 0x2E] ==> e.first == parent
    ensures own != 0 && !dot ==> exists e :: Found(e) in events && e.name == [0x2E]
    ensures own != 0 && !dotdot ==> exists e :: Found(e) in events && e.name == [0x2E, 0x2E]
    decreases |events|
  {
    hide Mounted, TableOf, Holds, SizeFits, Follow;
    if events == [] {
    } else {
      var e, rest := events[0].entry, events[1..];
      assert forall x :: x in events <==> x == events[0] || x in rest;
      if e.name == [0x2E] {
        EntriesLink(d, fold, own, parent, path, level, rest, names, true, dotdot, nodes);
        assert Found(e) in events;
      } else if e.name == [0x2E, 0x2E] {
        EntriesLink(d, fold, own, parent, path, level, rest, names, dot, true, nodes);
        assert Found(e) in events;
      } else {
        EntriesLink(d, fold, own, parent, path, level, rest, names + {fold(e.name)}, dot, dotdot, nodes[1..]);
      }
    }
  }

  lemma HoldsLinks(d: Disk, fold: Fold, own: nat, parent: nat, path: Name, level: nat, nodes: seq<Node>)
    requires Mounted(d) && own != 0 && path != [] && Holds(d, fold, own, parent, path, level, nodes)
    ensures LinksRight(d, Item(path, true, own, 0), parent)
  {
    hide Mounted, Events, Entries;
    EntriesLink(d, fold, own, parent, path, level, Events(d, own, path).value, {}, false, false, nodes);
  }

  /** No name of the tree holds a slash. */
  predicate PlainNodes(nodes: seq<Node>) {
    nodes == []
    || (&& 0x2F !in nodes[0].entry.name && (nodes[0].Folder? ==> PlainNodes(nodes[0].inside)) && PlainNodes(nodes[1..]))
  }

  lemma {:induction false} HoldsLinked(d: Disk, fold: Fold, own: nat, parent: nat, path: Name, level: nat,
                                       nodes: seq<Node>)
    requires Mounted(d) && Holds(d, fold, own, parent, path, level, nodes) && PlainNodes(nodes)
    ensures AllLinked(d, path, own, ItemsIn(path, nodes))
    decreases 65 - level, 1, 0
  {
    hide Mounted, Events, Entries, AllLinked;
    var events := Events(d, own, if path == [] then [0x2F] else path).value;
    EntriesLinked(d, fold, own, parent, path, level, events, {}, false, false, nodes);
  }

  lemma {:induction false} EntriesLinked(d: Disk, fold: Fold, own: nat, parent: nat, path: Name, level: nat,
                                         events: seq<Event>, names: set<Name>, dot: bool, dotdot: bool,
                                         nodes: seq<Node>)
    requires Mounted(d) && level <= 64 && PlainNodes(nodes)
    requires Entries(d, fold, own, parent, path, level, events, names, dot, dotdot, nodes)
    ensures AllLinked(d, path, own, ItemsIn(path, nodes))
    decreases 65 - level, 0, |events|
  {
    hide Mounted, TableOf, Holds, SizeFits, Follow, AllLinked, LinksRight;
    if events == [] {
      NoneLinked(d, path, own);
    } else {
      var e, rest := events[0].entry, events[1..];
      if e.name == [0x2E] {
        EntriesLinked(d, fold, own, parent, path, level, rest, names, true, dotdot, nodes);
      } else if e.name == [0x2E, 0x2E] {
        EntriesLinked(d, fold, own, parent, path, level, rest, names, dot, true, nodes);
      } else {
        EntriesLinked(d, fold, own, parent, path, level, rest, names + {fold(e.name)}, dot, dotdot, nodes[1..]);
        var full := path + [0x2F] + e.name;
        ParentOfJoin(path, e.name);
        var first := match nodes[0]
          case File(_) => [Item(full, false, e.first, e.size)]
          case Folder(_, inside) => [Item(full, true, e.first, 0)] + ItemsIn(full, inside);
        if nodes[0].Folder? {
          HoldsLinked(d, fold, e.first, own, full, level + 1, nodes[0].inside);
          HoldsLinks(d, fold, e.first, own, full, level + 1, nodes[0].inside);
          LinkedInside(d, path, own, Item(full, true, e.first, 0), ItemsIn(full, nodes[0].inside));
        } else {
          FileLinked(d, path, own, first[0]);
        }
        LinkedMore(d, path, own, first, ItemsIn(path, nodes[1..]));
        assert ItemsIn(path, nodes) == first + ItemsIn(path, nodes[1..]);
      }
    }
  }

  lemma NoneLinked(d: Disk, base: Name, own: nat)
    requires Mounted(d)
    ensures AllLinked(d, base, own, [])
  {
  }

  lemma FileLinked(d: Disk, base: Name, own: nat, item: Item)
    requires Mounted(d) && !item.isDir
    ensures AllLinked(d, base, own, [item])
  {
  }

  // From the walk's own names.

  lemma {:induction false} HoldsPlain(d: Disk, fold: Fold, own: nat, parent: nat, path: Name, level: nat,
                                      nodes: seq<Node>)
    requires Mounted(d) && 0 < d.g.ClusterBytes() && Holds(d, fold, own, parent, path, level, nodes)
    requires Visit(d, fold, Place(own, path, parent, level)).Ok?
    requires PlainNames(Visit(d, fold, Place(own, path, parent, level)).value)
    ensures PlainNodes(nodes)
    decreases 65 - level, 1, 0
  {
    hide Mounted, TableOf, Events, Scan, Entries, PlainNames, PlainNodes;
    var events := Events(d, own, if path == [] then [0x2F] else path).value;
    EntriesPlain(d, fold, own, parent, path, level, events, NOTHING, nodes);
  }

  lemma {:induction false} EntriesPlain(d: Disk, fold: Fold, own: nat, parent: nat, path: Name, level: nat,
                                        events: seq<Event>, seen: Seen, nodes: seq<Node>)
    requires Mounted(d) && 0 < d.g.ClusterBytes() && level <= 64
    requires Entries(d, fold, own, parent, path, level, events, seen.names, seen.dot, seen.dotdot, nodes)
    requires var scan := Scan(d, fold, Place(own, path, parent, level), events, seen);
      scan.Ok? && PlainNames(scan.value)
    ensures PlainNodes(nodes)
    decreases 65 - level, 0, |events|
  {
    hide Mounted, TableOf, PlainNames, Visit, Holds, EntryActions, Enters, Follow, SizeFits;
    var t, p := TableOf(d), Place(own, path, parent, level);
    if events == [] {
    } else {
      var e := events[0].entry;
      var mine, after := EntryActions(t, fold, p, seen, e), SeeEntry(fold, seen, e);
      var inner := if Enters(t, e) then Visit(d, fold, Inside(p, e)).value else [];
      var rest := Scan(d, fold, p, events[1..], after).value;
      PlainParts(mine + inner, rest);
      PlainParts(mine, inner);
      if IsDots(e) {
        EntriesPlain(d, fold, own, parent, path, level, events[1..], after, nodes);
      } else {
        EntriesPlain(d, fold, own, parent, path, level, events[1..], after, nodes[1..]);
        EntryNamed(t, fold, p, seen, e);
        if nodes[0].Folder? {
          BitIs(e);
          EntersIs(t, e);
          HoldsPlain(d, fold, e.first, own, path + [0x2F] + e.name, level + 1, nodes[0].inside);
        }
      }
    }
  }

  lemma EntersIs(t: Table, e: Entry)
    ensures Enters(t, e) <==> !IsDots(e) && e.IsDir() && e.first != 0 && Chain(t, e.first).Ok?
  {
  }

  /** What an entry lists has its name. */
  lemma EntryNamed(t: Table, fold: Fold, p: Place, seen: Seen, e: Entry)
    requires !IsDots(e) && PlainNames(EntryActions(t, fold, p, seen, e))
    requires e.IsDir() ==> e.first != 0 && Chain(t, e.first).Ok?
    ensures 0x2F !in e.name
  {
    hide Follow;
    var full := Join(p.path, e.name);
    var head := [Stamp(full, e.mtime)] + if fold(e.name) in seen.names then [Note(SecondOfName(full))] else [];
    var more := if e.IsDir() then DirActions(t, p.path, e) else FileActions(p.path, e);
    assert EntryActions(t, fold, p, seen, e) == head + more;
    PlainParts(head, more);
    if e.IsDir() {
      var list := List(p.path, e.name, true, e.first, 0);
      assert more[|more| - 1] == list;
    } else {
      assert more[0] == List(p.path, e.name, false, e.first, e.size);
    }
  }

  /** When the walk reports nothing, the links of every listed directory are right: `.` names its own first cluster, and
      `..` that of the directory that it is listed in, or 0 in the root. */
  lemma LinksExact(d: Disk, fold: Fold, out: seq<Item>, acts: seq<Action>)
    requires CleanWalk(d, fold, out, acts)
    ensures AllLinked(d, [], 0, out)
  {
    hide Mounted, TableOf, FoldsByName, PlainNames, WalkActions, Replay, AllSound, Held, Visit, Listed, Holds, ItemsIn,
         PlainNodes, AllLinked, Follow;
    var t, n := TableOf(d), d.g.ClusterBytes();
    BytesPositive(d);
    ReplayExact(t, n, Start([]), acts);
    WalkIs(d, fold);
    assert Start([]).out + Listed(acts) == Listed(acts);
    var nodes := VisitHolds(d, fold, 0, 0, [], 0);
    HoldsDoes(d, fold, 0, 0, [], 0, nodes);
    VisitPlain(d, fold, acts);
    HoldsPlain(d, fold, 0, 0, [], 0, nodes);
    HoldsLinked(d, fold, 0, 0, [], 0, nodes);
  }

  lemma VisitPlain(d: Disk, fold: Fold, acts: seq<Action>)
    requires Mounted(d) && WalkActions(d, fold) == Ok(acts) && PlainNames(acts)
    requires d.g.kind.Fat32? ==> Chain(TableOf(d), d.g.rootCluster).Ok?
    ensures Visit(d, fold, TopPlace()).Ok? && PlainNames(Visit(d, fold, TopPlace()).value)
  {
    hide Mounted, TableOf, PlainNames, Visit, Follow;
    if d.g.kind.Fat32? {
      PlainParts([Claim(ROOT, d.g.rootCluster, None)], Visit(d, fold, TopPlace()).value);
    }
  }
}
