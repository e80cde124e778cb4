/** Healthy volumes: any freshly made one checks clean, and so does one with a directory in a directory, for which alone
    a `..` names anything but the root. */
module HealthyVolumes {
  import opened Results
  import opened Report
  import opened Seqs
  import opened Chains
  import opened Geometries
  import opened Directories
  import opened Walks
  import opened Checks
  import opened Heads
  import opened Partition
  import opened Shapes

  // Fresh volumes.

  /** The root's entries end at once. */
  ghost predicate EmptyRoot(d: Disk)
    requires Mounted(d)
  {
    DirBytes(d, 0).Ok? && (DirBytes(d, 0).value == [] || DirBytes(d, 0).value[0] == 0)
  }

  lemma EmptyHolds(d: Disk, fold: Fold)
    requires Mounted(d) && EmptyRoot(d)
    ensures Holds(d, fold, 0, 0, [], 0, [])
  {
    hide Mounted, DirBytes;
    assert RawEntries(d, 0) == Ok([]);
    assert Events(d, 0, [0x2F]) == Ok([]);
  }

  /** A freshly made volume, of any size that is FAT16, checks clean, and every cluster is free. */
  lemma FreshClean(d: Disk, fold: Fold)
    requires Mounted(d) && d.g.kind.Fat16? && SoundFields(d) && EmptyRoot(d)
    requires forall c: nat :: 2 <= c <= d.g.MaxCluster() ==> FatOf(d, c) == 0
    ensures ChecksClean(d, fold) && FreeCount(TableOf(d)) == d.g.clusters
  {
    hide Mounted, FatOf, EmptyRoot, FreeCount, Check, SoundFields, Holds;
    EmptyHolds(d, fold);
    BytesPositive(d);
    AllFree(TableOf(d));
    TreeClean(d, fold, []);
  }

  lemma AllFree(t: Table)
    requires t.Sane() && 2 <= |t.next| && forall c: nat :: 2 <= c < |t.next| ==> t.next[c] == 0
    ensures (forall c: nat :: !t.Used(c)) && FreeCount(t) == |t.next| - 2
  {
    assert UsedSet(t) == {} && BadSet(t) == {};
    SetsCount(t);
  }

  lemma OneUsed(t: Table, root: nat)
    requires t.Sane() && 2 <= root < |t.next| && t.next[root] >= t.eoc
    requires forall c: nat :: 2 <= c < |t.next| && c != root ==> t.next[c] == 0
    ensures (forall c: nat :: t.Used(c) <==> c == root) && FreeCount(t) == |t.next| - 3 && Chain(t, root) == Ok([root])
  {
    ChainExact(t, root, [root]);
    hide Chain;
    assert UsedSet(t) == {root} && BadSet(t) == {};
    SetsCount(t);
  }

  /** A freshly made FAT32 volume, of any size, checks clean: its root's one cluster is in use, every other is
      free, and FSInfo says so, or that it does not know. */
  lemma FreshClean32(d: Disk, fold: Fold)
    requires Mounted(d) && d.g.kind.Fat32? && SoundFields(d) && EmptyRoot(d)
    requires 2 <= d.g.rootCluster <= d.g.MaxCluster() && FatOf(d, d.g.rootCluster) >= d.g.Eoc()
    requires forall c: nat :: 2 <= c <= d.g.MaxCluster() && c != d.g.rootCluster ==> FatOf(d, c) == 0
    ensures ChecksClean(d, fold) && FreeCount(TableOf(d)) == d.g.clusters - 1
  {
    hide Mounted, FatOf, EmptyRoot, FreeCount, Check, SoundFields, Holds, Chain;
    EmptyHolds(d, fold);
    BytesPositive(d);
    OneUsed(TableOf(d), d.g.rootCluster);
    var root := [d.g.rootCluster];
    assert root + [] == root;
    TreeClean(d, fold, []);
  }

  // One entry more.

  lemma FileFirst(d: Disk, fold: Fold, own: nat, parent: nat, path: Name, level: nat, e: Entry, rest: seq<Event>,
                  names: set<Name>, dot: bool, dotdot: bool, nodes: seq<Node>)
    requires Mounted(d) && level <= 64 && !IsDots(e) && !FolderBit(e) && SizeFits(d, e) && fold(e.name) !in names
    requires Entries(d, fold, own, parent, path, level, rest, names + {fold(e.name)}, dot, dotdot, nodes)
    ensures Entries(d, fold, own, parent, path, level, [Found(e)] + rest, names, dot, dotdot, [File(e)] + nodes)
  {
    hide Mounted, SizeFits, FolderBit;
    assert ([Found(e)] + rest)[1..] == rest && ([File(e)] + nodes)[1..] == nodes;
  }

  lemma FolderFirst(d: Disk, fold: Fold, own: nat, parent: nat, path: Name, level: nat, e: Entry, inside: seq<Node>,
                    rest: seq<Event>, names: set<Name>, dot: bool, dotdot: bool, nodes: seq<Node>)
    requires Mounted(d) && level <= 64 && !IsDots(e) && FolderBit(e) && e.size == 0 && e.first != 0
    requires ChainOf(d, e.first).Ok? && Holds(d, fold, e.first, own, Join(path, e.name), level + 1, inside)
    requires fold(e.name) !in names
    requires Entries(d, fold, own, parent, path, level, rest, names + {fold(e.name)}, dot, dotdot, nodes)
    ensures Entries(d, fold, own, parent, path, level, [Found(e)] + rest, names, dot, dotdot,
                    [Folder(e, inside)] + nodes)
  {
    hide Mounted, TableOf, Follow, Holds, FolderBit;
    assert ([Found(e)] + rest)[1..] == rest && ([Folder(e, inside)] + nodes)[1..] == nodes;
  }

  lemma LinksFirst(d: Disk, fold: Fold, own: nat, parent: nat, path: Name, level: nat, a: Entry, b: Entry,
                   rest: seq<Event>, nodes: seq<Node>)
    requires Mounted(d) && level <= 64
    requires a.name == DOT && a.first == own && b.name == DOTDOT && b.first == parent
    requires Entries(d, fold, own, parent, path, level, rest, {}, true, true, nodes)
    ensures Entries(d, fold, own, parent, path, level, [Found(a), Found(b)] + rest, {}, false, false, nodes)
  {
    hide Mounted, Holds;
    var events := [Found(a), Found(b)] + rest;
    assert events[1..] == [Found(b)] + rest && events[1..][1..] == rest;
    assert DOTDOT != DOT;
    assert Entries(d, fold, own, parent, path, level, events[1..], {}, true, false, nodes);
  }

  /** A directory with its two links and one file. */
  lemma HoldsFile(d: Disk, fold: Fold, own: nat, parent: nat, path: Name, level: nat, a: Entry, b: Entry, f: Entry)
    requires Mounted(d) && level <= 64 && path != []
    requires a.name == DOT && a.first == own && b.name == DOTDOT && b.first == parent
    requires !IsDots(f) && !FolderBit(f) && SizeFits(d, f)
    requires Events(d, own, path) == Ok([Found(a), Found(b), Found(f)])
    ensures Holds(d, fold, own, parent, path, level, [File(f)])
  {
    hide Mounted, Events, SizeFits, FolderBit;
    assert [Found(a), Found(b), Found(f)] == [Found(a), Found(b)] + ([Found(f)] + []);
    assert [File(f)] + [] == [File(f)];
    assert Entries(d, fold, own, parent, path, level, [], {} + {fold(f.name)}, true, true, []);
    FileFirst(d, fold, own, parent, path, level, f, [], {}, true, true, []);
    LinksFirst(d, fold, own, parent, path, level, a, b, [Found(f)] + [], [File(f)]);
  }

  /** A directory with its two links, if it is not the root, and one directory. */
  lemma HoldsFolder(d: Disk, fold: Fold, own: nat, parent: nat, path: Name, level: nat, links: seq<Event>, e: Entry,
                    inside: seq<Node>)
    requires Mounted(d) && level <= 64
    requires if own == 0 then links == [] else
      && |links| == 2 && links[0].Found? && links[1].Found?
      && links[0].entry.name == DOT && links[0].entry.first == own
      && links[1].entry.name == DOTDOT && links[1].entry.first == parent
    requires !IsDots(e) && FolderBit(e) && e.size == 0 && e.first != 0 && ChainOf(d, e.first).Ok?
    requires Events(d, own, if path == [] then [0x2F] else path) == Ok(links + [Found(e)])
    requires Holds(d, fold, e.first, own, Join(path, e.name), level + 1, inside)
    ensures Holds(d, fold, own, parent, path, level, [Folder(e, inside)])
  {
    hide Mounted, Events, FolderBit, TableOf, Follow, IsDots;
    var dots := own != 0;
    assert [Found(e)] + [] == [Found(e)] && [Folder(e, inside)] + [] == [Folder(e, inside)];
    assert Entries(d, fold, own, parent, path, level, [], {} + {fold(e.name)}, dots, dots, []);
    FolderFirst(d, fold, own, parent, path, level, e, inside, [], {}, dots, dots, []);
    if dots {
      assert links == [Found(links[0].entry), Found(links[1].entry)];
      LinksFirst(d, fold, own, parent, path, level, links[0].entry, links[1].entry, [Found(e)], [Folder(e, inside)]);
    } else {
      assert links + [Found(e)] == [Found(e)];
    }
  }

  /** A directory `x` of the root, and in it a directory `y` with one file, each with its links, and nothing else in
      use. The `..` of `y` names `x`. */
  ghost predicate TwoLevels(d: Disk, x: Entry, y: Entry, f: Entry, links: seq<Entry>)
    requires Mounted(d)
  {
    && !IsDots(x) && FolderBit(x) && x.size == 0 && x.first != 0 && ChainOf(d, x.first).Ok?
    && !IsDots(y) && FolderBit(y) && y.size == 0 && y.first != 0 && ChainOf(d, y.first).Ok?
    && !IsDots(f) && !FolderBit(f) && SizeFits(d, f)
    && |links| == 4 && links[0].name == links[2].name == DOT && links[1].name == links[3].name == DOTDOT
    && links[0].first == x.first && links[1].first == 0
    && links[2].first == y.first && links[3].first == x.first
    && Events(d, 0, ROOT) == Ok([Found(x)])
    && Events(d, x.first, Join([], x.name)) == Ok([Found(links[0]), Found(links[1]), Found(y)])
    && Events(d, y.first, Join(Join([], x.name), y.name)) == Ok([Found(links[2]), Found(links[3]), Found(f)])
    && var clusters := RootChain(d) + ClustersIn(TableOf(d), [Folder(x, [Folder(y, [File(f)])])]);
       NoDup(clusters) && forall c: nat :: c in clusters <==> TableOf(d).Used(c)
  }

  lemma TwoLevelsHold(d: Disk, fold: Fold, x: Entry, y: Entry, f: Entry, links: seq<Entry>)
    requires Mounted(d) && TwoLevels(d, x, y, f, links)
    ensures Holds(d, fold, 0, 0, [], 0, [Folder(x, [Folder(y, [File(f)])])])
  {
    hide Mounted, TableOf, Events, Holds, ClustersIn, Follow, SizeFits, NoDup, FolderBit, IsDots;
    var xs, ys := Join([], x.name), Join(Join([], x.name), y.name);
    HoldsFile(d, fold, y.first, x.first, ys, 2, links[2], links[3], f);
    assert [Found(links[0]), Found(links[1])] + [Found(y)] == [Found(links[0]), Found(links[1]), Found(y)];
    HoldsFolder(d, fold, x.first, 0, xs, 1, [Found(links[0]), Found(links[1])], y, [File(f)]);
    assert [] + [Found(x)] == [Found(x)];
    HoldsFolder(d, fold, 0, 0, [], 0, [], x, [Folder(y, [File(f)])]);
  }

  /** Such a volume checks clean, and its listing is the two directories and the file. */
  lemma TwoLevelsClean(d: Disk, fold: Fold, x: Entry, y: Entry, f: Entry, links: seq<Entry>)
    requires Mounted(d) && SoundFields(d) && TwoLevels(d, x, y, f, links)
    requires d.g.kind.Fat32? ==> ChainOf(d, d.g.rootCluster).Ok?
    ensures ChecksClean(d, fold) && Walked(d, fold, []).Ok?
    ensures var xs, ys := [0x2F] + x.name, [0x2F] + x.name + [0x2F] + y.name;
      Walked(d, fold, []).value.out
        == [Item(xs, true, x.first, 0), Item(ys, true, y.first, 0), Item(ys + [0x2F] + f.name, false, f.first, f.size)]
  {
    hide Mounted, TableOf, Events, Holds, ClustersIn, Follow, SizeFits, NoDup, SoundFields, Check, Walked, FolderBit,
         IsDots, ItemsIn;
    TwoLevelsHold(d, fold, x, y, f, links);
    TreeClean(d, fold, [Folder(x, [Folder(y, [File(f)])])]);
    TwoLevelsListed(x, y, f);
  }

  lemma TwoLevelsListed(x: Entry, y: Entry, f: Entry)
    ensures var xs, ys := [0x2F] + x.name, [0x2F] + x.name + [0x2F] + y.name;
      ItemsIn([], [Folder(x, [Folder(y, [File(f)])])])
        == [Item(xs, true, x.first, 0), Item(ys, true, y.first, 0), Item(ys + [0x2F] + f.name, false, f.first, f.size)]
  {
    var xs, ys := [0x2F] + x.name, [0x2F] + x.name + [0x2F] + y.name;
    assert [] + [0x2F] + x.name == xs;
    OneFileListed(ys, f);
    OneFolderListed(xs, y, [File(f)]);
    OneFolderListed([], x, [Folder(y, [File(f)])]);
  }

  lemma OneFileListed(path: Name, f: Entry)
    ensures ItemsIn(path, [File(f)]) == [Item(path + [0x2F] + f.name, false, f.first, f.size)]
  {
    assert [File(f)][1..] == [];
  }

  lemma OneFolderListed(path: Name, e: Entry, inside: seq<Node>)
    ensures var full := path + [0x2F] + e.name;
      ItemsIn(path, [Folder(e, inside)]) == [Item(full, true, e.first, 0)] + ItemsIn(full, inside)
  {
    assert [Folder(e, inside)][1..] == [];
  }
}
