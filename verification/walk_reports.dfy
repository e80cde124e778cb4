/** What the walk reports of an entry that is wrong, with the numbers and names it says. */
module WalkReports {
  import opened Results
  import opened Report
  import opened Chains
  import opened Geometries
  import opened Directories
  import opened Walks
  import opened Checks
  import opened Shapes

  /** A FAT16 volume whose root has just these entries. */
  ghost predicate RootHas(d: Disk, events: seq<Event>) {
    Mounted(d) && d.g.kind.Fat16? && Events(d, 0, [0x2F]) == Ok(events)
  }

  predicate Ordinary(e: Entry) {
    e.name != [0x2E] && e.name != [0x2E, 0x2E]
  }

  function When(b: bool, problem: Problem): seq<Problem> {
    if b then [problem] else []
  }

  // Replays of a few actions.

  lemma ReplayOne(t: Table, clusterBytes: nat, s: State, a: Action)
    requires 0 < clusterBytes
    ensures Replay(t, clusterBytes, s, [a]) == Step(t, clusterBytes, s, a)
  {
    hide Step;
    assert [a][1..] == [];
    assert Replay(t, clusterBytes, Step(t, clusterBytes, s, a), []) == Step(t, clusterBytes, s, a);
  }

  lemma ReplayFirst(t: Table, clusterBytes: nat, s: State, a: Action, rest: seq<Action>)
    requires 0 < clusterBytes
    ensures Replay(t, clusterBytes, s, [a] + rest)
         == Replay(t, clusterBytes, Step(t, clusterBytes, s, a), rest)
  {
    hide Step;
    ReplayAppend(t, clusterBytes, s, [a], rest);
    ReplayOne(t, clusterBytes, s, a);
  }

  lemma ReplayNone(t: Table, clusterBytes: nat, s: State)
    requires 0 < clusterBytes
    ensures Replay(t, clusterBytes, s, []) == s
  {
  }

  lemma {:induction false} TakeStays(s: State, path: Name, chain: seq<nat>, n: nat)
    requires n <= |chain| && (forall i, j :: 0 <= i < j < |chain| ==> chain[i] != chain[j])
    requires forall i :: 0 <= i < |chain| ==> chain[i] !in s.owner
    ensures var s' := Take(s, path, chain, n);
      && s'.problems == s.problems && s'.out == s.out && s'.mtime == s.mtime
      && forall c :: c in s'.owner ==> c in s.owner || c in chain[..n]
  {
    if n == 0 {
    } else {
      TakeStays(s, path, chain, n - 1);
      assert chain[..n] == chain[..n - 1] + [chain[n - 1]];
    }
  }

  // One entry in the root.

  lemma RootWalk(d: Disk, fold: Fold, e: Entry)
    requires RootHas(d, [Found(e)]) && Ordinary(e) && !Enters(TableOf(d), e)
    ensures WalkActions(d, fold)
         == Ok([Stamp(Join([], e.name), e.mtime)]
               + if e.IsDir() then DirActions(TableOf(d), [], e) else FileActions([], e))
  {
    hide Mounted, TableOf, Events, Enters, DirActions, FileActions;
    var t, p := TableOf(d), TopPlace();
    var acts := EntryActions(t, fold, p, NOTHING, e);
    assert [Found(e)][1..] == [];
    assert Scan(d, fold, p, [], SeeEntry(fold, NOTHING, e)) == Ok([]);
    assert [Stamp(Join([], e.name), e.mtime)] + [] == [Stamp(Join([], e.name), e.mtime)];
    assert acts + [] + [] == acts;
  }

  lemma FileEntered(t: Table, e: Entry)
    requires e.attr / 0x10 % 2 == 0
    ensures !e.IsDir() && !Enters(t, e)
  {
  }

  /** What is wrong with a file, in a volume of clusters of `bytes` bytes: an empty one that has a cluster, bytes with
      none, a chain that is broken, and one with more or fewer clusters than its size needs. */
  ghost function FileProblems(t: Table, bytes: nat, full: Name, e: Entry): seq<Problem>
    requires 0 < bytes
  {
    if e.size == 0 then When(e.first != 0, EmptyHolds(full, e.first))
    else if e.first == 0 then [BytesNoCluster(full, e.size)]
    else
      match Chain(t, e.first)
      case Err(fault) => [Broken(full, fault)]
      case Ok(chain) =>
        When(!((|chain| - 1) * bytes < e.size <= |chain| * bytes),
             SizeMismatch(full, e.size, (e.size + bytes - 1) / bytes, |chain|))
  }

  /** A file in the root: it is listed and dated, and what is wrong with it is reported. */
  lemma FileReports(d: Disk, fold: Fold, e: Entry)
    requires RootHas(d, [Found(e)]) && Ordinary(e) && e.attr / 0x10 % 2 == 0
    ensures Walked(d, fold, []).Ok? && 0 < d.g.spc
    ensures var s, full := Walked(d, fold, []).value, [0x2F] + e.name;
      && s.out == [Item(full, false, e.first, e.size)] && s.mtime == map[full := e.mtime]
      && s.problems == FileProblems(TableOf(d), d.g.spc * 512, full, e)
  {
    hide Mounted, TableOf, Events, Enters, Follow, EntryActions, WalkActions, FileActions, Replay,
         FileProblems;
    BytesPositive(d);
    assert [] + [0x2F] + e.name == [0x2F] + e.name;
    FileEntered(TableOf(d), e);
    RootWalk(d, fold, e);
    FileReplayed(TableOf(d), d.g.ClusterBytes(), [0x2F] + e.name, e);
  }

  lemma FileReplayed(t: Table, clusterBytes: nat, full: Name, e: Entry)
    requires 0 < clusterBytes && t.Sane() && full == Join([], e.name)
    ensures var s := Replay(t, clusterBytes, Start([]), [Stamp(full, e.mtime)] + FileActions([], e));
      && s.out == [Item(full, false, e.first, e.size)] && s.mtime == map[full := e.mtime]
      && s.problems == FileProblems(t, clusterBytes, full, e)
  {
    hide Follow, Take, Replay, ClustersFor, Join;
    var n, stamp, list := clusterBytes, Stamp(full, e.mtime), List([], e.name, false, e.first, e.size);
    var rest := if e.size == 0 then (if e.first != 0 then [Note(EmptyHolds(full, e.first))] else [])
                else if e.first == 0 then [Note(BytesNoCluster(full, e.size))]
                else [Claim(full, e.first, Some(e.size))];
    assert FileActions([], e) == [list] + rest;
    var s1 := Step(t, n, Start([]), stamp);
    var s2 := Step(t, n, s1, list);
    ReplayFirst(t, n, Start([]), stamp, [list] + rest);
    ReplayFirst(t, n, s1, list, rest);
    assert s2 == State(map[], map[full := e.mtime], [Item(full, false, e.first, e.size)], []);
    if rest == [] {
      ReplayNone(t, n, s2);
    } else {
      assert rest == [rest[0]];
      ReplayOne(t, n, s2, rest[0]);
      if rest[0].Claim? && Chain(t, e.first).Ok? {
        FileTaken(t, n, s2, full, e);
      }
    }
  }

  lemma FileTaken(t: Table, clusterBytes: nat, s: State, full: Name, e: Entry)
    requires t.Sane() && Chain(t, e.first).Ok? && 0 < clusterBytes && 0 < e.size && s.owner == map[] && s.problems == []
    ensures var chain, s' := Chain(t, e.first).value, Step(t, clusterBytes, s, Claim(full, e.first, Some(e.size)));
      && s'.out == s.out && s'.mtime == s.mtime
      && s'.problems == When(!((|chain| - 1) * clusterBytes < e.size <= |chain| * clusterBytes),
                             SizeMismatch(full, e.size, (e.size + clusterBytes - 1) / clusterBytes, |chain|))
  {
    var chain := Chain(t, e.first).value;
    ChainBound(t, e.first);
    TakeStays(s, full, chain, |chain|);
    FitsExactly(e.size, clusterBytes, |chain|);
    hide Take, Follow;
    assert ClustersFor(e.size, clusterBytes) == (e.size + clusterBytes - 1) / clusterBytes;
    hide ClustersFor;
  }

  /** A directory in the root that cannot be entered: a size is one report; no cluster, or a broken chain, another, and
      it is not listed. */
  lemma FolderReports(d: Disk, fold: Fold, e: Entry)
    requires RootHas(d, [Found(e)]) && Ordinary(e) && e.attr / 0x10 % 2 == 1
    requires e.first == 0 || Chain(TableOf(d), e.first).Err?
    ensures Walked(d, fold, []).Ok?
    ensures var s, full := Walked(d, fold, []).value, [0x2F] + e.name;
      && s.out == [] && s.mtime == map[full := e.mtime]
      && s.problems == When(e.size != 0, DirectorySize(full, e.size))
                       + [if e.first == 0 then DirectoryNoCluster(full)
                          else Broken(full, Chain(TableOf(d), e.first).error)]
  {
    hide Mounted, TableOf, Events, Follow, EntryActions, WalkActions, Replay;
    BytesPositive(d);
    var t, n := TableOf(d), d.g.ClusterBytes();
    var full := Join([], e.name);
    assert [] + [0x2F] + e.name == [0x2F] + e.name;
    assert e.IsDir();
    RootWalk(d, fold, e);
    var stamp := Stamp(full, e.mtime);
    var last := if e.first == 0 then Note(DirectoryNoCluster(full)) else Claim(full, e.first, None);
    var s := Step(t, n, Start([]), stamp);
    ReplayFirst(t, n, Start([]), stamp, DirActions(t, [], e));
    if e.size != 0 {
      var sized := Note(DirectorySize(full, e.size));
      assert DirActions(t, [], e) == [sized] + [last];
      ReplayFirst(t, n, s, sized, [last]);
      ReplayOne(t, n, Step(t, n, s, sized), last);
    } else {
      assert DirActions(t, [], e) == [last];
      ReplayOne(t, n, s, last);
    }
  }

  /** Two entries of a name: the second is reported. */
  lemma SecondReported(d: Disk, fold: Fold, a: Entry, b: Entry)
    requires RootHas(d, [Found(a), Found(b)]) && Ordinary(a) && Ordinary(b) && fold(a.name) == fold(b.name)
    requires a.attr / 0x10 % 2 == 0 && a.size == 0 && a.first == 0
    requires b.attr / 0x10 % 2 == 0 && b.size == 0 && b.first == 0
    ensures Walked(d, fold, []).Ok? && Walked(d, fold, []).value.problems == [SecondOfName([0x2F] + b.name)]
  {
    hide Mounted, TableOf, Events, Enters, Replay;
    BytesPositive(d);
    var t, n, p := TableOf(d), d.g.ClusterBytes(), TopPlace();
    FileEntered(t, a);
    FileEntered(t, b);
    assert [] + [0x2F] + b.name == [0x2F] + b.name;
    var seen := SeeEntry(fold, NOTHING, a);
    assert seen.names == {fold(a.name)};
    var x1, x2 := Stamp(Join([], a.name), a.mtime), List([], a.name, false, 0, 0);
    var y1, y2, y3 := Stamp(Join([], b.name), b.mtime), Note(SecondOfName(Join([], b.name))),
                      List([], b.name, false, 0, 0);
    assert EntryActions(t, fold, p, NOTHING, a) == [x1] + [x2];
    assert EntryActions(t, fold, p, seen, b) == [y1] + ([y2] + [y3]);
    hide EntryActions;
    assert [Found(a), Found(b)][1..] == [Found(b)] && [Found(b)][1..] == [];
    assert Scan(d, fold, p, [], SeeEntry(fold, seen, b)) == Ok([]);
    assert Scan(d, fold, p, [Found(b)], seen) == Ok([y1] + ([y2] + [y3]) + [] + []);
    assert [y1] + ([y2] + [y3]) + [] + [] == [y1] + ([y2] + [y3]);
    assert [x1] + [x2] + [] + ([y1] + ([y2] + [y3])) == [x1] + ([x2] + ([y1] + ([y2] + [y3])));
    var s1 := Step(t, n, Start([]), x1);
    var s2 := Step(t, n, s1, x2);
    var s3 := Step(t, n, s2, y1);
    var s4 := Step(t, n, s3, y2);
    ReplayFirst(t, n, Start([]), x1, [x2] + ([y1] + ([y2] + [y3])));
    ReplayFirst(t, n, s1, x2, [y1] + ([y2] + [y3]));
    ReplayFirst(t, n, s2, y1, [y2] + [y3]);
    ReplayFirst(t, n, s3, y2, [y3]);
    ReplayOne(t, n, s4, y3);
  }

  // A directory's links, at any depth.

  lemma LinkSeen(d: Disk, fold: Fold, p: Place, seen: Seen, e: Entry, rest: seq<Event>, after: seq<Action>)
    requires Mounted(d) && p.depth <= 64 && (e.name == [0x2E] || e.name == [0x2E, 0x2E])
    requires Scan(d, fold, p, rest, if e.name == [0x2E] then seen.(dot := true) else seen.(dotdot := true)) == Ok(after)
    ensures Scan(d, fold, p, [Found(e)] + rest, seen)
         == Ok((if e.name == [0x2E] then (if e.first != p.first then [Note(DotWrong(p.path, e.first, p.first))] else [])
                else if e.first != p.parent then [Note(DotDotWrong(p.path, e.first, p.parent))] else [])
               + after)
  {
    hide Mounted, TableOf, Follow, Visit;
    var x := DotActions(p, e);
    assert ([Found(e)] + rest)[1..] == rest;
    assert EntryActions(TableOf(d), fold, p, seen, e) == x && !Enters(TableOf(d), e);
    hide EntryActions, Enters;
    assert x + [] == x;
  }

  /** A directory with both links and nothing else: each that names another cluster than it must is noted with both. */
  lemma LinksNoted(d: Disk, fold: Fold, own: nat, parent: nat, path: Name, level: nat, a: Entry, b: Entry)
    requires Mounted(d) && path != [] && level <= 64 && a.name == [0x2E] && b.name == [0x2E, 0x2E]
    requires Events(d, own, path) == Ok([Found(a), Found(b)])
    ensures Visit(d, fold, Place(own, path, parent, level))
         == Ok((if a.first != own then [Note(DotWrong(path, a.first, own))] else [])
               + if b.first != parent then [Note(DotDotWrong(path, b.first, parent))] else [])
  {
    hide Mounted, TableOf, Events, Scan;
    var p := Place(own, path, parent, level);
    assert [Found(a), Found(b)] == [Found(a)] + ([Found(b)] + []);
    ScanEnds(d, fold, p, NOTHING.(dot := true).(dotdot := true));
    LinkSeen(d, fold, p, NOTHING.(dot := true), b, [], []);
    var y := if b.first != parent then [Note(DotDotWrong(path, b.first, parent))] else [];
    assert y + [] == y;
    LinkSeen(d, fold, p, NOTHING, a, [Found(b)] + [], y);
  }

  lemma ScanEnds(d: Disk, fold: Fold, p: Place, seen: Seen)
    requires Mounted(d) && p.depth <= 64
    ensures Scan(d, fold, p, [], seen)
         == Ok(if p.first != 0 && !(seen.dot && seen.dotdot) then [Note(DotsMissing(p.path))] else [])
  {
    hide Mounted;
  }

  /** A directory but the root that lacks one of them is noted, and the root is not. */
  lemma LinkMissing(d: Disk, fold: Fold, own: nat, parent: nat, path: Name, level: nat, e: Entry)
    requires Mounted(d) && path != [] && level <= 64 && Events(d, own, path) == Ok([Found(e)])
    requires if e.name == [0x2E] then e.first == own else e.name == [0x2E, 0x2E] && e.first == parent
    ensures Visit(d, fold, Place(own, path, parent, level)) == Ok(if own != 0 then [Note(DotsMissing(path))] else [])
  {
    hide Mounted, TableOf, Events, Scan;
    var p := Place(own, path, parent, level);
    var seen := if e.name == [0x2E] then NOTHING.(dot := true) else NOTHING.(dotdot := true);
    var last := if own != 0 then [Note(DotsMissing(path))] else [];
    assert [Found(e)] == [Found(e)] + [] && [] + last == last;
    ScanEnds(d, fold, p, seen);
    LinkSeen(d, fold, p, NOTHING, e, [], last);
  }

  /** More than 64 directories deep nothing is read: that is noted. */
  lemma DeepNoted(d: Disk, fold: Fold, own: nat, parent: nat, path: Name, level: nat)
    requires Mounted(d) && level > 64
    ensures Visit(d, fold, Place(own, path, parent, level)) == Ok([Note(TooDeep(path))])
  {
  }
}
