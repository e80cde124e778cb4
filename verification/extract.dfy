/** `extract`: a volume written out as a tree, every entry with the time the volume gives it. */
module Extraction {
  import opened Results
  import opened Bytes
  import opened Report
  import opened Seqs
  import opened Geometries
  import opened Walks
  import opened Ownership
  import opened Checks
  import opened Partition
  import opened Paths
  import opened Contents
  import opened Trees
  import opened Volumes

  datatype Warning = Reported(problem: Problem) | NotExtracted(path: Name, problem: Problem)

  datatype Refusal = NotEmpty | Damaged(problems: seq<Problem>) | Unreadable(problem: Problem)

  // The order of the folders.

  function Depth(path: Name): nat {
    if path == [] then 0 else (if path[0] == SLASH then 1 else 0) + Depth(path[1..])
  }

  /** `item` before the first that is no deeper. */
  function Insert(item: Item, items: seq<Item>): (r: seq<Item>)
    ensures multiset(r) == multiset{item} + multiset(items)
  {
    if items == [] || Depth(item.path) >= Depth(items[0].path) then [item] + items
    else
      assert items == [items[0]] + items[1..];
      [items[0]] + Insert(item, items[1..])
  }

  /** `sorted(walked, key=lambda w: -w[0].count("/"))`: the deepest first, and otherwise as they were. */
  function DeepestFirst(items: seq<Item>): (r: seq<Item>)
    ensures multiset(r) == multiset(items)
  {
    if items == [] then []
    else
      assert items == [items[0]] + items[1..];
      Insert(items[0], DeepestFirst(items[1..]))
  }

  lemma {:induction false} DepthAppend(a: Name, b: Name)
    ensures Depth(a + b) == Depth(a) + Depth(b)
  {
    if a == [] {
      assert a + b == b;
    } else {
      assert (a + b)[1..] == a[1..] + b;
      DepthAppend(a[1..], b);
    }
  }

  lemma {:induction false} NoSlash(a: Name)
    requires 0x2F !in a
    ensures Depth(a) == 0
  {
    if a == [] {
    } else {
      NoSlash(a[1..]);
    }
  }

  /** A path is as deep as it has names. */
  lemma {:induction false} DepthExact(names: seq<Name>)
    requires forall i :: 0 <= i < |names| ==> 0x2F !in names[i]
    ensures Depth(PathOf(names)) == |names|
  {
    if names == [] {
    } else {
      var front, last := PathOf(names[..|names| - 1]), names[|names| - 1];
      DepthExact(names[..|names| - 1]);
      DepthAppend(front, [0x2F] + last);
      DepthAppend([0x2F], last);
      NoSlash(last);
      assert front + ([0x2F] + last) == PathOf(names);
      assert Depth([0x2F]) == 1 + Depth([0x2F][1..]);
    }
  }

  /** The items of one depth, in their order. */
  function AtDepth(items: seq<Item>, n: nat): seq<Item> {
    if items == [] then []
    else (if Depth(items[0].path) == n then [items[0]] else []) + AtDepth(items[1..], n)
  }

  predicate Falling(items: seq<Item>) {
    forall i, j :: 0 <= i < j < |items| ==> Depth(items[i].path) >= Depth(items[j].path)
  }

  lemma {:induction false} InsertedFalls(item: Item, items: seq<Item>)
    requires Falling(items)
    ensures Falling(Insert(item, items))
  {
    hide Depth;
    if items == [] || Depth(item.path) >= Depth(items[0].path) {
    } else {
      var rest := Insert(item, items[1..]);
      InsertedFalls(item, items[1..]);
      forall i | 0 <= i < |rest| ensures Depth(items[0].path) >= Depth(rest[i].path) {
        assert rest[i] in multiset(rest);
        assert rest[i] == item || rest[i] in items[1..];
      }
    }
  }

  lemma {:induction false} InsertedStays(item: Item, items: seq<Item>, n: nat)
    ensures AtDepth(Insert(item, items), n) == (if Depth(item.path) == n then [item] else []) + AtDepth(items, n)
  {
    hide Depth;
    if items == [] || Depth(item.path) >= Depth(items[0].path) {
      assert ([item] + items)[1..] == items;
    } else {
      InsertedStays(item, items[1..], n);
      assert ([items[0]] + Insert(item, items[1..]))[1..] == Insert(item, items[1..]);
    }
  }

  /** The items come the deepest first, and those of one depth in the order that they had. */
  lemma {:induction false} DeepestFirstExact(items: seq<Item>, n: nat)
    ensures Falling(DeepestFirst(items)) && AtDepth(DeepestFirst(items), n) == AtDepth(items, n)
  {
    hide Depth, Insert, Falling;
    if items == [] {
      NoneFalls();
    } else {
      DeepestFirstExact(items[1..], n);
      InsertedFalls(items[0], DeepestFirst(items[1..]));
      InsertedStays(items[0], DeepestFirst(items[1..]), n);
    }
  }

  lemma NoneFalls()
    ensures Falling([])
  {
  }

  // What is written.

  /** The volume's time for a path, if it gives one. */
  function TimeOf(mtime: map<Name, Option<int>>, path: Name): Option<int> {
    if path in mtime then mtime[path] else None
  }

  predicate Timed(node: Node, t: Option<int>) {
    t.Some? ==> node.mtime == t.value as real
  }

  /** The item can be written: a directory, or a file that can be read. */
  ghost predicate Readable(d: Disk, item: Item)
    requires Mounted(d)
  {
    item.isDir || Content(d, item.first, item.size).Ok?
  }

  /** `nodes` holds `item` as the volume has it; a folder's time may still be wrong. */
  ghost predicate Written(d: Disk, mtime: map<Name, Option<int>>, nodes: map<Name, Node>, item: Item)
    requires Mounted(d)
  {
    && item.path in nodes
    && if item.isDir then nodes[item.path].Folder?
       else
         && Content(d, item.first, item.size).Ok?
         && nodes[item.path].Doc? && nodes[item.path].data == Content(d, item.first, item.size).value
         && Timed(nodes[item.path], TimeOf(mtime, item.path))
  }

  /** Just the readable ones of the first `n` items are there, as the volume has them. */
  ghost predicate WrittenTo(d: Disk, mtime: map<Name, Option<int>>, nodes: map<Name, Node>, out: seq<Item>, n: nat)
    requires Mounted(d) && n <= |out|
  {
    && (forall i :: 0 <= i < n && Readable(d, out[i]) ==> Written(d, mtime, nodes, out[i]))
    && (forall path :: path in nodes ==> exists i :: 0 <= i < n && Readable(d, out[i]) && out[i].path == path)
  }

  /** The tree is the volume: what can be read of it, every file and every folder with the volume's time. */
  ghost predicate Extracted(d: Disk, mtime: map<Name, Option<int>>, nodes: map<Name, Node>, out: seq<Item>)
    requires Mounted(d)
  {
    && WrittenTo(d, mtime, nodes, out, |out|)
    && forall i :: 0 <= i < |out| && out[i].isDir ==> Timed(nodes[out[i].path], TimeOf(mtime, out[i].path))
  }

  ghost predicate DistinctPaths(out: seq<Item>) {
    forall i, j :: 0 <= i < j < |out| ==> out[i].path != out[j].path
  }

  predicate Named(out: seq<Item>) {
    forall i :: 0 <= i < |out| ==> out[i].path != []
  }

  lemma FoldedDistinct(fold: Fold, out: seq<Item>)
    requires NoDup(Folded(fold, out))
    ensures DistinctPaths(out)
  {
    forall i, j | 0 <= i < j < |out| ensures out[i].path != out[j].path {
      assert Folded(fold, out)[i] != Folded(fold, out)[j];
    }
  }

  /** Changing folders' times leaves what is written. */
  lemma TouchedWritten(d: Disk, mtime: map<Name, Option<int>>, nodes: map<Name, Node>, dir: Name, now: real, item: Item)
    requires Mounted(d) && Written(d, mtime, nodes, item)
    ensures Written(d, mtime, Tree.Touched(nodes, dir, now), item)
  {
    hide Mounted, Content;
  }

  /** A new node beside the others leaves what is written. */
  lemma AddedWritten(d: Disk, mtime: map<Name, Option<int>>, nodes: map<Name, Node>, path: Name, node: Node, item: Item)
    requires Mounted(d) && Written(d, mtime, nodes, item) && path != item.path
    ensures Written(d, mtime, nodes[path := node], item)
  {
    hide Mounted, Content;
  }

  /** One more item. */
  lemma WrittenNext(d: Disk, mtime: map<Name, Option<int>>, nodes: map<Name, Node>, out: seq<Item>, n: nat, dir: Name,
                    now: real, node: Node)
    requires Mounted(d) && n < |out| && DistinctPaths(out) && WrittenTo(d, mtime, nodes, out, n) && Readable(d, out[n])
    requires Written(d, mtime, Tree.Touched(nodes, dir, now)[out[n].path := node], out[n])
    ensures WrittenTo(d, mtime, Tree.Touched(nodes, dir, now)[out[n].path := node], out, n + 1)
  {
    hide Mounted, Content, Written, Readable;
    var after := Tree.Touched(nodes, dir, now)[out[n].path := node];
    forall i | 0 <= i < n + 1 && Readable(d, out[i]) ensures Written(d, mtime, after, out[i]) {
      if i < n {
        TouchedWritten(d, mtime, nodes, dir, now, out[i]);
        AddedWritten(d, mtime, Tree.Touched(nodes, dir, now), out[n].path, node, out[i]);
      }
    }
    forall path | path in after ensures exists i :: 0 <= i < n + 1 && Readable(d, out[i]) && out[i].path == path {
      if path == out[n].path {
        assert out[n].path == path;
      } else {
        assert path in nodes;
        var i :| 0 <= i < n && Readable(d, out[i]) && out[i].path == path;
        assert out[i].path == path;
      }
    }
  }

  /** An item's path is not there before its turn, and its folder is. */
  lemma TurnComes(d: Disk, mtime: map<Name, Option<int>>, nodes: map<Name, Node>, out: seq<Item>, n: nat)
    requires Mounted(d) && n < |out| && DistinctPaths(out) && Rooted([], out) && WrittenTo(d, mtime, nodes, out, n)
    ensures out[n].path !in nodes
    ensures var dir := Parent(out[n].path); dir == [] || (dir in nodes && nodes[dir].Folder?)
  {
    hide Mounted, Content, Parent;
    var dir := Parent(out[n].path);
    if dir != [] {
      assert ListedBefore(out, n, dir);
      var j :| 0 <= j < n && out[j].isDir && out[j].path == dir;
      assert Readable(d, out[j]);
      assert Written(d, mtime, nodes, out[j]);
    }
  }

  // What is answered.

  function Reports(problems: seq<Problem>): (r: seq<Warning>)
    ensures |r| == |problems|
    ensures forall i :: 0 <= i < |r| ==> r[i] == Reported(problems[i])
  {
    seq(|problems|, i requires 0 <= i < |problems| => Reported(problems[i]))
  }

  /** The warnings of the first `n` items: the files that cannot be read. */
  ghost function Skipped(d: Disk, out: seq<Item>, n: nat): seq<Warning>
    requires Mounted(d) && n <= |out|
  {
    if n == 0 then []
    else
      var item := out[n - 1];
      Skipped(d, out, n - 1)
      + if Readable(d, item) then [] else [NotExtracted(item.path, Content(d, item.first, item.size).error)]
  }

  ghost function FilesWritten(d: Disk, out: seq<Item>, n: nat): nat
    requires Mounted(d) && n <= |out|
  {
    if n == 0 then 0
    else FilesWritten(d, out, n - 1) + if !out[n - 1].isDir && Readable(d, out[n - 1]) then 1 else 0
  }

  function FoldersOf(out: seq<Item>, n: nat): nat
    requires n <= |out|
  {
    if n == 0 then 0 else FoldersOf(out, n - 1) + if out[n - 1].isDir then 1 else 0
  }

  /** The items of the first `n` that are folders, and those that are files that can be read. */
  ghost function FoldersAt(out: seq<Item>, n: nat): set<nat>
    requires n <= |out|
  {
    set i: nat | i < n && out[i].isDir
  }

  ghost function FilesAt(d: Disk, out: seq<Item>, n: nat): set<nat>
    requires Mounted(d) && n <= |out|
  {
    set i: nat | i < n && !out[i].isDir && Content(d, out[i].first, out[i].size).Ok?
  }

  /** What is counted: the folders, and the files that can be read; there is a warning for every other item. */
  lemma {:induction false} CountsExact(d: Disk, out: seq<Item>, n: nat)
    requires Mounted(d) && n <= |out|
    ensures FoldersOf(out, n) == |FoldersAt(out, n)| && FilesWritten(d, out, n) == |FilesAt(d, out, n)|
    ensures |Skipped(d, out, n)| == n - FoldersOf(out, n) - FilesWritten(d, out, n)
  {
    hide Mounted, Content;
    if n == 0 {
      assert FoldersAt(out, 0) == {} && FilesAt(d, out, 0) == {};
    } else {
      hide FoldersAt, FilesAt;
      CountsExact(d, out, n - 1);
      OneCounted(d, out, n);
    }
  }

  /** What is warned of: each file that cannot be read, with why. */
  lemma {:induction false} SkippedExact(d: Disk, out: seq<Item>, n: nat)
    requires Mounted(d) && n <= |out|
    ensures forall w :: w in Skipped(d, out, n) <==>
      exists i :: 0 <= i < n && !out[i].isDir && Content(d, out[i].first, out[i].size).Err?
                  && w == NotExtracted(out[i].path, Content(d, out[i].first, out[i].size).error)
  {
    hide Mounted, Content;
    if n == 0 {
    } else {
      SkippedExact(d, out, n - 1);
    }
  }

  lemma OneCounted(d: Disk, out: seq<Item>, n: nat)
    requires Mounted(d) && 0 < n <= |out|
    ensures var item := out[n - 1];
      && |FoldersAt(out, n)| == |FoldersAt(out, n - 1)| + (if item.isDir then 1 else 0)
      && |FilesAt(d, out, n)| == |FilesAt(d, out, n - 1)|
           + if !item.isDir && Content(d, item.first, item.size).Ok? then 1 else 0
  {
    hide Mounted, Content;
    var item := out[n - 1];
    assert FoldersAt(out, n) == FoldersAt(out, n - 1) + if item.isDir then {n - 1} else {};
    assert FilesAt(d, out, n)
        == FilesAt(d, out, n - 1) + if !item.isDir && Content(d, item.first, item.size).Ok? then {n - 1} else {};
  }

  lemma WalkedTimes(d: Disk, fold: Fold, head: seq<Problem>)
    requires Mounted(d) && Walked(d, fold, []).Ok?
    ensures Walked(d, fold, head).Ok? && Walked(d, fold, head).value.mtime == Walked(d, fold, []).value.mtime
    ensures Walked(d, fold, head).value.out == Walked(d, fold, []).value.out
  {
    hide Mounted, TableOf, WalkActions, Replay;
    BytesPositive(d);
    ReplayHead(TableOf(d), d.g.ClusterBytes(), Start([]), Start(head), WalkActions(d, fold).value);
  }

  lemma WalkPlain(d: Disk, fold: Fold) returns (acts: seq<Action>)
    requires Mounted(d) && FoldsByName(fold) && Walked(d, fold, []).Ok? && Walked(d, fold, []).value.problems == []
    requires WalkActions(d, fold).Ok? ==> PlainNames(WalkActions(d, fold).value)
    ensures CleanWalk(d, fold, Walked(d, fold, []).value.out, acts)
  {
    hide Mounted, TableOf, WalkActions, Replay, FoldsByName, PlainNames;
    acts := WalkActions(d, fold).value;
  }

  /** The names that a walk comes to are ones that a host's file system takes. */
  ghost predicate HostNames(d: Disk, fold: Fold)
    requires Mounted(d)
  {
    FoldsByName(fold) && (WalkActions(d, fold).Ok? ==> PlainNames(WalkActions(d, fold).value))
  }

  lemma CheckedHead(d: Disk, fold: Fold)
    requires Mounted(d) && Check(d, fold).Ok?
    ensures HeadProblems(d).Ok?
  {
    hide Mounted, HeadProblems;
  }

  lemma CleanNamed(d: Disk, fold: Fold, out: seq<Item>, acts: seq<Action>)
    requires CleanWalk(d, fold, out, acts)
    ensures Named(out)
  {
    hide Mounted, TableOf, FoldsByName, PlainNames, WalkActions, Walked, Rooted, Folded, AllFit;
    CleanWalkTree(d, fold, out, acts);
    forall i | 0 <= i < |out| ensures out[i].path != [] {
      ListedPlain(acts, i);
    }
  }

  /** What `extract` leaves and answers, for a volume whose walk is clean. */
  ghost predicate ExtractAnswer(d: Disk, s: State, checked: seq<Problem>, nodes: map<Name, Node>,
                                r: Result<(nat, nat, seq<Warning>), Refusal>)
    requires Mounted(d)
  {
    && Extracted(d, s.mtime, nodes, s.out)
    && r == Ok((FilesWritten(d, s.out, |s.out|), FoldersOf(s.out, |s.out|),
                Reports(checked) + Skipped(d, s.out, |s.out|)))
  }

  /** `extract`, without `--anyway`: a volume whose walk reports anything is refused, and so is a tree that is
      not empty; a leak is a warning. */
  method Extract(v: Volume, tree: Tree) returns (r: Result<(nat, nat, seq<Warning>), Refusal>)
    requires Mounted(v.disk) && HostNames(v.disk, v.fold)
    modifies v, tree
    ensures r.Err? ==> tree.nodes == old(tree.nodes)
    ensures old(tree.nodes) != map[] ==> r == Err(NotEmpty)
    ensures old(tree.nodes) == map[] ==>
      match Walked(v.disk, v.fold, [])
      case Err(problem) => r == Err(Unreadable(problem))
      case Ok(s) =>
        if s.problems != [] then r == Err(Damaged(s.problems))
        else
          match Check(v.disk, v.fold)
          case Err(problem) => r == Err(Unreadable(problem))
          case Ok(checked) => ExtractAnswer(v.disk, s, checked, tree.nodes, r)
  {
    hide Mounted, Walked, Check, WalkActions, PlainNames, FoldsByName, WrittenTo, Folded, Rooted, AllFit, TableOf,
         HeadProblems;
    if tree.nodes != map[] {
      return Err(NotEmpty);
    }
    var problems := new Log<Problem>();
    var walked := v.Walk(problems);
    if walked.Err? {
      return Err(Unreadable(walked.error));
    }
    if problems.items != [] {
      return Err(Damaged(problems.items));
    }
    var checked := v.Check();
    if checked.Err? {
      return Err(Unreadable(checked.error));
    }
    ghost var s := Walked(v.disk, v.fold, []).value;
    CheckedHead(v.disk, v.fold);
    WalkedTimes(v.disk, v.fold, HeadProblems(v.disk).value);
    ghost var acts := WalkPlain(v.disk, v.fold);
    CleanWalkTree(v.disk, v.fold, s.out, acts);
    FoldedDistinct(v.fold, s.out);
    CleanNamed(v.disk, v.fold, s.out, acts);
    var files, folders, skipped := WriteItems(v, tree, walked.value);
    TimeFolders(v, tree, walked.value);
    return Ok((files, folders, Reports(checked.value) + skipped));
  }

  /** The first loop: every folder made, every file written and given its time. */
  method WriteItems(v: Volume, tree: Tree, out: seq<Item>) returns (files: nat, folders: nat, skipped: seq<Warning>)
    requires Mounted(v.disk) && tree.nodes == map[] && DistinctPaths(out) && Rooted([], out) && Named(out)
    modifies tree
    ensures WrittenTo(v.disk, v.mtime, tree.nodes, out, |out|)
    ensures files == FilesWritten(v.disk, out, |out|) && folders == FoldersOf(out, |out|)
    ensures skipped == Skipped(v.disk, out, |out|)
  {
    hide Mounted, Content, WrittenTo, Rooted, DistinctPaths, Written;
    files, folders, skipped := 0, 0, [];
    NoneWritten(v.disk, v.mtime, out);
    for n := 0 to |out|
      invariant WrittenTo(v.disk, v.mtime, tree.nodes, out, n)
      invariant files == FilesWritten(v.disk, out, n) && folders == FoldersOf(out, n)
      invariant skipped == Skipped(v.disk, out, n)
    {
      var item := out[n];
      TurnComes(v.disk, v.mtime, tree.nodes, out, n);
      if item.isDir {
        MakeItem(v, tree, out, n);
        folders := folders + 1;
      } else {
        var data := v.ContentOf(item.first, item.size);
        if data.Err? {
          skipped := skipped + [NotExtracted(item.path, data.error)];
          WrittenSkip(v.disk, v.mtime, tree.nodes, out, n);
        } else {
          WriteItem(v, tree, out, n, data.value);
          files := files + 1;
        }
      }
    }
  }

  lemma NoneWritten(d: Disk, mtime: map<Name, Option<int>>, out: seq<Item>)
    requires Mounted(d)
    ensures WrittenTo(d, mtime, map[], out, 0)
  {
    hide Mounted, Content;
  }

  lemma WrittenSkip(d: Disk, mtime: map<Name, Option<int>>, nodes: map<Name, Node>, out: seq<Item>, n: nat)
    requires Mounted(d) && n < |out| && WrittenTo(d, mtime, nodes, out, n) && !Readable(d, out[n])
    ensures WrittenTo(d, mtime, nodes, out, n + 1)
  {
    hide Mounted, Content, Written, Readable;
    forall path | path in nodes ensures exists i :: 0 <= i < n + 1 && Readable(d, out[i]) && out[i].path == path {
      var i :| 0 <= i < n && Readable(d, out[i]) && out[i].path == path;
      assert out[i].path == path;
    }
  }

  method MakeItem(v: Volume, tree: Tree, out: seq<Item>, n: nat)
    requires Mounted(v.disk) && n < |out| && out[n].isDir && DistinctPaths(out)
    requires WrittenTo(v.disk, v.mtime, tree.nodes, out, n)
    requires out[n].path !in tree.nodes && tree.HasFolder(Parent(out[n].path)) && out[n].path != []
    modifies tree
    ensures WrittenTo(v.disk, v.mtime, tree.nodes, out, n + 1)
  {
    hide Mounted, Content, WrittenTo, DistinctPaths, Parent;
    ghost var before := tree.nodes;
    var made := tree.MakeFolder(out[n].path);
    ghost var now :| tree.nodes == Tree.Touched(before, Parent(out[n].path), now)[out[n].path := Folder(now)];
    WrittenNext(v.disk, v.mtime, before, out, n, Parent(out[n].path), now, Folder(now));
  }

  method WriteItem(v: Volume, tree: Tree, out: seq<Item>, n: nat, data: seq<byte>)
    requires Mounted(v.disk) && n < |out| && !out[n].isDir && DistinctPaths(out)
    requires Content(v.disk, out[n].first, out[n].size) == Ok(data)
    requires WrittenTo(v.disk, v.mtime, tree.nodes, out, n)
    requires out[n].path !in tree.nodes && tree.HasFolder(Parent(out[n].path))
    modifies tree
    ensures WrittenTo(v.disk, v.mtime, tree.nodes, out, n + 1)
  {
    hide Mounted, Content, WrittenTo, DistinctPaths, Parent;
    var path := out[n].path;
    ghost var before := tree.nodes;
    var made := tree.MakeFolder(Parent(path));
    tree.WriteFile(path, data);
    ghost var now :| tree.nodes == Tree.Touched(before, Parent(path), now)[path := Doc(data, now)];
    var t := TimeOf(v.mtime, path);
    ghost var node := Doc(data, now);
    if t.Some? {
      tree.SetTime(path, t.value as real);
      node := Doc(data, t.value as real);
      assert tree.nodes == Tree.Touched(before, Parent(path), now)[path := node];
    }
    WrittenNext(v.disk, v.mtime, before, out, n, Parent(path), now, node);
  }

  /** The folders of the first `n` items have their times. */
  ghost predicate TimedTo(mtime: map<Name, Option<int>>, nodes: map<Name, Node>, order: seq<Item>, n: nat)
    requires n <= |order|
  {
    forall i :: 0 <= i < n && order[i].isDir ==>
      order[i].path in nodes && Timed(nodes[order[i].path], TimeOf(mtime, order[i].path))
  }

  /** The second loop: every folder its time, once nothing more is written into it. */
  method TimeFolders(v: Volume, tree: Tree, out: seq<Item>)
    requires Mounted(v.disk) && WrittenTo(v.disk, v.mtime, tree.nodes, out, |out|)
    modifies tree
    ensures Extracted(v.disk, v.mtime, tree.nodes, out)
  {
    hide Mounted, Content, WrittenTo;
    var order := DeepestFirst(out);
    for n := 0 to |order|
      invariant WrittenTo(v.disk, v.mtime, tree.nodes, out, |out|)
      invariant TimedTo(v.mtime, tree.nodes, order, n)
    {
      var item := order[n];
      var t := TimeOf(v.mtime, item.path);
      InOrder(out, order, item);
      if item.isDir {
        FolderThere(v.disk, v.mtime, tree.nodes, out, item);
        if t.Some? {
          FolderTimed(v.disk, v.mtime, tree.nodes, out, item, t.value as real);
          FolderTimedTo(v.mtime, tree.nodes, order, n, t.value as real);
          tree.SetTime(item.path, t.value as real);
        }
      }
    }
    forall i | 0 <= i < |out| && out[i].isDir
      ensures out[i].path in tree.nodes && Timed(tree.nodes[out[i].path], TimeOf(v.mtime, out[i].path))
    {
      InOrder(order, out, out[i]);
    }
  }

  lemma InOrder(a: seq<Item>, b: seq<Item>, item: Item)
    requires multiset(a) == multiset(b) && item in b
    ensures item in a
  {
    assert item in multiset(b);
  }

  lemma FolderThere(d: Disk, mtime: map<Name, Option<int>>, nodes: map<Name, Node>, out: seq<Item>, item: Item)
    requires Mounted(d) && WrittenTo(d, mtime, nodes, out, |out|) && item in out && item.isDir
    ensures item.path in nodes && nodes[item.path].Folder?
  {
    hide Mounted, Content;
    var i :| 0 <= i < |out| && out[i] == item;
    assert Readable(d, out[i]);
  }

  /** A folder's time is not part of what the first loop wrote. */
  lemma FolderTimed(d: Disk, mtime: map<Name, Option<int>>, nodes: map<Name, Node>, out: seq<Item>, item: Item, t: real)
    requires Mounted(d) && WrittenTo(d, mtime, nodes, out, |out|) && item.path in nodes && nodes[item.path].Folder?
    ensures WrittenTo(d, mtime, nodes[item.path := nodes[item.path].At(t)], out, |out|)
  {
    hide Mounted, Content, Readable;
  }

  lemma FolderTimedTo(mtime: map<Name, Option<int>>, nodes: map<Name, Node>, order: seq<Item>, n: nat, t: real)
    requires n < |order| && TimedTo(mtime, nodes, order, n) && order[n].path in nodes
    requires TimeOf(mtime, order[n].path).Some? && t == TimeOf(mtime, order[n].path).value as real
    ensures TimedTo(mtime, nodes[order[n].path := nodes[order[n].path].At(t)], order, n + 1)
  {
    hide TimeOf;
  }
}
