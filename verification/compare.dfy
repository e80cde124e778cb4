/** `compare`: does a volume hold a copy of a tree, every name, byte and time? And `judged`, which asks it of a
    tree that came from the volume. */
module Comparison {
  import opened Results
  import opened Bytes
  import opened Report
  import opened Seqs
  import opened Chains
  import opened Geometries
  import opened DosTimes
  import opened Directories
  import opened Walks
  import opened Checks
  import opened Partition
  import opened Paths
  import opened Contents
  import opened Trees
  import opened NameOrder
  import opened Volumes
  import opened Extraction

  type Sha = seq<byte> -> seq<byte>

  ghost predicate Injective(sha: Sha) {
    forall a, b :: sha(a) == sha(b) ==> a == b
  }

  datatype Finding =
    | Inconsistent(problem: Problem)
    | CaseDiffers(path: Name, near: Name)
    | Missing(path: Name)
    | KindDiffers(path: Name)
    | SizeDiffers(path: Name, bytes: nat, onVolume: nat)
    | Unread(path: Name, problem: Problem)
    | ContentDiffers(path: Name)
    | Undated(path: Name)
    | TimeDiffers(path: Name, mtime: real, stamped: int)
    | Extra(path: Name)

  // The listing as a dictionary.

  /** The first `n` items by path: of two with one path, the later. */
  function OnVolume(out: seq<Item>, n: nat): map<Name, Item>
    requires n <= |out|
  {
    if n == 0 then map[] else OnVolume(out, n - 1)[out[n - 1].path := out[n - 1]]
  }

  /** The dictionary's keys, in the order in which each came first. */
  function KeysOf(out: seq<Item>, n: nat): seq<Name>
    requires n <= |out|
  {
    if n == 0 then []
    else KeysOf(out, n - 1) + if out[n - 1].path in OnVolume(out, n - 1) then [] else [out[n - 1].path]
  }

  /** Those of the first `n` keys that fold to `f`. */
  function Near(fold: Fold, keys: seq<Name>, n: nat, f: Name): seq<Name>
    requires n <= |keys|
  {
    if n == 0 then [] else Near(fold, keys, n - 1, f) + if fold(keys[n - 1]) == f then [keys[n - 1]] else []
  }

  lemma {:induction false} KeysExact(out: seq<Item>, n: nat)
    requires n <= |out|
    ensures NoDup(KeysOf(out, n)) && Elems(KeysOf(out, n)) == OnVolume(out, n).Keys
    ensures forall i :: 0 <= i < n ==> out[i].path in OnVolume(out, n)
  {
    hide NoDup, Elems;
    if n == 0 {
      NoKeys();
    } else {
      KeysExact(out, n - 1);
      KeysStep(KeysOf(out, n - 1), OnVolume(out, n - 1), out[n - 1]);
    }
  }

  lemma NoKeys()
    ensures NoDup<Name>([]) && Elems<Name>([]) == {}
  {
  }

  lemma KeysStep(before: seq<Name>, at: map<Name, Item>, item: Item)
    requires NoDup(before) && Elems(before) == at.Keys
    ensures var keys := before + if item.path in at then [] else [item.path];
      NoDup(keys) && Elems(keys) == at[item.path := item].Keys
  {
    if item.path in at {
      assert before + [] == before;
    } else {
      NoDupAppend(before, [item.path]);
      ElemsAppend(before, [item.path]);
    }
  }

  /** What the dictionary has at a path is an item of that path. */
  lemma {:induction false} KeptItem(out: seq<Item>, n: nat, path: Name) returns (i: nat)
    requires n <= |out| && path in OnVolume(out, n)
    ensures i < n && out[i].path == path && OnVolume(out, n)[path] == out[i]
  {
    if path == out[n - 1].path {
      i := n - 1;
    } else {
      i := KeptItem(out, n - 1, path);
    }
  }

  /** And it is the last item of that path. */
  lemma {:induction false} KeptLast(out: seq<Item>, n: nat, path: Name, i: nat)
    requires n <= |out| && i < n && out[i].path == path && forall j :: i < j < n ==> out[j].path != path
    ensures path in OnVolume(out, n) && OnVolume(out, n)[path] == out[i]
  {
    if n == i + 1 {
    } else {
      KeptLast(out, n - 1, path, i);
    }
  }

  /** Where a path first comes. */
  predicate FirstAt(out: seq<Item>, path: Name, i: nat) {
    i < |out| && out[i].path == path && forall j :: 0 <= j < i ==> out[j].path != path
  }

  /** The keys are in the order in which they first came. */
  lemma {:induction false} KeysInOrder(out: seq<Item>, n: nat, a: nat, b: nat, i: nat, j: nat)
    requires n <= |out| && a < b < |KeysOf(out, n)|
    requires FirstAt(out, KeysOf(out, n)[a], i) && FirstAt(out, KeysOf(out, n)[b], j)
    ensures i < j
  {
    hide OnVolume;
    KeysExact(out, n - 1);
    var before := KeysOf(out, n - 1);
    if b < |before| {
      KeysInOrder(out, n - 1, a, b, i, j);
    } else {
      assert KeysOf(out, n)[b] == out[n - 1].path && before[a] in Elems(before);
      var k := KeptItem(out, n - 1, before[a]);
    }
  }

  // What is found.

  /** A file's bytes, as `compare` reads them. */
  ghost function Streamed(d: Disk, first: nat, size: nat): Result<seq<byte>, Problem>
    requires Mounted(d)
  {
    if size == 0 then Ok([])
    else
      match ChainOf(d, first)
      case Err(fault) => Err(BrokenRead(fault))
      case Ok(chain) => Stream(d, chain, size)
  }

  predicate Within(t: int, mtime: real) {
    -(TIME_SLACK as real) <= t as real - mtime <= TIME_SLACK as real
  }

  function TimeFindings(path: Name, t: Option<int>, mtime: real): seq<Finding> {
    match t
    case None => [Undated(path)]
    case Some(vt) => if Within(vt, mtime) then [] else [TimeDiffers(path, mtime, vt)]
  }

  /** A file that is on both sides. */
  ghost function FileFindings(d: Disk, sha: Sha, path: Name, data: seq<byte>, mtime: real, item: Item,
                              t: Option<int>): seq<Finding>
    requires Mounted(d)
  {
    if item.size != |data| then [SizeDiffers(path, |data|, item.size)]
    else
      match Streamed(d, item.first, item.size)
      case Err(problem) => [Unread(path, problem)]
      case Ok(read) =>
        (if sha(data) != sha(read) then [ContentDiffers(path)] else []) + TimeFindings(path, t, mtime)
  }

  /** The dictionaries that `compare` makes of a walk. */
  datatype Listing = Listing(at: map<Name, Item>, keys: seq<Name>, mtime: map<Name, Option<int>>)

  function ListingOf(s: State): Listing {
    Listing(OnVolume(s.out, |s.out|), KeysOf(s.out, |s.out|), s.mtime)
  }

  ghost function NodeFindings(d: Disk, fold: Fold, sha: Sha, vol: Listing, path: Name, node: Node): seq<Finding>
    requires Mounted(d)
  {
    if path !in vol.at then
      var near := Near(fold, vol.keys, |vol.keys|, fold(path));
      if near != [] then [CaseDiffers(path, near[0])] else [Missing(path)]
    else
      var item := vol.at[path];
      if item.isDir != node.Folder? then [KindDiffers(path)]
      else if node.Folder? then []
      else FileFindings(d, sha, path, node.data, node.mtime, item, TimeOf(vol.mtime, path))
  }

  /** The paths of the volume that the first `n` of the tree's account for. */
  function SeenOf(fold: Fold, vol: Listing, order: seq<Name>, n: nat): set<Name>
    requires n <= |order|
  {
    if n == 0 then {}
    else
      var path := order[n - 1];
      SeenOf(fold, vol, order, n - 1)
      + if path in vol.at then {path} else Elems(Near(fold, vol.keys, |vol.keys|, fold(path)))
  }

  ghost function TreeFindings(d: Disk, fold: Fold, sha: Sha, vol: Listing, nodes: map<Name, Node>, order: seq<Name>,
                              n: nat): seq<Finding>
    requires Mounted(d) && n <= |order| && Elems(order) == nodes.Keys
  {
    if n == 0 then []
    else
      assert order[n - 1] in Elems(order);
      TreeFindings(d, fold, sha, vol, nodes, order, n - 1)
      + NodeFindings(d, fold, sha, vol, order[n - 1], nodes[order[n - 1]])
  }

  function Extras(names: seq<Name>, seen: set<Name>, n: nat): seq<Finding>
    requires n <= |names|
  {
    if n == 0 then [] else Extras(names, seen, n - 1) + if names[n - 1] in seen then [] else [Extra(names[n - 1])]
  }

  function CheckFindings(problems: seq<Problem>): (r: seq<Finding>)
    ensures |r| == |problems| && forall i :: 0 <= i < |r| ==> r[i] == Inconsistent(problems[i])
  {
    seq(|problems|, i requires 0 <= i < |problems| => Inconsistent(problems[i]))
  }

  ghost function Unaccounted(fold: Fold, vol: Listing, order: seq<Name>): seq<Finding> {
    var names := Sorted(vol.keys);
    Extras(names, SeenOf(fold, vol, order, |order|), |names|)
  }

  /** What `compare` answers for the tree `nodes`, met in the order `order`. */
  ghost function Compared(d: Disk, fold: Fold, sha: Sha, nodes: map<Name, Node>,
                          order: seq<Name>): Result<seq<Finding>, Problem>
    requires Mounted(d) && Elems(order) == nodes.Keys
  {
    var problems :- Check(d, fold);
    var s :- Walked(d, fold, []);
    var vol := ListingOf(s);
    Ok(CheckFindings(problems) + TreeFindings(d, fold, sha, vol, nodes, order, |order|) + Unaccounted(fold, vol, order))
  }

  // The program.

  /** `on_volume`. */
  method IndexOf(out: seq<Item>) returns (at: map<Name, Item>, keys: seq<Name>)
    ensures at == OnVolume(out, |out|) && keys == KeysOf(out, |out|)
  {
    at, keys := map[], [];
    for i := 0 to |out|
      invariant at == OnVolume(out, i) && keys == KeysOf(out, i)
    {
      if out[i].path !in at {
        keys := keys + [out[i].path];
      }
      at := at[out[i].path := out[i]];
    }
  }

  predicate Files(fold: Fold, keys: seq<Name>, n: nat, byFold: map<Name, seq<Name>>, f: Name)
    requires n <= |keys|
  {
    Near(fold, keys, n, f) == if f in byFold then byFold[f] else []
  }

  /** `by_fold`. */
  method FoldIndex(fold: Fold, keys: seq<Name>) returns (byFold: map<Name, seq<Name>>)
    ensures forall f :: Files(fold, keys, |keys|, byFold, f)
  {
    byFold := map[];
    for i := 0 to |keys|
      invariant forall f :: Files(fold, keys, i, byFold, f)
    {
      var f := fold(keys[i]);
      ghost var before := byFold;
      byFold := byFold[f := (if f in byFold then byFold[f] else []) + [keys[i]]];
      ghost var n := i + 1;
      forall g ensures Files(fold, keys, n, byFold, g) {
        assert Files(fold, keys, i, before, g);
      }
    }
  }

  method StreamFile(v: Volume, first: nat, size: nat) returns (r: Result<seq<byte>, Problem>)
    requires Mounted(v.disk)
    ensures r == Streamed(v.disk, first, size)
  {
    hide Mounted, Follow, TableOf, FatOf, Stream;
    if size == 0 {
      return Ok([]);
    }
    var followed := v.Chain(first);
    if followed.Err? {
      return Err(BrokenRead(followed.error));
    }
    r := StreamChain(v.disk, followed.value, size);
  }

  lemma StreamNext(d: Disk, chain: seq<nat>, i: nat, left: nat)
    requires i <= |chain| && forall j :: 0 <= j < |chain| ==> 2 <= chain[j]
    ensures i == |chain| || left == 0 ==> Stream(d, chain[i..], left) == Ok([])
    ensures i < |chain| && left > 0 ==>
      var block := Sectors(d.img, d.base, d.g.ClusterLba(chain[i]), d.g.spc);
      if block.Err? then Stream(d, chain[i..], left) == Err(block.error)
      else
        var part := Cut(block.value, left);
        var rest := Stream(d, chain[i + 1..], left - |part|);
        Stream(d, chain[i..], left) == if rest.Err? then rest else Ok(part + rest.value)
  {
    hide Sectors;
    assert i < |chain| ==> chain[i..][1..] == chain[i + 1..];
  }

  /** The bytes of a chain's clusters, until `left` is counted down. */
  method StreamChain(d: Disk, chain: seq<nat>, size: nat) returns (r: Result<seq<byte>, Problem>)
    requires forall i :: 0 <= i < |chain| ==> 2 <= chain[i]
    ensures r == Stream(d, chain, size)
  {
    hide Sectors, Stream;
    var fed: seq<byte>, left: nat := [], size;
    assert chain[0..] == chain;
    for i := 0 to |chain|
      invariant var whole, rest := Stream(d, chain, size), Stream(d, chain[i..], left);
        if rest.Err? then whole == rest else whole.Ok? && whole.value == fed + rest.value
    {
      StreamNext(d, chain, i, left);
      if left == 0 {
        break;
      }
      var block := Sectors(d.img, d.base, d.g.ClusterLba(chain[i]), d.g.spc);
      if block.Err? {
        return Err(block.error);
      }
      fed := fed + Cut(block.value, left);
      left := left - |Cut(block.value, left)|;
    }
    StreamNext(d, chain, |chain|, left);
    assert fed + [] == fed;
    return Ok(fed);
  }

  /** A file on both sides. */
  method OnBoth(v: Volume, sha: Sha, path: Name, data: seq<byte>, mtime: real, item: Item) returns (found: seq<Finding>)
    requires Mounted(v.disk)
    ensures found == FileFindings(v.disk, sha, path, data, mtime, item, TimeOf(v.mtime, path))
  {
    hide Mounted, Streamed;
    if item.size != |data| {
      return [SizeDiffers(path, |data|, item.size)];
    }
    var read := StreamFile(v, item.first, item.size);
    if read.Err? {
      return [Unread(path, read.error)];
    }
    found := [];
    if sha(data) != sha(read.value) {
      found := found + [ContentDiffers(path)];
    }
    var t := TimeOf(v.mtime, path);
    if t.None? {
      found := found + [Undated(path)];
    } else if !Within(t.value, mtime) {
      found := found + [TimeDiffers(path, mtime, t.value)];
    }
  }

  /** The loop's turn for one path. */
  method OneNode(v: Volume, sha: Sha, path: Name, node: Node, at: map<Name, Item>, keys: seq<Name>,
                 byFold: map<Name, seq<Name>>)
    returns (found: seq<Finding>, met: set<Name>)
    requires Mounted(v.disk) && forall f :: Files(v.fold, keys, |keys|, byFold, f)
    ensures found == NodeFindings(v.disk, v.fold, sha, Listing(at, keys, v.mtime), path, node)
    ensures met == if path in at then {path} else Elems(Near(v.fold, keys, |keys|, v.fold(path)))
  {
    hide Mounted, FileFindings, Near;
    found := [];
    if path !in at {
      var f := v.fold(path);
      assert Files(v.fold, keys, |keys|, byFold, f);
      var near := if f in byFold then byFold[f] else [];
      return if near != [] then [CaseDiffers(path, near[0])] else [Missing(path)], Elems(near);
    }
    met := {path};
    var item := at[path];
    if item.isDir != node.Folder? {
      found := [KindDiffers(path)];
    } else if node.Doc? {
      found := OnBoth(v, sha, path, node.data, node.mtime, item);
    }
  }

  /** The loop over the tree. */
  method OverTree(v: Volume, sha: Sha, nodes: map<Name, Node>, order: seq<Name>, at: map<Name, Item>, keys: seq<Name>)
    returns (found: seq<Finding>, seen: set<Name>)
    requires Mounted(v.disk) && Elems(order) == nodes.Keys
    ensures var vol := Listing(at, keys, v.mtime);
      && found == TreeFindings(v.disk, v.fold, sha, vol, nodes, order, |order|)
      && seen == SeenOf(v.fold, vol, order, |order|)
  {
    hide Mounted, NodeFindings, Near;
    var byFold := FoldIndex(v.fold, keys);
    ghost var vol := Listing(at, keys, v.mtime);
    found, seen := [], {};
    for n := 0 to |order|
      invariant found == TreeFindings(v.disk, v.fold, sha, vol, nodes, order, n)
      invariant seen == SeenOf(v.fold, vol, order, n)
    {
      assert order[n] in Elems(order);
      var more, met := OneNode(v, sha, order[n], nodes[order[n]], at, keys, byFold);
      found, seen := found + more, seen + met;
    }
  }

  lemma CheckedWalk(d: Disk, fold: Fold)
    requires Mounted(d) && Check(d, fold).Ok?
    ensures Walked(d, fold, []).Ok?
  {
    hide Mounted, HeadProblems, WalkActions, TableOf, Replay;
  }

  /** `compare`. `order` is the order in which `os.walk` comes to the tree's paths. */
  method Compare(tree: Tree, order: seq<Name>, v: Volume, sha: Sha) returns (r: Result<seq<Finding>, Problem>)
    requires Mounted(v.disk) && Elems(order) == tree.nodes.Keys
    modifies v
    ensures r == Compared(v.disk, v.fold, sha, tree.nodes, order)
  {
    hide Mounted, Check, Walked, TreeFindings, SeenOf, OnVolume, KeysOf, Extras;
    ghost var nodes := tree.nodes;
    var checked := v.Check();
    if checked.Err? {
      return Err(checked.error);
    }
    CheckedWalk(v.disk, v.fold);
    var found := CheckFindings(checked.value);
    var problems := new Log<Problem>();
    var walked := v.Walk(problems);
    var at, keys := IndexOf(walked.value);
    var more, seen := OverTree(v, sha, tree.nodes, order, at, keys);
    found := found + more;
    var extras := NotSeen(Sorted(keys), seen);
    return Ok(found + extras);
  }

  method NotSeen(names: seq<Name>, seen: set<Name>) returns (found: seq<Finding>)
    ensures found == Extras(names, seen, |names|)
  {
    found := [];
    for i := 0 to |names|
      invariant found == Extras(names, seen, i)
    {
      if names[i] !in seen {
        found := found + [Extra(names[i])];
      }
    }
  }

  // What no finding means.

  /** A path of the tree is on the volume as it is in the tree. */
  ghost predicate NodeSame(d: Disk, vol: Listing, path: Name, node: Node)
    requires Mounted(d)
  {
    && path in vol.at
    && var item := vol.at[path];
       && item.isDir == node.Folder?
       && (node.Doc? ==>
             && Content(d, item.first, item.size) == Ok(node.data) && item.size == |node.data|
             && TimeOf(vol.mtime, path).Some?
             && -2.0 <= TimeOf(vol.mtime, path).value as real - node.mtime <= 2.0)
  }

  /** The volume is the tree: the same paths, letter for letter; directories directories and files files, with
      the same bytes; and every file dated, within two seconds. */
  ghost predicate SameTree(d: Disk, vol: Listing, nodes: map<Name, Node>)
    requires Mounted(d)
  {
    nodes.Keys == vol.at.Keys && forall path :: path in nodes ==> NodeSame(d, vol, path, nodes[path])
  }

  /** A chain of just the clusters that a size needs. */
  predicate Covers(n: nat, size: nat, unit: nat)
    requires 0 < unit
  {
    if size == 0 then n == 0 else (n - 1) * unit < size <= n * unit
  }

  lemma CoversFor(size: nat, unit: nat)
    requires 0 < unit
    ensures Covers(ClustersFor(size, unit), size, unit)
  {
    var x := size + unit - 1;
    assert x == x / unit * unit + x % unit;
    if size == 0 {
      assert x / unit == 0;
    }
    assert (x / unit - 1) * unit == x / unit * unit - unit;
  }

  lemma CoversLess(n: nat, size: nat, unit: nat)
    requires 0 < unit && 0 < n && Covers(n, size, unit)
    ensures 0 < size && Covers(n - 1, size - (if unit <= size then unit else size), unit)
  {
    assert (n - 1) * unit == (n - 2) * unit + unit && n * unit == (n - 1) * unit + unit;
    if n > 1 {
      assert (n - 2) * unit >= 0;
    }
  }

  /** Along a chain of just the clusters needed, both ways of reading meet the same clusters, and stop at the
      same one that cannot be read. */
  lemma {:induction false} StreamSame(d: Disk, chain: seq<nat>, left: nat)
    requires 0 < d.g.ClusterBytes() && forall i :: 0 <= i < |chain| ==> 2 <= chain[i]
    requires Covers(|chain|, left, d.g.ClusterBytes())
    ensures ClustersOf(d, chain).Err? ==> Stream(d, chain, left) == Err(ClustersOf(d, chain).error)
    ensures ClustersOf(d, chain).Ok? ==> Stream(d, chain, left) == Ok(Cut(ClustersOf(d, chain).value, left))
    decreases |chain|
  {
    hide Covers;
    if ClustersOf(d, chain).Ok? {
      StreamIsCut(d, chain, left);
    } else {
      var block := Sectors(d.img, d.base, d.g.ClusterLba(chain[0]), d.g.spc);
      CoversLess(|chain|, left, d.g.ClusterBytes());
      if block.Ok? {
        StreamSame(d, chain[1..], left - |Cut(block.value, left)|);
      }
    }
  }

  /** A listed file that fits is read alike by `read` and by `compare`, whatever of the image is there. */
  lemma StreamedContent(d: Disk, item: Item)
    requires Mounted(d) && 0 < d.g.ClusterBytes() && !item.isDir && Fits(TableOf(d), d.g.ClusterBytes(), item)
    ensures Streamed(d, item.first, item.size) == Content(d, item.first, item.size)
  {
    hide Mounted, TableOf, FatOf, Follow, Covers, ClustersOf, Stream, ClustersFor;
    if item.size > 0 {
      CoversFor(item.size, d.g.ClusterBytes());
      StreamSame(d, ChainOf(d, item.first).value, item.size);
    }
  }

  lemma NodeExact(d: Disk, fold: Fold, sha: Sha, vol: Listing, path: Name, node: Node)
    requires Mounted(d) && Injective(sha) && 0 < d.g.ClusterBytes()
    requires path in vol.at ==> Fits(TableOf(d), d.g.ClusterBytes(), vol.at[path])
    ensures NodeFindings(d, fold, sha, vol, path, node) == [] <==> NodeSame(d, vol, path, node)
  {
    hide Mounted, TableOf, Streamed, Content, Fits, Near;
    if path in vol.at && !vol.at[path].isDir {
      StreamedContent(d, vol.at[path]);
    }
  }

  /** The first of the volume's names that is `path` but for its case. */
  ghost predicate FirstNear(fold: Fold, keys: seq<Name>, path: Name, j: nat) {
    j < |keys| && fold(keys[j]) == fold(path) && forall i :: 0 <= i < j ==> fold(keys[i]) != fold(path)
  }

  lemma {:induction false} NearHas(fold: Fold, keys: seq<Name>, n: nat, f: Name, x: Name)
    requires n <= |keys|
    ensures x in Near(fold, keys, n, f) <==> x in keys[..n] && fold(x) == f
  {
    if n == 0 {
    } else {
      NearHas(fold, keys, n - 1, f, x);
      assert keys[..n] == keys[..n - 1] + [keys[n - 1]];
    }
  }

  lemma {:induction false} NearBegins(fold: Fold, keys: seq<Name>, n: nat, path: Name, j: nat)
    requires n <= |keys| && FirstNear(fold, keys, path, j)
    ensures var near := Near(fold, keys, n, fold(path)); if j < n then near != [] && near[0] == keys[j] else near == []
  {
    if n == 0 {
    } else {
      NearBegins(fold, keys, n - 1, path, j);
    }
  }

  lemma {:induction false} NearNone(fold: Fold, keys: seq<Name>, n: nat, f: Name)
    requires n <= |keys| && forall i :: 0 <= i < n ==> fold(keys[i]) != f
    ensures Near(fold, keys, n, f) == []
  {
    if n == 0 {
    } else {
      NearNone(fold, keys, n - 1, f);
    }
  }

  /** What is found of a path of the tree, in full. Not on the volume: the first of the volume's names that is the
      same but for its case, or that it is missing. Of another kind, or of another size: that alone. Otherwise that
      the file cannot be read; or that its bytes differ, and then that it has no date or one more than two seconds
      off. */
  lemma NodeReports(d: Disk, fold: Fold, sha: Sha, vol: Listing, path: Name, node: Node)
    requires Mounted(d) && Injective(sha) && 0 < d.g.ClusterBytes()
    requires path in vol.at ==> Fits(TableOf(d), d.g.ClusterBytes(), vol.at[path])
    ensures var found := NodeFindings(d, fold, sha, vol, path, node);
      if path !in vol.at then
        && (forall j: nat :: FirstNear(fold, vol.keys, path, j) ==> found == [CaseDiffers(path, vol.keys[j])])
        && ((forall i :: 0 <= i < |vol.keys| ==> fold(vol.keys[i]) != fold(path)) ==> found == [Missing(path)])
      else
        var item := vol.at[path];
        if item.isDir != node.Folder? then found == [KindDiffers(path)]
        else if item.isDir then found == []
        else if item.size != |node.data| then found == [SizeDiffers(path, |node.data|, item.size)]
        else
          match Content(d, item.first, item.size)
          case Err(problem) => found == [Unread(path, problem)]
          case Ok(read) => found == (if read != node.data then [ContentDiffers(path)] else [])
                                    + TimeReport(path, TimeOf(vol.mtime, path), node.mtime)
  {
    hide Mounted, TableOf, Streamed, Content, Fits, Near, FirstNear, FileFindings;
    if path !in vol.at {
      NearReports(fold, vol.keys, path);
    } else if !vol.at[path].isDir && node.Doc? {
      FileReports(d, sha, path, node.data, node.mtime, vol.at[path], TimeOf(vol.mtime, path));
    }
  }

  lemma FileReports(d: Disk, sha: Sha, path: Name, data: seq<byte>, mtime: real, item: Item, t: Option<int>)
    requires Mounted(d) && Injective(sha) && 0 < d.g.ClusterBytes() && !item.isDir
    requires Fits(TableOf(d), d.g.ClusterBytes(), item)
    ensures FileFindings(d, sha, path, data, mtime, item, t)
         == if item.size != |data| then [SizeDiffers(path, |data|, item.size)]
            else
              match Content(d, item.first, item.size)
              case Err(problem) => [Unread(path, problem)]
              case Ok(read) => (if read != data then [ContentDiffers(path)] else []) + TimeReport(path, t, mtime)
  {
    hide Mounted, TableOf, Streamed, Content, Fits;
    StreamedContent(d, item);
    TimesAgree(path, t, mtime);
  }

  lemma TimesAgree(path: Name, t: Option<int>, mtime: real)
    ensures TimeFindings(path, t, mtime) == TimeReport(path, t, mtime)
  {
  }

  /** A file's date against a copy's: two seconds are let pass. */
  function TimeReport(path: Name, t: Option<int>, mtime: real): seq<Finding> {
    if t.None? then [Undated(path)]
    else if t.value as real - mtime > 2.0 || mtime - t.value as real > 2.0 then [TimeDiffers(path, mtime, t.value)]
    else []
  }

  lemma NearReports(fold: Fold, keys: seq<Name>, path: Name)
    ensures var near := Near(fold, keys, |keys|, fold(path));
      && (forall j: nat :: FirstNear(fold, keys, path, j) ==> near != [] && near[0] == keys[j])
      && ((forall i :: 0 <= i < |keys| ==> fold(keys[i]) != fold(path)) ==> near == [])
  {
    hide Near;
    if forall i :: 0 <= i < |keys| ==> fold(keys[i]) != fold(path) {
      NearNone(fold, keys, |keys|, fold(path));
    }
    forall j: nat | FirstNear(fold, keys, path, j)
      ensures Near(fold, keys, |keys|, fold(path)) != [] && Near(fold, keys, |keys|, fold(path))[0] == keys[j]
    {
      NearBegins(fold, keys, |keys|, path, j);
    }
  }

  /** A file alike on both sides but for its date is reported for that alone, if it is more than two seconds off. */
  lemma TimeReports(d: Disk, fold: Fold, sha: Sha, vol: Listing, path: Name, node: Node, t: int)
    requires Mounted(d) && Injective(sha) && 0 < d.g.ClusterBytes()
    requires path in vol.at && !vol.at[path].isDir && node.Doc?
    requires Fits(TableOf(d), d.g.ClusterBytes(), vol.at[path]) && TimeOf(vol.mtime, path) == Some(t)
    requires Content(d, vol.at[path].first, vol.at[path].size) == Ok(node.data) && vol.at[path].size == |node.data|
    ensures NodeFindings(d, fold, sha, vol, path, node)
         == if -2.0 <= t as real - node.mtime <= 2.0 then [] else [TimeDiffers(path, node.mtime, t)]
  {
    hide Mounted, TableOf, Content, Fits, NodeFindings;
    NodeReports(d, fold, sha, vol, path, node);
  }

  lemma {:induction false} TreeNone(d: Disk, fold: Fold, sha: Sha, vol: Listing, nodes: map<Name, Node>,
                                    order: seq<Name>, n: nat)
    requires Mounted(d) && n <= |order| && Elems(order) == nodes.Keys
    ensures TreeFindings(d, fold, sha, vol, nodes, order, n) == [] <==>
      forall i :: 0 <= i < n ==> order[i] in nodes && NodeFindings(d, fold, sha, vol, order[i], nodes[order[i]]) == []
  {
    hide Mounted, NodeFindings;
    assert forall i :: 0 <= i < |order| ==> order[i] in Elems(order);
    if n == 0 {
    } else {
      TreeNone(d, fold, sha, vol, nodes, order, n - 1);
    }
  }

  lemma {:induction false} ExtrasNone(names: seq<Name>, seen: set<Name>, n: nat)
    requires n <= |names|
    ensures Extras(names, seen, n) == [] <==> forall i :: 0 <= i < n ==> names[i] in seen
  {
    if n == 0 {
    } else {
      ExtrasNone(names, seen, n - 1);
    }
  }

  lemma {:induction false} SeenAll(fold: Fold, vol: Listing, order: seq<Name>, n: nat)
    requires n <= |order| && forall i :: 0 <= i < n ==> order[i] in vol.at
    ensures SeenOf(fold, vol, order, n) == Elems(order[..n])
  {
    if n == 0 {
    } else {
      SeenAll(fold, vol, order, n - 1);
      assert order[..n] == order[..n - 1] + [order[n - 1]];
      ElemsAppend(order[..n - 1], [order[n - 1]]);
      assert Elems([order[n - 1]]) == {order[n - 1]};
    }
  }

  lemma UnaccountedNone(fold: Fold, vol: Listing, order: seq<Name>)
    requires Elems(vol.keys) == vol.at.Keys && forall i :: 0 <= i < |order| ==> order[i] in vol.at
    ensures Unaccounted(fold, vol, order) == [] <==> vol.at.Keys <= Elems(order)
  {
    hide Sorted;
    var names := Sorted(vol.keys);
    SortedSame(vol.keys);
    SeenAll(fold, vol, order, |order|);
    assert order[..|order|] == order;
    ExtrasNone(names, Elems(order), |names|);
    assert forall x :: x in vol.at.Keys <==> x in names;
    if vol.at.Keys <= Elems(order) {
      assert forall i :: 0 <= i < |names| ==> names[i] in names;
    }
  }

  lemma {:induction false} SeenExact(fold: Fold, vol: Listing, order: seq<Name>, n: nat)
    requires n <= |order| && Elems(vol.keys) == vol.at.Keys
    ensures forall x :: x in SeenOf(fold, vol, order, n) <==>
      || (x in vol.at && x in order[..n])
      || (x in vol.at && exists p :: p in order[..n] && p !in vol.at && fold(p) == fold(x))
  {
    if n == 0 {
    } else {
      SeenExact(fold, vol, order, n - 1);
      assert order[..n] == order[..n - 1] + [order[n - 1]];
      assert vol.keys[..|vol.keys|] == vol.keys;
      var f := fold(order[n - 1]);
      forall x ensures x in Elems(Near(fold, vol.keys, |vol.keys|, f)) <==> x in vol.at && fold(x) == f {
        NearHas(fold, vol.keys, |vol.keys|, f, x);
        assert x in vol.at <==> x in vol.keys;
      }
    }
  }

  lemma {:induction false} ExtrasAre(names: seq<Name>, seen: set<Name>, n: nat)
    requires n <= |names| && Rising(names)
    ensures var found := Extras(names, seen, n);
      && (forall i :: 0 <= i < |found| ==> found[i].Extra? && found[i].path in names[..n] && found[i].path !in seen)
      && (forall x :: x in names[..n] && x !in seen ==> Extra(x) in found)
      && (forall i, j :: 0 <= i < j < |found| ==> Before(found[i].path, found[j].path))
  {
    hide Before;
    if n == 0 {
    } else {
      ExtrasAre(names, seen, n - 1);
      assert names[..n] == names[..n - 1] + [names[n - 1]];
    }
  }

  /** What is on the volume and not in the tree: each of the volume's paths that is none of the tree's, nor any of
      these but for its case where the volume has it not letter for letter; each once, in the order of names. */
  lemma ExtrasExact(fold: Fold, vol: Listing, order: seq<Name>)
    requires NoDup(vol.keys) && Elems(vol.keys) == vol.at.Keys
    ensures var found := Unaccounted(fold, vol, order);
      && (forall f :: f in found <==>
            && f.Extra? && f.path in vol.at && f.path !in order
            && forall p :: p in order && p !in vol.at ==> fold(p) != fold(f.path))
      && (forall i, j :: 0 <= i < j < |found| ==> Before(found[i].path, found[j].path))
  {
    hide Before, Sorted, SeenOf, Extras, NoDup;
    var names := Sorted(vol.keys);
    SortedSame(vol.keys);
    SortedRises(vol.keys);
    SeenExact(fold, vol, order, |order|);
    assert order[..|order|] == order && names[..|names|] == names;
    ExtrasAre(names, SeenOf(fold, vol, order, |order|), |names|);
    assert forall x :: x in vol.at <==> x in names by {
      assert forall x :: x in vol.keys <==> x in Elems(vol.keys);
    }
    var found, seen := Unaccounted(fold, vol, order), SeenOf(fold, vol, order, |order|);
    assert found == Extras(names, seen, |names|);
    forall f | f in found ensures f.Extra? && f.path in names && f.path !in seen {
      var i :| 0 <= i < |found| && found[i] == f;
    }
  }

  /** The findings of the first `n` paths, path by path. */
  ghost function EachFinding(d: Disk, fold: Fold, sha: Sha, vol: Listing, nodes: map<Name, Node>, order: seq<Name>,
                             n: nat): (r: seq<seq<Finding>>)
    requires Mounted(d) && n <= |order| && Elems(order) == nodes.Keys
    ensures |r| == n
    ensures forall i :: 0 <= i < n ==>
      order[i] in nodes && r[i] == NodeFindings(d, fold, sha, vol, order[i], nodes[order[i]])
  {
    assert forall i :: 0 <= i < |order| ==> order[i] in Elems(order);
    seq(n, i requires 0 <= i < n => NodeFindings(d, fold, sha, vol, order[i], nodes[order[i]]))
  }

  lemma {:induction false} TreeInOrder(d: Disk, fold: Fold, sha: Sha, vol: Listing, nodes: map<Name, Node>,
                                       order: seq<Name>, n: nat)
    requires Mounted(d) && n <= |order| && Elems(order) == nodes.Keys
    ensures TreeFindings(d, fold, sha, vol, nodes, order, n) == Flatten(EachFinding(d, fold, sha, vol, nodes, order, n))
  {
    hide Mounted, NodeFindings;
    if n == 0 {
    } else {
      TreeInOrder(d, fold, sha, vol, nodes, order, n - 1);
      var before, all := EachFinding(d, fold, sha, vol, nodes, order, n - 1),
                         EachFinding(d, fold, sha, vol, nodes, order, n);
      assert all == before + [all[n - 1]];
      FlattenSnoc(before, all[n - 1]);
    }
  }

  lemma {:induction false} FlattenSnoc<T>(ss: seq<seq<T>>, s: seq<T>)
    ensures Flatten(ss + [s]) == Flatten(ss) + s
  {
    if ss == [] {
      assert [s][1..] == [];
    } else {
      assert (ss + [s])[1..] == ss[1..] + [s];
      FlattenSnoc(ss[1..], s);
    }
  }

  /** All that `compare` finds, in its order: what the check finds, then the findings of the tree's paths, path by path
      as `os.walk` comes to them, then what the volume has besides. */
  lemma CompareReports(d: Disk, fold: Fold, sha: Sha, nodes: map<Name, Node>, order: seq<Name>)
    requires Mounted(d) && Elems(order) == nodes.Keys && Check(d, fold).Ok?
    ensures Walked(d, fold, []).Ok?
    ensures var problems, vol := Check(d, fold).value, ListingOf(Walked(d, fold, []).value);
      && NoDup(vol.keys) && Elems(vol.keys) == vol.at.Keys
      && Compared(d, fold, sha, nodes, order)
           == Ok(seq(|problems|, i requires 0 <= i < |problems| => Inconsistent(problems[i]))
                 + Flatten(EachFinding(d, fold, sha, vol, nodes, order, |order|)) + Unaccounted(fold, vol, order))
  {
    hide Mounted, Check, Walked, TreeFindings, Unaccounted, EachFinding, OnVolume, KeysOf, NoDup;
    CheckedWalk(d, fold);
    var out := Walked(d, fold, []).value.out;
    KeysExact(out, |out|);
    TreeInOrder(d, fold, sha, ListingOf(Walked(d, fold, []).value), nodes, order, |order|);
  }

  lemma ListingFits(d: Disk, fold: Fold)
    requires ChecksClean(d, fold)
    ensures Walked(d, fold, []).Ok? && 0 < d.g.ClusterBytes()
    ensures var vol := ListingOf(Walked(d, fold, []).value);
      && Elems(vol.keys) == vol.at.Keys
      && forall path :: path in vol.at ==> Fits(TableOf(d), d.g.ClusterBytes(), vol.at[path])
  {
    MountedAccepted(d);
    hide Mounted, TableOf, Holders, Walked, Fits, OnVolume, KeysOf;
    CleanPartition(d, fold, 2);
    var out := Walked(d, fold, []).value.out;
    KeysExact(out, |out|);
    var vol := ListingOf(Walked(d, fold, []).value);
    forall path | path in vol.at ensures Fits(TableOf(d), d.g.ClusterBytes(), vol.at[path]) {
      var i := KeptItem(out, |out|, path);
      assert Fits(TableOf(d), d.g.ClusterBytes(), out[i]);
    }
  }

  /** `compare` decides equality: it finds nothing if and only if the volume checks clean and is the tree. */
  lemma CompareDecides(d: Disk, fold: Fold, sha: Sha, nodes: map<Name, Node>, order: seq<Name>)
    requires Mounted(d) && Injective(sha) && Elems(order) == nodes.Keys
    ensures Compared(d, fold, sha, nodes, order) == Ok([]) <==>
      ChecksClean(d, fold) && Walked(d, fold, []).Ok? && SameTree(d, ListingOf(Walked(d, fold, []).value), nodes)
  {
    hide Mounted, TableOf, Check, Walked, Injective, NodeFindings, NodeSame, Fits, Unaccounted, TreeFindings;
    if ChecksClean(d, fold) {
      ListingFits(d, fold);
      FindingsNone(d, fold, sha, ListingOf(Walked(d, fold, []).value), nodes, order);
      assert CheckFindings([]) == [];
    }
  }

  lemma FindingsNone(d: Disk, fold: Fold, sha: Sha, vol: Listing, nodes: map<Name, Node>, order: seq<Name>)
    requires Mounted(d) && Injective(sha) && Elems(order) == nodes.Keys && Elems(vol.keys) == vol.at.Keys
    requires 0 < d.g.ClusterBytes()
    requires forall path :: path in vol.at ==> Fits(TableOf(d), d.g.ClusterBytes(), vol.at[path])
    ensures TreeFindings(d, fold, sha, vol, nodes, order, |order|) == [] && Unaccounted(fold, vol, order) == []
      <==> SameTree(d, vol, nodes)
  {
    hide Mounted, TableOf, Injective, NodeFindings, NodeSame, Fits, Unaccounted, TreeFindings;
    TreeNone(d, fold, sha, vol, nodes, order, |order|);
    forall path | path in nodes
      ensures NodeFindings(d, fold, sha, vol, path, nodes[path]) == [] <==> NodeSame(d, vol, path, nodes[path])
    {
      NodeExact(d, fold, sha, vol, path, nodes[path]);
    }
    assert forall path :: path in nodes <==> path in order;
    if forall path :: path in nodes ==> NodeSame(d, vol, path, nodes[path]) {
      NodesThere(d, vol, nodes, order);
      UnaccountedNone(fold, vol, order);
    } else {
      var path :| path in nodes && !NodeSame(d, vol, path, nodes[path]);
      var i :| 0 <= i < |order| && order[i] == path;
      assert NodeFindings(d, fold, sha, vol, order[i], nodes[order[i]]) != [];
    }
  }

  lemma NodesThere(d: Disk, vol: Listing, nodes: map<Name, Node>, order: seq<Name>)
    requires Mounted(d) && Elems(order) == nodes.Keys
    requires forall path :: path in nodes ==> NodeSame(d, vol, path, nodes[path])
    ensures nodes.Keys <= vol.at.Keys && forall i :: 0 <= i < |order| ==> order[i] in vol.at
  {
    hide Mounted, Content;
    assert forall i :: 0 <= i < |order| ==> order[i] in Elems(order);
  }

  // A tree that came from the volume.

  /** The findings but those of entries with no date. */
  function Differences(found: seq<Finding>): seq<Finding> {
    if found == [] then [] else (if found[0].Undated? then [] else [found[0]]) + Differences(found[1..])
  }

  function UndatedOf(found: seq<Finding>): seq<Finding> {
    if found == [] then [] else (if found[0].Undated? then [found[0]] else []) + UndatedOf(found[1..])
  }

  /** `judged`. */
  method Judged(tree: Tree, order: seq<Name>, v: Volume, sha: Sha)
    returns (r: Result<(seq<Finding>, seq<Finding>), Problem>)
    requires Mounted(v.disk) && Elems(order) == tree.nodes.Keys
    modifies v
    ensures match Compared(v.disk, v.fold, sha, tree.nodes, order)
      case Err(problem) => r == Err(problem)
      case Ok(found) => r == Ok((Differences(found), UndatedOf(found)))
  {
    hide Mounted, Compared;
    var found := Compare(tree, order, v, sha);
    return if found.Err? then Err(found.error) else Ok((Differences(found.value), UndatedOf(found.value)));
  }

  lemma {:induction false} DifferencesAppend(a: seq<Finding>, b: seq<Finding>)
    ensures Differences(a + b) == Differences(a) + Differences(b)
  {
    if a == [] {
      assert a + b == b;
    } else {
      assert (a + b)[0] == a[0] && (a + b)[1..] == a[1..] + b;
      DifferencesAppend(a[1..], b);
    }
  }

  lemma {:induction false} UndatedAppend(a: seq<Finding>, b: seq<Finding>)
    ensures UndatedOf(a + b) == UndatedOf(a) + UndatedOf(b)
  {
    if a == [] {
      assert a + b == b;
    } else {
      assert (a + b)[0] == a[0] && (a + b)[1..] == a[1..] + b;
      UndatedAppend(a[1..], b);
    }
  }

  lemma {:induction false} NoneUndated(found: seq<Finding>)
    requires forall i :: 0 <= i < |found| ==> !found[i].Undated?
    ensures Differences(found) == found && UndatedOf(found) == []
  {
    if found == [] {
    } else {
      NoneUndated(found[1..]);
    }
  }

  /** A path of an extracted tree is found to differ in nothing but a date that the volume does not give. */
  lemma ExtractedNode(d: Disk, fold: Fold, sha: Sha, vol: Listing, nodes: map<Name, Node>, out: seq<Item>, x: nat)
    requires Mounted(d) && x < |out| && Written(d, vol.mtime, nodes, out[x])
    requires out[x].path in vol.at && vol.at[out[x].path] == out[x]
    requires !out[x].isDir ==> 0 < d.g.ClusterBytes() && Fits(TableOf(d), d.g.ClusterBytes(), out[x])
    requires !out[x].isDir && Content(d, out[x].first, out[x].size).Ok?
        ==> |Content(d, out[x].first, out[x].size).value| == out[x].size
    ensures var path := out[x].path;
      NodeFindings(d, fold, sha, vol, path, nodes[path])
        == if !out[x].isDir && TimeOf(vol.mtime, path).None? then [Undated(path)] else []
  {
    hide Mounted, TableOf, Streamed, Content, Fits, Near;
    if !out[x].isDir {
      StreamedContent(d, out[x]);
    }
  }

  /** The listing's items, each under its own path. */
  lemma ListedApart(out: seq<Item>, x: nat)
    requires DistinctPaths(out) && x < |out|
    ensures out[x].path in OnVolume(out, |out|) && OnVolume(out, |out|)[out[x].path] == out[x]
  {
    hide OnVolume;
    KeysExact(out, |out|);
    var i := KeptItem(out, |out|, out[x].path);
  }

  /** The volume gives a listed file's path no date. */
  ghost predicate NoDate(vol: Listing, path: Name) {
    path in vol.at && !vol.at[path].isDir && TimeOf(vol.mtime, path).None?
  }

  ghost predicate OnlyUndated(d: Disk, fold: Fold, sha: Sha, vol: Listing, nodes: map<Name, Node>)
    requires Mounted(d)
  {
    forall path :: path in nodes ==>
      NodeFindings(d, fold, sha, vol, path, nodes[path]) == if NoDate(vol, path) then [Undated(path)] else []
  }

  lemma {:induction false} UndatedOnly(d: Disk, fold: Fold, sha: Sha, vol: Listing, nodes: map<Name, Node>,
                                       order: seq<Name>, n: nat)
    requires Mounted(d) && n <= |order| && NoDup(order) && Elems(order) == nodes.Keys
        && OnlyUndated(d, fold, sha, vol, nodes)
    ensures var found := TreeFindings(d, fold, sha, vol, nodes, order, n);
      Differences(found) == [] && UndatedOf(found) == found && NoDup(found) && JustUndated(vol, order[..n], found)
  {
    hide Mounted, NodeFindings, NoDate, Differences, UndatedOf, JustUndated;
    assert Differences([]) == [] && UndatedOf([]) == [] && JustUndated(vol, [], []) by {
      NoneUndated([]);
      NoneJust(vol);
    }
    assert order[..0] == [];
    if n == 0 {
    } else {
      UndatedOnly(d, fold, sha, vol, nodes, order, n - 1);
      var path := order[n - 1];
      assert path in Elems(order);
      var before := TreeFindings(d, fold, sha, vol, nodes, order, n - 1);
      var mine := NodeFindings(d, fold, sha, vol, path, nodes[path]);
      assert mine == if NoDate(vol, path) then [Undated(path)] else [];
      assert order[..n] == order[..n - 1] + [path];
      assert path !in order[..n - 1];
      OneMoreUndated(vol, order[..n - 1], before, path);
    }
  }

  /** The findings are of just the undated files among `paths`. */
  ghost predicate JustUndated(vol: Listing, paths: seq<Name>, found: seq<Finding>) {
    forall f :: f in found <==> f.Undated? && f.path in paths && NoDate(vol, f.path)
  }

  lemma NoneJust(vol: Listing)
    ensures JustUndated(vol, [], [])
  {
  }

  lemma OneMoreUndated(vol: Listing, paths: seq<Name>, before: seq<Finding>, path: Name)
    requires Differences(before) == [] && UndatedOf(before) == before && NoDup(before)
    requires JustUndated(vol, paths, before) && path !in paths
    ensures var found := before + if NoDate(vol, path) then [Undated(path)] else [];
      && Differences(found) == [] && UndatedOf(found) == found && NoDup(found)
      && JustUndated(vol, paths + [path], found)
  {
    hide NoDate;
    var mine := if NoDate(vol, path) then [Undated(path)] else [];
    assert mine != [] ==> Differences(mine[1..]) == [] && UndatedOf(mine[1..]) == [];
    DifferencesAppend(before, mine);
    UndatedAppend(before, mine);
    NoDupAppend(before, mine);
  }

  /** What an extraction leaves: the listing's paths, each as the volume has it. */
  lemma ExtractedTree(d: Disk, fold: Fold, sha: Sha, nodes: map<Name, Node>, out: seq<Item>, acts: seq<Action>)
    requires CleanWalk(d, fold, out, acts) && HoldsAll(d) && Extracted(d, Walked(d, fold, []).value.mtime, nodes, out)
    ensures var vol := ListingOf(Walked(d, fold, []).value);
      OnlyUndated(d, fold, sha, vol, nodes) && nodes.Keys == vol.at.Keys && Elems(vol.keys) == vol.at.Keys
  {
    hide Mounted, TableOf, FoldsByName, PlainNames, WalkActions, Walked, Rooted, Folded, Fits, Content, Written,
         NodeFindings, OnVolume, KeysOf, HoldsAll;
    CleanWalkTree(d, fold, out, acts);
    FoldedDistinct(fold, out);
    KeysExact(out, |out|);
    var vol := ListingOf(Walked(d, fold, []).value);
    forall x | 0 <= x < |out| ensures Readable(d, out[x]) && ReadsWhole(d, out[x]) {
      ItemReads(d, out, x);
    }
    forall path | path in nodes
      ensures path in vol.at && NodeFindings(d, fold, sha, vol, path, nodes[path])
          == if NoDate(vol, path) then [Undated(path)] else []
    {
      var x :| 0 <= x < |out| && Readable(d, out[x]) && out[x].path == path;
      ListedApart(out, x);
      assert Fits(TableOf(d), d.g.ClusterBytes(), out[x]);
      ExtractedNode(d, fold, sha, vol, nodes, out, x);
    }
    forall path | path in vol.at ensures path in nodes {
      var x := KeptItem(out, |out|, path);
      assert Readable(d, out[x]);
      WrittenThere(d, vol.mtime, nodes, out[x]);
    }
  }

  ghost predicate ReadsWhole(d: Disk, item: Item)
    requires Mounted(d)
  {
    !item.isDir ==> Content(d, item.first, item.size).Ok? && |Content(d, item.first, item.size).value| == item.size
  }

  lemma ItemReads(d: Disk, out: seq<Item>, x: nat)
    requires Mounted(d) && HoldsAll(d) && 0 < d.g.ClusterBytes() && AllFit(TableOf(d), d.g.ClusterBytes(), out)
        && x < |out|
    ensures Readable(d, out[x]) && ReadsWhole(d, out[x])
  {
    hide Mounted, TableOf, Fits, Content, HoldsAll;
    assert Fits(TableOf(d), d.g.ClusterBytes(), out[x]);
    if !out[x].isDir {
      ContentExact(d, out[x]);
    }
  }

  lemma WrittenThere(d: Disk, mtime: map<Name, Option<int>>, nodes: map<Name, Node>, item: Item)
    requires Mounted(d) && Written(d, mtime, nodes, item)
    ensures item.path in nodes
  {
    hide Mounted, Content;
  }

  /** Extracting a volume and comparing the tree with it is a round trip, for every volume whose walk is clean:
      the differences are just what the check finds (a leak, at most, or a damaged copy: nothing, if it is
      clean), and the undated are just the files the volume gives no date, each once. */
  lemma JudgedExtract(d: Disk, fold: Fold, sha: Sha, nodes: map<Name, Node>, order: seq<Name>, out: seq<Item>,
                      acts: seq<Action>)
    requires CleanWalk(d, fold, out, acts) && HoldsAll(d) && Extracted(d, Walked(d, fold, []).value.mtime, nodes, out)
    requires Check(d, fold).Ok? && NoDup(order) && Elems(order) == nodes.Keys
    ensures Compared(d, fold, sha, nodes, order).Ok?
    ensures var found, mtime := Compared(d, fold, sha, nodes, order).value, Walked(d, fold, []).value.mtime;
      && Differences(found) == CheckFindings(Check(d, fold).value)
      && NoDup(UndatedOf(found))
      && forall f :: f in UndatedOf(found) <==>
           f.Undated? && TimeOf(mtime, f.path).None?
           && exists x :: 0 <= x < |out| && out[x].path == f.path && !out[x].isDir
  {
    hide Mounted, Check, Walked, FoldsByName, PlainNames, WalkActions, Extracted, TreeFindings, Unaccounted,
         CheckFindings, OnVolume, KeysOf, OnlyUndated, HoldsAll, Folded, Rooted, AllFit, TimeOf;
    var s := Walked(d, fold, []).value;
    var vol := ListingOf(s);
    ExtractedTree(d, fold, sha, nodes, out, acts);
    UndatedOnly(d, fold, sha, vol, nodes, order, |order|);
    assert order[..|order|] == order;
    assert forall i :: 0 <= i < |order| ==> order[i] in Elems(order);
    UnaccountedNone(fold, vol, order);
    var problems := CheckFindings(Check(d, fold).value);
    var found := TreeFindings(d, fold, sha, vol, nodes, order, |order|);
    NoneUndated(problems);
    DifferencesAppend(problems, found);
    UndatedAppend(problems, found);
    assert problems + found + [] == problems + found;
    UndatedListed(d, fold, out, acts, vol, order);
  }

  lemma UndatedListed(d: Disk, fold: Fold, out: seq<Item>, acts: seq<Action>, vol: Listing, order: seq<Name>)
    requires CleanWalk(d, fold, out, acts) && vol == ListingOf(Walked(d, fold, []).value) && Elems(order) == vol.at.Keys
    ensures forall path :: path in order && NoDate(vol, path) <==>
      exists x :: 0 <= x < |out| && out[x].path == path && !out[x].isDir && TimeOf(vol.mtime, path).None?
  {
    hide Mounted, Walked, FoldsByName, PlainNames, WalkActions, OnVolume, KeysOf, Folded, Rooted, AllFit, TimeOf;
    CleanWalkTree(d, fold, out, acts);
    FoldedDistinct(fold, out);
    KeysExact(out, |out|);
    forall x | 0 <= x < |out| ensures out[x].path in vol.at && vol.at[out[x].path] == out[x] {
      ListedApart(out, x);
    }
    forall path | path in vol.at ensures exists x :: 0 <= x < |out| && out[x].path == path && vol.at[path] == out[x] {
      var x := KeptItem(out, |out|, path);
    }
    assert forall path :: path in order <==> path in Elems(order);
  }
}
