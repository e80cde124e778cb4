/** The bytes of files: a clean volume's files read back whole, whichever way they are read. */
module Contents {
  import opened Results
  import opened Bytes
  import opened Report
  import opened Seqs
  import opened Chains
  import opened Geometries
  import opened Directories
  import opened Walks
  import opened Ownership
  import opened Checks
  import opened Partition
  import opened Paths

  /** The image holds every sector that the boot sector counts. */
  ghost predicate HoldsAll(d: Disk) {
    d.base + d.g.total * SECTOR <= |d.img|
  }

  /** `compare`'s way to a file's bytes: a cluster at a time, until none are left to read. */
  function Stream(d: Disk, chain: seq<nat>, left: nat): Result<seq<byte>, Problem>
    requires forall i :: 0 <= i < |chain| ==> 2 <= chain[i]
    decreases |chain|
  {
    if chain == [] || left == 0 then Ok([])
    else
      var block :- Sectors(d.img, d.base, d.g.ClusterLba(chain[0]), d.g.spc);
      var part := Cut(block, left);
      var rest :- Stream(d, chain[1..], left - |part|);
      Ok(part + rest)
  }

  /** Where every cluster can be read, the stream is the clusters' bytes, cut at the size. */
  lemma {:induction false} StreamIsCut(d: Disk, chain: seq<nat>, left: nat)
    requires forall i :: 0 <= i < |chain| ==> 2 <= chain[i]
    requires ClustersOf(d, chain).Ok?
    ensures Stream(d, chain, left) == Ok(Cut(ClustersOf(d, chain).value, left))
    decreases |chain|
  {
    hide Sectors;
    if chain == [] {
    } else {
      var block := Sectors(d.img, d.base, d.g.ClusterLba(chain[0]), d.g.spc).value;
      var rest := ClustersOf(d, chain[1..]).value;
      if left > 0 {
        StreamIsCut(d, chain[1..], left - |Cut(block, left)|);
        CutSplits(block, rest, left);
      } else {
        assert Cut(block + rest, 0) == [];
      }
    }
  }

  lemma CutSplits(a: seq<byte>, b: seq<byte>, n: nat)
    ensures Cut(a, n) + Cut(b, n - |Cut(a, n)|) == Cut(a + b, n)
  {
    if n <= |a| {
      assert Cut(b, 0) == [];
    }
  }

  lemma CeilingCovers(size: nat, unit: nat)
    requires 0 < unit
    ensures size <= ClustersFor(size, unit) * unit
  {
    var x := size + unit - 1;
    assert x == x / unit * unit + x % unit;
  }

  lemma ClusterReads(d: Disk, c: nat)
    requires Accepted(d.g) && HoldsAll(d) && 2 <= c <= d.g.MaxCluster()
    ensures Sectors(d.img, d.base, d.g.ClusterLba(c), d.g.spc).Ok?
  {
    ClusterInside(d.g, c);
    hide Accepted, Geometry.ClusterLba;
    var lba := d.g.ClusterLba(c);
    assert (lba + d.g.spc) * SECTOR <= d.g.total * SECTOR;
  }

  lemma {:induction false} ClustersRead(d: Disk, chain: seq<nat>)
    requires Accepted(d.g) && HoldsAll(d) && forall i :: 0 <= i < |chain| ==> 2 <= chain[i] <= d.g.MaxCluster()
    ensures ClustersOf(d, chain).Ok?
  {
    hide Accepted, Sectors, HoldsAll;
    if chain == [] {
    } else {
      ClusterReads(d, chain[0]);
      ClustersRead(d, chain[1..]);
    }
  }

  /** A listed file that fits reads as exactly its size in bytes, and both ways of reading it agree. */
  lemma ContentExact(d: Disk, item: Item)
    requires Mounted(d) && HoldsAll(d) && 0 < d.g.ClusterBytes() && !item.isDir
        && Fits(TableOf(d), d.g.ClusterBytes(), item)
    ensures Content(d, item.first, item.size).Ok? && |Content(d, item.first, item.size).value| == item.size
    ensures item.size > 0 ==>
      && ChainOf(d, item.first).Ok?
      && Stream(d, ChainOf(d, item.first).value, item.size) == Content(d, item.first, item.size)
  {
    MountedAccepted(d);
    hide Mounted, Follow, FatOf, Sectors, Accepted, HoldsAll;
    if item.size > 0 {
      var chain := ChainOf(d, item.first).value;
      ClustersRead(d, chain);
      CeilingCovers(item.size, d.g.ClusterBytes());
      StreamIsCut(d, chain, item.size);
    }
  }

  /** The sector behind the reserved ones, the FATs and the root. */
  function FirstSector(g: Geometry): nat {
    g.reserved + g.nfats * g.fatSectors + (g.rootEntries + 15) / 16
  }

  /** The byte where cluster `c` begins. */
  function ClusterByte(d: Disk, c: nat): nat
    requires 2 <= c
  {
    d.base + (FirstSector(d.g) + (c - 2) * d.g.spc) * 512
  }

  lemma BlockIs(d: Disk, c: nat, block: seq<byte>)
    requires 2 <= c && Sectors(d.img, d.base, d.g.ClusterLba(c), d.g.spc) == Ok(block) && 0 < d.g.spc
    ensures var at := ClusterByte(d, c);
      && |block| == d.g.spc * 512 && at + |block| <= |d.img| && block == d.img[at..at + |block|]
  {
    assert (d.g.rootEntries * 32 + 511) / 512 == (d.g.rootEntries + 15) / 16;
    assert d.g.DataStart() == FirstSector(d.g);
    hide FirstSector, Geometry.DataStart;
  }

  lemma {:induction false} ChainByte(d: Disk, chain: seq<nat>, n: nat, k: nat, j: nat, at: nat)
    requires (forall i :: 0 <= i < |chain| ==> 2 <= chain[i]) && 0 < d.g.spc && n == d.g.spc * 512
    requires ClustersOf(d, chain).Ok? && k < |chain| && j < n && at == k * n + j
    ensures at < |ClustersOf(d, chain).value| && ClusterByte(d, chain[k]) + j < |d.img|
    ensures ClustersOf(d, chain).value[at] == d.img[ClusterByte(d, chain[k]) + j]
    decreases |chain|
  {
    hide Sectors, ClusterByte, Geometry.ClusterLba;
    var block := Sectors(d.img, d.base, d.g.ClusterLba(chain[0]), d.g.spc).value;
    BlockIs(d, chain[0], block);
    JoinedBytes(d, chain);
    if k == 0 {
    } else {
      MulSuccessor(k - 1, n);
      ChainByte(d, chain[1..], n, k - 1, j, at - n);
    }
  }

  lemma JoinedBytes(d: Disk, chain: seq<nat>)
    requires chain != [] && (forall i :: 0 <= i < |chain| ==> 2 <= chain[i]) && ClustersOf(d, chain).Ok?
    ensures var first := Sectors(d.img, d.base, d.g.ClusterLba(chain[0]), d.g.spc);
      && first.Ok? && ClustersOf(d, chain[1..]).Ok?
      && ClustersOf(d, chain).value == first.value + ClustersOf(d, chain[1..]).value
  {
    hide Sectors, Geometry.ClusterLba;
  }

  /** A file's bytes, each where it is in the image: byte `j` of the chain's cluster `k`. */
  lemma ContentByte(d: Disk, chain: seq<nat>, first: nat, size: nat, k: nat, j: nat, at: nat)
    requires Mounted(d) && 0 < d.g.spc && ChainOf(d, first) == Ok(chain) && Content(d, first, size).Ok?
    requires k < |chain| && j < d.g.spc * 512 && at == k * (d.g.spc * 512) + j && at < size
    ensures at < |Content(d, first, size).value| && ClusterByte(d, chain[k]) + j < |d.img|
    ensures Content(d, first, size).value[at] == d.img[ClusterByte(d, chain[k]) + j]
  {
    hide Mounted, ChainOf, ClustersOf, ClusterByte, Content;
    ContentCut(d, first, size);
    ChainByte(d, chain, d.g.spc * 512, k, j, at);
  }

  lemma ContentCut(d: Disk, first: nat, size: nat)
    requires Mounted(d) && 0 < size && Content(d, first, size).Ok? && ChainOf(d, first).Ok?
    ensures ClustersOf(d, ChainOf(d, first).value).Ok?
    ensures Content(d, first, size).value == Cut(ClustersOf(d, ChainOf(d, first).value).value, size)
  {
    hide Mounted, ChainOf, ClustersOf, Cut;
  }

  // Reading by path.

  /** A path as a listing has them: a directory and a plain name. */
  ghost predicate PlainPath(path: Name) {
    exists dir, name :: PlainName(name) && path == Join(dir, name)
  }

  lemma {:induction false} ListedPlain(acts: seq<Action>, i: nat)
    requires PlainNames(acts) && i < |Listed(acts)|
    ensures PlainPath(Listed(acts)[i].path)
    decreases |acts|
  {
    assert forall k :: 0 <= k < |acts[1..]| ==> acts[1..][k] == acts[k + 1];
    if acts[0].List? {
      if i == 0 {
        assert PlainName(acts[0].name);
        assert Listed(acts)[0].path == Join(acts[0].dir, acts[0].name);
      } else {
        ListedPlain(acts[1..], i - 1);
      }
    } else {
      assert Listed(acts) == [] + Listed(acts[1..]);
      ListedPlain(acts[1..], i);
    }
  }

  /** A listed path begins with a slash and a name, and ends with a name. */
  predicate PathShape(path: Name) {
    2 <= |path| && path[0] == SLASH && path[1] != SLASH && path[|path| - 1] != SLASH
  }

  lemma PlainParent(path: Name)
    requires PlainPath(path)
    ensures exists name :: PlainName(name) && path == Join(Parent(path), name)
  {
    var dir, name :| PlainName(name) && path == Join(dir, name);
    ParentOfJoin(dir, name);
  }

  lemma {:induction false} ListedShape(items: seq<Item>, i: nat)
    requires Rooted([], items) && i < |items|
    requires forall k :: 0 <= k < |items| ==> PlainPath(items[k].path)
    ensures PathShape(items[i].path)
    decreases i
  {
    var path := items[i].path;
    PlainParent(path);
    var name :| PlainName(name) && path == Join(Parent(path), name);
    assert path[|path| - 1] == name[|name| - 1];
    if Parent(path) == [] {
      assert path[1] == name[0];
    } else {
      var j :| 0 <= j < i && items[j].isDir && items[j].path == Parent(path);
      ListedShape(items, j);
      assert path[0] == Parent(path)[0] && path[1] == Parent(path)[1];
    }
  }

  lemma StripShape(path: Name)
    requires PathShape(path)
    ensures ROOT + Strip(path) == path
  {
    assert path[1..][0] == path[1] && path[1..][|path| - 2] == path[|path| - 1];
    assert Strip(path) == Strip(path[1..]) == path[1..];
  }

  predicate Slashes(s: Name) {
    forall i :: 0 <= i < |s| ==> s[i] == 0x2F
  }

  /** What is left of a path is the whole of it but the slashes at both ends. */
  lemma {:induction false} StripExact(path: Name) returns (a: Name, b: Name)
    ensures path == a + Strip(path) + b && Slashes(a) && Slashes(b)
    ensures Strip(path) != [] ==> Strip(path)[0] != 0x2F && Strip(path)[|Strip(path)| - 1] != 0x2F
    decreases |path|
  {
    a, b := [], [];
    if path != [] && path[0] == 0x2F {
      a, b := StripExact(path[1..]);
      a := [0x2F] + a;
    } else if path != [] && path[|path| - 1] == 0x2F {
      a, b := StripExact(path[..|path| - 1]);
      b := b + [0x2F];
    } else {
      assert Strip(path) == path;
    }
  }

  /** The item that the first `x` items are not, and this one is. */
  ghost predicate IsFirst(fold: Fold, out: seq<Item>, key: Name, x: nat) {
    x < |out| && fold(out[x].path) == key && forall i :: 0 <= i < x ==> fold(out[i].path) != key
  }

  lemma {:induction false} FirstNamedExact(fold: Fold, out: seq<Item>, key: Name)
    ensures (forall i :: 0 <= i < |out| ==> fold(out[i].path) != key) ==> FirstNamed(fold, out, key) == None
    ensures forall x: nat :: IsFirst(fold, out, key, x) ==> FirstNamed(fold, out, key) == Some(out[x])
  {
    if out == [] || fold(out[0].path) == key {
    } else {
      FirstNamedExact(fold, out[1..], key);
      forall x: nat | IsFirst(fold, out, key, x) ensures FirstNamed(fold, out, key) == Some(out[x]) {
        assert forall i :: 0 <= i < x - 1 ==> out[1..][i] == out[i + 1];
        assert IsFirst(fold, out[1..], key, x - 1);
      }
    }
  }

  /** What `read` answers, whatever the walk reports: a volume that cannot be walked cannot be read; the first item of
      the path decides, whatever its case; a directory is refused, and so is a path that no item has. */
  lemma ReadDecides(d: Disk, fold: Fold, path: Name)
    requires Mounted(d)
    ensures Walked(d, fold, []).Err? ==> ReadPath(d, fold, path) == Err(Walked(d, fold, []).error)
    ensures Walked(d, fold, []).Ok? ==>
      var out, key := Walked(d, fold, []).value.out, fold([0x2F] + Strip(path));
      && ((forall i :: 0 <= i < |out| ==> fold(out[i].path) != key) ==> ReadPath(d, fold, path) == Err(NotFound(path)))
      && forall x: nat :: IsFirst(fold, out, key, x) ==>
           ReadPath(d, fold, path)
             == if out[x].isDir then Err(IsADirectory(path)) else Content(d, out[x].first, out[x].size)
  {
    hide Mounted, Walked, Content, Strip, FirstNamed, IsFirst;
    if Walked(d, fold, []).Ok? {
      FirstNamedExact(fold, Walked(d, fold, []).value.out, fold([0x2F] + Strip(path)));
    }
  }

  lemma {:induction false} FirstNamedIs(fold: Fold, out: seq<Item>, x: nat)
    requires x < |out| && NoDup(Folded(fold, out))
    ensures FirstNamed(fold, out, fold(out[x].path)) == Some(out[x])
  {
    if x == 0 {
    } else {
      var qs := Folded(fold, out);
      assert qs[0] != qs[x];
      forall i, j | 0 <= i < j < |out[1..]| ensures Folded(fold, out[1..])[i] != Folded(fold, out[1..])[j] {
        assert qs[i + 1] != qs[j + 1];
      }
      FirstNamedIs(fold, out[1..], x - 1);
    }
  }

  /** On a volume whose walk is clean, `read` of a listed file's path answers that file's bytes, all of them. */
  lemma ReadExact(d: Disk, fold: Fold, out: seq<Item>, acts: seq<Action>, x: nat)
    requires CleanWalk(d, fold, out, acts) && HoldsAll(d) && x < |out| && !out[x].isDir
    ensures ReadPath(d, fold, out[x].path) == Content(d, out[x].first, out[x].size)
    ensures ReadPath(d, fold, out[x].path).Ok? && |ReadPath(d, fold, out[x].path).value| == out[x].size
  {
    hide Mounted, TableOf, FoldsByName, PlainNames, WalkActions, Walked, Content, HoldsAll, Rooted, PlainPath, Folded,
         Listed, Fits, Strip, FirstNamed;
    CleanWalkTree(d, fold, out, acts);
    forall k | 0 <= k < |out| ensures PlainPath(out[k].path) {
      ListedPlain(acts, k);
    }
    ListedShape(out, x);
    StripShape(out[x].path);
    FirstNamedIs(fold, out, x);
    assert Fits(TableOf(d), d.g.ClusterBytes(), out[x]);
    ContentExact(d, out[x]);
  }
}
