/** A host's file tree, as far as copying a volume changes it: names, bytes and modification times. */
module Trees {
  import opened Bytes
  import opened Report
  import opened Paths

  datatype Node = Folder(mtime: real) | Doc(data: seq<byte>, mtime: real) {

    function At(t: real): Node {
      match this
      case Folder(_) => Folder(t)
      case Doc(data, _) => Doc(data, t)
    }
  }

  /** The tree below a root. A path is the root's if it is empty; otherwise it is a folder's path and a name. */
  class Tree {
    var nodes: map<Name, Node>

    /** Making or removing an entry of a folder moves the folder's time. The root's is not kept. */
    static function Touched(nodes: map<Name, Node>, dir: Name, now: real): map<Name, Node> {
      if dir in nodes && nodes[dir].Folder? then nodes[dir := Folder(now)] else nodes
    }

    ghost predicate HasFolder(dir: Name)
      reads this
    {
      dir == [] || (dir in nodes && nodes[dir].Folder?)
    }

    /** A file stands in the way of a folder at `path`: it is there, or the nearest thing above that is there. */
    static predicate Blocked(nodes: map<Name, Node>, path: Name)
      decreases |path|
    {
      path != [] && if path in nodes then nodes[path].Doc? else Blocked(nodes, Parent(path))
    }

    /** The path or a folder above it. */
    static predicate Above(q: Name, path: Name)
      decreases |path|
    {
      path != [] && (q == path || Above(q, Parent(path)))
    }

    /** Everything is as it was but for folders' times, and what is new is a folder on the way to `path`. */
    static ghost predicate Grown(before: map<Name, Node>, after: map<Name, Node>, path: Name) {
      && (forall q :: q in before ==> q in after && (after[q] == before[q] || (before[q].Folder? && after[q].Folder?)))
      && (forall q :: q in after && q !in before ==> Above(q, path) && after[q].Folder?)
    }

    /** `os.makedirs(path, exist_ok=True)`: makes the folders that are missing, the highest first, or fails with
        nothing made. Where the folder above is there, the one new folder moves its time. */
    method MakeFolder(path: Name) returns (made: bool)
      modifies this
      ensures made <==> !Blocked(old(nodes), path)
      ensures !made ==> nodes == old(nodes)
      ensures made ==> HasFolder(path) && Grown(old(nodes), nodes, path)
      ensures old(HasFolder(path)) ==> nodes == old(nodes)
      ensures made && !old(HasFolder(path)) && old(HasFolder(Parent(path))) ==>
        exists now :: nodes == Touched(old(nodes), Parent(path), now)[path := Folder(now)]
      decreases |path|
    {
      if path == [] || path in nodes {
        return path == [] || nodes[path].Folder?;
      }
      ghost var before := nodes;
      var dir := Parent(path);
      if dir != [] {
        if dir !in nodes {
          var above := MakeFolder(dir);
          if !above {
            return false;
          }
        } else if nodes[dir].Doc? {
          return false;
        }
      }
      NotAbove(dir, path);
      assert path !in nodes;
      var now: real := *;
      nodes := Touched(nodes, dir, now)[path := Folder(now)];
      return true;
    }

    static lemma {:induction false} NotAbove(dir: Name, path: Name)
      requires |dir| < |path|
      ensures !Above(path, dir)
      decreases |dir|
    {
      if dir == [] {
      } else {
        NotAbove(Parent(dir), path);
      }
    }

    /** Writes a file whole; making it moves its folder's time. */
    method WriteFile(path: Name, data: seq<byte>)
      modifies this
      ensures exists now ::
        nodes == (if path in old(nodes) then old(nodes)
                  else Touched(old(nodes), Parent(path), now))[path := Doc(data, now)]
    {
      var now: real := *;
      nodes := (if path in nodes then nodes else Touched(nodes, Parent(path), now))[path := Doc(data, now)];
    }

    /** `os.utime(path, (t, t))`. */
    method SetTime(path: Name, t: real)
      requires path in nodes
      modifies this
      ensures nodes == old(nodes)[path := old(nodes)[path].At(t)]
    {
      nodes := nodes[path := nodes[path].At(t)];
    }
  }

  // Paths by their names.

  function PathOf(names: seq<Name>): Name {
    if names == [] then [] else Join(PathOf(names[..|names| - 1]), names[|names| - 1])
  }

  lemma ParentOfNames(names: seq<Name>)
    requires names != [] && forall i :: 0 <= i < |names| ==> 0x2F !in names[i]
    ensures Parent(PathOf(names)) == PathOf(names[..|names| - 1]) && PathOf(names) != []
  {
    ParentOfJoin(PathOf(names[..|names| - 1]), names[|names| - 1]);
  }

  /** What is above a path is each of its beginnings, by whole names, and the path. */
  lemma {:induction false} AboveExact(q: Name, names: seq<Name>)
    requires forall i :: 0 <= i < |names| ==> 0x2F !in names[i]
    ensures Tree.Above(q, PathOf(names)) <==> exists k :: 1 <= k <= |names| && q == PathOf(names[..k])
  {
    hide PathOf;
    if names == [] {
      assert PathOf(names) == [] by {
        EmptyPath();
      }
    } else {
      var front := names[..|names| - 1];
      ParentOfNames(names);
      AboveExact(q, front);
      assert names[..|names|] == names;
      forall k | 1 <= k <= |front| ensures names[..k] == front[..k] {
      }
    }
  }

  lemma EmptyPath()
    ensures PathOf([]) == []
  {
  }

  /** A folder cannot be made if and only if the path, or else the longest of its beginnings that is there, is a
      file. */
  lemma {:induction false} BlockedExact(nodes: map<Name, Node>, names: seq<Name>)
    requires forall i :: 0 <= i < |names| ==> 0x2F !in names[i]
    ensures Tree.Blocked(nodes, PathOf(names)) <==> exists k :: StandsIn(nodes, names, k)
  {
    hide PathOf;
    if names == [] {
      EmptyPath();
    } else {
      var front := names[..|names| - 1];
      ParentOfNames(names);
      BlockedExact(nodes, front);
      assert names[..|names|] == names;
      forall k: nat | k <= |front| ensures names[..k] == front[..k] {
      }
      if PathOf(names) in nodes {
        if nodes[PathOf(names)].Doc? {
          assert StandsIn(nodes, names, |names|);
        }
      } else {
        forall k: nat ensures StandsIn(nodes, names, k) <==> StandsIn(nodes, front, k) {
        }
      }
    }
  }

  /** The first `k` names are a file's path, and with more of them nothing is there. */
  ghost predicate StandsIn(nodes: map<Name, Node>, names: seq<Name>, k: nat) {
    && 1 <= k <= |names| && PathOf(names[..k]) in nodes && nodes[PathOf(names[..k])].Doc?
    && forall m :: k < m <= |names| ==> PathOf(names[..m]) !in nodes
  }
}
