/** The walk over a volume's directories. What it does falls in two parts. Which entries it comes to, in
    which order, depends on the volume alone: `Visit` gives it as a list of actions. What the actions do to
    the owners, the listing and the problems is `Replay`, a fold over that list. */
module Walks {
  import opened Results
  import opened Report
  import opened Chains
  import opened Geometries
  import opened Directories

  type Fold = Name -> Name

  /** A file or directory of the listing. */
  datatype Item = Item(path: Name, isDir: bool, first: nat, size: nat)

  /** One thing the walk does. */
  datatype Action =
    | Note(problem: Problem)
    | Stamp(at: Name, mtime: Option<int>)
    | List(dir: Name, name: Name, isDir: bool, first: nat, size: nat)
    | Claim(path: Name, start: nat, bytes: Option<nat>)

  const MAX_DEPTH := 64

  /** A directory being visited. */
  datatype Place = Place(first: nat, path: Name, parent: nat, depth: nat)

  /** What the visit has seen in a directory so far. */
  datatype Seen = Seen(names: set<Name>, dot: bool, dotdot: bool)

  const NOTHING := Seen({}, false, false)

  function TopPlace(): Place {
    Place(0, [], 0, 0)
  }

  /** The name a directory's own problems are reported under. */
  function Where(path: Name): Name {
    if path == [] then ROOT else path
  }

  /** What an entry is to a visit: its own two links are checked and skipped. */
  function DotActions(p: Place, e: Entry): seq<Action> {
    if e.name == DOT then (if e.first != p.first then [Note(DotWrong(p.path, e.first, p.first))] else [])
    else (if e.first != p.parent then [Note(DotDotWrong(p.path, e.first, p.parent))] else [])
  }

  predicate IsDots(e: Entry) {
    e.name == DOT || e.name == DOTDOT
  }

  function SeeEntry(fold: Fold, seen: Seen, e: Entry): Seen {
    if e.name == DOT then seen.(dot := true)
    else if e.name == DOTDOT then seen.(dotdot := true)
    else seen.(names := seen.names + {fold(e.name)})
  }

  /** Whether the visit goes into an entry. */
  ghost predicate Enters(t: Table, e: Entry) {
    !IsDots(e) && e.IsDir() && e.first != 0 && Chain(t, e.first).Ok?
  }

  ghost function DirActions(t: Table, dir: Name, e: Entry): seq<Action> {
    var full := Join(dir, e.name);
    (if e.size != 0 then [Note(DirectorySize(full, e.size))] else [])
    + if e.first == 0 then [Note(DirectoryNoCluster(full))]
      else [Claim(full, e.first, None)]
           + if Chain(t, e.first).Ok? then [List(dir, e.name, true, e.first, 0)] else []
  }

  function FileActions(dir: Name, e: Entry): seq<Action> {
    var full := Join(dir, e.name);
    [List(dir, e.name, false, e.first, e.size)]
    + if e.size == 0 then (if e.first != 0 then [Note(EmptyHolds(full, e.first))] else [])
      else if e.first == 0 then [Note(BytesNoCluster(full, e.size))]
      else [Claim(full, e.first, Some(e.size))]
  }

  /** The actions of one entry, before the visit goes into it. */
  ghost function EntryActions(t: Table, fold: Fold, p: Place, seen: Seen, e: Entry): seq<Action> {
    if IsDots(e) then DotActions(p, e)
    else
      var full := Join(p.path, e.name);
      [Stamp(full, e.mtime)]
      + (if fold(e.name) in seen.names then [Note(SecondOfName(full))] else [])
      + if e.IsDir() then DirActions(t, p.path, e) else FileActions(p.path, e)
  }

  function LastActions(p: Place, seen: Seen): seq<Action> {
    if p.first != 0 && !(seen.dot && seen.dotdot) then [Note(DotsMissing(p.path))] else []
  }

  function Inside(p: Place, e: Entry): Place {
    Place(e.first, Join(p.path, e.name), p.first, p.depth + 1)
  }

  /** `visit`. A directory may hold its own ancestors: the depth ends the walk. */
  ghost function Visit(d: Disk, fold: Fold, p: Place): Result<seq<Action>, Problem>
    requires Mounted(d)
    decreases if p.depth > MAX_DEPTH then 0 else MAX_DEPTH + 1 - p.depth, 1, 0
  {
    if p.depth > MAX_DEPTH then Ok([Note(TooDeep(p.path))])
    else
      var events :- Events(d, p.first, Where(p.path));
      Scan(d, fold, p, events, NOTHING)
  }

  function Prepend(acts: seq<Action>, rest: Result<seq<Action>, Problem>): Result<seq<Action>, Problem> {
    if rest.Err? then rest else Ok(acts + rest.value)
  }

  /** The rest of a visit, from the events `events`. */
  ghost function Scan(d: Disk, fold: Fold, p: Place, events: seq<Event>, seen: Seen): Result<seq<Action>, Problem>
    requires Mounted(d) && p.depth <= MAX_DEPTH
    decreases MAX_DEPTH + 1 - p.depth, 0, |events|
  {
    if events == [] then Ok(LastActions(p, seen))
    else if events[0].Flaw? then
      Prepend([Note(events[0].problem)], Scan(d, fold, p, events[1..], seen))
    else
      var t, e := TableOf(d), events[0].entry;
      var inner := if Enters(t, e) then Visit(d, fold, Inside(p, e)) else Ok([]);
      if inner.Err? then inner
      else
        Prepend(EntryActions(t, fold, p, seen, e) + inner.value,
                Scan(d, fold, p, events[1..], SeeEntry(fold, seen, e)))
  }

  /** The whole walk. On FAT32 the root is a chain, and its clusters are held by it. */
  ghost function WalkActions(d: Disk, fold: Fold): Result<seq<Action>, Problem>
    requires Mounted(d)
  {
    if d.g.kind.Fat16? then Visit(d, fold, TopPlace())
    else
      var claim := [Claim(ROOT, d.g.rootCluster, None)];
      if Chain(TableOf(d), d.g.rootCluster).Err? then Ok(claim)
      else Prepend(claim, Visit(d, fold, TopPlace()))
  }

  // What the actions do.

  datatype State = State(owner: map<nat, Name>, mtime: map<Name, Option<int>>, out: seq<Item>, problems: seq<Problem>)

  function Start(problems: seq<Problem>): State {
    State(map[], map[], [], problems)
  }

  /** The clusters a file of `size` bytes needs. */
  function ClustersFor(size: nat, clusterBytes: nat): nat
    requires 0 < clusterBytes
  {
    (size + clusterBytes - 1) / clusterBytes
  }

  function TakeOne(s: State, path: Name, c: nat): State {
    if c in s.owner then s.(problems := s.problems + [CrossLinked(path, c, s.owner[c])])
    else s.(owner := s.owner[c := path])
  }

  /** The first `n` clusters of a chain, held by `path`. */
  function Take(s: State, path: Name, chain: seq<nat>, n: nat): State
    requires n <= |chain|
  {
    if n == 0 then s else TakeOne(Take(s, path, chain, n - 1), path, chain[n - 1])
  }

  ghost function Step(t: Table, clusterBytes: nat, s: State, a: Action): State
    requires 0 < clusterBytes
  {
    match a
    case Note(problem) => s.(problems := s.problems + [problem])
    case Stamp(at, mtime) => s.(mtime := s.mtime[at := mtime])
    case List(dir, name, isDir, first, size) => s.(out := s.out + [Item(Join(dir, name), isDir, first, size)])
    case Claim(path, start, bytes) =>
      match Chain(t, start)
      case Err(fault) => s.(problems := s.problems + [Broken(path, fault)])
      case Ok(chain) =>
        var s' := Take(s, path, chain, |chain|);
        if bytes.Some? && |chain| != ClustersFor(bytes.value, clusterBytes) then
          s'.(problems := s'.problems
                          + [SizeMismatch(path, bytes.value, ClustersFor(bytes.value, clusterBytes), |chain|)])
        else s'
  }

  ghost function Replay(t: Table, clusterBytes: nat, s: State, acts: seq<Action>): State
    requires 0 < clusterBytes
    decreases |acts|
  {
    if acts == [] then s else Replay(t, clusterBytes, Step(t, clusterBytes, s, acts[0]), acts[1..])
  }

  lemma {:induction false} ReplayAppend(t: Table, clusterBytes: nat, s: State, a: seq<Action>, b: seq<Action>)
    requires 0 < clusterBytes
    ensures Replay(t, clusterBytes, s, a + b) == Replay(t, clusterBytes, Replay(t, clusterBytes, s, a), b)
    decreases |a|
  {
    hide Step;
    if a == [] {
      assert a + b == b;
    } else {
      assert (a + b)[0] == a[0] && (a + b)[1..] == a[1..] + b;
      ReplayAppend(t, clusterBytes, Step(t, clusterBytes, s, a[0]), a[1..], b);
    }
  }
}
