/** The reader itself: an open volume, whose walk records who holds each cluster and when each entry changed. */
module Volumes {
  import opened Results
  import opened Bytes
  import opened Report
  import opened Seqs
  import opened Chains
  import opened Geometries
  import opened DosTimes
  import opened Directories
  import opened Walks
  import opened Checks

  /** A list that its holders append to. */
  class Log<T> {
    var items: seq<T>

    constructor ()
      ensures items == []
    {
      items := [];
    }

    method Append(x: T)
      modifies this
      ensures items == old(items) + [x]
    {
      items := items + [x];
    }
  }

  /** `lfn_checksum`. */
  method LfnChecksum(short: seq<byte>) returns (s: byte)
    ensures s == Checksum(0, short)
  {
    s := 0;
    for i := 0 to |short|
      invariant Checksum(s, short[i..]) == Checksum(0, short)
    {
      assert short[i..][1..] == short[i + 1..];
      s := (s % 2 * 0x80 + s / 2 + short[i]) % 0x100;
    }
  }

  lemma DecodeStart(kind: Kind, es: seq<Raw>, dir: Name)
    ensures Decode(kind, es, 0, dir) == [] && RunAt(Views(es), 0) == NoRun
  {
  }

  lemma DecodeNext(kind: Kind, es: seq<Raw>, i: nat, dir: Name)
    requires i < |es|
    ensures Decode(kind, es, i + 1, dir) == Decode(kind, es, i, dir) + EventsOf(kind, RunAt(Views(es), i), es[i], dir)
    ensures RunAt(Views(es), i + 1) == NextRun(RunAt(Views(es), i), View(es[i]))
  {
    hide EventsOf, NextRun, View;
  }

  lemma NoneBelowTwo(t: Table, owner: map<nat, Name>)
    requires 2 <= |t.next|
    ensures Unreached(t, owner, 2) == []
  {
    assert Unreached(t, owner, 1) == [];
  }

  lemma ScanEnd(d: Disk, fold: Fold, p: Place, seen: Seen)
    requires Mounted(d) && p.depth <= MAX_DEPTH
    ensures Scan(d, fold, p, [], seen) == Ok(LastActions(p, seen))
  {
  }

  /** A visit's next event. */
  lemma ScanNext(d: Disk, fold: Fold, p: Place, events: seq<Event>, i: nat, seen: Seen)
    requires Mounted(d) && p.depth <= MAX_DEPTH && i < |events|
    ensures events[i].Flaw? ==>
      Scan(d, fold, p, events[i..], seen)
        == Prepend([Note(events[i].problem)], Scan(d, fold, p, events[i + 1..], seen))
    ensures events[i].Found? ==>
      var t, e := TableOf(d), events[i].entry;
      var inner := if Enters(t, e) then Walks.Visit(d, fold, Inside(p, e)) else Ok([]);
      Scan(d, fold, p, events[i..], seen)
        == if inner.Err? then inner
           else Prepend(EntryActions(t, fold, p, seen, e) + inner.value,
                        Scan(d, fold, p, events[i + 1..], SeeEntry(fold, seen, e)))
  {
    hide Mounted, EntryActions, Enters, SeeEntry, TableOf, Walks.Visit, Prepend;
    assert events[i..][0] == events[i] && events[i..][1..] == events[i + 1..];
  }

  /** The state that actions lead to from `s`. */
  ghost function After(d: Disk, s: State, acts: seq<Action>): State
    requires Mounted(d)
  {
    BytesPositive(d);
    Replay(TableOf(d), d.g.ClusterBytes(), s, acts)
  }

  ghost function Stepped(d: Disk, s: State, a: Action): State
    requires Mounted(d)
  {
    BytesPositive(d);
    Step(TableOf(d), d.g.ClusterBytes(), s, a)
  }

  lemma AfterSnoc(d: Disk, s: State, acts: seq<Action>, a: Action)
    requires Mounted(d)
    ensures After(d, s, []) == s
    ensures After(d, s, acts + [a]) == Stepped(d, After(d, s, acts), a)
  {
    hide Step, Mounted, TableOf;
    BytesPositive(d);
    ReplayAppend(TableOf(d), d.g.ClusterBytes(), s, acts, [a]);
    assert [a][1..] == [];
  }

  lemma AfterAppend(d: Disk, s: State, a: seq<Action>, b: seq<Action>)
    requires Mounted(d)
    ensures After(d, s, a + b) == After(d, After(d, s, a), b)
  {
    hide Step, Mounted, TableOf;
    BytesPositive(d);
    ReplayAppend(TableOf(d), d.g.ClusterBytes(), s, a, b);
  }

  class Volume {
    const disk: Disk
    const fold: Fold
    var owner: map<nat, Name>
    var mtime: map<Name, Option<int>>

    constructor (disk: Disk, fold: Fold)
      ensures this.disk == disk && this.fold == fold
    {
      this.disk := disk;
      this.fold := fold;
      owner, mtime := map[], map[];
    }

    ghost function Snapshot(out: Log<Item>, problems: Log<Problem>): State
      reads this, out, problems
    {
      State(owner, mtime, out.items, problems.items)
    }

    method FreeClusters() returns (n: nat)
      requires Mounted(disk)
      ensures n == FreeCount(TableOf(disk))
    {
      hide FatOf, Mounted;
      n := 0;
      ghost var t := TableOf(disk);
      ghost var counted: set<nat> := {};
      for c := 2 to disk.g.MaxCluster() + 1
        invariant counted == (set x: nat | x < c && t.Free(x)) && n == |counted|
      {
        if FatOf(disk, c) == 0 {
          counted := counted + {c};
          n := n + 1;
        }
      }
      assert counted == FreeSet(t);
    }

    method Chain(first: nat) returns (r: Result<seq<nat>, Fault>)
      requires Mounted(disk)
      ensures r == ChainOf(disk, first)
    {
      hide FatOf, Mounted;
      ghost var t := TableOf(disk);
      var out: seq<nat>, seen: set<nat>, c: nat := [], {}, first;
      while true
        invariant Met(t, out) && seen == Elems(out)
        invariant Follow(t, c, out) == Chains.Chain(t, first)
        decreases |t.next| - |out|
      {
        MetBound(t, out);
        if c < 2 || c > disk.g.MaxCluster() {
          return Err(Outside(c));
        }
        if c in seen {
          return Err(LoopsBackTo(c));
        }
        MetBound(t, out + [c]);
        seen := seen + {c};
        out := out + [c];
        var next := FatOf(disk, c);
        if next >= disk.g.Eoc() {
          return Ok(out);
        }
        if next == 0 {
          return Err(IntoFree(c));
        }
        if next == disk.g.Bad() {
          return Err(IntoBad(c));
        }
        c := next;
      }
    }

    /** `b"".join(self.cluster(c) for c in chain)`. */
    method Clusters(chain: seq<nat>) returns (r: Result<seq<byte>, Problem>)
      requires forall i :: 0 <= i < |chain| ==> 2 <= chain[i]
      ensures r == ClustersOf(disk, chain)
    {
      hide Sectors;
      var data: seq<byte> := [];
      assert chain[0..] == chain;
      for i := 0 to |chain|
        invariant var whole, rest := ClustersOf(disk, chain), ClustersOf(disk, chain[i..]);
          if rest.Err? then whole == rest else whole.Ok? && whole.value == data + rest.value
      {
        assert chain[i..][1..] == chain[i + 1..];
        var block := Sectors(disk.img, disk.base, disk.g.ClusterLba(chain[i]), disk.g.spc);
        if block.Err? {
          return Err(block.error);
        }
        data := data + block.value;
      }
      assert chain[|chain|..] == [] && data + [] == data;
      return Ok(data);
    }

    method RawEntriesOf(first: nat) returns (r: Result<seq<Raw>, Problem>)
      requires Mounted(disk)
      ensures r == RawEntries(disk, first)
    {
      var start := if first == 0 && disk.g.kind.Fat32? then disk.g.rootCluster else first;
      var data;
      if start == 0 {
        data := Sectors(disk.img, disk.base, disk.g.RootStart(), disk.g.RootSectors());
      } else {
        var chain := Chain(start);
        if chain.Err? {
          return Err(BrokenRead(chain.error));
        }
        data := Clusters(chain.value);
      }
      if data.Err? {
        return Err(data.error);
      }
      assert Ok(data.value) == DirBytes(disk, first);
      return Ok(Slots(data.value));
    }

    /** `entries`, the problems it reports and the entries it yields in one order. */
    method Entries(first: nat, dir: Name) returns (r: Result<seq<Event>, Problem>)
      requires Mounted(disk)
      ensures r == Events(disk, first, dir)
    {
      hide Decode, RawEntries;
      var raw := RawEntriesOf(first);
      if raw.Err? {
        return Err(raw.error);
      }
      var events := DecodeAll(raw.value, dir);
      return Ok(events);
    }

    method DecodeAll(es: seq<Raw>, dir: Name) returns (events: seq<Event>)
      ensures events == Decode(disk.g.kind, es, |es|, dir)
    {
      hide EventsOf, NextRun, View, Decode, RunAt;
      var parts: map<nat, Chunk>, want: Option<nat>, sum: byte := map[], None, 0;
      events := [];
      DecodeStart(disk.g.kind, es, dir);
      for i := 0 to |es|
        invariant RunAt(Views(es), i) == if want.None? then NoRun else Run(parts, want.value, sum)
        invariant want.None? ==> parts == map[]
        invariant want.Some? ==> parts != map[]
        invariant events == Decode(disk.g.kind, es, i, dir)
      {
        DecodeNext(disk.g.kind, es, i, dir);
        var more;
        parts, want, sum, more := OneEntry(es[i], dir, parts, want, sum);
        events := events + more;
      }
    }

    /** One turn of `entries`' loop. */
    method OneEntry(e: Raw, dir: Name, parts: map<nat, Chunk>, want: Option<nat>, sum: byte)
      returns (parts': map<nat, Chunk>, want': Option<nat>, sum': byte, events: seq<Event>)
      requires (want.None? ==> parts == map[]) && (want.Some? ==> parts != map[])
      ensures (want'.None? ==> parts' == map[]) && (want'.Some? ==> parts' != map[])
      ensures var run := if want.None? then NoRun else Run(parts, want.value, sum);
        && events == EventsOf(disk.g.kind, run, e, dir)
        && (if want'.None? then NoRun else Run(parts', want'.value, sum')) == NextRun(run, View(e))
    {
      hide DosTime, ShortName, UntilNul, Units, Joined;
      ghost var run := if want.None? then NoRun else Run(parts, want.value, sum);
      parts', want', sum', events := map[], None, sum, [];
      if e[0] == DELETED {
        return;
      }
      if e[11] == ATTR_LONG {
        var seqNo := e[0] % 0x20;
        if Bit(e[0], LAST_PART) {
          parts', want', sum' := map[seqNo := Chars(e)], Some(seqNo), e[13];
        } else if want.None? || seqNo as int != want.value - |parts| || e[13] != sum {
          events := [Flaw(PartOutOfOrder(dir))];
        } else {
          parts', want' := parts[seqNo := Chars(e)], want;
        }
        assert want'.Some? ==> seqNo in parts';
        return;
      }
      if Bit(e[11], ATTR_VOLUME) {
        return;
      }
      var short := e[..11];
      var name := ShortName(short, e[12]);
      if parts != map[] {
        var check := LfnChecksum(short);
        if !Complete(Run(parts, want.value, sum)) {
          events := [Flaw(PartsMissing(dir, name))];
        } else if check != sum {
          events := [Flaw(ChecksumWrong(dir, name))];
        } else {
          name := UntilNul(Units(Joined(parts, 1, want.value)));
        }
      }
      assert name == StoredName(run, e) && events == NameFlaws(run, e, dir);
      var hi, lo := Le16(e, 20), Le16(e, 26);
      var cluster := lo;
      if disk.g.kind.Fat32? {
        cluster := hi * 0x1_0000 + lo;
      } else if hi != 0 {
        events := events + [Flaw(HighHalf(dir, name, hi))];
      }
      events := events + [Found(Entry(name, e[11], cluster, Le32(e, 28), DosTime(Le16(e, 22), Le16(e, 24))))];
    }

    /** `own`: records a chain's clusters as held by `path`. */
    method Own(path: Name, first: nat, out: Log<Item>, problems: Log<Problem>) returns (r: Option<seq<nat>>)
      requires Mounted(disk)
      modifies this`owner, problems
      ensures Snapshot(out, problems) == Stepped(disk, old(Snapshot(out, problems)), Claim(path, first, None))
      ensures r == match ChainOf(disk, first) case Ok(chain) => Some(chain) case Err(_) => None
    {
      hide FatOf, Mounted, Follow;
      BytesPositive(disk);
      var chain := Chain(first);
      if chain.Err? {
        problems.Append(Broken(path, chain.error));
        return None;
      }
      for i := 0 to |chain.value|
        invariant Snapshot(out, problems) == Take(old(Snapshot(out, problems)), path, chain.value, i)
      {
        var c := chain.value[i];
        if c in owner {
          problems.Append(CrossLinked(path, c, owner[c]));
        } else {
          owner := owner[c := path];
        }
      }
      return Some(chain.value);
    }

    /** A directory's entry, before the visit goes into it. */
    method OnDirectory(dir: Name, e: Entry, out: Log<Item>, problems: Log<Problem>) returns (enter: bool)
      requires Mounted(disk)
      modifies this`owner, out, problems
      ensures Snapshot(out, problems) == After(disk, old(Snapshot(out, problems)), DirActions(TableOf(disk), dir, e))
      ensures enter <==> e.first != 0 && ChainOf(disk, e.first).Ok?
    {
      hide After, Mounted, Follow, Take;
      ghost var s := Snapshot(out, problems);
      ghost var acts := [];
      var full := Join(dir, e.name);
      AfterSnoc(disk, s, [], Note(DirectoryNoCluster(full)));
      if e.size != 0 {
        problems.Append(DirectorySize(full, e.size));
        AfterSnoc(disk, s, acts, Note(DirectorySize(full, e.size)));
        acts := acts + [Note(DirectorySize(full, e.size))];
      }
      if e.first == 0 {
        problems.Append(DirectoryNoCluster(full));
        AfterSnoc(disk, s, acts, Note(DirectoryNoCluster(full)));
        assert acts + [Note(DirectoryNoCluster(full))] == DirActions(TableOf(disk), dir, e);
        return false;
      }
      var chain := Own(full, e.first, out, problems);
      AfterSnoc(disk, s, acts, Claim(full, e.first, None));
      acts := acts + [Claim(full, e.first, None)];
      if chain.None? {
        assert acts == DirActions(TableOf(disk), dir, e);
        return false;
      }
      out.Append(Item(full, true, e.first, 0));
      AfterSnoc(disk, s, acts, List(dir, e.name, true, e.first, 0));
      assert acts + [List(dir, e.name, true, e.first, 0)] == DirActions(TableOf(disk), dir, e);
      return true;
    }

    /** A file's entry. */
    method OnFile(dir: Name, e: Entry, out: Log<Item>, problems: Log<Problem>)
      requires Mounted(disk)
      modifies this`owner, out, problems
      ensures Snapshot(out, problems) == After(disk, old(Snapshot(out, problems)), FileActions(dir, e))
    {
      hide After, Mounted, Follow, Take;
      ghost var s := Snapshot(out, problems);
      var full := Join(dir, e.name);
      var listed := List(dir, e.name, false, e.first, e.size);
      out.Append(Item(full, false, e.first, e.size));
      AfterSnoc(disk, s, [], listed);
      assert [] + [listed] == [listed];
      if e.size == 0 {
        if e.first != 0 {
          problems.Append(EmptyHolds(full, e.first));
          AfterSnoc(disk, s, [listed], Note(EmptyHolds(full, e.first)));
        } else {
          assert [listed] == FileActions(dir, e);
        }
        return;
      }
      if e.first == 0 {
        problems.Append(BytesNoCluster(full, e.size));
        AfterSnoc(disk, s, [listed], Note(BytesNoCluster(full, e.size)));
        return;
      }
      AfterSnoc(disk, s, [listed], Claim(full, e.first, Some(e.size)));
      var chain := Own(full, e.first, out, problems);
      if chain.Some? {
        BytesPositive(disk);
        var want := ClustersFor(e.size, disk.g.ClusterBytes());
        if |chain.value| != want {
          problems.Append(SizeMismatch(full, e.size, want, |chain.value|));
        }
      }
    }

    /** One of a directory's own two links. */
    method OnDots(p: Place, e: Entry, out: Log<Item>, problems: Log<Problem>)
      requires Mounted(disk)
      modifies problems
      ensures Snapshot(out, problems) == After(disk, old(Snapshot(out, problems)), DotActions(p, e))
    {
      hide After, Mounted;
      ghost var s := Snapshot(out, problems);
      if e.name == DOT {
        AfterSnoc(disk, s, [], Note(DotWrong(p.path, e.first, p.first)));
        if e.first != p.first {
          problems.Append(DotWrong(p.path, e.first, p.first));
          assert [] + [Note(DotWrong(p.path, e.first, p.first))] == DotActions(p, e);
        }
      } else {
        AfterSnoc(disk, s, [], Note(DotDotWrong(p.path, e.first, p.parent)));
        if e.first != p.parent {
          problems.Append(DotDotWrong(p.path, e.first, p.parent));
          assert [] + [Note(DotDotWrong(p.path, e.first, p.parent))] == DotActions(p, e);
        }
      }
    }

    /** Any entry of a directory, before the visit goes into it. */
    method OnEntry(p: Place, seen: Seen, e: Entry, out: Log<Item>, problems: Log<Problem>) returns (enter: bool)
      requires Mounted(disk)
      modifies this, out, problems
      ensures Snapshot(out, problems)
           == After(disk, old(Snapshot(out, problems)), EntryActions(TableOf(disk), fold, p, seen, e))
      ensures enter <==> Enters(TableOf(disk), e)
    {
      hide After, Mounted, DirActions, FileActions, DotActions, Follow, Chains.Chain;
      ghost var s, t := Snapshot(out, problems), TableOf(disk);
      if IsDots(e) {
        OnDots(p, e, out, problems);
        return false;
      }
      var full := Join(p.path, e.name);
      AfterSnoc(disk, s, [], Stamp(full, e.mtime));
      mtime := mtime[full := e.mtime];
      ghost var acts := [Stamp(full, e.mtime)];
      assert [] + acts == acts;
      if fold(e.name) in seen.names {
        problems.Append(SecondOfName(full));
        AfterSnoc(disk, s, acts, Note(SecondOfName(full)));
        acts := acts + [Note(SecondOfName(full))];
      }
      if e.IsDir() {
        enter := OnDirectory(p.path, e, out, problems);
        AfterAppend(disk, s, acts, DirActions(t, p.path, e));
        assert acts + DirActions(t, p.path, e) == EntryActions(t, fold, p, seen, e);
      } else {
        OnFile(p.path, e, out, problems);
        AfterAppend(disk, s, acts, FileActions(p.path, e));
        assert acts + FileActions(p.path, e) == EntryActions(t, fold, p, seen, e);
        enter := false;
      }
    }

    /** An entry of a directory, and what is inside it. */
    method VisitEntry(p: Place, seen: Seen, e: Entry, out: Log<Item>, problems: Log<Problem>)
      returns (r: Option<Problem>)
      requires Mounted(disk) && p.depth <= MAX_DEPTH
      modifies this, out, problems
      ensures var inner := if Enters(TableOf(disk), e) then Walks.Visit(disk, fold, Inside(p, e)) else Ok([]);
        match inner
        case Err(error) => r == Some(error)
        case Ok(acts) =>
          && r == None
          && Snapshot(out, problems)
          == After(disk, old(Snapshot(out, problems)), EntryActions(TableOf(disk), fold, p, seen, e) + acts)
      decreases MAX_DEPTH + 1 - p.depth, 0
    {
      hide After, Mounted, EntryActions, Enters, TableOf, Walks.Visit;
      ghost var s, mine := Snapshot(out, problems), EntryActions(TableOf(disk), fold, p, seen, e);
      var enter := OnEntry(p, seen, e, out, problems);
      if !enter {
        assert mine + [] == mine;
        return None;
      }
      r := Visit(Inside(p, e), out, problems);
      if r.None? {
        AfterAppend(disk, s, mine, Walks.Visit(disk, fold, Inside(p, e)).value);
      }
    }

    /** `visit`. */
    method Visit(p: Place, out: Log<Item>, problems: Log<Problem>) returns (r: Option<Problem>)
      requires Mounted(disk)
      modifies this, out, problems
      ensures match Walks.Visit(disk, fold, p)
        case Err(error) => r == Some(error)
        case Ok(acts) => r == None && Snapshot(out, problems) == After(disk, old(Snapshot(out, problems)), acts)
      decreases if p.depth > MAX_DEPTH then 0 else MAX_DEPTH + 1 - p.depth, 1
    {
      hide After, Mounted, EntryActions, Events, Enters, SeeEntry, TableOf, Follow, Chains.Chain, Scan;
      ghost var s := Snapshot(out, problems);
      if p.depth > MAX_DEPTH {
        problems.Append(TooDeep(p.path));
        AfterSnoc(disk, s, [], Note(TooDeep(p.path)));
        assert [] + [Note(TooDeep(p.path))] == [Note(TooDeep(p.path))];
        return None;
      }
      var found := Entries(p.first, Where(p.path));
      if found.Err? {
        return Some(found.error);
      }
      var events := found.value;
      var seen := NOTHING;
      ghost var done: seq<Action> := [];
      AfterSnoc(disk, s, [], Note(TooDeep(p.path)));
      assert events[0..] == events;
      for i := 0 to |events|
        invariant Snapshot(out, problems) == After(disk, s, done)
        invariant var whole, rest := Scan(disk, fold, p, events, NOTHING), Scan(disk, fold, p, events[i..], seen);
          if rest.Err? then whole == rest else whole.Ok? && whole.value == done + rest.value
      {
        ScanNext(disk, fold, p, events, i, seen);
        match events[i]
        case Flaw(problem) =>
          problems.Append(problem);
          AfterSnoc(disk, s, done, Note(problem));
          done := done + [Note(problem)];
        case Found(e) =>
          var stopped := VisitEntry(p, seen, e, out, problems);
          if stopped.Some? {
            return stopped;
          }
          ghost var inner := if Enters(TableOf(disk), e) then Walks.Visit(disk, fold, Inside(p, e)) else Ok([]);
          ghost var mine := EntryActions(TableOf(disk), fold, p, seen, e) + inner.value;
          AfterAppend(disk, s, done, mine);
          done := done + mine;
          seen := SeeEntry(fold, seen, e);
      }
      ScanEnd(disk, fold, p, seen);
      assert events[|events|..] == [];
      if p.first != 0 && !(seen.dot && seen.dotdot) {
        problems.Append(DotsMissing(p.path));
        AfterSnoc(disk, s, done, Note(DotsMissing(p.path)));
      }
      assert done + [] == done;
      return None;
    }

    /** `walk`. */
    method Walk(problems: Log<Problem>) returns (r: Result<seq<Item>, Problem>)
      requires Mounted(disk)
      modifies this, problems
      ensures match Walked(disk, fold, old(problems.items))
        case Err(error) => r == Err(error)
        case Ok(s) => r == Ok(s.out) && State(owner, mtime, s.out, problems.items) == s
    {
      hide Mounted, TableOf, Walks.Visit, Follow, Chains.Chain;
      owner, mtime := map[], map[];
      var out := new Log<Item>();
      ghost var s := Snapshot(out, problems);
      var claim := Claim(ROOT, disk.g.rootCluster, None);
      AfterSnoc(disk, s, [], claim);
      assert [] + [claim] == [claim];
      if disk.g.kind.Fat32? {
        var chain := Own(ROOT, disk.g.rootCluster, out, problems);
        if chain.None? {
          return Ok(out.items);
        }
        if Walks.Visit(disk, fold, TopPlace()).Ok? {
          AfterAppend(disk, s, [claim], Walks.Visit(disk, fold, TopPlace()).value);
        }
      }
      var stopped := Visit(TopPlace(), out, problems);
      if stopped.Some? {
        return Err(stopped.value);
      }
      return Ok(out.items);
    }

    /** `fat32_problems`. */
    method Fat32Check() returns (r: Result<seq<Problem>, Problem>)
      requires Mounted(disk)
      ensures r == Fat32Problems(disk)
    {
      hide Mounted, TableOf, FsInfoProblems;
      var out := [];
      if disk.g.version != 0 {
        out := out + [Version(disk.g.version)];
      }
      if Bit(disk.g.extFlags, 0x80) {
        out := out + [MirroringOff];
      }
      if !(2 <= disk.g.rootCluster <= disk.g.MaxCluster()) {
        out := out + [RootOutside(disk.g.rootCluster)];
      }
      assert out == FieldProblems(disk.g);
      var fs := Sectors(disk.img, disk.base, disk.g.fsinfo, 1);
      if fs.Err? {
        return Err(fs.error);
      }
      var free := FreeClusters();
      return Ok(out + FsInfoProblems(fs.value, free, disk.g.MaxCluster()));
    }

    /** What `check` reports before the walk. */
    method HeadCheck() returns (r: Result<seq<Problem>, Problem>)
      requires Mounted(disk)
      ensures r == HeadProblems(disk)
    {
      hide Mounted, TableOf, Fat32Problems, Sectors;
      MountedAccepted(disk);
      var found: seq<Problem> := [];
      for k := 1 to disk.g.nfats
        invariant found == CopyProblems(disk.fats, k)
      {
        if disk.fats[k] != disk.fats[0] {
          found := found + [CopyDiffers(k + 1)];
        }
      }
      found := found + MediaProblems(disk);
      if disk.g.kind.Fat32? {
        var more := Fat32Check();
        if more.Err? {
          return Err(more.error);
        }
        found := found + more.value;
      }
      return Ok(found);
    }

    /** The clusters in use that no chain of the walk holds. */
    method Unowned() returns (leaked: seq<nat>)
      requires Mounted(disk)
      ensures leaked == Unreached(TableOf(disk), owner, |TableOf(disk).next|)
    {
      hide Mounted, FatOf;
      ghost var t := TableOf(disk);
      leaked := [];
      NoneBelowTwo(t, owner);
      for c := 2 to disk.g.MaxCluster() + 1
        invariant leaked == Unreached(t, owner, c)
      {
        if FatOf(disk, c) != 0 && FatOf(disk, c) != disk.g.Bad() && c !in owner {
          leaked := leaked + [c];
        }
      }
    }

    /** `check`. */
    method Check() returns (r: Result<seq<Problem>, Problem>)
      requires Mounted(disk)
      modifies this
      ensures r == Checks.Check(disk, fold)
      ensures r.Ok? ==> mtime == Walked(disk, fold, HeadProblems(disk).value).value.mtime
    {
      hide Mounted, TableOf, HeadProblems, Walked, Unreached;
      var head := HeadCheck();
      if head.Err? {
        return Err(head.error);
      }
      var problems := new Log<Problem>();
      problems.items := head.value;
      var out := Walk(problems);
      if out.Err? {
        return Err(out.error);
      }
      var leaked := Unowned();
      ghost var s := Walked(disk, fold, head.value).value;
      assert s.problems + [] == s.problems == problems.items;
      if leaked != [] {
        problems.Append(Leaked(leaked));
      }
      assert problems.items == s.problems + LeakProblems(TableOf(disk), s.owner);
      return Ok(problems.items);
    }

    /** A file's bytes. */
    method ContentOf(first: nat, size: nat) returns (r: Result<seq<byte>, Problem>)
      requires Mounted(disk)
      ensures r == Content(disk, first, size)
    {
      hide Mounted, TableOf, ClustersOf;
      if size == 0 {
        return Ok([]);
      }
      var chain := Chain(first);
      if chain.Err? {
        return Err(BrokenRead(chain.error));
      }
      var data := Clusters(chain.value);
      return if data.Err? then Err(data.error) else Ok(Cut(data.value, size));
    }

    /** `read`. */
    method Read(path: Name) returns (r: Result<seq<byte>, Problem>)
      requires Mounted(disk)
      modifies this
      ensures r == ReadPath(disk, fold, path)
    {
      hide Mounted, TableOf, Walked, Content;
      var problems := new Log<Problem>();
      var out := Walk(problems);
      if out.Err? {
        return Err(out.error);
      }
      var key := fold(ROOT + Strip(path));
      assert out.value[0..] == out.value;
      for i := 0 to |out.value|
        invariant FirstNamed(fold, out.value, key) == FirstNamed(fold, out.value[i..], key)
      {
        var item := out.value[i];
        assert out.value[i..][0] == item && out.value[i..][1..] == out.value[i + 1..];
        if fold(item.path) == key {
          if item.isDir {
            return Err(IsADirectory(path));
          }
          r := ContentOf(item.first, item.size);
          return r;
        }
      }
      return Err(NotFound(path));
    }
  }
}
