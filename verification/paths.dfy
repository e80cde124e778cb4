/** The paths of a listing: distinct, even under case folding, and each below a directory listed before it. */
module Paths {
  import opened Results
  import opened Report
  import opened Seqs
  import opened Chains
  import opened Geometries
  import opened Directories
  import opened Walks
  import opened Ownership
  import opened Checks
  import opened Partition

  /** Case folding goes name by name: it keeps the slashes of a path, and makes none. */
  ghost predicate FoldsByName(fold: Fold) {
    && fold([]) == []
    && (forall dir, name :: fold(Join(dir, name)) == Join(fold(dir), fold(name)))
    && (forall name :: SLASH !in name ==> SLASH !in fold(name))
  }

  /** A name that a host's file system takes: not empty, and without a slash. */
  predicate PlainName(name: Name) {
    name != [] && SLASH !in name
  }

  predicate PlainNames(acts: seq<Action>) {
    forall i :: 0 <= i < |acts| && acts[i].List? ==> PlainName(acts[i].name)
  }

  function UntilSlash(s: Name): (r: Name)
    ensures |r| <= |s|
  {
    if s == [] || s[0] == SLASH then [] else [s[0]] + UntilSlash(s[1..])
  }

  predicate Below(dir: Name, q: Name) {
    dir + [SLASH] <= q
  }

  /** The first name of `q` below `dir`. */
  function HeadName(dir: Name, q: Name): Name
    requires Below(dir, q)
  {
    UntilSlash(q[|dir| + 1..])
  }

  lemma {:induction false} UntilSlashStops(n: Name, rest: Name)
    requires SLASH !in n && (rest == [] || rest[0] == SLASH)
    ensures UntilSlash(n + rest) == n
  {
    if n == [] {
      assert n + rest == rest;
    } else {
      assert (n + rest)[1..] == n[1..] + rest;
      UntilSlashStops(n[1..], rest);
    }
  }

  lemma HeadOfChild(dir: Name, n: Name)
    requires SLASH !in n
    ensures Below(dir, Join(dir, n)) && HeadName(dir, Join(dir, n)) == n
  {
    assert Join(dir, n)[|dir| + 1..] == n + [];
    UntilSlashStops(n, []);
  }

  lemma HeadOfDeeper(dir: Name, n: Name, q: Name)
    requires SLASH !in n && Below(Join(dir, n), q)
    ensures Below(dir, q) && HeadName(dir, q) == n && q != Join(dir, n)
  {
    var rest := q[|Join(dir, n)|..];
    assert q == Join(dir, n) + rest;
    assert rest[0] == SLASH by {
      assert (Join(dir, n) + [SLASH])[|Join(dir, n)|] == q[|Join(dir, n)|];
    }
    assert q[|dir| + 1..] == n + rest;
    UntilSlashStops(n, rest);
  }

  function Folded(fold: Fold, items: seq<Item>): (r: seq<Name>)
    ensures |r| == |items|
    ensures forall i :: 0 <= i < |r| ==> r[i] == fold(items[i].path)
  {
    seq(|items|, i requires 0 <= i < |items| => fold(items[i].path))
  }

  lemma FoldedAppend(fold: Fold, a: seq<Item>, b: seq<Item>)
    ensures Folded(fold, a + b) == Folded(fold, a) + Folded(fold, b)
  {
  }

  /** The folded paths below `dir` are distinct, and their first names are none of `names`. */
  ghost predicate Fresh(dir: Name, qs: seq<Name>, names: set<Name>) {
    NoDup(qs) && forall q :: q in qs ==> Below(dir, q) && HeadName(dir, q) !in names
  }

  /** One entry's paths, then the other entries'. */
  lemma FreshAppend(dir: Name, a: seq<Name>, b: seq<Name>, names: set<Name>, n: Name)
    requires Fresh(dir, a, names) && (forall q :: q in a ==> HeadName(dir, q) == n) && Fresh(dir, b, names + {n})
    ensures Fresh(dir, a + b, names)
  {
    hide Below, HeadName;
    assert forall q :: q in Elems(a) ==> q !in Elems(b);
    NoDupAppend(a, b);
  }

  /** An entry's own path, then the paths inside it. */
  lemma FreshInside(dir: Name, n: Name, own: bool, inner: seq<Name>, names: set<Name>)
    requires SLASH !in n && n !in names && NoDup(inner) && forall q :: q in inner ==> Below(Join(dir, n), q)
    ensures var qs := (if own then [Join(dir, n)] else []) + inner;
      Fresh(dir, qs, names) && forall q :: q in qs ==> HeadName(dir, q) == n
  {
    HeadOfChild(dir, n);
    var me := if own then [Join(dir, n)] else [];
    forall q | q in inner ensures Below(dir, q) && HeadName(dir, q) == n && q != Join(dir, n) {
      HeadOfDeeper(dir, n, q);
    }
    hide Below, HeadName;
    assert forall q :: q in Elems(me) ==> q !in Elems(inner);
    NoDupAppend(me, inner);
  }

  lemma NoNotesParts(a: seq<Action>, b: seq<Action>)
    requires NoNotes(a + b)
    ensures NoNotes(a) && NoNotes(b)
  {
    assert forall i :: 0 <= i < |a| ==> a[i] == (a + b)[i];
    assert forall i :: 0 <= i < |b| ==> b[i] == (a + b)[|a| + i];
  }

  lemma PlainParts(a: seq<Action>, b: seq<Action>)
    requires PlainNames(a + b)
    ensures PlainNames(a) && PlainNames(b)
  {
    assert forall i :: 0 <= i < |a| ==> a[i] == (a + b)[i];
    assert forall i :: 0 <= i < |b| ==> b[i] == (a + b)[|a| + i];
  }

  /** What an entry lists: itself, if it is there to be listed. */
  lemma EntryListed(t: Table, fold: Fold, p: Place, seen: Seen, e: Entry)
    requires var acts := EntryActions(t, fold, p, seen, e); NoNotes(acts) && PlainNames(acts)
    ensures var items := Listed(EntryActions(t, fold, p, seen, e));
      && |items| <= 1 && (IsDots(e) ==> items == [])
      && (items != [] ==> items[0].path == Join(p.path, e.name) && PlainName(e.name) && items[0].isDir == e.IsDir())
      && (Enters(t, e) ==> items != [])
      && (items != [] ==> fold(e.name) !in seen.names)
  {
    hide Chain;
    var acts := EntryActions(t, fold, p, seen, e);
    if !IsDots(e) {
      var full := Join(p.path, e.name);
      var second := if fold(e.name) in seen.names then [Note(SecondOfName(full))] else [];
      var more := if e.IsDir() then DirActions(t, p.path, e) else FileActions(p.path, e);
      assert acts == [Stamp(full, e.mtime)] + second + more;
      HasNote([Stamp(full, e.mtime)], SecondOfName(full), more);
      assert acts == [Stamp(full, e.mtime)] + more;
      NoNotesParts([Stamp(full, e.mtime)], more);
      PlainParts([Stamp(full, e.mtime)], more);
      ListedAppend([Stamp(full, e.mtime)], more);
      assert Listed([Stamp(full, e.mtime)]) == [] + Listed([]);
      MoreListed(t, p.path, e);
    } else {
      DotsListed(p, e);
    }
  }

  lemma HasNote(a: seq<Action>, problem: Problem, b: seq<Action>)
    ensures !NoNotes(a + [Note(problem)] + b)
  {
    assert (a + [Note(problem)] + b)[|a|].Note?;
  }

  lemma DotsListed(p: Place, e: Entry)
    ensures Listed(DotActions(p, e)) == []
  {
  }

  lemma MoreListed(t: Table, dir: Name, e: Entry)
    requires var more := if e.IsDir() then DirActions(t, dir, e) else FileActions(dir, e);
      NoNotes(more) && PlainNames(more)
    ensures var items := Listed(if e.IsDir() then DirActions(t, dir, e) else FileActions(dir, e));
      && |items| <= 1
      && (items != [] ==> items[0].path == Join(dir, e.name) && PlainName(e.name) && items[0].isDir == e.IsDir())
      && (Enters(t, e) ==> items != [])
  {
    hide Chain;
    if e.IsDir() {
      DirListed(t, dir, e);
    } else {
      FileListed(dir, e);
    }
  }

  lemma DirListed(t: Table, dir: Name, e: Entry)
    requires NoNotes(DirActions(t, dir, e)) && PlainNames(DirActions(t, dir, e))
    ensures var items := Listed(DirActions(t, dir, e));
      && |items| <= 1
      && (items != [] ==> items[0] == Item(Join(dir, e.name), true, e.first, 0) && PlainName(e.name))
      && (e.first != 0 && Chain(t, e.first).Ok? ==> items != [])
  {
    hide Chain;
    var acts := DirActions(t, dir, e);
    var full := Join(dir, e.name);
    var rest := if e.first == 0 then [Note(DirectoryNoCluster(full))]
                else [Claim(full, e.first, None)]
                     + if Chain(t, e.first).Ok? then [List(dir, e.name, true, e.first, 0)] else [];
    assert [] + [Note(DirectoryNoCluster(full))] + [] == [Note(DirectoryNoCluster(full))];
    assert acts == (if e.size != 0 then [] + [Note(DirectorySize(full, e.size))] else []) + rest;
    if e.size != 0 {
      HasNote([], DirectorySize(full, e.size), rest);
    } else if e.first == 0 {
      HasNote([], DirectoryNoCluster(full), []);
    } else {
      var claim, list := Claim(Join(dir, e.name), e.first, None), List(dir, e.name, true, e.first, 0);
      var listed := if Chain(t, e.first).Ok? then [list] else [];
      assert acts == [claim] + listed;
      ListedAppend([claim], listed);
      assert Listed([claim]) == [] + Listed([]);
      assert listed != [] ==> acts[1] == list;
      assert listed != [] ==> Listed(listed) == [Item(Join(dir, e.name), true, e.first, 0)] + Listed(listed[1..]);
    }
  }

  lemma FileListed(dir: Name, e: Entry)
    requires PlainNames(FileActions(dir, e))
    ensures Listed(FileActions(dir, e)) == [Item(Join(dir, e.name), false, e.first, e.size)] && PlainName(e.name)
  {
    var acts := FileActions(dir, e);
    assert acts[0] == List(dir, e.name, false, e.first, e.size);
    var rest := acts[1..];
    assert |rest| <= 1 && (rest != [] ==> !rest[0].List?);
    assert rest != [] ==> Listed(rest) == [] + Listed(rest[1..]);
    assert Listed(rest) == [];
  }

  lemma {:induction false} VisitFresh(d: Disk, fold: Fold, p: Place)
    requires Mounted(d) && FoldsByName(fold) && Visit(d, fold, p).Ok?
    requires NoNotes(Visit(d, fold, p).value) && PlainNames(Visit(d, fold, p).value)
    ensures Fresh(fold(p.path), Folded(fold, Listed(Visit(d, fold, p).value)), {})
    decreases if p.depth > MAX_DEPTH then 0 else MAX_DEPTH + 1 - p.depth, 1, 0
  {
    hide Mounted, Events, Scan, TableOf, FoldsByName, Fresh, NoNotes, PlainNames;
    if p.depth > MAX_DEPTH {
      TooDeepNotes(p);
    } else {
      ScanFresh(d, fold, p, Events(d, p.first, Where(p.path)).value, NOTHING);
    }
  }

  lemma TooDeepNotes(p: Place)
    ensures !NoNotes([Note(TooDeep(p.path))])
  {
    assert [Note(TooDeep(p.path))][0].Note?;
  }

  lemma {:induction false} ScanFresh(d: Disk, fold: Fold, p: Place, events: seq<Event>, seen: Seen)
    requires Mounted(d) && FoldsByName(fold) && p.depth <= MAX_DEPTH && Scan(d, fold, p, events, seen).Ok?
    requires NoNotes(Scan(d, fold, p, events, seen).value) && PlainNames(Scan(d, fold, p, events, seen).value)
    ensures Fresh(fold(p.path), Folded(fold, Listed(Scan(d, fold, p, events, seen).value)), seen.names)
    decreases MAX_DEPTH + 1 - p.depth, 0, |events|
  {
    hide Mounted, TableOf, EntryActions, Enters, Visit, SeeEntry, FoldsByName, Fresh, NoNotes, PlainNames, Folded;
    var t := TableOf(d);
    if events == [] {
      LastListed(fold, p, seen);
    } else if events[0].Flaw? {
      var rest := Scan(d, fold, p, events[1..], seen);
      FlawNotes(events[0].problem, rest.value);
    } else {
      var e := events[0].entry;
      var inner := if Enters(t, e) then Visit(d, fold, Inside(p, e)) else Ok([]);
      var rest := Scan(d, fold, p, events[1..], SeeEntry(fold, seen, e));
      var mine := EntryActions(t, fold, p, seen, e);
      NoNotesParts(mine + inner.value, rest.value);
      NoNotesParts(mine, inner.value);
      PlainParts(mine + inner.value, rest.value);
      PlainParts(mine, inner.value);
      if Enters(t, e) {
        VisitFresh(d, fold, Inside(p, e));
      }
      ScanFresh(d, fold, p, events[1..], SeeEntry(fold, seen, e));
      EntryFresh(t, fold, p, seen, e, inner.value, rest.value);
    }
  }

  lemma LastListed(fold: Fold, p: Place, seen: Seen)
    ensures Fresh(fold(p.path), Folded(fold, Listed(LastActions(p, seen))), seen.names)
  {
    assert Listed(LastActions(p, seen)) == [];
  }

  lemma FlawNotes(problem: Problem, rest: seq<Action>)
    ensures !NoNotes([Note(problem)] + rest)
  {
    assert ([Note(problem)] + rest)[0].Note?;
  }

  lemma EntryFresh(t: Table, fold: Fold, p: Place, seen: Seen, e: Entry, inner: seq<Action>, rest: seq<Action>)
    requires FoldsByName(fold)
    requires var mine := EntryActions(t, fold, p, seen, e); NoNotes(mine) && PlainNames(mine)
    requires if Enters(t, e) then Fresh(fold(Join(p.path, e.name)), Folded(fold, Listed(inner)), {}) else inner == []
    requires Fresh(fold(p.path), Folded(fold, Listed(rest)), SeeEntry(fold, seen, e).names)
    ensures Fresh(fold(p.path), Folded(fold, Listed(EntryActions(t, fold, p, seen, e) + inner + rest)), seen.names)
  {
    EntryListed(t, fold, p, seen, e);
    hide EntryActions, Chain, HeadName, Below;
    var mine := EntryActions(t, fold, p, seen, e);
    ListedAppend(mine + inner, rest);
    ListedAppend(mine, inner);
    FoldedAppend(fold, Listed(mine) + Listed(inner), Listed(rest));
    FoldedAppend(fold, Listed(mine), Listed(inner));
    var dir, more := fold(p.path), Folded(fold, Listed(rest));
    var qs := Folded(fold, Listed(mine)) + Folded(fold, Listed(inner));
    if Listed(mine) == [] {
      assert Listed(inner) == [];
      assert qs + more == more;
      FreshFewer(dir, more, seen.names, SeeEntry(fold, seen, e).names);
    } else {
      var n := fold(e.name);
      assert Folded(fold, Listed(mine)) == [Join(dir, n)];
      FreshInside(dir, n, true, Folded(fold, Listed(inner)), seen.names);
      FreshAppend(dir, qs, more, seen.names, n);
    }
  }

  lemma FreshFewer(dir: Name, qs: seq<Name>, names: set<Name>, more: set<Name>)
    requires Fresh(dir, qs, more) && names <= more
    ensures Fresh(dir, qs, names)
  {
  }

  /** When the walk notes nothing, all listed paths are distinct, even with their case folded away. */
  lemma ListingDistinct(d: Disk, fold: Fold)
    requires Mounted(d) && FoldsByName(fold) && WalkActions(d, fold).Ok?
    requires NoNotes(WalkActions(d, fold).value) && PlainNames(WalkActions(d, fold).value)
    ensures NoDup(Folded(fold, Listed(WalkActions(d, fold).value)))
  {
    hide Mounted, TableOf, Visit, FoldsByName, NoNotes, PlainNames, Chain, Below, HeadName;
    if d.g.kind.Fat16? {
      VisitFresh(d, fold, TopPlace());
    } else {
      var claim := [Claim(ROOT, d.g.rootCluster, None)];
      assert Listed(claim) == [] + Listed([]);
      if Chain(TableOf(d), d.g.rootCluster).Ok? {
        var rest := Visit(d, fold, TopPlace()).value;
        NoNotesParts(claim, rest);
        PlainParts(claim, rest);
        ListedAppend(claim, rest);
        VisitFresh(d, fold, TopPlace());
        assert [] + Listed(rest) == Listed(rest);
      }
    }
  }

  // Parents.

  /** The directory part of a path: what stands before its last slash. */
  function Parent(path: Name): (r: Name)
    ensures |r| <= |path|
  {
    if path == [] then []
    else if path[|path| - 1] == SLASH then path[..|path| - 1]
    else Parent(path[..|path| - 1])
  }

  lemma {:induction false} ParentOfJoin(dir: Name, name: Name)
    requires SLASH !in name
    ensures Parent(Join(dir, name)) == dir
  {
    var path := Join(dir, name);
    if name == [] {
      assert path[..|path| - 1] == dir;
    } else {
      assert path[|path| - 1] == name[|name| - 1];
      assert path[..|path| - 1] == Join(dir, name[..|name| - 1]);
      ParentOfJoin(dir, name[..|name| - 1]);
    }
  }

  ghost predicate ListedBefore(items: seq<Item>, i: nat, dir: Name)
    requires i <= |items|
  {
    exists j :: 0 <= j < i && items[j].isDir && items[j].path == dir
  }

  /** Every item is in `base`, or in a directory listed before it. */
  ghost predicate Rooted(base: Name, items: seq<Item>) {
    forall i :: 0 <= i < |items| ==>
      Parent(items[i].path) == base || ListedBefore(items, i, Parent(items[i].path))
  }

  lemma ListedBeforeMore(a: seq<Item>, b: seq<Item>, i: nat, dir: Name)
    requires i <= |a| && ListedBefore(a, i, dir)
    ensures forall k :: i <= k <= |a + b| ==> ListedBefore(a + b, k, dir)
  {
    var j :| 0 <= j < i && a[j].isDir && a[j].path == dir;
    assert (a + b)[j] == a[j];
  }

  lemma ListedBeforeLater(a: seq<Item>, b: seq<Item>, i: nat, dir: Name)
    requires i <= |b| && ListedBefore(b, i, dir)
    ensures ListedBefore(a + b, |a| + i, dir)
  {
    var j :| 0 <= j < i && b[j].isDir && b[j].path == dir;
    assert (a + b)[|a| + j] == b[j];
  }

  lemma RootedAppend(base: Name, a: seq<Item>, b: seq<Item>, inside: Name)
    requires Rooted(base, a) && Rooted(inside, b) && (inside == base || ListedBefore(a, |a|, inside))
    ensures Rooted(base, a + b)
  {
    hide ListedBefore, Parent;
    var all := a + b;
    forall i | 0 <= i < |all|
      ensures Parent(all[i].path) == base || ListedBefore(all, i, Parent(all[i].path))
    {
      if i < |a| {
        assert all[i] == a[i];
        if Parent(a[i].path) != base {
          ListedBeforeMore(a, b, i, Parent(a[i].path));
        }
      } else {
        var k := i - |a|;
        assert all[i] == b[k];
        if Parent(b[k].path) != inside {
          ListedBeforeLater(a, b, k, Parent(b[k].path));
        } else if inside != base {
          ListedBeforeMore(a, b, |a|, inside);
        }
      }
    }
  }

  lemma {:induction false} VisitRooted(d: Disk, fold: Fold, p: Place)
    requires Mounted(d) && Visit(d, fold, p).Ok?
    requires NoNotes(Visit(d, fold, p).value) && PlainNames(Visit(d, fold, p).value)
    ensures Rooted(p.path, Listed(Visit(d, fold, p).value))
    decreases if p.depth > MAX_DEPTH then 0 else MAX_DEPTH + 1 - p.depth, 1, 0
  {
    hide Mounted, Events, Scan, TableOf, NoNotes, PlainNames, Rooted;
    if p.depth > MAX_DEPTH {
      TooDeepNotes(p);
    } else {
      ScanRooted(d, fold, p, Events(d, p.first, Where(p.path)).value, NOTHING);
    }
  }

  lemma {:induction false} ScanRooted(d: Disk, fold: Fold, p: Place, events: seq<Event>, seen: Seen)
    requires Mounted(d) && p.depth <= MAX_DEPTH && Scan(d, fold, p, events, seen).Ok?
    requires NoNotes(Scan(d, fold, p, events, seen).value) && PlainNames(Scan(d, fold, p, events, seen).value)
    ensures Rooted(p.path, Listed(Scan(d, fold, p, events, seen).value))
    decreases MAX_DEPTH + 1 - p.depth, 0, |events|
  {
    hide Mounted, TableOf, EntryActions, Enters, Visit, SeeEntry, Rooted, NoNotes, PlainNames;
    var t := TableOf(d);
    if events == [] {
      assert Listed(LastActions(p, seen)) == [];
      RootedNone(p.path);
    } else if events[0].Flaw? {
      FlawNotes(events[0].problem, Scan(d, fold, p, events[1..], seen).value);
    } else {
      var e := events[0].entry;
      var inner := if Enters(t, e) then Visit(d, fold, Inside(p, e)) else Ok([]);
      var rest := Scan(d, fold, p, events[1..], SeeEntry(fold, seen, e));
      var mine := EntryActions(t, fold, p, seen, e);
      NoNotesParts(mine + inner.value, rest.value);
      NoNotesParts(mine, inner.value);
      PlainParts(mine + inner.value, rest.value);
      PlainParts(mine, inner.value);
      if Enters(t, e) {
        VisitRooted(d, fold, Inside(p, e));
      }
      ScanRooted(d, fold, p, events[1..], SeeEntry(fold, seen, e));
      EntryRooted(t, fold, p, seen, e, inner.value);
      ListedAppend(mine + inner.value, rest.value);
      RootedAppend(p.path, Listed(mine + inner.value), Listed(rest.value), p.path);
    }
  }

  lemma RootedNone(base: Name)
    ensures Rooted(base, [])
  {
  }

  lemma EntryRooted(t: Table, fold: Fold, p: Place, seen: Seen, e: Entry, inner: seq<Action>)
    requires var mine := EntryActions(t, fold, p, seen, e); NoNotes(mine) && PlainNames(mine)
    requires if Enters(t, e) then Rooted(Join(p.path, e.name), Listed(inner)) else inner == []
    ensures Rooted(p.path, Listed(EntryActions(t, fold, p, seen, e) + inner))
  {
    EntryListed(t, fold, p, seen, e);
    EnterIsDir(t, e);
    hide EntryActions, Chain, Enters, Rooted, Parent, Join, NoNotes, PlainNames;
    var items := Listed(EntryActions(t, fold, p, seen, e));
    ListedAppend(EntryActions(t, fold, p, seen, e), inner);
    ParentOfEntry(p.path, e.name);
    assert inner == [] ==> Listed(inner) == [];
    hide Listed;
    OwnAndInside(p.path, items, Listed(inner), Join(p.path, e.name));
  }

  lemma ParentOfEntry(dir: Name, name: Name)
    ensures PlainName(name) ==> Parent(Join(dir, name)) == dir
  {
    hide Parent;
    if PlainName(name) {
      ParentOfJoin(dir, name);
    }
  }

  /** An entry's own item, and the items inside it. */
  lemma OwnAndInside(base: Name, items: seq<Item>, inner: seq<Item>, dir: Name)
    requires |items| <= 1 && (items == [] ==> inner == [])
    requires items != [] ==> Parent(items[0].path) == base
    requires inner != [] ==> items[0].isDir && items[0].path == dir && Rooted(dir, inner)
    ensures Rooted(base, items + inner)
  {
    hide Parent;
    if inner == [] {
      assert items + inner == items;
    } else {
      assert ListedBefore(items, |items|, dir);
      RootedAppend(base, items, inner, dir);
    }
  }

  lemma EnterIsDir(t: Table, e: Entry)
    ensures Enters(t, e) ==> e.IsDir()
  {
  }

  lemma ListingRooted(d: Disk, fold: Fold)
    requires Mounted(d) && WalkActions(d, fold).Ok?
    requires NoNotes(WalkActions(d, fold).value) && PlainNames(WalkActions(d, fold).value)
    ensures Rooted([], Listed(WalkActions(d, fold).value))
  {
    hide Mounted, TableOf, Visit, NoNotes, PlainNames, Chain, Rooted;
    RootedNone([]);
    if d.g.kind.Fat16? {
      VisitRooted(d, fold, TopPlace());
    } else {
      var claim := [Claim(ROOT, d.g.rootCluster, None)];
      assert Listed(claim) == [] + Listed([]);
      if Chain(TableOf(d), d.g.rootCluster).Ok? {
        var rest := Visit(d, fold, TopPlace()).value;
        NoNotesParts(claim, rest);
        PlainParts(claim, rest);
        ListedAppend(claim, rest);
        VisitRooted(d, fold, TopPlace());
        assert [] + Listed(rest) == Listed(rest);
      }
    }
  }

  // The listing of a clean walk.

  /** A walk that reports nothing, over names that a host's file system takes. */
  ghost predicate CleanWalk(d: Disk, fold: Fold, out: seq<Item>, acts: seq<Action>) {
    && Mounted(d) && FoldsByName(fold) && WalkActions(d, fold) == Ok(acts) && PlainNames(acts)
    && Walked(d, fold, []).Ok? && Walked(d, fold, []).value.problems == [] && out == Walked(d, fold, []).value.out
  }

  /** When the walk reports nothing: all listed paths differ, even with their case folded away; each item is in
      the root or in a directory listed before it; no two directories begin at the same cluster, so that each
      is visited once; and every chain fits its item. */
  lemma CleanWalkTree(d: Disk, fold: Fold, out: seq<Item>, acts: seq<Action>)
    requires CleanWalk(d, fold, out, acts)
    ensures 0 < d.g.ClusterBytes() && Listed(acts) == out
    ensures NoDup(Folded(fold, out)) && Rooted([], out) && AllFit(TableOf(d), d.g.ClusterBytes(), out)
    ensures forall i, j :: 0 <= i < j < |out| && out[i].isDir && out[j].isDir ==> out[i].first != out[j].first
    ensures d.g.kind.Fat32? ==> forall i :: 0 <= i < |out| && out[i].isDir ==> out[i].first != d.g.rootCluster
  {
    hide Mounted, TableOf, FoldsByName, PlainNames, WalkActions, Replay, AllSound, Held, Folded, Rooted, AllFit,
         NoNotes, Chain, Holders;
    BytesPositive(d);
    ReplayExact(TableOf(d), d.g.ClusterBytes(), Start([]), acts);
    assert Start([]).out + Listed(acts) == Listed(acts);
    ClaimsSound(TableOf(d), d.g.ClusterBytes(), acts);
    ListingDistinct(d, fold);
    ListingRooted(d, fold);
    WalkMatched(d, fold);
    forall i, j | 0 <= i < j < |out| && out[i].isDir && out[j].isDir ensures out[i].first != out[j].first {
      DirectoriesApart(d, out, i, j);
    }
    forall i | 0 <= i < |out| && out[i].isDir && d.g.kind.Fat32? ensures out[i].first != d.g.rootCluster {
      DirectoryNotRoot(d, out, i);
    }
  }

  lemma DirectoriesApart(d: Disk, out: seq<Item>, i: nat, j: nat)
    requires Mounted(d) && 0 < d.g.ClusterBytes() && AllFit(TableOf(d), d.g.ClusterBytes(), out)
    requires NoDup(Flatten(Holders(d, out))) && i < j < |out| && out[i].isDir && out[j].isDir
    ensures out[i].first != out[j].first
  {
    hide Mounted, TableOf, AllFit, Chain, Holders;
    var k := if d.g.kind.Fat32? && Chain(TableOf(d), d.g.rootCluster).Ok? then 1 else 0;
    DirectoryHolds(d, out, i, k);
    DirectoryHolds(d, out, j, k);
    if out[i].first == out[j].first {
      FlattenApart(Holders(d, out), k + i, k + j, out[i].first);
    }
  }

  lemma DirectoryNotRoot(d: Disk, out: seq<Item>, i: nat)
    requires Mounted(d) && 0 < d.g.ClusterBytes() && AllFit(TableOf(d), d.g.ClusterBytes(), out)
    requires NoDup(Flatten(Holders(d, out))) && i < |out| && out[i].isDir
    requires d.g.kind.Fat32? && Chain(TableOf(d), d.g.rootCluster).Ok?
    ensures out[i].first != d.g.rootCluster
  {
    hide Mounted, TableOf, AllFit, Chain, Holders;
    DirectoryHolds(d, out, i, 1);
    RootHolds(d, out);
    if out[i].first == d.g.rootCluster {
      FlattenApart(Holders(d, out), 1 + i, 0, out[i].first);
    }
  }

  lemma DirectoryHolds(d: Disk, out: seq<Item>, i: nat, k: nat)
    requires Mounted(d) && 0 < d.g.ClusterBytes() && AllFit(TableOf(d), d.g.ClusterBytes(), out)
    requires i < |out| && out[i].isDir
    requires k == if d.g.kind.Fat32? && Chain(TableOf(d), d.g.rootCluster).Ok? then 1 else 0
    ensures k + i < |Holders(d, out)| && out[i].first in Holders(d, out)[k + i]
  {
    hide Mounted, TableOf, Follow, Holders;
    assert Fits(TableOf(d), d.g.ClusterBytes(), out[i]);
    HolderAt(d, out, i, k);
    BytesPositive(d);
    ChainBound(TableOf(d), out[i].first);
  }

  lemma RootHolds(d: Disk, out: seq<Item>)
    requires Mounted(d) && d.g.kind.Fat32? && Chain(TableOf(d), d.g.rootCluster).Ok?
    ensures 0 < |Holders(d, out)| && d.g.rootCluster in Holders(d, out)[0]
  {
    hide Mounted, TableOf, Follow;
    BytesPositive(d);
    ChainBound(TableOf(d), d.g.rootCluster);
  }
}
