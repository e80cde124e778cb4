/** FAT chains: the reader's chain follower, what it answers exactly, and how chains meet. */
module Chains {
  import opened Results
  import opened Report
  import opened Seqs

  /** A FAT as the reader sees it: one value a cluster, the end mark and the bad mark of its kind.
      Entries 0 and 1 are there, as they are on disk, but no cluster has these numbers. */
  datatype Table = Table(next: seq<nat>, eoc: nat, bad: nat) {

    predicate Holds(c: nat) {
      2 <= c < |next|
    }

    predicate Sane() {
      0 < bad < eoc
    }

    predicate Free(c: nat) {
      Holds(c) && next[c] == 0
    }

    predicate Bad(c: nat) {
      Holds(c) && next[c] == bad
    }

    predicate Used(c: nat) {
      Holds(c) && next[c] != 0 && next[c] != bad
    }

    /** `a`'s entry names the cluster `b`, whether or not there is one. */
    predicate Links(a: nat, b: nat) {
      Holds(a) && next[a] == b && b < eoc && b != 0 && b != bad
    }

    predicate Ends(c: nat) {
      Holds(c) && next[c] >= eoc
    }
  }

  /** The clusters met so far: all on the volume, none twice. */
  ghost predicate Met(t: Table, out: seq<nat>) {
    NoDup(out) && forall x :: x in out ==> t.Holds(x)
  }

  lemma MetBound(t: Table, out: seq<nat>)
    requires Met(t, out)
    ensures |out| <= |t.next|
    ensures 2 <= |t.next| ==> |out| <= |t.next| - 2
  {
    assert out != [] ==> t.Holds(out[0]);
    if 2 <= |t.next| {
      Pigeonhole(out, 2, |t.next|);
    }
  }

  /** The rest of a chain at `c`, `out` being the clusters before it. */
  ghost function Follow(t: Table, c: nat, out: seq<nat>): Result<seq<nat>, Fault>
    requires Met(t, out)
    decreases |t.next| - |out|
  {
    if !t.Holds(c) then Err(Outside(c))
    else if c in out then Err(LoopsBackTo(c))
    else
      MetBound(t, out + [c]);
      if t.next[c] >= t.eoc then Ok(out + [c])
      else if t.next[c] == 0 then Err(IntoFree(c))
      else if t.next[c] == t.bad then Err(IntoBad(c))
      else Follow(t, t.next[c], out + [c])
  }

  /** What the reader answers for the chain that starts at `first`. */
  ghost function Chain(t: Table, first: nat): Result<seq<nat>, Fault> {
    Follow(t, first, [])
  }

  // The reference: chains as paths in the table, with no follower and no memory of what was met.

  /** Each cluster of `s` is on the volume and its entry names the next. */
  ghost predicate Linked(t: Table, s: seq<nat>) {
    && (forall i :: 0 <= i < |s| ==> t.Holds(s[i]))
    && (forall i :: 0 < i < |s| ==> t.Links(s[i - 1], s[i]))
  }

  /** A finite path from `first` to an end mark. */
  ghost predicate IsChain(t: Table, first: nat, s: seq<nat>) {
    s != [] && s[0] == first && Linked(t, s) && t.Ends(s[|s| - 1])
  }

  /** Two chains that share a cluster share everything after it. */
  lemma {:induction false} SharedTail(t: Table, a: seq<nat>, b: seq<nat>, i: nat, j: nat)
    requires i < |a| && j < |b| && IsChain(t, a[0], a) && IsChain(t, b[0], b)
    requires a[i] == b[j]
    ensures a[i..] == b[j..]
    decreases |a| - i
  {
    if j + 1 < |b| {
      assert t.Links(b[j], b[j + 1]);
    }
    if i + 1 == |a| {
    } else {
      assert t.Links(a[i], a[i + 1]);
      SharedTail(t, a, b, i + 1, j + 1);
      assert a[i..] == [a[i]] + a[i + 1..];
      assert b[j..] == [b[j]] + b[j + 1..];
    }
  }

  /** A path that reaches an end mark visits no cluster twice: a cluster met twice would loop for ever. */
  lemma ChainNoDup(t: Table, first: nat, s: seq<nat>)
    requires IsChain(t, first, s)
    ensures NoDup(s) && Met(t, s)
  {
    forall i, j | 0 <= i < j < |s| ensures s[i] != s[j] {
      assert |s[i..]| > |s[j..]|;
      if s[i] == s[j] {
        SharedTail(t, s, s, i, j);
      }
    }
    forall x | x in s ensures t.Holds(x) {
      var i :| 0 <= i < |s| && s[i] == x;
    }
  }

  /** Following a linked stretch brings the follower to its last cluster, with the rest behind it. */
  lemma {:induction false} FollowAlong(t: Table, out: seq<nat>, p: seq<nat>)
    requires p != [] && Linked(t, p) && Met(t, out) && Met(t, out + p)
    ensures Met(t, out + p[..|p| - 1])
    ensures Follow(t, p[0], out) == Follow(t, p[|p| - 1], out + p[..|p| - 1])
    decreases |p|
  {
    if |p| == 1 {
      assert out + p[..0] == out;
    } else {
      assert (out + p)[|out|] == p[0];
      NoDupAppend(out, p);
      assert p[0] in Elems(p);
      assert p[0] !in out;
      assert t.Links(p[0], p[1]);
      assert out + [p[0]] + p[1..] == out + p;
      NoDupAppend(out + [p[0]], p[1..]);
      assert Linked(t, p[1..]) by {
        forall i | 0 < i < |p[1..]| ensures t.Links(p[1..][i - 1], p[1..][i]) {
          assert t.Links(p[i], p[i + 1]);
        }
      }
      FollowAlong(t, out + [p[0]], p[1..]);
      assert out + [p[0]] + p[1..][..|p| - 2] == out + p[..|p| - 1];
    }
  }

  /** Where a stretch ends decides the answer: the clusters met, and what the last entry says. */
  lemma FollowThrough(t: Table, p: seq<nat>)
    requires p != [] && Linked(t, p) && Met(t, p)
    ensures var last := p[|p| - 1];
      Chain(t, p[0]) ==
      if t.Ends(last) then Ok(p)
      else if t.next[last] == 0 then Err(IntoFree(last))
      else if t.next[last] == t.bad then Err(IntoBad(last))
      else if !t.Holds(t.next[last]) then Err(Outside(t.next[last]))
      else if t.next[last] in p then Err(LoopsBackTo(t.next[last]))
      else Follow(t, t.next[last], p)
  {
    assert [] + p == p;
    FollowAlong(t, [], p);
    var init := p[..|p| - 1];
    assert [] + init == init;
    assert p == init + [p[|p| - 1]];
    NoDupAppend(init, [p[|p| - 1]]);
    assert p[|p| - 1] in Elems([p[|p| - 1]]);
    assert p[|p| - 1] !in init;
  }

  /** An answered chain extends what was met by a path to an end mark. */
  lemma {:induction false} FollowSound(t: Table, c: nat, out: seq<nat>)
    requires Met(t, out) && Follow(t, c, out).Ok?
    ensures var s := Follow(t, c, out).value;
      |out| < |s| && s[..|out|] == out && IsChain(t, c, s[|out|..])
    decreases |t.next| - |out|
  {
    var s := Follow(t, c, out).value;
    if t.next[c] >= t.eoc {
      assert s[|out|..] == [c];
    } else {
      MetBound(t, out + [c]);
      FollowSound(t, t.next[c], out + [c]);
      var tail := s[|out| + 1..];
      assert s[..|out|] == s[..|out| + 1][..|out|] == out;
      assert s[|out|] == s[..|out| + 1][|out|] == c;
      assert s[|out|..] == [c] + tail;
      forall i | 0 < i < |[c] + tail| ensures t.Links(([c] + tail)[i - 1], ([c] + tail)[i]) {
        if i > 1 {
          assert t.Links(tail[i - 2], tail[i - 1]);
        }
      }
    }
  }

  /** The follower is exact: it answers `s` if and only if `s` is a finite path from `first` to an end mark. */
  lemma ChainExact(t: Table, first: nat, s: seq<nat>)
    ensures Chain(t, first) == Ok(s) <==> IsChain(t, first, s)
  {
    if Chain(t, first) == Ok(s) {
      FollowSound(t, first, []);
      assert s[0..] == s;
    }
    if IsChain(t, first, s) {
      ChainNoDup(t, first, s);
      FollowThrough(t, s);
    }
  }

  /** An answered chain is repeat-free, inside the data region, and never longer than there are clusters. */
  lemma ChainBound(t: Table, first: nat)
    requires t.Sane() && Chain(t, first).Ok?
    ensures var s := Chain(t, first).value;
      s != [] && s[0] == first && NoDup(s) && |s| <= |t.next| - 2 && forall x :: x in s ==> t.Used(x)
  {
    var s := Chain(t, first).value;
    ChainExact(t, first, s);
    ChainNoDup(t, first, s);
    MetBound(t, s);
    forall x | x in s ensures t.Used(x) {
      var i :| 0 <= i < |s| && s[i] == x;
      if i + 1 < |s| {
        assert t.Links(s[i], s[i + 1]);
      }
    }
  }
}
