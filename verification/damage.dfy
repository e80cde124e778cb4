/** Damage to a clean volume, and what the walk reports of it. Each damage changes the entry of one cluster of
    one file's chain; the directories, and so the entries the walk comes to, stay as they were. */
module Damages {
  import opened Results
  import opened Report
  import opened Seqs
  import opened Chains
  import opened Walks
  import opened Ownership
  import opened Rewrites
  import opened Partition

  // Only claims matter to the owners and the problems.

  lemma {:induction false} TakeHolding(s: State, s': State, path: Name, chain: seq<nat>, n: nat)
    requires n <= |chain| && s.owner == s'.owner && s.problems == s'.problems
    ensures Take(s, path, chain, n).owner == Take(s', path, chain, n).owner
    ensures Take(s, path, chain, n).problems == Take(s', path, chain, n).problems
  {
    if n == 0 {
    } else {
      TakeHolding(s, s', path, chain, n - 1);
    }
  }

  lemma StepHolding(t: Table, clusterBytes: nat, s: State, s': State, a: Action)
    requires 0 < clusterBytes && s.owner == s'.owner && s.problems == s'.problems && !a.Note?
    ensures var r, r' := Step(t, clusterBytes, s, a), if a.Claim? then Step(t, clusterBytes, s', a) else s';
      r.owner == r'.owner && r.problems == r'.problems
  {
    hide Chain, Take;
    if a.Claim? && Chain(t, a.start).Ok? {
      var chain := Chain(t, a.start).value;
      TakeHolding(s, s', a.path, chain, |chain|);
    }
  }

  /** Without notes, the claims alone decide the owners and the problems. */
  lemma {:induction false} ClaimsDecide(t: Table, clusterBytes: nat, s: State, s': State, acts: seq<Action>)
    requires 0 < clusterBytes && NoNotes(acts) && s.owner == s'.owner && s.problems == s'.problems
    ensures var r, r' := Replay(t, clusterBytes, s, acts), Replay(t, clusterBytes, s', Claims(acts));
      r.owner == r'.owner && r.problems == r'.problems
    decreases |acts|
  {
    hide Step;
    if acts == [] {
    } else {
      var a, rest := acts[0], acts[1..];
      StepHolding(t, clusterBytes, s, s', a);
      if a.Claim? {
        assert Claims(acts)[1..] == Claims(rest);
        ClaimsDecide(t, clusterBytes, Step(t, clusterBytes, s, a), Step(t, clusterBytes, s', a), rest);
      } else {
        assert Claims(acts) == Claims(rest);
        ClaimsDecide(t, clusterBytes, Step(t, clusterBytes, s, a), s', rest);
      }
    }
  }

  // One claim among others.

  /** The claims around a damaged one: sound, and holding nothing twice. */
  ghost predicate Around(t: Table, clusterBytes: nat, pre: seq<Action>, post: seq<Action>, held: seq<nat>)
    requires 0 < clusterBytes
  {
    && AllSound(t, clusterBytes, pre) && AllSound(t, clusterBytes, post)
    && NoDup(Held(t, pre) + held + Held(t, post))
  }

  lemma NoDupThree<T>(a: seq<T>, b: seq<T>, c: seq<T>)
    ensures NoDup(a + b + c) <==>
      && NoDup(a) && NoDup(b) && NoDup(c) && Elems(a) !! Elems(b) && Elems(a) !! Elems(c) && Elems(b) !! Elems(c)
  {
    NoDupAppend(a + b, c);
    NoDupAppend(a, b);
    ElemsAppend(a, b);
  }

  /** What one claim adds to the problems and the owners is all that the walk adds. */
  lemma Middle(t: Table, clusterBytes: nat, head: seq<Problem>, pre: seq<Action>, a: Action, post: seq<Action>,
               held: seq<nat>, more: seq<Problem>)
    requires 0 < clusterBytes && t.Sane() && Around(t, clusterBytes, pre, post, held)
    requires var s := Replay(t, clusterBytes, Start(head), pre);
      var r := Step(t, clusterBytes, s, a);
      r.problems == s.problems + more && r.owner.Keys == s.owner.Keys + Elems(held)
    ensures var r := Replay(t, clusterBytes, Start(head), pre + [a] + post);
      && r.problems == head + more
      && r.owner.Keys == Elems(Held(t, pre) + held + Held(t, post))
  {
    hide Step, AllSound, Held;
    NoDupThree(Held(t, pre), held, Held(t, post));
    ReplayExact(t, clusterBytes, Start(head), pre);
    var s := Replay(t, clusterBytes, Start(head), pre);
    var r := Step(t, clusterBytes, s, a);
    ReplayAppend(t, clusterBytes, Start(head), pre + [a], post);
    ReplayAppend(t, clusterBytes, Start(head), pre, [a]);
    assert [a][1..] == [];
    assert Replay(t, clusterBytes, s, [a]) == r;
    ReplayExact(t, clusterBytes, r, post);
    ElemsAppend(Held(t, pre) + held, Held(t, post));
    ElemsAppend(Held(t, pre), held);
  }

  /** A claim whose chain is broken: one problem, and its clusters go unheld. */
  lemma BrokenClaim(t: Table, clusterBytes: nat, head: seq<Problem>, pre: seq<Action>, a: Action, post: seq<Action>,
                    fault: Fault)
    requires 0 < clusterBytes && t.Sane() && Around(t, clusterBytes, pre, post, [])
    requires a.Claim? && Chain(t, a.start) == Err(fault)
    ensures var r := Replay(t, clusterBytes, Start(head), pre + [a] + post);
      r.problems == head + [Broken(a.path, fault)] && r.owner.Keys == Elems(Held(t, pre) + Held(t, post))
  {
    hide Replay, AllSound, Held, Chain, Take;
    assert Held(t, pre) + [] + Held(t, post) == Held(t, pre) + Held(t, post);
    Middle(t, clusterBytes, head, pre, a, post, [], [Broken(a.path, fault)]);
  }

  /** A claim whose chain does not fit its size: one problem, and it holds what it has. */
  lemma MisfitClaim(t: Table, clusterBytes: nat, head: seq<Problem>, pre: seq<Action>, a: Action, post: seq<Action>,
                    held: seq<nat>)
    requires 0 < clusterBytes && t.Sane() && Around(t, clusterBytes, pre, post, held)
    requires a.Claim? && a.bytes.Some? && Chain(t, a.start) == Ok(held)
    requires |held| != ClustersFor(a.bytes.value, clusterBytes)
    ensures var r := Replay(t, clusterBytes, Start(head), pre + [a] + post);
      && r.problems == head + [SizeMismatch(a.path, a.bytes.value, ClustersFor(a.bytes.value, clusterBytes), |held|)]
      && r.owner.Keys == Elems(Held(t, pre) + held + Held(t, post))
  {
    hide Replay, AllSound, Held, Chain, Take, ClustersFor;
    NoDupThree(Held(t, pre), held, Held(t, post));
    ReplayExact(t, clusterBytes, Start(head), pre);
    var s := Replay(t, clusterBytes, Start(head), pre);
    TakeExact(s, a.path, held, |held|);
    assert held[..|held|] == held;
    CrossingsNone(a.path, held, |held|, s.owner);
    Middle(t, clusterBytes, head, pre, a, post, held,
           [SizeMismatch(a.path, a.bytes.value, ClustersFor(a.bytes.value, clusterBytes), |held|)]);
  }

  // The chains after one entry is changed.

  /** What stops a chain whose `p[j]` now says `value`, if anything does before another chain or an end. */
  function FaultOf(t: Table, p: seq<nat>, j: nat, value: nat): Option<Fault>
    requires j < |p|
  {
    if value >= t.eoc then None
    else if value == 0 then Some(IntoFree(p[j]))
    else if value == t.bad then Some(IntoBad(p[j]))
    else if !t.Holds(value) then Some(Outside(value))
    else if value in p[..j + 1] then Some(LoopsBackTo(value))
    else if t.Free(value) then Some(IntoFree(value))
    else if t.Bad(value) then Some(IntoBad(value))
    else None
  }

  /** A chain up to the cluster whose entry is changed is still there. */
  lemma KeptPart(t: Table, p: seq<nat>, j: nat, value: nat)
    requires p != [] && IsChain(t, p[0], p) && j < |p|
    ensures t.Holds(p[j])
    ensures var t', q := Changed(t, p[j], value), p[..j + 1];
      Linked(t', q) && Met(t', q) && q[0] == p[0] && q[|q| - 1] == p[j]
  {
    ChainNoDup(t, p[0], p);
    var t', q := Changed(t, p[j], value), p[..j + 1];
    forall i | 0 < i < |q| ensures t'.Links(q[i - 1], q[i]) {
      assert t.Links(p[i - 1], p[i]);
      assert p[i - 1] != p[j];
    }
    assert forall x :: x in q ==> x in p;
  }

  /** The entry of `p[j]` now says `value`: the chain ends there, or is broken by the fault that the value makes. */
  lemma ChainDamaged(t: Table, p: seq<nat>, j: nat, value: nat)
    requires p != [] && IsChain(t, p[0], p) && j < |p| && t.Sane()
    ensures t.Holds(p[j])
    ensures var t' := Changed(t, p[j], value);
      && (value >= t.eoc ==> Chain(t', p[0]) == Ok(p[..j + 1]))
      && (FaultOf(t, p, j, value).Some? ==> Chain(t', p[0]) == Err(FaultOf(t, p, j, value).value))
  {
    KeptPart(t, p, j, value);
    ChainNoDup(t, p[0], p);
    var t', q := Changed(t, p[j], value), p[..j + 1];
    hide Linked;
    FollowThrough(t', q);
    if FaultOf(t, p, j, value).Some? && t.Holds(value) && value != t.bad && value !in q {
      assert t'.next[value] == t.next[value];
      assert Follow(t', value, q) == Err(if t.next[value] == 0 then IntoFree(value) else IntoBad(value));
    }
  }

  /** The entry of `p[j]` now names `b[k]`: what is left of `p` runs on into the rest of `b`. */
  lemma ChainCrossed(t: Table, p: seq<nat>, j: nat, b: seq<nat>, k: nat)
    requires p != [] && b != [] && IsChain(t, p[0], p) && IsChain(t, b[0], b) && Elems(p) !! Elems(b)
    requires j < |p| && k < |b| && b[k] < t.bad && t.Sane()
    ensures t.Holds(p[j])
    ensures Chain(Changed(t, p[j], b[k]), p[0]) == Ok(p[..j + 1] + b[k..])
  {
    KeptPart(t, p, j, b[k]);
    ChainNoDup(t, b[0], b);
    var t', kept, q := Changed(t, p[j], b[k]), p[..j + 1], p[..j + 1] + b[k..];
    assert p[j] in Elems(p);
    forall i | 0 <= i < |q| ensures t'.Holds(q[i]) {
      assert q[i] == if i <= j then kept[i] else b[k + (i - j - 1)];
    }
    forall i | 0 < i < |q| ensures t'.Links(q[i - 1], q[i]) {
      if i <= j {
        assert t'.Links(kept[i - 1], kept[i]);
      } else if i > j + 1 {
        var m := k + (i - j - 1);
        assert t.Links(b[m - 1], b[m]) && b[m - 1] in Elems(b);
      }
    }
    assert q[|q| - 1] == b[|b| - 1] && b[|b| - 1] in Elems(b);
    assert IsChain(t', p[0], q);
    ChainExact(t', p[0], q);
  }

  // Two claims that share clusters.

  /** The cross-links of the clusters `cs`, which `other` holds. */
  function CrossList(path: Name, cs: seq<nat>, other: Name): (r: seq<Problem>)
    ensures |r| == |cs|
    ensures forall i :: 0 <= i < |cs| ==> r[i] == CrossLinked(path, cs[i], other)
  {
    seq(|cs|, i requires 0 <= i < |cs| => CrossLinked(path, cs[i], other))
  }

  lemma {:induction false} CrossingsFrom(path: Name, chain: seq<nat>, k: nat, n: nat, owner: map<nat, Name>,
                                         other: Name)
    requires k <= n <= |chain|
    requires forall i :: 0 <= i < k ==> chain[i] !in owner
    requires forall i :: k <= i < n ==> chain[i] in owner && owner[chain[i]] == other
    ensures Crossings(path, chain, n, owner) == CrossList(path, chain[k..n], other)
  {
    if k == n {
      CrossingsNone(path, chain, n, owner);
    } else {
      CrossingsFrom(path, chain, k, n - 1, owner, other);
      assert chain[k..n] == chain[k..n - 1] + [chain[n - 1]];
    }
  }

  function Misfit(a: Action, clusterBytes: nat, has: nat): seq<Problem>
    requires 0 < clusterBytes && a.Claim?
  {
    if a.bytes.Some? && has != ClustersFor(a.bytes.value, clusterBytes)
    then [SizeMismatch(a.path, a.bytes.value, ClustersFor(a.bytes.value, clusterBytes), has)] else []
  }

  /** A claim of a chain whose clusters from `k` on are another's, and no others. */
  lemma SharingClaim(t: Table, clusterBytes: nat, s: State, a: Action, chain: seq<nat>, k: nat, other: Name)
    requires 0 < clusterBytes && a.Claim? && Chain(t, a.start) == Ok(chain) && NoDup(chain) && k <= |chain|
    requires forall i :: 0 <= i < k ==> chain[i] !in s.owner
    requires forall i :: k <= i < |chain| ==> chain[i] in s.owner && s.owner[chain[i]] == other
    ensures var r := Step(t, clusterBytes, s, a);
      && r.problems == s.problems + CrossList(a.path, chain[k..], other) + Misfit(a, clusterBytes, |chain|)
      && r.owner.Keys == s.owner.Keys + Elems(chain)
      && (forall c :: c in s.owner ==> r.owner[c] == s.owner[c])
      && (forall i :: 0 <= i < k ==> r.owner[chain[i]] == a.path)
  {
    hide Chain, Take, ClustersFor;
    TakeExact(s, a.path, chain, |chain|);
    CrossingsFrom(a.path, chain, k, |chain|, s.owner, other);
    assert chain[k..|chain|] == chain[k..] && chain[..|chain|] == chain;
  }

  /** The state after sound claims that meet nothing held before. */
  lemma QuietClaims(t: Table, clusterBytes: nat, s: State, acts: seq<Action>)
    requires 0 < clusterBytes && t.Sane() && AllSound(t, clusterBytes, acts)
    requires NoDup(Held(t, acts)) && Elems(Held(t, acts)) !! s.owner.Keys
    ensures var r := Replay(t, clusterBytes, s, acts);
      && r.problems == s.problems && r.owner.Keys == s.owner.Keys + Elems(Held(t, acts))
      && (forall c :: c in s.owner ==> r.owner[c] == s.owner[c])
  {
    hide Replay, AllSound, Held;
    ReplayExact(t, clusterBytes, s, acts);
  }

  /** Everything the claims around two damaged ones hold, in order. */
  ghost predicate AroundTwo(t: Table, clusterBytes: nat, pre: seq<Action>, mid: seq<Action>, post: seq<Action>,
                            x: seq<nat>, y: seq<nat>)
    requires 0 < clusterBytes
  {
    && AllSound(t, clusterBytes, pre) && AllSound(t, clusterBytes, mid) && AllSound(t, clusterBytes, post)
    && NoDup(Held(t, pre) + x + Held(t, mid) + y + Held(t, post))
  }

  lemma NoDupFive<T>(a: seq<T>, b: seq<T>, c: seq<T>, d: seq<T>, e: seq<T>)
    ensures NoDup(a + b + c + d + e) <==>
      && NoDup(a) && NoDup(b) && NoDup(c) && NoDup(d) && NoDup(e)
      && Elems(a) !! Elems(b) && Elems(a) !! Elems(c) && Elems(a) !! Elems(d) && Elems(a) !! Elems(e)
      && Elems(b) !! Elems(c) && Elems(b) !! Elems(d) && Elems(b) !! Elems(e)
      && Elems(c) !! Elems(d) && Elems(c) !! Elems(e) && Elems(d) !! Elems(e)
    ensures Elems(a + b + c + d + e) == Elems(a) + Elems(b) + Elems(c) + Elems(d) + Elems(e)
  {
    NoDupThree(a, b, c);
    NoDupThree(a + b + c, d, e);
    ElemsAppend(a, b);
    ElemsAppend(a + b, c);
    ElemsAppend(a + b + c, d);
    ElemsAppend(a + b + c + d, e);
  }

  lemma ReplayFive(t: Table, clusterBytes: nat, s: State, a: seq<Action>, b: Action, c: seq<Action>, d: Action,
                   e: seq<Action>)
    requires 0 < clusterBytes
    ensures Replay(t, clusterBytes, s, a + [b] + c + [d] + e) ==
      Replay(t, clusterBytes,
        Step(t, clusterBytes,
          Replay(t, clusterBytes, Step(t, clusterBytes, Replay(t, clusterBytes, s, a), b), c), d), e)
  {
    hide Step;
    ReplayAppend(t, clusterBytes, s, a + [b] + c + [d], e);
    ReplayAppend(t, clusterBytes, s, a + [b] + c, [d]);
    ReplayAppend(t, clusterBytes, s, a + [b], c);
    ReplayAppend(t, clusterBytes, s, a, [b]);
    assert [b][1..] == [] && [d][1..] == [];
  }

  /** A claim that meets nothing held, with sound claims around it: what it holds is its own. */
  lemma FirstClaims(t: Table, clusterBytes: nat, head: seq<Problem>, pre: seq<Action>, a: Action, mid: seq<Action>,
                    run: seq<nat>)
    requires 0 < clusterBytes && t.Sane() && AllSound(t, clusterBytes, pre) && AllSound(t, clusterBytes, mid)
    requires NoDup(Held(t, pre) + run + Held(t, mid)) && a.Claim? && Chain(t, a.start) == Ok(run)
    ensures var s := Replay(t, clusterBytes, Step(t, clusterBytes, Replay(t, clusterBytes, Start(head), pre), a), mid);
      && s.problems == head + Misfit(a, clusterBytes, |run|)
      && s.owner.Keys == Elems(Held(t, pre)) + Elems(run) + Elems(Held(t, mid))
      && forall i :: 0 <= i < |run| ==> s.owner[run[i]] == a.path
  {
    hide Replay, Step, AllSound, Held, Chain, Misfit, CrossList;
    NoDupThree(Held(t, pre), run, Held(t, mid));
    QuietClaims(t, clusterBytes, Start(head), pre);
    var s1 := Replay(t, clusterBytes, Start(head), pre);
    forall i | 0 <= i < |run| ensures run[i] !in s1.owner {
      assert run[i] in Elems(run);
    }
    SharingClaim(t, clusterBytes, s1, a, run, |run|, []);
    assert run[|run|..] == [];
    EmptyCrossList(a.path, []);
    QuietClaims(t, clusterBytes, Step(t, clusterBytes, s1, a), mid);
  }

  /** A file whose chain `q` another holds from `k` on, and sound claims after it. */
  lemma SharedClaims(t: Table, clusterBytes: nat, s: State, b: Action, post: seq<Action>, q: seq<nat>, k: nat,
                     other: Name)
    requires 0 < clusterBytes && t.Sane() && AllSound(t, clusterBytes, post) && k <= |q|
    requires b.Claim? && Chain(t, b.start) == Ok(q) && Misfit(b, clusterBytes, |q|) == []
    requires NoDup(q) && NoDup(Held(t, post)) && Elems(q) !! Elems(Held(t, post))
        && Elems(Held(t, post)) !! s.owner.Keys
    requires forall i :: 0 <= i < k ==> q[i] !in s.owner
    requires forall i :: k <= i < |q| ==> q[i] in s.owner && s.owner[q[i]] == other
    ensures var r := Replay(t, clusterBytes, Step(t, clusterBytes, s, b), post);
      && r.problems == s.problems + CrossList(b.path, q[k..], other)
      && r.owner.Keys == s.owner.Keys + Elems(q) + Elems(Held(t, post))
  {
    hide Replay, Step, AllSound, Held, Chain, Misfit, CrossList;
    SharingClaim(t, clusterBytes, s, b, q, k, other);
    QuietClaims(t, clusterBytes, Step(t, clusterBytes, s, b), post);
  }

  lemma RunBetween(a: seq<nat>, p: seq<nat>, c: seq<nat>, q: seq<nat>, e: seq<nat>, k: nat)
    requires NoDup(a + p + c + q + e) && k <= |q|
    ensures NoDup(a + (p + q[k..]) + c) && NoDup(q) && NoDup(e) && Elems(q) !! Elems(e)
    ensures Elems(e) !! Elems(a) + Elems(p + q[k..]) + Elems(c)
    ensures forall i :: 0 <= i < k ==> q[i] !in Elems(a) + Elems(p + q[k..]) + Elems(c)
    ensures forall i :: k <= i < |q| ==> q[i] in Elems(p + q[k..])
    ensures Elems(a) + Elems(p + q[k..]) + Elems(c) + Elems(q) + Elems(e) == Elems(a + p + c + q + e)
    ensures |p + q[k..]| == |p| + |q| - k
  {
    NoDupFive(a, p, c, q, e);
    RunsOn(p, q, k);
    NoDupThree(a, p + q[k..], c);
    forall i | 0 <= i < |q| ensures q[i] in Elems(q) {
    }
    forall i | k <= i < |q| ensures q[i] in Elems(p + q[k..]) {
      assert q[i] == (p + q[k..])[|p| + i - k];
    }
  }

  /** The damaged file first: it takes the other's clusters, and the other finds them held. */
  lemma CrossFirst(t: Table, clusterBytes: nat, head: seq<Problem>, pre: seq<Action>, a: Action, mid: seq<Action>,
                   b: Action, post: seq<Action>, p: seq<nat>, q: seq<nat>, k: nat)
    requires 0 < clusterBytes && t.Sane() && AroundTwo(t, clusterBytes, pre, mid, post, p, q) && k <= |q|
    requires a.Claim? && b.Claim? && Chain(t, a.start) == Ok(p + q[k..]) && Chain(t, b.start) == Ok(q)
    requires Misfit(b, clusterBytes, |q|) == []
    ensures var r := Replay(t, clusterBytes, Start(head), pre + [a] + mid + [b] + post);
      && r.problems == head + Misfit(a, clusterBytes, |p| + |q| - k) + CrossList(b.path, q[k..], a.path)
      && r.owner.Keys == Elems(Held(t, pre) + p + Held(t, mid) + q + Held(t, post))
  {
    hide Replay, Step, AllSound, Held, Chain, Misfit, CrossList, NoDup, Elems;
    RunBetween(Held(t, pre), p, Held(t, mid), q, Held(t, post), k);
    ReplayFive(t, clusterBytes, Start(head), pre, a, mid, b, post);
    var run := p + q[k..];
    FirstClaims(t, clusterBytes, head, pre, a, mid, run);
    var s := Replay(t, clusterBytes, Step(t, clusterBytes, Replay(t, clusterBytes, Start(head), pre), a), mid);
    forall i | k <= i < |q| ensures q[i] in s.owner && s.owner[q[i]] == a.path {
      assert q[i] == run[|p| + i - k];
    }
    SharedClaims(t, clusterBytes, s, b, post, q, k, a.path);
  }

  lemma EmptyCrossList(path: Name, other: Name)
    ensures CrossList(path, [], other) == []
  {
  }

  lemma RunsOn(p: seq<nat>, q: seq<nat>, k: nat)
    requires NoDup(p) && NoDup(q) && Elems(p) !! Elems(q) && k <= |q|
    ensures NoDup(p + q[k..]) && Elems(p + q[k..]) == Elems(p) + Elems(q[k..]) && Elems(q[k..]) <= Elems(q)
    ensures forall i :: 0 <= i < k ==> q[i] !in Elems(q[k..])
    ensures |p + q[k..]| == |p| + |q| - k
  {
    assert NoDup(q[k..]) by {
      forall i, j | 0 <= i < j < |q[k..]| ensures q[k..][i] != q[k..][j] {
        assert q[k + i] != q[k + j];
      }
    }
    NoDupAppend(p, q[k..]);
    ElemsAppend(p, q[k..]);
  }

  /** The other file first: the damaged one finds the clusters held. */
  lemma CrossSecond(t: Table, clusterBytes: nat, head: seq<Problem>, pre: seq<Action>, b: Action, mid: seq<Action>,
                    a: Action, post: seq<Action>, q: seq<nat>, p: seq<nat>, k: nat)
    requires 0 < clusterBytes && t.Sane() && AroundTwo(t, clusterBytes, pre, mid, post, q, p) && k <= |q|
    requires a.Claim? && b.Claim? && Chain(t, a.start) == Ok(p + q[k..]) && Chain(t, b.start) == Ok(q)
    requires Misfit(b, clusterBytes, |q|) == []
    ensures var r := Replay(t, clusterBytes, Start(head), pre + [b] + mid + [a] + post);
      && r.problems == head + CrossList(a.path, q[k..], b.path) + Misfit(a, clusterBytes, |p| + |q| - k)
      && r.owner.Keys == Elems(Held(t, pre) + q + Held(t, mid) + p + Held(t, post))
  {
    hide Replay, Step, AllSound, Held, Chain, Misfit, CrossList, NoDup;
    NoDupFive(Held(t, pre), q, Held(t, mid), p, Held(t, post));
    NoDupThree(Held(t, pre), q, Held(t, mid));
    ReplayFive(t, clusterBytes, Start(head), pre, b, mid, a, post);
    FirstClaims(t, clusterBytes, head, pre, b, mid, q);
    var s := Replay(t, clusterBytes, Step(t, clusterBytes, Replay(t, clusterBytes, Start(head), pre), b), mid);
    SecondClaims(t, clusterBytes, s, a, post, p, q, k, b.path);
  }

  /** The damaged file and what follows it, once the other's chain `q` is held. */
  lemma SecondClaims(t: Table, clusterBytes: nat, s: State, a: Action, post: seq<Action>, p: seq<nat>, q: seq<nat>,
                     k: nat, other: Name)
    requires 0 < clusterBytes && t.Sane() && AllSound(t, clusterBytes, post) && k <= |q|
    requires a.Claim? && Chain(t, a.start) == Ok(p + q[k..])
    requires NoDup(p) && NoDup(q) && NoDup(Held(t, post)) && Elems(p) !! Elems(q) && Elems(p) !! Elems(Held(t, post))
    requires Elems(p) !! s.owner.Keys && Elems(Held(t, post)) !! s.owner.Keys
    requires forall i :: 0 <= i < |q| ==> q[i] in s.owner && s.owner[q[i]] == other
    ensures var r := Replay(t, clusterBytes, Step(t, clusterBytes, s, a), post);
      && r.problems == s.problems + CrossList(a.path, q[k..], other) + Misfit(a, clusterBytes, |p| + |q| - k)
      && r.owner.Keys == s.owner.Keys + Elems(p) + Elems(Held(t, post))
  {
    hide Replay, Step, AllSound, Held, Chain, Misfit, CrossList;
    var run := p + q[k..];
    RunsOn(p, q, k);
    forall i | 0 <= i < |p| ensures run[i] !in s.owner {
      assert run[i] in Elems(p);
    }
    forall i | |p| <= i < |run| ensures run[i] in s.owner && s.owner[run[i]] == other {
      assert run[i] == q[k + i - |p|];
    }
    assert run[|p|..] == q[k..];
    SharingClaim(t, clusterBytes, s, a, run, |p|, other);
    assert Elems(q[k..]) <= s.owner.Keys;
    QuietClaims(t, clusterBytes, Step(t, clusterBytes, s, a), post);
  }
}
