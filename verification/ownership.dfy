/** Who holds which cluster. A walk reports nothing if and only if it notes nothing, every chain it claims can
    be followed and fits its file, and no cluster is in two of them. */
module Ownership {
  import opened Report
  import opened Seqs
  import opened Chains
  import opened Walks

  /** The clusters an action claims. */
  ghost function HeldBy(t: Table, a: Action): seq<nat> {
    if a.Claim? && Chain(t, a.start).Ok? then Chain(t, a.start).value else []
  }

  ghost function Held(t: Table, acts: seq<Action>): seq<nat>
    decreases |acts|
  {
    if acts == [] then [] else HeldBy(t, acts[0]) + Held(t, acts[1..])
  }

  /** An action that reports nothing on its own account. */
  ghost predicate Sound(t: Table, clusterBytes: nat, a: Action)
    requires 0 < clusterBytes
  {
    && !a.Note?
    && (a.Claim? ==>
          && Chain(t, a.start).Ok?
          && (a.bytes.Some? ==> |Chain(t, a.start).value| == ClustersFor(a.bytes.value, clusterBytes)))
  }

  ghost predicate AllSound(t: Table, clusterBytes: nat, acts: seq<Action>)
    requires 0 < clusterBytes
  {
    forall i :: 0 <= i < |acts| ==> Sound(t, clusterBytes, acts[i])
  }

  /** The cross-links found when `path` takes the first `n` clusters of a chain. */
  function Crossings(path: Name, chain: seq<nat>, n: nat, owner: map<nat, Name>): seq<Problem>
    requires n <= |chain|
  {
    if n == 0 then []
    else Crossings(path, chain, n - 1, owner)
         + if chain[n - 1] in owner then [CrossLinked(path, chain[n - 1], owner[chain[n - 1]])] else []
  }

  lemma {:induction false} TakeHolds(s: State, path: Name, chain: seq<nat>, n: nat)
    requires n <= |chain|
    ensures var r := Take(s, path, chain, n);
      && r.owner.Keys == s.owner.Keys + Elems(chain[..n])
      && (forall c :: c in s.owner ==> r.owner[c] == s.owner[c])
      && (forall i :: 0 <= i < n && chain[i] !in s.owner ==> r.owner[chain[i]] == path)
      && r.mtime == s.mtime && r.out == s.out
  {
    if n == 0 {
      assert chain[..0] == [];
    } else {
      TakeHolds(s, path, chain, n - 1);
      assert chain[..n] == chain[..n - 1] + [chain[n - 1]];
      TakeOneHolds(Take(s, path, chain, n - 1), path, chain[n - 1]);
      hide TakeOne;
    }
  }

  lemma TakeOneHolds(s: State, path: Name, c: nat)
    ensures var r := TakeOne(s, path, c);
      && r.owner.Keys == s.owner.Keys + {c} && (forall e :: e in s.owner ==> r.owner[e] == s.owner[e])
      && (c !in s.owner ==> r.owner[c] == path) && r.mtime == s.mtime && r.out == s.out
  {
  }

  lemma {:induction false} TakeReports(s: State, path: Name, chain: seq<nat>, n: nat)
    requires n <= |chain| && NoDup(chain)
    ensures Take(s, path, chain, n).problems == s.problems + Crossings(path, chain, n, s.owner)
  {
    if n == 0 {
    } else {
      TakeReports(s, path, chain, n - 1);
      TakeHolds(s, path, chain, n - 1);
      var before, c := chain[..n - 1], chain[n - 1];
      forall i | 0 <= i < |before| ensures before[i] != c {
        assert chain[i] != chain[n - 1];
      }
    }
  }

  /** Taking a chain reports exactly the clusters that were held before, and holds all the others. */
  lemma TakeExact(s: State, path: Name, chain: seq<nat>, n: nat)
    requires n <= |chain| && NoDup(chain)
    ensures var r := Take(s, path, chain, n);
      && r.problems == s.problems + Crossings(path, chain, n, s.owner)
      && r.owner.Keys == s.owner.Keys + Elems(chain[..n])
      && (forall c :: c in s.owner ==> r.owner[c] == s.owner[c])
      && (forall i :: 0 <= i < n && chain[i] !in s.owner ==> r.owner[chain[i]] == path)
      && r.mtime == s.mtime && r.out == s.out
  {
    hide Take, Crossings;
    TakeHolds(s, path, chain, n);
    TakeReports(s, path, chain, n);
  }

  lemma {:induction false} CrossingsNone(path: Name, chain: seq<nat>, n: nat, owner: map<nat, Name>)
    requires n <= |chain|
    ensures Crossings(path, chain, n, owner) == [] <==> Elems(chain[..n]) !! owner.Keys
  {
    if n == 0 {
    } else {
      CrossingsNone(path, chain, n - 1, owner);
      assert chain[..n] == chain[..n - 1] + [chain[n - 1]];
    }
  }

  /** What a step adds to the problems, the owners and the listing. */
  lemma StepExact(t: Table, clusterBytes: nat, s: State, a: Action)
    requires 0 < clusterBytes && t.Sane()
    ensures var r := Step(t, clusterBytes, s, a);
      && s.problems <= r.problems
      && (r.problems == s.problems <==> Sound(t, clusterBytes, a) && Elems(HeldBy(t, a)) !! s.owner.Keys)
      && r.owner.Keys == s.owner.Keys + Elems(HeldBy(t, a))
      && (forall c :: c in s.owner ==> r.owner[c] == s.owner[c])
      && r.out == s.out + Listed([a])
      && NoDup(HeldBy(t, a))
  {
    hide Follow;
    assert Listed([a][1..]) == [];
    if a.Claim? && Chain(t, a.start).Ok? {
      var chain := Chain(t, a.start).value;
      ChainBound(t, a.start);
      TakeExact(s, a.path, chain, |chain|);
      CrossingsNone(a.path, chain, |chain|, s.owner);
      assert chain[..|chain|] == chain;
    }
  }

  /** The items that the actions list. */
  function Listed(acts: seq<Action>): seq<Item>
    decreases |acts|
  {
    if acts == [] then []
    else (if acts[0].List?
          then [Item(Join(acts[0].dir, acts[0].name), acts[0].isDir, acts[0].first, acts[0].size)] else [])
         + Listed(acts[1..])
  }

  lemma {:induction false} ListedAppend(a: seq<Action>, b: seq<Action>)
    ensures Listed(a + b) == Listed(a) + Listed(b)
    decreases |a|
  {
    if a == [] {
      assert a + b == b;
    } else {
      assert (a + b)[0] == a[0] && (a + b)[1..] == a[1..] + b;
      ListedAppend(a[1..], b);
    }
  }

  lemma {:induction false} HeldAppend(t: Table, a: seq<Action>, b: seq<Action>)
    ensures Held(t, a + b) == Held(t, a) + Held(t, b)
    decreases |a|
  {
    hide HeldBy;
    if a == [] {
      assert a + b == b;
    } else {
      assert (a + b)[0] == a[0] && (a + b)[1..] == a[1..] + b;
      HeldAppend(t, a[1..], b);
    }
  }

  /** The walk's answer, exactly: whatever was reported and held before it, the walk adds no problem if and
      only if every action is sound and no cluster is claimed twice or held already. It always lists what its
      actions list, and holds what they claim besides what was held. */
  lemma {:induction false} ReplayExact(t: Table, clusterBytes: nat, s: State, acts: seq<Action>)
    requires 0 < clusterBytes && t.Sane()
    ensures var r := Replay(t, clusterBytes, s, acts);
      && s.problems <= r.problems
      && (r.problems == s.problems <==>
            AllSound(t, clusterBytes, acts) && NoDup(Held(t, acts)) && Elems(Held(t, acts)) !! s.owner.Keys)
      && r.owner.Keys == s.owner.Keys + Elems(Held(t, acts))
      && (forall c :: c in s.owner ==> r.owner[c] == s.owner[c])
      && r.out == s.out + Listed(acts)
    decreases |acts|
  {
    hide Step, Sound, HeldBy;
    if acts == [] {
    } else {
      var a, rest := acts[0], acts[1..];
      var s' := Step(t, clusterBytes, s, a);
      StepExact(t, clusterBytes, s, a);
      ReplayExact(t, clusterBytes, s', rest);
      ListedAppend([a], rest);
      assert [a] + rest == acts;
      NoDupAppend(HeldBy(t, a), Held(t, rest));
      ElemsAppend(HeldBy(t, a), Held(t, rest));
      assert AllSound(t, clusterBytes, acts) <==> Sound(t, clusterBytes, a) && AllSound(t, clusterBytes, rest) by {
        assert forall i :: 0 <= i < |rest| ==> rest[i] == acts[i + 1];
      }
    }
  }

  /** What was reported before the walk changes nothing that the walk does. */
  lemma {:induction false} ReplayHead(t: Table, clusterBytes: nat, s: State, s': State, acts: seq<Action>)
    requires 0 < clusterBytes && s' == s.(problems := s'.problems)
    ensures var r, r' := Replay(t, clusterBytes, s, acts), Replay(t, clusterBytes, s', acts);
      r' == r.(problems := r'.problems)
    decreases |acts|
  {
    hide Step;
    if acts == [] {
    } else {
      StepHead(t, clusterBytes, s, s', acts[0]);
      ReplayHead(t, clusterBytes, Step(t, clusterBytes, s, acts[0]), Step(t, clusterBytes, s', acts[0]), acts[1..]);
    }
  }

  lemma StepHead(t: Table, clusterBytes: nat, s: State, s': State, a: Action)
    requires 0 < clusterBytes && s' == s.(problems := s'.problems)
    ensures var r, r' := Step(t, clusterBytes, s, a), Step(t, clusterBytes, s', a); r' == r.(problems := r'.problems)
  {
    hide Chain, Take;
    if a.Claim? && Chain(t, a.start).Ok? {
      TakeHead(s, s', a.path, Chain(t, a.start).value, |Chain(t, a.start).value|);
    }
  }

  lemma {:induction false} TakeHead(s: State, s': State, path: Name, chain: seq<nat>, n: nat)
    requires n <= |chain| && s' == s.(problems := s'.problems)
    ensures var r, r' := Take(s, path, chain, n), Take(s', path, chain, n); r' == r.(problems := r'.problems)
  {
    if n == 0 {
    } else {
      TakeHead(s, s', path, chain, n - 1);
    }
  }

  ghost predicate NoNotes(acts: seq<Action>) {
    forall i :: 0 <= i < |acts| ==> !acts[i].Note?
  }

  /** The same state, with `head` reported before. */
  function After(head: seq<Problem>, s: State): State {
    s.(problems := head + s.problems)
  }

  /** A walk reports the same after `head` as after nothing. */
  lemma {:induction false} ReplayAfter(t: Table, clusterBytes: nat, head: seq<Problem>, s: State, acts: seq<Action>)
    requires 0 < clusterBytes
    ensures Replay(t, clusterBytes, After(head, s), acts) == After(head, Replay(t, clusterBytes, s, acts))
    decreases |acts|
  {
    hide Step, After;
    if acts == [] {
    } else {
      StepAfter(t, clusterBytes, head, s, acts[0]);
      ReplayAfter(t, clusterBytes, head, Step(t, clusterBytes, s, acts[0]), acts[1..]);
    }
  }

  lemma StepAfter(t: Table, clusterBytes: nat, head: seq<Problem>, s: State, a: Action)
    requires 0 < clusterBytes
    ensures Step(t, clusterBytes, After(head, s), a) == After(head, Step(t, clusterBytes, s, a))
  {
    hide Chain, Take;
    if a.Claim? && Chain(t, a.start).Ok? {
      TakeAfter(head, s, a.path, Chain(t, a.start).value, |Chain(t, a.start).value|);
    }
  }

  lemma {:induction false} TakeAfter(head: seq<Problem>, s: State, path: Name, chain: seq<nat>, n: nat)
    requires n <= |chain|
    ensures Take(After(head, s), path, chain, n) == After(head, Take(s, path, chain, n))
  {
    if n == 0 {
    } else {
      TakeAfter(head, s, path, chain, n - 1);
    }
  }
}
