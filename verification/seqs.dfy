/** Sequences without repeats, and counting. */
module Seqs {

  ghost predicate NoDup<T>(s: seq<T>) {
    forall i, j :: 0 <= i < j < |s| ==> s[i] != s[j]
  }

  function Elems<T>(s: seq<T>): set<T> {
    set x | x in s
  }

  function Range(lo: int, hi: int): (r: set<int>)
    ensures forall c :: c in r <==> lo <= c < hi
    decreases hi - lo
  {
    if lo >= hi then {} else Range(lo, hi - 1) + {hi - 1}
  }

  lemma {:induction false} RangeCard(lo: int, hi: int)
    requires lo <= hi
    ensures |Range(lo, hi)| == hi - lo
    decreases hi - lo
  {
    if lo == hi {
    } else {
      RangeCard(lo, hi - 1);
    }
  }

  lemma {:induction false} SubsetCard<T>(a: set<T>, b: set<T>)
    requires a <= b
    ensures |a| <= |b|
  {
    assert b == a + (b - a);
  }

  lemma {:induction false} NoDupCard<T>(s: seq<T>)
    requires NoDup(s)
    ensures |Elems(s)| == |s|
  {
    if s == [] {
      assert Elems(s) == {};
    } else {
      var last := s[|s| - 1];
      NoDupCard(s[..|s| - 1]);
      assert Elems(s) == Elems(s[..|s| - 1]) + {last};
    }
  }

  /** A sequence without repeats, drawn from a range, is no longer than the range. */
  lemma Pigeonhole(s: seq<int>, lo: int, hi: int)
    requires lo <= hi && NoDup(s)
    requires forall x :: x in s ==> lo <= x < hi
    ensures |s| <= hi - lo
  {
    NoDupCard(s);
    RangeCard(lo, hi);
    SubsetCard(Elems(s), Range(lo, hi));
  }

  function Flatten<T>(ss: seq<seq<T>>): seq<T> {
    if ss == [] then [] else ss[0] + Flatten(ss[1..])
  }

  lemma {:induction false} NoDupAppend<T>(a: seq<T>, b: seq<T>)
    ensures NoDup(a + b) <==> NoDup(a) && NoDup(b) && Elems(a) !! Elems(b)
  {
    var s := a + b;
    if NoDup(s) {
      forall i, j | 0 <= i < j < |a| ensures a[i] != a[j] {
        assert s[i] != s[j];
      }
      forall i, j | 0 <= i < j < |b| ensures b[i] != b[j] {
        assert s[|a| + i] != s[|a| + j];
      }
      forall i, j | 0 <= i < |a| && 0 <= j < |b| ensures a[i] != b[j] {
        assert s[i] != s[|a| + j];
      }
    }
    if NoDup(a) && NoDup(b) && Elems(a) !! Elems(b) {
      forall i, j | 0 <= i < j < |s| ensures s[i] != s[j] {
        if i < |a| <= j {
          assert a[i] in Elems(a) && b[j - |a|] in Elems(b);
        }
      }
    }
  }

  lemma ElemsAppend<T>(a: seq<T>, b: seq<T>)
    ensures Elems(a + b) == Elems(a) + Elems(b)
  {
  }

  lemma Associates<T>(a: seq<T>, b: seq<T>, c: seq<T>)
    ensures a + (b + c) == a + b + c
  {
  }
}
