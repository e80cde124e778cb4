/** `sorted` on names: the order of Python's strings, code point by code point, for names kept as UTF-16. */
module NameOrder {
  import opened Report
  import opened Seqs

  /** A unit's place in the order of code points: the pairs that stand for the highest come last. */
  function Rank(u: Unit): nat {
    if 0xD800 <= u < 0xE000 then u + 0x1_0000 else u
  }

  /** Code point by code point. */
  predicate Before(a: Name, b: Name) {
    b != [] && (a == [] || Rank(a[0]) < Rank(b[0]) || (a[0] == b[0] && Before(a[1..], b[1..])))
  }

  function InsertName(x: Name, names: seq<Name>): (r: seq<Name>)
    ensures multiset(r) == multiset{x} + multiset(names)
  {
    if names == [] || !Before(names[0], x) then [x] + names
    else
      assert names == [names[0]] + names[1..];
      [names[0]] + InsertName(x, names[1..])
  }

  function Sorted(names: seq<Name>): (r: seq<Name>)
    ensures multiset(r) == multiset(names)
  {
    if names == [] then []
    else
      assert names == [names[0]] + names[1..];
      InsertName(names[0], Sorted(names[1..]))
  }

  lemma SortedSame(names: seq<Name>)
    ensures forall x :: x in Sorted(names) <==> x in names
  {
    forall x ensures x in Sorted(names) <==> x in names {
      assert x in Sorted(names) <==> x in multiset(Sorted(names));
      assert x in names <==> x in multiset(names);
    }
  }

  // Code points.

  predicate High(u: Unit) {
    0xD800 <= u < 0xDC00
  }

  predicate Low(u: Unit) {
    0xDC00 <= u < 0xE000
  }

  /** No half of a pair stands alone. */
  predicate WellFormed(s: Name)
    decreases |s|
  {
    s == []
    || (High(s[0]) && |s| > 1 && Low(s[1]) && WellFormed(s[2..]))
    || (!High(s[0]) && !Low(s[0]) && WellFormed(s[1..]))
  }

  /** The code points of UTF-16. */
  function CodePoints(s: Name): seq<nat>
    requires WellFormed(s)
    decreases |s|
  {
    if s == [] then []
    else if High(s[0]) then [0x1_0000 + (s[0] as int - 0xD800) * 0x400 + (s[1] as int - 0xDC00)] + CodePoints(s[2..])
    else [s[0] as nat] + CodePoints(s[1..])
  }

  /** The order of sequences: the first place where they differ decides, and a beginning comes before the whole. */
  ghost predicate Less(a: seq<nat>, b: seq<nat>) {
    exists k :: 0 <= k <= |a| && k <= |b| && a[..k] == b[..k] && LessAt(a, b, k)
  }

  predicate LessAt(a: seq<nat>, b: seq<nat>, k: nat) {
    k < |b| && k <= |a| && (k == |a| || a[k] < b[k])
  }

  lemma LessStep(a: seq<nat>, b: seq<nat>)
    ensures Less(a, b) <==> b != [] && (a == [] || a[0] < b[0] || (a[0] == b[0] && Less(a[1..], b[1..])))
  {
    if Less(a, b) {
      var k :| 0 <= k <= |a| && k <= |b| && a[..k] == b[..k] && LessAt(a, b, k);
      if k > 0 {
        assert a[0] == a[..k][0] && b[0] == b[..k][0];
        assert a[1..][..k - 1] == a[..k][1..] && b[1..][..k - 1] == b[..k][1..];
        assert LessAt(a[1..], b[1..], k - 1);
      }
    }
    if b != [] && (a == [] || a[0] < b[0]) {
      assert a[..0] == b[..0] && LessAt(a, b, 0);
    }
    if a != [] && b != [] && a[0] == b[0] && Less(a[1..], b[1..]) {
      var k :| 0 <= k <= |a[1..]| && k <= |b[1..]| && a[1..][..k] == b[1..][..k] && LessAt(a[1..], b[1..], k);
      assert a[..k + 1] == [a[0]] + a[1..][..k] && b[..k + 1] == [b[0]] + b[1..][..k];
      assert LessAt(a, b, k + 1);
    }
  }

  /** The order of the units, ranked, is that of the code points. */
  lemma {:induction false} BeforeExact(a: Name, b: Name)
    requires WellFormed(a) && WellFormed(b)
    ensures Before(a, b) <==> Less(CodePoints(a), CodePoints(b))
    decreases |a|
  {
    var x, y := CodePoints(a), CodePoints(b);
    LessStep(x, y);
    if a == [] || b == [] {
    } else if High(a[0]) && High(b[0]) {
      PairOrder(a[0], a[1], b[0], b[1]);
      if a[0] == b[0] && a[1] == b[1] {
        assert a[1..][1..] == a[2..] && b[1..][1..] == b[2..];
        BeforeExact(a[2..], b[2..]);
        assert x[1..] == CodePoints(a[2..]) && y[1..] == CodePoints(b[2..]);
      }
    } else if !High(a[0]) && !High(b[0]) && a[0] == b[0] {
      BeforeExact(a[1..], b[1..]);
      assert x[1..] == CodePoints(a[1..]) && y[1..] == CodePoints(b[1..]);
    }
  }

  lemma PairOrder(h: Unit, l: Unit, h': Unit, l': Unit)
    requires High(h) && High(h') && Low(l) && Low(l')
    ensures var p, q := (h - 0xD800) * 0x400 + (l - 0xDC00), (h' - 0xD800) * 0x400 + (l' - 0xDC00);
      p < q <==> h < h' || (h == h' && l < l')
    ensures (h - 0xD800) * 0x400 + (l - 0xDC00) == (h' - 0xD800) * 0x400 + (l' - 0xDC00) <==> h == h' && l == l'
  {
  }

  // Sorted.

  lemma {:induction false} BeforeTotal(a: Name, b: Name)
    ensures a == b || Before(a, b) || Before(b, a)
  {
    if a == [] || b == [] || a[0] != b[0] {
    } else {
      BeforeTotal(a[1..], b[1..]);
      assert a == [a[0]] + a[1..] && b == [b[0]] + b[1..];
    }
  }

  lemma {:induction false} BeforeChain(a: Name, b: Name, c: Name)
    requires Before(a, b) && Before(b, c)
    ensures Before(a, c)
  {
    if a == [] || a[0] != b[0] || b[0] != c[0] {
    } else {
      BeforeChain(a[1..], b[1..], c[1..]);
    }
  }

  /** Each before every later one. */
  ghost predicate Rising(names: seq<Name>) {
    forall i, j :: 0 <= i < j < |names| ==> Before(names[i], names[j])
  }

  lemma {:induction false} InsertRises(x: Name, names: seq<Name>)
    requires Rising(names) && x !in names
    ensures Rising(InsertName(x, names))
  {
    hide Before;
    if names == [] {
    } else if !Before(names[0], x) {
      BeforeTotal(names[0], x);
      forall i | 0 <= i < |names| ensures Before(x, names[i]) {
        if i > 0 {
          BeforeChain(x, names[0], names[i]);
        }
      }
    } else {
      InsertRises(x, names[1..]);
      var rest := InsertName(x, names[1..]);
      forall i | 0 <= i < |rest| ensures Before(names[0], rest[i]) {
        assert rest[i] in multiset(rest);
        assert rest[i] == x || rest[i] in names[1..];
      }
    }
  }

  /** Different names are sorted in the order of their code points. */
  lemma {:induction false} SortedRises(names: seq<Name>)
    requires NoDup(names)
    ensures Rising(Sorted(names))
  {
    if names == [] {
    } else {
      SortedRises(names[1..]);
      SortedSame(names[1..]);
      assert names[0] !in names[1..] by {
        assert forall i :: 0 <= i < |names[1..]| ==> names[1..][i] == names[i + 1];
      }
      InsertRises(names[0], Sorted(names[1..]));
    }
  }
}
