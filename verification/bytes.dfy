/** Bytes, little-endian fields and slices, as `struct` and Python's slices read and write them. */
module Bytes {

  type byte = x: int | 0 <= x < 0x100

  const SECTOR := 512

  function Le16(s: seq<byte>, at: nat): (r: nat)
    requires at + 2 <= |s|
    ensures r < 0x1_0000
  {
    s[at] as int + 0x100 * (s[at + 1] as int)
  }

  function Le32(s: seq<byte>, at: nat): (r: nat)
    requires at + 4 <= |s|
    ensures r < 0x1_0000_0000
  {
    Le16(s, at) + 0x1_0000 * Le16(s, at + 2)
  }

  /** `x` as `n` little-endian bytes. */
  function Pack(x: nat, n: nat): (r: seq<byte>)
    ensures |r| == n
  {
    if n == 0 then [] else [x % 0x100] + Pack(x / 0x100, n - 1)
  }

  lemma Pack16(x: nat)
    requires x < 0x1_0000
    ensures Le16(Pack(x, 2), 0) == x
  {
    assert Pack(x, 2) == [x % 0x100] + Pack(x / 0x100, 1);
    assert Pack(x / 0x100, 1) == [x / 0x100 % 0x100] + Pack(x / 0x100 / 0x100, 0);
  }

  lemma Pack32(x: nat)
    requires x < 0x1_0000_0000
    ensures Le32(Pack(x, 4), 0) == x
  {
    var y := x / 0x100;
    var z := y / 0x100;
    var w := z / 0x100;
    assert Pack(x, 4) == [x % 0x100] + Pack(y, 3);
    assert Pack(y, 3) == [y % 0x100] + Pack(z, 2);
    assert Pack(z, 2) == [z % 0x100] + Pack(w, 1);
    assert Pack(w, 1) == [w % 0x100] + Pack(w / 0x100, 0);
  }

  /** The bit of `x` that the power of two `mask` stands for. */
  predicate Bit(x: nat, mask: nat)
    requires mask > 0
  {
    x / mask % 2 == 1
  }

  /** Python's `s[lo:hi]`: what runs past the end is left out. */
  function Clip<T>(s: seq<T>, lo: nat, hi: nat): (r: seq<T>)
    requires lo <= hi
    ensures hi <= |s| ==> r == s[lo..hi]
    ensures |r| == hi - lo <==> hi <= |s| || lo == hi
  {
    if hi <= |s| then s[lo..hi] else if lo <= |s| then s[lo..] else []
  }

  /** Python's `s[at:at+|x|] = x` on a bytearray: past its end, the bytes are appended. */
  function Splice(s: seq<byte>, at: nat, x: seq<byte>): (r: seq<byte>)
    ensures at + |x| <= |s| ==> |r| == |s|
  {
    if at + |x| <= |s| then s[..at] + x + s[at + |x|..] else if at <= |s| then s[..at] + x else s + x
  }

  /** Writing inside a string of bytes leaves every slice beside the write as it was. */
  lemma SpliceBeside(s: seq<byte>, at: nat, x: seq<byte>, lo: nat, hi: nat)
    requires at + |x| <= |s| && lo <= hi <= |s|
    requires hi <= at || at + |x| <= lo
    ensures Splice(s, at, x)[lo..hi] == s[lo..hi]
  {
  }

  /** A slice that holds the whole write shows it at its own offset. */
  lemma SpliceInside(s: seq<byte>, at: nat, x: seq<byte>, lo: nat, hi: nat)
    requires lo <= at && at + |x| <= hi <= |s|
    ensures Splice(s, at, x)[lo..hi] == Splice(s[lo..hi], at - lo, x)
  {
  }

  lemma SpliceTwice(s: seq<byte>, at: nat, x: seq<byte>)
    requires at + |x| <= |s|
    ensures Splice(Splice(s, at, x), at, x) == Splice(s, at, x)
  {
  }
}
