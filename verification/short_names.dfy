/** Short names: the checksum that ties a long name to one, and how one reads. */
module ShortNames {
  import opened Bytes
  import opened Report
  import opened Directories

  // The checksum.

  /** One step of the checksum: the sum's eight bits rotated right, and the byte added in eight bits. */
  lemma ChecksumStep(sum: bv8, b: byte, rest: seq<byte>)
    ensures Checksum(sum as byte, [b] + rest) == Checksum((((sum >> 1) | (sum << 7)) as int + b) % 0x100, rest)
    ensures Checksum(sum as byte, []) == sum as byte
  {
    Rotated(sum);
    assert ([b] + rest)[1..] == rest;
  }

  lemma Rotated(sum: bv8)
    ensures ((sum >> 1) | (sum << 7)) as int == sum as int % 2 * 0x80 + sum as int / 2
  {
  }

  const README: seq<byte> := [0x52, 0x45, 0x41, 0x44, 0x4D, 0x45, 0x7E, 0x31, 0x54, 0x58, 0x54]

  /** The sums of README~1.TXT after none of its bytes, one, and so on. */
  const SUMS: seq<byte> := [0, 82, 110, 120, 128, 141, 11, 3, 178, 173, 46, 107]

  lemma {:induction false} SumFrom(i: nat)
    requires i <= 11
    ensures Checksum(SUMS[i], README[i..]) == 107
    decreases 11 - i
  {
    if i == 11 {
      assert README[i..] == [];
    } else {
      SumFrom(i + 1);
      SumsStep(i);
      assert README[i..][1..] == README[i + 1..];
    }
  }

  lemma SumsStep(i: nat)
    requires i < 11
    ensures SUMS[i + 1] == (SUMS[i] % 2 * 0x80 + SUMS[i] / 2 + README[i] as int) % 0x100
  {
  }

  /** The checksum of README~1.TXT. */
  lemma KnownSum()
    ensures Checksum(0, [0x52, 0x45, 0x41, 0x44, 0x4D, 0x45, 0x7E, 0x31, 0x54, 0x58, 0x54]) == 107
  {
    SumFrom(0);
    assert README[0..] == README;
  }

  // 8.3 names.

  /** The 11 bytes of a base and an extension. */
  predicate Fields83(short: seq<byte>, base: seq<byte>, ext: seq<byte>) {
    && |short| == 11 && |base| <= 8 && |ext| <= 3
    && (base != [] ==> base[|base| - 1] != 0x20) && (ext != [] ==> ext[|ext| - 1] != 0x20)
    && short[..|base|] == base && (forall i :: |base| <= i < 8 ==> short[i] == 0x20)
    && short[8..8 + |ext|] == ext && (forall i :: 8 + |ext| <= i < 11 ==> short[i] == 0x20)
  }

  /** A character of an 8.3 name: a Latin-1 capital letter in lower case if the name's case bit says so. */
  predicate ReadsAs(u: Unit, c: byte, lower: bool) {
    if lower && (0x41 <= c <= 0x5A || (0xC0 <= c <= 0xDE && c != 0xD7)) then u == c + 0x20 else u == c
  }

  /** The spaces after the first `k` characters are stripped. */
  lemma {:induction false} Stripped(s: seq<byte>, k: nat)
    requires k <= |s| && (k > 0 ==> s[k - 1] != SPACE) && forall i :: k <= i < |s| ==> s[i] == SPACE
    ensures RStrip(s) == s[..k]
    decreases |s|
  {
    if k == |s| {
      assert s[..k] == s;
    } else {
      Stripped(s[..|s| - 1], k);
      assert s[..|s| - 1][..k] == s[..k];
    }
  }

  /** An 8.3 name reads as its base, and after a dot its extension, if it has one. Of the case bits, 0x08 is the
      base's and 0x10 the extension's. A base that begins with 0x05 begins with 0xE5. */
  lemma ShortNameExact(short: seq<byte>, base: seq<byte>, ext: seq<byte>, bits: byte)
    requires Fields83(short, base, ext)
    ensures var name := ShortName(short, bits);
      && |name| == |base| + (if ext == [] then 0 else 1 + |ext|)
      && (forall i :: 0 <= i < |base| ==>
            ReadsAs(name[i], if i == 0 && base[0] == 0x05 then 0xE5 else base[i], bits / 0x08 % 2 == 1))
      && (ext != [] ==> name[|base|] == 0x2E)
      && (forall i :: 0 <= i < |ext| ==> ReadsAs(name[|base| + 1 + i], ext[i], bits / 0x10 % 2 == 1))
  {
    Stripped(short[..8], |base|);
    Stripped(short[8..], |ext|);
    assert short[..8][..|base|] == base && short[8..][..|ext|] == short[8..8 + |ext|];
    assert RStrip(short[..8]) == base && RStrip(short[8..]) == ext;
    hide RStrip;
  }

  // Long-name parts.

  /** A part's thirteen characters are in its bytes 1 to 10, 14 to 25 and 28 to 31, two bytes each. */
  lemma PartUnits(e: Raw, k: nat)
    requires k < 13
    ensures |Units(Chars(e))| == 13
    ensures var at := if k < 5 then 1 + 2 * k else if k < 11 then 14 + 2 * (k - 5) else 28 + 2 * (k - 11);
      Units(Chars(e))[k] == e[at] as int + 0x100 * e[at + 1] as int
  {
    var at := if k < 5 then 1 + 2 * k else if k < 11 then 14 + 2 * (k - 5) else 28 + 2 * (k - 11);
    var s := Chars(e);
    assert s[2 * k] == e[at] && s[2 * k + 1] == e[at + 1];
    hide Chars;
  }

  /** An entry is a part if it is not deleted and its attributes are 0x0F. Of its first byte, 0x40 marks the first of a
      name and the low five bits are its number; byte 13 is the checksum. */
  lemma ViewExact(e: Raw)
    ensures View(e).Part? <==> e[0] != 0xE5 && e[11] == 0x0F
    ensures View(e).Part? ==>
      && View(e).marked == (e[0] / 0x40 % 2 == 1) && View(e).seqNo == e[0] % 0x20 && View(e).sum == e[13]
      && View(e).chars == Chars(e)
    ensures IsShort(e) <==> e[0] != 0xE5 && e[11] != 0x0F && e[11] / 8 % 2 == 0
  {
  }
}
