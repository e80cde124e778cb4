/** Directory entries byte by byte, as other programs write them: a long name in two parts and its short entry. */
module SampleNames {
  import opened Results
  import opened Bytes
  import opened Report
  import opened Geometries
  import opened DosTimes
  import opened Directories
  import opened LongNames
  import opened ShortNames

  /** The part that ends the name: ".txt", a zero, and padding. */
  const LAST: Raw := [
    0x42, 0x2E, 0, 0x74, 0, 0x78, 0, 0x74, 0, 0, 0, 0x0F, 0, 107, 0xFF, 0xFF,
    0xFF, 0xFF, 0xFF, 0xFF, 0xFF, 0xFF, 0xFF, 0xFF, 0xFF, 0xFF, 0, 0, 0xFF, 0xFF, 0xFF, 0xFF]

  /** The part that begins it: "Read me first". */
  const FIRST: Raw := [
    0x01, 0x52, 0, 0x65, 0, 0x61, 0, 0x64, 0, 0x20, 0, 0x0F, 0, 107, 0x6D, 0,
    0x65, 0, 0x20, 0, 0x66, 0, 0x69, 0, 0x72, 0, 0, 0, 0x73, 0, 0x74, 0]

  /** README~1.TXT of 0x12345 bytes, of noon on a leap day, its first cluster's halves 1 and 5. */
  const SHORT: Raw := [
    0x52, 0x45, 0x41, 0x44, 0x4D, 0x45, 0x7E, 0x31, 0x54, 0x58, 0x54, 0x20, 0, 0, 0, 0,
    0, 0, 0, 0, 1, 0, 0x5C, 0x64, 0x5D, 0x58, 5, 0, 0x45, 0x23, 0x01, 0]

  /** "Read me first.txt" */
  const LONG: Name := [
    0x52, 0x65, 0x61, 0x64, 0x20, 0x6D, 0x65, 0x20, 0x66, 0x69, 0x72, 0x73, 0x74, 0x2E, 0x74, 0x78, 0x74]

  /** "README~1.TXT" */
  const ALIAS: Name := [0x52, 0x45, 0x41, 0x44, 0x4D, 0x45, 0x7E, 0x31, 0x2E, 0x54, 0x58, 0x54]

  /** What the bytes are, as the machine sees them. */
  lemma PartsSeen()
    ensures View(LAST) == Part(2, true, 107, Chars(LAST)) && View(FIRST) == Part(1, false, 107, Chars(FIRST))
    ensures View(SHORT).NoPart? && IsShort(SHORT)
  {
  }

  lemma Sum()
    ensures Checksum(0, SHORT[..11]) == 107
  {
    KnownSum();
    assert SHORT[..11] == README;
  }

  lemma AliasRead()
    ensures ShortName(SHORT[..11], SHORT[12]) == ALIAS
  {
    assert SHORT[..11] == README && SHORT[12] == 0;
    assert README[..8][7] == 0x31 && README[8..][2] == 0x54 && README[0] == 0x52;
    ShortNameExact(README, README[..8], README[8..], 0);
    hide ShortName, README;
    AliasIs(ShortName(README, 0));
  }

  lemma AliasIs(name: Name)
    requires |name| == 12 && name[8] == 0x2E
    requires forall i :: 0 <= i < 8 ==> ReadsAs(name[i], README[..8][i], false)
    requires forall i :: 0 <= i < 3 ==> ReadsAs(name[8 + 1 + i], README[8..][i], false)
    ensures name == ALIAS
  {
    forall i | 0 <= i < 8 ensures name[i] == ALIAS[i] {
      assert ReadsAs(name[i], README[..8][i], false);
    }
    forall i | 9 <= i < 12 ensures name[i] == ALIAS[i] {
      assert ReadsAs(name[8 + 1 + (i - 9)], README[8..][i - 9], false);
    }
  }

  lemma Held()
    ensures RunAt(Views([LAST, FIRST, SHORT]), 2) == Run(map[2 := Chars(LAST), 1 := Chars(FIRST)], 2, 107)
  {
    PartsSeen();
    var ss := Views([LAST, FIRST, SHORT]);
    hide Chars, View;
    var one := Run(map[2 := Chars(LAST)], 2, 107);
    assert RunAt(ss, 0) == NoRun && RunAt(ss, 1) == one;
    assert Continues(one, ss[1]);
    assert map[2 := Chars(LAST)][1 := Chars(FIRST)] == map[2 := Chars(LAST), 1 := Chars(FIRST)];
  }

  lemma FirstUnits(units: Name)
    requires units == Units(Chars(FIRST))
    ensures units == LONG[..13]
  {
    hide Chars, Units;
    forall k | 0 <= k < 13 ensures |units| == 13 && units[k] == LONG[k] {
      PartUnits(FIRST, k);
    }
  }

  lemma LastUnits(units: Name)
    requires units == Units(Chars(LAST))
    ensures |units| == 13 && units[..4] == LONG[13..] && units[4] == 0
  {
    hide Chars, Units;
    forall k | 0 <= k < 5 ensures |units| == 13 && units[k] == if k < 4 then LONG[13 + k] else 0 {
      PartUnits(LAST, k);
    }
  }

  /** A name and what stands behind its zero. */
  lemma {:induction false} UntilZero(name: Name, rest: Name)
    requires 0 !in name && rest != [] && rest[0] == 0
    ensures UntilNul(name + rest) == name
  {
    if name == [] {
      assert name + rest == rest;
    } else {
      assert (name + rest)[1..] == name[1..] + rest && (name + rest)[0] == name[0];
      assert name[0] in name;
      UntilZero(name[1..], rest);
    }
  }

  lemma NameIs()
    ensures UntilNul(Units(Chars(FIRST) + Chars(LAST))) == LONG
  {
    hide Chars, Units, UntilNul;
    var a, b := Units(Chars(FIRST)), Units(Chars(LAST));
    FirstUnits(a);
    LastUnits(b);
    UnitsAppend(Chars(FIRST), Chars(LAST));
    NoZero();
    assert LONG == LONG[..13] + LONG[13..] && b == b[..4] + b[4..];
    assert a + b == LONG + b[4..];
    UntilZero(LONG, b[4..]);
  }

  lemma NoZero()
    ensures 0 !in LONG
  {
  }

  // The directory.

  /** The short entry's fields, under a name. */
  function Readme(name: Name, first: nat): Event {
    Found(Entry(name, 0x20, first, 0x12345, Some(1709210096)))
  }

  lemma FieldsAre()
    ensures SHORT[11] == 0x20 && Le16(SHORT, 20) == 1 && Le16(SHORT, 26) == 5 && Le32(SHORT, 28) == 0x12345
    ensures Le16(SHORT, 22) == 0x645C && Le16(SHORT, 24) == 0x585D
  {
  }

  lemma EntryIs(kind: Kind, dir: Name, name: Name)
    ensures [Found(EntryOf(kind, SHORT, name))] == [Readme(name, if kind.Fat32? then 0x10005 else 5)]
    ensures HighHalfFlaws(kind, SHORT, dir, name) == if kind.Fat32? then [] else [Flaw(HighHalf(dir, name, 1))]
  {
    hide Le16, Le32, DosTime;
    FieldsAre();
    KnownTimes();
  }

  lemma JoinedParts(parts: map<nat, Chunk>, a: Chunk, b: Chunk)
    requires parts == map[2 := b, 1 := a]
    ensures |parts| == 2 && 1 in parts && 2 in parts && Joined(parts, 1, 2) == a + b
  {
    assert parts.Keys == {1, 2};
    assert Joined(parts, 3, 2) == [] && Joined(parts, 2, 2) == b + [];
  }

  lemma LongStored(dir: Name)
    ensures var r := Run(map[2 := Chars(LAST), 1 := Chars(FIRST)], 2, 107);
      StoredName(r, SHORT) == LONG && NameFlaws(r, SHORT, dir) == []
  {
    hide Chars, Units, UntilNul, Checksum, ShortName, Joined;
    Sum();
    JoinedParts(map[2 := Chars(LAST), 1 := Chars(FIRST)], Chars(FIRST), Chars(LAST));
    NameIs();
  }

  /** The long name and its short entry read as one entry of the long name. On FAT16 the half of the cluster that has
      no meaning there is reported, and left out. */
  lemma ReadmeRead(kind: Kind, dir: Name)
    ensures Decode(kind, [LAST, FIRST, SHORT], 3, dir)
         == if kind.Fat32? then [Readme(LONG, 0x10005)] else [Flaw(HighHalf(dir, LONG, 1)), Readme(LONG, 5)]
  {
    hide Chars, View, EventsOf, StoredName, NameFlaws, EntryOf, HighHalfFlaws, Readme, IsShort, RunAt;
    var es: seq<Raw>, r := [LAST, FIRST, SHORT], Run(map[2 := Chars(LAST), 1 := Chars(FIRST)], 2, 107);
    PartsSeen();
    Held();
    LongStored(dir);
    PartsQuiet(kind, dir);
    ShortEvents(kind, r, SHORT, dir);
    EntryIs(kind, dir, LONG);
    assert Decode(kind, es, 0, dir) == [] && Decode(kind, es, 1, dir) == [] + [] && Decode(kind, es, 2, dir) == [] + [];
    assert Decode(kind, es, 3, dir) == [] + EventsOf(kind, r, SHORT, dir);
  }

  lemma PartsQuiet(kind: Kind, dir: Name)
    ensures EventsOf(kind, NoRun, LAST, dir) == []
    ensures EventsOf(kind, RunAt(Views([LAST, FIRST, SHORT]), 1), FIRST, dir) == []
    ensures RunAt(Views([LAST, FIRST, SHORT]), 0) == NoRun
  {
    hide Chars, View, StoredName, NameFlaws;
    PartsSeen();
    var ss := Views([LAST, FIRST, SHORT]);
    assert RunAt(ss, 1) == Run(map[2 := Chars(LAST)], 2, 107);
    PartEvents(kind, NoRun, LAST, dir);
    PartEvents(kind, RunAt(ss, 1), FIRST, dir);
  }

  /** The short entry after the first part alone, after the last alone, and after both with another first letter. */
  lemma ReadmeFlaws(dir: Name)
    ensures Decode(Fat32, [FIRST, SHORT], 2, dir) == [Flaw(PartOutOfOrder(dir)), Readme(ALIAS, 0x10005)]
    ensures Decode(Fat32, [LAST, SHORT], 2, dir) == [Flaw(PartsMissing(dir, ALIAS)), Readme(ALIAS, 0x10005)]
  {
    hide Chars, View, EventsOf, StoredName, NameFlaws, EntryOf, HighHalfFlaws, Readme, IsShort, ShortName;
    PartsSeen();
    FirstAlone(dir);
    LastAlone(dir);
    Two(Fat32, FIRST, SHORT, dir);
    Two(Fat32, LAST, SHORT, dir);
  }

  lemma FirstAlone(dir: Name)
    ensures EventsOf(Fat32, NoRun, FIRST, dir) == [Flaw(PartOutOfOrder(dir))]
    ensures EventsOf(Fat32, NextRun(NoRun, View(FIRST)), SHORT, dir) == [Readme(ALIAS, 0x10005)]
  {
    hide Chars, View, EventsOf, StoredName, NameFlaws, EntryOf, HighHalfFlaws, Readme, IsShort, ShortName;
    PartsSeen();
    PartEvents(Fat32, NoRun, FIRST, dir);
    assert NextRun(NoRun, View(FIRST)) == NoRun;
    NoRunName(SHORT, dir);
    AliasRead();
    ShortEvents(Fat32, NoRun, SHORT, dir);
    EntryIs(Fat32, dir, ALIAS);
    assert [] + [Readme(ALIAS, 0x10005)] == [Readme(ALIAS, 0x10005)];
  }

  lemma LastAlone(dir: Name)
    ensures EventsOf(Fat32, NoRun, LAST, dir) == []
    ensures EventsOf(Fat32, NextRun(NoRun, View(LAST)), SHORT, dir)
         == [Flaw(PartsMissing(dir, ALIAS)), Readme(ALIAS, 0x10005)]
  {
    hide Chars, View, EntryOf, HighHalfFlaws, Readme, ShortName, Checksum, Le16, Le32, DosTime;
    PartsSeen();
    PartEvents(Fat32, NoRun, LAST, dir);
    var r := Run(map[2 := Chars(LAST)], 2, 107);
    assert NextRun(NoRun, View(LAST)) == r && !Complete(r);
    AliasRead();
    EntryIs(Fat32, dir, ALIAS);
    FlawedEvents(r, dir);
  }

  lemma FlawedEvents(r: Run, dir: Name)
    ensures EventsOf(Fat32, r, SHORT, dir)
         == NameFlaws(r, SHORT, dir) + [Found(EntryOf(Fat32, SHORT, StoredName(r, SHORT)))]
  {
    hide StoredName, NameFlaws, DosTime;
    PartsSeen();
  }

  /** The short entry after a whole run of parts with another checksum. */
  lemma OtherSum(chars: Chunk, dir: Name)
    ensures EventsOf(Fat32, Run(map[1 := chars], 1, 106), SHORT, dir)
         == [Flaw(ChecksumWrong(dir, ALIAS)), Readme(ALIAS, 0x10005)]
  {
    hide EntryOf, HighHalfFlaws, Readme, ShortName, Checksum, EventsOf;
    var r := Run(map[1 := chars], 1, 106);
    Sum();
    AliasRead();
    EntryIs(Fat32, dir, ALIAS);
    FlawedEvents(r, dir);
    assert r.parts.Keys == {1};
  }
}
