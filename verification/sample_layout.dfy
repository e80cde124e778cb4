/** Volumes given byte by byte, with two FAT copies: that they open, what their FATs and short entries read as. */
module SampleLayout {
  import opened Results
  import opened Bytes
  import opened Report
  import opened Chains
  import opened Geometries
  import opened DosTimes
  import opened Directories
  import opened LongNames
  import opened ShortNames
  import opened Heads

  /** A volume with two FAT copies: its layout, and the bytes before the copies, of each copy, and after them. */
  datatype Sample = Sample(g: Geometry, head: nat -> byte, fat: nat -> byte, tail: nat -> byte) {

    function FatAt(): nat {
      g.reserved * SECTOR
    }

    function FatBytes(): nat {
      g.fatSectors * SECTOR
    }

    /** The byte where the root begins. */
    function TailAt(): nat {
      FatAt() + FatBytes() + FatBytes()
    }
  }

  function ByteAt(s: Sample, i: nat): byte {
    if i < s.FatAt() then s.head(i)
    else if i < s.FatAt() + s.FatBytes() then s.fat(i - s.FatAt())
    else if i < s.TailAt() then s.fat(i - s.FatAt() - s.FatBytes())
    else s.tail(i - s.TailAt())
  }

  function BytesFrom(s: Sample, from: nat, n: nat): (r: seq<byte>)
    ensures |r| == n && forall i :: 0 <= i < n ==> r[i] == ByteAt(s, from + i)
  {
    seq<byte>(n, i requires 0 <= i < n => ByteAt(s, from + i))
  }

  function ImageOf(s: Sample): (r: seq<byte>)
    ensures |r| == s.g.total * SECTOR && forall i :: 0 <= i < |r| ==> r[i] == ByteAt(s, i)
  {
    BytesFrom(s, 0, s.g.total * SECTOR)
  }

  /** A FAT copy. */
  function Fat(s: Sample): seq<byte> {
    BytesFrom(s, s.FatAt(), s.FatBytes())
  }

  function Volume(s: Sample): Disk {
    Disk(ImageOf(s), 0, s.g, [Fat(s), Fat(s)])
  }

  lemma Slice(s: Sample, from: nat, n: nat)
    requires from + n <= s.g.total * SECTOR
    ensures ImageOf(s)[from..from + n] == BytesFrom(s, from, n)
  {
    hide ByteAt;
  }

  lemma SectorsAt(s: Sample, lba: nat, count: nat)
    requires lba + count <= s.g.total
    ensures Sectors(ImageOf(s), 0, lba, count) == Ok(BytesFrom(s, lba * SECTOR, count * SECTOR))
  {
    hide ByteAt, ImageOf, BytesFrom;
    Slice(s, lba * SECTOR, count * SECTOR);
  }

  lemma HeadBytes(s: Sample, from: nat, n: nat)
    requires from + n <= s.FatAt()
    ensures forall i :: 0 <= i < n ==> BytesFrom(s, from, n)[i] == s.head(from + i)
  {
    forall i | 0 <= i < n ensures BytesFrom(s, from, n)[i] == s.head(from + i) {
      assert BytesFrom(s, from, n)[i] == ByteAt(s, from + i);
    }
  }

  lemma SecondCopy(s: Sample)
    ensures BytesFrom(s, s.FatAt() + s.FatBytes(), s.FatBytes()) == Fat(s)
  {
    var a, b := BytesFrom(s, s.FatAt() + s.FatBytes(), s.FatBytes()), Fat(s);
    forall i | 0 <= i < s.FatBytes() ensures a[i] == b[i] {
      assert ByteAt(s, s.FatAt() + s.FatBytes() + i) == s.fat(i) == ByteAt(s, s.FatAt() + i);
    }
  }

  lemma TwoCopies(img: seq<byte>, base: nat, g: Geometry, fat: seq<byte>)
    requires Sectors(img, base, g.CopyLba(0), g.fatSectors) == Ok(fat)
        && Sectors(img, base, g.CopyLba(1), g.fatSectors) == Ok(fat)
    ensures Copies(img, base, g, 2) == Ok([fat, fat])
  {
    hide Sectors, Geometry.CopyLba;
    assert Copies(img, base, g, 0) == Ok([]);
    assert Copies(img, base, g, 1) == Ok([] + [fat]);
    assert [] + [fat] + [fat] == [fat, fat];
  }

  lemma CopiesRead(s: Sample)
    requires s.g.reserved + 2 * s.g.fatSectors <= s.g.total
    ensures Copies(ImageOf(s), 0, s.g, 2) == Ok([Fat(s), Fat(s)])
  {
    hide BytesFrom, ImageOf, Sectors, ByteAt, Copies;
    SectorsAt(s, s.g.reserved, s.g.fatSectors);
    SectorsAt(s, s.g.reserved + s.g.fatSectors, s.g.fatSectors);
    SecondCopy(s);
    hide Fat;
    TwoCopies(ImageOf(s), 0, s.g, Fat(s));
  }

  /** A boot sector of the layout makes the volume one that opens. */
  lemma Opens(s: Sample)
    requires 1 <= s.g.reserved && s.g.nfats == 2 && s.g.reserved + 2 * s.g.fatSectors <= s.g.total
    requires Layout(BytesFrom(s, 0, SECTOR)) == Ok(s.g) && s.head(510) == 0x55 && s.head(511) == 0xAA
    ensures Mounted(Volume(s))
  {
    Slice(s, 0, SECTOR);
    CopiesRead(s);
    var b := BytesFrom(s, 0, SECTOR);
    assert b[510] == 0x55 && b[511] == 0xAA;
    hide BytesFrom, ByteAt, Layout, Copies, ImageOf, Fat;
    assert Clip(ImageOf(s), 0, SECTOR) == b;
    hide Clip;
    assert Open(ImageOf(s), 0) == Ok(Volume(s));
  }

  // The FAT.

  function FatValue(s: Sample, c: nat): nat {
    if s.g.kind.Fat32? then
      (s.fat(c * 4) as int + 0x100 * s.fat(c * 4 + 1) as int
       + 0x1_0000 * (s.fat(c * 4 + 2) as int + 0x100 * s.fat(c * 4 + 3) as int)) % 0x1000_0000
    else s.fat(c * 2) as int + 0x100 * s.fat(c * 2 + 1) as int
  }

  lemma FatByteAt(s: Sample, i: nat)
    requires i < |Fat(s)|
    ensures Fat(s)[i] == s.fat(i)
  {
    assert Fat(s)[i] == ByteAt(s, s.FatAt() + i);
  }

  lemma FatReads(s: Sample, c: nat)
    requires Mounted(Volume(s)) && c <= s.g.MaxCluster()
    ensures FatOf(Volume(s), c) == FatValue(s, c)
  {
    hide Mounted, BytesFrom, ByteAt, Fat, ImageOf, FatValue, Geometries.Entry;
    MountedAccepted(Volume(s));
    EntryInside(s.g, 0, c);
    EntryReads(s, c);
  }

  lemma EntryReads(s: Sample, c: nat)
    requires c * s.g.EntryBytes() + s.g.EntryBytes() <= |Fat(s)|
    ensures Geometries.Entry(s.g, Fat(s), c) == FatValue(s, c)
  {
    hide BytesFrom, ByteAt, Fat;
    var at := c * s.g.EntryBytes();
    FatByteAt(s, at);
    FatByteAt(s, at + 1);
    if s.g.kind.Fat32? {
      FatByteAt(s, at + 2);
      FatByteAt(s, at + 3);
    }
  }

  lemma TableIs(s: Sample, t: Table)
    requires Mounted(Volume(s)) && t == TableOf(Volume(s))
    ensures |t.next| == s.g.MaxCluster() + 1 && t.eoc == s.g.Eoc() && t.bad == s.g.Bad()
    ensures forall c :: 0 <= c <= s.g.MaxCluster() ==> t.next[c] == FatValue(s, c)
  {
    hide Mounted, FatOf, Fat, ByteAt, ImageOf, FatValue;
    forall c | 0 <= c < |t.next| ensures t.next[c] == FatValue(s, c) {
      FatReads(s, c);
    }
  }

  // Entries.

  /** A short entry: two bytes of name, attributes, first cluster, and two bytes of size. */
  datatype Laid = Laid(name: byte, second: byte, attr: byte, first: byte, low: byte, high: byte)

  function EntryByte(l: Laid, i: nat): byte {
    if i == 0 then l.name else if i == 1 then l.second else if i <= 10 then SPACE else if i == 11 then l.attr
    else if i == 26 then l.first else if i == 28 then l.low else if i == 29 then l.high else 0
  }

  /** A name of one or two characters, of a file or a directory. */
  predicate Readable(l: Laid) {
    l.name !in {0, 0x05, SPACE, DELETED} && l.attr in {0x10, 0x20}
  }

  function EntryOfLaid(l: Laid): Entry {
    Entry(if l.second == SPACE then [l.name] else [l.name, l.second], l.attr, l.first,
          l.low as int + 0x100 * l.high as int, None)
  }

  predicate LaidEntry(e: Raw, l: Laid) {
    forall i :: 0 <= i < 32 ==> e[i] == EntryByte(l, i)
  }

  lemma ShortNamed(e: Raw, l: Laid)
    requires LaidEntry(e, l) && Readable(l)
    ensures ShortName(e[..11], e[12]) == EntryOfLaid(l).name
  {
    var short, k := e[..11], if l.second == SPACE then 1 else 2;
    assert short[0] == l.name && short[1] == l.second && e[12] == 0;
    Stripped(short[..8], k);
    Stripped(short[8..], 0);
    assert RStrip(short[..8]) == short[..k] == EntryOfLaid(l).name;
    hide RStrip;
    assert Text(short[..k], false) == short[..k];
  }

  lemma EntryRead(kind: Kind, e: Raw, l: Laid, dir: Name)
    requires LaidEntry(e, l) && Readable(l)
    ensures View(e).NoPart? && EventsOf(kind, NoRun, e, dir) == [Found(EntryOfLaid(l))]
  {
    hide ShortName, EventsOf, LaidEntry, Le16, Le32, DosTime;
    ShortNamed(e, l);
    FieldsAre(e, l);
    NoTime();
    ShortEvents(kind, NoRun, e, dir);
    assert [] + [Found(EntryOf(kind, e, EntryOfLaid(l).name))] == [Found(EntryOf(kind, e, EntryOfLaid(l).name))];
  }

  lemma NoTime()
    ensures DosTime(0, 0) == None
  {
  }

  /** The fields are the first cluster, the size, and no time. */
  lemma FieldsAre(e: Raw, l: Laid)
    requires LaidEntry(e, l)
    ensures e[0] == l.name && e[11] == l.attr && Le16(e, 20) == 0 && Le16(e, 26) == l.first as int
    ensures Le16(e, 22) == 0 && Le16(e, 24) == 0 && Le32(e, 28) == l.low as int + 0x100 * l.high as int
  {
    assert e[20] == 0 && e[21] == 0 && e[22] == 0 && e[23] == 0 && e[24] == 0 && e[25] == 0;
    assert e[26] == l.first && e[27] == 0 && e[28] == l.low && e[29] == l.high && e[30] == 0 && e[31] == 0;
    hide LaidEntry;
  }

  // The media byte.

  lemma CopiesSound(s: Sample)
    requires Mounted(Volume(s)) && 1 <= s.g.reserved && 1 <= s.g.total && FatValue(s, 0) % 0x100 == s.head(21) as int
    ensures SoundCopies(Volume(s))
  {
    hide Mounted, FatOf, Fat, ByteAt, FatValue, ImageOf;
    FatReads(s, 0);
    MediaByteIs(s);
    assert Volume(s).fats == [Fat(s), Fat(s)];
  }

  lemma MediaByteIs(s: Sample)
    requires 1 <= s.g.reserved && 1 <= s.g.total
    ensures 21 < |ImageOf(s)| && ImageOf(s)[21] == s.head(21)
  {
    assert ImageOf(s)[21] == ByteAt(s, 21);
  }

  // FAT16 volumes of one small layout: one sector a cluster, and a root of one sector.

  const SMALL := Geometry(Fat16, 1, 1, 2, 16, 4119, 16, 4085, 0, 0, 0, 0, 0)

  function SmallBoot(i: nat): byte {
    if i == 12 then 2 else if i == 13 then 1 else if i == 14 then 1 else if i == 16 then 2 else if i == 17 then 16
    else if i == 19 then 0x17 else if i == 20 then 0x10 else if i == 21 then 0xF8 else if i == 22 then 16
    else if i == 510 then 0x55 else if i == 511 then 0xAA else 0
  }

  function Small(fat: nat -> byte, tail: nat -> byte): Sample {
    Sample(SMALL, SmallBoot, fat, tail)
  }

  lemma SmallLaid(s: Sample)
    requires s.g == SMALL && s.head == SmallBoot
    ensures Layout(BytesFrom(s, 0, SECTOR)) == Ok(SMALL)
  {
    var b := BytesFrom(s, 0, SECTOR);
    HeadBytes(s, 0, SECTOR);
    hide BytesFrom, ByteAt;
    assert b[11] == 0 && b[12] == 2 && b[13] == 1 && b[14] == 1 && b[15] == 0 && b[16] == 2 && b[17] == 16
        && b[18] == 0;
    assert b[19] == 0x17 && b[20] == 0x10 && b[22] == 16 && b[23] == 0;
    assert b[40] == 0 && b[41] == 0 && b[42] == 0 && b[43] == 0 && b[48] == 0 && b[49] == 0 && b[50] == 0 && b[51] == 0;
    hide SmallBoot;
  }

  /** Such a volume opens, and its own fields are sound, if its FAT has the media byte. */
  lemma SmallOpens(s: Sample)
    requires s.g == SMALL && s.head == SmallBoot
    ensures Mounted(Volume(s)) && (FatValue(s, 0) % 0x100 == 0xF8 ==> SoundFields(Volume(s)))
  {
    hide Mounted, BytesFrom, ByteAt, FatValue, FatOf, Layout, ImageOf, Fat, SoundCopies;
    SmallLaid(s);
    Opens(s);
    if FatValue(s, 0) % 0x100 == 0xF8 {
      CopiesSound(s);
    }
  }

  lemma SmallRoot(s: Sample, es: seq<Raw>)
    requires Mounted(Volume(s)) && s.g == SMALL && Slots(BytesFrom(s, s.TailAt(), SECTOR)) == es
    ensures RawEntries(Volume(s), 0) == Ok(es)
  {
    hide Mounted, BytesFrom, ImageOf, Slots, Sectors, Fat;
    SectorsAt(s, 33, 1);
    assert SMALL.RootStart() == 33 && SMALL.RootSectors() == 1;
    assert DirBytes(Volume(s), 0) == Ok(BytesFrom(s, s.TailAt(), SECTOR));
  }
}
