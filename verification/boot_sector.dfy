/** Which bytes are a volume: what an accepted boot sector says, field by field, and what every other is refused for. */
module BootSectors {
  import opened Results
  import opened Bytes
  import opened Report
  import opened Chains
  import opened Geometries

  /** The sector's bytes say the layout `g`, and `g` is one that the reader takes. */
  ghost predicate Says(b: seq<byte>, g: Geometry)
    requires |b| == 512
  {
    var data := g.reserved + g.nfats * g.fatSectors + (g.rootEntries + 15) / 16;
    && Le16(b, 11) == 512 && g.spc == b[13] as int && g.spc in {1, 2, 4, 8, 16, 32, 64, 128}
    && g.reserved == Le16(b, 14) && g.nfats == b[16] as int && g.rootEntries == Le16(b, 17)
    && g.total == (if Le16(b, 19) != 0 then Le16(b, 19) else Le32(b, 32))
    && g.fatSectors == (if Le16(b, 22) != 0 then Le16(b, 22) else Le32(b, 36)) && g.fatSectors != 0
    && 4085 <= g.clusters && data + g.clusters * g.spc <= g.total < data + g.clusters * g.spc + g.spc
    && (if g.clusters < 65525 then
          g.kind == Fat16 && g.rootCluster == 0 && (g.clusters + 2) * 2 <= g.fatSectors * 512
        else
          && g.kind == Fat32 && g.rootEntries == 0 && Le16(b, 22) == 0 && g.rootCluster == Le32(b, 44)
          && (g.clusters + 2) * 4 <= g.fatSectors * 512)
    && g.extFlags == Le16(b, 40) && g.version == Le16(b, 42) && g.fsinfo == Le16(b, 48) && g.backupBoot == Le16(b, 50)
  }

  /** The sectors before the first cluster, as the fields have them. */
  function Before(b: seq<byte>): int
    requires |b| == 512
  {
    var fat := if Le16(b, 22) != 0 then Le16(b, 22) else Le32(b, 36);
    Le16(b, 14) + b[16] as int * fat + (Le16(b, 17) + 15) / 16
  }

  /** How many clusters the fields leave room for; it may be fewer than none. */
  ghost predicate Room(b: seq<byte>, clusters: int)
    requires |b| == 512
  {
    var total := if Le16(b, 19) != 0 then Le16(b, 19) else Le32(b, 32);
    Before(b) + clusters * b[13] as int <= total < Before(b) + clusters * b[13] as int + b[13] as int
  }

  lemma StartIs(b: seq<byte>, g: Geometry)
    requires |b| == 512 && g.reserved == Le16(b, 14) && g.nfats == b[16] as int && g.rootEntries == Le16(b, 17)
    requires g.fatSectors == if Le16(b, 22) != 0 then Le16(b, 22) else Le32(b, 36)
    ensures g.DataStart() == Before(b)
  {
    hide Le16, Le32;
    assert (g.rootEntries * 32 + 511) / 512 == (g.rootEntries + 15) / 16;
  }

  lemma MulAtMost(a: int, b: int, m: nat)
    requires a <= b
    ensures a * m <= b * m
  {
  }

  /** The quotient is the only number of clusters that fits. */
  lemma RoomIs(room: int, spc: nat, clusters: int)
    requires 0 < spc
    ensures clusters == room / spc <==> clusters * spc <= room < clusters * spc + spc
  {
    var q := room / spc;
    RoomFor(room, spc);
    assert (clusters + 1) * spc == clusters * spc + spc && (q + 1) * spc == q * spc + spc;
    if clusters < q {
      MulAtMost(clusters + 1, q, spc);
    } else if clusters > q {
      MulAtMost(q + 1, clusters, spc);
    }
  }

  /** A boot sector is accepted with a layout if and only if it says that layout. */
  lemma LayoutExact(b: seq<byte>, g: Geometry)
    requires |b| == 512
    ensures Layout(b) == Ok(g) <==> Says(b, g)
  {
    hide Le16, Le32;
    if Layout(b) == Ok(g) || Says(b, g) {
      StartIs(b, g);
      RoomIs(g.total - Before(b), g.spc, g.clusters);
      FatHolds(g.fatSectors, g.clusters);
    }
  }

  lemma FatHolds(fatSectors: nat, clusters: nat)
    ensures fatSectors * 512 / 2 < clusters + 2 <==> (clusters + 2) * 2 > fatSectors * 512
    ensures fatSectors * 512 / 4 < clusters + 2 <==> (clusters + 2) * 4 > fatSectors * 512
  {
  }

  /** Every other is refused, for the first of these that is so. */
  lemma LayoutRefuses(b: seq<byte>, clusters: int)
    requires |b| == 512 && (b[13] != 0 ==> Room(b, clusters))
    ensures Le16(b, 11) != 512 ==> Layout(b) == Err(SectorSize(Le16(b, 11)))
    ensures Le16(b, 11) == 512 && b[13] !in {1, 2, 4, 8, 16, 32, 64, 128} ==> Layout(b) == Err(ClusterSize(b[13]))
    ensures Le16(b, 11) == 512 && b[13] in {1, 2, 4, 8, 16, 32, 64, 128} ==>
      var fat := if Le16(b, 22) != 0 then Le16(b, 22) else Le32(b, 36);
      && (fat == 0 ==> Layout(b) == Err(NoFatSize))
      && (fat != 0 && clusters < 4085 ==> Layout(b) == Err(Fat12(clusters)))
      && (fat != 0 && clusters >= 65525 && (Le16(b, 17) != 0 || Le16(b, 22) != 0) ==> Layout(b) == Err(Fat16Fields))
      && (fat != 0 && 4085 <= clusters < 65525 && (clusters + 2) * 2 > fat * 512 ==>
            Layout(b) == Err(FatTooSmall(fat)))
      && (fat != 0 && clusters >= 65525 && Le16(b, 17) == 0 && Le16(b, 22) == 0 && (clusters + 2) * 4 > fat * 512 ==>
            Layout(b) == Err(FatTooSmall(fat)))
  {
    hide Le16, Le32;
    if Le16(b, 11) == 512 && b[13] in {1, 2, 4, 8, 16, 32, 64, 128} {
      var total := if Le16(b, 19) != 0 then Le16(b, 19) else Le32(b, 32);
      var fat := if Le16(b, 22) != 0 then Le16(b, 22) else Le32(b, 36);
      var g := Geometry(Fat16, b[13] as int, Le16(b, 14), b[16], Le16(b, 17), total, fat, 0,
                        0, Le16(b, 40), Le16(b, 42), Le16(b, 48), Le16(b, 50));
      StartIs(b, g);
      RoomIs(total - Before(b), b[13] as int, clusters);
      if clusters >= 0 {
        FatHolds(fat, clusters);
      }
    }
  }

  /** The bytes of the volume's boot sector, its mark at the end. */
  ghost predicate Marked(img: seq<byte>, base: nat) {
    base + 512 <= |img| && img[base + 510] == 0x55 && img[base + 511] == 0xAA
  }

  /** The bytes of FAT copy `k`, where the layout has it. */
  ghost predicate CopyAt(img: seq<byte>, base: nat, g: Geometry, k: nat, fat: seq<byte>) {
    var at := base + (g.reserved + k * g.fatSectors) * 512;
    at + g.fatSectors * 512 <= |img| && fat == img[at..at + g.fatSectors * 512]
  }

  lemma CopyReads(img: seq<byte>, base: nat, g: Geometry, k: nat, fat: seq<byte>)
    requires 0 < g.fatSectors
    ensures Sectors(img, base, g.CopyLba(k), g.fatSectors) == Ok(fat) <==> CopyAt(img, base, g, k, fat)
  {
  }

  lemma {:induction false} CopiesBytes(img: seq<byte>, base: nat, g: Geometry, n: nat, fats: seq<seq<byte>>)
    requires 0 < g.fatSectors
    ensures Copies(img, base, g, n) == Ok(fats) <==>
      |fats| == n && forall k :: 0 <= k < n ==> CopyAt(img, base, g, k, fats[k])
    decreases n
  {
    hide Sectors, CopyAt, Geometry.CopyLba;
    if n == 0 {
    } else if |fats| == n {
      var front, last := fats[..n - 1], fats[n - 1];
      assert fats == front + [last];
      CopiesBytes(img, base, g, n - 1, front);
      CopyReads(img, base, g, n - 1, last);
      assert forall k :: 0 <= k < n - 1 ==> fats[k] == front[k];
      if Copies(img, base, g, n) == Ok(fats) {
        assert Copies(img, base, g, n - 1).value == front;
      }
    }
  }

  /** A volume opens as `d` if and only if its bytes at `d.base` are a marked boot sector that says `d.g`, and its FAT
      copies are the image's bytes where that has them. */
  lemma OpenExact(d: Disk)
    ensures Open(d.img, d.base) == Ok(d) <==>
      && Marked(d.img, d.base) && Says(d.img[d.base..d.base + 512], d.g) && |d.fats| == d.g.nfats
      && forall k :: 0 <= k < d.g.nfats ==> CopyAt(d.img, d.base, d.g, k, d.fats[k])
  {
    hide Layout, Copies, Says, CopyAt;
    if Marked(d.img, d.base) {
      var boot := d.img[d.base..d.base + 512];
      assert Clip(d.img, d.base, d.base + SECTOR) == boot;
      LayoutExact(boot, d.g);
      if Says(boot, d.g) {
        FatPositive(boot, d.g);
        CopiesBytes(d.img, d.base, d.g, d.g.nfats, d.fats);
      }
    }
  }

  lemma FatPositive(b: seq<byte>, g: Geometry)
    requires |b| == 512 && Says(b, g)
    ensures 0 < g.fatSectors
  {
  }

  /** The image is too short for FAT copy `k`, and for none before. */
  ghost predicate EndsIn(img: seq<byte>, base: nat, g: Geometry, k: nat) {
    && base + (g.reserved + k * g.fatSectors + g.fatSectors) * 512 > |img|
    && (k == 0 || base + (g.reserved + k * g.fatSectors) * 512 <= |img|)
  }

  lemma {:induction false} CopiesEnd(img: seq<byte>, base: nat, g: Geometry, n: nat, k: nat)
    requires 0 < g.fatSectors && k < n && EndsIn(img, base, g, k)
    ensures Copies(img, base, g, n) == Err(PastTheEnd(g.reserved + k * g.fatSectors, g.fatSectors))
    decreases n
  {
    hide Sectors, EndsIn, Geometry.CopyLba;
    if n - 1 == k {
      FirstThere(img, base, g, k);
      NoCopy(img, base, g, k);
    } else {
      CopiesEnd(img, base, g, n - 1, k);
    }
  }

  lemma FirstThere(img: seq<byte>, base: nat, g: Geometry, k: nat)
    requires 0 < g.fatSectors && EndsIn(img, base, g, k)
    ensures Copies(img, base, g, k).Ok?
  {
    hide Copies;
    CopiesThere(img, base, g, k);
  }

  lemma NoCopy(img: seq<byte>, base: nat, g: Geometry, k: nat)
    requires 0 < g.fatSectors && EndsIn(img, base, g, k)
    ensures Sectors(img, base, g.CopyLba(k), g.fatSectors)
         == Err(PastTheEnd(g.reserved + k * g.fatSectors, g.fatSectors))
  {
  }

  lemma {:induction false} CopiesThere(img: seq<byte>, base: nat, g: Geometry, n: nat)
    requires 0 < g.fatSectors && (n == 0 || base + (g.reserved + n * g.fatSectors) * 512 <= |img|)
    ensures Copies(img, base, g, n).Ok?
    decreases n
  {
    if n == 0 {
    } else {
      assert n * g.fatSectors == (n - 1) * g.fatSectors + g.fatSectors;
      CopiesThere(img, base, g, n - 1);
      var at := base + (g.reserved + (n - 1) * g.fatSectors) * 512;
      CopyReads(img, base, g, n - 1, img[at..at + g.fatSectors * 512]);
    }
  }

  /** Without the mark, or with too few bytes, there is no volume. */
  lemma NotMarked(img: seq<byte>, base: nat)
    requires !Marked(img, base)
    ensures Open(img, base) == Err(NoSignature)
  {
    hide Layout, Copies;
  }

  /** With it, what the boot sector or a copy is refused for is what the volume is. */
  lemma OpenSteps(img: seq<byte>, base: nat)
    requires Marked(img, base)
    ensures var layout := Layout(img[base..base + 512]);
      && (layout.Err? ==> Open(img, base) == Err(layout.error))
      && (layout.Ok? ==>
            var copies := Copies(img, base, layout.value, layout.value.nfats);
            copies.Err? ==> Open(img, base) == Err(copies.error))
  {
    MarkIs(img, base);
    hide Layout, Copies, Marked, Clip;
  }

  lemma MarkIs(img: seq<byte>, base: nat)
    requires Marked(img, base)
    ensures base + 512 <= |img| && Clip(img, base, base + 512) == img[base..base + 512]
    ensures img[base..base + 512][510] == 0x55 && img[base..base + 512][511] == 0xAA
  {
  }

  /** A marked boot sector may still be refused because the image is too short for a FAT copy: the first such one is
      reported. */
  lemma OpenEnds(img: seq<byte>, base: nat, g: Geometry, k: nat)
    requires Marked(img, base) && Says(img[base..base + 512], g) && k < g.nfats && EndsIn(img, base, g, k)
    ensures match Open(img, base)
            case Err(PastTheEnd(lba, count)) => lba == g.reserved + k * g.fatSectors && count == g.fatSectors
            case _ => false
  {
    hide Open, Layout, Copies, Says, EndsIn;
    OpenSteps(img, base);
    LayoutExact(img[base..base + 512], g);
    FatPositive(img[base..base + 512], g);
    CopiesEnd(img, base, g, g.nfats, k);
  }

  // The FAT's entries.

  /** The entry of cluster `c`, from the image's bytes. */
  function EntryValue(d: Disk, c: nat): nat
    requires d.base + d.g.reserved * 512 + (if d.g.kind.Fat32? then 4 * c + 4 else 2 * c + 2) <= |d.img|
  {
    var at := d.base + d.g.reserved * 512;
    if d.g.kind.Fat32? then
      (d.img[at + 4 * c] as int + 0x100 * d.img[at + 4 * c + 1] as int
       + 0x1_0000 * d.img[at + 4 * c + 2] as int + 0x100_0000 * d.img[at + 4 * c + 3] as int) % 0x1000_0000
    else d.img[at + 2 * c] as int + 0x100 * d.img[at + 2 * c + 1] as int
  }

  lemma SectorsAre(img: seq<byte>, base: nat, lba: nat, count: nat, data: seq<byte>)
    requires Sectors(img, base, lba, count) == Ok(data) && 0 < count
    ensures var at := base + lba * 512;
      |data| == count * 512 && at + |data| <= |img| && data == img[at..at + |data|]
  {
  }

  lemma FirstCopyBytes(d: Disk)
    requires Mounted(d)
    ensures |d.fats| == d.g.nfats && 1 <= d.g.nfats
    ensures var at, n := d.base + d.g.reserved * 512, d.g.fatSectors * 512;
      |d.fats[0]| == n && at + n <= |d.img| && d.fats[0] == d.img[at..at + n]
  {
    hide Mounted, Sectors;
    MountedAccepted(d);
    assert d.g.CopyLba(0) == d.g.reserved;
    SectorsAre(d.img, d.base, d.g.reserved, d.g.fatSectors, d.fats[0]);
  }

  lemma EntryRoom(d: Disk, c: nat)
    requires Mounted(d) && c <= d.g.clusters + 1
    ensures (if d.g.kind.Fat32? then 4 * c + 4 else 2 * c + 2) <= d.g.fatSectors * 512
  {
    hide Mounted;
    MountedAccepted(d);
  }

  lemma Value16(img: seq<byte>, at: nat, fat: seq<byte>, c: nat)
    requires at + |fat| <= |img| && fat == img[at..at + |fat|] && c * 2 + 2 <= |fat|
    ensures Le16(fat, c * 2) == img[at + 2 * c] as int + 0x100 * img[at + 2 * c + 1] as int
  {
  }

  lemma Value32(img: seq<byte>, at: nat, fat: seq<byte>, c: nat)
    requires at + |fat| <= |img| && fat == img[at..at + |fat|] && c * 4 + 4 <= |fat|
    ensures Le32(fat, c * 4) == img[at + 4 * c] as int + 0x100 * img[at + 4 * c + 1] as int
                                + 0x1_0000 * img[at + 4 * c + 2] as int + 0x100_0000 * img[at + 4 * c + 3] as int
  {
  }

  /** An entry is two bytes of the first FAT copy, or four without their highest four bits. */
  lemma EntryExact(d: Disk, c: nat)
    requires Mounted(d) && c <= d.g.clusters + 1
    ensures d.base + d.g.reserved * 512 + (if d.g.kind.Fat32? then 4 * c + 4 else 2 * c + 2) <= |d.img|
    ensures FatOf(d, c) == EntryValue(d, c)
  {
    hide Mounted, Accepted, Le16, Le32, Geometry.CopyLba, Geometry.EntryAt;
    FirstCopyBytes(d);
    EntryRoom(d, c);
    var at := d.base + d.g.reserved * 512;
    if d.g.kind.Fat32? {
      Value32(d.img, at, d.fats[0], c);
    } else {
      Value16(d.img, at, d.fats[0], c);
    }
  }

  /** What an entry says, by its value: from 0xFFF8 or 0x0FFFFFF8 on a chain ends, 0xFFF7 or 0x0FFFFFF7 is a bad
      cluster's, and 0 a free one's. */
  lemma MarksExact(d: Disk, c: nat)
    requires Mounted(d)
    ensures TableOf(d).Holds(c) <==> 2 <= c <= d.g.clusters + 1
    ensures TableOf(d).Holds(c) ==>
      var v := FatOf(d, c);
      && (TableOf(d).Free(c) <==> v == 0)
      && (TableOf(d).Bad(c) <==> v == if d.g.kind.Fat32? then 0x0FFF_FFF7 else 0xFFF7)
      && (TableOf(d).Ends(c) <==> v >= if d.g.kind.Fat32? then 0x0FFF_FFF8 else 0xFFF8)
      && (TableOf(d).Used(c) <==> !TableOf(d).Free(c) && !TableOf(d).Bad(c))
  {
    hide Mounted, FatOf;
  }

  /** `a`'s entry is `b`, and `b` no mark. */
  ghost predicate Goes(d: Disk, a: nat, b: nat)
    requires Mounted(d)
  {
    a <= d.g.clusters + 1 && FatOf(d, a) == b && b < if d.g.kind.Fat32? then 0x0FFF_FFF7 else 0xFFF7
  }

  lemma LinkIs(d: Disk, a: nat, b: nat)
    requires Mounted(d) && 2 <= b
    ensures TableOf(d).Links(a, b) <==> 2 <= a && Goes(d, a, b)
  {
    hide Mounted, FatOf;
  }

  /** A chain in literals: it is `s` if and only if `s` begins at `first`, all its clusters are on the volume, each
      one's entry is the next and no mark, and the last one's is an end mark. */
  lemma ChainReads(d: Disk, first: nat, s: seq<nat>)
    requires Mounted(d)
    ensures Chain(TableOf(d), first) == Ok(s) <==>
      && s != [] && s[0] == first && (forall i :: 0 <= i < |s| ==> 2 <= s[i] <= d.g.clusters + 1)
      && (forall i :: 0 < i < |s| ==> Goes(d, s[i - 1], s[i]))
      && FatOf(d, s[|s| - 1]) >= if d.g.kind.Fat32? then 0x0FFF_FFF8 else 0xFFF8
  {
    var t := TableOf(d);
    ChainExact(t, first, s);
    hide Mounted, FatOf, Follow, TableOf, Goes, Table.Links, Table.Ends, Table.Holds;
    if s != [] {
      MarksExact(d, s[|s| - 1]);
    }
    forall i | 0 <= i < |s| ensures t.Holds(s[i]) <==> 2 <= s[i] <= d.g.clusters + 1 {
      MarksExact(d, s[i]);
    }
    forall i | 0 < i < |s| && 2 <= s[i] ensures t.Links(s[i - 1], s[i]) <==> 2 <= s[i - 1] && Goes(d, s[i - 1], s[i]) {
      LinkIs(d, s[i - 1], s[i]);
    }
  }
}
