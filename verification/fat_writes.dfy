/** Writing FAT entries into a volume's bytes, and what the reader makes of the bytes afterwards. */
module FatWrites {
  import opened Results
  import opened Bytes
  import opened Geometries
  import opened SameWalks

  /** `fat_set` on one copy. */
  function SetCopy(img: seq<byte>, base: nat, g: Geometry, k: nat, c: nat, value: nat): seq<byte> {
    Splice(img, base + g.EntryAt(k, c), Pack(value, g.EntryBytes()))
  }

  /** `fat_set` on the first `n` copies. */
  function SetCopies(img: seq<byte>, base: nat, g: Geometry, n: nat, c: nat, value: nat): seq<byte> {
    if n == 0 then img else SetCopy(SetCopies(img, base, g, n - 1, c, value), base, g, n - 1, c, value)
  }

  /** A value that fits an entry's bytes. */
  predicate Packable(g: Geometry, value: nat) {
    value < if g.kind.Fat32? then 0x1_0000_0000 else 0x1_0000
  }

  /** An entry's value as it is read: FAT32's top four bits are not part of it. */
  function Read(g: Geometry, value: nat): nat {
    if g.kind.Fat32? then value % 0x1000_0000 else value
  }

  /** FAT copy `k`, in the bytes. */
  function CopyBytes(img: seq<byte>, base: nat, g: Geometry, k: nat): seq<byte>
    requires base + (g.CopyLba(k) + g.fatSectors) * SECTOR <= |img|
  {
    img[base + g.CopyLba(k) * SECTOR..base + (g.CopyLba(k) + g.fatSectors) * SECTOR]
  }

  ghost predicate FatsInside(img: seq<byte>, base: nat, g: Geometry) {
    base + g.RootStart() * SECTOR <= |img|
  }

  lemma CopyFits(img: seq<byte>, base: nat, g: Geometry, k: nat)
    requires FatsInside(img, base, g) && k < g.nfats
    ensures base + (g.CopyLba(k) + g.fatSectors) * SECTOR <= |img| && g.FatStart() <= g.CopyLba(k)
  {
    CopyInside(g, k);
  }

  /** All bytes before and after the FATs are the same. */
  ghost predicate SameOutside(img: seq<byte>, img': seq<byte>, base: nat, g: Geometry) {
    && |img'| == |img|
    && forall lo, hi ::
      (0 <= lo <= hi <= |img| && (hi <= base + g.FatStart() * SECTOR || base + g.RootStart() * SECTOR <= lo))
      ==> img'[lo..hi] == img[lo..hi]
  }

  /** The copies before `n` have the new entry, the others are as they were. */
  ghost predicate CopiesSet(img: seq<byte>, img': seq<byte>, base: nat, g: Geometry, n: nat, c: nat, value: nat)
    requires FatsInside(img, base, g) && |img'| == |img|
  {
    forall k :: 0 <= k < g.nfats ==>
      && base + (g.CopyLba(k) + g.fatSectors) * SECTOR <= |img|
      && CopyBytes(img', base, g, k) ==
         if k < n then Splice(CopyBytes(img, base, g, k), c * g.EntryBytes(), Pack(value, g.EntryBytes()))
         else CopyBytes(img, base, g, k)
  }

  /** Where an entry is: inside its own copy, outside the others, and inside the FATs. */
  lemma EntryPlace(g: Geometry, k: nat, c: nat, m: nat)
    requires Accepted(g) && k < g.nfats && m < g.nfats && c <= g.MaxCluster()
    ensures var at, n := g.EntryAt(k, c), g.EntryBytes();
      var lo, hi := g.CopyLba(m) * SECTOR, (g.CopyLba(m) + g.fatSectors) * SECTOR;
      && (m == k ==> lo <= at && at + n <= hi && at - lo == c * n)
      && (m != k ==> hi <= at || at + n <= lo)
      && g.FatStart() * SECTOR <= at && at + n <= g.RootStart() * SECTOR
  {
    EntryInside(g, k, c);
    CopyInside(g, k);
    CopiesApart(g, k, m);
    CopyAfter(g, k);
    hide Accepted, Geometry.EntryAt, Geometry.EntryBytes, Geometry.CopyLba, Geometry.RootStart, Geometry.FatStart;
  }

  lemma CopyAfter(g: Geometry, k: nat)
    ensures g.FatStart() <= g.CopyLba(k)
  {
  }

  lemma SetCopyOutside(img: seq<byte>, base: nat, g: Geometry, k: nat, c: nat, value: nat)
    requires Accepted(g) && FatsInside(img, base, g) && k < g.nfats && c <= g.MaxCluster()
    ensures SameOutside(img, SetCopy(img, base, g, k, c, value), base, g)
  {
    EntryPlace(g, k, c, k);
    hide Pack, Accepted, Geometry.CopyLba, Geometry.EntryAt, Geometry.EntryBytes, Geometry.RootStart, Splice;
    var at, x := base + g.EntryAt(k, c), Pack(value, g.EntryBytes());
    forall a, b | 0 <= a <= b <= |img| && (b <= base + g.FatStart() * SECTOR || base + g.RootStart() * SECTOR <= a)
      ensures Splice(img, at, x)[a..b] == img[a..b]
    {
      SpliceBeside(img, at, x, a, b);
    }
  }

  lemma SetCopyEffect(img: seq<byte>, base: nat, g: Geometry, k: nat, c: nat, value: nat, m: nat)
    requires Accepted(g) && FatsInside(img, base, g) && k < g.nfats && m < g.nfats && c <= g.MaxCluster()
    ensures var img' := SetCopy(img, base, g, k, c, value);
      && |img'| == |img|
      && base + (g.CopyLba(m) + g.fatSectors) * SECTOR <= |img|
      && CopyBytes(img', base, g, m) ==
         if m == k then Splice(CopyBytes(img, base, g, m), c * g.EntryBytes(), Pack(value, g.EntryBytes()))
         else CopyBytes(img, base, g, m)
  {
    hide Pack, Splice, Accepted, Geometry.CopyLba, Geometry.EntryAt, Geometry.EntryBytes, Geometry.RootStart;
    CopyFits(img, base, g, m);
    EntryPlace(g, k, c, m);
    EntryPlace(g, k, c, k);
    ghost var at, lo, hi, off := g.EntryAt(k, c), g.CopyLba(m) * SECTOR, (g.CopyLba(m) + g.fatSectors) * SECTOR,
                                 c * g.EntryBytes();
    SpliceWindow(img, base + at, Pack(value, g.EntryBytes()), base + lo, base + hi, off, m == k);
  }

  lemma SpliceWindow(img: seq<byte>, at: nat, x: seq<byte>, lo: nat, hi: nat, off: nat, inside: bool)
    requires at + |x| <= |img| && lo <= hi <= |img|
    requires if inside then lo <= at && at + |x| <= hi && at - lo == off else hi <= at || at + |x| <= lo
    ensures |Splice(img, at, x)| == |img|
    ensures Splice(img, at, x)[lo..hi] == if inside then Splice(img[lo..hi], off, x) else img[lo..hi]
  {
    if inside {
      SpliceInside(img, at, x, lo, hi);
    } else {
      SpliceBeside(img, at, x, lo, hi);
    }
  }

  lemma {:induction false} SetCopiesEffect(img: seq<byte>, base: nat, g: Geometry, n: nat, c: nat, value: nat)
    requires Accepted(g) && FatsInside(img, base, g) && n <= g.nfats && c <= g.MaxCluster()
    ensures var img' := SetCopies(img, base, g, n, c, value);
      |img'| == |img| && SameOutside(img, img', base, g) && CopiesSet(img, img', base, g, n, c, value)
  {
    hide Accepted, SetCopy, Pack, Splice;
    if n == 0 {
      forall k | 0 <= k < g.nfats ensures base + (g.CopyLba(k) + g.fatSectors) * SECTOR <= |img| {
        CopyFits(img, base, g, k);
      }
    } else {
      SetCopiesEffect(img, base, g, n - 1, c, value);
      var before := SetCopies(img, base, g, n - 1, c, value);
      assert SetCopies(img, base, g, n, c, value) == SetCopy(before, base, g, n - 1, c, value);
      SetCopyOutside(before, base, g, n - 1, c, value);
      SetCopyEffect(before, base, g, n - 1, c, value, n - 1);
      forall k | 0 <= k < g.nfats
        ensures base + (g.CopyLba(k) + g.fatSectors) * SECTOR <= |img|
        ensures CopyBytes(SetCopies(img, base, g, n, c, value), base, g, k) ==
                if k < n then Splice(CopyBytes(img, base, g, k), c * g.EntryBytes(), Pack(value, g.EntryBytes()))
                else CopyBytes(img, base, g, k)
      {
        SetCopyEffect(before, base, g, n - 1, c, value, k);
        CopyFits(img, base, g, k);
      }
    }
  }

  // Opening the bytes again.

  lemma RootFollows(g: Geometry)
    requires 1 <= g.nfats
    ensures g.CopyLba(g.nfats - 1) + g.fatSectors == g.RootStart()
  {
    assert g.nfats * g.fatSectors == (g.nfats - 1) * g.fatSectors + g.fatSectors;
  }

  lemma SectorsInside(img: seq<byte>, base: nat, lba: nat, count: nat)
    requires Sectors(img, base, lba, count).Ok? && 0 < count
    ensures base + (lba + count) * SECTOR <= |img|
    ensures img[base + lba * SECTOR..base + (lba + count) * SECTOR] == Sectors(img, base, lba, count).value
  {
  }

  lemma FatCount(d: Disk)
    requires Mounted(d)
    ensures |d.fats| == d.g.nfats && 1 <= d.g.nfats
  {
    MountedAccepted(d);
  }

  lemma CopyRead(d: Disk, k: nat)
    requires Mounted(d) && k < d.g.nfats
    ensures |d.fats| == d.g.nfats && 0 < d.g.fatSectors
    ensures Sectors(d.img, d.base, d.g.CopyLba(k), d.g.fatSectors) == Ok(d.fats[k])
  {
    MountedAccepted(d);
    hide Mounted, Sectors;
  }

  lemma CopyInImage(d: Disk, k: nat)
    requires Mounted(d) && k < d.g.nfats && k < |d.fats|
    ensures d.base + (d.g.CopyLba(k) + d.g.fatSectors) * SECTOR <= |d.img|
    ensures CopyBytes(d.img, d.base, d.g, k) == d.fats[k]
  {
    hide Mounted, Sectors;
    CopyRead(d, k);
    SectorsInside(d.img, d.base, d.g.CopyLba(k), d.g.fatSectors);
  }

  lemma MountedInside(d: Disk)
    requires Mounted(d)
    ensures FatsInside(d.img, d.base, d.g) && Accepted(d.g) && d.base + SECTOR <= |d.img|
    ensures |d.fats| == d.g.nfats
    ensures forall k :: 0 <= k < d.g.nfats ==>
      d.base + (d.g.CopyLba(k) + d.g.fatSectors) * SECTOR <= |d.img| && CopyBytes(d.img, d.base, d.g, k) == d.fats[k]
  {
    MountedAccepted(d);
    RootFollows(d.g);
    hide Mounted, Accepted, Sectors, Geometry.CopyLba, Geometry.RootStart, CopyBytes;
    CopyInImage(d, d.g.nfats - 1);
    forall k | 0 <= k < d.g.nfats
      ensures d.base + (d.g.CopyLba(k) + d.g.fatSectors) * SECTOR <= |d.img|
          && CopyBytes(d.img, d.base, d.g, k) == d.fats[k]
    {
      CopyInImage(d, k);
    }
  }

  lemma ReservedFirst(g: Geometry, k: nat)
    ensures g.reserved <= g.CopyLba(k) && g.reserved <= g.RootStart()
  {
  }

  lemma ReservedInside(d: Disk)
    requires Mounted(d)
    ensures d.base + d.g.reserved * SECTOR <= |d.img|
  {
    MountedInside(d);
    ReservedFirst(d.g, 0);
  }

  lemma {:induction false} CopiesAgain(img: seq<byte>, base: nat, g: Geometry, n: nat, fats: seq<seq<byte>>)
    requires |fats| == n
    requires forall k :: 0 <= k < n ==> Sectors(img, base, g.CopyLba(k), g.fatSectors) == Ok(fats[k])
    ensures Copies(img, base, g, n) == Ok(fats)
  {
    hide Sectors;
    if n == 0 {
    } else {
      CopiesAgain(img, base, g, n - 1, fats[..n - 1]);
      assert fats[..n - 1] + [fats[n - 1]] == fats;
    }
  }

  /** Bytes with a boot sector of these FATs open, with the FAT copies they have. */
  lemma OpensAs(img: seq<byte>, base: nat, g: Geometry, fats: seq<seq<byte>>)
    requires |fats| == g.nfats && 1 <= g.nfats && base + SECTOR <= |img|
    requires Layout(img[base..base + SECTOR]) == Ok(g) && img[base + 510] == 0x55 && img[base + 511] == 0xAA
    requires forall k :: 0 <= k < g.nfats ==> Sectors(img, base, g.CopyLba(k), g.fatSectors) == Ok(fats[k])
    ensures Mounted(Disk(img, base, g, fats))
  {
    hide Layout, Sectors;
    CopiesAgain(img, base, g, g.nfats, fats);
  }

  lemma BootOf(d: Disk)
    requires Mounted(d)
    ensures d.base + SECTOR <= |d.img| && Layout(d.img[d.base..d.base + SECTOR]) == Ok(d.g)
    ensures d.img[d.base + 510] == 0x55 && d.img[d.base + 511] == 0xAA
  {
    hide Layout, Copies;
  }

  ghost predicate SameFrom(img: seq<byte>, img': seq<byte>, from: nat) {
    |img'| == |img| && forall lo, hi :: from <= lo <= hi <= |img| ==> img'[lo..hi] == img[lo..hi]
  }

  lemma SameSectors(img: seq<byte>, img': seq<byte>, base: nat, from: nat, lba: nat, n: nat)
    requires SameFrom(img, img', base + from * SECTOR) && from <= lba
    ensures Sectors(img', base, lba, n) == Sectors(img, base, lba, n)
  {
    var at := base + lba * SECTOR;
    if at + n * SECTOR <= |img| {
      assert img'[at..at + n * SECTOR] == img[at..at + n * SECTOR];
    }
  }

  /** The FAT copies with the entry of `c` changed in each. */
  function SetFats(g: Geometry, fats: seq<seq<byte>>, c: nat, value: nat): (r: seq<seq<byte>>)
    ensures |r| == |fats|
    ensures forall k :: 0 <= k < |fats| ==> r[k] == Splice(fats[k], c * g.EntryBytes(), Pack(value, g.EntryBytes()))
  {
    seq(|fats|, k requires 0 <= k < |fats| => Splice(fats[k], c * g.EntryBytes(), Pack(value, g.EntryBytes())))
  }

  /** The volume after `fat_set(cluster, value)` on every copy. */
  function Rewritten(d: Disk, c: nat, value: nat): Disk {
    Disk(SetCopies(d.img, d.base, d.g, d.g.nfats, c, value), d.base, d.g, SetFats(d.g, d.fats, c, value))
  }

  lemma CopySectors(img: seq<byte>, base: nat, g: Geometry, k: nat)
    requires FatsInside(img, base, g) && k < g.nfats
    ensures base + (g.CopyLba(k) + g.fatSectors) * SECTOR <= |img|
    ensures Sectors(img, base, g.CopyLba(k), g.fatSectors) == Ok(CopyBytes(img, base, g, k))
  {
    CopyFits(img, base, g, k);
  }

  lemma RewrittenMounts(d: Disk, c: nat, value: nat)
    requires Mounted(d) && c <= d.g.MaxCluster() && 1 <= d.g.reserved
    ensures Mounted(Rewritten(d, c, value))
    ensures SameData(d, Rewritten(d, c, value))
    ensures SameOutside(d.img, Rewritten(d, c, value).img, d.base, d.g)
  {
    hide Mounted, Layout, SetCopies, SetFats, Accepted, Pack, Splice;
    var d' := Rewritten(d, c, value);
    MountedInside(d);
    FatCount(d);
    BootOf(d);
    SetCopiesEffect(d.img, d.base, d.g, d.g.nfats, c, value);
    assert d'.img[d.base..d.base + SECTOR] == d.img[d.base..d.base + SECTOR];
    assert d'.img[d.base + 510..d.base + 512] == d.img[d.base + 510..d.base + 512];
    assert d'.img[d.base + 510] == d'.img[d.base + 510..d.base + 512][0];
    assert d'.img[d.base + 511] == d'.img[d.base + 510..d.base + 512][1];
    forall k | 0 <= k < d.g.nfats
      ensures Sectors(d'.img, d.base, d.g.CopyLba(k), d.g.fatSectors) == Ok(d'.fats[k])
    {
      CopySectors(d'.img, d.base, d.g, k);
    }
    OpensAs(d'.img, d'.base, d'.g, d'.fats);
    forall lba: nat, n: nat | d.g.RootStart() <= lba
      ensures Sectors(d'.img, d.base, lba, n) == Sectors(d.img, d.base, lba, n)
    {
      SameSectors(d.img, d'.img, d.base, d.g.RootStart(), lba, n);
    }
  }

  lemma Entry16Set(fat: seq<byte>, c: nat, e: nat, value: nat)
    requires c * 2 + 2 <= |fat| && e * 2 + 2 <= |fat| && value < 0x1_0000
    ensures Le16(Splice(fat, c * 2, Pack(value, 2)), e * 2) == if e == c then value else Le16(fat, e * 2)
  {
    Pack16(value);
    var x := Pack(value, 2);
    hide Pack;
    var s := Splice(fat, c * 2, x);
    if e == c {
      assert s[e * 2] == x[0] && s[e * 2 + 1] == x[1];
    } else {
      assert s[e * 2] == fat[e * 2] && s[e * 2 + 1] == fat[e * 2 + 1];
    }
  }

  lemma Entry32Set(fat: seq<byte>, c: nat, e: nat, value: nat)
    requires c * 4 + 4 <= |fat| && e * 4 + 4 <= |fat| && value < 0x1_0000_0000
    ensures Le32(Splice(fat, c * 4, Pack(value, 4)), e * 4) == if e == c then value else Le32(fat, e * 4)
  {
    Pack32(value);
    var x := Pack(value, 4);
    hide Pack;
    var s := Splice(fat, c * 4, x);
    if e == c {
      assert s[e * 4] == x[0] && s[e * 4 + 1] == x[1] && s[e * 4 + 2] == x[2] && s[e * 4 + 3] == x[3];
    } else {
      assert s[e * 4] == fat[e * 4] && s[e * 4 + 1] == fat[e * 4 + 1];
      assert s[e * 4 + 2] == fat[e * 4 + 2] && s[e * 4 + 3] == fat[e * 4 + 3];
    }
  }

  /** The new table is the old one with one entry changed. */
  lemma RewrittenTable(d: Disk, c: nat, value: nat)
    requires Mounted(d) && c <= d.g.MaxCluster() && 1 <= d.g.reserved && Packable(d.g, value)
    ensures Mounted(Rewritten(d, c, value))
    ensures c < |TableOf(d).next|
    ensures TableOf(Rewritten(d, c, value)) == TableOf(d).(next := TableOf(d).next[c := Read(d.g, value)])
  {
    hide Mounted, Entry, Accepted, Pack, Splice, SetCopies, SameOutside;
    RewrittenMounts(d, c, value);
    var d' := Rewritten(d, c, value);
    MountedAccepted(d);
    var t, t' := TableOf(d), TableOf(d');
    forall e: nat | e <= d.g.MaxCluster() ensures t'.next[e] == if e == c then Read(d.g, value) else t.next[e] {
      EntryInside(d.g, 0, c);
      EntryInside(d.g, 0, e);
      EntrySet(d.g, d.fats[0], c, e, value);
      assert FatOf(d', e) == Entry(d.g, d'.fats[0], e);
    }
    assert t'.next == t.next[c := Read(d.g, value)];
  }

  lemma EntrySet(g: Geometry, fat: seq<byte>, c: nat, e: nat, value: nat)
    requires Packable(g, value)
    requires c * g.EntryBytes() + g.EntryBytes() <= |fat| && e * g.EntryBytes() + g.EntryBytes() <= |fat|
    ensures Entry(g, Splice(fat, c * g.EntryBytes(), Pack(value, g.EntryBytes())), e)
         == if e == c then Read(g, value) else Entry(g, fat, e)
  {
    if g.kind.Fat32? {
      Entry32Set(fat, c, e, value);
    } else {
      Entry16Set(fat, c, e, value);
    }
  }
}
