/** The boot sector and the regions it lays out, as `Volume.__init__` takes or refuses them. */
module Geometries {
  import opened Results
  import opened Bytes
  import opened Report
  import opened Chains

  datatype Kind = Fat16 | Fat32

  /** What the boot sector gives, once it is accepted. */
  datatype Geometry = Geometry(
    kind: Kind, spc: nat, reserved: nat, nfats: nat, rootEntries: nat, total: nat, fatSectors: nat, clusters: nat,
    rootCluster: nat, extFlags: nat, version: nat, fsinfo: nat, backupBoot: nat) {

    function FatStart(): nat {
      reserved
    }

    /** The sector where FAT copy `k` begins. */
    function CopyLba(k: nat): nat {
      FatStart() + k * fatSectors
    }

    function RootStart(): nat {
      reserved + nfats * fatSectors
    }

    function RootSectors(): nat {
      (rootEntries * 32 + SECTOR - 1) / SECTOR
    }

    function DataStart(): nat {
      RootStart() + RootSectors()
    }

    function MaxCluster(): nat {
      clusters + 1
    }

    function ClusterBytes(): nat {
      spc * SECTOR
    }

    function EntryBytes(): nat {
      if kind.Fat32? then 4 else 2
    }

    function Eoc(): nat {
      if kind.Fat32? then 0x0FFF_FFF8 else 0xFFF8
    }

    function Bad(): nat {
      if kind.Fat32? then 0x0FFF_FFF7 else 0xFFF7
    }

    /** The sector where cluster `n` begins. */
    function ClusterLba(n: nat): nat
      requires 2 <= n
    {
      DataStart() + (n - 2) * spc
    }

    /** The byte of the volume where cluster `c`'s entry is in FAT copy `k`. */
    function EntryAt(k: nat, c: nat): nat {
      CopyLba(k) * SECTOR + c * EntryBytes()
    }
  }

  predicate PowerOfTwo(n: nat) {
    n in {1, 2, 4, 8, 16, 32, 64, 128}
  }

  /** The geometry of a boot sector, or the first thing wrong with it. */
  function Layout(b: seq<byte>): Result<Geometry, Problem>
    requires |b| == SECTOR
  {
    var total16 := Le16(b, 19);
    var total := if total16 != 0 then total16 else Le32(b, 32);
    var spc := b[13] as int;
    var size16 := Le16(b, 22);
    var fatSectors := if size16 != 0 then size16 else Le32(b, 36);
    if Le16(b, 11) != SECTOR then Err(SectorSize(Le16(b, 11)))
    else if !PowerOfTwo(spc) then Err(ClusterSize(spc))
    else if fatSectors == 0 then Err(NoFatSize)
    else
      var g := Geometry(Fat16, spc, Le16(b, 14), b[16], Le16(b, 17), total, fatSectors, 0,
                        0, Le16(b, 40), Le16(b, 42), Le16(b, 48), Le16(b, 50));
      var clusters := (total - g.DataStart()) / spc;
      if clusters < 4085 then Err(Fat12(clusters))
      else if clusters >= 65525 && (g.rootEntries != 0 || size16 != 0) then Err(Fat16Fields)
      else
        var h := if clusters >= 65525 then g.(kind := Fat32, clusters := clusters, rootCluster := Le32(b, 44))
                 else g.(clusters := clusters);
        if fatSectors * SECTOR / h.EntryBytes() < clusters + 2 then Err(FatTooSmall(fatSectors)) else Ok(h)
  }

  /** An open volume: the fields that `Volume.__init__` sets and nothing changes later. */
  datatype Disk = Disk(img: seq<byte>, base: nat, g: Geometry, fats: seq<seq<byte>>)

  function Sectors(img: seq<byte>, base: nat, lba: nat, count: nat): (r: Result<seq<byte>, Problem>)
    ensures r.Ok? ==> |r.value| == count * SECTOR
  {
    var at := base + lba * SECTOR;
    var data := Clip(img, at, at + count * SECTOR);
    if |data| != count * SECTOR then Err(PastTheEnd(lba, count)) else Ok(data)
  }

  /** The first `n` FAT copies. */
  function Copies(img: seq<byte>, base: nat, g: Geometry, n: nat): (r: Result<seq<seq<byte>>, Problem>)
    ensures r.Ok? ==> |r.value| == n && forall k :: 0 <= k < n ==>
      Sectors(img, base, g.CopyLba(k), g.fatSectors) == Ok(r.value[k])
  {
    if n == 0 then Ok([])
    else
      var before :- Copies(img, base, g, n - 1);
      var last :- Sectors(img, base, g.CopyLba(n - 1), g.fatSectors);
      Ok(before + [last])
  }

  /** `Volume(img, base)`. */
  function Open(img: seq<byte>, base: nat): Result<Disk, Problem> {
    var b := Clip(img, base, base + SECTOR);
    if |b| < SECTOR || b[510] != 0x55 || b[511] != 0xAA then Err(NoSignature)
    else
      var g :- Layout(b);
      var fats :- Copies(img, base, g, g.nfats);
      Ok(Disk(img, base, g, fats))
  }

  /** A volume the reader has opened and can ask about its FAT: a boot sector that counts no FAT at all
      is accepted, and then the first question fails on an empty list. */
  ghost predicate Mounted(d: Disk) {
    Open(d.img, d.base) == Ok(d) && 1 <= d.g.nfats
  }

  // What an accepted geometry is worth.

  lemma MulStep(a: nat, b: nat, m: nat)
    requires a < b
    ensures a * m + m <= b * m
  {
    assert b * m == (b - a - 1) * m + (a + 1) * m;
  }

  /** Everything that the checks of `Layout` leave true. */
  ghost predicate Accepted(g: Geometry) {
    && PowerOfTwo(g.spc) && 0 < g.fatSectors && 4085 <= g.clusters
    && g.DataStart() + g.clusters * g.spc <= g.total < g.DataStart() + (g.clusters + 1) * g.spc
    && (g.kind.Fat32? <==> 65525 <= g.clusters)
    && (g.clusters + 2) * g.EntryBytes() <= g.fatSectors * SECTOR
    && (g.kind.Fat32? ==> g.rootEntries == 0)
    && (g.kind.Fat16? ==> g.rootCluster == 0)
  }

  lemma LayoutAccepted(b: seq<byte>)
    requires |b| == SECTOR && Layout(b).Ok?
    ensures Accepted(Layout(b).value)
  {
    hide Le16, Le32;
    var g := Layout(b).value;
    assert PowerOfTwo(g.spc);
    RoomFor(g.total - g.DataStart(), g.spc);
  }

  /** As many clusters as fit, and no more. */
  lemma RoomFor(room: int, spc: nat)
    requires 0 < spc
    ensures room / spc * spc <= room < (room / spc + 1) * spc
  {
    assert room == room / spc * spc + room % spc;
    assert (room / spc + 1) * spc == room / spc * spc + spc;
  }

  lemma OpenAccepted(d: Disk)
    requires Open(d.img, d.base) == Ok(d)
    ensures Accepted(d.g) && |d.fats| == d.g.nfats
    ensures d.base + SECTOR <= |d.img|
    ensures forall k :: 0 <= k < d.g.nfats ==> |d.fats[k]| == d.g.fatSectors * SECTOR
    ensures forall k :: 0 <= k < d.g.nfats ==>
      Sectors(d.img, d.base, d.g.CopyLba(k), d.g.fatSectors) == Ok(d.fats[k])
  {
    LayoutAccepted(Clip(d.img, d.base, d.base + SECTOR));
  }

  lemma MountedAccepted(d: Disk)
    requires Mounted(d)
    ensures Accepted(d.g) && |d.fats| == d.g.nfats && 1 <= d.g.nfats && d.base + SECTOR <= |d.img|
    ensures forall k :: 0 <= k < d.g.nfats ==> |d.fats[k]| == d.g.fatSectors * SECTOR
    ensures forall k :: 0 <= k < d.g.nfats ==>
      Sectors(d.img, d.base, d.g.CopyLba(k), d.g.fatSectors) == Ok(d.fats[k])
  {
    OpenAccepted(d);
  }

  ghost predicate Apart(a: nat, aSize: nat, b: nat, bSize: nat) {
    a + aSize <= b || b + bSize <= a
  }

  /** The regions of an accepted geometry follow one another inside the volume: the FAT copies, the root,
      the clusters. Two copies never overlap, nor do two clusters. The boot sector is outside the FATs only
      if the boot sector itself says that a sector is reserved. */
  lemma RegionsSound(g: Geometry, c: nat, e: nat, k: nat, m: nat)
    requires Accepted(g)
    requires 2 <= c <= g.MaxCluster() && 2 <= e <= g.MaxCluster() && k < g.nfats && m < g.nfats
    ensures g.DataStart() <= g.ClusterLba(c) && g.ClusterLba(c) + g.spc <= g.total
    ensures c != e ==> Apart(g.ClusterLba(c), g.spc, g.ClusterLba(e), g.spc)
    ensures k != m ==> Apart(g.CopyLba(k), g.fatSectors, g.CopyLba(m), g.fatSectors)
    ensures g.FatStart() <= g.CopyLba(k) && g.CopyLba(k) + g.fatSectors <= g.RootStart() <= g.DataStart() <= g.total
    ensures Apart(0, 1, g.CopyLba(0), g.fatSectors) <==> 1 <= g.reserved
  {
    ClusterInside(g, c);
    CopyInside(g, k);
    CopiesApart(g, k, m);
    if c < e { MulStep(c - 2, e - 2, g.spc); } else if e < c { MulStep(e - 2, c - 2, g.spc); }
  }

  lemma CopiesApart(g: Geometry, k: nat, m: nat)
    ensures k != m ==> Apart(g.CopyLba(k), g.fatSectors, g.CopyLba(m), g.fatSectors)
  {
    if k < m { MulStep(k, m, g.fatSectors); } else if m < k { MulStep(m, k, g.fatSectors); }
  }

  /** Every cluster's entry lies inside every FAT copy, and no two entries overlap. */
  lemma EntriesSound(g: Geometry, c: nat, e: nat, k: nat, m: nat)
    requires Accepted(g)
    requires c <= g.MaxCluster() && e <= g.MaxCluster() && k < g.nfats && m < g.nfats
    ensures g.CopyLba(k) * SECTOR <= g.EntryAt(k, c)
    ensures g.EntryAt(k, c) + g.EntryBytes() <= (g.CopyLba(k) + g.fatSectors) * SECTOR
    ensures (k, c) != (m, e) ==> Apart(g.EntryAt(k, c), g.EntryBytes(), g.EntryAt(m, e), g.EntryBytes())
  {
    EntryInside(g, k, c);
    EntryInside(g, m, e);
    CopiesApart(g, k, m);
    if c < e { MulStep(c, e, g.EntryBytes()); } else if e < c { MulStep(e, c, g.EntryBytes()); }
  }

  lemma ClusterInside(g: Geometry, c: nat)
    requires Accepted(g) && 2 <= c <= g.MaxCluster()
    ensures g.DataStart() <= g.ClusterLba(c) && g.ClusterLba(c) + g.spc <= g.total
  {
    MulStep(c - 2, g.clusters, g.spc);
  }

  lemma CopyInside(g: Geometry, k: nat)
    requires k < g.nfats
    ensures g.CopyLba(k) + g.fatSectors <= g.RootStart()
  {
    MulStep(k, g.nfats, g.fatSectors);
  }

  lemma EntryInside(g: Geometry, k: nat, c: nat)
    requires Accepted(g) && c <= g.MaxCluster()
    ensures g.EntryAt(k, c) == g.CopyLba(k) * SECTOR + c * g.EntryBytes()
    ensures c * g.EntryBytes() + g.EntryBytes() <= g.fatSectors * SECTOR
  {
    MulStep(c, g.clusters + 2, g.EntryBytes());
  }

  /** The kind is decided by the count of clusters alone, and on FAT16 no cluster's number is a mark. */
  lemma KindByCount(g: Geometry)
    requires Accepted(g)
    ensures 0 < g.Bad() < g.Eoc()
    ensures g.kind == (if 65525 <= g.clusters then Fat32 else Fat16)
    ensures g.kind.Fat16? ==> g.MaxCluster() < g.Bad()
  {
  }

  // The FAT as values.

  /** A FAT entry of a copy: 16 bits, or the low 28 of FAT32's 32. */
  function Entry(g: Geometry, fat: seq<byte>, c: nat): nat
    requires c * g.EntryBytes() + g.EntryBytes() <= |fat|
  {
    if g.kind.Fat32? then Le32(fat, c * 4) % 0x1000_0000 else Le16(fat, c * 2)
  }

  /** `Volume.fat(c)`, from the first copy. */
  function FatOf(d: Disk, c: nat): nat
    requires Mounted(d) && c <= d.g.MaxCluster()
  {
    OpenAccepted(d);
    EntryInside(d.g, 0, c);
    Entry(d.g, d.fats[0], c)
  }

  ghost function TableOf(d: Disk): (t: Table)
    requires Mounted(d)
    ensures |t.next| == d.g.MaxCluster() + 1 && t.eoc == d.g.Eoc() && t.bad == d.g.Bad() && t.Sane()
    ensures forall c :: 0 <= c < |t.next| ==> t.next[c] == FatOf(d, c)
  {
    Table(seq(d.g.MaxCluster() + 1, c requires 0 <= c <= d.g.MaxCluster() => FatOf(d, c)), d.g.Eoc(), d.g.Bad())
  }
}
