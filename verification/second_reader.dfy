/** A second reader of FAT16, written apart from the first: just enough of it to follow a directory's chain. */
module SecondReader {
  import opened Results
  import opened Bytes
  import opened Seqs
  import opened Chains
  import opened Geometries
  import opened Directories

  /** Reading past the end of the image, or a chain that loops. */
  datatype Trouble = PastEnd(at: nat) | Loops(cluster: nat)

  const LAST := 0xFFF8

  ghost predicate Passed(out: seq<nat>) {
    NoDup(out) && forall x :: x in out ==> 2 <= x < LAST
  }

  lemma PassedBound(out: seq<nat>)
    requires Passed(out)
    ensures |out| <= LAST - 2
  {
    Pigeonhole(out, 2, LAST);
  }

  class Reader {
    const data: seq<byte>
    const fat: nat

    constructor (data: seq<byte>)
      requires SECTOR <= |data|
      ensures Opens(this, data)
    {
      this.data, fat := data, Le16(data, 14) * Le16(data, 11);
    }

    /** `next`. */
    function Next(c: nat): Option<nat> {
      if fat + 2 * c + 2 <= |data| then Some(Le16(data, fat + 2 * c)) else None
    }

    /** The rest of a chain at `c`, `out` being the clusters before it. */
    ghost function Rest(c: nat, out: seq<nat>): Result<seq<nat>, Trouble>
      requires Passed(out)
      decreases LAST - |out|
    {
      if c < 2 || c >= LAST then Ok(out)
      else if c in out then Err(Loops(c))
      else
        PassedBound(out + [c]);
        match Next(c)
        case None => Err(PastEnd(fat + 2 * c))
        case Some(n) => Rest(n, out + [c])
    }

    /** `chain`. */
    method Chain(first: nat) returns (r: Result<seq<nat>, Trouble>)
      ensures r == Rest(first, [])
    {
      var out: seq<nat>, c: nat := [], first;
      while 2 <= c < LAST
        invariant Passed(out) && Rest(c, out) == Rest(first, [])
        decreases LAST - |out|
      {
        if c in out {
          return Err(Loops(c));
        }
        PassedBound(out + [c]);
        var next := Next(c);
        if next.None? {
          return Err(PastEnd(fat + 2 * c));
        }
        out := out + [c];
        c := next.value;
      }
      return Ok(out);
    }
  }

  lemma {:induction false} RestExtends(r: Reader, c: nat, out: seq<nat>)
    requires Passed(out) && r.Rest(c, out).Ok?
    ensures out <= r.Rest(c, out).value
    decreases LAST - |out|
  {
    if c < 2 || c >= LAST {
    } else {
      PassedBound(out + [c]);
      RestExtends(r, r.Next(c).value, out + [c]);
    }
  }

  /** The two readers read one FAT: FAT16's marks, and no cluster numbered as a mark. */
  ghost predicate SameFat(t: Table, r: Reader) {
    && t.eoc == LAST && t.bad == LAST - 1 && |t.next| <= t.bad
    && forall c: nat :: c < |t.next| ==> r.Next(c) == Some(t.next[c])
  }

  /** The clusters that the second reader gives end as a chain does, on the volume. */
  ghost predicate Sound(t: Table, out: seq<nat>, s: seq<nat>) {
    |out| < |s| && (forall x :: x in s ==> t.Holds(x)) && t.Ends(s[|s| - 1])
  }

  /** What the second reader takes for a cluster is in what it gives. */
  lemma RestTakes(r: Reader, c: nat, out: seq<nat>)
    requires Passed(out) && 2 <= c < LAST && r.Rest(c, out).Ok?
    ensures |out| < |r.Rest(c, out).value| && c in r.Rest(c, out).value
  {
    PassedBound(out + [c]);
    RestExtends(r, r.Next(c).value, out + [c]);
    assert r.Rest(c, out).value[|out|] == (out + [c])[|out|] == c;
  }

  lemma {:induction false} SameRest(t: Table, r: Reader, c: nat, out: seq<nat>, s: seq<nat>)
    requires SameFat(t, r) && Met(t, out) && Passed(out)
    ensures Follow(t, c, out) == Ok(s) <==> r.Rest(c, out) == Ok(s) && Sound(t, out, s)
    decreases LAST - |out|
  {
    if 2 <= c < LAST && r.Rest(c, out).Ok? {
      RestTakes(r, c, out);
    }
    if !t.Holds(c) || c in out {
    } else {
      MetBound(t, out + [c]);
      PassedBound(out + [c]);
      var n := t.next[c];
      assert r.Next(c) == Some(n);
      SameRest(t, r, n, out + [c], s);
      if 2 <= n < LAST && r.Rest(n, out + [c]).Ok? {
        RestTakes(r, n, out + [c]);
      }
    }
  }

  /** The first reader accepts a chain exactly when the second gives that chain and it is sound: it has a
      cluster, all are on the volume, and the last one's entry is an end mark. So every chain that the first
      reader accepts is the one that the second gives. The second asks less: it stops at a free entry as at an
      end mark, and goes past the volume's last cluster. */
  lemma ReadersAgree(d: Disk, r: Reader, first: nat, s: seq<nat>)
    requires Mounted(d) && SameFat(TableOf(d), r)
    ensures ChainOf(d, first) == Ok(s) <==> r.Rest(first, []) == Ok(s) && Sound(TableOf(d), [], s)
  {
    hide Mounted, TableOf, Reader.Rest;
    SameRest(TableOf(d), r, first, [], s);
  }

  // A bare FAT16 volume, as the second reader opens it.

  ghost predicate Opens(r: Reader, img: seq<byte>)
    requires SECTOR <= |img|
  {
    r.data == img && r.fat == Le16(img, 14) * Le16(img, 11)
  }

  lemma SameVolume(d: Disk, r: Reader)
    requires Mounted(d) && d.g.kind.Fat16? && d.base == 0 && SECTOR <= |d.img| && Opens(r, d.img)
    ensures SameFat(TableOf(d), r)
  {
    MountedAccepted(d);
    KindByCount(d.g);
    BootFields(d);
    forall c: nat | c <= d.g.MaxCluster() ensures r.Next(c) == Some(FatOf(d, c)) {
      SameEntry(d, r, c);
    }
    hide Mounted, FatOf, Accepted;
  }

  lemma SameEntry(d: Disk, r: Reader, c: nat)
    requires Mounted(d) && d.g.kind.Fat16? && d.base == 0 && c <= d.g.MaxCluster()
    requires r.data == d.img && r.fat == d.g.reserved * SECTOR
    ensures r.Next(c) == Some(FatOf(d, c))
  {
    hide Mounted, Accepted, Sectors, Le16, FatOf, Geometry.CopyLba;
    MountedAccepted(d);
    EntryInside(d.g, 0, c);
    FatIs(d, c);
    FirstCopy(d.img, d.g, d.fats[0]);
    SliceEntry(d.img, d.g.CopyLba(0) * SECTOR, d.fats[0], c);
  }

  lemma FatIs(d: Disk, c: nat)
    requires Mounted(d) && d.g.kind.Fat16? && c <= d.g.MaxCluster()
    ensures 1 <= |d.fats| && c * 2 + 2 <= |d.fats[0]| && FatOf(d, c) == Le16(d.fats[0], c * 2)
  {
    hide Mounted, Accepted, Sectors, Le16;
    MountedAccepted(d);
    EntryInside(d.g, 0, c);
  }

  lemma SliceEntry(img: seq<byte>, at: nat, fat: seq<byte>, c: nat)
    requires at + |fat| <= |img| && fat == img[at..at + |fat|] && 2 * c + 2 <= |fat|
    ensures Le16(fat, c * 2) == Le16(img, at + 2 * c)
  {
    assert fat[2 * c] == img[at + 2 * c] && fat[2 * c + 1] == img[at + 2 * c + 1];
  }

  lemma FirstCopy(img: seq<byte>, g: Geometry, fat: seq<byte>)
    requires Sectors(img, 0, g.CopyLba(0), g.fatSectors) == Ok(fat) && 0 < g.fatSectors
    ensures var at := g.CopyLba(0) * SECTOR; at + |fat| <= |img| && fat == img[at..at + |fat|]
    ensures |fat| == g.fatSectors * SECTOR
    ensures g.CopyLba(0) == g.reserved
  {
  }

  lemma BootFields(d: Disk)
    requires Mounted(d) && d.base == 0 && SECTOR <= |d.img|
    ensures Le16(d.img, 11) == SECTOR && Le16(d.img, 14) == d.g.reserved
  {
    hide PowerOfTwo;
    var b := Clip(d.img, 0, SECTOR);
    assert Layout(b) == Ok(d.g);
    assert Le16(b, 11) == Le16(d.img, 11) && Le16(b, 14) == Le16(d.img, 14);
  }
}
