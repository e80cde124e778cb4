/** `copy_sparse`: a file copied from an offset to its end, its holes and its blocks of zeros left as holes. */
module SparseCopy {
  import opened Results
  import opened Bytes

  const CHUNK := 0x10_0000

  /** What `lseek` answers for SEEK_DATA and SEEK_HOLE. */
  datatype Sought = At(pos: nat) | NoMore | Unsupported

  predicate AllZero(s: seq<byte>) {
    forall i :: 0 <= i < |s| ==> s[i] == 0
  }

  /** The first place from `pos` on where `held` is `what`, or its end. */
  function FirstFrom(held: seq<bool>, pos: nat, what: bool): (r: nat)
    requires pos <= |held|
    ensures pos <= r <= |held| && (r < |held| ==> held[r] == what)
    ensures forall k :: pos <= k < r ==> held[k] != what
    decreases |held| - pos
  {
    if pos == |held| || held[pos] == what then pos else FirstFrom(held, pos + 1, what)
  }

  /** The file copied: its bytes, and which of them it holds, if its file system tells. A hole reads as zeros. */
  class Source {
    const img: seq<byte>
    const held: Option<seq<bool>>
    var pos: nat

    constructor (img: seq<byte>, held: Option<seq<bool>>)
      ensures this.img == img && this.held == held && pos == 0
    {
      this.img, this.held, pos := img, held, 0;
    }

    /** Any arrangement of data and holes, so long as holes read as zeros. */
    ghost predicate Honest() {
      held.Some? ==> |held.value| == |img| && forall k :: 0 <= k < |img| && !held.value[k] ==> img[k] == 0
    }

    function SeekData(at: nat): Sought
      requires Honest() && at < |img|
    {
      if held.None? then Unsupported
      else
        var data := FirstFrom(held.value, at, true);
        if data == |img| then NoMore else At(data)
    }

    /** The end of a file counts as a hole. */
    function SeekHole(at: nat): Sought
      requires Honest() && at < |img|
    {
      if held.None? then Unsupported else At(FirstFrom(held.value, at, false))
    }

    method Seek(at: nat)
      modifies this
      ensures pos == at
    {
      pos := at;
    }

    method Read(n: nat) returns (block: seq<byte>)
      modifies this
      ensures block == Clip(img, old(pos), old(pos) + n) && pos == old(pos) + |block|
    {
      block := Clip(img, pos, pos + n);
      pos := pos + |block|;
    }
  }

  /** One write to the copy. */
  datatype Stored = Stored(at: nat, data: seq<byte>)

  function Zeros(n: nat): (r: seq<byte>)
    ensures |r| == n && AllZero(r)
  {
    seq(n, _ => 0)
  }

  /** The file made: its bytes, where it stands, and what was written to it. */
  class Sink {
    var content: seq<byte>
    var pos: nat
    ghost var writes: seq<Stored>

    constructor ()
      ensures content == [] && pos == 0 && writes == []
    {
      content, pos, writes := [], 0, [];
    }

    method Seek(at: nat)
      modifies this`pos
      ensures pos == at
    {
      pos := at;
    }

    /** Writing past the end leaves a hole before the block. */
    method Write(block: seq<byte>)
      modifies this
      ensures pos == old(pos) + |block| && writes == old(writes) + [Stored(old(pos), block)]
      ensures content == Put(old(content), old(pos), block)
    {
      content := Put(content, pos, block);
      writes := writes + [Stored(pos, block)];
      pos := pos + |block|;
    }

    method Truncate(n: nat)
      modifies this`content
      ensures content == if n <= |old(content)| then old(content)[..n] else old(content) + Zeros(n - |old(content)|)
    {
      content := if n <= |content| then content[..n] else content + Zeros(n - |content|);
    }
  }

  function Put(content: seq<byte>, at: nat, block: seq<byte>): seq<byte> {
    if at <= |content| then Splice(content, at, block) else content + Zeros(at - |content|) + block
  }

  /** The copy is the image from `start` as far as it goes, and from there to `upto` the image is zeros. */
  ghost predicate CopiedTo(img: seq<byte>, start: nat, content: seq<byte>, upto: nat) {
    && start + |content| <= upto <= |img|
    && content == img[start..start + |content|]
    && forall k :: start + |content| <= k < upto ==> img[k] == 0
  }

  /** Data ends here: at a hole, or with the image. */
  ghost predicate DataEnds(src: Source, at: nat) {
    at == |src.img| || (src.held.Some? && at < |src.held.value| && !src.held.value[at])
  }

  /** A write is of the image's own bytes, of none in a hole, and not all zeros; of a whole mebibyte, or else of what
      was left of the data. */
  ghost predicate Sparse(src: Source, start: nat, w: Stored) {
    && start + w.at + |w.data| <= |src.img|
    && w.data == src.img[start + w.at..start + w.at + |w.data|]
    && (exists k :: 0 <= k < |w.data| && w.data[k] != 0)
    && |w.data| <= 0x10_0000 && (|w.data| == 0x10_0000 || DataEnds(src, start + w.at + |w.data|))
    && (src.held.Some? && |src.held.value| == |src.img| ==>
          forall k :: start + w.at <= k < start + w.at + |w.data| ==> src.held.value[k])
  }

  ghost predicate AllSparse(src: Source, start: nat, writes: seq<Stored>) {
    forall i :: 0 <= i < |writes| ==> Sparse(src, start, writes[i])
  }

  lemma WriteOn(img: seq<byte>, start: nat, content: seq<byte>, at: nat, block: seq<byte>)
    requires CopiedTo(img, start, content, at) && at + |block| <= |img| && block == img[at..at + |block|]
    ensures CopiedTo(img, start, Put(content, at - start, block), at + |block|)
  {
    var after := Put(content, at - start, block);
    assert |after| == at - start + |block|;
    forall k | 0 <= k < |after| ensures after[k] == img[start + k] {
      if k >= at - start {
        assert after[k] == block[k - (at - start)];
      }
    }
    assert after == img[start..start + |after|];
  }

  /** A stretch of zeros needs no write. */
  lemma SkipOn(img: seq<byte>, start: nat, content: seq<byte>, at: nat, upto: nat)
    requires CopiedTo(img, start, content, at) && at <= upto <= |img| && forall k :: at <= k < upto ==> img[k] == 0
    ensures CopiedTo(img, start, content, upto)
  {
  }

  /** The inner loop: the data from `data` to `hole`, a chunk at a time. */
  method CopyData(src: Source, dst: Sink, start: nat, data: nat, hole: nat)
    requires src.Honest() && start <= data <= hole <= |src.img| && CopiedTo(src.img, start, dst.content, data)
    requires src.held.Some? ==> forall k :: data <= k < hole ==> src.held.value[k]
    requires AllSparse(src, start, dst.writes) && DataEnds(src, hole)
    modifies src, dst
    ensures CopiedTo(src.img, start, dst.content, hole) && AllSparse(src, start, dst.writes)
  {
    hide CopiedTo, AllSparse, DataEnds;
    src.Seek(data);
    dst.Seek(data - start);
    var at := data;
    while at < hole
      invariant data <= at <= hole && src.pos == at && dst.pos == at - start
      invariant CopiedTo(src.img, start, dst.content, at) && AllSparse(src, start, dst.writes)
    {
      var n := if CHUNK <= hole - at then CHUNK else hole - at;
      var block := src.Read(n);
      if block == [] {
        break;
      }
      CopyBlock(src, dst, start, at, block);
      at := at + |block|;
    }
  }

  /** One block: skipped if it is zeros, and otherwise written. */
  method CopyBlock(src: Source, dst: Sink, start: nat, at: nat, block: seq<byte>)
    requires start <= at && at + |block| <= |src.img| && block == src.img[at..at + |block|]
    requires |block| == CHUNK || (|block| < CHUNK && DataEnds(src, at + |block|))
    requires src.Honest() && (src.held.Some? ==> forall k :: at <= k < at + |block| ==> src.held.value[k])
    requires dst.pos == at - start && CopiedTo(src.img, start, dst.content, at) && AllSparse(src, start, dst.writes)
    modifies dst
    ensures dst.pos == at + |block| - start
    ensures CopiedTo(src.img, start, dst.content, at + |block|) && AllSparse(src, start, dst.writes)
  {
    hide CopiedTo, Put;
    if AllZero(block) {
      dst.Seek(dst.pos + |block|);
      assert forall k :: at <= k < at + |block| ==> src.img[k] == block[k - at];
      SkipOn(src.img, start, dst.content, at, at + |block|);
    } else {
      WriteOn(src.img, start, dst.content, at, block);
      OneMoreSparse(src, start, dst.writes, Stored(dst.pos, block));
      dst.Write(block);
    }
  }

  lemma OneMoreSparse(src: Source, start: nat, writes: seq<Stored>, w: Stored)
    requires AllSparse(src, start, writes) && Sparse(src, start, w)
    ensures AllSparse(src, start, writes + [w])
  {
    hide Sparse;
  }

  /** `copy_sparse`: the copy is exactly the image's bytes from `start` to its end, however data and holes lie,
      and where the file system does not tell; and nothing was written that could be left a hole. */
  method CopySparse(src: Source, start: nat, dst: Sink)
    requires src.Honest() && start <= |src.img| && dst.content == [] && dst.pos == 0 && dst.writes == []
    modifies src, dst
    ensures dst.content == src.img[start..]
    ensures AllSparse(src, start, dst.writes)
  {
    var end := |src.img|;
    var pos := start;
    while pos < end
      invariant start <= pos <= end && CopiedTo(src.img, start, dst.content, pos) && AllSparse(src, start, dst.writes)
      decreases end - pos
    {
      var data, hole := pos, end;
      var there := src.SeekData(pos);
      if there.NoMore? {
        SkipOn(src.img, start, dst.content, pos, end);
        break;
      }
      if there.At? {
        data, hole := there.pos, src.SeekHole(there.pos).pos;
        SkipOn(src.img, start, dst.content, pos, data);
      }
      CopyData(src, dst, start, data, hole);
      pos := hole;
    }
    dst.Truncate(end - start);
    assert dst.content == src.img[start..];
  }
}
