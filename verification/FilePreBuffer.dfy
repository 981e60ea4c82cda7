/** Pre-buffered file writing (src/switch_core_file.c): writes collect in a growing
    buffer, at most one block leaves per write, and close drains the rest. */
module FilePreBuffer {
  import opened Common
  import opened SlidingBuffer
  import opened Chunking

  datatype Status = Success | Failed

  /** Bytes per sample frame: native files count bytes, others 16-bit samples. */
  function Unit(asis: bool, channels: nat): nat { (if asis then 1 else 2) * channels }

  /** The sample count that goes with a block of `blen` bytes, with the code's two truncating divisions. */
  function Samples(blen: nat, asis: bool, channels: nat): nat
    requires channels > 0
  {
    var b := if asis then blen else blen / 2;
    if channels > 1 then b / channels else b
  }

  /** The bytes that go with that count: the whole sample frames of a block. */
  function Kept(b: seq<Byte>, asis: bool, channels: nat): seq<Byte>
    requires channels > 0
  {
    Whole(|b|, asis, channels);
    b[..Samples(|b|, asis, channels) * Unit(asis, channels)]
  }

  class PreBufferedFile {
    const buffer: Buffer
    const block: nat        // pre_buffer_datalen
    const channels: nat
    const asis: bool
    var samplesOut: nat
    /** The blocks read for file_write, in order, and the bytes its sample counts cover. */
    var blocks: seq<seq<Byte>>
    var file: seq<Byte>
    /** The bytes the buffer took. */
    ghost var written: seq<Byte>

    ghost predicate Valid()
      reads this, buffer, buffer.data
    {
      && buffer.Valid() && buffer.kind.Dynamic? && buffer.kind.maxLen == 0
      && block > 0 && channels > 0
      && InStep(written, blocks, buffer.View().content, block)
      && WholeFrames(written, asis, channels)
      && file == Delivered(blocks, asis, channels)
    }

    /** A block of one byte in one channel leaves the buffer without storage, and the first write aborts. */
    constructor (block: nat, channels: nat, asis: bool)
      requires block > 0 && channels > 0
      ensures buffer.data != null <==> block * channels > 1
      ensures Valid() && fresh(buffer.Repr()) && buffer.View() == Fifo([], block * channels / 2)
      ensures written == [] && blocks == [] && file == [] && samplesOut == 0
      ensures this.block == block && this.channels == channels && this.asis == asis
    {
      buffer := new Buffer.CreateDynamic(block * channels, block * channels / 2, 0);
      this.block, this.channels, this.asis := block, channels, asis;
      samplesOut, blocks, file, written := 0, [], [], [];
      UnitIsPositive(asis, channels);
    }

    /** Whether the buffer can take n more bytes: nobody looks at what its write returns. */
    ghost predicate Takes(n: nat, alloc: bool)
      reads this, buffer, buffer.data
    {
      alloc || buffer.used + n <= buffer.Capacity()
    }

    /** The unchecked switch_buffer_write: bytes that need growth are lost if it fails. */
    method Accept(data: seq<Byte>, alloc: bool)
      requires Valid() && buffer.data != null && WholeFrames(data, asis, channels)
      modifies this`written, buffer.Repr()
      ensures Valid() && buffer.data != null && (buffer.data == old(buffer.data) || fresh(buffer.data))
      ensures if old(Takes(|data|, alloc))
              then written == old(written) + data && buffer.used == old(buffer.used) + |data|
              else written == old(written) && buffer.used == old(buffer.used)
    {
      hide InStep, WholeFrames, Delivered, Append, AppendCount, Buffer.View;
      ghost var held := buffer.View().content;
      ghost var taken := Takes(|data|, alloc);
      Unlimited(buffer.kind, buffer.View(), data, alloc);
      var w := buffer.Write(data, alloc);
      if taken {
        assert buffer.View().content == held + data;
        MoreWritten(written, blocks, held, data, block);
        MoreFrames(written, data, asis, channels);
        written := written + data;
      } else {
        assert buffer.View().content == held;
      }
    }

    /** switch_buffer_write aborts on a buffer without storage. */
    method Write(len: nat, data: seq<Byte>, alloc: bool, ok: bool) returns (status: Status, n: nat)
      requires Valid() && |data| == len * Unit(asis, channels) && (len > 0 ==> buffer.data != null)
      modifies this, buffer.Repr()
      ensures Valid() && (old(buffer.data) != null ==> buffer.data != null) && old(blocks) <= blocks
      ensures buffer.data == old(buffer.data) || fresh(buffer.data)
      ensures samplesOut == old(samplesOut) + len
      ensures written == old(written) + if old(Takes(|data|, alloc)) then data else []
      ensures |blocks| == |old(blocks)| +
                          if len > 0 && |written| - |old(written)| + old(buffer.used) >= block then 1 else 0
      ensures status == Failed <==> |blocks| > |old(blocks)| && !ok
      ensures n == if status == Failed then 0 else len
    {
      hide InStep, WholeFrames, Delivered, Buffer.View;
      status, n := Success, len;
      NoBytes(written);
      if len == 0 {
        assert data == [];
        return;
      }
      Multiple(data, len, asis, channels);
      Accept(data, alloc);
      if buffer.used >= block {
        status := Emit(ok);
        if status != Success {
          n := 0;
        }
      }
      samplesOut := samplesOut + len;
    }

    /** One block from the buffer to file_write. */
    method Emit(ok: bool) returns (status: Status)
      requires Valid() && buffer.used >= block
      modifies this`blocks, this`file, buffer
      ensures Valid() && buffer.data == old(buffer.data)
      ensures blocks == old(blocks) + [old(buffer.View().content)[..block]] && buffer.used == old(buffer.used) - block
      ensures status == Success <==> ok
    {
      hide InStep, WholeFrames, Delivered, Front, Drop, Buffer.View;
      CutOne(written, blocks, buffer.View().content, block);
      FrontIs(buffer.View(), block);
      var bytes := buffer.Read(block);
      DeliveredSnoc(blocks, bytes, asis, channels);
      blocks, file := blocks + [bytes], file + Kept(bytes, asis, channels);
      status := if ok then Success else Failed;
    }

    /** Close drains the buffer; the last block may be short. */
    method Close(ok: nat -> bool)
      requires Valid()
      modifies this`blocks, this`file, buffer
      ensures old(blocks) <= blocks && file == Delivered(blocks, asis, channels)
      ensures (forall k :: ok(k)) ==> blocks == Blocks(written, block)
      ensures forall k :: 0 <= k < |blocks| - |old(blocks)| - 1 ==> ok(k)
      ensures blocks == Blocks(written, block) || (|blocks| > |old(blocks)| && !ok(|blocks| - |old(blocks)| - 1))
    {
      hide InStep, WholeFrames, Delivered, Blocks, Buffer.View;
      var k := 0;
      if buffer.used == 0 {
        assert buffer.View().content == [];
        LastBlock(written, blocks, [], block);
      }
      while buffer.used != 0
        invariant buffer.Valid() && buffer.data == old(buffer.data) && (buffer.used != 0 ==> Valid())
        invariant old(blocks) <= blocks && file == Delivered(blocks, asis, channels)
        invariant k == |blocks| - |old(blocks)| && forall i :: 0 <= i < k ==> ok(i)
        invariant buffer.used == 0 ==> blocks == Blocks(written, block)
        decreases buffer.used
      {
        DrainOne();
        if !ok(k) {
          return;
        }
        k := k + 1;
      }
    }

    /** One turn of the drain loop: a full block, or the short last one. */
    method DrainOne()
      requires Valid() && buffer.used != 0
      modifies this`blocks, this`file, buffer
      ensures buffer.Valid() && buffer.data == old(buffer.data) && buffer.used < old(buffer.used)
      ensures old(blocks) <= blocks && |blocks| == |old(blocks)| + 1 && file == Delivered(blocks, asis, channels)
      ensures if buffer.used == 0 then blocks == Blocks(written, block) else Valid()
    {
      hide InStep, WholeFrames, Delivered, Blocks;
      ghost var held := buffer.View().content;
      var bytes := buffer.Read(block);
      DeliveredSnoc(blocks, bytes, asis, channels);
      if |held| < block {
        LastBlock(written, blocks, held, block);
        assert bytes == held;
      } else {
        CutOne(written, blocks, held, block);
        LastFull(written, blocks + [bytes], buffer.View().content, block);
      }
      blocks, file := blocks + [bytes], file + Kept(bytes, asis, channels);
    }
  }

  lemma NoBytes(s: seq<Byte>)
    ensures s + [] == s
  {
  }

  // ---- Whole recordings ----

  ghost predicate WholeFrames(s: seq<Byte>, asis: bool, channels: nat)
    requires channels > 0
  {
    UnitIsPositive(asis, channels);
    |s| % Unit(asis, channels) == 0
  }

  lemma MoreFrames(s: seq<Byte>, t: seq<Byte>, asis: bool, channels: nat)
    requires channels > 0 && WholeFrames(s, asis, channels) && WholeFrames(t, asis, channels)
    ensures WholeFrames(s + t, asis, channels)
  {
    var m := Unit(asis, channels);
    Unique(|s| + |t|, m, |s| / m + |t| / m, 0);
  }

  lemma Multiple(s: seq<Byte>, len: nat, asis: bool, channels: nat)
    requires channels > 0 && |s| == len * Unit(asis, channels)
    ensures WholeFrames(s, asis, channels)
  {
    Unique(|s|, Unit(asis, channels), len, 0);
  }

  /** A recording: any number of writes, then close.  If the buffer can always grow the file gets every
      byte written, exactly when no block filled up or a block is a whole number of sample frames. */
  method Record(block: nat, channels: nat, asis: bool, datas: seq<seq<Byte>>, alloc: nat -> bool)
    returns (f: PreBufferedFile)
    requires block > 0 && channels > 0 && block * channels > 1
    requires forall i :: 0 <= i < |datas| ==> WholeFrames(datas[i], asis, channels)
    ensures f.blocks == Blocks(f.written, block) && f.file == Delivered(f.blocks, asis, channels)
    ensures f.file == f.written <==> |f.written| < block || block % Unit(asis, channels) == 0
    ensures (forall i :: alloc(i)) ==> f.written == Flatten(datas)
  {
    hide InStep, Delivered, Blocks, WholeFrames, Unit;
    f := new PreBufferedFile(block, channels, asis);
    WriteAll(f, datas, alloc);
    f.Close(_ => true);
    NothingLostIff(f.written, block, asis, channels);
  }

  lemma NextData(datas: seq<seq<Byte>>, i: nat)
    requires i < |datas|
    ensures Flatten(datas[..i + 1]) == Flatten(datas[..i]) + datas[i]
  {
    assert datas[..i + 1] == datas[..i] + [datas[i]];
    FlattenSnoc(datas[..i], datas[i]);
  }

  method WriteAll(f: PreBufferedFile, datas: seq<seq<Byte>>, alloc: nat -> bool)
    requires f.Valid() && f.buffer.data != null && f.written == []
    requires forall i :: 0 <= i < |datas| ==> WholeFrames(datas[i], f.asis, f.channels)
    modifies f, f.buffer.Repr()
    ensures f.Valid() && (f.buffer.data == old(f.buffer.data) || fresh(f.buffer.data))
    ensures (forall i :: alloc(i)) ==> f.written == Flatten(datas)
  {
    assert f.channels > 0;
    hide WholeFrames, Unit, Flatten, PreBufferedFile.Valid;
    ghost var all := forall k :: alloc(k);
    NoParts([]);
    for i := 0 to |datas|
      invariant f.Valid() && f.buffer.data != null && (f.buffer.data == old(f.buffer.data) || fresh(f.buffer.data))
      invariant all ==> f.written == Flatten(datas[..i])
    {
      NextData(datas, i);
      var len := Count(datas[i], f.asis, f.channels);
      var _, _ := f.Write(len, datas[i], alloc(i), true);
    }
    assert datas[..|datas|] == datas;
  }

  method Count(data: seq<Byte>, asis: bool, channels: nat) returns (len: nat)
    requires channels > 0 && WholeFrames(data, asis, channels)
    ensures |data| == len * Unit(asis, channels)
  {
    len := |data| / Unit(asis, channels);
  }

  /** Three bytes for a buffer of two that cannot grow: the call succeeds and counts them, and they are gone. */
  method GrowthFails() returns (f: PreBufferedFile, status: Status, n: nat)
    ensures status == Success && n == 3 && f.samplesOut == 3 && f.written == f.file == []
  {
    f := new PreBufferedFile(4, 1, true);
    var data: seq<Byte> := [1, 2, 3];
    assert f.buffer.View() == Fifo([], 2);
    status, n := f.Write(3, data, false, true);
    assert f.blocks == [];
    f.Close(_ => true);
    NoBlocksWritten(4);
    NoBlocks(true, 1);
  }

  lemma NoBlocksWritten(n: nat)
    requires n > 0
    ensures Blocks([], n) == []
  {
  }

  /** The default block of 65536 bytes is not a whole number of three-channel frames, so a recording of
      65538 bytes arrives short although every call succeeded. */
  method ThreeChannels(data: seq<Byte>) returns (f: PreBufferedFile)
    requires |data| == 65538
    ensures f.written == data && |f.file| < |data|
  {
    Unique(65538, 6, 10923, 0);
    f := Record(65536, 3, false, [data], _ => true);
    FlattenOne(data);
    Unique(65536, 6, 10922, 4);
    TailLost(data, 65536, false, 3);
  }

  lemma LastFull(written: seq<Byte>, blocks: seq<seq<Byte>>, held: seq<Byte>, n: nat)
    requires n > 0 && InStep(written, blocks, held, n)
    ensures held == [] ==> Blocks(written, n) == blocks
  {
    if held == [] {
      LastBlock(written, blocks, held, n);
    }
  }

  /** All full blocks, then the rest if there is one. */
  ghost function Blocks(s: seq<Byte>, n: nat): seq<seq<Byte>>
    requires n > 0
  {
    if Residue(s, n) == [] then Chunks(s, n) else Chunks(s, n) + [Residue(s, n)]
  }

  lemma LastBlock(written: seq<Byte>, blocks: seq<seq<Byte>>, held: seq<Byte>, n: nat)
    requires n > 0 && |held| < n && InStep(written, blocks, held, n)
    ensures Blocks(written, n) == if held == [] then blocks else blocks + [held]
  {
    SameResidue(written, blocks, held, n);
    assert blocks + Chunks(held, n) == blocks;
  }

  lemma KeptLength(b: seq<Byte>, asis: bool, channels: nat)
    requires channels > 0
    ensures |Kept(b, asis, channels)| == |b| - |b| % Unit(asis, channels)
    ensures |b| % Unit(asis, channels) == 0 ==> Kept(b, asis, channels) == b
  {
    Whole(|b|, asis, channels);
  }

  ghost function Delivered(blocks: seq<seq<Byte>>, asis: bool, channels: nat): seq<Byte>
    requires channels > 0
  {
    if blocks == [] then [] else Kept(blocks[0], asis, channels) + Delivered(blocks[1..], asis, channels)
  }

  lemma Whole(blen: nat, asis: bool, channels: nat)
    requires channels > 0
    ensures Samples(blen, asis, channels) == blen / Unit(asis, channels)
    ensures Samples(blen, asis, channels) * Unit(asis, channels) == blen - blen % Unit(asis, channels)
  {
    var b := if asis then blen else blen / 2;
    var s, r := b / channels, b % channels;
    assert Samples(blen, asis, channels) == s;
    Divides(b, channels);
    if asis {
      Unique(blen, channels, s, r);
    } else {
      Doubled(s, channels);
      Unique(blen, 2 * channels, s, 2 * r + blen % 2);
    }
  }

  lemma Divides(x: nat, m: nat)
    requires m > 0
    ensures x == x / m * m + x % m && x % m < m
  {
  }

  lemma Doubled(s: nat, m: nat)
    ensures s * (2 * m) == 2 * (s * m)
  {
  }

  lemma Unique(x: nat, m: nat, q: nat, r: nat)
    requires m > 0 && x == q * m + r && r < m
    ensures x / m == q && x % m == r
  {
    var d := x / m - q;
    assert d * m == r - x % m;
    if d != 0 {
      NonZeroMultiple(d, m);
      assert false;
    }
  }

  lemma NonZeroMultiple(d: int, m: nat)
    requires d != 0
    ensures d * m >= m || d * m <= 0 - m
  {
    if d > 0 {
      assert d * m >= m;
    } else {
      assert d * m <= 0 - m;
    }
  }

  lemma BlocksUnfold(s: seq<Byte>, n: nat)
    requires n > 0
    ensures |s| < n ==> Blocks(s, n) == if s == [] then [] else [s]
    ensures |s| >= n ==> Blocks(s, n) == [s[..n]] + Blocks(s[n..], n)
  {
    if |s| >= n {
      Assoc([s[..n]], Chunks(s[n..], n), [Residue(s, n)]);
    }
  }

  /** Every block but the last is full, and together they are exactly the bytes written. */
  lemma {:induction false} BlocksConserve(s: seq<Byte>, n: nat)
    requires n > 0
    ensures Flatten(Blocks(s, n)) == s
    ensures forall i :: 0 <= i < |Blocks(s, n)| - 1 ==> |Blocks(s, n)[i]| == n
    ensures Blocks(s, n) != [] ==> 0 < |Blocks(s, n)[|Blocks(s, n)| - 1]| <= n
  {
    ChunksConserve(s, n);
    ChunksSized(s, n);
    if Residue(s, n) != [] {
      FlattenSnoc(Chunks(s, n), Residue(s, n));
    }
  }

  lemma {:induction false} DeliveredBounded(blocks: seq<seq<Byte>>, asis: bool, channels: nat)
    requires channels > 0
    ensures |Delivered(blocks, asis, channels)| <= |Flatten(blocks)|
  {
    if blocks != [] {
      KeptLength(blocks[0], asis, channels);
      DeliveredBounded(blocks[1..], asis, channels);
    }
  }

  /** The file receives every byte exactly when no full block was cut or the block size is
      a whole number of sample frames; otherwise the first full block already loses its odd tail. */
  lemma NothingLostIff(s: seq<Byte>, n: nat, asis: bool, channels: nat)
    requires n > 0 && channels > 0 && WholeFrames(s, asis, channels)
    ensures Delivered(Blocks(s, n), asis, channels) == s <==> |s| < n || n % Unit(asis, channels) == 0
  {
    if |s| < n || n % Unit(asis, channels) == 0 {
      NothingLost(s, n, asis, channels);
    } else {
      TailLost(s, n, asis, channels);
    }
  }

  lemma UnitIsPositive(asis: bool, channels: nat)
    requires channels > 0
    ensures Unit(asis, channels) > 0
  {
  }

  lemma {:induction false} NothingLost(s: seq<Byte>, n: nat, asis: bool, channels: nat)
    requires n > 0 && channels > 0 && |s| % Unit(asis, channels) == 0
    requires |s| < n || n % Unit(asis, channels) == 0
    ensures Delivered(Blocks(s, n), asis, channels) == s
    decreases |s|
  {
    hide Unit, Kept, Delivered, Blocks;
    UnitIsPositive(asis, channels);
    BlocksUnfold(s, n);
    NoBlocks(asis, channels);
    if s == [] {
    } else if |s| < n {
      KeptLength(s, asis, channels);
      DeliveredCons(s, [], asis, channels);
      assert [s] + [] == [s] && s + [] == s;
    } else {
      RestIsWhole(|s|, n, Unit(asis, channels));
      KeptLength(s[..n], asis, channels);
      NothingLost(s[n..], n, asis, channels);
      DeliveredCons(s[..n], Blocks(s[n..], n), asis, channels);
      assert s == s[..n] + s[n..];
    }
  }

  lemma NoBlocks(asis: bool, channels: nat)
    requires channels > 0
    ensures Delivered([], asis, channels) == []
  {
  }

  lemma DeliveredCons(b: seq<Byte>, rest: seq<seq<Byte>>, asis: bool, channels: nat)
    requires channels > 0
    ensures Delivered([b] + rest, asis, channels) == Kept(b, asis, channels) + Delivered(rest, asis, channels)
  {
    assert ([b] + rest)[1..] == rest;
  }

  lemma {:induction false} DeliveredSnoc(blocks: seq<seq<Byte>>, b: seq<Byte>, asis: bool, channels: nat)
    requires channels > 0
    ensures Delivered(blocks + [b], asis, channels) == Delivered(blocks, asis, channels) + Kept(b, asis, channels)
  {
    hide Kept;
    if blocks == [] {
      assert [] + [b] == [b] + [];
      DeliveredCons(b, [], asis, channels);
    } else {
      assert blocks + [b] == [blocks[0]] + (blocks[1..] + [b]);
      DeliveredCons(blocks[0], blocks[1..] + [b], asis, channels);
      DeliveredSnoc(blocks[1..], b, asis, channels);
      Assoc(Kept(blocks[0], asis, channels), Delivered(blocks[1..], asis, channels), Kept(b, asis, channels));
    }
  }

  lemma TailLost(s: seq<Byte>, n: nat, asis: bool, channels: nat)
    requires 0 < n <= |s| && channels > 0 && n % Unit(asis, channels) != 0
    ensures |Delivered(Blocks(s, n), asis, channels)| < |s|
  {
    BlocksUnfold(s, n);
    KeptLength(s[..n], asis, channels);
    DeliveredCons(s[..n], Blocks(s[n..], n), asis, channels);
    BlocksConserve(s[n..], n);
    DeliveredBounded(Blocks(s[n..], n), asis, channels);
  }

  lemma RestIsWhole(a: nat, b: nat, m: nat)
    requires m > 0 && b <= a && a % m == 0 && b % m == 0
    ensures (a - b) % m == 0
  {
    var q := a / m - b / m;
    assert a - b == q * m;
    assert q >= 0 by {
      if q < 0 { NonZeroMultiple(q, m); assert false; }
    }
    Unique(a - b, m, q, 0);
  }
}
