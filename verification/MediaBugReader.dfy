/** switch_core_media_bug_read (src/switch_core_media_bug.c): one frame of the read and
    write streams is taken off their buffers and mixed, or interleaved for stereo. */
module MediaBugReader {
  import opened Common
  import opened SlidingBuffer

  const RECOMMENDED_BUFFER_SIZE: nat := 4096
  const SMAX := 32767
  const SMIN := -32768

  type Sample = x: int | -32768 <= x <= 32767

  datatype Status = Success | False | Break

  /** Little-endian 16-bit reinterpretation of two bytes. */
  function ToSample(lo: Byte, hi: Byte): Sample {
    var v := lo + 256 * hi;
    if v > SMAX then v - 65536 else v
  }

  function Decode(bytes: seq<Byte>): (s: seq<Sample>)
    ensures |s| == |bytes| / 2
  {
    seq(|bytes| / 2, i requires 0 <= i < |bytes| / 2 => ToSample(bytes[2 * i], bytes[2 * i + 1]))
  }

  /** A sample is the number its two bytes stand for, in two's complement. */
  lemma SampleIsTwosComplement(lo: Byte, hi: Byte)
    ensures (ToSample(lo, hi) - (lo + 256 * hi)) % 65536 == 0
  {
  }

  lemma DecodeAt(bytes: seq<Byte>, i: nat)
    requires i < |bytes| / 2
    ensures (Decode(bytes)[i] - (bytes[2 * i] as int + 256 * bytes[2 * i + 1] as int)) % 65536 == 0
  {
    SampleIsTwosComplement(bytes[2 * i], bytes[2 * i + 1]);
  }

  /** The C division, which truncates toward zero. */
  function Half(n: int): int { if n >= 0 then n / 2 else -(-n / 2) }

  function Saturate(z: int): Sample {
    if z > SMAX then SMAX else if z < SMIN then SMIN else z
  }

  /** The mixing step as written, with the boost applied to sums that already overflow. */
  function MixStep(r: Sample, w: Sample): Sample {
    var z := w + r;
    var z1 := if z > SMAX || z < SMIN then z + (if r != 0 then Half(r) else 0) else z;
    var z2 := if z > SMAX || z < SMIN then z1 + (if w != 0 then Half(w) else 0) else z1;
    Saturate(z2)
  }

  function Distance(a: int, b: int): nat { if a <= b then b - a else a - b }

  /** The 16-bit value nearest to z. */
  ghost predicate Nearest(s: Sample, z: int) { forall v: Sample :: Distance(s, z) <= Distance(v, z) }

  lemma SaturateIsNearest(z: int)
    ensures Nearest(Saturate(z), z)
  {
  }

  /** There is only one, so this says what every mixed sample is. */
  lemma NearestIsUnique(a: Sample, z: int)
    requires Nearest(a, z)
    ensures a == Saturate(z)
  {
    assert Distance(a, z) <= Distance(Saturate(z), z);
  }

  /** The boost changes nothing: an overflowing sum has two addends of the same sign. */
  lemma BoostIsIdle(r: Sample, w: Sample)
    ensures MixStep(r, w) == Saturate(r + w) && Nearest(MixStep(r, w), r + w)
  {
    SaturateIsNearest(r + w);
    if r + w > SMAX {
      assert r > 0 && w > 0;
    } else if r + w < SMIN {
      assert r < 0 && w < 0;
    }
  }

  function At(s: seq<Sample>, x: nat): Sample { if x < |s| then s[x] else 0 }

  ghost predicate Mixed(out: seq<Sample>, r: seq<Sample>, w: seq<Sample>) {
    forall x :: 0 <= x < |out| ==> out[x] == Saturate(At(r, x) + At(w, x))
  }

  ghost predicate Interleaved(out: seq<Sample>, left: seq<Sample>, right: seq<Sample>) {
    forall x :: 0 <= x < |out| ==> out[x] == if x % 2 == 0 then At(left, x / 2) else At(right, x / 2)
  }

  method LoadSamples(dst: array<Sample>, bytes: seq<Byte>)
    requires |bytes| / 2 <= dst.Length
    modifies dst
    ensures dst[..|bytes| / 2] == Decode(bytes)
  {
    forall i | 0 <= i < |bytes| / 2 {
      dst[i] := ToSample(bytes[2 * i], bytes[2 * i + 1]);
    }
  }

  /** In place: the read samples in `fp` are overwritten by the mix. */
  method MixMono(fp: array<Sample>, rlen: nat, w: seq<Sample>, blen: nat)
    requires blen <= fp.Length && rlen <= fp.Length
    modifies fp
    ensures Mixed(fp[..blen], old(fp[..rlen]), w)
    ensures forall x :: 0 <= x < blen ==> Nearest(fp[x], At(old(fp[..rlen]), x) + At(w, x))
    ensures forall x :: 0 <= x < blen && x < rlen && x < |w| ==> Nearest(fp[x], old(fp[x]) as int + w[x] as int)
  {
    ghost var r := fp[..rlen];
    for x := 0 to blen
      invariant forall i :: 0 <= i < x ==> fp[i] == Saturate(At(r, i) + At(w, i))
      invariant forall i :: x <= i < fp.Length ==> fp[i] == old(fp[i])
    {
      var rs: Sample := if x < rlen then fp[x] else 0;
      var ws: Sample := if x < |w| then w[x] else 0;
      BoostIsIdle(rs, ws);
      fp[x] := MixStep(rs, ws);
    }
    forall x | 0 <= x < blen
      ensures Nearest(fp[x], At(r, x) + At(w, x))
    {
      SaturateIsNearest(At(r, x) + At(w, x));
    }
  }

  method Interleave(fp: array<Sample>, left: seq<Sample>, right: seq<Sample>, blen: nat)
    requires 2 * blen <= fp.Length
    modifies fp
    ensures Interleaved(fp[..2 * blen], left, right)
    ensures forall x :: 0 <= x < blen && x < |left| ==> fp[2 * x] == left[x]
    ensures forall x :: 0 <= x < blen && x < |right| ==> fp[2 * x + 1] == right[x]
  {
    for x := 0 to blen
      invariant forall i :: 0 <= i < 2 * x ==> fp[i] == if i % 2 == 0 then At(left, i / 2) else At(right, i / 2)
    {
      fp[2 * x] := if x < |left| then left[x] else 0;
      fp[2 * x + 1] := if x < |right| then right[x] else 0;
    }
  }

  /** How much of a stream with `inuse` bytes one call takes. */
  function Share(inuse: nat, frameSize: nat): nat {
    var n := if frameSize != 0 && inuse > frameSize then frameSize else inuse;
    if n > RECOMMENDED_BUFFER_SIZE then 1280 else n
  }

  /** memset(…, 255, n). */
  function Filler(n: nat): seq<Byte> { if n == 0 then [] else Filler(n - 1) + [255] }

  /** Filler is all ones, so a side without data sounds as the sample -1. */
  lemma FillerIs(n: nat)
    ensures |Filler(n)| == n && forall i :: 0 <= i < n ==> Filler(n)[i] == 255
    ensures |Decode(Filler(n))| == n / 2 && forall i :: 0 <= i < n / 2 ==> Decode(Filler(n))[i] == -1
  {
    FillerBytes(n);
  }

  /** What a side without data gives: a packet of it. */
  lemma SilentSide(frameSize: nat, bytes: nat)
    ensures |Heard([], frameSize, bytes)| == bytes
    ensures forall i :: 0 <= i < bytes ==> Heard([], frameSize, bytes)[i] == 255
  {
    FillerBytes(bytes);
  }

  lemma {:induction false} FillerBytes(n: nat)
    ensures |Filler(n)| == n && forall i :: 0 <= i < n ==> Filler(n)[i] == 255
  {
    if n > 0 {
      FillerBytes(n - 1);
    }
  }

  ghost function Cut(content: seq<Byte>, frameSize: nat): nat { Min(Share(|content|, frameSize), |content|) }

  ghost function Left(content: seq<Byte>, frameSize: nat): seq<Byte> { content[Cut(content, frameSize)..] }

  /** A stream's contribution: its first bytes, or a frame of 0xFF filler when it has none. */
  ghost function Heard(content: seq<Byte>, frameSize: nat, bytes: nat): seq<Byte> {
    if content == [] then Filler(bytes) else content[..Cut(content, frameSize)]
  }

  ghost function Side(buffer: Buffer?, on: bool): seq<Byte>
    requires buffer != null ==> buffer.Valid()
    reads buffer, if buffer == null then null else buffer.data
  {
    if on && buffer != null then buffer.View().content else []
  }

  /** Takes one share off a stream, or the filler when the stream is off or empty. */
  method Take(buffer: Buffer?, on: bool, frameSize: nat, bytes: nat) returns (out: seq<Byte>)
    requires buffer != null ==> buffer.Valid()
    modifies buffer
    ensures buffer != null ==> buffer.Valid() && buffer.data == old(buffer.data)
    ensures out == Heard(old(Side(buffer, on)), frameSize, bytes)
    ensures Side(buffer, on) == Left(old(Side(buffer, on)), frameSize)
  {
    if on && buffer != null && buffer.used > 0 {
      var n := Share(buffer.used, frameSize);
      out := buffer.Read(n);
      assert |out| == n;  // so the framing-error branch is never taken
    } else {
      out := Filler(bytes);
    }
  }

  class MediaBug {
    const rawRead: Buffer?
    const rawWrite: Buffer?
    const readStream: bool
    const writeStream: bool
    const stereo: bool
    const stereoSwap: bool
    var recordFrameSize: nat
    var preBufferCount: nat
    var preBufferMax: nat

    ghost predicate Valid()
      reads rawRead, rawWrite
    {
      && (rawRead != null ==> rawRead.Valid()) && (rawWrite != null ==> rawWrite.Valid())
      && (readStream ==> rawRead != null)
      && (rawRead != null && writeStream ==> rawWrite != null)
      && (rawRead != null ==> rawRead != rawWrite)
    }

    ghost function ReadSide(): seq<Byte>
      requires Valid()
      reads rawRead, rawWrite, if rawRead == null then null else rawRead.data
    {
      Side(rawRead, readStream)
    }

    ghost function WriteSide(): seq<Byte>
      requires Valid()
      reads rawRead, rawWrite, if rawWrite == null then null else rawWrite.data
    {
      Side(rawWrite, writeStream)
    }

    /** The frame size in force for a call: the recorded one, or the codec's on first use. */
    function FrameSize(bytes: nat): nat
      reads this`recordFrameSize
    {
      if recordFrameSize != 0 then recordFrameSize else bytes
    }

    method Inuse() returns (r: nat, w: nat)
      requires Valid() && (rawRead != null || (rawWrite != null && writeStream))
      ensures r == |ReadSide()| && w == |WriteSide()|
    {
      r := if readStream then rawRead.used else 0;
      w := if writeStream then rawWrite.used else 0;
    }

    predicate Usable(room: nat, bytes: nat) {
      2 * room >= bytes && (rawRead != null || (rawWrite != null && writeStream))
    }

    /** Still collecting the frames that are to be buffered before the first one is delivered. */
    predicate Holding(room: nat, bytes: nat, r: nat, w: nat)
      reads this`recordFrameSize, this`preBufferCount, this`preBufferMax
    {
      Usable(room, bytes) && recordFrameSize != 0 && r + w > 0 && preBufferCount < preBufferMax
    }

    /** Why a call can come back empty-handed, from the amounts held by the two sides. */
    ghost predicate Refuses(room: nat, bytes: nat, r: nat, w: nat)
      reads this`recordFrameSize, this`preBufferCount, this`preBufferMax
    {
      || !Usable(room, bytes)
      || Holding(room, bytes, r, w)
      || 0 < r < FrameSize(bytes) || 0 < w < FrameSize(bytes)
      || r + w == 0
    }

    /** Everything read does before it touches a buffer. */
    method Gate(room: nat, bytes: nat) returns (go: bool)
      requires Valid()
      modifies this`recordFrameSize, this`preBufferCount
      ensures go == !old(Refuses(room, bytes, |ReadSide()|, |WriteSide()|))
      ensures preBufferCount ==
              old(preBufferCount) + (if old(Holding(room, bytes, |ReadSide()|, |WriteSide()|)) then 1 else 0)
      ensures recordFrameSize == if Usable(room, bytes) && !old(Holding(room, bytes, |ReadSide()|, |WriteSide()|))
                                 then old(FrameSize(bytes)) else old(recordFrameSize)
      ensures old(recordFrameSize) != 0 ==> recordFrameSize == old(recordFrameSize)
      ensures old(recordFrameSize) == 0 && recordFrameSize != 0 ==> recordFrameSize == bytes
      ensures old(recordFrameSize) != 0 && |ReadSide()| + |WriteSide()| > 0 && old(preBufferCount) < preBufferMax ==>
                !go && (Usable(room, bytes) ==> preBufferCount == old(preBufferCount) + 1)
      ensures go ==> recordFrameSize == old(FrameSize(bytes)) && (rawRead != null || (rawWrite != null && writeStream))
    {
      if 2 * room < bytes {
        return false;
      }
      if rawRead == null && (rawWrite == null || !writeStream) {
        return false;
      }
      var doRead, doWrite := Inuse();
      if recordFrameSize != 0 && preBufferMax != 0 && (doRead != 0 || doWrite != 0) && preBufferCount < preBufferMax {
        preBufferCount := preBufferCount + 1;
        return false;
      }
      if recordFrameSize == 0 {
        recordFrameSize := bytes;
      }
      if recordFrameSize != 0
         && ((doRead != 0 && doRead < recordFrameSize) || (doWrite != 0 && doWrite < recordFrameSize)) {
        return false;
      }
      go := doRead != 0 || doWrite != 0;
    }

    method TakeBoth(bytes: nat) returns (r: seq<Byte>, w: seq<Byte>)
      requires Valid()
      modifies rawRead, rawWrite
      ensures Valid()
      ensures r == Heard(old(ReadSide()), recordFrameSize, bytes)
      ensures w == Heard(old(WriteSide()), recordFrameSize, bytes)
      ensures ReadSide() == Left(old(ReadSide()), recordFrameSize)
      ensures WriteSide() == Left(old(WriteSide()), recordFrameSize)
    {
      hide Heard, Left;
      ghost var w0 := WriteSide();
      r := Take(rawRead, readStream, recordFrameSize, bytes);
      assert WriteSide() == w0;
      ghost var left := ReadSide();
      w := Take(rawWrite, writeStream, recordFrameSize, bytes);
      assert ReadSide() == left;
    }

    ghost predicate Rendered(out: seq<Sample>, r: seq<Byte>, w: seq<Byte>, bytes: nat)
      requires (if stereo then bytes else bytes / 2) <= |out|
    {
      if !stereo then Mixed(out[..bytes / 2], Decode(r), Decode(w))
      else if stereoSwap then Interleaved(out[..2 * (bytes / 2)], Decode(w), Decode(r))
      else Interleaved(out[..2 * (bytes / 2)], Decode(r), Decode(w))
    }

    method Render(frame: array<Sample>, r: seq<Byte>, w: seq<Byte>, bytes: nat)
      requires |r| <= 2 * frame.Length && bytes <= 2 * frame.Length && (stereo ==> bytes <= frame.Length)
      modifies frame
      ensures Rendered(frame[..], r, w, bytes)
    {
      LoadSamples(frame, r);
      if stereo {
        if stereoSwap {
          Interleave(frame, Decode(w), Decode(r), bytes / 2);
        } else {
          Interleave(frame, Decode(r), Decode(w), bytes / 2);
        }
        assert frame[..][..2 * (bytes / 2)] == frame[..2 * (bytes / 2)];
      } else {
        MixMono(frame, |r| / 2, Decode(w), bytes / 2);
        assert frame[..][..bytes / 2] == frame[..bytes / 2];
      }
    }

    /** The decision and the consumption: False takes nothing, otherwise each side gives its share. */
    method Acquire(room: nat, bytes: nat) returns (status: Status, r: seq<Byte>, w: seq<Byte>)
      requires Valid()
      modifies this`recordFrameSize, this`preBufferCount, rawRead, rawWrite
      ensures Valid() && (old(recordFrameSize) != 0 ==> recordFrameSize == old(recordFrameSize))
      ensures status == False <==> old(Refuses(room, bytes, |ReadSide()|, |WriteSide()|))
      ensures status == Success <==> status != False && old(ReadSide()) != [] && old(WriteSide()) != []
      ensures status == False ==> ReadSide() == old(ReadSide()) && WriteSide() == old(WriteSide())
      ensures status != False ==> bytes <= 2 * room
      ensures status != False ==> r == Heard(old(ReadSide()), old(FrameSize(bytes)), bytes)
      ensures status != False ==> w == Heard(old(WriteSide()), old(FrameSize(bytes)), bytes)
      ensures status != False ==> ReadSide() == Left(old(ReadSide()), old(FrameSize(bytes)))
      ensures status != False ==> WriteSide() == Left(old(WriteSide()), old(FrameSize(bytes)))
      ensures status != False && InRange(old(FrameSize(bytes))) ==>
                && ReadSide() == LessOne(old(ReadSide()), old(FrameSize(bytes)))
                && WriteSide() == LessOne(old(WriteSide()), old(FrameSize(bytes)))
    {
      hide Heard, Left, LessOne, Buffer.View;
      ghost var r0, w0 := ReadSide(), WriteSide();
      OneFrameLess(r0, FrameSize(bytes));
      OneFrameLess(w0, FrameSize(bytes));
      var go := Gate(room, bytes);
      assert ReadSide() == r0 && WriteSide() == w0;
      if !go {
        return False, [], [];
      }
      var doRead, doWrite := Inuse();
      r, w := TakeBoth(bytes);
      status := if doRead == 0 || doWrite == 0 then Break else Success;
    }

    /** The whole call.  `frame` is the caller's sample buffer, `bytes` the codec's decoded packet length. */
    method Read(frame: array<Sample>, bytes: nat) returns (status: Status, r: seq<Byte>, w: seq<Byte>)
      requires Valid()
      requires rawRead != null ==> rawRead.data as object? != frame
      requires rawWrite != null ==> rawWrite.data as object? != frame
      requires !Refuses(frame.Length, bytes, |ReadSide()|, |WriteSide()|) ==>
                 |Heard(ReadSide(), FrameSize(bytes), bytes)| <= 2 * frame.Length && (stereo ==> bytes <= frame.Length)
      modifies this`recordFrameSize, this`preBufferCount, rawRead, rawWrite, frame
      ensures old(recordFrameSize) != 0 ==> recordFrameSize == old(recordFrameSize)
      ensures status == False <==> old(Refuses(frame.Length, bytes, |ReadSide()|, |WriteSide()|))
      ensures status != False ==> r == Heard(old(ReadSide()), old(FrameSize(bytes)), bytes)
      ensures status != False ==> w == Heard(old(WriteSide()), old(FrameSize(bytes)), bytes)
      ensures status != False ==>
                (if stereo then bytes else bytes / 2) <= frame.Length && Rendered(frame[..], r, w, bytes)
      ensures status == False ==> frame[..] == old(frame[..])
      ensures Valid()
      ensures ReadSide() == if status == False then old(ReadSide()) else Left(old(ReadSide()), old(FrameSize(bytes)))
      ensures WriteSide() == if status == False then old(WriteSide())
                             else Left(old(WriteSide()), old(FrameSize(bytes)))
      ensures status != False && InRange(old(FrameSize(bytes))) ==>
                && ReadSide() == LessOne(old(ReadSide()), old(FrameSize(bytes)))
                && WriteSide() == LessOne(old(WriteSide()), old(FrameSize(bytes)))
    {
      hide Heard, Left, Rendered, Refuses, ReadSide, WriteSide, LessOne, InRange;
      status, r, w := Acquire(frame.Length, bytes);
      if status != False {
        ghost var leftR, leftW := ReadSide(), WriteSide();
        Render(frame, r, w, bytes);
        assert Valid() && ReadSide() == leftR && WriteSide() == leftW;
      }
    }
  }

  /** A stream that is not short gives exactly one frame, if and only if the frame size is in range. */
  lemma OneFrameIff(content: seq<Byte>, frameSize: nat, bytes: nat)
    requires 0 < frameSize <= |content|
    ensures Left(content, frameSize) == content[frameSize..] <==> frameSize <= RECOMMENDED_BUFFER_SIZE
    ensures Heard(content, frameSize, bytes) == content[..frameSize] <==> frameSize <= RECOMMENDED_BUFFER_SIZE
  {
    if frameSize > RECOMMENDED_BUFFER_SIZE {
      assert |Left(content, frameSize)| == |content| - 1280;
    }
  }

  lemma OneFrameLess(content: seq<Byte>, frameSize: nat)
    ensures InRange(frameSize) && !(0 < |content| < frameSize) ==>
              Left(content, frameSize) == LessOne(content, frameSize)
  {
    if InRange(frameSize) && |content| >= frameSize {
      OneFrameIff(content, frameSize, 0);
    }
  }

  ghost predicate InRange(frameSize: nat) { 0 < frameSize <= RECOMMENDED_BUFFER_SIZE }

  /** One frame less, unless there was nothing. */
  ghost function LessOne(content: seq<Byte>, frameSize: nat): seq<Byte> {
    if |content| < frameSize then content else content[frameSize..]
  }
}
