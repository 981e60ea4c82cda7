/** The raw_write_buffer path of switch_core_session_write_frame (src/switch_core_io.c):
    frames of any length are re-cut into encoder inputs of one packet each. */
module FrameWriter {
  import opened Common
  import opened SlidingBuffer
  import opened Chunking

  const BLOCK_FRAMES: nat := 25
  const START_FRAMES: nat := 50

  datatype Status = Success | MemErr | Failed

  /** How one packet fared in the encoder and in the endpoint's write. */
  datatype Pass = Sent | EncodeFailed | ResamplerFailed | SendFailed

  class FrameWriter {
    var buffer: Buffer?
    const packetBytes: nat

    ghost function Repr(): set<object>
      reads this, buffer
    {
      if buffer == null then {this} else {this} + buffer.Repr()
    }

    ghost predicate Valid()
      reads this, buffer
    {
      && packetBytes > 0
      && (buffer != null ==> buffer.Valid() && buffer.data != null && buffer.kind.Dynamic? && buffer.kind.maxLen == 0)
    }

    ghost function Pending(): seq<Byte>
      requires Valid()
      reads this, buffer, if buffer == null then null else buffer.data
    {
      if buffer == null then [] else buffer.View().content
    }

    /** How much the buffer takes before it has to grow, once it exists. */
    ghost function Room(): nat
      reads this, buffer, if buffer == null then null else buffer.data
    {
      if buffer == null then packetBytes * START_FRAMES else buffer.Capacity()
    }

    constructor (packetBytes: nat)
      requires packetBytes > 0
      ensures Valid() && fresh(Repr()) && Pending() == [] && this.packetBytes == packetBytes
    {
      this.packetBytes := packetBytes;
      buffer := null;
    }

    method Engage()
      requires Valid()
      modifies this
      ensures Valid() && fresh(Repr() - old(Repr())) && buffer != null && Pending() == old(Pending())
      ensures old(buffer) != null ==> buffer == old(buffer)
      ensures old(buffer) == null ==>
                buffer.kind == Dynamic(packetBytes * 25, 0) && buffer.Capacity() == packetBytes * 50
    {
      if buffer == null {
        buffer := new Buffer.CreateDynamic(packetBytes * BLOCK_FRAMES, packetBytes * START_FRAMES, 0);
      }
    }

    /** The drain loop: one packet at a time goes to the encoder until less than a packet is left, a packet
        fails, or the channel is found down.  The last of these is not an error: the status is still the
        success set before the loop. */
    method Drain(down: nat -> bool, pass: nat -> Pass) returns (status: Status, packets: seq<seq<Byte>>)
      requires Valid() && buffer != null
      modifies buffer
      ensures Valid() && buffer.data == old(buffer.data)
      ensures status != MemErr && Drained(old(Pending()), Pending(), packetBytes, down, pass, status, packets)
    {
      hide InStep, Drained, Front, Drop, Buffer.View;
      packets := [];
      ghost var total := Pending();
      StartInStep(total, packetBytes);
      while buffer.used >= packetBytes
        invariant Valid() && buffer.data == old(buffer.data)
        invariant InStep(total, packets, Pending(), packetBytes)
        invariant AllSent(down, pass, |packets|)
        decreases buffer.used
      {
        if down(|packets|) {
          FoundDown(total, packets, Pending(), packetBytes, down, pass);
          return Success, packets;
        }
        CutOne(total, packets, Pending(), packetBytes);
        FrontIs(buffer.View(), packetBytes);
        var packet := buffer.Read(packetBytes);
        packets := packets + [packet];
        if pass(|packets| - 1) != Sent {
          OneFailed(total, packets, Pending(), packetBytes, down, pass);
          return Failed, packets;
        }
      }
      RanDry(total, packets, Pending(), packetBytes, down, pass);
      status := Success;
    }

    method WriteFrame(frame: seq<Byte>, create: bool, alloc: bool, down: nat -> bool, pass: nat -> Pass)
      returns (status: Status, packets: seq<seq<Byte>>)
      requires Valid()
      modifies Repr()
      ensures Valid() && fresh(Repr() - old(Repr()))
      ensures status == MemErr <==>
              || (old(buffer) == null && !create)
              || |old(Pending())| + |frame| == 0
              || (!alloc && |old(Pending())| + |frame| > old(Room()))
      ensures status == MemErr ==> packets == [] && Pending() == old(Pending())
      ensures status != MemErr ==>
                Drained(old(Pending()) + frame, Pending(), packetBytes, down, pass, status, packets)
    {
      hide Drained, Append, AppendCount, Buffer.View;
      packets := [];
      if buffer == null && !create {
        return MemErr, packets;
      }
      Engage();
      Unlimited(buffer.kind, buffer.View(), frame, alloc);
      var w := buffer.Write(frame, alloc);
      if w == 0 {
        return MemErr, packets;
      }
      assert Pending() == old(Pending()) + frame;
      status, packets := Drain(down, pass);
    }
  }

  /** The first packet of n before which the channel is down or which is not sent; n if there is none. */
  ghost function Stop(n: nat, down: nat -> bool, pass: nat -> Pass, from: nat): (k: nat)
    requires from <= n
    ensures from <= k <= n && (k < n ==> down(k) || pass(k) != Sent)
    ensures forall i :: from <= i < k ==> !down(i) && pass(i) == Sent
    decreases n - from
  {
    if from == n || down(from) || pass(from) != Sent then from else Stop(n, down, pass, from + 1)
  }

  lemma StopIs(n: nat, down: nat -> bool, pass: nat -> Pass, k: nat)
    requires k <= n && (k < n ==> down(k) || pass(k) != Sent)
    requires AllSent(down, pass, k)
    ensures Stop(n, down, pass, 0) == k
  {
  }

  /** What a drain does to the pending bytes: nothing is lost, the packets are those up to the stop, and a
      packet that failed is gone.  The status is success although the channel is down. */
  ghost predicate Drained(before: seq<Byte>, after: seq<Byte>, n: nat, down: nat -> bool, pass: nat -> Pass,
                          status: Status, packets: seq<seq<Byte>>)
    requires n > 0
  {
    var all := Chunks(before, n);
    var stop := Stop(|all|, down, pass, 0);
    && Flatten(packets) + after == before
    && status == (if stop < |all| && !down(stop) then Failed else Success)
    && packets == all[..if status == Failed then stop + 1 else stop]
    && (status == Success ==> (|after| >= n <==> |packets| < |all| && down(|packets|)))
  }

  ghost predicate AllSent(down: nat -> bool, pass: nat -> Pass, k: nat) {
    forall i :: 0 <= i < k ==> !down(i) && pass(i) == Sent
  }

  /** The three ways out of the drain loop. */
  lemma FoundDown(total: seq<Byte>, packets: seq<seq<Byte>>, rest: seq<Byte>, n: nat,
                  down: nat -> bool, pass: nat -> Pass)
    requires n > 0 && InStep(total, packets, rest, n) && |rest| >= n
    requires AllSent(down, pass, |packets|) && down(|packets|)
    ensures Drained(total, rest, n, down, pass, Success, packets)
  {
    hide Chunks, Flatten, Stop;
    HasBlock(rest, n);
    StopIs(|Chunks(total, n)|, down, pass, |packets|);
  }

  lemma OneFailed(total: seq<Byte>, packets: seq<seq<Byte>>, rest: seq<Byte>, n: nat,
                  down: nat -> bool, pass: nat -> Pass)
    requires n > 0 && InStep(total, packets, rest, n) && packets != []
    requires AllSent(down, pass, |packets| - 1) && !down(|packets| - 1) && pass(|packets| - 1) != Sent
    ensures Drained(total, rest, n, down, pass, Failed, packets)
  {
    hide Chunks, Flatten, Stop;
    StopIs(|Chunks(total, n)|, down, pass, |packets| - 1);
  }

  lemma RanDry(total: seq<Byte>, packets: seq<seq<Byte>>, rest: seq<Byte>, n: nat,
               down: nat -> bool, pass: nat -> Pass)
    requires n > 0 && InStep(total, packets, rest, n) && |rest| < n && AllSent(down, pass, |packets|)
    ensures Drained(total, rest, n, down, pass, Success, packets)
  {
    hide Chunks, Flatten, Stop;
    HasBlock(rest, n);
    StopIs(|Chunks(total, n)|, down, pass, |packets|);
  }

  /** With nothing in the way all full packets go out. */
  lemma NoStop(before: seq<Byte>, after: seq<Byte>, n: nat, down: nat -> bool, pass: nat -> Pass,
               status: Status, packets: seq<seq<Byte>>)
    requires n > 0 && Drained(before, after, n, down, pass, status, packets)
    requires forall k :: !down(k) && pass(k) == Sent
    ensures status == Success && packets == Chunks(before, n) && after == Residue(before, n) && |after| < n
  {
    var all := Chunks(before, n);
    assert all[..|all|] == all;
    ChunksConserve(before, n);
    Cancel(Flatten(packets), after, Residue(before, n));
  }

  /** A call on a channel that is down succeeds and sends nothing: the packet stays in the buffer. */
  method DownIsNoError() returns (w: FrameWriter, status: Status, packets: seq<seq<Byte>>)
    ensures w.Valid() && w.packetBytes == 1 && status == Success && packets == [] && w.Pending() == [7]
  {
    w := new FrameWriter(1);
    var down := (k: nat) => true;
    status, packets := w.WriteFrame([7], true, true, down, _ => Sent);
    assert [] + [7 as Byte] == [7];
    assert Chunks([7], 1) == [[7]] by {
      assert [7 as Byte][..1] == [7] && |[7 as Byte][1..]| == 0;
    }
    assert Flatten([]) == [];
  }

  lemma NextFrame(before: seq<Byte>, frames: seq<seq<Byte>>, i: nat)
    requires i < |frames|
    ensures before + Flatten(frames[..i + 1]) == (before + Flatten(frames[..i])) + frames[i]
  {
    assert frames[..i + 1] == frames[..i] + [frames[i]];
    FlattenSnoc(frames[..i], frames[i]);
    Assoc(before, Flatten(frames[..i]), frames[i]);
  }

  lemma NoFrames(s: seq<Byte>)
    ensures s + Flatten([]) == s
  {
  }

  /** One frame of a writer in step, with nothing in the way. */
  lemma FrameDone(stream: seq<Byte>, frame: seq<Byte>, held: seq<Byte>, more: seq<seq<Byte>>, left: seq<Byte>, n: nat,
                  down: nat -> bool, pass: nat -> Pass, status: Status)
    requires n > 0 && held == Residue(stream, n) && forall k :: !down(k) && pass(k) == Sent
    requires if status == MemErr then held + frame == left == [] && more == []
             else Drained(held + frame, left, n, down, pass, status, more)
    ensures Chunks(stream + frame, n) == Chunks(stream, n) + more
    ensures left == Residue(stream + frame, n)
  {
    hide Drained;
    if status == MemErr {
      NoParts([]);
    } else {
      NoStop(held + frame, left, n, down, pass, status, more);
      NothingLeftOut(held + frame, more, left, n);
    }
    StayInStep(stream, frame, held, more, left, n);
  }

  lemma NothingLeftOut(s: seq<Byte>, blocks: seq<seq<Byte>>, left: seq<Byte>, n: nat)
    requires n > 0 && blocks == Chunks(s, n) && left == Residue(s, n)
    ensures Flatten(blocks) + left == s
  {
    ChunksConserve(s, n);
  }

  /** A whole call's worth of frames: the encoder inputs depend only on the byte stream,
      not on how it was framed, and the buffer holds exactly what is not yet a packet. */
  method WriteFrames(w: FrameWriter, frames: seq<seq<Byte>>) returns (packets: seq<seq<Byte>>)
    requires w.Valid() && |w.Pending()| < w.packetBytes
    modifies w.Repr()
    ensures w.Valid() && fresh(w.Repr() - old(w.Repr()))
    ensures packets == Chunks(old(w.Pending()) + Flatten(frames), w.packetBytes)
    ensures w.Pending() == Residue(old(w.Pending()) + Flatten(frames), w.packetBytes)
  {
    hide Drained, Flatten;
    packets := [];
    ghost var before, n := w.Pending(), w.packetBytes;
    NoFrames(before);
    for i := 0 to |frames|
      invariant w.Valid() && fresh(w.Repr() - old(w.Repr()))
      invariant packets == Chunks(before + Flatten(frames[..i]), n)
      invariant w.Pending() == Residue(before + Flatten(frames[..i]), n)
    {
      ghost var held := w.Pending();
      var down, pass := (k: nat) => false, (k: nat) => Sent;
      var status, more := w.WriteFrame(frames[i], true, true, down, pass);
      FrameDone(before + Flatten(frames[..i]), frames[i], held, more, w.Pending(), n, down, pass, status);
      NextFrame(before, frames, i);
      packets := packets + more;
    }
    assert frames[..|frames|] == frames;
  }

  // ---- Calls that may fail ----

  /** What the outside answers during one call. */
  datatype Luck = Luck(create: bool, alloc: bool, down: nat -> bool, pass: nat -> Pass)

  /** The frames of the calls that did not run out of memory. */
  ghost function Taken(frames: seq<seq<Byte>>, statuses: seq<Status>): seq<Byte>
    requires |statuses| <= |frames|
  {
    if statuses == [] then []
    else
      var i := |statuses| - 1;
      Taken(frames, statuses[..i]) + (if statuses[i] == MemErr then [] else frames[i])
  }

  lemma TakenSnoc(frames: seq<seq<Byte>>, statuses: seq<Status>, st: Status)
    requires |statuses| < |frames|
    ensures Taken(frames, statuses + [st]) ==
            Taken(frames, statuses) + (if st == MemErr then [] else frames[|statuses|])
  {
    assert (statuses + [st])[..|statuses|] == statuses;
  }

  lemma DrainedInStep(before: seq<Byte>, after: seq<Byte>, n: nat, luck: Luck, status: Status, packets: seq<seq<Byte>>)
    requires n > 0 && Drained(before, after, n, luck.down, luck.pass, status, packets)
    ensures InStep(before, packets, after, n)
  {
    PrefixInStep(before, |packets|, after, n);
  }

  /** Whatever fails in any of the calls: the encoder inputs are the first blocks of the stream of frames
      taken, and the buffer holds all the rest of it. */
  method WriteAnyhow(w: FrameWriter, frames: seq<seq<Byte>>, lucks: seq<Luck>)
    returns (packets: seq<seq<Byte>>, statuses: seq<Status>)
    requires w.Valid() && |lucks| == |frames|
    modifies w.Repr()
    ensures w.Valid() && |statuses| == |frames|
    ensures InStep(old(w.Pending()) + Taken(frames, statuses), packets, w.Pending(), w.packetBytes)
  {
    hide InStep, Drained, Taken;
    packets, statuses := [], [];
    ghost var before, n := w.Pending(), w.packetBytes;
    StartInStep(before, n);
    NoneTaken(before, frames);
    for i := 0 to |frames|
      invariant w.Valid() && fresh(w.Repr() - old(w.Repr())) && |statuses| == i
      invariant InStep(before + Taken(frames, statuses), packets, w.Pending(), n)
    {
      ghost var held := w.Pending();
      var luck := lucks[i];
      var status, more := w.WriteFrame(frames[i], luck.create, luck.alloc, luck.down, luck.pass);
      TakenSnoc(frames, statuses, status);
      Assoc(before, Taken(frames, statuses), if status == MemErr then [] else frames[i]);
      if status == MemErr {
        assert packets + more == packets;
        assert before + Taken(frames, statuses) + [] == before + Taken(frames, statuses);
      } else {
        DrainedInStep(held + frames[i], w.Pending(), n, luck, status, more);
        MoreWritten(before + Taken(frames, statuses), packets, held, frames[i], n);
        HandOn(before + Taken(frames, statuses) + frames[i], packets, held + frames[i], more, w.Pending(), n);
      }
      packets, statuses := packets + more, statuses + [status];
    }
  }

  lemma StartInStep(s: seq<Byte>, n: nat)
    requires n > 0
    ensures InStep(s, [], s, n)
  {
    NoParts(s);
  }

  lemma NoneTaken(s: seq<Byte>, frames: seq<seq<Byte>>)
    ensures s + Taken(frames, []) == s
  {
  }
}
