/** The sliding byte buffer of src/switch_buffer.c.

    A contiguous array with a moving head, lazy compaction and optional growth
    is proved to refine `Fifo`, a queue that knows nothing of heads, gaps or
    reallocation.  Laws about whole runs are then proved on `Fifo` alone. */
module SlidingBuffer {
  import opened Common

  /** What create / create_dynamic fix for the buffer's lifetime.  `maxLen == 0` means "no limit". */
  datatype Kind = Fixed | Dynamic(blocksize: nat, maxLen: nat)

  /** The queue a caller sees: its bytes, and how many it can hold before it must grow. */
  datatype Fifo = Fifo(content: seq<Byte>, capacity: nat)

  function Min(a: nat, b: nat): nat { if a <= b then a else b }

  function Max(a: nat, b: nat): nat { if a <= b then b else a }

  ghost predicate MustGrow(k: Kind, q: Fifo, n: nat) {
    && k.Dynamic?
    && q.capacity < |q.content| + n
    && (k.maxLen == 0 || |q.content| + n <= k.maxLen)
  }

  /** `alloc` is what the allocator answers, should growth be needed. */
  ghost predicate Fits(k: Kind, q: Fifo, n: nat, alloc: bool) {
    if MustGrow(k, q, n) then alloc else |q.content| + n <= q.capacity
  }

  ghost function Append(k: Kind, q: Fifo, bytes: seq<Byte>, alloc: bool): Fifo {
    if |bytes| == 0 || !Fits(k, q, |bytes|, alloc) then q
    else if MustGrow(k, q, |bytes|) then Fifo(q.content + bytes, q.capacity + Max(|bytes|, k.blocksize))
    else Fifo(q.content + bytes, q.capacity)
  }

  /** Return value of a write: the new length, or 0 for a refused write. */
  ghost function AppendCount(k: Kind, q: Fifo, bytes: seq<Byte>, alloc: bool): nat {
    if |bytes| != 0 && !Fits(k, q, |bytes|, alloc) then 0 else |Append(k, q, bytes, alloc).content|
  }

  ghost function Drop(q: Fifo, n: nat): Fifo {
    Fifo(q.content[Min(n, |q.content|)..], q.capacity)
  }

  ghost function Front(q: Fifo, n: nat): seq<Byte> {
    q.content[..Min(n, |q.content|)]
  }

  lemma FrontDrop(q: Fifo, n: nat)
    ensures var m := Min(n, |q.content|);
            Front(q, n) == q.content[..m] && Drop(q, n) == Fifo(q.content[m..], q.capacity)
  {
  }

  lemma FrontIs(q: Fifo, n: nat)
    requires n <= |q.content|
    ensures Front(q, n) == q.content[..n] && Drop(q, n).content == q.content[n..]
  {
  }

  lemma RefusedAppend(k: Kind, q: Fifo, bytes: seq<Byte>, alloc: bool)
    ensures AppendCount(k, q, bytes, alloc) == 0 ==> Append(k, q, bytes, alloc) == q
  {
  }

  /** When n bytes are taken, by lengths alone: they fit, or the buffer may grow so far and the allocator serves. */
  predicate Takes(k: Kind, used: nat, capacity: nat, n: nat, alloc: bool) {
    n == 0 || used + n <= capacity || (k.Dynamic? && (k.maxLen == 0 || used + n <= k.maxLen) && alloc)
  }

  /** What a write does, by lengths alone. */
  lemma AppendByLengths(k: Kind, q: Fifo, bytes: seq<Byte>, alloc: bool)
    requires |q.content| <= q.capacity
    ensures var taken := Takes(k, |q.content|, q.capacity, |bytes|, alloc);
            && Append(k, q, bytes, alloc).content == (if taken then q.content + bytes else q.content)
            && AppendCount(k, q, bytes, alloc) == (if taken then |q.content| + |bytes| else 0)
            && Append(k, q, bytes, alloc).capacity ==
               if taken && |q.content| + |bytes| > q.capacity
               then q.capacity + (if |bytes| > k.blocksize then |bytes| else k.blocksize) else q.capacity
  {
    assert q.content + [] == q.content;
  }

  /** A buffer that may grow without limit refuses only what the allocator refuses. */
  lemma Unlimited(k: Kind, q: Fifo, bytes: seq<Byte>, alloc: bool)
    requires k.Dynamic? && k.maxLen == 0 && |q.content| <= q.capacity
    ensures AppendCount(k, q, bytes, alloc) == 0 <==>
            |q.content| + |bytes| == 0 || (!alloc && |q.content| + |bytes| > q.capacity)
    ensures Append(k, q, bytes, alloc).content ==
            if alloc || |q.content| + |bytes| <= q.capacity then q.content + bytes else q.content
  {
  }

  class Buffer {
    var data: array?<Byte>
    var head: nat           // offset of the C head pointer from data
    var used: nat
    var actuallyUsed: nat
    var loops: int
    const kind: Kind

    ghost function Repr(): set<object>
      reads this
    {
      if data == null then {this} else {this, data}
    }

    /** The hidden invariant: the gap before head plus the live bytes is the written prefix. */
    ghost predicate Valid()
      reads this
    {
      && head + used == actuallyUsed
      && (if data == null then actuallyUsed == 0 else actuallyUsed <= data.Length)
    }

    function Capacity(): nat
      reads this
    {
      if data == null then 0 else data.Length
    }

    ghost function View(): (q: Fifo)
      requires Valid()
      reads this, data
      ensures |q.content| == used <= q.capacity == Capacity()
    {
      Fifo(if data == null then [] else data[head..head + used], Capacity())
    }

    /** Everything written since the last zero or compaction; read_loop replays it. */
    ghost function Loaded(): (s: seq<Byte>)
      requires Valid()
      reads this, data
      ensures |s| == actuallyUsed
    {
      if data == null then [] else data[..actuallyUsed]
    }

    constructor Create(maxLen: nat)
      ensures Valid() && fresh(Repr()) && data != null
      ensures View() == Fifo([], maxLen) && kind == Fixed && loops == 0 && Loaded() == []
    {
      data := new Byte[maxLen](_ => 0);
      head, used, actuallyUsed, loops, kind := 0, 0, 0, 0, Fixed;
    }

    constructor CreateDynamic(blocksize: nat, startLen: nat, maxLen: nat)
      ensures Valid() && fresh(Repr()) && (data == null <==> startLen == 0)
      ensures View() == Fifo([], startLen) && kind == Dynamic(blocksize, maxLen) && loops == 0 && Loaded() == []
    {
      if startLen != 0 {
        data := new Byte[startLen](_ => 0);
      } else {
        data := null;
      }
      head, used, actuallyUsed, loops, kind := 0, 0, 0, 0, Dynamic(blocksize, maxLen);
    }

    method Read(n: nat) returns (out: seq<Byte>)
      requires Valid()
      modifies this
      ensures Valid() && data == old(data) && loops == old(loops)
      ensures out == Front(old(View()), n) && View() == Drop(old(View()), n)
      ensures |out| == Min(old(used), n)
      ensures Loaded() == old(Loaded()) && head == old(head) + |out|
    {
      hide Front, Drop;
      FrontDrop(View(), n);
      if used < 1 {
        used := 0;
        return [];
      }
      var reading := if used >= n then n else used;
      ghost var content := View().content;
      out := data[head..head + reading];
      assert out == content[..reading];
      used := used - reading;
      head := head + reading;
      assert View().content == content[reading..];
    }

    method Peek(n: nat) returns (out: seq<Byte>)
      requires Valid()
      modifies this
      ensures Valid() && data == old(data) && loops == old(loops)
      ensures out == Front(old(View()), n) && View() == old(View())
      ensures |out| == Min(used, n)
      ensures Loaded() == old(Loaded()) && head == old(head)
    {
      if used < 1 {
        used := 0;
        return [];
      }
      var reading := if used >= n then n else used;
      out := data[head..head + reading];
    }

    method Toss(n: nat) returns (left: nat)
      requires Valid()
      modifies this
      ensures Valid() && data == old(data) && loops == old(loops)
      ensures View() == Drop(old(View()), n) && left == |View().content|
      ensures left == old(used) - Min(old(used), n)
      ensures Loaded() == old(Loaded()) && head == old(head) + Min(old(used), n)
    {
      hide Drop;
      FrontDrop(View(), n);
      if used < 1 {
        used := 0;
        return 0;
      }
      var reading := if used >= n then n else used;
      ghost var content := View().content;
      used := used - reading;
      head := head + reading;
      assert View().content == content[reading..];
      left := used;
    }

    method Zero()
      requires Valid() && data != null
      modifies this
      ensures Valid() && data == old(data) && loops == old(loops)
      ensures View() == Fifo([], old(Capacity())) && Loaded() == []
    {
      used, actuallyUsed, head := 0, 0, 0;
    }

    /** memmove of the live bytes to the start of the array. */
    method Compact()
      requires Valid() && data != null
      modifies this, data
      ensures Valid() && data == old(data) && loops == old(loops)
      ensures head == 0 && View() == old(View())
    {
      ghost var live := data[head..head + used];
      forall i | 0 <= i < used {
        data[i] := data[head + i];
      }
      assert data[..used] == live;
      head := 0;
      actuallyUsed := used;
    }

    /** realloc: the old bytes are copied into a longer array. */
    method Grow(newSize: nat)
      requires Valid() && data != null && head == 0 && data.Length <= newSize
      modifies this
      ensures Valid() && fresh(data) && loops == old(loops) && head == 0
      ensures View() == Fifo(old(View()).content, newSize)
    {
      var tmp := new Byte[newSize](_ => 0);
      forall i | 0 <= i < data.Length {
        tmp[i] := data[i];
      }
      assert tmp[..used] == data[..used];
      data := tmp;
    }

    /** Compacts when the tail is too short, grows when that is not enough and growth is allowed. */
    method MakeRoom(n: nat, alloc: bool) returns (ok: bool)
      requires Valid() && data != null
      modifies Repr()
      ensures Valid() && data != null && (data == old(data) || fresh(data)) && loops == old(loops)
      ensures ok == Fits(kind, old(View()), n, alloc) && (ok ==> actuallyUsed + n <= data.Length)
      ensures View().content == old(View()).content
      ensures Capacity() == if ok && MustGrow(kind, old(View()), n) then old(Capacity()) + Max(n, kind.blocksize)
                            else old(Capacity())
      ensures old(actuallyUsed) + n <= old(Capacity()) ==> ok && Loaded() == old(Loaded()) && head == old(head)
    {
      if data.Length - actuallyUsed < n {
        Compact();
      }
      if kind.Dynamic? && data.Length - used < n && (kind.maxLen == 0 || used + n <= kind.maxLen) {
        var newSize := data.Length + n;
        if data.Length + kind.blocksize > newSize {
          newSize := data.Length + kind.blocksize;
        }
        assert head == 0;  // so the reset of head before realloc discards nothing
        head := 0;
        if !alloc {
          return false;
        }
        Grow(newSize);
      }
      ok := data.Length - used >= n;
    }

    /** memcpy behind the live bytes. */
    method Store(bytes: seq<Byte>)
      requires Valid() && data != null && actuallyUsed + |bytes| <= data.Length
      modifies this, data
      ensures Valid() && data == old(data) && loops == old(loops)
      ensures View().content == old(View()).content + bytes
      ensures Loaded() == old(Loaded()) + bytes && head == old(head)
    {
      ghost var loaded := Loaded();
      var at := head + used;
      forall i | 0 <= i < |bytes| {
        data[at + i] := bytes[i];
      }
      used := used + |bytes|;
      actuallyUsed := actuallyUsed + |bytes|;
      assert Loaded() == loaded + bytes;
      assert View().content == Loaded()[head..];
    }

    method Write(bytes: seq<Byte>, alloc: bool) returns (r: nat)
      requires Valid() && data != null
      modifies Repr()
      ensures Valid() && data != null && (data == old(data) || fresh(data)) && loops == old(loops)
      ensures View() == Append(kind, old(View()), bytes, alloc)
      ensures r == AppendCount(kind, old(View()), bytes, alloc)
      ensures r == if Takes(kind, old(used), old(Capacity()), |bytes|, alloc) then old(used) + |bytes| else 0
      ensures used == old(used) + if Takes(kind, old(used), old(Capacity()), |bytes|, alloc) then |bytes| else 0
      ensures old(actuallyUsed) + |bytes| <= old(Capacity()) ==>
                Loaded() == old(Loaded()) + bytes && head == old(head)
    {
      AppendByLengths(kind, View(), bytes, alloc);
      if |bytes| == 0 {
        return used;
      }
      var ok := MakeRoom(|bytes|, alloc);
      if !ok {
        return 0;
      }
      Store(bytes);
      r := used;
    }

    method Zwrite(bytes: seq<Byte>, alloc: bool, allocAgain: bool) returns (r: nat)
      requires Valid() && data != null
      modifies Repr()
      ensures Valid() && data != null && (data == old(data) || fresh(data)) && loops == old(loops)
      ensures View() == ZwriteSpec(kind, old(View()), bytes, alloc, allocAgain).0
      ensures r == ZwriteSpec(kind, old(View()), bytes, alloc, allocAgain).1
    {
      hide Append, AppendCount, Takes, Buffer.View, Buffer.Loaded;
      RefusedAppend(kind, View(), bytes, alloc);
      r := Write(bytes, alloc);
      if r == 0 {
        Zero();
        r := Write(bytes, allocAgain);
      }
    }

    method SlideWrite(bytes: seq<Byte>, alloc: bool, allocAgain: bool) returns (r: nat)
      requires Valid() && data != null
      modifies Repr()
      ensures Valid() && data != null && (data == old(data) || fresh(data)) && loops == old(loops)
      ensures View() == SlideSpec(kind, old(View()), bytes, alloc, allocAgain).0
      ensures r == SlideSpec(kind, old(View()), bytes, alloc, allocAgain).1
    {
      hide Append, AppendCount, Takes, Drop, Buffer.View, Buffer.Loaded;
      RefusedAppend(kind, View(), bytes, alloc);
      r := Write(bytes, alloc);
      if r == 0 {
        var left := Toss(|bytes|);
        r := Write(bytes, allocAgain);
      }
    }

    ghost function TapeView(): (t: Tape)
      requires Valid()
      reads this, data
      ensures t.pos <= |t.content|
    {
      Tape(Loaded(), head, loops)
    }

    method SetLoops(k: int)
      requires Valid()
      modifies this
      ensures Valid() && data == old(data) && View() == old(View()) && TapeView() == old(TapeView()).(loops := k)
    {
      loops := k;
    }

    /** A read takes the next stretch off the tape. */
    lemma TapeFront(n: nat)
      requires Valid()
      ensures var t := TapeView();
              TakeAt(t, n).0 == Front(View(), n) && TakeAt(t, n).1 == t.(pos := t.pos + |Front(View(), n)|)
    {
      if data != null {
        assert View().content == Loaded()[head..];
      }
    }

    method ReadLoop(n: nat) returns (out: seq<Byte>)
      requires Valid()
      modifies this
      ensures Valid() && data == old(data)
      ensures out == Play(old(TapeView()), n).0 && TapeView() == Play(old(TapeView()), n).1
    {
      hide Front, Drop, TakeAt, Buffer.View;
      TapeFront(n);
      out := Read(n);
      if |out| == 0 {
        if loops > 0 {
          loops := loops - 1;
        }
        if loops == 0 {
          return [];
        }
        head := 0;
        used := actuallyUsed;
        TapeFront(n);
        out := Read(n);
      }
    }
  }

  /** switch_buffer_create: no buffer if the pool gives out neither header nor storage. */
  method CreateFixed(maxLen: nat, header: bool, storage: bool) returns (b: Buffer?)
    ensures b == null <==> !(header && storage)
    ensures b != null ==>
              && b.Valid() && fresh(b.Repr()) && b.data != null
              && b.View() == Fifo([], maxLen) && b.kind == Fixed && b.loops == 0 && b.Loaded() == []
  {
    if !header || !storage {
      return null;
    }
    b := new Buffer.Create(maxLen);
  }

  /** switch_buffer_create_dynamic: storage is only asked for when the start length is positive. */
  method CreateGrowing(blocksize: nat, startLen: nat, maxLen: nat, header: bool, storage: bool) returns (b: Buffer?)
    ensures b == null <==> !header || (startLen > 0 && !storage)
    ensures b != null ==>
              && b.Valid() && fresh(b.Repr()) && (b.data == null <==> startLen == 0)
              && b.View() == Fifo([], startLen) && b.kind == Dynamic(blocksize, maxLen)
              && b.loops == 0 && b.Loaded() == []
  {
    if !header {
      return null;
    }
    if startLen != 0 {
      if !storage {
        return null;
      }
    }
    b := new Buffer.CreateDynamic(blocksize, startLen, maxLen);
  }

  ghost function ZwriteSpec(k: Kind, q: Fifo, bytes: seq<Byte>, alloc: bool, allocAgain: bool): (Fifo, nat) {
    if AppendCount(k, q, bytes, alloc) != 0 then
      (Append(k, q, bytes, alloc), AppendCount(k, q, bytes, alloc))
    else
      var empty := Fifo([], q.capacity);
      (Append(k, empty, bytes, allocAgain), AppendCount(k, empty, bytes, allocAgain))
  }

  ghost function SlideSpec(k: Kind, q: Fifo, bytes: seq<Byte>, alloc: bool, allocAgain: bool): (Fifo, nat) {
    if AppendCount(k, q, bytes, alloc) != 0 then
      (Append(k, q, bytes, alloc), AppendCount(k, q, bytes, alloc))
    else
      var tossed := Drop(q, |bytes|);
      (Append(k, tossed, bytes, allocAgain), AppendCount(k, tossed, bytes, allocAgain))
  }

  // ---- Whole runs ----

  datatype Op =
    | Write(bytes: seq<Byte>, alloc: bool)
    | Zwrite(bytes: seq<Byte>, alloc: bool, allocAgain: bool)
    | SlideWrite(bytes: seq<Byte>, alloc: bool, allocAgain: bool)
    | Read(n: nat)
    | Peek(n: nat)
    | Toss(n: nat)
    | Zero

  /** What a call hands back: a length for the writes and toss, bytes for read and peek. */
  datatype Out = Length(len: nat) | Bytes(bytes: seq<Byte>) | Nothing

  ghost function Step(k: Kind, q: Fifo, op: Op): (Fifo, Out) {
    match op
    case Write(bytes, alloc) => (Append(k, q, bytes, alloc), Length(AppendCount(k, q, bytes, alloc)))
    case Zwrite(bytes, a, b) => var r := ZwriteSpec(k, q, bytes, a, b); (r.0, Length(r.1))
    case SlideWrite(bytes, a, b) => var r := SlideSpec(k, q, bytes, a, b); (r.0, Length(r.1))
    case Read(n) => (Drop(q, n), Bytes(Front(q, n)))
    case Peek(n) => (q, Bytes(Front(q, n)))
    case Toss(n) => (Drop(q, n), Length(|Drop(q, n).content|))
    case Zero => (Fifo([], q.capacity), Nothing)
  }

  ghost function Run(k: Kind, q: Fifo, ops: seq<Op>): (Fifo, seq<Out>) {
    if ops == [] then (q, [])
    else
      var (before, outs) := Run(k, q, ops[..|ops| - 1]);
      var (after, out) := Step(k, before, ops[|ops| - 1]);
      (after, outs + [out])
  }

  method Call(b: Buffer, op: Op) returns (out: Out)
    requires b.Valid() && b.data != null
    modifies b.Repr()
    ensures b.Valid() && b.data != null && (b.data == old(b.data) || fresh(b.data))
    ensures (b.View(), out) == Step(b.kind, old(b.View()), op)
  {
    hide Append, AppendCount, Takes, ZwriteSpec, SlideSpec, Front, Drop, Buffer.View, Buffer.Loaded;
    match op {
      case Write(bytes, alloc) => var r := b.Write(bytes, alloc); out := Length(r);
      case Zwrite(bytes, a1, a2) => var r := b.Zwrite(bytes, a1, a2); out := Length(r);
      case SlideWrite(bytes, a1, a2) => var r := b.SlideWrite(bytes, a1, a2); out := Length(r);
      case Read(n) => var r := b.Read(n); out := Bytes(r);
      case Peek(n) => var r := b.Peek(n); out := Bytes(r);
      case Toss(n) => var r := b.Toss(n); out := Length(r);
      case Zero => b.Zero(); out := Nothing;
    }
  }

  /** Any sequence of calls on the real buffer answers exactly as the queue does. */
  method Drive(b: Buffer, ops: seq<Op>) returns (outs: seq<Out>)
    requires b.Valid() && b.data != null
    modifies b.Repr()
    ensures b.Valid() && b.data != null && (b.data == old(b.data) || fresh(b.data))
    ensures (b.View(), outs) == Run(b.kind, old(b.View()), ops)
  {
    hide Step, Buffer.View;
    outs := [];
    for i := 0 to |ops|
      invariant b.Valid() && b.data != null && (b.data == old(b.data) || fresh(b.data))
      invariant (b.View(), outs) == Run(b.kind, old(b.View()), ops[..i])
    {
      assert ops[..i + 1][..i] == ops[..i];
      var out := Call(b, ops[i]);
      outs := outs + [out];
    }
    assert ops[..|ops|] == ops;
  }

  /** Bytes a call took in, judged by its return value alone. */
  ghost function Accepted(op: Op, out: Out): seq<Byte> {
    if (op.Write? || op.Zwrite? || op.SlideWrite?) && out.Length? && out.len != 0 then op.bytes else []
  }

  /** Bytes a call took out of the queue: what a read returned, or what was discarded. */
  ghost function Removed(q: Fifo, op: Op, k: Kind): seq<Byte> {
    match op
    case Read(n) => Step(k, q, op).1.bytes
    case Toss(n) => Front(q, n)
    case Zero => q.content
    case Zwrite(bytes, a, _) => if Step(k, q, Write(bytes, a)).1 == Length(0) then q.content else []
    case SlideWrite(bytes, a, _) => if Step(k, q, Write(bytes, a)).1 == Length(0) then Front(q, |bytes|) else []
    case Write(_, _) => []
    case Peek(_) => []
  }

  ghost function AllAccepted(k: Kind, q: Fifo, ops: seq<Op>): seq<Byte> {
    if ops == [] then []
    else
      var last := |ops| - 1;
      AllAccepted(k, q, ops[..last]) + Accepted(ops[last], Step(k, Run(k, q, ops[..last]).0, ops[last]).1)
  }

  ghost function AllRemoved(k: Kind, q: Fifo, ops: seq<Op>): seq<Byte> {
    if ops == [] then []
    else
      var last := |ops| - 1;
      AllRemoved(k, q, ops[..last]) + Removed(Run(k, q, ops[..last]).0, ops[last], k)
  }

  /** One call: what was there plus what was accepted is what was removed plus what is left. */
  lemma StepConserves(k: Kind, q: Fifo, op: Op)
    ensures q.content + Accepted(op, Step(k, q, op).1) == Removed(q, op, k) + Step(k, q, op).0.content
  {
    hide Append, AppendCount, Front, Drop;
    match op {
      case Write(bytes, alloc) => AppendConserves(k, q, bytes, alloc);
      case Zwrite(bytes, a, b) =>
        AppendConserves(k, q, bytes, a);
        AppendConserves(k, Fifo([], q.capacity), bytes, b);
      case SlideWrite(bytes, a, b) =>
        AppendConserves(k, q, bytes, a);
        AppendConserves(k, Drop(q, |bytes|), bytes, b);
        DropSplits(q, |bytes|);
      case Read(n) => DropSplits(q, n);
      case Toss(n) => DropSplits(q, n);
      case Peek(_) =>
      case Zero =>
    }
  }

  lemma DropSplits(q: Fifo, n: nat)
    ensures Front(q, n) + Drop(q, n).content == q.content && |Front(q, n)| == Min(n, |q.content|)
  {
  }

  lemma AppendConserves(k: Kind, q: Fifo, bytes: seq<Byte>, alloc: bool)
    ensures Append(k, q, bytes, alloc).content ==
            q.content + (if AppendCount(k, q, bytes, alloc) != 0 then bytes else [])
  {
  }

  lemma Telescope<T>(a: seq<T>, b: seq<T>, c: seq<T>, mid: seq<T>, took: seq<T>, gave: seq<T>, rest: seq<T>)
    requires a + b == c + mid && mid + took == gave + rest
    ensures a + (b + took) == (c + gave) + rest
  {
    assert a + (b + took) == (a + b) + took == c + (mid + took) == (c + gave) + rest;
  }

  /** First in, first out over every run: the accepted stream is the removed stream followed by the queue. */
  lemma {:induction false} RunConserves(k: Kind, q: Fifo, ops: seq<Op>)
    ensures q.content + AllAccepted(k, q, ops) == AllRemoved(k, q, ops) + Run(k, q, ops).0.content
  {
    if ops != [] {
      var last := |ops| - 1;
      var mid := Run(k, q, ops[..last]).0;
      RunConserves(k, q, ops[..last]);
      StepConserves(k, mid, ops[last]);
      Telescope(q.content, AllAccepted(k, q, ops[..last]), AllRemoved(k, q, ops[..last]), mid.content,
                Accepted(ops[last], Step(k, mid, ops[last]).1), Removed(mid, ops[last], k),
                Step(k, mid, ops[last]).0.content);
    }
  }

  /** A plain write is all or nothing, and the return value tells which. */
  lemma WriteIsAllOrNothing(k: Kind, q: Fifo, bytes: seq<Byte>, alloc: bool)
    requires bytes != []
    ensures var (after, out) := Step(k, q, Write(bytes, alloc));
            if out == Length(0) then after == q else after.content == q.content + bytes
  {
  }

  /** A refused zwrite or slide_write has still thrown bytes away, unless there were none. */
  lemma RefusedKeepsIff(k: Kind, q: Fifo, op: Op)
    requires (op.Zwrite? || op.SlideWrite?) && Step(k, q, op).1 == Length(0)
    ensures Step(k, q, op).0 == q <==> q.content == []
    ensures Step(k, q, op).0 == if op.Zwrite? then Fifo([], q.capacity) else Drop(q, |op.bytes|)
  {
  }

  /** When that happens: the bytes fit neither at once nor into what is left after throwing away. */
  lemma RefusedWhen(k: Kind, q: Fifo, bytes: seq<Byte>, a: bool, b: bool)
    ensures Step(k, q, Zwrite(bytes, a, b)).1 == Length(0) <==>
            if bytes == [] then q.content == []
            else !Fits(k, q, |bytes|, a) && !Fits(k, Fifo([], q.capacity), |bytes|, b)
    ensures Step(k, q, SlideWrite(bytes, a, b)).1 == Length(0) <==>
            if bytes == [] then q.content == []
            else !Fits(k, q, |bytes|, a) && !Fits(k, Drop(q, |bytes|), |bytes|, b)
  {
  }

  /** A buffer of fixed size refuses either call exactly when the bytes exceed its capacity. */
  lemma FixedRefusesWhen(q: Fifo, bytes: seq<Byte>, a: bool, b: bool)
    requires |q.content| <= q.capacity && bytes != []
    ensures Step(Fixed, q, Zwrite(bytes, a, b)).1 == Length(0) <==> |bytes| > q.capacity
    ensures Step(Fixed, q, SlideWrite(bytes, a, b)).1 == Length(0) <==> |bytes| > q.capacity
  {
  }

  /** For instance: one byte in a buffer of one, and two bytes that do not fit. */
  lemma RefusedYetEmptied()
    ensures Step(Fixed, Fifo([1], 1), Zwrite([2, 3], true, true)) == (Fifo([], 1), Length(0))
    ensures Step(Fixed, Fifo([1], 1), SlideWrite([2, 3], true, true)) == (Fifo([], 1), Length(0))
  {
  }

  // ---- read_loop ----

  /** The recorded bytes, the play position, and the loop counter (negative: for ever). */
  datatype Tape = Tape(content: seq<Byte>, pos: nat, loops: int)

  ghost predicate Wound(t: Tape) { t.pos <= |t.content| }

  ghost function TakeAt(t: Tape, n: nat): (seq<Byte>, Tape)
    requires Wound(t)
  {
    var m := Min(n, |t.content| - t.pos);
    (t.content[t.pos..t.pos + m], t.(pos := t.pos + m))
  }

  ghost function Play(t: Tape, n: nat): (seq<Byte>, Tape)
    requires Wound(t)
  {
    var (bytes, t1) := TakeAt(t, n);
    if bytes != [] then (bytes, t1)
    else
      var k := if t.loops > 0 then t.loops - 1 else t.loops;
      if k == 0 then ([], t.(loops := 0)) else TakeAt(t.(pos := 0, loops := k), n)
  }

  ghost function Repeat(s: seq<Byte>, n: nat): seq<Byte> {
    if n == 0 then [] else s + Repeat(s, n - 1)
  }

  /** What a tape with a finite loop count still has to play. */
  ghost function ToPlay(t: Tape): seq<Byte>
    requires Wound(t) && t.loops >= 0
  {
    t.content[t.pos..] + Repeat(t.content, if t.loops > 1 then t.loops - 1 else 0)
  }

  ghost function PlayAll(t: Tape, sizes: seq<nat>): (r: (seq<Byte>, Tape))
    requires Wound(t)
    ensures Wound(r.1) && r.1.content == t.content
    decreases |sizes|
  {
    if sizes == [] then ([], t)
    else
      var (bytes, t1) := Play(t, sizes[0]);
      var (rest, t2) := PlayAll(t1, sizes[1..]);
      (bytes + rest, t2)
  }

  /** What one call of `read_loop` promises, given what it returned. */
  ghost predicate Plays(t: Tape, bytes: seq<Byte>, t1: Tape)
    requires Wound(t) && t.loops >= 0
  {
    && Wound(t1) && t1.content == t.content && t1.loops >= 0
    && bytes + ToPlay(t1) == ToPlay(t)
    && (bytes == [] <==> ToPlay(t) == [])
    && |bytes| <= t1.pos && bytes == t.content[t1.pos - |bytes|..t1.pos]
  }

  /** One call plays the next stretch, stops only when nothing is left, and never spans a wrap. */
  lemma PlayStep(t: Tape, n: nat)
    requires Wound(t) && t.loops >= 0 && n > 0
    ensures var (bytes, t1) := Play(t, n); Plays(t, bytes, t1)
  {
    hide Plays;
    if t.content == [] {
      PlayNothing(t, n);
    } else if t.pos < |t.content| {
      PlayOn(t, n);
    } else if t.loops > 1 {
      PlayAgain(t, n);
    } else {
      PlayedOut(t, n);
    }
  }

  lemma PlayNothing(t: Tape, n: nat)
    requires Wound(t) && t.loops >= 0 && n > 0 && t.content == []
    ensures var (bytes, t1) := Play(t, n); Plays(t, bytes, t1)
  {
    hide Repeat;
    EmptyRepeats(if t.loops > 1 then t.loops - 1 else 0);
    EmptyRepeats(if t.loops > 2 then t.loops - 2 else 0);
  }

  lemma PlayOn(t: Tape, n: nat)
    requires Wound(t) && t.loops >= 0 && n > 0 && t.pos < |t.content|
    ensures var (bytes, t1) := Play(t, n); Plays(t, bytes, t1)
  {
    hide Repeat;
    TakeSplits(t, n);
  }

  lemma PlayAgain(t: Tape, n: nat)
    requires Wound(t) && t.loops > 1 && n > 0 && t.pos == |t.content| > 0
    ensures var (bytes, t1) := Play(t, n); Plays(t, bytes, t1)
  {
    hide Repeat;
    var again := t.(pos := 0, loops := t.loops - 1);
    TakeSplits(again, n);
    Rewound(t);
  }

  lemma Rewound(t: Tape)
    requires t.pos == |t.content| && t.loops > 1
    ensures ToPlay(t) == ToPlay(t.(pos := 0, loops := t.loops - 1))
  {
    assert t.content[0..] == t.content && t.content[t.pos..] == [];
    RepeatMore(t.content, t.loops - 2);
  }

  lemma PlayedOut(t: Tape, n: nat)
    requires Wound(t) && 0 <= t.loops <= 1 && t.pos == |t.content|
    ensures var (bytes, t1) := Play(t, n); Plays(t, bytes, t1)
  {
  }

  lemma TakeSplits(t: Tape, n: nat)
    requires Wound(t) && t.loops >= 0 && n > 0 && t.pos < |t.content|
    ensures var (bytes, t1) := TakeAt(t, n);
            bytes != [] && bytes + ToPlay(t1) == ToPlay(t) && bytes == t.content[t1.pos - |bytes|..t1.pos]
  {
    var (bytes, t1) := TakeAt(t, n);
    var more := Repeat(t.content, if t.loops > 1 then t.loops - 1 else 0);
    assert t.content[t.pos..] == bytes + t.content[t1.pos..];
    assert bytes + (t.content[t1.pos..] + more) == (bytes + t.content[t1.pos..]) + more;
  }

  lemma {:induction false} EmptyRepeats(n: nat)
    ensures Repeat([], n) == []
  {
    if n > 0 { EmptyRepeats(n - 1); }
  }

  /** Any run of positive reads plays a prefix of what was to be played, and the tape keeps the remainder. */
  lemma {:induction false} PlayAllConserves(t: Tape, sizes: seq<nat>)
    requires Wound(t) && t.loops >= 0 && forall i :: 0 <= i < |sizes| ==> sizes[i] > 0
    ensures PlayAll(t, sizes).1.loops >= 0
    ensures PlayAll(t, sizes).0 + ToPlay(PlayAll(t, sizes).1) == ToPlay(t)
    decreases |sizes|
  {
    if sizes != [] {
      var (bytes, t1) := Play(t, sizes[0]);
      PlayStep(t, sizes[0]);
      PlayAllConserves(t1, sizes[1..]);
      var (rest, t2) := PlayAll(t1, sizes[1..]);
      Telescope([], ToPlay(t), bytes, ToPlay(t1), [], rest, ToPlay(t2));
    }
  }

  lemma FreshTape(content: seq<Byte>, k: nat)
    ensures ToPlay(Tape(content, 0, k)) == Repeat(content, Max(1, k))
  {
    assert content[0..] == content;
    assert Repeat(content, Max(1, k)) == content + Repeat(content, Max(1, k) - 1);
  }

  /** A freshly loaded tape with loop count k >= 0 plays its content max(1, k) times, then only silence. */
  lemma LoopsPlayExactly(content: seq<Byte>, k: nat, sizes: seq<nat>, n: nat)
    requires n > 0 && forall i :: 0 <= i < |sizes| ==> sizes[i] > 0
    ensures var (played, t) := PlayAll(Tape(content, 0, k), sizes);
            && played <= Repeat(content, Max(1, k))
            && (Play(t, n).0 == [] <==> played == Repeat(content, Max(1, k)))
  {
    var t0 := Tape(content, 0, k);
    FreshTape(content, k);
    PlayAllConserves(t0, sizes);
    PlayStep(PlayAll(t0, sizes).1, n);
  }

  /** A run of looped reads on the real buffer is a run of the tape. */
  method ReadLoops(b: Buffer, sizes: seq<nat>) returns (played: seq<Byte>)
    requires b.Valid()
    modifies b
    ensures b.Valid() && b.data == old(b.data)
    ensures (played, b.TapeView()) == PlayAll(old(b.TapeView()), sizes)
    decreases |sizes|
  {
    hide Play;
    if sizes == [] {
      return [];
    }
    var bytes := b.ReadLoop(sizes[0]);
    var rest := ReadLoops(b, sizes[1..]);
    played := bytes + rest;
  }

  /** Content loaded into a fresh buffer comes back max(1, k) times over, and no further. */
  method LoadAndPlay(content: seq<Byte>, k: nat, sizes: seq<nat>, n: nat) returns (played: seq<Byte>, more: seq<Byte>)
    requires n > 0 && forall i :: 0 <= i < |sizes| ==> sizes[i] > 0
    ensures played <= Repeat(content, Max(1, k))
    ensures more == [] <==> played == Repeat(content, Max(1, k))
  {
    hide Play, PlayAll, Repeat, Append, AppendCount, Takes;
    var b := new Buffer.Create(|content|);
    var w := b.Write(content, false);
    assert b.Loaded() == [] + content == content;
    b.SetLoops(k);
    assert b.TapeView() == Tape(content, 0, k);
    played := ReadLoops(b, sizes);
    more := b.ReadLoop(n);
    LoopsPlayExactly(content, k, sizes, n);
  }

  /** With a negative loop count the tape goes round for ever: the played bytes are
      whole rounds plus the part before the final position. */
  lemma {:induction false} PlaysForEver(t: Tape, sizes: seq<nat>) returns (rounds: nat)
    requires Wound(t) && t.loops < 0 && forall i :: 0 <= i < |sizes| ==> sizes[i] > 0
    ensures rounds <= |sizes| && PlayAll(t, sizes).1.loops == t.loops
    ensures var (played, t1) := PlayAll(t, sizes);
            t.content[..t.pos] + played == Repeat(t.content, rounds) + t.content[..t1.pos]
    ensures t.content != [] && sizes != [] ==> Play(t, sizes[0]).0 != []
    decreases |sizes|
  {
    rounds := 0;
    if sizes != [] {
      var (bytes, t1) := Play(t, sizes[0]);
      var (rest, t2) := PlayAll(t1, sizes[1..]);
      ForEverStep(t, sizes[0]);
      hide Play, Repeat;
      rounds := PlaysForEver(t1, sizes[1..]);
      var before, mid, end := t.content[..t.pos], t.content[..t1.pos], t.content[..t2.pos];
      if before + bytes == mid {
        Telescope([], before + bytes, [], mid, rest, Repeat(t.content, rounds), end);
        Telescope(before, bytes, mid, [], rest, rest, []);
      } else {
        Telescope(t.content, bytes, t.content, mid, rest, Repeat(t.content, rounds), end);
        RepeatMore(t.content, rounds);
        rounds := rounds + 1;
      }
    }
  }

  /** No call of such a run comes back empty. */
  lemma NeverSilent(t: Tape, sizes: seq<nat>, i: nat)
    requires Wound(t) && t.loops < 0 && t.content != [] && i < |sizes|
    requires forall k :: 0 <= k < |sizes| ==> sizes[k] > 0
    ensures Play(PlayAll(t, sizes[..i]).1, sizes[i]).0 != []
  {
    var _ := PlaysForEver(t, sizes[..i]);
    ForEverStep(PlayAll(t, sizes[..i]).1, sizes[i]);
  }

  lemma RepeatMore(s: seq<Byte>, n: nat)
    ensures Repeat(s, n + 1) == s + Repeat(s, n)
  {
  }

  /** A step either moves on within a round, or closes the round and starts the next. */
  lemma ForEverStep(t: Tape, n: nat)
    requires Wound(t) && t.loops < 0 && n > 0
    ensures var (bytes, t1) := Play(t, n);
            && Wound(t1) && t1.content == t.content && t1.loops == t.loops && (t.content != [] ==> bytes != [])
            && (t.content[..t.pos] + bytes == t.content[..t1.pos]
                || (t.content[..t.pos] == t.content && bytes == t.content[..t1.pos]))
  {
    var (bytes, t1) := TakeAt(t, n);
    if bytes != [] {
      assert t.content[..t.pos] + bytes == t.content[..t1.pos];
    } else {
      assert t.content[..t.pos] == t.content;
    }
  }
}
