/** Cutting a byte stream into blocks of one size: the reference that the
    buffered writers are measured against. */
module Chunking {
  import opened Common

  /** The full blocks of `s`, in order. */
  ghost function Chunks(s: seq<Byte>, n: nat): seq<seq<Byte>>
    requires n > 0
  {
    if |s| < n then [] else [s[..n]] + Chunks(s[n..], n)
  }

  /** The bytes after the last full block. */
  ghost function Residue(s: seq<Byte>, n: nat): seq<Byte>
    requires n > 0
  {
    if |s| < n then s else Residue(s[n..], n)
  }

  ghost function Flatten(parts: seq<seq<Byte>>): seq<Byte> {
    if parts == [] then [] else parts[0] + Flatten(parts[1..])
  }

  lemma {:induction false} FlattenAppend(a: seq<seq<Byte>>, b: seq<seq<Byte>>)
    ensures Flatten(a + b) == Flatten(a) + Flatten(b)
  {
    if a == [] {
      assert a + b == b;
    } else {
      assert (a + b)[1..] == a[1..] + b;
      FlattenAppend(a[1..], b);
    }
  }

  lemma NoParts(s: seq<Byte>)
    ensures Flatten([]) + s == s
  {
    assert [] + s == s;
  }

  lemma FlattenOne(x: seq<Byte>)
    ensures Flatten([x]) == x
  {
    assert [x][1..] == [] && x + [] == x;
  }

  lemma FlattenSnoc(a: seq<seq<Byte>>, x: seq<Byte>)
    ensures Flatten(a + [x]) == Flatten(a) + x
  {
    FlattenAppend(a, [x]);
    FlattenOne(x);
  }

  /** Cutting loses nothing, and what it leaves is shorter than a block. */
  lemma {:induction false} ChunksConserve(s: seq<Byte>, n: nat)
    requires n > 0
    ensures Flatten(Chunks(s, n)) + Residue(s, n) == s
    ensures |Residue(s, n)| < n
  {
    if |s| >= n {
      var head, tail := s[..n], s[n..];
      assert s == head + tail;
      ChunksConserve(tail, n);
      FlattenAppend([head], Chunks(tail, n));
      FlattenOne(head);
      Assoc(head, Flatten(Chunks(tail, n)), Residue(tail, n));
    }
  }

  lemma {:induction false} ChunksSized(s: seq<Byte>, n: nat)
    requires n > 0
    ensures forall i :: 0 <= i < |Chunks(s, n)| ==> |Chunks(s, n)[i]| == n
  {
    if |s| >= n {
      ChunksSized(s[n..], n);
    }
  }

  /** Bytes that arrive in two instalments are cut as if they had arrived together. */
  lemma {:induction false} ChunksResume(a: seq<Byte>, b: seq<Byte>, n: nat)
    requires n > 0
    ensures Chunks(a + b, n) == Chunks(a, n) + Chunks(Residue(a, n) + b, n)
    ensures Residue(a + b, n) == Residue(Residue(a, n) + b, n)
  {
    if |a| >= n {
      assert (a + b)[..n] == a[..n] && (a + b)[n..] == a[n..] + b;
      ChunksResume(a[n..], b, n);
    }
  }

  /** A writer has handed on `blocks` of the stream and holds the rest. */
  ghost predicate InStep(stream: seq<Byte>, blocks: seq<seq<Byte>>, held: seq<Byte>, n: nat)
    requires n > 0
  {
    Flatten(blocks) + held == stream && Chunks(stream, n) == blocks + Chunks(held, n)
  }

  /** Moving one full block from the front of the rest to the end of the cut blocks. */
  lemma CutOne(total: seq<Byte>, cut: seq<seq<Byte>>, rest: seq<Byte>, n: nat)
    requires 0 < n <= |rest| && InStep(total, cut, rest, n)
    ensures InStep(total, cut + [rest[..n]], rest[n..], n)
  {
    var x, y := rest[..n], rest[n..];
    assert rest == x + y;
    FlattenSnoc(cut, x);
    Assoc(Flatten(cut), x, y);
    Assoc(cut, [x], Chunks(y, n));
  }

  lemma HasBlock(s: seq<Byte>, n: nat)
    requires n > 0
    ensures |s| >= n <==> Chunks(s, n) != []
  {
  }

  lemma Cancel(a: seq<Byte>, x: seq<Byte>, y: seq<Byte>)
    requires a + x == a + y
    ensures x == y
  {
    assert x == (a + x)[|a|..] == (a + y)[|a|..] == y;
  }

  /** A writer that was in step with `stream` is in step again after cutting `frame` off its own rest. */
  lemma StayInStep(stream: seq<Byte>, frame: seq<Byte>, held: seq<Byte>, more: seq<seq<Byte>>, left: seq<Byte>, n: nat)
    requires n > 0 && held == Residue(stream, n)
    requires more == Chunks(held + frame, n) && Flatten(more) + left == held + frame
    ensures Chunks(stream + frame, n) == Chunks(stream, n) + more
    ensures left == Residue(stream + frame, n)
  {
    ChunksResume(stream, frame, n);
    ChunksConserve(held + frame, n);
    Cancel(Flatten(more), left, Residue(held + frame, n));
  }

  lemma MoreWritten(written: seq<Byte>, blocks: seq<seq<Byte>>, held: seq<Byte>, data: seq<Byte>, n: nat)
    requires n > 0 && InStep(written, blocks, held, n)
    ensures InStep(written + data, blocks, held + data, n)
  {
    Assoc(Flatten(blocks), held, data);
    ChunksResume(written, data, n);
    ChunksResume(held, data, n);
    Assoc(blocks, Chunks(held, n), Chunks(Residue(held, n) + data, n));
    SameResidue(written, blocks, held, n);
  }

  lemma SameResidue(written: seq<Byte>, blocks: seq<seq<Byte>>, held: seq<Byte>, n: nat)
    requires n > 0 && InStep(written, blocks, held, n)
    ensures Residue(written, n) == Residue(held, n)
  {
    ChunksConserve(written, n);
    ChunksConserve(held, n);
    FlattenAppend(blocks, Chunks(held, n));
    Assoc(Flatten(blocks), Flatten(Chunks(held, n)), Residue(held, n));
    Cancel(Flatten(Chunks(written, n)), Residue(written, n), Residue(held, n));
  }

  /** Handing on some of the blocks of what is held keeps in step. */
  lemma HandOn(stream: seq<Byte>, blocks: seq<seq<Byte>>, held: seq<Byte>, more: seq<seq<Byte>>, left: seq<Byte>,
               n: nat)
    requires n > 0 && InStep(stream, blocks, held, n) && InStep(held, more, left, n)
    ensures InStep(stream, blocks + more, left, n)
  {
    FlattenAppend(blocks, more);
    Assoc(Flatten(blocks), Flatten(more), left);
    Assoc(blocks, more, Chunks(left, n));
  }

  /** The first k blocks and the bytes after them are in step. */
  lemma {:induction false} PrefixInStep(s: seq<Byte>, k: nat, left: seq<Byte>, n: nat)
    requires n > 0 && k <= |Chunks(s, n)| && Flatten(Chunks(s, n)[..k]) + left == s
    ensures InStep(s, Chunks(s, n)[..k], left, n)
  {
    var all := Chunks(s, n);
    if k == 0 {
      NoParts(left);
    } else {
      var head := s[..n];
      var rest := all[..k][1..];
      assert all[..k] == [head] + Chunks(s[n..], n)[..k - 1];
      assert Flatten(all[..k]) == head + Flatten(rest);
      Assoc(head, Flatten(rest), left);
      assert s == head + s[n..];
      Cancel(head, Flatten(rest) + left, s[n..]);
      PrefixInStep(s[n..], k - 1, left, n);
    }
  }
}
