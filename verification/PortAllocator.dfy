/** The RTP port allocator (src/switch_core_port_allocator.c) in its SPF_EVEN mode.

    A slot is 1 while its port is out, 0 when it can be issued, and -4 .. -1 while a freed port,
    or one whose probe failed, cools down; each sweep that steps over a cooling slot warms it by one. */
module PortAllocator {
  import opened Common

  type Port = x: int | 0 <= x < 65536

  /** 16-bit arithmetic: 65535 rounds up to 0. */
  function RoundUp(p: Port): Port { if p % 2 != 0 then (p + 1) % 65536 else p }

  function RoundDown(p: Port): Port { if p % 2 != 0 then p - 1 else p }

  /** The bounds are the nearest even ports inside the range, but for 65535, which has none above it. */
  lemma EvenBounds(p: Port)
    ensures RoundDown(p) % 2 == 0 && p - 1 <= RoundDown(p) <= p
    ensures RoundUp(p) % 2 == 0 && (p != 65535 ==> p <= RoundUp(p) <= p + 1) && (p == 65535 ==> RoundUp(p) == 0)
  {
  }

  // ---- Counting slots ----

  ghost function CountOut(s: seq<int>): nat {
    if s == [] then 0 else CountOut(s[..|s| - 1]) + (if s[|s| - 1] > 0 then 1 else 0)
  }

  /** The ports that are out, slot k standing for port start + 2k. */
  ghost function PortsOut(s: seq<int>, start: int): set<int> {
    if s == [] then {}
    else PortsOut(s[..|s| - 1], start) + (if s[|s| - 1] > 0 then {start + 2 * (|s| - 1)} else {})
  }

  lemma {:induction false} PortsOutMembers(s: seq<int>, start: int, p: int)
    ensures p in PortsOut(s, start) <==>
            start <= p < start + 2 * |s| && (p - start) % 2 == 0 && s[(p - start) / 2] > 0
  {
    if s != [] {
      PortsOutMembers(s[..|s| - 1], start, p);
    }
  }

  lemma {:induction false} PortsOutSize(s: seq<int>, start: int)
    ensures |PortsOut(s, start)| == CountOut(s)
  {
    if s != [] {
      PortsOutSize(s[..|s| - 1], start);
      PortsOutMembers(s[..|s| - 1], start, start + 2 * (|s| - 1));
    }
  }

  lemma {:induction false} SameSlotsOut(s: seq<int>, t: seq<int>, start: int)
    requires |s| == |t| && forall k :: 0 <= k < |s| ==> (s[k] > 0 <==> t[k] > 0)
    ensures CountOut(s) == CountOut(t) && PortsOut(s, start) == PortsOut(t, start)
  {
    if s != [] {
      SameSlotsOut(s[..|s| - 1], t[..|t| - 1], start);
    }
  }

  lemma {:induction false} SlotGoesOut(s: seq<int>, k: nat, start: int)
    requires k < |s| && s[k] <= 0
    ensures CountOut(s[k := 1]) == CountOut(s) + 1
    ensures PortsOut(s[k := 1], start) == PortsOut(s, start) + {start + 2 * k}
    ensures start + 2 * k !in PortsOut(s, start)
  {
    PortsOutMembers(s, start, start + 2 * k);
    var n := |s| - 1;
    if k == n {
      assert s[k := 1][..n] == s[..n];
    } else {
      SlotGoesOut(s[..n], k, start);
      assert s[k := 1][..n] == s[..n][k := 1];
    }
  }

  lemma SlotComesBack(s: seq<int>, k: nat, v: int, start: int)
    requires k < |s| && s[k] > 0 && v <= 0
    ensures CountOut(s) == CountOut(s[k := v]) + 1
    ensures PortsOut(s[k := v], start) == PortsOut(s, start) - {start + 2 * k}
    ensures start + 2 * k in PortsOut(s, start)
  {
    var t := s[k := v];
    SlotGoesOut(t, k, start);
    SameSlotsOut(t[k := 1], s, start);
  }

  /** A table with fewer ports out than slots has a slot that is not out. */
  lemma {:induction false} SomeSlotFree(s: seq<int>) returns (k: nat)
    requires CountOut(s) < |s|
    ensures k < |s| && s[k] <= 0
  {
    if s[|s| - 1] <= 0 {
      k := |s| - 1;
    } else {
      k := SomeSlotFree(s[..|s| - 1]);
    }
  }

  lemma {:induction false} CountBounded(s: seq<int>)
    ensures CountOut(s) <= |s|
    ensures CountOut(s) == |s| ==> forall k :: 0 <= k < |s| ==> s[k] > 0
  {
    if s != [] {
      CountBounded(s[..|s| - 1]);
    }
  }

  // ---- One sweep over the ring ----

  /** Steps from slot `from` up to slot k on a ring of n slots. */
  function Ahead(k: nat, from: nat, n: nat): nat
    requires k < n && from < n
  {
    if k >= from then k - from else k + n - from
  }

  function Warm(v: int): int { if v < 0 then v + 1 else v }

  method Pick(draw: nat, n: nat) returns (i: nat)
    requires n > 0
    ensures i < n && i == draw % n
  {
    i := draw % n;
  }

  class Allocator {
    const start: Port
    const end: Port
    const trackLen: nat
    const track: array<int>
    var trackUsed: nat
    const robustUdp: bool
    const robustTcp: bool
    ghost var freed: set<nat>        // slots that have been put to cool at least once
    ghost var stepped: seq<nat>      // times a cooling slot was stepped over since

    ghost function Slots(): (s: seq<int>)
      requires trackLen <= track.Length
      reads track
      ensures |s| == trackLen
    {
      track[..trackLen]
    }

    ghost predicate Shape() {
      && start % 2 == 0 && end % 2 == 0 && start <= end + 2
      && trackLen == (end - start + 2) / 2 && track.Length == trackLen + 2
    }

    ghost predicate Cooling(k: nat)
      requires Shape() && k < trackLen && |stepped| == trackLen
      reads this, track
    {
      && -4 <= track[k] <= 1
      && (track[k] <= 0 ==> if k in freed then track[k] + 4 == stepped[k] else track[k] == 0)
    }

    ghost predicate Valid()
      reads this, track
    {
      && Shape()
      && track[trackLen] == 0 && track[trackLen + 1] == 0
      && trackUsed == CountOut(Slots())
      && |stepped| == trackLen
      && forall k :: 0 <= k < trackLen ==> Cooling(k)
    }

    ghost function Held(): set<int>
      requires Shape()
      reads track
    {
      PortsOut(Slots(), start)
    }

    constructor (first: Port, last: Port, robustUdp: bool, robustTcp: bool)
      requires RoundUp(first) <= RoundDown(last) + 2
      ensures Valid() && fresh(track) && Held() == {} && freed == {}
      ensures start == RoundUp(first) && end == RoundDown(last)
      ensures this.robustUdp == robustUdp && this.robustTcp == robustTcp
    {
      this.robustUdp, this.robustTcp := robustUdp, robustTcp;
      start, end := RoundUp(first), RoundDown(last);
      var len := (RoundDown(last) - RoundUp(first) + 2) / 2;
      trackLen := len;
      track := new int[len + 2](_ => 0);
      trackUsed, freed, stepped := 0, {}, seq(len, _ => 0);
      new;
      NothingOut(Slots(), start);
    }

    method StepOver(index: nat)
      requires Shape() && index < trackLen && |stepped| == trackLen && forall k :: 0 <= k < trackLen ==> Cooling(k)
      modifies track, this`stepped
      ensures |stepped| == trackLen && forall k :: 0 <= k < trackLen ==> Cooling(k)
      ensures forall k :: 0 <= k < track.Length ==>
                track[k] == if k == index then Warm(old(track[k])) else old(track[k])
    {
      assert Cooling(index);
      if track[index] < 0 {
        track[index] := track[index] + 1;
        stepped := stepped[index := stepped[index] + 1];
      }
      forall k | 0 <= k < trackLen
        ensures Cooling(k)
      {
        assert old(Cooling(k));
      }
    }

    /** A zero slot goes out. */
    method Issue(index: nat)
      requires Valid() && index < trackLen && track[index] == 0
      modifies this`trackUsed, track
      ensures Valid() && start + 2 * index !in old(Held()) && Held() == old(Held()) + {start + 2 * index}
      ensures index in freed ==> stepped[index] == 4
    {
      hide CountOut, PortsOut;
      assert Cooling(index);
      SlotGoesOut(Slots(), index, start);
      ghost var before := Slots();
      track[index] := 1;
      assert Slots() == before[index := 1];
      trackUsed := trackUsed + 1;
      forall k | 0 <= k < trackLen
        ensures Cooling(k)
      {
        assert old(Cooling(k));
      }
    }

    /** A slot that is out starts to cool. */
    method Release(index: nat)
      requires Valid() && index < trackLen && track[index] > 0
      modifies this`trackUsed, this`freed, this`stepped, track
      ensures Valid() && start + 2 * index in old(Held()) && Held() == old(Held()) - {start + 2 * index}
      ensures index in freed && stepped[index] == 0
    {
      hide CountOut, PortsOut;
      SlotComesBack(Slots(), index, -4, start);
      ghost var before := Slots();
      track[index] := -4;
      assert Slots() == before[index := -4];
      trackUsed := trackUsed - 1;
      freed := freed + {index};
      stepped := stepped[index := 0];
      forall k | 0 <= k < trackLen
        ensures Cooling(k)
      {
        assert old(Cooling(k));
      }
    }

    /** The inner loop: walk up from `from`, warming cooling slots, to a zero slot or all the way round. */
    method Sweep(from: nat) returns (index: nat, tries: nat)
      requires Valid() && from < trackLen
      modifies track, this`stepped
      ensures Valid() && Held() == old(Held()) && index < trackLen && tries <= trackLen
      ensures forall k :: 0 <= k < trackLen ==>
                track[k] == if Ahead(k, from, trackLen) < tries then Warm(old(track[k])) else old(track[k])
      ensures forall k :: 0 <= k < trackLen && Ahead(k, from, trackLen) < tries ==> old(track[k]) != 0
      ensures tries < trackLen ==> track[index] == 0
    {
      index, tries := from, 0;
      while track[index] != 0 && tries < trackLen
        invariant index < trackLen && tries <= trackLen && |stepped| == trackLen
        invariant index == if from + tries < trackLen then from + tries else from + tries - trackLen
        invariant track[trackLen] == 0 && track[trackLen + 1] == 0
        invariant forall k :: 0 <= k < trackLen ==> Cooling(k)
        invariant forall k :: 0 <= k < trackLen ==>
                    track[k] == if Ahead(k, from, trackLen) < tries then Warm(old(track[k])) else old(track[k])
        invariant forall k :: 0 <= k < trackLen && Ahead(k, from, trackLen) < tries ==> old(track[k]) != 0
        decreases trackLen - tries
      {
        tries := tries + 1;
        StepOver(index);
        index := index + 1;
        if index >= trackLen {
          index := 0;
        }
      }
      SameSlotsOut(old(Slots()), Slots(), start);
    }

    /** The verdict of the probes that are switched on: the second overwrites the first. */
    predicate Passes(p: Probe) {
      if robustTcp then p.tcp else if robustUdp then p.udp else true
    }

    /** A zero slot whose probe failed starts to cool. */
    method Shelve(index: nat)
      requires Valid() && index < trackLen && track[index] == 0
      modifies this`freed, this`stepped, track
      ensures Valid() && Held() == old(Held()) && index in freed && stepped[index] == 0 && track[index] == -4
    {
      hide CountOut, PortsOut;
      ghost var before := Slots();
      track[index] := -4;
      SameSlotsOut(before, Slots(), start);
      freed := freed + {index};
      stepped := stepped[index := 0];
      forall k | 0 <= k < trackLen
        ensures Cooling(k)
      {
        assert old(Cooling(k));
      }
    }

    /** One turn of the outer loop: a sweep from a random slot, and the zero slot it finds goes out if its
        probe passes and cools if not.  A fruitless sweep has stepped over every slot, so it has warmed any
        slot that is not out. */
    method Attempt(draw: nat, probe: Probe, ghost open: nat) returns (index: nat, find: Find)
      requires Valid() && open < trackLen && track[open] <= 0
      modifies this`trackUsed, this`freed, this`stepped, track
      ensures Valid() && index < trackLen && (find == Good ==> Passes(probe)) && (find == Bad ==> !Passes(probe))
      ensures find != Good ==> Held() == old(Held()) && trackUsed == old(trackUsed)
      ensures find == Nowhere ==> track[open] == old(track[open]) + 1 <= 0
      ensures find == Bad ==> track[index] == -4
      ensures find == Good ==> PortAt(index) !in old(Held()) && Held() == old(Held()) + {PortAt(index)}
      ensures find == Good ==> (index in freed ==> stepped[index] == 4)
    {
      hide CountOut, PortsOut;
      var from := Pick(draw, trackLen);
      var tries;
      index, tries := Sweep(from);
      find := Nowhere;
      if tries < trackLen {
        var r := true;
        if robustUdp {
          r := probe.udp;
        }
        if robustTcp {
          r := probe.tcp;
        }
        if r {
          Issue(index);
          find := Good;
        } else {
          Shelve(index);
          find := Bad;
        }
      }
    }

    /** The count of used slots is the number of ports out, and if not all are, some slot is free or cooling. */
    lemma SomewhereFree() returns (open: nat)
      requires Valid()
      ensures Shape() && |Held()| == trackUsed <= trackLen
      ensures trackUsed < trackLen ==> open < trackLen && -4 <= track[open] <= 0
    {
      PortsOutSize(Slots(), start);
      CountBounded(Slots());
      open := 0;
      if trackUsed < trackLen {
        open := SomeSlotFree(Slots());
        assert Cooling(open);
      }
    }

    function SlotOf(p: Port): int { (p - start) / 2 }

    function PortAt(index: nat): (p: Port)
      requires Shape() && index < trackLen
      ensures p == start + 2 * index && p <= end && p % 2 == 0 && SlotOf(p) == index
    {
      (index + start / 2) * 2
    }

    /** Turns up to the next find: at most four sweeps come up empty before it. */
    method NextFind(rand: nat -> nat, base: nat, probe: Probe) returns (index: nat, find: Find, failures: nat)
      requires Valid() && trackUsed < trackLen
      modifies this`trackUsed, this`freed, this`stepped, track
      ensures Valid() && index < trackLen && find != Nowhere && failures <= 4
      ensures find == Good <==> Passes(probe)
      ensures find == Bad ==> Held() == old(Held()) && trackUsed == old(trackUsed)
      ensures find == Good ==> PortAt(index) !in old(Held()) && Held() == old(Held()) + {PortAt(index)}
      ensures find == Good ==> (index in freed ==> stepped[index] == 4)
    {
      ghost var open: nat := SomewhereFree();
      hide Allocator.Valid, Allocator.Held;
      index, find, failures := 0, Nowhere, 0;
      while find == Nowhere
        invariant Valid() && failures <= 4
        invariant find == Nowhere ==>
                    && Held() == old(Held()) && trackUsed == old(trackUsed)
                    && open < trackLen && -4 + failures <= track[open] <= 0
        invariant index < trackLen && (find != Nowhere ==> (find == Good <==> Passes(probe)))
        invariant find == Bad ==> Held() == old(Held()) && trackUsed == old(trackUsed)
        invariant find == Good ==> PortAt(index) !in old(Held()) && Held() == old(Held()) + {PortAt(index)}
        invariant find == Good ==> (index in freed ==> stepped[index] == 4)
        decreases find == Nowhere, 4 - failures
      {
        index, find := Attempt(rand(base + failures), probe, open);
        if find == Nowhere {
          failures := failures + 1;
        }
      }
    }

    /** `rand(i)` is the i-th random draw and `probe(i)` what the i-th probing finds; some probing passes.  A
        request fails exactly when every port is out; otherwise it goes through the failing probes to the
        first that passes, with at most four empty sweeps before each, and a port that had been put to cool
        was stepped over exactly four times before it is issued. */
    method RequestPort(rand: nat -> nat, probe: nat -> Probe) returns (r: Option<Port>, failures: nat, probed: nat)
      requires Valid() && exists k :: Passes(probe(k))
      modifies this`trackUsed, this`freed, this`stepped, track
      ensures Valid() && failures <= 4 * (probed + 1)
      ensures r == None <==> |old(Held())| == trackLen
      ensures r == None ==> Held() == old(Held()) && probed == 0
      ensures r.Some? ==> Passes(probe(probed)) && forall k :: 0 <= k < probed ==> !Passes(probe(k))
      ensures r.Some? ==>
                && start <= r.value <= end && r.value % 2 == 0
                && r.value !in old(Held()) && Held() == old(Held()) + {r.value}
                && 0 <= SlotOf(r.value) < trackLen && (SlotOf(r.value) in freed ==> stepped[SlotOf(r.value)] == 4)
    {
      failures, probed := 0, 0;
      var _ := SomewhereFree();
      ghost var bad: nat :| Passes(probe(bad));
      hide Allocator.Valid, Allocator.Held, Allocator.Passes, Allocator.PortAt, Allocator.SlotOf;
      while trackUsed < trackLen
        invariant Valid() && Held() == old(Held()) && trackUsed == old(trackUsed)
        invariant failures <= 4 * probed && probed <= bad
        invariant forall k :: 0 <= k < probed ==> !Passes(probe(k))
        invariant trackUsed == trackLen ==> probed == 0
        decreases bad - probed
      {
        var index, find, empty := NextFind(rand, failures + probed, probe(probed));
        failures := failures + empty;
        if find == Good {
          return Some(PortAt(index)), failures, probed;
        }
        probed := probed + 1;
      }
      r := None;
    }

    /** A port above `end + 5` would index past the table.  An odd port shares the slot of the even port below it. */
    method FreePort(port: Port) returns (status: FreeStatus)
      requires Valid() && port <= end + 5
      modifies this`trackUsed, this`freed, this`stepped, track
      ensures Valid()
      ensures status == GenErr <==> port < start
      ensures status == Success <==> port >= start && RoundDown(port) in old(Held())
      ensures Held() == if status == Success then old(Held()) - {RoundDown(port)} else old(Held())
      ensures status == Success ==> SlotOf(RoundDown(port)) in freed
    {
      hide CountOut, PortsOut;
      if port < start {
        PortsOutMembers(Slots(), start, RoundDown(port));
        return GenErr;
      }
      var index := (port - start) / 2;
      PortsOutMembers(Slots(), start, RoundDown(port));
      if track[index] > 0 {
        Release(index);
        return Success;
      }
      status := False;
    }
  }

  datatype FreeStatus = Success | False | GenErr

  /** What test_port would say of the port over UDP and over TCP. */
  datatype Probe = Probe(udp: bool, tcp: bool)

  /** What one turn of a request comes to: no free slot, one whose port does not answer the probe, or a port. */
  datatype Find = Nowhere | Bad | Good

  /** A probe counts if it is switched on; with both switched on the UDP one does not count. */
  lemma LastProbeDecides(a: Allocator, p: Probe)
    ensures !a.robustUdp && !a.robustTcp ==> a.Passes(p)
    ensures a.robustUdp && !a.robustTcp ==> (a.Passes(p) <==> p.udp)
    ensures a.robustTcp ==> (a.Passes(p) <==> p.tcp)
  {
  }

  lemma {:induction false} NothingOut(s: seq<int>, start: int)
    requires forall k :: 0 <= k < |s| ==> s[k] == 0
    ensures CountOut(s) == 0 && PortsOut(s, start) == {}
  {
    if s != [] {
      NothingOut(s[..|s| - 1], start);
    }
  }

  // ---- Whole runs ----

  datatype Op = Request(rand: nat -> nat, probe: nat -> Probe) | Free(port: Port)

  datatype Event = Granted(port: int) | Exhausted | Released(port: int) | Ignored

  ghost function HeldNext(held: set<int>, e: Event): set<int> {
    match e
    case Granted(p) => held + {p}
    case Released(p) => held - {p}
    case Exhausted => held
    case Ignored => held
  }

  ghost function HeldAfter(held: set<int>, es: seq<Event>): set<int> {
    if es == [] then held else HeldNext(HeldAfter(held, es[..|es| - 1]), es[|es| - 1])
  }

  /** What a caller may see of one call, given the ports that are out. */
  ghost predicate LegalStep(op: Op, e: Event, held: set<int>, start: Port, end: Port) {
    match op
    case Request(_, _) =>
      if |held| == (end - start + 2) / 2 then e == Exhausted
      else e.Granted? && e.port !in held && start <= e.port <= end && e.port % 2 == 0
    case Free(p) =>
      if p >= start && RoundDown(p) in held then e == Released(RoundDown(p)) else e == Ignored
  }

  ghost predicate Legal(ops: seq<Op>, es: seq<Event>, held: set<int>, start: Port, end: Port) {
    |ops| == |es| && forall i :: 0 <= i < |es| ==> LegalStep(ops[i], es[i], HeldAfter(held, es[..i]), start, end)
  }

  /** A free stays within the table, and a request meets a probe that passes. */
  ghost predicate Sound(a: Allocator, op: Op) {
    match op
    case Request(_, probe) => exists k :: a.Passes(probe(k))
    case Free(port) => port <= a.end + 5
  }

  method Call(a: Allocator, op: Op) returns (e: Event)
    requires a.Valid() && Sound(a, op)
    modifies a, a.track
    ensures a.Valid() && LegalStep(op, e, old(a.Held()), a.start, a.end) && a.Held() == HeldNext(old(a.Held()), e)
  {
    match op {
      case Request(rand, probe) =>
        var r, failures, probed := a.RequestPort(rand, probe);
        e := if r == None then Exhausted else Granted(r.value);
      case Free(port) =>
        var status := a.FreePort(port);
        e := if status == Success then Released(RoundDown(port)) else Ignored;
    }
  }

  /** Every run of requests and frees is legal, step by step. */
  method Drive(a: Allocator, ops: seq<Op>) returns (es: seq<Event>)
    requires a.Valid() && forall i :: 0 <= i < |ops| ==> Sound(a, ops[i])
    modifies a, a.track
    ensures a.Valid() && Legal(ops, es, old(a.Held()), a.start, a.end) && a.Held() == HeldAfter(old(a.Held()), es)
  {
    es := [];
    for i := 0 to |ops|
      invariant a.Valid() && |es| == i && a.Held() == HeldAfter(old(a.Held()), es)
      invariant Legal(ops[..i], es, old(a.Held()), a.start, a.end)
    {
      var e := Call(a, ops[i]);
      LegalGrows(ops[..i], es, old(a.Held()), a.start, a.end, ops[i], e);
      assert ops[..i + 1] == ops[..i] + [ops[i]];
      assert (es + [e])[..i] == es;
      es := es + [e];
    }
    assert ops[..|ops|] == ops;
  }

  lemma LegalGrows(ops: seq<Op>, es: seq<Event>, held: set<int>, start: Port, end: Port, op: Op, e: Event)
    requires Legal(ops, es, held, start, end) && LegalStep(op, e, HeldAfter(held, es), start, end)
    ensures Legal(ops + [op], es + [e], held, start, end)
  {
    forall i | 0 <= i < |es| + 1
      ensures LegalStep((ops + [op])[i], (es + [e])[i], HeldAfter(held, (es + [e])[..i]), start, end)
    {
      assert (es + [e])[..i] == es[..i];
      assert es[..|es|] == es;
    }
  }

  lemma {:induction false} StaysHeld(held: set<int>, es: seq<Event>, i: nat, p: int)
    requires i < |es| && es[i] == Granted(p) && forall k :: i < k < |es| ==> es[k] != Released(p)
    ensures p in HeldAfter(held, es)
  {
    var n := |es| - 1;
    if i < n {
      StaysHeld(held, es[..n], i, p);
    }
  }

  /** In every run, between two grants of one port lies a release of it. */
  lemma NeverIssuedTwice(ops: seq<Op>, es: seq<Event>, held: set<int>, start: Port, end: Port, i: nat, j: nat)
    requires Legal(ops, es, held, start, end) && i < j < |es| && es[i].Granted? && es[j] == es[i]
    ensures exists k :: i < k < j && es[k] == Released(es[i].port)
  {
    if forall k :: i < k < j ==> es[k] != Released(es[i].port) {
      StaysHeld(held, es[..j], i, es[i].port);
      assert false;
    }
  }
}
