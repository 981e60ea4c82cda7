/** Shared device records (src/switch_channel.c): switch_channel_set_device_id with add_uuid,
    process_device_hup, and switch_channel_clear_device_record.

    A record is reference-counted by the legs on it, found through a hash by device id, and
    destroyed by the one channel that turns out to be its final leg.  Each call runs under the
    global device mutex, so any interleaving of calls is a sequence of these steps. */
module DeviceRecords {
  import opened Common
  import opened DeviceLegs

  datatype Record = Record(deviceId: string, legs: seq<Leg>, refs: int)

  /** channel->device_node: the record and the position of the node in its list. */
  datatype Node = Node(rec: nat, pos: nat)

  /** A channel: its leg, whether it is the final one, whether it has hung up, its call state, and its
      direction. */
  datatype Chan = Chan(node: Option<Node>, final: bool, hungup: bool, call: CallState, direction: Direction)

  /** A device sees a call from its other end. */
  function Opposite(d: Direction): Direction { if d == Inbound then Outbound else Inbound }

  function NodeFor(c: nat, ch: Chan): Leg { Leg(c, ch.call, Opposite(ch.direction), false) }

  /** Live records by pool, the device hash, live channels, the next unused pool, and, as
      history, which channel became the final leg of which record. */
  datatype World = World(
    recs: map<nat, Record>,
    hash: map<string, nat>,
    chans: map<nat, Chan>,
    next: nat,
    finals: map<nat, nat>
  )

  // ---- The calls ----

  function SetDevice(w: World, c: nat, id: string): World
    requires c in w.chans && (id in w.hash ==> w.hash[id] in w.recs)
  {
    if w.chans[c].node.Some? then w
    else
      var r := if id in w.hash then w.hash[id] else w.next;
      var rec := if id in w.hash then w.recs[r] else Record(id, [], 0);
      World(w.recs[r := rec.(legs := rec.legs + [NodeFor(c, w.chans[c])], refs := rec.refs + 1)],
            w.hash[id := r],
            w.chans[c := w.chans[c].(node := Some(Node(r, |rec.legs|)))],
            if id in w.hash then w.next else w.next + 1,
            w.finals)
  }

  predicate Points(w: World, c: nat) {
    c in w.chans && w.chans[c].node.Some? && w.chans[c].node.value.rec in w.recs &&
    w.chans[c].node.value.pos < |w.recs[w.chans[c].node.value.rec].legs|
  }

  function HangLeg(w: World, c: nat): World
    requires c in w.chans && (w.chans[c].node.Some? ==> Points(w, c))
  {
    if w.chans[c].node.None? then w.(chans := w.chans[c := w.chans[c].(hungup := true)])
    else
      var Node(r, k) := w.chans[c].node.value;
      var rec := w.recs[r];
      var legs := rec.legs[k := rec.legs[k].(hup := true)];
      var recs := w.recs[r := rec.(legs := legs, refs := rec.refs - 1)];
      if Offhook(legs) == 0 then
        w.(recs := recs, hash := w.hash - {rec.deviceId}, finals := w.finals[r := c],
           chans := w.chans[c := w.chans[c].(final := true, hungup := true)])
      else
        w.(recs := recs, chans := w.chans[c := w.chans[c].(node := None, hungup := true)])
  }

  function ClearRecord(w: World, c: nat): World
    requires c in w.chans
  {
    var w1 := w.(chans := w.chans - {c});
    if w.chans[c].node.None? || !w.chans[c].final then w1
    else w1.(recs := w.recs - {w.chans[c].node.value.rec})
  }

  function NewChannel(w: World, c: nat, d: Direction): World
    requires c !in w.chans
  {
    w.(chans := w.chans[c := Chan(None, false, false, Down, d)])
  }

  /** switch_channel_perform_set_callstate: the channel's leg, if it has one, follows. */
  function SetCall(w: World, c: nat, cs: CallState): World
    requires c in w.chans && (w.chans[c].node.Some? ==> Points(w, c))
  {
    var w1 := w.(chans := w.chans[c := w.chans[c].(call := cs)]);
    if w.chans[c].call == cs then w
    else if w.chans[c].node.None? then w1
    else
      var Node(r, k) := w.chans[c].node.value;
      var rec := w.recs[r];
      w1.(recs := w.recs[r := rec.(legs := rec.legs[k := rec.legs[k].(callstate := cs)])])
  }

  // ---- What the calls do, in the caller's terms ----

  ghost predicate SameRecordsBut(w: World, w1: World, r: nat) {
    forall q :: q != r ==> (q in w1.recs <==> q in w.recs) && (q in w.recs ==> w1.recs[q] == w.recs[q])
  }

  ghost predicate SameChannelsBut(w: World, w1: World, c: nat) {
    forall d :: d != c ==> (d in w1.chans <==> d in w.chans) && (d in w.chans ==> w1.chans[d] == w.chans[d])
  }

  ghost predicate SameHashBut(w: World, w1: World, id: string) {
    forall x :: x != id ==> (x in w1.hash <==> x in w.hash) && (x in w.hash ==> w1.hash[x] == w.hash[x])
  }

  /** Channel c has joined the record of the device, as its last leg; the record is the one hashed before, or
      a new one. */
  ghost predicate Joined(w: World, w1: World, c: nat, id: string)
    requires c in w.chans && (id in w.hash ==> w.hash[id] in w.recs)
  {
    && Points(w1, c) && w1.chans[c] == w.chans[c].(node := w1.chans[c].node)
    && var Node(r, k) := w1.chans[c].node.value;
    && var rec := w1.recs[r];
    && var before := if id in w.hash then w.recs[w.hash[id]] else Record(id, [], 0);
    && rec.deviceId == id && id in w1.hash && w1.hash[id] == r
    && r == (if id in w.hash then w.hash[id] else w.next)
    && k == |before.legs| && |rec.legs| == k + 1 && rec.legs[..k] == before.legs && rec.refs == before.refs + 1
    && rec.legs[k].chan == c && !rec.legs[k].hup
    && rec.legs[k].callstate == w.chans[c].call && rec.legs[k].direction != w.chans[c].direction
    && SameRecordsBut(w, w1, r) && SameChannelsBut(w, w1, c) && SameHashBut(w, w1, id)
  }

  lemma SetDeviceJoins(w: World, c: nat, id: string)
    requires c in w.chans && w.chans[c].node.None? && HashOk(w)
    ensures Joined(w, SetDevice(w, c, id), c, id)
  {
  }

  /** Channel c has hung up: its leg is off the count, and if no other leg of the record is off hook the record
      leaves the hash and waits for c, otherwise c lets go of it. */
  ghost predicate HasHungUp(w: World, w1: World, c: nat)
    requires c in w.chans && (w.chans[c].node.Some? ==> Points(w, c))
  {
    && c in w1.chans && w1.chans[c].hungup && SameChannelsBut(w, w1, c)
    && w1.chans[c].call == w.chans[c].call && w1.chans[c].direction == w.chans[c].direction
    && if w.chans[c].node.None? then
         w1.recs == w.recs && w1.hash == w.hash && w1.chans[c].node.None? && w1.chans[c].final == w.chans[c].final
       else
         var Node(r, k) := w.chans[c].node.value;
         var rec := w.recs[r];
         var last := forall i :: 0 <= i < |rec.legs| && i != k ==> rec.legs[i].hup;
         && SameRecordsBut(w, w1, r) && r in w1.recs && w1.recs[r].deviceId == rec.deviceId
         && w1.recs[r].refs == rec.refs - 1 && w1.recs[r].legs == rec.legs[k := rec.legs[k].(hup := true)]
         && SameHashBut(w, w1, rec.deviceId)
         && if last then
              rec.deviceId !in w1.hash && w1.chans[c].final && w1.chans[c].node == w.chans[c].node
            else
              w1.hash == w.hash && w1.chans[c].node.None? && w1.chans[c].final == w.chans[c].final
  }

  lemma HangLegHangs(w: World, c: nat)
    requires c in w.chans && (w.chans[c].node.Some? ==> Points(w, c))
    ensures HasHungUp(w, HangLeg(w, c), c)
  {
    if w.chans[c].node.Some? {
      var Node(r, k) := w.chans[c].node.value;
      LastLeg(w.recs[r].legs, k);
      hide Offhook;
    }
  }

  lemma HangLegIs(w: World, c: nat)
    requires c in w.chans && (w.chans[c].node.Some? ==> Points(w, c))
    ensures w.chans[c].node.None? ==> HangLeg(w, c) == w.(chans := w.chans[c := w.chans[c].(hungup := true)])
    ensures w.chans[c].node.Some? ==>
              var Node(r, k) := w.chans[c].node.value;
              var rec := w.recs[r];
              var legs := rec.legs[k := rec.legs[k].(hup := true)];
              var recs := w.recs[r := Record(rec.deviceId, legs, rec.refs - 1)];
              HangLeg(w, c) ==
                if Offhook(legs) == 0 then
                  World(recs, w.hash - {rec.deviceId}, w.chans[c := w.chans[c].(final := true, hungup := true)],
                        w.next, w.finals[r := c])
                else World(recs, w.hash, w.chans[c := w.chans[c].(node := None, hungup := true)], w.next, w.finals)
  {
    hide Offhook;
  }

  /** Channel c is gone, and with it the record if c was its final leg. */
  ghost predicate IsGone(w: World, w1: World, c: nat)
    requires c in w.chans
  {
    && c !in w1.chans && SameChannelsBut(w, w1, c) && w1.hash == w.hash
    && if w.chans[c].node.Some? && w.chans[c].final then
         w.chans[c].node.value.rec !in w1.recs && SameRecordsBut(w, w1, w.chans[c].node.value.rec)
       else w1.recs == w.recs
  }

  lemma ClearRecordClears(w: World, c: nat)
    requires c in w.chans
    ensures IsGone(w, ClearRecord(w, c), c)
  {
  }

  /** Channel c is in the call state, and so is its leg; nothing else has changed. */
  ghost predicate Follows(w: World, w1: World, c: nat, cs: CallState)
    requires c in w.chans && (w.chans[c].node.Some? ==> Points(w, c))
  {
    && c in w1.chans && w1.chans[c] == w.chans[c].(call := cs) && SameChannelsBut(w, w1, c) && w1.hash == w.hash
    && if w.chans[c].node.None? || w.chans[c].call == cs then w1.recs == w.recs
       else
         var Node(r, k) := w.chans[c].node.value;
         && r in w1.recs && SameRecordsBut(w, w1, r) && w1.recs[r].deviceId == w.recs[r].deviceId
         && w1.recs[r].refs == w.recs[r].refs
         && w1.recs[r].legs == w.recs[r].legs[k := w.recs[r].legs[k].(callstate := cs)]
  }

  lemma SetCallFollows(w: World, c: nat, cs: CallState)
    requires c in w.chans && (w.chans[c].node.Some? ==> Points(w, c))
    ensures Follows(w, SetCall(w, c, cs), c, cs)
  {
  }

  // ---- The invariant ----

  ghost predicate HashOk(w: World) {
    forall id :: id in w.hash ==>
      w.hash[id] in w.recs && w.recs[w.hash[id]].deviceId == id && w.recs[w.hash[id]].refs > 0
  }

  /** refs counts the legs without a hup_profile, and a record is in the hash exactly while refs > 0. */
  ghost predicate RecOk(w: World, r: nat)
    requires r in w.recs
  {
    var rec := w.recs[r];
    && r < w.next && rec.refs == Offhook(rec.legs)
    && (rec.refs > 0 <==> rec.deviceId in w.hash && w.hash[rec.deviceId] == r)
    && (rec.refs == 0 <==> r in w.finals)
  }

  ghost predicate LegOk(w: World, r: nat, k: nat)
    requires r in w.recs && k < |w.recs[r].legs|
  {
    var leg := w.recs[r].legs[k];
    !leg.hup ==>
      && leg.chan in w.chans && w.chans[leg.chan].node == Some(Node(r, k))
      && !w.chans[leg.chan].final && !w.chans[leg.chan].hungup
  }

  ghost predicate ChanOk(w: World, c: nat)
    requires c in w.chans
  {
    var ch := w.chans[c];
    if ch.node.None? then !ch.final
    else
      && Points(w, c)
      && var Node(r, k) := ch.node.value;
      && w.recs[r].legs[k] == NodeFor(c, ch).(hup := ch.hungup)
      && (ch.hungup <==> ch.final)
      && (ch.final ==> r in w.finals && w.finals[r] == c)
  }

  /** A record nobody is on still has its final leg. */
  ghost predicate FinalOk(w: World, r: nat)
    requires r in w.recs
  {
    r in w.finals ==>
      && w.finals[r] in w.chans && w.chans[w.finals[r]].final
      && w.chans[w.finals[r]].node.Some? && w.chans[w.finals[r]].node.value.rec == r
  }

  ghost predicate Inv(w: World) {
    && HashOk(w)
    && AllRecOk(w)
    && (forall r, k :: r in w.recs && 0 <= k < |w.recs[r].legs| ==> LegOk(w, r, k))
    && (forall c :: c in w.chans ==> ChanOk(w, c))
    && (forall r :: r in w.recs ==> FinalOk(w, r))
    && (forall r :: r in w.finals ==> r < w.next)
  }

  const Nobody: World := World(map[], map[], map[], 0, map[])

  lemma NewKeepsInv(w: World, c: nat, d: Direction)
    requires Inv(w) && c !in w.chans
    ensures Inv(NewChannel(w, c, d))
  {
    hide RecOk, LegOk, ChanOk, FinalOk;
    var w1 := NewChannel(w, c, d);
    forall r | r in w1.recs
      ensures RecOk(w1, r) && FinalOk(w1, r)
    {
      NewKeepsRecord(w, c, d, r);
    }
    forall r, k | r in w1.recs && 0 <= k < |w1.recs[r].legs|
      ensures LegOk(w1, r, k)
    {
      NewKeepsLeg(w, c, d, r, k);
    }
    forall e | e in w1.chans
      ensures ChanOk(w1, e)
    {
      NewKeepsChannel(w, c, d, e);
    }
  }

  lemma NewKeepsRecord(w: World, c: nat, d: Direction, r: nat)
    requires c !in w.chans && r in w.recs && RecOk(w, r) && FinalOk(w, r)
    ensures RecOk(NewChannel(w, c, d), r) && FinalOk(NewChannel(w, c, d), r)
  {
  }

  lemma NewKeepsLeg(w: World, c: nat, d: Direction, r: nat, k: nat)
    requires c !in w.chans && r in w.recs && k < |w.recs[r].legs| && LegOk(w, r, k)
    ensures LegOk(NewChannel(w, c, d), r, k)
  {
  }

  lemma NewKeepsChannel(w: World, c: nat, d: Direction, e: nat)
    requires c !in w.chans && (e in w.chans ==> ChanOk(w, e)) && (e == c || e in w.chans)
    ensures ChanOk(NewChannel(w, c, d), e)
  {
  }

  ghost predicate AllRecOk(w: World) { forall r :: r in w.recs ==> RecOk(w, r) }

  lemma SetKeepsInv(w: World, c: nat, id: string)
    requires Inv(w) && c in w.chans && !w.chans[c].hungup
    ensures Inv(SetDevice(w, c, id))
  {
    hide RecOk, LegOk, ChanOk, FinalOk;
    if w.chans[c].node.None? {
      var w1 := SetDevice(w, c, id);
      forall r | r in w1.recs
        ensures RecOk(w1, r) && FinalOk(w1, r)
      {
        SetKeepsRecord(w, c, id, r);
        SetKeepsFinal(w, c, id, r);
      }
      forall r, k | r in w1.recs && 0 <= k < |w1.recs[r].legs|
        ensures LegOk(w1, r, k)
      {
        SetKeepsLeg(w, c, id, r, k);
      }
      forall d | d in w1.chans
        ensures ChanOk(w1, d)
      {
        SetKeepsChannel(w, c, id, d);
      }
      SetKeepsHash(w, c, id);
    }
  }

  lemma SetKeepsHash(w: World, c: nat, id: string)
    requires HashOk(w) && AllRecOk(w) && c in w.chans && w.chans[c].node.None?
    ensures HashOk(SetDevice(w, c, id))
  {
    assert w.next in w.recs ==> RecOk(w, w.next);
  }

  lemma SetKeepsRecord(w: World, c: nat, id: string, r: nat)
    requires HashOk(w) && AllRecOk(w) && c in w.chans && w.chans[c].node.None?
    requires r in SetDevice(w, c, id).recs && (forall f :: f in w.finals ==> f < w.next)
    ensures RecOk(SetDevice(w, c, id), r)
  {
    var w1 := SetDevice(w, c, id);
    assert r in w.recs ==> RecOk(w, r);
    if r == w1.hash[id] {
      OneMoreLeg(if id in w.hash then w.recs[r].legs else [], NodeFor(c, w.chans[c]));
    }
  }

  lemma SetKeepsFinal(w: World, c: nat, id: string, r: nat)
    requires HashOk(w) && AllRecOk(w) && c in w.chans && w.chans[c].node.None?
    requires r in SetDevice(w, c, id).recs && (forall f :: f in w.finals ==> f < w.next)
    requires r in w.recs ==> FinalOk(w, r)
    ensures FinalOk(SetDevice(w, c, id), r)
  {
    assert r in w.recs ==> RecOk(w, r);
  }

  lemma SetKeepsLeg(w: World, c: nat, id: string, r: nat, k: nat)
    requires HashOk(w) && c in w.chans && w.chans[c].node.None? && ChanOk(w, c) && !w.chans[c].hungup
    requires r in SetDevice(w, c, id).recs && k < |SetDevice(w, c, id).recs[r].legs|
    requires r in w.recs && k < |w.recs[r].legs| ==> LegOk(w, r, k)
    requires w.next in w.recs ==> RecOk(w, w.next)
    ensures LegOk(SetDevice(w, c, id), r, k)
  {
  }

  lemma SetKeepsChannel(w: World, c: nat, id: string, d: nat)
    requires HashOk(w) && c in w.chans && w.chans[c].node.None? && !w.chans[c].hungup
    requires d in w.chans && ChanOk(w, d) && (w.next in w.recs ==> RecOk(w, w.next))
    ensures ChanOk(SetDevice(w, c, id), d)
  {
  }

  lemma HangKeepsInv(w: World, c: nat)
    requires Inv(w) && c in w.chans && !w.chans[c].hungup
    ensures c in w.chans && ChanOk(w, c) && Inv(HangLeg(w, c))
  {
    hide RecOk, LegOk, ChanOk, FinalOk, HangLeg;
    assert ChanOk(w, c);
    OkPoints(w, c);
    HangKeepsDomains(w, c);
    var w1 := HangLeg(w, c);
    forall r | r in w1.recs
      ensures RecOk(w1, r) && FinalOk(w1, r)
    {
      HangKeepsRecord(w, c, r);
      HangKeepsFinal(w, c, r);
    }
    forall r, k | r in w1.recs && 0 <= k < |w1.recs[r].legs|
      ensures LegOk(w1, r, k)
    {
      HangKeepsLeg(w, c, r, k);
    }
    forall d | d in w1.chans
      ensures ChanOk(w1, d)
    {
      HangKeepsChannel(w, c, d);
    }
    HangKeepsHash(w, c);
  }

  lemma OkPoints(w: World, c: nat)
    requires c in w.chans && ChanOk(w, c)
    ensures w.chans[c].node.Some? ==> Points(w, c)
  {
  }

  lemma HangKeepsDomains(w: World, c: nat)
    requires c in w.chans && ChanOk(w, c)
    ensures var w1 := HangLeg(w, c);
            && w1.recs.Keys == w.recs.Keys && w1.chans.Keys == w.chans.Keys && w1.next == w.next
            && forall r :: r in w.recs ==> |w1.recs[r].legs| == |w.recs[r].legs|
  {
  }

  lemma HangKeepsHash(w: World, c: nat)
    requires HashOk(w) && AllRecOk(w) && c in w.chans && ChanOk(w, c) && !w.chans[c].hungup
    requires forall f :: f in w.finals ==> f < w.next
    ensures HashOk(HangLeg(w, c)) && forall f :: f in HangLeg(w, c).finals ==> f < w.next
  {
    if w.chans[c].node.Some? {
      var Node(mine, k) := w.chans[c].node.value;
      assert RecOk(w, mine);
      OneMoreHup(w.recs[mine].legs, k);
    }
  }

  lemma HangKeepsRecord(w: World, c: nat, r: nat)
    requires HashOk(w) && AllRecOk(w) && c in w.chans && ChanOk(w, c) && !w.chans[c].hungup && r in w.recs
    ensures RecOk(HangLeg(w, c), r)
  {
    assert RecOk(w, r);
    if w.chans[c].node.Some? {
      var Node(mine, k) := w.chans[c].node.value;
      assert RecOk(w, mine);
      OneMoreHup(w.recs[mine].legs, k);
    }
  }

  lemma HangKeepsFinal(w: World, c: nat, r: nat)
    requires AllRecOk(w) && c in w.chans && ChanOk(w, c) && !w.chans[c].hungup && r in w.recs && FinalOk(w, r)
    requires forall d :: d in w.chans ==> ChanOk(w, d)
    ensures FinalOk(HangLeg(w, c), r)
  {
    if r in w.finals {
      assert ChanOk(w, w.finals[r]);
    }
  }

  lemma HangKeepsLeg(w: World, c: nat, r: nat, k: nat)
    requires c in w.chans && ChanOk(w, c) && !w.chans[c].hungup
    requires r in w.recs && k < |w.recs[r].legs| && LegOk(w, r, k)
    ensures r in HangLeg(w, c).recs && k < |HangLeg(w, c).recs[r].legs| && LegOk(HangLeg(w, c), r, k)
  {
  }

  /** A record that has a final leg has nobody off hook, so no second leg of it can become final. */
  lemma HangKeepsChannel(w: World, c: nat, d: nat)
    requires AllRecOk(w) && c in w.chans && ChanOk(w, c) && !w.chans[c].hungup && d in w.chans && ChanOk(w, d)
    ensures ChanOk(HangLeg(w, c), d)
  {
    if c != d && w.chans[c].node.Some? {
      var Node(mine, k) := w.chans[c].node.value;
      assert RecOk(w, mine);
      SomeoneOffhook(w.recs[mine].legs, k);
    }
  }

  /** A change of call state keeps everything, and the leg says what its channel says. */
  lemma CallKeepsInv(w: World, c: nat, cs: CallState)
    requires Inv(w) && c in w.chans
    ensures ChanOk(w, c) && Inv(SetCall(w, c, cs))
  {
    hide RecOk, LegOk, ChanOk, FinalOk, SetCall;
    assert ChanOk(w, c);
    OkPoints(w, c);
    CallKeepsDomains(w, c, cs);
    var w1 := SetCall(w, c, cs);
    forall r | r in w1.recs
      ensures RecOk(w1, r) && FinalOk(w1, r)
    {
      CallKeepsRecord(w, c, cs, r);
    }
    forall r, k | r in w1.recs && 0 <= k < |w1.recs[r].legs|
      ensures LegOk(w1, r, k)
    {
      CallKeepsLeg(w, c, cs, r, k);
    }
    forall d | d in w1.chans
      ensures ChanOk(w1, d)
    {
      CallKeepsChannel(w, c, cs, d);
    }
  }

  lemma CallKeepsDomains(w: World, c: nat, cs: CallState)
    requires c in w.chans && ChanOk(w, c)
    ensures var w1 := SetCall(w, c, cs);
            && w1.recs.Keys == w.recs.Keys && w1.chans.Keys == w.chans.Keys
            && w1.next == w.next && w1.hash == w.hash && w1.finals == w.finals
            && (forall r :: r in w.recs ==>
                  && |w1.recs[r].legs| == |w.recs[r].legs|
                  && w1.recs[r].deviceId == w.recs[r].deviceId && w1.recs[r].refs == w.recs[r].refs)
  {
  }

  lemma CallKeepsRecord(w: World, c: nat, cs: CallState, r: nat)
    requires c in w.chans && ChanOk(w, c) && r in w.recs && RecOk(w, r) && FinalOk(w, r)
    ensures RecOk(SetCall(w, c, cs), r) && FinalOk(SetCall(w, c, cs), r)
  {
    if w.chans[c].node.Some? {
      var Node(mine, k) := w.chans[c].node.value;
      SameOffhook(w.recs[mine].legs, k, w.recs[mine].legs[k].(callstate := cs));
    }
  }

  lemma CallKeepsLeg(w: World, c: nat, cs: CallState, r: nat, k: nat)
    requires c in w.chans && ChanOk(w, c) && r in w.recs && k < |w.recs[r].legs| && LegOk(w, r, k)
    ensures LegOk(SetCall(w, c, cs), r, k)
  {
  }

  lemma CallKeepsChannel(w: World, c: nat, cs: CallState, d: nat)
    requires c in w.chans && ChanOk(w, c) && d in w.chans && ChanOk(w, d)
    ensures ChanOk(SetCall(w, c, cs), d)
  {
    if c != d && w.chans[c].node.Some? && w.chans[d].node.Some? {
      assert w.chans[c].node != w.chans[d].node;
    }
  }

  /** When the final leg destroys the pool, the reference count is already zero (the bounded wait
      never waits) and no other channel points into the record. */
  lemma FinalLegIsAlone(w: World, c: nat)
    requires Inv(w) && c in w.chans && w.chans[c].final
    ensures w.chans[c].node.Some? && w.chans[c].node.value.rec in w.recs
    ensures var r := w.chans[c].node.value.rec;
            && w.recs[r].refs == 0
            && (forall id :: id in w.hash ==> w.hash[id] != r)
            && forall d :: d in w.chans && d != c && w.chans[d].node.Some? ==> w.chans[d].node.value.rec != r
  {
    assert ChanOk(w, c);
    var r := w.chans[c].node.value.rec;
    assert RecOk(w, r);
    forall d | d in w.chans && d != c && w.chans[d].node.Some?
      ensures w.chans[d].node.value.rec != r
    {
      assert ChanOk(w, d);
      var Node(s, k) := w.chans[d].node.value;
      if s == r && !w.chans[d].hungup {
        SomeoneOffhook(w.recs[r].legs, k);
      }
    }
  }

  lemma ClearKeepsInv(w: World, c: nat)
    requires Inv(w) && c in w.chans && w.chans[c].hungup
    ensures Inv(ClearRecord(w, c))
  {
    if w.chans[c].final { FinalLegIsAlone(w, c); }
    hide RecOk, LegOk, ChanOk, FinalOk;
    assert ChanOk(w, c);
    var w1 := ClearRecord(w, c);
    forall r | r in w1.recs
      ensures RecOk(w1, r) && FinalOk(w1, r)
    {
      ClearKeepsRecord(w, c, r);
    }
    forall r, k | r in w1.recs && 0 <= k < |w1.recs[r].legs|
      ensures LegOk(w1, r, k)
    {
      ClearKeepsLeg(w, c, r, k);
    }
    forall d | d in w1.chans
      ensures ChanOk(w1, d)
    {
      ClearKeepsChannel(w, c, d);
    }
  }

  lemma ClearKeepsRecord(w: World, c: nat, r: nat)
    requires c in w.chans && ChanOk(w, c) && w.chans[c].hungup
    requires r in w.recs && RecOk(w, r) && FinalOk(w, r) && r in ClearRecord(w, c).recs
    ensures RecOk(ClearRecord(w, c), r) && FinalOk(ClearRecord(w, c), r)
  {
  }

  lemma ClearKeepsLeg(w: World, c: nat, r: nat, k: nat)
    requires c in w.chans && w.chans[c].hungup && r in ClearRecord(w, c).recs
    requires r in w.recs && k < |w.recs[r].legs| && LegOk(w, r, k)
    ensures LegOk(ClearRecord(w, c), r, k)
  {
  }

  lemma ClearKeepsChannel(w: World, c: nat, d: nat)
    requires c in w.chans && d in w.chans && d != c && ChanOk(w, d)
    requires w.chans[c].final && w.chans[c].node.Some? && w.chans[d].node.Some? ==>
               w.chans[d].node.value.rec != w.chans[c].node.value.rec
    ensures ChanOk(ClearRecord(w, c), d)
  {
  }

  // ---- Whole runs ----

  datatype Action =
    | Born(c: nat, direction: Direction)
    | SetsId(c: nat, id: string)
    | Calls(c: nat, cs: CallState)
    | Hangs(c: nat)
    | Dies(c: nat)

  /** Each leg sets its device id only before its one hangup, and is destroyed only after it. */
  predicate Permitted(w: World, a: Action) {
    match a
    case Born(c, _) => c !in w.chans
    case SetsId(c, id) => c in w.chans && !w.chans[c].hungup
    case Calls(c, cs) => c in w.chans
    case Hangs(c) => c in w.chans && !w.chans[c].hungup
    case Dies(c) => c in w.chans && w.chans[c].hungup
  }

  ghost function Act(w: World, a: Action): World
    requires Inv(w) && Permitted(w, a)
  {
    match a
    case Born(c, d) => NewChannel(w, c, d)
    case SetsId(c, id) => SetDevice(w, c, id)
    case Calls(c, cs) => assert ChanOk(w, c); SetCall(w, c, cs)
    case Hangs(c) => assert ChanOk(w, c); HangLeg(w, c)
    case Dies(c) => ClearRecord(w, c)
  }

  lemma ActKeepsInv(w: World, a: Action)
    requires Inv(w) && Permitted(w, a)
    ensures Inv(Act(w, a))
  {
    hide Inv;
    match a {
      case Born(c, d) => NewKeepsInv(w, c, d);
      case SetsId(c, id) => SetKeepsInv(w, c, id);
      case Calls(c, cs) => CallKeepsInv(w, c, cs);
      case Hangs(c) => HangKeepsInv(w, c);
      case Dies(c) => ClearKeepsInv(w, c);
    }
  }

  /** A record's final leg is decided once: the history only grows. */
  lemma FinalIsDecidedOnce(w: World, a: Action, r: nat)
    requires Inv(w) && Permitted(w, a) && r in w.finals
    ensures r in Act(w, a).finals && Act(w, a).finals[r] == w.finals[r]
  {
    if a.Hangs? && w.chans[a.c].node.Some? {
      assert ChanOk(w, a.c);
      var Node(mine, k) := w.chans[a.c].node.value;
      assert RecOk(w, mine);
      SomeoneOffhook(w.recs[mine].legs, k);
    }
  }

  ghost predicate IsTrace(ws: seq<World>, acts: seq<Action>) {
    && |ws| == |acts| + 1
    && forall i :: 0 <= i < |acts| ==>
         Permitted(ws[i], acts[i]) && (Inv(ws[i]) ==> ws[i + 1] == Act(ws[i], acts[i]))
  }

  lemma {:induction false} TraceInv(ws: seq<World>, acts: seq<Action>, i: nat)
    requires IsTrace(ws, acts) && ws[0] == Nobody && i < |ws|
    ensures Inv(ws[i])
  {
    if i > 0 {
      TraceInv(ws, acts, i - 1);
      ActKeepsInv(ws[i - 1], acts[i - 1]);
    }
  }

  /** Over every interleaving: refs counts the legs without a hup_profile, and a record is in the
      hash exactly while refs > 0. */
  lemma CountedAndFound(ws: seq<World>, acts: seq<Action>, i: nat, r: nat)
    requires IsTrace(ws, acts) && ws[0] == Nobody && i < |ws| && r in ws[i].recs
    ensures var rec := ws[i].recs[r];
            && rec.refs == Offhook(rec.legs)
            && (rec.refs > 0 <==> rec.deviceId in ws[i].hash && ws[i].hash[rec.deviceId] == r)
            && (rec.refs == 0 <==> r in ws[i].finals)
  {
    TraceInv(ws, acts, i);
    assert RecOk(ws[i], r);
  }

  /** Over every interleaving: a leg off hook belongs to a live channel and says what that channel is doing,
      so what fetch_device_stats counts is what the device's channels do. */
  lemma LegsFollowChannels(ws: seq<World>, acts: seq<Action>, i: nat, r: nat, k: nat)
    requires IsTrace(ws, acts) && ws[0] == Nobody && i < |ws|
    requires r in ws[i].recs && k < |ws[i].recs[r].legs| && !ws[i].recs[r].legs[k].hup
    ensures var leg := ws[i].recs[r].legs[k];
            && leg.chan in ws[i].chans && !ws[i].chans[leg.chan].hungup
            && ws[i].chans[leg.chan].node == Some(Node(r, k))
            && leg.callstate == ws[i].chans[leg.chan].call
            && leg.direction == Opposite(ws[i].chans[leg.chan].direction)
  {
    TraceInv(ws, acts, i);
    assert LegOk(ws[i], r, k);
    assert ChanOk(ws[i], ws[i].recs[r].legs[k].chan);
  }

  /** Over every interleaving: at most one channel ever becomes the final leg of a record. */
  lemma {:induction false} OneFinalLeg(ws: seq<World>, acts: seq<Action>, i: nat, j: nat, r: nat)
    requires IsTrace(ws, acts) && ws[0] == Nobody && i <= j < |ws| && r in ws[i].finals
    ensures r in ws[j].finals && ws[j].finals[r] == ws[i].finals[r]
    decreases j
  {
    if i < j {
      OneFinalLeg(ws, acts, i, j - 1, r);
      TraceInv(ws, acts, j - 1);
      FinalIsDecidedOnce(ws[j - 1], acts[j - 1], r);
    }
  }

  /** Over every interleaving: when the last channel is gone, so is every record. */
  lemma NoRecordLeaks(ws: seq<World>, acts: seq<Action>, i: nat)
    requires IsTrace(ws, acts) && ws[0] == Nobody && i < |ws| && ws[i].chans == map[]
    ensures ws[i].recs == map[] && ws[i].hash == map[]
  {
    var w := ws[i];
    TraceInv(ws, acts, i);
    if w.recs != map[] {
      var r :| r in w.recs;
      var c := RecordIsHeld(w, r);
      assert false;
    }
  }

  /** Every live record has a live channel pointing at it: a leg off hook, or the final leg. */
  lemma RecordIsHeld(w: World, r: nat) returns (c: nat)
    requires Inv(w) && r in w.recs
    ensures c in w.chans && w.chans[c].node.Some? && w.chans[c].node.value.rec == r
  {
    assert RecOk(w, r) && FinalOk(w, r);
    if r in w.finals {
      c := w.finals[r];
    } else {
      var k := SomeOffhookLeg(w.recs[r].legs);
      assert LegOk(w, r, k);
      c := w.recs[r].legs[k].chan;
    }
  }

  lemma {:induction false} SomeOffhookLeg(legs: seq<Leg>) returns (k: nat)
    requires Offhook(legs) > 0
    ensures k < |legs| && !legs[k].hup
  {
    if legs[|legs| - 1].hup {
      k := SomeOffhookLeg(legs[..|legs| - 1]);
    } else {
      k := |legs| - 1;
    }
  }

  // ---- The calls as written ----

  lemma UpdateTwice<K, V>(m: map<K, V>, k: K, v: V, v1: V)
    ensures m[k := v][k := v1] == m[k := v1]
  {
  }

  const SANITY: nat := 100

  class DeviceRegistry {
    var recs: map<nat, Record>
    var hash: map<string, nat>
    var chans: map<nat, Chan>
    var next: nat
    ghost var finals: map<nat, nat>

    ghost function View(): World
      reads this
    {
      World(recs, hash, chans, next, finals)
    }

    constructor ()
      ensures View() == Nobody
    {
      recs, hash, chans, next, finals := map[], map[], map[], 0, map[];
    }

    method SetDeviceId(c: nat, id: string) returns (ok: bool)
      requires c in chans && HashOk(View())
      modifies this
      ensures View() == SetDevice(old(View()), c, id)
      ensures ok <==> old(chans)[c].node.None?
      ensures if ok then Joined(old(View()), View(), c, id) else View() == old(View())
    {
      if chans[c].node.Some? {
        return false;
      }
      SetDeviceJoins(View(), c, id);
      hide Joined;
      ghost var after := SetDevice(View(), c, id);
      var r := FindOrCreate(id);
      AddUuid(r, c);
      assert recs == after.recs && hash == after.hash && chans == after.chans;
      ok := true;
    }

    /** The record hashed under the id, or a new one. */
    method FindOrCreate(id: string) returns (r: nat)
      requires HashOk(View())
      modifies this`recs, this`hash, this`next
      ensures r == (if id in old(hash) then old(hash)[id] else old(next)) && r in recs
      ensures recs == if id in old(hash) then old(recs) else old(recs)[r := Record(id, [], 0)]
      ensures hash == old(hash)[id := r] && next == if id in old(hash) then old(next) else old(next) + 1
    {
      if id !in hash {
        recs := recs[next := Record(id, [], 0)];
        hash := hash[id := next];
        next := next + 1;
      }
      r := hash[id];
    }

    method AddUuid(r: nat, c: nat)
      requires r in recs && c in chans
      modifies this`recs, this`chans
      ensures var rec := old(recs)[r];
              recs == old(recs)[r := rec.(legs := rec.legs + [NodeFor(c, old(chans)[c])], refs := rec.refs + 1)]
      ensures chans == old(chans)[c := old(chans)[c].(node := Some(Node(r, |old(recs)[r].legs|)))]
    {
      var rec, leg := recs[r], NodeFor(c, chans[c]);
      chans := chans[c := chans[c].(node := Some(Node(r, |rec.legs|)))];
      recs := recs[r := rec.(legs := rec.legs + [leg], refs := rec.refs + 1)];
    }

    /** The leg is marked hung up, and the legs are counted again. */
    method DropLeg(r: nat, k: nat) returns (offhook: nat)
      requires r in recs && k < |recs[r].legs|
      modifies this`recs
      ensures var rec := old(recs)[r];
              var legs := rec.legs[k := rec.legs[k].(hup := true)];
              recs == old(recs)[r := rec.(legs := legs)] && offhook == Offhook(legs)
    {
      var rec := recs[r];
      recs := recs[r := rec.(legs := rec.legs[k := rec.legs[k].(hup := true)])];
      var stats := FetchDeviceStats(recs[r].legs);
      OffhookCounted(recs[r].legs);
      offhook := stats.offhook.all;
    }

    method ProcessDeviceHup(c: nat)
      requires c in chans && (chans[c].node.Some? ==> Points(View(), c))
      modifies this
      ensures View() == HangLeg(old(View()), c) && HasHungUp(old(View()), View(), c)
    {
      HangLegHangs(View(), c);
      HangLegIs(View(), c);
      hide HasHungUp, HangLeg, AllTallied, StatsOf, Offhook;
      ghost var after := HangLeg(View(), c);
      var ch := chans[c];
      if ch.node.None? {
        chans := chans[c := ch.(hungup := true)];
        return;
      }
      var r, k := ch.node.value.rec, ch.node.value.pos;
      var rec := recs[r];
      var offhook := DropLeg(r, k);
      if offhook == 0 {
        hash := hash - {rec.deviceId};
        finals := finals[r := c];
        chans := chans[c := ch.(final := true, hungup := true)];
      } else {
        chans := chans[c := ch.(node := None, hungup := true)];
      }
      assert hash == after.hash && finals == after.finals && chans == after.chans;
      UpdateTwice(old(recs), r, recs[r], recs[r].(refs := recs[r].refs - 1));
      recs := recs[r := recs[r].(refs := recs[r].refs - 1)];
      assert recs == after.recs;
    }

    /** With refs at zero, as FinalLegIsAlone shows it to be, the bounded wait does not wait. */
    method ClearDeviceRecord(c: nat) returns (waits: nat)
      requires c in chans && (chans[c].node.Some? ==> Points(View(), c))
      modifies this
      ensures View() == ClearRecord(old(View()), c) && IsGone(old(View()), View(), c)
      ensures waits == if old(chans[c].node.Some? && chans[c].final && recs[chans[c].node.value.rec].refs != 0)
                       then 99 else 0
    {
      ClearRecordClears(View(), c);
      hide IsGone;
      waits := 0;
      var ch := chans[c];
      if ch.node.Some? && ch.final {
        var r := ch.node.value.rec;
        var sanity: nat := SANITY - 1;
        while sanity != 0 && recs[r].refs != 0
          invariant waits + sanity == 99 && (recs[r].refs == 0 ==> waits == 0)
          decreases sanity
        {
          waits := waits + 1;
          sanity := sanity - 1;
        }
        recs := recs - {r};
      }
      chans := chans - {c};
    }

    method NewLeg(c: nat, direction: Direction)
      requires c !in chans
      modifies this`chans
      ensures View() == NewChannel(old(View()), c, direction)
      ensures chans == old(chans)[c := Chan(None, false, false, Down, direction)]
    {
      chans := chans[c := Chan(None, false, false, Down, direction)];
    }

    method SetCallstate(c: nat, cs: CallState)
      requires c in chans && (chans[c].node.Some? ==> Points(View(), c))
      modifies this`chans, this`recs
      ensures View() == SetCall(old(View()), c, cs) && Follows(old(View()), View(), c, cs)
    {
      SetCallFollows(View(), c, cs);
      hide Follows;
      var ch := chans[c];
      if ch.call == cs {
        return;
      }
      chans := chans[c := ch.(call := cs)];
      if ch.node.Some? {
        var r, k := ch.node.value.rec, ch.node.value.pos;
        recs := recs[r := recs[r].(legs := recs[r].legs[k := recs[r].legs[k].(callstate := cs)])];
      }
    }
  }

  lemma Handles(w: World, c: nat)
    requires Inv(w) && c in w.chans
    ensures HashOk(w) && (w.chans[c].node.Some? ==> Points(w, c))
    ensures w.chans[c].hungup && w.chans[c].node.Some? && w.chans[c].final ==>
              w.recs[w.chans[c].node.value.rec].refs == 0
  {
    assert ChanOk(w, c);
    if w.chans[c].final { FinalLegIsAlone(w, c); }
  }

  method Call(d: DeviceRegistry, a: Action) returns (waits: nat)
    requires Inv(d.View()) && Permitted(d.View(), a)
    modifies d
    ensures d.View() == Act(old(d.View()), a) && waits == 0
  {
    hide Inv, HashOk, SetDevice, HangLeg, ClearRecord, Joined, HasHungUp, IsGone, Follows;
    waits := 0;
    if a.c in d.chans { Handles(d.View(), a.c); }
    match a {
      case Born(c, direction) => d.NewLeg(c, direction);
      case SetsId(c, id) => var _ := d.SetDeviceId(c, id);
      case Calls(c, cs) => d.SetCallstate(c, cs);
      case Hangs(c) => d.ProcessDeviceHup(c);
      case Dies(c) => waits := d.ClearDeviceRecord(c);
    }
  }

  /** The registry driven by any permitted calls: its states are a trace, so the laws above hold of them;
      destruction never waits, and nothing is left when the last channel is gone. */
  method Drive(acts: seq<Action>) returns (d: DeviceRegistry, done: nat, waits: nat, ghost ws: seq<World>)
    ensures done <= |acts| && IsTrace(ws, acts[..done]) && ws[0] == Nobody && d.View() == ws[done]
    ensures done < |acts| ==> !Permitted(d.View(), acts[done])
    ensures waits == 0 && (d.chans == map[] ==> d.recs == map[] && d.hash == map[])
  {
    hide Inv, Act, Permitted;
    d := new DeviceRegistry();
    done, waits, ws := 0, 0, [d.View()];
    while done < |acts| && MayCall(d, acts[done])
      invariant done <= |acts| && fresh(d) && waits == 0
      invariant IsTrace(ws, acts[..done]) && ws[0] == Nobody && d.View() == ws[done]
    {
      TraceInv(ws, acts[..done], done);
      var n := Call(d, acts[done]);
      waits := waits + n;
      ws := ws + [d.View()];
      done := done + 1;
    }
    if d.chans == map[] { NoRecordLeaks(ws, acts[..done], done); }
  }

  predicate MayCall(d: DeviceRegistry, a: Action)
    reads d
    ensures MayCall(d, a) == Permitted(d.View(), a)
  {
    match a
    case Born(c, _) => c !in d.chans
    case SetsId(c, id) => c in d.chans && !d.chans[c].hungup
    case Calls(c, cs) => c in d.chans
    case Hangs(c) => c in d.chans && !d.chans[c].hungup
    case Dies(c) => c in d.chans && d.chans[c].hungup
  }
}
