/** The legs of a device and their statistics (src/switch_channel.c): fetch_device_stats. */
module DeviceLegs {

  datatype CallState = Down | Dialing | Ringing | Early | Active | Held | RingWait | HungUp | Unhold

  datatype Direction = Inbound | Outbound

  /** One node of a record's uuid_list: the channel it was made for, what that channel is doing, the
      direction seen from the device, and whether hup_profile is set. */
  datatype Leg = Leg(chan: nat, callstate: CallState, direction: Direction, hup: bool)

  // ---- Legs off hook ----

  function Offhook(legs: seq<Leg>): nat {
    if legs == [] then 0 else Offhook(legs[..|legs| - 1]) + (if legs[|legs| - 1].hup then 0 else 1)
  }

  lemma {:induction false} OneMoreHup(legs: seq<Leg>, k: nat)
    requires k < |legs| && !legs[k].hup
    ensures Offhook(legs[k := legs[k].(hup := true)]) == Offhook(legs) - 1
  {
    var n := |legs| - 1;
    var after := legs[k := legs[k].(hup := true)];
    if k == n {
      assert after[..n] == legs[..n];
    } else {
      OneMoreHup(legs[..n], k);
      assert after[..n] == legs[..n][k := legs[k].(hup := true)];
    }
  }

  lemma {:induction false} SomeoneOffhook(legs: seq<Leg>, k: nat)
    requires k < |legs| && !legs[k].hup
    ensures Offhook(legs) > 0
  {
    if k < |legs| - 1 {
      SomeoneOffhook(legs[..|legs| - 1], k);
    }
  }

  lemma {:induction false} SameOffhook(legs: seq<Leg>, k: nat, leg: Leg)
    requires k < |legs| && leg.hup == legs[k].hup
    ensures Offhook(legs[k := leg]) == Offhook(legs)
  {
    var n := |legs| - 1;
    if k == n {
      assert legs[k := leg][..n] == legs[..n];
    } else {
      SameOffhook(legs[..n], k, leg);
      assert legs[k := leg][..n] == legs[..n][k := leg];
    }
  }

  lemma OneMoreLeg(legs: seq<Leg>, leg: Leg)
    ensures Offhook(legs + [leg]) == Offhook(legs) + (if leg.hup then 0 else 1)
  {
    assert (legs + [leg])[..|legs|] == legs;
  }

  // ---- Statistics ----

  datatype Tally = Tally(all: nat, ins: nat, outs: nat)

  const None0: Tally := Tally(0, 0, 0)

  function Bump(t: Tally, d: Direction): Tally {
    if d == Inbound then Tally(t.all + 1, t.ins + 1, t.outs) else Tally(t.all + 1, t.ins, t.outs + 1)
  }

  datatype Stats = Stats(
    total: Tally, offhook: Tally, held: Tally, early: Tally, ringing: Tally, active: Tally, hup: Tally, ringWait: nat)

  const Zero: Stats := Stats(None0, None0, None0, None0, None0, None0, None0, 0)

  /** One turn of the counting loop. */
  function CountLeg(s: Stats, leg: Leg): Stats {
    var d := leg.direction;
    var s1 := s.(total := Bump(s.total, d));
    if leg.hup then s1.(hup := Bump(s.hup, d))
    else
      var s2 := s1.(offhook := Bump(s.offhook, d));
      match leg.callstate
      case Held => s2.(held := Bump(s.held, d))
      case Early => s2.(early := Bump(s.early, d))
      case Ringing => s2.(ringing := Bump(s.ringing, d))
      case RingWait => s2.(ringWait := s.ringWait + 1)
      case HungUp => s2.(hup := Bump(s.hup, d))
      case Down => s2
      case _ => s2.(active := Bump(s.active, d))
  }

  ghost function StatsOf(legs: seq<Leg>): Stats {
    if legs == [] then Zero else CountLeg(StatsOf(legs[..|legs| - 1]), legs[|legs| - 1])
  }

  method FetchDeviceStats(legs: seq<Leg>) returns (s: Stats)
    ensures s == StatsOf(legs) && AllTallied(s, legs)
  {
    hide AllTallied;
    s := Zero;
    for i := 0 to |legs|
      invariant s == StatsOf(legs[..i])
    {
      assert legs[..i + 1][..i] == legs[..i];
      s := CountLeg(s, legs[i]);
    }
    assert legs[..|legs|] == legs;
    StatsTally(legs);
  }

  ghost function Count(legs: seq<Leg>, p: Leg -> bool): nat {
    if legs == [] then 0 else Count(legs[..|legs| - 1], p) + (if p(legs[|legs| - 1]) then 1 else 0)
  }

  /** What a count says about the legs themselves. */
  lemma {:induction false} CountSays(legs: seq<Leg>, p: Leg -> bool)
    ensures Count(legs, p) == 0 <==> forall i :: 0 <= i < |legs| ==> !p(legs[i])
    ensures Count(legs, p) >= 2 <==> exists i, j :: 0 <= i < j < |legs| && p(legs[i]) && p(legs[j])
  {
    if legs != [] {
      var n := |legs| - 1;
      var most := legs[..n];
      assert forall i :: 0 <= i < n ==> most[i] == legs[i];
      CountSays(most, p);
      if Count(most, p) >= 2 {
        var i, j :| 0 <= i < j < n && p(most[i]) && p(most[j]);
        assert p(legs[i]) && p(legs[j]);
      } else if Count(most, p) == 1 && p(legs[n]) {
        var i :| 0 <= i < n && p(most[i]);
        assert p(legs[i]) && p(legs[n]);
      }
    }
  }

  lemma {:induction false} OffhookSays(legs: seq<Leg>)
    ensures Offhook(legs) == 0 <==> forall i :: 0 <= i < |legs| ==> legs[i].hup
    ensures Offhook(legs) <= |legs|
  {
    if legs != [] {
      var n := |legs| - 1;
      assert forall i :: 0 <= i < n ==> legs[..n][i] == legs[i];
      OffhookSays(legs[..n]);
    }
  }

  /** A leg that hangs up leaves nobody off hook exactly if it was the only one. */
  lemma LastLeg(legs: seq<Leg>, k: nat)
    requires k < |legs|
    ensures Offhook(legs[k := legs[k].(hup := true)]) == 0 <==>
            forall i :: 0 <= i < |legs| && i != k ==> legs[i].hup
  {
    var after := legs[k := legs[k].(hup := true)];
    OffhookSays(after);
    assert forall i :: 0 <= i < |legs| && i != k ==> after[i] == legs[i];
  }

  lemma {:induction false} OffhookCounted(legs: seq<Leg>)
    ensures StatsOf(legs).offhook.all == Offhook(legs)
  {
    if legs != [] {
      OffhookCounted(legs[..|legs| - 1]);
    }
  }

  /** A live leg is talking unless it is down, on hold, ringing in some way, or marked hung up. */
  predicate Talking(l: Leg) {
    !l.hup && l.callstate !in {Down, Held, Early, Ringing, RingWait, HungUp}
  }

  predicate Balanced(t: Tally) { t.all == t.ins + t.outs }

  /** The counters the device state is derived from mean what they say. */
  lemma {:induction false} StatsMean(legs: seq<Leg>)
    ensures var s := StatsOf(legs);
            && s.offhook.all == Offhook(legs)
            && s.active.all == Count(legs, Talking)
            && s.held.all == Count(legs, (l: Leg) => !l.hup && l.callstate == Held)
            && s.ringWait == Count(legs, (l: Leg) => !l.hup && l.callstate == RingWait)
            && s.ringing.outs == Count(legs, (l: Leg) => !l.hup && l.callstate == Ringing && l.direction == Outbound)
            && s.early.outs == Count(legs, (l: Leg) => !l.hup && l.callstate == Early && l.direction == Outbound)
  {
    if legs != [] {
      StatsMean(legs[..|legs| - 1]);
    }
  }

  predicate Every(l: Leg) { true }
  predicate OffHook(l: Leg) { !l.hup }
  predicate OnHold(l: Leg) { !l.hup && l.callstate == Held }
  predicate InEarly(l: Leg) { !l.hup && l.callstate == Early }
  predicate IsRinging(l: Leg) { !l.hup && l.callstate == Ringing }
  predicate AboutToRing(l: Leg) { !l.hup && l.callstate == RingWait }
  predicate Gone(l: Leg) { l.hup || l.callstate == HungUp }

  /** All legs of a class, and those of each direction. */
  ghost predicate Tallies(t: Tally, legs: seq<Leg>, p: Leg -> bool) {
    && t.all == Count(legs, p)
    && t.ins == Count(legs, (l: Leg) => p(l) && l.direction == Inbound)
    && t.outs == Count(legs, (l: Leg) => p(l) && l.direction == Outbound)
  }

  lemma TalliesStep(t: Tally, legs: seq<Leg>, p: Leg -> bool)
    requires legs != [] && Tallies(t, legs[..|legs| - 1], p)
    ensures Tallies(if p(legs[|legs| - 1]) then Bump(t, legs[|legs| - 1].direction) else t, legs, p)
  {
  }

  lemma NoTallies(p: Leg -> bool)
    ensures Tallies(None0, [], p)
  {
  }

  ghost predicate AllTallied(s: Stats, legs: seq<Leg>) {
    && Tallies(s.total, legs, Every) && Tallies(s.offhook, legs, OffHook) && Tallies(s.held, legs, OnHold)
    && Tallies(s.early, legs, InEarly) && Tallies(s.ringing, legs, IsRinging) && Tallies(s.active, legs, Talking)
    && Tallies(s.hup, legs, Gone) && s.ringWait == Count(legs, AboutToRing)
  }

  /** Every counter of every class counts exactly its legs. */
  lemma {:induction false} StatsTally(legs: seq<Leg>)
    ensures AllTallied(StatsOf(legs), legs)
  {
    hide Tallies;
    if legs == [] {
      NoTallies(Every);
      NoTallies(OffHook);
      NoTallies(OnHold);
      NoTallies(InEarly);
      NoTallies(IsRinging);
      NoTallies(Talking);
      NoTallies(Gone);
    } else {
      var most := legs[..|legs| - 1];
      var s := StatsOf(most);
      StatsTally(most);
      TalliesStep(s.total, legs, Every);
      TalliesStep(s.offhook, legs, OffHook);
      TalliesStep(s.held, legs, OnHold);
      TalliesStep(s.early, legs, InEarly);
      TalliesStep(s.ringing, legs, IsRinging);
      TalliesStep(s.active, legs, Talking);
      TalliesStep(s.hup, legs, Gone);
    }
  }

  /** The classes partition the leg list: every leg is in exactly one of held, early, ringing,
      ring-wait, active, hung up, or off hook but down. */
  lemma {:induction false} StatsPartition(legs: seq<Leg>)
    ensures var s := StatsOf(legs);
            && s.total.all == |legs|
            && |legs| == s.held.all + s.early.all + s.ringing.all + s.ringWait + s.active.all + s.hup.all
                         + Count(legs, (l: Leg) => !l.hup && l.callstate == Down)
  {
    if legs != [] {
      StatsPartition(legs[..|legs| - 1]);
    }
  }

  predicate AllBalanced(s: Stats) {
    && Balanced(s.total) && Balanced(s.offhook) && Balanced(s.held) && Balanced(s.early)
    && Balanced(s.ringing) && Balanced(s.active) && Balanced(s.hup)
  }

  lemma CountLegBalances(s: Stats, leg: Leg)
    requires AllBalanced(s)
    ensures AllBalanced(CountLeg(s, leg))
  {
  }

  /** Every class splits by direction. */
  lemma {:induction false} StatsSplitByDirection(legs: seq<Leg>)
    ensures AllBalanced(StatsOf(legs))
  {
    hide AllBalanced, CountLeg;
    if legs != [] {
      StatsSplitByDirection(legs[..|legs| - 1]);
      CountLegBalances(StatsOf(legs[..|legs| - 1]), legs[|legs| - 1]);
    } else {
      ZeroBalances();
    }
  }

  lemma ZeroBalances()
    ensures AllBalanced(Zero)
  {
  }
}
