/** Device state and interval timers (src/switch_channel.c): switch_channel_check_device_state. */
module DeviceState {
  import opened Common
  import opened DeviceLegs

  // ---- Device state ----

  datatype DState = DDown | DRinging | DActive | DActiveMulti | DHeld | DHangup

  function Derive(s: Stats): DState {
    if s.offhook.all == 0 then DHangup
    else if s.active.all == 0 then
      if s.ringing.outs + s.early.outs > 0 || s.ringWait > 0 then DRinging
      else if s.held.all > 0 then DHeld
      else DDown
    else if s.active.all == 1 then DActive
    else DActiveMulti
  }

  /** A live leg that makes the device ring: waiting to ring, or ringing or in early media towards the device. */
  predicate Rings(l: Leg) {
    !l.hup && (l.callstate == RingWait || ((l.callstate == Ringing || l.callstate == Early) && l.direction == Outbound))
  }

  predicate Holds(l: Leg) { !l.hup && l.callstate == Held }

  ghost predicate Any(legs: seq<Leg>, p: Leg -> bool) { exists i :: 0 <= i < |legs| && p(legs[i]) }

  ghost predicate Two(legs: seq<Leg>, p: Leg -> bool) {
    exists i, j :: 0 <= i < j < |legs| && p(legs[i]) && p(legs[j])
  }

  /** What each device state means for the legs. */
  ghost predicate Shows(legs: seq<Leg>, d: DState) {
    var offhook := exists i :: 0 <= i < |legs| && !legs[i].hup;
    && (d == DHangup <==> !offhook)
    && (d == DActive <==> Any(legs, Talking) && !Two(legs, Talking))
    && (d == DActiveMulti <==> Two(legs, Talking))
    && (d == DRinging <==> !Any(legs, Talking) && Any(legs, Rings))
    && (d == DHeld <==> !Any(legs, Talking) && !Any(legs, Rings) && Any(legs, Holds))
    && (d == DDown <==> offhook && !Any(legs, Talking) && !Any(legs, Rings) && !Any(legs, Holds))
  }

  lemma {:induction false} RingingCounted(legs: seq<Leg>)
    ensures var s := StatsOf(legs);
            s.ringing.outs + s.early.outs > 0 || s.ringWait > 0 <==> Any(legs, Rings)
  {
    if legs != [] {
      var n := |legs| - 1;
      RingingCounted(legs[..n]);
      assert forall i :: 0 <= i < n ==> legs[..n][i] == legs[i];
      assert Any(legs, Rings) <==> Any(legs[..n], Rings) || Rings(legs[n]);
    }
  }

  lemma {:induction false} HoldingCounted(legs: seq<Leg>)
    ensures StatsOf(legs).held.all > 0 <==> Any(legs, Holds)
  {
    if legs != [] {
      var n := |legs| - 1;
      HoldingCounted(legs[..n]);
      assert forall i :: 0 <= i < n ==> legs[..n][i] == legs[i];
      assert Any(legs, Holds) <==> Any(legs[..n], Holds) || Holds(legs[n]);
    }
  }

  lemma DeriveShows(legs: seq<Leg>)
    ensures Shows(legs, Derive(StatsOf(legs)))
  {
    StatsMean(legs);
    CountSays(legs, Talking);
    OffhookSays(legs);
    RingingCounted(legs);
    HoldingCounted(legs);
    hide StatsOf, Offhook, Count;
  }

  predicate Talks(d: DState) { d == DActive || d == DActiveMulti }

  lemma ShowsTalk(legs: seq<Leg>, d: DState)
    requires Shows(legs, d)
    ensures Talks(d) <==> Any(legs, Talking)
  {
  }

  // ---- Talk times ----

  /** The event's "Device-Talk-Time-Milliseconds": the difference is cut to 32 bits before the division. */
  function ReportedMillis(micros: int): nat { micros % 0x1_0000_0000 / 1000 }

  /** So the reported value is the talk time in milliseconds exactly for talks under 2^32 microseconds. */
  lemma MillisExactIff(micros: nat)
    ensures ReportedMillis(micros) == micros / 1000 <==> micros < 0x1_0000_0000
  {
    if micros >= 0x1_0000_0000 {
      assert micros % 0x1_0000_0000 <= micros - 0x1_0000_0000;
    }
  }

  /** Beyond that the count starts again from zero. */
  lemma MillisWrap(micros: int)
    ensures ReportedMillis(micros + 0x1_0000_0000) == ReportedMillis(micros) < 4294968
  {
    var q, r := micros / 0x1_0000_0000, micros % 0x1_0000_0000;
    assert micros + 0x1_0000_0000 == (q + 1) * 0x1_0000_0000 + r;
    Remainder(micros + 0x1_0000_0000, q + 1, r);
  }

  lemma Remainder(x: int, q: int, r: nat)
    requires r < 0x1_0000_0000 && x == q * 0x1_0000_0000 + r
    ensures x % 0x1_0000_0000 == r
  {
  }

  /** What the event says about a talk. */
  datatype Talk = Talk(start: int, stop: int, millis: nat)

  function TalkTime(start: int, stop: int): Talk { Talk(start, stop, ReportedMillis(stop - start)) }

  ghost predicate Told(t: Talk) {
    t.start <= t.stop && (t.millis == (t.stop - t.start) / 1000 <==> t.stop - t.start < 0x1_0000_0000)
  }

  // ---- Timers ----

  /** What the clock says at each of the places one check can read it. */
  datatype Clock = Clock(start: int, activeStop: int, ringStop: int, holdStop: int, last: int)

  predicate Positive(c: Clock) {
    c.start > 0 && c.activeStop > 0 && c.ringStop > 0 && c.holdStop > 0 && c.last > 0
  }

  datatype Timers = Timers(
    state: DState, lastState: DState, callStart: int,
    ringStart: int, ringStop: int, activeStart: int, activeStop: int, holdStart: int, holdStop: int, lastCall: int)

  const Idle: Timers := Timers(DDown, DDown, 0, 0, 0, 0, 0, 0, 0, 0)

  /** All stop times are zero and the only open interval is the one of the current state. */
  ghost predicate Tidy(t: Timers) {
    && t.state == t.lastState
    && t.ringStop == 0 && t.activeStop == 0 && t.holdStop == 0
    && (t.ringStart != 0 <==> t.state == DRinging)
    && (t.activeStart != 0 <==> Talks(t.state))
    && (t.holdStart != 0 <==> t.state == DHeld)
  }

  class Device {
    var t: Timers

    constructor ()
      ensures t == Idle
    {
      t := Idle;
    }

    /** One check; `talk` is the talk time that the event carries, if it carries one. */
    method CheckDeviceState(legs: seq<Leg>, now: Clock) returns (talk: Option<Talk>)
      requires Tidy(t) && Positive(now)
      modifies this
      ensures Tidy(t) && t.state == Derive(StatsOf(legs)) && Shows(legs, t.state)
      ensures Talks(t.state) <==> Any(legs, Talking)
      ensures talk == if Talks(old(t.state)) && !Talks(t.state)
                      then Some(TalkTime(old(t.activeStart), now.activeStop)) else None
      ensures Talks(t.state) ==> t.activeStart == if Talks(old(t.state)) then old(t.activeStart) else now.start
      ensures var quiet := t.state == old(t.state) && (t.state == DDown || t.state == DHangup);
              && t.callStart == (if quiet || old(t.callStart) != 0 then old(t.callStart) else now.start)
              && t.lastCall == (if quiet then old(t.lastCall) else now.last)
      ensures t.state == DRinging ==> t.ringStart == if old(t.state) == DRinging then old(t.ringStart) else now.start
      ensures t.state == DHeld ==> t.holdStart == if old(t.state) == DHeld then old(t.holdStart) else now.start
    {
      hide Shows, Any, StatsOf, AllTallied, Derive;
      var s := FetchDeviceStats(legs);
      DeriveShows(legs);
      ShowsTalk(legs, Derive(s));
      t := t.(state := Derive(s));
      talk := None;
      if (t.state == DDown && t.lastState == DDown) || (t.state == DHangup && t.lastState == DHangup) {
        return;
      }
      if t.callStart == 0 {
        t := t.(callStart := now.start);
      }
      if t.state == DRinging {
        if t.ringStart == 0 {
          t := t.(ringStart := now.start, ringStop := 0);
        }
      } else if Talks(t.state) {
        if t.activeStart == 0 {
          t := t.(activeStart := now.start, activeStop := 0);
        }
      } else if t.state == DHeld {
        if t.holdStart == 0 {
          t := t.(holdStart := now.start, holdStop := 0);
        }
      }
      if t.activeStart != 0 && !Talks(t.state) {
        t := t.(activeStop := now.activeStop);
      }
      if t.ringStart != 0 && t.ringStop == 0 && t.state != DRinging {
        t := t.(ringStop := now.ringStop);
      }
      if t.holdStart != 0 && t.holdStop == 0 && t.state != DHeld {
        t := t.(holdStop := now.holdStop);
      }
      if t.activeStop != 0 {
        talk := Some(TalkTime(t.activeStart, t.activeStop));
      }
      if t.activeStop != 0 {
        t := t.(activeStart := if Talks(t.state) then now.last else 0, activeStop := 0);
      }
      if t.holdStop != 0 {
        t := t.(holdStart := if t.state == DHeld then now.last else 0, holdStop := 0);
      }
      if t.ringStop != 0 {
        t := t.(ringStart := if t.state == DRinging then now.last else 0, ringStop := 0);
      }
      t := t.(lastCall := now.last, lastState := t.state);
    }
  }

  // ---- Whole runs ----

  /** The first check of the unbroken run of talking states that ends at check k. */
  ghost function TalkBegan(states: seq<DState>, k: nat): (j: nat)
    requires k < |states| && Talks(states[k])
    ensures j <= k && (forall i :: j <= i <= k ==> Talks(states[i])) && (j > 0 ==> !Talks(states[j - 1]))
  {
    if k == 0 || !Talks(states[k - 1]) then k else TalkBegan(states, k - 1)
  }

  /** What a run of checks must report: a talk time exactly when talking stops, measured from the
      start of the maximal talking period. */
  ghost function TalkAt(states: seq<DState>, clocks: seq<Clock>, k: nat): Option<Talk>
    requires |states| == |clocks| && k < |states|
  {
    if k > 0 && Talks(states[k - 1]) && !Talks(states[k])
    then Some(TalkTime(clocks[TalkBegan(states, k - 1)].start, clocks[k].activeStop)) else None
  }

  ghost function StatesOf(polls: seq<seq<Leg>>): (r: seq<DState>)
    ensures |r| == |polls|
  {
    seq(|polls|, i requires 0 <= i < |polls| => Derive(StatsOf(polls[i])))
  }

  /** What one check reads is not before what earlier checks have read. */
  ghost predicate Steady(clocks: seq<Clock>) {
    forall i, j :: 0 <= i < j < |clocks| ==> clocks[i].start <= clocks[j].activeStop
  }

  /** Any sequence of checks on a new device reports exactly its maximal talking periods; with a clock that
      does not go back, each in the right milliseconds if and only if it lasted less than 2^32 microseconds. */
  method CheckAll(d: Device, polls: seq<seq<Leg>>, clocks: seq<Clock>) returns (talks: seq<Option<Talk>>)
    requires d.t == Idle && |polls| == |clocks| && forall i :: 0 <= i < |clocks| ==> Positive(clocks[i])
    modifies d
    ensures Tidy(d.t) && |talks| == |polls|
    ensures forall k :: 0 <= k < |polls| ==> talks[k] == TalkAt(StatesOf(polls), clocks, k)
    ensures Steady(clocks) ==> forall k :: 0 <= k < |polls| && talks[k].Some? ==> Told(talks[k].value)
  {
    hide StatsOf, Derive;
    talks := [];
    ghost var states := StatesOf(polls);
    for k := 0 to |polls|
      invariant Tidy(d.t) && |talks| == k && d.t.state == (if k == 0 then DDown else states[k - 1])
      invariant k > 0 && Talks(states[k - 1]) ==> d.t.activeStart == clocks[TalkBegan(states, k - 1)].start
      invariant forall i :: 0 <= i < k ==> talks[i] == TalkAt(states, clocks, i)
    {
      var talk := d.CheckDeviceState(polls[k], clocks[k]);
      talks := talks + [talk];
    }
    if Steady(clocks) {
      forall k | 0 <= k < |polls| && talks[k].Some?
        ensures Told(talks[k].value)
      {
        MillisExactIff(talks[k].value.stop - talks[k].value.start);
      }
    }
  }

  /** More than 71 minutes of talk: the event says 0 milliseconds. */
  method LongTalk() returns (talks: seq<Option<Talk>>)
    ensures |talks| == 2 && talks[0] == None && talks[1] == Some(Talk(1, 0x1_0000_0001, 0))
  {
    var d := new Device();
    var polls := [[Leg(0, Active, Inbound, false)], []];
    var late := 0x1_0000_0001;
    var clocks := [Clock(1, 1, 1, 1, 1), Clock(late, late, late, late, late)];
    OneTalks(polls[0][0]);
    assert StatesOf(polls) == [DActive, DHangup];
    talks := CheckAll(d, polls, clocks);
  }

  lemma OneTalks(leg: Leg)
    requires Talking(leg)
    ensures Derive(StatsOf([leg])) == DActive
  {
    assert [leg][..0] == [];
  }
}
