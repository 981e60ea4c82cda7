/** The times a call record is billed by (src/switch_channel.c): switch_channel_set_caller_profile,
    the marks for ringing, early media and answer, switch_channel_set_bridge_time, switch_channel_set_hangup_time
    and switch_channel_set_timestamps.  Times are microseconds; 0 means "not set". */
module CallTimes {
  import opened Common
  import opened ChannelState

  datatype Times = Times(profileCreated: int, created: int, answered: int, bridged: int,
                         progress: int, progressMedia: int, hungup: int, transferred: int)

  /** A new time table. */
  function Blank(profileCreated: int): Times { Times(profileCreated, 0, 0, 0, 0, 0, 0, 0) }

  datatype Durations = Durations(sec: int, msec: int, usec: int)

  const Zero: Durations := Durations(0, 0, 0)

  function Sum(a: Durations, b: Durations): Durations {
    Durations(a.sec + b.sec, a.msec + b.msec, a.usec + b.usec)
  }

  ghost predicate NonNegative(d: Durations) { d.sec >= 0 && d.msec >= 0 && d.usec >= 0 }

  /** The cast to int32_t. */
  function Int32(x: int): int { (x + 0x8000_0000) % 0x1_0000_0000 - 0x8000_0000 }

  /** The three differences the record reports between two times. */
  function Span(from: nat, to: nat): Durations {
    Durations(Int32(to / 1000000 - from / 1000000), Int32(to / 1000 - from / 1000), to - from)
  }

  datatype Report = Report(duration: Durations, wait: Durations, bill: Durations, legBill: Durations,
                           answer: Durations, progress: Durations, progressMedia: Durations)

  /** created <= answered <= hungup, as far as they are set, all in the past, and no hangup time on a live channel.
      A bridge time may come from an older leg, and so be before creation. */
  ghost predicate Ordered(t: Times, clock: int, over: bool) {
    && 0 < t.created <= clock
    && (t.answered == 0 || t.created <= t.answered <= clock)
    && (t.progress == 0 || t.created <= t.progress <= clock)
    && (t.progressMedia == 0 || t.created <= t.progressMedia <= clock)
    && t.bridged <= clock
    && (t.hungup == 0 || (t.created <= t.hungup <= clock && t.answered <= t.hungup && over))
  }

  /** What later may not change: creation, an answer or hangup once there, and after the hangup even that
      there was no answer. */
  ghost predicate Fixed(a: Times, b: Times) {
    && b.created == a.created
    && (a.answered != 0 || a.hungup != 0 ==> b.answered == a.answered)
    && (a.hungup != 0 ==> b.hungup == a.hungup)
  }

  /** Whether a difference fits 32 bits of milliseconds: below about 24.8 days. */
  predicate Near(from: int, to: int) { to / 1000 - from / 1000 < 0x8000_0000 }

  predicate Short(t: Times) { Near(t.created, t.hungup) }

  /** Seconds and milliseconds are those of the microseconds, up to the truncation of the two times. */
  ghost predicate Rounded(d: Durations) {
    -1000000 < d.usec - 1000000 * d.sec < 1000000 && -1000 < d.usec - 1000 * d.msec < 1000
  }

  /** The differences without the cast, each time truncated to the unit first. */
  ghost predicate Measures(d: Durations, from: int, to: int) {
    d.sec == to / 1000000 - from / 1000000 && d.msec == to / 1000 - from / 1000 && d.usec == to - from
  }

  /** What a report says about length and price of the call. */
  ghost predicate Bills(r: Report, t: Times)
    requires t.created >= 0 && t.answered >= 0 && t.hungup >= 0
  {
    && r.duration == Span(t.created, t.hungup) && r.duration.usec == t.hungup - t.created
    && (t.answered == 0 ==> r.bill == r.legBill == r.answer == Zero)
    && (t.answered != 0 ==>
          r.legBill == r.duration && r.answer == Span(t.created, t.answered) && r.bill == Span(t.answered, t.hungup))
    && (t.hungup != 0 ==> (r.duration.msec == t.hungup / 1000 - t.created / 1000 <==> Short(t)))
    && (t.hungup != 0 && Short(t) ==>
          && NonNegative(r.duration) && NonNegative(r.bill) && NonNegative(r.answer)
          && Rounded(r.duration) && Rounded(r.bill) && Rounded(r.legBill) && Rounded(r.answer)
          && Measures(r.duration, t.created, t.hungup)
          && (t.answered != 0 ==>
                && Measures(r.answer, t.created, t.answered) && Measures(r.bill, t.answered, t.hungup)
                && Sum(r.answer, r.bill) == r.duration))
  }

  /** And about the time until the bridge and the first signs of life. */
  ghost predicate Waits(r: Report, t: Times)
    requires t.created >= 0 && t.progress >= 0 && t.progressMedia >= 0
  {
    && r.wait == (if t.bridged > t.created then Span(t.created, t.bridged) else Zero)
    && r.progress == (if t.progress != 0 then Span(t.created, t.progress) else Zero)
    && r.progressMedia == (if t.progressMedia != 0 then Span(t.created, t.progressMedia) else Zero)
    && (Near(t.created, t.bridged) ==>
          NonNegative(r.wait) && Rounded(r.wait) && (t.bridged > t.created ==> Measures(r.wait, t.created, t.bridged)))
    && (Near(t.created, t.progress) ==>
          && NonNegative(r.progress) && Rounded(r.progress)
          && (t.progress != 0 ==> Measures(r.progress, t.created, t.progress)))
    && (Near(t.created, t.progressMedia) ==>
          && NonNegative(r.progressMedia) && Rounded(r.progressMedia)
          && (t.progressMedia != 0 ==> Measures(r.progressMedia, t.created, t.progressMedia)))
  }

  ghost predicate AtMost(a: Durations, b: Durations) { a.sec <= b.sec && a.msec <= b.msec && a.usec <= b.usec }

  /** A duration that makes sense beside the whole: not negative, not longer, and the same in all units. */
  ghost predicate Within(d: Durations, whole: Durations) { NonNegative(d) && AtMost(d, whole) && Rounded(d) }

  ghost predicate Sensible(r: Report) {
    && Within(r.duration, r.duration) && Within(r.wait, r.duration)
    && Within(r.bill, r.duration) && Within(r.legBill, r.duration) && Within(r.answer, r.duration)
    && Within(r.progress, r.duration) && Within(r.progressMedia, r.duration)
  }

  lemma PartIsWithin(c: nat, a: nat, h: nat)
    requires c <= a <= h && Near(c, h)
    ensures Within(Span(c, a), Span(c, h)) && Within(Span(a, h), Span(c, h)) && Within(Zero, Span(c, h))
    ensures Within(Span(c, h), Span(c, h))
  {
    hide Span, Rounded;
    SpansAddUp(c, a, h);
    ZeroIsRounded();
  }

  lemma ZeroIsRounded()
    ensures Rounded(Zero)
  {
  }

  /** So it does when nothing is later than the hangup. */
  lemma InTime(r: Report, t: Times, clock: int, over: bool)
    requires Ordered(t, clock, over) && t.hungup != 0 && Short(t)
    requires t.bridged <= t.hungup && t.progress <= t.hungup && t.progressMedia <= t.hungup
    ensures Bills(r, t) && Waits(r, t) ==> Sensible(r)
  {
    hide Span, Within, Rounded;
    PartIsWithin(t.created, if t.bridged > t.created then t.bridged else t.created, t.hungup);
    PartIsWithin(t.created, if t.answered != 0 then t.answered else t.created, t.hungup);
    PartIsWithin(t.created, if t.progress != 0 then t.progress else t.created, t.hungup);
    PartIsWithin(t.created, if t.progressMedia != 0 then t.progressMedia else t.created, t.hungup);
  }

  /** The record a leg was originated by, if there is one. */
  ghost function Present(originator: CallRecord?): set<CallRecord> {
    if originator == null then {} else {originator}
  }

  class CallRecord {
    const channel: Channel
    var profile: Option<Times>
    var older: seq<Times>          // profiles replaced by later ones, newest first
    var answeredFlag: bool         // CF_ANSWERED
    var ringReady: bool            // CF_RING_READY
    var earlyMedia: bool           // CF_EARLY_MEDIA
    var stamped: bool              // CF_TIMESTAMP_SET
    ghost var clock: int           // the latest clock reading

    ghost predicate Valid()
      reads this, channel
    {
      && clock >= 0 && Consistent(channel.View())
      && (profile.Some? ==>
            Ordered(profile.value, clock, Over(channel.state)) && (profile.value.answered != 0 ==> answeredFlag))
    }

    constructor ()
      ensures Valid() && profile == Option.None && clock == 0 && fresh(channel) && !answeredFlag && !stamped
    {
      channel := new Channel();
      profile, older, clock := Option.None, [], 0;
      answeredFlag, ringReady, earlyMedia, stamped := false, false, false, false;
    }

    /** A profile comes with a time table of its own or gets a new one.  A later profile inherits the times
        that matter; the first one keeps its own, right or wrong. */
    method SetCallerProfile(given: Option<Times>, now: int)
      requires Valid() && now >= clock && now > 0
      modifies this`profile, this`older, this`clock
      ensures clock == now && profile.Some?
      ensures old(profile).Some? || given.None? ==> (Valid() <==> given.None? || given.value.bridged <= now)
      ensures old(profile).None? && given.None? ==> profile.value == Times(now, now, 0, 0, 0, 0, 0, 0)
      ensures old(profile).None? ==>
                && profile.value == (if given.Some? then given.value else Blank(now)).(created := now)
                && older == old(older)
                && (Valid() <==>
                      && Ordered(profile.value, now, Over(channel.state))
                      && (profile.value.answered != 0 ==> answeredFlag))
      ensures old(profile).Some? ==>
                && Fixed(old(profile).value, profile.value)
                && profile.value.answered == old(profile).value.answered
                && profile.value.hungup == old(profile).value.hungup
                && profile.value.progress == old(profile).value.progress
                && profile.value.progressMedia == old(profile).value.progressMedia
                && profile.value.bridged == (if given.Some? then given.value.bridged else 0)
                && older == [old(profile).value.(transferred := profile.value.profileCreated)] + old(older)
    {
      var t := if given.Some? then given.value else Blank(now);
      match profile {
        case Some(was) =>
          older := [was.(transferred := t.profileCreated)] + older;
          t := t.(answered := was.answered, progress := was.progress, progressMedia := was.progressMedia,
                  created := was.created, hungup := was.hungup);
        case None =>
          t := t.(created := now);
      }
      profile := Some(t);
      clock := now;
    }

    /** Only a live channel can be answered, and only the first answer counts. */
    method MarkAnswered(now: int) returns (ok: bool)
      requires Valid() && now >= clock && now > 0
      modifies this`profile, this`answeredFlag, this`clock
      ensures Valid() && clock == now
      ensures ok <==> !Over(channel.state)
      ensures answeredFlag == (old(answeredFlag) || ok)
      ensures profile == if ok && !old(answeredFlag) && old(profile).Some?
                         then Some(old(profile).value.(answered := now)) else old(profile)
      ensures old(profile).Some? ==> Fixed(old(profile).value, profile.value)
    {
      clock := now;
      if channel.hangupCause != 0 || Over(channel.state) {
        return false;
      }
      if answeredFlag {
        return true;
      }
      if profile.Some? {
        profile := Some(profile.value.(answered := now));
      }
      answeredFlag := true;
      ok := true;
    }

    /** Ringing counts once and not after the answer, even on a channel that is over. */
    method MarkRingReady(now: int, originator: CallRecord?) returns (ok: bool)
      requires Valid() && now >= clock && now > 0
      requires originator != null ==> originator != this && originator.Valid() && originator.clock <= now
      modifies this`profile, this`ringReady, this`clock, Present(originator)`profile, Present(originator)`clock
      ensures Valid() && clock == now
      ensures originator != null ==>
                && originator.Valid() && originator.clock <= now
                && originator.profile == if ok && profile.Some? && old(originator.profile).Some?
                                         then Some(old(originator.profile).value.(progress := now))
                                         else old(originator.profile)
      ensures ok <==> !old(ringReady) && !answeredFlag
      ensures ringReady == (old(ringReady) || ok)
      ensures profile == if ok && old(profile).Some? then Some(old(profile).value.(progress := now)) else old(profile)
    {
      clock := now;
      if ringReady || answeredFlag {
        return false;
      }
      ringReady := true;
      if profile.Some? {
        profile := Some(profile.value.(progress := now));
        if originator != null {
          originator.PeerRings(now);
        }
      }
      ok := true;
    }

    /** The originator's own record gets the time too, whatever flags it has. */
    method PeerRings(now: int)
      requires Valid() && now >= clock && now > 0
      modifies this`profile, this`clock
      ensures Valid() && clock == now
      ensures profile == if old(profile).Some? then Some(old(profile).value.(progress := now)) else old(profile)
    {
      if profile.Some? {
        profile := Some(profile.value.(progress := now));
      }
      clock := now;
    }

    method PeerPreAnswers(now: int)
      requires Valid() && now >= clock && now > 0
      modifies this`profile, this`clock
      ensures Valid() && clock == now
      ensures profile == if old(profile).Some? then Some(old(profile).value.(progressMedia := now)) else old(profile)
    {
      if profile.Some? {
        profile := Some(profile.value.(progressMedia := now));
      }
      clock := now;
    }

    /** SWITCH_MESSAGE_INDICATE_CLEAR_PROGRESS: early media may be marked again. */
    method ClearProgress()
      requires Valid()
      modifies this`earlyMedia
      ensures Valid() && !earlyMedia
    {
      earlyMedia := false;
    }

    method MarkPreAnswered(now: int, originator: CallRecord?) returns (ok: bool)
      requires Valid() && now >= clock && now > 0
      requires originator != null ==> originator != this && originator.Valid() && originator.clock <= now
      modifies this`profile, this`earlyMedia, this`clock, Present(originator)`profile, Present(originator)`clock
      ensures Valid() && clock == now
      ensures originator != null ==>
                && originator.Valid() && originator.clock <= now
                && originator.profile == if ok && profile.Some? && old(originator.profile).Some?
                                         then Some(old(originator.profile).value.(progressMedia := now))
                                         else old(originator.profile)
      ensures ok <==> !old(earlyMedia) && !answeredFlag
      ensures earlyMedia == (old(earlyMedia) || ok)
      ensures profile == if ok && old(profile).Some?
                         then Some(old(profile).value.(progressMedia := now)) else old(profile)
    {
      clock := now;
      if earlyMedia || answeredFlag {
        return false;
      }
      earlyMedia := true;
      if profile.Some? {
        profile := Some(profile.value.(progressMedia := now));
        if originator != null {
          originator.PeerPreAnswers(now);
        }
      }
      ok := true;
    }

    method SetBridgeTime(now: int)
      requires Valid() && now >= clock && now > 0
      modifies this`profile, this`clock
      ensures Valid() && clock == now
      ensures profile == if old(profile).Some? then Some(old(profile).value.(bridged := now)) else old(profile)
    {
      if profile.Some? {
        profile := Some(profile.value.(bridged := now));
      }
      clock := now;
    }

    /** A time already set stays.  On a channel that is not over a later answer could still come after it. */
    method SetHangupTime(now: int)
      requires Valid() && now >= clock && now > 0
      modifies this`profile, this`clock
      ensures clock == now
      ensures Valid() <==> old(profile).None? || Over(channel.state)
      ensures profile == if old(profile).Some? && old(profile).value.hungup == 0
                         then Some(old(profile).value.(hungup := now)) else old(profile)
      ensures old(profile).Some? ==> Fixed(old(profile).value, profile.value)
    {
      if profile.Some? && profile.value.hungup == 0 {
        profile := Some(profile.value.(hungup := now));
      }
      clock := now;
    }

    /** The channel's own calls keep the record in order. */
    method HangUp(cause: nat) returns (fired: bool)
      requires Valid()
      modifies channel
      ensures Valid() && Over(channel.state) && (fired <==> !old(Over(channel.state)))
      ensures if fired then channel.state == Hangup && channel.hangupCause == cause
              else channel.state == old(channel.state) && channel.hangupCause == old(channel.hangupCause)
    {
      fired := channel.PerformHangup(cause);
    }

    method SetState(next: CS) returns (crashed: bool)
      requires Valid() && next != CS.None
      modifies channel
      ensures Valid() && (old(Over(channel.state)) ==> Over(channel.state))
      ensures crashed <==> SetTo(old(channel.View()), next) == Crash
      ensures channel.state == if crashed then old(channel.state)
                               else if old(Over(channel.state)) then Later(old(channel.state), next) else next
    {
      crashed := channel.SetState(next);
    }

    /** The durations the record carries, computed once. */
    method SetTimestamps() returns (r: Option<Report>)
      requires Valid()
      modifies this`stamped
      ensures Valid()
      ensures r.Some? <==> !old(stamped) && profile.Some?
      ensures stamped == (old(stamped) || r.Some?)
      ensures r.Some? ==> Bills(r.value, profile.value) && Waits(r.value, profile.value)
    {
      hide Span, Bills, Waits;
      if stamped || profile.None? {
        return Option.None;
      }
      stamped := true;
      var t := profile.value;
      var duration, wait := Span(t.created, t.hungup), Zero;
      if t.bridged > t.created {
        wait := Span(t.created, t.bridged);
      }
      var bill, legBill, answer := Zero, Zero, Zero;
      if t.answered != 0 {
        bill := Span(t.answered, t.hungup);
        legBill := Span(t.created, t.hungup);
        answer := Span(t.created, t.answered);
      }
      var progress, progressMedia := Zero, Zero;
      if t.progress != 0 {
        progress := Span(t.created, t.progress);
      }
      if t.progressMedia != 0 {
        progressMedia := Span(t.created, t.progressMedia);
      }
      r := Some(Report(duration, wait, bill, legBill, answer, progress, progressMedia));
      BillMeans(r.value, t, clock, Over(channel.state));
      WaitMeans(r.value, t, clock, Over(channel.state));
    }

    /** switch_core_session_hangup_state: the hangup time, then the durations. */
    method HangupState(now: int) returns (r: Option<Report>)
      requires Valid() && now >= clock && now > 0 && Over(channel.state)
      modifies this`profile, this`clock, this`stamped
      ensures Valid() && clock == now
      ensures r.Some? <==> !old(stamped) && profile.Some?
      ensures stamped == (old(stamped) || r.Some?)
      ensures r.Some? ==> profile.value.hungup != 0 && Bills(r.value, profile.value) && Waits(r.value, profile.value)
      ensures profile.Some? <==> old(profile).Some?
      ensures old(profile).Some? ==> Fixed(old(profile).value, profile.value)
      ensures r.Some? && old(profile).value.hungup == 0 && Short(profile.value) ==> Sensible(r.value)
    {
      hide Bills, Waits, Sensible;
      SetHangupTime(now);
      r := SetTimestamps();
      if r.Some? && old(profile).value.hungup == 0 && Short(profile.value) {
        InTime(r.value, profile.value, clock, true);
      }
    }
  }

  // ---- Whole calls ----

  /** What can happen to a call: a profile, with or without a table of its own, progress of this leg or of
      one it originated, answer, bridging, changes of the channel, and the work done once it is over. */
  datatype Event =
    | Profile(given: Option<Times>)
    | RingReady | PreAnswer | PeerRingReady | PeerPreAnswer | ProgressCleared
    | Answer | Bridge
    | Hang(cause: nat) | Move(next: CS) | Finish

  /** A table nobody has used for a call yet. */
  predicate Unused(t: Times) { t.answered == 0 && t.hungup == 0 && t.progress == 0 && t.progressMedia == 0 }

  /** No hangup time without a report. */
  ghost predicate Unbilled(rec: CallRecord)
    reads rec
  {
    !rec.stamped && rec.profile.Some? ==> rec.profile.value.hungup == 0
  }

  /** What a report, once made, says about the record. */
  ghost predicate Billed(rec: CallRecord, r: Report)
    reads rec, rec.channel
    requires rec.Valid()
  {
    && rec.stamped && rec.profile.Some? && rec.profile.value.hungup != 0
    && Bills(r, rec.profile.value) && (Short(rec.profile.value) ==> Sensible(r))
  }

  method Handle(rec: CallRecord, e: Event, now: int) returns (report: Option<Report>)
    requires rec.Valid() && Unbilled(rec) && now >= rec.clock && now > 0 && (e.Move? ==> e.next != CS.None)
    requires e.Profile? && e.given.Some? ==>
               e.given.value.bridged <= now && (rec.profile.Some? || Unused(e.given.value))
    modifies rec, rec.channel
    ensures rec.Valid() && Unbilled(rec) && rec.clock <= now
    ensures e.Profile? || old(rec.profile).Some? ==> rec.profile.Some?
    ensures old(rec.profile).Some? ==> Fixed(old(rec.profile).value, rec.profile.value)
    ensures report.Some? ==> !old(rec.stamped) && Billed(rec, report.value)
    ensures old(rec.stamped) ==> rec.stamped
  {
    hide Bills, Waits, Sensible, Near;
    report := Option.None;
    match e {
      case Profile(given) => rec.SetCallerProfile(given, now);
      case RingReady => var _ := rec.MarkRingReady(now, null);
      case PreAnswer => var _ := rec.MarkPreAnswered(now, null);
      case PeerRingReady => rec.PeerRings(now);
      case PeerPreAnswer => rec.PeerPreAnswers(now);
      case ProgressCleared => rec.ClearProgress();
      case Answer => var _ := rec.MarkAnswered(now);
      case Bridge => rec.SetBridgeTime(now);
      case Hang(cause) => var _ := rec.HangUp(cause);
      case Move(next) => var _ := rec.SetState(next);
      case Finish =>
        if Over(rec.channel.state) {
          report := rec.HangupState(now);
        }
    }
  }

  ghost predicate Profiled(events: seq<Event>, i: nat) { exists k :: 0 <= k < i && k < |events| && events[k].Profile? }

  /** What the core sees to: the clock does not go back, bridge times are in the past, and the first profile
      of a call comes with an unused table. */
  ghost predicate Orderly(events: seq<Event>, clocks: seq<int>) {
    && |clocks| == |events| && (forall i :: 0 <= i < |clocks| ==> clocks[i] > 0)
    && (forall i, j :: 0 <= i < j < |clocks| ==> clocks[i] <= clocks[j])
    && (forall i :: 0 <= i < |events| ==> events[i].Move? ==> events[i].next != CS.None)
    && (forall i :: 0 <= i < |events| && events[i].Profile? && events[i].given.Some? ==>
          events[i].given.value.bridged <= clocks[i] && (Profiled(events, i) || Unused(events[i].given.value)))
  }

  ghost predicate AllFixed(trace: seq<Option<Times>>) {
    forall i, j :: 0 <= i <= j < |trace| && trace[i].Some? ==>
      trace[j].Some? && Fixed(trace[i].value, trace[j].value)
  }

  /** A whole call, whatever happens in whatever order: creation, answer and hangup times never change once
      set; there is at most one report; it bills the times that last, and it is sensible. */
  method Live(events: seq<Event>, clocks: seq<int>)
    returns (rec: CallRecord, reports: seq<Report>, trace: seq<Option<Times>>)
    requires Orderly(events, clocks)
    ensures rec.Valid() && |trace| == |events| + 1 && trace[|events|] == rec.profile
    ensures AllFixed(trace) && |reports| <= 1
    ensures reports != [] ==> Billed(rec, reports[0])
  {
    hide Bills, Waits, Sensible, Near;
    rec := new CallRecord();
    reports, trace := [], [rec.profile];
    for i := 0 to |events|
      invariant rec.Valid() && Unbilled(rec) && fresh(rec) && fresh(rec.channel)
      invariant (i < |events| ==> rec.clock <= clocks[i]) && (Profiled(events, i) ==> rec.profile.Some?)
      invariant |trace| == i + 1 && trace[i] == rec.profile && AllFixed(trace)
      invariant |reports| <= 1 && (reports != [] ==> Billed(rec, reports[0]))
    {
      var r := Handle(rec, events[i], clocks[i]);
      trace := trace + [rec.profile];
      if r.Some? {
        reports := reports + [r.value];
      } else if reports != [] {
        SameBill(reports[0], trace[i].value, rec.profile.value);
      }
    }
  }

  lemma SameBill(r: Report, a: Times, b: Times)
    requires a.created >= 0 && a.answered >= 0 && a.hungup > 0 && Fixed(a, b)
    ensures Bills(r, a) ==> Bills(r, b)
    ensures Short(a) == Short(b)
  {
    hide Span;
  }

  lemma BillAddsUp(t: Times, clock: int, over: bool)
    requires Ordered(t, clock, over) && t.hungup != 0
    ensures Span(t.created, t.hungup).msec == t.hungup / 1000 - t.created / 1000 <==> Short(t)
    ensures Short(t) ==>
              && NonNegative(Span(t.created, t.hungup)) && Rounded(Span(t.created, t.hungup))
              && Measures(Span(t.created, t.hungup), t.created, t.hungup)
    ensures Short(t) && t.answered != 0 ==>
              && NonNegative(Span(t.created, t.answered)) && NonNegative(Span(t.answered, t.hungup))
              && Rounded(Span(t.created, t.answered)) && Rounded(Span(t.answered, t.hungup))
              && Measures(Span(t.created, t.answered), t.created, t.answered)
              && Measures(Span(t.answered, t.hungup), t.answered, t.hungup)
              && Sum(Span(t.created, t.answered), Span(t.answered, t.hungup)) == Span(t.created, t.hungup)
  {
    Coarser(t.created, t.hungup);
    Int32Exact(t.hungup / 1000 - t.created / 1000);
    if Short(t) {
      SpansAddUp(t.created, if t.answered == 0 then t.created else t.answered, t.hungup);
    }
  }

  lemma BillMeans(r: Report, t: Times, clock: int, over: bool)
    requires Ordered(t, clock, over) && r.duration == Span(t.created, t.hungup)
    requires if t.answered == 0 then r.bill == r.legBill == r.answer == Zero
             else
               && r.legBill == r.duration && r.answer == Span(t.created, t.answered)
               && r.bill == Span(t.answered, t.hungup)
    ensures Bills(r, t)
  {
    hide Span, Rounded, Measures, Short;
    ZeroIsRounded();
    SpanIsExact(t.created, t.hungup);
    if t.hungup != 0 {
      BillAddsUp(t, clock, over);
    }
  }

  lemma WaitMeans(r: Report, t: Times, clock: int, over: bool)
    requires Ordered(t, clock, over)
    requires r.wait == if t.bridged > t.created then Span(t.created, t.bridged) else Zero
    requires r.progress == if t.progress != 0 then Span(t.created, t.progress) else Zero
    requires r.progressMedia == if t.progressMedia != 0 then Span(t.created, t.progressMedia) else Zero
    ensures Waits(r, t)
  {
    hide Span, Rounded, Measures, Near;
    ZeroIsRounded();
    PartIsNonNegative(t.created, t.bridged);
    PartIsNonNegative(t.created, t.progress);
    PartIsNonNegative(t.created, t.progressMedia);
  }

  lemma SpanIsExact(from: nat, to: nat)
    ensures Span(from, to).usec == to - from
  {
  }

  lemma PartIsNonNegative(from: nat, to: int)
    ensures from <= to && Near(from, to) ==>
              NonNegative(Span(from, to)) && Rounded(Span(from, to)) && Measures(Span(from, to), from, to)
  {
    if from <= to && Near(from, to) {
      SpansAddUp(from, from, to);
    }
  }

  /** The cast keeps the value modulo 2^32 and brings it into range. */
  lemma Int32Wraps(d: int)
    ensures -0x8000_0000 <= Int32(d) < 0x8000_0000 && (Int32(d) - d) % 0x1_0000_0000 == 0
  {
    var q := (d + 0x8000_0000) / 0x1_0000_0000;
    assert Int32(d) - d == -q * 0x1_0000_0000;
  }

  lemma Int32Exact(d: nat)
    ensures Int32(d) == d <==> d < 0x8000_0000
  {
  }

  /** Truncation happens to each time, not to each difference, so the parts add up exactly. */
  lemma SpansAddUp(c: nat, a: nat, h: nat)
    requires c <= a <= h && h / 1000 - c / 1000 < 0x8000_0000
    ensures var whole, first, second := Span(c, h), Span(c, a), Span(a, h);
            && NonNegative(whole) && NonNegative(first) && NonNegative(second) && Sum(first, second) == whole
            && Rounded(whole) && Rounded(first) && Rounded(second)
            && Measures(whole, c, h) && Measures(first, c, a) && Measures(second, a, h)
  {
    hide Int32;
    Coarser(c, a);
    Coarser(a, h);
    Coarser(c, h);
    Int32Exact(h / 1000 - c / 1000);
    Int32Exact(a / 1000 - c / 1000);
    Int32Exact(h / 1000 - a / 1000);
    Int32Exact(h / 1000000 - c / 1000000);
    Int32Exact(a / 1000000 - c / 1000000);
    Int32Exact(h / 1000000 - a / 1000000);
    Truncated(c, h);
    Truncated(c, a);
    Truncated(a, h);
  }

  lemma Truncated(x: nat, y: nat)
    ensures -1000000 < y - x - 1000000 * (y / 1000000 - x / 1000000) < 1000000
    ensures -1000 < y - x - 1000 * (y / 1000 - x / 1000) < 1000
  {
  }

  /** A call from 1 s to 31 s. */
  lemma HalfAMinute()
    ensures Span(1000000, 31000000) == Durations(30, 30000, 30000000)
  {
  }

  lemma Coarser(x: nat, y: nat)
    requires x <= y
    ensures 0 <= y / 1000000 - x / 1000000 <= y / 1000 - x / 1000
  {
    assert x / 1000000 == x / 1000 / 1000 && y / 1000000 == y / 1000 / 1000;
  }
}
