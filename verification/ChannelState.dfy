/** Channel state changes (src/switch_channel.c): switch_channel_perform_set_state and
    switch_channel_perform_hangup. */
module ChannelState {

  datatype CS =
    | New | Init | Routing | SoftExecute | Execute | ExchangeMedia | Park | ConsumeMedia
    | Hibernate | Reset | Hangup | Reporting | Destroy | None

  function Rank(s: CS): nat {
    match s
    case New => 0 case Init => 1 case Routing => 2 case SoftExecute => 3 case Execute => 4
    case ExchangeMedia => 5 case Park => 6 case ConsumeMedia => 7 case Hibernate => 8 case Reset => 9
    case Hangup => 10 case Reporting => 11 case Destroy => 12 case None => 13
  }

  predicate Over(s: CS) { Rank(s) >= Rank(Hangup) }

  const NORMAL_CLEARING: nat := 16

  predicate Working(s: CS) {
    s in {ExchangeMedia, SoftExecute, Routing, Execute, Park, ConsumeMedia, Hibernate, Reset}
  }

  /** The transition table, for two different states. */
  predicate Allowed(last: CS, next: CS) {
    match last
    case New => true
    case Reset => true
    case Hibernate => Working(next) || next == Init
    case Hangup => next == Reporting || next == Destroy
    case Reporting => next == Destroy
    case Destroy => false
    case None => false
    case _ => Working(next)
  }

  /** The table row by row: below CS_HANGUP anything goes from NEW and RESET, and otherwise the states from
      ROUTING to RESET, and INIT from HIBERNATE; teardown only goes on. */
  lemma AllowedExactly(last: CS, next: CS)
    ensures !Over(last) ==>
              (Allowed(last, next) <==>
                 || last == New || last == Reset || 2 <= Rank(next) <= 9
                 || (last == Hibernate && next == Init))
    ensures Over(last) ==> (Allowed(last, next) <==> Rank(last) < Rank(next) <= 12)
  {
  }

  /** Channel state, hangup cause (0 is NONE), and the one-per-customer hangup flag. */
  datatype Core = Core(state: CS, cause: nat, hung: bool)

  datatype Outcome = Ok(core: Core) | Crash

  /** An invalid change is fatal, unless the channel is already being torn down. */
  function SetTo(c: Core, next: CS): Outcome {
    if c.state == next || (Over(c.state) && Rank(next) < Rank(c.state)) then Ok(c)
    else if Allowed(c.state, next) then
      Ok(c.(state := next, cause := if next == Hangup && c.cause == 0 then NORMAL_CLEARING else c.cause))
    else if Over(c.state) then Ok(c)
    else Crash
  }

  /** The changes that abort the process: below CS_HANGUP, from a state other than NEW and RESET, to another
      state that is neither one from ROUTING to RESET nor INIT after HIBERNATE. */
  predicate Fatal(last: CS, next: CS) {
    && !Over(last) && next != last && last != New && last != Reset
    && !(2 <= Rank(next) <= 9) && !(last == Hibernate && next == Init)
  }

  /** A channel moved straight to CS_HANGUP is given the cause 16, normal clearing. */
  lemma DefaultCause(c: Core)
    requires (c.state == New || c.state == Reset) && c.cause == 0
    ensures SetTo(c, Hangup) == Ok(c.(state := Hangup, cause := 16))
  {
  }

  lemma FatalExactly(c: Core, next: CS)
    ensures SetTo(c, next) == Crash <==> Fatal(c.state, next)
  {
    AllowedExactly(c.state, next);
  }

  function Later(a: CS, b: CS): CS { if Rank(b) > Rank(a) then b else a }

  /** What a state change does, in the caller's terms. */
  lemma SetToMeans(c: Core, next: CS)
    requires next != None && c.state != None
    ensures var o := SetTo(c, next);
            && (Over(c.state) ==> o.Ok? && o.core.state == Later(c.state, next))
            && (!Over(c.state) && o.Ok? ==> o.core.state == next)
            && (o.Ok? && Over(o.core.state) && !Over(c.state) ==>
                  (c.state == New || c.state == Reset) && (next == Hangup ==> o.core.cause != 0))
            && (Consistent(c) ==> Settles(c, c) && (o.Ok? ==> Consistent(o.core) && Settles(c, o.core)))
  {
  }

  function HangUp(c: Core, cause: nat): Core {
    if c.hung || Over(c.state) then c.(hung := true) else Core(Hangup, cause, true)
  }

  class Channel {
    var state: CS
    var hangupCause: nat
    var ocfHangup: bool
    var blockState: bool

    function View(): Core
      reads this
    {
      Core(state, hangupCause, ocfHangup)
    }

    constructor ()
      ensures View() == Core(New, 0, false)
    {
      state, hangupCause, ocfHangup, blockState := New, 0, false, false;
    }

    method SetState(next: CS) returns (crashed: bool)
      requires next != None && state != None
      modifies this`state, this`hangupCause
      ensures crashed <==> SetTo(old(View()), next) == Crash
      ensures View() == if crashed then old(View()) else SetTo(old(View()), next).core
      ensures Consistent(old(View())) ==> Consistent(View()) && Settles(old(View()), View())
      ensures Over(old(state)) ==> !crashed && state == Later(old(state), next)
      ensures if crashed then !Allowed(old(state), next) else Over(old(state)) || state == next
      ensures crashed <==> Fatal(old(state), next)
      ensures Over(state) && !Over(old(state)) ==>
                (old(state) == New || old(state) == Reset) && (next == Hangup ==> hangupCause != 0)
    {
      SetToMeans(View(), next);
      FatalExactly(View(), next);
      hide Consistent, Settles, Allowed, Over, Rank, Later, Fatal;
      var last := state;
      if last == next {
        return false;
      }
      if Over(last) && Rank(next) < Rank(last) {
        return false;
      }
      if Allowed(last, next) {
        state := next;
        if next == Hangup && hangupCause == 0 {
          hangupCause := NORMAL_CLEARING;
        }
        return false;
      }
      crashed := !Over(state);
    }

    /** `fired` says whether this call is the one that hangs the channel up. */
    method PerformHangup(cause: nat) returns (fired: bool)
      modifies this
      ensures View() == HangUp(old(View()), cause)
      ensures fired <==> !old(ocfHangup) && !Over(old(state))
      ensures blockState == (old(ocfHangup) && old(blockState))
      ensures if fired then state == Hangup && hangupCause == cause
              else state == old(state) && hangupCause == old(hangupCause)
      ensures Consistent(old(View())) ==> Consistent(View()) && Settles(old(View()), View()) && Over(state) && ocfHangup
    {
      if ocfHangup {
        return false;
      }
      ocfHangup := true;
      blockState := false;
      fired := !Over(state);
      if fired {
        state := Hangup;
        hangupCause := cause;
      }
    }
  }

  // ---- Whole runs ----

  datatype Op = Set(next: CS) | HangupWith(cause: nat)

  function Apply(c: Core, op: Op): Outcome {
    match op
    case Set(next) => SetTo(c, next)
    case HangupWith(cause) => Ok(HangUp(c, cause))
  }

  ghost predicate Consistent(c: Core) {
    && c.state != None
    && (!Over(c.state) ==> c.cause == 0 && !c.hung)
  }

  /** States only rise, and the cause is frozen, once hangup is reached. */
  ghost predicate Settles(a: Core, b: Core) {
    Over(a.state) ==> Rank(a.state) <= Rank(b.state) && b.cause == a.cause
  }

  lemma StepSettles(c: Core, op: Op)
    requires Consistent(c) && (op.Set? ==> op.next != None) && Apply(c, op).Ok?
    ensures Consistent(Apply(c, op).core) && Settles(c, Apply(c, op).core)
  {
  }

  /** A run: cores cs[0], cs[1], … joined by operations, none of them fatal. */
  ghost predicate IsRun(cs: seq<Core>, ops: seq<Op>) {
    && |cs| == |ops| + 1
    && forall i :: 0 <= i < |ops| ==> (ops[i].Set? ==> ops[i].next != None) && Apply(cs[i], ops[i]) == Ok(cs[i + 1])
  }

  /** Over every run: no cause before hangup, no way back after it, and one cause for good. */
  lemma {:induction false} RunSettles(cs: seq<Core>, ops: seq<Op>, i: nat, j: nat)
    requires IsRun(cs, ops) && Consistent(cs[0]) && i <= j < |cs|
    ensures Consistent(cs[i]) && Consistent(cs[j]) && Settles(cs[i], cs[j])
    decreases j
  {
    if j > 0 {
      RunSettles(cs, ops, 0, j - 1);
      assert Apply(cs[j - 1], ops[j - 1]) == Ok(cs[j - 1 + 1]);
      StepSettles(cs[j - 1], ops[j - 1]);
      if i < j {
        RunSettles(cs, ops, i, j - 1);
      }
    }
  }

  /** A channel driven by any calls, in any order, up to the first fatal one: the states it goes through
      are a run, so they are settled between any two points, and only a channel below hangup aborts. */
  method Drive(ops: seq<Op>) returns (ch: Channel, trace: seq<Core>)
    requires forall i :: 0 <= i < |ops| ==> ops[i].Set? ==> ops[i].next != None
    ensures 0 < |trace| <= |ops| + 1 && IsRun(trace, ops[..|trace| - 1])
    ensures trace[0] == Core(New, 0, false) && ch.View() == trace[|trace| - 1]
    ensures forall i, j :: 0 <= i <= j < |trace| ==> Consistent(trace[j]) && Settles(trace[i], trace[j])
    ensures |trace| <= |ops| ==> !Over(ch.state) && ops[|trace| - 1].Set? && !Allowed(ch.state, ops[|trace| - 1].next)
  {
    hide SetTo, HangUp, Allowed, Over, Rank, Settles, Later;
    ch := new Channel();
    trace := [ch.View()];
    for i := 0 to |ops|
      invariant |trace| == i + 1 && IsRun(trace, ops[..i])
      invariant trace[0] == Core(New, 0, false) && ch.View() == trace[i]
    {
      RunSettles(trace, ops[..i], i, i);
      match ops[i] {
        case Set(next) =>
          var crashed := ch.SetState(next);
          if crashed {
            AlwaysSettled(trace, ops[..i]);
            return;
          }
        case HangupWith(cause) =>
          var _ := ch.PerformHangup(cause);
      }
      trace := trace + [ch.View()];
    }
    AlwaysSettled(trace, ops[..|ops|]);
  }

  lemma AlwaysSettled(cs: seq<Core>, ops: seq<Op>)
    requires IsRun(cs, ops) && Consistent(cs[0])
    ensures forall i, j :: 0 <= i <= j < |cs| ==> Consistent(cs[j]) && Settles(cs[i], cs[j])
  {
    forall i, j | 0 <= i <= j < |cs|
      ensures Consistent(cs[j]) && Settles(cs[i], cs[j])
    {
      RunSettles(cs, ops, i, j);
    }
  }

  /** Only perform_hangup, or a change from NEW or RESET, can start the teardown. */
  lemma WhoStartsTeardown(c: Core, op: Op)
    requires Consistent(c) && !Over(c.state) && Apply(c, op).Ok? && Over(Apply(c, op).core.state)
    ensures op.HangupWith? || c.state == New || c.state == Reset
    ensures op.HangupWith? ==> Apply(c, op).core == Core(Hangup, op.cause, true)
  {
  }
}
