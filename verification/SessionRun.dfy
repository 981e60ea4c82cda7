/** The session thread (src/switch_core_state_machine.c): switch_core_session_run,
    switch_core_session_hangup_state and switch_core_session_reporting_state, with other
    actors calling switch_channel_perform_hangup and switch_channel_perform_set_state at any moment.

    The thread is a program counter over the points where another actor can slip in.  Other
    actors move the channel only by hangup or to states below CS_HANGUP. */
module SessionRun {
  import opened ChannelState

  const NEW_LOOPS: nat := 500
  const WRONG_CALL_STATE: nat := 101

  datatype Pc =
    | Top                     // about to read the state
    | Loaded(s: CS)           // state read, not yet acted on
    | Handling(s: CS)         // running_state set, inside the switch
    | InHangup                // hangup handlers running, forced from the loop
    | HangupDone              // about to move to CS_REPORTING
    | InReport                // reporting handlers running
    | ReportDone              // about to move to CS_DESTROY
    | End                     // about to compare the state with running_state
    | NewIdle                 // an idle pass in CS_NEW
    | Early(back: Pc)         // early hangup handlers running inside a call made at `back`
    | Done

  /** Channel, session flags, and what has happened so far. */
  datatype Sys = Sys(
    core: Core,
    running: CS,
    ssfHangup: bool,
    cfReporting: bool,
    newLoops: nat,
    pc: Pc,
    hangupRuns: nat,          // times the hangup handlers were started
    reportRuns: nat,          // times the reporting handlers were started
    late: nat,                // loop iterations begun in a state >= CS_HANGUP
    idle: nat                 // idle passes in CS_NEW
  )

  const Fresh: Sys := Sys(Core(New, 0, false), None, false, false, NEW_LOOPS, Top, 0, 0, 0, 0)

  /** hangup called on the session's own thread: with early hangup enabled its handlers run
      inside the call, unless they have run before. */
  function SelfHangup(s: Sys, cause: nat, early: bool): Sys {
    var fired := !s.core.hung && !Over(s.core.state);
    var t := s.(core := HangUp(s.core, cause));
    if fired && early && !s.ssfHangup then t.(pc := Early(s.pc), hangupRuns := s.hangupRuns + 1) else t
  }

  /** hangup called from another thread never runs handlers. */
  function OtherHangup(s: Sys, cause: nat): Sys { s.(core := HangUp(s.core, cause)) }

  datatype Step = Next(sys: Sys) | Abort

  function Moved(s: Sys, next: CS, pc: Pc): Step {
    match SetTo(s.core, next)
    case Ok(c) => Next(s.(core := c, pc := pc))
    case Crash => Abort
  }

  /** One step of the thread itself.  Handlers of the ordinary states do their work as
      self-made calls while the counter stands at Handling. */
  function Thread(s: Sys, early: bool): Step {
    match s.pc
    case Top =>
      if s.core.state == Destroy then Next(s.(pc := Done))
      else Next(s.(pc := Loaded(s.core.state), late := if Over(s.core.state) then s.late + 1 else s.late))
    case Loaded(st) =>
      if st != s.running || Over(st) then Next(s.(running := st, pc := Handling(st))) else Next(s.(pc := End))
    case Handling(st) =>
      (match st
       case Hangup =>
         if s.ssfHangup then Next(s.(pc := HangupDone)) else Next(s.(pc := InHangup, hangupRuns := s.hangupRuns + 1))
       case Reporting =>
         if s.cfReporting then Next(s.(pc := ReportDone))
         else Next(s.(pc := InReport, cfReporting := true, reportRuns := s.reportRuns + 1))
       case Destroy => Next(s.(pc := Done))
       case None => Abort
       case _ => Next(s.(pc := End)))
    case InHangup => Next(s.(ssfHangup := true, pc := HangupDone))
    case HangupDone => Moved(s, Reporting, End)
    case InReport => Next(s.(pc := ReportDone))
    case ReportDone => Moved(s, Destroy, Done)
    case End => Next(s.(pc := if s.core.state == s.running == New then NewIdle else Top))
    case NewIdle =>
      if s.newLoops == 0 then Abort
      else
        var t := s.(newLoops := s.newLoops - 1, idle := s.idle + 1, pc := Top);
        Next(if t.newLoops == 0 then SelfHangup(t, WRONG_CALL_STATE, early) else t)
    case Early(back) => Next(s.(ssfHangup := true, pc := back))
    case Done => Next(s)
  }

  datatype Action =
    | ThreadStep(early: bool)
    | SelfHangs(cause: nat, early: bool)
    | OtherHangs(cause: nat)
    | Sets(next: CS)

  /** What anyone can do next; after Done the thread itself does nothing more. */
  function Act(s: Sys, a: Action): Step {
    match a
    case ThreadStep(early) => Thread(s, early)
    case SelfHangs(cause, early) => if s.pc == Done then Next(s) else Next(SelfHangup(s, cause, early))
    case OtherHangs(cause) => Next(OtherHangup(s, cause))
    case Sets(next) => Moved(s, next, s.pc)
  }

  predicate Permitted(a: Action) { a.Sets? ==> !Over(a.next) }

  // ---- The invariant ----

  /** Where the thread can stand while the channel is still below CS_HANGUP. */
  ghost predicate Calm(pc: Pc) {
    match pc
    case Top => true
    case Loaded(st) => !Over(st)
    case Handling(st) => !Over(st)
    case End => true
    case NewIdle => true
    case _ => false
  }

  ghost predicate PcFits(s: Sys) {
    match s.core.state
    case Hangup =>
      (match s.pc
       case InHangup => !s.ssfHangup && s.late == 1 && s.hangupRuns == 1 && s.running == Hangup
       case HangupDone => s.ssfHangup && s.late == 1 && s.hangupRuns == 1 && s.running == Hangup
       case Early(back) => Calm(back) && !s.ssfHangup && s.late == 0 && s.hangupRuns == 1
       case pc =>
         && s.hangupRuns == (if s.ssfHangup then 1 else 0) && (pc == Handling(Hangup) ==> s.running == Hangup)
         && (if pc == Loaded(Hangup) || pc == Handling(Hangup) then s.late == 1 else Calm(pc) && s.late == 0))
    case Reporting =>
      && s.ssfHangup && s.hangupRuns == 1
      && (if s.pc == Loaded(Reporting) || s.pc == Handling(Reporting) || s.pc == InReport || s.pc == ReportDone
          then s.late == 2
          else (s.pc == End || s.pc == Top) && s.running == Hangup && s.late == 1)
      && (s.cfReporting <==> s.pc == InReport || s.pc == ReportDone)
    case Destroy =>
      s.pc == Done && s.ssfHangup && s.hangupRuns == 1 && s.cfReporting && s.late == 2
    case _ =>
      Calm(s.pc) && !s.ssfHangup && s.hangupRuns == 0 && s.late == 0
  }

  ghost predicate Inv(s: Sys) {
    && Consistent(s.core) && (Over(s.core.state) <==> s.core.hung)
    && PcFits(s)
    && s.reportRuns == (if s.cfReporting then 1 else 0)
    && (Rank(s.core.state) < Rank(Reporting) ==> !s.cfReporting)
    && s.idle + s.newLoops == NEW_LOOPS
    && (s.newLoops == 0 ==> Over(s.core.state))
    && (s.pc == NewIdle || s.pc == Early(NewIdle) ==> s.newLoops > 0)
  }

  lemma FreshInv()
    ensures Inv(Fresh)
  {
  }

  lemma ThreadKeepsInv(s: Sys, early: bool)
    requires Inv(s)
    ensures Thread(s, early).Next? && Inv(Thread(s, early).sys)
  {
    hide Inv, Thread;
    match s.pc {
      case Top => WalkKeepsInv(s, early);
      case Loaded(_) => WalkKeepsInv(s, early);
      case Handling(st) => if Over(st) { TeardownKeepsInv(s, early); } else { WalkKeepsInv(s, early); }
      case End => WalkKeepsInv(s, early);
      case NewIdle => NewIdleKeepsInv(s, early);
      case InHangup => HangupKeepsInv(s, early);
      case HangupDone => HangupKeepsInv(s, early);
      case Early(_) => HangupKeepsInv(s, early);
      case _ => ReportKeepsInv(s, early);
    }
  }

  /** The thread has only walked on: nothing but its own position and its count of late iterations changed. */
  ghost predicate Walked(s: Sys, t: Sys) {
    && t == s.(running := t.running, pc := t.pc, late := t.late)
    && !t.pc.Early? && (t.pc == NewIdle ==> !Over(s.core.state)) && PcFits(t)
  }

  lemma WalkedKeepsInv(s: Sys, t: Sys)
    requires Inv(s) && Walked(s, t)
    ensures Inv(t)
  {
    hide PcFits, Over, Rank;
  }

  predicate Walks(pc: Pc) { pc.Top? || pc.Loaded? || (pc.Handling? && !Over(pc.s)) || pc.End? }

  lemma WalkKeepsInv(s: Sys, early: bool)
    requires Inv(s) && Walks(s.pc)
    ensures Thread(s, early).Next? && Inv(Thread(s, early).sys)
  {
    hide Thread, Over, Rank, PcFits, Walked;
    match s.pc {
      case Top => TopWalks(s, early);
      case Loaded(_) => LoadedWalks(s, early);
      case Handling(_) => HandlingWalks(s, early);
      case End => EndWalks(s, early);
    }
    WalkedKeepsInv(s, Thread(s, early).sys);
  }

  lemma TopWalks(s: Sys, early: bool)
    requires PcFits(s) && s.core.state != None && s.pc == Top
    ensures Thread(s, early).Next? && Walked(s, Thread(s, early).sys)
  {
  }

  lemma LoadedWalks(s: Sys, early: bool)
    requires PcFits(s) && s.core.state != None && s.pc.Loaded?
    ensures Thread(s, early).Next? && Walked(s, Thread(s, early).sys)
  {
  }

  lemma HandlingWalks(s: Sys, early: bool)
    requires PcFits(s) && s.core.state != None && s.pc.Handling? && !Over(s.pc.s)
    ensures Thread(s, early).Next? && Walked(s, Thread(s, early).sys)
  {
  }

  lemma EndWalks(s: Sys, early: bool)
    requires PcFits(s) && s.core.state != None && s.pc == End
    ensures Thread(s, early).Next? && Walked(s, Thread(s, early).sys)
  {
  }

  lemma TeardownKeepsInv(s: Sys, early: bool)
    requires Inv(s) && s.pc.Handling? && Over(s.pc.s)
    ensures Thread(s, early).Next? && Inv(Thread(s, early).sys)
  {
  }

  lemma HangupKeepsInv(s: Sys, early: bool)
    requires Inv(s) && (s.pc.InHangup? || s.pc.HangupDone? || s.pc.Early?)
    ensures Thread(s, early).Next? && Inv(Thread(s, early).sys)
  {
    assert s.core.state == Hangup;
  }

  lemma NewIdleKeepsInv(s: Sys, early: bool)
    requires Inv(s) && s.pc == NewIdle
    ensures Thread(s, early).Next? && Inv(Thread(s, early).sys)
  {
  }

  lemma ReportKeepsInv(s: Sys, early: bool)
    requires Inv(s) && (s.pc.InReport? || s.pc.ReportDone? || s.pc.Done?)
    ensures Thread(s, early).Next? && Inv(Thread(s, early).sys)
  {
    assert s.core.state == if s.pc.Done? then Destroy else Reporting;
  }

  lemma SelfHangupKeepsInv(s: Sys, cause: nat, early: bool)
    requires Inv(s) && s.pc != Done
    ensures Inv(SelfHangup(s, cause, early))
  {
  }

  lemma OtherHangupKeepsInv(s: Sys, cause: nat)
    requires Inv(s)
    ensures Inv(OtherHangup(s, cause))
  {
  }

  lemma SetKeepsInv(s: Sys, next: CS)
    requires Inv(s) && !Over(next) && Moved(s, next, s.pc).Next?
    ensures Inv(Moved(s, next, s.pc).sys)
  {
  }

  lemma ActKeepsInv(s: Sys, a: Action)
    requires Inv(s) && Permitted(a) && Act(s, a).Next?
    ensures Inv(Act(s, a).sys)
  {
    hide Inv, Thread, SelfHangup, OtherHangup, Moved;
    match a {
      case ThreadStep(early) => ThreadKeepsInv(s, early);
      case SelfHangs(cause, early) => if s.pc != Done { SelfHangupKeepsInv(s, cause, early); }
      case OtherHangs(cause) => OtherHangupKeepsInv(s, cause);
      case Sets(next) => SetKeepsInv(s, next);
    }
  }

  // ---- Whole runs ----

  ghost predicate IsTrace(ss: seq<Sys>, acts: seq<Action>) {
    && |ss| == |acts| + 1
    && forall i :: 0 <= i < |acts| ==> Permitted(acts[i]) && Act(ss[i], acts[i]) == Next(ss[i + 1])
  }

  lemma {:induction false} TraceInv(ss: seq<Sys>, acts: seq<Action>, i: nat)
    requires IsTrace(ss, acts) && Inv(ss[0]) && i < |ss|
    ensures Inv(ss[i])
  {
    hide Inv, Act;
    if i > 0 {
      TraceInv(ss, acts, i - 1);
      assert Act(ss[i - 1], acts[i - 1]) == Next(ss[i - 1 + 1]);
      ActKeepsInv(ss[i - 1], acts[i - 1]);
    }
  }

  /** Over every interleaving: a thread that exits has run the hangup handlers exactly once and the
      reporting handlers exactly once, leaves the channel in CS_DESTROY, and began exactly two
      iterations after CS_HANGUP; reporting never starts before the hangup handlers have finished;
      and 500 idle passes in CS_NEW are enough to hang the channel up. */
  lemma ExactlyOnce(ss: seq<Sys>, acts: seq<Action>, i: nat)
    requires IsTrace(ss, acts) && ss[0] == Fresh && i < |ss|
    ensures var s := ss[i];
            && s.hangupRuns <= 1 && s.reportRuns <= 1 && s.late <= 2
            && (s.reportRuns == 1 ==> s.ssfHangup && s.hangupRuns == 1)
            && (s.pc == Done ==> s.core.state == Destroy && s.hangupRuns == 1 && s.reportRuns == 1 && s.late == 2)
            && s.idle <= NEW_LOOPS && (s.idle == NEW_LOOPS ==> Over(s.core.state))
  {
    FreshInv();
    TraceInv(ss, acts, i);
  }

  /** The loop's own state changes are never the invalid ones that crash the process. */
  lemma ThreadNeverAborts(ss: seq<Sys>, acts: seq<Action>, i: nat, early: bool)
    requires IsTrace(ss, acts) && ss[0] == Fresh && i < |ss|
    ensures Thread(ss[i], early).Next?
  {
    FreshInv();
    TraceInv(ss, acts, i);
    ThreadKeepsInv(ss[i], early);
  }

  // ---- What the steps get done ----

  /** A state that differs from the one handled last, or is a teardown state, is handled before it is read
      again; any other pass goes by without a handler. */
  lemma StateIsHandled(s: Sys, early: bool)
    requires Inv(s) && s.pc == Top
    ensures var s1 := Thread(s, early).sys;
            && s1.pc == Loaded(s.core.state) && s1.core == s.core
            && var s2 := Thread(s1, early).sys;
               && (s2.pc == Handling(s.core.state) <==> s.core.state != s.running || Over(s.core.state))
               && (s2.pc != Handling(s.core.state) ==> s2.pc == End)
               && s2.running == s.core.state && s2.core == s.core
  {
    assert s.core.state != Destroy;
  }

  /** A hangup by anybody takes effect at once on a channel below CS_HANGUP, and never again. */
  lemma HangupTakes(s: Sys, cause: nat, early: bool)
    requires Inv(s) && s.pc != Done
    ensures var self, other := Act(s, SelfHangs(cause, early)), Act(s, OtherHangs(cause));
            && self.Next? && other.Next?
            && self.sys.core == other.sys.core == (if Over(s.core.state) then s.core else Core(Hangup, cause, true))
            && other.sys == s.(core := other.sys.core)
  {
  }

  /** A state change by somebody else moves the channel and nothing else, and comes too late after CS_HANGUP. */
  lemma SetTakes(s: Sys, next: CS)
    requires Inv(s) && Permitted(Sets(next)) && Act(s, Sets(next)).Next?
    ensures Act(s, Sets(next)).sys == if Over(s.core.state) then s else s.(core := s.core.(state := next))
  {
  }

  /** With early hangup enabled the handlers run inside the call, once; the thread then goes on where it was. */
  lemma EarlyHandlersRun(s: Sys, cause: nat, early: bool)
    requires Inv(s) && s.pc != Done && !Over(s.core.state)
    ensures var s1 := Act(s, SelfHangs(cause, early)).sys;
            if early then
              && s1.pc == Early(s.pc) && s1.hangupRuns == 1 && !s1.ssfHangup
              && var s2 := Thread(s1, early).sys; s2 == s1.(ssfHangup := true, pc := s.pc)
            else s1.pc == s.pc && s1.hangupRuns == 0
  {
  }

  /** Only the five-hundredth idle pass makes the thread itself hang up. */
  lemma ThreadHangsUpOnlyIdle(s: Sys, early: bool)
    requires Inv(s) && !Over(s.core.state) && Over(Thread(s, early).sys.core.state)
    ensures Thread(s, early).Next?
    ensures Thread(s, early).sys.idle == NEW_LOOPS && Thread(s, early).sys.core == Core(Hangup, WRONG_CALL_STATE, true)
  {
    ThreadKeepsInv(s, early);
  }

  // ---- A channel that nobody moves ----

  const IDLE_STEPS: nat := 4 * NEW_LOOPS + 1

  /** Still in CS_NEW, with a thread that goes round. */
  ghost predicate Idling(s: Sys) {
    && s.core == Core(New, 0, false) && s.newLoops > 0 && s.idle + s.newLoops == NEW_LOOPS
    && (s.pc == Top || s.pc == Loaded(New)
        || ((s.pc == Handling(New) || s.pc == End || s.pc == NewIdle) && s.running == New))
  }

  /** Thread steps left until the hangup. */
  ghost function ToHangup(s: Sys): nat
    requires Idling(s)
  {
    4 * (s.newLoops - 1) +
    match s.pc
    case Top => if s.running == New then 4 else 5
    case Loaded(_) => if s.running == New then 3 else 4
    case Handling(_) => 3
    case End => 2
    case _ => 1
  }

  /** Hung up by the thread itself, with no idle pass left. */
  ghost predicate GivenUp(s: Sys) {
    Over(s.core.state) && s.core.cause == 101 && s.idle == 500 && s.newLoops == 0
  }

  lemma FreshIdles()
    ensures Idling(Fresh) && ToHangup(Fresh) == IDLE_STEPS
  {
  }

  lemma IdleStep(s: Sys, early: bool)
    requires Idling(s)
    ensures var t := Thread(s, early);
            t.Next? && if ToHangup(s) == 1 then GivenUp(t.sys) else Idling(t.sys) && ToHangup(t.sys) == ToHangup(s) - 1
  {
  }

  lemma GivenUpStays(s: Sys, early: bool)
    requires Inv(s) && GivenUp(s) && Thread(s, early).Next?
    ensures GivenUp(Thread(s, early).sys)
  {
    ThreadCountsDown(s, early);
  }

  /** Left alone, the thread counts every pass in CS_NEW and hangs the channel up on the five-hundredth:
      after exactly 2001 of its steps, and not one earlier. */
  lemma {:induction false} IdleChannelIsHungUp(ss: seq<Sys>, acts: seq<Action>, i: nat)
    requires IsTrace(ss, acts) && ss[0] == Fresh && i < |ss|
    requires forall k :: 0 <= k < |acts| ==> acts[k].ThreadStep?
    ensures if i < 2001 then Idling(ss[i]) && ToHangup(ss[i]) == 2001 - i else GivenUp(ss[i])
  {
    hide Inv, Thread, Idling, GivenUp, ToHangup;
    FreshIdles();
    if i > 0 {
      IdleChannelIsHungUp(ss, acts, i - 1);
      var s, a := ss[i - 1], acts[i - 1];
      assert Act(s, a) == Next(ss[i - 1 + 1]);
      if i - 1 < IDLE_STEPS {
        IdleStep(s, a.early);
      } else {
        FreshInv();
        TraceInv(ss, acts, i - 1);
        GivenUpStays(s, a.early);
      }
    }
  }

  // ---- From CS_HANGUP to the exit ----

  /** Thread steps left once teardown has begun. */
  ghost function Remaining(s: Sys): nat {
    if s.pc == Done then 0
    else if s.core.state != Reporting then Before(s.pc)
    else if s.pc == ReportDone then 1
    else if s.pc == InReport then 2
    else if s.pc.Handling? then 3
    else if s.pc.Loaded? then 4
    else if s.pc == Top then 5
    else 6
  }

  ghost function Before(pc: Pc): (n: nat)
    ensures n > 6
  {
    match pc
    case HangupDone => 7
    case InHangup => 8
    case Handling(st) => if st == Hangup then 9 else 13
    case Loaded(st) => if st == Hangup then 10 else 14
    case Top => 11
    case Early(back) => Before(back) + 1
    case _ => 12
  }

  lemma ThreadCountsDown(s: Sys, early: bool)
    requires Inv(s) && Over(s.core.state)
    ensures Thread(s, early).Next? && Over(Thread(s, early).sys.core.state)
    ensures s.pc != Done ==> Remaining(Thread(s, early).sys) < Remaining(s)
    ensures s.pc == Done ==> Thread(s, early).sys == s
  {
    match s.core.state {
      case Hangup => HangupCountsDown(s, early);
      case Reporting => ReportingCountsDown(s, early);
      case _ =>
    }
  }

  lemma HangupCountsDown(s: Sys, early: bool)
    requires Inv(s) && s.core.state == Hangup
    ensures Thread(s, early).Next? && Over(Thread(s, early).sys.core.state)
    ensures s.pc != Done && Remaining(Thread(s, early).sys) < Remaining(s)
  {
  }

  lemma ReportingCountsDown(s: Sys, early: bool)
    requires PcFits(s) && s.core.state == Reporting
    ensures Thread(s, early).Next? && Over(Thread(s, early).sys.core.state)
    ensures s.pc != Done && Remaining(Thread(s, early).sys) < Remaining(s)
  {
  }

  lemma OthersDoNotDelay(s: Sys, a: Action)
    requires Inv(s) && Over(s.core.state) && Permitted(a) && !a.ThreadStep? && Act(s, a).Next?
    ensures Act(s, a).sys == s
  {
  }

  ghost function ThreadSteps(acts: seq<Action>): nat {
    if acts == [] then 0 else ThreadSteps(acts[..|acts| - 1]) + (if acts[|acts| - 1].ThreadStep? then 1 else 0)
  }

  /** Once CS_HANGUP is reached nobody can hold the thread back: after at most fifteen of its
      own steps it has exited, whatever the others do in between. */
  lemma {:induction false} TeardownEnds(ss: seq<Sys>, acts: seq<Action>)
    requires IsTrace(ss, acts) && Inv(ss[0]) && Over(ss[0].core.state)
    ensures Inv(ss[|acts|]) && Over(ss[|acts|].core.state)
    ensures ss[|acts|].pc == Done || Remaining(ss[|acts|]) + ThreadSteps(acts) <= Remaining(ss[0])
    ensures Remaining(ss[0]) <= 15
    ensures ThreadSteps(acts) >= 15 ==> ss[|acts|].pc == Done
  {
    hide Inv, Act, Remaining;
    var n := |acts|;
    if n == 0 {
      AtMostFifteen(ss[0]);
    } else {
      TeardownEnds(ss[..n], acts[..n - 1]);
      var s, a := ss[n - 1], acts[n - 1];
      assert Act(s, a) == Next(ss[n]);
      ActKeepsInv(s, a);
      StepCountsDown(s, a);
    }
    RemainingIsPositive(ss[n]);
  }

  lemma AtMostFifteen(s: Sys)
    requires Inv(s) && Over(s.core.state)
    ensures Remaining(s) <= 15
  {
  }

  lemma RemainingIsPositive(s: Sys)
    ensures s.pc != Done ==> Remaining(s) > 0
  {
  }

  lemma StepCountsDown(s: Sys, a: Action)
    requires Inv(s) && Over(s.core.state) && Permitted(a) && Act(s, a).Next?
    ensures Over(Act(s, a).sys.core.state)
    ensures s.pc == Done ==> Act(s, a).sys.pc == Done
    ensures s.pc != Done ==> Remaining(Act(s, a).sys) + (if a.ThreadStep? then 1 else 0) <= Remaining(s)
  {
    hide Inv, Thread, Remaining;
    if a.ThreadStep? {
      ThreadCountsDown(s, a.early);
    } else {
      OthersDoNotDelay(s, a);
    }
  }
}
