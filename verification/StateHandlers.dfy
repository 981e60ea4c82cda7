/** The channel's table of state handlers (src/switch_channel.c) and the order in which
    STATE_MACRO (src/switch_core_state_machine.c) calls the handlers of one state. */
module StateHandlers {
  import opened Common
  import opened ChannelState

  const MAX_STATE_HANDLERS: nat := 30

  /** A table's entry for the state at hand: absent, or a callback that succeeds or vetoes
      and may leave the channel in another state. */
  datatype Hook = Absent | Hook(ok: bool, to: Option<CS>)

  class Handler {
    const sticky: bool
    const hook: Hook

    constructor (sticky: bool, hook: Hook)
      ensures this.sticky == sticky && this.hook == hook
    {
      this.sticky, this.hook := sticky, hook;
    }
  }

  // ---- The table ----

  /** The slot array and state_handler_index. */
  datatype Table = Table(slots: seq<Handler?>, index: nat)

  /** What clear carries over: everything but `h` (empty slots included), or, for NULL, the sticky handlers. */
  predicate Stays(x: Handler?, h: Handler?) { if h != null then x != h else x != null && x.sticky }

  ghost function Kept(s: seq<Handler?>, h: Handler?): (r: seq<Handler?>)
    ensures |r| <= |s|
  {
    if s == [] then []
    else
      var last := s[|s| - 1];
      Kept(s[..|s| - 1], h) + (if Stays(last, h) then [last] else [])
  }

  ghost function Padded(s: seq<Handler?>): (r: seq<Handler?>)
    requires |s| <= MAX_STATE_HANDLERS
    ensures |r| == MAX_STATE_HANDLERS
  {
    s + seq(MAX_STATE_HANDLERS - |s|, _ => null)
  }

  ghost function Empty(): Table { Table(Padded([]), 0) }

  ghost function Added(t: Table, h: Handler): (r: (Table, bool))
    requires |t.slots| == MAX_STATE_HANDLERS
    ensures |r.0.slots| == MAX_STATE_HANDLERS
  {
    if h in t.slots then (t, true)
    else if t.index + 1 >= MAX_STATE_HANDLERS then (t.(index := t.index + 1), false)
    else (Table(t.slots[t.index := h], t.index + 1), true)
  }

  ghost function Cleared(t: Table, h: Handler?): (r: Table)
    requires |t.slots| == MAX_STATE_HANDLERS && t.index <= MAX_STATE_HANDLERS
    ensures |r.slots| == MAX_STATE_HANDLERS
  {
    Table(Padded(Kept(t.slots[..t.index], h)), |Kept(t.slots[..t.index], h)|)
  }

  class HandlerTable {
    const slots: array<Handler?>
    var index: nat

    ghost predicate Valid() { slots.Length == MAX_STATE_HANDLERS }

    ghost function View(): (t: Table)
      requires Valid()
      reads this, slots
      ensures |t.slots| == MAX_STATE_HANDLERS
    {
      Table(slots[..], index)
    }

    constructor ()
      ensures Valid() && View() == Empty() && fresh(slots)
    {
      slots := new Handler?[MAX_STATE_HANDLERS](_ => null);
      index := 0;
    }

    /** A refused add still moves the index. */
    method Add(h: Handler) returns (r: int)
      requires Valid()
      modifies this, slots
      ensures View() == Added(old(View()), h).0 && (r >= 0 <==> Added(old(View()), h).1)
      ensures r >= 0 ==> r < MAX_STATE_HANDLERS && slots[r] == h
    {
      for x := 0 to MAX_STATE_HANDLERS
        invariant forall k :: 0 <= k < x ==> slots[k] != h
      {
        if slots[x] == h {
          return x;
        }
      }
      r := index;
      index := index + 1;
      if index >= MAX_STATE_HANDLERS {
        return -1;
      }
      slots[r] := h;
    }

    method Get(i: nat) returns (h: Handler?)
      requires Valid()
      ensures h == Lookup(View(), i)
      ensures Clean(View()) ==> if i < index then h != null && h == Registered(View())[i] else h == null
    {
      h := if i >= MAX_STATE_HANDLERS || i > index then null else slots[i];
    }

    /** More than one refused add would make this read past the table. */
    method Clear(h: Handler?)
      requires Valid() && index <= MAX_STATE_HANDLERS
      modifies this, slots
      ensures View() == Cleared(old(View()), h)
    {
      hide Kept;
      var carried := new Handler?[MAX_STATE_HANDLERS](_ => null);
      var i, n := index, 0;
      ghost var was := slots[..i];
      NoneKept(h);
      for x := 0 to i
        invariant 0 <= n <= x && n == |Kept(was[..x], h)| && carried[..n] == Kept(was[..x], h)
        invariant forall k :: n <= k < MAX_STATE_HANDLERS ==> carried[k] == null
        invariant slots[..i] == was
      {
        assert was[..x + 1] == was[..x] + [was[x]] && was[x] == slots[x];
        KeptSnoc(was[..x], was[x], h);
        if Stays(slots[x], h) {
          carried[n] := slots[x];
          n := n + 1;
        }
      }
      assert was[..i] == was;
      index := n;
      forall k | 0 <= k < MAX_STATE_HANDLERS {
        slots[k] := carried[k];
      }
      assert slots[..] == Padded(carried[..n]);
    }
  }

  ghost function Lookup(t: Table, i: nat): Handler?
    requires |t.slots| == MAX_STATE_HANDLERS
  {
    if i >= MAX_STATE_HANDLERS || i > t.index then null else t.slots[i]
  }

  // ---- While no add has been refused ----

  /** The handlers fill a gap-free prefix that ends at the index, without repeats. */
  ghost predicate Clean(t: Table) {
    && |t.slots| == MAX_STATE_HANDLERS && t.index < MAX_STATE_HANDLERS
    && (forall k :: 0 <= k < t.index ==> t.slots[k] != null)
    && (forall k :: t.index <= k < MAX_STATE_HANDLERS ==> t.slots[k] == null)
    && (forall i, j :: 0 <= i < j < t.index ==> t.slots[i] != t.slots[j])
  }

  ghost function Registered(t: Table): seq<Handler?>
    requires t.index <= |t.slots|
  {
    t.slots[..t.index]
  }

  lemma AddToClean(t: Table, h: Handler)
    requires Clean(t)
    ensures Added(t, h).1 <==> h in Registered(t) || t.index < MAX_STATE_HANDLERS - 1
    ensures Added(t, h).1 ==>
              && Clean(Added(t, h).0)
              && Registered(Added(t, h).0) == if h in Registered(t) then Registered(t) else Registered(t) + [h]
    ensures !Added(t, h).1 ==> Added(t, h).0 == t.(index := MAX_STATE_HANDLERS)
  {
    assert h in t.slots <==> h in Registered(t);
  }

  lemma {:induction false} KeptIsFilter(s: seq<Handler?>, h: Handler?)
    requires forall k :: 0 <= k < |s| ==> s[k] != null
    requires forall i, j :: 0 <= i < j < |s| ==> s[i] != s[j]
    ensures forall x :: x in Kept(s, h) <==> x in s && Stays(x, h)
    ensures forall i, j :: 0 <= i < j < |Kept(s, h)| ==> Kept(s, h)[i] != Kept(s, h)[j]
    ensures forall k :: 0 <= k < |Kept(s, h)| ==> Kept(s, h)[k] != null
    ensures h in s && h != null ==> |Kept(s, h)| == |s| - 1
    ensures h !in s && h != null ==> Kept(s, h) == s
  {
    if s != [] {
      var n := |s| - 1;
      KeptIsFilter(s[..n], h);
      assert s == s[..n] + [s[n]];
    }
  }

  lemma NoneKept(h: Handler?)
    ensures Kept([], h) == []
  {
  }

  /** What is kept stands in the order it had. */
  lemma {:induction false} KeptInOrder(s: seq<Handler?>, h: Handler?, i: nat, j: nat) returns (a: nat, b: nat)
    requires i < j < |Kept(s, h)|
    ensures a < b < |s| && s[a] == Kept(s, h)[i] && s[b] == Kept(s, h)[j]
  {
    var n := |s| - 1;
    var most := Kept(s[..n], h);
    if j < |most| {
      a, b := KeptInOrder(s[..n], h, i, j);
    } else {
      a := KeptFrom(s[..n], h, i);
      b := n;
    }
  }

  lemma {:induction false} KeptFrom(s: seq<Handler?>, h: Handler?, i: nat) returns (a: nat)
    requires i < |Kept(s, h)|
    ensures a < |s| && s[a] == Kept(s, h)[i]
  {
    var n := |s| - 1;
    if i < |Kept(s[..n], h)| {
      a := KeptFrom(s[..n], h, i);
    } else {
      a := n;
    }
  }

  /** Clearing a clean table leaves it clean; by a handler everything else stays, by NULL the sticky handlers. */
  lemma ClearClean(t: Table, h: Handler?)
    requires Clean(t)
    ensures Clean(Cleared(t, h)) && Registered(Cleared(t, h)) == Kept(Registered(t), h)
    ensures forall x: Handler :: x in Registered(Cleared(t, h)) <==>
              x in Registered(t) && if h != null then x != h else x.sticky
  {
    KeptIsFilter(Registered(t), h);
  }

  // ---- After a refused add ----

  /** What every run keeps, refusals or not: the last slot is never used, nothing lies behind the index,
      and no handler is there twice. */
  ghost predicate Sound(t: Table) {
    && |t.slots| == MAX_STATE_HANDLERS && t.slots[MAX_STATE_HANDLERS - 1] == null
    && (forall k :: t.index <= k < MAX_STATE_HANDLERS ==> t.slots[k] == null)
    && DistinctHandlers(t.slots)
  }

  ghost predicate DistinctHandlers(s: seq<Handler?>) {
    forall i, j :: 0 <= i < j < |s| && s[i] != null ==> s[i] != s[j]
  }

  ghost predicate Gap(t: Table, k: nat) { k < |t.slots| && k < t.index && t.slots[k] == null }

  /** A table is clean unless it has a gap. */
  lemma CleanIffNoGap(t: Table)
    requires Sound(t)
    ensures Clean(t) <==> forall k: nat :: !Gap(t, k)
  {
    if t.index >= MAX_STATE_HANDLERS {
      assert Gap(t, MAX_STATE_HANDLERS - 1);
    } else if !Clean(t) {
      assert exists k :: 0 <= k < t.index && t.slots[k] == null;
      var k :| 0 <= k < t.index && t.slots[k] == null;
      assert Gap(t, k);
    }
  }

  /** A gap in t, for a table that is not clean. */
  lemma TheGap(t: Table) returns (k: nat)
    requires Sound(t) && !Clean(t)
    ensures Gap(t, k)
  {
    CleanIffNoGap(t);
    k :| Gap(t, k);
  }

  lemma {:induction false} KeptKeepsDistinct(s: seq<Handler?>, h: Handler?)
    requires DistinctHandlers(s)
    ensures DistinctHandlers(Kept(s, h))
    ensures forall x :: x in Kept(s, h) ==> x in s && Stays(x, h)
  {
    if s != [] {
      var n := |s| - 1;
      assert s == s[..n] + [s[n]];
      KeptKeepsDistinct(s[..n], h);
    }
  }

  /** Clearing by handler carries every gap along; clearing with NULL drops them all. */
  lemma {:induction false} KeptGaps(s: seq<Handler?>, h: Handler?)
    ensures null in Kept(s, h) <==> null in s && h != null
  {
    if s != [] {
      var n := |s| - 1;
      assert s == s[..n] + [s[n]];
      KeptGaps(s[..n], h);
    }
  }

  /** Added and Cleared keep a table sound. */
  lemma AddKeepsSound(t: Table, h: Handler)
    requires Sound(t)
    ensures Sound(Added(t, h).0)
  {
  }

  lemma ClearKeepsSound(t: Table, h: Handler?)
    requires Sound(t) && t.index <= MAX_STATE_HANDLERS
    ensures Sound(Cleared(t, h))
  {
    var s := t.slots[..t.index];
    KeptKeepsDistinct(s, h);
    var k := Kept(s, h);
    if |k| == MAX_STATE_HANDLERS {
      AllKept(s, h);
    }
    assert forall i :: |k| <= i < MAX_STATE_HANDLERS ==> Padded(k)[i] == null;
    assert forall i :: 0 <= i < |k| ==> Padded(k)[i] == k[i];
  }

  lemma {:induction false} AllKept(s: seq<Handler?>, h: Handler?)
    requires |Kept(s, h)| == |s|
    ensures Kept(s, h) == s
  {
    if s != [] {
      var n := |s| - 1;
      AllKept(s[..n], h);
      assert s == s[..n] + [s[n]];
    }
  }

  /** A clear leaves a clean table exactly when it was clean before or the clear is by NULL. */
  lemma ClearCleansIff(t: Table, x: Handler?)
    requires Sound(t) && t.index <= MAX_STATE_HANDLERS
    ensures Clean(Cleared(t, x)) <==> Clean(t) || x == null
  {
    var s := t.slots[..t.index];
    var t1 := Cleared(t, x);
    ClearKeepsSound(t, x);
    KeptGaps(s, x);
    if Clean(t) {
      ClearClean(t, x);
    } else {
      var g := TheGap(t);
      assert s[g] == null;
      if x == null {
        CleanIffNoGap(t1);
      } else {
        var k :| 0 <= k < |Kept(s, x)| && Kept(s, x)[k] == null;
        assert Gap(t1, k);
        CleanIffNoGap(t1);
      }
    }
  }

  /** So one refused add is not forgotten: whichever handler is cleared, the slot stays lost, and only
      clearing with NULL gives it back. */
  lemma RefusalSticks(t: Table, h: Handler, x: Handler?)
    requires Clean(t) && t.index == MAX_STATE_HANDLERS - 1 && h !in t.slots
    ensures !Added(t, h).1 && Added(t, h).0.index == MAX_STATE_HANDLERS
    ensures Clean(Cleared(Added(t, h).0, x)) <==> x == null
  {
    AddKeepsSound(t, h);
    ClearCleansIff(Added(t, h).0, x);
  }

  /** With one handler gone there is room for another, and still the next add is refused. */
  lemma RefusedAgain(t: Table, h: Handler, gone: Handler, again: Handler)
    requires Clean(t) && t.index == MAX_STATE_HANDLERS - 1 && h !in t.slots && gone in t.slots && again !in t.slots
    ensures var t1 := Cleared(Added(t, h).0, gone);
            t1.index == MAX_STATE_HANDLERS - 1 && t1.slots[t1.index - 1] == null && !Added(t1, again).1
  {
    var full := Added(t, h).0;
    var s := Registered(t);
    assert gone in s && again !in s;
    assert full.slots[..30][..29] == s && full.slots[..30][29] == null;
    assert Kept(full.slots[..30], gone) == Kept(s, gone) + [null];
    KeptIsFilter(s, gone);
  }

  // ---- Whole runs of adds and clears ----

  datatype Op = AddOp(h: Handler) | ClearOp(x: Handler?)

  ghost function Apply(t: Table, op: Op): (r: Table)
    requires |t.slots| == MAX_STATE_HANDLERS && (op.ClearOp? ==> t.index <= MAX_STATE_HANDLERS)
    ensures |r.slots| == MAX_STATE_HANDLERS
  {
    match op
    case AddOp(h) => Added(t, h).0
    case ClearOp(x) => Cleared(t, x)
  }

  ghost predicate Refused(t: Table, op: Op)
    requires |t.slots| == MAX_STATE_HANDLERS
  {
    op.AddOp? && !Added(t, op.h).1
  }

  /** A run from the empty table; a clear with the index beyond the table is left out. */
  ghost predicate IsRun(ts: seq<Table>, ops: seq<Op>) {
    && |ts| == |ops| + 1 && ts[0] == Empty()
    && (forall i :: 0 <= i < |ts| ==> |ts[i].slots| == MAX_STATE_HANDLERS)
    && (forall i :: 0 <= i < |ops| ==>
          (ops[i].ClearOp? ==> ts[i].index <= MAX_STATE_HANDLERS) && ts[i + 1] == Apply(ts[i], ops[i]))
  }

  lemma {:induction false} RunIsSound(ts: seq<Table>, ops: seq<Op>, i: nat)
    requires IsRun(ts, ops) && i < |ts|
    ensures Sound(ts[i])
  {
    if i > 0 {
      RunIsSound(ts, ops, i - 1);
      match ops[i - 1] {
        case AddOp(h) => AddKeepsSound(ts[i - 1], h);
        case ClearOp(x) => ClearKeepsSound(ts[i - 1], x);
      }
    }
  }

  /** The add at k was refused and no clear with NULL came between it and point i. */
  ghost predicate Unhealed(ts: seq<Table>, ops: seq<Op>, k: nat, i: nat)
    requires IsRun(ts, ops)
  {
    k < i <= |ops| && Refused(ts[k], ops[k]) && forall m :: k < m < i ==> ops[m] != ClearOp(null)
  }

  ghost predicate Broken(ts: seq<Table>, ops: seq<Op>, i: nat)
    requires IsRun(ts, ops)
  {
    exists k: nat :: Unhealed(ts, ops, k, i)
  }

  /** One step: clean after it, exactly if it clears with NULL, or was clean before and not refused. */
  lemma StepCleanIff(t: Table, op: Op)
    requires Sound(t) && (op.ClearOp? ==> t.index <= MAX_STATE_HANDLERS)
    ensures Clean(Apply(t, op)) <==> op == ClearOp(null) || (Clean(t) && !Refused(t, op))
  {
    match op {
      case ClearOp(x) => ClearCleansIff(t, x);
      case AddOp(h) =>
        if Clean(t) {
          AddToClean(t, h);
        } else {
          var g := TheGap(t);
          AddKeepsSound(t, h);
          assert Gap(Added(t, h).0, g);
          CleanIffNoGap(Added(t, h).0);
        }
    }
  }

  /** Over every run the table is clean exactly if each refused add was followed by a clear with NULL. */
  lemma {:induction false} CleanExactlyWhen(ts: seq<Table>, ops: seq<Op>, i: nat)
    requires IsRun(ts, ops) && i < |ts|
    ensures Clean(ts[i]) <==> !Broken(ts, ops, i)
  {
    if i > 0 {
      var n := i - 1;
      var op := ops[n];
      RunIsSound(ts, ops, n);
      StepCleanIff(ts[n], op);
      CleanExactlyWhen(ts, ops, n);
      UnhealedStep(ts, ops, n);
    }
  }

  lemma UnhealedStep(ts: seq<Table>, ops: seq<Op>, n: nat)
    requires IsRun(ts, ops) && n < |ops|
    ensures Broken(ts, ops, n + 1) <==> ops[n] != ClearOp(null) && (Refused(ts[n], ops[n]) || Broken(ts, ops, n))
  {
    if Broken(ts, ops, n + 1) {
      var k: nat :| Unhealed(ts, ops, k, n + 1);
      if k != n {
        assert Unhealed(ts, ops, k, n) && ops[n] != ClearOp(null);
      }
    }
    if ops[n] != ClearOp(null) {
      if Refused(ts[n], ops[n]) {
        assert Unhealed(ts, ops, n, n + 1);
      } else if Broken(ts, ops, n) {
        var k: nat :| Unhealed(ts, ops, k, n);
        assert Unhealed(ts, ops, k, n + 1);
      }
    }
  }

  /** The handlers a table holds, gaps left out. */
  ghost function Present(s: seq<Handler?>): seq<Handler?> {
    if s == [] then []
    else
      var last := s[|s| - 1];
      Present(s[..|s| - 1]) + (if last != null then [last] else [])
  }

  lemma {:induction false} PresentOfKept(s: seq<Handler?>, h: Handler?)
    ensures Present(Kept(s, h)) == Kept(Present(s), h)
  {
    if s != [] {
      var n := |s| - 1;
      var p := s[..n];
      assert s == p + [s[n]];
      PresentOfKept(p, h);
      KeptSnoc(p, s[n], h);
      PresentSnoc(p, s[n]);
      PresentSnoc(Kept(p, h), s[n]);
      KeptSnoc(Present(p), s[n], h);
    }
  }

  lemma PresentSnoc(s: seq<Handler?>, x: Handler?)
    ensures Present(s + [x]) == if x != null then Present(s) + [x] else Present(s)
  {
    assert (s + [x])[..|s|] == s;
  }

  lemma KeptSnoc(s: seq<Handler?>, x: Handler?, h: Handler?)
    ensures Kept(s + [x], h) == if Stays(x, h) then Kept(s, h) + [x] else Kept(s, h)
  {
    assert (s + [x])[..|s|] == s;
  }

  /** Only the slots below n matter when the rest is empty. */
  lemma {:induction false} PresentPrefix(s: seq<Handler?>, n: nat)
    requires n <= |s| && forall k :: n <= k < |s| ==> s[k] == null
    ensures Present(s) == Present(s[..n])
  {
    if n < |s| {
      PresentPrefix(s[..|s| - 1], n);
      assert s[..|s| - 1][..n] == s[..n];
    } else {
      assert s[..n] == s;
    }
  }

  lemma {:induction false} PresentIsAll(s: seq<Handler?>)
    ensures forall x: Handler :: x in Present(s) <==> x in s
    ensures null !in s ==> Present(s) == s
  {
    if s != [] {
      var n := |s| - 1;
      assert s == s[..n] + [s[n]];
      PresentIsAll(s[..n]);
    }
  }

  ghost function Next(so: seq<Handler?>, op: Op, refused: bool): seq<Handler?> {
    match op
    case AddOp(h) => if refused || h in so then so else so + [h]
    case ClearOp(x) => Kept(so, x)
  }

  /** What the calls alone say: accepted adds append once, clears filter. */
  ghost function Folded(ts: seq<Table>, ops: seq<Op>, i: nat): seq<Handler?>
    requires IsRun(ts, ops) && i <= |ops|
  {
    if i == 0 then [] else Next(Folded(ts, ops, i - 1), ops[i - 1], Refused(ts[i - 1], ops[i - 1]))
  }

  lemma AddPresent(t: Table, h: Handler)
    requires Sound(t)
    ensures var (t1, taken) := Added(t, h);
            Present(t1.slots) == if taken && h !in Present(t.slots) then Present(t.slots) + [h] else Present(t.slots)
  {
    PresentIsAll(t.slots);
    if Added(t, h).1 && h !in t.slots {
      var s := Added(t, h).0.slots;
      PresentPrefix(s, t.index + 1);
      PresentPrefix(t.slots, t.index);
      assert s[..t.index + 1] == t.slots[..t.index] + [h];
      PresentSnoc(t.slots[..t.index], h);
    }
  }

  lemma ClearPresent(t: Table, x: Handler?)
    requires Sound(t) && t.index <= MAX_STATE_HANDLERS
    ensures Present(Cleared(t, x).slots) == Kept(Present(t.slots), x)
  {
    var s := t.slots[..t.index];
    var k := Kept(s, x);
    PresentPrefix(Padded(k), |k|);
    assert Padded(k)[..|k|] == k;
    PresentPrefix(t.slots, t.index);
    PresentOfKept(s, x);
  }

  lemma PresentStep(t: Table, op: Op)
    requires Sound(t) && (op.ClearOp? ==> t.index <= MAX_STATE_HANDLERS)
    ensures Present(Apply(t, op).slots) == Next(Present(t.slots), op, Refused(t, op))
  {
    match op {
      case AddOp(h) => AddPresent(t, h);
      case ClearOp(x) => ClearPresent(t, x);
    }
  }

  lemma {:induction false} PresentIsTheFold(ts: seq<Table>, ops: seq<Op>, i: nat)
    requires IsRun(ts, ops) && i < |ts|
    ensures Present(ts[i].slots) == Folded(ts, ops, i)
  {
    hide Present, Next, Apply, Refused, Sound;
    if i == 0 {
      NonePresent();
    } else {
      PresentIsTheFold(ts, ops, i - 1);
      RunIsSound(ts, ops, i - 1);
      PresentStep(ts[i - 1], ops[i - 1]);
      assert ts[i - 1 + 1] == Apply(ts[i - 1], ops[i - 1]);
    }
  }

  lemma NonePresent()
    ensures Present(Empty().slots) == []
  {
    PresentPrefix(Empty().slots, 0);
  }

  lemma CleanIsPresent(t: Table)
    requires Clean(t)
    ensures Registered(t) == Present(t.slots)
  {
    PresentPrefix(t.slots, t.index);
    PresentIsAll(Registered(t));
  }

  /** Over every run the table holds exactly the handlers the calls say, in order; if no refusal is
      unhealed they are the gap-free prefix the loops run over. */
  lemma TableIsTheFold(ts: seq<Table>, ops: seq<Op>, i: nat)
    requires IsRun(ts, ops) && i < |ts|
    ensures Present(ts[i].slots) == Folded(ts, ops, i)
    ensures !Broken(ts, ops, i) ==> Clean(ts[i]) && Registered(ts[i]) == Folded(ts, ops, i)
  {
    hide Broken, Folded, Present, Registered;
    PresentIsTheFold(ts, ops, i);
    CleanExactlyWhen(ts, ops, i);
    if Clean(ts[i]) {
      CleanIsPresent(ts[i]);
    }
  }

  /** A table driven through its methods goes through such a run, up to the first clear that would read past it. */
  method Drive(ops: seq<Op>) returns (t: HandlerTable, refused: seq<bool>, ghost trace: seq<Table>)
    ensures t.Valid() && |refused| <= |ops| && IsRun(trace, ops[..|refused|]) && t.View() == trace[|refused|]
    ensures forall i :: 0 <= i < |refused| ==> (refused[i] <==> Refused(trace[i], ops[i]))
    ensures |refused| < |ops| ==> ops[|refused|].ClearOp? && t.index > MAX_STATE_HANDLERS
  {
    hide Clean, Cleared, Added, Empty;
    t := new HandlerTable();
    refused, trace := [], [t.View()];
    for i := 0 to |ops|
      invariant t.Valid() && fresh(t) && fresh(t.slots) && |refused| == i
      invariant IsRun(trace, ops[..i]) && t.View() == trace[i]
      invariant forall k :: 0 <= k < i ==> (refused[k] <==> Refused(trace[k], ops[k]))
    {
      match ops[i] {
        case AddOp(h) =>
          var r := t.Add(h);
          refused := refused + [r < 0];
        case ClearOp(x) =>
          if t.index > MAX_STATE_HANDLERS {
            return;
          }
          t.Clear(x);
          refused := refused + [false];
      }
      assert t.View() == Apply(trace[i], ops[i]);
      trace := trace + [t.View()];
    }
  }

  // ---- Dispatch ----

  datatype Call = DriverCall | ChannelCall(i: nat) | GlobalCall(i: nat) | StandardCall

  predicate Vetoes(h: Hook) { h.Hook? && !h.ok }

  function After(h: Hook, st: CS): CS { if h.Hook? && h.to.Some? then h.to.value else st }

  /** Position of the first veto, or the length of the list. */
  ghost function FirstVeto(hs: seq<Hook>): (k: nat)
    ensures k <= |hs| && (k < |hs| ==> Vetoes(hs[k])) && forall i :: 0 <= i < k ==> !Vetoes(hs[i])
  {
    if hs == [] then 0 else if Vetoes(hs[0]) then 0 else 1 + FirstVeto(hs[1..])
  }

  /** How far a list is run: up to and including the first veto. */
  ghost function Reach(hs: seq<Hook>): (n: nat)
    ensures n <= |hs|
  {
    if FirstVeto(hs) < |hs| then FirstVeto(hs) + 1 else |hs|
  }

  /** The callbacks among the first n entries, in order. */
  ghost function Calls(hs: seq<Hook>, n: nat, global: bool): seq<Call>
    requires n <= |hs|
  {
    if n == 0 then []
    else
      Calls(hs, n - 1, global) +
      (if hs[n - 1].Hook? then [if global then GlobalCall(n - 1) else ChannelCall(n - 1)] else [])
  }

  ghost function StateAfter(hs: seq<Hook>, n: nat, st: CS): CS
    requires n <= |hs|
  {
    if n == 0 then st else After(hs[n - 1], StateAfter(hs, n - 1, st))
  }

  /** The declared order: a driver veto stops everything; channel handlers run up to their first veto;
      global handlers run up to theirs even after a channel veto; and the standard handler runs if and
      only if nobody vetoed and the state is still the one being handled. */
  ghost function Expected(driver: Hook, chan: seq<Hook>, glob: seq<Hook>, mid: CS, st: CS): (seq<Call>, CS) {
    var d := if driver.Hook? then [DriverCall] else [];
    var st0 := After(driver, st);
    if Vetoes(driver) then (d, st0)
    else
      var st1 := StateAfter(chan, Reach(chan), st0);
      var st2 := StateAfter(glob, Reach(glob), st1);
      var run := d + Calls(chan, Reach(chan), false) + Calls(glob, Reach(glob), true);
      if FirstVeto(chan) == |chan| && FirstVeto(glob) == |glob| && st2 == mid then (run + [StandardCall], st2)
      else (run, st2)
  }

  /** How many entries a handler loop can see: it stops at the first empty lookup. */
  ghost function Visible(t: Table, from: nat): (n: nat)
    requires |t.slots| == MAX_STATE_HANDLERS && from <= MAX_STATE_HANDLERS
    ensures from <= n <= MAX_STATE_HANDLERS && Lookup(t, n) == null
    ensures forall i :: from <= i < n ==> Lookup(t, i) != null
    decreases MAX_STATE_HANDLERS - from
  {
    if Lookup(t, from) == null then from else Visible(t, from + 1)
  }

  ghost function Hooks(t: Table): (hs: seq<Hook>)
    requires |t.slots| == MAX_STATE_HANDLERS
    ensures |hs| == Visible(t, 0)
  {
    seq(Visible(t, 0), i requires 0 <= i < Visible(t, 0) => Lookup(t, i).hook)
  }

  /** On a clean table that is every registered handler, in registration order. */
  lemma CleanIsVisible(t: Table)
    requires Clean(t)
    ensures Visible(t, 0) == t.index
    ensures forall i :: 0 <= i < t.index ==> Registered(t)[i] != null && Hooks(t)[i] == Registered(t)[i].hook
  {
    assert Lookup(t, t.index) == null;
    assert forall i :: 0 <= i < t.index ==> Lookup(t, i) != null;
  }

  /** The table holds s and one gap after it. */
  ghost predicate Gapped(t: Table, s: seq<Handler?>) {
    && |t.slots| == MAX_STATE_HANDLERS && t.index == |s| + 1 <= MAX_STATE_HANDLERS
    && t.slots[..|s|] == s && null !in s && DistinctHandlers(s)
    && forall k :: |s| <= k < MAX_STATE_HANDLERS ==> t.slots[k] == null
  }

  lemma ClearGapped(t: Table, s: seq<Handler?>, g: Handler)
    requires Gapped(t, s) && g in s
    ensures Gapped(Cleared(t, g), Kept(s, g)) && |Kept(s, g)| == |s| - 1
    ensures forall x :: x in Kept(s, g) <==> x in s && x != g
  {
    assert t.slots[..t.index] == s + [null];
    KeptSnoc(s, null, g);
    KeptIsFilter(s, g);
  }

  /** A gap hides what lies behind it: the next handler is accepted, but the loops stop before it. */
  lemma AddBehindGap(t: Table, s: seq<Handler?>, h: Handler)
    requires Gapped(t, s) && |s| < MAX_STATE_HANDLERS - 2 && h !in s
    ensures var (t1, taken) := Added(t, h);
            taken && t1.slots[|s| + 1] == h && Visible(t1, 0) == |s|
  {
    assert forall k :: 0 <= k < |s| ==> t.slots[k] == t.slots[..|s|][k] == s[k];
    assert h !in t.slots;
    VisibleIs(Added(t, h).0, |s|);
  }

  /** So after a refused add and two clears an accepted handler is never called. */
  lemma AcceptedButNeverCalled(t: Table, h: Handler, g1: Handler, g2: Handler, again: Handler)
    requires Clean(t) && t.index == MAX_STATE_HANDLERS - 1 && h !in t.slots
    requires g1 in t.slots && g2 in t.slots && g1 != g2 && again !in t.slots
    ensures var (t1, taken) := Added(Cleared(Cleared(Added(t, h).0, g1), g2), again);
            taken && t1.slots[MAX_STATE_HANDLERS - 2] == again && Visible(t1, 0) == MAX_STATE_HANDLERS - 3
  {
    hide Cleared, Kept;
    var s := Registered(t);
    assert g1 in s && g2 in s && again !in s;
    ClearGapped(Added(t, h).0, s, g1);
    ClearGapped(Cleared(Added(t, h).0, g1), Kept(s, g1), g2);
    AddBehindGap(Cleared(Cleared(Added(t, h).0, g1), g2), Kept(Kept(s, g1), g2), again);
  }

  lemma VisibleIs(t: Table, n: nat)
    requires |t.slots| == MAX_STATE_HANDLERS && n <= MAX_STATE_HANDLERS && Lookup(t, n) == null
    requires forall i :: 0 <= i < n ==> Lookup(t, i) != null
    ensures Visible(t, 0) == n
  {
  }

  lemma LookupVisible(t: Table, i: nat)
    requires |t.slots| == MAX_STATE_HANDLERS && i <= |Hooks(t)|
    ensures if i < |Hooks(t)| then Lookup(t, i) != null && Lookup(t, i).hook == Hooks(t)[i] else Lookup(t, i) == null
  {
  }

  lemma ReachStops(hs: seq<Hook>, k: nat)
    requires k <= |hs| && forall i :: 0 <= i < k ==> !Vetoes(hs[i])
    ensures k < |hs| && Vetoes(hs[k]) ==> FirstVeto(hs) == k && Reach(hs) == k + 1
    ensures k == |hs| ==> FirstVeto(hs) == k && Reach(hs) == k
  {
  }

  /** The entries a loop runs over: none when extra handlers are switched off. */
  ghost function Seen(t: Table, extra: bool): seq<Hook>
    requires |t.slots| == MAX_STATE_HANDLERS
  {
    if extra then Hooks(t) else []
  }

  lemma NoCalls(hs: seq<Hook>, global: bool, st: CS)
    ensures Calls(hs, 0, global) == [] && StateAfter(hs, 0, st) == st
  {
  }

  /** The log and the state after one more entry. */
  lemma OneMore(hs: seq<Hook>, n: nat, global: bool, st: CS)
    requires n < |hs|
    ensures Calls(hs, n + 1, global) == Calls(hs, n, global) +
            (if hs[n].Hook? then [if global then GlobalCall(n) else ChannelCall(n)] else [])
    ensures StateAfter(hs, n + 1, st) == After(hs[n], StateAfter(hs, n, st))
  {
  }

  /** One of the macro's two handler loops.  `proceed` counts up from 1 and drops to 0 on a veto. */
  method RunHandlers(table: HandlerTable, extra: bool, global: bool, st: CS)
    returns (log: seq<Call>, proceed: nat, now: CS)
    requires table.Valid()
    ensures var hs := Seen(table.View(), extra);
            && log == Calls(hs, Reach(hs), global) && now == StateAfter(hs, Reach(hs), st)
            && (proceed != 0 <==> FirstVeto(hs) == |hs|)
  {
    hide Hooks, Lookup, FirstVeto, Reach, Clean, Registered, Calls, StateAfter;
    log, proceed, now := [], 1, st;
    var index := 0;
    ghost var t, hs := table.View(), Seen(table.View(), extra);
    NoCalls(hs, global, st);
    if !extra {
      ReachStops(hs, 0);
      return;
    }
    LookupVisible(t, 0);
    var h := table.Get(index);
    while h != null
      invariant index <= |hs| && h == Lookup(t, index) && (h != null ==> index < |hs|)
      invariant forall i :: 0 <= i < index ==> !Vetoes(hs[i])
      invariant log == Calls(hs, index, global) && now == StateAfter(hs, index, st) && proceed > 0
      decreases |hs| - index
    {
      LookupVisible(t, index);
      OneMore(hs, index, global, st);
      if h.hook.Hook? {
        log := log + [if global then GlobalCall(index) else ChannelCall(index)];
        now := After(h.hook, now);
        if !h.hook.ok {
          ReachStops(hs, index);
          proceed := 0;
          return;
        }
      }
      proceed := proceed + 1;
      index := index + 1;
      LookupVisible(t, index);
      h := table.Get(index);
    }
    LookupVisible(t, index);
    ReachStops(hs, index);
  }

  // ---- What the order amounts to ----

  /** Where a call comes: the driver, the channel's handlers, the global ones, the standard handler. */
  predicate Before(a: Call, b: Call) {
    match a
    case DriverCall => b != DriverCall
    case ChannelCall(i) => (b.ChannelCall? && i < b.i) || b.GlobalCall? || b.StandardCall?
    case GlobalCall(i) => (b.GlobalCall? && i < b.i) || b.StandardCall?
    case StandardCall => false
  }

  ghost predicate InOrder(log: seq<Call>) { forall p, q :: 0 <= p < q < |log| ==> Before(log[p], log[q]) }

  /** Entry i of a list is called: it has a callback and nobody before it vetoed. */
  ghost predicate Reached(hs: seq<Hook>, i: nat) {
    i < |hs| && hs[i].Hook? && forall j :: 0 <= j < i ==> !Vetoes(hs[j])
  }

  ghost predicate NoVeto(hs: seq<Hook>) { forall i :: 0 <= i < |hs| ==> !Vetoes(hs[i]) }

  /** Which calls are made, in which order, and when the standard handler is among them. */
  ghost predicate Meant(driver: Hook, chan: seq<Hook>, glob: seq<Hook>, mid: CS, log: seq<Call>, now: CS) {
    && InOrder(log)
    && (DriverCall in log <==> driver.Hook?)
    && (Vetoes(driver) ==> log == [DriverCall])
    && (forall i :: ChannelCall(i) in log <==> !Vetoes(driver) && Reached(chan, i))
    && (forall i :: GlobalCall(i) in log <==> !Vetoes(driver) && Reached(glob, i))
    && (StandardCall in log <==> !Vetoes(driver) && NoVeto(chan) && NoVeto(glob) && now == mid)
  }

  function HookOf(driver: Hook, chan: seq<Hook>, glob: seq<Hook>, c: Call): Hook {
    match c
    case DriverCall => driver
    case ChannelCall(i) => if i < |chan| then chan[i] else Absent
    case GlobalCall(i) => if i < |glob| then glob[i] else Absent
    case StandardCall => Absent
  }

  /** The state the channel is left in: the one set by the last call that set any. */
  ghost function LastSet(driver: Hook, chan: seq<Hook>, glob: seq<Hook>, log: seq<Call>, st: CS): CS {
    if log == [] then st
    else
      var h := HookOf(driver, chan, glob, log[|log| - 1]);
      if h.Hook? && h.to.Some? then h.to.value else LastSet(driver, chan, glob, log[..|log| - 1], st)
  }

  lemma CallsSnoc(hs: seq<Hook>, n: nat, global: bool)
    requires n < |hs|
    ensures Calls(hs, n + 1, global) ==
            if hs[n].Hook? then Calls(hs, n, global) + [Entry(global, n)] else Calls(hs, n, global)
  {
    assert Calls(hs, n, global) + [] == Calls(hs, n, global);
  }

  function Entry(global: bool, i: nat): Call { if global then GlobalCall(i) else ChannelCall(i) }

  lemma {:induction false} CallsMembers(hs: seq<Hook>, n: nat, global: bool, c: Call)
    requires n <= |hs|
    ensures c in Calls(hs, n, global) <==>
            (if global then c.GlobalCall? else c.ChannelCall?) && c.i < n && hs[c.i].Hook?
  {
    if n > 0 {
      CallsMembers(hs, n - 1, global, c);
      CallsSnoc(hs, n - 1, global);
      hide Calls;
    }
  }

  lemma {:induction false} CallsInOrder(hs: seq<Hook>, n: nat, global: bool)
    requires n <= |hs|
    ensures InOrder(Calls(hs, n, global))
  {
    if n > 0 {
      CallsInOrder(hs, n - 1, global);
      CallsSnoc(hs, n - 1, global);
      hide Calls;
      var most := Calls(hs, n - 1, global);
      forall p | 0 <= p < |most|
        ensures Before(most[p], Entry(global, n - 1))
      {
        CallsMembers(hs, n - 1, global, most[p]);
      }
    }
  }

  lemma ReachMeans(hs: seq<Hook>, i: nat)
    ensures i < Reach(hs) && hs[i].Hook? <==> Reached(hs, i)
    ensures FirstVeto(hs) == |hs| <==> NoVeto(hs)
  {
  }

  lemma {:induction false} LastSetAppend(driver: Hook, chan: seq<Hook>, glob: seq<Hook>,
                                         a: seq<Call>, b: seq<Call>, st: CS)
    ensures LastSet(driver, chan, glob, a + b, st) == LastSet(driver, chan, glob, b, LastSet(driver, chan, glob, a, st))
  {
    if b == [] {
      assert a + b == a;
    } else {
      assert (a + b)[..|a + b| - 1] == a + b[..|b| - 1];
      LastSetAppend(driver, chan, glob, a, b[..|b| - 1], st);
    }
  }

  lemma {:induction false} LastSetOfCalls(driver: Hook, chan: seq<Hook>, glob: seq<Hook>, n: nat, global: bool, st: CS)
    requires n <= |if global then glob else chan|
    ensures var hs := if global then glob else chan;
            LastSet(driver, chan, glob, Calls(hs, n, global), st) == StateAfter(hs, n, st)
  {
    hide Calls, StateAfter, LastSet;
    var hs := if global then glob else chan;
    if n == 0 {
      NoCalls(hs, global, st);
      LastSetOfOne(driver, chan, glob, DriverCall, st);
    } else {
      LastSetOfCalls(driver, chan, glob, n - 1, global, st);
      CallsSnoc(hs, n - 1, global);
      OneMore(hs, n - 1, global, st);
      LastSetSnoc(driver, chan, glob, Calls(hs, n - 1, global), Entry(global, n - 1), st);
      assert HookOf(driver, chan, glob, Entry(global, n - 1)) == hs[n - 1];
    }
  }

  lemma LastSetSnoc(driver: Hook, chan: seq<Hook>, glob: seq<Hook>, log: seq<Call>, c: Call, st: CS)
    ensures LastSet(driver, chan, glob, log + [c], st) ==
            After(HookOf(driver, chan, glob, c), LastSet(driver, chan, glob, log, st))
  {
    assert (log + [c])[..|log|] == log;
  }

  lemma OrderedParts(a: seq<Call>, b: seq<Call>)
    requires InOrder(a) && InOrder(b) && forall x, y :: x in a && y in b ==> Before(x, y)
    ensures InOrder(a + b)
  {
  }

  /** The log's parts: driver, channel handlers, global handlers, standard handler. */
  ghost function Pieces(d: bool, cs: seq<Call>, gs: seq<Call>, std: bool): seq<Call> {
    (if d then [DriverCall] else []) + cs + gs + (if std then [StandardCall] else [])
  }

  ghost predicate OfKind(log: seq<Call>, global: bool) {
    forall c :: c in log ==> if global then c.GlobalCall? else c.ChannelCall?
  }

  lemma PiecesInOrder(d: bool, cs: seq<Call>, gs: seq<Call>, std: bool)
    requires InOrder(cs) && InOrder(gs) && OfKind(cs, false) && OfKind(gs, true)
    ensures InOrder(Pieces(d, cs, gs, std))
  {
    var a, b := if d then [DriverCall] else [], if std then [StandardCall] else [];
    OrderedParts(a, cs);
    assert forall c :: c in a + cs ==> c == DriverCall || c.ChannelCall?;
    OrderedParts(a + cs, gs);
    assert forall c :: c in a + cs + gs ==> c != StandardCall;
    OrderedParts(a + cs + gs, b);
  }

  lemma CallsReached(hs: seq<Hook>, global: bool)
    ensures InOrder(Calls(hs, Reach(hs), global)) && OfKind(Calls(hs, Reach(hs), global), global)
    ensures forall i :: Entry(global, i) in Calls(hs, Reach(hs), global) <==> Reached(hs, i)
  {
    hide Calls, Reach, FirstVeto;
    CallsInOrder(hs, Reach(hs), global);
    forall c: Call
      ensures c in Calls(hs, Reach(hs), global) <==>
              (if global then c.GlobalCall? else c.ChannelCall?) && c.i < Reach(hs) && hs[c.i].Hook?
    {
      CallsMembers(hs, Reach(hs), global, c);
    }
    forall i: nat
      ensures Entry(global, i) in Calls(hs, Reach(hs), global) <==> Reached(hs, i)
    {
      ReachMeans(hs, i);
    }
  }

  lemma ExpectedIs(driver: Hook, chan: seq<Hook>, glob: seq<Hook>, mid: CS, st: CS)
    ensures var (log, now) := Expected(driver, chan, glob, mid, st);
            if Vetoes(driver) then log == [DriverCall] && now == After(driver, st)
            else
              && now == StateAfter(glob, Reach(glob), StateAfter(chan, Reach(chan), After(driver, st)))
              && log == Pieces(driver.Hook?, Calls(chan, Reach(chan), false), Calls(glob, Reach(glob), true),
                               NoVeto(chan) && NoVeto(glob) && now == mid)
  {
    hide Calls, Reach, FirstVeto, StateAfter;
    ReachMeans(chan, 0);
    ReachMeans(glob, 0);
  }

  lemma PiecesMembers(d: bool, cs: seq<Call>, gs: seq<Call>, std: bool)
    requires OfKind(cs, false) && OfKind(gs, true)
    ensures var log := Pieces(d, cs, gs, std);
            && (DriverCall in log <==> d) && (StandardCall in log <==> std)
            && (forall i :: ChannelCall(i) in log <==> ChannelCall(i) in cs)
            && (forall i :: GlobalCall(i) in log <==> GlobalCall(i) in gs)
  {
  }

  lemma ExpectedMeans(driver: Hook, chan: seq<Hook>, glob: seq<Hook>, mid: CS, st: CS)
    ensures var (log, now) := Expected(driver, chan, glob, mid, st);
            Meant(driver, chan, glob, mid, log, now)
  {
    hide Calls, Reach, FirstVeto, StateAfter, Expected, Pieces, InOrder, OfKind, Reached, NoVeto, After;
    var (log, now) := Expected(driver, chan, glob, mid, st);
    var cs, gs := Calls(chan, Reach(chan), false), Calls(glob, Reach(glob), true);
    ExpectedIs(driver, chan, glob, mid, st);
    if Vetoes(driver) {
      OneInOrder(DriverCall);
    } else {
      CallsReached(chan, false);
      CallsReached(glob, true);
      PiecesInOrder(driver.Hook?, cs, gs, NoVeto(chan) && NoVeto(glob) && now == mid);
      PiecesMembers(driver.Hook?, cs, gs, NoVeto(chan) && NoVeto(glob) && now == mid);
      forall i: nat
        ensures ChannelCall(i) in log <==> Reached(chan, i)
        ensures GlobalCall(i) in log <==> Reached(glob, i)
      {
        assert Entry(false, i) == ChannelCall(i) && Entry(true, i) == GlobalCall(i);
      }
    }
  }

  lemma OneInOrder(c: Call)
    ensures InOrder([c])
  {
  }

  lemma LastSetOfOne(driver: Hook, chan: seq<Hook>, glob: seq<Hook>, c: Call, st: CS)
    ensures LastSet(driver, chan, glob, [c], st) == After(HookOf(driver, chan, glob, c), st)
    ensures LastSet(driver, chan, glob, [], st) == st
  {
    assert [c][..0] == [];
  }

  /** The state left behind is the one set by the last call that set any. */
  lemma ExpectedState(driver: Hook, chan: seq<Hook>, glob: seq<Hook>, mid: CS, st: CS)
    ensures var (log, now) := Expected(driver, chan, glob, mid, st);
            now == LastSet(driver, chan, glob, log, st)
  {
    hide Calls, Reach, FirstVeto, StateAfter, Expected, NoVeto, LastSet;
    var (log, now) := Expected(driver, chan, glob, mid, st);
    var cs, gs := Calls(chan, Reach(chan), false), Calls(glob, Reach(glob), true);
    var d := if driver.Hook? then [DriverCall] else [];
    ExpectedIs(driver, chan, glob, mid, st);
    LastSetOfOne(driver, chan, glob, DriverCall, st);
    if !Vetoes(driver) {
      LastSetOfCalls(driver, chan, glob, Reach(chan), false, After(driver, st));
      LastSetOfCalls(driver, chan, glob, Reach(glob), true, StateAfter(chan, Reach(chan), After(driver, st)));
      LastSetAppend(driver, chan, glob, d, cs, st);
      LastSetAppend(driver, chan, glob, d + cs, gs, st);
      var s := if NoVeto(chan) && NoVeto(glob) && now == mid then [StandardCall] else [];
      LastSetAppend(driver, chan, glob, d + cs + gs, s, st);
      LastSetOfOne(driver, chan, glob, StandardCall, now);
    }
  }

  lemma NothingExtra(driver: Hook, chan: Table, glob: Table, mid: CS, st: CS)
    requires |chan.slots| == |glob.slots| == MAX_STATE_HANDLERS
    ensures forall c :: c in Expected(driver, Seen(chan, false), Seen(glob, false), mid, st).0 ==>
              c == DriverCall || c == StandardCall
  {
  }

  /** The macro: `mid` is the state being handled, `st` the channel's state when the driver is called. */
  method Dispatch(driver: Hook, chan: HandlerTable, glob: HandlerTable, extra: bool, mid: CS, st: CS)
    returns (log: seq<Call>, now: CS)
    requires chan.Valid() && glob.Valid()
    ensures (log, now) == Expected(driver, Seen(chan.View(), extra), Seen(glob.View(), extra), mid, st)
    ensures Meant(driver, Seen(chan.View(), extra), Seen(glob.View(), extra), mid, log, now)
    ensures now == LastSet(driver, Seen(chan.View(), extra), Seen(glob.View(), extra), log, st)
    ensures !extra ==> forall c :: c in log ==> c == DriverCall || c == StandardCall
  {
    hide Meant, LastSet, Calls, StateAfter, FirstVeto, Reach, Seen, Visible, Lookup;
    ExpectedMeans(driver, Seen(chan.View(), extra), Seen(glob.View(), extra), mid, st);
    ExpectedState(driver, Seen(chan.View(), extra), Seen(glob.View(), extra), mid, st);
    NothingExtra(driver, chan.View(), glob.View(), mid, st);
    log, now := if driver.Hook? then [DriverCall] else [], After(driver, st);
    if !driver.Hook? || driver.ok {
      var globalProceed := true;
      var calls, proceed;
      calls, proceed, now := RunHandlers(chan, extra, false, now);
      log := log + calls;
      if proceed == 0 {
        globalProceed := false;
      }
      calls, proceed, now := RunHandlers(glob, extra, true, now);
      log := log + calls;
      if proceed == 0 || mid != now {
        globalProceed := false;
      }
      if globalProceed {
        log := log + [StandardCall];
      }
    }
  }
}
