/** inet_pton6 (src/inet_pton.c): IPv6 text to sixteen bytes. */
module InetPton6 {
  import opened Common
  import opened InetPton4

  predicate IsHex(c: char) { IsDigit(c) || 'a' <= c <= 'f' || 'A' <= c <= 'F' }

  function HexDigit(c: char): (d: nat)
    requires IsHex(c)
    ensures d < 16
  {
    if IsDigit(c) then Digit(c) else if 'a' <= c <= 'f' then (c - 'a') as int + 10 else (c - 'A') as int + 10
  }

  function High(v: nat): Byte
    requires v <= 0xffff
  {
    v / 256
  }

  function Low(v: nat): Byte { v % 256 }

  // ---- The scanner as a function of the remaining text ----

  /** Bytes stored so far, where "::" was seen (if it was), and the group being read. */
  datatype State = State(out: seq<Byte>, colon: Option<nat>, val: nat, saw: bool)

  const Start: State := State([], None, 0, false)

  ghost predicate Sane(st: State) {
    |st.out| <= 16 && st.val <= 0xffff && (st.colon.Some? ==> st.colon.value <= |st.out|)
  }

  /** `tok` is the text from the last token start, which inet_pton4 rereads at a dot. */
  function Scan(rest: string, tok: string, st: State): Option<State>
    decreases |rest|
  {
    if rest == [] then Some(st)
    else
      var ch, src := rest[0], rest[1..];
      if IsHex(ch) then
        var v := st.val * 16 + HexDigit(ch);
        if v > 0xffff then None else Scan(src, tok, st.(val := v, saw := true))
      else if ch == ':' then
        if !st.saw then
          if st.colon.Some? then None else Scan(src, src, st.(colon := Some(|st.out|)))
        else if |st.out| + 2 > 16 || st.val > 0xffff then None
        else Scan(src, src, st.(out := st.out + [High(st.val), Low(st.val)], saw := false, val := 0))
      else if ch == '.' && |st.out| + 4 <= 16 && Quad(tok).Some? then
        Some(st.(out := st.out + Quad(tok).value, saw := false))
      else None
  }

  /** The flush of a last group after the loop. */
  function Flush(st: State): Option<State> {
    if !st.saw then Some(st)
    else if |st.out| + 2 > 16 || st.val > 0xffff then None
    else Some(st.(out := st.out + [High(st.val), Low(st.val)], saw := false))
  }

  function Zeros(n: nat): seq<Byte> { seq(n, _ => 0) }

  /** What the backward shift leaves: the bytes after "::" moved to the end of the address.
      With nothing to elide the loop overwrites them with zeros instead. */
  function Expand(out: seq<Byte>, colon: nat): seq<Byte>
    requires colon <= |out| <= 16
  {
    if |out| < 16 then out[..colon] + Zeros(16 - |out|) + out[colon..] else out[..colon] + Zeros(16 - colon)
  }

  function Close(st: State): Option<seq<Byte>> {
    if st.colon.Some? then
      if st.colon.value <= |st.out| <= 16 then Some(Expand(st.out, st.colon.value)) else None
    else if |st.out| == 16 then Some(st.out)
    else None
  }

  function Finish(o: Option<State>): Option<seq<Byte>> {
    if o.None? || Flush(o.value).None? then None else Close(Flush(o.value).value)
  }

  function Parse(s: string): Option<seq<Byte>> {
    if s != [] && s[0] == ':' then
      if |s| < 2 || s[1] != ':' then None else Finish(Scan(s[1..], s[1..], Start))
    else Finish(Scan(s, s, Start))
  }

  // ---- The scanner as written ----

  /** The overlapping backward shift, done in place from the end. */
  method ShiftBack(tmp: array<Byte>, colon: nat, tp: nat)
    requires tmp.Length == 16 && colon <= tp <= 16 && forall k :: tp <= k < 16 ==> tmp[k] == 0
    modifies tmp
    ensures tmp[..] == Expand(old(tmp[..tp]), colon)
  {
    var n := tp - colon;
    ghost var was := tmp[..tp];
    for i := 1 to n + 1
      invariant forall k :: 0 <= k < 16 ==> tmp[k] == Shifted(old(tmp[..]), colon, tp, i - 1, k)
    {
      tmp[16 - i] := tmp[colon + n - i];
      tmp[colon + n - i] := 0;
    }
    ShiftedAll(old(tmp[..]), colon, tp, tmp[..]);
    assert old(tmp[..])[..tp] == was;
  }

  lemma ShiftedAll(was: seq<Byte>, colon: nat, tp: nat, now: seq<Byte>)
    requires |was| == |now| == 16 && colon <= tp <= 16 && forall k :: tp <= k < 16 ==> was[k] == 0
    requires forall k :: 0 <= k < 16 ==> now[k] == Shifted(was, colon, tp, tp - colon, k)
    ensures now == Expand(was[..tp], colon)
  {
    var out := was[..tp];
    if tp < 16 {
      assert now == out[..colon] + Zeros(16 - tp) + out[colon..];
    } else {
      assert now == out[..colon] + Zeros(16 - colon);
    }
  }

  /** Cell k after m turns of the shift loop. */
  ghost function Shifted(was: seq<Byte>, colon: nat, tp: nat, m: nat, k: nat): Byte
    requires |was| == 16 && colon <= tp <= 16 && m <= tp - colon && k < 16
  {
    if k >= 16 - m then (if tp == 16 then 0 else was[k - (16 - tp)])
    else if tp - m <= k < tp then 0
    else was[k]
  }

  ghost predicate Holds(tmp: seq<Byte>, tp: nat, st: State) {
    && |tmp| == 16 && tp == |st.out| <= 16 && tmp[..tp] == st.out
    && forall k :: tp <= k < 16 ==> tmp[k] == 0
  }

  method StoreGroup(tmp: array<Byte>, tp: nat, val: nat, ghost st: State)
    requires tmp.Length == 16 && Holds(tmp[..], tp, st) && tp + 2 <= 16 && val <= 0xffff
    modifies tmp
    ensures Holds(tmp[..], tp + 2, st.(out := st.out + [High(val), Low(val)]))
  {
    tmp[tp] := High(val);
    tmp[tp + 1] := Low(val);
    assert tmp[..][..tp] == st.out;
    assert tmp[..][..tp + 2] == st.out + [High(val), Low(val)];
  }

  method StoreQuad(tmp: array<Byte>, tp: nat, q: seq<Byte>, ghost st: State)
    requires tmp.Length == 16 && Holds(tmp[..], tp, st) && tp + 4 <= 16 && |q| == 4
    modifies tmp
    ensures Holds(tmp[..], tp + 4, st.(out := st.out + q))
  {
    forall k | 0 <= k < 4 {
      tmp[tp + k] := q[k];
    }
    assert tmp[..][..tp] == st.out;
    assert tmp[..][..tp + 4] == st.out + q;
  }

  method ScanLoop(src: string, tmp: array<Byte>) returns (r: Option<State>, tp: nat)
    requires tmp.Length == 16 && Holds(tmp[..], 0, Start)
    modifies tmp
    ensures r == Scan(src, src, Start)
    ensures r.Some? ==> Holds(tmp[..], tp, r.value) && Sane(r.value)
  {
    var i, curtok := 0, 0;
    var colonp: Option<nat>, val, sawXdigit := None, 0, false;
    tp := 0;
    ghost var st := Start;
    assert src[0..] == src;
    while i < |src|
      invariant i <= |src| && curtok <= |src| && st.colon == colonp && st.val == val && st.saw == sawXdigit
      invariant Holds(tmp[..], tp, st) && Sane(st)
      invariant Scan(src, src, Start) == Scan(src[i..], src[curtok..], st)
    {
      var ch := src[i];
      assert src[i..][0] == ch && src[i..][1..] == src[i + 1..];
      i := i + 1;
      if IsHex(ch) {
        val := val * 16 + HexDigit(ch);
        if val > 0xffff {
          return None, tp;
        }
        sawXdigit := true;
        st := st.(val := val, saw := true);
      } else if ch == ':' {
        curtok := i;
        if !sawXdigit {
          if colonp.Some? {
            return None, tp;
          }
          colonp := Some(tp);
          st := st.(colon := colonp);
        } else {
          if tp + 2 > 16 {
            return None, tp;
          }
          StoreGroup(tmp, tp, val, st);
          st := st.(out := st.out + [High(val), Low(val)], saw := false, val := 0);
          tp := tp + 2;
          sawXdigit, val := false, 0;
        }
      } else {
        var q := Pton4(src[curtok..]);
        if ch == '.' && tp + 4 <= 16 && q.Some? {
          StoreQuad(tmp, tp, q.value, st);
          st := st.(out := st.out + q.value, saw := false);
          return Some(State(tmp[..tp + 4], colonp, val, false)), tp + 4;
        }
        return None, tp;
      }
    }
    r := Some(State(tmp[..tp], colonp, val, sawXdigit));
  }

  method Pton6(src: string) returns (r: Option<seq<Byte>>)
    ensures r == Parse(src)
  {
    hide Scan, Expand;
    var tmp := new Byte[16](_ => 0);
    var text := src;
    if src != [] && src[0] == ':' {
      if |src| < 2 || src[1] != ':' {
        return None;
      }
      text := src[1..];
    }
    var scanned, tp := ScanLoop(text, tmp);
    if scanned.None? {
      return None;
    }
    var st := scanned.value;
    if st.saw {
      if tp + 2 > 16 {
        return None;
      }
      StoreGroup(tmp, tp, st.val, st);
      st := st.(out := st.out + [High(st.val), Low(st.val)], saw := false);
      tp := tp + 2;
    }
    assert Flush(scanned.value) == Some(st) && tmp[..tp] == st.out;
    if st.colon.Some? {
      ShiftBack(tmp, st.colon.value, tp);
      tp := 16;
    }
    if tp != 16 {
      return None;
    }
    assert tmp[..16] == tmp[..];
    r := Some(tmp[..]);
  }

  // ---- Printed forms (section 2.2 of RFC 4291) ----

  predicate AllHex(s: string) { forall i :: 0 <= i < |s| ==> IsHex(s[i]) }

  /** Reading hex digits on top of a value already read. */
  function Hex(acc: nat, s: string): nat
    requires AllHex(s)
    decreases |s|
  {
    if s == [] then acc else Hex(acc * 16 + HexDigit(s[0]), s[1..])
  }

  /** A printed group: hex digits of either case, leading zeros allowed, 16-bit value. */
  predicate Group(g: string) { g != [] && AllHex(g) && Hex(0, g) <= 0xffff }

  predicate Groups(gs: seq<string>) { forall i :: 0 <= i < |gs| ==> Group(gs[i]) }

  /** Each group followed by a colon. */
  function Colons(gs: seq<string>): string {
    if gs == [] then "" else gs[0] + ":" + Colons(gs[1..])
  }

  function GroupBytes(g: string): seq<Byte>
    requires Group(g)
  {
    [High(Hex(0, g)), Low(Hex(0, g))]
  }

  function Bytes(gs: seq<string>): (b: seq<Byte>)
    requires Groups(gs)
    ensures |b| == 2 * |gs|
  {
    if gs == [] then [] else GroupBytes(gs[0]) + Bytes(gs[1..])
  }

  /** What may end an address: a group, a dotted quad, or nothing.  Nothing after groups is a
      trailing colon, which RFC 4291 does not know but the code accepts. */
  datatype Last = Nothing | LastGroup(g: string) | LastQuad(octets: seq<string>)

  datatype Tail = Tail(groups: seq<string>, last: Last)

  predicate GoodTail(t: Tail) {
    && Groups(t.groups)
    && match t.last
       case Nothing => true
       case LastGroup(g) => Group(g)
       case LastQuad(p) => FourOctets(p)
  }

  function TailText(t: Tail): string
    requires GoodTail(t)
  {
    Colons(t.groups) +
    match t.last
    case Nothing => ""
    case LastGroup(g) => g
    case LastQuad(p) => Join(p)
  }

  function TailBytes(t: Tail): seq<Byte>
    requires GoodTail(t)
  {
    Bytes(t.groups) +
    match t.last
    case Nothing => []
    case LastGroup(g) => GroupBytes(g)
    case LastQuad(p) => Values(p)
  }

  /** A full address, or groups, "::", and a tail. */
  datatype Form = Full(tail: Tail) | Elided(left: seq<string>, right: Tail)

  predicate GoodForm(f: Form) {
    match f
    case Full(t) => GoodTail(t) && |TailBytes(t)| == 16
    case Elided(l, r) => Groups(l) && GoodTail(r) && 2 * |l| + |TailBytes(r)| <= 16
  }

  function Text(f: Form): string
    requires GoodForm(f)
  {
    match f
    case Full(t) => TailText(t)
    case Elided(l, r) => if l == [] then "::" + TailText(r) else Colons(l) + ":" + TailText(r)
  }

  /** The address a form stands for. */
  function Address(f: Form): (b: seq<Byte>)
    requires GoodForm(f)
    ensures |b| == 16
  {
    match f
    case Full(t) => TailBytes(t)
    case Elided(l, r) => Bytes(l) + Zeros(16 - 2 * |l| - |TailBytes(r)|) + TailBytes(r)
  }

  // ---- Reading printed pieces ----

  lemma {:induction false} HexGrows(acc: nat, s: string)
    requires AllHex(s)
    ensures acc <= Hex(acc, s)
    decreases |s|
  {
    if s != [] {
      HexGrows(acc * 16 + HexDigit(s[0]), s[1..]);
    }
  }

  lemma {:induction false} ScanDigits(g: string, rest: string, tok: string, st: State)
    requires AllHex(g) && Hex(st.val, g) <= 0xffff
    ensures Scan(g + rest, tok, st) ==
            Scan(rest, tok, if g == [] then st else st.(val := Hex(st.val, g), saw := true))
    decreases |g|
  {
    if g == [] {
      assert g + rest == rest;
    } else {
      var v := st.val * 16 + HexDigit(g[0]);
      HexGrows(v, g[1..]);
      assert (g + rest)[0] == g[0] && (g + rest)[1..] == g[1..] + rest;
      ScanDigits(g[1..], rest, tok, st.(val := v, saw := true));
    }
  }

  lemma ScanGroup(g: string, rest: string, tok: string, st: State)
    requires Group(g) && st.val == 0 && !st.saw && |st.out| + 2 <= 16
    ensures Scan(g + ":" + rest, tok, st) == Scan(rest, rest, st.(out := st.out + GroupBytes(g)))
  {
    ScanDigits(g, ":" + rest, tok, st);
    assert g + ":" + rest == g + (":" + rest);
    assert (":" + rest)[1..] == rest;
  }

  lemma {:induction false} ScanGroups(gs: seq<string>, rest: string, tok: string, st: State)
    requires Groups(gs) && st.val == 0 && !st.saw && |st.out| + 2 * |gs| <= 16
    ensures Scan(Colons(gs) + rest, tok, st) ==
            Scan(rest, if gs == [] then tok else rest, st.(out := st.out + Bytes(gs)))
    decreases |gs|
  {
    hide Scan, Colons;
    if gs == [] {
      NoColons(rest);
      assert st.out + Bytes(gs) == st.out;
    } else {
      var more := Colons(gs[1..]) + rest;
      ColonsHead(gs, rest);
      ScanGroup(gs[0], more, tok, st);
      var st1 := st.(out := st.out + GroupBytes(gs[0]));
      ScanGroups(gs[1..], rest, more, st1);
      assert st1.out + Bytes(gs[1..]) == st.out + Bytes(gs);
      if gs[1..] == [] { NoColons(rest); }
    }
  }

  lemma NoColons(rest: string)
    ensures Colons([]) + rest == rest
  {
  }

  lemma ColonsHead(gs: seq<string>, rest: string)
    requires gs != []
    ensures Colons(gs) + rest == gs[0] + ":" + (Colons(gs[1..]) + rest)
  {
  }

  lemma {:induction false} HexSnoc(acc: nat, s: string, c: char)
    requires AllHex(s) && IsHex(c)
    ensures AllHex(s + [c]) && Hex(acc, s + [c]) == Hex(acc, s) * 16 + HexDigit(c)
    decreases |s|
  {
    if s == [] {
      assert s + [c] == [c] && [c][1..] == [];
      assert Hex(acc, [c]) == Hex(acc * 16 + HexDigit(c), []);
    } else {
      assert (s + [c])[1..] == s[1..] + [c];
      HexSnoc(acc * 16 + HexDigit(s[0]), s[1..], c);
    }
  }

  lemma DigitsStep(s: string)
    requires AllDigits(s) && AllHex(s) && s != []
    ensures var t, d := s[..|s| - 1], Digit(s[|s| - 1]);
            && AllDigits(t) && AllHex(t) && d < 10
            && Decimal(s) == Decimal(t) * 10 + d && Hex(0, s) == Hex(0, t) * 16 + d
  {
    var t, c := s[..|s| - 1], s[|s| - 1];
    HexSnoc(0, t, c);
    assert s == t + [c];
  }

  lemma {:induction false} UnitsFit(s: string)
    requires AllDigits(s) && AllHex(s) && Decimal(s) <= 9
    ensures Hex(0, s) == Decimal(s)
  {
    if s != [] {
      DigitsStep(s);
      UnitsFit(s[..|s| - 1]);
    }
  }

  lemma TensFit(s: string)
    requires AllDigits(s) && AllHex(s) && Decimal(s) <= 99
    ensures Hex(0, s) <= 0x99
  {
    if s != [] {
      DigitsStep(s);
      UnitsFit(s[..|s| - 1]);
    }
  }

  /** The digits of an octet, read as hex on the way to the dot, never overflow a group. */
  lemma OctetFitsGroup(s: string)
    requires AllDigits(s)
    ensures AllHex(s) && (Decimal(s) <= 255 ==> Hex(0, s) <= 0x999)
  {
    if s != [] && Decimal(s) <= 255 {
      DigitsStep(s);
      TensFit(s[..|s| - 1]);
    }
  }

  lemma JoinHead(p: seq<string>)
    requires FourOctets(p)
    ensures Join(p) == p[0] + ("." + Join(p[1..])) && Quad(Join(p)) == Some(Values(p))
  {
    SplitJoin(p);
    assert p[0] + "." + Join(p[1..]) == p[0] + ("." + Join(p[1..]));
  }

  /** A state whose flush holds `out` and the given "::" position. */
  ghost predicate Reads(o: Option<State>, out: seq<Byte>, colon: Option<nat>) {
    o.Some? && Flush(o.value).Some? && Flush(o.value).value.out == out && Flush(o.value).value.colon == colon
  }

  lemma ScanLastGroup(g: string, tok: string, st: State)
    requires Group(g) && st.val == 0 && !st.saw && |st.out| + 2 <= 16
    ensures Reads(Scan(g, tok, st), st.out + GroupBytes(g), st.colon)
  {
    ScanDigits(g, "", tok, st);
    assert g + "" == g;
  }

  lemma ScanLastQuad(p: seq<string>, st: State)
    requires FourOctets(p) && st.val == 0 && !st.saw && |st.out| + 4 <= 16
    ensures Reads(Scan(Join(p), Join(p), st), st.out + Values(p), st.colon)
  {
    JoinHead(p);
    OctetFitsGroup(p[0]);
    ScanDigits(p[0], "." + Join(p[1..]), Join(p), st);
  }

  lemma ScanTail(t: Tail, st: State)
    requires GoodTail(t) && st.val == 0 && !st.saw && |st.out| + |TailBytes(t)| <= 16
    ensures Reads(Scan(TailText(t), TailText(t), st), st.out + TailBytes(t), st.colon)
  {
    hide Scan, Reads, Colons, Bytes, Join;
    var text, n := TailText(t), Bytes(t.groups);
    var st1 := st.(out := st.out + n);
    NoColons(text[|Colons(t.groups)|..]);
    match t.last {
      case Nothing =>
        ScanGroups(t.groups, "", text, st);
        ScanNothing(if t.groups == [] then text else "", st1);
        assert st1.out + [] == st1.out && n + [] == n;
      case LastGroup(g) =>
        ScanGroups(t.groups, g, text, st);
        ScanLastGroup(g, if t.groups == [] then text else g, st1);
        Assoc(st.out, n, GroupBytes(g));
      case LastQuad(p) =>
        ScanGroups(t.groups, Join(p), text, st);
        ScanLastQuad(p, st1);
        Assoc(st.out, n, Values(p));
    }
  }

  lemma ScanNothing(tok: string, st: State)
    requires !st.saw
    ensures Reads(Scan("", tok, st), st.out, st.colon)
  {
  }

  lemma GroupsStart(gs: seq<string>, rest: string)
    requires Groups(gs) && gs != []
    ensures Colons(gs) + rest != [] && IsHex((Colons(gs) + rest)[0])
  {
    assert (Colons(gs) + rest)[0] == gs[0][0];
  }

  lemma TailStart(t: Tail)
    requires GoodTail(t) && TailBytes(t) != []
    ensures TailText(t) != [] && IsHex(TailText(t)[0])
  {
    match t.last {
      case Nothing => GroupsStart(t.groups, "");
      case LastGroup(g) =>
        if t.groups != [] { GroupsStart(t.groups, g); }
      case LastQuad(p) =>
        JoinHead(p);
        OctetFitsGroup(p[0]);
        if t.groups != [] { GroupsStart(t.groups, Join(p)); } else { assert TailText(t)[0] == p[0][0]; }
    }
  }

  lemma ParseFull(t: Tail)
    requires GoodForm(Full(t))
    ensures Parse(Text(Full(t))) == Some(TailBytes(t))
  {
    TailStart(t);
    ScanTail(t, Start);
    assert Start.out + TailBytes(t) == TailBytes(t);
  }

  lemma ScanElision(l: seq<string>, r: Tail, tok: string)
    requires GoodForm(Elided(l, r))
    ensures Reads(Scan(Colons(l) + ":" + TailText(r), tok, Start), Bytes(l) + TailBytes(r), Some(2 * |l|))
  {
    var rest := ":" + TailText(r);
    var st := State(Bytes(l), None, 0, false);
    assert Colons(l) + ":" + TailText(r) == Colons(l) + rest;
    assert Start.out + Bytes(l) == Bytes(l);
    ScanGroups(l, rest, tok, Start);
    assert rest[0] == ':' && rest[1..] == TailText(r);
    ScanTail(r, st.(colon := Some(2 * |l|)));
  }

  lemma ElidedText(l: seq<string>, t: string)
    requires Groups(l)
    ensures var text, body := if l == [] then "::" + t else Colons(l) + ":" + t, Colons(l) + ":" + t;
            if l == [] then |text| >= 2 && text[0] == text[1] == ':' && text[1..] == body
            else text == body && text != [] && IsHex(text[0])
  {
    if l == [] {
      assert ("::" + t)[1..] == ":" + t;
      assert Colons(l) + ":" + t == ":" + t;
    } else {
      assert Colons(l) + ":" + t == Colons(l) + (":" + t);
      GroupsStart(l, ":" + t);
    }
  }

  lemma FinishReads(o: Option<State>, out: seq<Byte>, colon: nat)
    requires Reads(o, out, Some(colon)) && colon <= |out| <= 16
    ensures Finish(o) == Some(Expand(out, colon))
  {
  }

  lemma ParseElided(l: seq<string>, r: Tail)
    requires GoodForm(Elided(l, r))
    ensures Parse(Text(Elided(l, r))) == Some(Expand(Bytes(l) + TailBytes(r), 2 * |l|))
  {
    hide Scan, Expand, Finish, Reads, TailText, Colons;
    var body := Colons(l) + ":" + TailText(r);
    ElidedText(l, TailText(r));
    ScanElision(l, r, body);
    FinishReads(Scan(body, body, Start), Bytes(l) + TailBytes(r), 2 * |l|);
  }

  /** Parsing undoes printing for every form but one kind, and that kind is given exactly:
      a "::" that stands for no group at all wipes the groups behind it. */
  lemma ParseUndoesPrint(f: Form)
    requires GoodForm(f)
    ensures Parse(Text(f)) == Some(Address(f)) <==>
            f.Elided? && 2 * |f.left| + |TailBytes(f.right)| == 16 ==> TailBytes(f.right) == Zeros(16 - 2 * |f.left|)
  {
    hide Parse, Text, Expand, TailBytes, TailText, Bytes;
    match f {
      case Full(t) => ParseFull(t);
      case Elided(l, r) =>
        ParseElided(l, r);
        ExpandIs(Bytes(l), TailBytes(r));
    }
  }

  /** What that kind reads as: the groups before the "::" and zeros. */
  lemma FullElisionWipes(l: seq<string>, r: Tail)
    requires GoodForm(Elided(l, r)) && 2 * |l| + |TailBytes(r)| == 16
    ensures Parse(Text(Elided(l, r))) == Some(Bytes(l) + Zeros(16 - 2 * |l|))
  {
    ParseElided(l, r);
    assert (Bytes(l) + TailBytes(r))[..2 * |l|] == Bytes(l);
  }

  lemma DigitGroup(c: char)
    requires IsDigit(c)
    ensures Group([c]) && GroupBytes([c]) == [0, Digit(c)]
  {
    assert Hex(Digit(c), [c][1..]) == Digit(c);
  }

  lemma DigitFirst(c: char, gs: seq<string>)
    requires IsDigit(c) && Groups(gs)
    ensures Groups([[c]] + gs)
    ensures Bytes([[c]] + gs) == [0, Digit(c)] + Bytes(gs) && Colons([[c]] + gs) == [c, ':'] + Colons(gs)
  {
    DigitGroup(c);
    assert ([[c]] + gs)[1..] == gs;
  }

  lemma ThreeDigits(a: char, b: char, c: char)
    requires IsDigit(a) && IsDigit(b) && IsDigit(c)
    ensures Groups([[a], [b], [c]])
    ensures Bytes([[a], [b], [c]]) == [0, Digit(a), 0, Digit(b), 0, Digit(c)]
    ensures Colons([[a], [b], [c]]) == [a, ':', b, ':', c, ':']
  {
    hide Bytes, Colons;
    assert [[c]] + [] == [[c]] && [[b]] + [[c]] == [[b], [c]] && [[a]] + [[b], [c]] == [[a], [b], [c]];
    NoGroups();
    DigitFirst(c, []);
    DigitFirst(b, [[c]]);
    DigitFirst(a, [[b], [c]]);
  }

  lemma NoGroups()
    ensures Bytes([]) == [] && Colons([]) == []
  {
  }

  lemma FirstFour()
    ensures Groups(["1", "2", "3", "4"]) && Colons(["1", "2", "3", "4"]) == "1:2:3:4:"
    ensures Bytes(["1", "2", "3", "4"]) == [0, 1, 0, 2, 0, 3, 0, 4]
  {
    hide Bytes, Colons;
    ThreeDigits('2', '3', '4');
    DigitFirst('1', ["2", "3", "4"]);
    assert ["1", "2", "3", "4"] == ["1"] + ["2", "3", "4"];
  }

  lemma LastOne(gs: seq<string>, g: string)
    requires Groups(gs) && Group(g)
    ensures var t := Tail(gs, LastGroup(g));
            GoodTail(t) && TailText(t) == Colons(gs) + g && |TailBytes(t)| == 2 * |gs| + 2
  {
  }

  /** A "::" between eight groups is accepted, and the last four groups are lost. */
  lemma GroupsLost()
    ensures Parse("1:2:3:4::5:6:7:8") == Some([0, 1, 0, 2, 0, 3, 0, 4, 0, 0, 0, 0, 0, 0, 0, 0])
  {
    hide Parse, Bytes, TailText, TailBytes, Colons, Groups, GoodTail;
    var l, r := ["1", "2", "3", "4"], Tail(["5", "6", "7"], LastGroup("8"));
    FirstFour();
    ThreeDigits('5', '6', '7');
    DigitGroup('8');
    LastOne(["5", "6", "7"], "8");
    FullElisionWipes(l, r);
    assert Text(Elided(l, r)) == "1:2:3:4:" + ":" + ("5:6:7:" + "8");
    assert "1:2:3:4:" + ":" + ("5:6:7:" + "8") == "1:2:3:4::5:6:7:8";
    assert Bytes(l) + Zeros(8) == [0, 1, 0, 2, 0, 3, 0, 4, 0, 0, 0, 0, 0, 0, 0, 0];
  }

  lemma OneDigit(c: char)
    requires IsDigit(c)
    ensures Groups([[c]]) && Bytes([[c]]) == [0, Digit(c)] && Colons([[c]]) == [c, ':']
  {
    NoGroups();
    DigitFirst(c, []);
    assert [[c]] + [] == [[c]];
  }

  lemma EndsInColon(gs: seq<string>)
    requires Groups(gs)
    ensures var t := Tail(gs, Nothing); GoodTail(t) && TailText(t) == Colons(gs) && TailBytes(t) == Bytes(gs)
  {
  }

  /** A colon that separates nothing is accepted. */
  lemma TrailingColon()
    ensures Parse("1::2:") == Some([0, 1, 0, 0, 0, 0, 0, 0, 0, 0, 0, 0, 0, 0, 0, 2])
  {
    hide Parse, Bytes, TailText, TailBytes, Colons, Groups, GoodTail;
    var l, r := ["1"], Tail(["2"], Nothing);
    OneDigit('1');
    OneDigit('2');
    EndsInColon(["2"]);
    ParseElided(l, r);
    assert Text(Elided(l, r)) == "1:" + ":" + "2:";
    assert "1:" + ":" + "2:" == "1::2:";
    ExpandIs([0, 1], [0, 2]);
    assert [0, 1] + Zeros(12) + [0, 2] == [0, 1, 0, 0, 0, 0, 0, 0, 0, 0, 0, 0, 0, 0, 0, 2];
  }

  lemma ExpandIs(a: seq<Byte>, b: seq<Byte>)
    requires |a| + |b| <= 16
    ensures |a| + |b| < 16 ==> Expand(a + b, |a|) == a + Zeros(16 - |a| - |b|) + b
    ensures |a| + |b| == 16 ==> (Expand(a + b, |a|) == a + Zeros(0) + b <==> b == Zeros(16 - |a|))
  {
    assert (a + b)[..|a|] == a && (a + b)[|a|..] == b;
    if |a| + |b| == 16 {
      assert a + Zeros(0) + b == a + b;
      assert (a + Zeros(16 - |a|))[|a|..] == Zeros(16 - |a|);
    }
  }

  // ---- Exactly what is accepted ----

  ghost predicate Complete(o: Option<State>) { o.Some? && Sane(o.value) && Flush(o.value).Some? }

  /** A scanned token text taken apart: a tail, or groups, an elision and a tail. */
  datatype Parts = Parts(elided: bool, left: seq<string>, tail: Tail)

  ghost predicate GoodParts(q: Parts) { Groups(q.left) && GoodTail(q.tail) && (!q.elided ==> q.left == []) }

  ghost function PartsText(q: Parts): string
    requires GoodParts(q)
  {
    if q.elided then Colons(q.left) + ":" + TailText(q.tail) else TailText(q.tail)
  }

  ghost function PartsBytes(q: Parts): seq<Byte>
    requires GoodParts(q)
  {
    Bytes(q.left) + TailBytes(q.tail)
  }

  ghost predicate Accounts(q: Parts, tok: string, st: State, o: Option<State>)
    requires Complete(o)
  {
    && GoodParts(q) && tok == PartsText(q) && (st.colon.Some? ==> !q.elided)
    && Flush(o.value).value.out == st.out + PartsBytes(q)
    && Flush(o.value).value.colon == if q.elided then Some(|st.out| + 2 * |q.left|) else st.colon
  }

  /** A group in front of parts, closed by a colon. */
  ghost function Prefixed(g: string, q: Parts): Parts {
    if q.elided then q.(left := [g] + q.left) else q.(tail := q.tail.(groups := [g] + q.tail.groups))
  }

  lemma GroupsCons(g: string, gs: seq<string>)
    requires Group(g) && Groups(gs)
    ensures Groups([g] + gs) && Colons([g] + gs) == g + ":" + Colons(gs) && Bytes([g] + gs) == GroupBytes(g) + Bytes(gs)
  {
    assert ([g] + gs)[1..] == gs;
  }

  lemma TailCons(g: string, t: Tail)
    requires Group(g) && GoodTail(t)
    ensures var t1 := t.(groups := [g] + t.groups);
            GoodTail(t1) && TailText(t1) == g + ":" + TailText(t) && TailBytes(t1) == GroupBytes(g) + TailBytes(t)
  {
    hide Group, Groups, Colons, Bytes, GroupBytes;
    GroupsCons(g, t.groups);
  }

  lemma PrefixedText(g: string, q: Parts)
    requires Group(g) && GoodParts(q)
    ensures GoodParts(Prefixed(g, q)) && PartsText(Prefixed(g, q)) == g + ":" + PartsText(q)
    ensures PartsBytes(Prefixed(g, q)) == GroupBytes(g) + PartsBytes(q)
  {
    hide Group, Groups, Colons, Bytes, GroupBytes, GoodTail, TailText, TailBytes;
    if q.elided {
      GroupsCons(g, q.left);
      assert Colons([g] + q.left) + ":" + TailText(q.tail) == g + ":" + (Colons(q.left) + ":" + TailText(q.tail));
    } else {
      TailCons(g, q.tail);
      NoGroups();
    }
  }

  lemma AccountsGroup(p: string, src: string, st: State, q1: Parts, o: Option<State>)
    requires Group(p) && Complete(o)
    requires Accounts(q1, src, st.(out := st.out + GroupBytes(p), saw := false, val := 0), o)
    ensures Accounts(Prefixed(p, q1), p + ":" + src, st, o)
  {
    hide Group, Groups, GroupBytes, GoodTail, TailText, TailBytes, PartsText, PartsBytes, Bytes, Flush;
    PrefixedText(p, q1);
    assert st.out + (GroupBytes(p) + PartsBytes(q1)) == (st.out + GroupBytes(p)) + PartsBytes(q1);
    GroupIsTwo(p);
  }

  lemma GroupIsTwo(p: string)
    requires Group(p)
    ensures |GroupBytes(p)| == 2
  {
  }

  lemma AccountsElision(src: string, st: State, q1: Parts, o: Option<State>)
    requires st.colon.None? && Complete(o) && Accounts(q1, src, st.(colon := Some(|st.out|)), o)
    ensures Accounts(Parts(true, [], q1.tail), ":" + src, st, o)
  {
    hide TailText, TailBytes, Bytes, Flush, Colons, GoodTail;
    NoGroups();
    assert [] + ":" + TailText(q1.tail) == ":" + src;
    assert q1.left == [];
  }

  lemma AccountsQuad(tok: string, st: State)
    requires Sane(st) && |st.out| + 4 <= 16 && Quad(tok).Some?
    ensures var o := Some(st.(out := st.out + Quad(tok).value, saw := false));
            && FourOctets(Split(tok)) && Complete(o)
            && Accounts(Parts(false, [], Tail([], LastQuad(Split(tok)))), tok, st, o)
  {
    JoinSplit(tok);
    NoColons(tok);
    var q := Parts(false, [], Tail([], LastQuad(Split(tok))));
    assert PartsText(q) == tok && PartsBytes(q) == Values(Split(tok));
  }

  lemma AccountsEnd(p: string, st: State)
    requires Sane(st) && AllHex(p) && st.val == Hex(0, p) && st.saw == (p != []) && Complete(Some(st))
    ensures Accounts(Parts(false, [], Tail([], if p == [] then Nothing else LastGroup(p))), p, st, Some(st))
  {
    NoGroups();
    NoColons(p);
    hide Hex, Bytes, Colons;
    var q := Parts(false, [], Tail([], if p == [] then Nothing else LastGroup(p)));
    assert PartsText(q) == p;
    if p == [] {
      assert PartsBytes(q) == [] && st.out + [] == st.out;
    } else {
      assert PartsBytes(q) == GroupBytes(p);
    }
  }

  /** Every successful scan can be taken apart.  `p` is the part of the current token already read. */
  lemma {:induction false} Unscan(p: string, rest: string, st: State) returns (q: Parts)
    requires Sane(st) && AllHex(p) && st.val == Hex(0, p) && st.saw == (p != []) && Complete(Scan(rest, p + rest, st))
    ensures Accounts(q, p + rest, st, Scan(rest, p + rest, st))
    decreases |rest|
  {
    hide Accounts, Flush, Quad, FourOctets, Prefixed, GroupBytes;
    var tok := p + rest;
    ghost var o := Scan(rest, tok, st);
    if rest == [] {
      assert tok == p;
      AccountsEnd(p, st);
      q := Parts(false, [], Tail([], if p == [] then Nothing else LastGroup(p)));
    } else {
      var ch, src := rest[0], rest[1..];
      assert tok == p + [ch] + src;
      if IsHex(ch) {
        HexSnoc(0, p, ch);
        var st1 := st.(val := Hex(0, p + [ch]), saw := true);
        q := Unscan(p + [ch], src, st1);
        AccountsDigit(q, tok, st, st1, o);
      } else if ch == ':' && st.saw {
        GroupBytesAre(p);
        assert [] + src == src;
        var q1 := Unscan([], src, st.(out := st.out + GroupBytes(p), saw := false, val := 0));
        AccountsGroup(p, src, st, q1, o);
        q := Prefixed(p, q1);
      } else if ch == ':' {
        assert [] + src == src && tok == ":" + src;
        var q1 := Unscan([], src, st.(colon := Some(|st.out|)));
        AccountsElision(src, st, q1, o);
        q := Parts(true, [], q1.tail);
      } else {
        AccountsQuad(tok, st);
        q := Parts(false, [], Tail([], LastQuad(Split(tok))));
      }
    }
  }

  lemma GroupBytesAre(p: string)
    requires Group(p)
    ensures GroupBytes(p) == [High(Hex(0, p)), Low(Hex(0, p))]
  {
  }

  lemma AccountsDigit(q: Parts, tok: string, st: State, st1: State, o: Option<State>)
    requires Complete(o) && st1.out == st.out && st1.colon == st.colon && Accounts(q, tok, st1, o)
    ensures Accounts(q, tok, st, o)
  {
  }

  /** The address a form is read as; it differs from Address only for an elision of nothing. */
  ghost function Meaning(f: Form): seq<Byte>
    requires GoodForm(f)
  {
    match f
    case Full(t) => TailBytes(t)
    case Elided(l, r) => Expand(Bytes(l) + TailBytes(r), 2 * |l|)
  }

  lemma {:induction false} ScanKeepsSane(rest: string, tok: string, st: State)
    requires Sane(st)
    ensures Scan(rest, tok, st).Some? ==> Sane(Scan(rest, tok, st).value)
    decreases |rest|
  {
    if rest != [] {
      var ch, src := rest[0], rest[1..];
      if IsHex(ch) {
        var v := st.val * 16 + HexDigit(ch);
        if v <= 0xffff { ScanKeepsSane(src, tok, st.(val := v, saw := true)); }
      } else if ch == ':' && st.saw {
        if |st.out| + 2 <= 16 {
          ScanKeepsSane(src, src, st.(out := st.out + [High(st.val), Low(st.val)], saw := false, val := 0));
        }
      } else if ch == ':' {
        ScanKeepsSane(src, src, st.(colon := Some(|st.out|)));
      }
    }
  }

  /** The form behind an accepted text, given how its scanned part comes apart. */
  lemma PartsForm(s: string, q: Parts)
    requires GoodParts(q) && s != [] && |PartsBytes(q)| <= 16 && (!q.elided ==> |PartsBytes(q)| == 16)
    requires if s[0] == ':' then |s| >= 2 && s[1] == ':' && s[1..] == PartsText(q) else s == PartsText(q)
    ensures var f := if q.elided then Elided(q.left, q.tail) else Full(q.tail);
            GoodForm(f) && s == Text(f)
  {
    hide Colons, TailText, TailBytes, Bytes, GoodTail, Groups;
    NoGroups();
    if q.elided {
      ElidedText(q.left, TailText(q.tail));
      assert s == [s[0]] + s[1..];
    } else {
      TailStart(q.tail);
    }
  }

  /** The accepted texts are exactly the forms above, each with the meaning given. */
  lemma AcceptsExactly(s: string, b: seq<Byte>)
    ensures Parse(s) == Some(b) <==> exists f: Form :: GoodForm(f) && s == Text(f) && b == Meaning(f)
  {
    if Parse(s) == Some(b) {
      var f := AcceptedForm(s, b);
    }
    forall f: Form | GoodForm(f) && s == Text(f) && b == Meaning(f)
      ensures Parse(s) == Some(b)
    {
      FormIsRead(f);
    }
  }

  lemma FormIsRead(f: Form)
    requires GoodForm(f)
    ensures Parse(Text(f)) == Some(Meaning(f))
  {
    hide Parse, Text, Expand;
    match f {
      case Full(t) => ParseFull(t);
      case Elided(l, r) => ParseElided(l, r);
    }
  }

  lemma AcceptedForm(s: string, b: seq<Byte>) returns (f: Form)
    requires Parse(s) == Some(b)
    ensures GoodForm(f) && s == Text(f) && b == Meaning(f)
  {
    hide Scan, Text, Expand, GoodParts, PartsText, PartsBytes;
    assert s != [] by { EmptyIsRejected(); }
    var text := if s[0] == ':' then s[1..] else s;
    var o := Scan(text, text, Start);
    ScanKeepsSane(text, text, Start);
    assert [] + text == text;
    var q := Unscan([], text, Start);
    PartsShape(q);
    assert Start.out + PartsBytes(q) == PartsBytes(q);
    PartsForm(s, q);
    f := if q.elided then Elided(q.left, q.tail) else Full(q.tail);
  }

  lemma PartsShape(q: Parts)
    requires GoodParts(q)
    ensures q.elided ==> PartsBytes(q) == Bytes(q.left) + TailBytes(q.tail) && Groups(q.left) && GoodTail(q.tail)
    ensures !q.elided ==> PartsBytes(q) == TailBytes(q.tail) && GoodTail(q.tail)
  {
    NoGroups();
  }

  lemma EmptyIsRejected()
    ensures Parse("") == None
  {
  }

  // ---- Printing any address ----

  function HexChar(d: nat): (c: char)
    requires d < 16
    ensures IsHex(c) && HexDigit(c) == d
  {
    if d < 10 then '0' + d as char else 'a' + (d - 10) as char
  }

  /** The shortest hex text of a value. */
  function HexText(v: nat): (s: string)
    ensures s != [] && AllHex(s)
  {
    if v < 16 then [HexChar(v)] else HexText(v / 16) + [HexChar(v % 16)]
  }

  lemma {:induction false} HexTextReads(v: nat)
    ensures Hex(0, HexText(v)) == v
  {
    if v < 16 {
      assert Hex(0, [HexChar(v)]) == Hex(v, [HexChar(v)][1..]);
    } else {
      HexTextReads(v / 16);
      HexSnoc(0, HexText(v / 16), HexChar(v % 16));
    }
  }

  function DecimalText(v: nat): (s: string)
    ensures s != [] && AllDigits(s)
  {
    if v < 10 then ['0' + v as char] else DecimalText(v / 10) + ['0' + (v % 10) as char]
  }

  lemma {:induction false} DecimalTextReads(v: nat)
    ensures Decimal(DecimalText(v)) == v
  {
    if v < 10 {
      assert Decimal(['0' + v as char]) == Decimal([]) * 10 + v;
    } else {
      DecimalTextReads(v / 10);
      var t, c := DecimalText(v / 10), '0' + (v % 10) as char;
      assert (t + [c])[..|t|] == t;
    }
  }

  function Word(hi: Byte, lo: Byte): nat {
    var h: int := hi;
    h * 256 + lo
  }

  function PrintGroups(b: seq<Byte>): (gs: seq<string>)
    requires |b| % 2 == 0
    ensures |gs| == |b| / 2
  {
    if b == [] then [] else [HexText(Word(b[0], b[1]))] + PrintGroups(b[2..])
  }

  lemma GroupTextReads(hi: Byte, lo: Byte)
    ensures Group(HexText(Word(hi, lo))) && GroupBytes(HexText(Word(hi, lo))) == [hi, lo]
  {
    HexTextReads(Word(hi, lo));
  }

  lemma {:induction false} PrintGroupsReads(b: seq<Byte>)
    requires |b| % 2 == 0
    ensures Groups(PrintGroups(b)) && Bytes(PrintGroups(b)) == b
  {
    if b != [] {
      GroupTextReads(b[0], b[1]);
      PrintGroupsReads(b[2..]);
      assert PrintGroups(b)[1..] == PrintGroups(b[2..]);
      assert b == [b[0], b[1]] + b[2..];
    }
  }

  function PrintOctets(b: seq<Byte>): seq<string>
    requires |b| == 4
  {
    [DecimalText(b[0]), DecimalText(b[1]), DecimalText(b[2]), DecimalText(b[3])]
  }

  lemma PrintOctetsReads(b: seq<Byte>)
    requires |b| == 4
    ensures FourOctets(PrintOctets(b)) && Values(PrintOctets(b)) == b
  {
    DecimalTextReads(b[0]);
    DecimalTextReads(b[1]);
    DecimalTextReads(b[2]);
    DecimalTextReads(b[3]);
  }

  /** The end of an address, with its last four bytes as a dotted quad if asked for. */
  function PrintTail(b: seq<Byte>, dotted: bool): Tail
    requires |b| % 2 == 0
  {
    var n := |b|;
    if n == 0 then Tail([], Nothing)
    else if dotted && n >= 4 then Tail(PrintGroups(b[..n - 4]), LastQuad(PrintOctets(b[n - 4..])))
    else Tail(PrintGroups(b[..n - 2]), LastGroup(HexText(Word(b[n - 2], b[n - 1]))))
  }

  lemma PrintTailReads(b: seq<Byte>, dotted: bool)
    requires |b| % 2 == 0
    ensures GoodTail(PrintTail(b, dotted)) && TailBytes(PrintTail(b, dotted)) == b
  {
    hide PrintGroups, PrintOctets, HexText, Bytes, Values, GroupBytes;
    var n := |b|;
    if n == 0 {
      NoGroups();
    } else if dotted && n >= 4 {
      var gs, p := PrintGroups(b[..n - 4]), PrintOctets(b[n - 4..]);
      PrintGroupsReads(b[..n - 4]);
      PrintOctetsReads(b[n - 4..]);
      TailOf(gs, LastQuad(p), b[..n - 4], b[n - 4..]);
      assert b == b[..n - 4] + b[n - 4..];
    } else {
      var gs, g := PrintGroups(b[..n - 2]), HexText(Word(b[n - 2], b[n - 1]));
      PrintGroupsReads(b[..n - 2]);
      GroupTextReads(b[n - 2], b[n - 1]);
      TailOf(gs, LastGroup(g), b[..n - 2], [b[n - 2], b[n - 1]]);
      assert b == b[..n - 2] + [b[n - 2], b[n - 1]];
    }
  }

  lemma TailOf(gs: seq<string>, last: Last, front: seq<Byte>, back: seq<Byte>)
    requires Groups(gs) && Bytes(gs) == front
    requires match last
             case Nothing => back == []
             case LastGroup(g) => Group(g) && GroupBytes(g) == back
             case LastQuad(p) => FourOctets(p) && Values(p) == back
    ensures GoodTail(Tail(gs, last)) && TailBytes(Tail(gs, last)) == front + back
  {
  }

  /** An address printed in full. */
  function PrintFull(a: seq<Byte>, dotted: bool): string
    requires |a| == 16
  {
    PrintTailReads(a, dotted);
    Text(Full(PrintTail(a, dotted)))
  }

  /** Every address survives printing in full and parsing, with or without a dotted tail. */
  lemma FullRoundTrip(a: seq<Byte>, dotted: bool)
    requires |a| == 16
    ensures Parse(PrintFull(a, dotted)) == Some(a)
  {
    PrintTailReads(a, dotted);
    ParseFull(PrintTail(a, dotted));
  }

  /** An address printed with the groups [i, j) left out. */
  function Elision(a: seq<Byte>, i: nat, j: nat, dotted: bool): Form
    requires |a| == 16 && i < j <= 8
  {
    Elided(PrintGroups(a[..2 * i]), PrintTail(a[2 * j..], dotted))
  }

  lemma ElisionIsGood(a: seq<Byte>, i: nat, j: nat, dotted: bool)
    requires |a| == 16 && i < j <= 8
    ensures GoodForm(Elision(a, i, j, dotted))
  {
    hide PrintGroups, PrintTail, Groups, GoodTail, TailBytes;
    var l, r := a[..2 * i], a[2 * j..];
    PrintGroupsReads(l);
    PrintTailReads(r, dotted);
    assert 2 * |PrintGroups(l)| == |Bytes(PrintGroups(l))| == 2 * i;
  }

  /** Every address survives eliding any of its runs of zero groups [i, j), with or without a dotted tail. */
  lemma ElidedRoundTrip(a: seq<Byte>, i: nat, j: nat, dotted: bool)
    requires |a| == 16 && i < j <= 8 && a[2 * i..2 * j] == Zeros(2 * (j - i))
    ensures GoodForm(Elision(a, i, j, dotted)) && Parse(Text(Elision(a, i, j, dotted))) == Some(a)
  {
    hide Parse, Text, Expand, PrintTail, PrintGroups, TailBytes, Bytes;
    ElisionIsGood(a, i, j, dotted);
    var f := Elision(a, i, j, dotted);
    PrintGroupsReads(a[..2 * i]);
    PrintTailReads(a[2 * j..], dotted);
    ParseUndoesPrint(f);
    assert a == a[..2 * i] + a[2 * i..2 * j] + a[2 * j..];
  }

  // ---- Letter case ----

  const LOWER: string := "0123456789abcdef"
  const UPPER: string := "0123456789ABCDEF"

  /** The digits are exactly those of the two alphabets, each with its position as its value. */
  lemma HexDigitIsPosition(c: char)
    ensures IsHex(c) <==> c in LOWER || c in UPPER
    ensures IsHex(c) ==> HexDigit(c) < 16 && (LOWER[HexDigit(c)] == c || UPPER[HexDigit(c)] == c)
  {
    if IsHex(c) {
      var d := HexDigit(c);
      assert LOWER[d] == c || UPPER[d] == c;
    }
  }

  /** A..F written as a..f. */
  function Fold(c: char): char { if 'A' <= c <= 'F' then c - 'A' + 'a' else c }

  function FoldAll(s: string): (r: string)
    ensures |r| == |s| && forall i :: 0 <= i < |s| ==> r[i] == Fold(s[i])
  {
    if s == [] then [] else [Fold(s[0])] + FoldAll(s[1..])
  }

  lemma FoldKeepsDigit(c: char)
    ensures IsHex(Fold(c)) <==> IsHex(c)
    ensures IsHex(c) ==> HexDigit(Fold(c)) == HexDigit(c)
    ensures Fold(c) == ':' <==> c == ':'
    ensures Fold(c) == '.' <==> c == '.'
    ensures IsDigit(Fold(c)) || Fold(c) == '.' ==> Fold(c) == c
    ensures !('A' <= Fold(c) <= 'F') && (Fold(c) != c ==> 'A' <= c <= 'F')
  {
  }

  predicate DigitsAndDots(s: string) { forall i :: 0 <= i < |s| ==> IsDigit(s[i]) || s[i] == '.' }

  lemma JoinedQuad(p: seq<string>)
    requires FourOctets(p)
    ensures DigitsAndDots(Join(p))
  {
    assert p[1..][1..][1..] == [p[3]] && p[1..][1..][0] == p[2];
    assert Join(p[1..][1..]) == p[2] + "." + p[3];
    assert Join(p[1..]) == p[1] + "." + Join(p[1..][1..]);
  }

  lemma QuadHasNoLetters(s: string)
    ensures Quad(s).Some? ==> DigitsAndDots(s)
  {
    if Quad(s).Some? {
      QuadIff(s, Quad(s).value);
      var p :| FourOctets(p) && s == Join(p) && Quad(s).value == Values(p);
      JoinedQuad(p);
    }
  }

  lemma NothingToFold(s: string)
    ensures DigitsAndDots(s) || DigitsAndDots(FoldAll(s)) ==> FoldAll(s) == s
  {
    forall i | 0 <= i < |s|
      ensures IsDigit(s[i]) || s[i] == '.' || IsDigit(Fold(s[i])) || Fold(s[i]) == '.' ==> Fold(s[i]) == s[i]
    {
      FoldKeepsDigit(s[i]);
    }
  }

  lemma QuadIgnoresCase(s: string)
    ensures Quad(FoldAll(s)) == Quad(s)
  {
    QuadHasNoLetters(s);
    QuadHasNoLetters(FoldAll(s));
    NothingToFold(s);
  }

  lemma FoldTail(s: string)
    requires s != []
    ensures FoldAll(s)[0] == Fold(s[0]) && FoldAll(s)[1..] == FoldAll(s[1..])
  {
  }

  lemma {:induction false} ScanIgnoresCase(rest: string, tok: string, st: State)
    ensures Scan(FoldAll(rest), FoldAll(tok), st) == Scan(rest, tok, st)
    decreases |rest|
  {
    hide Quad;
    if rest != [] {
      var ch, src := rest[0], rest[1..];
      FoldTail(rest);
      FoldKeepsDigit(ch);
      if IsHex(ch) {
        var v := st.val * 16 + HexDigit(ch);
        ScanIgnoresCase(src, tok, st.(val := v, saw := true));
      } else if ch == ':' {
        if !st.saw {
          ScanIgnoresCase(src, src, st.(colon := Some(|st.out|)));
        } else if |st.out| + 2 <= 16 && st.val <= 0xffff {
          ScanIgnoresCase(src, src, st.(out := st.out + [High(st.val), Low(st.val)], saw := false, val := 0));
        }
      } else {
        QuadIgnoresCase(tok);
      }
    }
  }

  /** Every text means the same in either case: what it is read as, and whether it is read at all. */
  lemma ParseIgnoresCase(s: string)
    ensures Parse(FoldAll(s)) == Parse(s)
  {
    hide Scan, Finish;
    if s != [] {
      FoldTail(s);
      FoldKeepsDigit(s[0]);
      if |s| > 1 { FoldKeepsDigit(s[1]); }
      ScanIgnoresCase(s[1..], s[1..], Start);
    }
    ScanIgnoresCase(s, s, Start);
  }

  /** So the round trips hold for addresses printed in upper or mixed case as well. */
  lemma AnyCaseRoundTrip(s: string, a: seq<Byte>, i: nat, j: nat, dotted: bool)
    requires |a| == 16 && i < j <= 8
    ensures FoldAll(s) == PrintFull(a, dotted) ==> Parse(s) == Some(a)
    ensures GoodForm(Elision(a, i, j, dotted))
    ensures a[2 * i..2 * j] == Zeros(2 * (j - i)) && FoldAll(s) == Text(Elision(a, i, j, dotted)) ==>
              Parse(s) == Some(a)
  {
    hide Parse, Text, Elision, PrintFull, Zeros;
    ElisionIsGood(a, i, j, dotted);
    ParseIgnoresCase(s);
    FullRoundTrip(a, dotted);
    if a[2 * i..2 * j] == Zeros(2 * (j - i)) {
      ElidedRoundTrip(a, i, j, dotted);
    }
  }
}
