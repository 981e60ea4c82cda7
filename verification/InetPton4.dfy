/** inet_pton4 (src/inet_pton.c): dotted-quad text to four bytes.  Text is a C string, so it holds no NUL. */
module InetPton4 {
  import opened Common

  predicate IsDigit(c: char) { '0' <= c <= '9' }

  function Digit(c: char): nat
    requires IsDigit(c)
  {
    (c - '0') as int
  }

  const DIGITS: string := "0123456789"

  /** The digits are exactly those of the alphabet, each with its position as its value. */
  lemma DigitIsPosition(c: char)
    ensures IsDigit(c) <==> c in DIGITS
    ensures IsDigit(c) ==> Digit(c) < 10 && DIGITS[Digit(c)] == c
  {
    if IsDigit(c) {
      assert DIGITS[Digit(c)] == c;
    }
  }

  predicate AllDigits(s: string) { forall i :: 0 <= i < |s| ==> IsDigit(s[i]) }

  function Decimal(s: string): nat
    requires AllDigits(s)
  {
    if s == [] then 0 else Decimal(s[..|s| - 1]) * 10 + Digit(s[|s| - 1])
  }

  // ---- Reference: split at the dots and read each piece ----

  function Split(s: string): (r: seq<string>)
    ensures |r| > 0
  {
    if s == [] then [[]]
    else
      var r := Split(s[1..]);
      if s[0] == '.' then [[]] + r else [[s[0]] + r[0]] + r[1..]
  }

  function Join(pieces: seq<string>): string
    requires |pieces| > 0
  {
    if |pieces| == 1 then pieces[0] else pieces[0] + "." + Join(pieces[1..])
  }

  /** A non-empty run of decimal digits of value at most 255; leading zeros are allowed. */
  predicate Octet(p: string) { p != [] && AllDigits(p) && Decimal(p) <= 255 }

  predicate FourOctets(pieces: seq<string>) {
    |pieces| == 4 && Octet(pieces[0]) && Octet(pieces[1]) && Octet(pieces[2]) && Octet(pieces[3])
  }

  function Values(pieces: seq<string>): seq<Byte>
    requires FourOctets(pieces)
  {
    [Decimal(pieces[0]), Decimal(pieces[1]), Decimal(pieces[2]), Decimal(pieces[3])]
  }

  function Quad(s: string): Option<seq<Byte>> {
    if FourOctets(Split(s)) then Some(Values(Split(s))) else None
  }

  // ---- Facts about splitting ----

  predicate NoDot(s: string) { forall i :: 0 <= i < |s| ==> s[i] != '.' }

  lemma {:induction false} SplitAtDot(cur: string, rest: string)
    requires NoDot(cur)
    ensures Split(cur + "." + rest) == [cur] + Split(rest)
  {
    var s := cur + "." + rest;
    if cur == [] {
      assert s == "." + rest;
      assert s[1..] == rest;
    } else {
      assert s[1..] == cur[1..] + "." + rest;
      SplitAtDot(cur[1..], rest);
      assert cur == [cur[0]] + cur[1..];
    }
  }

  lemma {:induction false} SplitPlain(s: string)
    requires NoDot(s)
    ensures Split(s) == [s]
  {
    if s != [] {
      SplitPlain(s[1..]);
      assert s == [s[0]] + s[1..];
    }
  }

  lemma {:induction false} FirstPieceStarts(cur: string, rest: string)
    requires NoDot(cur)
    ensures cur <= Split(cur + rest)[0]
  {
    if cur != [] {
      assert (cur + rest)[1..] == cur[1..] + rest;
      FirstPieceStarts(cur[1..], rest);
      assert cur == [cur[0]] + cur[1..];
    }
  }

  lemma {:induction false} DecimalGrows(p: string, s: string)
    requires p <= s && AllDigits(s)
    ensures AllDigits(p) && Decimal(p) <= Decimal(s)
  {
    if p == s {
    } else {
      var t := s[..|s| - 1];
      assert p <= t;
      DecimalGrows(p, t);
    }
  }

  lemma {:induction false} JoinSplit(s: string)
    ensures Join(Split(s)) == s
  {
    if s != [] {
      var r := Split(s[1..]);
      JoinSplit(s[1..]);
      if s[0] == '.' {
        assert ([[]] + r)[1..] == r;
        assert [] + "." + Join(r) == [s[0]] + s[1..];
      } else {
        var t := [[s[0]] + r[0]] + r[1..];
        assert t[1..] == r[1..];
        if |r| > 1 {
          assert Join(t) == [s[0]] + (r[0] + "." + Join(r[1..]));
        }
      }
      assert s == [s[0]] + s[1..];
    }
  }

  lemma {:induction false} SplitJoin(pieces: seq<string>)
    requires |pieces| > 0 && forall i :: 0 <= i < |pieces| ==> NoDot(pieces[i])
    ensures Split(Join(pieces)) == pieces
  {
    if |pieces| == 1 {
      SplitPlain(pieces[0]);
    } else {
      SplitJoin(pieces[1..]);
      SplitAtDot(pieces[0], Join(pieces[1..]));
      assert pieces == [pieces[0]] + pieces[1..];
    }
  }

  /** Accepted text is exactly four octets joined by dots, and every such text is accepted with its value. */
  lemma QuadIff(s: string, b: seq<Byte>)
    ensures Quad(s) == Some(b) <==> exists p: seq<string> :: FourOctets(p) && s == Join(p) && b == Values(p)
  {
    if Quad(s) == Some(b) {
      JoinSplit(s);
      assert FourOctets(Split(s)) && s == Join(Split(s)) && b == Values(Split(s));
    }
    forall p: seq<string> | FourOctets(p) && s == Join(p) && b == Values(p)
      ensures Quad(s) == Some(b)
    {
      SplitJoin(p);
    }
  }

  // ---- The scanner ----

  ghost predicate Parsed(tmp: seq<int>, parts: seq<string>, cur: string) {
    && |tmp| == 4 && |parts| <= 3
    && (forall k :: 0 <= k < |parts| ==> Octet(parts[k]) && tmp[k] == Decimal(parts[k]))
    && AllDigits(cur) && tmp[|parts|] == Decimal(cur) <= 255
  }

  /** What is known after scanning up to position i: the closed pieces, and the piece being read. */
  ghost predicate Scanned(src: string, i: nat, parts: seq<string>, cur: string) {
    i <= |src| && AllDigits(cur) && Split(src) == parts + Split(cur + src[i..])
  }

  lemma ScanStart(src: string)
    ensures Scanned(src, 0, [], [])
  {
    assert [] + src[0..] == src;
  }

  lemma ScanDigit(src: string, i: nat, parts: seq<string>, cur: string)
    requires i < |src| && Scanned(src, i, parts, cur) && IsDigit(src[i])
    ensures Scanned(src, i + 1, parts, cur + [src[i]])
    ensures Decimal(cur + [src[i]]) == Decimal(cur) * 10 + Digit(src[i])
    ensures Decimal(cur + [src[i]]) > 255 || |parts| >= 4 ==> Quad(src) == None
  {
    var next := cur + [src[i]];
    assert cur + src[i..] == next + src[i + 1..];
    assert next[..|cur|] == cur;
    FirstPieceStarts(next, src[i + 1..]);
    var piece := Split(next + src[i + 1..])[0];
    if AllDigits(piece) {
      DecimalGrows(next, piece);
    }
    BadPiece(src, parts, next + src[i + 1..]);
  }

  lemma ScanDot(src: string, i: nat, parts: seq<string>, cur: string)
    requires i < |src| && Scanned(src, i, parts, cur) && src[i] == '.'
    ensures Scanned(src, i + 1, parts + [cur], [])
    ensures cur == [] || |parts| >= 3 ==> Quad(src) == None
  {
    assert cur + src[i..] == cur + "." + src[i + 1..];
    assert [] + src[i + 1..] == src[i + 1..];
    SplitAtDot(cur, src[i + 1..]);
    BadPiece(src, parts, cur + src[i..]);
  }

  lemma ScanOther(src: string, i: nat, parts: seq<string>, cur: string)
    requires i < |src| && Scanned(src, i, parts, cur) && !IsDigit(src[i]) && src[i] != '.'
    ensures Quad(src) == None
  {
    var next := cur + [src[i]];
    assert cur + src[i..] == next + src[i + 1..];
    FirstPieceStarts(next, src[i + 1..]);
    assert next[|cur|] == src[i];
    BadPiece(src, parts, cur + src[i..]);
  }

  lemma ScanEnd(src: string, parts: seq<string>, cur: string)
    requires Scanned(src, |src|, parts, cur)
    ensures Split(src) == parts + [cur]
  {
    assert cur + src[|src|..] == cur;
    SplitPlain(cur);
  }

  lemma BadPiece(src: string, parts: seq<string>, rest: string)
    requires Split(src) == parts + Split(rest)
    ensures |parts| >= 4 || !Octet(Split(rest)[0]) ==> Quad(src) == None
  {
    if |parts| < 4 {
      assert Split(src)[|parts|] == Split(rest)[0];
    }
  }

  method Pton4(src: string) returns (r: Option<seq<Byte>>)
    ensures r == Quad(src)
  {
    hide Split, Decimal;
    var tmp := new Byte[4](_ => 0);
    var sawDigit, octets, tp, i := false, 0, 0, 0;
    ghost var parts: seq<string>, cur: string := [], [];
    ScanStart(src);
    EmptyIsZero();
    while i < |src|
      invariant i <= |src| && tp == |parts| && Parsed(tmp[..], parts, cur) && Scanned(src, i, parts, cur)
      invariant sawDigit == (cur != []) && octets == tp + (if sawDigit then 1 else 0)
    {
      var ch := src[i];
      if IsDigit(ch) {
        ScanDigit(src, i, parts, cur);
        var val := tmp[tp] * 10 + Digit(ch);
        if val > 255 {
          return None;
        }
        tmp[tp] := val;
        cur := cur + [ch];
        if !sawDigit {
          octets := octets + 1;
          if octets > 4 {
            return None;
          }
          sawDigit := true;
        }
      } else if ch == '.' && sawDigit {
        ScanDot(src, i, parts, cur);
        if octets == 4 {
          return None;
        }
        parts := parts + [cur];
        cur := [];
        tp := tp + 1;
        tmp[tp] := 0;
        sawDigit := false;
      } else {
        if ch == '.' {
          ScanDot(src, i, parts, cur);
        } else {
          ScanOther(src, i, parts, cur);
        }
        return None;
      }
      i := i + 1;
    }
    ScanEnd(src, parts, cur);
    ghost var pieces := parts + [cur];
    assert pieces[|parts|] == cur && forall k :: 0 <= k < |parts| ==> pieces[k] == parts[k];
    if octets < 4 {
      return None;
    }
    assert tmp[..] == Values(pieces);
    r := Some(tmp[..]);
  }

  lemma EmptyIsZero()
    ensures Decimal("") == 0
  {
  }
}
