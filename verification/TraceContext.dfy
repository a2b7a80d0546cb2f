/**
 W3C traceparent headers as middleware/trace/trace.go reads and writes them, and what becomes of a
 trace ID along a chain of services. A string is the sequence of its bytes.
 */
module TraceContext {
  import opened Common
  import opened Texts

  type Byte = x: int | 0 <= x < 256

  // ------------------------------------------------------------------
  // Hex digits

  predicate LowerHexDigit(c: char) {
    '0' <= c <= '9' || 'a' <= c <= 'f'
  }

  predicate LowerHex(s: string) {
    forall i | 0 <= i < |s| :: LowerHexDigit(s[i])
  }

  predicate AllZeroHex(s: string) {
    forall i | 0 <= i < |s| :: s[i] == '0'
  }

  predicate ValidTraceID(s: string) {
    |s| == 32 && LowerHex(s) && !AllZeroHex(s)
  }

  predicate ValidSpanID(s: string) {
    |s| == 16 && LowerHex(s) && !AllZeroHex(s)
  }

  method IsLowerHex(s: string) returns (ok: bool)
    ensures ok <==> LowerHex(s)
  {
    for i := 0 to |s|
      invariant LowerHex(s[..i])
    {
      if !LowerHexDigit(s[i]) {
        return false;
      }
    }
    ok := true;
  }

  method IsAllZeroHex(s: string) returns (ok: bool)
    ensures ok <==> AllZeroHex(s)
  {
    for i := 0 to |s|
      invariant AllZeroHex(s[..i])
    {
      if s[i] != '0' {
        return false;
      }
    }
    ok := true;
  }

  // ------------------------------------------------------------------
  // The header

  datatype Parent = Parent(traceID: string, parentID: string, flags: Byte)

  function Parse(s: string): Option<Parent> {
    if |s| < 55 || |s| > 200 then None
    else
      var parts := Split(s, '-');
      if |parts| < 4 || parts[0] != "00" then None
      else if !ValidTraceID(parts[1]) || !ValidSpanID(parts[2]) || |parts[3]| != 2 || !LowerHex(parts[3]) then None
      else Some(Parent(parts[1], parts[2], if parts[3] == "00" then 0 else 1))
  }

  method IsValidID(s: string, length: nat) returns (ok: bool)
    ensures ok <==> |s| == length && LowerHex(s) && !AllZeroHex(s)
  {
    if |s| != length {
      return false;
    }
    ok := IsLowerHex(s);
    if ok {
      var zero := IsAllZeroHex(s);
      ok := !zero;
    }
  }

  method ParseTraceParent(s: string) returns (r: Option<Parent>)
    ensures r == Parse(s)
  {
    if |s| < 55 || |s| > 200 {
      return None;
    }
    var parts := Split(s, '-');
    if |parts| < 4 || parts[0] != "00" {
      return None;
    }
    var tid, pid, fl := parts[1], parts[2], parts[3];
    var tidOk := IsValidID(tid, 32);
    var pidOk := IsValidID(pid, 16);
    var hexOk := IsLowerHex(fl);
    if !tidOk || !pidOk || |fl| != 2 || !hexOk {
      return None;
    }
    r := Some(Parent(tid, pid, if fl == "00" then 0 else 1));
  }

  function Format(traceID: string, spanID: string, sampled: Byte): string {
    "00-" + traceID + "-" + spanID + "-" + if sampled == 1 then "01" else "00"
  }

  /** A version-00 header of sections 3.2.2.1 to 3.2.2.5 of W3C Trace Context. */
  predicate Canonical(s: string) {
    && |s| == 55
    && s[..2] == "00" && s[2] == '-' && s[35] == '-' && s[52] == '-'
    && ValidTraceID(s[3..35]) && ValidSpanID(s[36..52]) && LowerHex(s[53..])
  }

  predicate Accepted(s: string) {
    55 <= |s| <= 200 && Canonical(s[..55]) && (|s| == 55 || s[55] == '-')
  }

  function Fields(s: string): Parent
    requires |s| >= 55
  {
    Parent(s[3..35], s[36..52], if s[53..55] == "00" then 0 else 1)
  }

  lemma Within(s: string, n: nat, a: nat, b: nat)
    requires a <= b <= n <= |s|
    ensures s[..n][a..b] == s[a..b]
  {
  }

  /** The fields lie within the first 55 characters. */
  lemma HeadSlices(s: string)
    requires |s| >= 55
    ensures s[..55][..2] == s[..2] && s[..55][3..35] == s[3..35] && s[..55][36..52] == s[36..52]
    ensures s[..55][53..] == s[53..55]
  {
    Within(s, 55, 0, 2);
    Within(s, 55, 3, 35);
    Within(s, 55, 36, 52);
    Within(s, 55, 53, 55);
  }

  lemma HexHasNoDash(s: string)
    requires LowerHex(s)
    ensures '-' !in s
  {
  }

  /** A canonical header splits into its four fields, whatever follows after a dash. */
  lemma SplitAccepted(s: string)
    requires Accepted(s)
    ensures |Split(s, '-')| >= 4 && Split(s, '-')[..4] == ["00", s[3..35], s[36..52], s[53..55]]
  {
    hide Split, LowerHex, AllZeroHex;
    var t, p, f := s[3..35], s[36..52], s[53..55];
    HeadSlices(s);
    HexHasNoDash(t);
    HexHasNoDash(p);
    HexHasNoDash(f);
    var tail := s[53..];
    assert s == "00-" + t + "-" + p + "-" + tail;
    SplitThree(t, p, tail);
    if |s| == 55 {
      assert tail == f;
      SplitWithout(f, '-');
    } else {
      assert tail == f + "-" + s[56..];
      SplitAt(f, s[56..], '-');
    }
  }

  lemma SplitThree(t: string, p: string, tail: string)
    requires '-' !in t && '-' !in p
    ensures Split("00-" + t + "-" + p + "-" + tail, '-') == ["00", t, p] + Split(tail, '-')
  {
    hide Split;
    assert "00-" + t + "-" + p + "-" + tail == "00" + "-" + (t + "-" + (p + "-" + tail));
    SplitAt("00", t + "-" + (p + "-" + tail), '-');
    SplitAt(t, p + "-" + tail, '-');
    SplitAt(p, tail, '-');
  }

  /** Four parts of the right lengths leave a header no choice. */
  lemma JoinFour(parts: seq<string>)
    requires |parts| >= 4 && |parts[0]| == 2 && |parts[1]| == 32 && |parts[2]| == 16 && |parts[3]| == 2
    ensures var s := Join(parts, '-');
            && |s| >= 55 && s[..2] == parts[0] && s[2] == '-' && s[3..35] == parts[1] && s[35] == '-'
            && s[36..52] == parts[2] && s[52] == '-' && s[53..55] == parts[3] && (|s| == 55 || s[55] == '-')
  {
    hide Join;
    var r1, r2, r3 := parts[1..], parts[2..], parts[3..];
    assert r1[1..] == r2 && r2[1..] == r3;
    JoinFirst(parts);
    JoinFirst(r1);
    JoinFirst(r2);
    JoinStarts(r3);
    FourFields(parts[0], parts[1], parts[2], Join(r3, '-'));
  }

  lemma JoinStarts(parts: seq<string>)
    requires parts != []
    ensures var s, n := Join(parts, '-'), |parts[0]|;
            |s| >= n && s[..n] == parts[0] && (|s| == n || s[n] == '-')
  {
  }

  lemma Peel(a: string, rest: string)
    ensures var s, n := a + "-" + rest, |a|;
            |s| == n + 1 + |rest| && s[..n] == a && s[n] == '-' && s[n + 1..] == rest
  {
  }

  lemma Shifted(s: string, k: nat, a: nat, b: nat)
    requires k + b <= |s| && a <= b
    ensures s[k..][a..b] == s[k + a..k + b] && s[k..][b..] == s[k + b..]
    ensures k + b < |s| ==> s[k..][b] == s[k + b]
  {
  }

  lemma FourFields(v: string, t: string, p: string, rest: string)
    requires |v| == 2 && |t| == 32 && |p| == 16
    ensures var s := v + "-" + (t + "-" + (p + "-" + rest));
            && |s| == 53 + |rest| && s[..2] == v && s[2] == '-' && s[3..35] == t && s[35] == '-'
            && s[36..52] == p && s[52] == '-' && s[53..] == rest
            && (|rest| >= 2 ==> s[53..55] == rest[..2]) && (|rest| > 2 ==> s[55] == rest[2])
  {
    var r2 := p + "-" + rest;
    var r1 := t + "-" + r2;
    var s := v + "-" + r1;
    Peel(v, r1);
    Peel(t, r2);
    Peel(p, rest);
    Shifted(s, 3, 0, 32);
    Shifted(s, 3, 33, 33);
    Shifted(s, 36, 0, 16);
    Shifted(s, 36, 17, 17);
    if |rest| >= 2 {
      Shifted(s, 53, 0, 2);
    }
  }

  lemma JoinFirst(parts: seq<string>)
    requires |parts| > 1
    ensures Join(parts, '-') == parts[0] + "-" + Join(parts[1..], '-')
  {
  }

  /**
   The parser accepts exactly the headers whose first 55 characters are canonical, that are no
   longer than 200 and go on, if at all, with a dash; and it returns the fields in place.
   */
  lemma ParseExact(s: string)
    ensures Parse(s).Some? <==> Accepted(s)
    ensures Parse(s).Some? ==> Parse(s).value == Fields(s)
  {
    if Accepted(s) {
      SplitAccepted(s);
      var parts := Split(s, '-');
      assert parts[..4][1] == parts[1] && parts[..4][2] == parts[2] && parts[..4][3] == parts[3];
      HeadSlices(s);
    }
    if Parse(s).Some? {
      JoinSplit(s, '-');
      JoinFour(Split(s, '-'));
      HeadSlices(s);
    }
  }

  lemma FormatShape(traceID: string, spanID: string, sampled: Byte)
    requires ValidTraceID(traceID) && ValidSpanID(spanID)
    ensures var s := Format(traceID, spanID, sampled);
            && Accepted(s) && |s| == 55
            && s[3..35] == traceID && s[36..52] == spanID && s[53..55] == if sampled == 1 then "01" else "00"
  {
    var s := Format(traceID, spanID, sampled);
    var flag := if sampled == 1 then "01" else "00";
    assert s[3..35] == traceID && s[36..52] == spanID && s[53..] == flag == s[53..55];
    assert s[..55] == s && s[..2] == "00";
  }

  /** Reading what was written gives it back; any other sampled byte is written as 0. */
  lemma ParseFormat(traceID: string, spanID: string, sampled: Byte)
    requires ValidTraceID(traceID) && ValidSpanID(spanID)
    ensures Parse(Format(traceID, spanID, sampled)) == Some(Parent(traceID, spanID, if sampled == 1 then 1 else 0))
  {
    FormatShape(traceID, spanID, sampled);
    ParseExact(Format(traceID, spanID, sampled));
  }

  /** Writing what was read gives the first 55 characters back, exactly when the flags are 00 or 01. */
  lemma FormatParse(s: string)
    requires Parse(s).Some?
    ensures var h := Parse(s).value;
            Format(h.traceID, h.parentID, h.flags) == s[..55] <==> s[53..55] == "00" || s[53..55] == "01"
  {
    ParseExact(s);
    var h := Fields(s);
    var head := s[..55];
    HeadSlices(s);
    assert head == head[..2] + "-" + head[3..35] + "-" + head[36..52] + "-" + head[53..];
    var out := Format(h.traceID, h.parentID, h.flags);
    assert out[53..] == if h.flags == 1 then "01" else "00";
  }

  function HexValue(c: char): int
    requires LowerHexDigit(c)
  {
    if c <= '9' then (c - '0') as int else (c - 'a') as int + 10
  }

  /** The sampled flag of section 3.2.2.5: the least significant bit. */
  function SampledBit(flags: string): int
    requires |flags| == 2 && LowerHex(flags)
  {
    (16 * HexValue(flags[0]) + HexValue(flags[1])) % 2
  }

  /** The flag read is the sampled bit exactly for the flags 00 and those with that bit. */
  lemma FlagsExact(s: string)
    requires Parse(s).Some?
    ensures |s| >= 55 && LowerHex(s[53..55])
    ensures Parse(s).value.flags == SampledBit(s[53..55]) <==> s[53..55] == "00" || SampledBit(s[53..55]) == 1
  {
    ParseExact(s);
    HeadSlices(s);
  }

  // ------------------------------------------------------------------
  // New identifiers

  function HexChar(d: int): char
    requires 0 <= d < 16
  {
    if d < 10 then '0' + d as char else 'a' + (d - 10) as char
  }

  function Hex(b: seq<Byte>): string {
    if b == [] then "" else Hex(b[..|b| - 1]) + [HexChar(b[|b| - 1] / 16), HexChar(b[|b| - 1] % 16)]
  }

  predicate AllZero(b: seq<Byte>) {
    forall i | 0 <= i < |b| :: b[i] == 0
  }

  /** The identifier made of random bytes: all zeros become a one and zeros. */
  function NewID(b: seq<Byte>): string
    requires b != []
  {
    Hex(if AllZero(b) then b[0 := 1] else b)
  }

  const HEX := "0123456789abcdef"

  /** The digits read and written are those of lower-case hexadecimal, in order. */
  lemma HexAlphabet(c: char, d: nat)
    requires d < 16
    ensures LowerHexDigit(c) <==> c in HEX
    ensures HexChar(d) == HEX[d] && HexValue(HEX[d]) == d
  {
    assert HEX[..10] == "0123456789" && HEX[10..] == "abcdef";
    if LowerHexDigit(c) {
      var i := HexValue(c);
      assert HEX[i] == c;
    }
  }

  lemma HexCharDigit(d: int)
    requires 0 <= d < 16
    ensures LowerHexDigit(HexChar(d)) && HexValue(HexChar(d)) == d && (HexChar(d) == '0' <==> d == 0)
  {
  }

  lemma {:induction false} HexShape(b: seq<Byte>)
    ensures |Hex(b)| == 2 * |b| && LowerHex(Hex(b)) && (AllZeroHex(Hex(b)) <==> AllZero(b))
  {
    if b != [] {
      var init, x := b[..|b| - 1], b[|b| - 1];
      HexShape(init);
      HexCharDigit(x / 16);
      HexCharDigit(x % 16);
      assert b == init + [x];
      HexSnocZero(init, x);
    }
  }

  lemma HexSnocZero(init: seq<Byte>, x: Byte)
    requires AllZeroHex(Hex(init)) <==> AllZero(init)
    ensures AllZeroHex(Hex(init) + [HexChar(x / 16), HexChar(x % 16)]) <==> AllZero(init + [x])
  {
    HexCharDigit(x / 16);
    HexCharDigit(x % 16);
    var s := Hex(init) + [HexChar(x / 16), HexChar(x % 16)];
    hide Hex, HexChar;
    if AllZeroHex(s) {
      assert s[|s| - 1] == HexChar(x % 16) && s[|s| - 2] == HexChar(x / 16);
      forall i | 0 <= i < |Hex(init)| ensures Hex(init)[i] == '0' {
        assert s[i] == Hex(init)[i];
      }
    }
    if AllZero(init + [x]) {
      assert (init + [x])[|init|] == x;
      forall i | 0 <= i < |init| ensures init[i] == 0 {
        assert (init + [x])[i] == init[i];
      }
    }
  }

  /** Sixteen bytes make a valid trace ID and eight a valid span ID, whatever the random source returns. */
  lemma NewIDsAreValid(b: seq<Byte>)
    ensures |b| == 16 ==> ValidTraceID(NewID(b))
    ensures |b| == 8 ==> ValidSpanID(NewID(b))
  {
    if b != [] {
      var patched := if AllZero(b) then b[0 := 1] else b;
      HexShape(patched);
      assert AllZero(b) ==> patched[0] == 1;
    }
  }

  /** Different bytes have different texts, so no randomness is lost but the patched value. */
  lemma {:induction false} HexInjective(a: seq<Byte>, b: seq<Byte>)
    requires Hex(a) == Hex(b)
    ensures a == b
  {
    hide Hex, HexChar, AllZeroHex, AllZero, LowerHex;
    HexShape(a);
    HexShape(b);
    if a != [] {
      var n := |a| - 1;
      LastByte(a);
      LastByte(b);
      HexInjective(a[..n], b[..n]);
      assert a == a[..n] + [a[n]] && b == b[..n] + [b[n]];
    }
  }

  /** The last byte of a text can be read off its last two digits. */
  lemma LastByte(b: seq<Byte>)
    requires b != []
    ensures var s, n := Hex(b), |b| - 1;
            && |s| == 2 * n + 2 && s[..2 * n] == Hex(b[..n])
            && LowerHexDigit(s[2 * n]) && LowerHexDigit(s[2 * n + 1])
            && b[n] == 16 * HexValue(s[2 * n]) + HexValue(s[2 * n + 1])
  {
    hide HexChar, HexValue, AllZeroHex, AllZero, LowerHex;
    var n := |b| - 1;
    HexShape(b[..n]);
    HexCharDigit(b[n] / 16);
    HexCharDigit(b[n] % 16);
  }

  /** Two digits for each byte, in order. */
  lemma {:induction false} HexDigits(b: seq<Byte>, i: nat)
    requires i < |b|
    ensures |Hex(b)| == 2 * |b| && LowerHexDigit(Hex(b)[2 * i]) && LowerHexDigit(Hex(b)[2 * i + 1])
    ensures b[i] == 16 * HexValue(Hex(b)[2 * i]) + HexValue(Hex(b)[2 * i + 1])
    decreases |b|
  {
    hide Hex, HexChar, HexValue, LowerHex, AllZeroHex, AllZero, LowerHexDigit;
    LastByte(b);
    HexShape(b);
    var n := |b| - 1;
    if i < n {
      HexDigits(b[..n], i);
      assert Hex(b)[..2 * n][2 * i] == Hex(b)[2 * i] && Hex(b)[..2 * n][2 * i + 1] == Hex(b)[2 * i + 1];
    }
  }

  /** A generated identifier writes the random bytes, digit for digit; all zeros become 01 and zeros. */
  lemma NewIDDigits(b: seq<Byte>, i: nat)
    requires i < |b|
    ensures |NewID(b)| == 2 * |b| && LowerHexDigit(NewID(b)[2 * i]) && LowerHexDigit(NewID(b)[2 * i + 1])
    ensures 16 * HexValue(NewID(b)[2 * i]) + HexValue(NewID(b)[2 * i + 1])
            == if AllZero(b) then (if i == 0 then 1 else 0) else b[i]
  {
    hide Hex, HexValue, LowerHexDigit;
    HexDigits(if AllZero(b) then b[0 := 1] else b, i);
  }

  /** Zeros, or a one and zeros: the two sequences of bytes that have the same identifier. */
  predicate ZeroOrOne(b: seq<Byte>) {
    b != [] && b[0] <= 1 && AllZero(b[1..])
  }

  /** Equal identifiers come from equal bytes, but for those two. */
  lemma NewIDsDiffer(a: seq<Byte>, b: seq<Byte>)
    requires a != [] && b != []
    ensures NewID(a) == NewID(b) <==> a == b || (|a| == |b| && ZeroOrOne(a) && ZeroOrOne(b))
  {
    hide Hex;
    var pa, pb := if AllZero(a) then a[0 := 1] else a, if AllZero(b) then b[0 := 1] else b;
    if NewID(a) == NewID(b) {
      HexInjective(pa, pb);
      PatchedBytes(a, b, pa, pb);
    }
    if |a| == |b| && ZeroOrOne(a) && ZeroOrOne(b) {
      PatchedSame(a, pa);
      PatchedSame(b, pb);
      assert pa == pb;
    }
  }

  lemma PatchedBytes(a: seq<Byte>, b: seq<Byte>, pa: seq<Byte>, pb: seq<Byte>)
    requires a != [] && b != [] && pa == pb
    requires pa == (if AllZero(a) then a[0 := 1] else a) && pb == if AllZero(b) then b[0 := 1] else b
    ensures a == b || (|a| == |b| && ZeroOrOne(a) && ZeroOrOne(b))
  {
    assert |pa| == |a| && |pb| == |b|;
    if AllZero(a) || AllZero(b) {
      forall i | 0 < i < |a| ensures a[i] == 0 == b[i] {
        assert pa[i] == a[i] && pb[i] == b[i];
      }
      assert pa[0] == 1 == pb[0];
      if AllZero(a) && AllZero(b) {
        assert a[0] == b[0] && a == b;
      }
    }
  }

  lemma PatchedSame(a: seq<Byte>, pa: seq<Byte>)
    requires ZeroOrOne(a) && pa == if AllZero(a) then a[0 := 1] else a
    ensures |pa| == |a| && pa[0] == 1 && forall i | 0 < i < |a| :: pa[i] == 0
  {
    forall i | 0 < i < |a| ensures a[i] == 0 {
      assert a[1..][i - 1] == a[i];
    }
  }

  method IsAllZero(b: array<Byte>) returns (ok: bool)
    ensures ok <==> AllZero(b[..])
  {
    for i := 0 to b.Length
      invariant AllZero(b[..i])
    {
      if b[i] != 0 {
        assert b[..][i] == b[i];
        return false;
      }
    }
    ok := true;
  }

  method EncodeToString(b: array<Byte>) returns (s: string)
    ensures s == Hex(b[..])
  {
    s := "";
    for i := 0 to b.Length
      invariant s == Hex(b[..i])
    {
      assert b[..i + 1][..i] == b[..i];
      s := s + [HexChar(b[i] / 16), HexChar(b[i] % 16)];
    }
    assert b[..b.Length] == b[..];
  }

  /** newTraceID and newSpanID; random is what the random source fills the array with. */
  method NewIdentifier(random: seq<Byte>) returns (id: string)
    requires random != []
    ensures id == NewID(random)
  {
    var b := new Byte[|random|](i requires 0 <= i < |random| => random[i]);
    assert b[..] == random;
    var zero := IsAllZero(b);
    if zero {
      b[0] := 1;
      assert b[..] == random[0 := 1];
    }
    id := EncodeToString(b);
  }

  // ------------------------------------------------------------------
  // The middleware

  datatype Options = Options(trustIncoming: bool, sampledFlag: Byte)

  /** The flag written: 0 only if it is switched off. */
  function Sampled(o: Options): (flag: Byte)
    ensures flag <= 1 && (flag == 0 <==> o.sampledFlag == 0)
  {
    if o.sampledFlag != 0 && o.sampledFlag != 1 then 1 else o.sampledFlag
  }

  /** A service on the way of a request: its options and its random bytes. */
  datatype Hop = Hop(options: Options, traceBytes: seq<Byte>, spanBytes: seq<Byte>)

  predicate Proper(h: Hop) {
    |h.traceBytes| == 16 && |h.spanBytes| == 8
  }

  datatype Span = Span(traceID: string, spanID: string, header: string)

  /** The trace ID a service uses for an incoming header, the empty string if there is none. */
  function TraceID(h: Hop, header: string): string
    requires Proper(h)
  {
    var incoming := if h.options.trustIncoming && header != "" then Parse(header) else None;
    var traceID := if incoming.Some? then incoming.value.traceID else "";
    if traceID == "" || !ValidTraceID(traceID) then NewID(h.traceBytes) else traceID
  }

  function Serve(h: Hop, header: string): Span
    requires Proper(h)
  {
    var traceID, spanID := TraceID(h, header), NewID(h.spanBytes);
    Span(traceID, spanID, Format(traceID, spanID, Sampled(h.options)))
  }

  method Handle(h: Hop, header: string) returns (span: Span)
    requires Proper(h)
    ensures span == Serve(h, header)
  {
    var traceID := "";
    if h.options.trustIncoming && header != "" {
      var incoming := ParseTraceParent(header);
      if incoming.Some? {
        traceID := incoming.value.traceID;
      }
    }
    if traceID == "" || !ValidTraceID(traceID) {
      traceID := NewIdentifier(h.traceBytes);
    }
    var spanID := NewIdentifier(h.spanBytes);
    span := Span(traceID, spanID, Format(traceID, spanID, Sampled(h.options)));
  }

  predicate AllProper(hops: seq<Hop>) {
    forall i | 0 <= i < |hops| :: Proper(hops[i])
  }

  /** The header at the end of a chain in which each service sends its own on to the next. */
  function Forwarded(hops: seq<Hop>, header: string): string
    requires AllProper(hops)
  {
    if hops == [] then header else Serve(hops[|hops| - 1], Forwarded(hops[..|hops| - 1], header)).header
  }

  /** Every header sent on is canonical and names the trace and the span of its service. */
  lemma ServedHeader(h: Hop, header: string)
    requires Proper(h)
    ensures var span := Serve(h, header);
            && ValidTraceID(span.traceID) && ValidSpanID(span.spanID) && Canonical(span.header)
            && Parse(span.header) == Some(Parent(span.traceID, span.spanID, Sampled(h.options)))
  {
    NewIDsAreValid(h.traceBytes);
    NewIDsAreValid(h.spanBytes);
    var span := Serve(h, header);
    FormatShape(span.traceID, span.spanID, Sampled(h.options));
    ParseFormat(span.traceID, span.spanID, Sampled(h.options));
    assert span.header[..55] == span.header;
  }

  /** Two requests have the same span ID exactly if their random bytes are the same, zeros and one aside. */
  lemma SpanIDsDiffer(g: Hop, h: Hop, header: string, other: string)
    requires Proper(g) && Proper(h)
    ensures Serve(g, header).spanID == Serve(h, other).spanID
            <==> g.spanBytes == h.spanBytes || (ZeroOrOne(g.spanBytes) && ZeroOrOne(h.spanBytes))
  {
    hide NewID, TraceID, Format;
    NewIDsDiffer(g.spanBytes, h.spanBytes);
  }

  /** A service starts a trace of its own unless it trusts an acceptable header. */
  predicate Starts(h: Hop, header: string) {
    !h.options.trustIncoming || !Accepted(header)
  }

  lemma TraceIDExact(h: Hop, header: string)
    requires Proper(h)
    ensures TraceID(h, header) == if Starts(h, header) then NewID(h.traceBytes) else header[3..35]
  {
    ParseExact(header);
    if Accepted(header) {
      HeadSlices(header);
    }
  }

  /** The trace ID that the last service of a chain uses. */
  function ChainTraceID(hops: seq<Hop>, header: string): string
    requires hops != [] && AllProper(hops)
  {
    TraceID(hops[|hops| - 1], Forwarded(hops[..|hops| - 1], header))
  }

  /** The trace ID that enters a chain at service j: a new one unless it is the first and takes the header's. */
  function Origin(hops: seq<Hop>, header: string, j: nat): string
    requires j < |hops| && AllProper(hops)
  {
    if j == 0 && !Starts(hops[0], header) then header[3..35] else NewID(hops[j].traceBytes)
  }

  /**
   Along any chain the trace ID is the one of the last service that does not trust its caller; with
   none, that of the header the chain got, or of its first service if that header is not acceptable.
   */
  lemma {:induction false} ChainKeepsTrace(hops: seq<Hop>, header: string, j: nat)
    requires AllProper(hops) && j < |hops|
    requires forall i | j < i < |hops| :: hops[i].options.trustIncoming
    requires j == 0 || !hops[j].options.trustIncoming
    ensures ChainTraceID(hops, header) == Origin(hops, header, j)
  {
    hide TraceID, Serve, NewID, Accepted;
    var n := |hops| - 1;
    var before := hops[..n];
    TraceIDExact(hops[n], Forwarded(before, header));
    if j < n {
      ChainKeepsTrace(before, header, j);
      TakesOver(hops[n], before[n - 1], Forwarded(before[..n - 1], header));
    } else {
      assert n == 0 ==> Forwarded(before, header) == header;
    }
  }

  /** A trusting service has the trace ID of the service whose header it gets. */
  lemma TakesOver(h: Hop, caller: Hop, header: string)
    requires Proper(h) && Proper(caller) && h.options.trustIncoming
    ensures TraceID(h, Serve(caller, header).header) == TraceID(caller, header)
  {
    hide Parse, Format, Canonical, ValidSpanID, NewID;
    ServedHeader(caller, header);
    ParseExact(Serve(caller, header).header);
    TraceIDExact(h, Serve(caller, header).header);
  }
}
