/**
 * UTF-8 in both directions over the app's strings of 16-bit units
 * (app/src/lib/base64.ts:42-95; section 3 of RFC 3629). Shifts and masks of
 * the source are the divisions and remainders they compute.
 */
module Utf8 {
  import opened Common

  /** One UTF-16 code unit. */
  type Unit = u: int | 0 <= u < 0x1_0000

  predicate IsHigh(u: int) { 0xd800 <= u <= 0xdbff }

  predicate IsLow(u: int) { 0xdc00 <= u <= 0xdfff }

  // -------------------------------------------------------------- encoding --

  /** Units the encoder takes at the front: a high one takes whatever follows it. */
  function Width(text: seq<Unit>): (n: nat)
    requires text != []
    ensures 1 <= n <= |text|
  {
    if IsHigh(text[0]) && |text| > 1 then 2 else 1
  }

  function Combine(high: int, low: int): (c: int) {
    0x1_0000 + (high - 0xd800) * 1024 + (low - 0xdc00)
  }

  function CodePoint(text: seq<Unit>): (c: int)
    requires text != []
    ensures 0 <= c < 0x20_0000
  {
    if Width(text) == 2 then Combine(text[0], text[1]) else text[0]
  }

  function EncodePoint(c: int): (r: seq<Byte>)
    requires 0 <= c < 0x20_0000
    ensures 1 <= |r| <= 4
  {
    if c < 0x80 then [c]
    else if c < 0x800 then [0xc0 + c / 64, 0x80 + c % 64]
    else if c < 0x1_0000 then [0xe0 + c / 4096, 0x80 + c / 64 % 64, 0x80 + c % 64]
    else [0xf0 + c / 262144, 0x80 + c / 4096 % 64, 0x80 + c / 64 % 64, 0x80 + c % 64]
  }

  function Encode(text: seq<Unit>): (r: seq<Byte>) {
    if text == [] then [] else EncodePoint(CodePoint(text)) + Encode(text[Width(text)..])
  }

  method Utf8ToBytes(text: seq<Unit>) returns (out: seq<Byte>)
    ensures out == Encode(text)
  {
    out := [];
    var i := 0;
    assert text[0..] == text;
    while i < |text|
      invariant 0 <= i <= |text| && Encode(text) == out + Encode(text[i..])
    {
      var bytes, next := TakeBytes(text, i);
      Reassociate(out, bytes, Encode(text[next..]));
      out := out + bytes;
      i := next;
    }
    assert text[i..] == [];
  }

  /** The bytes of the point at `i`, and where the next one is. */
  method TakeBytes(text: seq<Unit>, i: nat) returns (bytes: seq<Byte>, next: nat)
    requires i < |text|
    ensures i < next <= |text| && Encode(text[i..]) == bytes + Encode(text[next..])
  {
    var c;
    c, next := TakePoint(text, i);
    EncodeAt(text, i);
    bytes := EncodePoint(c);
  }

  method TakePoint(text: seq<Unit>, i: nat) returns (c: int, next: nat)
    requires i < |text|
    ensures c == CodePoint(text[i..]) && next == i + Width(text[i..]) <= |text|
  {
    c, next := text[i], i;
    if IsHigh(c) && i + 1 < |text| {
      next := i + 1;
      c := Combine(c, text[next]);
    }
    next := next + 1;
  }

  lemma EncodeAt(text: seq<Unit>, i: nat)
    requires i < |text|
    ensures i + Width(text[i..]) <= |text|
    ensures Encode(text[i..]) == EncodePoint(CodePoint(text[i..])) + Encode(text[i + Width(text[i..])..])
  {
    var rest := text[i..];
    assert rest[Width(rest)..] == text[i + Width(rest)..];
  }

  lemma Reassociate(a: seq<Byte>, b: seq<Byte>, c: seq<Byte>)
    ensures a + (b + c) == (a + b) + c
  {
  }

  // -------------------------------------------------------------- decoding --

  /** Six bits of the byte at `i`; a byte that is not there counts as zero. */
  function Six(bytes: seq<Byte>, i: nat): (n: int)
    ensures 0 <= n < 64
  {
    if i < |bytes| then bytes[i] % 64 else 0
  }

  /** Bytes the decoder takes at the front. */
  function Span(bytes: seq<Byte>): (n: nat)
    requires bytes != []
    ensures 1 <= n <= 4
  {
    var b := bytes[0];
    if b < 0x80 then 1 else if b < 0xe0 then 2 else if b < 0xf0 then 3 else 4
  }

  function DecodePoint(bytes: seq<Byte>): (c: int)
    requires bytes != []
    ensures 0 <= c < 0x20_0000
  {
    var b: int := bytes[0];
    if b < 0x80 then b
    else if b < 0xe0 then b % 32 * 64 + Six(bytes, 1)
    else if b < 0xf0 then b % 16 * 4096 + Six(bytes, 1) * 64 + Six(bytes, 2)
    else b % 8 * 262144 + Six(bytes, 1) * 4096 + Six(bytes, 2) * 64 + Six(bytes, 3)
  }

  function Units(c: int): (r: seq<Unit>)
    requires 0 <= c < 0x20_0000
    ensures 1 <= |r| <= 2
  {
    if c > 0xffff then [0xd800 + (c - 0x1_0000) / 1024, 0xdc00 + (c - 0x1_0000) % 1024] else [c]
  }

  function Decode(bytes: seq<Byte>): (text: seq<Unit>) {
    if bytes == [] then []
    else Units(DecodePoint(bytes)) + (if Span(bytes) < |bytes| then Decode(bytes[Span(bytes)..]) else [])
  }

  function DecodeFrom(bytes: seq<Byte>, i: nat): (text: seq<Unit>) {
    if i < |bytes| then Decode(bytes[i..]) else []
  }

  method BytesToUtf8(bytes: seq<Byte>) returns (out: seq<Unit>)
    ensures out == Decode(bytes)
  {
    out := [];
    var i := 0;
    assert bytes[0..] == bytes;
    while i < |bytes|
      invariant Decode(bytes) == out + DecodeFrom(bytes, i)
    {
      var text, next := ReadText(bytes, i);
      ReassociateUnits(out, text, DecodeFrom(bytes, next));
      out := out + text;
      i := next;
    }
  }

  /** The text of the point at `at`, and where the next one is. */
  method ReadText(bytes: seq<Byte>, at: nat) returns (text: seq<Unit>, next: nat)
    requires at < |bytes|
    ensures DecodeFrom(bytes, at) == text + DecodeFrom(bytes, next) && next > at
  {
    var c, i := ReadPoint(bytes, at);
    DecodeAt(bytes, at);
    text, next := Units(c), i;
  }

  method ReadPoint(bytes: seq<Byte>, at: nat) returns (c: int, i: nat)
    requires at < |bytes|
    ensures c == DecodePoint(bytes[at..]) && i == at + Span(bytes[at..])
  {
    ghost var rest := bytes[at..];
    assert forall k: nat :: Six(rest, k) == Six(bytes, at + k);
    var b: int := bytes[at];
    i := at + 1;
    if b < 0x80 {
      c := b;
    } else if b < 0xe0 {
      c := b % 32 * 64 + Six(bytes, i);
      i := i + 1;
    } else if b < 0xf0 {
      c := b % 16 * 4096 + Six(bytes, i) * 64 + Six(bytes, i + 1);
      i := i + 2;
    } else {
      c := b % 8 * 262144 + Six(bytes, i) * 4096 + Six(bytes, i + 1) * 64 + Six(bytes, i + 2);
      i := i + 3;
    }
  }

  lemma DecodeAt(bytes: seq<Byte>, i: nat)
    requires i < |bytes|
    ensures DecodeFrom(bytes, i) == Units(DecodePoint(bytes[i..])) + DecodeFrom(bytes, i + Span(bytes[i..]))
  {
    var (rest, next) := (bytes[i..], i + Span(bytes[i..]));
    if next < |bytes| {
      assert rest[Span(rest)..] == bytes[next..];
    }
  }

  lemma ReassociateUnits(a: seq<Unit>, b: seq<Unit>, c: seq<Unit>)
    ensures a + (b + c) == (a + b) + c
  {
  }

  // ----------------------------------------------------------- round trip --

  lemma TwoBytes(c: int)
    requires 0x80 <= c < 0x800
    ensures 0xc0 <= 0xc0 + c / 64 < 0xe0
    ensures (0xc0 + c / 64) % 32 * 64 + (0x80 + c % 64) % 64 == c
  {
    assert (0xc0 + c / 64) % 32 == c / 64;
  }

  lemma ThreeBytes(c: int)
    requires 0x800 <= c < 0x1_0000
    ensures 0xe0 <= 0xe0 + c / 4096 < 0xf0
    ensures (0xe0 + c / 4096) % 16 * 4096 + (0x80 + c / 64 % 64) % 64 * 64 + (0x80 + c % 64) % 64 == c
  {
    assert (0xe0 + c / 4096) % 16 == c / 4096;
    assert c / 64 == c / 4096 * 64 + c / 64 % 64;
  }

  lemma FourBytes(c: int)
    requires 0x1_0000 <= c < 0x20_0000
    ensures 0xf0 <= 0xf0 + c / 262144 < 0xf8
    ensures (0xf0 + c / 262144) % 8 * 262144 + (0x80 + c / 4096 % 64) % 64 * 4096
      + (0x80 + c / 64 % 64) % 64 * 64 + (0x80 + c % 64) % 64 == c
  {
    var (q, r) := (c / 4096, c % 4096);
    InFours(q);
    InSixes(c, q, r);
    assert (0xf0 + q / 64) % 8 == q / 64;
  }

  /** The upper half of a four-byte point. */
  lemma InFours(q: int)
    requires 0x10 <= q < 0x200
    ensures q == q / 64 * 64 + q % 64 && 0 <= q / 64 < 8
  {
  }

  lemma InSixes(c: int, q: int, r: int)
    requires 0 <= c < 0x20_0000 && q == c / 4096 && r == c % 4096
    ensures c == q * 4096 + r && c / 262144 == q / 64 && c / 4096 % 64 == q % 64
    ensures r == c / 64 % 64 * 64 + c % 64
  {
  }

  lemma PointRoundTrip(c: int, rest: seq<Byte>)
    requires 0 <= c < 0x20_0000
    ensures var bytes := EncodePoint(c) + rest;
      DecodePoint(bytes) == c && Span(bytes) == |EncodePoint(c)|
  {
    var bytes := EncodePoint(c) + rest;
    if 0x80 <= c < 0x800 {
      TwoBytes(c);
      assert bytes[0] == 0xc0 + c / 64 && Six(bytes, 1) == (0x80 + c % 64) % 64;
    } else if 0x800 <= c < 0x1_0000 {
      ThreeBytes(c);
      assert bytes[0] == 0xe0 + c / 4096;
      assert Six(bytes, 1) == (0x80 + c / 64 % 64) % 64 && Six(bytes, 2) == (0x80 + c % 64) % 64;
    } else if 0x1_0000 <= c {
      FourBytes(c);
      assert bytes[0] == 0xf0 + c / 262144 && Six(bytes, 1) == (0x80 + c / 4096 % 64) % 64;
      assert Six(bytes, 2) == (0x80 + c / 64 % 64) % 64 && Six(bytes, 3) == (0x80 + c % 64) % 64;
    }
  }

  lemma DecodeOfEncode(text: seq<Unit>)
    requires text != []
    ensures Decode(Encode(text)) == Units(CodePoint(text)) + Decode(Encode(text[Width(text)..]))
  {
    var c, rest := CodePoint(text), Encode(text[Width(text)..]);
    PointRoundTrip(c, rest);
    assert (EncodePoint(c) + rest)[|EncodePoint(c)|..] == rest;
  }

  /** Every high surrogate but a last one is followed by a low one. */
  ghost predicate WellPaired(text: seq<Unit>) {
    forall i | 0 <= i < |text| - 1 :: IsHigh(text[i]) ==> IsLow(text[i + 1])
  }

  lemma {:induction false} NeverLonger(text: seq<Unit>)
    ensures |Decode(Encode(text))| <= |text|
    decreases |text|
  {
    if text != [] {
      DecodeOfEncode(text);
      NeverLonger(text[Width(text)..]);
    }
  }

  lemma PairOrNot(high: Unit, next: Unit)
    requires IsHigh(high)
    ensures Units(Combine(high, next)) == [high, next] <==> IsLow(next)
    ensures IsLow(next) ==> Combine(high, next) >= 0x1_0000
  {
    var d := (high - 0xd800) * 1024 + (next - 0xdc00);
    if IsLow(next) {
      assert d / 1024 == high - 0xd800 && d % 1024 == next - 0xdc00;
    }
  }

  lemma PairedTail(text: seq<Unit>)
    requires text != []
    ensures WellPaired(text) <==>
      (Width(text) == 2 ==> IsLow(text[1])) && WellPaired(text[Width(text)..])
  {
    var n := Width(text);
    var tail := text[n..];
    if WellPaired(text) {
      forall i | 0 <= i < |tail| - 1 ensures IsHigh(tail[i]) ==> IsLow(tail[i + 1]) {
        assert tail[i] == text[i + n] && tail[i + 1] == text[i + n + 1];
      }
    }
    if (n == 2 ==> IsLow(text[1])) && WellPaired(tail) {
      forall i | 0 <= i < |text| - 1 ensures IsHigh(text[i]) ==> IsLow(text[i + 1]) {
        if i >= n {
          assert tail[i - n] == text[i] && tail[i - n + 1] == text[i + 1];
        }
      }
    }
  }

  /** Text comes back from its bytes exactly when its surrogates are paired. */
  lemma {:induction false} RoundTripExact(text: seq<Unit>)
    ensures Decode(Encode(text)) == text <==> WellPaired(text)
    decreases |text|
  {
    if text != [] {
      var n := Width(text);
      var (head, tail) := (text[..n], text[n..]);
      var (units, back) := (Units(CodePoint(text)), Decode(Encode(tail)));
      DecodeOfEncode(text);
      RoundTripExact(tail);
      NeverLonger(tail);
      PairedTail(text);
      if n == 2 {
        PairOrNot(text[0], text[1]);
        assert head == [text[0], text[1]];
      } else {
        assert head == [text[0]] == units;
      }
      assert text == head + tail;
      if units + back == text {
        assert |units| == n;
        assert units == (units + back)[..n] == head;
        assert back == (units + back)[n..] == tail;
      }
    }
  }

  // ------------------------------------------------------------- validity --

  predicate IsTail(b: Byte) { 0x80 <= b < 0xc0 }

  /** What a second byte may be, so that no point is overlong, a surrogate or too large. */
  predicate MayFollow(lead: Byte, b: Byte) {
    IsTail(b) && (lead == 0xe0 ==> b >= 0xa0) && (lead == 0xed ==> b < 0xa0) && (lead == 0xf0 ==> b >= 0x90) && (lead == 0xf4 ==> b < 0x90)
  }

  /** Valid UTF-8 (section 4 of RFC 3629), which every string of the core is. */
  predicate IsText(bytes: seq<Byte>) {
    if bytes == [] then true
    else if bytes[0] < 0x80 then IsText(bytes[1..])
    else if 0xc2 <= bytes[0] < 0xe0 then |bytes| >= 2 && IsTail(bytes[1]) && IsText(bytes[2..])
    else if 0xe0 <= bytes[0] < 0xf0 then
      |bytes| >= 3 && MayFollow(bytes[0], bytes[1]) && IsTail(bytes[2]) && IsText(bytes[3..])
    else if 0xf0 <= bytes[0] < 0xf5 then
      |bytes| >= 4 && MayFollow(bytes[0], bytes[1]) && IsTail(bytes[2]) && IsTail(bytes[3]) && IsText(bytes[4..])
    else false
  }

  predicate IsScalar(c: int) { 0 <= c < 0xd800 || 0xe000 <= c < 0x11_0000 }

  /** No point the encoder takes is a lone surrogate or too large. */
  ghost predicate Scalars(text: seq<Unit>) {
    text == [] || (IsScalar(CodePoint(text)) && Scalars(text[Width(text)..]))
  }

  lemma PointIsText(c: int, rest: seq<Byte>)
    requires 0 <= c < 0x20_0000
    ensures IsText(EncodePoint(c) + rest) <==> IsScalar(c) && IsText(rest)
  {
    var bytes := EncodePoint(c) + rest;
    if c < 0x80 {
      assert bytes[1..] == rest;
    } else if c < 0x800 {
      assert bytes[2..] == rest;
    } else if c < 0x1_0000 {
      assert bytes[3..] == rest;
    } else {
      assert bytes[4..] == rest;
    }
  }

  /** What the encoder writes is valid UTF-8 exactly if every point it takes is a scalar value. */
  lemma {:induction false} EncodeIsText(text: seq<Unit>)
    ensures IsText(Encode(text)) <==> Scalars(text)
    decreases |text|
  {
    if text != [] {
      PointIsText(CodePoint(text), Encode(text[Width(text)..]));
      EncodeIsText(text[Width(text)..]);
    }
  }

  // ---------------------------------------------------------- byte length --

  function LengthAt(text: seq<Unit>): (n: nat)
    requires text != []
  {
    if text[0] < 0x80 then 1 else if text[0] < 0x800 then 2 else if Width(text) == 2 then 4 else 3
  }

  function ByteLength(text: seq<Unit>): (n: nat) {
    if text == [] then 0 else LengthAt(text) + ByteLength(text[Width(text)..])
  }

  method Utf8ByteLength(text: seq<Unit>) returns (n: nat)
    ensures n == ByteLength(text)
  {
    n := 0;
    var i := 0;
    assert text[0..] == text;
    while i < |text|
      invariant 0 <= i <= |text| && ByteLength(text) == n + ByteLength(text[i..])
    {
      ghost var rest := text[i..];
      var c := text[i];
      if c < 0x80 {
        n := n + 1;
      } else if c < 0x800 {
        n := n + 2;
      } else if IsHigh(c) && i + 1 < |text| {
        n := n + 4;
        i := i + 1;
      } else {
        n := n + 3;
      }
      i := i + 1;
      assert rest[Width(rest)..] == text[i..];
    }
  }

  /** Every high unit and the one it takes make a point above the first plane, whether or not that one is a low one. */
  ghost predicate TakesFullPoints(text: seq<Unit>) {
    text == [] || ((Width(text) == 2 ==> CodePoint(text) >= 0x1_0000) && TakesFullPoints(text[Width(text)..]))
  }

  /**
   * The counted length is never short, and is the encoded length exactly if
   * every high unit takes one that makes four bytes with it; it always does
   * in text whose surrogates are paired.
   */
  lemma {:induction false} ByteLengthExact(text: seq<Unit>)
    ensures |Encode(text)| <= ByteLength(text)
    ensures ByteLength(text) == |Encode(text)| <==> TakesFullPoints(text)
    ensures WellPaired(text) ==> TakesFullPoints(text)
    decreases |text|
  {
    if text != [] {
      PairedTail(text);
      if Width(text) == 2 { PairOrNot(text[0], text[1]); }
      ByteLengthExact(text[Width(text)..]);
    }
  }

  /** A text whose length is counted wrong: a high surrogate before a letter. */
  lemma LengthsDisagree()
    ensures ByteLength([0xd800, 0x41]) == 4 && |Encode([0xd800, 0x41])| == 3
  {
    var text: seq<Unit> := [0xd800, 0x41];
    assert text[2..] == [];
    assert CodePoint(text) == 0x2441;
  }

  /** One character of each length (section 7 of RFC 3629 has the second and third). */
  lemma Vectors()
    ensures Encode([0x41]) == [0x41] && Encode([0x391]) == [0xce, 0x91] && Encode([0x2262]) == [0xe2, 0x89, 0xa2]
    ensures Encode([0xd84c, 0xdfb4]) == [0xf0, 0xa3, 0x8e, 0xb4]
  {
    var a: seq<Unit>, b: seq<Unit>, c: seq<Unit>, d: seq<Unit> := [0x41], [0x391], [0x2262], [0xd84c, 0xdfb4];
    assert a[1..] == [] && b[1..] == [] && c[1..] == [] && d[2..] == [];
    assert CodePoint(d) == 0x233b4;
  }
}
