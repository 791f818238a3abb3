/**
 * Base64 (section 4 of RFC 4648): the app's encoder and lenient decoder
 * (app/src/lib/base64.ts:11-40), and the core's strict decoder, the `STANDARD`
 * engine that core/src/qkd.rs:151 calls. Shifts and masks of the source are
 * the divisions and remainders they compute.
 */
module Base64 {
  import opened Common

  type Sextet = n: int | 0 <= n < 64

  /** The alphabet: A-Z, a-z, 0-9, plus, slash. */
  function Digit(n: Sextet): (c: char)
    ensures IsDigit(c) && Value(c) == n
  {
    if n < 26 then ('A' as int + n) as char
    else if n < 52 then ('a' as int + (n - 26)) as char
    else if n < 62 then ('0' as int + (n - 52)) as char
    else if n == 62 then '+'
    else '/'
  }

  predicate IsDigit(c: char) {
    'A' <= c <= 'Z' || 'a' <= c <= 'z' || '0' <= c <= '9' || c == '+' || c == '/'
  }

  /** Where a digit stands in the alphabet. */
  function Value(c: char): (n: Sextet)
    requires IsDigit(c)
  {
    if 'A' <= c <= 'Z' then c as int - 'A' as int
    else if 'a' <= c <= 'z' then c as int - 'a' as int + 26
    else if '0' <= c <= '9' then c as int - '0' as int + 52
    else if c == '+' then 62
    else 63
  }

  // ------------------------------------------------- bytes and six-bit units --

  function S0(b0: int): (n: Sextet) requires 0 <= b0 < 256 { b0 / 4 }

  function S1(b0: int, b1: int): (n: Sextet) requires 0 <= b0 < 256 && 0 <= b1 < 256 { b0 % 4 * 16 + b1 / 16 }

  function S2(b1: int, b2: int): (n: Sextet) requires 0 <= b1 < 256 && 0 <= b2 < 256 { b1 % 16 * 4 + b2 / 64 }

  function S3(b2: int): (n: Sextet) requires 0 <= b2 < 256 { b2 % 64 }

  function B0(a: int, b: int): (n: Byte) requires 0 <= a < 64 && 0 <= b < 64 { a * 4 + b / 16 }

  function B1(b: int, c: int): (n: Byte) requires 0 <= b < 64 && 0 <= c < 64 { b % 16 * 16 + c / 4 }

  function B2(c: int, d: int): (n: Byte) requires 0 <= c < 64 && 0 <= d < 64 { c % 4 * 64 + d }

  /** The bits of `bytes` in groups of six, the last one filled with zeros. */
  function Sextets(bytes: seq<Byte>): (r: seq<Sextet>) {
    if bytes == [] then []
    else if |bytes| == 1 then [S0(bytes[0]), S1(bytes[0], 0)]
    else if |bytes| == 2 then [S0(bytes[0]), S1(bytes[0], bytes[1]), S2(bytes[1], 0)]
    else [S0(bytes[0]), S1(bytes[0], bytes[1]), S2(bytes[1], bytes[2]), S3(bytes[2])] + Sextets(bytes[3..])
  }

  /** The whole bytes in a run of six-bit units; one unit left over says nothing. */
  function Octets(u: seq<Sextet>): (r: seq<Byte>) {
    if |u| < 2 then []
    else if |u| == 2 then [B0(u[0], u[1])]
    else if |u| == 3 then [B0(u[0], u[1]), B1(u[1], u[2])]
    else [B0(u[0], u[1]), B1(u[1], u[2]), B2(u[2], u[3])] + Octets(u[4..])
  }

  /** Four units make three bytes. */
  lemma {:induction false} OctetsLength(u: seq<Sextet>)
    ensures |Octets(u)| == |u| * 3 / 4
  {
    if |u| >= 4 {
      OctetsLength(u[4..]);
      ThreeQuarters(|u| - 4);
    }
  }

  lemma ThreeQuarters(n: nat)
    ensures (n + 4) * 3 / 4 == n * 3 / 4 + 3
  {
  }

  lemma Recombine(b0: Byte, b1: Byte, b2: Byte)
    ensures B0(S0(b0), S1(b0, b1)) == b0
    ensures B1(S1(b0, b1), S2(b1, b2)) == b1
    ensures B2(S2(b1, b2), S3(b2)) == b2
  {
    assert S1(b0, b1) / 16 == b0 % 4 && S1(b0, b1) % 16 == b1 / 16;
    assert S2(b1, b2) / 4 == b1 % 16 && S2(b1, b2) % 4 == b2 / 64;
  }

  lemma OctetsHead(u: seq<Sextet>, v: seq<Sextet>, b0: Byte, b1: Byte, b2: Byte, rest: seq<Byte>)
    requires |u| == 4 && Octets(v) == rest
    requires B0(u[0], u[1]) == b0 && B1(u[1], u[2]) == b1 && B2(u[2], u[3]) == b2
    ensures Octets(u + v) == [b0, b1, b2] + rest
  {
    assert (u + v)[4..] == v;
  }

  lemma OneOctet(b0: Byte)
    ensures Octets(Sextets([b0])) == [b0]
  {
    var u := Sextets([b0]);
    assert |u| == 2 && u[0] == S0(b0) && u[1] == S1(b0, 0);
    Recombine(b0, 0, 0);
  }

  lemma TwoOctets(b0: Byte, b1: Byte)
    ensures Octets(Sextets([b0, b1])) == [b0, b1]
  {
    var u := Sextets([b0, b1]);
    assert |u| == 3 && u[0] == S0(b0) && u[1] == S1(b0, b1) && u[2] == S2(b1, 0);
    Recombine(b0, b1, 0);
  }

  lemma {:induction false} OctetsOfSextets(bytes: seq<Byte>)
    ensures Octets(Sextets(bytes)) == bytes
  {
    if |bytes| >= 3 {
      var (b0, b1, b2) := (bytes[0], bytes[1], bytes[2]);
      OctetsOfSextets(bytes[3..]);
      Recombine(b0, b1, b2);
      OctetsHead([S0(b0), S1(b0, b1), S2(b1, b2), S3(b2)], Sextets(bytes[3..]), b0, b1, b2, bytes[3..]);
    } else if |bytes| == 2 {
      TwoOctets(bytes[0], bytes[1]);
      assert bytes == [bytes[0], bytes[1]];
    } else if |bytes| == 1 {
      OneOctet(bytes[0]);
      assert bytes == [bytes[0]];
    }
  }

  // --------------------------------------------------------------- the text --

  function Chars(u: seq<Sextet>): (s: string)
    ensures |s| == |u|
    ensures forall i | 0 <= i < |u| :: s[i] == Digit(u[i])
  {
    seq(|u|, i requires 0 <= i < |u| => Digit(u[i]))
  }

  predicate AllDigits(s: string) {
    forall c | c in s :: IsDigit(c)
  }

  function Values(s: string): (u: seq<Sextet>)
    requires AllDigits(s)
    ensures |u| == |s|
  {
    seq(|s|, i requires 0 <= i < |s| => Value(s[i]))
  }

  lemma ValuesOfChars(u: seq<Sextet>)
    ensures AllDigits(Chars(u)) && Values(Chars(u)) == u
  {
    var s := Chars(u);
    forall c | c in s ensures IsDigit(c) {
      var i :| 0 <= i < |s| && s[i] == c;
    }
    forall i | 0 <= i < |u| ensures Values(s)[i] == u[i] {
      assert s[i] == Digit(u[i]);
    }
  }

  /** One sign for each byte missing in the last three. */
  function Padding(bytes: seq<Byte>): (s: string)
    ensures s in {"", "=", "=="}
  {
    if |bytes| >= 3 then Padding(bytes[3..]) else if |bytes| == 1 then "==" else if |bytes| == 2 then "=" else ""
  }

  function Encode(bytes: seq<Byte>): (s: string) {
    Chars(Sextets(bytes)) + Padding(bytes)
  }

  function Quartets(bytes: seq<Byte>): (n: nat) {
    if |bytes| >= 3 then 1 + Quartets(bytes[3..]) else if bytes == [] then 0 else 1
  }

  lemma {:induction false} SextetsAndPadding(bytes: seq<Byte>)
    ensures |Sextets(bytes)| + |Padding(bytes)| == 4 * Quartets(bytes)
  {
    if |bytes| >= 3 {
      SextetsAndPadding(bytes[3..]);
    }
  }

  lemma FourTimes(n: nat)
    ensures 4 * n % 4 == 0
  {
  }

  lemma EncodeLength(bytes: seq<Byte>)
    ensures |Encode(bytes)| % 4 == 0
  {
    SextetsAndPadding(bytes);
    FourTimes(Quartets(bytes));
  }

  function Digits(input: string): (clean: string)
    ensures AllDigits(clean)
  {
    if input == "" then ""
    else (if IsDigit(input[0]) then [input[0]] else "") + Digits(input[1..])
  }

  /** What the app decodes: every character that is not a digit is dropped. */
  function Decode(input: string): (r: seq<Byte>) {
    Octets(Values(Digits(input)))
  }

  function PadCount(s: string): (n: nat)
    ensures n <= |s| && n <= 2
  {
    if |s| >= 2 && s[|s| - 2] == '=' && s[|s| - 1] == '=' then 2
    else if |s| >= 1 && s[|s| - 1] == '=' then 1
    else 0
  }

  /** What the core decodes: padded quartets only, and no stray bits before the padding. */
  function DecodeStrict(s: string): (r: Option<seq<Byte>>)
  {
    var body := s[..|s| - PadCount(s)];
    if |s| % 4 != 0 || !AllDigits(body) then None
    else
      var bytes := Octets(Values(body));
      if Encode(bytes) == s then Some(bytes) else None
  }

  // --------------------------------------------------------- round trips --

  lemma {:induction false} DigitsOfText(u: string, pad: string)
    requires AllDigits(u) && (pad == "" || pad == "=" || pad == "==")
    ensures Digits(u + pad) == u
  {
    if u == "" {
      assert u + pad == pad;
      assert Digits("=") == Digits("") by { assert "="[1..] == ""; }
      assert Digits("==") == Digits("=") by { assert "=="[1..] == "="; }
    } else {
      DigitsOfText(u[1..], pad);
      assert (u + pad)[1..] == u[1..] + pad;
      assert u[0] in u;
    }
  }

  /** Decoding what was encoded gives the bytes back. */
  lemma RoundTrip(bytes: seq<Byte>)
    ensures Decode(Encode(bytes)) == bytes
  {
    ValuesOfChars(Sextets(bytes));
    DigitsOfText(Chars(Sextets(bytes)), Padding(bytes));
    OctetsOfSextets(bytes);
  }

  lemma StrictRoundTrip(bytes: seq<Byte>)
    ensures DecodeStrict(Encode(bytes)) == Some(bytes)
  {
    var u := Sextets(bytes);
    ValuesOfChars(u);
    OctetsOfSextets(bytes);
    EncodeLength(bytes);
    CountPadding(Chars(u), Padding(bytes));
  }

  lemma CountPadding(text: string, pad: string)
    requires AllDigits(text) && pad in {"", "=", "=="}
    ensures PadCount(text + pad) == |pad| && (text + pad)[..|text|] == text
  {
    var s := text + pad;
    forall i | 0 <= i < |text| ensures s[i] != '=' {
      assert text[i] in text;
    }
  }

  // ------------------------------------------------------------ the loops --

  /** What the loop below appends for the byte `b0` and the two after it; -1 stands for one past the end. */
  function Quartet(b0: Byte, b1: int, b2: int): (s: string)
    requires -1 <= b1 < 256 && -1 <= b2 < 256
  {
    [Digit(S0(b0)),
     Digit(S1(b0, if b1 == -1 then 0 else b1)),
     if b1 == -1 then '=' else Digit(S2(b1, if b2 == -1 then 0 else b2)),
     if b2 == -1 then '=' else Digit(S3(b2))]
  }

  lemma CharsAppend(u: seq<Sextet>, v: seq<Sextet>)
    ensures Chars(u + v) == Chars(u) + Chars(v)
  {
  }

  lemma EncodeStep(rest: seq<Byte>, b0: Byte, b1: int, b2: int)
    requires rest != [] && b0 == rest[0] && (b1 == -1 ==> b2 == -1)
    requires b1 == if |rest| > 1 then rest[1] else -1
    requires b2 == if |rest| > 2 then rest[2] else -1
    ensures Encode(rest) == Quartet(b0, b1, b2) + if |rest| > 3 then Encode(rest[3..]) else ""
  {
    if |rest| >= 3 {
      FullQuartet(b0, b1, b2, rest[3..]);
      assert Sextets(rest) == [S0(b0), S1(b0, b1), S2(b1, b2), S3(b2)] + Sextets(rest[3..]);
      EncodeNothing();
      assert |rest| == 3 ==> rest[3..] == [];
    } else if |rest| == 2 {
      ShortQuartet(b0, b1);
    } else {
      ShortestQuartet(b0);
    }
  }

  lemma EncodeNothing()
    ensures Encode([]) == ""
  {
  }

  lemma FullQuartet(b0: Byte, b1: Byte, b2: Byte, rest: seq<Byte>)
    ensures Chars([S0(b0), S1(b0, b1), S2(b1, b2), S3(b2)] + Sextets(rest)) + Padding(rest) == Quartet(b0, b1, b2) + Encode(rest)
  {
    var head := [S0(b0), S1(b0, b1), S2(b1, b2), S3(b2)];
    CharsAppend(head, Sextets(rest));
    assert Chars(head) == Quartet(b0, b1, b2);
    Reassociate(Chars(head), Chars(Sextets(rest)), Padding(rest));
  }

  lemma Reassociate(a: string, b: string, c: string)
    ensures a + b + c == a + (b + c)
  {
  }

  lemma ShortQuartet(b0: Byte, b1: Byte)
    ensures Chars([S0(b0), S1(b0, b1), S2(b1, 0)]) + "=" == Quartet(b0, b1, -1) + ""
  {
  }

  lemma ShortestQuartet(b0: Byte)
    ensures Chars([S0(b0), S1(b0, 0)]) + "==" == Quartet(b0, -1, -1) + ""
  {
  }

  function EncodeFrom(bytes: seq<Byte>, i: nat): (s: string) {
    if i < |bytes| then Encode(bytes[i..]) else ""
  }

  function ByteAt(bytes: seq<Byte>, i: nat): (b: int)
    ensures -1 <= b < 256
  {
    if i < |bytes| then bytes[i] else -1
  }

  lemma EncodeFromStep(bytes: seq<Byte>, i: nat)
    requires i < |bytes|
    ensures EncodeFrom(bytes, i) == Quartet(bytes[i], ByteAt(bytes, i + 1), ByteAt(bytes, i + 2)) + EncodeFrom(bytes, i + 3)
  {
    EncodeStep(bytes[i..], bytes[i], ByteAt(bytes, i + 1), ByteAt(bytes, i + 2));
    if i + 3 < |bytes| {
      assert bytes[i..][3..] == bytes[i + 3..];
    }
  }

  method BytesToBase64(bytes: seq<Byte>) returns (out: string)
    ensures out == Encode(bytes)
  {
    out := "";
    var i := 0;
    EncodeFromStart(bytes);
    while i < |bytes|
      invariant 0 <= i
      invariant Encode(bytes) == out + EncodeFrom(bytes, i)
    {
      var quartet := Quartet(bytes[i], ByteAt(bytes, i + 1), ByteAt(bytes, i + 2));
      EncodeFromStep(bytes, i);
      Reassociate(out, quartet, EncodeFrom(bytes, i + 3));
      out := out + quartet;
      i := i + 3;
    }
  }

  lemma EncodeFromStart(bytes: seq<Byte>)
    ensures Encode(bytes) == "" + EncodeFrom(bytes, 0)
  {
    EncodeNothing();
    assert bytes[0..] == bytes;
  }

  /** The 24 bits of a quartet, cut into bytes. */
  lemma Cut(a: Sextet, b: Sextet, c: Sextet, d: Sextet)
    ensures var n := a * 262144 + b * 4096 + c * 64 + d;
      n / 65536 % 256 == B0(a, b) && n / 256 % 256 == B1(b, c) && n % 256 == B2(c, d)
  {
    CutBits(a, b / 16, b % 16, c / 4, c % 4, d);
  }

  lemma CutBits(a: int, b1: int, b0: int, c1: int, c0: int, d: int)
    requires 0 <= a < 64 && 0 <= b1 < 4 && 0 <= b0 < 16 && 0 <= c1 < 16 && 0 <= c0 < 4 && 0 <= d < 64
    ensures var n := a * 262144 + (b1 * 16 + b0) * 4096 + (c1 * 4 + c0) * 64 + d;
      n / 65536 % 256 == a * 4 + b1 && n / 256 % 256 == b0 * 16 + c1 && n % 256 == c0 * 64 + d
  {
    BytesOf(a * 4 + b1, b0 * 16 + c1, c0 * 64 + d);
  }

  lemma BytesOf(x: int, y: int, z: int)
    requires 0 <= x < 256 && 0 <= y < 256 && 0 <= z < 256
    ensures var n := x * 65536 + y * 256 + z;
      n / 65536 % 256 == x && n / 256 % 256 == y && n % 256 == z
  {
    DivideBy256(x * 256 + y, z);
    DivideBy256(x, y);
    DivideBy65536(x, y * 256 + z);
  }

  lemma DivideBy256(q: int, r: int)
    requires 0 <= q && 0 <= r < 256
    ensures (q * 256 + r) / 256 == q && (q * 256 + r) % 256 == r
  {
  }

  lemma DivideBy65536(q: int, r: int)
    requires 0 <= q < 256 && 0 <= r < 65536
    ensures (q * 65536 + r) / 65536 % 256 == q
  {
  }

  function At(u: seq<Sextet>, i: nat): (n: Sextet) {
    if i < |u| then u[i] else 0
  }

  /** The bytes of the quartet at `i`, as many as the digits there are for. */
  function Written(u: seq<Sextet>, i: nat): (r: seq<Byte>)
    requires i < |u|
  {
    [B0(u[i], At(u, i + 1))]
    + (if i + 2 < |u| then [B1(u[i + 1], u[i + 2])] else [])
    + (if i + 3 < |u| then [B2(u[i + 2], u[i + 3])] else [])
  }

  /** Four digits put together into 24 bits, and those cut into bytes. */
  method CutQuartet(a: Sextet, b: Sextet, c: Sextet, d: Sextet) returns (b0: Byte, b1: Byte, b2: Byte)
    ensures b0 == B0(a, b) && b1 == B1(b, c) && b2 == B2(c, d)
  {
    var n: int := a * 262144 + b * 4096 + c * 64 + d;
    Cut(a, b, c, d);
    b0 := n / 65536 % 256;
    b1 := n / 256 % 256;
    b2 := n % 256;
  }

  function OctetsFrom(u: seq<Sextet>, i: nat): (r: seq<Byte>) {
    if i < |u| then Octets(u[i..]) else []
  }

  /** All the bytes of a quartet are wanted, except that one digit left over gives none. */
  lemma OctetsFromStep(u: seq<Sextet>, i: nat)
    requires i < |u|
    ensures OctetsFrom(u, i) == if i + 1 == |u| then [] else Written(u, i) + OctetsFrom(u, i + 4)
    ensures i + 4 >= |u| ==> OctetsFrom(u, i + 4) == []
  {
    if i + 4 <= |u| {
      OctetsHead(u[i..i + 4], u[i + 4..], B0(u[i], u[i + 1]), B1(u[i + 1], u[i + 2]), B2(u[i + 2], u[i + 3]), Octets(u[i + 4..]));
      assert u[i..] == u[i..i + 4] + u[i + 4..];
      if i + 4 == |u| { assert Octets(u[i + 4..]) == []; }
    }
  }

  method Base64ToBytes(input: string) returns (r: seq<Byte>)
    ensures r == Decode(input)
  {
    var clean := Digits(input);
    var u := Values(clean);
    OctetsLength(u);
    r := WriteOctets(u, |clean| * 3 / 4);
  }

  method WriteOctets(u: seq<Sextet>, length: nat) returns (r: seq<Byte>)
    requires length == |Octets(u)|
    ensures r == Octets(u)
  {
    var out := new Byte[length](_ => 0);
    var p := 0;
    var i := 0;
    ghost var all, left := Octets(u), Octets(u);
    OctetsFromStart(u);
    while i < |u|
      invariant 0 <= i && 0 <= p && left == OctetsFrom(u, i)
      invariant if i < |u| then p + |left| == length else p >= length && left == []
      invariant all == out[..Min(p, length)] + left
    {
      var bytes := QuartetBytes(u, i);
      WriteNext(out, p, bytes, left, OctetsFrom(u, i + 4));
      left := OctetsFrom(u, i + 4);
      p := p + |bytes|;
      i := i + 4;
    }
    r := out[..Min(p, length)];
  }

  lemma OctetsFromStart(u: seq<Sextet>)
    ensures OctetsFrom(u, 0) == Octets(u)
  {
    assert u[0..] == u;
  }

  method QuartetBytes(u: seq<Sextet>, i: nat) returns (bytes: seq<Byte>)
    requires i < |u|
    ensures OctetsFrom(u, i) == bytes + OctetsFrom(u, i + 4) || OctetsFrom(u, i) == OctetsFrom(u, i + 4) == []
    ensures i + 4 >= |u| ==> OctetsFrom(u, i + 4) == []
  {
    OctetsFromStep(u, i);
    var b0, b1, b2 := CutQuartet(u[i], At(u, i + 1), At(u, i + 2), At(u, i + 3));
    bytes := [b0] + (if i + 2 < |u| then [b1] else []) + (if i + 3 < |u| then [b2] else []);
  }

  /** One turn of the loop: of what is left to write, `bytes`, unless they are past the end. */
  method WriteNext(out: array<Byte>, p: nat, bytes: seq<Byte>, ghost left: seq<Byte>, ghost rest: seq<Byte>)
    requires p + |left| == out.Length
    requires left == bytes + rest || (left == [] && rest == [])
    modifies out
    ensures old(out[..p]) + left == out[..Min(p + |bytes|, out.Length)] + rest
    ensures p + |bytes| + |rest| == out.Length || (rest == [] && p + |bytes| >= out.Length)
  {
    ghost var done := out[..p];
    WriteAll(out, p, bytes);
    Advance(done + left, done, left, bytes, rest, out[..Min(p + |bytes|, out.Length)], out.Length);
  }

  /** One turn of the loop: either the bytes are the next ones, or they are past the end. */
  lemma Advance(all: seq<Byte>, done: seq<Byte>, left: seq<Byte>, bytes: seq<Byte>, rest: seq<Byte>, after: seq<Byte>, length: nat)
    requires all == done + left && |all| == length && |done| + |left| == length
    requires left == bytes + rest || (left == [] && rest == [])
    requires after == done + bytes[..Min(|bytes|, length - |done|)]
    ensures all == after + rest
    ensures |done| + |bytes| + |rest| == length || (rest == [] && |done| + |bytes| >= length)
  {
    if left == bytes + rest {
      assert bytes[..|bytes|] == bytes;
      assert done + (bytes + rest) == (done + bytes) + rest;
    } else {
      assert bytes[..0] == [];
    }
  }

  function Min(a: nat, b: nat): (m: nat) {
    if a < b then a else b
  }

  /** Writes past the end of a typed array have no effect. */
  method WriteAll(out: array<Byte>, at: nat, bytes: seq<Byte>)
    requires at <= out.Length
    modifies out
    ensures out[..Min(at + |bytes|, out.Length)] == old(out[..at]) + bytes[..Min(|bytes|, out.Length - at)]
  {
    for k := 0 to |bytes|
      invariant out[..Min(at + k, out.Length)] == old(out[..at]) + bytes[..Min(k, out.Length - at)]
    {
      if at + k < out.Length {
        out[at + k] := bytes[k];
        assert out[..at + k + 1] == out[..at + k] + [bytes[k]];
        assert bytes[..k + 1] == bytes[..k] + [bytes[k]];
      }
    }
  }

  // ------------------------------------------------------------ the format --

  lemma {:induction false} DigitsAppend(a: string, b: string)
    ensures Digits(a + b) == Digits(a) + Digits(b)
  {
    if a == "" {
      assert a + b == b;
    } else {
      assert (a + b)[1..] == a[1..] + b;
      DigitsAppend(a[1..], b);
    }
  }

  lemma {:induction false} NoDigits(s: string)
    requires forall c | c in s :: !IsDigit(c)
    ensures Digits(s) == ""
  {
    if s != "" {
      assert s[0] in s;
      NoDigits(s[1..]);
    }
  }

  /** Line ends, spaces and anything else between the digits do not change what is decoded. */
  lemma NoiseIsDropped(a: string, noise: string, b: string)
    requires forall c | c in noise :: !IsDigit(c)
    ensures Decode(a + noise + b) == Decode(a + b)
  {
    DigitsAppend(a + noise, b);
    DigitsAppend(a, noise);
    DigitsAppend(a, b);
    NoDigits(noise);
    assert Digits(a + noise) == Digits(a);
    assert Digits(a + noise + b) == Digits(a + b);
  }

  /** The first and last of the upper case, lower case and figures, and the two signs (table 1 of RFC 4648). */
  lemma Alphabet(v: Sextet)
    ensures v < 26 ==> Digit(v) == ('A' as int + v) as char
    ensures 26 <= v < 52 ==> Digit(v) == ('a' as int + (v - 26)) as char
    ensures 52 <= v < 62 ==> Digit(v) == ('0' as int + (v - 52)) as char
    ensures Digit(62) == '+' && Digit(63) == '/'
  {
  }

  /** Test vectors of section 10 of RFC 4648. */
  lemma Vectors()
    ensures Encode([]) == "" && Encode([102]) == "Zg==" && Encode([102, 111]) == "Zm8=" && Encode([102, 111, 111]) == "Zm9v"
  {
    assert Sextets([102]) == [25, 32] && Sextets([102, 111]) == [25, 38, 60];
    var three: seq<Byte> := [102, 111, 111];
    assert three[3..] == [];
    assert Sextets(three) == [25, 38, 61, 47] + Sextets(three[3..]);
    assert Sextets(three[3..]) == [];
    assert Padding(three) == Padding(three[3..]) == "";
    assert Chars([25, 38, 61, 47]) == "Zm9v";
  }
}
