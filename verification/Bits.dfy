/** Bits packed eight to an octet, lowest first (core/src/bb84.rs:369-384). */
module Bits {
  import opened Common

  type Octet = bv8

  function Bit(k: nat): (b: Octet)
    requires k < 8
  {
    match k
    case 0 => 1
    case 1 => 2
    case 2 => 4
    case 3 => 8
    case 4 => 16
    case 5 => 32
    case 6 => 64
    case 7 => 128
  }

  function OctetsFor(n: nat): (m: nat)
    ensures 8 * m - 8 < n <= 8 * m
  {
    (n + 7) / 8
  }

  /** The bit of position `i`, where it goes in octet `i / 8`. */
  function Placed(bits: seq<bool>, j: nat, k: nat): (b: Octet)
    requires k < 8
  {
    if 8 * j + k < |bits| && bits[8 * j + k] then Bit(k) else 0
  }

  function Or(p: seq<Octet>): (b: Octet)
    requires |p| == 8
  {
    p[0] | p[1] | p[2] | p[3] | p[4] | p[5] | p[6] | p[7]
  }

  function Flags(bits: seq<bool>, j: nat): (p: seq<Octet>)
    ensures |p| == 8
  {
    seq(8, k requires 0 <= k < 8 => Placed(bits, j, k))
  }

  function OctetAt(bits: seq<bool>, j: nat): (b: Octet) {
    Or(Flags(bits, j))
  }

  function Pack(bits: seq<bool>): (octets: seq<Octet>) {
    seq(OctetsFor(|bits|), j requires 0 <= j => OctetAt(bits, j))
  }

  function Unpack(octets: seq<Octet>, n: nat): (r: Option<seq<bool>>) {
    if |octets| < OctetsFor(n) then None
    else Some(seq(n, i requires 0 <= i < n => octets[i / 8] & Bit(i % 8) != 0))
  }

  // ------------------------------------------------------------- proof --

  /** Eight flags or-ed together, each in its own place, can be read back one by one. */
  lemma FlagsApart(p: seq<Octet>, k: nat)
    requires |p| == 8 && k < 8
    requires forall m | 0 <= m < 8 :: p[m] == 0 || p[m] == Bit(m)
    ensures (Or(p) & Bit(k) != 0) <==> p[k] == Bit(k)
  {
    var (a, b, c, d) := (p[0], p[1], p[2], p[3]);
    var (e, f, g, h) := (p[4], p[5], p[6], p[7]);
    assert a == 0 || a == Bit(0);
    assert b == 0 || b == Bit(1);
    assert c == 0 || c == Bit(2);
    assert d == 0 || d == Bit(3);
    assert e == 0 || e == Bit(4);
    assert f == 0 || f == Bit(5);
    assert g == 0 || g == Bit(6);
    assert h == 0 || h == Bit(7);
  }

  lemma PackedBit(bits: seq<bool>, i: nat)
    requires i < |bits|
    ensures i / 8 < |Pack(bits)|
    ensures (Pack(bits)[i / 8] & Bit(i % 8) != 0) <==> bits[i]
  {
    InRange(i, |bits|);
    FlagsApart(Flags(bits, i / 8), i % 8);
    assert Pack(bits)[i / 8] == Or(Flags(bits, i / 8));
    OwnFlag(bits, i);
  }

  lemma OwnFlag(bits: seq<bool>, i: nat)
    requires i < |bits|
    ensures Flags(bits, i / 8)[i % 8] == Bit(i % 8) <==> bits[i]
  {
    assert 8 * (i / 8) + i % 8 == i;
    assert Bit(i % 8) != 0;
  }

  /** Whatever the length, what was packed is unpacked, and unpacking a longer run of octets changes nothing. */
  lemma PackRoundTrip(bits: seq<bool>, more: seq<Octet>)
    ensures Unpack(Pack(bits) + more, |bits|) == Some(bits)
  {
    var octets := Pack(bits) + more;
    forall i | 0 <= i < |bits| ensures (octets[i / 8] & Bit(i % 8) != 0) == bits[i] {
      PackedBit(bits, i);
    }
    assert Unpack(octets, |bits|).value == bits;
  }

  lemma PackUnpack(bits: seq<bool>)
    ensures Unpack(Pack(bits), |bits|) == Some(bits)
  {
    PackRoundTrip(bits, []);
    assert Pack(bits) + [] == Pack(bits);
  }

  lemma OrOneMore(p: seq<Octet>, k: nat)
    requires |p| == 8 && k < 8 && p[k] == 0
    ensures Or(p[k := Bit(k)]) == Or(p) | Bit(k)
  {
  }

  lemma OctetStep(bits: seq<bool>, i: nat, j: nat)
    requires i < |bits|
    ensures OctetAt(bits[..i + 1], j) ==
      if j == i / 8 && bits[i] then OctetAt(bits[..i], j) | Bit(i % 8) else OctetAt(bits[..i], j)
  {
    var (p, q) := (Flags(bits[..i], j), Flags(bits[..i + 1], j));
    if j == i / 8 && bits[i] {
      assert q == p[i % 8 := Bit(i % 8)];
      OrOneMore(p, i % 8);
    } else {
      assert q == p;
    }
  }

  /** The octets `bits[..i]` are packed into, among as many as all the bits take. */
  ghost predicate PackedUpTo(bits: seq<bool>, i: nat, octets: seq<Octet>)
    requires i <= |bits|
  {
    |octets| == OctetsFor(|bits|) && forall j | 0 <= j < |octets| :: octets[j] == OctetAt(bits[..i], j)
  }

  lemma PackStep(bits: seq<bool>, i: nat, was: seq<Octet>, now: seq<Octet>)
    requires i < |bits| && i / 8 < |was| && PackedUpTo(bits, i, was)
    requires now == if bits[i] then was[i / 8 := was[i / 8] | Bit(i % 8)] else was
    ensures PackedUpTo(bits, i + 1, now)
  {
    forall j | 0 <= j < |now| ensures now[j] == OctetAt(bits[..i + 1], j) {
      OctetStep(bits, i, j);
    }
  }

  lemma NonePacked(bits: seq<bool>, octets: seq<Octet>)
    requires |octets| == OctetsFor(|bits|) && forall j | 0 <= j < |octets| :: octets[j] == 0
    ensures PackedUpTo(bits, 0, octets)
  {
    forall j | 0 <= j < |octets| ensures octets[j] == OctetAt(bits[..0], j) {
      NoneSet(bits, j);
    }
  }

  lemma NoneSet(bits: seq<bool>, j: nat)
    ensures OctetAt(bits[..0], j) == 0
  {
  }

  method PackBits(bits: seq<bool>) returns (octets: seq<Octet>)
    ensures octets == Pack(bits)
  {
    var out := Zeros(OctetsFor(|bits|));
    NonePacked(bits, out[..]);
    for i := 0 to |bits|
      invariant PackedUpTo(bits, i, out[..])
    {
      PackBit(bits, i, out);
    }
    octets := out[..];
    PackedAll(bits, octets);
  }

  method Zeros(n: nat) returns (out: array<Octet>)
    ensures fresh(out) && out.Length == n && forall j | 0 <= j < n :: out[j] == 0
  {
    out := new Octet[n](_ => 0);
  }

  /** One turn of the loop. */
  method PackBit(bits: seq<bool>, i: nat, out: array<Octet>)
    requires i < |bits| && PackedUpTo(bits, i, out[..])
    modifies out
    ensures PackedUpTo(bits, i + 1, out[..])
  {
    ghost var was := out[..];
    InRange(i, |bits|);
    if bits[i] {
      SetBit(out, i / 8, i % 8);
    }
    PackStep(bits, i, was, out[..]);
  }

  method SetBit(out: array<Octet>, j: nat, k: nat)
    requires j < out.Length && k < 8
    modifies out
    ensures out[..] == old(out[..])[j := old(out[j]) | Bit(k)]
  {
    out[j] := out[j] | Bit(k);
  }

  lemma PackedAll(bits: seq<bool>, octets: seq<Octet>)
    requires PackedUpTo(bits, |bits|, octets)
    ensures octets == Pack(bits)
  {
    assert bits[..|bits|] == bits;
  }

  lemma InRange(i: nat, n: nat)
    requires i < n
    ensures i / 8 < OctetsFor(n)
  {
  }
}
