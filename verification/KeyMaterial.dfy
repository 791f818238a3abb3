/**
 * Key ids, and a bank cut out of the material an exchange gave both ends
 * (core/src/km.rs:165-200 and 457-467).
 */
module KeyMaterial {
  import opened Common
  import opened KeyBank

  const SEED_BYTES := 14

  /** HKDF over the material, one 14-byte seed a slot. Any function of that shape. */
  type IdDerivation = (Bytes, nat) -> seq<Byte>

  ghost predicate GoodDerivation(derive: IdDerivation) {
    forall material, slot :: |derive(material, slot)| == SEED_BYTES
  }

  function HexDigit(n: int): (c: char)
    requires 0 <= n < 16
  {
    "0123456789abcdef"[n]
  }

  function Hex(bytes: seq<Byte>): (s: string)
    ensures |s| == 2 * |bytes|
  {
    if bytes == [] then ""
    else [HexDigit(bytes[0] / 16), HexDigit(bytes[0] % 16)] + Hex(bytes[1..])
  }

  /** Four hex digits, enough for any slot of a bank. */
  function Hex4(slot: nat): (s: string)
    requires slot < 0x1_0000
    ensures |s| == 4
  {
    Hex([slot / 256, slot % 256])
  }

  function IdFrom(seed: seq<Byte>, slot: nat): (id: KeyId)
    requires |seed| == SEED_BYTES && slot < 0x1_0000
    ensures |id| == 36
  {
    var r := Hex(seed);
    r[..8] + "-" + r[8..12] + "-4" + r[12..15] + "-" + r[15..19] + "-" + r[19..27] + Hex4(slot)
  }

  lemma HexDigitInjective(m: int, n: int)
    requires 0 <= m < 16 && 0 <= n < 16 && HexDigit(m) == HexDigit(n)
    ensures m == n
  {
    var digits := "0123456789abcdef";
    assert forall i, j :: 0 <= i < j < 16 ==> digits[i] != digits[j];
  }

  lemma {:induction false} HexInjective(a: seq<Byte>, b: seq<Byte>)
    requires |a| == |b| && Hex(a) == Hex(b)
    ensures a == b
  {
    if a != [] {
      assert Hex(a)[0] == Hex(b)[0] && Hex(a)[1] == Hex(b)[1];
      HexDigitInjective(a[0] / 16, b[0] / 16);
      HexDigitInjective(a[0] % 16, b[0] % 16);
      assert Hex(a)[2..] == Hex(a[1..]) && Hex(b)[2..] == Hex(b[1..]);
      HexInjective(a[1..], b[1..]);
    }
  }

  lemma Hex4Injective(m: nat, n: nat)
    requires m < 0x1_0000 && n < 0x1_0000 && Hex4(m) == Hex4(n)
    ensures m == n
  {
    HexInjective([m / 256, m % 256], [n / 256, n % 256]);
    assert [m / 256, m % 256][0] == [n / 256, n % 256][0];
    assert [m / 256, m % 256][1] == [n / 256, n % 256][1];
  }

  lemma Halves(a: string, b: string, i: nat, j: nat)
    requires |a| == i && |a| + |b| == j
    ensures (a + b)[..i] == a && (a + b)[i..j] == b
  {
  }

  lemma Inner(id: string, i: nat, j: nat, k: nat)
    requires i <= j <= k <= |id|
    ensures id[..k][..i] == id[..i] && id[..k][i..j] == id[i..j]
  {
  }

  /** The parts an id is made of can be read back: the first 27 digits of the seed, and the slot. */
  lemma IdFromParts(seed: seq<Byte>, slot: nat)
    requires |seed| == SEED_BYTES && slot < 0x1_0000
    ensures var (id, r) := (IdFrom(seed, slot), Hex(seed));
      && id[..8] == r[..8] && id[9..13] == r[8..12] && id[15..18] == r[12..15]
      && id[19..23] == r[15..19] && id[24..32] == r[19..27]
      && id[32..] == Hex4(slot)
  {
    var r := Hex(seed);
    var id := IdFrom(seed, slot);
    var e1 := r[..8] + "-";
    var e2 := e1 + r[8..12];
    var e3 := e2 + "-4";
    var e4 := e3 + r[12..15];
    var e5 := e4 + "-";
    var e6 := e5 + r[15..19];
    var e7 := e6 + "-";
    var e8 := e7 + r[19..27];
    assert id == e8 + Hex4(slot);
    Halves(e8, Hex4(slot), 32, 36);
    Halves(e7, r[19..27], 24, 32);
    Halves(e6, "-", 23, 24);
    Halves(e5, r[15..19], 19, 23);
    Halves(e4, "-", 18, 19);
    Halves(e3, r[12..15], 15, 18);
    Halves(e2, "-4", 13, 15);
    Halves(e1, r[8..12], 9, 13);
    Halves(r[..8], "-", 8, 9);
    Inner(id, 24, 32, 32);
    Inner(e8, 23, 24, 24);
    Inner(id, 24, 24, 32);
    Inner(id, 23, 23, 24);
    Inner(id, 19, 23, 23);
    Inner(id, 18, 18, 19);
    Inner(id, 15, 18, 18);
    Inner(id, 13, 13, 15);
    Inner(id, 9, 13, 13);
    Inner(id, 8, 8, 9);
  }

  predicate SameParts(r: string, q: string)
    requires |r| == |q| == 28
  {
    r[..8] == q[..8] && r[8..12] == q[8..12] && r[12..15] == q[12..15] && r[15..19] == q[15..19] && r[19..27] == q[19..27]
  }

  lemma SamePartsSameDigits(r: string, q: string)
    requires |r| == |q| == 28
    ensures SameParts(r, q) <==> r[..27] == q[..27]
  {
    if SameParts(r, q) {
      forall k | 0 <= k < 27 ensures r[k] == q[k] {
        if k < 8 { assert r[..8][k] == q[..8][k]; }
        else if k < 12 { assert r[8..12][k - 8] == q[8..12][k - 8]; }
        else if k < 15 { assert r[12..15][k - 12] == q[12..15][k - 12]; }
        else if k < 19 { assert r[15..19][k - 15] == q[15..19][k - 15]; }
        else { assert r[19..27][k - 19] == q[19..27][k - 19]; }
      }
    }
    if r[..27] == q[..27] {
      forall k | 0 <= k < 27 ensures r[k] == q[k] {
        assert r[..27][k] == q[..27][k];
      }
    }
  }

  /**
   * Two ids are equal exactly when their slots and the first 27 of the 28
   * seed digits are: the last seed digit is never used.
   */
  lemma IdFromInjective(s: seq<Byte>, i: nat, t: seq<Byte>, j: nat)
    requires |s| == |t| == SEED_BYTES && i < 0x1_0000 && j < 0x1_0000
    ensures IdFrom(s, i) == IdFrom(t, j) <==> i == j && Hex(s)[..27] == Hex(t)[..27]
  {
    SamePartsSameDigits(Hex(s), Hex(t));
    if IdFrom(s, i) == IdFrom(t, j) {
      IdFromParts(s, i);
      IdFromParts(t, j);
      Hex4Injective(i, j);
    }
  }

  // ------------------------------------------------------------ fill_from --

  function KeyAt(material: Bytes, derive: IdDerivation, slot: nat): (k: BankKey)
    requires |material| == MATERIAL_BYTES && slot < BANK_SIZE && |derive(material, slot)| == SEED_BYTES
  {
    BankKey(IdFrom(derive(material, slot), slot), material[slot * KEY_BYTES..(slot + 1) * KEY_BYTES], Fresh)
  }

  ghost function BankKeys(material: Bytes, derive: IdDerivation): (keys: seq<BankKey>)
    requires |material| == MATERIAL_BYTES && GoodDerivation(derive)
    ensures |keys| == BANK_SIZE
    ensures forall slot | 0 <= slot < BANK_SIZE :: keys[slot] == KeyAt(material, derive, slot)
  {
    seq(BANK_SIZE, slot requires 0 <= slot < BANK_SIZE => KeyAt(material, derive, slot))
  }

  ghost function Fill(bank: Bank, material: Bytes, derive: IdDerivation, role: Role, peer: Sae): (r: Result<Bank, KmError>)
    requires GoodDerivation(derive)
  {
    if |material| != MATERIAL_BYTES then Err(WrongLength)
    else Ok(Built(bank.sae, peer, role, BankKeys(material, derive)))
  }

  function KeyBytesOf(keys: seq<BankKey>): (r: seq<Bytes>)
    ensures |r| == |keys|
  {
    seq(|keys|, i requires 0 <= i < |keys| => keys[i].key)
  }

  /**
   * A bank built from material has 100 well-sized fresh keys with distinct
   * ids, and its keys laid end to end are the material: nothing is dropped,
   * repeated or stretched.
   */
  lemma BankKeysMeaning(material: Bytes, derive: IdDerivation)
    requires |material| == MATERIAL_BYTES && GoodDerivation(derive)
    ensures var keys := BankKeys(material, derive);
      && DistinctIds(keys)
      && (forall k | k in keys :: k.state.Fresh? && |k.key| == KEY_BYTES)
      && Flatten(KeyBytesOf(keys)) == material
  {
    var keys := BankKeys(material, derive);
    forall i, j | 0 <= i < j < |keys| ensures keys[i].id != keys[j].id {
      assert keys[i] == KeyAt(material, derive, i) && keys[j] == KeyAt(material, derive, j);
      IdFromInjective(derive(material, i), i, derive(material, j), j);
    }
    forall k | k in keys ensures k.state.Fresh? && |k.key| == KEY_BYTES {
      var i :| 0 <= i < |keys| && keys[i] == k;
    }
    SlicesFlatten(material, KeyBytesOf(keys), 0);
    assert KeyBytesOf(keys)[0..] == KeyBytesOf(keys);
    assert material[0..] == material;
  }

  lemma {:induction false} SlicesFlatten(material: Bytes, slices: seq<Bytes>, from: nat)
    requires |material| == MATERIAL_BYTES && |slices| == BANK_SIZE && from <= BANK_SIZE
    requires forall i | 0 <= i < BANK_SIZE :: slices[i] == material[i * KEY_BYTES..(i + 1) * KEY_BYTES]
    ensures Flatten(slices[from..]) == material[from * KEY_BYTES..]
    decreases BANK_SIZE - from
  {
    if from < BANK_SIZE {
      SlicesFlatten(material, slices, from + 1);
      assert slices[from..][1..] == slices[from + 1..];
      assert material[from * KEY_BYTES..] == material[from * KEY_BYTES..(from + 1) * KEY_BYTES] + material[(from + 1) * KEY_BYTES..];
    }
  }
}
