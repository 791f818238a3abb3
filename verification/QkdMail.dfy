/** Sealing and opening Level 2 messages with a Key Manager (core/src/qkd.rs:77-123). */
module QkdMail {
  import opened Common
  import opened Strings
  import opened KeyBank
  import opened KeyManagers
  import opened Qkd
  import Utf8

  const NONCE_BYTES := 12
  const TAG_BYTES := 16

  /** AES-256-GCM: key, nonce, message, associated data. */
  datatype Aead = Aead(
    encrypt: (AesKey, Bytes, Bytes, string) -> Bytes,
    decrypt: (AesKey, Bytes, Bytes, string) -> Option<Bytes>)

  /** What opens is exactly what was sealed with the same key, nonce and data, and no two sealings agree. */
  ghost predicate Ideal(aead: Aead) {
    && (forall k, n, p, h :: |aead.encrypt(k, n, p, h)| >= TAG_BYTES)
    && (forall k, n, p, h :: aead.decrypt(k, n, aead.encrypt(k, n, p, h), h) == Some(p))
    && (forall k, n, c, h :: aead.decrypt(k, n, c, h).Some? ==> aead.encrypt(k, n, aead.decrypt(k, n, c, h).value, h) == c)
    && (forall k, n, p, h, k', n', p', h' :: aead.encrypt(k, n, p, h) == aead.encrypt(k', n', p', h') ==>
          k == k' && n == n' && p == p' && h == h')
  }

  /** The bytes of a Rust string. */
  type Text = bytes: Bytes | Utf8.IsText(bytes) witness []

  datatype Opened = Opened(plaintext: Text, level: nat, senderSae: Sae)

  function AesOf(key: QKey, sender: Option<Sae>): (k: AesKey) {
    AesKey(key.key, key.id, sender)
  }

  function SealWith(aead: Aead, key: QKey, sae: Sae, plaintext: Text, nonce: Bytes): (text: string) {
    var header := Header(2, CIPHER_BOUND, sae, [key.id]);
    Armor(header, nonce + aead.encrypt(AesOf(key, Some(sae)), nonce, plaintext, header))
  }

  function Seal(aead: Aead, bank: Bank, level: nat, plaintext: Text, nonce: Bytes): (r: Result<(Bank, string), QkdError>)
  {
    if level == 3 then Err(Level3Removed)
    else if level != 2 then Err(NoSuchLevel)
    else
      match Enc(bank, 1)
      case Err(e) => Err(Km(e))
      case Ok((after, out)) => if |out| == 1 then Ok((after, SealWith(aead, out[0], after.sae, plaintext, nonce))) else Err(Damaged)
  }

  /** Is this bound to its sender, or what is wrong with it? No key is needed to tell. */
  function Shape(parsed: Parsed): (r: Result<bool, QkdError>) {
    if parsed.level == 2 && |parsed.ids| == 1 && |parsed.payload| >= NONCE_BYTES + TAG_BYTES then
      if parsed.cipher == CIPHER_BOUND then Ok(true)
      else if parsed.cipher == CIPHER_UNBOUND then Ok(false)
      else Err(Damaged)
    else if parsed.level == 3 then Err(Level3Removed)
    else Err(Damaged)
  }

  function Decrypt(aead: Aead, parsed: Parsed, bound: bool, key: QKey): (r: Result<Opened, QkdError>)
    requires |parsed.payload| >= NONCE_BYTES
  {
    var header := Header(parsed.level, parsed.cipher, parsed.sae, parsed.ids);
    var sender := if bound then Some(parsed.sae) else None;
    match aead.decrypt(AesOf(key, sender), parsed.payload[..NONCE_BYTES], parsed.payload[NONCE_BYTES..], header)
    case None => Err(Tampered)
    case Some(plain) => if Utf8.IsText(plain) then Ok(Opened(plain, parsed.level, parsed.sae)) else Err(Damaged)
  }

  /** The bank afterwards, and what came out. A message whose shape is refused, or whose key is missing, costs nothing. */
  function Open(aead: Aead, bank: Bank, armored: string): (r: (Bank, Result<Opened, QkdError>))
  {
    match Parse(armored)
    case None => (bank, Err(Damaged))
    case Some(parsed) =>
      match Shape(parsed)
      case Err(e) => (bank, Err(e))
      case Ok(bound) =>
        match Dec(bank, parsed.ids)
        case Err(e) => (bank, Err(Km(e)))
        case Ok((after, out)) => if |out| == 1 then (after, Decrypt(aead, parsed, bound, out[0])) else (after, Err(Damaged))
  }

  method SealMessage(aead: Aead, km: KeyManager, level: nat, plaintext: Text, nonce: Bytes) returns (r: Result<string, QkdError>)
    modifies km
    ensures match Seal(aead, old(km.bank), level, plaintext, nonce)
      case Ok((after, text)) => km.bank == after && r == Ok(text)
      case Err(e) => km.bank == old(km.bank) && r == Err(e)
  {
    if level == 3 {
      return Err(Level3Removed);
    }
    if level != 2 {
      return Err(NoSuchLevel);
    }
    ghost var before := km.bank;
    var issued := km.EncKeys(1);
    if issued.Err? {
      return Err(Km(issued.error));
    }
    var (sae, keys) := issued.value;
    IssueFirstLength(before.keys, 1);
    var header := WriteHeader(2, CIPHER_BOUND, sae, [keys[0].id]);
    var sealed := aead.encrypt(AesOf(keys[0], Some(sae)), nonce, plaintext, header);
    var text := WriteArmor(header, nonce + sealed);
    r := Ok(text);
  }

  method OpenMessage(aead: Aead, km: KeyManager, armored: string) returns (r: Result<Opened, QkdError>)
    modifies km
    ensures (km.bank, r) == Open(aead, old(km.bank), armored)
  {
    var maybe := ParseArmored(armored);
    if maybe.None? {
      return Err(Damaged);
    }
    var parsed := maybe.value;
    var shape := Shape(parsed);
    if shape.Err? {
      return Err(shape.error);
    }
    ghost var before := km.bank;
    var keys := km.DecKeys(parsed.ids);
    if keys.Err? {
      return Err(Km(keys.error));
    }
    LookupAllMeaning(before.keys, parsed.ids);
    r := Decrypt(aead, parsed, shape.value, keys.value[0]);
  }

  // --------------------------------------------------------------- theorems --

  /** On one line and without two dashes in a row. */
  ghost predicate Prose(s: string) {
    OneLine(s) && forall i | 0 <= i < |s| - 1 :: s[i] != '-' || s[i + 1] != '-'
  }

  lemma ProseAppend(s: string, t: string)
    requires Prose(s) && Prose(t) && (t == "" || t[0] != '-')
    ensures Prose(s + t)
  {
    var st := s + t;
    assert forall i | 0 <= i < |st| :: st[i] == if i < |s| then s[i] else t[i - |s|];
  }

  lemma ProseHasNoEnd(s: string)
    requires Prose(s)
    ensures !Contains(s, END)
  {
    forall i: nat ensures !OccursAt(s, END, i) {
      OccursMeans(s, END, i);
      assert END[0] == '-' && END[1] == '-';
    }
  }

  lemma CiphersAreHeaderValues()
    ensures HeaderValue(CIPHER_BOUND) && HeaderValue(CIPHER_UNBOUND)
    ensures CIPHER_BOUND != CIPHER_UNBOUND
  {
    ProseAppend("AES-256-GCM, key from ", "HKDF-SHA256 over a QKD key");
    ProseAppend(CIPHER_UNBOUND, " and the sender");
    ProseHasNoEnd(CIPHER_UNBOUND);
    ProseHasNoEnd(CIPHER_BOUND);
    assert |CIPHER_BOUND| == |CIPHER_UNBOUND| + 15;
  }

  /**
   * What one end seals, an end that holds the same key under the same id
   * opens to the same bytes, whatever text the block travels in; the key is
   * then gone there and nothing else is.
   */
  lemma OpenAfterSeal(aead: Aead, key: QKey, sae: Sae, plaintext: Text, nonce: Bytes, bank: Bank, pre: string, post: string)
    requires Ideal(aead) && |nonce| == NONCE_BYTES
    requires HeaderValue(sae) && HeaderValue(key.id)
    requires Lookup(bank.keys, key.id) == Some(key.key)
    requires Find(pre + BEGIN, BEGIN) == Some(|pre|)
    ensures Open(aead, bank, pre + SealWith(aead, key, sae, plaintext, nonce) + post)
      == (bank.(keys := Retain(bank.keys, [key.id])), Ok(Opened(plaintext, 2, sae)))
  {
    var header := Header(2, CIPHER_BOUND, sae, [key.id]);
    var sealed := aead.encrypt(AesOf(key, Some(sae)), nonce, plaintext, header);
    CiphersAreHeaderValues();
    ParseOfArmor(pre, 2, CIPHER_BOUND, sae, [key.id], nonce + sealed, post);
    assert (nonce + sealed)[..NONCE_BYTES] == nonce && (nonce + sealed)[NONCE_BYTES..] == sealed;
    OneLookup(bank.keys, key.id);
  }

  lemma OneLookup(keys: seq<BankKey>, id: KeyId)
    ensures LookupAll(keys, [id]) == match Lookup(keys, id) case None => None case Some(key) => Some([QKey(id, key)])
  {
    assert [id][1..] == [];
    assert LookupAll(keys, [id][1..]) == Some([]);
    assert forall q: QKey :: [q] + [] == [q];
  }

  /** A Level 2 message as older versions sealed it: the key alone, no sender. */
  function SealedBefore(aead: Aead, key: QKey, sae: Sae, plaintext: Text, nonce: Bytes): (text: string) {
    var header := Header(2, CIPHER_UNBOUND, sae, [key.id]);
    Armor(header, nonce + aead.encrypt(AesOf(key, None), nonce, plaintext, header))
  }

  /** Older mail still opens, from any text around it: to what was written, and for its own key only. */
  lemma OpenAfterOldSeal(aead: Aead, key: QKey, sae: Sae, plaintext: Text, nonce: Bytes, bank: Bank, pre: string, post: string)
    requires Ideal(aead) && |nonce| == NONCE_BYTES
    requires HeaderValue(sae) && HeaderValue(key.id)
    requires Lookup(bank.keys, key.id) == Some(key.key)
    requires Find(pre + BEGIN, BEGIN) == Some(|pre|)
    ensures Open(aead, bank, pre + SealedBefore(aead, key, sae, plaintext, nonce) + post)
      == (bank.(keys := Retain(bank.keys, [key.id])), Ok(Opened(plaintext, 2, sae)))
  {
    var header := Header(2, CIPHER_UNBOUND, sae, [key.id]);
    var sealed := aead.encrypt(AesOf(key, None), nonce, plaintext, header);
    CiphersAreHeaderValues();
    ParseOfArmor(pre, 2, CIPHER_UNBOUND, sae, [key.id], nonce + sealed, post);
    TwoParts(nonce, sealed);
    OneLookup(bank.keys, key.id);
  }

  /** What `Open` takes for a message: one key, a payload with room for nonce and tag, and one of the two derivations. */
  predicate IsMessage(parsed: Parsed) {
    && parsed.level == 2 && |parsed.ids| == 1 && |parsed.payload| >= 28
    && parsed.cipher in {CIPHER_BOUND, CIPHER_UNBOUND}
  }

  /** The text is a message, and its key is here. */
  predicate Fetches(bank: Bank, armored: string) {
    && Parse(armored).Some? && IsMessage(Parse(armored).value)
    && Parse(armored).value.ids[0] in Ids(bank.keys)
  }

  /**
   * A text that is no Level 2 message of this or the older derivation, or
   * whose key is missing, costs nothing, and the error says why. Any other
   * costs exactly the key it names, even one that is then refused because it
   * was changed, or because it holds no text.
   */
  lemma OpeningCosts(aead: Aead, bank: Bank, armored: string)
    ensures var (after, r) := Open(aead, bank, armored);
      && (!Fetches(bank, armored) ==> after == bank && r == Err(
           match Parse(armored)
           case None => Damaged
           case Some(parsed) => if IsMessage(parsed) then Km(KeyMissing) else if parsed.level == 3 then Level3Removed else Damaged))
      && (Fetches(bank, armored) ==>
           var ids := Parse(armored).value.ids;
           && after == bank.(keys := Retain(bank.keys, ids)) && Ids(after.keys) == Ids(bank.keys) - {ids[0]}
           && (r.Err? ==> r.error == Tampered || r.error == Damaged))
  {
    if Parse(armored).Some? && IsMessage(Parse(armored).value) {
      var ids := Parse(armored).value.ids;
      DecMeaning(bank, ids);
      LookupAllMeaning(bank.keys, ids);
      RetainMeaning(bank.keys, ids);
      assert ids == [ids[0]] && ids[0] in ids;
    }
  }

  /** Sealing succeeds exactly at Level 2 with a bank that may issue and has a key left; the error says which is not so. */
  lemma SealDecides(aead: Aead, bank: Bank, level: nat, plaintext: Text, nonce: Bytes)
    ensures Seal(aead, bank, level, plaintext, nonce).Ok? <==> level == 2 && !bank.handedOver && FreshIds(bank.keys) != {}
    ensures level == 3 ==> Seal(aead, bank, level, plaintext, nonce) == Err(Level3Removed)
    ensures level != 2 && level != 3 ==> Seal(aead, bank, level, plaintext, nonce) == Err(NoSuchLevel)
    ensures level == 2 && bank.handedOver ==> Seal(aead, bank, level, plaintext, nonce) == Err(Km(HandedOver))
    ensures level == 2 && !bank.handedOver && FreshIds(bank.keys) == {} ==>
      Seal(aead, bank, level, plaintext, nonce) == Err(Km(NoKeys(0)))
  {
    NoneFresh(bank.keys);
    if FreshCount(bank.keys) >= 1 {
      IssueFirstLength(bank.keys, 1);
    }
  }

  lemma {:induction false} NoneFresh(keys: seq<BankKey>)
    ensures FreshCount(keys) == 0 <==> FreshIds(keys) == {}
  {
    if keys != [] {
      NoneFresh(keys[1..]);
      IdsOfTail(keys);
    }
  }

  /** Once opened, a message is refused for want of its key, and nothing more is lost. */
  lemma SecondOpenFails(aead: Aead, bank: Bank, armored: string)
    requires Open(aead, bank, armored).1.Ok?
    ensures var after := Open(aead, bank, armored).0;
      Open(aead, after, armored) == (after, Err(Km(KeyMissing)))
  {
    var parsed := Parse(armored).value;
    DecMeaning(bank, parsed.ids);
    var after := Open(aead, bank, armored).0;
    DecMeaning(after, parsed.ids);
    assert parsed.ids[0] in parsed.ids;
    assert parsed.ids[0] !in Ids(after.keys);
  }

  /** Changing the `Cipher:` line of a sealed message to the old derivation does not open it. */
  lemma CipherLineIsAuthenticated(aead: Aead, key: QKey, sae: Sae, plaintext: Text, nonce: Bytes, bank: Bank)
    requires Ideal(aead) && |nonce| == NONCE_BYTES && HeaderValue(sae) && HeaderValue(key.id)
    ensures var header := Header(2, CIPHER_BOUND, sae, [key.id]);
      var payload := nonce + aead.encrypt(AesOf(key, Some(sae)), nonce, plaintext, header);
      Open(aead, bank, Armor(Header(2, CIPHER_UNBOUND, sae, [key.id]), payload)).1.Err?
  {
    var header := Header(2, CIPHER_BOUND, sae, [key.id]);
    var sealed := aead.encrypt(AesOf(key, Some(sae)), nonce, plaintext, header);
    CiphersAreHeaderValues();
    ParseOfBare(2, CIPHER_UNBOUND, sae, [key.id], nonce + sealed);
    var parsed := Parsed(2, CIPHER_UNBOUND, sae, [key.id], nonce + sealed);
    forall got ensures Decrypt(aead, parsed, false, got).Err? {
      UnboundFails(aead, key, sae, plaintext, nonce, header, parsed, got);
    }
  }

  /** What was sealed for a sender does not open without one. */
  lemma UnboundFails(aead: Aead, key: QKey, sae: Sae, plaintext: Text, nonce: Bytes, header: string, parsed: Parsed, got: QKey)
    requires Ideal(aead) && |nonce| == NONCE_BYTES
    requires parsed.payload == nonce + aead.encrypt(AesOf(key, Some(sae)), nonce, plaintext, header)
    ensures |parsed.payload| >= NONCE_BYTES && Decrypt(aead, parsed, false, got).Err?
  {
    TwoParts(nonce, aead.encrypt(AesOf(key, Some(sae)), nonce, plaintext, header));
  }

  /** A block with no text around it. */
  lemma ParseOfBare(level: nat, cipher: string, sae: Sae, ids: seq<KeyId>, payload: Bytes)
    requires level <= 255 && HeaderValues(cipher, sae, ids)
    ensures Parse(Armor(Header(level, cipher, sae, ids), payload)) == Some(Parsed(level, cipher, sae, ids, payload))
  {
    NothingBefore(BEGIN);
    ParseOfArmor("", level, cipher, sae, ids, payload, "");
    NothingAround(Armor(Header(level, cipher, sae, ids), payload));
  }

  lemma NothingBefore(s: string)
    ensures Find("" + s, s) == Some(0)
  {
    assert "" + s == s && OccursAt(s, s, 0);
    FindIs(s, s, 0);
  }

  lemma NothingAround(s: string)
    ensures "" + s + "" == s
  {
  }

  lemma TwoParts(nonce: Bytes, sealed: Bytes)
    requires |nonce| == NONCE_BYTES
    ensures (nonce + sealed)[..NONCE_BYTES] == nonce && (nonce + sealed)[NONCE_BYTES..] == sealed
  {
  }
}
