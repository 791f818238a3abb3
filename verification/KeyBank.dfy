/**
 * The Key Manager's bank of one-use keys (core/src/km.rs) as a value, and what
 * each operation does to it.
 */
module KeyBank {
  import opened Common

  type Sae = string
  type KeyId = string
  type Bytes = seq<Byte>

  const KEY_BYTES := 128
  const BANK_SIZE := 100
  const MATERIAL_BYTES := BANK_SIZE * KEY_BYTES

  datatype Role = Solo | Master | Slave

  datatype KeyState = Fresh | Issued

  datatype BankKey = BankKey(id: KeyId, key: Bytes, state: KeyState)

  datatype Bank = Bank(
    sae: Sae,
    peer: Option<Sae>,
    role: Role,
    keys: seq<BankKey>,
    handedOver: bool,
    handedOverAt: Option<int>)

  /** A key handed out, with its id. */
  datatype QKey = QKey(id: KeyId, key: Bytes)

  /**
   * The AES key of one message (core/src/qkd.rs:175-188): HKDF over the bank
   * key, its id and the sender's SAE id, taken as injective. No sender is
   * the older derivation.
   */
  datatype AesKey = AesKey(key: Bytes, id: KeyId, sender: Option<Sae>)

  datatype KmError =
    | HandedOver
    | NoKeys(left: nat)
    | KeyMissing
    | WrongLength
    | WrongCode
    | NotALink
    | DamagedBank

  // ------------------------------------------------------------- issuing --

  function FreshCount(keys: seq<BankKey>): (n: nat)
    ensures n <= |keys|
  {
    if keys == [] then 0
    else (if keys[0].state.Fresh? then 1 else 0) + FreshCount(keys[1..])
  }

  /** `keys` after its first `n` fresh keys were issued, and those keys in order. */
  function IssueFirst(keys: seq<BankKey>, n: nat): (r: (seq<BankKey>, seq<QKey>))
    ensures |r.0| == |keys|
  {
    if n == 0 || keys == [] then (keys, [])
    else if keys[0].state.Fresh? then
      var (rest, out) := IssueFirst(keys[1..], n - 1);
      ([keys[0].(state := Issued)] + rest, [QKey(keys[0].id, keys[0].key)] + out)
    else
      var (rest, out) := IssueFirst(keys[1..], n);
      ([keys[0]] + rest, out)
  }

  function Enc(bank: Bank, number: nat): (r: Result<(Bank, seq<QKey>), KmError>)
  {
    if bank.handedOver then Err(HandedOver)
    else if FreshCount(bank.keys) < number then Err(NoKeys(FreshCount(bank.keys)))
    else
      var (keys, out) := IssueFirst(bank.keys, number);
      Ok((bank.(keys := keys), out))
  }

  function FreshIds(keys: seq<BankKey>): (ids: set<KeyId>) {
    set k | k in keys && k.state.Fresh? :: k.id
  }

  function Ids(keys: seq<BankKey>): (ids: set<KeyId>) {
    set k | k in keys :: k.id
  }

  function QIds(out: seq<QKey>): (ids: set<KeyId>) {
    set q | q in out :: q.id
  }

  ghost predicate DistinctIds(keys: seq<BankKey>) {
    forall i, j :: 0 <= i < j < |keys| ==> keys[i].id != keys[j].id
  }

  lemma IdsOfTail(keys: seq<BankKey>)
    requires keys != []
    ensures Ids(keys) == {keys[0].id} + Ids(keys[1..])
    ensures FreshIds(keys) == (if keys[0].state.Fresh? then {keys[0].id} else {}) + FreshIds(keys[1..])
  {
    assert keys == [keys[0]] + keys[1..];
  }

  lemma QIdsOfTail(out: seq<QKey>)
    requires out != []
    ensures QIds(out) == {out[0].id} + QIds(out[1..])
  {
    assert out == [out[0]] + out[1..];
  }

  /** `out` was fresh in `keys` and is no longer in `after`, each key once; no key is lost or altered. */
  ghost predicate Issues(keys: seq<BankKey>, after: seq<BankKey>, out: seq<QKey>) {
    && |after| == |keys| && (forall i | 0 <= i < |keys| :: after[i].id == keys[i].id && after[i].key == keys[i].key)
    && DistinctIds(after)
    && Ids(after) == Ids(keys)
    && QIds(out) <= FreshIds(keys)
    && FreshIds(after) == FreshIds(keys) - QIds(out)
    && (forall q | q in out :: HasKey(keys, q.id, q.key))
    && (forall i, j :: 0 <= i < j < |out| ==> out[i].id != out[j].id)
  }

  lemma ConsKeeps(k: BankKey, k': BankKey, keys: seq<BankKey>, after: seq<BankKey>)
    requires DistinctIds([k] + keys) && k'.id == k.id && k'.key == k.key && DistinctIds(after)
    requires |after| == |keys| && forall i | 0 <= i < |keys| :: after[i].id == keys[i].id && after[i].key == keys[i].key
    ensures var (all, all') := ([k] + keys, [k'] + after);
      && (forall i | 0 <= i < |all| :: all'[i].id == all[i].id && all'[i].key == all[i].key)
      && DistinctIds(all')
  {
    forall j | 0 <= j < |keys| ensures k.id != keys[j].id {
      assert ([k] + keys)[0] == k && ([k] + keys)[j + 1] == keys[j];
    }
  }

  lemma ConsIds(k: BankKey, keys: seq<BankKey>)
    ensures Ids([k] + keys) == {k.id} + Ids(keys)
    ensures FreshIds([k] + keys) == (if k.state.Fresh? then {k.id} else {}) + FreshIds(keys)
  {
    IdsOfTail([k] + keys);
    assert ([k] + keys)[1..] == keys;
  }

  lemma ConsHasKeys(k: BankKey, keys: seq<BankKey>, out: seq<QKey>)
    requires forall q | q in out :: HasKey(keys, q.id, q.key)
    ensures forall q | q in out :: HasKey([k] + keys, q.id, q.key)
    ensures HasKey([k] + keys, k.id, k.key)
  {
    assert ([k] + keys)[1..] == keys;
    forall q | q in out ensures HasKey([k] + keys, q.id, q.key) {
      HasKeyOfTail([k] + keys, q.id, q.key);
    }
    assert ([k] + keys)[0] == k;
  }

  lemma NotAmong(k: BankKey, keys: seq<BankKey>)
    requires DistinctIds([k] + keys)
    ensures k.id !in Ids(keys) && k.id !in FreshIds(keys)
  {
    forall i | 0 <= i < |keys| ensures keys[i].id != k.id {
      assert ([k] + keys)[0] == k && ([k] + keys)[i + 1] == keys[i];
    }
  }

  lemma IssueSkips(k: BankKey, keys: seq<BankKey>, after: seq<BankKey>, out: seq<QKey>)
    requires Issues(keys, after, out) && DistinctIds([k] + keys) && !k.state.Fresh?
    ensures Issues([k] + keys, [k] + after, out)
  {
    ConsKeeps(k, k, keys, after);
    ConsIds(k, keys);
    ConsIds(k, after);
    ConsHasKeys(k, keys, out);
  }

  lemma IssueTakes(k: BankKey, keys: seq<BankKey>, after: seq<BankKey>, out: seq<QKey>)
    requires Issues(keys, after, out) && DistinctIds([k] + keys) && k.state.Fresh?
    ensures Issues([k] + keys, [k.(state := Issued)] + after, [QKey(k.id, k.key)] + out)
  {
    ConsKeeps(k, k.(state := Issued), keys, after);
    ConsIds(k, keys);
    ConsIds(k.(state := Issued), after);
    ConsHasKeys(k, keys, out);
    NotAmong(k, keys);
    QIdsOfCons(QKey(k.id, k.key), out);
    TakenDistinct(k, keys, out);
  }

  lemma TakenDistinct(k: BankKey, keys: seq<BankKey>, out: seq<QKey>)
    requires k.id !in FreshIds(keys) && QIds(out) <= FreshIds(keys)
    requires forall i, j :: 0 <= i < j < |out| ==> out[i].id != out[j].id
    ensures var all := [QKey(k.id, k.key)] + out;
      forall i, j :: 0 <= i < j < |all| ==> all[i].id != all[j].id
  {
    forall i | 0 <= i < |out| ensures out[i].id != k.id {
      assert out[i].id in QIds(out);
    }
  }

  lemma QIdsOfCons(q: QKey, out: seq<QKey>)
    ensures QIds([q] + out) == {q.id} + QIds(out)
    ensures forall i | 0 <= i < |out| :: out[i].id in QIds(out)
  {
    assert ([q] + out)[1..] == out;
    QIdsOfTail([q] + out);
  }

  /**
   * Issuing moves ids from the fresh set to the caller and nowhere else: what
   * comes out was fresh, is no longer, is duplicate-free, and no key is lost
   * or altered.
   */
  lemma {:induction false} IssueFirstMeaning(keys: seq<BankKey>, n: nat)
    requires DistinctIds(keys) && n <= FreshCount(keys)
    ensures var (after, out) := IssueFirst(keys, n);
      |out| == n && Issues(keys, after, out)
  {
    if n > 0 {
      var (k, rest) := (keys[0], keys[1..]);
      var m := if k.state.Fresh? then n - 1 else n;
      assert keys == [k] + rest;
      IssueFirstMeaning(rest, m);
      var (after, out) := IssueFirst(rest, m);
      if k.state.Fresh? {
        IssueTakes(k, rest, after, out);
      } else {
        IssueSkips(k, rest, after, out);
      }
    }
  }

  /** The bank holds key material `key` under `id`. */
  ghost predicate HasKey(keys: seq<BankKey>, id: KeyId, key: Bytes) {
    exists i :: 0 <= i < |keys| && keys[i].id == id && keys[i].key == key
  }

  lemma HasKeyOfTail(keys: seq<BankKey>, id: KeyId, key: Bytes)
    requires keys != [] && HasKey(keys[1..], id, key)
    ensures HasKey(keys, id, key)
  {
    var i :| 0 <= i < |keys[1..]| && keys[1..][i].id == id && keys[1..][i].key == key;
    assert keys[i + 1] == keys[1..][i];
  }

  lemma {:induction false} FreshCountSnoc(keys: seq<BankKey>, i: nat)
    requires i < |keys|
    ensures FreshCount(keys[..i + 1]) == FreshCount(keys[..i]) + if keys[i].state.Fresh? then 1 else 0
  {
    if i == 0 {
      assert keys[..1][1..] == [];
    } else {
      FreshCountSnoc(keys[1..], i - 1);
      assert keys[..i + 1][1..] == keys[1..][..i];
      assert keys[..i][1..] == keys[1..][..i - 1];
    }
  }

  lemma {:induction false} FreshCountPrefix(keys: seq<BankKey>, i: nat)
    requires i <= |keys|
    ensures FreshCount(keys[..i]) <= FreshCount(keys)
    decreases |keys| - i
  {
    if i == |keys| {
      assert keys[..i] == keys;
    } else {
      FreshCountSnoc(keys, i);
      FreshCountPrefix(keys, i + 1);
    }
  }

  /** Position by position: key `i` is issued iff it was fresh and fewer than `n` fresh keys stand before it. */
  lemma {:induction false} IssueFirstAt(keys: seq<BankKey>, n: nat, i: nat)
    requires i < |keys|
    ensures var before := FreshCount(keys[..i]);
      var (after, out) := IssueFirst(keys, n);
      if keys[i].state.Fresh? && before < n then
        && after[i] == keys[i].(state := Issued)
        && before < |out| && out[before] == QKey(keys[i].id, keys[i].key)
      else
        after[i] == keys[i]
  {
    if n > 0 && i > 0 {
      var m := if keys[0].state.Fresh? then n - 1 else n;
      IssueFirstAt(keys[1..], m, i - 1);
      assert keys[..i][1..] == keys[1..][..i - 1];
    }
  }

  // ------------------------------------------------- reading and deleting --

  function Lookup(keys: seq<BankKey>, id: KeyId): (key: Option<Bytes>)
    ensures key.Some? <==> id in Ids(keys)
    ensures key.Some? ==> HasKey(keys, id, key.value)
  {
    if keys == [] then None
    else if keys[0].id == id then
      assert keys[0] in keys;
      Some(keys[0].key)
    else
      var rest := Lookup(keys[1..], id);
      IdsOfTail(keys);
      assert rest.Some? ==> HasKey(keys, id, rest.value) by {
        if rest.Some? { HasKeyOfTail(keys, id, rest.value); }
      }
      rest
  }

  function LookupAll(keys: seq<BankKey>, ids: seq<KeyId>): (r: Option<seq<QKey>>)
  {
    if ids == [] then Some([])
    else
      match Lookup(keys, ids[0])
      case None => None
      case Some(key) =>
        match LookupAll(keys, ids[1..])
        case None => None
        case Some(rest) => Some([QKey(ids[0], key)] + rest)
  }

  function Retain(keys: seq<BankKey>, gone: seq<KeyId>): (r: seq<BankKey>)
  {
    if keys == [] then []
    else (if keys[0].id in gone then [] else [keys[0]]) + Retain(keys[1..], gone)
  }

  function Dec(bank: Bank, ids: seq<KeyId>): (r: Result<(Bank, seq<QKey>), KmError>)
  {
    match LookupAll(bank.keys, ids)
    case None => Err(KeyMissing)
    case Some(out) => Ok((bank.(keys := Retain(bank.keys, ids)), out))
  }

  lemma {:induction false} LookupAllMeaning(keys: seq<BankKey>, ids: seq<KeyId>)
    ensures LookupAll(keys, ids).Some? <==> forall id | id in ids :: id in Ids(keys)
    ensures LookupAll(keys, ids).Some? ==>
      var out := LookupAll(keys, ids).value;
      && |out| == |ids|
      && forall i | 0 <= i < |ids| :: out[i].id == ids[i] && Lookup(keys, ids[i]) == Some(out[i].key)
  {
    if ids != [] {
      LookupAllMeaning(keys, ids[1..]);
      assert forall id | id in ids :: id == ids[0] || id in ids[1..];
      assert forall id | id in ids[1..] :: id in ids;
    }
  }

  /** `Retain` drops exactly the named keys, in place and order untouched. */
  lemma {:induction false} RetainMeaning(keys: seq<BankKey>, gone: seq<KeyId>)
    ensures forall k :: k in Retain(keys, gone) <==> k in keys && k.id !in gone
    ensures DistinctIds(keys) ==> DistinctIds(Retain(keys, gone))
  {
    if keys != [] {
      RetainMeaning(keys[1..], gone);
      var rest := Retain(keys[1..], gone);
      assert keys == [keys[0]] + keys[1..];
      if DistinctIds(keys) && keys[0].id !in gone {
        var all := Retain(keys, gone);
        forall i, j | 0 <= i < j < |all| ensures all[i].id != all[j].id {
          assert all[j] in rest;
          if i == 0 {
            var m :| 0 <= m < |keys[1..]| && keys[1..][m] == all[j];
            assert keys[m + 1] == all[j];
          }
        }
      }
    }
  }

  /**
   * `dec_keys` succeeds exactly when every named key is held; it then returns
   * those keys in the order asked, deletes exactly them, and keeps every
   * other key as it was.
   */
  lemma DecMeaning(bank: Bank, ids: seq<KeyId>)
    ensures Dec(bank, ids).Ok? <==> forall id | id in ids :: id in Ids(bank.keys)
    ensures Dec(bank, ids).Ok? ==>
      var (after, out) := Dec(bank, ids).value;
      && |out| == |ids|
      && (forall i | 0 <= i < |ids| :: out[i].id == ids[i] && HasKey(bank.keys, ids[i], out[i].key))
      && (forall k :: k in after.keys <==> k in bank.keys && k.id !in ids)
      && (DistinctIds(bank.keys) ==> DistinctIds(after.keys))
      && Ids(after.keys) == Ids(bank.keys) - set id | id in ids
      && FreshIds(after.keys) == FreshIds(bank.keys) - set id | id in ids
      && after == bank.(keys := after.keys)
  {
    LookupAllMeaning(bank.keys, ids);
    RetainMeaning(bank.keys, ids);
  }

  // ---------------------------------------------- linking and moving banks --

  function AllFresh(keys: seq<BankKey>): (r: seq<BankKey>)
    ensures |r| == |keys|
    ensures forall i | 0 <= i < |keys| :: r[i] == keys[i].(state := Fresh)
  {
    seq(|keys|, i requires 0 <= i < |keys| => keys[i].(state := Fresh))
  }

  /** The bank a link carries to the other end, under that end's new SAE id. */
  function PeerOf(bank: Bank, newSae: Sae): (peer: Bank) {
    Bank(newSae, Some(bank.sae), Slave, AllFresh(bank.keys), false, None)
  }

  /** This end's bank once it has started a link. */
  function MasterOf(bank: Bank, newSae: Sae): (master: Bank) {
    bank.(role := Master, peer := Some(newSae))
  }

  function Adopted(bank: Bank): (b: Bank) {
    bank.(handedOver := false, handedOverAt := None)
  }

  function HandedOverAt(bank: Bank, at: Option<int>): (b: Bank) {
    bank.(handedOver := at.Some?, handedOverAt := at)
  }

  predicate WellSized(bank: Bank) {
    forall k | k in bank.keys :: |k.key| == KEY_BYTES
  }

  function Unlinked(sae: Sae, keys: seq<BankKey>): (b: Bank) {
    Bank(sae, None, Solo, keys, false, None)
  }

  function Built(sae: Sae, peer: Sae, role: Role, keys: seq<BankKey>): (b: Bank) {
    Bank(sae, Some(peer), role, keys, false, None)
  }

  lemma AllFreshMeaning(keys: seq<BankKey>)
    ensures Ids(AllFresh(keys)) == Ids(keys) == FreshIds(AllFresh(keys))
    ensures DistinctIds(keys) ==> DistinctIds(AllFresh(keys))
  {
    var all := AllFresh(keys);
    forall id | id in Ids(keys) ensures id in FreshIds(all) {
      var i :| 0 <= i < |keys| && keys[i].id == id;
      assert all[i] in all;
    }
    forall id | id in Ids(all) ensures id in Ids(keys) {
      var i :| 0 <= i < |all| && all[i].id == id;
      assert keys[i] in keys;
    }
  }
}
