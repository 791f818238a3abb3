/**
 * The Key Manager of one mailbox on one phone (core/src/km.rs): an object
 * whose stored bank every call reads, changes and writes back. Each method is
 * proved against the bank operation of `KeyBank` that the theorems are about.
 */
module KeyManagers {
  import opened Common
  import opened KeyBank
  import opened KeyMaterial

  const MIN_CODE_CHARS := 26

  /** A bank sealed for the other end. Only its own code opens it. */
  datatype LinkFile = LinkFile(code: string, bank: Bank)

  function OpenLink(file: LinkFile, code: string): (r: Result<Bank, KmError>)
  {
    if |code| < MIN_CODE_CHARS || file.code != code then Err(WrongCode)
    else if file.bank.role != Slave || !WellSized(file.bank) then Err(NotALink)
    else Ok(Adopted(file.bank))
  }

  class KeyManager {
    var bank: Bank

    constructor (sae: Sae, keys: seq<BankKey>)
      ensures bank == Unlinked(sae, keys)
    {
      bank := Unlinked(sae, keys);
    }

    method EncKeys(number: nat) returns (r: Result<(Sae, seq<QKey>), KmError>)
      modifies this
      ensures match Enc(old(bank), number)
        case Ok((after, out)) => bank == after && r == Ok((after.sae, out))
        case Err(e) => bank == old(bank) && r == Err(e)
    {
      if bank.handedOver {
        return Err(HandedOver);
      }
      var picked := OwnFresh(number);
      if |picked| < number {
        return Err(NoKeys(|picked|));
      }
      ghost var keys := bank.keys;
      var out: seq<QKey> := [];
      for j := 0 to |picked|
        invariant bank == old(bank).(keys := bank.keys)
        invariant TakenUpTo(keys, picked, j, bank.keys, out)
      {
        var at := picked[j];
        assert IsPick(keys, |keys|, j, at);
        TakenStep(keys, picked, j, bank.keys, out);
        bank := bank.(keys := bank.keys[at := bank.keys[at].(state := Issued)]);
        out := out + [QKey(bank.keys[at].id, bank.keys[at].key)];
      }
      assert picked[..|picked|] == picked;
      PicksAreFirst(keys, picked, number, bank.keys, out);
      r := Ok((bank.sae, out));
    }

    /** The positions of the first `number` fresh keys, or of all there are. */
    method OwnFresh(number: nat) returns (picked: seq<nat>)
      ensures |picked| == if FreshCount(bank.keys) < number then FreshCount(bank.keys) else number
      ensures AreFirstPicks(bank.keys, picked)
    {
      var keys := bank.keys;
      picked := [];
      var i := 0;
      while i < |keys| && |picked| < number
        invariant 0 <= i <= |keys|
        invariant FreshCount(keys[..i]) == |picked| <= number
        invariant AreFirstPicks(keys, picked)
        invariant forall m | 0 <= m < i && keys[m].state.Fresh? :: FreshCount(keys[..m]) < |picked|
      {
        FreshCountSnoc(keys, i);
        if keys[i].state.Fresh? {
          picked := picked + [i];
        }
        i := i + 1;
      }
      FreshCountPrefix(keys, i);
      if i == |keys| {
        assert keys[..i] == keys;
      }
    }

    method DecKeys(ids: seq<KeyId>) returns (r: Result<seq<QKey>, KmError>)
      modifies this
      ensures match Dec(old(bank), ids)
        case Ok((after, out)) => bank == after && r == Ok(out)
        case Err(e) => bank == old(bank) && r == Err(e)
    {
      var out: seq<QKey> := [];
      for i := 0 to |ids|
        invariant bank == old(bank) && |out| == i
        invariant FoundUpTo(bank.keys, ids, out)
      {
        var found := Find(ids[i]);
        if found.None? {
          MissingKey(bank.keys, ids, i);
          return Err(KeyMissing);
        }
        out := out + [QKey(ids[i], found.value)];
      }
      FoundThemAll(bank.keys, ids, out);
      // Only once every key was found.
      Delete(ids);
      r := Ok(out);
    }

    method Delete(ids: seq<KeyId>)
      modifies this
      ensures bank == old(bank).(keys := Retain(old(bank).keys, ids))
    {
      var keys := bank.keys;
      var kept: seq<BankKey> := [];
      RetainStart(keys, ids);
      for i := 0 to |keys|
        invariant bank == old(bank)
        invariant Retain(keys, ids) == kept + RetainFrom(keys, ids, i)
      {
        RetainStep(keys, ids, i, kept);
        if keys[i].id !in ids {
          kept := kept + [keys[i]];
        }
      }
      assert kept + RetainFrom(keys, ids, |keys|) == kept;
      bank := bank.(keys := kept);
    }

    /** The first key under `id`, if the bank holds one. */
    method Find(id: KeyId) returns (found: Option<Bytes>)
      ensures found == Lookup(bank.keys, id)
    {
      for i := 0 to |bank.keys|
        invariant Lookup(bank.keys, id) == Lookup(bank.keys[i..], id)
      {
        assert bank.keys[i..][0] == bank.keys[i] && bank.keys[i..][1..] == bank.keys[i + 1..];
        if bank.keys[i].id == id {
          return Some(bank.keys[i].key);
        }
      }
      assert bank.keys[|bank.keys|..] == [];
      found := None;
    }

    method ExportLink(code: string, newSae: Sae) returns (r: Result<LinkFile, KmError>)
      modifies this
      ensures if |code| < MIN_CODE_CHARS then bank == old(bank) && r == Err(WrongCode)
        else bank == MasterOf(old(bank), newSae) && r == Ok(LinkFile(code, PeerOf(old(bank), newSae)))
    {
      if |code| < MIN_CODE_CHARS {
        return Err(WrongCode);
      }
      var mine := bank.(role := Master);
      var keys := mine.keys;
      for i := 0 to |keys|
        invariant |keys| == |mine.keys|
        invariant forall m | 0 <= m < |keys| :: keys[m] == if m < i then mine.keys[m].(state := Fresh) else mine.keys[m]
      {
        keys := keys[i := keys[i].(state := Fresh)];
      }
      assert keys == AllFresh(mine.keys);
      var peer := Bank(newSae, Some(mine.sae), Slave, keys, false, None);
      bank := mine.(peer := Some(peer.sae));
      r := Ok(LinkFile(code, peer));
    }

    method ImportLink(file: LinkFile, code: string) returns (r: Result<(), KmError>)
      modifies this
      ensures match OpenLink(file, code)
        case Ok(b) => bank == b && r == Ok(())
        case Err(e) => bank == old(bank) && r == Err(e)
    {
      if |code| < MIN_CODE_CHARS || file.code != code {
        return Err(WrongCode);
      }
      var b := file.bank;
      if b.role != Slave || exists k | k in b.keys :: |k.key| != KEY_BYTES {
        return Err(NotALink);
      }
      bank := b.(handedOver := false, handedOverAt := None);
      r := Ok(());
    }

    /** Another phone's bank takes this one's place, and may send at once. */
    method AdoptBank(b: Bank) returns (r: Result<(), KmError>)
      modifies this
      ensures if WellSized(b) then bank == Adopted(b) && r == Ok(())
        else bank == old(bank) && r == Err(DamagedBank)
    {
      if exists k | k in b.keys :: |k.key| != KEY_BYTES {
        return Err(DamagedBank);
      }
      bank := b.(handedOver := false, handedOverAt := None);
      r := Ok(());
    }

    method HandOver(now: int)
      modifies this
      ensures bank == HandedOverAt(old(bank), Some(now))
    {
      SetHandedOver(Some(now));
    }

    method Resume()
      modifies this
      ensures bank == HandedOverAt(old(bank), None)
    {
      SetHandedOver(None);
    }

    method SetHandedOver(at: Option<int>)
      modifies this
      ensures bank == HandedOverAt(old(bank), at)
    {
      bank := bank.(handedOver := at.Some?);
      bank := bank.(handedOverAt := at);
    }

    method Regenerate(keys: seq<BankKey>)
      modifies this
      ensures bank == Unlinked(old(bank).sae, keys)
    {
      bank := Unlinked(bank.sae, keys);
    }

    method FillFrom(material: Bytes, derive: IdDerivation, role: Role, peer: Sae) returns (r: Result<(), KmError>)
      requires GoodDerivation(derive)
      modifies this
      ensures match Fill(old(bank), material, derive, role, peer)
        case Ok(b) => bank == b && r == Ok(())
        case Err(e) => bank == old(bank) && r == Err(e)
    {
      if |material| != MATERIAL_BYTES {
        return Err(WrongLength);
      }
      var keys: seq<BankKey> := [];
      for slot := 0 to BANK_SIZE
        invariant |keys| == slot && bank == old(bank)
        invariant forall s | 0 <= s < slot :: keys[s] == KeyAt(material, derive, s)
      {
        keys := keys + [KeyAt(material, derive, slot)];
      }
      AreBankKeys(material, derive, keys);
      bank := Built(bank.sae, peer, role, keys);
      r := Ok(());
    }
  }

  lemma AreBankKeys(material: Bytes, derive: IdDerivation, keys: seq<BankKey>)
    requires |material| == MATERIAL_BYTES && GoodDerivation(derive) && |keys| == BANK_SIZE
    requires forall s | 0 <= s < BANK_SIZE :: keys[s] == KeyAt(material, derive, s)
    ensures keys == BankKeys(material, derive)
  {
  }

  // ------------------------------------------ proof of DecKeys and EncKeys --

  function RetainFrom(keys: seq<BankKey>, ids: seq<KeyId>, i: nat): (r: seq<BankKey>) {
    if i < |keys| then Retain(keys[i..], ids) else []
  }

  lemma RetainStart(keys: seq<BankKey>, ids: seq<KeyId>)
    ensures Retain(keys, ids) == [] + RetainFrom(keys, ids, 0)
  {
    assert keys[0..] == keys;
  }

  lemma RetainStep(keys: seq<BankKey>, ids: seq<KeyId>, i: nat, kept: seq<BankKey>)
    requires i < |keys|
    ensures kept + RetainFrom(keys, ids, i) == (if keys[i].id in ids then kept else kept + [keys[i]]) + RetainFrom(keys, ids, i + 1)
  {
    var rest := keys[i..];
    assert rest[0] == keys[i] && rest[1..] == keys[i + 1..];
    assert i + 1 == |keys| ==> rest[1..] == [];
    assert Retain(rest, ids) == (if keys[i].id in ids then [] else [keys[i]]) + RetainFrom(keys, ids, i + 1);
  }

  ghost predicate FoundUpTo(keys: seq<BankKey>, ids: seq<KeyId>, out: seq<QKey>) {
    && |out| <= |ids|
    && forall j | 0 <= j < |out| :: out[j].id == ids[j] && Lookup(keys, ids[j]) == Some(out[j].key)
  }

  lemma FoundThemAll(keys: seq<BankKey>, ids: seq<KeyId>, out: seq<QKey>)
    requires FoundUpTo(keys, ids, out) && |out| == |ids|
    ensures LookupAll(keys, ids) == Some(out)
  {
    LookupAllMeaning(keys, ids);
    forall id | id in ids ensures id in Ids(keys) {
      var j :| 0 <= j < |ids| && ids[j] == id;
      assert out[j].id == ids[j];
    }
    var all := LookupAll(keys, ids).value;
    forall j | 0 <= j < |ids| ensures all[j] == out[j] {
      assert out[j].id == ids[j];
    }
    assert all == out;
  }

  lemma MissingKey(keys: seq<BankKey>, ids: seq<KeyId>, i: nat)
    requires i < |ids| && Lookup(keys, ids[i]).None?
    ensures LookupAll(keys, ids).None?
  {
    LookupAllMeaning(keys, ids);
    assert ids[i] in ids && ids[i] !in Ids(keys);
  }

  /** The first `j` picks are issued in `now`, and handed out in order. */
  ghost predicate TakenUpTo(keys: seq<BankKey>, picked: seq<nat>, j: nat, now: seq<BankKey>, out: seq<QKey>) {
    && j <= |picked| && |now| == |keys| && |out| == j && (forall m | 0 <= m < j :: picked[m] < |keys|)
    && (forall m | 0 <= m < j :: out[m] == QKey(keys[picked[m]].id, keys[picked[m]].key))
    && forall m | 0 <= m < |keys| :: now[m] == if m in picked[..j] then keys[m].(state := Issued) else keys[m]
  }

  lemma TakenStep(keys: seq<BankKey>, picked: seq<nat>, j: nat, now: seq<BankKey>, out: seq<QKey>)
    requires j < |picked| && picked[j] < |keys| && TakenUpTo(keys, picked, j, now, out)
    ensures var at := picked[j];
      TakenUpTo(keys, picked, j + 1, now[at := now[at].(state := Issued)], out + [QKey(now[at].id, now[at].key)])
  {
    assert picked[..j + 1] == picked[..j] + [picked[j]];
  }

  /** `at` is the position of the `j`-th fresh key. */
  ghost predicate IsPick(keys: seq<BankKey>, bound: nat, j: nat, at: nat)
    requires bound <= |keys|
  {
    at < bound && keys[at].state.Fresh? && FreshCount(keys[..at]) == j
  }

  ghost predicate AreFirstPicks(keys: seq<BankKey>, picked: seq<nat>) {
    forall j | 0 <= j < |picked| :: IsPick(keys, |keys|, j, picked[j])
  }

  lemma {:induction false} FreshCountMonotone(keys: seq<BankKey>, i: nat, j: nat)
    requires i <= j <= |keys|
    ensures FreshCount(keys[..i]) <= FreshCount(keys[..j])
    decreases j - i
  {
    if i < j {
      FreshCountSnoc(keys, i);
      FreshCountMonotone(keys, i + 1, j);
    }
  }

  /** There is only one `j`-th fresh key. */
  lemma PickIsUnique(keys: seq<BankKey>, j: nat, at: nat, m: nat)
    requires IsPick(keys, |keys|, j, at) && IsPick(keys, |keys|, j, m)
    ensures at == m
  {
    if at < m {
      FreshCountSnoc(keys, at);
      FreshCountMonotone(keys, at + 1, m);
    } else if m < at {
      FreshCountSnoc(keys, m);
      FreshCountMonotone(keys, m + 1, at);
    }
  }

  lemma PicksAreFirst(keys: seq<BankKey>, picked: seq<nat>, number: nat, after: seq<BankKey>, out: seq<QKey>)
    requires |picked| == number == |out| <= FreshCount(keys)
    requires AreFirstPicks(keys, picked)
    requires forall j | 0 <= j < number :: picked[j] < |keys|
    requires |after| == |keys|
    requires forall m | 0 <= m < |keys| :: after[m] == if m in picked then keys[m].(state := Issued) else keys[m]
    requires forall j | 0 <= j < number :: out[j] == QKey(keys[picked[j]].id, keys[picked[j]].key)
    ensures IssueFirst(keys, number) == (after, out)
  {
    var (after', out') := IssueFirst(keys, number);
    forall m | 0 <= m < |keys| ensures after[m] == after'[m] {
      IssueFirstAt(keys, number, m);
      var j := FreshCount(keys[..m]);
      if keys[m].state.Fresh? && j < number {
        PickIsUnique(keys, j, picked[j], m);
      }
      if m in picked {
        var j' :| 0 <= j' < number && picked[j'] == m;
        assert IsPick(keys, |keys|, j', m);
      }
    }
    IssueFirstLength(keys, number);
    forall j | 0 <= j < number ensures out[j] == out'[j] {
      assert IsPick(keys, |keys|, j, picked[j]);
      IssueFirstAt(keys, number, picked[j]);
    }
    assert after == after';
    assert out == out';
  }

  lemma {:induction false} IssueFirstLength(keys: seq<BankKey>, n: nat)
    requires n <= FreshCount(keys)
    ensures |IssueFirst(keys, n).1| == n
  {
    if n > 0 {
      IssueFirstLength(keys[1..], if keys[0].state.Fresh? then n - 1 else n);
    }
  }
}
