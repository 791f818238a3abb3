/**
 * Moving a phone's identity and key bank to another (core/src/transfer.rs).
 * Codes and addresses are as the core compares them, folded already.
 */
module Transfer {
  import opened Common
  import opened KeyBank

  const MIN_CODE_CHARS := 26

  type Email = string

  datatype Identity = Identity(email: Email, secret: nat)

  /** A secret key re-locked under a code, as a recovery backup is. */
  datatype Backup = Backup(code: string, identity: Identity)

  datatype Bundle = Bundle(email: Email, key: Backup, archive: string, bank: Option<Bank>)

  /** A bundle sealed under a code; no other opens it. */
  datatype File = File(code: string, bundle: Bundle)

  datatype Failure = ShortCode | WrongCode | NotATransfer | OtherMailbox | BadBank | NoIdentity | SignedOut

  datatype Held = Held(identities: map<Email, Identity>, banks: map<Email, Bank>)

  predicate SignedIn(email: Email) {
    '@' in email
  }

  function BankFor(h: Held, email: Email, made: Bank): (bank: Bank) {
    if email in h.banks then h.banks[email] else made
  }

  /** `made` is the bank created if the mailbox has none yet. */
  function Export(h: Held, email: Email, code: string, archive: string, now: int, made: Bank): (r: (Held, Result<File, Failure>)) {
    if |code| < MIN_CODE_CHARS then (h, Err(ShortCode))
    else if email !in h.identities then (h, Err(NoIdentity))
    else if !SignedIn(email) then (h, Err(SignedOut))
    else
      var bank := BankFor(h, email, made);
      (h.(banks := h.banks[email := HandedOverAt(bank, Some(now))]),
       Ok(File(code, Bundle(email, Backup(code, h.identities[email]), archive, Some(bank)))))
  }

  function Adopt(identities: map<Email, Identity>, identity: Identity): (r: map<Email, Identity>) {
    identities[identity.email := identity]
  }

  function Import(h: Held, file: Option<File>, code: string, expected: Email): (r: (Held, Result<(Identity, string), Failure>)) {
    if file.None? then (h, Err(NotATransfer))
    else if |code| < MIN_CODE_CHARS || file.value.code != code then (h, Err(Failure.WrongCode))
    else
      var bundle := file.value.bundle;
      if expected != "" && bundle.email != expected then (h, Err(OtherMailbox))
      else if bundle.bank.Some? && !WellSized(bundle.bank.value) then (h, Err(BadBank))
      else if bundle.key.code != code then (h, Err(Failure.WrongCode))
      else
        var moved := h.(identities := Adopt(h.identities, bundle.key.identity));
        if bundle.bank.None? then (moved, Ok((bundle.key.identity, bundle.archive)))
        // The identity is in place before the mailbox's address is looked at.
        else if !SignedIn(bundle.email) then (moved, Err(SignedOut))
        else
          (moved.(banks := h.banks[bundle.email := Adopted(bundle.bank.value)]), Ok((bundle.key.identity, bundle.archive)))
  }

  class Device {
    var identities: map<Email, Identity>
    var banks: map<Email, Bank>

    constructor ()
      ensures State() == Held(map[], map[])
    {
      identities, banks := map[], map[];
    }

    function State(): (h: Held)
      reads this
    {
      Held(identities, banks)
    }

    method ForAccount(email: Email, made: Bank) returns (r: Result<Bank, Failure>)
      modifies this`banks
      ensures if SignedIn(email)
        then r == Ok(BankFor(old(State()), email, made)) && banks == old(banks)[email := BankFor(old(State()), email, made)]
        else r == Err(SignedOut) && banks == old(banks)
    {
      if '@' !in email {
        return Err(SignedOut);
      }
      if email !in banks {
        banks := banks[email := made];
      }
      r := Ok(banks[email]);
    }

    method ExportTransfer(email: Email, code: string, archive: string, now: int, made: Bank) returns (r: Result<File, Failure>)
      modifies this
      ensures (State(), r) == Export(old(State()), email, code, archive, now, made)
    {
      if |code| < MIN_CODE_CHARS {
        return Err(ShortCode);
      }
      if email !in identities {
        return Err(NoIdentity);
      }
      var key := Backup(code, identities[email]);
      var km := ForAccount(email, made);
      if km.Err? {
        return Err(km.error);
      }
      var bundle := Bundle(email, key, archive, Some(km.value));
      banks := banks[email := km.value.(handedOver := true, handedOverAt := Some(now))];
      assert banks == old(banks)[email := HandedOverAt(km.value, Some(now))];
      r := Ok(File(code, bundle));
    }

    /** `made` is what a mailbox without a bank gets first, and loses to the one adopted. */
    method ImportTransfer(file: Option<File>, code: string, expected: Email, made: Bank) returns (r: Result<(Identity, string), Failure>)
      modifies this
      ensures (State(), r) == Import(old(State()), file, code, expected)
    {
      if file.None? {
        return Err(NotATransfer);
      }
      if |code| < MIN_CODE_CHARS || file.value.code != code {
        return Err(Failure.WrongCode);
      }
      var bundle := file.value.bundle;
      if expected != "" && bundle.email != expected {
        return Err(OtherMailbox);
      }
      if bundle.bank.Some? && exists k | k in bundle.bank.value.keys :: |k.key| != KEY_BYTES {
        return Err(BadBank);
      }
      if bundle.key.code != code {
        return Err(Failure.WrongCode);
      }
      identities := identities[bundle.key.identity.email := bundle.key.identity];
      if bundle.bank.Some? {
        var km := ForAccount(bundle.email, made);
        if km.Err? {
          return Err(km.error);
        }
        banks := banks[bundle.email := bundle.bank.value.(handedOver := false, handedOverAt := None)];
        assert banks == old(banks)[bundle.email := Adopted(bundle.bank.value)];
      }
      r := Ok((bundle.key.identity, bundle.archive));
    }
  }

  /**
   * A move: the new phone has the identity, the archive and the bank, which
   * issues there what the old phone would have issued; the old phone issues
   * nothing more, and opens exactly what it could open.
   */
  lemma Moved(oldPhone: Held, newPhone: Held, email: Email, code: string, archive: string, now: int, made: Bank, number: nat, ids: seq<KeyId>)
    requires Export(oldPhone, email, code, archive, now, made).1.Ok?
    requires WellSized(BankFor(oldPhone, email, made))
    ensures var (left, file) := Export(oldPhone, email, code, archive, now, made);
      var (there, r) := Import(newPhone, Some(file.value), code, email);
      var bank := BankFor(oldPhone, email, made);
      && email in oldPhone.identities && r == Ok((oldPhone.identities[email], archive))
      && there.identities == Adopt(newPhone.identities, oldPhone.identities[email])
      && email in left.banks && email in there.banks
      && Enc(left.banks[email], number) == Err(HandedOver)
      && (!bank.handedOver ==> there.banks[email].keys == bank.keys && Enc(there.banks[email], number).Ok? == Enc(bank, number).Ok?)
      && there.banks[email].sae == bank.sae && !there.banks[email].handedOver
      && Dec(left.banks[email], ids).Ok? == Dec(bank, ids).Ok?
      && (Dec(bank, ids).Ok? ==> Dec(left.banks[email], ids).value.1 == Dec(bank, ids).value.1)
  {
  }

  /** The file was written by `Export`, on whatever phone. */
  ghost predicate Exported(file: File) {
    exists h, email, code, archive, now, made :: Export(h, email, code, archive, now, made).1 == Ok(file)
  }

  /** An import that is refused leaves the phone as it was, for every file an export wrote and every text that is none. */
  lemma RefusedImportChangesNothing(h: Held, file: Option<File>, code: string, expected: Email)
    requires file.Some? ==> Exported(file.value)
    ensures Import(h, file, code, expected).1.Err? ==> Import(h, file, code, expected).0 == h
  {
  }

  /**
   * Exactly which files can be refused too late: sealed under the right code
   * and well-formed, but for an address without an at sign, which only an
   * altered exporter can write. The identity is replaced and the bank is not.
   */
  lemma RefusedTooLate(h: Held, file: File, code: string, expected: Email)
    ensures var (after, r) := Import(h, Some(file), code, expected);
      var b := file.bundle;
      r.Err? && after.identities != h.identities <==>
        && |code| >= MIN_CODE_CHARS && file.code == code == b.key.code
        && (expected == "" || b.email == expected)
        && b.bank.Some? && WellSized(b.bank.value) && !SignedIn(b.email) && h.identities != Adopt(h.identities, b.key.identity)
  {
  }

  /** Such a file: the phone keeps an identity from a transfer it refused. */
  lemma RefusedTooLateHappens()
    ensures exists h, file, code, expected :: var (after, r) := Import(h, Some(file), code, expected);
      r.Err? && after.identities != h.identities
  {
    var code := seq(MIN_CODE_CHARS, _ => 'A');
    var file := File(code, Bundle("a", Backup(code, Identity("a", 0)), "", Some(Unlinked("s", []))));
    RefusedTooLate(Held(map[], map[]), file, code, "");
    assert "a" in Adopt(map[], Identity("a", 0));
    var (after, r) := Import(Held(map[], map[]), Some(file), code, "");
    assert r.Err? && after.identities != Held(map[], map[]).identities;
  }

  /** A code that is not the file's, or too short, learns nothing and changes nothing. */
  lemma OnlyTheCodeOpens(h: Held, file: File, code: string, expected: Email)
    ensures Import(h, Some(file), code, expected).1.Ok? ==> code == file.code && |code| >= MIN_CODE_CHARS
    ensures code != file.code ==> Import(h, Some(file), code, expected) == (h, Err(Failure.WrongCode))
  {
  }
}
