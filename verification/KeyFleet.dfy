/**
 * Any number of phones, each with a bank, and the link and transfer files
 * between them: the run-level claim of core/src/qkd.rs:8-15, that no AES key
 * is derived twice, with each link's two ends sending from the same keys.
 *
 * `Possible` is what the code allows (fresh randomness included); `Careful`
 * is what it leaves to its users. The theorem needs both, and the lemmas of
 * `KeyFleetLimits` show what happens without the second.
 */
module KeyFleet {
  import opened Common
  import opened KeyBank

  /** Where a bank is: on a phone, or in a file on its way to one. */
  datatype Holder = Phone(p: nat) | LinkFile(i: nat) | TransferFile(j: nat)

  /** A measurement kept until its verdict: the reply it made, the SAE id named there, and the states' sender. */
  datatype Measured = Measured(reply: nat, sae: Sae, photons: Sae)

  /** A verdict sent back: the reply it is about, and the keys the judge's bank was built of. */
  datatype Verdict = Verdict(reply: nat, keys: seq<BankKey>)

  /** One key handed to a sender, who seals one message with it. */
  datatype Use = Use(id: KeyId, key: Bytes, sender: Sae) {
    function Aes(): (k: AesKey) {
      AesKey(key, id, Some(sender))
    }
  }

  datatype Fleet = Fleet(
    banks: map<Holder, Bank>,
    unopened: set<Holder>,
    outstanding: map<nat, Holder>,
    preparing: set<nat>,
    measured: map<nat, Measured>,
    replies: map<nat, Sae>,
    verdicts: map<nat, Verdict>,
    issued: seq<Use>,
    ids: set<KeyId>,
    saes: set<Sae>)

  /** What a verdict does at the measuring end: the judge's own material, other material, or a refusal. */
  datatype Outcome = SameKeys | OtherKeys(keys: seq<BankKey>) | Refused

  datatype Step =
    | IssueKeys(p: nat, number: nat)
    | ReadKeys(p: nat, ids: seq<KeyId>)
    | Regenerate(p: nat, keys: seq<BankKey>)
    | ExportLink(p: nat, file: Holder, newSae: Sae)
    | ImportLink(p: nat, file: Holder)
    | ExportTransfer(p: nat, file: Holder, now: int)
    | ImportTransfer(p: nat, file: Holder)
    | Resume(p: nat)
    | Begin(p: nat)
    | Measure(p: nat, reply: nat, photons: Sae)
    | Judge(p: nat, reply: nat, verdict: nat, built: Option<seq<BankKey>>)
    | Accept(p: nat, verdict: nat, outcome: Outcome)

  predicate HasPhone(s: Fleet, p: nat) {
    Phone(p) in s.banks
  }

  function BankOf(s: Fleet, p: nat): (b: Bank)
    requires HasPhone(s, p)
  {
    s.banks[Phone(p)]
  }

  /** Keys no one has seen before: random ids, or ids derived from new material. */
  ghost predicate NewKeys(s: Fleet, keys: seq<BankKey>) {
    DistinctIds(keys) && Ids(keys) !! s.ids
  }

  /** What the code itself makes sure of. */
  ghost predicate Possible(s: Fleet, step: Step) {
    && HasPhone(s, step.p)
    && match step
       case IssueKeys(_, _) => true
       case ReadKeys(_, _) => true
       case Regenerate(_, keys) => NewKeys(s, keys)
       case ExportLink(_, file, newSae) => file.LinkFile? && file !in s.banks && newSae !in s.saes
       case ImportLink(_, file) => file.LinkFile? && file in s.banks
       case ExportTransfer(_, file, _) => file.TransferFile? && file !in s.banks
       case ImportTransfer(_, file) => file.TransferFile? && file in s.banks
       case Resume(_) => true
       case Begin(_) => true
       case Measure(_, reply, _) => reply !in s.replies
       case Judge(p, reply, verdict, built) =>
         && p in s.preparing && reply in s.replies && verdict !in s.verdicts
         && (built.Some? ==> NewKeys(s, built.value))
       case Accept(p, verdict, outcome) =>
         && p in s.measured && verdict in s.verdicts
         && (outcome.SameKeys? ==> s.measured[p].reply == s.verdicts[verdict].reply)
         && (outcome.OtherKeys? ==> NewKeys(s, outcome.keys))
  }

  /** What is left to the users of the phones (core/src/qkd.rs:13-15, core/src/lib.rs:187-188). */
  predicate Careful(s: Fleet, step: Step)
    requires Possible(s, step)
  {
    match step
    case ImportLink(_, file) => file in s.unopened
    case ExportTransfer(p, _, _) => !BankOf(s, p).handedOver
    case ImportTransfer(_, file) => file in s.unopened
    case Resume(p) => BankOf(s, p).handedOver ==> p in s.outstanding && s.outstanding[p] in s.unopened
    // The two ends send under different SAE ids: the judge can read the other's in the reply.
    case Judge(p, reply, _, built) => built.Some? ==> BankOf(s, p).sae != s.replies[reply]
    // The accepting phone still sends under the SAE id it put in that reply.
    case Accept(p, _, SameKeys) => BankOf(s, p).sae == s.measured[p].sae
    case _ => true
  }

  function Put(s: Fleet, h: Holder, b: Bank): (s': Fleet) {
    s.(banks := s.banks[h := b])
  }

  function Uses(out: seq<QKey>, sender: Sae): (r: seq<Use>)
    ensures |r| == |out|
    ensures forall i | 0 <= i < |out| :: r[i] == Use(out[i].id, out[i].key, sender)
  {
    seq(|out|, i requires 0 <= i < |out| => Use(out[i].id, out[i].key, sender))
  }

  ghost function Apply(s: Fleet, step: Step): (s': Fleet)
    requires Possible(s, step)
  {
    var bank := BankOf(s, step.p);
    match step
    case IssueKeys(p, number) =>
      (match Enc(bank, number)
       case Err(_) => s
       case Ok((after, out)) => Put(s, Phone(p), after).(issued := s.issued + Uses(out, after.sae)))
    case ReadKeys(p, ids) =>
      (match Dec(bank, ids)
       case Err(_) => s
       case Ok((after, _)) => Put(s, Phone(p), after))
    case Regenerate(p, keys) =>
      Put(s, Phone(p), Unlinked(bank.sae, keys)).(ids := s.ids + Ids(keys))
    case ExportLink(p, file, newSae) =>
      Put(Put(s, Phone(p), MasterOf(bank, newSae)), file, PeerOf(bank, newSae))
        .(unopened := s.unopened + {file}, saes := s.saes + {newSae})
    case ImportLink(p, file) =>
      Put(s, Phone(p), Adopted(s.banks[file])).(unopened := s.unopened - {file})
    case ExportTransfer(p, file, now) =>
      Put(Put(s, Phone(p), HandedOverAt(bank, Some(now))), file, bank)
        .(unopened := s.unopened + {file}, outstanding := s.outstanding[p := file])
    case ImportTransfer(p, file) =>
      Put(s, Phone(p), Adopted(s.banks[file])).(unopened := s.unopened - {file})
    case Resume(p) =>
      Put(s, Phone(p), HandedOverAt(bank, None))
        .(unopened := if bank.handedOver && p in s.outstanding then s.unopened - {s.outstanding[p]} else s.unopened)
    case Begin(p) =>
      s.(preparing := s.preparing + {p})
    case Measure(p, reply, photons) =>
      s.(measured := s.measured[p := Measured(reply, bank.sae, photons)], replies := s.replies[reply := bank.sae])
    case Judge(p, reply, verdict, built) =>
      if built.None? then s.(preparing := s.preparing - {p})
      else
        Put(s, Phone(p), Built(bank.sae, s.replies[reply], Master, built.value))
          .(preparing := s.preparing - {p}, ids := s.ids + Ids(built.value),
            verdicts := s.verdicts[verdict := Verdict(reply, built.value)])
    case Accept(p, verdict, outcome) =>
      var done := s.(measured := s.measured - {p});
      var peer := s.measured[p].photons;
      match outcome
      case Refused => done
      case SameKeys => Put(done, Phone(p), Built(bank.sae, peer, Slave, AllFresh(s.verdicts[verdict].keys)))
      case OtherKeys(keys) =>
        Put(done, Phone(p), Built(bank.sae, peer, Slave, keys)).(ids := s.ids + Ids(keys))
  }

  // ------------------------------------------------------- the invariant --

  predicate Live(s: Fleet, h: Holder)
    requires h in s.banks
  {
    if h.Phone? then !s.banks[h].handedOver else h in s.unopened
  }

  /** The bank at `h` can still come to issue key `id` under SAE id `sae`. */
  predicate MaySend(s: Fleet, h: Holder, id: KeyId, sae: Sae) {
    h in s.banks && Live(s, h) && s.banks[h].sae == sae && id in FreshIds(s.banks[h].keys)
  }

  predicate WasIssued(s: Fleet, id: KeyId, sae: Sae) {
    exists i :: 0 <= i < |s.issued| && s.issued[i].id == id && s.issued[i].sender == sae
  }

  /** No key was ever issued twice under one SAE id. */
  ghost predicate NoReuse(s: Fleet) {
    forall i, j :: 0 <= i < j < |s.issued| ==> s.issued[i].id != s.issued[j].id || s.issued[i].sender != s.issued[j].sender
  }

  /** The right to issue a key under an SAE id is in one place at most. */
  ghost predicate OneRight(s: Fleet) {
    forall g, h, id, sae :: MaySend(s, g, id, sae) && MaySend(s, h, id, sae) ==> g == h
  }

  /** A right that was used is gone. */
  ghost predicate RightsUnused(s: Fleet) {
    forall h, id, sae :: MaySend(s, h, id, sae) ==> !WasIssued(s, id, sae)
  }

  ghost predicate Known(s: Fleet) {
    && s.unopened <= s.banks.Keys
    && (forall h | h in s.unopened :: !h.Phone?)
    && (forall h | h in s.banks :: DistinctIds(s.banks[h].keys) && Ids(s.banks[h].keys) <= s.ids && s.banks[h].sae in s.saes)
    && (forall v | v in s.verdicts :: DistinctIds(s.verdicts[v].keys) && Ids(s.verdicts[v].keys) <= s.ids && s.verdicts[v].reply in s.replies)
    && (forall q | q in s.measured :: s.measured[q].reply in s.replies && s.measured[q].sae in s.saes)
    && (forall q | q in s.measured :: s.measured[q].sae == s.replies[s.measured[q].reply])
    && (forall i | 0 <= i < |s.issued| :: s.issued[i].id in s.ids && s.issued[i].sender in s.saes)
  }

  /** A handed-over bank is no more than the file it left in. */
  ghost predicate HandedOverTracked(s: Fleet) {
    forall p | Phone(p) in s.banks && s.banks[Phone(p)].handedOver ::
      && p in s.outstanding && s.outstanding[p] in s.banks && !s.outstanding[p].Phone?
      && s.banks[s.outstanding[p]].sae == s.banks[Phone(p)].sae
      && FreshIds(s.banks[Phone(p)].keys) <= FreshIds(s.banks[s.outstanding[p]].keys)
  }

  ghost predicate RepliesUnique(s: Fleet) {
    && (forall p, q :: p in s.measured && q in s.measured && s.measured[p].reply == s.measured[q].reply ==> p == q)
    && (forall v, w :: v in s.verdicts && w in s.verdicts && v != w ==> Ids(s.verdicts[v].keys) !! Ids(s.verdicts[w].keys))
  }

  /** Nothing sends, or ever sent, a verdict's keys under the SAE id of the measurement still waiting for it. */
  ghost predicate Apart(s: Fleet, q: nat, v: nat)
    requires q in s.measured && v in s.verdicts
  {
    && (forall h | h in s.banks && s.banks[h].sae == s.measured[q].sae :: Ids(s.banks[h].keys) !! Ids(s.verdicts[v].keys))
    && (forall i | 0 <= i < |s.issued| && s.issued[i].sender == s.measured[q].sae :: s.issued[i].id !in Ids(s.verdicts[v].keys))
  }

  ghost predicate ExchangesApart(s: Fleet) {
    forall q, v | q in s.measured && v in s.verdicts && s.measured[q].reply == s.verdicts[v].reply :: Apart(s, q, v)
  }

  ghost predicate Inv(s: Fleet) {
    && Known(s)
    && OneRight(s)
    && RightsUnused(s)
    && NoReuse(s)
    && HandedOverTracked(s)
    && RepliesUnique(s)
    && ExchangesApart(s)
  }

  /** Phones as installed: each with its own new bank, nothing sent, nothing on the way. */
  ghost predicate Initial(s: Fleet) {
    && (forall h | h in s.banks :: h.Phone? && !s.banks[h].handedOver && DistinctIds(s.banks[h].keys))
    && (forall h | h in s.banks :: Ids(s.banks[h].keys) <= s.ids && s.banks[h].sae in s.saes)
    && (forall g, h | g in s.banks && h in s.banks && g != h :: s.banks[g].sae != s.banks[h].sae)
    && s.unopened == {} && s.outstanding == map[] && s.preparing == {} && s.measured == map[]
    && s.replies == map[] && s.verdicts == map[] && s.issued == []
  }

  lemma InitialInv(s: Fleet)
    requires Initial(s)
    ensures Inv(s)
  {
  }
}
