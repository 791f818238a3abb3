/**
 * What each rule of `KeyFleet.Careful` is worth. For the two rules of an
 * exchange a phone can tell from what it holds whether the step is safe, and
 * the lemmas say exactly when; for the others a run reuses a key as soon as
 * the rule is broken, whatever bank it is about.
 */
module KeyFleetRules {
  import opened Common
  import opened KeyBank
  import opened KeyFleet
  import opened KeyFleetSafety
  import opened KeyFleetRuns

  /** A bank as phones write them: distinct ids, and a time exactly when handed over. */
  ghost predicate Kept(bank: Bank) {
    DistinctIds(bank.keys) && (bank.handedOver <==> bank.handedOverAt.Some?)
  }

  // -------------------------------------------------------- accepting, judging --

  /**
   * Whatever else happened among the phones: one that holds this bank and
   * this measurement may accept a verdict made of its own material.
   */
  ghost predicate SafeToAccept(bank: Bank, m: Measured) {
    forall t, p, verdict ::
      Reached(t) && Possible(t, Accept(p, verdict, SameKeys)) && BankOf(t, p) == bank && t.measured[p] == m ==>
        !ReuseAfter(Apply(t, Accept(p, verdict, SameKeys)))
  }

  /** Whatever else happened: a phone that holds this bank may judge a reply that names this SAE id. */
  ghost predicate SafeToJudge(bank: Bank, named: Sae) {
    forall t, p, reply, verdict, keys ::
      Reached(t) && Possible(t, Judge(p, reply, verdict, Some(keys))) && BankOf(t, p) == bank && t.replies[reply] == named ==>
        !ReuseAfter(Apply(t, Judge(p, reply, verdict, Some(keys))))
  }

  /** Accepting is safe exactly for a phone that still sends under the SAE id it measured with. */
  lemma SafeToAcceptExactly(bank: Bank, m: Measured)
    requires Kept(bank)
    ensures SafeToAccept(bank, m) <==> bank.sae == m.sae
  {
    if bank.sae == m.sae {
      forall t, p, verdict |
          Reached(t) && Possible(t, Accept(p, verdict, SameKeys)) && BankOf(t, p) == bank && t.measured[p] == m
        ensures !ReuseAfter(Apply(t, Accept(p, verdict, SameKeys)))
      {
        ReachedHoldsInv(t);
        AcceptSamePreserves(t, p, verdict);
        InvNoReuseAfter(Apply(t, Accept(p, verdict, SameKeys)));
      }
    } else {
      ChangedIdReuses(bank, m);
    }
  }

  /** Judging is safe exactly for a phone that does not itself send under the SAE id the reply names. */
  lemma SafeToJudgeExactly(bank: Bank, named: Sae)
    requires Kept(bank)
    ensures SafeToJudge(bank, named) <==> bank.sae != named
  {
    if bank.sae != named {
      forall t, p, reply, verdict, keys |
          Reached(t) && Possible(t, Judge(p, reply, verdict, Some(keys))) && BankOf(t, p) == bank && t.replies[reply] == named
        ensures !ReuseAfter(Apply(t, Judge(p, reply, verdict, Some(keys))))
      {
        ReachedHoldsInv(t);
        JudgePreserves(t, p, reply, verdict, keys);
        InvNoReuseAfter(Apply(t, Judge(p, reply, verdict, Some(keys))));
      }
    } else {
      SameIdReuses(bank);
    }
  }

  // ------------------------------------------------------------ the witnesses --

  /** An id longer than every one of `keys`. */
  function NewId(keys: seq<BankKey>): (id: KeyId)
    ensures forall k | k in keys :: |k.id| < |id|
  {
    if keys == [] then "k" else keys[0].id + NewId(keys[1..])
  }

  function NewKey(keys: seq<BankKey>): (k: BankKey) {
    BankKey(NewId(keys), [], Fresh)
  }

  lemma NewKeyIsNew(keys: seq<BankKey>)
    ensures NewKey(keys).id !in Ids(keys) && DistinctIds([NewKey(keys)]) && Ids([NewKey(keys)]) == {NewKey(keys).id}
    ensures AllFresh([NewKey(keys)]) == [NewKey(keys)] && FreshIds([NewKey(keys)]) == {NewKey(keys).id}
  {
    assert NewKey(keys) in [NewKey(keys)];
    assert [NewKey(keys)][1..] == [];
  }

  /** The SAE id `a`, unless it is one of `b` and `c`: then one that is neither. */
  function Besides(a: Sae, b: Sae, c: Sae): (d: Sae)
    ensures d != b && d != c && (a != b && a != c ==> d == a)
  {
    if a != b && a != c then a else "+" + b + c
  }

  /** Phones 0, 1 and 2 as installed. */
  function Phones(x: Bank, y: Bank, z: Bank): (s: Fleet) {
    Fleet(map[Phone(0) := x, Phone(1) := y, Phone(2) := z], {}, map[], {}, map[], map[], map[], [],
          Ids(x.keys) + Ids(y.keys) + Ids(z.keys), {x.sae, y.sae, z.sae})
  }

  lemma PhonesAreReached(x: Bank, y: Bank, z: Bank)
    requires Ready(x) && Ready(y) && Ready(z)
    requires x.sae != y.sae && x.sae != z.sae && y.sae != z.sae
    ensures Initial(Phones(x, y, z)) && Reached(Phones(x, y, z))
  {
    var s := Phones(x, y, z);
    assert PossibleRun(s, []) && CarefulRun(s, []);
    assert Leads(s, [], s);
  }

  ghost predicate Ready(bank: Bank) {
    DistinctIds(bank.keys) && !bank.handedOver && bank.handedOverAt.None?
  }

  /** The bank of `p` went to `q`. */
  function Moved(s: Fleet, p: nat, q: nat, file: Holder): (t: Fleet)
    requires HasPhone(s, p)
  {
    var bank := BankOf(s, p);
    s.(banks := s.banks[Phone(p) := HandedOverAt(bank, Some(0))][file := bank][Phone(q) := bank],
       outstanding := s.outstanding[p := file])
  }

  lemma MovedIsReached(s: Fleet, p: nat, q: nat, file: Holder)
    requires Reached(s) && HasPhone(s, p) && HasPhone(s, q) && p != q && Ready(BankOf(s, p))
    requires file.TransferFile? && file !in s.banks && file !in s.unopened
    ensures Reached(Moved(s, p, q, file))
  {
    var s1 := Apply(s, ExportTransfer(p, file, 0));
    LeadsOne(s, ExportTransfer(p, file, 0));
    LeadsOne(s1, ImportTransfer(q, file));
    var s2 := Apply(s1, ImportTransfer(q, file));
    assert Adopted(BankOf(s, p)) == BankOf(s, p);
    assert s2.unopened == s.unopened;
    assert s2 == Moved(s, p, q, file);
    ReachedOn(s, [ExportTransfer(p, file, 0)], s1);
    ReachedOn(s1, [ImportTransfer(q, file)], s2);
  }

  /** Phone 0 prepares states, and phone 1 measures what it takes for them. */
  function Measuring(s: Fleet, reply: nat, photons: Sae): (t: Fleet)
    requires HasPhone(s, 1)
  {
    s.(preparing := s.preparing + {0},
       measured := s.measured[1 := Measured(reply, BankOf(s, 1).sae, photons)],
       replies := s.replies[reply := BankOf(s, 1).sae])
  }

  lemma MeasuringIsReached(s: Fleet, reply: nat, photons: Sae)
    requires Reached(s) && HasPhone(s, 0) && HasPhone(s, 1) && reply !in s.replies
    ensures Reached(Measuring(s, reply, photons))
  {
    var s1 := Apply(s, Begin(0));
    LeadsOne(s, Begin(0));
    LeadsOne(s1, Measure(1, reply, photons));
    ReachedOn(s, [Begin(0)], s1);
    ReachedOn(s1, [Measure(1, reply, photons)], Apply(s1, Measure(1, reply, photons)));
  }

  /** Once more, if `bank` is one that was handed over. */
  function Again(s: Fleet, p: nat, file: Holder, bank: Bank): (t: Fleet)
    requires HasPhone(s, p)
  {
    if !bank.handedOver then s
    else
      s.(banks := s.banks[Phone(p) := bank][file := Adopted(bank)],
         unopened := s.unopened + {file}, outstanding := s.outstanding[p := file])
  }

  lemma AgainIsReached(s: Fleet, p: nat, file: Holder, bank: Bank)
    requires Reached(s) && HasPhone(s, p) && Kept(bank) && BankOf(s, p) == Adopted(bank)
    requires file.TransferFile? && file !in s.banks
    ensures Reached(Again(s, p, file, bank)) && BankOf(Again(s, p, file, bank), p) == bank
  {
    if bank.handedOver {
      var step := ExportTransfer(p, file, bank.handedOverAt.value);
      LeadsOne(s, step);
      assert Apply(s, step) == Again(s, p, file, bank);
      ReachedOn(s, [step], Apply(s, step));
    }
  }

  /** Both ends of an exchange hold the keys it made, ready to send under one SAE id. */
  lemma BothSend(t: Fleet, keys: seq<BankKey>, id: KeyId)
    requires HasPhone(t, 0) && HasPhone(t, 1) && BankOf(t, 0).sae == BankOf(t, 1).sae
    requires BankOf(t, 0).keys == BankOf(t, 1).keys == keys && id in FreshIds(keys)
    requires !BankOf(t, 0).handedOver && !BankOf(t, 1).handedOver
    ensures ReuseAfter(t)
  {
    SharedRightIsReused(t, 0, 1, id, BankOf(t, 0).sae);
  }

  /** Phone 0 judges and phone 1 accepts: if both have one SAE id by then, both send the same. */
  lemma ExchangedIsShared(s: Fleet, k: BankKey)
    requires HasPhone(s, 0) && HasPhone(s, 1) && BankOf(s, 0).sae == BankOf(s, 1).sae
    requires 0 in s.preparing && 1 in s.measured && s.measured[1].reply in s.replies && 0 !in s.verdicts
    requires k.id !in s.ids && k.state.Fresh?
    ensures var step := Judge(0, s.measured[1].reply, 0, Some([k]));
      && Possible(s, step)
      && var t := Apply(s, step);
      && HasPhone(t, 1) && BankOf(t, 1) == BankOf(s, 1) && 1 in t.measured && t.measured[1] == s.measured[1]
      && Possible(t, Accept(1, 0, SameKeys)) && ReuseAfter(Apply(t, Accept(1, 0, SameKeys)))
  {
    var step := Judge(0, s.measured[1].reply, 0, Some([k]));
    assert Ids([k]) == {k.id};
    assert Possible(s, step);
    var t := Apply(s, step);
    var u := Apply(t, Accept(1, 0, SameKeys));
    assert AllFresh([k]) == [k] && k in [k];
    BothSend(u, [k], k.id);
  }

  /** Phone 1 measured states for the SAE id of `y`, and no file was written yet. */
  lemma ExchangeBegun(x: Bank, y: Bank, z: Bank, reply: nat, photons: Sae) returns (t: Fleet)
    requires Ready(x) && Ready(y) && Ready(z)
    requires x.sae != y.sae && x.sae != z.sae && y.sae != z.sae
    ensures Reached(t) && t.banks == map[Phone(0) := x, Phone(1) := y, Phone(2) := z]
    ensures t.unopened == {} && t.verdicts == map[] && t.ids == Ids(x.keys) + Ids(y.keys) + Ids(z.keys)
    ensures WaitsFor(t, Measured(reply, y.sae, photons))
  {
    var s := Phones(x, y, z);
    PhonesAreReached(x, y, z);
    MeasuringIsReached(s, reply, photons);
    t := Measuring(s, reply, photons);
  }

  /** Phone 1 waits for a verdict on `m`, which phone 0 may judge. */
  ghost predicate WaitsFor(t: Fleet, m: Measured) {
    && 0 in t.preparing && 1 in t.measured && t.measured[1] == m
    && m.reply in t.replies && t.replies[m.reply] == m.sae
  }

  /** Two files carry the bank of phone 2 over phone 0 to phone 1. */
  lemma CarriedToBoth(s: Fleet, bank: Bank) returns (t: Fleet)
    requires Reached(s) && s.banks.Keys == {Phone(0), Phone(1), Phone(2)} && s.unopened == {}
    requires Ready(bank) && BankOf(s, 2) == bank
    ensures Reached(t) && t.banks.Keys == s.banks.Keys + {TransferFile(0), TransferFile(1)}
    ensures BankOf(t, 1) == bank && BankOf(t, 0).sae == bank.sae
    ensures t.preparing == s.preparing && t.measured == s.measured && t.replies == s.replies
    ensures t.verdicts == s.verdicts && t.ids == s.ids
  {
    MovedIsReached(s, 2, 0, TransferFile(0));
    var s1 := Moved(s, 2, 0, TransferFile(0));
    MovedIsReached(s1, 0, 1, TransferFile(1));
    t := Moved(s1, 0, 1, TransferFile(1));
  }

  lemma BeforeAccepting(bank: Bank, m: Measured) returns (t: Fleet)
    requires Kept(bank) && bank.sae != m.sae
    ensures Reached(t) && HasPhone(t, 0) && HasPhone(t, 1) && BankOf(t, 1) == bank && BankOf(t, 0).sae == bank.sae
    ensures WaitsFor(t, m) && t.verdicts == map[] && t.ids == Ids(bank.keys)
  {
    var g := Besides(m.photons, m.sae, bank.sae);
    var s := ExchangeBegun(Unlinked(g, []), Unlinked(m.sae, []), Adopted(bank), m.reply, m.photons);
    var s1 := CarriedToBoth(s, Adopted(bank));
    AgainIsReached(s1, 1, TransferFile(2), bank);
    t := Again(s1, 1, TransferFile(2), bank);
  }

  lemma ChangedIdReuses(bank: Bank, m: Measured)
    requires Kept(bank) && bank.sae != m.sae
    ensures !SafeToAccept(bank, m)
  {
    var s := BeforeAccepting(bank, m);
    var k := NewKey(bank.keys);
    NewKeyIsNew(bank.keys);
    ExchangedIsShared(s, k);
    var step := Judge(0, m.reply, 0, Some([k]));
    LeadsOne(s, step);
    ReachedOn(s, [step], Apply(s, step));
  }

  lemma BeforeJudging(bank: Bank) returns (t: Fleet)
    requires Kept(bank)
    ensures Reached(t) && HasPhone(t, 0) && HasPhone(t, 1) && BankOf(t, 0) == bank && BankOf(t, 1).sae == bank.sae
    ensures (exists m :: WaitsFor(t, m) && m.sae == bank.sae) && t.verdicts == map[] && t.ids == Ids(bank.keys)
  {
    var g := Besides("a", bank.sae, bank.sae);
    var h := Besides("b", bank.sae, g);
    var s := ExchangeBegun(Unlinked(g, []), Adopted(bank), Unlinked(h, []), 0, g);
    MovedIsReached(s, 1, 0, TransferFile(0));
    var s1 := Moved(s, 1, 0, TransferFile(0));
    AgainIsReached(s1, 0, TransferFile(1), bank);
    t := Again(s1, 0, TransferFile(1), bank);
    assert WaitsFor(t, Measured(0, bank.sae, g));
  }

  lemma SameIdReuses(bank: Bank)
    requires Kept(bank)
    ensures !SafeToJudge(bank, bank.sae)
  {
    var s := BeforeJudging(bank);
    var k := NewKey(bank.keys);
    NewKeyIsNew(bank.keys);
    ExchangedIsShared(s, k);
    AcceptedThenReused(Apply(s, Judge(0, s.measured[1].reply, 0, Some([k]))));
  }

  lemma AcceptedThenReused(t: Fleet)
    requires Possible(t, Accept(1, 0, SameKeys)) && Careful(t, Accept(1, 0, SameKeys))
    requires ReuseAfter(Apply(t, Accept(1, 0, SameKeys)))
    ensures ReuseAfter(t)
  {
    var step := Accept(1, 0, SameKeys);
    var u := Apply(t, step);
    var run, v :| Leads(u, run, v) && !NoReuse(v);
    LeadsOne(t, step);
    LeadsOn(t, [step], u, run, v);
  }

  // ------------------------------------------------------------ files and banks --

  /** `step` breaks a rule where all was careful so far, and careful steps then issue a key twice. */
  ghost predicate Breaks(t: Fleet, step: Step) {
    Reached(t) && Possible(t, step) && !Careful(t, step) && ReuseAfter(Apply(t, step))
  }

  /** Phone 0 as installed with `bank` handed it to phone 1. */
  lemma AfterATransfer(bank: Bank) returns (t: Fleet)
    requires Ready(bank)
    ensures Reached(t) && HasPhone(t, 0) && HasPhone(t, 1) && BankOf(t, 1) == bank && BankOf(t, 0) == HandedOverAt(bank, Some(0))
    ensures TransferFile(0) in t.banks && t.banks[TransferFile(0)] == bank && t.unopened == {}
    ensures t.outstanding == map[0 := TransferFile(0)] && TransferFile(1) !in t.banks
  {
    var g := Besides("a", bank.sae, bank.sae);
    var h := Besides("b", bank.sae, g);
    PhonesAreReached(bank, Unlinked(g, []), Unlinked(h, []));
    var s := Phones(bank, Unlinked(g, []), Unlinked(h, []));
    MovedIsReached(s, 0, 1, TransferFile(0));
    t := Moved(s, 0, 1, TransferFile(0));
  }

  /** Any bank with a key left, imported from one transfer file on two phones. */
  lemma ImportingATransferTwiceReuses(bank: Bank, id: KeyId)
    requires Ready(bank) && id in FreshIds(bank.keys)
    ensures exists t, p, file :: Breaks(t, ImportTransfer(p, file)) && t.banks[file] == bank
  {
    var t := AfterATransfer(bank);
    BothSend(Apply(t, ImportTransfer(0, TransferFile(0))), bank.keys, id);
    assert Breaks(t, ImportTransfer(0, TransferFile(0)));
  }

  /** Any bank with a key left, taken back after its file was imported. */
  lemma ResumingTooLateReuses(bank: Bank, id: KeyId)
    requires Ready(bank) && id in FreshIds(bank.keys)
    ensures exists t, p :: Breaks(t, Resume(p)) && BankOf(t, p) == HandedOverAt(bank, Some(0))
  {
    var t := AfterATransfer(bank);
    BothSend(Apply(t, Resume(0)), bank.keys, id);
    assert Breaks(t, Resume(0));
  }

  /** Any bank with a key left, handed over a second time. */
  lemma ExportingTwiceReuses(bank: Bank, id: KeyId)
    requires Ready(bank) && id in FreshIds(bank.keys)
    ensures exists t, p, file, now :: Breaks(t, ExportTransfer(p, file, now)) && BankOf(t, p) == HandedOverAt(bank, Some(0))
  {
    var t := AfterATransfer(bank);
    var step := ExportTransfer(0, TransferFile(1), 0);
    var u := Apply(t, step);
    var back := ImportTransfer(0, TransferFile(1));
    LeadsOne(u, back);
    var v := Apply(u, back);
    BothSend(v, bank.keys, id);
    var run, w :| Leads(v, run, w) && !NoReuse(w);
    LeadsOn(u, [back], v, run, w);
    assert Breaks(t, step);
  }

  /** Phone 2 as installed with `bank` linked it to phone 1. */
  lemma AfterALink(bank: Bank) returns (t: Fleet)
    requires Ready(bank)
    ensures Reached(t) && HasPhone(t, 0) && HasPhone(t, 1) && LinkFile(0) in t.banks && LinkFile(0) !in t.unopened
    ensures t.banks[LinkFile(0)] == BankOf(t, 1) && Ready(BankOf(t, 1)) && BankOf(t, 1).keys == AllFresh(bank.keys)
  {
    var g := Besides("a", bank.sae, bank.sae);
    var h := Besides("b", bank.sae, g);
    var s := Phones(Unlinked(g, []), Unlinked(h, []), bank);
    PhonesAreReached(Unlinked(g, []), Unlinked(h, []), bank);
    var link := ExportLink(2, LinkFile(0), Besides("c", g, h) + bank.sae + g + h);
    AllFreshMeaning(bank.keys);
    LeadsOne(s, link);
    var s1 := Apply(s, link);
    ReachedOn(s, [link], s1);
    LeadsOne(s1, ImportLink(1, LinkFile(0)));
    t := Apply(s1, ImportLink(1, LinkFile(0)));
    ReachedOn(s1, [ImportLink(1, LinkFile(0))], t);
  }

  /** Any bank with a key, linked, and the link imported on two phones. */
  lemma ImportingALinkTwiceReuses(bank: Bank, id: KeyId)
    requires Ready(bank) && id in Ids(bank.keys)
    ensures exists t, p, file :: Breaks(t, ImportLink(p, file)) && t.banks[file].keys == AllFresh(bank.keys)
  {
    var t := AfterALink(bank);
    AllFreshMeaning(bank.keys);
    BothSend(Apply(t, ImportLink(0, LinkFile(0))), AllFresh(bank.keys), id);
    assert Breaks(t, ImportLink(0, LinkFile(0)));
  }
}
