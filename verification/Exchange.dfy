/**
 * The three legs of an exchange on one phone (core/src/lib.rs:222-291): the
 * half-finished exchange is kept beside the bank between legs and forgotten
 * once it was judged or accepted, either way. A message that did not read as
 * its leg is `None`.
 */
module Exchange {
  import opened Common
  import KeyBank
  import opened KeyMaterial
  import opened KeyManagers
  import opened Bb84

  /** What one phone holds, as a value. */
  datatype Held = Held(bank: KeyBank.Bank, prepared: Option<Prepared>, measured: Option<(Measured, KeyBank.Sae)>) {
    predicate Whole() {
      && (prepared.Some? ==> prepared.value.Whole())
      && (measured.Some? ==> measured.value.0.Whole())
    }
  }

  function BeginLeg(h: Held, bits: seq<bool>, bases: seq<bool>): (r: (Held, Photons))
    requires |bits| == |bases|
  {
    var (prepared, photons) := Prepare(h.bank.sae, bits, bases);
    (h.(prepared := Some(prepared)), photons)
  }

  function MeasureLeg(h: Held, photons: Option<Photons>, draws: Draws): (r: (Held, Result<Reply, Refusal>))
    requires photons.Some? ==> draws.For(photons.value.n)
  {
    if photons.None? then (h, Err(Damaged))
    else
      match Measure(h.bank.sae, photons.value, draws)
      case Err(e) => (h, Err(e))
      case Ok((measured, reply)) => (h.(measured := Some((measured, photons.value.sae))), Ok(reply))
  }

  ghost function JudgeLeg(h: Held, reply: Option<Reply>, kdf: Kdf, derive: IdDerivation): (r: (Held, Result<Verdict, Refusal>))
    requires h.Whole() && GoodKdf(kdf) && GoodDerivation(derive)
  {
    if h.prepared.None? then (h, Err(NoExchange))
    else if reply.None? then (h, Err(Damaged))
    else
      var spent := h.(prepared := None);
      match Judge(h.prepared.value, reply.value, KeyBank.MATERIAL_BYTES, kdf)
      case Err(e) => (spent, Err(e))
      case Ok((verdict, material)) =>
        (spent.(bank := KeyBank.Built(h.bank.sae, reply.value.sae, KeyBank.Master, BankKeys(material, derive))), Ok(verdict))
  }

  ghost function AcceptLeg(h: Held, verdict: Option<Verdict>, kdf: Kdf, derive: IdDerivation): (r: (Held, Result<(), Refusal>))
    requires h.Whole() && GoodKdf(kdf) && GoodDerivation(derive)
  {
    if h.measured.None? then (h, Err(NoExchange))
    else if verdict.None? then (h, Err(Damaged))
    else
      var spent := h.(measured := None);
      match Accept(h.measured.value.0, verdict.value, KeyBank.MATERIAL_BYTES, kdf)
      case Err(e) => (spent, Err(e))
      case Ok(material) =>
        (spent.(bank := KeyBank.Built(h.bank.sae, h.measured.value.1, KeyBank.Slave, BankKeys(material, derive))), Ok(()))
  }

  class Phone {
    const km: KeyManager
    var prepared: Option<Prepared>
    var measured: Option<(Measured, KeyBank.Sae)>

    constructor (km: KeyManager)
      ensures this.km == km && prepared == None && measured == None
    {
      this.km := km;
      prepared, measured := None, None;
    }

    ghost function State(): (h: Held)
      reads this, km
    {
      Held(km.bank, prepared, measured)
    }

    method Begin(bits: seq<bool>, bases: seq<bool>) returns (photons: Photons)
      requires |bits| == |bases| == KeyBank.MATERIAL_BYTES * STATES_PER_BYTE
      modifies this
      ensures (State(), photons) == BeginLeg(old(State()), bits, bases)
    {
      var made := Prepare(km.bank.sae, bits, bases);
      prepared := Some(made.0);
      photons := made.1;
    }

    method MeasurePhotons(photons: Option<Photons>, draws: Draws) returns (r: Result<Reply, Refusal>)
      requires photons.Some? ==> draws.For(photons.value.n)
      modifies this
      ensures (State(), r) == MeasureLeg(old(State()), photons, draws)
    {
      if photons.None? {
        return Err(Damaged);
      }
      var made := MeasureStates(km.bank.sae, photons.value, draws);
      if made.Err? {
        return Err(made.error);
      }
      measured := Some((made.value.0, photons.value.sae));
      r := Ok(made.value.1);
    }

    method JudgeAnswer(reply: Option<Reply>, kdf: Kdf, derive: IdDerivation) returns (r: Result<Verdict, Refusal>)
      requires State().Whole() && GoodKdf(kdf) && GoodDerivation(derive)
      modifies this, km
      ensures (State(), r) == JudgeLeg(old(State()), reply, kdf, derive)
    {
      if prepared.None? {
        return Err(NoExchange);
      }
      if reply.None? {
        return Err(Damaged);
      }
      var judged := JudgeReply(prepared.value, reply.value, KeyBank.MATERIAL_BYTES, kdf);
      if judged.Err? {
        prepared := None;
        return Err(judged.error);
      }
      var (verdict, material) := judged.value;
      var filled := km.FillFrom(material, derive, KeyBank.Master, reply.value.sae);
      prepared := None;
      r := Ok(verdict);
    }

    method AcceptAnswer(verdict: Option<Verdict>, kdf: Kdf, derive: IdDerivation) returns (r: Result<(), Refusal>)
      requires State().Whole() && GoodKdf(kdf) && GoodDerivation(derive)
      modifies this, km
      ensures (State(), r) == AcceptLeg(old(State()), verdict, kdf, derive)
    {
      if measured.None? {
        return Err(NoExchange);
      }
      if verdict.None? {
        return Err(Damaged);
      }
      var accepted := AcceptVerdict(measured.value.0, verdict.value, KeyBank.MATERIAL_BYTES, kdf);
      if accepted.Err? {
        measured := None;
        return Err(accepted.error);
      }
      var filled := km.FillFrom(accepted.value, derive, KeyBank.Slave, measured.value.1);
      measured := None;
      r := Ok(());
    }
  }

  // ------------------------------------------------------ the whole exchange --

  /** Two ends of one exchange: the same ordered keys, all fresh, opposite roles, each naming the other. */
  ghost predicate Twins(a: KeyBank.Bank, aPeer: KeyBank.Sae, b: KeyBank.Bank, bPeer: KeyBank.Sae, material: KeyBank.Bytes) {
    && a.keys == b.keys && |a.keys| == KeyBank.BANK_SIZE && KeyBank.DistinctIds(a.keys)
    && (forall k | k in a.keys :: k.state.Fresh? && |k.key| == KeyBank.KEY_BYTES)
    && Flatten(KeyBytesOf(a.keys)) == material
    && a.role == KeyBank.Master && b.role == KeyBank.Slave
    && a.peer == Some(aPeer) && b.peer == Some(bPeer)
    && !a.handedOver && !b.handedOver
  }

  lemma BuildTwins(a: KeyBank.Sae, b: KeyBank.Sae, aPeer: KeyBank.Sae, bPeer: KeyBank.Sae, material: KeyBank.Bytes, derive: IdDerivation)
    requires |material| == KeyBank.MATERIAL_BYTES && GoodDerivation(derive)
    ensures var keys := BankKeys(material, derive);
      Twins(KeyBank.Built(a, aPeer, KeyBank.Master, keys), aPeer, KeyBank.Built(b, bPeer, KeyBank.Slave, keys), bPeer, material)
  {
    BankKeysMeaning(material, derive);
  }

  /** Leg 3 at both ends, once what they hold is in step. */
  lemma LastLeg(alice: Held, bob: Held, reply: Reply, aPeer: KeyBank.Sae, kdf: Kdf, derive: IdDerivation)
    requires GoodKdf(kdf) && GoodDerivation(derive)
    requires alice.prepared.Some? && bob.measured.Some? && bob.measured.value.1 == aPeer
    requires InStep(alice.prepared.value, bob.measured.value.0)
    requires var m := bob.measured.value.0;
      reply.sample == m.sample && OpenReply(m.n, reply) == Ok((m.bases, At(m.results, m.sample)))
    requires alice.Whole() && bob.Whole()
    ensures var (alice2, verdict) := JudgeLeg(alice, Some(reply), kdf, derive);
      && alice2.prepared == None
      && (verdict.Err? ==> alice2.bank == alice.bank)
      && (verdict.Ok? ==> BothBuilt(alice.bank, alice2, bob, verdict.value, reply.sae, kdf, derive))
  {
    SameMaterial(alice.prepared.value, bob.measured.value.0, reply, KeyBank.MATERIAL_BYTES, kdf);
    var judged := Judge(alice.prepared.value, reply, KeyBank.MATERIAL_BYTES, kdf);
    if judged.Ok? {
      BuildTwins(alice.bank.sae, bob.bank.sae, reply.sae, aPeer, judged.value.1, derive);
    }
  }

  /** The judge built its bank, and the measuring end, given the verdict, builds the twin of it. */
  ghost predicate BothBuilt(
      before: KeyBank.Bank, alice: Held, bob: Held, verdict: Verdict, bobSae: KeyBank.Sae, kdf: Kdf, derive: IdDerivation)
    requires bob.Whole() && bob.measured.Some? && GoodKdf(kdf) && GoodDerivation(derive)
  {
    var (bob2, accepted) := AcceptLeg(bob, Some(verdict), kdf, derive);
    && accepted.Ok? && bob2.measured == None && verdict.qber == 0.0
    && alice.bank.sae == before.sae && bob2.bank.sae == bob.bank.sae
    && var made := Accept(bob.measured.value.0, verdict, KeyBank.MATERIAL_BYTES, kdf);
    made.Ok? && Twins(alice.bank, bobSae, bob2.bank, bob.measured.value.1, made.value)
  }

  /** Legs 1 and 2 over an untouched channel. */
  lemma FirstLegs(alice: Held, bob: Held, bits: seq<bool>, bases: seq<bool>, draws: Draws)
    requires |bits| == |bases| && 0 < |bits| <= MAX_STATES && draws.For(|bits|)
    ensures var (alice1, photons) := BeginLeg(alice, bits, bases);
      var (bob1, reply) := MeasureLeg(bob, Some(photons), draws);
      && alice1.prepared.Some? && reply.Ok? && bob1.measured.Some?
      && var m := bob1.measured.value.0;
      && InStep(alice1.prepared.value, m) && bob1.measured.value.1 == alice.bank.sae
      && reply.value.sae == bob.bank.sae && reply.value.sample == m.sample
      && OpenReply(m.n, reply.value) == Ok((m.bases, At(m.results, m.sample)))
  {
    OpenPrepared(alice.bank.sae, bits, bases);
    var (measured, reply) := Measure(bob.bank.sae, Prepare(alice.bank.sae, bits, bases).1, draws).value;
    OpenMeasured(measured, reply);
  }

  /** Enough agreeing positions to check, and enough others to make the keys of. */
  ghost predicate EnoughDrawn(bases: seq<bool>, draws: Draws)
    requires draws.For(|bases|)
  {
    var (agreed, sample) := (Agreement(bases, draws.bases), Drawn(draws.sample));
    |Comparable(agreed, sample)| >= MIN_CHECKED && |KeptPositions(agreed, sample)| >= 8 * KeyBank.MATERIAL_BYTES
  }

  lemma CleanJudgement(alice: KeyBank.Sae, bits: seq<bool>, bases: seq<bool>, bob: KeyBank.Sae, draws: Draws, kdf: Kdf)
    requires |bits| == |bases| && 0 < |bits| <= MAX_STATES && draws.For(|bits|) && GoodKdf(kdf)
    ensures var (prepared, photons) := Prepare(alice, bits, bases);
      && Measure(bob, photons, draws).Ok?
      && (Judge(prepared, Measure(bob, photons, draws).value.1, KeyBank.MATERIAL_BYTES, kdf).Ok? <==> EnoughDrawn(bases, draws))
  {
    CleanChannel(alice, bits, bases, bob, draws, KeyBank.MATERIAL_BYTES, kdf);
    var (prepared, photons) := Prepare(alice, bits, bases);
    OpenPrepared(alice, bits, bases);
    JudgeDecides(prepared, Measure(bob, photons, draws).value.1, KeyBank.MATERIAL_BYTES, kdf);
  }

  /**
   * Nobody touched the states. Whatever the phones' banks were and became
   * between the legs: when the judging phone builds a bank, the measuring
   * phone, given the verdict, builds its twin; and when it refuses, its bank
   * does not change and there is nothing left to judge. It builds one exactly
   * if 256 entries of the sample can be compared and enough positions are left.
   */
  lemma CleanExchange(
      alice: Held, bob: Held, bits: seq<bool>, bases: seq<bool>, draws: Draws,
      aliceBank: KeyBank.Bank, bobBank: KeyBank.Bank, kdf: Kdf, derive: IdDerivation)
    requires alice.Whole() && bob.Whole() && GoodKdf(kdf) && GoodDerivation(derive)
    requires |bits| == |bases| == KeyBank.MATERIAL_BYTES * STATES_PER_BYTE && draws.For(|bits|)
    ensures var (alice1, photons) := BeginLeg(alice, bits, bases);
      var (bob1, reply) := MeasureLeg(bob, Some(photons), draws);
      && reply.Ok? && alice1.Whole() && bob1.Whole() && bob1.measured.Some?
      && bob1.measured.value.1 == alice.bank.sae
      && var (alice2, verdict) := JudgeLeg(alice1.(bank := aliceBank), Some(reply.value), kdf, derive);
      && alice2.prepared == None
      && (verdict.Ok? <==> EnoughDrawn(bases, draws))
      && (verdict.Err? ==> alice2.bank == aliceBank)
      && (verdict.Ok? ==> BothBuilt(aliceBank, alice2, bob1.(bank := bobBank), verdict.value, bob.bank.sae, kdf, derive))
  {
    FirstLegs(alice, bob, bits, bases, draws);
    var (alice1, photons) := BeginLeg(alice, bits, bases);
    var (bob1, reply) := MeasureLeg(bob, Some(photons), draws);
    LastLeg(alice1.(bank := aliceBank), bob1.(bank := bobBank), reply.value, alice.bank.sae, kdf, derive);
    CleanJudgement(alice.bank.sae, bits, bases, bob.bank.sae, draws, kdf);
  }

  /** Whatever judging came to, nothing can be judged again until another is begun. */
  lemma JudgedIsSpent(h: Held, reply: Reply, again: Option<Reply>, kdf: Kdf, derive: IdDerivation)
    requires h.Whole() && GoodKdf(kdf) && GoodDerivation(derive)
    ensures var after := JudgeLeg(h, Some(reply), kdf, derive).0;
      && (JudgeLeg(h, Some(reply), kdf, derive).1.Err? ==> after.bank == h.bank)
      && JudgeLeg(after, again, kdf, derive) == (after, Err(NoExchange))
  {
  }

  lemma AcceptedIsSpent(h: Held, verdict: Verdict, again: Option<Verdict>, kdf: Kdf, derive: IdDerivation)
    requires h.Whole() && GoodKdf(kdf) && GoodDerivation(derive)
    ensures var after := AcceptLeg(h, Some(verdict), kdf, derive).0;
      && (AcceptLeg(h, Some(verdict), kdf, derive).1.Err? ==> after.bank == h.bank)
      && AcceptLeg(after, again, kdf, derive) == (after, Err(NoExchange))
  {
  }

  /** A text that is no leg at all, or one with nothing waiting for it, changes nothing on the phone. */
  lemma UnreadableCostsNothing(h: Held, draws: Draws, reply: Option<Reply>, verdict: Option<Verdict>, kdf: Kdf, derive: IdDerivation)
    requires h.Whole() && GoodKdf(kdf) && GoodDerivation(derive)
    ensures MeasureLeg(h, None, draws) == (h, Err(Damaged))
    ensures reply.None? || h.prepared.None? ==>
      JudgeLeg(h, reply, kdf, derive) == (h, Err(if h.prepared.None? then NoExchange else Damaged))
    ensures verdict.None? || h.measured.None? ==>
      AcceptLeg(h, verdict, kdf, derive) == (h, Err(if h.measured.None? then NoExchange else Damaged))
  {
  }
}
