/**
 * The simulated BB84 exchange (core/src/bb84.rs): prepare, measure, judge,
 * accept, and someone between who measures and resends. Random draws are
 * parameters; the error rate is an exact rational.
 */
module Bb84 {
  import opened Common
  import opened Bits

  const QBER_LIMIT := 0.11
  const SAMPLE_EVERY := 10
  const MIN_CHECKED := 256
  const STATES_PER_BYTE := 32
  const MAX_STATES := 0x100_0000
  const CHUNK := 4096

  datatype Photons = Photons(sae: string, n: nat, bits: seq<Octet>, bases: seq<Octet>)

  datatype Prepared = Prepared(n: nat, bits: seq<bool>, bases: seq<bool>) {
    predicate Whole() {
      |bits| == |bases| == n
    }
  }

  datatype Measured = Measured(n: nat, bases: seq<bool>, results: seq<bool>, sample: seq<nat>) {
    predicate Whole() {
      |bases| == |results| == n && forall k | 0 <= k < |sample| :: sample[k] < n
    }
  }

  datatype Reply = Reply(sae: string, n: nat, bases: seq<Octet>, sample: seq<nat>, sampleBits: seq<Octet>)

  datatype Verdict = Verdict(n: nat, agreed: seq<Octet>, qber: real, checked: nat)

  datatype Refusal = Damaged | ShortSample | Eavesdropper | ShortKey | NoExchange

  /** HKDF-SHA256 salted with the state count and the agreed bases: secret, chunk number, length. */
  type Kdf = (nat, seq<Octet>, seq<Octet>, nat, nat) -> seq<Byte>

  ghost predicate GoodKdf(kdf: Kdf) {
    forall n, agreed, secret, chunk, len :: |kdf(n, agreed, secret, chunk, len)| == len
  }

  // -------------------------------------------------------------- leg 1 --

  function Prepare(sae: string, bits: seq<bool>, bases: seq<bool>): (r: (Prepared, Photons))
    requires |bits| == |bases|
    ensures r.0.Whole()
  {
    (Prepared(|bits|, bits, bases), Photons(sae, |bits|, Pack(bits), Pack(bases)))
  }

  function OpenPhotons(photons: Photons): (r: Result<(seq<bool>, seq<bool>), Refusal>) {
    if photons.n == 0 || photons.n > MAX_STATES then Err(Damaged)
    else
      match (Unpack(photons.bits, photons.n), Unpack(photons.bases, photons.n))
      case (Some(bits), Some(bases)) => Ok((bits, bases))
      case _ => Err(Damaged)
  }

  lemma OpenPrepared(sae: string, bits: seq<bool>, bases: seq<bool>)
    requires |bits| == |bases|
    ensures OpenPhotons(Prepare(sae, bits, bases).1) ==
      if 0 < |bits| <= MAX_STATES then Ok((bits, bases)) else Err(Damaged)
  {
    PackUnpack(bits);
    PackUnpack(bases);
  }

  // -------------------------------------------------------------- leg 2 --

  /** What is read of `bit` prepared in basis `sent`, measured in `basis`: itself, or chance. */
  function Read(bit: bool, sent: bool, basis: bool, coin: bool): (r: bool) {
    if basis == sent then bit else coin
  }

  function ReadAll(bits: seq<bool>, sent: seq<bool>, bases: seq<bool>, coins: seq<bool>): (r: seq<bool>)
    requires |bits| == |sent| == |bases| == |coins|
    ensures |r| == |bits|
    ensures forall i | 0 <= i < |r| :: r[i] == Read(bits[i], sent[i], bases[i], coins[i])
  {
    seq(|bits|, i requires 0 <= i < |bits| => Read(bits[i], sent[i], bases[i], coins[i]))
  }

  /** The positions drawn for the check, ascending. */
  function Drawn(draws: seq<nat>): (sample: seq<nat>)
    ensures forall k | 0 <= k < |sample| :: sample[k] < |draws|
  {
    if draws == [] then []
    else
      var n := |draws| - 1;
      Drawn(draws[..n]) + if draws[n] % SAMPLE_EVERY == 0 then [n] else []
  }

  /** One position in ten on average: exactly those whose draw divides by ten, each once, in ascending order. */
  lemma {:induction false} DrawnExactly(draws: seq<nat>)
    ensures forall i: nat :: i in Drawn(draws) <==> i < |draws| && draws[i] % 10 == 0
    ensures forall j, k :: 0 <= j < k < |Drawn(draws)| ==> Drawn(draws)[j] < Drawn(draws)[k]
  {
    if draws != [] {
      var n := |draws| - 1;
      DrawnExactly(draws[..n]);
      forall j, k | 0 <= j < k < |Drawn(draws)| ensures Drawn(draws)[j] < Drawn(draws)[k] {
        if k == |Drawn(draws[..n])| { assert Drawn(draws)[j] in Drawn(draws[..n]); }
      }
    }
  }

  function At(bits: seq<bool>, sample: seq<nat>): (r: seq<bool>)
    requires forall k | 0 <= k < |sample| :: sample[k] < |bits|
    ensures |r| == |sample| && forall k | 0 <= k < |sample| :: r[k] == bits[sample[k]]
  {
    seq(|sample|, k requires 0 <= k < |sample| => bits[sample[k]])
  }

  /** The measuring end's random draws. */
  datatype Draws = Draws(bases: seq<bool>, coins: seq<bool>, sample: seq<nat>) {
    predicate For(n: nat) {
      |bases| == |coins| == |sample| == n
    }
  }

  function Measure(sae: string, photons: Photons, draws: Draws): (r: Result<(Measured, Reply), Refusal>)
    requires draws.For(photons.n)
  {
    match OpenPhotons(photons)
    case Err(e) => Err(e)
    case Ok((bits, sent)) =>
      var results := ReadAll(bits, sent, draws.bases, draws.coins);
      var sample := Drawn(draws.sample);
      Ok((Measured(photons.n, draws.bases, results, sample),
          Reply(sae, photons.n, Pack(draws.bases), sample, Pack(At(results, sample)))))
  }

  method MeasureStates(sae: string, photons: Photons, draws: Draws) returns (r: Result<(Measured, Reply), Refusal>)
    requires draws.For(photons.n)
    ensures r == Measure(sae, photons, draws)
    ensures r.Ok? ==> r.value.0.Whole()
  {
    var states := OpenPhotons(photons);
    if states.Err? {
      return Err(states.error);
    }
    var (bits, sent) := states.value;
    var n := photons.n;
    var results: seq<bool> := [];
    for i := 0 to n
      invariant |results| == i
      invariant forall m | 0 <= m < i :: results[m] == Read(bits[m], sent[m], draws.bases[m], draws.coins[m])
    {
      results := results + [if draws.bases[i] == sent[i] then bits[i] else draws.coins[i]];
    }
    assert results == ReadAll(bits, sent, draws.bases, draws.coins);
    var sample: seq<nat> := [];
    for i := 0 to n
      invariant sample == Drawn(draws.sample[..i])
    {
      assert draws.sample[..i + 1][..i] == draws.sample[..i];
      if draws.sample[i] % SAMPLE_EVERY == 0 {
        sample := sample + [i];
      }
    }
    assert draws.sample[..n] == draws.sample;
    var bases := PackBits(draws.bases);
    var sampleBits := PackBits(At(results, sample));
    r := Ok((Measured(n, draws.bases, results, sample), Reply(sae, n, bases, sample, sampleBits)));
  }

  // -------------------------------------------------------------- leg 3 --

  function Agreement(a: seq<bool>, b: seq<bool>): (r: seq<bool>)
    requires |a| == |b|
    ensures |r| == |a| && forall i | 0 <= i < |a| :: r[i] == (a[i] == b[i])
  {
    seq(|a|, i requires 0 <= i < |a| => a[i] == b[i])
  }

  predicate Within(sample: seq<nat>, n: nat) {
    forall k | 0 <= k < |sample| :: sample[k] < n
  }

  /** The entries of the sample that can be compared: the bases agreed there. */
  function Comparable(agreed: seq<bool>, sample: seq<nat>): (ks: set<nat>)
    requires Within(sample, |agreed|)
  {
    set k: nat | k < |sample| && agreed[sample[k]]
  }

  /** Those of them where the two ends read different bits. */
  function Disagreeing(bits: seq<bool>, agreed: seq<bool>, sample: seq<nat>, said: seq<bool>): (ks: set<nat>)
    requires |bits| == |agreed| && Within(sample, |agreed|) && |said| == |sample|
  {
    set k: nat | k < |sample| && agreed[sample[k]] && said[k] != bits[sample[k]]
  }

  /** A position that counts: one basis at both ends, and outside the sample. */
  predicate Kept(agreed: seq<bool>, sample: seq<nat>, i: nat)
    requires i < |agreed|
  {
    agreed[i] && i !in sample
  }

  function Mask(n: nat, positions: seq<nat>): (r: seq<bool>)
    ensures |r| == n
  {
    seq(n, i requires 0 <= i < n => i in positions)
  }

  function Sifted(bits: seq<bool>, agreed: seq<bool>, sampled: seq<bool>): (r: seq<bool>)
    requires |bits| == |agreed| == |sampled|
  {
    if bits == [] then []
    else
      var n := |bits| - 1;
      Sifted(bits[..n], agreed[..n], sampled[..n]) + if agreed[n] && !sampled[n] then [bits[n]] else []
  }

  /** The material, octet by octet: each comes from its own chunk of the derivation. */
  function Amplify(key: seq<bool>, agreed: seq<Octet>, n: nat, keyBytes: nat, kdf: Kdf): (r: Result<seq<Byte>, Refusal>)
    requires forall chunk, len :: |kdf(n, agreed, Pack(key), chunk, len)| == len
    ensures r.Ok? ==> |r.value| == keyBytes
  {
    if |key| < keyBytes * 8 then Err(ShortKey)
    else Ok(seq(keyBytes, p requires 0 <= p < keyBytes => MaterialAt(key, agreed, n, keyBytes, kdf, p)))
  }

  function ChunkLength(keyBytes: nat, chunk: nat): (len: nat)
    requires CHUNK * chunk <= keyBytes
  {
    if keyBytes - CHUNK * chunk < CHUNK then keyBytes - CHUNK * chunk else CHUNK
  }

  function MaterialAt(key: seq<bool>, agreed: seq<Octet>, n: nat, keyBytes: nat, kdf: Kdf, p: nat): (b: Byte)
    requires p < keyBytes
    requires forall chunk, len :: |kdf(n, agreed, Pack(key), chunk, len)| == len
  {
    kdf(n, agreed, Pack(key), p / CHUNK, ChunkLength(keyBytes, p / CHUNK))[p % CHUNK]
  }

  method AmplifyKey(key: seq<bool>, agreed: seq<Octet>, n: nat, keyBytes: nat, kdf: Kdf) returns (r: Result<seq<Byte>, Refusal>)
    requires GoodKdf(kdf)
    ensures r == Amplify(key, agreed, n, keyBytes, kdf)
  {
    if |key| < keyBytes * 8 {
      return Err(ShortKey);
    }
    var secret := PackBits(key);
    var out: seq<Byte> := [];
    var i := 0;
    while |out| < keyBytes
      invariant |out| == if CHUNK * i < keyBytes then CHUNK * i else keyBytes
      invariant forall p | 0 <= p < |out| :: out[p] == MaterialAt(key, agreed, n, keyBytes, kdf, p)
    {
      var chunk := kdf(n, agreed, secret, i, ChunkLength(keyBytes, i));
      ghost var before := |out|;
      out := out + chunk;
      forall p | before <= p < |out| ensures p / CHUNK == i && p % CHUNK == p - CHUNK * i {
        InChunk(p, i);
      }
      i := i + 1;
    }
    r := Ok(out);
    assert out == Amplify(key, agreed, n, keyBytes, kdf).value;
  }

  lemma InChunk(p: nat, i: nat)
    requires CHUNK * i <= p < CHUNK * (i + 1)
    ensures p / CHUNK == i && p % CHUNK == p - CHUNK * i
  {
  }

  /** `n` states, the bases and the sample as sent, readable and in range. */
  function OpenReply(n: nat, reply: Reply): (r: Result<(seq<bool>, seq<bool>), Refusal>) {
    if reply.n != n then Err(Damaged)
    else
      match (Unpack(reply.bases, reply.n), Unpack(reply.sampleBits, |reply.sample|))
      case (Some(bases), Some(said)) => if Within(reply.sample, n) then Ok((bases, said)) else Err(Damaged)
      case _ => Err(Damaged)
  }

  function Rate(wrong: nat, checked: nat): (q: real)
    requires checked > 0
  {
    wrong as real / checked as real
  }

  /** The verdict the comparison comes to, before it is decided on. */
  function VerdictOn(prepared: Prepared, bobBases: seq<bool>, sample: seq<nat>, said: seq<bool>): (v: Verdict)
    requires prepared.Whole() && |bobBases| == prepared.n && Within(sample, prepared.n) && |said| == |sample|
  {
    var agreed := Agreement(prepared.bases, bobBases);
    var checked := |Comparable(agreed, sample)|;
    var wrong := |Disagreeing(prepared.bits, agreed, sample, said)|;
    Verdict(prepared.n, Pack(agreed), if checked == 0 then 0.0 else Rate(wrong, checked), checked)
  }

  /** The material in `bits`: sifted, and amplified under the agreed bases as sent. */
  ghost function Distil(bits: seq<bool>, agreed: seq<bool>, sent: seq<Octet>, sample: seq<nat>, keyBytes: nat, kdf: Kdf)
      : (r: Result<seq<Byte>, Refusal>)
    requires |bits| == |agreed| && GoodKdf(kdf)
    ensures r.Ok? ==> |r.value| == keyBytes
  {
    Amplify(Sifted(bits, agreed, Mask(|bits|, sample)), sent, |bits|, keyBytes, kdf)
  }

  ghost function Judge(prepared: Prepared, reply: Reply, keyBytes: nat, kdf: Kdf): (r: Result<(Verdict, seq<Byte>), Refusal>)
    requires prepared.Whole() && GoodKdf(kdf)
  {
    match OpenReply(prepared.n, reply)
    case Err(e) => Err(e)
    case Ok((bobBases, said)) =>
      var agreed := Agreement(prepared.bases, bobBases);
      var v := VerdictOn(prepared, bobBases, reply.sample, said);
      if v.checked < MIN_CHECKED then Err(ShortSample)
      else if v.qber > QBER_LIMIT then Err(Eavesdropper)
      else
        match Distil(prepared.bits, agreed, v.agreed, reply.sample, keyBytes, kdf)
        case Err(e) => Err(e)
        case Ok(material) => Ok((v, material))
  }

  ghost function Accept(measured: Measured, verdict: Verdict, keyBytes: nat, kdf: Kdf): (r: Result<seq<Byte>, Refusal>)
    requires measured.Whole() && GoodKdf(kdf)
  {
    if verdict.n != measured.n then Err(Damaged)
    else if verdict.qber > QBER_LIMIT || verdict.checked < MIN_CHECKED then Err(Eavesdropper)
    else
      match Unpack(verdict.agreed, verdict.n)
      case None => Err(Damaged)
      case Some(agreed) =>
        Distil(measured.results, agreed, verdict.agreed, measured.sample, keyBytes, kdf)
  }

  // ------------------------------------------------- the loops of leg 3 --

  method SiftBits(bits: seq<bool>, agreed: seq<bool>, sampled: seq<bool>) returns (kept: seq<bool>)
    requires |bits| == |agreed| == |sampled|
    ensures kept == Sifted(bits, agreed, sampled)
  {
    kept := [];
    for i := 0 to |bits|
      invariant kept == Sifted(bits[..i], agreed[..i], sampled[..i])
    {
      assert bits[..i + 1][..i] == bits[..i] && agreed[..i + 1][..i] == agreed[..i] && sampled[..i + 1][..i] == sampled[..i];
      if agreed[i] && !sampled[i] {
        kept := kept + [bits[i]];
      }
    }
    assert bits[..|bits|] == bits && agreed[..|bits|] == agreed && sampled[..|bits|] == sampled;
  }

  method MaskOf(n: nat, positions: seq<nat>) returns (mask: seq<bool>)
    ensures mask == Mask(n, positions)
  {
    var out := new bool[n](_ => false);
    for k := 0 to |positions|
      invariant forall i | 0 <= i < n :: out[i] == (i in positions[..k])
    {
      assert positions[..k + 1] == positions[..k] + [positions[k]];
      if positions[k] < n {
        out[positions[k]] := true;
      }
    }
    assert positions[..|positions|] == positions;
    mask := out[..];
    assert mask == Mask(n, positions);
  }

  lemma OneMoreCompared(agreed: seq<bool>, sample: seq<nat>, k: nat)
    requires Within(sample, |agreed|) && k < |sample|
    ensures Within(sample[..k], |agreed|) && Within(sample[..k + 1], |agreed|)
    ensures |Comparable(agreed, sample[..k + 1])| == |Comparable(agreed, sample[..k])| + if agreed[sample[k]] then 1 else 0
  {
    assert Comparable(agreed, sample[..k + 1]) == Comparable(agreed, sample[..k]) + if agreed[sample[k]] then {k} else {};
  }

  lemma OneMoreDisagrees(bits: seq<bool>, agreed: seq<bool>, sample: seq<nat>, said: seq<bool>, k: nat)
    requires |bits| == |agreed| && Within(sample, |agreed|) && |said| == |sample| && k < |sample|
    ensures Within(sample[..k], |agreed|) && Within(sample[..k + 1], |agreed|)
    ensures |Disagreeing(bits, agreed, sample[..k + 1], said[..k + 1])| ==
      |Disagreeing(bits, agreed, sample[..k], said[..k])| + if agreed[sample[k]] && said[k] != bits[sample[k]] then 1 else 0
  {
    assert Disagreeing(bits, agreed, sample[..k + 1], said[..k + 1]) ==
      Disagreeing(bits, agreed, sample[..k], said[..k]) + if agreed[sample[k]] && said[k] != bits[sample[k]] then {k} else {};
  }

  method Compare(bits: seq<bool>, agreed: seq<bool>, sample: seq<nat>, said: seq<bool>) returns (checked: nat, errors: nat)
    requires |bits| == |agreed| && Within(sample, |agreed|) && |said| == |sample|
    ensures checked == |Comparable(agreed, sample)|
    ensures errors == |Disagreeing(bits, agreed, sample, said)|
  {
    checked, errors := 0, 0;
    for k := 0 to |sample|
      invariant Within(sample[..k], |agreed|)
      invariant checked == |Comparable(agreed, sample[..k])|
      invariant errors == |Disagreeing(bits, agreed, sample[..k], said[..k])|
    {
      var i := sample[k];
      OneMoreCompared(agreed, sample, k);
      OneMoreDisagrees(bits, agreed, sample, said, k);
      if agreed[i] {
        checked := checked + 1;
        if said[k] != bits[i] {
          errors := errors + 1;
        }
      }
    }
    assert sample[..|sample|] == sample && said[..|sample|] == said;
  }

  method JudgeReply(prepared: Prepared, reply: Reply, keyBytes: nat, kdf: Kdf) returns (r: Result<(Verdict, seq<Byte>), Refusal>)
    requires prepared.Whole() && GoodKdf(kdf)
    ensures r == Judge(prepared, reply, keyBytes, kdf)
  {
    var parts := OpenReply(prepared.n, reply);
    if parts.Err? {
      return Err(parts.error);
    }
    var (bobBases, said) := parts.value;
    var agreed := Agreement(prepared.bases, bobBases);
    var checked, errors := Compare(prepared.bits, agreed, reply.sample, said);
    if checked < MIN_CHECKED {
      return Err(ShortSample);
    }
    var qber := errors as real / checked as real;
    var packed := PackBits(agreed);
    var verdict := Verdict(prepared.n, packed, qber, checked);
    if qber > QBER_LIMIT {
      return Err(Eavesdropper);
    }
    var sampled := MaskOf(prepared.n, reply.sample);
    var key := SiftBits(prepared.bits, agreed, sampled);
    var material := AmplifyKey(key, verdict.agreed, prepared.n, keyBytes, kdf);
    r := if material.Err? then Err(material.error) else Ok((verdict, material.value));
  }

  method AcceptVerdict(measured: Measured, verdict: Verdict, keyBytes: nat, kdf: Kdf) returns (r: Result<seq<Byte>, Refusal>)
    requires measured.Whole() && GoodKdf(kdf)
    ensures r == Accept(measured, verdict, keyBytes, kdf)
  {
    if verdict.n != measured.n {
      return Err(Damaged);
    }
    if verdict.qber > QBER_LIMIT || verdict.checked < MIN_CHECKED {
      return Err(Eavesdropper);
    }
    var agreed := Unpack(verdict.agreed, verdict.n);
    if agreed.None? {
      return Err(Damaged);
    }
    var sampled := MaskOf(measured.n, measured.sample);
    var key := SiftBits(measured.results, agreed.value, sampled);
    r := AmplifyKey(key, verdict.agreed, measured.n, keyBytes, kdf);
  }

  // --------------------------------------------------- what is decided --

  function KeptPositions(agreed: seq<bool>, sample: seq<nat>): (r: set<nat>) {
    set i: nat | i < |agreed| && Kept(agreed, sample, i)
  }

  /** Sifting keeps one bit for every position kept. */
  lemma {:induction false} SiftedCount(bits: seq<bool>, agreed: seq<bool>, sample: seq<nat>, sampled: seq<bool>)
    requires |bits| == |agreed| == |sampled|
    requires forall i | 0 <= i < |bits| :: sampled[i] == (i in sample)
    ensures |Sifted(bits, agreed, sampled)| == |KeptPositions(agreed, sample)|
  {
    if bits == [] {
      assert KeptPositions(agreed, sample) == {};
    } else {
      var n := |bits| - 1;
      SiftedCount(bits[..n], agreed[..n], sample, sampled[..n]);
      assert KeptPositions(agreed, sample) == KeptPositions(agreed[..n], sample) + if Kept(agreed, sample, n) then {n} else {};
    }
  }

  /** The sifted key hangs on the kept positions alone: nothing sampled, and nothing read in another basis, is in it. */
  lemma {:induction false} SiftedIgnores(a: seq<bool>, b: seq<bool>, agreed: seq<bool>, sampled: seq<bool>)
    requires |a| == |b| == |agreed| == |sampled|
    requires forall i | 0 <= i < |a| && agreed[i] && !sampled[i] :: a[i] == b[i]
    ensures Sifted(a, agreed, sampled) == Sifted(b, agreed, sampled)
  {
    if a != [] {
      var n := |a| - 1;
      SiftedIgnores(a[..n], b[..n], agreed[..n], sampled[..n]);
    }
  }

  /** The `m`-th sifted bit is the bit at the `m`-th kept position. */
  lemma {:induction false} SiftedAt(bits: seq<bool>, agreed: seq<bool>, sample: seq<nat>, sampled: seq<bool>, i: nat)
    requires |bits| == |agreed| == |sampled| && i < |bits| && Kept(agreed, sample, i)
    requires forall m | 0 <= m < |bits| :: sampled[m] == (m in sample)
    ensures var m := |KeptPositions(agreed[..i], sample)|;
      m < |Sifted(bits, agreed, sampled)| && Sifted(bits, agreed, sampled)[m] == bits[i]
  {
    var n := |bits| - 1;
    if i == n {
      SiftedCount(bits[..n], agreed[..n], sample, sampled[..n]);
    } else {
      SiftedAt(bits[..n], agreed[..n], sample, sampled[..n], i);
      assert agreed[..n][..i] == agreed[..i];
    }
  }

  /** The rate is above the bound exactly when more than 11 in 100 disagree. */
  lemma RateAboveLimit(wrong: nat, checked: nat)
    requires checked > 0
    ensures Rate(wrong, checked) > QBER_LIMIT <==> 100 * wrong > 11 * checked
  {
    var q := Rate(wrong, checked);
    var c := checked as real;
    assert q * c == wrong as real;
    if q > QBER_LIMIT {
      assert q * c > QBER_LIMIT * c;
    } else {
      assert q * c <= QBER_LIMIT * c;
    }
  }

  /**
   * When a reply is turned into a key: it reads as this run's, at least 256 of
   * the sampled entries can be compared, at most 11 in 100 of those disagree,
   * and enough positions are left over.
   */
  lemma JudgeDecides(prepared: Prepared, reply: Reply, keyBytes: nat, kdf: Kdf)
    requires prepared.Whole() && GoodKdf(kdf)
    ensures Judge(prepared, reply, keyBytes, kdf).Ok? <==>
      match OpenReply(prepared.n, reply)
      case Err(_) => false
      case Ok((bobBases, said)) =>
        var agreed := Agreement(prepared.bases, bobBases);
        var checked := |Comparable(agreed, reply.sample)|;
        && checked >= MIN_CHECKED
        && 100 * |Disagreeing(prepared.bits, agreed, reply.sample, said)| <= 11 * checked
        && |KeptPositions(agreed, reply.sample)| >= 8 * keyBytes
  {
    match OpenReply(prepared.n, reply)
    case Err(_) =>
    case Ok((bobBases, said)) =>
      var agreed := Agreement(prepared.bases, bobBases);
      var checked := |Comparable(agreed, reply.sample)|;
      SiftedCount(prepared.bits, agreed, reply.sample, Mask(prepared.n, reply.sample));
      if checked > 0 {
        RateAboveLimit(|Disagreeing(prepared.bits, agreed, reply.sample, said)|, checked);
      }
  }

  /**
   * The measuring end decides by the verdict's own word: its rate and count as
   * written, and whether its own results leave enough bits. It compares
   * nothing itself, so a forged low rate over a full-length key is accepted.
   */
  lemma AcceptDecides(measured: Measured, verdict: Verdict, keyBytes: nat, kdf: Kdf)
    requires measured.Whole() && GoodKdf(kdf)
    ensures Accept(measured, verdict, keyBytes, kdf).Ok? <==>
      && verdict.n == measured.n && verdict.qber <= QBER_LIMIT && verdict.checked >= MIN_CHECKED
      && match Unpack(verdict.agreed, verdict.n)
         case None => false
         case Some(agreed) => |KeptPositions(agreed, measured.sample)| >= 8 * keyBytes
  {
    match Unpack(verdict.agreed, verdict.n)
    case None =>
    case Some(agreed) =>
      if verdict.n == measured.n {
        SiftedCount(measured.results, agreed, measured.sample, Mask(measured.n, measured.sample));
      }
  }

  // ------------------------------------------------ an untouched channel --

  lemma OpenMeasured(measured: Measured, reply: Reply)
    requires measured.Whole() && reply.n == measured.n && reply.sample == measured.sample
    requires reply.bases == Pack(measured.bases) && reply.sampleBits == Pack(At(measured.results, measured.sample))
    ensures OpenReply(measured.n, reply) == Ok((measured.bases, At(measured.results, measured.sample)))
  {
    PackUnpack(measured.bases);
    PackUnpack(At(measured.results, measured.sample));
  }

  /** Where the two ends measured alike they read alike: what two ends have after an undisturbed leg 2. */
  ghost predicate InStep(prepared: Prepared, measured: Measured) {
    && prepared.Whole() && measured.Whole() && prepared.n == measured.n
    && forall i | 0 <= i < prepared.n && prepared.bases[i] == measured.bases[i] :: prepared.bits[i] == measured.results[i]
  }

  /** The two ends then sift the same key, and come to the same material or the same refusal. */
  lemma SameMaterial(prepared: Prepared, measured: Measured, reply: Reply, keyBytes: nat, kdf: Kdf)
    requires InStep(prepared, measured) && GoodKdf(kdf)
    requires OpenReply(prepared.n, reply) == Ok((measured.bases, At(measured.results, measured.sample)))
    requires reply.sample == measured.sample
    ensures var v := VerdictOn(prepared, measured.bases, measured.sample, At(measured.results, measured.sample));
      && v.qber == 0.0
      && (Judge(prepared, reply, keyBytes, kdf).Ok? <==> Accept(measured, v, keyBytes, kdf).Ok?)
      && (Judge(prepared, reply, keyBytes, kdf).Ok? ==>
            Judge(prepared, reply, keyBytes, kdf).value == (v, Accept(measured, v, keyBytes, kdf).value))
  {
    var v := CleanVerdict(prepared, measured);
    var agreed := Agreement(prepared.bases, measured.bases);
    AcceptOwnVerdict(measured, v, agreed, keyBytes, kdf);
    SameSift(prepared, measured, v.agreed, keyBytes, kdf);
  }

  lemma CleanVerdict(prepared: Prepared, measured: Measured) returns (v: Verdict)
    requires InStep(prepared, measured)
    ensures v == VerdictOn(prepared, measured.bases, measured.sample, At(measured.results, measured.sample))
    ensures v.n == prepared.n && v.qber == 0.0 && v.agreed == Pack(Agreement(prepared.bases, measured.bases))
  {
    v := VerdictOn(prepared, measured.bases, measured.sample, At(measured.results, measured.sample));
    NothingDisagrees(prepared, measured);
  }

  lemma AcceptOwnVerdict(measured: Measured, v: Verdict, agreed: seq<bool>, keyBytes: nat, kdf: Kdf)
    requires measured.Whole() && GoodKdf(kdf) && v.n == measured.n == |agreed| && v.qber == 0.0 && v.agreed == Pack(agreed)
    ensures Accept(measured, v, keyBytes, kdf) ==
      if v.checked < MIN_CHECKED then Err(Eavesdropper)
      else Distil(measured.results, agreed, v.agreed, measured.sample, keyBytes, kdf)
  {
    PackUnpack(agreed);
  }

  lemma NothingDisagrees(prepared: Prepared, measured: Measured)
    requires InStep(prepared, measured)
    ensures Disagreeing(prepared.bits, Agreement(prepared.bases, measured.bases), measured.sample, At(measured.results, measured.sample)) == {}
  {
  }

  lemma SameSift(prepared: Prepared, measured: Measured, sent: seq<Octet>, keyBytes: nat, kdf: Kdf)
    requires InStep(prepared, measured) && GoodKdf(kdf)
    ensures var agreed := Agreement(prepared.bases, measured.bases);
      Distil(prepared.bits, agreed, sent, measured.sample, keyBytes, kdf) == Distil(measured.results, agreed, sent, measured.sample, keyBytes, kdf)
  {
    SiftedIgnores(prepared.bits, measured.results, Agreement(prepared.bases, measured.bases), Mask(prepared.n, measured.sample));
  }

  /**
   * For all bits, bases, chance results and samples: if nobody touches the
   * states, not one compared bit disagrees, the measuring end accepts exactly
   * when the preparing end does, and both hold the same material.
   */
  lemma CleanChannel(
      alice: string, bits: seq<bool>, bases: seq<bool>, bob: string, draws: Draws, keyBytes: nat, kdf: Kdf)
    requires |bits| == |bases| && 0 < |bits| <= MAX_STATES && draws.For(|bits|) && GoodKdf(kdf)
    ensures var (prepared, photons) := Prepare(alice, bits, bases);
      && Measure(bob, photons, draws).Ok?
      && var (measured, reply) := Measure(bob, photons, draws).value;
      && prepared.Whole() && measured.Whole()
      && OpenReply(prepared.n, reply) == Ok((measured.bases, At(measured.results, measured.sample)))
      && var said := At(measured.results, measured.sample);
      && Disagreeing(bits, Agreement(bases, draws.bases), reply.sample, said) == {}
      && var v := VerdictOn(prepared, measured.bases, measured.sample, said);
      && (Judge(prepared, reply, keyBytes, kdf).Ok? <==> Accept(measured, v, keyBytes, kdf).Ok?)
      && (Judge(prepared, reply, keyBytes, kdf).Ok? ==>
            Judge(prepared, reply, keyBytes, kdf).value == (v, Accept(measured, v, keyBytes, kdf).value))
  {
    OpenPrepared(alice, bits, bases);
    var (prepared, photons) := Prepare(alice, bits, bases);
    var (measured, reply) := Measure(bob, photons, draws).value;
    OpenMeasured(measured, reply);
    SameMaterial(prepared, measured, reply, keyBytes, kdf);
  }

  // ------------------------------------------------------ eavesdropping --

  function Eavesdrop(photons: Photons, bases: seq<bool>, coins: seq<bool>): (r: Result<Photons, Refusal>)
    requires |bases| == |coins| == photons.n
  {
    match OpenPhotons(photons)
    case Err(e) => Err(e)
    case Ok((bits, sent)) =>
      Ok(Photons(photons.sae, photons.n, Pack(ReadAll(bits, sent, bases, coins)), Pack(bases)))
  }

  method ResendStates(photons: Photons, bases: seq<bool>, coins: seq<bool>) returns (r: Result<Photons, Refusal>)
    requires |bases| == |coins| == photons.n
    ensures r == Eavesdrop(photons, bases, coins)
  {
    var states := OpenPhotons(photons);
    if states.Err? {
      return Err(states.error);
    }
    var (bits, sent) := states.value;
    var sentBits: seq<bool> := [];
    var sentBases: seq<bool> := [];
    for i := 0 to photons.n
      invariant |sentBits| == i && sentBases == bases[..i]
      invariant forall m | 0 <= m < i :: sentBits[m] == Read(bits[m], sent[m], bases[m], coins[m])
    {
      var basis := bases[i];
      sentBits := sentBits + [if basis == sent[i] then bits[i] else coins[i]];
      sentBases := sentBases + [basis];
    }
    assert sentBits == ReadAll(bits, sent, bases, coins) && sentBases == bases;
    var packedBits := PackBits(sentBits);
    var packedBases := PackBits(sentBases);
    r := Ok(Photons(photons.sae, photons.n, packedBits, packedBases));
  }

  /**
   * What intercept-and-resend costs: of the compared entries exactly those
   * disagree where her basis was not the one prepared in and the chance result
   * read after her is not the bit prepared. Where she guessed right, none do.
   */
  lemma EavesdropperSeen(
      alice: string, bits: seq<bool>, bases: seq<bool>, eve: seq<bool>, eveCoins: seq<bool>, bob: string, draws: Draws)
    requires |bits| == |bases| == |eve| == |eveCoins| && 0 < |bits| <= MAX_STATES && draws.For(|bits|)
    ensures var (prepared, photons) := Prepare(alice, bits, bases);
      && Eavesdrop(photons, eve, eveCoins).Ok?
      && Measure(bob, Eavesdrop(photons, eve, eveCoins).value, draws).Ok?
      && var (measured, reply) := Measure(bob, Eavesdrop(photons, eve, eveCoins).value, draws).value;
      && measured.Whole()
      && OpenReply(|bits|, reply) == Ok((draws.bases, At(measured.results, reply.sample)))
      && Disagreeing(bits, Agreement(bases, draws.bases), reply.sample, At(measured.results, reply.sample))
         == set k: nat | k < |reply.sample| && var i := reply.sample[k];
              bases[i] == draws.bases[i] != eve[i] && draws.coins[i] != bits[i]
  {
    OpenPrepared(alice, bits, bases);
    var resent := ReadAll(bits, bases, eve, eveCoins);
    OpenPrepared(alice, resent, eve);
    var photons := Prepare(alice, bits, bases).1;
    assert Eavesdrop(photons, eve, eveCoins).value == Prepare(alice, resent, eve).1;
    var (measured, reply) := Measure(bob, Eavesdrop(photons, eve, eveCoins).value, draws).value;
    OpenMeasured(measured, reply);
  }
}
