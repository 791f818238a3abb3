/**
 * What the material of an exchange hangs on (core/src/bb84.rs:323-348): each
 * chunk of it is the derivation's answer for that chunk's own number, on the
 * kept bits and under the agreed bases; so chunks differ from each other, and
 * exchanges from exchanges, wherever the derivation tells its inputs apart.
 */
module Bb84Material {
  import opened Common
  import opened Bits
  import opened Bb84

  /** What the derivation is asked: state count, agreed bases, secret, chunk number, length. */
  datatype Query = Query(n: nat, agreed: seq<Octet>, secret: seq<Octet>, chunk: nat, length: nat)

  function Answer(kdf: Kdf, q: Query): (bytes: seq<Byte>) {
    kdf(q.n, q.agreed, q.secret, q.chunk, q.length)
  }

  ghost predicate TellsApart(kdf: Kdf, a: Query, b: Query) {
    a != b ==> Answer(kdf, a) != Answer(kdf, b)
  }

  /** The bits of one end at the positions that count, in order. */
  function KeptBits(bits: seq<bool>, agreed: seq<bool>, sample: seq<nat>): (key: seq<bool>)
    requires |bits| == |agreed|
  {
    Sifted(bits, agreed, Mask(|bits|, sample))
  }

  /** The octets of `material` that come from chunk `c`. */
  function ChunkOf(material: seq<Byte>, c: nat): (bytes: seq<Byte>)
    requires CHUNK * c <= |material|
  {
    material[CHUNK * c..Min(CHUNK * (c + 1), |material|)]
  }

  function Min(a: nat, b: nat): (m: nat) {
    if a < b then a else b
  }

  lemma DistilledChunk(bits: seq<bool>, agreed: seq<bool>, sent: seq<Octet>, sample: seq<nat>, keyBytes: nat, kdf: Kdf, c: nat)
    requires |bits| == |agreed| && GoodKdf(kdf) && Distil(bits, agreed, sent, sample, keyBytes, kdf).Ok? && CHUNK * c < keyBytes
    ensures var material := Distil(bits, agreed, sent, sample, keyBytes, kdf).value;
      |material| == keyBytes && ChunkOf(material, c) ==
        Answer(kdf, Query(|bits|, sent, Pack(KeptBits(bits, agreed, sample)), c, Min(CHUNK, keyBytes - CHUNK * c)))
  {
    var key := KeptBits(bits, agreed, sample);
    var material := Distil(bits, agreed, sent, sample, keyBytes, kdf).value;
    var length := Min(CHUNK, keyBytes - CHUNK * c);
    var answer := kdf(|bits|, sent, Pack(key), c, length);
    assert ChunkLength(keyBytes, c) == length;
    forall i | 0 <= i < length ensures ChunkOf(material, c)[i] == answer[i] {
      InChunk(CHUNK * c + i, c);
      assert material[CHUNK * c + i] == MaterialAt(key, sent, |bits|, keyBytes, kdf, CHUNK * c + i);
    }
  }

  /** What the measuring end asks for chunk `c` of `keyBytes` octets. */
  function AcceptQuery(measured: Measured, verdict: Verdict, keyBytes: nat, c: nat): (q: Query)
    requires measured.Whole() && verdict.n == measured.n && Unpack(verdict.agreed, verdict.n).Some? && CHUNK * c <= keyBytes
  {
    var agreed := Unpack(verdict.agreed, verdict.n).value;
    Query(measured.n, verdict.agreed, Pack(KeptBits(measured.results, agreed, measured.sample)), c, Min(CHUNK, keyBytes - CHUNK * c))
  }

  lemma AcceptedChunk(measured: Measured, verdict: Verdict, keyBytes: nat, kdf: Kdf, c: nat)
    requires measured.Whole() && GoodKdf(kdf) && Accept(measured, verdict, keyBytes, kdf).Ok? && CHUNK * c < keyBytes
    ensures var material := Accept(measured, verdict, keyBytes, kdf).value;
      |material| == keyBytes && ChunkOf(material, c) == Answer(kdf, AcceptQuery(measured, verdict, keyBytes, c))
  {
    var agreed := Unpack(verdict.agreed, verdict.n).value;
    DistilledChunk(measured.results, agreed, verdict.agreed, measured.sample, keyBytes, kdf, c);
  }

  /** The preparing end's chunks are answers to the same questions, on its own bits. */
  lemma JudgedChunk(prepared: Prepared, reply: Reply, keyBytes: nat, kdf: Kdf, c: nat)
    requires prepared.Whole() && GoodKdf(kdf) && Judge(prepared, reply, keyBytes, kdf).Ok? && CHUNK * c < keyBytes
    ensures OpenReply(prepared.n, reply).Ok?
    ensures var (v, material) := Judge(prepared, reply, keyBytes, kdf).value;
      var agreed := Agreement(prepared.bases, OpenReply(prepared.n, reply).value.0);
      && v.agreed == Pack(agreed) && |material| == keyBytes
      && ChunkOf(material, c) == Answer(kdf,
           Query(prepared.n, v.agreed, Pack(KeptBits(prepared.bits, agreed, reply.sample)), c, Min(CHUNK, keyBytes - CHUNK * c)))
  {
    var agreed := Agreement(prepared.bases, OpenReply(prepared.n, reply).value.0);
    var v := Judge(prepared, reply, keyBytes, kdf).value.0;
    DistilledChunk(prepared.bits, agreed, v.agreed, reply.sample, keyBytes, kdf, c);
  }

  /** No stretch of the material repeats another. */
  lemma ChunksDiffer(measured: Measured, verdict: Verdict, keyBytes: nat, kdf: Kdf, c: nat, d: nat)
    requires measured.Whole() && GoodKdf(kdf) && Accept(measured, verdict, keyBytes, kdf).Ok?
    requires c != d && CHUNK * c < keyBytes && CHUNK * d < keyBytes
    requires TellsApart(kdf, AcceptQuery(measured, verdict, keyBytes, c), AcceptQuery(measured, verdict, keyBytes, d))
    ensures var material := Accept(measured, verdict, keyBytes, kdf).value;
      |material| == keyBytes && ChunkOf(material, c) != ChunkOf(material, d)
  {
    AcceptedChunk(measured, verdict, keyBytes, kdf, c);
    AcceptedChunk(measured, verdict, keyBytes, kdf, d);
  }

  /** Two exchanges come to one material only with the same states counted, the same bases agreed and the same bits kept. */
  lemma MaterialTellsExchanges(m1: Measured, v1: Verdict, m2: Measured, v2: Verdict, keyBytes: nat, kdf: Kdf)
    requires m1.Whole() && m2.Whole() && GoodKdf(kdf) && keyBytes > 0
    requires Accept(m1, v1, keyBytes, kdf).Ok? && Accept(m2, v2, keyBytes, kdf) == Accept(m1, v1, keyBytes, kdf)
    requires TellsApart(kdf, AcceptQuery(m1, v1, keyBytes, 0), AcceptQuery(m2, v2, keyBytes, 0))
    ensures m1.n == m2.n && v1.agreed == v2.agreed
    ensures var agreed := Unpack(v1.agreed, m1.n).value;
      var (k1, k2) := (KeptBits(m1.results, agreed, m1.sample), KeptBits(m2.results, agreed, m2.sample));
      Pack(k1) == Pack(k2) && (|k1| == |k2| ==> k1 == k2)
  {
    AcceptedChunk(m1, v1, keyBytes, kdf, 0);
    AcceptedChunk(m2, v2, keyBytes, kdf, 0);
    var agreed := Unpack(v1.agreed, m1.n).value;
    PackUnpack(KeptBits(m1.results, agreed, m1.sample));
    PackUnpack(KeptBits(m2.results, agreed, m2.sample));
  }
}
