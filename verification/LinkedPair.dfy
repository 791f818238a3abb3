/**
 * Two linked ends writing to each other (core/src/km.rs:25-34 and 253-296,
 * core/src/qkd.rs:8-15): both send from the whole bank, messages arrive late
 * or out of order or never, and either end may open any message, its own too.
 */
module LinkedPair {
  import opened Common
  import opened Strings
  import opened KeyBank
  import opened Qkd
  import opened QkdMail
  import KeyManagers

  datatype End = Left | Right

  function Other(e: End): (o: End) {
    if e == Left then Right else Left
  }

  /** A message sent: who sealed it, with which key, under which SAE id, and what it said. */
  datatype Mail = Mail(from: End, key: QKey, sae: Sae, plaintext: Text, nonce: Bytes) {
    function Text(aead: Aead): (text: string) {
      SealWith(aead, key, sae, plaintext, nonce)
    }
  }

  datatype Pair = Pair(banks: map<End, Bank>, sent: seq<Mail>, openings: set<(End, nat)>)

  datatype Event =
    | Send(e: End, plaintext: Text, nonce: Bytes)
    /** `e` opens message `i`, found in the text `pre` and `post` around it. */
    | Receive(e: End, i: nat, pre: string, post: string)
    /** `e` is given any other text, and it is refused for its shape or a missing key. */
    | Refuse(e: End, text: string)

  ghost predicate Enabled(aead: Aead, s: Pair, event: Event)
  {
    && event.e in s.banks
    && match event
       case Send(_, _, nonce) => |nonce| == NONCE_BYTES
       case Receive(e, i, pre, _) => i < |s.sent| && Find(pre + BEGIN, BEGIN) == Some(|pre|)
       case Refuse(e, text) => !Fetches(s.banks[e], text)
  }

  function Apply(aead: Aead, s: Pair, event: Event): (s': Pair)
    requires event.e in s.banks && (event.Receive? ==> event.i < |s.sent|)
  {
    var bank := s.banks[event.e];
    match event
    case Send(e, plaintext, nonce) =>
      (match Enc(bank, 1)
       case Err(_) => s
       case Ok((after, out)) =>
         if out == [] then s
         else Pair(s.banks[e := after], s.sent + [Mail(e, out[0], bank.sae, plaintext, nonce)], s.openings))
    case Receive(e, i, pre, post) =>
      var (after, r) := Open(aead, bank, pre + s.sent[i].Text(aead) + post);
      s.(banks := s.banks[e := after], openings := if r.Ok? then s.openings + {(e, i)} else s.openings)
    case Refuse(e, text) =>
      s.(banks := s.banks[e := Open(aead, bank, text).0])
  }

  /** Both ends just linked: the same keys under the same ids, different SAE ids, nothing sent. */
  ghost predicate JustLinked(s: Pair, keys: seq<BankKey>) {
    && s.banks.Keys == {Left, Right} && s.sent == [] && s.openings == {}
    && DistinctIds(keys) && (forall k | k in keys :: HeaderValue(k.id))
    && (forall e | e in s.banks :: HeaderValue(s.banks[e].sae) && SameKeys(s.banks[e].keys, keys))
    && s.banks[Left].sae != s.banks[Right].sae
  }

  /** The same ids and key bytes; the states may differ. */
  ghost predicate SameKeys(a: seq<BankKey>, keys: seq<BankKey>) {
    |a| == |keys| && forall i | 0 <= i < |a| :: a[i].id == keys[i].id && a[i].key == keys[i].key
  }

  // ---------------------------------------------------------- the invariant --

  /** Every key held is one of the link's. */
  ghost predicate FromLink(bank: Bank, keys: seq<BankKey>) {
    DistinctIds(bank.keys) && forall k | k in bank.keys :: HasKey(keys, k.id, k.key)
  }

  /** What `e` has sent is issued there, each key once. */
  ghost predicate SentOnce(s: Pair, e: End)
    requires e in s.banks
  {
    && (forall i | 0 <= i < |s.sent| && s.sent[i].from == e :: s.sent[i].key.id !in FreshIds(s.banks[e].keys))
    && (forall i, j :: 0 <= i < j < |s.sent| && s.sent[i].from == e && s.sent[j].from == e ==> s.sent[i].key.id != s.sent[j].key.id)
  }

  /** A key of the link is missing at `e` exactly if a message was opened there with it. */
  ghost predicate Accounted(s: Pair, e: End, keys: seq<BankKey>)
    requires e in s.banks
  {
    forall id | id in Ids(keys) :: id !in Ids(s.banks[e].keys) <==> OpenedUnder(s, e, id)
  }

  ghost predicate OpenedUnder(s: Pair, e: End, id: KeyId) {
    exists i :: 0 <= i < |s.sent| && (e, i) in s.openings && s.sent[i].key.id == id
  }

  ghost predicate Faithful(s: Pair, keys: seq<BankKey>, m: Mail) {
    m.from in s.banks && m.sae == s.banks[m.from].sae && |m.nonce| == NONCE_BYTES && HasKey(keys, m.key.id, m.key.key)
  }

  ghost predicate SentFaithfully(s: Pair, keys: seq<BankKey>) {
    forall i | 0 <= i < |s.sent| :: Faithful(s, keys, s.sent[i])
  }

  ghost predicate Inv(s: Pair, keys: seq<BankKey>) {
    && s.banks.Keys == {Left, Right}
    && DistinctIds(keys) && (forall k | k in keys :: HeaderValue(k.id))
    && EndKept(s, Left, keys) && EndKept(s, Right, keys)
    && SentFaithfully(s, keys)
    && (forall e, i | (e, i) in s.openings :: i < |s.sent|)
  }

  ghost predicate EndKept(s: Pair, e: End, keys: seq<BankKey>)
    requires e in s.banks
  {
    HeaderValue(s.banks[e].sae) && FromLink(s.banks[e], keys) && SentOnce(s, e) && Accounted(s, e, keys)
  }

  lemma JustLinkedInv(s: Pair, keys: seq<BankKey>)
    requires JustLinked(s, keys)
    ensures Inv(s, keys)
  {
    forall e | e in s.banks ensures FromLink(s.banks[e], keys) && Ids(s.banks[e].keys) == Ids(keys) {
      var b := s.banks[e].keys;
      forall k | k in b ensures HasKey(keys, k.id, k.key) {
        var i :| 0 <= i < |b| && b[i] == k;
        assert keys[i].id == k.id && keys[i].key == k.key;
      }
      forall id | id in Ids(keys) ensures id in Ids(b) {
        var i :| 0 <= i < |keys| && keys[i].id == id;
        assert b[i] in b;
      }
    }
  }

  /** With distinct ids a key is looked up as what it is. */
  lemma {:induction false} LookupFinds(keys: seq<BankKey>, id: KeyId, key: Bytes)
    requires DistinctIds(keys) && HasKey(keys, id, key)
    ensures Lookup(keys, id) == Some(key)
  {
    var i :| 0 <= i < |keys| && keys[i].id == id && keys[i].key == key;
    if i > 0 {
      assert keys[1..][i - 1] == keys[i];
      LookupFinds(keys[1..], id, key);
    }
  }

  lemma SameIdSameKey(keys: seq<BankKey>, id: KeyId, a: Bytes, b: Bytes)
    requires DistinctIds(keys) && HasKey(keys, id, a) && HasKey(keys, id, b)
    ensures a == b
  {
    LookupFinds(keys, id, a);
    LookupFinds(keys, id, b);
  }

  lemma SentKeysAreKeys(s: Pair, keys: seq<BankKey>, m: Mail)
    requires Faithful(s, keys, m)
    ensures m.key.id in Ids(keys)
  {
    var n :| 0 <= n < |keys| && keys[n].id == m.key.id;
    assert keys[n] in keys;
  }

  /** A key not yet used up at `e` is there as the very key a message was sealed with. */
  lemma KeyIsThere(s: Pair, keys: seq<BankKey>, e: End, i: nat)
    requires Inv(s, keys) && e in s.banks && i < |s.sent| && !OpenedUnder(s, e, s.sent[i].key.id)
    ensures Lookup(s.banks[e].keys, s.sent[i].key.id) == Some(s.sent[i].key.key)
  {
    var m := s.sent[i];
    assert Faithful(s, keys, m);
    SentKeysAreKeys(s, keys, m);
    assert EndKept(s, e, keys);
    var held := s.banks[e].keys;
    var k :| k in held && k.id == m.key.id;
    SameIdSameKey(keys, k.id, k.key, m.key.key);
    var n :| 0 <= n < |held| && held[n] == k;
    LookupFinds(held, m.key.id, m.key.key);
  }

  /**
   * Whatever was sent and opened so far, in whatever order and at whichever
   * end: where no message under its key was opened, a message opens to its
   * plaintext, and its key is gone there afterwards and no other.
   */
  lemma UnopenedOpens(aead: Aead, s: Pair, keys: seq<BankKey>, e: End, i: nat, pre: string, post: string)
    requires Ideal(aead) && Inv(s, keys) && e in s.banks && i < |s.sent| && !OpenedUnder(s, e, s.sent[i].key.id)
    requires Find(pre + BEGIN, BEGIN) == Some(|pre|)
    ensures var m := s.sent[i];
      && m.from in s.banks
      && Open(aead, s.banks[e], pre + m.Text(aead) + post)
         == (s.banks[e].(keys := Retain(s.banks[e].keys, [m.key.id])), Ok(Opened(m.plaintext, 2, s.banks[m.from].sae)))
  {
    var m := s.sent[i];
    KeyIsThere(s, keys, e, i);
    assert Faithful(s, keys, m);
    var n :| 0 <= n < |keys| && keys[n].id == m.key.id;
    assert keys[n] in keys;
    OpenAfterSeal(aead, m.key, s.banks[m.from].sae, m.plaintext, m.nonce, s.banks[e], pre, post);
  }

  // ------------------------------------------------------------- the steps --

  /** A message sealed with a key `e` no longer counts as fresh joins the mail. */
  lemma MailAdded(s: Pair, s': Pair, keys: seq<BankKey>, after: Bank, m: Mail)
    requires Inv(s, keys) && m.from in s.banks
    requires s' == Pair(s.banks[m.from := after], s.sent + [m], s.openings)
    requires after.sae == s.banks[m.from].sae && FromLink(after, keys) && Ids(after.keys) == Ids(s.banks[m.from].keys)
    requires FreshIds(after.keys) == FreshIds(s.banks[m.from].keys) - {m.key.id} && m.key.id in FreshIds(s.banks[m.from].keys)
    requires HasKey(keys, m.key.id, m.key.key) && |m.nonce| == NONCE_BYTES && m.sae == after.sae
    ensures Inv(s', keys)
  {
    AllFaithful(s, s', keys, after, m);
    forall x | x in s.banks ensures EndKept(s, x, keys) {}
    StillSentOnce(s, s', after, m);
    forall x | x in s'.banks ensures EndKept(s', x, keys) {
      StillAccounted(s, s', x, keys);
    }
  }

  lemma AllFaithful(s: Pair, s': Pair, keys: seq<BankKey>, after: Bank, m: Mail)
    requires m.from in s.banks && after.sae == s.banks[m.from].sae && SentFaithfully(s, keys)
    requires s' == Pair(s.banks[m.from := after], s.sent + [m], s.openings)
    requires HasKey(keys, m.key.id, m.key.key) && |m.nonce| == NONCE_BYTES && m.sae == after.sae
    ensures SentFaithfully(s', keys)
  {
    forall i | 0 <= i < |s'.sent| ensures Faithful(s', keys, s'.sent[i]) {
      if i < |s.sent| {
        assert s'.sent[i] == s.sent[i];
        assert Faithful(s, keys, s.sent[i]);
      }
    }
  }

  lemma StillSentOnce(s: Pair, s': Pair, after: Bank, m: Mail)
    requires m.from in s.banks && forall x | x in s.banks :: SentOnce(s, x)
    requires s' == Pair(s.banks[m.from := after], s.sent + [m], s.openings)
    requires FreshIds(after.keys) == FreshIds(s.banks[m.from].keys) - {m.key.id} && m.key.id in FreshIds(s.banks[m.from].keys)
    ensures forall x | x in s'.banks :: SentOnce(s', x)
  {
    forall x | x in s'.banks ensures SentOnce(s', x) {
      assert SentOnce(s, x);
      forall i | 0 <= i < |s'.sent| ensures s'.sent[i] == if i < |s.sent| then s.sent[i] else m {}
    }
  }

  lemma StillAccounted(s: Pair, s': Pair, x: End, keys: seq<BankKey>)
    requires x in s.banks && x in s'.banks && Accounted(s, x, keys) && Ids(s'.banks[x].keys) == Ids(s.banks[x].keys)
    requires s.sent <= s'.sent && (forall i | (x, i) in s'.openings :: (x, i) in s.openings && i < |s.sent|) && s.openings <= s'.openings
    ensures Accounted(s', x, keys)
  {
    forall id ensures OpenedUnder(s', x, id) <==> OpenedUnder(s, x, id) {
      if OpenedUnder(s, x, id) {
        var i :| 0 <= i < |s.sent| && (x, i) in s.openings && s.sent[i].key.id == id;
        assert s'.sent[i] == s.sent[i];
      }
      if OpenedUnder(s', x, id) {
        var i :| 0 <= i < |s'.sent| && (x, i) in s'.openings && s'.sent[i].key.id == id;
        assert s'.sent[i] == s.sent[i];
      }
    }
  }

  lemma IssueOne(bank: Bank, keys: seq<BankKey>)
    requires FromLink(bank, keys) && Enc(bank, 1).Ok?
    ensures var (after, out) := Enc(bank, 1).value;
      && |out| == 1 && after.sae == bank.sae && FromLink(after, keys) && Ids(after.keys) == Ids(bank.keys)
      && out == IssueFirst(bank.keys, 1).1
      && FreshIds(after.keys) == FreshIds(bank.keys) - {out[0].id} && out[0].id in FreshIds(bank.keys)
      && HasKey(keys, out[0].id, out[0].key)
  {
    IssueFirstMeaning(bank.keys, 1);
    var (after, out) := IssueFirst(bank.keys, 1);
    assert QIds(out) == {out[0].id};
    assert out[0] in out;
    var n :| 0 <= n < |bank.keys| && bank.keys[n].id == out[0].id && bank.keys[n].key == out[0].key;
    assert bank.keys[n] in bank.keys;
    forall k | k in after ensures HasKey(keys, k.id, k.key) {
      var i :| 0 <= i < |after| && after[i] == k;
      assert bank.keys[i] in bank.keys;
    }
  }

  lemma SendPreserves(aead: Aead, s: Pair, keys: seq<BankKey>, e: End, plaintext: Text, nonce: Bytes)
    requires Inv(s, keys) && Enabled(aead, s, Send(e, plaintext, nonce))
    ensures Inv(Apply(aead, s, Send(e, plaintext, nonce)), keys)
  {
    var bank := s.banks[e];
    if Enc(bank, 1).Ok? {
      IssueOne(bank, keys);
      var (after, out) := Enc(bank, 1).value;
      MailAdded(s, Apply(aead, s, Send(e, plaintext, nonce)), keys, after, Mail(e, out[0], bank.sae, plaintext, nonce));
    }
  }

  /** What `Send` does to the bank, and the text of what it adds, are `Seal`'s. */
  lemma SendIsSeal(aead: Aead, bank: Bank, e: End, plaintext: Text, nonce: Bytes)
    ensures match Seal(aead, bank, 2, plaintext, nonce)
      case Err(_) => Enc(bank, 1).Err?
      case Ok((after, text)) =>
        Enc(bank, 1).Ok? && Enc(bank, 1).value.0 == after && |Enc(bank, 1).value.1| == 1
        && text == Mail(e, Enc(bank, 1).value.1[0], bank.sae, plaintext, nonce).Text(aead)
  {
    if Enc(bank, 1).Ok? {
      KeyManagers.IssueFirstLength(bank.keys, 1);
    }
  }

  /** Where its key was used up, a message is refused and nothing is lost. */
  lemma OpenedIsRefused(aead: Aead, s: Pair, keys: seq<BankKey>, e: End, i: nat, pre: string, post: string)
    requires Ideal(aead) && Inv(s, keys) && e in s.banks && i < |s.sent| && OpenedUnder(s, e, s.sent[i].key.id)
    requires Find(pre + BEGIN, BEGIN) == Some(|pre|)
    ensures Open(aead, s.banks[e], pre + s.sent[i].Text(aead) + post) == (s.banks[e], Err(Km(KeyMissing)))
  {
    var m := s.sent[i];
    assert Faithful(s, keys, m);
    SentKeysAreKeys(s, keys, m);
    assert EndKept(s, e, keys);
    var n :| 0 <= n < |keys| && keys[n].id == m.key.id;
    assert keys[n] in keys;
    MissingKeyRefused(aead, m.key, s.banks[m.from].sae, m.plaintext, m.nonce, s.banks[e], pre, post);
  }

  lemma MissingKeyRefused(aead: Aead, key: QKey, sae: Sae, plaintext: Text, nonce: Bytes, bank: Bank, pre: string, post: string)
    requires Ideal(aead) && |nonce| == NONCE_BYTES && HeaderValue(sae) && HeaderValue(key.id)
    requires key.id !in Ids(bank.keys) && Find(pre + BEGIN, BEGIN) == Some(|pre|)
    ensures Open(aead, bank, pre + SealWith(aead, key, sae, plaintext, nonce) + post) == (bank, Err(Km(KeyMissing)))
  {
    var header := Header(2, CIPHER_BOUND, sae, [key.id]);
    var sealed := aead.encrypt(AesOf(key, Some(sae)), nonce, plaintext, header);
    CiphersAreHeaderValues();
    ParseOfArmor(pre, 2, CIPHER_BOUND, sae, [key.id], nonce + sealed, post);
    OneLookup(bank.keys, key.id);
  }

  lemma RetainKeepsLink(bank: Bank, keys: seq<BankKey>, id: KeyId)
    requires FromLink(bank, keys)
    ensures var after := bank.(keys := Retain(bank.keys, [id]));
      FromLink(after, keys) && Ids(after.keys) == Ids(bank.keys) - {id} && FreshIds(after.keys) <= FreshIds(bank.keys)
  {
    RetainMeaning(bank.keys, [id]);
  }

  lemma NowAccounted(s: Pair, s': Pair, keys: seq<BankKey>, i: nat, e: End)
    requires i < |s.sent| && e in s.banks && e in s'.banks && Accounted(s, e, keys)
    requires s'.sent == s.sent && s'.openings == s.openings + {(e, i)}
    requires Ids(s'.banks[e].keys) == Ids(s.banks[e].keys) - {s.sent[i].key.id}
    ensures Accounted(s', e, keys)
  {
    forall id ensures OpenedUnder(s', e, id) <==> OpenedUnder(s, e, id) || id == s.sent[i].key.id {
      if OpenedUnder(s, e, id) {
        var n :| 0 <= n < |s.sent| && (e, n) in s.openings && s.sent[n].key.id == id;
        assert (e, n) in s'.openings;
      }
      assert (e, i) in s'.openings;
    }
  }

  lemma SentStaysOnce(s: Pair, s': Pair, x: End)
    requires x in s.banks && x in s'.banks && s'.sent == s.sent && SentOnce(s, x)
    requires FreshIds(s'.banks[x].keys) <= FreshIds(s.banks[x].keys)
    ensures SentOnce(s', x)
  {
  }

  lemma StillFaithful(s: Pair, s': Pair, keys: seq<BankKey>)
    requires s.banks.Keys == s'.banks.Keys == {Left, Right} && s'.sent == s.sent
    requires forall x | x in s.banks :: s'.banks[x].sae == s.banks[x].sae
    requires SentFaithfully(s, keys)
    ensures SentFaithfully(s', keys)
  {
    forall i | 0 <= i < |s'.sent| ensures Faithful(s', keys, s'.sent[i]) {
      assert Faithful(s, keys, s.sent[i]);
    }
  }

  /** The key of message `i`, and no other, leaves the end that opened it. */
  lemma MailOpened(s: Pair, s': Pair, keys: seq<BankKey>, e: End, i: nat, after: Bank)
    requires Inv(s, keys) && i < |s.sent| && e in s.banks
    requires s' == Pair(s.banks[e := after], s.sent, s.openings + {(e, i)})
    requires after == s.banks[e].(keys := Retain(s.banks[e].keys, [s.sent[i].key.id]))
    ensures Inv(s', keys)
  {
    assert EndKept(s, e, keys);
    RetainKeepsLink(s.banks[e], keys, s.sent[i].key.id);
    KeyGone(s, s', keys, e, i, after);
  }

  lemma KeyGone(s: Pair, s': Pair, keys: seq<BankKey>, e: End, i: nat, after: Bank)
    requires Inv(s, keys) && i < |s.sent| && e in s.banks
    requires s' == Pair(s.banks[e := after], s.sent, s.openings + {(e, i)}) && after.sae == s.banks[e].sae
    requires FromLink(after, keys) && Ids(after.keys) == Ids(s.banks[e].keys) - {s.sent[i].key.id}
    requires FreshIds(after.keys) <= FreshIds(s.banks[e].keys)
    ensures Inv(s', keys)
  {
    StillFaithful(s, s', keys);
    assert EndKept(s, e, keys) && EndKept(s, Other(e), keys);
    EndsStillKept(s, s', keys, e, i);
  }

  lemma EndsStillKept(s: Pair, s': Pair, keys: seq<BankKey>, e: End, i: nat)
    requires s.banks.Keys == s'.banks.Keys == {Left, Right} && EndKept(s, e, keys) && EndKept(s, Other(e), keys)
    requires s'.sent == s.sent && s'.openings == s.openings + {(e, i)} && i < |s.sent| && s'.banks[e].sae == s.banks[e].sae
    requires FromLink(s'.banks[e], keys) && Ids(s'.banks[e].keys) == Ids(s.banks[e].keys) - {s.sent[i].key.id}
    requires FreshIds(s'.banks[e].keys) <= FreshIds(s.banks[e].keys) && s'.banks[Other(e)] == s.banks[Other(e)]
    requires forall x, n | (x, n) in s.openings :: n < |s.sent|
    ensures forall x | x in s'.banks :: EndKept(s', x, keys)
  {
    OpeningEndKept(s, s', keys, e, i);
    OtherEndKept(s, s', keys, Other(e), e, i);
    forall x | x in s'.banks ensures EndKept(s', x, keys) {
      assert x == e || x == Other(e);
    }
  }

  lemma OpeningEndKept(s: Pair, s': Pair, keys: seq<BankKey>, e: End, i: nat)
    requires e in s.banks && e in s'.banks && EndKept(s, e, keys) && i < |s.sent|
    requires s'.sent == s.sent && s'.openings == s.openings + {(e, i)} && s'.banks[e].sae == s.banks[e].sae
    requires FromLink(s'.banks[e], keys) && Ids(s'.banks[e].keys) == Ids(s.banks[e].keys) - {s.sent[i].key.id}
    requires FreshIds(s'.banks[e].keys) <= FreshIds(s.banks[e].keys)
    ensures EndKept(s', e, keys)
  {
    SentStaysOnce(s, s', e);
    NowAccounted(s, s', keys, i, e);
  }

  lemma OtherEndKept(s: Pair, s': Pair, keys: seq<BankKey>, x: End, e: End, i: nat)
    requires x in s.banks && x in s'.banks && EndKept(s, x, keys) && s'.banks[x] == s.banks[x] && x != e
    requires s'.sent == s.sent && s'.openings == s.openings + {(e, i)} && forall n | (x, n) in s.openings :: n < |s.sent|
    ensures EndKept(s', x, keys)
  {
    SentStaysOnce(s, s', x);
    StillAccounted(s, s', x, keys);
  }

  lemma RefusedChangesNothing(aead: Aead, s: Pair, e: End, i: nat, pre: string, post: string)
    requires e in s.banks && i < |s.sent|
    requires var (after, r) := Open(aead, s.banks[e], pre + s.sent[i].Text(aead) + post);
      after == s.banks[e] && r.Err?
    ensures Apply(aead, s, Receive(e, i, pre, post)) == s
  {
    assert s.banks[e := s.banks[e]] == s.banks;
  }

  lemma ReceivePreserves(aead: Aead, s: Pair, keys: seq<BankKey>, e: End, i: nat, pre: string, post: string)
    requires Ideal(aead) && Inv(s, keys) && Enabled(aead, s, Receive(e, i, pre, post))
    ensures Inv(Apply(aead, s, Receive(e, i, pre, post)), keys)
  {
    if OpenedUnder(s, e, s.sent[i].key.id) {
      OpenedIsRefused(aead, s, keys, e, i, pre, post);
      RefusedChangesNothing(aead, s, e, i, pre, post);
    } else {
      var after := FirstOpen(aead, s, keys, e, i, pre, post);
      MailOpened(s, Apply(aead, s, Receive(e, i, pre, post)), keys, e, i, after);
    }
  }

  lemma FirstOpen(aead: Aead, s: Pair, keys: seq<BankKey>, e: End, i: nat, pre: string, post: string) returns (after: Bank)
    requires Ideal(aead) && Inv(s, keys) && Enabled(aead, s, Receive(e, i, pre, post)) && !OpenedUnder(s, e, s.sent[i].key.id)
    ensures after == s.banks[e].(keys := Retain(s.banks[e].keys, [s.sent[i].key.id]))
    ensures Apply(aead, s, Receive(e, i, pre, post)) == Pair(s.banks[e := after], s.sent, s.openings + {(e, i)})
  {
    UnopenedOpens(aead, s, keys, e, i, pre, post);
    after := Open(aead, s.banks[e], pre + s.sent[i].Text(aead) + post).0;
  }

  ghost predicate Run(aead: Aead, s: Pair, run: seq<Event>)
    decreases |run|
  {
    run != [] ==> Enabled(aead, s, run[0]) && Run(aead, Apply(aead, s, run[0]), run[1..])
  }

  ghost function After(aead: Aead, s: Pair, run: seq<Event>): (s': Pair)
    requires Run(aead, s, run)
    decreases |run|
  {
    if run == [] then s else After(aead, Apply(aead, s, run[0]), run[1..])
  }

  lemma {:induction false} RunPreserves(aead: Aead, s: Pair, keys: seq<BankKey>, run: seq<Event>)
    requires Ideal(aead) && Inv(s, keys) && Run(aead, s, run)
    ensures Inv(After(aead, s, run), keys)
    decreases |run|
  {
    if run != [] {
      match run[0] {
        case Send(e, plaintext, nonce) => SendPreserves(aead, s, keys, e, plaintext, nonce);
        case Receive(e, i, pre, post) => ReceivePreserves(aead, s, keys, e, i, pre, post);
        case Refuse(e, text) =>
          OpeningCosts(aead, s.banks[e], text);
          assert s.banks[e := s.banks[e]] == s.banks;
      }
      RunPreserves(aead, Apply(aead, s, run[0]), keys, run[1..]);
    }
  }

  /**
   * However seals and opens of the two ends interleave, and however long or
   * out of order the mail is: a message opens at an end, to what was written,
   * exactly if no message under the same key was opened there before. Opened,
   * it costs that end its key and no other; refused, it costs nothing.
   */
  lemma OpensExactlyIf(aead: Aead, s: Pair, keys: seq<BankKey>, run: seq<Event>, e: End, i: nat, pre: string, post: string)
    requires Ideal(aead) && JustLinked(s, keys) && Run(aead, s, run)
    requires i < |After(aead, s, run).sent| && Find(pre + BEGIN, BEGIN) == Some(|pre|)
    ensures var t := After(aead, s, run);
      var m := t.sent[i];
      && e in t.banks && m.from in t.banks
      && var bank := t.banks[e];
      Open(aead, bank, pre + m.Text(aead) + post) ==
        if OpenedUnder(t, e, m.key.id) then (bank, Err(Km(KeyMissing)))
        else (bank.(keys := Retain(bank.keys, [m.key.id])), Ok(Opened(m.plaintext, 2, t.banks[m.from].sae)))
  {
    JustLinkedInv(s, keys);
    RunPreserves(aead, s, keys, run);
    var t := After(aead, s, run);
    if OpenedUnder(t, e, t.sent[i].key.id) {
      OpenedIsRefused(aead, t, keys, e, i, pre, post);
      assert Faithful(t, keys, t.sent[i]);
    } else {
      UnopenedOpens(aead, t, keys, e, i, pre, post);
    }
  }

  /** As the app does: no end opens the copies it sent itself. */
  ghost predicate OnlyOthers(s: Pair) {
    forall e, i | (e, i) in s.openings && i < |s.sent| :: s.sent[i].from == Other(e)
  }

  /**
   * If neither end opens its own copies, every message opens at the other end
   * to what was written until it has been opened there, and never again.
   */
  lemma EveryMessageOpensOnce(aead: Aead, s: Pair, keys: seq<BankKey>, run: seq<Event>, i: nat, pre: string, post: string)
    requires Ideal(aead) && JustLinked(s, keys) && Run(aead, s, run) && OnlyOthers(After(aead, s, run))
    requires i < |After(aead, s, run).sent| && Find(pre + BEGIN, BEGIN) == Some(|pre|)
    ensures var t := After(aead, s, run);
      var m := t.sent[i];
      && m.from in t.banks && Other(m.from) in t.banks
      && var bank := t.banks[Other(m.from)];
      Open(aead, bank, pre + m.Text(aead) + post) ==
        if (Other(m.from), i) in t.openings then (bank, Err(Km(KeyMissing)))
        else (bank.(keys := Retain(bank.keys, [m.key.id])), Ok(Opened(m.plaintext, 2, t.banks[m.from].sae)))
  {
    JustLinkedInv(s, keys);
    RunPreserves(aead, s, keys, run);
    var t := After(aead, s, run);
    var m := t.sent[i];
    OpensExactlyIf(aead, s, keys, run, Other(m.from), i, pre, post);
    assert EndKept(t, m.from, keys);
    if OpenedUnder(t, Other(m.from), m.key.id) {
      var n :| 0 <= n < |t.sent| && (Other(m.from), n) in t.openings && t.sent[n].key.id == m.key.id;
      assert t.sent[n].from == m.from;
      assert n == i;
    }
  }

  // ------------------------------------------------------------ an own copy --

  /** Both ends send with the first key, and the left one then opens its own copy. */
  function CrossedMail(mine: Text, theirs: Text, n: Bytes, n': Bytes): (run: seq<Event>) {
    [Send(Left, mine, n), Send(Right, theirs, n'), Receive(Left, 0, "", "")]
  }

  lemma FirstIsIssued(keys: seq<BankKey>)
    requires keys != [] && keys[0].state.Fresh?
    ensures FreshCount(keys) >= 1 && IssueFirst(keys, 1).1 == [QKey(keys[0].id, keys[0].key)]
  {
    assert IssueFirst(keys[1..], 0) == (keys[1..], []);
    assert [QKey(keys[0].id, keys[0].key)] + [] == [QKey(keys[0].id, keys[0].key)];
  }

  function FirstMail(bank: Bank, e: End, plaintext: Text, nonce: Bytes): (m: Mail)
    requires bank.keys != []
  {
    Mail(e, QKey(bank.keys[0].id, bank.keys[0].key), bank.sae, plaintext, nonce)
  }

  /** One send, with the first key. */
  lemma SendsFirst(aead: Aead, s: Pair, e: End, plaintext: Text, nonce: Bytes)
    requires e in s.banks && !s.banks[e].handedOver && |nonce| == NONCE_BYTES
    requires var b := s.banks[e].keys; b != [] && b[0].state.Fresh?
    ensures var (s', b) := (Apply(aead, s, Send(e, plaintext, nonce)), s.banks[e]);
      && s'.banks.Keys == s.banks.Keys && (forall x | x in s.banks && x != e :: s'.banks[x] == s.banks[x])
      && s'.sent == s.sent + [FirstMail(b, e, plaintext, nonce)]
      && s'.openings == s.openings
  {
    FirstIsIssued(s.banks[e].keys);
  }

  lemma RunOfThree(aead: Aead, s: Pair, a: Event, b: Event, c: Event)
    requires Enabled(aead, s, a)
    requires Enabled(aead, Apply(aead, s, a), b)
    requires Enabled(aead, Apply(aead, Apply(aead, s, a), b), c)
    ensures Run(aead, s, [a, b, c]) && After(aead, s, [a, b, c]) == Apply(aead, Apply(aead, Apply(aead, s, a), b), c)
  {
    assert [a, b, c][1..] == [b, c] && [b, c][1..] == [c] && [c][1..] == [];
    var u := Apply(aead, Apply(aead, s, a), b);
    assert Run(aead, Apply(aead, u, c), []) && Run(aead, u, [c]) && Run(aead, Apply(aead, s, a), [b, c]);
    assert After(aead, u, [c]) == After(aead, Apply(aead, u, c), []) == Apply(aead, u, c);
    assert After(aead, Apply(aead, s, a), [b, c]) == After(aead, u, [c]);
  }

  ghost predicate ReadyToSend(s: Pair, e: End) {
    e in s.banks && !s.banks[e].handedOver && s.banks[e].keys != [] && s.banks[e].keys[0].state.Fresh?
  }

  function BothSend(aead: Aead, s: Pair, mine: Text, theirs: Text, n: Bytes, n': Bytes): (t: Pair)
    requires Left in s.banks && Right in s.banks
  {
    Apply(aead, Apply(aead, s, Send(Left, mine, n)), Send(Right, theirs, n'))
  }

  lemma BothSent(aead: Aead, s: Pair, mine: Text, theirs: Text, n: Bytes, n': Bytes)
    requires ReadyToSend(s, Left) && ReadyToSend(s, Right) && s.sent == [] && |n| == |n'| == NONCE_BYTES
    ensures var t := BothSend(aead, s, mine, theirs, n, n');
      t.openings == s.openings && t.sent == [FirstMail(s.banks[Left], Left, mine, n), FirstMail(s.banks[Right], Right, theirs, n')]
  {
    SendsFirst(aead, s, Left, mine, n);
    SendsFirst(aead, Apply(aead, s, Send(Left, mine, n)), Right, theirs, n');
  }

  lemma BothSendPreserves(aead: Aead, s: Pair, keys: seq<BankKey>, mine: Text, theirs: Text, n: Bytes, n': Bytes)
    requires Inv(s, keys) && |n| == |n'| == NONCE_BYTES
    ensures Inv(BothSend(aead, s, mine, theirs, n, n'), keys)
    ensures Enabled(aead, s, Send(Left, mine, n)) && Enabled(aead, Apply(aead, s, Send(Left, mine, n)), Send(Right, theirs, n'))
  {
    SendPreserves(aead, s, keys, Left, mine, n);
    SendPreserves(aead, Apply(aead, s, Send(Left, mine, n)), keys, Right, theirs, n');
  }

  lemma OneFirstKey(s: Pair, keys: seq<BankKey>)
    requires JustLinked(s, keys) && keys != []
    ensures s.banks[Left].keys != [] && s.banks[Right].keys != [] && s.banks[Left].keys[0].id == s.banks[Right].keys[0].id
  {
    assert SameKeys(s.banks[Left].keys, keys) && SameKeys(s.banks[Right].keys, keys);
  }

  /**
   * Where that is not kept, a message is lost: both ends seal with one key,
   * each opens, and the end that opened its own copy cannot read the other's.
   */
  lemma OwnCopyCostsTheOther(aead: Aead, s: Pair, keys: seq<BankKey>, mine: Text, theirs: Text, n: Bytes, n': Bytes)
    requires Ideal(aead) && JustLinked(s, keys) && keys != [] && |n| == |n'| == NONCE_BYTES
    requires ReadyToSend(s, Left) && ReadyToSend(s, Right)
    ensures var run := CrossedMail(mine, theirs, n, n');
      && Run(aead, s, run)
      && var t := After(aead, s, run);
      && |t.sent| == 2 && t.sent[1].from == Right && t.sent[1].plaintext == theirs && Left in t.banks && (Left, 1) !in t.openings
      && Open(aead, t.banks[Left], t.sent[1].Text(aead)) == (t.banks[Left], Err(Km(KeyMissing)))
  {
    OneFirstKey(s, keys);
    JustLinkedInv(s, keys);
    BothSendPreserves(aead, s, keys, mine, theirs, n, n');
    var s2 := BothSend(aead, s, mine, theirs, n, n');
    BothSent(aead, s, mine, theirs, n, n');
    NothingBefore(BEGIN);
    RunOfThree(aead, s, Send(Left, mine, n), Send(Right, theirs, n'), Receive(Left, 0, "", ""));
    assert !OpenedUnder(s2, Left, s2.sent[0].key.id);
    var after := FirstOpen(aead, s2, keys, Left, 0, "", "");
    var t := Pair(s2.banks[Left := after], s2.sent, s2.openings + {(Left, 0)});
    assert OpenedUnder(t, Left, t.sent[1].key.id) by {
      assert (Left, 0) in t.openings;
    }
    OpensExactlyIf(aead, s, keys, CrossedMail(mine, theirs, n, n'), Left, 1, "", "");
    NothingAround(t.sent[1].Text(aead));
  }

  // --------------------------------------------------------------- linking --

  /**
   * A link is what this starts from: exported on one phone and imported with
   * its code on another, whatever bank that had, it leaves the two with the
   * same keys, master and slave, each naming the other; all the keys are
   * fresh at the importing end. With a wrong or short code nothing is taken.
   */
  lemma LinkingJustLinks(bank: Bank, newSae: Sae, code: string, tried: string)
    requires WellSized(bank) && DistinctIds(bank.keys) && (forall k | k in bank.keys :: HeaderValue(k.id))
    requires HeaderValue(bank.sae) && HeaderValue(newSae) && newSae != bank.sae
    requires |code| >= KeyManagers.MIN_CODE_CHARS
    ensures var file := KeyManagers.LinkFile(code, PeerOf(bank, newSae));
      && (tried != code ==> KeyManagers.OpenLink(file, tried) == Err(WrongCode))
      && KeyManagers.OpenLink(file, code).Ok?
      && var (mine, theirs) := (MasterOf(bank, newSae), KeyManagers.OpenLink(file, code).value);
      && JustLinked(Pair(map[Left := mine, Right := theirs], [], {}), bank.keys)
      && mine.role == Master && theirs.role == Slave && mine.peer == Some(theirs.sae) && theirs.peer == Some(mine.sae)
      && mine.sae == bank.sae && theirs.sae == newSae && !theirs.handedOver && mine.handedOver == bank.handedOver
      && mine.keys == bank.keys && (forall k | k in theirs.keys :: k.state.Fresh?)
  {
    var peer := PeerOf(bank, newSae);
    forall k | k in peer.keys ensures |k.key| == KEY_BYTES && k.state.Fresh? {
      var i :| 0 <= i < |peer.keys| && peer.keys[i] == k;
      assert bank.keys[i] in bank.keys;
    }
  }
}
