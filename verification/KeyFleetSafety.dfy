/** The invariant of `KeyFleet` holds over every careful run, so no AES key is derived twice. */
module KeyFleetSafety {
  import opened Common
  import opened KeyBank
  import opened KeyFleet

  /** Steps that issue nothing and add no key or SAE id to any bank keep what is about the past. */
  lemma SameHistory(s: Fleet, s': Fleet)
    requires s'.issued == s.issued
    ensures forall id, sae :: WasIssued(s', id, sae) <==> WasIssued(s, id, sae)
    ensures NoReuse(s) ==> NoReuse(s')
  {
  }

  lemma NewIdsUnissued(s: Fleet, ids: set<KeyId>)
    requires Known(s) && ids !! s.ids
    ensures forall id, sae :: id in ids ==> !WasIssued(s, id, sae)
  {
  }

  lemma NewSaeUnissued(s: Fleet, sae: Sae)
    requires Known(s) && sae !in s.saes
    ensures forall id :: !WasIssued(s, id, sae)
  {
  }

  lemma RegeneratePreserves(s: Fleet, p: nat, keys: seq<BankKey>)
    requires Inv(s) && Possible(s, Regenerate(p, keys))
    ensures Inv(Apply(s, Regenerate(p, keys)))
  {
    var s' := Apply(s, Regenerate(p, keys));
    NewBankPreserves(s, s', p, keys);
  }

  /** A phone whose bank is replaced by keys no one has seen, under the SAE id it had. */
  lemma NewBankPreserves(s: Fleet, s': Fleet, p: nat, keys: seq<BankKey>)
    requires Inv(s) && HasPhone(s, p) && NewKeys(s, keys)
    requires s'.banks.Keys == s.banks.Keys && s'.banks == s.banks[Phone(p) := s'.banks[Phone(p)]]
    requires s'.banks[Phone(p)].keys == keys && s'.banks[Phone(p)].sae == s.banks[Phone(p)].sae
    requires !s'.banks[Phone(p)].handedOver
    requires s' == s.(banks := s'.banks, ids := s.ids + Ids(keys))
    ensures Inv(s')
  {
    SameHistory(s, s');
    NewIdsUnissued(s, Ids(keys));
    assert FreshIds(keys) <= Ids(keys);
    assert FreshIds(s.banks[Phone(p)].keys) <= Ids(s.banks[Phone(p)].keys);
    forall h, id, sae | MaySend(s', h, id, sae)
      ensures MaySend(s, h, id, sae) || (h == Phone(p) && id in Ids(keys))
    {}
    forall h | h in s.banks ensures Ids(s.banks[h].keys) !! Ids(keys) {}
    assert forall h | h in s.banks :: FreshIds(s.banks[h].keys) <= Ids(s.banks[h].keys);
    forall q, v | q in s'.measured && v in s'.verdicts && s'.measured[q].reply == s'.verdicts[v].reply
      ensures Apart(s', q, v)
    {
      assert Apart(s, q, v);
    }
  }

  /** A phone whose bank only loses keys. */
  lemma ShrinkPreserves(s: Fleet, s': Fleet, p: nat)
    requires Inv(s) && HasPhone(s, p)
    requires s'.banks.Keys == s.banks.Keys && s' == s.(banks := s.banks[Phone(p) := s'.banks[Phone(p)]])
    requires var (b, b') := (s.banks[Phone(p)], s'.banks[Phone(p)]);
      && b'.sae == b.sae && b'.handedOver == b.handedOver && DistinctIds(b'.keys)
      && Ids(b'.keys) <= Ids(b.keys) && FreshIds(b'.keys) <= FreshIds(b.keys)
    ensures Inv(s')
  {
    SameHistory(s, s');
    assert forall h, id, sae :: MaySend(s', h, id, sae) ==> MaySend(s, h, id, sae);
    forall q, v | q in s'.measured && v in s'.verdicts && s'.measured[q].reply == s'.verdicts[v].reply
      ensures Apart(s', q, v)
    {
      assert Apart(s, q, v);
    }
  }

  lemma ReadPreserves(s: Fleet, p: nat, ids: seq<KeyId>)
    requires Inv(s) && Possible(s, ReadKeys(p, ids))
    ensures Inv(Apply(s, ReadKeys(p, ids)))
  {
    DecMeaning(BankOf(s, p), ids);
    if Dec(BankOf(s, p), ids).Ok? {
      ShrinkPreserves(s, Apply(s, ReadKeys(p, ids)), p);
    }
  }

  /** Writing down uses of keys the bank at `h` holds and nothing may send any more. */
  lemma AppendIssued(s: Fleet, s': Fleet, h: Holder, uses: seq<Use>)
    requires Inv(s) && h in s.banks && s' == s.(issued := s.issued + uses)
    requires forall i | 0 <= i < |uses| ::
      && uses[i].sender == s.banks[h].sae && uses[i].id in Ids(s.banks[h].keys)
      && !WasIssued(s, uses[i].id, uses[i].sender)
      && forall g :: !MaySend(s, g, uses[i].id, uses[i].sender)
    requires forall i, j :: 0 <= i < j < |uses| ==> uses[i].id != uses[j].id
    ensures Inv(s')
  {
    assert forall i | 0 <= i < |s.issued| :: s'.issued[i] == s.issued[i];
    assert forall i | |s.issued| <= i < |s'.issued| :: s'.issued[i] == uses[i - |s.issued|];
    forall g, id, sae | MaySend(s', g, id, sae) ensures !WasIssued(s', id, sae) {
      assert MaySend(s, g, id, sae) && !WasIssued(s, id, sae);
    }
    assert forall g, id, sae :: MaySend(s', g, id, sae) ==> MaySend(s, g, id, sae);
    forall i, j | 0 <= i < j < |s'.issued|
      ensures s'.issued[i].id != s'.issued[j].id || s'.issued[i].sender != s'.issued[j].sender
    {
      if i < |s.issued| <= j {
        assert !WasIssued(s, uses[j - |s.issued|].id, uses[j - |s.issued|].sender);
      }
    }
    forall q, v | q in s'.measured && v in s'.verdicts && s'.measured[q].reply == s'.verdicts[v].reply
      ensures Apart(s', q, v)
    {
      assert Apart(s, q, v);
    }
  }

  lemma IssuePreserves(s: Fleet, p: nat, number: nat)
    requires Inv(s) && Possible(s, IssueKeys(p, number))
    ensures Inv(Apply(s, IssueKeys(p, number)))
  {
    var bank := BankOf(s, p);
    if Enc(bank, number).Ok? {
      var (after, out) := Enc(bank, number).value;
      IssueFirstMeaning(bank.keys, number);
      var s1 := Put(s, Phone(p), after);
      ShrinkPreserves(s, s1, p);
      var uses := Uses(out, bank.sae);
      forall i | 0 <= i < |uses|
        ensures uses[i].id in Ids(after.keys) && !WasIssued(s1, uses[i].id, bank.sae)
        ensures forall g :: !MaySend(s1, g, uses[i].id, bank.sae)
      {
        assert out[i] in out && out[i].id in QIds(out);
        assert MaySend(s, Phone(p), out[i].id, bank.sae);
        assert FreshIds(bank.keys) <= Ids(bank.keys);
        SameHistory(s, s1);
        forall g ensures !MaySend(s1, g, uses[i].id, bank.sae) {
          if MaySend(s1, g, uses[i].id, bank.sae) && g != Phone(p) {
            assert MaySend(s, g, uses[i].id, bank.sae);
          }
        }
      }
      AppendIssued(s1, Apply(s, IssueKeys(p, number)), Phone(p), uses);
    }
  }

  /** A file's bank arrives on a phone, for the first time, and replaces what was there. */
  lemma ImportPreserves(s: Fleet, s': Fleet, p: nat, file: Holder)
    requires Inv(s) && HasPhone(s, p) && file in s.unopened
    requires s' == Put(s, Phone(p), Adopted(s.banks[file])).(unopened := s.unopened - {file})
    ensures Inv(s')
  {
    SameHistory(s, s');
    forall h, id, sae | MaySend(s', h, id, sae)
      ensures MaySend(s, if h == Phone(p) then file else h, id, sae) && h != file
    {}
    forall q, v | q in s'.measured && v in s'.verdicts && s'.measured[q].reply == s'.verdicts[v].reply
      ensures Apart(s', q, v)
    {
      assert Apart(s, q, v);
    }
  }

  lemma ExportLinkPreserves(s: Fleet, p: nat, file: Holder, newSae: Sae)
    requires Inv(s) && Possible(s, ExportLink(p, file, newSae))
    ensures Inv(Apply(s, ExportLink(p, file, newSae)))
  {
    var s' := Apply(s, ExportLink(p, file, newSae));
    var bank := BankOf(s, p);
    SameHistory(s, s');
    NewSaeUnissued(s, newSae);
    AllFreshMeaning(bank.keys);
    forall h, id, sae | MaySend(s', h, id, sae)
      ensures if h == file then sae == newSae else MaySend(s, h, id, sae) && sae != newSae
    {}
    forall q, v | q in s'.measured && v in s'.verdicts && s'.measured[q].reply == s'.verdicts[v].reply
      ensures Apart(s', q, v)
    {
      assert Apart(s, q, v);
    }
  }

  lemma ExportTransferPreserves(s: Fleet, p: nat, file: Holder, now: int)
    requires Inv(s) && Possible(s, ExportTransfer(p, file, now)) && Careful(s, ExportTransfer(p, file, now))
    ensures Inv(Apply(s, ExportTransfer(p, file, now)))
  {
    var s' := Apply(s, ExportTransfer(p, file, now));
    SameHistory(s, s');
    forall h, id, sae | MaySend(s', h, id, sae)
      ensures MaySend(s, if h == file then Phone(p) else h, id, sae) && h != Phone(p)
    {}
    forall q, v | q in s'.measured && v in s'.verdicts && s'.measured[q].reply == s'.verdicts[v].reply
      ensures Apart(s', q, v)
    {
      assert Apart(s, q, v);
    }
  }

  lemma ResumePreserves(s: Fleet, p: nat)
    requires Inv(s) && Possible(s, Resume(p)) && Careful(s, Resume(p))
    ensures Inv(Apply(s, Resume(p)))
  {
    var s' := Apply(s, Resume(p));
    SameHistory(s, s');
    if BankOf(s, p).handedOver {
      var file := s.outstanding[p];
      forall h, id, sae | MaySend(s', h, id, sae)
        ensures MaySend(s, if h == Phone(p) then file else h, id, sae) && h != file
      {}
    } else {
      assert forall h, id, sae :: MaySend(s', h, id, sae) ==> MaySend(s, h, id, sae);
    }
    forall q, v | q in s'.measured && v in s'.verdicts && s'.measured[q].reply == s'.verdicts[v].reply
      ensures Apart(s', q, v)
    {
      assert Apart(s, q, v);
    }
  }

  lemma MeasurePreserves(s: Fleet, p: nat, reply: nat, photons: Sae)
    requires Inv(s) && Possible(s, Measure(p, reply, photons))
    ensures Inv(Apply(s, Measure(p, reply, photons)))
  {
    var s' := Apply(s, Measure(p, reply, photons));
    SameHistory(s, s');
    assert forall h, id, sae :: MaySend(s', h, id, sae) <==> MaySend(s, h, id, sae);
    forall q, v | q in s'.measured && v in s'.verdicts && s'.measured[q].reply == s'.verdicts[v].reply
      ensures Apart(s', q, v)
    {
      assert q != p;
      assert Apart(s, q, v);
    }
  }

  lemma JudgePreserves(s: Fleet, p: nat, reply: nat, verdict: nat, keys: seq<BankKey>)
    requires Inv(s) && Possible(s, Judge(p, reply, verdict, Some(keys))) && Careful(s, Judge(p, reply, verdict, Some(keys)))
    ensures Inv(Apply(s, Judge(p, reply, verdict, Some(keys))))
  {
    var s' := Apply(s, Judge(p, reply, verdict, Some(keys)));
    var bank := BankOf(s, p);
    var s1 := Put(s, Phone(p), Built(bank.sae, s.replies[reply], Master, keys)).(ids := s.ids + Ids(keys));
    NewBankPreserves(s, s1, p, keys);
    NewIdsUnissued(s, Ids(keys));
    SameHistory(s1, s');
    assert forall h, id, sae :: MaySend(s', h, id, sae) <==> MaySend(s1, h, id, sae);
    forall q, v | q in s'.measured && v in s'.verdicts && s'.measured[q].reply == s'.verdicts[v].reply
      ensures Apart(s', q, v)
    {
      if v != verdict {
        assert Apart(s1, q, v);
      } else {
        forall i | 0 <= i < |s'.issued| ensures s'.issued[i].id !in Ids(keys) {
          assert s.issued[i].id in s.ids;
        }
        forall h | h in s'.banks && s'.banks[h].sae == s'.measured[q].sae
          ensures Ids(s'.banks[h].keys) !! Ids(keys)
        {
          assert h != Phone(p);
          assert Ids(s.banks[h].keys) <= s.ids;
        }
      }
    }
    forall v, w | v in s'.verdicts && w in s'.verdicts && v != w
      ensures Ids(s'.verdicts[v].keys) !! Ids(s'.verdicts[w].keys)
    {
      if v == verdict { assert Ids(s.verdicts[w].keys) <= s.ids; }
      if w == verdict { assert Ids(s.verdicts[v].keys) <= s.ids; }
    }
  }

  /** A verdict's keys are accepted under an SAE id nothing has them under. */
  lemma AcceptSamePreserves(s: Fleet, p: nat, verdict: nat)
    requires Inv(s) && Possible(s, Accept(p, verdict, SameKeys)) && Careful(s, Accept(p, verdict, SameKeys))
    ensures Inv(Apply(s, Accept(p, verdict, SameKeys)))
  {
    var s' := Apply(s, Accept(p, verdict, SameKeys));
    var keys := s.verdicts[verdict].keys;
    var sae := s.measured[p].sae;
    AllFreshMeaning(keys);
    assert Apart(s, p, verdict);
    SameHistory(s, s');
    assert FreshIds(AllFresh(keys)) == Ids(keys);
    forall id | id in Ids(keys) ensures !WasIssued(s, id, sae) {}
    forall h, id | id in Ids(keys) ensures !MaySend(s, h, id, sae) {
      if h in s.banks { assert FreshIds(s.banks[h].keys) <= Ids(s.banks[h].keys); }
    }
    forall h, id, x | MaySend(s', h, id, x)
      ensures if h == Phone(p) then x == sae && id in Ids(keys) else MaySend(s, h, id, x)
    {}
    forall q, v | q in s'.measured && v in s'.verdicts && s'.measured[q].reply == s'.verdicts[v].reply
      ensures Apart(s', q, v)
    {
      assert Apart(s, q, v);
      assert v != verdict;
    }
  }

  lemma AcceptOtherPreserves(s: Fleet, p: nat, verdict: nat, keys: seq<BankKey>)
    requires Inv(s) && Possible(s, Accept(p, verdict, OtherKeys(keys)))
    ensures Inv(Apply(s, Accept(p, verdict, OtherKeys(keys))))
  {
    var s' := Apply(s, Accept(p, verdict, OtherKeys(keys)));
    var done := s.(measured := s.measured - {p});
    ForgetMeasuredPreserves(s, p);
    NewBankPreserves(done, s', p, keys);
  }

  lemma ForgetMeasuredPreserves(s: Fleet, p: nat)
    requires Inv(s)
    ensures Inv(s.(measured := s.measured - {p}))
  {
    var s' := s.(measured := s.measured - {p});
    SameHistory(s, s');
    assert forall h, id, sae :: MaySend(s', h, id, sae) <==> MaySend(s, h, id, sae);
    forall q, v | q in s'.measured && v in s'.verdicts && s'.measured[q].reply == s'.verdicts[v].reply
      ensures Apart(s', q, v)
    {
      assert Apart(s, q, v);
    }
  }

  lemma ForgetPreparedPreserves(s: Fleet, preparing: set<nat>)
    requires Inv(s)
    ensures Inv(s.(preparing := preparing))
  {
    var s' := s.(preparing := preparing);
    SameHistory(s, s');
    assert forall h, id, sae :: MaySend(s', h, id, sae) <==> MaySend(s, h, id, sae);
    forall q, v | q in s'.measured && v in s'.verdicts && s'.measured[q].reply == s'.verdicts[v].reply
      ensures Apart(s', q, v)
    {
      assert Apart(s, q, v);
    }
  }

  /** Every step the code and its users allow keeps the invariant. */
  lemma StepPreserves(s: Fleet, step: Step)
    requires Inv(s) && Possible(s, step) && Careful(s, step)
    ensures Inv(Apply(s, step))
  {
    match step
    case IssueKeys(p, number) => IssuePreserves(s, p, number);
    case ReadKeys(p, ids) => ReadPreserves(s, p, ids);
    case Regenerate(p, keys) => RegeneratePreserves(s, p, keys);
    case ExportLink(p, file, newSae) => ExportLinkPreserves(s, p, file, newSae);
    case ImportLink(p, file) => ImportPreserves(s, Apply(s, step), p, file);
    case ExportTransfer(p, file, now) => ExportTransferPreserves(s, p, file, now);
    case ImportTransfer(p, file) => ImportPreserves(s, Apply(s, step), p, file);
    case Resume(p) => ResumePreserves(s, p);
    case Begin(p) => ForgetPreparedPreserves(s, s.preparing + {p});
    case Measure(p, reply, photons) => MeasurePreserves(s, p, reply, photons);
    case Judge(p, reply, verdict, built) =>
      if built.None? { ForgetPreparedPreserves(s, s.preparing - {p}); }
      else { JudgePreserves(s, p, reply, verdict, built.value); }
    case Accept(p, verdict, outcome) =>
      match outcome
      case Refused => ForgetMeasuredPreserves(s, p);
      case SameKeys => AcceptSamePreserves(s, p, verdict);
      case OtherKeys(keys) => AcceptOtherPreserves(s, p, verdict, keys);
  }

  // ------------------------------------------------------------- runs --

  ghost predicate PossibleRun(s: Fleet, run: seq<Step>)
    decreases |run|
  {
    run != [] ==> Possible(s, run[0]) && PossibleRun(Apply(s, run[0]), run[1..])
  }

  ghost predicate CarefulRun(s: Fleet, run: seq<Step>)
    requires PossibleRun(s, run)
    decreases |run|
  {
    run != [] ==> Careful(s, run[0]) && CarefulRun(Apply(s, run[0]), run[1..])
  }

  ghost function After(s: Fleet, run: seq<Step>): (s': Fleet)
    requires PossibleRun(s, run)
    decreases |run|
  {
    if run == [] then s else After(Apply(s, run[0]), run[1..])
  }

  lemma {:induction false} RunPreserves(s: Fleet, run: seq<Step>)
    requires Inv(s) && PossibleRun(s, run) && CarefulRun(s, run)
    ensures Inv(After(s, run))
    decreases |run|
  {
    if run != [] {
      StepPreserves(s, run[0]);
      RunPreserves(Apply(s, run[0]), run[1..]);
    }
  }

  /**
   * Over every careful run of any number of phones, no bank key is issued
   * twice under one SAE id, so no two sealed messages share an AES key.
   */
  lemma NoAesKeyTwice(s: Fleet, run: seq<Step>)
    requires Initial(s) && PossibleRun(s, run) && CarefulRun(s, run)
    ensures NoReuse(After(s, run))
    ensures var issued := After(s, run).issued; forall i, j :: 0 <= i < j < |issued| ==> issued[i].Aes() != issued[j].Aes()
  {
    InitialInv(s);
    RunPreserves(s, run);
  }
}
