/**
 * A late verdict: the rules the code's comments ask for are all
 * kept, the two ends' SAE ids differ throughout, and a key is used twice.
 */
module KeyFleetLimits {
  import opened Common
  import opened KeyBank
  import opened KeyFleet
  import opened KeyFleetSafety
  import opened KeyFleetRuns

  const K: BankKey := BankKey("k", [], Fresh)
  const USED: BankKey := BankKey("k", [], Issued)

  /** Phones 0 and 1 with empty banks under SAE ids "a" and "b". */
  function TwoPhones(): (s: Fleet) {
    Fleet(map[Phone(0) := Unlinked("a", []), Phone(1) := Unlinked("b", [])],
          {}, map[], {}, map[], map[], map[], [], {}, {"a", "b"})
  }

  function Measuring(): (s: Fleet) {
    TwoPhones().(preparing := {0}, measured := map[1 := Measured(0, "b", "a")], replies := map[0 := "b"])
  }

  function Judged(): (s: Fleet) {
    Fleet(map[Phone(0) := Bank("a", Some("b"), Master, [K], false, None), Phone(1) := Unlinked("b", [])],
          {}, map[], {}, map[1 := Measured(0, "b", "a")], map[0 := "b"],
          map[0 := Verdict(0, [K])], [], {"k"}, {"a", "b"})
  }

  function Linked(): (s: Fleet) {
    Fleet(map[Phone(0) := Bank("a", Some("f"), Master, [K], false, None),
              Phone(1) := Bank("f", Some("a"), Slave, [K], false, None),
              LinkFile(0) := Bank("f", Some("a"), Slave, [K], false, None)],
          {}, map[], {}, map[1 := Measured(0, "b", "a")], map[0 := "b"],
          map[0 := Verdict(0, [K])], [], {"k"}, {"a", "b", "f"})
  }

  function Late(): (t: Fleet) {
    Linked().(banks := Linked().banks[Phone(1) := Bank("f", Some("a"), Slave, [USED], false, None)],
              issued := [Use("k", [], "f")])
  }

  /** Phone 1 measures; phone 0 judges, links its new bank to phone 1, and phone 1 sends with it. */
  function BeforeTheVerdict(): (run: seq<Step>) {
    [Begin(0), Measure(1, 0, "a"), Judge(0, 0, 0, Some([K])), ExportLink(0, LinkFile(0), "f"),
     ImportLink(1, LinkFile(0)), IssueKeys(1, 1)]
  }

  lemma IssueOneKey()
    ensures IssueFirst([K], 1) == ([USED], [QKey("k", [])]) && FreshCount([K]) == 1
    ensures AllFresh([K]) == [K] && Ids([K]) == {"k"} && DistinctIds([K])
    ensures Uses([QKey("k", [])], "f") == [Use("k", [], "f")]
  {
    assert [K][1..] == [];
    assert IssueFirst([K][1..], 0) == ([], []);
    assert K.(state := Issued) == USED && [USED] + [] == [USED];
    assert [QKey("k", [])] + [] == [QKey("k", [])];
    assert K in [K];
    assert FreshCount([]) == 0;
  }

  lemma FirstSteps()
    ensures Leads(TwoPhones(), [Begin(0)] + [Measure(1, 0, "a")], Measuring())
  {
    var s1 := Apply(TwoPhones(), Begin(0));
    LeadsOne(TwoPhones(), Begin(0));
    LeadsOne(s1, Measure(1, 0, "a"));
    assert Apply(s1, Measure(1, 0, "a")) == Measuring();
    LeadsOn(TwoPhones(), [Begin(0)], s1, [Measure(1, 0, "a")], Measuring());
  }

  lemma JudgeStep()
    ensures Leads(Measuring(), [Judge(0, 0, 0, Some([K]))], Judged())
  {
    IssueOneKey();
    LeadsOne(Measuring(), Judge(0, 0, 0, Some([K])));
    assert Apply(Measuring(), Judge(0, 0, 0, Some([K]))) == Judged();
  }

  lemma LinkSteps()
    ensures Leads(Judged(), [ExportLink(0, LinkFile(0), "f")] + [ImportLink(1, LinkFile(0))], Linked())
  {
    IssueOneKey();
    var s4 := Apply(Judged(), ExportLink(0, LinkFile(0), "f"));
    LeadsOne(Judged(), ExportLink(0, LinkFile(0), "f"));
    LeadsOne(s4, ImportLink(1, LinkFile(0)));
    var s5 := Apply(s4, ImportLink(1, LinkFile(0)));
    assert s5.banks == Linked().banks;
    assert s5.unopened == {};
    assert s5 == Linked();
    LeadsOn(Judged(), [ExportLink(0, LinkFile(0), "f")], s4, [ImportLink(1, LinkFile(0))], s5);
  }

  lemma SendStep()
    ensures Leads(Linked(), [IssueKeys(1, 1)], Late())
  {
    IssueOneKey();
    LeadsOne(Linked(), IssueKeys(1, 1));
    assert Apply(Linked(), IssueKeys(1, 1)) == Late();
  }

  lemma LeadsFour(s0: Fleet, a: seq<Step>, s1: Fleet, b: seq<Step>, s2: Fleet, c: seq<Step>, s3: Fleet, d: seq<Step>, s4: Fleet)
    requires Leads(s0, a, s1) && Leads(s1, b, s2) && Leads(s2, c, s3) && Leads(s3, d, s4)
    ensures Leads(s0, a + b + c + d, s4)
  {
    LeadsOn(s0, a, s1, b, s2);
    LeadsOn(s0, a + b, s2, c, s3);
    LeadsOn(s0, a + b + c, s3, d, s4);
  }

  lemma LateIsReached()
    ensures Leads(TwoPhones(), BeforeTheVerdict(), Late())
  {
    FirstSteps();
    JudgeStep();
    LinkSteps();
    SendStep();
    LeadsFour(TwoPhones(), [Begin(0)] + [Measure(1, 0, "a")], Measuring(), [Judge(0, 0, 0, Some([K]))], Judged(),
              [ExportLink(0, LinkFile(0), "f")] + [ImportLink(1, LinkFile(0))], Linked(), [IssueKeys(1, 1)], Late());
    RunInPieces();
  }

  lemma RunInPieces()
    ensures [Begin(0)] + [Measure(1, 0, "a")] + [Judge(0, 0, 0, Some([K]))]
            + ([ExportLink(0, LinkFile(0), "f")] + [ImportLink(1, LinkFile(0))]) + [IssueKeys(1, 1)]
         == BeforeTheVerdict()
  {
  }

  /** A verdict for keys already sent with under this phone's SAE id sends one of them again. */
  lemma ReacceptingReuses(t: Fleet, p: nat, verdict: nat, id: KeyId)
    requires Possible(t, Accept(p, verdict, SameKeys))
    requires id in Ids(t.verdicts[verdict].keys) && WasIssued(t, id, BankOf(t, p).sae)
    ensures var u := Apply(t, Accept(p, verdict, SameKeys));
      var again := IssueKeys(p, FreshCount(BankOf(u, p).keys));
      Possible(u, again) && !NoReuse(Apply(u, again))
  {
    var u := Apply(t, Accept(p, verdict, SameKeys));
    AllFreshMeaning(t.verdicts[verdict].keys);
    SameHistory(t, u);
    UsedRightIsReused(u, p, id, BankOf(t, p).sae);
  }

  /**
   * A verdict accepted after the phone adopted a link made from the judge's
   * new bank refills it with the same keys under the SAE id they were already
   * sent with: one AES key, derived twice. Every earlier step was careful and
   * the two phones' SAE ids differ, so that the ids differ is not enough; the
   * accepting phone must still send under the SAE id it measured with.
   */
  lemma LateVerdictReusesAKey()
    ensures Initial(TwoPhones()) && Leads(TwoPhones(), BeforeTheVerdict(), Late())
    ensures Possible(Late(), Accept(1, 0, SameKeys)) && BankOf(Late(), 1).sae != BankOf(Late(), 0).sae
    ensures var u := Apply(Late(), Accept(1, 0, SameKeys));
      var again := IssueKeys(1, FreshCount(BankOf(u, 1).keys));
      Possible(u, again) && !NoReuse(Apply(u, again))
  {
    LateIsReached();
    LateFacts();
    ReacceptingReuses(Late(), 1, 0, "k");
  }

  lemma LateFacts()
    ensures Initial(TwoPhones())
    ensures Possible(Late(), Accept(1, 0, SameKeys)) && BankOf(Late(), 1).sae == "f" && BankOf(Late(), 0).sae == "a"
    ensures "k" in Ids(Late().verdicts[0].keys) && WasIssued(Late(), "k", "f")
  {
    assert K in [K];
    assert Late().issued[0] == Use("k", [], "f");
  }
}
