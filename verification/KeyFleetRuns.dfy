/** Runs put together, and how a right that is used up or in two places becomes a key issued twice. */
module KeyFleetRuns {
  import opened Common
  import opened KeyBank
  import opened KeyFleet
  import opened KeyFleetSafety

  // ------------------------------------------------------------------ runs --

  /** A careful run from `s` to `t`. */
  ghost predicate Leads(s: Fleet, run: seq<Step>, t: Fleet) {
    PossibleRun(s, run) && CarefulRun(s, run) && After(s, run) == t
  }

  lemma LeadsOne(s: Fleet, step: Step)
    requires Possible(s, step) && Careful(s, step)
    ensures Leads(s, [step], Apply(s, step))
  {
    var next := Apply(s, step);
    assert [step][1..] == [];
    assert PossibleRun(next, []) && CarefulRun(next, []);
  }

  lemma {:induction false} LeadsOn(s: Fleet, one: seq<Step>, t: Fleet, two: seq<Step>, u: Fleet)
    requires Leads(s, one, t) && Leads(t, two, u)
    ensures Leads(s, one + two, u)
    decreases |one|
  {
    if one == [] {
      assert one + two == two;
    } else {
      var next := Apply(s, one[0]);
      LeadsOn(next, one[1..], t, two, u);
      assert (one + two)[0] == one[0] && (one + two)[1..] == one[1..] + two;
    }
  }

  /** Some phones as installed come to this by careful steps only. */
  ghost predicate Reached(t: Fleet) {
    exists s, run :: Initial(s) && Leads(s, run, t)
  }

  /** Careful steps only lead from here to a key issued twice. */
  ghost predicate ReuseAfter(s: Fleet) {
    exists run, t :: Leads(s, run, t) && !NoReuse(t)
  }

  lemma ReachedHoldsInv(t: Fleet)
    requires Reached(t)
    ensures Inv(t)
  {
    var s, run :| Initial(s) && Leads(s, run, t);
    InitialInv(s);
    RunPreserves(s, run);
  }

  lemma InvNoReuseAfter(s: Fleet)
    requires Inv(s)
    ensures !ReuseAfter(s)
  {
    forall run, t | Leads(s, run, t) ensures NoReuse(t) {
      RunPreserves(s, run);
    }
  }

  lemma ReachedOn(s: Fleet, run: seq<Step>, t: Fleet)
    requires Reached(s) && Leads(s, run, t)
    ensures Reached(t)
  {
    var s0, first :| Initial(s0) && Leads(s0, first, s);
    LeadsOn(s0, first, s, run, t);
  }

  // ------------------------------- a broken right is a key reused, in a step --

  lemma {:induction false} IssueAllIssuesEach(keys: seq<BankKey>, i: nat)
    requires i < |keys| && keys[i].state.Fresh?
    ensures var out := IssueFirst(keys, FreshCount(keys)).1;
      exists j :: 0 <= j < |out| && out[j].id == keys[i].id
  {
    IssueFirstAt(keys, FreshCount(keys), i);
    FreshCountSnoc(keys, i);
    FreshCountPrefix(keys, i + 1);
  }

  /** Sending with every key it has, a phone sends with each it has the right to. */
  lemma IssueAllUses(s: Fleet, p: nat, id: KeyId, sae: Sae)
    requires MaySend(s, Phone(p), id, sae)
    ensures Possible(s, IssueKeys(p, FreshCount(BankOf(s, p).keys)))
    ensures var s' := Apply(s, IssueKeys(p, FreshCount(BankOf(s, p).keys)));
      && |s'.issued| > |s.issued| && s'.issued[..|s.issued|] == s.issued
      && (exists i :: |s.issued| <= i < |s'.issued| && s'.issued[i].id == id && s'.issued[i].sender == sae)
      && (forall q | q != p && HasPhone(s, q) :: HasPhone(s', q) && BankOf(s', q) == BankOf(s, q))
  {
    var keys := BankOf(s, p).keys;
    var at :| 0 <= at < |keys| && keys[at].state.Fresh? && keys[at].id == id;
    IssueAllIssuesEach(keys, at);
    var out := IssueFirst(keys, FreshCount(keys)).1;
    var j :| 0 <= j < |out| && out[j].id == id;
    var s' := Apply(s, IssueKeys(p, FreshCount(keys)));
    assert s'.issued[|s.issued| + j] == Uses(out, sae)[j];
  }

  /** A key issued under an SAE id that still may be sent under it is issued again. */
  lemma UsedRightIsReused(s: Fleet, p: nat, id: KeyId, sae: Sae)
    requires MaySend(s, Phone(p), id, sae) && WasIssued(s, id, sae)
    ensures Possible(s, IssueKeys(p, FreshCount(BankOf(s, p).keys)))
    ensures !NoReuse(Apply(s, IssueKeys(p, FreshCount(BankOf(s, p).keys))))
  {
    IssueAllUses(s, p, id, sae);
    var s' := Apply(s, IssueKeys(p, FreshCount(BankOf(s, p).keys)));
    var i :| 0 <= i < |s.issued| && s.issued[i].id == id && s.issued[i].sender == sae;
    assert s'.issued[i] == s'.issued[..|s.issued|][i];
  }

  /** One right on two phones is one key issued twice. */
  lemma SharedRightIsReused(s: Fleet, p: nat, q: nat, id: KeyId, sae: Sae)
    requires p != q && MaySend(s, Phone(p), id, sae) && MaySend(s, Phone(q), id, sae)
    ensures var run := [IssueKeys(p, FreshCount(BankOf(s, p).keys)), IssueKeys(q, FreshCount(BankOf(s, q).keys))];
      PossibleRun(s, run) && CarefulRun(s, run) && !NoReuse(After(s, run))
    ensures ReuseAfter(s)
  {
    IssueAllUses(s, p, id, sae);
    var one := IssueKeys(p, FreshCount(BankOf(s, p).keys));
    var two := IssueKeys(q, FreshCount(BankOf(s, q).keys));
    var s1 := Apply(s, one);
    assert MaySend(s1, Phone(q), id, sae);
    UsedRightIsReused(s1, q, id, sae);
    var run := [one, two];
    assert run[1..] == [two] && [two][1..] == [];
    assert PossibleRun(Apply(s1, two), []);
    assert PossibleRun(s1, [two]);
    assert CarefulRun(Apply(s1, two), []);
    assert CarefulRun(s1, [two]);
    assert After(s, run) == After(s1, [two]) == Apply(s1, two);
    assert Leads(s, run, After(s, run));
  }
}
