/** Filters run on the device (app/src/rules/rules.ts:104-220): what they may read, and how often they act. */
module Rules {
  import opened Common
  import opened Strings
  import opened Rfc822

  datatype Field = From | Subject | Content

  datatype Condition = Condition(field: Field, contains: string)

  datatype Actions = Actions(star: bool, markRead: bool, archive: bool, labelId: Option<string>)

  datatype Rule = Rule(id: string, enabled: bool, conditions: seq<Condition>, actions: Actions)

  datatype Row = Row(id: string, name: string, address: string, subject: string, snippet: string, unread: bool, starred: bool)

  datatype Input = Input(row: Row, encrypted: bool)

  /** What was decrypted here, by message. */
  datatype Sealed = Sealed(subject: string, body: string)

  type Index = map<string, Sealed>

  /** Only what changes something: a flag set, or left as it is. */
  datatype Outcome = Outcome(id: string, starred: bool, read: bool, archived: bool, addLabels: seq<string>, rules: seq<string>)

  type Fired = map<string, seq<string>>

  datatype Options = Options(labelIds: set<string>, canArchive: string -> bool)

  predicate HasProblem(rule: Rule) {
    || rule.conditions == []
    || (exists c | c in rule.conditions :: JsTrim(c.contains) == "")
    || !(rule.actions.star || rule.actions.markRead || rule.actions.archive || (rule.actions.labelId.Some? && rule.actions.labelId.value != ""))
  }

  /** What a condition is matched against, where that can be read. */
  function ReadableField(field: Field, input: Input, index: Index): (text: Option<string>) {
    var row := input.row;
    if field == From then Some(row.name + " " + row.address)
    else if input.encrypted then
      if row.id !in index then None
      else if field == Subject then Some(index[row.id].subject)
      else Some(index[row.id].subject + " " + index[row.id].body)
    else Some(if field == Subject then row.subject else row.subject + " " + row.snippet)
  }

  predicate Holds(c: Condition, input: Input, index: Index) {
    var needle := Lower(JsTrim(c.contains));
    var text := ReadableField(c.field, input, index);
    needle != "" && text.Some? && Find(Lower(text.value), needle).Some?
  }

  predicate MatchRule(rule: Rule, input: Input, index: Index) {
    rule.conditions != [] && forall c | c in rule.conditions :: Holds(c, input, index)
  }

  function Active(rules: seq<Rule>): (active: seq<Rule>)
    ensures forall r | r in active :: r in rules && r.enabled && !HasProblem(r)
    ensures DistinctIds(rules) ==> DistinctIds(active)
  {
    if rules == [] then []
    else
      var rest := Active(rules[1..]);
      assert rules == [rules[0]] + rules[1..];
      if rules[0].enabled && !HasProblem(rules[0]) then
        assert DistinctIds(rules) ==> forall j | 0 <= j < |rest| :: rest[j] in rules[1..] && rest[j].id != rules[0].id;
        [rules[0]] + rest
      else rest
  }

  ghost predicate DistinctIds(rules: seq<Rule>) {
    forall i, j :: 0 <= i < j < |rules| ==> rules[i].id != rules[j].id
  }

  function AlreadyFired(fired: Fired, id: string): (rules: seq<string>) {
    if id in fired then fired[id] else []
  }

  predicate Runs(rule: Rule, input: Input, index: Index, already: seq<string>) {
    rule.id !in already && MatchRule(rule, input, index)
  }

  /** One rule's say on one message. */
  function Apply(o: Outcome, rule: Rule, row: Row, options: Options): (o': Outcome) {
    var a := rule.actions;
    o.(rules := o.rules + [rule.id],
       starred := o.starred || (a.star && !row.starred),
       read := o.read || (a.markRead && row.unread),
       archived := o.archived || (a.archive && options.canArchive(row.id)),
       addLabels := if a.labelId.Some? && a.labelId.value != "" && a.labelId.value in options.labelIds && a.labelId.value !in o.addLabels
         then o.addLabels + [a.labelId.value] else o.addLabels)
  }

  function RunRules(rules: seq<Rule>, input: Input, index: Index, already: seq<string>, options: Options): (o: Outcome) {
    if rules == [] then Outcome(input.row.id, false, false, false, [], [])
    else
      var n := |rules| - 1;
      var before := RunRules(rules[..n], input, index, already, options);
      if Runs(rules[n], input, index, already) then Apply(before, rules[n], input.row, options) else before
  }

  datatype Applied = Applied(outcomes: seq<Outcome>, fired: Fired)

  function ApplyTo(active: seq<Rule>, input: Input, index: Index, options: Options, so: Applied): (r: Applied) {
    var already := AlreadyFired(so.fired, input.row.id);
    var o := RunRules(active, input, index, already, options);
    if o.rules == [] then so
    else Applied(so.outcomes + [o], so.fired[input.row.id := already + o.rules])
  }

  function ApplyAll(active: seq<Rule>, inputs: seq<Input>, index: Index, options: Options, fired: Fired): (r: Applied) {
    if inputs == [] then Applied([], fired)
    else
      var n := |inputs| - 1;
      ApplyTo(active, inputs[n], index, options, ApplyAll(active, inputs[..n], index, options, fired))
  }

  method ApplyRules(inputs: seq<Input>, index: Index, rules: seq<Rule>, fired: Fired, options: Options) returns (r: Applied)
    ensures r == ApplyAll(Active(rules), inputs, index, options, fired)
  {
    var active := Active(rules);
    r := Applied([], fired);
    if active == [] {
      NoRules(inputs, index, options, fired);
      return;
    }
    for i := 0 to |inputs|
      invariant r == ApplyAll(active, inputs[..i], index, options, fired)
    {
      assert inputs[..i + 1][..i] == inputs[..i];
      var already := AlreadyFired(r.fired, inputs[i].row.id);
      var o := RunActive(active, inputs[i], index, already, options);
      if o.rules != [] {
        r := Applied(r.outcomes + [o], r.fired[inputs[i].row.id := already + o.rules]);
      }
    }
    assert inputs[..|inputs|] == inputs;
  }

  method RunActive(active: seq<Rule>, input: Input, index: Index, already: seq<string>, options: Options) returns (o: Outcome)
    ensures o == RunRules(active, input, index, already, options)
  {
    o := Outcome(input.row.id, false, false, false, [], []);
    for j := 0 to |active|
      invariant o == RunRules(active[..j], input, index, already, options)
    {
      assert active[..j + 1][..j] == active[..j];
      if active[j].id !in already && MatchRule(active[j], input, index) {
        o := Apply(o, active[j], input.row, options);
      }
    }
    assert active[..|active|] == active;
  }

  lemma {:induction false} NoRules(inputs: seq<Input>, index: Index, options: Options, fired: Fired)
    ensures ApplyAll([], inputs, index, options, fired) == Applied([], fired)
  {
    if inputs != [] {
      NoRules(inputs[..|inputs| - 1], index, options, fired);
    }
  }

  // ------------------------------------------------------ once per message --

  ghost predicate EachOnce(fired: Fired) {
    forall id | id in fired :: Distinct(fired[id])
  }

  /** The rules that ran are rules, each once, that had not run before. */
  lemma {:induction false} RanIs(rules: seq<Rule>, input: Input, index: Index, already: seq<string>, options: Options)
    requires DistinctIds(rules)
    ensures RunRules(rules, input, index, already, options).id == input.row.id
    ensures var ran := RunRules(rules, input, index, already, options).rules;
      && Distinct(ran)
      && forall id | id in ran :: id !in already && exists r | r in rules :: r.id == id && MatchRule(r, input, index)
  {
    if rules != [] {
      var n := |rules| - 1;
      RanIs(rules[..n], input, index, already, options);
      var before := RunRules(rules[..n], input, index, already, options).rules;
      assert rules == rules[..n] + [rules[n]];
      assert rules[n].id !in before;
      var ran := RunRules(rules, input, index, already, options).rules;
      forall id | id in ran ensures id !in already && exists r | r in rules :: r.id == id && MatchRule(r, input, index) {
        if id in before {
          var r :| r in rules[..n] && r.id == id && MatchRule(r, input, index);
          assert r in rules;
        } else {
          assert rules[n] in rules && id == rules[n].id;
        }
      }
    }
  }

  lemma AppendDistinct(a: seq<string>, b: seq<string>)
    requires Distinct(a) && Distinct(b) && forall x | x in b :: x !in a
    ensures Distinct(a + b)
  {
    forall i, j | 0 <= i < j < |a + b| ensures (a + b)[i] != (a + b)[j] {
      if i < |a| <= j {
        assert b[j - |a|] in b && a[i] in a;
      }
    }
  }

  /** Over any inputs: each rule acts on a message at most once, ever, and what acted before is remembered. */
  lemma {:induction false} OncePerMessage(active: seq<Rule>, inputs: seq<Input>, index: Index, options: Options, fired: Fired)
    requires DistinctIds(active) && EachOnce(fired)
    ensures var r := ApplyAll(active, inputs, index, options, fired);
      && EachOnce(r.fired)
      && forall id :: AlreadyFired(fired, id) <= AlreadyFired(r.fired, id)
  {
    if inputs != [] {
      var n := |inputs| - 1;
      OncePerMessage(active, inputs[..n], index, options, fired);
      var so := ApplyAll(active, inputs[..n], index, options, fired);
      var already := AlreadyFired(so.fired, inputs[n].row.id);
      RanIs(active, inputs[n], index, already, options);
      AppendDistinct(already, RunRules(active, inputs[n], index, already, options).rules);
    }
  }

  /** A message is never handed an outcome in which a rule acts that had acted on it before. */
  lemma {:induction false} NeverAgain(active: seq<Rule>, inputs: seq<Input>, index: Index, options: Options, fired: Fired, k: nat)
    requires DistinctIds(active) && EachOnce(fired) && k < |ApplyAll(active, inputs, index, options, fired).outcomes|
    ensures var o := ApplyAll(active, inputs, index, options, fired).outcomes[k];
      forall rule | rule in o.rules :: rule !in AlreadyFired(fired, o.id)
  {
    var n := |inputs| - 1;
    var so := ApplyAll(active, inputs[..n], index, options, fired);
    if k < |so.outcomes| {
      NeverAgain(active, inputs[..n], index, options, fired, k);
    } else {
      OncePerMessage(active, inputs[..n], index, options, fired);
      RanIs(active, inputs[n], index, AlreadyFired(so.fired, inputs[n].row.id), options);
    }
  }

  // -------------------------------------------------- unread ciphertext --

  /** The same message as far as this device can read: unread ciphertext may differ in subject and snippet. */
  predicate LooksSame(a: Input, b: Input, index: Index) {
    && a.encrypted == b.encrypted
    && a.row == b.row.(subject := a.row.subject, snippet := a.row.snippet)
    && (!a.encrypted ==> a.row == b.row)
  }

  lemma SameReading(field: Field, a: Input, b: Input, index: Index)
    requires LooksSame(a, b, index)
    ensures ReadableField(field, a, index) == ReadableField(field, b, index)
  {
  }

  lemma SameMatch(rule: Rule, a: Input, b: Input, index: Index)
    requires LooksSame(a, b, index)
    ensures MatchRule(rule, a, index) == MatchRule(rule, b, index)
  {
    forall c | c in rule.conditions ensures Holds(c, a, index) == Holds(c, b, index) {
      SameReading(c.field, a, b, index);
    }
  }

  lemma {:induction false} SameRun(rules: seq<Rule>, a: Input, b: Input, index: Index, already: seq<string>, options: Options)
    requires LooksSame(a, b, index)
    ensures RunRules(rules, a, index, already, options) == RunRules(rules, b, index, already, options)
  {
    if rules != [] {
      var n := |rules| - 1;
      SameRun(rules[..n], a, b, index, already, options);
      SameMatch(rules[n], a, b, index);
    }
  }

  /** What rules do never hangs on the outer subject or snippet of an encrypted message. */
  lemma {:induction false} CiphertextDecidesNothing(active: seq<Rule>, a: seq<Input>, b: seq<Input>, index: Index, options: Options, fired: Fired)
    requires |a| == |b| && forall i | 0 <= i < |a| :: LooksSame(a[i], b[i], index)
    ensures ApplyAll(active, a, index, options, fired) == ApplyAll(active, b, index, options, fired)
  {
    if a != [] {
      var n := |a| - 1;
      CiphertextDecidesNothing(active, a[..n], b[..n], index, options, fired);
      var so := ApplyAll(active, a[..n], index, options, fired);
      SameRun(active, a[n], b[n], index, AlreadyFired(so.fired, a[n].row.id), options);
    }
  }

  /** An encrypted message not opened here matches only by its sender. */
  lemma SealedMatchesBySenderOnly(rule: Rule, input: Input, index: Index)
    requires input.encrypted && input.row.id !in index && MatchRule(rule, input, index)
    ensures forall c | c in rule.conditions :: c.field == From
  {
    forall c | c in rule.conditions ensures c.field == From {
      assert Holds(c, input, index);
    }
  }

  // ------------------------------------------------------ what is done --

  lemma {:induction false} ActiveExactly(rules: seq<Rule>, r: Rule)
    ensures r in Active(rules) <==>
      && r in rules && r.enabled && r.conditions != [] && (forall c | c in r.conditions :: JsTrim(c.contains) != "")
      && (r.actions.star || r.actions.markRead || r.actions.archive || (r.actions.labelId.Some? && r.actions.labelId.value != ""))
  {
    if rules != [] {
      ActiveExactly(rules[1..], r);
      assert rules == [rules[0]] + rules[1..];
    }
  }

  /** Some place in the text reads as the words looked for, whatever the case of either. */
  ghost predicate Says(text: string, words: string) {
    JsTrim(words) != "" && exists i: nat :: OccursAt(Lower(text), Lower(JsTrim(words)), i)
  }

  /** What a condition is about: the sender always; the rest as this device read it, in the clear or decrypted here. */
  lemma HoldsExactly(c: Condition, input: Input, index: Index)
    ensures Holds(c, input, index) <==>
      match c.field
      case From => Says(input.row.name + " " + input.row.address, c.contains)
      case Subject =>
        if !input.encrypted then Says(input.row.subject, c.contains)
        else input.row.id in index && Says(index[input.row.id].subject, c.contains)
      case Content =>
        if !input.encrypted then Says(input.row.subject + " " + input.row.snippet, c.contains)
        else input.row.id in index && Says(index[input.row.id].subject + " " + index[input.row.id].body, c.contains)
  {
    var text := ReadableField(c.field, input, index);
    if text.Some? {
      FoundExactly(Lower(text.value), Lower(JsTrim(c.contains)));
    }
  }

  lemma FoundExactly(s: string, pat: string)
    ensures Find(s, pat).Some? <==> exists i: nat :: OccursAt(s, pat, i)
  {
  }

  /** A rule that acts: it is one of them, had not acted on this message, and all its conditions hold. */
  ghost predicate Acts(rules: seq<Rule>, r: Rule, input: Input, index: Index, already: seq<string>) {
    r in rules && r.id !in already && r.conditions != [] && forall c | c in r.conditions :: Holds(c, input, index)
  }

  datatype Kind = Stars | Reads | Archives | Labels(labelId: string) | Called(id: string)

  predicate Is(r: Rule, kind: Kind) {
    match kind
    case Stars => r.actions.star
    case Reads => r.actions.markRead
    case Archives => r.actions.archive
    case Labels(l) => r.actions.labelId == Some(l)
    case Called(id) => r.id == id
  }

  /** A rule of this kind acts. */
  ghost predicate Asked(rules: seq<Rule>, input: Input, index: Index, already: seq<string>, kind: Kind) {
    exists r :: Acts(rules, r, input, index, already) && Is(r, kind)
  }

  /** An outcome is what the rules that act ask for, as far as it changes something, and nothing else. */
  ghost predicate AsAsked(o: Outcome, rules: seq<Rule>, input: Input, index: Index, already: seq<string>, options: Options) {
    && FlagsAsAsked(o, rules, input, index, already, options)
    && (forall l :: l in o.addLabels <==> LabelAsked(rules, input, index, already, options, l))
    && Distinct(o.addLabels)
    && (forall id :: id in o.rules <==> Asked(rules, input, index, already, Called(id)))
  }

  ghost predicate FlagsAsAsked(o: Outcome, rules: seq<Rule>, input: Input, index: Index, already: seq<string>, options: Options) {
    var row := input.row;
    && o.id == row.id
    && (o.starred <==> !row.starred && Asked(rules, input, index, already, Stars))
    && (o.read <==> row.unread && Asked(rules, input, index, already, Reads))
    && (o.archived <==> options.canArchive(row.id) && Asked(rules, input, index, already, Archives))
  }

  ghost predicate LabelAsked(rules: seq<Rule>, input: Input, index: Index, already: seq<string>, options: Options, l: string) {
    l != "" && l in options.labelIds && Asked(rules, input, index, already, Labels(l))
  }

  lemma AskedGrows(rules: seq<Rule>, input: Input, index: Index, already: seq<string>, kind: Kind)
    requires rules != []
    ensures var n := |rules| - 1;
      Asked(rules, input, index, already, kind) <==>
        Asked(rules[..n], input, index, already, kind) || (Runs(rules[n], input, index, already) && Is(rules[n], kind))
  {
    var n := |rules| - 1;
    assert rules == rules[..n] + [rules[n]];
    assert forall r :: Acts(rules, r, input, index, already) <==>
      Acts(rules[..n], r, input, index, already) || (r == rules[n] && Runs(r, input, index, already));
  }

  lemma {:induction false} FlagsAre(rules: seq<Rule>, input: Input, index: Index, already: seq<string>, options: Options)
    ensures FlagsAsAsked(RunRules(rules, input, index, already, options), rules, input, index, already, options)
  {
    if rules != [] {
      FlagsAre(rules[..|rules| - 1], input, index, already, options);
      AskedGrows(rules, input, index, already, Stars);
      AskedGrows(rules, input, index, already, Reads);
      AskedGrows(rules, input, index, already, Archives);
    }
  }

  lemma {:induction false} LabelsAre(rules: seq<Rule>, input: Input, index: Index, already: seq<string>, options: Options)
    ensures var o := RunRules(rules, input, index, already, options);
      (forall l :: l in o.addLabels <==> LabelAsked(rules, input, index, already, options, l)) && Distinct(o.addLabels)
  {
    if rules != [] {
      LabelsAre(rules[..|rules| - 1], input, index, already, options);
      forall l { AskedGrows(rules, input, index, already, Labels(l)); }
    }
  }

  lemma {:induction false} RanAre(rules: seq<Rule>, input: Input, index: Index, already: seq<string>, options: Options)
    ensures var o := RunRules(rules, input, index, already, options);
      forall id :: id in o.rules <==> Asked(rules, input, index, already, Called(id))
  {
    if rules != [] {
      RanAre(rules[..|rules| - 1], input, index, already, options);
      forall id { AskedGrows(rules, input, index, already, Called(id)); }
    }
  }

  lemma OutcomeAsAsked(rules: seq<Rule>, input: Input, index: Index, already: seq<string>, options: Options)
    ensures AsAsked(RunRules(rules, input, index, already, options), rules, input, index, already, options)
  {
    FlagsAre(rules, input, index, already, options);
    LabelsAre(rules, input, index, already, options);
    RanAre(rules, input, index, already, options);
  }

  /** Each message listed once: it has an outcome exactly if a rule acts on it, that outcome is the one asked for, and what acted is remembered. */
  lemma {:induction false} OutcomesExactly(active: seq<Rule>, inputs: seq<Input>, index: Index, options: Options, fired: Fired, k: nat)
    requires k < |inputs| && forall i, j :: 0 <= i < j < |inputs| ==> inputs[i].row.id != inputs[j].row.id
    ensures var r := ApplyAll(active, inputs, index, options, fired);
      var (id, already) := (inputs[k].row.id, AlreadyFired(fired, inputs[k].row.id));
      && ((exists o :: o in r.outcomes && o.id == id) <==> exists rule :: Acts(active, rule, inputs[k], index, already))
      && (forall o | o in r.outcomes && o.id == id :: AsAsked(o, active, inputs[k], index, already, options))
      && (forall rule | Acts(active, rule, inputs[k], index, already) :: rule.id in AlreadyFired(r.fired, id))
  {
    var id := inputs[k].row.id;
    var already := AlreadyFired(fired, id);
    var o := RunRules(active, inputs[k], index, already, options);
    OutcomeAsAsked(active, inputs[k], index, already, options);
    OneOutcome(active, inputs, index, options, fired, k);
    assert o.rules != [] ==> o.rules[0] in o.rules;
  }

  /** No outcome for a message not listed, and its record is as it was. */
  lemma {:induction false} NoOutcome(active: seq<Rule>, inputs: seq<Input>, index: Index, options: Options, fired: Fired, id: string)
    requires forall i | 0 <= i < |inputs| :: inputs[i].row.id != id
    ensures var r := ApplyAll(active, inputs, index, options, fired);
      (forall o | o in r.outcomes :: o.id != id) && AlreadyFired(r.fired, id) == AlreadyFired(fired, id)
  {
    if inputs != [] {
      var n := |inputs| - 1;
      NoOutcome(active, inputs[..n], index, options, fired, id);
      var so := ApplyAll(active, inputs[..n], index, options, fired);
      OutcomeAsAsked(active, inputs[n], index, AlreadyFired(so.fired, inputs[n].row.id), options);
    }
  }

  lemma {:induction false} OneOutcome(active: seq<Rule>, inputs: seq<Input>, index: Index, options: Options, fired: Fired, k: nat)
    requires k < |inputs| && forall i, j :: 0 <= i < j < |inputs| ==> inputs[i].row.id != inputs[j].row.id
    ensures var r := ApplyAll(active, inputs, index, options, fired);
      var (id, already) := (inputs[k].row.id, AlreadyFired(fired, inputs[k].row.id));
      var mine := RunRules(active, inputs[k], index, already, options);
      && (forall o | o in r.outcomes && o.id == id :: o == mine && o.rules != [])
      && (mine.rules != [] ==> mine in r.outcomes)
      && AlreadyFired(r.fired, id) == already + mine.rules
  {
    var n := |inputs| - 1;
    var id := inputs[k].row.id;
    var so := ApplyAll(active, inputs[..n], index, options, fired);
    OutcomeAsAsked(active, inputs[n], index, AlreadyFired(so.fired, inputs[n].row.id), options);
    if k == n {
      NoOutcome(active, inputs[..n], index, options, fired, id);
    } else {
      OneOutcome(active, inputs[..n], index, options, fired, k);
    }
  }
}
