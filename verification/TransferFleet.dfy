/**
 * One mailbox on any number of phones that move it between them with transfer
 * files (core/src/transfer.rs): what exports and imports do to its key banks
 * refines `KeyFleet`, so at most one phone at a time issues from a bank.
 */
module TransferFleet {
  import opened Common
  import opened KeyBank
  import opened Transfer
  import Fleets = KeyFleet
  import KeyFleetSafety
  import KeyFleetRuns

  type Fleet = Fleets.Fleet

  /**
   * `made[d]` is the bank phone `d` makes for the mailbox if it has none when
   * one is asked for. `last[d]` is the mailbox's last file `d` wrote, and
   * `spent` the files that were imported or taken back.
   */
  datatype World = World(
    phones: map<nat, Held>,
    made: map<nat, Bank>,
    files: map<nat, File>,
    last: map<nat, nat>,
    spent: set<nat>,
    issued: seq<Fleets.Use>)

  datatype Step =
    /** An export of any mailbox; one that is not this one may get the bank `other`. */
    | ExportFrom(d: nat, address: Email, code: string, archive: string, now: int, other: Bank, j: nat)
    /** An import of a file, or of a text that is no transfer. */
    | ImportInto(d: nat, source: Option<nat>, code: string, expected: Email)
    | TakeBack(d: nat)
    | Send(d: nat, number: nat)

  function BankAt(w: World, email: Email, d: nat): (b: Bank)
    requires d in w.phones && d in w.made
  {
    BankFor(w.phones[d], email, w.made[d])
  }

  predicate Possible(w: World, step: Step) {
    && step.d in w.phones && step.d in w.made
    && match step
       case ExportFrom(_, _, _, _, _, _, j) => j !in w.files
       case ImportInto(_, source, _, _) => source.Some? ==> source.value in w.files
       case TakeBack(_) => true
       case Send(_, _) => true
  }

  function Exporting(w: World, email: Email, step: Step): (r: (Held, Result<File, Failure>))
    requires Possible(w, step) && step.ExportFrom?
  {
    var made := if step.address == email then w.made[step.d] else step.other;
    Export(w.phones[step.d], step.address, step.code, step.archive, step.now, made)
  }

  function Importing(w: World, step: Step): (r: (Held, Result<(Identity, string), Failure>))
    requires Possible(w, step) && step.ImportInto?
  {
    var file := if step.source.None? then None else Some(w.files[step.source.value]);
    Import(w.phones[step.d], file, step.code, step.expected)
  }

  /** The bank of this mailbox as it is after the step, written back. */
  function PutBank(w: World, email: Email, d: nat, bank: Bank): (w': World)
    requires d in w.phones
  {
    w.(phones := w.phones[d := w.phones[d].(banks := w.phones[d].banks[email := bank])])
  }

  /** What of the mailbox's own this step moves: a file written, or a file adopted. */
  predicate Exports(w: World, email: Email, step: Step)
    requires Possible(w, step)
  {
    step.ExportFrom? && step.address == email && Exporting(w, email, step).1.Ok?
  }

  predicate Adopts(w: World, email: Email, step: Step)
    requires Possible(w, step)
  {
    step.ImportInto? && step.source.Some? && w.files[step.source.value].bundle.email == email && Importing(w, step).1.Ok?
  }

  function Apply(w: World, email: Email, step: Step): (w': World)
    requires Possible(w, step)
  {
    match step
    case ExportFrom(d, address, _, _, _, _, j) =>
      var (after, r) := Exporting(w, email, step);
      w.(phones := w.phones[d := after],
         files := if r.Ok? then w.files[j := r.value] else w.files,
         last := if Exports(w, email, step) then w.last[d := j] else w.last)
    case ImportInto(d, source, _, _) =>
      w.(phones := w.phones[d := Importing(w, step).0],
         spent := if Adopts(w, email, step) then w.spent + {source.value} else w.spent)
    case TakeBack(d) =>
      var bank := BankAt(w, email, d);
      PutBank(w, email, d, HandedOverAt(bank, None))
        .(spent := if bank.handedOver && d in w.last then w.spent + {w.last[d]} else w.spent)
    case Send(d, number) =>
      var bank := BankAt(w, email, d);
      (match Enc(bank, number)
       case Err(_) => PutBank(w, email, d, bank)
       case Ok((after, out)) => PutBank(w, email, d, after).(issued := w.issued + Fleets.Uses(out, after.sae)))
  }

  /** What the phones' owners see to. */
  predicate Careful(w: World, email: Email, step: Step)
    requires Possible(w, step)
  {
    && (Exports(w, email, step) ==> !BankAt(w, email, step.d).handedOver)
    && (Adopts(w, email, step) ==> step.source.value !in w.spent)
    && (step.TakeBack? && BankAt(w, email, step.d).handedOver ==> step.d in w.last && w.last[step.d] !in w.spent)
  }

  // ------------------------------------------------------------- refinement --

  /** The holders of this mailbox's banks. */
  predicate Holds(w: World, email: Email, h: Fleets.Holder) {
    match h
    case Phone(d) => d in w.phones
    case TransferFile(j) => j in w.files && w.files[j].bundle.email == email
    case LinkFile(_) => false
  }

  /** Every file is one that `Export` wrote. */
  predicate FilesWhole(w: World, email: Email) {
    && w.phones.Keys <= w.made.Keys
    && (forall j | j in w.files :: w.files[j].bundle.bank.Some? && SignedIn(w.files[j].bundle.email))
    && (forall d | d in w.last :: w.last[d] in w.files && w.files[w.last[d]].bundle.email == email)
    && w.spent <= w.files.Keys
  }

  ghost predicate BanksMatch(w: World, email: Email, s: Fleet)
    requires FilesWhole(w, email)
  {
    && (forall h :: h in s.banks <==> Holds(w, email, h))
    && (forall d | d in w.phones :: s.banks[Fleets.Phone(d)] == BankAt(w, email, d))
    && (forall j | j in w.files && w.files[j].bundle.email == email ::
         s.banks[Fleets.TransferFile(j)] == w.files[j].bundle.bank.value)
  }

  ghost predicate Matches(w: World, email: Email, s: Fleet) {
    && FilesWhole(w, email)
    && BanksMatch(w, email, s)
    && UnopenedMatch(w, email, s.unopened)
    && LastMatch(w.last, s.outstanding)
    && s.issued == w.issued
  }

  ghost predicate UnopenedMatch(w: World, email: Email, unopened: set<Fleets.Holder>) {
    forall h :: h in unopened <==> Holds(w, email, h) && h.TransferFile? && h.j !in w.spent
  }

  ghost predicate LastMatch(last: map<nat, nat>, outstanding: map<nat, Fleets.Holder>) {
    && last.Keys == outstanding.Keys
    && forall d | d in last :: outstanding[d] == Fleets.TransferFile(last[d])
  }

  /** What the step is among the banks: one step there, or none. */
  function Shown(w: World, email: Email, step: Step): (run: seq<Fleets.Step>)
    requires Possible(w, step)
  {
    match step
    case ExportFrom(d, _, _, _, now, _, j) =>
      if Exports(w, email, step) then [Fleets.ExportTransfer(d, Fleets.TransferFile(j), now)] else []
    case ImportInto(d, source, _, _) =>
      if Adopts(w, email, step) then [Fleets.ImportTransfer(d, Fleets.TransferFile(source.value))] else []
    case TakeBack(d) => [Fleets.Resume(d)]
    case Send(d, number) => [Fleets.IssueKeys(d, number)]
  }

  lemma OneStep(s: Fleet, step: Fleets.Step)
    requires Fleets.Possible(s, step) && Fleets.Careful(s, step)
    ensures KeyFleetRuns.Leads(s, [step], Fleets.Apply(s, step))
  {
    KeyFleetRuns.LeadsOne(s, step);
  }

  lemma NoStep(s: Fleet)
    ensures KeyFleetRuns.Leads(s, [], s)
  {
    assert KeyFleetSafety.PossibleRun(s, []) && KeyFleetSafety.CarefulRun(s, []);
  }

  /** The phones of `w'` hold for the mailbox what those of `w` do, but for phone `d`. */
  ghost predicate OnlyAt(w: World, w': World, email: Email, d: nat, bank: Bank) {
    && w.phones.Keys <= w.made.Keys && w'.made == w.made && w'.phones.Keys == w.phones.Keys && d in w.phones
    && forall e | e in w.phones :: BankAt(w', email, e) == if e == d then bank else BankAt(w, email, e)
  }

  lemma PhoneReplaced(w: World, w': World, email: Email, d: nat, after: Held)
    requires w.phones.Keys <= w.made.Keys && w'.made == w.made && d in w.phones && w'.phones == w.phones[d := after]
    ensures OnlyAt(w, w', email, d, BankFor(after, email, w.made[d]))
  {
  }

  /** A bank on one phone changes, and no file does. */
  lemma BanksStillMatch(w: World, w': World, email: Email, s: Fleet, s': Fleet, d: nat, bank: Bank)
    requires FilesWhole(w, email) && BanksMatch(w, email, s) && OnlyAt(w, w', email, d, bank)
    requires w'.files == w.files && w'.last == w.last && w'.spent <= w.files.Keys && s'.banks == s.banks[Fleets.Phone(d) := bank]
    ensures FilesWhole(w', email) && BanksMatch(w', email, s')
  {
    assert forall h :: Holds(w', email, h) <==> Holds(w, email, h);
    assert Holds(w, email, Fleets.Phone(d));
  }

  lemma ExportMeaning(h: Held, address: Email, code: string, archive: string, now: int, made: Bank, email: Email, mine: Bank)
    requires address == email ==> made == mine
    ensures var (after, r) := Export(h, address, code, archive, now, made);
      && (r.Ok? ==> r.value.bundle.email == address && SignedIn(address) && r.value.bundle.bank == Some(BankFor(h, address, made)))
      && BankFor(after, email, mine) ==
         if r.Ok? && address == email then HandedOverAt(BankFor(h, email, mine), Some(now)) else BankFor(h, email, mine)
  {
  }

  lemma ImportMeaning(h: Held, file: Option<File>, code: string, expected: Email, email: Email, mine: Bank)
    requires file.Some? ==> file.value.bundle.bank.Some? && SignedIn(file.value.bundle.email)
    ensures var (after, r) := Import(h, file, code, expected);
      && (r.Ok? ==> file.Some?)
      && BankFor(after, email, mine) ==
         if r.Ok? && file.value.bundle.email == email then Adopted(file.value.bundle.bank.value) else BankFor(h, email, mine)
  {
  }

  /** A file joins those written, with the bank its phone had. */
  lemma FileWritten(w: World, w': World, email: Email, s: Fleet, s': Fleet, d: nat, bank: Bank, j: nat, file: File)
    requires FilesWhole(w, email) && BanksMatch(w, email, s) && OnlyAt(w, w', email, d, bank)
    requires j !in w.files && w'.files == w.files[j := file] && w'.last == w.last[d := j] && w'.spent == w.spent
    requires file.bundle.email == email && SignedIn(email) && file.bundle.bank == Some(BankAt(w, email, d))
    requires s'.banks == s.banks[Fleets.Phone(d) := bank][Fleets.TransferFile(j) := BankAt(w, email, d)]
    ensures FilesWhole(w', email) && BanksMatch(w', email, s')
  {
    forall h ensures Holds(w', email, h) <==> Holds(w, email, h) || h == Fleets.TransferFile(j) {}
    assert Holds(w, email, Fleets.Phone(d));
  }

  /** A file of another mailbox. */
  lemma OtherFileWritten(w: World, w': World, email: Email, s: Fleet, d: nat, j: nat, file: File)
    requires FilesWhole(w, email) && BanksMatch(w, email, s)
    requires d in w.phones && OnlyAt(w, w', email, d, BankAt(w, email, d))
    requires j !in w.files && w'.files == w.files[j := file] && w'.last == w.last && w'.spent == w.spent
    requires file.bundle.email != email && SignedIn(file.bundle.email) && file.bundle.bank.Some?
    ensures FilesWhole(w', email) && BanksMatch(w', email, s)
    ensures forall h :: Holds(w', email, h) <==> Holds(w, email, h)
  {
    forall h ensures Holds(w', email, h) <==> Holds(w, email, h) {}
  }

  lemma ExportRefines(w: World, email: Email, s: Fleet, step: Step) returns (s': Fleet)
    requires Matches(w, email, s) && Possible(w, step) && Careful(w, email, step) && step.ExportFrom?
    ensures KeyFleetRuns.Leads(s, Shown(w, email, step), s') && Matches(Apply(w, email, step), email, s')
  {
    var (w', d, j) := (Apply(w, email, step), step.d, step.j);
    var (after, r) := Exporting(w, email, step);
    var made := if step.address == email then w.made[d] else step.other;
    ExportMeaning(w.phones[d], step.address, step.code, step.archive, step.now, made, email, w.made[d]);
    PhoneReplaced(w, w', email, d, after);
    if Exports(w, email, step) {
      s' := HandsOver(w, w', email, s, d, step.now, j, r.value);
    } else {
      NoStep(s);
      s' := s;
      NotOurs(w, w', email, s, d, j, r);
    }
  }

  /** An export refused, or of another mailbox. */
  lemma NotOurs(w: World, w': World, email: Email, s: Fleet, d: nat, j: nat, r: Result<File, Failure>)
    requires Matches(w, email, s) && d in w.phones && OnlyAt(w, w', email, d, BankAt(w, email, d)) && j !in w.files
    requires w'.last == w.last && w'.spent == w.spent && w'.issued == w.issued
    requires w'.files == if r.Ok? then w.files[j := r.value] else w.files
    requires r.Ok? ==> r.value.bundle.email != email && SignedIn(r.value.bundle.email) && r.value.bundle.bank.Some?
    ensures Matches(w', email, s)
  {
    if r.Ok? {
      OtherFileWritten(w, w', email, s, d, j, r.value);
    } else {
      assert s.banks[Fleets.Phone(d) := BankAt(w, email, d)] == s.banks;
      BanksStillMatch(w, w', email, s, s, d, BankAt(w, email, d));
      assert forall h :: Holds(w', email, h) <==> Holds(w, email, h);
    }
  }

  lemma ExportThere(s: Fleet, d: nat, file: Fleets.Holder, now: int) returns (s': Fleet)
    requires Fleets.HasPhone(s, d) && !Fleets.BankOf(s, d).handedOver && file.TransferFile? && file !in s.banks
    ensures KeyFleetRuns.Leads(s, [Fleets.ExportTransfer(d, file, now)], s')
    ensures s'.banks == s.banks[Fleets.Phone(d) := HandedOverAt(Fleets.BankOf(s, d), Some(now))][file := Fleets.BankOf(s, d)]
    ensures s'.unopened == s.unopened + {file} && s'.outstanding == s.outstanding[d := file] && s'.issued == s.issued
  {
    OneStep(s, Fleets.ExportTransfer(d, file, now));
    s' := Fleets.Apply(s, Fleets.ExportTransfer(d, file, now));
  }

  lemma FileIsNew(w: World, email: Email, s: Fleet, d: nat, j: nat)
    requires FilesWhole(w, email) && BanksMatch(w, email, s) && d in w.phones && j !in w.files
    ensures Fleets.HasPhone(s, d) && Fleets.BankOf(s, d) == BankAt(w, email, d) && Fleets.TransferFile(j) !in s.banks
  {
    assert Holds(w, email, Fleets.Phone(d)) && !Holds(w, email, Fleets.TransferFile(j));
  }

  /** The mailbox's bank leaves phone `d` in file `j`. */
  lemma HandsOver(w: World, w': World, email: Email, s: Fleet, d: nat, now: int, j: nat, file: File) returns (s': Fleet)
    requires Matches(w, email, s) && d in w.phones && !BankAt(w, email, d).handedOver && j !in w.files
    requires OnlyAt(w, w', email, d, HandedOverAt(BankAt(w, email, d), Some(now)))
    requires w'.files == w.files[j := file] && w'.last == w.last[d := j] && w'.spent == w.spent && w'.issued == w.issued
    requires file.bundle.email == email && SignedIn(email) && file.bundle.bank == Some(BankAt(w, email, d))
    ensures KeyFleetRuns.Leads(s, [Fleets.ExportTransfer(d, Fleets.TransferFile(j), now)], s') && Matches(w', email, s')
  {
    FileIsNew(w, email, s, d, j);
    s' := ExportThere(s, d, Fleets.TransferFile(j), now);
    assert s'.unopened == s.unopened + {Fleets.TransferFile(j)} && LastMatch(w'.last, s'.outstanding);
    FileWritten(w, w', email, s, s', d, HandedOverAt(BankAt(w, email, d), Some(now)), j, file);
    NewFileUnopened(w, w', email, s.unopened, j, file);
  }

  lemma NewFileUnopened(w: World, w': World, email: Email, unopened: set<Fleets.Holder>, j: nat, file: File)
    requires UnopenedMatch(w, email, unopened) && j !in w.files && j !in w.spent && file.bundle.email == email
    requires w'.phones.Keys == w.phones.Keys && w'.files == w.files[j := file] && w'.spent == w.spent
    ensures UnopenedMatch(w', email, unopened + {Fleets.TransferFile(j)})
  {
  }

  lemma FileSpent(w: World, w': World, email: Email, unopened: set<Fleets.Holder>, j: nat)
    requires UnopenedMatch(w, email, unopened)
    requires w'.phones.Keys == w.phones.Keys && w'.files == w.files && w'.spent == w.spent + {j}
    ensures UnopenedMatch(w', email, unopened - {Fleets.TransferFile(j)})
  {
  }

  lemma NoFileSpent(w: World, w': World, email: Email, unopened: set<Fleets.Holder>)
    requires UnopenedMatch(w, email, unopened)
    requires w'.phones.Keys == w.phones.Keys && w'.files == w.files && w'.spent == w.spent
    ensures UnopenedMatch(w', email, unopened)
  {
  }

  lemma ImportRefines(w: World, email: Email, s: Fleet, step: Step) returns (s': Fleet)
    requires Matches(w, email, s) && Possible(w, step) && Careful(w, email, step) && step.ImportInto?
    ensures KeyFleetRuns.Leads(s, Shown(w, email, step), s') && Matches(Apply(w, email, step), email, s')
  {
    var (w', d) := (Apply(w, email, step), step.d);
    var file := if step.source.None? then None else Some(w.files[step.source.value]);
    ImportMeaning(w.phones[d], file, step.code, step.expected, email, w.made[d]);
    PhoneReplaced(w, w', email, d, Importing(w, step).0);
    if Adopts(w, email, step) {
      s' := TakesOver(w, email, s, step);
    } else {
      NoStep(s);
      s' := s;
      assert s.banks[Fleets.Phone(d) := BankAt(w, email, d)] == s.banks;
      BanksStillMatch(w, w', email, s, s, d, BankAt(w, email, d));
      NoFileSpent(w, w', email, s.unopened);
    }
  }

  lemma TakesOver(w: World, email: Email, s: Fleet, step: Step) returns (s': Fleet)
    requires Matches(w, email, s) && Possible(w, step) && Careful(w, email, step) && Adopts(w, email, step)
    requires var b := w.files[step.source.value].bundle;
      b.bank.Some? && OnlyAt(w, Apply(w, email, step), email, step.d, Adopted(b.bank.value))
    ensures KeyFleetRuns.Leads(s, Shown(w, email, step), s') && Matches(Apply(w, email, step), email, s')
  {
    var (w', d, file) := (Apply(w, email, step), step.d, Fleets.TransferFile(step.source.value));
    assert Holds(w, email, file) && Holds(w, email, Fleets.Phone(d));
    OneStep(s, Fleets.ImportTransfer(d, file));
    s' := Fleets.Apply(s, Fleets.ImportTransfer(d, file));
    BanksStillMatch(w, w', email, s, s', d, Adopted(s.banks[file]));
    FileSpent(w, w', email, s.unopened, step.source.value);
  }

  lemma TakesBack(w: World, email: Email, s: Fleet, d: nat) returns (s': Fleet)
    requires Matches(w, email, s) && d in w.phones
    requires BankAt(w, email, d).handedOver ==> d in w.last && w.last[d] !in w.spent
    ensures KeyFleetRuns.Leads(s, [Fleets.Resume(d)], s')
    ensures s'.banks == s.banks[Fleets.Phone(d) := HandedOverAt(BankAt(w, email, d), None)]
    ensures s'.outstanding == s.outstanding && s'.issued == s.issued
    ensures s'.unopened == if BankAt(w, email, d).handedOver then s.unopened - {Fleets.TransferFile(w.last[d])} else s.unopened
  {
    assert Holds(w, email, Fleets.Phone(d));
    if d in w.last { assert Holds(w, email, Fleets.TransferFile(w.last[d])); }
    OneStep(s, Fleets.Resume(d));
    s' := Fleets.Apply(s, Fleets.Resume(d));
  }

  lemma TakeBackRefines(w: World, email: Email, s: Fleet, step: Step) returns (s': Fleet)
    requires Matches(w, email, s) && Possible(w, step) && Careful(w, email, step) && step.TakeBack?
    ensures KeyFleetRuns.Leads(s, Shown(w, email, step), s') && Matches(Apply(w, email, step), email, s')
  {
    var (w', d) := (Apply(w, email, step), step.d);
    var bank := HandedOverAt(BankAt(w, email, d), None);
    PhoneReplaced(w, w', email, d, w'.phones[d]);
    s' := TakesBack(w, email, s, d);
    BanksStillMatch(w, w', email, s, s', d, bank);
    if BankAt(w, email, d).handedOver {
      FileSpent(w, w', email, s.unopened, w.last[d]);
    } else {
      NoFileSpent(w, w', email, s.unopened);
    }
  }

  lemma SendRefines(w: World, email: Email, s: Fleet, step: Step) returns (s': Fleet)
    requires Matches(w, email, s) && Possible(w, step) && step.Send?
    ensures KeyFleetRuns.Leads(s, Shown(w, email, step), s') && Matches(Apply(w, email, step), email, s')
  {
    var (w', d) := (Apply(w, email, step), step.d);
    var bank := BankAt(w, email, d);
    assert Holds(w, email, Fleets.Phone(d));
    PhoneReplaced(w, w', email, d, w'.phones[d]);
    OneStep(s, Fleets.IssueKeys(d, step.number));
    s' := Fleets.Apply(s, Fleets.IssueKeys(d, step.number));
    BanksStillMatch(w, w', email, s, s', d, if Enc(bank, step.number).Ok? then Enc(bank, step.number).value.0 else bank);
    NoFileSpent(w, w', email, s.unopened);
  }

  /** Every step, refused or not and of whatever mailbox, is a careful step among the banks or none. */
  lemma StepRefines(w: World, email: Email, s: Fleet, step: Step) returns (s': Fleet)
    requires Matches(w, email, s) && Possible(w, step) && Careful(w, email, step)
    ensures KeyFleetRuns.Leads(s, Shown(w, email, step), s') && Matches(Apply(w, email, step), email, s')
  {
    match step
    case ExportFrom(_, _, _, _, _, _, _) => s' := ExportRefines(w, email, s, step);
    case ImportInto(_, _, _, _) => s' := ImportRefines(w, email, s, step);
    case TakeBack(_) => s' := TakeBackRefines(w, email, s, step);
    case Send(_, _) => s' := SendRefines(w, email, s, step);
  }

  // ------------------------------------------------------------------- runs --

  ghost predicate Run(w: World, email: Email, run: seq<Step>)
    decreases |run|
  {
    run != [] ==> Possible(w, run[0]) && Careful(w, email, run[0]) && Run(Apply(w, email, run[0]), email, run[1..])
  }

  ghost function After(w: World, email: Email, run: seq<Step>): (w': World)
    requires Run(w, email, run)
    decreases |run|
  {
    if run == [] then w else After(Apply(w, email, run[0]), email, run[1..])
  }

  /** Phones as installed: each has, or will make, its own new bank for the mailbox. */
  ghost predicate Installed(w: World, email: Email) {
    && w.phones.Keys <= w.made.Keys && w.files == map[] && w.last == map[] && w.spent == {} && w.issued == []
    && (forall d | d in w.phones :: !BankAt(w, email, d).handedOver && DistinctIds(BankAt(w, email, d).keys))
    && (forall d, e | d in w.phones && e in w.phones && d != e :: BankAt(w, email, d).sae != BankAt(w, email, e).sae)
  }

  lemma InstalledMatches(w: World, email: Email) returns (s: Fleet)
    requires Installed(w, email)
    ensures Matches(w, email, s) && Fleets.Initial(s)
  {
    var banks := map d | d in w.phones :: Fleets.Phone(d) := BankAt(w, email, d);
    var ids := set d, k | d in w.phones && k in BankAt(w, email, d).keys :: k.id;
    var saes := set d | d in w.phones :: BankAt(w, email, d).sae;
    s := Fleets.Fleet(banks, {}, map[], {}, map[], map[], map[], [], ids, saes);
  }

  lemma {:induction false} RunRefines(w: World, email: Email, s: Fleet, run: seq<Step>) returns (s': Fleet)
    requires Matches(w, email, s) && Fleets.Inv(s) && Run(w, email, run)
    ensures Matches(After(w, email, run), email, s') && Fleets.Inv(s')
    decreases |run|
  {
    if run == [] {
      s' := s;
    } else {
      var next := StepRefines(w, email, s, run[0]);
      KeyFleetSafety.RunPreserves(s, Shown(w, email, run[0]));
      s' := RunRefines(Apply(w, email, run[0]), email, next, run[1..]);
    }
  }

  /** Phone `d` can issue this key under this SAE id. */
  predicate MayIssue(w: World, email: Email, d: nat, id: KeyId, sae: Sae) {
    && d in w.phones && d in w.made
    && var bank := BankAt(w, email, d);
    !bank.handedOver && bank.sae == sae && id in FreshIds(bank.keys)
  }

  /**
   * Whatever the phones export, import, take back and send, refused or not:
   * one key under one SAE id can be issued on one phone at most, and no AES
   * key is derived twice.
   */
  lemma OnePhoneSends(w: World, email: Email, run: seq<Step>)
    requires Installed(w, email) && Run(w, email, run)
    ensures var t := After(w, email, run);
      && (forall d, e, id, sae :: MayIssue(t, email, d, id, sae) && MayIssue(t, email, e, id, sae) ==> d == e)
      && (forall i, j :: 0 <= i < j < |t.issued| ==> t.issued[i].Aes() != t.issued[j].Aes())
  {
    var s := InstalledMatches(w, email);
    Fleets.InitialInv(s);
    var s' := RunRefines(w, email, s, run);
    var t := After(w, email, run);
    forall d, e, id, sae | MayIssue(t, email, d, id, sae) && MayIssue(t, email, e, id, sae) ensures d == e {
      assert Fleets.MaySend(s', Fleets.Phone(d), id, sae) && Fleets.MaySend(s', Fleets.Phone(e), id, sae);
    }
  }
}
