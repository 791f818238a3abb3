/**
 * How long an id stays good (app/src/mail/imap.ts:250-255): followed through
 * at most 16 moves whose new UIDs the server told, it names the place where
 * its message is.
 */
module ImapTracking {
  import opened Common
  import opened ImapIds
  import opened ImapMoves

  /** The new id the client notes at this step, for a move done. */
  function NextOf(s: State, step: Step): (next: Option<Id>) {
    if s.progress.Idle? then None
    else
      match step
      case Move(target, told) =>
        if s.progress.Located? && s.canMove && target in s.boxes && Present(s, s.progress.at) && !told.Nothing?
        then Some(if told.NewUid? then NextId(s, target) else Id(0, 0, target)) else None
      case FlagDeleted => if s.progress.Copied? && !s.uidPlus then Some(s.progress.next) else None
      case ExpungeOriginal => if s.progress.Flagged? then Some(s.progress.next) else None
      case _ => None
  }

  /** This step makes the client note a move of `m`. */
  predicate Notes(s: State, step: Step, m: Message) {
    NextOf(s, step).Some? && s.progress.at in s.bound && s.bound[s.progress.at] == m
  }

  ghost function NotesIn(s: State, run: seq<Step>, m: Message): (n: nat)
    requires Follows(s, run)
    decreases |run|
  {
    if run == [] then 0 else (if Notes(s, run[0], m) then 1 else 0) + NotesIn(Apply(s, run[0]), run[1..], m)
  }

  /** From every id of `m`, at most `hops` moves lead to where no move goes on. */
  ghost predicate AllEnd(bound: map<Id, Message>, moved: map<Id, Id>, m: Message, hops: nat) {
    forall id | id in bound && bound[id] == m :: Follow(moved, id, hops) !in moved
  }

  lemma {:induction false} MoreHops(moved: map<Id, Id>, id: Id, hops: nat, more: nat)
    requires Follow(moved, id, hops) !in moved && hops <= more
    ensures Follow(moved, id, more) == Follow(moved, id, hops)
    decreases hops
  {
    if hops > 0 && id in moved {
      MoreHops(moved, moved[id], hops - 1, more - 1);
    }
  }

  /** A new move at the end of a chain makes that chain one longer, and no other. */
  lemma {:induction false} ChainGrows(moved: map<Id, Id>, id: Id, hops: nat, at: Id, next: Id)
    requires Follow(moved, id, hops) !in moved && at !in moved && next !in moved && next != at
    ensures Follow(moved[at := next], id, hops + 1) == if Follow(moved, id, hops) == at then next else Follow(moved, id, hops)
    decreases hops
  {
    var moved' := moved[at := next];
    if id in moved {
      ChainGrows(moved, moved[id], hops - 1, at, next);
      assert Follow(moved', id, hops + 1) == Follow(moved', moved[id], hops);
    } else if id == at {
      assert Follow(moved', id, hops + 1) == Follow(moved', next, hops) == next;
    }
  }

  lemma MoveNotes(s: State, target: string, told: Told)
    requires s.progress.Located? && s.progress.at == Current(s, s.progress.id)
    ensures var next := NextOf(s, Move(target, told));
      Moved(s, target, told).moved == if next.Some? then s.moved[s.progress.at := next.value] else s.moved
  {
    if target in s.boxes && Present(s, s.progress.at) {
      DoneMovesNothing(s, target);
    }
  }

  lemma DoneMovesNothing(s: State, target: string)
    requires s.progress.Located? && target in s.boxes && Present(s, s.progress.at)
    ensures Done(s, target).moved == s.moved && Done(s, target).progress == s.progress
  {
  }

  /** What one step does to the moves noted: nothing, or one more at the end of the chain it followed. */
  lemma WhatIsNoted(s: State, step: Step)
    requires Enabled(s, step) && (!s.progress.Idle? ==> s.progress.at == Current(s, s.progress.id))
    ensures var next := NextOf(s, step);
      Apply(s, step).moved == if next.Some? then s.moved[s.progress.at := next.value] else s.moved
  {
    match step
    case Move(target, told) => MoveNotes(s, target, told);
    case FlagDeleted => CleanUpNotes(s, step);
    case ExpungeOriginal => CleanUpNotes(s, step);
    case List(folder) => SelectedOnly(s, folder);
    case Locate(id) => LocatedOnly(s, id);
    case _ =>
  }

  lemma CleanUpNotes(s: State, step: Step)
    requires Enabled(s, step) && (step.FlagDeleted? || step.ExpungeOriginal?)
    requires s.progress.at == Current(s, s.progress.id)
    ensures var next := NextOf(s, step);
      Apply(s, step).moved == if next.Some? then s.moved[s.progress.at := next.value] else s.moved
  {
    var at := s.progress.at;
    assert Acted(s, s.progress.id, at).moved == s.moved;
  }

  /** The id a move was given, and the one about to be noted, lead nowhere yet. */
  ghost predicate NextIsEnd(s: State) {
    s.progress.Copied? || s.progress.Flagged? ==> s.progress.next !in s.moved && s.progress.next != s.progress.at
  }

  lemma FreshIsEnd(s: State, id: Id)
    requires Inv(s) && (id !in s.bound || id.validity == 0)
    ensures id !in s.moved
  {
    assert id in s.moved ==> LeadsOn(s.bound, id, s.moved[id]);
  }

  lemma NextIdIsNew(s: State, folder: string)
    requires Inv(s) && folder in s.boxes
    ensures NextId(s, folder) !in s.bound
  {
  }

  lemma NextStaysEnd(s: State, step: Step)
    requires Inv(s) && Enabled(s, step) && NextIsEnd(s)
    ensures NextIsEnd(Apply(s, step))
  {
    match step
    case Move(target, told) => MovedNextIsEnd(s, target, told);
    case FlagDeleted => CleanUpNotes(s, step);
    case ExpungeOriginal => CleanUpNotes(s, step);
    case List(folder) => SelectedOnly(s, folder);
    case Locate(id) => LocatedOnly(s, id);
    case _ =>
  }

  lemma MovedNextIsEnd(s: State, target: string, told: Told)
    requires Inv(s) && s.progress.Located?
    ensures NextIsEnd(Moved(s, target, told))
  {
    MoveNotes(s, target, told);
    AtIsRight(s);
    FreshIsEnd(s, Id(0, 0, target));
    if target in s.boxes {
      NextIdIsNew(s, target);
      FreshIsEnd(s, NextId(s, target));
    }
  }

  lemma MovedBounds(s: State, target: string, told: Told, id: Id)
    requires Inv(s) && s.progress.Located? && id in s.bound
    ensures var s' := Moved(s, target, told);
      id in s'.bound && s'.bound[id] == s.bound[id]
  {
    if target in s.boxes {
      NextIdIsNew(s, target);
    }
  }

  lemma BoundGrows(s: State, step: Step)
    requires Inv(s) && Enabled(s, step)
    ensures forall id | id in s.bound :: id in Apply(s, step).bound && Apply(s, step).bound[id] == s.bound[id]
  {
    forall id | id in s.bound ensures id in Apply(s, step).bound && Apply(s, step).bound[id] == s.bound[id] {
      match step
      case Move(target, told) => MovedBounds(s, target, told, id);
      case Arrive(folder, _) => NextIdIsNew(s, folder);
      case Rebuild(folder, box) => assert id in BoundBy(folder, box) ==> id.folder == folder && id.validity == box.validity;
      case List(folder) => SelectedOnly(s, folder);
      case Locate(x) => LocatedOnly(s, x);
      case _ =>
    }
  }

  lemma StepEnds(s: State, step: Step, m: Message, hops: nat)
    requires Inv(s) && Enabled(s, step) && NextIsEnd(s) && AllEnd(s.bound, s.moved, m, hops) && hops <= MAX_HOPS
    ensures var s' := Apply(s, step);
      AllEnd(s'.bound, s'.moved, m, hops + if Notes(s, step, m) then 1 else 0)
  {
    var s' := Apply(s, step);
    var hops' := hops + if Notes(s, step, m) then 1 else 0;
    BoundGrows(s, step);
    WhatIsNoted(s, step);
    if NextOf(s, step).Some? {
      NotedAtEnd(s, step, m, hops);
    }
    forall id | id in s'.bound && s'.bound[id] == m ensures Follow(s'.moved, id, hops') !in s'.moved {
      if id !in s.bound {
        FreshIsEnd(s, id);
        NewIsEnd(s, step, id);
        FollowNothing(s'.moved, id, hops');
      }
    }
  }

  /** An id bound by this step is not the start of a move after it. */
  lemma NewIsEnd(s: State, step: Step, id: Id)
    requires Inv(s) && Enabled(s, step) && id !in s.bound
    ensures id !in Apply(s, step).moved
  {
    WhatIsNoted(s, step);
    FreshIsEnd(s, id);
    if !s.progress.Idle? {
      AtIsRight(s);
    }
  }

  lemma FollowNothing(moved: map<Id, Id>, id: Id, hops: nat)
    requires id !in moved
    ensures Follow(moved, id, hops) == id
  {
  }

  lemma NotedAtEnd(s: State, step: Step, m: Message, hops: nat)
    requires Inv(s) && Enabled(s, step) && NextIsEnd(s) && AllEnd(s.bound, s.moved, m, hops) && hops <= MAX_HOPS
    requires NextOf(s, step).Some?
    ensures var moved' := s.moved[s.progress.at := NextOf(s, step).value];
      AllEnd(s.bound, moved', m, hops + if Notes(s, step, m) then 1 else 0)
  {
    var (at, next) := (s.progress.at, NextOf(s, step).value);
    AtIsRight(s);
    NextIsFree(s, step);
    if s.bound[at] == m {
      OperationAtEnd(s, m, hops);
    }
    forall id | id in s.bound && s.bound[id] == m
      ensures Follow(s.moved[at := next], id, hops + if Notes(s, step, m) then 1 else 0) !in s.moved[at := next]
    {
      if s.bound[at] == m {
        ChainGrows(s.moved, id, hops, at, next);
      } else {
        OtherChain(s, id, hops, at, next);
      }
    }
  }

  /** What is noted next is not itself the start of a move. */
  lemma NextIsFree(s: State, step: Step)
    requires Inv(s) && Enabled(s, step) && NextIsEnd(s) && NextOf(s, step).Some?
    ensures NextOf(s, step).value !in s.moved && NextOf(s, step).value != s.progress.at
  {
    AtIsRight(s);
    if step.Move? {
      FreshIsEnd(s, Id(0, 0, step.target));
      NextIdIsNew(s, step.target);
      FreshIsEnd(s, NextId(s, step.target));
    }
  }

  /** The chains of other messages do not meet this one. */
  lemma {:induction false} OtherChain(s: State, id: Id, hops: nat, at: Id, next: Id)
    requires Inv(s) && at in s.bound && (id in s.bound ==> s.bound[id] != s.bound[at]) && (id !in s.bound ==> id.validity == 0)
    requires Follow(s.moved, id, hops) !in s.moved
    ensures Follow(s.moved[at := next], id, hops) == Follow(s.moved, id, hops) != at
    decreases hops
  {
    assert id in s.moved ==> LeadsOn(s.bound, id, s.moved[id]);
    assert id != at;
    if hops > 0 && id in s.moved {
      if s.moved[id] in s.bound {
        assert s.moved[id].validity > 0;
      }
      OtherChain(s, s.moved[id], hops - 1, at, next);
    }
  }

  lemma OperationAtEnd(s: State, m: Message, hops: nat)
    requires Inv(s) && !s.progress.Idle? && AllEnd(s.bound, s.moved, m, hops) && hops <= MAX_HOPS
    requires s.progress.at in s.bound && s.bound[s.progress.at] == m
    ensures s.progress.at !in s.moved
  {
    AtIsRight(s);
    MoreHops(s.moved, s.progress.id, hops, MAX_HOPS);
  }

  /** What holds of `s` while every chain of `m` ends within `hops` moves. */
  ghost predicate Ends(s: State, m: Message, hops: nat) {
    Inv(s) && NextIsEnd(s) && AllEnd(s.bound, s.moved, m, hops)
  }

  lemma StaysEnding(s: State, step: Step, s': State, m: Message, hops: nat, hops': nat)
    requires Ends(s, m, hops) && Enabled(s, step) && hops <= MAX_HOPS
    requires s' == Apply(s, step) && hops' == hops + if Notes(s, step, m) then 1 else 0
    ensures Ends(s', m, hops')
  {
    StepKeeps(s, step);
    NextStaysEnd(s, step);
    StepEnds(s, step, m, hops);
  }

  lemma FirstStep(s: State, run: seq<Step>, m: Message, hops: nat) returns (s': State, hops': nat)
    requires run != [] && Follows(s, run)
    ensures Enabled(s, run[0]) && s' == Apply(s, run[0]) && hops' == hops + (if Notes(s, run[0], m) then 1 else 0)
    ensures Follows(s', run[1..]) && hops' + NotesIn(s', run[1..], m) == hops + NotesIn(s, run, m)
    ensures After(s', run[1..]) == After(s, run)
  {
    s' := Apply(s, run[0]);
    hops' := hops + if Notes(s, run[0], m) then 1 else 0;
  }

  lemma {:induction false} RunEnds(s: State, run: seq<Step>, m: Message, hops: nat) returns (t: State, n: nat)
    requires Follows(s, run) && Ends(s, m, hops) && hops + NotesIn(s, run, m) <= MAX_HOPS
    ensures t == After(s, run) && n == hops + NotesIn(s, run, m) && Ends(t, m, n)
    decreases |run|
  {
    t, n := s, hops;
    if run != [] {
      var s', hops' := FirstStep(s, run, m, hops);
      StaysEnding(s, run[0], s', m, hops, hops');
      t, n := RunEnds(s', run[1..], m, hops');
    }
  }

  // ------------------------------------------------- where the message is --

  predicate UnderWay(s: State, at: Id) {
    (s.progress.Copied? || s.progress.Flagged?) && s.progress.at == at
  }

  /** Nobody else takes away the message at `at`, or its copy being made; the server tells where it moves it. */
  predicate UndisturbedAt(s: State, step: Step, at: Id) {
    match step
    case Expunge(folder, uid) =>
      && !(folder == at.folder && uid == at.uid)
      && (UnderWay(s, at) ==> !(folder == s.progress.next.folder && uid == s.progress.next.uid))
    case Rebuild(folder, _) => folder != at.folder && (UnderWay(s, at) ==> folder != s.progress.next.folder)
    case Remove(folder) => folder != at.folder && (UnderWay(s, at) ==> folder != s.progress.next.folder)
    case Move(_, told) => s.progress.Located? && s.progress.at == at ==> told.NewUid?
    case _ => true
  }

  predicate Undisturbed(s: State, step: Step, id: Id) {
    UndisturbedAt(s, step, Current(s, id))
  }

  ghost predicate UndisturbedRun(s: State, run: seq<Step>, id: Id)
    requires Follows(s, run)
    decreases |run|
  {
    run != [] ==> Undisturbed(s, run[0], id) && UndisturbedRun(Apply(s, run[0]), run[1..], id)
  }

  /** The message is at `at`, and so is the copy that will take its place. */
  ghost predicate FoundAt(s: State, at: Id) {
    Present(s, at) && (UnderWay(s, at) ==> Present(s, s.progress.next))
  }

  ghost predicate Found(s: State, id: Id) {
    FoundAt(s, Current(s, id))
  }

  /** Where the message at `at` is after this step. */
  function PlaceAfter(s: State, step: Step, at: Id): (at': Id) {
    if NextOf(s, step).Some? && s.progress.at == at then NextOf(s, step).value else at
  }

  /** The id leads on to the new place if that is what was noted, and else where it led. */
  lemma CurrentAfter(s: State, step: Step, id: Id, hops: nat)
    requires Inv(s) && Enabled(s, step) && NextIsEnd(s) && id in s.bound
    requires AllEnd(s.bound, s.moved, s.bound[id], hops) && hops + (if Notes(s, step, s.bound[id]) then 1 else 0) <= MAX_HOPS
    ensures Current(Apply(s, step), id) == PlaceAfter(s, step, Current(s, id))
  {
    WhatIsNoted(s, step);
    if NextOf(s, step).Some? {
      var (at, next) := (s.progress.at, NextOf(s, step).value);
      AtIsRight(s);
      NextIsFree(s, step);
      MoreHops(s.moved, id, hops, MAX_HOPS);
      if s.bound[at] == s.bound[id] {
        OperationAtEnd(s, s.bound[id], hops);
        ChainGrows(s.moved, id, hops, at, next);
        MoreHops(s.moved[at := next], id, hops + 1, MAX_HOPS);
      } else {
        OtherChain(s, id, MAX_HOPS, at, next);
      }
    }
  }

  lemma AddedStays(s: State, folder: string, message: Message, x: Id)
    requires folder in s.boxes
    ensures Present(s, x) ==> Present(Added(s, folder, message), x)
    ensures Present(Added(s, folder, message), NextId(s, folder))
  {
  }

  lemma RemovedStays(s: State, folder: string, uid: nat, x: Id)
    requires folder in s.boxes
    ensures Present(Removed(s, folder, uid), x) <==> Present(s, x) && !(x.folder == folder && x.uid == uid)
  {
  }

  lemma SameFolderSameId(s: State, a: Id, b: Id)
    requires Present(s, a) && Present(s, b) && a != b
    ensures !(a.folder == b.folder && a.uid == b.uid)
  {
  }

  lemma ActedPlaces(s: State, id: Id, at: Id)
    ensures var s' := Acted(s, id, at);
      s'.boxes == s.boxes && s'.progress == s.progress && s'.moved == s.moved && s'.canMove == s.canMove && s'.uidPlus == s.uidPlus
  {
  }

  lemma DoneStays(s: State, target: string, x: Id)
    requires s.progress.Located? && target in s.boxes && Present(s, s.progress.at)
    ensures Present(s, x) && x != s.progress.at ==> Present(Done(s, target), x)
    ensures !s.canMove && Present(s, x) ==> Present(Done(s, target), x)
    ensures target != s.progress.at.folder ==> Present(Done(s, target), NextId(s, target))
  {
    var at := s.progress.at;
    var s0 := Acted(s, s.progress.id, at);
    ActedPlaces(s, s.progress.id, at);
    var s1 := Added(s0, target, s.boxes[at.folder].messages[at.uid]);
    AddedStays(s0, target, s.boxes[at.folder].messages[at.uid], x);
    RemovedStays(s1, at.folder, at.uid, x);
    RemovedStays(s1, at.folder, at.uid, NextId(s, target));
  }

  /** A move of the message, or of another: it is still there, or where the client was told. */
  lemma MoveFinds(s: State, target: string, told: Told, at: Id)
    requires Enabled(s, Move(target, told)) && FoundAt(s, at) && UndisturbedAt(s, Move(target, told), at)
    ensures FoundAt(Moved(s, target, told), PlaceAfter(s, Move(target, told), at))
  {
    if target in s.boxes && Present(s, s.progress.at) {
      DoneStays(s, target, at);
    }
  }

  lemma CleanUpFinds(s: State, step: Step, at: Id)
    requires Enabled(s, step) && FoundAt(s, at) && (step.FlagDeleted? || step.ExpungeOriginal?)
    requires s.progress.next != s.progress.at
    ensures FoundAt(Apply(s, step), PlaceAfter(s, step, at))
  {
    var (id, x) := (s.progress.id, s.progress.at);
    ActedPlaces(s, id, x);
    if step.ExpungeOriginal? && Present(s, x) {
      RemovedStays(Acted(s, id, x), x.folder, x.uid, PlaceAfter(s, step, at));
      SameFolderSameId(s, x, PlaceAfter(s, step, at));
    }
  }

  lemma OthersFind(s: State, step: Step, at: Id)
    requires Enabled(s, step) && FoundAt(s, at) && UndisturbedAt(s, step, at)
    requires step.Arrive? || step.Expunge? || step.Rebuild? || step.Remove?
    ensures FoundAt(Apply(s, step), at)
  {
    match step
    case Arrive(folder, message) =>
      AddedStays(s, folder, message, at);
      if UnderWay(s, at) { AddedStays(s, folder, message, s.progress.next); }
    case Expunge(folder, uid) =>
      RemovedStays(s, folder, uid, at);
      if UnderWay(s, at) { RemovedStays(s, folder, uid, s.progress.next); }
    case _ =>
  }

  /** Steps that change no folder and note nothing. */
  lemma ElsewhereFinds(s: State, step: Step, at: Id)
    requires Enabled(s, step) && FoundAt(s, at) && (step.Drop? || step.List? || step.Locate? || step.Store? || step.Finish?)
    ensures FoundAt(Apply(s, step), at)
  {
    match step
    case List(folder) => SelectedOnly(s, folder);
    case Locate(x) => LocatedOnly(s, x);
    case Store => ActedPlaces(s, s.progress.id, s.progress.at);
    case _ =>
  }

  lemma SelectedOnly(s: State, folder: string)
    ensures var s' := Select(s, folder);
      s'.boxes == s.boxes && s'.moved == s.moved && s'.progress == s.progress && s'.bound == s.bound
  {
    assert Select(s, folder) == s.(session := Select(s, folder).session);
  }

  lemma LocatedOnly(s: State, id: Id)
    ensures var s' := Located'(s, id);
      s'.boxes == s.boxes && s'.moved == s.moved && s'.bound == s.bound && (s'.progress == s.progress || s'.progress.Located?)
  {
    SelectedOnly(s, Current(s, id).folder);
  }

  lemma PlaceKept(s: State, step: Step, at: Id)
    requires Enabled(s, step) && NextIsEnd(s) && FoundAt(s, at) && UndisturbedAt(s, step, at)
    ensures FoundAt(Apply(s, step), PlaceAfter(s, step, at))
  {
    if step.Move? {
      MoveFinds(s, step.target, step.told, at);
    } else if step.FlagDeleted? || step.ExpungeOriginal? {
      CleanUpFinds(s, step, at);
    } else if step.Arrive? || step.Expunge? || step.Rebuild? || step.Remove? {
      OthersFind(s, step, at);
    } else {
      ElsewhereFinds(s, step, at);
    }
  }

  lemma StepFinds(s: State, step: Step, id: Id, hops: nat)
    requires Inv(s) && Enabled(s, step) && NextIsEnd(s) && id in s.bound && Found(s, id) && Undisturbed(s, step, id)
    requires AllEnd(s.bound, s.moved, s.bound[id], hops) && hops + (if Notes(s, step, s.bound[id]) then 1 else 0) <= MAX_HOPS
    ensures Found(Apply(s, step), id)
  {
    CurrentAfter(s, step, id, hops);
    PlaceKept(s, step, Current(s, id));
  }

  /** What holds of `s` while `id` leads to its message `m`, over chains of at most `hops` moves. */
  ghost predicate OnTrack(s: State, id: Id, m: Message, hops: nat) {
    Ends(s, m, hops) && Leads(s, id, m)
  }

  ghost predicate Leads(s: State, id: Id, m: Message) {
    id in s.bound && s.bound[id] == m && Found(s, id)
  }

  lemma StaysLeading(s: State, step: Step, s': State, id: Id, m: Message, hops: nat)
    requires Ends(s, m, hops) && Leads(s, id, m) && Enabled(s, step) && Undisturbed(s, step, id) && s' == Apply(s, step)
    requires hops + (if Notes(s, step, m) then 1 else 0) <= MAX_HOPS
    ensures Leads(s', id, m)
  {
    StepFinds(s, step, id, hops);
    BoundGrows(s, step);
  }

  lemma {:induction false} RunFinds(s: State, run: seq<Step>, id: Id, m: Message, hops: nat) returns (t: State, n: nat)
    requires Follows(s, run) && UndisturbedRun(s, run, id) && OnTrack(s, id, m, hops) && hops + NotesIn(s, run, m) <= MAX_HOPS
    ensures t == After(s, run) && n == hops + NotesIn(s, run, m) && OnTrack(t, id, m, n)
    decreases |run|
  {
    t, n := s, hops;
    if run != [] {
      var s', hops' := FirstFinds(s, run, id, m, hops);
      t, n := RunFinds(s', run[1..], id, m, hops');
    }
  }

  lemma FirstFinds(s: State, run: seq<Step>, id: Id, m: Message, hops: nat) returns (s': State, hops': nat)
    requires run != [] && Follows(s, run) && UndisturbedRun(s, run, id) && OnTrack(s, id, m, hops) && hops + NotesIn(s, run, m) <= MAX_HOPS
    ensures Follows(s', run[1..]) && UndisturbedRun(s', run[1..], id) && OnTrack(s', id, m, hops')
    ensures hops' + NotesIn(s', run[1..], m) == hops + NotesIn(s, run, m)
    ensures After(s', run[1..]) == After(s, run)
  {
    s', hops' := Unrolled(s, run, id, m, hops);
    OneFinds(s, run[0], s', id, m, hops, hops');
  }

  lemma OneFinds(s: State, step: Step, s': State, id: Id, m: Message, hops: nat, hops': nat)
    requires OnTrack(s, id, m, hops) && Enabled(s, step) && Undisturbed(s, step, id)
    requires s' == Apply(s, step) && hops' == hops + (if Notes(s, step, m) then 1 else 0) && hops' <= MAX_HOPS
    ensures OnTrack(s', id, m, hops')
  {
    StaysEnding(s, step, s', m, hops, hops');
    StaysLeading(s, step, s', id, m, hops);
  }

  lemma Unrolled(s: State, run: seq<Step>, id: Id, m: Message, hops: nat) returns (s': State, hops': nat)
    requires run != [] && Follows(s, run) && UndisturbedRun(s, run, id)
    ensures Enabled(s, run[0]) && s' == Apply(s, run[0]) && hops' == hops + (if Notes(s, run[0], m) then 1 else 0) && Undisturbed(s, run[0], id)
    ensures Follows(s', run[1..]) && UndisturbedRun(s', run[1..], id)
    ensures hops' + NotesIn(s', run[1..], m) == hops + NotesIn(s, run, m)
    ensures After(s', run[1..]) == After(s, run)
  {
    s', hops' := FirstStep(s, run, m, hops);
  }

  /**
   * From the moment an id leads to its message, nobody else touching that
   * message and the server telling where it goes: while the client has noted
   * at most 16 moves of it in all, the id leads to where it is.
   */
  lemma CurrentIsWhereItIs(canMove: bool, uidPlus: bool, before: seq<Step>, after: seq<Step>, id: Id)
    requires Follows(Initial(canMove, uidPlus), before)
    requires var s := After(Initial(canMove, uidPlus), before);
      id in s.rows && s.progress.Idle? && Present(s, Current(s, id)) && Follows(s, after) && UndisturbedRun(s, after, id)
      && NotesIn(Initial(canMove, uidPlus), before, s.rows[id]) + NotesIn(s, after, s.rows[id]) <= MAX_HOPS
    ensures var s := After(Initial(canMove, uidPlus), before);
      var t := After(s, after);
      Present(t, Current(t, id)) && t.boxes[Current(t, id).folder].messages[Current(t, id).uid] == s.rows[id]
  {
    var start := Initial(canMove, uidPlus);
    var s := After(start, before);
    RunKeeps(start, before);
    var m := s.rows[id];
    var s0, n0 := RunEnds(start, before, m, 0);
    var t, n := RunFinds(s, after, id, m, NotesIn(start, before, m));
    FollowKeeps(t.bound, t.moved, id, MAX_HOPS);
  }
}
