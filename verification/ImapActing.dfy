/**
 * That commands do what they are for (app/src/mail/imap.ts:257-267, 371-439):
 * where an id's message is in place and the session is not stale, a change of
 * flags reaches it and a move takes it, and only it, to where the id then
 * leads.
 */
module ImapActing {
  import opened Common
  import opened ImapIds
  import opened ImapMoves
  import opened ImapTracking

  /** The folder is not selected, or was not rebuilt since it was. */
  predicate NotStale(s: State, folder: string) {
    s.session.Some? && s.session.value.folder == folder ==>
      folder in s.boxes && s.boxes[folder].validity == s.session.value.validity
  }

  /** Where `id` leads there is its message, and the client can tell. */
  ghost predicate Reachable(s: State, id: Id) {
    s.progress.Idle? && id in s.rows && Present(s, Current(s, id)) && NotStale(s, Current(s, id).folder)
  }

  /** An operation on `id` finds its message, and changes nothing yet but the folder selected. */
  lemma LocateFinds(s: State, id: Id)
    requires Inv(s) && Reachable(s, id)
    ensures Enabled(s, Locate(id))
    ensures var s1 := Apply(s, Locate(id));
      && s1 == s.(session := s1.session, progress := Located(id, Current(s, id)))
      && Inv(s1) && Present(s1, Current(s, id))
  {
    StepKeeps(s, Locate(id));
  }

  /** A change of flags by an id reaches the message the id was handed out for, once. */
  lemma StoreActs(canMove: bool, uidPlus: bool, run: seq<Step>, id: Id)
    requires Follows(Initial(canMove, uidPlus), run) && Reachable(After(Initial(canMove, uidPlus), run), id)
    ensures var s := After(Initial(canMove, uidPlus), run);
      && Enabled(s, Locate(id)) && Enabled(Apply(s, Locate(id)), Store)
      && var t := Apply(Apply(s, Locate(id)), Store);
      t.acted == s.acted + [(id, s.rows[id])] && t.boxes == s.boxes && t.moved == s.moved
  {
    RunKeeps(Initial(canMove, uidPlus), run);
    var s := After(Initial(canMove, uidPlus), run);
    LocateFinds(s, id);
    AtIsRight(Apply(s, Locate(id)));
  }

  /** Exactly the ids whose place was not told, or whose folder was rebuilt or is gone, are refused. */
  lemma LocateRefuses(s: State, id: Id)
    requires s.progress.Idle? && id in s.rows
    ensures var at := Current(s, id);
      Apply(s, Locate(id)).progress.Idle? <==>
        || at.validity == 0
        || (if s.session.Some? && s.session.value.folder == at.folder then s.session.value.validity != at.validity
            else at.folder !in s.boxes || s.boxes[at.folder].validity != at.validity)
  {
    var at := Current(s, id);
    var s1 := Select(s, at.folder);
    SelectedOnly(s, at.folder);
    assert Apply(s, Locate(id)) == Located'(s, id);
    assert s1.session == Some(Session(at.folder, at.validity)) <==> Selects(s, at);
  }

  predicate Selects(s: State, at: Id) {
    if s.session.Some? && s.session.value.folder == at.folder then s.session.value.validity == at.validity
    else at.folder in s.boxes && s.boxes[at.folder].validity == at.validity
  }

  // ------------------------------------------------------------- the move --

  /** The commands of one move. */
  function MoveRun(s: State, id: Id, target: string): (run: seq<Step>) {
    [Locate(id)] + Commands(s, target)
  }

  function Commands(s: State, target: string): (run: seq<Step>) {
    [Move(target, NewUid)] + if s.canMove then [] else [FlagDeleted] + if s.uidPlus then [ExpungeOriginal] else []
  }

  /** The message is in `target` now, under `to`, and taken from `at` where the server can do that; all others are where they were. */
  ghost predicate MovedTo(s: State, t: State, at: Id, to: Id, target: string) {
    && to.folder == target && !Present(s, to)
    && (forall x :: Present(t, x) <==> x == to || (Present(s, x) && !(x == at && (s.canMove || s.uidPlus))))
    && (forall x | Present(s, x) && Present(t, x) :: MessageAt(t, x) == MessageAt(s, x))
    && Present(t, to) && Present(s, at) && MessageAt(t, to) == MessageAt(s, at)
  }

  function MessageAt(s: State, x: Id): (m: Message)
    requires Present(s, x)
  {
    s.boxes[x.folder].messages[x.uid]
  }

  /** What the server did is a copy under the next UID, and the original gone if it can move. */
  lemma DoneMoves(s: State, target: string)
    requires Inv(s) && s.progress.Located? && target in s.boxes && target != s.progress.at.folder && Present(s, s.progress.at)
    ensures var (t, at, to) := (Done(s, target), s.progress.at, NextId(s, target));
      && !Present(s, to) && to.folder == target
      && (forall x :: Present(t, x) <==> x == to || (Present(s, x) && !(x == at && s.canMove)))
      && (forall x | Present(s, x) && Present(t, x) :: MessageAt(t, x) == MessageAt(s, x))
      && Present(t, to) && MessageAt(t, to) == MessageAt(s, at)
  {
  }

  /** The client's state once the server did the move: the id noted, or the original still to be taken away. */
  lemma MoveCommand(s: State, target: string)
    requires s.progress.Located? && target in s.boxes && target != s.progress.at.folder && target != "" && Present(s, s.progress.at)
    ensures Enabled(s, Move(target, NewUid))
    ensures var (t, next) := (Apply(s, Move(target, NewUid)), NextId(s, target));
      && t == (if s.canMove then Recorded(Done(s, target), s.progress.id, next)
               else Done(s, target).(progress := Copied(s.progress.id, s.progress.at, next)))
      && t.acted == s.acted + [(s.progress.id, MessageAt(s, s.progress.at))]
      && t.boxes == Done(s, target).boxes && t.uidPlus == s.uidPlus && t.canMove == s.canMove
  {
  }

  /** A place noted is where the id leads, while the chain has room for it. */
  lemma NotedLeads(s: State, id: Id, next: Id, m: Message, hops: nat)
    requires Ends(s, m, hops) && hops < MAX_HOPS && id in s.bound && s.bound[id] == m
    requires next !in s.moved && next != Current(s, id)
    ensures Follow(s.moved[Current(s, id) := next], id, MAX_HOPS) == next
  {
    var at := Current(s, id);
    MoreHops(s.moved, id, hops, MAX_HOPS);
    ChainGrows(s.moved, id, hops, at, next);
    MoreHops(s.moved[at := next], id, hops + 1, MAX_HOPS);
  }

  /** Taking the original away after a copy. */
  lemma CopyFinishes(s: State, id: Id, at: Id, next: Id)
    requires s.progress == Copied(id, at, next) && Present(s, at)
    ensures var run := [FlagDeleted] + if s.uidPlus then [ExpungeOriginal] else [];
      && Follows(s, run)
      && var (t, m) := (After(s, run), MessageAt(s, at));
      && t.boxes == (if s.uidPlus then Removed(s, at.folder, at.uid).boxes else s.boxes)
      && t.moved == s.moved[Current(s, id) := next] && t.progress.Idle?
      && t.acted == s.acted + (if s.uidPlus then [(id, m), (id, m)] else [(id, m)])
  {
    var s1 := Apply(s, FlagDeleted);
    assert [FlagDeleted][1..] == [];
    if s.uidPlus {
      var run := [FlagDeleted] + [ExpungeOriginal];
      assert run == [FlagDeleted, ExpungeOriginal] && run[1..] == [ExpungeOriginal] && [ExpungeOriginal][1..] == [];
      assert Follows(Apply(s1, ExpungeOriginal), []) && Follows(s1, [ExpungeOriginal]);
      assert After(s1, [ExpungeOriginal]) == After(Apply(s1, ExpungeOriginal), []);
      assert s.acted + [(id, MessageAt(s, at))] + [(id, MessageAt(s, at))] == s.acted + [(id, MessageAt(s, at)), (id, MessageAt(s, at))];
    } else {
      var run := [FlagDeleted] + [];
      assert run == [FlagDeleted] && Follows(s1, []);
      assert After(s, run) == After(s1, []);
    }
  }

  lemma {:induction false} RunOn(s: State, one: seq<Step>, two: seq<Step>)
    requires Follows(s, one) && Follows(After(s, one), two)
    ensures Follows(s, one + two) && After(s, one + two) == After(After(s, one), two)
    decreases |one|
  {
    if one == [] {
      assert one + two == two;
    } else {
      RunOn(Apply(s, one[0]), one[1..], two);
      assert (one + two)[0] == one[0] && (one + two)[1..] == one[1..] + two;
    }
  }

  /** Every command of a move acts on the one message. */
  function ActsOf(s: State, id: Id, m: Message): (acts: seq<(Id, Message)>) {
    if s.canMove then [(id, m)] else if s.uidPlus then [(id, m), (id, m), (id, m)] else [(id, m), (id, m)]
  }

  /** From where the message was found: the commands of the move, one after the other. */
  lemma MoveFromThere(s: State, id: Id, target: string) returns (t: State)
    requires Inv(s) && s.progress == Located(id, Current(s, id)) && Present(s, Current(s, id))
    requires target in s.boxes && target != Current(s, id).folder && target != ""
    ensures var run := Commands(s, target);
      Follows(s, run) && t == After(s, run)
    ensures t.progress.Idle? && MovedTo(s, t, Current(s, id), NextId(s, target), target)
    ensures t.moved == s.moved[Current(s, id) := NextId(s, target)]
    ensures t.acted == s.acted + ActsOf(s, id, MessageAt(s, Current(s, id)))
  {
    var at := Current(s, id);
    var m := MessageAt(s, at);
    var move := Move(target, NewUid);
    MoveCommand(s, target);
    DoneMoves(s, target);
    DoneMovesNothing(s, target);
    var s1 := Apply(s, move);
    assert [move][1..] == [] && Follows(s1, []) && Follows(s, [move]) && After(s, [move]) == s1;
    if s.canMove {
      assert [move] + [] == [move];
      t := s1;
    } else {
      CopyFinishes(s1, id, at, NextId(s, target));
      var rest := [FlagDeleted] + if s.uidPlus then [ExpungeOriginal] else [];
      RunOn(s, [move], rest);
      t := After(s1, rest);
      TakenAway(s, s1, t, at, NextId(s, target), target);
    }
  }

  /** After a copy the original goes, if the server can expunge one message alone. */
  lemma TakenAway(s: State, s1: State, t: State, at: Id, to: Id, target: string)
    requires !s.canMove && s1.uidPlus == s.uidPlus && Present(s, at) && at != to && to.folder == target && !Present(s, to)
    requires at.folder in s1.boxes && t.boxes == if s.uidPlus then Removed(s1, at.folder, at.uid).boxes else s1.boxes
    requires forall x :: Present(s1, x) <==> x == to || Present(s, x)
    requires forall x | Present(s, x) && Present(s1, x) :: MessageAt(s1, x) == MessageAt(s, x)
    requires Present(s1, to) && MessageAt(s1, to) == MessageAt(s, at)
    ensures MovedTo(s, t, at, to, target)
  {
  }

  lemma MoveFrom(s: State, id: Id, target: string, hops: nat) returns (t: State)
    requires Reachable(s, id) && Ends(s, s.rows[id], hops) && hops < MAX_HOPS
    requires target in s.boxes && target != Current(s, id).folder && target != ""
    ensures Follows(s, MoveRun(s, id, target)) && t == After(s, MoveRun(s, id, target))
    ensures t.progress.Idle? && t.moved == s.moved[Current(s, id) := NextId(s, target)] && Current(t, id) == NextId(s, target)
    ensures MovedTo(s, t, Current(s, id), NextId(s, target), target) && MessageAt(s, Current(s, id)) == s.rows[id]
    ensures t.acted == s.acted + ActsOf(s, id, s.rows[id])
  {
    LocateFinds(s, id);
    var s1 := Apply(s, Locate(id));
    AtIsRight(s1);
    t := MoveFromThere(s1, id, target);
    Unfolded(s, s1, id, target);
    NextIdIsNew(s, target);
    FreshIsEnd(s, NextId(s, target));
    NotedLeads(s, id, NextId(s, target), s.rows[id], hops);
    SameBoxes(s, s1, t, Current(s, id), NextId(s, target), target);
  }

  /** What was moved hangs on the folders and the server only. */
  lemma SameBoxes(s: State, s1: State, t: State, at: Id, to: Id, target: string)
    requires MovedTo(s1, t, at, to, target) && s1.boxes == s.boxes && s1.canMove == s.canMove && s1.uidPlus == s.uidPlus
    ensures MovedTo(s, t, at, to, target)
  {
    assert forall x :: Present(s1, x) == Present(s, x);
  }

  /**
   * A move the server tells of, from any state a run leads to: the message is
   * in the target folder and nowhere else but, on a server that can neither
   * move nor expunge one message, where it was; no other message is touched;
   * and the id leads to it, if at most 15 moves of it were noted before.
   */
  lemma MoveArrives(canMove: bool, uidPlus: bool, run: seq<Step>, id: Id, target: string)
    requires Follows(Initial(canMove, uidPlus), run) && Reachable(After(Initial(canMove, uidPlus), run), id)
    requires var s := After(Initial(canMove, uidPlus), run);
      && target in s.boxes && target != Current(s, id).folder && target != ""
      && NotesIn(Initial(canMove, uidPlus), run, s.rows[id]) < MAX_HOPS
    ensures var s := After(Initial(canMove, uidPlus), run);
      && Follows(s, MoveRun(s, id, target))
      && var t := After(s, MoveRun(s, id, target));
      && t.progress.Idle? && MovedTo(s, t, Current(s, id), Current(t, id), target)
      && MessageAt(t, Current(t, id)) == s.rows[id]
      && t.acted == s.acted + ActsOf(s, id, s.rows[id])
  {
    var start := Initial(canMove, uidPlus);
    var s, hops := RunEnds(start, run, After(start, run).rows[id], 0);
    var t := MoveFrom(s, id, target, hops);
  }

  /** The run is its first step and the rest. */
  lemma Unfolded(s: State, s1: State, id: Id, target: string)
    requires Enabled(s, Locate(id)) && s1 == Apply(s, Locate(id)) && s1.canMove == s.canMove && s1.uidPlus == s.uidPlus
    requires var rest := Commands(s, target);
      Follows(s1, rest)
    ensures var rest := Commands(s, target);
      Follows(s, MoveRun(s, id, target)) && After(s, MoveRun(s, id, target)) == After(s1, rest)
  {
    var run := MoveRun(s, id, target);
    var rest := Commands(s, target);
    assert run == [Locate(id)] + rest;
    assert run[0] == Locate(id) && run[1..] == rest;
  }

  /** A list hands out an id for every message that is there, each for its own. */
  lemma ListHandsOut(s: State, folder: string)
    requires s.progress.Idle? && folder != "" && folder in s.boxes && NotStale(s, folder)
    ensures Enabled(s, List(folder))
    ensures var t := Apply(s, List(folder));
      && t.boxes == s.boxes
      && (forall id: Id | id.folder == folder && Present(s, id) :: id in t.rows && t.rows[id] == MessageAt(s, id))
      && (forall id: Id | id in s.rows && !(id.folder == folder && Present(s, id)) :: id in t.rows && t.rows[id] == s.rows[id])
  {
    SelectedOnly(s, folder);
    var s1 := Select(s, folder);
    assert Rows(s1, folder) == BoundBy(folder, s.boxes[folder]);
    forall id: Id | id.folder == folder && Present(s, id) ensures id in BoundBy(folder, s.boxes[folder]) {
      assert id == Id(s.boxes[folder].validity, id.uid, folder);
    }
  }

  /** A move the server does not tell the place of: the id leads nowhere from then on, and is refused rather than guessed. */
  lemma UntoldIsRefused(s: State, target: string, hops: nat)
    requires s.progress.Located? && s.progress.id in s.rows && s.canMove
    requires target in s.boxes && target != "" && target != s.progress.at.folder && Present(s, s.progress.at)
    requires s.progress.at == Current(s, s.progress.id)
    requires Inv(s) && Ends(s, s.rows[s.progress.id], hops) && hops < MAX_HOPS
    ensures Enabled(s, Move(target, Gone))
    ensures var (t, id) := (Apply(s, Move(target, Gone)), s.progress.id);
      && Current(t, id) == Id(0, 0, target) && t.progress.Idle? && id in t.rows
      && Apply(t, Locate(id)) == t
  {
    var id := s.progress.id;
    AtIsRight(s);
    FreshIsEnd(s, Id(0, 0, target));
    DoneMovesNothing(s, target);
    NotedLeads(s, id, Id(0, 0, target), s.rows[id], hops);
  }
}
