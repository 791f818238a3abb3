/**
 * A mailbox on a server that other clients change too, and this client's ids
 * for its messages (app/src/mail/imap.ts:250-267, 371-439). The server never
 * gives a UID of one folder incarnation to a second message (section 2.3.1.1
 * of RFC 3501) and never the same UIDVALIDITY to a second incarnation; its
 * steps and other clients' come between any two of this client's commands.
 */
module ImapMoves {
  import opened Common
  import opened ImapIds

  const MAX_HOPS := 16

  /** A message, whatever folder it or a copy of it is in. */
  type Message = nat

  datatype Box = Box(validity: nat, next: nat, messages: map<nat, Message>)

  datatype Session = Session(folder: string, validity: nat)

  /** Where the client is in one operation: `id` as the app named it, `at` where it was found to be. */
  datatype Progress =
    | Idle
    | Located(id: Id, at: Id)
    | Copied(id: Id, at: Id, next: Id)
    | Flagged(id: Id, at: Id, next: Id)

  /** What a MOVE or COPY that did something answers: the new UID, that the original is gone, or nothing. */
  datatype Told = NewUid | Gone | Nothing

  datatype State = State(
    boxes: map<string, Box>,
    bound: map<Id, Message>,
    canMove: bool,
    uidPlus: bool,
    session: Option<Session>,
    moved: map<Id, Id>,
    progress: Progress,
    rows: map<Id, Message>,
    acted: seq<(Id, Message)>)

  datatype Step =
    // other clients and the server
    | Arrive(folder: string, message: Message)
    | Expunge(folder: string, uid: nat)
    | Rebuild(folder: string, box: Box)
    | Remove(folder: string)
    | Drop
    // this client
    | List(folder: string)
    | Locate(id: Id)
    | Store
    | Finish
    | Move(target: string, told: Told)
    | FlagDeleted
    | ExpungeOriginal

  // ---------------------------------------------------------- the server --

  predicate Present(s: State, id: Id) {
    id.folder in s.boxes && s.boxes[id.folder].validity == id.validity && id.uid in s.boxes[id.folder].messages
  }

  function NextId(s: State, folder: string): (id: Id)
    requires folder in s.boxes
  {
    Id(s.boxes[folder].validity, s.boxes[folder].next, folder)
  }

  function Added(s: State, folder: string, message: Message): (s': State)
    requires folder in s.boxes
  {
    var box := s.boxes[folder];
    s.(boxes := s.boxes[folder := Box(box.validity, box.next + 1, box.messages[box.next := message])],
       bound := s.bound[NextId(s, folder) := message])
  }

  function Removed(s: State, folder: string, uid: nat): (s': State)
    requires folder in s.boxes
  {
    s.(boxes := s.boxes[folder := s.boxes[folder].(messages := s.boxes[folder].messages - {uid})])
  }

  /** Ids a new incarnation gives its messages. */
  function BoundBy(folder: string, box: Box): (r: map<Id, Message>) {
    map uid | uid in box.messages :: Id(box.validity, uid, folder) := box.messages[uid]
  }

  ghost predicate NewIncarnation(s: State, folder: string, box: Box) {
    && folder != "" && box.validity > 0
    && (forall id | id in s.bound :: id.folder == folder ==> id.validity != box.validity)
    && (forall uid | uid in box.messages :: uid < box.next)
  }

  // ---------------------------------------------------------- the client --

  /** Where the moves lead from `id`, at most `hops` of them. */
  function Follow(moved: map<Id, Id>, id: Id, hops: nat): (at: Id)
    decreases hops
  {
    if hops == 0 || id !in moved then id else Follow(moved, moved[id], hops - 1)
  }

  function Current(s: State, id: Id): (at: Id) {
    Follow(s.moved, id, MAX_HOPS)
  }

  /** SELECT, skipped when the folder is the one selected. */
  function Select(s: State, folder: string): (s': State) {
    if s.session.Some? && s.session.value.folder == folder then s
    else if folder in s.boxes then s.(session := Some(Session(folder, s.boxes[folder].validity)))
    else s.(session := None)
  }

  function Located'(s: State, id: Id): (s': State) {
    var at := Current(s, id);
    if at.validity == 0 then s
    else
      var s1 := Select(s, at.folder);
      if s1.session != Some(Session(at.folder, at.validity)) then s1 else s1.(progress := Located(id, at))
  }

  function Rows(s: State, folder: string): (r: map<Id, Message>) {
    if s.session.Some? && s.session.value.folder == folder && folder in s.boxes && s.boxes[folder].validity == s.session.value.validity
    then BoundBy(folder, s.boxes[folder]) else map[]
  }

  /** A command names a UID: it is done to the message there, if one is. */
  function Acted(s: State, id: Id, at: Id): (s': State) {
    if Present(s, at) then s.(acted := s.acted + [(id, s.boxes[at.folder].messages[at.uid])]) else s
  }

  /** `moved.set(current(id), next)`. */
  function Recorded(s: State, id: Id, next: Id): (s': State) {
    s.(moved := s.moved[Current(s, id) := next], progress := Idle)
  }

  /** The state once the server did the move or copy, before the client notes it. */
  function Done(s: State, target: string): (s': State)
    requires s.progress.Located? && target in s.boxes && Present(s, s.progress.at)
  {
    var (id, at) := (s.progress.id, s.progress.at);
    var s1 := Added(Acted(s, id, at), target, s.boxes[at.folder].messages[at.uid]);
    if s.canMove then Removed(s1, at.folder, at.uid) else s1
  }

  function Moved(s: State, target: string, told: Told): (s': State)
    requires s.progress.Located?
  {
    var (id, at) := (s.progress.id, s.progress.at);
    var lost := Id(0, 0, target);
    if target !in s.boxes then s.(progress := Idle)
    else if !Present(s, at) then
      // The message was gone; a server that reports moves lets the client see so.
      if s.canMove || s.uidPlus then s.(progress := Idle) else s.(progress := Copied(id, at, lost))
    else
      var next := if told.NewUid? then NextId(s, target) else lost;
      var s1 := Done(s, target);
      if s.canMove then
        if told.Nothing? then s1.(progress := Idle) else Recorded(s1, id, next)
      else if s.uidPlus && !told.NewUid? then s1.(progress := Idle)
      else s1.(progress := Copied(id, at, next))
  }

  predicate Enabled'(s: State, step: Step) {
    match step
    case Arrive(folder, _) => folder in s.boxes
    case Expunge(folder, _) => folder in s.boxes
    case List(folder) => s.progress.Idle? && folder != ""
    // The app names a message only by an id it was handed.
    case Locate(id) => s.progress.Idle? && id in s.rows
    case Store => s.progress.Located?
    case Finish => s.progress.Located?
    case Move(target, _) => s.progress.Located? && target != s.progress.at.folder && target != ""
    case FlagDeleted => s.progress.Copied?
    case ExpungeOriginal => s.progress.Flagged?
    case _ => true
  }

  ghost predicate Enabled(s: State, step: Step) {
    Enabled'(s, step) && (step.Rebuild? ==> NewIncarnation(s, step.folder, step.box))
  }

  function Apply(s: State, step: Step): (s': State)
    requires Enabled'(s, step)
  {
    match step
    case Arrive(folder, message) => Added(s, folder, message)
    case Expunge(folder, uid) => Removed(s, folder, uid)
    case Rebuild(folder, box) => s.(boxes := s.boxes[folder := box], bound := s.bound + BoundBy(folder, box))
    case Remove(folder) => s.(boxes := s.boxes - {folder})
    // The line drops: the operation fails, or starts over on a new session.
    case Drop => s.(session := None, progress := Idle)
    case List(folder) =>
      var s1 := Select(s, folder);
      s1.(rows := s1.rows + Rows(s1, folder))
    case Locate(id) => Located'(s, id)
    case Store =>
      if Present(s, s.progress.at) then Acted(s, s.progress.id, s.progress.at) else s.(progress := Idle)
    case Finish => s.(progress := Idle)
    case Move(target, told) => Moved(s, target, told)
    case FlagDeleted =>
      var s1 := Acted(s, s.progress.id, s.progress.at);
      if s.uidPlus then s1.(progress := Flagged(s.progress.id, s.progress.at, s.progress.next))
      else Recorded(s1, s.progress.id, s.progress.next)
    case ExpungeOriginal =>
      var (id, at, next) := (s.progress.id, s.progress.at, s.progress.next);
      var s1 := Acted(s, id, at);
      Recorded(if Present(s, at) then Removed(s1, at.folder, at.uid) else s1, id, next)
  }

  function Initial(canMove: bool, uidPlus: bool): (s: State) {
    State(map[], map[], canMove, uidPlus, None, map[], Idle, map[], [])
  }

  // ------------------------------------------------------- the invariant --

  /** The server's side: every message present stands under an id bound to it for good. */
  ghost predicate ServerKept(s: State) {
    && (forall f | f in s.boxes :: f != "" && s.boxes[f].validity > 0)
    && (forall f, uid | f in s.boxes && uid in s.boxes[f].messages ::
          uid < s.boxes[f].next && Id(s.boxes[f].validity, uid, f) in s.bound && s.bound[Id(s.boxes[f].validity, uid, f)] == s.boxes[f].messages[uid])
    && (forall id | id in s.bound && id.folder in s.boxes && id.validity == s.boxes[id.folder].validity :: id.uid < s.boxes[id.folder].next)
    && (forall id | id in s.bound :: id.validity > 0)
  }

  /** A move leads to another id of the same message, or nowhere. */
  ghost predicate LeadsOn(bound: map<Id, Message>, from: Id, to: Id) {
    from in bound && (to.validity == 0 || (to in bound && bound[to] == bound[from]))
  }

  ghost predicate MovesKept(bound: map<Id, Message>, moved: map<Id, Id>) {
    forall id | id in moved :: LeadsOn(bound, id, moved[id])
  }

  ghost predicate RowsKept(bound: map<Id, Message>, rows: map<Id, Message>) {
    forall id | id in rows :: id in bound && bound[id] == rows[id]
  }

  /** Everything done was done to the message its id was handed out for. */
  ghost predicate ActedRightly(rows: map<Id, Message>, acted: seq<(Id, Message)>) {
    forall i | 0 <= i < |acted| :: acted[i].0 in rows && acted[i].1 == rows[acted[i].0]
  }

  /** An operation under way stands where its id leads. */
  ghost predicate ProgressKept(s: State) {
    !s.progress.Idle? ==>
      && s.progress.id in s.rows && s.progress.at == Current(s, s.progress.id) && s.progress.at.validity > 0
      && (s.progress.Copied? || s.progress.Flagged? ==> LeadsOn(s.bound, s.progress.at, s.progress.next))
  }

  ghost predicate Inv(s: State) {
    ServerKept(s) && MovesKept(s.bound, s.moved) && RowsKept(s.bound, s.rows) && ActedRightly(s.rows, s.acted) && ProgressKept(s)
  }

  /** Following moves from a message's id stays with that message, or ends at an id that is refused. */
  lemma {:induction false} FollowKeeps(bound: map<Id, Message>, moved: map<Id, Id>, id: Id, hops: nat)
    requires MovesKept(bound, moved) && id in bound && forall x | x in bound :: x.validity > 0
    ensures var at := Follow(moved, id, hops);
      at.validity == 0 || (at in bound && bound[at] == bound[id])
    decreases hops
  {
    if hops > 0 && id in moved {
      assert LeadsOn(bound, id, moved[id]);
      if moved[id].validity > 0 {
        FollowKeeps(bound, moved, moved[id], hops - 1);
      } else {
        assert moved[id] in moved ==> LeadsOn(bound, moved[id], moved[moved[id]]);
      }
    }
  }

  /** The message where an operation stands is the one its id was handed out for. */
  lemma AtIsRight(s: State)
    requires Inv(s) && !s.progress.Idle?
    ensures var (id, at) := (s.progress.id, s.progress.at);
      id in s.rows && at in s.bound && s.bound[at] == s.rows[id]
      && (Present(s, at) ==> s.boxes[at.folder].messages[at.uid] == s.rows[id])
  {
    FollowKeeps(s.bound, s.moved, s.progress.id, MAX_HOPS);
  }

  // ----------------------------------------------------------- the steps --

  lemma AddedKeeps(s: State, folder: string, message: Message)
    requires Inv(s) && folder in s.boxes
    ensures Inv(Added(s, folder, message))
    ensures NextId(s, folder) !in s.bound
  {
    var s' := Added(s, folder, message);
    var n := NextId(s, folder);
    assert forall id | id in s.bound :: id in s'.bound && s'.bound[id] == s.bound[id];
    forall id | id in s'.moved ensures LeadsOn(s'.bound, id, s'.moved[id]) {
      assert LeadsOn(s.bound, id, s.moved[id]);
    }
  }

  lemma RemovedKeeps(s: State, folder: string, uid: nat)
    requires Inv(s) && folder in s.boxes
    ensures Inv(Removed(s, folder, uid))
  {
  }

  lemma RebuildKeeps(s: State, folder: string, box: Box)
    requires Inv(s) && NewIncarnation(s, folder, box)
    ensures Inv(Apply(s, Rebuild(folder, box)))
  {
    var s' := Apply(s, Rebuild(folder, box));
    var more := BoundBy(folder, box);
    assert forall id | id in more :: id.folder == folder && id.validity == box.validity;
    assert forall id | id in s.bound :: id in s'.bound && s'.bound[id] == s.bound[id];
    forall id | id in s'.moved ensures LeadsOn(s'.bound, id, s'.moved[id]) {
      assert LeadsOn(s.bound, id, s.moved[id]);
    }
    RebuiltServer(s, folder, box);
  }

  lemma RebuiltServer(s: State, folder: string, box: Box)
    requires ServerKept(s) && NewIncarnation(s, folder, box)
    ensures ServerKept(Apply(s, Rebuild(folder, box)))
  {
    var s' := Apply(s, Rebuild(folder, box));
    var more := BoundBy(folder, box);
    forall uid | uid in box.messages ensures Id(box.validity, uid, folder) in more && more[Id(box.validity, uid, folder)] == box.messages[uid] {}
    forall id | id in s'.bound ensures id in s.bound || (id in more && id.uid in box.messages) {}
  }

  lemma ActedKeeps(s: State, id: Id, at: Id)
    requires Inv(s) && !s.progress.Idle? && id == s.progress.id && at == s.progress.at
    ensures Inv(Acted(s, id, at))
  {
    AtIsRight(s);
  }

  lemma RecordedKeeps(s: State, id: Id, next: Id)
    requires Inv(s) && !s.progress.Idle? && id == s.progress.id && LeadsOn(s.bound, s.progress.at, next)
    ensures Inv(Recorded(s, id, next))
  {
  }

  lemma DoneKeeps(s: State, target: string)
    requires Inv(s) && s.progress.Located? && target in s.boxes && Present(s, s.progress.at)
    ensures var s' := Done(s, target);
      && Inv(s') && s'.progress == s.progress && s'.uidPlus == s.uidPlus
      && LeadsOn(s'.bound, s.progress.at, NextId(s, target)) && LeadsOn(s'.bound, s.progress.at, Id(0, 0, target))
  {
    var (id, at) := (s.progress.id, s.progress.at);
    AtIsRight(s);
    ActedKeeps(s, id, at);
    var s0 := Acted(s, id, at);
    AddedKeeps(s0, target, s.boxes[at.folder].messages[at.uid]);
    if s.canMove {
      RemovedKeeps(Added(s0, target, s.boxes[at.folder].messages[at.uid]), at.folder, at.uid);
    }
  }

  lemma MovedPresentKeeps(s: State, target: string, told: Told)
    requires Inv(s) && s.progress.Located? && target in s.boxes && Present(s, s.progress.at)
    ensures Inv(Moved(s, target, told))
  {
    DoneKeeps(s, target);
    var s' := Done(s, target);
    var next := if told.NewUid? then NextId(s, target) else Id(0, 0, target);
    if s.canMove && !told.Nothing? {
      RecordedKeeps(s', s.progress.id, next);
    }
  }

  lemma MovedAbsentKeeps(s: State, target: string, told: Told)
    requires Inv(s) && s.progress.Located? && !(target in s.boxes && Present(s, s.progress.at))
    ensures Inv(Moved(s, target, told))
  {
    AtIsRight(s);
  }

  lemma SelectKeeps(s: State, folder: string)
    requires Inv(s)
    ensures Inv(Select(s, folder))
  {
    AnySession(s, Select(s, folder).session);
  }

  /** The invariant does not speak of the session. */
  lemma AnySession(s: State, session: Option<Session>)
    requires Inv(s)
    ensures Inv(s.(session := session))
  {
  }

  lemma LocateKeeps(s: State, id: Id)
    requires Inv(s) && s.progress.Idle? && id in s.rows
    ensures Inv(Located'(s, id))
  {
    SelectKeeps(s, Current(s, id).folder);
    var s1 := Select(s, Current(s, id).folder);
    if Current(s, id).validity > 0 && s1.session == Some(Session(Current(s, id).folder, Current(s, id).validity)) {
      StandsThere(s1, id);
    }
  }

  lemma StandsThere(s: State, id: Id)
    requires Inv(s) && id in s.rows && Current(s, id).validity > 0
    ensures Inv(s.(progress := Located(id, Current(s, id))))
  {
  }

  lemma RowsAreBound(s: State, folder: string)
    requires ServerKept(s)
    ensures forall id | id in Rows(s, folder) :: id in s.bound && s.bound[id] == Rows(s, folder)[id]
  {
    forall id | id in Rows(s, folder) ensures id in s.bound && s.bound[id] == Rows(s, folder)[id] {
      assert id.folder == folder && id.uid in s.boxes[folder].messages;
    }
  }

  lemma ListKeeps(s: State, folder: string)
    requires Inv(s) && s.progress.Idle? && folder != ""
    ensures Inv(Apply(s, List(folder)))
  {
    var s1 := Select(s, folder);
    SelectKeeps(s, folder);
    RowsAreBound(s1, folder);
    MoreRows(s1, Rows(s1, folder));
  }

  lemma MoreRows(s: State, more: map<Id, Message>)
    requires Inv(s) && s.progress.Idle? && forall id | id in more :: id in s.bound && s.bound[id] == more[id]
    ensures Inv(s.(rows := s.rows + more))
  {
    var rows' := s.rows + more;
    forall id | id in s.rows ensures id in rows' && rows'[id] == s.rows[id] {}
  }

  lemma FinishMoveKeeps(s: State, step: Step)
    requires Inv(s) && Enabled(s, step) && (step.FlagDeleted? || step.ExpungeOriginal?)
    ensures Inv(Apply(s, step))
  {
    var (id, at, next) := (s.progress.id, s.progress.at, s.progress.next);
    ActedKeeps(s, id, at);
    var s1 := Acted(s, id, at);
    if step.ExpungeOriginal? {
      if Present(s, at) {
        RemovedKeeps(s1, at.folder, at.uid);
      }
      RecordedKeeps(if Present(s, at) then Removed(s1, at.folder, at.uid) else s1, id, next);
    } else if !s.uidPlus {
      RecordedKeeps(s1, id, next);
    }
  }

  lemma StepKeeps(s: State, step: Step)
    requires Inv(s) && Enabled(s, step)
    ensures Inv(Apply(s, step))
  {
    match step
    case Arrive(folder, message) => AddedKeeps(s, folder, message);
    case Expunge(folder, uid) => RemovedKeeps(s, folder, uid);
    case Rebuild(folder, box) => RebuildKeeps(s, folder, box);
    case Remove(_) =>
    case Drop =>
    case List(folder) => ListKeeps(s, folder);
    case Locate(id) => LocateKeeps(s, id);
    case Store => ActedKeeps(s, s.progress.id, s.progress.at);
    case Finish =>
    case Move(target, told) =>
      if target in s.boxes && Present(s, s.progress.at) { MovedPresentKeeps(s, target, told); } else { MovedAbsentKeeps(s, target, told); }
    case FlagDeleted => FinishMoveKeeps(s, step);
    case ExpungeOriginal => FinishMoveKeeps(s, step);
  }

  // ---------------------------------------------------------------- runs --

  ghost predicate Follows(s: State, run: seq<Step>)
    decreases |run|
  {
    run != [] ==> Enabled(s, run[0]) && Follows(Apply(s, run[0]), run[1..])
  }

  ghost function After(s: State, run: seq<Step>): (s': State)
    requires Follows(s, run)
    decreases |run|
  {
    if run == [] then s else After(Apply(s, run[0]), run[1..])
  }

  lemma {:induction false} RunKeeps(s: State, run: seq<Step>)
    requires Inv(s) && Follows(s, run)
    ensures Inv(After(s, run))
    decreases |run|
  {
    if run != [] {
      StepKeeps(s, run[0]);
      RunKeeps(Apply(s, run[0]), run[1..]);
    }
  }

  /**
   * Whatever the server and other clients do, and whatever the server leaves
   * unsaid: a command sent for an id acts on the message that id was handed
   * out for, or on nothing.
   */
  lemma NeverAnotherMessage(canMove: bool, uidPlus: bool, run: seq<Step>, i: nat)
    requires Follows(Initial(canMove, uidPlus), run)
    requires i < |After(Initial(canMove, uidPlus), run).acted|
    ensures var s := After(Initial(canMove, uidPlus), run);
      s.acted[i].0 in s.rows && s.acted[i].1 == s.rows[s.acted[i].0]
  {
    RunKeeps(Initial(canMove, uidPlus), run);
  }
}
