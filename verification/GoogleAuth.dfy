/**
 * Several mailboxes where Play services know one user (app/src/auth/googleAuth.ts). Play
 * services has one account in front, may ignore which one it was asked for,
 * and mints tokens for whoever that is. Tasks run one at a time off a queue;
 * calls arrive at any point. Addresses are as the module compares them,
 * trimmed and lower-cased; an account that reports none has "".
 */
module GoogleAuth {
  import opened Common

  type Address = string

  const TOKEN_TTL_MS := 300_000

  /** A token, and whose mailbox it opens; the number tells one minting from another. */
  datatype Token = Token(owner: Address, number: nat)

  datatype Held = Held(token: Token, fetched: int, expiresAt: int)

  datatype Task =
    | SignIn
    | RestoreFront
    | Restore(address: Address)
    | SignOutOne(address: Address)
    | SignOutAll
    | Refresh(address: Address)

  /** What becomes of a token once minted. */
  datatype Purpose = ForCaller | ForSession(signingIn: bool)

  /** The call into Play services that the running task awaits. */
  datatype Awaiting =
    | HasPlayServices
    | SignOutFirst
    | Picker
    | SignInSilently(asked: Option<Address>, purpose: Purpose)
    | GetTokens(address: Address, purpose: Purpose)
    | SignOut(rest: seq<Address>, all: bool)
    | SignOutLast

  datatype Handed = Handed(address: Address, token: Token, session: bool, fetched: int, at: int)

  datatype State = State(
    front: Option<Address>,
    configured: Option<Option<Address>>,
    seen: seq<Address>,
    tokens: map<Address, Held>,
    queue: seq<Task>,
    running: Option<Awaiting>,
    handed: seq<Handed>,
    minted: nat)

  /** What Play services answers, and whom it leaves in front if it fails. */
  datatype Reply =
    | Done
    | User(address: Address)
    | Minted
    | Failed(permanent: bool, front: Option<Address>)

  datatype Step =
    | Call(task: Task, now: int)
    | Begin(now: int)
    | Answer(reply: Reply, now: int)

  // ---------------------------------------------------------- primitives --

  function ConfigureFor(s: State, account: Option<Address>): (s': State) {
    s.(configured := Some(account))
  }

  /** A cached token that has not expired; an expired one is dropped. */
  function Cached(s: State, a: Address, now: int): (r: (State, Option<Held>)) {
    if a !in s.tokens then (s, None)
    else if s.tokens[a].expiresAt <= now then (s.(tokens := s.tokens - {a}), None)
    else (s, Some(s.tokens[a]))
  }

  function HandOut(s: State, h: Handed): (s': State) {
    s.(handed := s.handed + [h])
  }

  function Without(seen: seq<Address>, a: Address): (r: seq<Address>) {
    if seen == [] then [] else (if seen[0] == a then [] else [seen[0]]) + Without(seen[1..], a)
  }

  function With(seen: seq<Address>, a: Address): (r: seq<Address>) {
    if a in seen then seen else seen + [a]
  }

  /** `forgetLocked` up to its `signOut`. */
  function Forget(s: State, a: Address, rest: seq<Address>, all: bool): (s': State) {
    ConfigureFor(s.(tokens := s.tokens - {a}, seen := Without(s.seen, a)), Some(a)).(running := Some(SignOut(rest, all)))
  }

  /** The loop of a blanket `signOut`, then its last steps. */
  function ForgetRest(s: State, rest: seq<Address>): (s': State) {
    if rest != [] then Forget(s, rest[0], rest[1..], true)
    else ConfigureFor(s.(tokens := map[]), None).(running := Some(SignOutLast))
  }

  /** A task up to its first await. */
  function Start(s: State, task: Task, now: int): (s': State) {
    match task
    case SignIn => ConfigureFor(s, None).(running := Some(HasPlayServices))
    case RestoreFront => ConfigureFor(s, None).(running := Some(SignInSilently(None, ForSession(false))))
    case Restore(a) => ConfigureFor(s, Some(a)).(running := Some(SignInSilently(Some(a), ForSession(false))))
    case SignOutOne(a) => Forget(s, a, [], false)
    case SignOutAll => ForgetRest(s, s.seen)
    case Refresh(a) =>
      var (s1, held) := Cached(s, a, now);
      if held.Some? then HandOut(s1, Handed(a, held.value.token, false, held.value.fetched, now)).(running := None)
      else ConfigureFor(s1, Some(a)).(running := Some(SignInSilently(Some(a), ForCaller)))
  }

  /** The account that signed in, checked against the one asked for; "" was asked for by nobody. */
  function SignedIn(s: State, got: Address, asked: Option<Address>, purpose: Purpose): (s': State) {
    var s1 := s.(front := Some(got));
    if asked.Some? && asked.value != "" && got != asked.value then s1.(running := None)
    else
      var address := if purpose.ForCaller? && asked.Some? then asked.value else got;
      s1.(seen := With(s.seen, got), running := Some(GetTokens(address, purpose)))
  }

  function TokenMinted(s: State, a: Address, purpose: Purpose, token: Token, now: int): (s': State) {
    var s1 := s.(tokens := s.tokens[a := Held(token, now, now + TOKEN_TTL_MS)], running := None);
    var s2 := HandOut(s1, Handed(a, token, purpose.ForSession?, now, now));
    if purpose == ForSession(true) then s2.(seen := With(s.seen, a), configured := Some(Some(a))) else s2
  }

  /** The running task goes on with the answer to what it awaits. */
  function GoOn(s: State, reply: Reply, now: int): (s': State)
    requires s.running.Some? && Answers(s, reply)
  {
    match (s.running.value, reply)
    case (HasPlayServices, Done) => s.(running := Some(SignOutFirst))
    case (SignOutFirst, Done) => s.(front := None, configured := Some(None), running := Some(Picker))
    case (SignOutFirst, Failed(_, front)) => s.(front := front, configured := Some(None), running := Some(Picker))
    case (Picker, User(a)) => s.(front := Some(a), running := Some(GetTokens(a, ForSession(true))))
    case (SignInSilently(asked, purpose), User(a)) => SignedIn(s, a, asked, purpose)
    case (GetTokens(a, purpose), Minted) => TokenMinted(s.(minted := s.minted + 1), a, purpose, Token(s.front.value, s.minted), now)
    case (GetTokens(a, _), Failed(permanent, front)) =>
      if permanent then Forget(s.(front := front), a, [], false) else s.(front := front, running := None)
    case (SignOut(rest, all), Done) =>
      var s1 := s.(front := None, configured := None, running := None);
      if all then ForgetRest(s1, rest) else s1
    case (SignOutLast, Done) => s.(front := None, running := None)
    case (_, Failed(_, front)) => s.(front := front, running := None)
    case _ => s
  }

  /** What Play services can answer: a user, a token of the one in front, done, or a failure. */
  predicate Answers(s: State, reply: Reply)
    requires s.running.Some?
  {
    match reply
    case Failed(_, _) => true
    case User(_) => s.running.value.Picker? || s.running.value.SignInSilently?
    case Minted => s.running.value.GetTokens? && s.front.Some?
    case Done => !(s.running.value.Picker? || s.running.value.SignInSilently? || s.running.value.GetTokens?)
  }

  predicate Enabled(s: State, step: Step) {
    match step
    // Blank addresses are dropped before a restore asks for them.
    case Call(task, _) => task.Restore? ==> task.address != ""
    case Begin(_) => s.running.None? && s.queue != []
    case Answer(reply, _) => s.running.Some? && Answers(s, reply)
  }

  function Apply(s: State, step: Step): (s': State)
    requires Enabled(s, step)
  {
    match step
    case Call(task, now) =>
      (match task
       case Refresh(a) =>
         var (s1, held) := Cached(s, a, now);
         if held.Some? then HandOut(s1, Handed(a, held.value.token, false, held.value.fetched, now))
         else s1.(queue := s.queue + [task])
       case _ => s.(queue := s.queue + [task]))
    case Begin(now) => Start(s.(queue := s.queue[1..]), s.queue[0], now)
    case Answer(reply, now) => GoOn(s, reply, now)
  }

  function Initial(front: Option<Address>): (s: State) {
    State(front, None, [], map[], [], None, [], 0)
  }

  // ------------------------------------------------------ whose token it is --

  predicate Belongs(h: Handed) {
    h.token.owner == h.address
  }

  /** Sessions always; tokens fetched for a caller unless the address is blank. */
  predicate RightlyHanded(h: Handed) {
    (h.session || h.address != "" ==> Belongs(h)) && h.at < h.fetched + TOKEN_TTL_MS
  }

  /** The account in front is the one about to be asked for a token. */
  predicate FrontIsAsked(s: State) {
    s.running.Some? && s.running.value.GetTokens? ==>
      (s.running.value.purpose.ForSession? || s.running.value.address != "") ==> s.front == Some(s.running.value.address)
  }

  ghost predicate Inv(s: State) {
    && FrontIsAsked(s)
    && (forall a | a in s.tokens :: (a != "" ==> s.tokens[a].token.owner == a) && s.tokens[a].expiresAt == s.tokens[a].fetched + TOKEN_TTL_MS)
    && (forall i | 0 <= i < |s.handed| :: RightlyHanded(s.handed[i]))
  }

  lemma GoOnKeeps(s: State, reply: Reply, now: int)
    requires Inv(s) && s.running.Some? && Answers(s, reply)
    ensures Inv(GoOn(s, reply, now))
  {
  }

  lemma CachedKeeps(s: State, a: Address, now: int)
    requires Inv(s)
    ensures var (s1, held) := Cached(s, a, now);
      && Inv(s1) && s1.handed == s.handed && s1.running == s.running
      && (held.Some? ==> RightlyHanded(Handed(a, held.value.token, false, held.value.fetched, now)))
  {
  }

  lemma HandOutKeeps(s: State, h: Handed)
    requires Inv(s) && RightlyHanded(h)
    ensures Inv(HandOut(s, h))
  {
  }

  lemma StartKeeps(s: State, task: Task, now: int)
    requires Inv(s) && s.running.None?
    ensures Inv(Start(s, task, now))
  {
    if task.Refresh? {
      CachedKeeps(s, task.address, now);
      var (s1, held) := Cached(s, task.address, now);
      if held.Some? {
        HandOutKeeps(s1, Handed(task.address, held.value.token, false, held.value.fetched, now));
      }
    }
  }

  lemma CallKeeps(s: State, task: Task, now: int)
    requires Inv(s) && Enabled(s, Call(task, now))
    ensures Inv(Apply(s, Call(task, now)))
  {
    if task.Refresh? {
      CachedKeeps(s, task.address, now);
      var (s1, held) := Cached(s, task.address, now);
      if held.Some? {
        HandOutKeeps(s1, Handed(task.address, held.value.token, false, held.value.fetched, now));
      }
    }
  }

  lemma StepKeeps(s: State, step: Step)
    requires Inv(s) && Enabled(s, step)
    ensures Inv(Apply(s, step))
  {
    match step
    case Call(task, now) => CallKeeps(s, task, now);
    case Begin(now) =>
      var s1 := s.(queue := s.queue[1..]);
      assert Inv(s1);
      StartKeeps(s1, s.queue[0], now);
    case Answer(reply, now) => GoOnKeeps(s, reply, now);
  }

  predicate Follows(s: State, run: seq<Step>)
    decreases |run|
  {
    run != [] ==> Enabled(s, run[0]) && Follows(Apply(s, run[0]), run[1..])
  }

  function After(s: State, run: seq<Step>): (s': State)
    requires Follows(s, run)
    decreases |run|
  {
    if run == [] then s else After(Apply(s, run[0]), run[1..])
  }

  lemma {:induction false} RunKeeps(s: State, run: seq<Step>)
    requires Inv(s) && Follows(s, run)
    ensures Inv(After(s, run))
    decreases |run|
  {
    if run != [] {
      StepKeeps(s, run[0]);
      RunKeeps(Apply(s, run[0]), run[1..]);
    }
  }

  /** A token served is one fetched for the same address less than five minutes before. */
  lemma NeverAnothersToken(front: Option<Address>, run: seq<Step>, i: nat)
    requires Follows(Initial(front), run) && i < |After(Initial(front), run).handed|
    ensures RightlyHanded(After(Initial(front), run).handed[i])
  {
    RunKeeps(Initial(front), run);
  }

  /** Every token handed out for `a`, over any run, is `a`'s. */
  ghost predicate AlwaysOwn(a: Address) {
    forall front, run | Follows(Initial(front), run) :: OwnIn(After(Initial(front), run), a)
  }

  ghost predicate OwnIn(s: State, a: Address) {
    forall i | 0 <= i < |s.handed| && s.handed[i].address == a :: Belongs(s.handed[i])
  }

  /** Every token cached under `a`, over any run, is `a`'s. */
  ghost predicate AlwaysCachesOwn(a: Address) {
    forall front, run | Follows(Initial(front), run) :: CachesOwn(After(Initial(front), run), a)
  }

  ghost predicate CachesOwn(s: State, a: Address) {
    a in s.tokens ==> s.tokens[a].token.owner == a
  }

  /** A token asked for under a blank address, answered with Bob's. */
  function BlankRun(): (run: seq<Step>) {
    [Call(Refresh(""), 0), Begin(0), Answer(User("bob"), 0), Answer(Minted, 0)]
  }

  lemma BlankRunLeaks()
    ensures Follows(Initial(None), BlankRun())
    ensures After(Initial(None), BlankRun()).handed == [Handed("", Token("bob", 0), false, 0, 0)]
    ensures "" in After(Initial(None), BlankRun()).tokens && After(Initial(None), BlankRun()).tokens[""].token.owner == "bob"
  {
    var run := BlankRun();
    var s1 := Apply(Initial(None), run[0]);
    assert run[1..][0] == run[1] && run[1..][1..][0] == run[2] && run[1..][1..][1..][0] == run[3];
    var s2 := Apply(s1, run[1]);
    var s3 := Apply(s2, run[2]);
    var s4 := Apply(s3, run[3]);
    assert s2.running == Some(SignInSilently(Some(""), ForCaller));
    assert s3.running == Some(GetTokens("", ForCaller)) && s3.front == Some("bob");
    assert run[1..][1..][1..][1..] == [];
  }

  /** The check on the address that came back protects every address but the blank one. */
  lemma OwnTokensExactly(a: Address)
    ensures AlwaysOwn(a) <==> a != ""
  {
    if a != "" {
      forall front, run | Follows(Initial(front), run) ensures OwnIn(After(Initial(front), run), a) {
        RunKeeps(Initial(front), run);
      }
    } else {
      BlankRunLeaks();
      var s := After(Initial(None), BlankRun());
      assert !Belongs(s.handed[0]);
      assert !OwnIn(s, a);
    }
  }

  /** The same holds of what is cached, at every point of a run. */
  lemma CachedTokensExactly(a: Address)
    ensures AlwaysCachesOwn(a) <==> a != ""
  {
    if a != "" {
      forall front, run | Follows(Initial(front), run) ensures CachesOwn(After(Initial(front), run), a) {
        RunKeeps(Initial(front), run);
      }
    } else {
      BlankRunLeaks();
      assert !CachesOwn(After(Initial(None), BlankRun()), a);
    }
  }
}
