/**
 * The life of a cached token (app/src/auth/googleAuth.ts:107-151, 216-360):
 * nothing minted before an address was signed out, or its grant turned out to
 * be gone, is handed out for it again; and where Play services answers as
 * asked, callers and sessions do get their tokens.
 */
module GoogleTokens {
  import opened Common
  import opened GoogleAuth

  // -------------------------------------------------- what sign-out ends --

  /** The account the running task gives up when this reply comes: its grant is gone, or a blanket sign-out goes on to it. */
  predicate GivesUp(running: Awaiting, reply: Reply, a: Address) {
    match running
    case GetTokens(b, _) => b == a && reply.Failed? && reply.permanent
    case SignOut(rest, all) => all && reply.Done? && rest != [] && rest[0] == a
    case _ => false
  }

  /** This step begins to sign `a` out. */
  predicate SignsOut(s: State, step: Step, a: Address)
    requires Enabled(s, step)
  {
    match step
    case Call(_, _) => false
    case Begin(_) => s.queue[0] == SignOutOne(a) || (s.queue[0].SignOutAll? && s.seen != [] && s.seen[0] == a)
    case Answer(reply, _) => GivesUp(s.running.value, reply, a)
  }

  /** This step ends the loop of a blanket sign-out. */
  predicate SignsAllOut(s: State, step: Step)
    requires Enabled(s, step)
  {
    match step
    case Call(_, _) => false
    case Begin(_) => s.queue[0].SignOutAll? && s.seen == []
    case Answer(reply, _) => reply.Done? && s.running.value == SignOut([], true)
  }

  /** Every token was minted by now. */
  ghost predicate Counted(s: State) {
    && (forall a | a in s.tokens :: s.tokens[a].token.number < s.minted)
    && (forall i | 0 <= i < |s.handed| :: s.handed[i].token.number < s.minted)
  }

  /** What is cached for `a`, and what was handed out for it after the first `n`, was minted as number `m` or later. */
  ghost predicate OnlySince(s: State, a: Address, m: nat, n: nat) {
    && m <= s.minted && n <= |s.handed|
    && (a in s.tokens ==> s.tokens[a].token.number >= m)
    && (forall i | n <= i < |s.handed| && s.handed[i].address == a :: s.handed[i].token.number >= m)
  }

  lemma StepCounts(s: State, step: Step)
    requires Counted(s) && Enabled(s, step)
    ensures Counted(Apply(s, step))
  {
    match step
    case Call(task, now) =>
    case Begin(now) => BeginCounts(s, now);
    case Answer(reply, now) => AnswerCounts(s, reply, now);
  }

  lemma BeginCounts(s: State, now: int)
    requires Counted(s) && Enabled(s, Begin(now))
    ensures Counted(Apply(s, Begin(now)))
  {
  }

  lemma AnswerCounts(s: State, reply: Reply, now: int)
    requires Counted(s) && Enabled(s, Answer(reply, now))
    ensures Counted(Apply(s, Answer(reply, now)))
  {
  }

  lemma StepKeepsSince(s: State, step: Step, a: Address, m: nat, n: nat)
    requires OnlySince(s, a, m, n) && Enabled(s, step)
    ensures OnlySince(Apply(s, step), a, m, n)
  {
    match step
    case Call(task, now) =>
    case Begin(now) => BeginKeepsSince(s, now, a, m, n);
    case Answer(reply, now) => AnswerKeepsSince(s, reply, now, a, m, n);
  }

  lemma BeginKeepsSince(s: State, now: int, a: Address, m: nat, n: nat)
    requires OnlySince(s, a, m, n) && Enabled(s, Begin(now))
    ensures OnlySince(Apply(s, Begin(now)), a, m, n)
  {
  }

  lemma AnswerKeepsSince(s: State, reply: Reply, now: int, a: Address, m: nat, n: nat)
    requires OnlySince(s, a, m, n) && Enabled(s, Answer(reply, now))
    ensures OnlySince(Apply(s, Answer(reply, now)), a, m, n)
  {
  }

  lemma {:induction false} RunKeepsSince(s: State, run: seq<Step>, a: Address, m: nat, n: nat)
    requires OnlySince(s, a, m, n) && Follows(s, run)
    ensures OnlySince(After(s, run), a, m, n)
    decreases |run|
  {
    if run != [] {
      StepKeepsSince(s, run[0], a, m, n);
      RunKeepsSince(Apply(s, run[0]), run[1..], a, m, n);
    }
  }

  lemma {:induction false} RunCounts(s: State, run: seq<Step>)
    requires Counted(s) && Follows(s, run)
    ensures Counted(After(s, run))
    decreases |run|
  {
    if run != [] {
      StepCounts(s, run[0]);
      RunCounts(Apply(s, run[0]), run[1..]);
    }
  }

  /** Sign-out drops what is cached, and hands out nothing. */
  lemma SignOutDrops(s: State, step: Step, a: Address)
    requires Enabled(s, step) && (SignsOut(s, step, a) || SignsAllOut(s, step))
    ensures var s' := Apply(s, step);
      a !in s'.tokens && s'.handed == s.handed && s'.minted == s.minted
  {
  }

  /** `t` hands out for `a`, after the first `n` tokens, none of those. */
  ghost predicate NoneAgain(t: State, a: Address, n: nat)
    requires n <= |t.handed|
  {
    forall i, j | 0 <= i < n <= j < |t.handed| && t.handed[j].address == a :: t.handed[j].token != t.handed[i].token
  }

  /**
   * From the moment an address is signed out, or its grant is found gone,
   * over every run: what is handed out for it was minted afterwards, so it is
   * no token ever handed out before.
   */
  lemma SignedOutIsForgotten(front: Option<Address>, before: seq<Step>, step: Step, after: seq<Step>, a: Address)
    requires Follows(Initial(front), before) && Enabled(After(Initial(front), before), step)
    requires SignsOut(After(Initial(front), before), step, a)
    requires Follows(Apply(After(Initial(front), before), step), after)
    ensures var s := After(Initial(front), before);
      var t := After(Apply(s, step), after);
      && |s.handed| <= |t.handed| && NoneAgain(t, a, |s.handed|)
      && (forall j | |s.handed| <= j < |t.handed| && t.handed[j].address == a :: t.handed[j].token.number >= s.minted)
  {
    ForgottenSince(front, before, step, after, a);
  }

  /** From the end of a blanket sign-out's loop on, so for every address. */
  lemma AllSignedOutAreForgotten(front: Option<Address>, before: seq<Step>, step: Step, after: seq<Step>)
    requires Follows(Initial(front), before) && Enabled(After(Initial(front), before), step)
    requires SignsAllOut(After(Initial(front), before), step)
    requires Follows(Apply(After(Initial(front), before), step), after)
    ensures var s := After(Initial(front), before);
      var t := After(Apply(s, step), after);
      && |s.handed| <= |t.handed|
      && (forall i, j | 0 <= i < |s.handed| <= j < |t.handed| :: t.handed[j].token != t.handed[i].token)
      && (forall j | |s.handed| <= j < |t.handed| :: t.handed[j].token.number >= s.minted)
  {
    var s := After(Initial(front), before);
    var t := After(Apply(s, step), after);
    HandedGrows(Apply(s, step), after);
    SignOutDrops(s, step, "");
    forall j | |s.handed| <= j < |t.handed|
      ensures t.handed[j].token.number >= s.minted && forall i | 0 <= i < |s.handed| :: t.handed[j].token != t.handed[i].token
    {
      ForgottenSince(front, before, step, after, t.handed[j].address);
    }
  }

  lemma ForgottenSince(front: Option<Address>, before: seq<Step>, step: Step, after: seq<Step>, a: Address)
    requires Follows(Initial(front), before) && Enabled(After(Initial(front), before), step)
    requires SignsOut(After(Initial(front), before), step, a) || SignsAllOut(After(Initial(front), before), step)
    requires Follows(Apply(After(Initial(front), before), step), after)
    ensures var s := After(Initial(front), before);
      var t := After(Apply(s, step), after);
      && |s.handed| <= |t.handed| && NoneAgain(t, a, |s.handed|)
      && (forall j | |s.handed| <= j < |t.handed| && t.handed[j].address == a :: t.handed[j].token.number >= s.minted)
  {
    var s := After(Initial(front), before);
    RunCounts(Initial(front), before);
    SignOutDrops(s, step, a);
    RunKeepsSince(Apply(s, step), after, a, s.minted, |s.handed|);
    HandedGrows(Apply(s, step), after);
  }

  /** What was handed out stays on record. */
  lemma {:induction false} HandedGrows(s: State, run: seq<Step>)
    requires Follows(s, run)
    ensures s.handed <= After(s, run).handed
    decreases |run|
  {
    if run != [] {
      HandedStays(s, run[0]);
      HandedGrows(Apply(s, run[0]), run[1..]);
    }
  }

  lemma HandedStays(s: State, step: Step)
    requires Enabled(s, step)
    ensures s.handed <= Apply(s, step).handed
  {
  }

  // ----------------------------------------------- a blanket sign-out ends --

  /** `n` times done. */
  function Dones(n: nat, now: int): (run: seq<Step>) {
    if n == 0 then [] else [Answer(Done, now)] + Dones(n - 1, now)
  }

  lemma {:induction false} LoopEnds(s: State, rest: seq<Address>, now: int)
    requires s.running == Some(SignOut(rest, true)) && forall a | a in s.seen :: a in rest
    ensures Follows(s, Dones(|rest| + 2, now))
    ensures var t := After(s, Dones(|rest| + 2, now));
      t.running.None? && t.tokens == map[] && t.seen == [] && t.front.None? && t.handed == s.handed && t.queue == s.queue
    decreases |rest|
  {
    var run := Dones(|rest| + 2, now);
    var s1 := Apply(s, run[0]);
    assert run[1..] == Dones(|rest| + 1, now);
    if rest != [] {
      WithoutMeans(s.seen, rest[0]);
      LoopEnds(s1, rest[1..], now);
    } else {
      NobodySeen(s.seen, rest);
      LastEnds(s1, now);
    }
  }

  lemma NobodySeen(seen: seq<Address>, rest: seq<Address>)
    requires forall a | a in seen :: a in rest
    ensures seen != [] ==> rest != []
  {
    if seen != [] {
      assert seen[0] in rest;
    }
  }

  lemma LastEnds(s: State, now: int)
    requires s.running == Some(SignOutLast)
    ensures Follows(s, Dones(1, now))
    ensures var t := After(s, Dones(1, now));
      t == s.(front := None, running := None)
  {
    var run := Dones(1, now);
    assert Dones(0, now) == [] && run == [Answer(Done, now)] && run[1..] == [];
  }

  lemma {:induction false} WithoutMeans(seen: seq<Address>, a: Address)
    ensures forall x :: x in Without(seen, a) <==> x in seen && x != a
  {
    if seen != [] {
      WithoutMeans(seen[1..], a);
      assert seen == [seen[0]] + seen[1..];
    }
  }

  /** Each account seen is signed out, then everything cached is dropped: nobody is left. */
  lemma BlanketSignsAllOut(s: State, now: int)
    requires s.running.None? && s.queue != [] && s.queue[0] == SignOutAll
    ensures var run := [Begin(now)] + Dones(|s.seen| + 1, now);
      && Follows(s, run)
      && var t := After(s, run);
      t.running.None? && t.tokens == map[] && t.seen == [] && t.front.None? && t.handed == s.handed && t.queue == s.queue[1..]
  {
    var run := [Begin(now)] + Dones(|s.seen| + 1, now);
    var s1 := Apply(s, Begin(now));
    assert run[0] == Begin(now) && run[1..] == Dones(|s.seen| + 1, now);
    if s.seen == [] {
      LastEnds(s1, now);
    } else {
      WithoutMeans(s.seen, s.seen[0]);
      LoopEnds(s1, s.seen[1..], now);
    }
  }

  // ----------------------------------------------------- who gets a token --

  /** `t` is `s` with one more token handed out for `a`, newly minted for it and cached. */
  ghost predicate Served(s: State, t: State, a: Address, session: bool, now: int) {
    && t.handed == s.handed + [Handed(a, Token(a, s.minted), session, now, now)]
    && a in t.tokens && t.tokens[a] == Held(Token(a, s.minted), now, now + TOKEN_TTL_MS)
    && (forall b | b != a :: (b in t.tokens <==> b in s.tokens) && (b in s.tokens ==> t.tokens[b] == s.tokens[b]))
    && t.running.None? && a in t.seen && t.minted == s.minted + 1
  }

  /** With the account asked for in front, a refresh is served, and so is a restored session. */
  lemma AskedIsServed(s: State, a: Address, session: bool, now: int)
    requires s.running.None? && s.queue != [] && (session ==> a != "")
    requires s.queue[0] == if session then Restore(a) else Refresh(a)
    requires session || a !in s.tokens || s.tokens[a].expiresAt <= now
    ensures var run := [Begin(now), Answer(User(a), now), Answer(Minted, now)];
      && Follows(s, run)
      && Served(s, After(s, run), a, session, now) && After(s, run).queue == s.queue[1..]
  {
    var run := [Begin(now), Answer(User(a), now), Answer(Minted, now)];
    var s1 := Apply(s, run[0]);
    var s2 := Apply(s1, run[1]);
    ThreeSteps(s, run[0], run[1], run[2]);
  }

  lemma ThreeSteps(s: State, a: Step, b: Step, c: Step)
    requires Enabled(s, a)
    requires Enabled(Apply(s, a), b)
    requires Enabled(Apply(Apply(s, a), b), c)
    ensures Follows(s, [a, b, c]) && After(s, [a, b, c]) == Apply(Apply(Apply(s, a), b), c)
  {
    var s2 := Apply(Apply(s, a), b);
    assert [a, b, c][1..] == [b, c] && [b, c][1..] == [c] && [c][1..] == [];
    assert Follows(Apply(s2, c), []) && Follows(s2, [c]) && Follows(Apply(s, a), [b, c]);
    assert After(s2, [c]) == After(Apply(s2, c), []);
    assert After(Apply(s, a), [b, c]) == After(s2, [c]);
  }

  /** Whoever the user picks gets a session, with Play services pointed at it. */
  lemma PickedIsServed(s: State, a: Address, now: int)
    requires s.running == Some(Picker)
    ensures Enabled(s, Answer(User(a), now)) && Enabled(Apply(s, Answer(User(a), now)), Answer(Minted, now))
    ensures var t := Apply(Apply(s, Answer(User(a), now)), Answer(Minted, now));
      Served(s, t, a, true, now) && t.configured == Some(Some(a)) && t.front == Some(a)
  {
  }

  /** Signing in leads to the picker, whether or not anyone was there to sign out first. */
  lemma SignInPicks(s: State, first: Reply, now: int)
    requires s.running.None? && s.queue != [] && s.queue[0] == SignIn && (first.Done? || first.Failed?)
    ensures var run := [Begin(now), Answer(Done, now), Answer(first, now)];
      Follows(s, run) && After(s, run).running == Some(Picker) && After(s, run).configured == Some(None)
      && After(s, run).tokens == s.tokens && After(s, run).handed == s.handed
  {
    ThreeSteps(s, Begin(now), Answer(Done, now), Answer(first, now));
  }

  /** What is cached and not expired is served at once, whether the caller just came or waited in the queue. */
  lemma CachedIsServed(s: State, a: Address, now: int)
    requires a in s.tokens && now < s.tokens[a].expiresAt
    ensures var h := Handed(a, s.tokens[a].token, false, s.tokens[a].fetched, now);
      && Apply(s, Call(Refresh(a), now)) == s.(handed := s.handed + [h])
      && (s.running.None? && s.queue != [] && s.queue[0] == Refresh(a) ==>
            Apply(s, Begin(now)) == s.(queue := s.queue[1..], handed := s.handed + [h]))
  {
  }

  /** Another account than the one asked for gets nobody a token, and costs nobody theirs. */
  lemma AnotherIsRefused(s: State, asked: Address, purpose: Purpose, got: Address, now: int)
    requires s.running == Some(SignInSilently(Some(asked), purpose)) && asked != "" && got != asked
    ensures Apply(s, Answer(User(got), now)) == s.(front := Some(got), running := None)
  {
  }

  /** With nothing stored, whoever is in front gets a session. */
  lemma FrontIsServed(s: State, a: Address, now: int)
    requires s.running.None? && s.queue != [] && s.queue[0] == RestoreFront
    ensures var run := [Begin(now), Answer(User(a), now), Answer(Minted, now)];
      && Follows(s, run)
      && Served(s, After(s, run), a, true, now) && After(s, run).queue == s.queue[1..]
  {
    ThreeSteps(s, Begin(now), Answer(User(a), now), Answer(Minted, now));
  }
}
