/** What holds over every run of `Background`: one graph, no deadlock, and quiet once idle. */
module BackgroundSafety {
  import opened Common
  import opened Background
  import opened BackgroundInvariant

  // -------------------------------------------------------------- resume --

  /** The state as `w` wakes: its job gone, and it waits for nothing. */
  function Awoken(s: State, w: Waiter): (s': State)
    requires s.queue != []
  {
    Woken(s.(queue := s.queue[1..]), w)
  }

  /** Everyone else in the queue is someone else. */
  lemma OthersQueued(s: State, w: Waiter)
    requires Clears(s.headless, s.headlessAction, s.runs, s.queue) && QueuedOnce(s.queue) && Told(s.runs, s.waits, s.queue)
    requires s.queue != [] && s.queue[0] == Resume(w)
    ensures var s' := Awoken(s, w);
      && Clears(s'.headless, s'.headlessAction, s'.runs, s'.queue) && QueuedOnce(s'.queue) && Told(s'.runs, s'.waits, s'.queue)
  {
    Popped(s.queue);
    var rest := s.queue[1..];
    forall i | 0 <= i < |rest| ensures rest[i] == s.queue[i + 1] && About(rest[i]) != By(w) {}
  }

  lemma OthersListed(s: State, w: Waiter)
    requires Listed(s.runs, s.waits) && w in s.waits && SettledIn(s.runs, s.waits[w])
    ensures Listed(s.runs, s.waits - {w})
  {
    forall u | u in s.runs ensures ListIsRight(s.runs[u], s.waits - {w}, u) {
      assert ListIsRight(s.runs[u], s.waits, u);
    }
  }

  lemma OthersFirst(s: State, w: Waiter)
    requires ToldFirst(s.waits, s.queue) && s.queue != []
    ensures ToldFirst(s.waits - {w}, s.queue[1..])
  {
    PoppedToldFirst(s.waits, s.queue);
    var (waits', rest) := (s.waits - {w}, s.queue[1..]);
    forall a, b | 0 <= a < |rest| && 0 <= b < |rest| && SameWait(waits', rest[a], rest[b]) ensures Ahead(rest, a, b) {
      assert SameWait(s.waits, rest[a], rest[b]);
    }
  }

  /** When an action wakes, no pass call waits for what it waited for: they were all told before it. */
  lemma NoCallBehind(runs: Runs, waits: Waits, queue: seq<Job>, k: nat)
    requires queue != [] && queue[0] == Resume(Action(k)) && Told(runs, waits, queue) && NoneLost(runs, waits, queue) && ToldFirst(waits, queue)
    ensures Action(k) in waits && forall x | x in waits && x.PassCall? :: waits[x] != waits[Action(k)]
  {
    var t := waits[Action(k)];
    assert SettledIn(runs, t);
    forall x | x in waits && x.PassCall? ensures waits[x] != t {
      assert waits[x] == t ==> WillHear(runs[t], x, queue);
      assert forall a | 0 <= a < |queue| && SameWait(waits, queue[a], queue[0]) :: Ahead(queue, a, 0);
      assert forall a | 0 <= a < |queue| && queue[a] in {Caught(x), Resume(x)} && waits[x] == t :: SameWait(waits, queue[a], queue[0]);
    }
  }

  lemma WakeKeepsNext(actions: nat, waits: Waits, w: Waiter)
    requires NextWaitsToo(actions, waits) && w in waits
    requires w.Action? ==> forall x | x in waits && x.PassCall? :: waits[x] != waits[w]
    ensures NextWaitsToo(actions, waits - {w})
  {
  }

  lemma WakeKeepsTurns(runs: Runs, waits: Waits, w: Waiter)
    requires InTurn(runs, waits) && WaitsAreRight(runs, waits) && w in waits && SettledIn(runs, waits[w])
    ensures InTurn(runs, waits - {w})
  {
    assert WaitIsRight(runs, w, waits[w]);
    if w.Action? && waits[w].ActionOf? {
      AllBefore(runs, waits, waits[w].k);
    }
    forall j, k | j < k && ActionOf(j) in runs && ActionOf(k) in runs && PastPrevious(waits - {w}, k) ensures SettledIn(runs, ActionOf(j)) {
      assert w != Action(k) ==> PastPrevious(waits, k);
    }
  }

  lemma WakeKeeps(s: State, w: Waiter)
    requires Inv(s, None) && s.queue != [] && s.queue[0] == Resume(w)
    ensures w in s.waits && Inv(Awoken(s, w), Some(w))
  {
    assert WaitIsRight(s.runs, w, s.waits[w]);
    OthersQueued(s, w);
    OthersListed(s, w);
    OthersFirst(s, w);
    PoppedNoneLost(s.runs, s.waits, s.queue);
    if w.Action? {
      NoCallBehind(s.runs, s.waits, s.queue, w.k);
    }
    WakeKeepsNext(s.actions, s.waits, w);
    WakeKeepsTurns(s.runs, s.waits, w);
    WakeKeepsRest(s, w);
  }

  lemma WakeKeepsRest(s: State, w: Waiter)
    requires Inv(s, None) && w in s.waits && s.queue != []
    ensures var s' := Awoken(s, w);
      Awake(s', Some(w)) && Suspended(s'.runs, s'.waits, Some(w)) && WaitsAreRight(s'.runs, s'.waits) && Variables(s')
  {
    assert WaitIsRight(s.runs, w, s.waits[w]);
  }

  /** An action behind one still waiting for its turn is waiting for its own. */
  lemma WaitsBehind(runs: Runs, waits: Waits, j: nat, k: nat)
    requires InTurn(runs, waits) && WaitsAreRight(runs, waits) && j <= k && ActionOf(j) in runs && ActionOf(k) in runs
    requires Action(j) in waits
    ensures runs[ActionOf(k)].phase.Waiting?
  {
    assert WaitIsRight(runs, Action(j), waits[Action(j)]);
    assert Action(k) in waits ==> WaitIsRight(runs, Action(k), waits[Action(k)]);
    assert k > j ==> !PastPrevious(waits, k);
  }

  /** While a pass call waits for a settled action, no action is on a graph. */
  lemma NoGraphBehind(s: State, i: nat)
    requires Inv(s, None) && PassCall(i) in s.waits && SettledIn(s.runs, s.waits[PassCall(i)])
    ensures NoActionGraph(s.runs)
  {
    var t := s.waits[PassCall(i)];
    assert WaitIsRight(s.runs, PassCall(i), t);
    forall k: nat | ActionOf(k) in s.runs ensures !s.runs[ActionOf(k)].phase.OnGraph? {
      if k <= t.k {
        AllBefore(s.runs, s.waits, t.k);
      } else {
        assert Action(t.k + 1) in s.waits;
        WaitsBehind(s.runs, s.waits, t.k + 1, k);
      }
    }
  }

  // --------------------------------------------------------------- calls --

  /** Only an action's code running now makes a difference to the invariant. */
  lemma NobodyNow(s: State, w: Waiter)
    requires Inv(s, Some(w)) && !w.Action?
    ensures Inv(s, None)
  {
  }

  /** A pass call that wakes runs on the app, joins the pass at work, or starts one. */
  lemma CallWakes(s: State, i: nat, throws: bool)
    requires Inv(s, None) && s.queue != [] && s.queue[0] == Resume(PassCall(i))
    ensures Inv(AfterAction(Awoken(s, PassCall(i)), throws), None)
  {
    var w := PassCall(i);
    WakeKeeps(s, w);
    NoGraphBehind(s, i);
    var s' := Awoken(s, w);
    NobodyNow(s', w);
    if s'.foreground.None? && s'.headless.None? {
      StartPassKeeps(s', throws);
    }
  }

  lemma ResumeKeeps(s: State, w: Waiter, throws: bool)
    requires Inv(s, None) && s.queue != [] && s.queue[0] == Resume(w)
    ensures Enabled(s, RunJob(throws)) && Inv(JobDone(s, throws), None)
  {
    WakeKeeps(s, w);
    match w {
      case PassCall(i) => CallWakes(s, i, throws);
      case Action(k) => ActionBodyKeeps(Awoken(s, w), k, throws);
      case Idle(j) => IdleGoesOnKeeps(Awoken(s, w), j, s.waits[w]);
    }
  }

  lemma JobKeeps(s: State, throws: bool)
    requires Inv(s, None) && s.queue != []
    ensures Enabled(s, RunJob(throws)) && Inv(JobDone(s, throws), None)
  {
    match s.queue[0]
    case Clear(t) => ClearKeeps(s, t);
    case Caught(w) => CaughtKeeps(s, w);
    case Resume(w) => ResumeKeeps(s, w, throws);
  }

  /** With nothing queued, a run that a variable names is not over. */
  lemma NamedIsAtWork(s: State)
    requires Inv(s, None) && s.queue == []
    ensures s.headlessAction.Some? ==> !SettledIn(s.runs, ActionOf(s.headlessAction.value))
    ensures s.headless.Some? ==> !SettledIn(s.runs, PassOf(s.headless.value))
    ensures s.headlessAction.None? ==> NoActionGraph(s.runs)
  {
  }

  lemma CallPassKeeps(s: State, throws: bool)
    requires Inv(s, None) && s.queue == []
    ensures Inv(Apply(s, CallPass(throws)), None)
  {
    NamedIsAtWork(s);
    if s.foreground.None? && s.headless.None? {
      if s.headlessAction.Some? {
        AwaitKeeps(s.(calls := s.calls + 1), PassCall(s.calls), ActionOf(s.headlessAction.value));
      } else {
        StartPassKeeps(s, throws);
      }
    }
  }

  /** A first action in a row: its body starts at once. */
  lemma FirstActionKeeps(s: State, throws: bool)
    requires Inv(s, None) && s.queue == [] && s.headlessAction.None?
    ensures Inv(ActionBody(WithAction(s), s.actions, throws).(headlessAction := Some(s.actions)), None)
  {
    var (k, s1) := (s.actions, WithAction(s));
    ClaimKeeps(s);
    ActionBodyKeeps(s1.(headlessAction := Some(k)), k, throws);
    ClaimCommutes(s1, k, throws);
  }

  lemma ClaimKeeps(s: State)
    requires Inv(s, None) && s.queue == [] && s.headlessAction.None?
    ensures Inv(WithAction(s).(headlessAction := Some(s.actions)), Some(Action(s.actions)))
  {
    var k := s.actions;
    var claimed := WithAction(s).(headlessAction := Some(k));
    assert ActionOf(k) !in s.runs;
    RunAdded(s, ActionOf(k), Run(Waiting, []));
    forall w | w in s.waits ensures w != Action(k) && !s.waits[w].ActionOf? {
      NoCallYet(s, w);
    }
    assert Awake(claimed, Some(Action(k)));
    ClaimVariables(s);
    ClaimTurns(s.runs, s.waits, k);
    assert Clears(claimed.headless, claimed.headlessAction, claimed.runs, []);
    assert Suspended(claimed.runs, claimed.waits, Some(Action(k)));
    assert Apart(claimed.runs);
  }

  lemma ClaimVariables(s: State)
    requires Variables(s) && Numbered(s.passes, s.actions, s.runs) && s.headlessAction.None?
    ensures var claimed := WithAction(s).(headlessAction := Some(s.actions));
      Variables(claimed) && Numbered(claimed.passes, claimed.actions, claimed.runs)
  {
  }

  lemma ClaimTurns(runs: Runs, waits: Waits, k: nat)
    requires forall j: nat | ActionOf(j) in runs :: j < k && SettledIn(runs, ActionOf(j))
    ensures InTurn(runs[ActionOf(k) := Run(Waiting, [])], waits)
  {
  }

  /** With nothing queued and every action over, no pass call waits for one. */
  lemma NoCallYet(s: State, w: Waiter)
    requires Inv(s, None) && s.queue == [] && s.headlessAction.None? && w in s.waits
    ensures !s.waits[w].ActionOf?
  {
    assert WaitIsRight(s.runs, w, s.waits[w]);
    assert WillHear(s.runs[s.waits[w]], w, s.queue);
  }

  lemma ClaimCommutes(s: State, k: nat, throws: bool)
    requires Sound(s) && ActionOf(k) in s.runs
    ensures ActionBody(s, k, throws).(headlessAction := Some(k)) == ActionBody(s.(headlessAction := Some(k)), k, throws)
  {
  }

  /** An action behind another: it joins that one's waiters, last. */
  lemma NextActionKeeps(s: State)
    requires Inv(s, None) && s.queue == [] && s.headlessAction.Some?
    ensures Inv(Await(WithAction(s), Action(s.actions), ActionOf(s.headlessAction.value)).(headlessAction := Some(s.actions)), None)
  {
    NamedIsAtWork(s);
    var (k, p) := (s.actions, ActionOf(s.headlessAction.value));
    var s1 := WithAction(s);
    var s' := Await(s1, Action(k), p).(headlessAction := Some(k));
    assert Action(k) !in s.waits by {
      assert forall w | w in s.waits :: Named(s, w);
    }
    NextLists(s, k, p);
    NextTurn(s, s', k, p);
    NextActionRest(s, s', k, p);
  }

  lemma NextLists(s: State, k: nat, p: Target)
    requires Inv(s, None) && s.queue == [] && k == s.actions && p in s.runs && !SettledIn(s.runs, p) && Action(k) !in s.waits
    ensures var s' := Await(WithAction(s), Action(k), p);
      Listed(s'.runs, s'.waits) && NoneLost(s'.runs, s'.waits, s'.queue)
  {
    RunAdded(s, ActionOf(k), Run(Waiting, []));
    var s1 := WithAction(s);
    ListGrows(s1, Action(k), p);
    NoneLostListed(s1, Action(k), p);
  }

  lemma NextActionRest(s: State, s': State, k: nat, p: Target)
    requires Inv(s, None) && s.queue == [] == s'.queue && s.actions == k && p.ActionOf? && s.headlessAction == Some(p.k) && ActionOf(k) !in s.runs
    requires s' == s.(actions := k + 1, runs := s'.runs, waits := s.waits[Action(k) := p], headlessAction := Some(k))
    requires s'.runs.Keys == s.runs.Keys + {ActionOf(k)} && forall t | t in s.runs :: s'.runs[t].phase == s.runs[t].phase
    requires s'.runs[ActionOf(k)].phase.Waiting?
    ensures Numbered(s'.passes, s'.actions, s'.runs) && Variables(s') && Awake(s', None) && Suspended(s'.runs, s'.waits, None)
    ensures WaitsAreRight(s'.runs, s'.waits) && Apart(s'.runs) && Clears(s'.headless, s'.headlessAction, s'.runs, [])
  {
    SettledAlike(s.runs, s'.runs, ActionOf(k));
    NextVariables(s, s', k, p);
    NextWaits(s.runs, s'.runs, s.waits, k, p);
    assert Apart(s'.runs);
  }

  lemma SettledAlike(runs: Runs, runs': Runs, t: Target)
    requires t !in runs && runs'.Keys == runs.Keys + {t} && (forall u | u in runs :: runs'[u].phase == runs[u].phase) && !runs'[t].phase.Settled?
    ensures forall u :: SettledIn(runs, u) == SettledIn(runs', u)
  {
  }

  lemma NextVariables(s: State, s': State, k: nat, p: Target)
    requires Numbered(s.passes, s.actions, s.runs) && Variables(s) && Clears(s.headless, s.headlessAction, s.runs, []) && Awake(s, None)
    requires s.actions == k && p.ActionOf? && s.headlessAction == Some(p.k)
    requires s' == s.(actions := k + 1, runs := s'.runs, waits := s.waits[Action(k) := p], headlessAction := Some(k))
    requires s'.runs.Keys == s.runs.Keys + {ActionOf(k)} && forall t | t in s.runs :: s'.runs[t].phase == s.runs[t].phase
    requires s'.runs[ActionOf(k)].phase.Waiting? && s'.queue == []
    ensures Numbered(s'.passes, s'.actions, s'.runs) && Variables(s') && Awake(s', None) && Clears(s'.headless, s'.headlessAction, s'.runs, [])
  {
  }

  lemma NextWaits(runs: Runs, runs': Runs, waits: Waits, k: nat, p: Target)
    requires WaitsAreRight(runs, waits) && Suspended(runs, waits, None) && p in runs && p.ActionOf? && p.k + 1 == k && ActionOf(k) !in runs
    requires runs'.Keys == runs.Keys + {ActionOf(k)} && (forall t | t in runs :: runs'[t].phase == runs[t].phase) && runs'[ActionOf(k)].phase.Waiting?
    ensures WaitsAreRight(runs', waits[Action(k) := p]) && Suspended(runs', waits[Action(k) := p], None)
  {
    var waits' := waits[Action(k) := p];
    forall w | w in waits' ensures WaitIsRight(runs', w, waits'[w]) {
      assert w != Action(k) ==> WaitIsRight(runs, w, waits[w]);
    }
  }

  lemma NextTurn(s: State, s': State, k: nat, p: Target)
    requires InTurn(s.runs, s.waits) && NextWaitsToo(s.actions, s.waits) && Numbered(s.passes, s.actions, s.runs) && WaitsAreRight(s.runs, s.waits)
    requires s.actions == k && p.ActionOf? && p.k + 1 == k && !SettledIn(s.runs, p) && p in s.runs
    requires s'.waits == s.waits[Action(k) := p] && s'.actions == k + 1 && Action(k) !in s.waits
    requires s'.runs.Keys == s.runs.Keys + {ActionOf(k)} && forall t | t in s.runs :: s'.runs[t].phase == s.runs[t].phase
    ensures InTurn(s'.runs, s'.waits) && NextWaitsToo(s'.actions, s'.waits)
  {
    forall i, j | i < j && ActionOf(i) in s'.runs && ActionOf(j) in s'.runs && PastPrevious(s'.waits, j) ensures SettledIn(s'.runs, ActionOf(i)) {
      assert j != k && PastPrevious(s.waits, j);
      assert SettledIn(s.runs, ActionOf(i));
    }
    NextWaitsOn(s, s'.waits, k, p);
  }

  lemma NextWaitsOn(s: State, waits': Waits, k: nat, p: Target)
    requires NextWaitsToo(s.actions, s.waits) && WaitsAreRight(s.runs, s.waits) && Numbered(s.passes, s.actions, s.runs)
    requires s.actions == k && p.ActionOf? && p.k + 1 == k && waits' == s.waits[Action(k) := p]
    ensures NextWaitsToo(k + 1, waits')
  {
    forall w | w in waits' && w.PassCall? && waits'[w].ActionOf? && waits'[w].k + 1 < k + 1
      ensures Action(waits'[w].k + 1) in waits' && waits'[Action(waits'[w].k + 1)] == waits'[w]
    {
      assert s.waits[w] == waits'[w];
    }
  }

  /** The invariant does not speak of the app. */
  lemma AnyForeground(s: State, foreground: Option<nat>)
    requires Inv(s, None)
    ensures Inv(s.(foreground := foreground), None)
  {
  }

  lemma AppKeeps(s: State, step: Step)
    requires Inv(s, None) && Enabled(s, step) && (step.Attach? || step.Detach?)
    ensures Inv(Apply(s, step), None)
  {
    AnyForeground(s, if step.Attach? then Some(step.host) else None);
  }

  lemma CallIdleKeeps(s: State)
    requires Inv(s, None) && s.queue == []
    ensures Inv(Apply(s, CallIdle), None)
  {
    var s1 := s.(idles := s.idles + 1);
    IdleArrives(s);
    IdleLoopKeeps(s1, s.idles);
    IdleCalled(s, s1, IdleLoop(s1, s.idles));
  }

  lemma IdleCalled(s: State, s1: State, s2: State)
    requires Sound(s) && s.queue == [] && s1 == s.(idles := s.idles + 1) && s2 == IdleLoop(s1, s.idles)
    ensures Apply(s, CallIdle) == s2
  {
  }

  lemma IdleArrives(s: State)
    requires Inv(s, None)
    ensures Inv(s.(idles := s.idles + 1), Some(Idle(s.idles)))
  {
    assert Awake(s.(idles := s.idles + 1), Some(Idle(s.idles)));
  }

  lemma CallActionKeeps(s: State, throws: bool)
    requires Inv(s, None) && s.queue == []
    ensures Inv(Apply(s, CallAction(throws)), None)
  {
    if s.foreground.None? {
      if s.headlessAction.Some? { NextActionKeeps(s); } else { FirstActionKeeps(s, throws); }
    }
  }

  lemma CallKeeps(s: State, step: Step)
    requires Inv(s, None) && Enabled(s, step) && (step.CallPass? || step.CallAction? || step.CallIdle?)
    ensures Inv(Apply(s, step), None)
  {
    if step.CallPass? {
      CallPassKeeps(s, step.throws);
    } else if step.CallAction? {
      CallActionKeeps(s, step.throws);
    } else {
      CallIdleKeeps(s);
    }
  }

  lemma WorkKeeps(s: State, step: Step)
    requires Inv(s, None) && Enabled(s, step) && (step.Settle? || step.RunJob?)
    ensures Inv(Apply(s, step), None)
  {
    match step
    case Settle(t) => SettleKeeps(s, t);
    case RunJob(throws) => JobKeeps(s, throws);
  }

  lemma StepKeeps(s: State, step: Step)
    requires Inv(s, None) && Enabled(s, step)
    ensures Inv(Apply(s, step), None)
  {
    if step.Attach? || step.Detach? {
      AppKeeps(s, step);
    } else if step.Settle? || step.RunJob? {
      WorkKeeps(s, step);
    } else {
      CallKeeps(s, step);
    }
  }

  // ---------------------------------------------------------------- runs --

  predicate Follows(s: State, run: seq<Step>)
    decreases |run|
  {
    run != [] ==> Sound(s) && Enabled(s, run[0]) && Follows(Apply(s, run[0]), run[1..])
  }

  function After(s: State, run: seq<Step>): (s': State)
    requires Follows(s, run)
    decreases |run|
  {
    if run == [] then s else After(Apply(s, run[0]), run[1..])
  }

  lemma {:induction false} RunKeeps(s: State, run: seq<Step>)
    requires Inv(s, None) && Follows(s, run)
    ensures Inv(After(s, run), None)
    decreases |run|
  {
    if run != [] {
      StepKeeps(s, run[0]);
      RunKeeps(Apply(s, run[0]), run[1..]);
    }
  }

  lemma TwoActions(s: State, j: nat, k: nat)
    requires Inv(s, None) && j < k && ActionOf(j) in s.runs && ActionOf(k) in s.runs && s.runs[ActionOf(k)].phase.OnGraph?
    ensures s.runs[ActionOf(j)].phase.Settled?
  {
    assert Action(k) in s.waits ==> WaitIsRight(s.runs, Action(k), s.waits[Action(k)]);
    assert PastPrevious(s.waits, k);
  }

  lemma InvOneGraph(s: State)
    requires Inv(s, None)
    ensures OneGraph(s)
  {
    forall a, b | a in Graphs(s) && b in Graphs(s) ensures a == b {
      if a.ActionOf? && b.ActionOf? && a != b {
        if a.k < b.k { TwoActions(s, a.k, b.k); } else { TwoActions(s, b.k, a.k); }
      }
    }
  }

  /** Whatever is called, in whatever order, never more than one graph without an app is at work. */
  lemma NeverTwoGraphs(run: seq<Step>)
    requires Follows(Initial(), run)
    ensures OneGraph(After(Initial(), run))
  {
    InitialInv();
    RunKeeps(Initial(), run);
    InvOneGraph(After(Initial(), run));
  }

  /** Waiting leads, by what is waited for, to a run at work: there is no circle of waiters. */
  lemma {:induction false} WaitingEnds(s: State, w: Waiter)
    requires Inv(s, None) && s.queue == [] && w in s.waits
    ensures SomeoneWorks(s)
    decreases if s.waits[w].ActionOf? then s.waits[w].k + 1 else 0
  {
    var t := s.waits[w];
    assert WaitIsRight(s.runs, w, t);
    assert WillHear(s.runs[t], w, s.queue);
    if s.runs[t].phase.Waiting? {
      assert Action(t.k) in s.waits;
      assert WaitIsRight(s.runs, Action(t.k), s.waits[Action(t.k)]);
      WaitingEnds(s, Action(t.k));
    }
  }

  /** No deadlock: when nothing is queued and a call still waits, a run is at work that will end the wait. */
  lemma NoDeadlock(run: seq<Step>)
    requires Follows(Initial(), run)
    ensures var s := After(Initial(), run);
      s.queue == [] && s.waits != map[] ==> SomeoneWorks(s)
  {
    InitialInv();
    RunKeeps(Initial(), run);
    var s := After(Initial(), run);
    if s.queue == [] && s.waits != map[] {
      var w :| w in s.waits;
      WaitingEnds(s, w);
    }
  }

  // ------------------------------------------------------- quiet once idle --

  /** `backgroundIdle` comes back only where its loop ends. */
  lemma ResolvedWhereClear(s: State, step: Step, j: nat)
    requires Sound(s) && Enabled(s, step) && j !in s.resolved && j in Apply(s, step).resolved
    ensures Apply(s, step).headless.None? && Apply(s, step).headlessAction.None?
  {
    assert step.CallIdle? || step.RunJob?;
  }

  lemma ClearMeansQuiet(s: State)
    requires Inv(s, None) && s.headless.None? && s.headlessAction.None?
    ensures Graphs(s) == {}
  {
    forall t | t in s.runs ensures !s.runs[t].phase.OnGraph? {
      assert SettledIn(s.runs, if t.PassOf? then PassOf(t.h) else ActionOf(t.k));
    }
  }

  /** Where it does, nothing headless is at work. */
  lemma IdleMeansQuiet(s: State, step: Step, j: nat)
    requires Inv(s, None) && Enabled(s, step) && j !in s.resolved && j in Apply(s, step).resolved
    ensures Graphs(Apply(s, step)) == {}
  {
    StepKeeps(s, step);
    ResolvedWhereClear(s, step, j);
    ClearMeansQuiet(Apply(s, step));
  }

  predicate StaysAttached(s: State, run: seq<Step>)
    requires Follows(s, run)
    decreases |run|
  {
    s.foreground.Some? && (run != [] ==> StaysAttached(Apply(s, run[0]), run[1..]))
  }

  /** With an app attached, no step starts a graph. */
  lemma AttachedStartsNone(s: State, step: Step)
    requires Sound(s) && Enabled(s, step) && s.foreground.Some?
    ensures Graphs(Apply(s, step)) <= Graphs(s)
  {
    var s' := Apply(s, step);
    assert forall t | t in s'.runs && s'.runs[t].phase.OnGraph? :: t in s.runs && s.runs[t].phase.OnGraph?;
  }

  lemma {:induction false} AttachedRunStartsNone(s: State, run: seq<Step>)
    requires Inv(s, None) && Follows(s, run) && StaysAttached(s, run)
    ensures Graphs(After(s, run)) <= Graphs(s)
    decreases |run|
  {
    if run != [] {
      StepKeeps(s, run[0]);
      AttachedStartsNone(s, run[0]);
      AttachedRunStartsNone(Apply(s, run[0]), run[1..]);
    }
  }

  /**
   * Once an app is attached and its `backgroundIdle` has come back, there is
   * no graph but the app's own for as long as it stays attached.
   */
  lemma QuietOnceIdle(before: seq<Step>, step: Step, j: nat, after: seq<Step>)
    requires Follows(Initial(), before)
    requires var s := After(Initial(), before);
      Sound(s) && Enabled(s, step) && j !in s.resolved && j in Apply(s, step).resolved
      && Follows(Apply(s, step), after) && StaysAttached(Apply(s, step), after)
    ensures Graphs(After(Apply(After(Initial(), before), step), after)) == {}
  {
    InitialInv();
    RunKeeps(Initial(), before);
    var s := After(Initial(), before);
    IdleMeansQuiet(s, step, j);
    StepKeeps(s, step);
    AttachedRunStartsNone(Apply(s, step), after);
  }
}
