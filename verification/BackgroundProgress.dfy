/**
 * That things get done (app/src/background/pass.ts:43-173): where nothing
 * stands in its way a pass starts, an action past its waits works, and
 * `backgroundIdle` comes back; and what stands in the way is really at work.
 */
module BackgroundProgress {
  import opened Common
  import opened Background
  import opened BackgroundInvariant
  import opened BackgroundSafety

  /** A new pass: on a graph of its own, or over at once if that could not be built. */
  ghost predicate PassStarted(s: State, s': State, throws: bool) {
    var pass := PassOf(s.passes);
    && pass !in s.runs && pass in s'.runs
    && s'.runs[pass].phase == (if throws then Settled else OnGraph)
    && s'.headless == Some(s.passes) && s'.passes == s.passes + 1
    && (throws ==> Clear(pass) in s'.queue)
  }

  lemma StartIsStart(s: State, throws: bool)
    requires Inv(s, None)
    ensures PassStarted(s, StartPass(s, throws), throws)
  {
    var pass := PassOf(s.passes);
    assert pass !in s.runs;
    if throws {
      var s' := StartPass(s, throws);
      assert s'.queue[|s.queue|] == Clear(pass);
    }
  }

  /** With nothing queued, the variables name only what is at work: no settled pass or action holds anyone up. */
  lemma NothingStale(s: State)
    requires Inv(s, None) && s.queue == []
    ensures s.headless.Some? ==> s.runs[PassOf(s.headless.value)].phase.OnGraph?
    ensures s.headlessAction.Some? ==> !s.runs[ActionOf(s.headlessAction.value)].phase.Settled?
  {
    if s.headless.Some? {
      assert PassOf(s.headless.value) in s.runs;
    }
  }

  /**
   * A pass called for by the scheduler, after any run: it is not started only
   * where an app is there or another pass is at work; else it starts at once,
   * or waits for an action that is not over.
   */
  lemma PassDecides(run: seq<Step>, throws: bool)
    requires Follows(Initial(), run) && After(Initial(), run).queue == []
    ensures var s := After(Initial(), run);
      && Sound(s)
      && var s' := Apply(s, CallPass(throws));
      if s.foreground.Some? || (s.headless.Some? && s.runs[PassOf(s.headless.value)].phase.OnGraph?) then s' == s
      else if s.headlessAction.Some? then
        && !s.runs[ActionOf(s.headlessAction.value)].phase.Settled?
        && PassCall(s.calls) in s'.waits && s'.waits[PassCall(s.calls)] == ActionOf(s.headlessAction.value)
        && PassCall(s.calls) in s'.runs[ActionOf(s.headlessAction.value)].waiters
      else PassStarted(s, s', throws)
  {
    InitialInv();
    RunKeeps(Initial(), run);
    var s := After(Initial(), run);
    NothingStale(s);
    if s.foreground.None? && s.headless.None? && s.headlessAction.None? {
      StartIsStart(s, throws);
    }
  }

  /** A pass call that waited for an action and goes on: so it starts unless an app or a pass is there by now. */
  lemma WokenPassDecides(run: seq<Step>, i: nat, throws: bool)
    requires Follows(Initial(), run)
    requires var queue := After(Initial(), run).queue; queue != [] && queue[0] == Resume(PassCall(i))
    ensures var s := After(Initial(), run);
      && Sound(s) && Enabled(s, RunJob(throws))
      && var s' := Apply(s, RunJob(throws));
      && PassCall(i) !in s'.waits
      && if s.foreground.Some? || s.headless.Some? then s'.runs == s.runs && s'.headless == s.headless
         else PassStarted(s, s', throws)
  {
    InitialInv();
    RunKeeps(Initial(), run);
    JobsRun(After(Initial(), run), throws);
    var s := After(Initial(), run);
    var s1 := Woken(s.(queue := s.queue[1..]), PassCall(i));
    assert PassOf(s.passes) !in s.runs;
    if s.foreground.None? && s.headless.None? && throws {
      assert StartPass(s1, throws).queue[|s1.queue|] == Clear(PassOf(s.passes));
    }
  }

  /** Past its waits an action works: on the app's services if one is there, else on a graph, if that can be built. */
  ghost predicate ActionWorks(s: State, s': State, k: nat, throws: bool) {
    && ActionOf(k) in s'.runs
    && s'.runs[ActionOf(k)].phase == (if s.foreground.Some? then OnForeground else if throws then Settled else OnGraph)
  }

  /** An action whose wait is over: it waits again only for a pass, and else it works. */
  lemma WokenActionDecides(run: seq<Step>, k: nat, throws: bool)
    requires Follows(Initial(), run)
    requires var queue := After(Initial(), run).queue; queue != [] && queue[0] == Resume(Action(k))
    ensures var s := After(Initial(), run);
      && Sound(s) && Enabled(s, RunJob(throws))
      && var s' := Apply(s, RunJob(throws));
      if s.headless.Some? then Action(k) in s'.waits && s'.waits[Action(k)] == PassOf(s.headless.value)
      else Action(k) !in s'.waits && ActionWorks(s, s', k, throws)
  {
    InitialInv();
    RunKeeps(Initial(), run);
    JobsRun(After(Initial(), run), throws);
  }

  /** A new action waits for the one before, then for a pass, and else works. */
  ghost predicate ActionStarted(s: State, s': State, throws: bool) {
    var k := s.actions;
    && ActionOf(k) !in s.runs && ActionOf(k) in s'.runs && s'.headlessAction == Some(k) && s'.actions == k + 1
    && if s.headlessAction.Some? then Action(k) in s'.waits && s'.waits[Action(k)] == ActionOf(s.headlessAction.value)
       else if s.headless.Some? then Action(k) in s'.waits && s'.waits[Action(k)] == PassOf(s.headless.value)
       else ActionWorks(s, s', k, throws)
  }

  lemma AwaitWaits(s: State, w: Waiter, t: Target)
    requires t in s.runs
    ensures var s' := Await(s, w, t);
      s'.waits == s.waits[w := t] && s'.runs.Keys == s.runs.Keys && s'.actions == s.actions
  {
  }

  lemma CalledIsStarted(s: State, throws: bool)
    requires Sound(s) && s.foreground.None? && ActionOf(s.actions) !in s.runs
    ensures ActionStarted(s, ActionCalled(s, throws), throws)
  {
    var (k, s1) := (s.actions, WithAction(s));
    if s.headlessAction.Some? {
      AwaitWaits(s1, Action(k), ActionOf(s.headlessAction.value));
    } else if s.headless.Some? {
      AwaitWaits(s1, Action(k), PassOf(s.headless.value));
    }
  }

  /** A notification's button: with an app there nothing is started; else a new action is. */
  lemma ActionDecides(run: seq<Step>, throws: bool)
    requires Follows(Initial(), run) && After(Initial(), run).queue == []
    ensures var s := After(Initial(), run);
      && Sound(s)
      && var s' := Apply(s, CallAction(throws));
      if s.foreground.Some? then s' == s else ActionStarted(s, s', throws)
  {
    InitialInv();
    RunKeeps(Initial(), run);
    var s := After(Initial(), run);
    assert ActionOf(s.actions) !in s.runs;
    if s.foreground.None? {
      CalledIsStarted(s, throws);
    }
  }

  /** The engine is never stuck: what is queued can run. */
  lemma JobsRun(s: State, throws: bool)
    requires Inv(s, None) && s.queue != []
    ensures Sound(s) && Enabled(s, RunJob(throws))
  {
    if s.queue[0].Resume? {
      assert s.queue[0].w in s.waits;
      assert WaitIsRight(s.runs, s.queue[0].w, s.waits[s.queue[0].w]);
    }
  }

  // -------------------------------------------------------- nobody is lost --

  /** Every `backgroundIdle` called for has come back or still waits. */
  ghost predicate IdlesKept(s: State, now: Option<Waiter>) {
    forall j: nat | j < s.idles :: j in s.resolved || Idle(j) in s.waits || now == Some(Idle(j))
  }

  lemma IdleLoopKeepsAll(s: State, j: nat)
    requires Sound(s) && IdlesKept(s, Some(Idle(j)))
    ensures IdlesKept(IdleLoop(s, j), None)
  {
  }

  lemma StepKeepsIdles(s: State, step: Step)
    requires Inv(s, None) && Enabled(s, step) && IdlesKept(s, None)
    ensures IdlesKept(Apply(s, step), None)
  {
    match step
    case CallIdle => IdleLoopKeepsAll(s.(idles := s.idles + 1), s.idles);
    case RunJob(throws) => JobKeepsIdles(s, throws);
    case _ =>
  }

  /** Idles hang on three fields only, and waiting more does not hurt. */
  lemma StillKept(s: State, s': State, now: Option<Waiter>)
    requires IdlesKept(s, now) && s'.idles == s.idles && s'.resolved == s.resolved && s.waits.Keys <= s'.waits.Keys
    ensures IdlesKept(s', now)
  {
  }

  /** The code of `w` runs; it waited for `t`. */
  function Resumed(s: State, w: Waiter, t: Target, throws: bool): (s': State)
    requires Sound(s) && (w.Action? ==> ActionOf(w.k) in s.runs)
  {
    match w
    case PassCall(_) => AfterAction(s, throws)
    case Action(k) => ActionBody(s, k, throws)
    case Idle(j) => IdleGoesOn(s, j, t)
  }

  lemma ResumedKeepsAll(s: State, w: Waiter, t: Target, throws: bool)
    requires Sound(s) && (w.Action? ==> ActionOf(w.k) in s.runs) && IdlesKept(s, Some(w))
    ensures IdlesKept(Resumed(s, w, t, throws), None)
  {
    match w
    case PassCall(_) => StillKept(s, AfterAction(s, throws), Some(w));
    case Action(k) =>
      BodyWaits(s, k, throws);
      StillKept(s, ActionBody(s, k, throws), Some(w));
    case Idle(j) => IdleGoesOnKeepsAll(s, j, t);
  }

  lemma WakingKeepsAll(s: State, w: Waiter)
    requires IdlesKept(s, None) && s.queue != []
    ensures IdlesKept(Woken(s.(queue := s.queue[1..]), w), Some(w))
  {
  }

  lemma JobKeepsIdles(s: State, throws: bool)
    requires Sound(s) && Enabled(s, RunJob(throws)) && IdlesKept(s, None)
    ensures IdlesKept(Apply(s, RunJob(throws)), None)
  {
    if s.queue[0].Resume? {
      var w := s.queue[0].w;
      var s2 := Woken(s.(queue := s.queue[1..]), w);
      WakingKeepsAll(s, w);
      ResumedKeepsAll(s2, w, s.waits[w], throws);
      assert Apply(s, RunJob(throws)) == Resumed(s2, w, s.waits[w], throws);
    } else {
      StillKept(s, Apply(s, RunJob(throws)), None);
    }
  }

  lemma BodyWaits(s: State, k: nat, throws: bool)
    requires Sound(s) && ActionOf(k) in s.runs
    ensures var s' := ActionBody(s, k, throws);
      s'.idles == s.idles && s'.resolved == s.resolved && s.waits.Keys <= s'.waits.Keys
  {
    if s.headless.Some? {
      AwaitWaits(s, Action(k), PassOf(s.headless.value));
    }
  }

  lemma IdleGoesOnKeepsAll(s: State, j: nat, after: Target)
    requires Sound(s) && IdlesKept(s, Some(Idle(j)))
    ensures IdlesKept(IdleGoesOn(s, j, after), None)
  {
    IdleLoopKeepsAll(s, j);
    if s.headlessAction.Some? {
      AwaitWaits(s, Idle(j), ActionOf(s.headlessAction.value));
    }
  }

  lemma {:induction false} RunKeepsIdles(s: State, run: seq<Step>)
    requires Inv(s, None) && IdlesKept(s, None) && Follows(s, run)
    ensures IdlesKept(After(s, run), None)
    decreases |run|
  {
    if run != [] {
      StepKeepsIdles(s, run[0]);
      StepKeeps(s, run[0]);
      RunKeepsIdles(Apply(s, run[0]), run[1..]);
    }
  }

  /**
   * Nobody who asks for quiet is forgotten: after any run, each call has come
   * back or waits, and with nothing queued those that wait do so while
   * something is at work.
   */
  lemma IdleComesBack(run: seq<Step>, j: nat)
    requires Follows(Initial(), run) && j < After(Initial(), run).idles
    ensures var s := After(Initial(), run);
      j in s.resolved || (Idle(j) in s.waits && (s.queue == [] ==> SomeoneWorks(s)))
  {
    InitialInv();
    RunKeepsIdles(Initial(), run);
    NoDeadlock(run);
  }

  /** Asked for where nothing headless is about, quiet is there at once. */
  lemma IdleAtOnce(run: seq<Step>)
    requires Follows(Initial(), run) && After(Initial(), run).queue == []
    ensures var s := After(Initial(), run);
      && Sound(s)
      && (s.idles in Apply(s, CallIdle).resolved <==> s.headless.None? && s.headlessAction.None?)
  {
    InitialInv();
    RunKeeps(Initial(), run);
    var s := After(Initial(), run);
    assert forall j | j in s.resolved :: j < s.idles;
  }

  /** The app attached last is the one there, until it detaches; another's leaving changes nothing. */
  lemma HostsDecide(run: seq<Step>, host: nat, other: nat)
    requires Follows(Initial(), run) && After(Initial(), run).queue == []
    ensures var s := After(Initial(), run);
      && Sound(s)
      && var there := Apply(s, Attach(host));
      && there == s.(foreground := Some(host))
      && Apply(there, Detach(host)) == s.(foreground := None)
      && (other != host ==> Apply(there, Detach(other)) == there)
  {
    InitialInv();
    RunKeeps(Initial(), run);
  }
}
