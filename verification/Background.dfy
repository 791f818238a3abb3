/**
 * Who runs the services in the background (app/src/background/pass.ts), as the
 * JavaScript engine runs it: code between two awaits is one piece, a settled
 * promise queues its waiters in the order they asked, and the queue is empty
 * before anything outside calls in. A run of services (a scheduler pass or a
 * notification button) may settle at any time.
 */
module Background {
  import opened Common

  /** What a waiter waits for: the promise of a pass, or of an action. */
  datatype Target = PassOf(h: nat) | ActionOf(k: nat)

  /** Code suspended at an `await x.catch(...)`: a pass call, an action's body, or `backgroundIdle`. */
  datatype Waiter = PassCall(i: nat) | Action(k: nat) | Idle(j: nat)

  /**
   * The engine's queue. `Clear` is the `finally` of the call that made the
   * run; `Caught` settles the promise `catch` made, and `Resume` goes on with
   * the code that awaited that one.
   */
  datatype Job = Clear(t: Target) | Caught(w: Waiter) | Resume(w: Waiter)

  datatype Phase = Waiting | OnForeground | OnGraph | Settled

  datatype Run = Run(phase: Phase, waiters: seq<Waiter>)

  datatype State = State(
    foreground: Option<nat>,
    headless: Option<nat>,
    headlessAction: Option<nat>,
    passes: nat,
    actions: nat,
    runs: map<Target, Run>,
    calls: nat,
    idles: nat,
    resolved: set<nat>,
    waits: map<Waiter, Target>,
    queue: seq<Job>)

  /** What happens next. `throws` says whether building a graph fails, should one be built. */
  datatype Step =
    | Attach(host: nat)
    | Detach(host: nat)
    | CallPass(throws: bool)
    | CallAction(throws: bool)
    | CallIdle
    | Settle(t: Target)
    | RunJob(throws: bool)

  function CaughtAll(ws: seq<Waiter>): (jobs: seq<Job>)
    ensures |jobs| == |ws| && forall i | 0 <= i < |ws| :: jobs[i] == Caught(ws[i])
  {
    seq(|ws|, i requires 0 <= i < |ws| => Caught(ws[i]))
  }

  /** `await t.catch(...)`: `w` is told when `t` settles, or at the end of the queue if it has. */
  function Await(s: State, w: Waiter, t: Target): (s': State)
    requires t in s.runs
  {
    var run := s.runs[t];
    if run.phase.Settled? then s.(waits := s.waits[w := t], queue := s.queue + [Caught(w)])
    else s.(waits := s.waits[w := t], runs := s.runs[t := run.(waiters := run.waiters + [w])])
  }

  function SettleRun(s: State, t: Target): (s': State)
    requires t in s.runs
  {
    s.(runs := s.runs[t := Run(Settled, [])], queue := s.queue + [Clear(t)] + CaughtAll(s.runs[t].waiters))
  }

  /** `headless = pass; await pass`, the graph built on the way, or not. */
  function StartPass(s: State, throws: bool): (s': State) {
    var h := s.passes;
    var s1 := s.(passes := h + 1, runs := s.runs[PassOf(h) := Run(OnGraph, [])], headless := Some(h));
    if throws then SettleRun(s1, PassOf(h)) else s1
  }

  function AfterAction(s: State, throws: bool): (s': State) {
    if s.foreground.Some? || s.headless.Some? then s else StartPass(s, throws)
  }

  function PassCalled(s: State, throws: bool): (s': State)
    requires Sound(s)
  {
    if s.foreground.Some? || s.headless.Some? then s
    else if s.headlessAction.Some? then Await(s.(calls := s.calls + 1), PassCall(s.calls), ActionOf(s.headlessAction.value))
    else StartPass(s, throws)
  }

  /** An action's body from `while (headless)` on. */
  function ActionBody(s: State, k: nat, throws: bool): (s': State)
    requires Sound(s) && ActionOf(k) in s.runs
  {
    if s.headless.Some? then Await(s, Action(k), PassOf(s.headless.value))
    else if s.foreground.Some? then OnTo(s, k, OnForeground)
    else if throws then SettleRun(s, ActionOf(k))
    else OnTo(s, k, OnGraph)
  }

  function OnTo(s: State, k: nat, phase: Phase): (s': State)
    requires ActionOf(k) in s.runs
  {
    s.(runs := s.runs[ActionOf(k) := s.runs[ActionOf(k)].(phase := phase)])
  }

  function WithAction(s: State): (s': State) {
    s.(actions := s.actions + 1, runs := s.runs[ActionOf(s.actions) := Run(Waiting, [])])
  }

  function ActionCalled(s: State, throws: bool): (s': State)
    requires Sound(s)
  {
    if s.foreground.Some? then s
    else
      var k := s.actions;
      var s1 := WithAction(s);
      (if s.headlessAction.Some? then Await(s1, Action(k), ActionOf(s.headlessAction.value)) else ActionBody(s1, k, throws))
      .(headlessAction := Some(k))
  }

  /** The loop of `backgroundIdle`, from its condition. */
  function IdleLoop(s: State, j: nat): (s': State)
    requires Sound(s)
  {
    if s.headless.Some? then Await(s, Idle(j), PassOf(s.headless.value))
    else if s.headlessAction.Some? then Await(s, Idle(j), ActionOf(s.headlessAction.value))
    else s.(resolved := s.resolved + {j})
  }

  function IdleGoesOn(s: State, j: nat, after: Target): (s': State)
    requires Sound(s)
  {
    if after.PassOf? && s.headlessAction.Some? then Await(s, Idle(j), ActionOf(s.headlessAction.value)) else IdleLoop(s, j)
  }

  function Cleared(s: State, t: Target): (s': State) {
    if t.PassOf? then s.(headless := None)
    else if s.headlessAction == Some(t.k) then s.(headlessAction := None)
    else s
  }

  /** `w` no longer waits: its code runs now. */
  function Woken(s: State, w: Waiter): (s': State) {
    s.(waits := s.waits - {w})
  }

  function JobDone(s: State, throws: bool): (s': State)
    requires Sound(s) && s.queue != [] && (s.queue[0].Resume? ==> s.queue[0].w in s.waits)
    requires s.queue[0].Resume? && s.queue[0].w.Action? ==> ActionOf(s.queue[0].w.k) in s.runs
  {
    var s1 := s.(queue := s.queue[1..]);
    match s.queue[0]
    case Clear(t) => Cleared(s1, t)
    case Caught(w) => s1.(queue := s1.queue + [Resume(w)])
    case Resume(w) =>
      var s2 := Woken(s1, w);
      match w
      case PassCall(_) => AfterAction(s2, throws)
      case Action(k) => ActionBody(s2, k, throws)
      case Idle(j) => IdleGoesOn(s2, j, s.waits[w])
  }

  /** The module's variables name runs that exist. */
  predicate Sound(s: State) {
    && (s.headlessAction.Some? ==> ActionOf(s.headlessAction.value) in s.runs)
    && (s.headless.Some? ==> PassOf(s.headless.value) in s.runs)
  }

  predicate Enabled(s: State, step: Step) {
    match step
    case Settle(t) => t in s.runs && s.runs[t].phase in {OnGraph, OnForeground}
    case RunJob(_) =>
      && s.queue != []
      && (s.queue[0].Resume? ==> s.queue[0].w in s.waits && (s.queue[0].w.Action? ==> ActionOf(s.queue[0].w.k) in s.runs))
    case _ => s.queue == []
  }

  function Apply(s: State, step: Step): (s': State)
    requires Sound(s) && Enabled(s, step)
  {
    match step
    case Attach(host) => s.(foreground := Some(host))
    case Detach(host) => if s.foreground == Some(host) then s.(foreground := None) else s
    case CallPass(throws) => PassCalled(s, throws)
    case CallAction(throws) => ActionCalled(s, throws)
    case CallIdle => IdleLoop(s.(idles := s.idles + 1), s.idles)
    case Settle(t) => SettleRun(s, t)
    case RunJob(throws) => JobDone(s, throws)
  }

  function Initial(): (s: State) {
    State(None, None, None, 0, 0, map[], 0, 0, {}, map[], [])
  }

  // ----------------------------------------------------- what is claimed --

  /** The graphs at work that no app renders. */
  function Graphs(s: State): (ts: set<Target>) {
    set t | t in s.runs && s.runs[t].phase.OnGraph?
  }

  ghost predicate OneGraph(s: State) {
    forall a, b :: a in Graphs(s) && b in Graphs(s) ==> a == b
  }

  /** Something outside is still at work for one of these calls, so it will settle. */
  ghost predicate SomeoneWorks(s: State) {
    exists t :: t in s.runs && s.runs[t].phase in {OnGraph, OnForeground}
  }
}
