/** What every piece of code in `Background` keeps, with `now` the waiter whose code is running, if any. */
module BackgroundInvariant {
  import opened Common
  import opened Background

  type Runs = map<Target, Run>
  type Waits = map<Waiter, Target>

  datatype Subject = Of(t: Target) | By(w: Waiter)

  function About(job: Job): (x: Subject) {
    match job
    case Clear(t) => Of(t)
    case Caught(w) => By(w)
    case Resume(w) => By(w)
  }

  predicate SettledIn(runs: Runs, t: Target) {
    t in runs && runs[t].phase.Settled?
  }

  /** Every run has its number; a pass works on a graph until it settles. */
  ghost predicate Numbered(passes: nat, actions: nat, runs: Runs) {
    && (forall t | t in runs :: if t.PassOf? then t.h < passes else t.k < actions)
    && (forall h: nat | h < passes :: PassOf(h) in runs && runs[PassOf(h)].phase in {OnGraph, Settled})
    && (forall k: nat | k < actions :: ActionOf(k) in runs)
  }

  /** `headless` is the pass at work, `headlessAction` the last action unless all are over. */
  ghost predicate Variables(s: State) {
    && Sound(s)
    && (forall h: nat | PassOf(h) in s.runs && !SettledIn(s.runs, PassOf(h)) :: s.headless == Some(h))
    && (s.headlessAction.Some? ==> s.headlessAction.value + 1 == s.actions)
    && (s.headlessAction.None? ==> forall k: nat | ActionOf(k) in s.runs :: SettledIn(s.runs, ActionOf(k)))
  }

  /** A settled run is cleared from its variable by a job already queued, and by no other. */
  ghost predicate Clears(headless: Option<nat>, headlessAction: Option<nat>, runs: Runs, queue: seq<Job>) {
    && (forall i | 0 <= i < |queue| && queue[i].Clear? :: SettledIn(runs, queue[i].t) && (queue[i].t.PassOf? ==> headless == Some(queue[i].t.h)))
    && (headless.Some? && SettledIn(runs, PassOf(headless.value)) ==> Clear(PassOf(headless.value)) in queue)
    && (headlessAction.Some? && SettledIn(runs, ActionOf(headlessAction.value)) ==> Clear(ActionOf(headlessAction.value)) in queue)
  }

  ghost predicate QueuedOnce(queue: seq<Job>) {
    forall i, j :: 0 <= i < j < |queue| ==> About(queue[i]) != About(queue[j])
  }

  /** The action `k` is not waiting for the one before it. */
  predicate PastPrevious(waits: Waits, k: nat) {
    !(Action(k) in waits && waits[Action(k)].ActionOf?)
  }

  /** Actions take turns: past the wait for the one before, everything before is over. */
  ghost predicate InTurn(runs: Runs, waits: Waits) {
    forall j, k | j < k && ActionOf(j) in runs && ActionOf(k) in runs && PastPrevious(waits, k) :: SettledIn(runs, ActionOf(j))
  }

  ghost predicate Named(s: State, w: Waiter) {
    match w
    case PassCall(i) => i < s.calls
    case Action(k) => k < s.actions
    case Idle(j) => j < s.idles && j !in s.resolved
  }

  ghost predicate WaitIsRight(runs: Runs, w: Waiter, t: Target) {
    && t in runs
    && (w.PassCall? ==> t.ActionOf?)
    && (w.Action? ==> ActionOf(w.k) in runs && runs[ActionOf(w.k)].phase.Waiting? && (t.ActionOf? ==> t.k + 1 == w.k))
  }

  ghost predicate WaitsAreRight(runs: Runs, waits: Waits) {
    forall w | w in waits :: WaitIsRight(runs, w, waits[w])
  }

  /** An action not at work and not over waits for something, unless its code runs now. */
  ghost predicate Suspended(runs: Runs, waits: Waits, now: Option<Waiter>) {
    forall k | ActionOf(k) in runs && runs[ActionOf(k)].phase.Waiting? :: Action(k) in waits || now == Some(Action(k))
  }

  /** A run not settled lists those that wait for it, once each; a settled one lists none. */
  ghost predicate ListIsRight(run: Run, waits: Waits, t: Target) {
    && (run.phase.Settled? ==> run.waiters == [])
    && Distinct(run.waiters)
    && (forall a | 0 <= a < |run.waiters| :: run.waiters[a] in waits && waits[run.waiters[a]] == t)
    && (t.ActionOf? ==> CallsFirst(run.waiters))
  }

  /** A pass call that waits for an action asked before the next action did. */
  ghost predicate CallsFirst(ws: seq<Waiter>) {
    forall a, b | 0 <= a < |ws| && 0 <= b < |ws| && ws[a].PassCall? && ws[b].Action? :: a < b
  }

  ghost predicate Listed(runs: Runs, waits: Waits) {
    forall t | t in runs :: ListIsRight(runs[t], waits, t)
  }

  /** Only waiters of settled runs are in the queue. */
  ghost predicate Told(runs: Runs, waits: Waits, queue: seq<Job>) {
    forall i | 0 <= i < |queue| && !queue[i].Clear? :: queue[i].w in waits && SettledIn(runs, waits[queue[i].w])
  }

  /** Nobody is forgotten. */
  ghost predicate NoneLost(runs: Runs, waits: Waits, queue: seq<Job>) {
    forall w | w in waits && waits[w] in runs :: WillHear(runs[waits[w]], w, queue)
  }

  ghost predicate WillHear(run: Run, w: Waiter, queue: seq<Job>) {
    if run.phase.Settled? then Caught(w) in queue || Resume(w) in queue else w in run.waiters
  }

  /** While a pass call waits for an action, so does the next action. */
  ghost predicate NextWaitsToo(actions: nat, waits: Waits) {
    forall w | w in waits && w.PassCall? && waits[w].ActionOf? && waits[w].k + 1 < actions ::
      Action(waits[w].k + 1) in waits && waits[Action(waits[w].k + 1)] == waits[w]
  }

  predicate SameWait(waits: Waits, call: Job, action: Job) {
    && !call.Clear? && !action.Clear? && call.w.PassCall? && action.w.Action?
    && call.w in waits && action.w in waits && waits[call.w] == waits[action.w]
  }

  predicate Ahead(queue: seq<Job>, a: nat, b: nat)
    requires a < |queue| && b < |queue|
  {
    (queue[a].Resume? && queue[b].Caught?) || (queue[a].Resume? == queue[b].Resume? && a < b)
  }

  /** A pass call is told before the action that waited for the same one. */
  ghost predicate ToldFirst(waits: Waits, queue: seq<Job>) {
    forall a, b | 0 <= a < |queue| && 0 <= b < |queue| && SameWait(waits, queue[a], queue[b]) :: Ahead(queue, a, b)
  }

  /** No action works on a graph of its own while a pass does. */
  ghost predicate Apart(runs: Runs) {
    forall h, k | PassOf(h) in runs && ActionOf(k) in runs :: !(runs[PassOf(h)].phase.OnGraph? && runs[ActionOf(k)].phase.OnGraph?)
  }

  /** Who runs now waits for nothing. */
  ghost predicate Awake(s: State, now: Option<Waiter>) {
    && (forall w | w in s.waits :: Named(s, w))
    && (forall j | j in s.resolved :: j < s.idles)
    && (now.Some? ==> now.value !in s.waits && Named(s, now.value))
    && (now.Some? && now.value.Action? ==> ActionOf(now.value.k) in s.runs && s.runs[ActionOf(now.value.k)].phase.Waiting?)
  }

  ghost predicate Inv(s: State, now: Option<Waiter>) {
    && Numbered(s.passes, s.actions, s.runs) && Variables(s)
    && Clears(s.headless, s.headlessAction, s.runs, s.queue) && QueuedOnce(s.queue)
    && Awake(s, now) && InTurn(s.runs, s.waits) && Suspended(s.runs, s.waits, now) && WaitsAreRight(s.runs, s.waits)
    && Listed(s.runs, s.waits) && Told(s.runs, s.waits, s.queue) && NoneLost(s.runs, s.waits, s.queue)
    && NextWaitsToo(s.actions, s.waits) && ToldFirst(s.waits, s.queue) && Apart(s.runs)
  }

  lemma InitialInv()
    ensures Inv(Initial(), None)
  {
  }

  // -------------------------------------------------------------- await --

  /** What `w` may wait for, other than an action for the one before it. */
  ghost predicate MayAwait(s: State, w: Waiter, t: Target) {
    && WaitIsRight(s.runs, w, t)
    && (w.PassCall? ==> t.k + 1 == s.actions)
    && (w.Action? ==> t.PassOf?)
  }

  lemma WaitAdded(actions: nat, runs: Runs, waits: Waits, w: Waiter, t: Target)
    requires w !in waits && WaitIsRight(runs, w, t) && (w.Action? ==> t.PassOf?)
    requires w.PassCall? ==> t.k + 1 == actions
    requires InTurn(runs, waits) && Suspended(runs, waits, Some(w)) && WaitsAreRight(runs, waits) && NextWaitsToo(actions, waits)
    ensures var waits' := waits[w := t];
      InTurn(runs, waits') && Suspended(runs, waits', None) && WaitsAreRight(runs, waits') && NextWaitsToo(actions, waits')
  {
    var waits' := waits[w := t];
    assert forall k :: PastPrevious(waits', k) == PastPrevious(waits, k);
  }

  lemma ListsWithWait(runs: Runs, waits: Waits, w: Waiter, t: Target)
    requires w !in waits && Listed(runs, waits)
    ensures Listed(runs, waits[w := t])
  {
    forall u | u in runs ensures ListIsRight(runs[u], waits[w := t], u) {
      assert ListIsRight(runs[u], waits, u);
    }
  }

  lemma QueueGrows(headless: Option<nat>, headlessAction: Option<nat>, runs: Runs, waits: Waits, queue: seq<Job>, w: Waiter, t: Target)
    requires w !in waits && SettledIn(runs, t)
    requires Clears(headless, headlessAction, runs, queue) && QueuedOnce(queue) && Told(runs, waits, queue)
    ensures var queue' := queue + [Caught(w)];
      Clears(headless, headlessAction, runs, queue') && QueuedOnce(queue') && Told(runs, waits[w := t], queue')
  {
    var queue' := queue + [Caught(w)];
    forall i | 0 <= i < |queue| ensures queue'[i] == queue[i] && About(queue[i]) != By(w) {}
    assert forall x | x in queue :: x in queue';
  }

  lemma NoneLostGrows(runs: Runs, waits: Waits, queue: seq<Job>, w: Waiter, t: Target)
    requires NoneLost(runs, waits, queue) && SettledIn(runs, t)
    ensures NoneLost(runs, waits[w := t], queue + [Caught(w)])
  {
    var queue' := queue + [Caught(w)];
    assert queue'[|queue|] == Caught(w);
    forall x | x in waits && x != w && waits[x] in runs ensures WillHear(runs[waits[x]], x, queue') {
      assert WillHear(runs[waits[x]], x, queue);
      assert forall job | job in queue :: job in queue';
    }
  }

  lemma ToldFirstGrows(waits: Waits, queue: seq<Job>, w: Waiter, t: Target)
    requires ToldFirst(waits, queue) && w !in waits
    requires forall i | 0 <= i < |queue| && !queue[i].Clear? :: queue[i].w in waits
    requires w.PassCall? ==> forall x | x in waits && x.Action? :: waits[x] != t
    ensures ToldFirst(waits[w := t], queue + [Caught(w)])
  {
    var (waits', queue') := (waits[w := t], queue + [Caught(w)]);
    forall a, b | 0 <= a < |queue'| && 0 <= b < |queue'| && SameWait(waits', queue'[a], queue'[b]) ensures Ahead(queue', a, b) {
      if a < |queue| && b < |queue| {
        assert SameWait(waits, queue[a], queue[b]);
        assert Ahead(queue, a, b);
      }
    }
  }

  /** Nobody waits for the last action as the action after it. */
  lemma NoNextYet(s: State, w: Waiter, t: Target)
    requires Numbered(s.passes, s.actions, s.runs) && WaitsAreRight(s.runs, s.waits) && MayAwait(s, w, t)
    ensures w.PassCall? ==> forall x | x in s.waits && x.Action? :: s.waits[x] != t
  {
    forall x | x in s.waits && x.Action? ensures w.PassCall? ==> s.waits[x] != t {
      assert WaitIsRight(s.runs, x, s.waits[x]);
    }
  }

  /** `w` waits for a settled run: one more at the end of the queue. */
  lemma AwaitSettled(s: State, w: Waiter, t: Target)
    requires Inv(s, Some(w)) && MayAwait(s, w, t) && s.runs[t].phase.Settled?
    ensures Inv(Await(s, w, t), None)
  {
    WaitAdded(s.actions, s.runs, s.waits, w, t);
    ListsWithWait(s.runs, s.waits, w, t);
    QueueGrows(s.headless, s.headlessAction, s.runs, s.waits, s.queue, w, t);
    NoneLostGrows(s.runs, s.waits, s.queue, w, t);
    NoNextYet(s, w, t);
    ToldFirstGrows(s.waits, s.queue, w, t);
  }

  /** Only what a run lists differs. */
  ghost predicate SamePhases(runs: Runs, runs': Runs) {
    runs.Keys == runs'.Keys && forall t | t in runs :: runs[t].phase == runs'[t].phase
  }

  lemma PhasesDecide(s: State, runs': Runs, now: Option<Waiter>)
    requires SamePhases(s.runs, runs')
    ensures Numbered(s.passes, s.actions, s.runs) == Numbered(s.passes, s.actions, runs')
    ensures Variables(s) == Variables(s.(runs := runs'))
    ensures Clears(s.headless, s.headlessAction, s.runs, s.queue) == Clears(s.headless, s.headlessAction, runs', s.queue)
    ensures Told(s.runs, s.waits, s.queue) == Told(runs', s.waits, s.queue)
    ensures Apart(s.runs) ==> Apart(runs')
    ensures InTurn(s.runs, s.waits) ==> InTurn(runs', s.waits)
    ensures Suspended(s.runs, s.waits, now) ==> Suspended(runs', s.waits, now)
    ensures WaitsAreRight(s.runs, s.waits) ==> WaitsAreRight(runs', s.waits)
  {
    assert forall t :: SettledIn(s.runs, t) == SettledIn(runs', t);
  }

  lemma ListGrows(s: State, w: Waiter, t: Target)
    requires w !in s.waits && t in s.runs && !s.runs[t].phase.Settled? && Listed(s.runs, s.waits)
    requires w.PassCall? ==> forall x | x in s.waits && x.Action? :: s.waits[x] != t
    ensures Listed(Await(s, w, t).runs, s.waits[w := t])
  {
    ListsWithWait(s.runs, s.waits, w, t);
    var (ws, waits') := (s.runs[t].waiters, s.waits[w := t]);
    assert ListIsRight(s.runs[t], s.waits, t);
    var run := Await(s, w, t).runs[t];
    assert run.waiters == ws + [w];
    assert w !in ws;
    assert Distinct(ws + [w]);
    forall a, b | 0 <= a < |ws + [w]| && 0 <= b < |ws + [w]| && (ws + [w])[a].PassCall? && (ws + [w])[b].Action? && t.ActionOf? ensures a < b {
      assert CallsFirst(ws);
    }
    assert ListIsRight(run, waits', t);
  }

  lemma NoneLostListed(s: State, w: Waiter, t: Target)
    requires t in s.runs && !s.runs[t].phase.Settled? && NoneLost(s.runs, s.waits, s.queue)
    ensures NoneLost(Await(s, w, t).runs, s.waits[w := t], s.queue)
  {
    var s' := Await(s, w, t);
    forall x | x in s'.waits && s'.waits[x] in s'.runs ensures WillHear(s'.runs[s'.waits[x]], x, s'.queue) {
      if x != w {
        assert WillHear(s.runs[s.waits[x]], x, s.queue);
      }
    }
  }

  /** `w` joins the waiters of a run still at work. */
  lemma AwaitRunning(s: State, w: Waiter, t: Target)
    requires Inv(s, Some(w)) && MayAwait(s, w, t) && !s.runs[t].phase.Settled?
    ensures Inv(Await(s, w, t), None)
  {
    var s' := Await(s, w, t);
    WaitAdded(s.actions, s.runs, s.waits, w, t);
    NoNextYet(s, w, t);
    ListGrows(s, w, t);
    NoneLostListed(s, w, t);
    ToldStill(s.waits, s.queue, w, t);
    ListedKeeps(s, s.(waits := s'.waits), s'.runs);
  }

  lemma ListedKeeps(s: State, waiting: State, runs': Runs)
    requires SamePhases(s.runs, runs') && waiting == s.(waits := waiting.waits)
    requires Numbered(s.passes, s.actions, s.runs) && Variables(s)
    requires Clears(s.headless, s.headlessAction, s.runs, s.queue) && QueuedOnce(s.queue) && Apart(s.runs)
    requires InTurn(s.runs, waiting.waits) && Suspended(s.runs, waiting.waits, None) && WaitsAreRight(s.runs, waiting.waits)
    requires Awake(waiting, None) && Told(s.runs, waiting.waits, s.queue)
    requires Listed(runs', waiting.waits) && NoneLost(runs', waiting.waits, s.queue)
    requires NextWaitsToo(s.actions, waiting.waits) && ToldFirst(waiting.waits, s.queue)
    ensures Inv(waiting.(runs := runs'), None)
  {
    PhasesDecide(waiting, runs', None);
    assert Variables(waiting);
  }

  lemma ToldStill(waits: Waits, queue: seq<Job>, w: Waiter, t: Target)
    requires ToldFirst(waits, queue) && w !in waits
    requires forall i | 0 <= i < |queue| && !queue[i].Clear? :: queue[i].w in waits
    ensures ToldFirst(waits[w := t], queue)
  {
    forall a, b | 0 <= a < |queue| && 0 <= b < |queue| && SameWait(waits[w := t], queue[a], queue[b]) ensures Ahead(queue, a, b) {
      assert SameWait(waits, queue[a], queue[b]);
    }
  }

  lemma AwaitKeeps(s: State, w: Waiter, t: Target)
    requires Inv(s, Some(w)) && MayAwait(s, w, t)
    ensures Inv(Await(s, w, t), None)
  {
    if s.runs[t].phase.Settled? {
      AwaitSettled(s, w, t);
    } else {
      AwaitRunning(s, w, t);
    }
  }

  // ------------------------------------------------------------- settle --

  function WithSettled(queue: seq<Job>, t: Target, ws: seq<Waiter>): (queue': seq<Job>) {
    queue + [Clear(t)] + CaughtAll(ws)
  }

  lemma QueueParts(queue: seq<Job>, t: Target, ws: seq<Waiter>, i: nat)
    requires i < |WithSettled(queue, t, ws)|
    ensures WithSettled(queue, t, ws)[i] ==
      if i < |queue| then queue[i] else if i == |queue| then Clear(t) else Caught(ws[i - |queue| - 1])
  {
  }

  lemma QueueHas(queue: seq<Job>, t: Target, ws: seq<Waiter>)
    ensures Clear(t) in WithSettled(queue, t, ws)
    ensures forall job | job in queue :: job in WithSettled(queue, t, ws)
    ensures forall w | w in ws :: Caught(w) in WithSettled(queue, t, ws)
  {
    forall w | w in ws ensures Caught(w) in CaughtAll(ws) {
      var a :| 0 <= a < |ws| && ws[a] == w;
      assert CaughtAll(ws)[a] == Caught(w);
    }
  }

  lemma SettledOnce(queue: seq<Job>, t: Target, ws: seq<Waiter>)
    requires QueuedOnce(queue) && Distinct(ws)
    requires forall i | 0 <= i < |queue| :: About(queue[i]) != Of(t)
    requires forall i | 0 <= i < |queue| && !queue[i].Clear? :: queue[i].w !in ws
    ensures QueuedOnce(WithSettled(queue, t, ws))
  {
    var queue' := WithSettled(queue, t, ws);
    forall i, j | 0 <= i < j < |queue'| ensures About(queue'[i]) != About(queue'[j]) {
      QueueParts(queue, t, ws, i);
      QueueParts(queue, t, ws, j);
    }
  }

  /** Who waits for a run still at work is not in the queue. */
  lemma WaitersNotQueued(runs: Runs, waits: Waits, queue: seq<Job>, t: Target)
    requires Told(runs, waits, queue) && t in runs && !SettledIn(runs, t) && ListIsRight(runs[t], waits, t)
    ensures forall i | 0 <= i < |queue| && !queue[i].Clear? :: queue[i].w !in runs[t].waiters
  {
  }

  lemma SettleQueue(s: State, t: Target)
    requires t in s.runs && !SettledIn(s.runs, t) && ListIsRight(s.runs[t], s.waits, t) && Told(s.runs, s.waits, s.queue)
    requires Clears(s.headless, s.headlessAction, s.runs, s.queue) && QueuedOnce(s.queue)
    ensures QueuedOnce(WithSettled(s.queue, t, s.runs[t].waiters))
  {
    WaitersNotQueued(s.runs, s.waits, s.queue, t);
    SettledOnce(s.queue, t, s.runs[t].waiters);
  }

  lemma SettleClears(headless: Option<nat>, headlessAction: Option<nat>, runs: Runs, queue: seq<Job>, t: Target)
    requires t in runs && Clears(headless, headlessAction, runs, queue) && (t.PassOf? ==> headless == Some(t.h))
    ensures Clears(headless, headlessAction, runs[t := Run(Settled, [])], WithSettled(queue, t, runs[t].waiters))
  {
    var (ws, runs') := (runs[t].waiters, runs[t := Run(Settled, [])]);
    var queue' := WithSettled(queue, t, ws);
    QueueHas(queue, t, ws);
    forall i | 0 <= i < |queue'| && queue'[i].Clear? ensures SettledIn(runs', queue'[i].t) && (queue'[i].t.PassOf? ==> headless == Some(queue'[i].t.h)) {
      QueueParts(queue, t, ws, i);
    }
  }

  lemma SettleTold(runs: Runs, waits: Waits, queue: seq<Job>, t: Target)
    requires t in runs && Told(runs, waits, queue) && ListIsRight(runs[t], waits, t)
    ensures Told(runs[t := Run(Settled, [])], waits, WithSettled(queue, t, runs[t].waiters))
  {
    var (ws, runs') := (runs[t].waiters, runs[t := Run(Settled, [])]);
    var queue' := WithSettled(queue, t, ws);
    forall i | 0 <= i < |queue'| && !queue'[i].Clear? ensures queue'[i].w in waits && SettledIn(runs', waits[queue'[i].w]) {
      QueueParts(queue, t, ws, i);
    }
  }

  lemma SettleNoneLost(runs: Runs, waits: Waits, queue: seq<Job>, t: Target)
    requires t in runs && !SettledIn(runs, t) && NoneLost(runs, waits, queue)
    ensures NoneLost(runs[t := Run(Settled, [])], waits, WithSettled(queue, t, runs[t].waiters))
  {
    var (ws, runs') := (runs[t].waiters, runs[t := Run(Settled, [])]);
    var queue' := WithSettled(queue, t, ws);
    QueueHas(queue, t, ws);
    forall x | x in waits && waits[x] in runs' ensures WillHear(runs'[waits[x]], x, queue') {
      assert WillHear(runs[waits[x]], x, queue);
    }
  }

  lemma SettleToldFirst(runs: Runs, waits: Waits, queue: seq<Job>, t: Target)
    requires t in runs && !SettledIn(runs, t) && Told(runs, waits, queue) && ToldFirst(waits, queue)
    requires ListIsRight(runs[t], waits, t) && WaitsAreRight(runs, waits)
    ensures ToldFirst(waits, WithSettled(queue, t, runs[t].waiters))
  {
    var (n, ws) := (|queue|, runs[t].waiters);
    var queue' := WithSettled(queue, t, ws);
    forall a, b | 0 <= a < |queue'| && 0 <= b < |queue'| && SameWait(waits, queue'[a], queue'[b]) ensures Ahead(queue', a, b) {
      QueueParts(queue, t, ws, a);
      QueueParts(queue, t, ws, b);
      if a < n && b < n {
        assert Ahead(queue, a, b);
      } else {
        assert WaitIsRight(runs, queue'[a].w, waits[queue'[a].w]);
        assert a > n && b > n;
        assert CallsFirst(ws);
      }
    }
  }

  lemma SettleRuns(s: State, t: Target)
    requires Inv(s, None) && t in s.runs && s.runs[t].phase in {OnGraph, OnForeground}
    ensures var s' := SettleRun(s, t);
      && Numbered(s'.passes, s'.actions, s'.runs) && Variables(s')
      && InTurn(s'.runs, s'.waits) && Suspended(s'.runs, s'.waits, None) && WaitsAreRight(s'.runs, s'.waits) && Apart(s'.runs)
  {
    var s' := SettleRun(s, t);
    forall w | w in s'.waits ensures WaitIsRight(s'.runs, w, s'.waits[w]) {
      assert WaitIsRight(s.runs, w, s.waits[w]);
    }
  }

  lemma SettleKeeps(s: State, t: Target)
    requires Inv(s, None) && t in s.runs && s.runs[t].phase in {OnGraph, OnForeground}
    ensures Inv(SettleRun(s, t), None)
  {
    var s' := SettleRun(s, t);
    assert ListIsRight(s.runs[t], s.waits, t);
    assert s'.queue == WithSettled(s.queue, t, s.runs[t].waiters);
    SettleQueue(s, t);
    SettleClears(s.headless, s.headlessAction, s.runs, s.queue, t);
    SettleTold(s.runs, s.waits, s.queue, t);
    SettleNoneLost(s.runs, s.waits, s.queue, t);
    SettleToldFirst(s.runs, s.waits, s.queue, t);
    SettleRuns(s, t);
    SettleListed(s.runs, s.waits, t);
  }

  lemma SettleListed(runs: Runs, waits: Waits, t: Target)
    requires t in runs && Listed(runs, waits)
    ensures Listed(runs[t := Run(Settled, [])], waits)
  {
    var runs' := runs[t := Run(Settled, [])];
    forall u | u in runs' ensures ListIsRight(runs'[u], waits, u) {
      assert ListIsRight(runs[u], waits, u);
    }
  }

  // -------------------------------------------------- a graph is started --

  ghost predicate NoActionGraph(runs: Runs) {
    forall k | ActionOf(k) in runs :: !runs[ActionOf(k)].phase.OnGraph?
  }

  /** A run joins that nobody knows of yet. */
  lemma RunAdded(s: State, t: Target, run: Run)
    requires t !in s.runs && WaitsAreRight(s.runs, s.waits) && run.waiters == []
    requires Listed(s.runs, s.waits) && Told(s.runs, s.waits, s.queue) && NoneLost(s.runs, s.waits, s.queue)
    ensures var runs' := s.runs[t := run];
      && WaitsAreRight(runs', s.waits) && Listed(runs', s.waits)
      && Told(runs', s.waits, s.queue) && NoneLost(runs', s.waits, s.queue)
  {
    var runs' := s.runs[t := run];
    forall w | w in s.waits ensures WaitIsRight(runs', w, s.waits[w]) && s.waits[w] != t {
      assert WaitIsRight(s.runs, w, s.waits[w]);
    }
    forall u | u in runs' ensures ListIsRight(runs'[u], s.waits, u) {
      if u != t {
        assert ListIsRight(s.runs[u], s.waits, u);
      }
    }
    forall x | x in s.waits && s.waits[x] in runs' ensures WillHear(runs'[s.waits[x]], x, s.queue) {
      assert WillHear(s.runs[s.waits[x]], x, s.queue);
    }
  }

  lemma StartPassKeeps(s: State, throws: bool)
    requires Inv(s, None) && s.headless.None? && NoActionGraph(s.runs)
    ensures Inv(StartPass(s, throws), None)
  {
    PassAdded(s);
    if throws {
      SettleKeeps(StartPass(s, false), PassOf(s.passes));
    }
  }

  lemma PassAdded(s: State)
    requires Inv(s, None) && s.headless.None? && NoActionGraph(s.runs)
    ensures Inv(StartPass(s, false), None)
  {
    var (t, s1) := (PassOf(s.passes), StartPass(s, false));
    assert t !in s.runs;
    RunAdded(s, t, Run(OnGraph, []));
    NoPassAtWork(s);
    PassVariables(s);
    assert Clears(s1.headless, s1.headlessAction, s1.runs, s1.queue);
    assert forall k | ActionOf(k) in s1.runs :: s1.runs[ActionOf(k)] == s.runs[ActionOf(k)];
    assert InTurn(s1.runs, s1.waits);
  }

  lemma NoPassAtWork(s: State)
    requires Variables(s) && s.headless.None?
    ensures forall h: nat | PassOf(h) in s.runs :: SettledIn(s.runs, PassOf(h))
  {
  }

  lemma PassVariables(s: State)
    requires Variables(s) && Numbered(s.passes, s.actions, s.runs) && s.headless.None?
    ensures var s1 := StartPass(s, false);
      Variables(s1) && Numbered(s1.passes, s1.actions, s1.runs)
  {
  }

  lemma OnToKeeps(s: State, k: nat, phase: Phase)
    requires Inv(s, Some(Action(k))) && phase in {OnGraph, OnForeground} && (phase.OnGraph? ==> s.headless.None?)
    ensures Inv(OnTo(s, k, phase), None)
  {
    var (t, s') := (ActionOf(k), OnTo(s, k, phase));
    assert forall u :: SettledIn(s.runs, u) == SettledIn(s'.runs, u);
    forall w | w in s'.waits ensures WaitIsRight(s'.runs, w, s'.waits[w]) {
      assert WaitIsRight(s.runs, w, s.waits[w]);
    }
    forall u | u in s'.runs ensures ListIsRight(s'.runs[u], s'.waits, u) {
      assert ListIsRight(s.runs[u], s.waits, u);
    }
    forall x | x in s'.waits && s'.waits[x] in s'.runs ensures WillHear(s'.runs[s'.waits[x]], x, s'.queue) {
      assert WillHear(s.runs[s.waits[x]], x, s.queue);
    }
    assert Told(s'.runs, s'.waits, s'.queue);
    assert InTurn(s'.runs, s'.waits);
  }

  lemma ActionBodyKeeps(s: State, k: nat, throws: bool)
    requires Inv(s, Some(Action(k)))
    ensures Inv(ActionBody(s, k, throws), None)
  {
    if s.headless.Some? {
      AwaitKeeps(s, Action(k), PassOf(s.headless.value));
    } else if s.foreground.Some? {
      OnToKeeps(s, k, OnForeground);
    } else {
      OnToKeeps(s, k, OnGraph);
      if throws {
        var s1 := OnTo(s, k, OnGraph);
        SettleKeeps(s1, ActionOf(k));
        assert SettleRun(s1, ActionOf(k)) == SettleRun(s, ActionOf(k));
      }
    }
  }

  lemma IdleLoopKeeps(s: State, j: nat)
    requires Inv(s, Some(Idle(j)))
    ensures Inv(IdleLoop(s, j), None)
  {
    if s.headless.Some? {
      AwaitKeeps(s, Idle(j), PassOf(s.headless.value));
    } else if s.headlessAction.Some? {
      AwaitKeeps(s, Idle(j), ActionOf(s.headlessAction.value));
    }
  }

  lemma IdleGoesOnKeeps(s: State, j: nat, after: Target)
    requires Inv(s, Some(Idle(j)))
    ensures Inv(IdleGoesOn(s, j, after), None)
  {
    if after.PassOf? && s.headlessAction.Some? {
      AwaitKeeps(s, Idle(j), ActionOf(s.headlessAction.value));
    } else {
      IdleLoopKeeps(s, j);
    }
  }

  // --------------------------------------------------------------- jobs --

  lemma Popped(queue: seq<Job>)
    requires queue != []
    ensures forall job | job in queue && job != queue[0] :: job in queue[1..]
    ensures QueuedOnce(queue) ==> QueuedOnce(queue[1..]) && forall i | 0 <= i < |queue[1..]| :: About(queue[1..][i]) != About(queue[0])
  {
    forall job | job in queue && job != queue[0] ensures job in queue[1..] {
      var i :| 0 <= i < |queue| && queue[i] == job;
      assert queue[1..][i - 1] == job;
    }
  }

  lemma PoppedToldFirst(waits: Waits, queue: seq<Job>)
    requires queue != [] && ToldFirst(waits, queue)
    ensures ToldFirst(waits, queue[1..])
  {
    var rest := queue[1..];
    forall a, b | 0 <= a < |rest| && 0 <= b < |rest| && SameWait(waits, rest[a], rest[b]) ensures Ahead(rest, a, b) {
      assert Ahead(queue, a + 1, b + 1);
    }
  }

  lemma PoppedNoneLost(runs: Runs, waits: Waits, queue: seq<Job>)
    requires queue != [] && NoneLost(runs, waits, queue)
    ensures NoneLost(runs, if queue[0].Clear? then waits else waits - {queue[0].w}, queue[1..])
  {
    Popped(queue);
    var waits' := if queue[0].Clear? then waits else waits - {queue[0].w};
    forall x | x in waits' && waits'[x] in runs ensures WillHear(runs[waits'[x]], x, queue[1..]) {
      assert WillHear(runs[waits[x]], x, queue);
    }
  }

  /** An action that settled was past its wait, so all before it settled too. */
  lemma AllBefore(runs: Runs, waits: Waits, k: nat)
    requires InTurn(runs, waits) && WaitsAreRight(runs, waits) && SettledIn(runs, ActionOf(k))
    ensures PastPrevious(waits, k)
    ensures forall j: nat | j <= k && ActionOf(j) in runs :: SettledIn(runs, ActionOf(j))
  {
    assert Action(k) in waits ==> WaitIsRight(runs, Action(k), waits[Action(k)]);
  }

  lemma ClearKeeps(s: State, t: Target)
    requires Inv(s, None) && s.queue != [] && s.queue[0] == Clear(t)
    ensures Inv(Cleared(s.(queue := s.queue[1..]), t), None)
  {
    var s' := Cleared(s.(queue := s.queue[1..]), t);
    Popped(s.queue);
    PoppedToldFirst(s.waits, s.queue);
    PoppedNoneLost(s.runs, s.waits, s.queue);
    assert SettledIn(s.runs, t);
    ClearKeepsClears(s, t);
    ClearKeepsVariables(s, t);
    PoppedTold(s.runs, s.waits, s.queue);
  }

  lemma PoppedTold(runs: Runs, waits: Waits, queue: seq<Job>)
    requires queue != [] && Told(runs, waits, queue)
    ensures Told(runs, waits, queue[1..])
  {
  }

  lemma ClearKeepsVariables(s: State, t: Target)
    requires Variables(s) && Numbered(s.passes, s.actions, s.runs) && SettledIn(s.runs, t) && (t.PassOf? ==> s.headless == Some(t.h))
    requires s.queue != [] && InTurn(s.runs, s.waits) && WaitsAreRight(s.runs, s.waits)
    ensures Variables(Cleared(s.(queue := s.queue[1..]), t))
  {
    if t.ActionOf? {
      AllBefore(s.runs, s.waits, t.k);
    }
  }

  lemma ClearKeepsClears(s: State, t: Target)
    requires Clears(s.headless, s.headlessAction, s.runs, s.queue) && QueuedOnce(s.queue)
    requires s.queue != [] && s.queue[0] == Clear(t)
    ensures var s' := Cleared(s.(queue := s.queue[1..]), t);
      Clears(s'.headless, s'.headlessAction, s'.runs, s'.queue)
  {
    Popped(s.queue);
    var rest := s.queue[1..];
    forall i | 0 <= i < |rest| && rest[i].Clear? ensures SettledIn(s.runs, rest[i].t) && (rest[i].t.PassOf? ==> t.ActionOf? && s.headless == Some(rest[i].t.h)) {
      assert rest[i] == s.queue[i + 1];
    }
  }

  lemma CaughtKeepsQueue(s: State, w: Waiter)
    requires Clears(s.headless, s.headlessAction, s.runs, s.queue) && QueuedOnce(s.queue) && Told(s.runs, s.waits, s.queue)
    requires s.queue != [] && s.queue[0] == Caught(w)
    ensures var queue' := s.queue[1..] + [Resume(w)];
      && Clears(s.headless, s.headlessAction, s.runs, queue') && QueuedOnce(queue') && Told(s.runs, s.waits, queue')
      && (NoneLost(s.runs, s.waits, s.queue) ==> NoneLost(s.runs, s.waits, queue'))
  {
    Popped(s.queue);
    var (rest, queue') := (s.queue[1..], s.queue[1..] + [Resume(w)]);
    assert queue'[|rest|] == Resume(w);
    forall i | 0 <= i < |rest| ensures queue'[i] == rest[i] == s.queue[i + 1] {}
    forall job | job in rest ensures job in queue' {}
    if NoneLost(s.runs, s.waits, s.queue) {
      forall x | x in s.waits && s.waits[x] in s.runs ensures WillHear(s.runs[s.waits[x]], x, queue') {
        assert WillHear(s.runs[s.waits[x]], x, s.queue);
      }
    }
  }

  lemma CaughtKeepsOrder(waits: Waits, queue: seq<Job>, w: Waiter)
    requires ToldFirst(waits, queue) && QueuedOnce(queue) && queue != [] && queue[0] == Caught(w)
    ensures ToldFirst(waits, queue[1..] + [Resume(w)])
  {
    var queue' := queue[1..] + [Resume(w)];
    var n := |queue| - 1;
    forall i | 0 <= i < n ensures queue'[i] == queue[i + 1] {}
    forall a, b | 0 <= a < |queue'| && 0 <= b < |queue'| && SameWait(waits, queue'[a], queue'[b]) ensures Ahead(queue', a, b) {
      var (a0, b0) := (if a == n then 0 else a + 1, if b == n then 0 else b + 1);
      assert SameWait(waits, queue[a0], queue[b0]);
      assert Ahead(queue, a0, b0);
    }
  }

  lemma CaughtKeeps(s: State, w: Waiter)
    requires Inv(s, None) && s.queue != [] && s.queue[0] == Caught(w)
    ensures Inv(s.(queue := s.queue[1..] + [Resume(w)]), None)
  {
    CaughtKeepsQueue(s, w);
    CaughtKeepsOrder(s.waits, s.queue, w);
  }
}
