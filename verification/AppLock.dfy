/** How fast PINs can be tried (app/src/applock/appLock.ts:135-172). Times are milliseconds. */
module AppLock {
  const FREE_ATTEMPTS := 5
  const FIRST_COOLDOWN_MS := 30_000
  const MAX_COOLDOWN_MS := 3_600_000

  datatype Prefs = Prefs(failures: nat, lockedUntil: int)

  function Power2(n: nat): (p: nat) {
    if n == 0 then 1 else 2 * Power2(n - 1)
  }

  function Min(a: int, b: int): (m: int) {
    if a < b then a else b
  }

  function CooldownAfter(failures: nat): (ms: int) {
    if failures < FREE_ATTEMPTS then 0
    else Min(FIRST_COOLDOWN_MS * Power2(Min(failures - FREE_ATTEMPTS, 20)), MAX_COOLDOWN_MS)
  }

  function AfterFailure(prefs: Prefs, now: int): (p: Prefs) {
    var failures := prefs.failures + 1;
    var wait := CooldownAfter(failures);
    Prefs(failures, if wait > 0 then now + wait else 0)
  }

  function AfterSuccess(prefs: Prefs): (p: Prefs) {
    Prefs(0, 0)
  }

  function CooldownRemaining(prefs: Prefs, now: int): (ms: int) {
    if prefs.lockedUntil - now > 0 then prefs.lockedUntil - now else 0
  }

  // -------------------------------------------------------------- histories --

  datatype Try = Try(at: int, right: bool)

  /** The times of the wrong PINs since the last right one. */
  datatype History = History(prefs: Prefs, misses: seq<int>)

  function Apply(h: History, t: Try): (h': History) {
    if t.right then History(AfterSuccess(h.prefs), []) else History(AfterFailure(h.prefs, t.at), h.misses + [t.at])
  }

  function After(tries: seq<Try>): (h: History) {
    if tries == [] then History(Prefs(0, 0), []) else Apply(After(tries[..|tries| - 1]), tries[|tries| - 1])
  }

  /** The clock only goes forward, and a PIN is checked only when no cooldown remains. */
  predicate Played(tries: seq<Try>) {
    tries != [] ==>
      var n := |tries| - 1;
      && Played(tries[..n])
      && CooldownRemaining(After(tries[..n]).prefs, tries[n].at) == 0
      && (n > 0 ==> tries[n - 1].at <= tries[n].at)
  }

  /** Each cooldown passed between one wrong PIN and the next. */
  ghost predicate Spaced(misses: seq<int>) {
    forall k | 0 < k < |misses| :: misses[k] >= misses[k - 1] + CooldownAfter(k)
  }

  /** The last try was the last miss, and started the cooldown that is due. */
  predicate MissedLast(h: History, tries: seq<Try>)
    requires h.misses != []
  {
    tries != [] && var last := tries[|tries| - 1].at;
    && h.misses[|h.misses| - 1] == last
    && h.prefs.lockedUntil == if CooldownAfter(|h.misses|) > 0 then last + CooldownAfter(|h.misses|) else 0
  }

  lemma {:induction false} PlayedIsSpaced(tries: seq<Try>)
    requires Played(tries)
    ensures var h := After(tries);
      && h.prefs.failures == |h.misses| && Spaced(h.misses)
      && (h.misses != [] ==> MissedLast(h, tries))
  {
    if tries != [] {
      PlayedIsSpaced(tries[..|tries| - 1]);
    }
  }

  /** All the cooldowns from the fifth wrong PIN to the `n`-th. */
  function Waited(n: nat): (ms: int)
    requires n >= FREE_ATTEMPTS
  {
    if n == FREE_ATTEMPTS then 0 else Waited(n - 1) + CooldownAfter(n - 1)
  }

  lemma FirstCooldowns()
    ensures CooldownAfter(5) == 30_000 && CooldownAfter(6) == 60_000 && CooldownAfter(7) == 120_000 && CooldownAfter(8) == 240_000
    ensures CooldownAfter(9) == 480_000 && CooldownAfter(10) == 960_000 && CooldownAfter(11) == 1_920_000
  {
    assert Power2(3) == 8;
    assert Power2(6) == 64;
  }

  lemma {:induction false} Power2Grows(m: nat, n: nat)
    requires m <= n
    ensures Power2(m) <= Power2(n)
    decreases n - m
  {
    if m < n {
      Power2Grows(m, n - 1);
      assert Power2(n) == 2 * Power2(n - 1);
    }
  }

  lemma LaterCooldowns(failures: nat)
    requires failures >= 12
    ensures CooldownAfter(failures) == MAX_COOLDOWN_MS
  {
    Power2Grows(7, Min(failures - FREE_ATTEMPTS, 20));
    assert Power2(3) == 8;
    assert Power2(7) == 128;
  }

  lemma {:induction false} WaitedIs(n: nat)
    requires n >= 12
    ensures Waited(n) == 3_810_000 + 3_600_000 * (n - 12)
  {
    if n == 12 {
      FirstCooldowns();
      assert Waited(8) == 210_000;
      assert Waited(12) == 3_810_000;
    } else {
      WaitedIs(n - 1);
      LaterCooldowns(n - 1);
    }
  }

  lemma {:induction false} MissesWait(misses: seq<int>, n: nat)
    requires Spaced(misses) && FREE_ATTEMPTS <= n <= |misses|
    ensures misses[n - 1] >= misses[FREE_ATTEMPTS - 1] + Waited(n)
  {
    if n > FREE_ATTEMPTS {
      MissesWait(misses, n - 1);
    }
  }

  /** From the twelfth wrong PIN in a row on: 3810 seconds after the fifth, and an hour more for each one further. */
  lemma GuessingIsSlow(tries: seq<Try>, n: nat)
    requires Played(tries) && 12 <= n <= |After(tries).misses|
    ensures After(tries).misses[n - 1] >= After(tries).misses[4] + 3_810_000 + 3_600_000 * (n - 12)
  {
    PlayedIsSpaced(tries);
    MissesWait(After(tries).misses, n);
    WaitedIs(n);
  }

  /** The bound is met: trying as soon as each cooldown is over takes exactly that long. */
  function Fastest(n: nat): (tries: seq<Try>)
    ensures |tries| == n && (n > 0 ==> tries[n - 1].at == Soonest(n) && !tries[n - 1].right)
  {
    if n == 0 then [] else Fastest(n - 1) + [Try(Soonest(n), false)]
  }

  function Soonest(n: nat): (at: int) {
    if n <= FREE_ATTEMPTS then 1 else 1 + Waited(n)
  }

  lemma CooldownSet(n: nat)
    ensures CooldownAfter(n) > 0 <==> n >= FREE_ATTEMPTS
  {
    if n >= FREE_ATTEMPTS {
      Power2Grows(0, Min(n - FREE_ATTEMPTS, 20));
    }
  }

  lemma NextIsPlayed(before: seq<Try>, n: nat)
    requires Played(before) && |before| == |After(before).misses| == n
    requires n > 0 ==> before[n - 1].at == Soonest(n)
    ensures Played(before + [Try(Soonest(n + 1), false)])
  {
    var next := Soonest(n + 1);
    CooldownIsOver(before, n);
    var all := before + [Try(next, false)];
    assert all[..n] == before;
  }

  lemma CooldownIsOver(before: seq<Try>, n: nat)
    requires Played(before) && |before| == |After(before).misses| == n
    requires n > 0 ==> before[n - 1].at == Soonest(n)
    ensures CooldownRemaining(After(before).prefs, Soonest(n + 1)) == 0 && (n > 0 ==> Soonest(n) <= Soonest(n + 1))
  {
    PlayedIsSpaced(before);
    CooldownSet(n);
  }

  lemma NextMisses(before: seq<Try>, at: int)
    ensures After(before + [Try(at, false)]).misses == After(before).misses + [at]
  {
    var all := before + [Try(at, false)];
    assert all[..|all| - 1] == before;
  }

  lemma {:induction false} FastestPlays(n: nat)
    ensures Played(Fastest(n)) && |After(Fastest(n)).misses| == n
    ensures forall k | 0 < k <= n :: After(Fastest(n)).misses[k - 1] == Soonest(k)
  {
    if n > 0 {
      FastestPlays(n - 1);
      var before := Fastest(n - 1);
      NextIsPlayed(before, n - 1);
      NextMisses(before, Soonest(n));
      MoreMisses(After(before).misses, n);
    }
  }

  lemma MoreMisses(misses: seq<int>, n: nat)
    requires n > 0 && |misses| == n - 1 && forall k | 0 < k <= n - 1 :: misses[k - 1] == Soonest(k)
    ensures var more := misses + [Soonest(n)];
      |more| == n && forall k | 0 < k <= n :: more[k - 1] == Soonest(k)
  {
  }

  lemma FastestMiss(n: nat, k: nat)
    requires 0 < k <= n
    ensures |After(Fastest(n)).misses| == n && After(Fastest(n)).misses[k - 1] == Soonest(k)
  {
    FastestPlays(n);
  }

  /** So the bound is met: no slower rule than this holds. */
  lemma BoundIsMet(n: nat)
    requires n >= 12
    ensures var misses := After(Fastest(n)).misses;
      Played(Fastest(n)) && |misses| == n && misses[n - 1] == misses[FREE_ATTEMPTS - 1] + 3_810_000 + 3_600_000 * (n - 12)
  {
    FastestPlays(n);
    FastestMiss(n, n);
    FastestMiss(n, FREE_ATTEMPTS);
    WaitedIs(n);
  }

  /** A right PIN leaves things as they were before the first try: no cooldown, and none of the misses counted. */
  lemma RightPinStartsOver(tries: seq<Try>, at: int, now: int)
    requires now >= 0
    ensures After(tries + [Try(at, true)]) == After([])
    ensures CooldownRemaining(After(tries + [Try(at, true)]).prefs, now) == 0
  {
    assert (tries + [Try(at, true)])[..|tries|] == tries;
  }

  /** After a wrong one, what remains is what is left of the cooldown due, at any time not before it. */
  lemma RemainingIs(tries: seq<Try>, now: int)
    requires Played(tries) && tries != [] && !tries[|tries| - 1].right && now >= tries[|tries| - 1].at >= 0
    ensures var (h, last) := (After(tries), tries[|tries| - 1].at);
      CooldownRemaining(h.prefs, now) == if now < last + CooldownAfter(|h.misses|) then last + CooldownAfter(|h.misses|) - now else 0
  {
    PlayedIsSpaced(tries);
    CooldownSet(|After(tries).misses|);
  }
}
