/**
 * The relay watchdog of `blox/kubo_proxy.go`: a timed state machine, run once per health-check tick, that decides
 * whether to ask the host to restart the fula stack.
 *
 * `Step` is one tick on values, `Monitor.Tick` is the same tick in the imperative form of the source (with the
 * restart history compacted in place over its own backing array). The theorems are about whole runs: they speak of
 * the sequence of ticks and of the times at which a restart was signalled.
 */
module Watchdog {
  import opened Wrappers
  import opened Durations

  // Times are nanoseconds of Go's monotonic clock.

  const MISSING_THRESHOLD: nat := 2
  const MIN_RESTART_GAP: int := 5 * MINUTE
  const MAX_RESTARTS_PER_WINDOW: nat := 3
  const RATE_WINDOW: int := HOUR
  const VERIFY_GRACE: int := 3 * MINUTE
  const MAX_FAILED_RESTARTS: nat := 3
  const LONG_COOLDOWN: int := HOUR
  const BOOTSTRAP_GRACE: int := 5 * MINUTE

  /**
   * What one tick observes. The code reads the clock separately for every comparison; the six readings are kept
   * apart, in program order.
   */
  datatype Event = Event(
    alive: bool, circuit: bool, relayConnected: bool, signalOk: bool,
    atCircuit: int, atBootstrap: int, atLongCooldown: int, atShortCooldown: int, now: int, atVerify: int)

  predicate Ordered(e: Event) {
    e.atCircuit <= e.atBootstrap <= e.atLongCooldown <= e.atShortCooldown <= e.now <= e.atVerify
  }

  /** The clock never runs backwards, within a tick and from one tick to the next. */
  predicate WellTimed(startup: int, es: seq<Event>) {
    forall i :: 0 <= i < |es| ==> Ordered(es[i]) && LastReading(startup, es, i) <= es[i].atCircuit
  }

  /** The last clock reading before tick `i`. */
  function LastReading(startup: int, es: seq<Event>, i: nat): int
    requires i <= |es|
  {
    if i == 0 then startup else es[i - 1].atVerify
  }

  datatype State = State(
    missing: nat,
    lastRestartAt: Option<int>,
    failed: nat,
    longCooldownUntil: Option<int>,
    history: seq<int>,
    hasSeenCircuit: bool)

  const INITIAL: State := State(0, None, 0, None, [], false)

  /** The timestamps later than `cutoff`, in order. */
  function Kept(history: seq<int>, cutoff: int): seq<int> {
    if history == [] then []
    else
      var n := |history| - 1;
      Kept(history[..n], cutoff) + (if history[n] > cutoff then [history[n]] else [])
  }

  /** One tick: the new state, and whether a restart was signalled. */
  function Step(startup: int, s: State, e: Event): (State, bool) {
    if !e.alive then
      (s.(missing := 0), false)
    else if e.circuit then
      var recovered := s.lastRestartAt.Some? && e.atCircuit - s.lastRestartAt.value < VERIFY_GRACE;
      (s.(missing := 0, hasSeenCircuit := true, failed := if recovered then 0 else s.failed), false)
    else if !s.hasSeenCircuit && e.atBootstrap - startup < BOOTSTRAP_GRACE then
      (s.(missing := 0), false)
    else if s.missing + 1 < MISSING_THRESHOLD then
      (s.(missing := s.missing + 1), false)
    else
      Gates(s.(missing := s.missing + 1), e)
  }

  /** The four gates, reached once enough consecutive ticks lacked a circuit address. */
  function Gates(s: State, e: Event): (State, bool) {
    if !e.relayConnected then
      (s.(missing := 0), false)
    else if s.longCooldownUntil.Some? && e.atLongCooldown < s.longCooldownUntil.value then
      (s, false)
    else if s.lastRestartAt.Some? && e.atShortCooldown - s.lastRestartAt.value < MIN_RESTART_GAP then
      (s, false)
    else
      var kept := Kept(s.history, e.now - RATE_WINDOW);
      if |kept| >= MAX_RESTARTS_PER_WINDOW then
        (s.(history := kept), false)
      else
        Signal(s.(history := kept), e)
  }

  /** All gates passed: judge the previous restart, then signal the next one. */
  function Signal(s: State, e: Event): (State, bool) {
    var previousFailed := s.lastRestartAt.Some? && e.atVerify - s.lastRestartAt.value >= VERIFY_GRACE;
    var failed := if previousFailed then s.failed + 1 else s.failed;
    if previousFailed && failed >= MAX_FAILED_RESTARTS then
      (s.(failed := failed, longCooldownUntil := Some(e.now + LONG_COOLDOWN), missing := 0), false)
    else if !e.signalOk then
      (s.(failed := failed), false)
    else
      (s.(failed := failed, lastRestartAt := Some(e.now), history := s.history + [e.now], missing := 0), true)
  }

  // ---------------------------------------------------------------------------------------------------------------
  // Runs

  /** The state after the given ticks. */
  function After(startup: int, es: seq<Event>): State {
    if es == [] then INITIAL
    else Step(startup, After(startup, es[..|es| - 1]), es[|es| - 1]).0
  }

  /** Whether tick `i` of the run signalled a restart. */
  predicate Signals(startup: int, es: seq<Event>, i: nat)
    requires i < |es|
  {
    Step(startup, After(startup, es[..i]), es[i]).1
  }

  /** The times of all restarts signalled by the run, oldest first. */
  function SignalTimes(startup: int, es: seq<Event>): seq<int> {
    if es == [] then []
    else
      var n := |es| - 1;
      SignalTimes(startup, es[..n]) + (if Signals(startup, es, n) then [es[n].now] else [])
  }

  /** A circuit address seen less than three minutes after the latest signal: the restart helped. */
  predicate VerifiedRecovery(startup: int, es: seq<Event>, i: nat)
    requires i < |es|
  {
    var log := SignalTimes(startup, es[..i]);
    es[i].alive && es[i].circuit && log != [] && es[i].atCircuit - log[|log| - 1] < 3 * MINUTE
  }

  /** Extending a prefix of the run by one tick. */
  lemma RunStep(startup: int, es: seq<Event>, i: nat)
    requires i < |es|
    ensures After(startup, es[..i + 1]) == Step(startup, After(startup, es[..i]), es[i]).0
    ensures SignalTimes(startup, es[..i + 1])
         == SignalTimes(startup, es[..i]) + (if Signals(startup, es, i) then [es[i].now] else [])
  {
    assert es[..i + 1][..i] == es[..i];
  }

  // ---------------------------------------------------------------------------------------------------------------
  // What every tick keeps

  /** Signals are at least five minutes apart and none lies in the future. */
  predicate Spaced(log: seq<int>, now: int) {
    && (forall i :: 0 <= i < |log| ==> log[i] <= now)
    && (forall i, j :: 0 <= i < j < |log| ==> log[j] - log[i] >= MIN_RESTART_GAP)
  }

  /** The kept history is the end of the whole log, and everything dropped from it is over an hour old. */
  predicate IsWindow(history: seq<int>, log: seq<int>, now: int) {
    && |history| <= MAX_RESTARTS_PER_WINDOW
    && |history| <= |log|
    && history == log[|log| - |history|..]
    && (forall k :: 0 <= k < |log| - |history| ==> log[k] <= now - RATE_WINDOW)
  }

  predicate Inv(s: State, log: seq<int>, now: int) {
    && Spaced(log, now)
    && IsWindow(s.history, log, now)
    && s.lastRestartAt == (if log == [] then None else Some(log[|log| - 1]))
    && (s.failed > 0 ==> log != [])
    && (s.failed >= MAX_FAILED_RESTARTS ==> now - log[|log| - 1] >= MIN_RESTART_GAP)
  }

  lemma {:induction false} KeptNone(h: seq<int>, cutoff: int)
    requires forall k :: 0 <= k < |h| ==> h[k] <= cutoff
    ensures Kept(h, cutoff) == []
  {
    if h != [] {
      KeptNone(h[..|h| - 1], cutoff);
    }
  }

  lemma {:induction false} KeptSplit(h: seq<int>, d: nat, cutoff: int)
    requires d <= |h|
    requires forall k :: 0 <= k < d ==> h[k] <= cutoff
    requires forall k :: d <= k < |h| ==> h[k] > cutoff
    ensures Kept(h, cutoff) == h[d..]
  {
    if d == |h| {
      KeptNone(h, cutoff);
    } else {
      var n := |h| - 1;
      KeptSplit(h[..n], d, cutoff);
      assert h[..n][d..] + [h[n]] == h[d..];
    }
  }

  /** Pruning a sorted history drops a prefix of it. */
  lemma KeptIsSuffix(h: seq<int>, cutoff: int) returns (d: nat)
    requires forall i, j :: 0 <= i < j < |h| ==> h[i] <= h[j]
    ensures d <= |h| && Kept(h, cutoff) == h[d..]
    ensures forall k :: 0 <= k < d ==> h[k] <= cutoff
  {
    d := 0;
    while d < |h| && h[d] <= cutoff
      invariant d <= |h|
      invariant forall k :: 0 <= k < d ==> h[k] <= cutoff
    {
      d := d + 1;
    }
    KeptSplit(h, d, cutoff);
  }

  lemma PrunedWindow(h: seq<int>, log: seq<int>, before: int, e: Event)
    requires Spaced(log, before) && IsWindow(h, log, before) && before <= e.now <= e.atVerify
    ensures var kept := Kept(h, e.now - RATE_WINDOW);
            && IsWindow(kept, log, e.atVerify)
            && (forall k :: 0 <= k < |log| - |kept| ==> log[k] <= e.now - RATE_WINDOW)
  {
    var dropped := KeptIsSuffix(h, e.now - RATE_WINDOW);
    var kept := Kept(h, e.now - RATE_WINDOW);
    var d := |log| - |h|;
    forall k | 0 <= k < |log| - |kept| ensures log[k] <= e.now - RATE_WINDOW {
      if k >= d { assert log[k] == h[k - d]; }
    }
    assert kept == log[|log| - |kept|..];
  }

  /** How a tick can change the history, and what a signal requires of the state it started from. */
  predicate HistoryChange(s: State, s': State, signalled: bool, e: Event) {
    var kept := Kept(s.history, e.now - RATE_WINDOW);
    if signalled then
      && s'.history == kept + [e.now] && |kept| < MAX_RESTARTS_PER_WINDOW
      && s'.lastRestartAt == Some(e.now)
      && (s.lastRestartAt.Some? ==> e.atShortCooldown - s.lastRestartAt.value >= MIN_RESTART_GAP)
    else
      (s'.history == s.history || s'.history == kept) && s'.lastRestartAt == s.lastRestartAt
  }

  /** The circuit came back within the grace period after the latest restart. */
  predicate Recovers(s: State, e: Event) {
    e.alive && e.circuit && s.lastRestartAt.Some? && e.atCircuit - s.lastRestartAt.value < VERIFY_GRACE
  }

  /** How a tick can change the failure counter. */
  predicate FailureChange(s: State, s': State, signalled: bool, e: Event) {
    || (s'.failed == s.failed && (signalled ==> s.lastRestartAt.None?))
    || (s'.failed == 0 && !signalled && Recovers(s, e))
    || (s'.failed == s.failed + 1 && s.lastRestartAt.Some?
        && e.atShortCooldown - s.lastRestartAt.value >= MIN_RESTART_GAP
        && (s'.failed >= MAX_FAILED_RESTARTS ==> !signalled))
  }

  lemma StepChanges(startup: int, s: State, e: Event)
    requires Ordered(e)
    ensures var (s', signalled) := Step(startup, s, e);
            HistoryChange(s, s', signalled, e) && FailureChange(s, s', signalled, e)
  {
  }

  /** One tick keeps the invariant; a signal is appended to the log at the tick's `now`. */
  lemma ChangesKeepInv(s: State, s': State, signalled: bool, log: seq<int>, before: int, e: Event)
    requires Inv(s, log, before) && Ordered(e) && before <= e.atCircuit
    requires HistoryChange(s, s', signalled, e) && FailureChange(s, s', signalled, e)
    ensures Inv(s', log + (if signalled then [e.now] else []), e.atVerify)
  {
    WindowMoves(s, s', signalled, log, before, e);
    SpacedGrows(log, before, e, signalled);
    assert !signalled ==> log + [] == log;
  }

  lemma WindowMoves(s: State, s': State, signalled: bool, log: seq<int>, before: int, e: Event)
    requires Spaced(log, before) && IsWindow(s.history, log, before)
    requires Ordered(e) && before <= e.atCircuit && HistoryChange(s, s', signalled, e)
    ensures IsWindow(s'.history, log + (if signalled then [e.now] else []), e.atVerify)
  {
    PrunedWindow(s.history, log, before, e);
    var kept := Kept(s.history, e.now - RATE_WINDOW);
    if signalled {
      var log' := log + [e.now];
      assert |log'| - |s'.history| == |log| - |kept|;
      assert s'.history == log'[|log'| - |s'.history|..];
    } else {
      assert log + [] == log;
    }
  }

  lemma SpacedGrows(log: seq<int>, before: int, e: Event, signalled: bool)
    requires Spaced(log, before) && Ordered(e) && before <= e.atCircuit
    requires signalled && log != [] ==> e.atShortCooldown - log[|log| - 1] >= MIN_RESTART_GAP
    ensures Spaced(log + (if signalled then [e.now] else []), e.atVerify)
  {
  }

  /** The invariant before tick n. */
  ghost predicate InvBefore(startup: int, es: seq<Event>, n: nat)
    requires n <= |es|
  {
    Inv(After(startup, es[..n]), SignalTimes(startup, es[..n]), LastReading(startup, es, n))
  }

  lemma NextInv(startup: int, es: seq<Event>, n: nat)
    requires WellTimed(startup, es) && n < |es| && InvBefore(startup, es, n)
    ensures InvBefore(startup, es, n + 1)
  {
    var s, s' := After(startup, es[..n]), After(startup, es[..n + 1]);
    RunStep(startup, es, n);
    StepChanges(startup, s, es[n]);
    ChangesKeepInv(s, s', Signals(startup, es, n), SignalTimes(startup, es[..n]), LastReading(startup, es, n), es[n]);
  }

  lemma RunKeepsInv(startup: int, es: seq<Event>)
    requires WellTimed(startup, es)
    ensures Inv(After(startup, es), SignalTimes(startup, es), LastReading(startup, es, |es|))
  {
    for n := 0 to |es|
      invariant InvBefore(startup, es, n)
    {
      NextInv(startup, es, n);
    }
    assert es[..|es|] == es;
  }

  lemma WellTimedPrefix(startup: int, es: seq<Event>, n: nat)
    requires WellTimed(startup, es) && n <= |es|
    ensures WellTimed(startup, es[..n])
    ensures LastReading(startup, es[..n], n) == LastReading(startup, es, n)
  {
    forall i | 0 <= i < n
      ensures Ordered(es[..n][i]) && LastReading(startup, es[..n], i) <= es[..n][i].atCircuit
    {
      assert es[..n][i] == es[i];
      assert LastReading(startup, es[..n], i) == LastReading(startup, es, i);
    }
  }

  // ---------------------------------------------------------------------------------------------------------------
  // Theorems about every run

  /** Hard rate limit: every signal is at least one hour after the one three before it. */
  lemma {:induction false} RateLimit(startup: int, es: seq<Event>)
    requires WellTimed(startup, es)
    ensures var log := SignalTimes(startup, es);
            forall k :: 3 <= k < |log| ==> log[k] - log[k - 3] >= HOUR
  {
    if es != [] {
      var n := |es| - 1;
      WellTimedPrefix(startup, es, n);
      RateLimit(startup, es[..n]);
      RunKeepsInv(startup, es[..n]);
      var s, log := After(startup, es[..n]), SignalTimes(startup, es[..n]);
      WindowAdmits(startup, s, log, LastReading(startup, es, n), es[n]);
      var log' := SignalTimes(startup, es);
      RunStep(startup, es, n);
      assert es[..n + 1] == es;
      forall k | 3 <= k < |log'| ensures log'[k] - log'[k - 3] >= RATE_WINDOW {
        if k < |log| {
          assert log'[k] == log[k] && log'[k - 3] == log[k - 3];
        }
      }
    }
  }

  /** Gate 4 lets a tick signal only if the third-last signal has left the one-hour window. */
  lemma WindowAdmits(startup: int, s: State, log: seq<int>, before: int, e: Event)
    requires Inv(s, log, before) && Ordered(e) && before <= e.atCircuit
    ensures Step(startup, s, e).1 && |log| >= 3 ==> e.now - log[|log| - 3] >= RATE_WINDOW
  {
    StepChanges(startup, s, e);
    PrunedWindow(s.history, log, before, e);
  }

  /** Any two signals are at least five minutes apart. */
  lemma MinimumGap(startup: int, es: seq<Event>, i: nat, j: nat)
    requires WellTimed(startup, es)
    requires i < j < |SignalTimes(startup, es)|
    ensures SignalTimes(startup, es)[j] - SignalTimes(startup, es)[i] >= 5 * MINUTE
  {
    RunKeepsInv(startup, es);
  }

  /** How many more signals are possible before a verified recovery. */
  function Budget(s: State): nat {
    if s.lastRestartAt.None? then 3 else if s.failed >= 2 then 0 else 2 - s.failed
  }

  lemma {:induction false} PrefixOfPrefix(es: seq<Event>, i: nat, j: nat)
    requires i <= j <= |es|
    ensures es[..j][..i] == es[..i]
  {
  }

  lemma BudgetStep(startup: int, s: State, e: Event)
    requires Ordered(e) && (s.failed > 0 ==> s.lastRestartAt.Some?)
    requires !Recovers(s, e)
    ensures var (s', signalled) := Step(startup, s, e);
            Budget(s') + (if signalled then 1 else 0) <= Budget(s)
  {
    StepChanges(startup, s, e);
  }

  /** The last-restart time is that of the latest signal, and failures are only counted after one. */
  lemma {:induction false} LastRestart(startup: int, es: seq<Event>)
    ensures var s, log := After(startup, es), SignalTimes(startup, es);
            && s.lastRestartAt == (if log == [] then None else Some(log[|log| - 1]))
            && (s.failed > 0 ==> log != [])
  {
    if es != [] {
      LastRestart(startup, es[..|es| - 1]);
    }
  }

  /** Signals in a recovery-free stretch of ticks are paid from the budget at its start. */
  lemma {:induction false} BudgetPays(startup: int, es: seq<Event>, i: nat, j: nat)
    requires i <= j <= |es| && forall k :: i <= k < j ==> Ordered(es[k])
    requires forall k :: i <= k < j ==> !VerifiedRecovery(startup, es, k)
    ensures |SignalTimes(startup, es[..j])| + Budget(After(startup, es[..j]))
         <= |SignalTimes(startup, es[..i])| + Budget(After(startup, es[..i]))
  {
    if i < j {
      BudgetPays(startup, es, i, j - 1);
      RunStep(startup, es, j - 1);
      LastRestart(startup, es[..j - 1]);
      assert !VerifiedRecovery(startup, es, j - 1);
      BudgetStep(startup, After(startup, es[..j - 1]), es[j - 1]);
    }
  }

  /**
   * Restarts that do not help stop: a stretch of ticks without a verified recovery holds at most three signals, and
   * at most two when some signal came before it (so at most three before the first verified recovery and at most
   * two between consecutive ones), whatever the relay does and however many signal attempts fail.
   */
  lemma RecoveryBudget(startup: int, es: seq<Event>, i: nat, j: nat)
    requires WellTimed(startup, es) && i <= j <= |es|
    requires forall k :: i <= k < j ==> !VerifiedRecovery(startup, es, k)
    ensures |SignalTimes(startup, es[..j])| - |SignalTimes(startup, es[..i])|
         <= (if SignalTimes(startup, es[..i]) == [] then 3 else 2)
  {
    BudgetPays(startup, es, i, j);
    LastRestart(startup, es[..i]);
  }

  /** Two failures are counted, and the latest restart can no longer turn out to have helped. */
  predicate Spent(s: State, log: seq<int>, now: int) {
    log != [] && s.failed >= 2 && now - log[|log| - 1] >= 3 * MINUTE
  }

  ghost predicate Dead(startup: int, es: seq<Event>) {
    Spent(After(startup, es), SignalTimes(startup, es), LastReading(startup, es, |es|))
  }

  lemma SpentStep(startup: int, s: State, log: seq<int>, before: int, e: Event)
    requires Inv(s, log, before) && Ordered(e) && before <= e.atCircuit && Spent(s, log, before)
    ensures var (s', signalled) := Step(startup, s, e);
            !signalled && s'.failed >= s.failed && Spent(s', log, e.atVerify)
  {
  }

  /** Spent before tick n, with `log` still all that was signalled. */
  ghost predicate Silent(startup: int, es: seq<Event>, n: nat, log: seq<int>, failed: nat)
    requires n <= |es|
  {
    && SignalTimes(startup, es[..n]) == log && After(startup, es[..n]).failed >= failed
    && Spent(After(startup, es[..n]), log, LastReading(startup, es, n))
  }

  lemma SilentStep(startup: int, es: seq<Event>, n: nat, log: seq<int>, failed: nat)
    requires WellTimed(startup, es) && n < |es| && Silent(startup, es, n, log, failed)
    ensures Silent(startup, es, n + 1, log, failed)
  {
    WellTimedPrefix(startup, es, n);
    RunKeepsInv(startup, es[..n]);
    RunStep(startup, es, n);
    SpentStep(startup, After(startup, es[..n]), log, LastReading(startup, es, n), es[n]);
  }

  lemma SilentRun(startup: int, es: seq<Event>, i: nat, log: seq<int>, failed: nat)
    requires WellTimed(startup, es) && i <= |es| && Silent(startup, es, i, log, failed)
    ensures Silent(startup, es, |es|, log, failed)
  {
    for k := i to |es|
      invariant Silent(startup, es, k, log, failed)
    {
      SilentStep(startup, es, k, log, failed);
    }
  }

  /**
   * Two counted failures silence the watchdog for the rest of the run, once the latest signal is three minutes old.
   * (The source speaks of an extended cooldown of one hour after three. The last-restart time is frozen, so the
   * three-minute reset can never fire again; the next attempt only counts the third failure, and every eligible tick
   * after the cooldown enters it again.)
   */
  lemma LockedOutForever(startup: int, es: seq<Event>, i: nat)
    requires WellTimed(startup, es) && i <= |es| && Dead(startup, es[..i])
    ensures SignalTimes(startup, es) == SignalTimes(startup, es[..i])
    ensures After(startup, es).failed >= After(startup, es[..i]).failed
    ensures Dead(startup, es)
  {
    WellTimedPrefix(startup, es, i);
    SilentRun(startup, es, i, SignalTimes(startup, es[..i]), After(startup, es[..i]).failed);
    assert es[..|es|] == es;
  }

  /** The long cooldown is only ever entered with three failures counted. */
  lemma {:induction false} CooldownNeedsFailures(startup: int, es: seq<Event>)
    requires WellTimed(startup, es)
    ensures CooldownMeans(After(startup, es))
  {
    if es != [] {
      var n := |es| - 1;
      WellTimedPrefix(startup, es, n);
      CooldownNeedsFailures(startup, es[..n]);
      RunKeepsInv(startup, es[..n]);
      CooldownStep(startup, After(startup, es[..n]), SignalTimes(startup, es[..n]), LastReading(startup, es, n), es[n]);
    }
  }

  predicate CooldownMeans(s: State) {
    s.longCooldownUntil.Some? ==> s.failed >= MAX_FAILED_RESTARTS
  }

  lemma CooldownStep(startup: int, s: State, log: seq<int>, before: int, e: Event)
    requires Inv(s, log, before) && Ordered(e) && before <= e.atCircuit && CooldownMeans(s)
    ensures CooldownMeans(Step(startup, s, e).0)
  {
    if s.failed >= MAX_FAILED_RESTARTS {
      SpentStep(startup, s, log, before, e);
    }
  }

  // Ticks that read one time throughout: kubo down, a circuit present, and an eligible miss.
  function DownTick(t: int): Event { Event(false, false, false, false, t, t, t, t, t, t) }
  function CircuitTick(t: int): Event { Event(true, true, false, false, t, t, t, t, t, t) }
  function MissTick(t: int): Event { Event(true, false, true, true, t, t, t, t, t, t) }

  /** Two misses in a row after a fresh start. */
  function Burst(t: int): seq<Event> { [DownTick(t), MissTick(t), MissTick(t)] }

  /** One more tick at the end of a run. */
  lemma MoreTicks(startup: int, es: seq<Event>, e: Event)
    requires WellTimed(startup, es) && Ordered(e) && LastReading(startup, es, |es|) <= e.atCircuit
    ensures WellTimed(startup, es + [e]) && LastReading(startup, es + [e], |es| + 1) == e.atVerify
    ensures var (s, signalled) := Step(startup, After(startup, es), e);
            && After(startup, es + [e]) == s
            && SignalTimes(startup, es + [e]) == SignalTimes(startup, es) + (if signalled then [e.now] else [])
  {
    var es' := es + [e];
    assert es'[..|es|] == es;
    forall i | 0 <= i < |es'| ensures Ordered(es'[i]) && LastReading(startup, es', i) <= es'[i].atCircuit {
      if i < |es| {
        assert es'[i] == es[i];
        assert LastReading(startup, es', i) == LastReading(startup, es, i);
      }
    }
  }

  lemma MissStep(startup: int, s: State, t: int)
    requires s.hasSeenCircuit || t - startup >= BOOTSTRAP_GRACE
    ensures Step(startup, s, DownTick(t)) == (s.(missing := 0), false)
    ensures Step(startup, s.(missing := 0), MissTick(t)) == (s.(missing := 1), false)
  {
  }

  /** A burst signals once the gaps are over, unless two failures are counted; then it counts the third. */
  lemma MoreBurst(startup: int, es: seq<Event>, t: int)
    requires WellTimed(startup, es) && LastReading(startup, es, |es|) <= t
    requires GapOver(SignalTimes(startup, es), MissTick(t)) && WindowOpen(SignalTimes(startup, es), MissTick(t))
    requires After(startup, es).hasSeenCircuit || t - startup >= 5 * MINUTE
    requires After(startup, es).failed < MAX_FAILED_RESTARTS
    ensures var es' := es + Burst(t);
            var s, log := After(startup, es), SignalTimes(startup, es);
            && WellTimed(startup, es') && LastReading(startup, es', |es'|) == t
            && SignalTimes(startup, es') == log + (if log == [] || s.failed < 2 then [t] else [])
            && After(startup, es').failed == s.failed + (if log == [] then 0 else 1)
  {
    var s, log := After(startup, es), SignalTimes(startup, es);
    RunKeepsInv(startup, es);
    CooldownNeedsFailures(startup, es);
    TickExactly(startup, s.(missing := 1), log, LastReading(startup, es, |es|), MissTick(t), true);
    HalfBurst(startup, es, t);
    MoreTicks(startup, es + [DownTick(t), MissTick(t)], MissTick(t));
    assert es + Burst(t) == es + [DownTick(t), MissTick(t)] + [MissTick(t)];
  }

  /** After its first miss one is counted and nothing else has changed. */
  lemma HalfBurst(startup: int, es: seq<Event>, t: int)
    requires WellTimed(startup, es) && LastReading(startup, es, |es|) <= t
    requires After(startup, es).hasSeenCircuit || t - startup >= 5 * MINUTE
    ensures var es' := es + [DownTick(t), MissTick(t)];
            && WellTimed(startup, es') && LastReading(startup, es', |es'|) == t
            && SignalTimes(startup, es') == SignalTimes(startup, es)
            && After(startup, es') == After(startup, es).(missing := 1)
  {
    MissStep(startup, After(startup, es), t);
    MoreTicks(startup, es, DownTick(t));
    MoreTicks(startup, es + [DownTick(t)], MissTick(t));
    assert es + [DownTick(t), MissTick(t)] == es + [DownTick(t)] + [MissTick(t)];
  }

  /** An hour after everything the gaps are over. */
  lemma GapsOverByThen(startup: int, es: seq<Event>, t: int)
    requires WellTimed(startup, es) && LastReading(startup, es, |es|) + HOUR <= t
    ensures GapOver(SignalTimes(startup, es), MissTick(t)) && WindowOpen(SignalTimes(startup, es), MissTick(t))
  {
    RunKeepsInv(startup, es);
  }

  /** The run goes on with `fs` and signals again. */
  ghost predicate SignalsLater(startup: int, es: seq<Event>, fs: seq<Event>) {
    WellTimed(startup, es + fs) && |SignalTimes(startup, es + fs)| > |SignalTimes(startup, es)|
  }

  /** A circuit that appears now takes back the failures of a run that is not dead. */
  lemma CircuitRevives(startup: int, es: seq<Event>, now: int)
    requires WellTimed(startup, es) && !Dead(startup, es) && now == LastReading(startup, es, |es|)
    ensures var es' := es + [CircuitTick(now)];
            && WellTimed(startup, es') && LastReading(startup, es', |es'|) == now
            && SignalTimes(startup, es') == SignalTimes(startup, es)
            && After(startup, es').failed < 2 && After(startup, es').hasSeenCircuit
  {
    RunKeepsInv(startup, es);
    MoreTicks(startup, es, CircuitTick(now));
    CircuitStep(startup, After(startup, es), SignalTimes(startup, es), now);
  }

  lemma CircuitStep(startup: int, s: State, log: seq<int>, now: int)
    requires Inv(s, log, now) && !Spent(s, log, now)
    ensures var (s', signalled) := Step(startup, s, CircuitTick(now));
            !signalled && s'.failed < 2 && s'.hasSeenCircuit
  {
  }

  /** A run that is not dead signals again if a circuit appears at once and then goes away for good. */
  lemma RevivalSignals(startup: int, es: seq<Event>, now: int)
    requires WellTimed(startup, es) && !Dead(startup, es) && now == LastReading(startup, es, |es|)
    ensures SignalsLater(startup, es, [CircuitTick(now)] + Burst(now + HOUR))
  {
    CircuitRevives(startup, es, now);
    GapsOverByThen(startup, es + [CircuitTick(now)], now + HOUR);
    MoreBurst(startup, es + [CircuitTick(now)], now + HOUR);
    assert es + ([CircuitTick(now)] + Burst(now + HOUR)) == es + [CircuitTick(now)] + Burst(now + HOUR);
  }

  /**
   * Exactly when the watchdog still works: some continuation of a run signals again if and only if the run is not
   * dead.
   */
  lemma SignalsAgainExactly(startup: int, es: seq<Event>)
    requires WellTimed(startup, es)
    ensures (exists fs :: SignalsLater(startup, es, fs)) <==> !Dead(startup, es)
  {
    if Dead(startup, es) {
      forall fs | WellTimed(startup, es + fs) ensures !SignalsLater(startup, es, fs) {
        assert (es + fs)[..|es|] == es;
        LockedOutForever(startup, es + fs, |es|);
      }
    } else {
      RevivalSignals(startup, es, LastReading(startup, es, |es|));
    }
  }

  predicate CircuitFree(es: seq<Event>) {
    forall k :: 0 <= k < |es| ==> !es[k].circuit
  }

  /** A run without a circuit that ends at `now`, with its signals and its failures. */
  ghost predicate Quiet(startup: int, es: seq<Event>, now: int, log: seq<int>, failed: nat) {
    && WellTimed(startup, es) && CircuitFree(es) && LastReading(startup, es, |es|) == now
    && SignalTimes(startup, es) == log && After(startup, es).failed == failed
  }

  lemma QuietBurst(startup: int, es: seq<Event>, now: int, log: seq<int>, failed: nat, t: int)
    returns (es': seq<Event>)
    requires Quiet(startup, es, now, log, failed) && now + HOUR <= t && startup + HOUR <= t && failed < 2
    ensures Quiet(startup, es', t, log + [t], failed + if log == [] then 0 else 1)
  {
    GapsOverByThen(startup, es, t);
    MoreBurst(startup, es, t);
    es' := es + Burst(t);
  }

  lemma OneSignal(startup: int) returns (es: seq<Event>)
    ensures Quiet(startup, es, startup + HOUR, [startup + HOUR], 0)
  {
    assert Quiet(startup, [], startup, [], 0);
    es := QuietBurst(startup, [], startup, [], 0, startup + HOUR);
  }

  lemma TwoSignals(startup: int) returns (es: seq<Event>)
    ensures Quiet(startup, es, startup + 2 * HOUR, [startup + HOUR, startup + 2 * HOUR], 1)
  {
    es := OneSignal(startup);
    es := QuietBurst(startup, es, startup + HOUR, [startup + HOUR], 0, startup + 2 * HOUR);
    assert [startup + HOUR] + [startup + 2 * HOUR] == [startup + HOUR, startup + 2 * HOUR];
  }

  /** With no circuit at all and a connected relay, a run signals after one, two and three hours. */
  lemma ThreeSignals(startup: int) returns (es: seq<Event>)
    ensures Quiet(startup, es, startup + 3 * HOUR, [startup + HOUR, startup + 2 * HOUR, startup + 3 * HOUR], 2)
  {
    es := TwoSignals(startup);
    var log := [startup + HOUR, startup + 2 * HOUR];
    es := QuietBurst(startup, es, startup + 2 * HOUR, log, 1, startup + 3 * HOUR);
    assert log + [startup + 3 * HOUR] == [startup + HOUR, startup + 2 * HOUR, startup + 3 * HOUR];
  }

  /** And it can die: that run is dead three minutes later, with two failures counted, and then counts the third. */
  lemma DeathIsReached(startup: int) returns (es: seq<Event>)
    ensures WellTimed(startup, es) && CircuitFree(es) && Dead(startup, es)
    ensures LastReading(startup, es, |es|) == startup + 3 * HOUR + 3 * MINUTE
    ensures SignalTimes(startup, es) == [startup + HOUR, startup + 2 * HOUR, startup + 3 * HOUR]
    ensures After(startup, es).failed == 2 && After(startup, es + Burst(startup + 5 * HOUR)).failed == 3
  {
    var before := ThreeSignals(startup);
    var e := DownTick(startup + 3 * HOUR + 3 * MINUTE);
    es := before + [e];
    MoreTicks(startup, before, e);
    GapsOverByThen(startup, es, startup + 5 * HOUR);
    MoreBurst(startup, es, startup + 5 * HOUR);
  }

  /** A tick that counts as a miss: kubo answers, has no circuit address, and the bootstrap guard no longer applies. */
  predicate CountedMiss(startup: int, es: seq<Event>, i: nat)
    requires i < |es|
  {
    && es[i].alive && !es[i].circuit
    && (CircuitSeen(es[..i]) || es[i].atBootstrap - startup >= 5 * MINUTE)
  }

  predicate CircuitSeen(es: seq<Event>) {
    exists k :: 0 <= k < |es| && es[k].alive && es[k].circuit
  }

  lemma CircuitSeenSnoc(es: seq<Event>)
    requires es != []
    ensures var n := |es| - 1;
            CircuitSeen(es) <==> CircuitSeen(es[..n]) || (es[n].alive && es[n].circuit)
  {
    var n := |es| - 1;
    if CircuitSeen(es[..n]) {
      var k :| 0 <= k < n && es[..n][k].alive && es[..n][k].circuit;
      assert es[k].alive && es[k].circuit;
    }
    if CircuitSeen(es) {
      var k :| 0 <= k < |es| && es[k].alive && es[k].circuit;
      assert k < n ==> es[..n][k] == es[k];
    }
  }

  /** `hasSeenCircuit` and the miss counter say what they are named after. */
  lemma {:induction false} CountersMean(startup: int, es: seq<Event>)
    ensures After(startup, es).hasSeenCircuit <==> CircuitSeen(es)
    ensures After(startup, es).missing <= |es|
    ensures forall k :: |es| - After(startup, es).missing <= k < |es| ==> CountedMiss(startup, es, k)
  {
    if es != [] {
      var n := |es| - 1;
      CountersMean(startup, es[..n]);
      var s, s' := After(startup, es[..n]), After(startup, es);
      CircuitSeenSnoc(es);
      forall k | |es| - s'.missing <= k < |es| ensures CountedMiss(startup, es, k) {
        if k < n {
          assert CountedMiss(startup, es[..n], k);
          PrefixOfPrefix(es, k, n);
        }
      }
    }
  }

  /**
   * Every signal rests on evidence: the two latest ticks were both counted misses, the relay was connected, and the
   * host accepted the signal.
   */
  lemma SignalNeedsEvidence(startup: int, es: seq<Event>, i: nat)
    requires i < |es| && Signals(startup, es, i)
    ensures i >= 1 && CountedMiss(startup, es, i - 1) && CountedMiss(startup, es, i)
    ensures es[i].relayConnected && es[i].signalOk
  {
    CountersMean(startup, es[..i]);
    assert CountedMiss(startup, es[..i], i - 1);
    PrefixOfPrefix(es, i - 1, i);
  }

  // ---------------------------------------------------------------------------------------------------------------
  // When exactly a tick signals, told from the history alone

  /** The latest signal, if any, is at least five minutes back. */
  predicate GapOver(log: seq<int>, e: Event) {
    log != [] ==> e.atShortCooldown - log[|log| - 1] >= 5 * MINUTE
  }

  /** The third-latest signal, if any, is at least an hour back. */
  predicate WindowOpen(log: seq<int>, e: Event) {
    |log| >= 3 ==> e.now - log[|log| - 3] >= HOUR
  }

  /** Two counted misses in a row, the first of which was not used up by a signal or a missing relay. */
  predicate Armed(startup: int, es: seq<Event>, i: nat)
    requires i < |es|
    decreases i
  {
    && i >= 1 && CountedMiss(startup, es, i) && CountedMiss(startup, es, i - 1)
    && !(Armed(startup, es, i - 1) && (Signals(startup, es, i - 1) || !es[i - 1].relayConnected))
  }

  predicate Attempt(startup: int, es: seq<Event>, i: nat)
    requires i < |es|
  {
    var log := SignalTimes(startup, es[..i]);
    Armed(startup, es, i) && es[i].relayConnected && GapOver(log, es[i]) && WindowOpen(log, es[i])
  }

  /** Attempts since the latest verified recovery, other than those before the first signal. */
  function Failures(startup: int, es: seq<Event>, n: nat): nat
    requires n <= |es|
    decreases n
  {
    if n == 0 || VerifiedRecovery(startup, es, n - 1) then 0
    else
      Failures(startup, es, n - 1)
      + (if Attempt(startup, es, n - 1) && SignalTimes(startup, es[..n - 1]) != [] then 1 else 0)
  }

  lemma WindowMeans(h: seq<int>, log: seq<int>, before: int, e: Event)
    requires Spaced(log, before) && IsWindow(h, log, before) && before <= e.now
    ensures |Kept(h, e.now - RATE_WINDOW)| < MAX_RESTARTS_PER_WINDOW <==> WindowOpen(log, e)
  {
    var cutoff := e.now - RATE_WINDOW;
    var d := KeptIsSuffix(h, cutoff);
    if |h| == 3 {
      assert h[0] == log[|log| - 3];
      if d == 0 {
        KeptAbove(h, cutoff, 0);
      }
    } else if |log| >= 3 {
      assert log[|log| - 3] <= before - RATE_WINDOW;
    }
  }

  lemma {:induction false} KeptAbove(h: seq<int>, cutoff: int, k: nat)
    requires k < |Kept(h, cutoff)|
    ensures Kept(h, cutoff)[k] > cutoff
  {
    if h != [] && k < |Kept(h[..|h| - 1], cutoff)| {
      KeptAbove(h[..|h| - 1], cutoff, k);
    }
  }

  /** The four gates of an unlocked watchdog, in terms of the log. */
  lemma GatesExactly(s: State, log: seq<int>, e: Event)
    requires Ordered(e) && s.missing >= 2 && s.failed < MAX_FAILED_RESTARTS && s.longCooldownUntil.None?
    requires s.lastRestartAt == (if log == [] then None else Some(log[|log| - 1]))
    requires |Kept(s.history, e.now - RATE_WINDOW)| < MAX_RESTARTS_PER_WINDOW <==> WindowOpen(log, e)
    ensures var (s', signalled) := Gates(s, e);
            var attempt := e.relayConnected && GapOver(log, e) && WindowOpen(log, e);
            && (signalled <==> attempt && e.signalOk && (log == [] || s.failed < 2))
            && s'.failed == s.failed + (if attempt && log != [] then 1 else 0)
            && (s'.failed < MAX_FAILED_RESTARTS ==>
                  s'.longCooldownUntil.None? && (s'.missing >= 1 <==> !signalled && e.relayConnected))
  {
    if e.relayConnected && GapOver(log, e) && WindowOpen(log, e) {
      var pruned := s.(history := Kept(s.history, e.now - RATE_WINDOW));
      assert Gates(s, e) == Signal(pruned, e);
    } else {
      assert !Gates(s, e).1;
    }
  }

  /** One tick of an unlocked watchdog, in terms of the log and of what its counters stand for. */
  lemma TickExactly(startup: int, s: State, log: seq<int>, before: int, e: Event, counted: bool)
    requires Inv(s, log, before) && Ordered(e) && before <= e.atCircuit
    requires s.failed < MAX_FAILED_RESTARTS && s.longCooldownUntil.None?
    requires counted <==> e.alive && !e.circuit && (s.hasSeenCircuit || e.atBootstrap - startup >= BOOTSTRAP_GRACE)
    ensures var (s', signalled) := Step(startup, s, e);
            var armed := counted && s.missing >= 1;
            var attempt := armed && e.relayConnected && GapOver(log, e) && WindowOpen(log, e);
            && (signalled <==> attempt && e.signalOk && (log == [] || s.failed < 2))
            && s'.failed == (if Recovers(s, e) then 0 else s.failed + if attempt && log != [] then 1 else 0)
            && (s'.failed < MAX_FAILED_RESTARTS ==>
                  && s'.longCooldownUntil.None?
                  && (s'.missing >= 1 <==> counted && !(armed && (signalled || !e.relayConnected))))
  {
    if counted && s.missing >= 1 {
      WindowMeans(s.history, log, before, e);
      GatesExactly(s.(missing := s.missing + 1), log, e);
    }
  }

  /** What the state stands for before tick n. */
  predicate Tells(startup: int, es: seq<Event>, n: nat)
    requires n <= |es|
  {
    var s := After(startup, es[..n]);
    if Failures(startup, es, n) >= MAX_FAILED_RESTARTS then s.failed >= MAX_FAILED_RESTARTS
    else
      && s.failed == Failures(startup, es, n) && s.longCooldownUntil.None?
      && (s.missing >= 1 <==> Primed(startup, es, n))
  }

  /** A further counted miss would arm the watchdog. */
  predicate Primed(startup: int, es: seq<Event>, n: nat)
    requires n <= |es|
  {
    && n >= 1 && CountedMiss(startup, es, n - 1)
    && !(Armed(startup, es, n - 1) && (Signals(startup, es, n - 1) || !es[n - 1].relayConnected))
  }

  /** The invariant of a run, before tick n of it. */
  lemma InvAt(startup: int, es: seq<Event>, n: nat)
    requires WellTimed(startup, es) && n < |es|
    ensures Inv(After(startup, es[..n]), SignalTimes(startup, es[..n]), LastReading(startup, es, n))
    ensures Ordered(es[n]) && LastReading(startup, es, n) <= es[n].atCircuit
    ensures After(startup, es[..n]).hasSeenCircuit <==> CircuitSeen(es[..n])
    ensures VerifiedRecovery(startup, es, n) <==> Recovers(After(startup, es[..n]), es[n])
  {
    WellTimedPrefix(startup, es, n);
    RunKeepsInv(startup, es[..n]);
    CountersMean(startup, es[..n]);
  }

  lemma LockedTick(startup: int, es: seq<Event>, n: nat)
    requires WellTimed(startup, es) && n < |es| && Tells(startup, es, n)
    requires Failures(startup, es, n) >= MAX_FAILED_RESTARTS
    ensures !Signals(startup, es, n) && SignalTimes(startup, es[..n]) != []
    ensures Tells(startup, es, n + 1)
  {
    InvAt(startup, es, n);
    RunStep(startup, es, n);
    SpentStep(startup, After(startup, es[..n]), SignalTimes(startup, es[..n]), LastReading(startup, es, n), es[n]);
  }

  lemma UnlockedTick(startup: int, es: seq<Event>, n: nat)
    requires WellTimed(startup, es) && n < |es| && Tells(startup, es, n)
    requires Failures(startup, es, n) < MAX_FAILED_RESTARTS
    ensures Signals(startup, es, n) <==>
              && Attempt(startup, es, n) && es[n].signalOk
              && (SignalTimes(startup, es[..n]) == [] || Failures(startup, es, n) < 2)
    ensures Tells(startup, es, n + 1)
  {
    InvAt(startup, es, n);
    RunStep(startup, es, n);
    TickExactly(startup, After(startup, es[..n]), SignalTimes(startup, es[..n]), LastReading(startup, es, n), es[n],
                CountedMiss(startup, es, n));
  }

  lemma StartTells(startup: int, es: seq<Event>)
    ensures Tells(startup, es, 0)
  {
    assert es[..0] == [];
  }

  lemma NextTells(startup: int, es: seq<Event>, n: nat)
    requires WellTimed(startup, es) && n < |es| && Tells(startup, es, n)
    ensures Tells(startup, es, n + 1)
  {
    if Failures(startup, es, n) >= MAX_FAILED_RESTARTS {
      LockedTick(startup, es, n);
    } else {
      UnlockedTick(startup, es, n);
    }
  }

  lemma StateTells(startup: int, es: seq<Event>, n: nat)
    requires WellTimed(startup, es) && n <= |es|
    ensures Tells(startup, es, n)
  {
    StartTells(startup, es);
    for k := 0 to n
      invariant Tells(startup, es, k)
    {
      NextTells(startup, es, k);
    }
  }

  /**
   * The whole machine in one sentence: a tick signals exactly when the last two counted misses are unspent, the relay
   * is connected, the latest signal is five minutes and the third-latest an hour back, the host accepts the signal,
   * and fewer than two attempts have followed the latest verified recovery, unless there was no signal yet.
   */
  lemma SignalsExactly(startup: int, es: seq<Event>, i: nat)
    requires WellTimed(startup, es) && i < |es|
    ensures Signals(startup, es, i) <==>
              && Attempt(startup, es, i) && es[i].signalOk
              && (SignalTimes(startup, es[..i]) == [] || Failures(startup, es, i) < 2)
  {
    StateTells(startup, es, i);
    if Failures(startup, es, i) >= MAX_FAILED_RESTARTS {
      LockedTick(startup, es, i);
    } else {
      UnlockedTick(startup, es, i);
    }
  }

  // ---------------------------------------------------------------------------------------------------------------
  // The limits are met exactly

  /** A run that ends at `now`, with its signals, its failures and whether it has seen a circuit. */
  ghost predicate Stands(startup: int, es: seq<Event>, now: int, log: seq<int>, failed: nat, seen: bool) {
    && WellTimed(startup, es) && LastReading(startup, es, |es|) == now && SignalTimes(startup, es) == log
    && After(startup, es).failed == failed && (seen ==> After(startup, es).hasSeenCircuit)
  }

  lemma AnotherSignal(startup: int, es: seq<Event>, now: int, log: seq<int>, failed: nat, seen: bool, t: int)
    returns (es': seq<Event>)
    requires Stands(startup, es, now, log, failed, seen) && now <= t && (log == [] || failed < 2)
    requires failed < 3 && (seen || t - startup >= 5 * MINUTE)
    requires log != [] ==> t - log[|log| - 1] >= 5 * MINUTE
    requires |log| >= 3 ==> t - log[|log| - 3] >= HOUR
    ensures Stands(startup, es', t, log + [t], failed + (if log == [] then 0 else 1), false)
  {
    MoreBurst(startup, es, t);
    es' := es + Burst(t);
  }

  /** A circuit seen within three minutes of the latest signal, to the nanosecond, takes the failures back. */
  lemma Recovery(startup: int, es: seq<Event>, now: int, log: seq<int>, failed: nat, t: int)
    returns (es': seq<Event>)
    requires Stands(startup, es, now, log, failed, false) && log != [] && now <= t
    ensures Stands(startup, es', t, log, if t - log[|log| - 1] < 3 * MINUTE then 0 else failed, true)
  {
    LastRestart(startup, es);
    MoreTicks(startup, es, CircuitTick(t));
    es' := es + [CircuitTick(t)];
  }

  lemma FirstSignals(startup: int) returns (es: seq<Event>)
    ensures Stands(startup, es, startup + 10 * MINUTE, [startup + 5 * MINUTE, startup + 10 * MINUTE], 1, false)
  {
    assert Stands(startup, [], startup, [], 0, false);
    es := AnotherSignal(startup, [], startup, [], 0, false, startup + 5 * MINUTE);
    assert [] + [startup + 5 * MINUTE] == [startup + 5 * MINUTE];
    es := AnotherSignal(startup, es, startup + 5 * MINUTE, [startup + 5 * MINUTE], 0, false, startup + 10 * MINUTE);
    assert [startup + 5 * MINUTE] + [startup + 10 * MINUTE] == [startup + 5 * MINUTE, startup + 10 * MINUTE];
  }

  /**
   * Every limit is met exactly by one run: the first signal five minutes after the start without any circuit, the
   * second five minutes after the first, a recovery one nanosecond short of three minutes after the third, and the
   * fourth signal one hour after the first.
   */
  lemma LimitsAreTight(startup: int) returns (es: seq<Event>)
    ensures WellTimed(startup, es)
    ensures SignalTimes(startup, es)
         == [startup + 5 * MINUTE, startup + 10 * MINUTE, startup + 15 * MINUTE, startup + 65 * MINUTE]
  {
    es := FirstSignals(startup);
    var log := [startup + 5 * MINUTE, startup + 10 * MINUTE];
    es := AnotherSignal(startup, es, startup + 10 * MINUTE, log, 1, false, startup + 15 * MINUTE);
    es := LastSignal(startup, es, log + [startup + 15 * MINUTE]);
  }

  lemma LastSignal(startup: int, es: seq<Event>, log: seq<int>) returns (es': seq<Event>)
    requires log == [startup + 5 * MINUTE, startup + 10 * MINUTE, startup + 15 * MINUTE]
    requires Stands(startup, es, startup + 15 * MINUTE, log, 2, false)
    ensures WellTimed(startup, es') && SignalTimes(startup, es') == log + [startup + 65 * MINUTE]
  {
    var t := startup + 18 * MINUTE - 1;
    es' := Recovery(startup, es, startup + 15 * MINUTE, log, 2, t);
    es' := AnotherSignal(startup, es', t, log, 0, true, startup + 65 * MINUTE);
  }

  /** While it lasts nothing is judged or signalled: only the misses and the circuit are noted. */
  lemma CooldownHolds(startup: int, s: State, e: Event)
    requires s.longCooldownUntil.Some? && e.atLongCooldown < s.longCooldownUntil.value
    ensures var (s', signalled) := Step(startup, s, e);
            && !signalled && s'.longCooldownUntil == s.longCooldownUntil && s'.history == s.history
            && s'.lastRestartAt == s.lastRestartAt && (s'.failed == s.failed || Recovers(s, e))
  {
  }

  /** A tick that enters or renews the long cooldown sets it to end one hour later, with three failures counted. */
  lemma CooldownLasts(startup: int, s: State, e: Event)
    ensures var s' := Step(startup, s, e).0;
            s'.longCooldownUntil != s.longCooldownUntil ==>
              s'.longCooldownUntil == Some(e.now + HOUR) && s'.failed >= 3 && s'.missing == 0
  {
  }

  // ---------------------------------------------------------------------------------------------------------------
  // The tick as the source runs it

  class Monitor {
    const startupAt: int
    var missing: nat
    var lastRestartAt: Option<int>
    var failed: nat
    var longCooldownUntil: Option<int>
    var hasSeenCircuit: bool
    // The slice `restartHistory`: its backing array and its length.
    var backing: array<int>
    var length: nat

    ghost predicate Valid()
      reads this
    {
      length <= backing.Length
    }

    ghost function Value(): State
      requires Valid()
      reads this, backing
    {
      State(missing, lastRestartAt, failed, longCooldownUntil, backing[..length], hasSeenCircuit)
    }

    constructor (startup: int)
      ensures Valid() && fresh(backing) && startupAt == startup && Value() == INITIAL
    {
      startupAt := startup;
      missing, lastRestartAt, failed, longCooldownUntil, hasSeenCircuit := 0, None, 0, None, false;
      backing, length := new int[0], 0;
    }

    /** Drops old timestamps in place: reads run ahead of writes over the same backing array. */
    method Prune(cutoff: int)
      requires Valid()
      modifies backing, this`length
      ensures Valid()
      ensures backing[..length] == Kept(old(backing[..length]), cutoff)
    {
      ghost var was := backing[..length];
      var w := 0;
      for r := 0 to length
        invariant w <= r <= length == |was| <= backing.Length
        invariant backing[..w] == Kept(was[..r], cutoff)
        invariant backing[r..length] == was[r..]
      {
        var t := backing[r];
        assert t == was[r] by { assert backing[r..length][0] == was[r..][0]; }
        assert was[..r + 1][..r] == was[..r];
        ghost var rest := backing[r + 1..length];
        assert rest == backing[r..length][1..] == was[r..][1..] == was[r + 1..];
        if t > cutoff {
          ghost var kept := backing[..w];
          backing[w] := t;
          assert backing[..w + 1] == kept + [t];
          w := w + 1;
        }
        assert backing[r + 1..length] == rest;
      }
      assert was[..length] == was;
      length := w;
    }

    /** Go's append: in place while the backing array has room, otherwise into a larger copy. */
    method Append(t: int)
      requires Valid()
      modifies this`backing, this`length, backing
      ensures Valid() && (backing == old(backing) || fresh(backing))
      ensures backing[..length] == old(backing[..length]) + [t]
    {
      if length == backing.Length {
        var grown := new int[2 * length + 1];
        forall k | 0 <= k < length { grown[k] := backing[k]; }
        assert grown[..length] == backing[..length];
        backing := grown;
      }
      backing[length] := t;
      length := length + 1;
    }

    method Tick(e: Event) returns (signalled: bool)
      requires Valid()
      modifies this, backing
      ensures Valid() && (backing == old(backing) || fresh(backing))
      ensures (Value(), signalled) == Step(startupAt, old(Value()), e)
    {
      signalled := false;
      if !e.alive {
        missing := 0;
        return;
      }
      if e.circuit {
        hasSeenCircuit := true;
        if lastRestartAt.Some? && e.atCircuit - lastRestartAt.value < VERIFY_GRACE {
          failed := 0;
        }
        missing := 0;
        return;
      }
      if !hasSeenCircuit && e.atBootstrap - startupAt < BOOTSTRAP_GRACE {
        missing := 0;
        return;
      }
      missing := missing + 1;
      if missing < MISSING_THRESHOLD {
        return;
      }
      signalled := PassGates(e);
    }

    method PassGates(e: Event) returns (signalled: bool)
      requires Valid()
      modifies this, backing
      ensures Valid() && (backing == old(backing) || fresh(backing))
      ensures (Value(), signalled) == Gates(old(Value()), e)
    {
      signalled := false;
      if !e.relayConnected {
        missing := 0;
        return;
      }
      if longCooldownUntil.Some? && e.atLongCooldown < longCooldownUntil.value {
        return;
      }
      if lastRestartAt.Some? && e.atShortCooldown - lastRestartAt.value < MIN_RESTART_GAP {
        return;
      }
      Prune(e.now - RATE_WINDOW);
      if length >= MAX_RESTARTS_PER_WINDOW {
        return;
      }
      signalled := SignalRestart(e);
    }

    method SignalRestart(e: Event) returns (signalled: bool)
      requires Valid()
      modifies this, backing
      ensures Valid() && (backing == old(backing) || fresh(backing))
      ensures (Value(), signalled) == Signal(old(Value()), e)
    {
      signalled := false;
      if lastRestartAt.Some? && e.atVerify - lastRestartAt.value >= VERIFY_GRACE {
        failed := failed + 1;
        if failed >= MAX_FAILED_RESTARTS {
          longCooldownUntil := Some(e.now + LONG_COOLDOWN);
          missing := 0;
          return;
        }
      }
      if !e.signalOk {
        return;
      }
      lastRestartAt := Some(e.now);
      Append(e.now);
      missing := 0;
      signalled := true;
    }
  }

  /** The goroutine's loop over the ticks it receives until it is cancelled: the times at which it signalled. */
  method Watch(startup: int, es: seq<Event>) returns (signals: seq<int>)
    requires WellTimed(startup, es)
    ensures signals == SignalTimes(startup, es)
    ensures forall k :: 3 <= k < |signals| ==> signals[k] - signals[k - 3] >= HOUR
  {
    var monitor := new Monitor(startup);
    signals := [];
    for i := 0 to |es|
      invariant fresh(monitor) && fresh(monitor.backing) && monitor.Valid() && monitor.startupAt == startup
      invariant monitor.Value() == After(startup, es[..i])
      invariant signals == SignalTimes(startup, es[..i])
    {
      RunStep(startup, es, i);
      var signalled := monitor.Tick(es[i]);
      if signalled {
        signals := signals + [es[i].now];
      }
    }
    assert es[..|es|] == es;
    RateLimit(startup, es);
  }
}
