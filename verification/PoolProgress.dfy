/**
 * What the reconcile passes of `blockchain/bl_pool.go` are for: a device that is a member is recorded as one, and a
 * recorded device that has left its pool is cleared and restarted, under every schedule that lets the passes alone.
 */
module PoolProgress {
  import opened Wrappers
  import opened Durations
  import opened Text
  import opened ClusterStatus
  import opened PoolReconcile

  // ---------------------------------------------------------------------------------------------------------------
  // A device that has left is cleared

  /** Only time passes and the pass goes on, every write succeeds, and the chain gives the same answer throughout. */
  ghost predicate LetAlone(s: Setup, pool: string, chain: string, answer: Status, es: seq<Event>) {
    forall i :: 0 <= i < |es| ==> Harmless(s, pool, chain, answer, es[i])
  }

  ghost predicate Harmless(s: Setup, pool: string, chain: string, answer: Status, e: Event) {
    || e.Advance?
    || (e.Proceed? && e.input.ok && !e.input.cancelled && Says(s, pool, chain, e.input.rpc, answer))
  }

  function Proceeds(es: seq<Event>): nat {
    if es == [] then 0 else Proceeds(es[..|es| - 1]) + if es[|es| - 1].Proceed? then 1 else 0
  }

  function Elapsed(es: seq<Event>): nat {
    if es == [] then 0
    else Elapsed(es[..|es| - 1]) + if es[|es| - 1].Advance? then es[|es| - 1].d else 0
  }

  predicate RateOpen(w: World) { w.clearedAt.Some? ==> w.now - w.clearedAt.value * SECOND >= DAY }

  predicate Clearable(pool: string, chain: string) {
    pool != "" && pool != "0" && GoodNames(chain, pool)
  }

  /** The marker reads back as naming the pair. */
  predicate Named(w: World, pool: string, chain: string) {
    w.confirmed.Some? && TrimSpace(w.confirmed.value) == PoolKey(chain, pool)
  }

  predicate IsRecording(pc: Pc) { pc.RecordRead? || pc.RecordWrite? }

  /** A pass that will clear (pool, chain) if it is let alone. */
  predicate UnderWay(s: Setup, pool: string, chain: string, w: World) {
    && !w.disabled && !s.poolHost
    && match w.phase
       case Idle =>
         w.pool == pool && w.chain == chain && Named(w, pool, chain) && RateOpen(w)
       case ReadChain(p) =>
         p == pool && w.pool == pool && w.chain == chain && Named(w, pool, chain) && RateOpen(w)
       case At(pc, p, c) =>
         && p == pool && c == chain
         && (Stage(pc) <= 2 ==> RateOpen(w))
         && (Stage(pc) <= 4 ==> Named(w, pool, chain))
         && (pc.Wait? ==> pc.since <= w.now)
         && (Stage(pc) <= 8 ==> w.pool == pool && w.chain == chain)
         && (Stage(pc) >= 11 ==> w.pool == "0")
         && (Stage(pc) >= 12 ==> w.chain == "")
  }

  /** Cleared and restarted, at or after observation n; later passes find nothing to do. */
  predicate Finished(s: Setup, n: nat, w: World) {
    && !w.disabled && !s.poolHost
    && w.pool == "0" && w.chain == "" && w.phase in {Idle, ReadChain("0")}
    && n <= |w.log| && RestartSignalled in w.log[n..]
  }

  predicate OnWay(s: Setup, pool: string, chain: string, n: nat, w: World) {
    n <= |w.log| && (UnderWay(s, pool, chain, w) || Finished(s, n, w))
  }

  /** The steps that are left until the restart is signalled. */
  function StepsLeft(w: World): nat {
    match w.phase
    case Idle => if w.pool == "0" then 0 else 17
    case ReadChain(p) => if p == "0" then 0 else 16
    case At(pc, _, _) => if IsRecording(pc) then 18 else 17 - Stage(pc)
  }

  function Less(n: nat): nat { if n == 0 then 0 else n - 1 }

  /** One step of such a pass. */
  predicate Nearer(s: Setup, pool: string, chain: string, n: nat, w: World, w': World) {
    OnWay(s, pool, chain, n, w') && StepsLeft(w') == Less(StepsLeft(w)) && w'.now == w.now
  }

  lemma WayToWait(s: Setup, pool: string, chain: string, n: nat, w: World, input: Input)
    requires Clearable(pool, chain) && UnderWay(s, pool, chain, w) && n <= |w.log| && 12 < StepsLeft(w) <= 17
    ensures Nearer(s, pool, chain, n, w, Observed(w, Act(s, w, input, NOT_LISTED)))
  {
  }

  lemma WayToStart(s: Setup, pool: string, chain: string, n: nat, w: World, input: Input)
    requires Clearable(pool, chain) && UnderWay(s, pool, chain, w) && n <= |w.log| && StepsLeft(w) == 18 && input.ok
    ensures Nearer(s, pool, chain, n, w, Observed(w, Act(s, w, input, NOT_LISTED)))
  {
    KeyIsTrimmed(chain, pool, PoolKey(chain, pool));
  }

  lemma WayToMark(s: Setup, pool: string, chain: string, n: nat, w: World, input: Input)
    requires Clearable(pool, chain) && UnderWay(s, pool, chain, w) && n <= |w.log| && 7 < StepsLeft(w) <= 12
    requires input.ok && !input.cancelled
    ensures Nearer(s, pool, chain, n, w, Observed(w, Act(s, w, input, NOT_LISTED)))
  {
  }

  lemma WayToClean(s: Setup, pool: string, chain: string, n: nat, w: World, input: Input)
    requires Clearable(pool, chain) && UnderWay(s, pool, chain, w) && n <= |w.log| && 5 < StepsLeft(w) <= 7
    requires input.ok
    ensures Nearer(s, pool, chain, n, w, Observed(w, Act(s, w, input, NOT_LISTED)))
  {
  }

  lemma WayToReadBack(s: Setup, pool: string, chain: string, n: nat, w: World, input: Input)
    requires Clearable(pool, chain) && UnderWay(s, pool, chain, w) && n <= |w.log| && 2 < StepsLeft(w) <= 5
    ensures Nearer(s, pool, chain, n, w, Observed(w, Act(s, w, input, NOT_LISTED)))
  {
  }

  lemma WayToRestart(s: Setup, pool: string, chain: string, n: nat, w: World, input: Input)
    requires Clearable(pool, chain) && UnderWay(s, pool, chain, w) && n <= |w.log| && 0 < StepsLeft(w) <= 2
    ensures Nearer(s, pool, chain, n, w, Observed(w, Act(s, w, input, NOT_LISTED)))
  {
    var w' := Observed(w, Act(s, w, input, NOT_LISTED));
    assert w'.log[|w.log|] == w'.log[n..][|w.log| - n];
  }

  lemma StaysFinished(s: Setup, pool: string, chain: string, n: nat, w: World, input: Input)
    requires Finished(s, n, w)
    ensures Nearer(s, pool, chain, n, w, Observed(w, Act(s, w, input, NOT_LISTED)))
  {
    var w' := Observed(w, Act(s, w, input, NOT_LISTED));
    assert w'.log[n..] == w.log[n..] + [w'.log[|w.log|]];
  }

  lemma WayOn(s: Setup, pool: string, chain: string, n: nat, w: World, input: Input)
    requires Clearable(pool, chain) && OnWay(s, pool, chain, n, w) && input.ok && !input.cancelled
    ensures Nearer(s, pool, chain, n, w, Observed(w, Act(s, w, input, NOT_LISTED)))
  {
    if Finished(s, n, w) {
      StaysFinished(s, pool, chain, n, w, input);
    } else if StepsLeft(w) == 18 {
      WayToStart(s, pool, chain, n, w, input);
    } else if StepsLeft(w) > 12 {
      WayToWait(s, pool, chain, n, w, input);
    } else if StepsLeft(w) > 7 {
      WayToMark(s, pool, chain, n, w, input);
    } else if StepsLeft(w) > 5 {
      WayToClean(s, pool, chain, n, w, input);
    } else if StepsLeft(w) > 2 {
      WayToReadBack(s, pool, chain, n, w, input);
    } else {
      WayToRestart(s, pool, chain, n, w, input);
    }
  }

  /** What a harmless event does: time passes, or the pass is held back by its wait, or it gets nearer. */
  predicate WayMoved(s: Setup, pool: string, chain: string, n: nat, w: World, e: Event, w': World) {
    && OnWay(s, pool, chain, n, w')
    && if e.Advance? then w'.phase == w.phase && w'.now == w.now + e.d && StepsLeft(w') == StepsLeft(w)
       else if Held(s, w) then w' == w
       else StepsLeft(w') == Less(StepsLeft(w)) && w'.now == w.now
  }

  /** The wait is not over. */
  predicate Held(s: Setup, w: World) {
    w.phase.At? && w.phase.pc.Wait? && w.now < w.phase.pc.since + s.confirmDelay
  }

  /** A harmless event, with the chain's answer put in. */
  function Quietly(s: Setup, w: World, e: Event): World
    requires e.Advance? || e.Proceed?
  {
    if e.Advance? then w.(now := w.now + e.d)
    else if Held(s, w) then w
    else Observed(w, Act(s, w, e.input, NOT_LISTED))
  }

  lemma HeldStep(s: Setup, w: World, input: Input)
    requires Blocked(s, w, input)
    ensures Step(s, w, Proceed(input)) == w
  {
  }

  lemma StepIsQuiet(s: Setup, pool: string, chain: string, n: nat, w: World, e: Event)
    requires OnWay(s, pool, chain, n, w) && Harmless(s, pool, chain, NOT_LISTED, e)
    ensures Step(s, w, e) == Quietly(s, w, e)
  {
    if e.Proceed? {
      if Held(s, w) {
        HeldStep(s, w, e.input);
      } else {
        StepFollows(s, w, e.input, NOT_LISTED, pool, chain);
      }
    }
  }

  lemma QuietMoves(s: Setup, pool: string, chain: string, n: nat, w: World, e: Event)
    requires Clearable(pool, chain) && OnWay(s, pool, chain, n, w)
    requires e.Advance? || (e.Proceed? && e.input.ok && !e.input.cancelled)
    ensures WayMoved(s, pool, chain, n, w, e, Quietly(s, w, e))
  {
    if e.Proceed? && !Held(s, w) {
      WayOn(s, pool, chain, n, w, e.input);
    }
  }

  lemma WayStep(s: Setup, pool: string, chain: string, n: nat, w: World, e: Event, w': World)
    requires Clearable(pool, chain) && OnWay(s, pool, chain, n, w) && Harmless(s, pool, chain, NOT_LISTED, e)
    requires w' == Step(s, w, e)
    ensures WayMoved(s, pool, chain, n, w, e, w')
  {
    StepIsQuiet(s, pool, chain, n, w, e);
    QuietMoves(s, pool, chain, n, w, e);
  }

  /** Facts about a run that was let alone, from a world on its way. */
  predicate WayRun(s: Setup, pool: string, chain: string, n: nat, w: World, es: seq<Event>, v: World) {
    && OnWay(s, pool, chain, n, v) && v.now == w.now + Elapsed(es) && StepsLeft(v) <= StepsLeft(w)
    // before the wait every step counts
    && (StepsLeft(v) <= 12 || StepsLeft(v) + Proceeds(es) <= StepsLeft(w))
    // a pass that was waiting still waits for the same time, or has gone on
    && (StepsLeft(w) <= 12 ==> v.phase == w.phase || StepsLeft(v) < StepsLeft(w) || StepsLeft(w) == 0)
    // after the wait every step counts
    && (StepsLeft(w) <= 12 && !Held(s, w) ==>
          !Held(s, v) && (StepsLeft(v) == 0 || StepsLeft(v) + Proceeds(es) <= StepsLeft(w)))
  }

  lemma {:induction false} WayRuns(s: Setup, pool: string, chain: string, n: nat, w: World, es: seq<Event>)
    requires Clearable(pool, chain) && OnWay(s, pool, chain, n, w) && LetAlone(s, pool, chain, NOT_LISTED, es)
    ensures WayRun(s, pool, chain, n, w, es, Run(s, w, es))
  {
    if es != [] {
      var front, e := es[..|es| - 1], es[|es| - 1];
      WayRuns(s, pool, chain, n, w, front);
      var v := Run(s, w, front);
      WayStep(s, pool, chain, n, v, e, Step(s, v, e));
      WayExtends(s, pool, chain, n, w, front, v, e, Step(s, v, e));
      assert front + [e] == es;
    }
  }

  lemma WayExtends(
      s: Setup, pool: string, chain: string, n: nat, w: World, es: seq<Event>, v: World, e: Event, v': World)
    requires WayRun(s, pool, chain, n, w, es, v) && WayMoved(s, pool, chain, n, v, e, v')
    requires e.Advance? || e.Proceed?
    ensures WayRun(s, pool, chain, n, w, es + [e], v')
  {
    assert (es + [e])[..|es|] == es;
  }

  /**
   * The other side of all this caution: a device whose marker names its pair and that the chain no longer lists is in
   * fact cleared and restarted, whatever its pass was doing before. However time passes, six steps, the confirm delay
   * and twelve more steps are enough, and then it stays cleared.
   */
  lemma LeaverIsCleared(
      s: Setup, pool: string, chain: string, w: World, fs: seq<Event>, gs: seq<Event>, hs: seq<Event>)
    requires Clearable(pool, chain) && UnderWay(s, pool, chain, w)
    requires LetAlone(s, pool, chain, NOT_LISTED, fs) && LetAlone(s, pool, chain, NOT_LISTED, gs)
    requires LetAlone(s, pool, chain, NOT_LISTED, hs)
    requires Proceeds(fs) >= 6 && Elapsed(gs) >= s.confirmDelay && Proceeds(hs) >= 12
    ensures Finished(s, |w.log|, Run(s, w, fs + gs + hs))
  {
    var n := |w.log|;
    WayRuns(s, pool, chain, n, w, fs);
    var v := Run(s, w, fs);
    WayRuns(s, pool, chain, n, v, gs);
    var u := Run(s, v, gs);
    WayRuns(s, pool, chain, n, u, hs);
    RunOn(s, w, fs, gs);
    RunOn(s, w, fs + gs, hs);
    WayEnds(s, pool, chain, n, w, fs, v, gs, u, hs, Run(s, u, hs));
  }

  lemma WayEnds(
      s: Setup, pool: string, chain: string, n: nat, w: World, fs: seq<Event>, v: World, gs: seq<Event>, u: World,
      hs: seq<Event>, end: World)
    requires Clearable(pool, chain) && StepsLeft(w) <= 18
    requires WayRun(s, pool, chain, n, w, fs, v) && WayRun(s, pool, chain, n, v, gs, u)
    requires WayRun(s, pool, chain, n, u, hs, end)
    requires Proceeds(fs) >= 6 && Elapsed(gs) >= s.confirmDelay && Proceeds(hs) >= 12
    ensures Finished(s, n, end)
  {
    assert StepsLeft(v) <= 12;
    assert !Held(s, u);
    assert StepsLeft(end) == 0;
  }

  // ---------------------------------------------------------------------------------------------------------------
  // A member is recorded

  /** A pass that will record (pool, chain) if it is let alone by everything but the answer "member". */
  predicate Recording(s: Setup, pool: string, chain: string, w: World) {
    && !w.disabled && !s.poolHost && w.pool == pool && w.chain == chain && RateOpen(w)
    && match w.phase
       case Idle => true
       case ReadChain(p) => p == pool
       case At(pc, p, c) => p == pool && c == chain && (pc.RateCheck? || pc.FirstCheck? || IsRecording(pc))
  }

  /** The steps that are left until the marker names the pair. */
  function RecordLeft(pool: string, chain: string, w: World): nat {
    if Named(w, pool, chain) then 0
    else
      match w.phase
      case Idle => 6
      case ReadChain(_) => 5
      case At(pc, _, _) =>
        if pc.RateCheck? then 4 else if pc.FirstCheck? then 3 else if pc.RecordRead? then 2 else 1
  }

  /** The latest log entries hold no marker write. */
  predicate Unwritten(w: World, w': World) {
    && w'.confirmed == w.confirmed && w.log <= w'.log
    && forall i :: |w.log| <= i < |w'.log| ==> !IsMarkerWrite(w'.log[i])
  }

  lemma RecordingActs(s: Setup, pool: string, chain: string, w: World, input: Input)
    requires Clearable(pool, chain) && Recording(s, pool, chain, w) && input.ok
    requires w.phase.At?
    ensures var w' := Observed(w, Act(s, w, input, MEMBER));
            && Recording(s, pool, chain, w')
            && RecordLeft(pool, chain, w') == Less(RecordLeft(pool, chain, w))
            && (Named(w, pool, chain) && !w.phase.pc.RecordWrite? ==> Unwritten(w, w'))
            && (w'.phase.At? && w'.phase.pc.RecordWrite? ==> !Named(w, pool, chain) && w'.confirmed == w.confirmed)
  {
    KeyIsTrimmed(chain, pool, PoolKey(chain, pool));
  }

  lemma RecordingStarts(s: Setup, pool: string, chain: string, w: World, input: Input)
    requires Clearable(pool, chain) && Recording(s, pool, chain, w) && !w.phase.At?
    ensures var w' := Observed(w, Act(s, w, input, MEMBER));
            && Recording(s, pool, chain, w') && Unwritten(w, w')
            && RecordLeft(pool, chain, w') == Less(RecordLeft(pool, chain, w))
            && !(w'.phase.At? && w'.phase.pc.RecordWrite?)
  {
  }

  /** The marker names the pair, and the pass under way knows it. */
  predicate Settled(pool: string, chain: string, w: World) {
    Named(w, pool, chain) && !(w.phase.At? && w.phase.pc.RecordWrite?)
  }

  predicate RecordMoved(s: Setup, pool: string, chain: string, w: World, e: Event, w': World) {
    && Recording(s, pool, chain, w')
    && RecordLeft(pool, chain, w')
       == (if e.Proceed? then Less(RecordLeft(pool, chain, w)) else RecordLeft(pool, chain, w))
    && (Settled(pool, chain, w) ==> Settled(pool, chain, w') && Unwritten(w, w'))
  }

  lemma RecordStep(s: Setup, pool: string, chain: string, w: World, e: Event, w': World)
    requires Clearable(pool, chain) && Recording(s, pool, chain, w) && Harmless(s, pool, chain, MEMBER, e)
    requires w' == Step(s, w, e)
    ensures RecordMoved(s, pool, chain, w, e, w')
  {
    if e.Proceed? {
      StepFollows(s, w, e.input, MEMBER, pool, chain);
      if w.phase.At? {
        RecordingActs(s, pool, chain, w, e.input);
      } else {
        RecordingStarts(s, pool, chain, w, e.input);
      }
    }
  }

  predicate RecordRun(s: Setup, pool: string, chain: string, w: World, es: seq<Event>, v: World) {
    && Recording(s, pool, chain, v)
    && (Named(v, pool, chain) || RecordLeft(pool, chain, v) + Proceeds(es) <= RecordLeft(pool, chain, w))
    && (Settled(pool, chain, w) ==> Settled(pool, chain, v) && Unwritten(w, v))
  }

  lemma {:induction false} RecordRuns(s: Setup, pool: string, chain: string, w: World, es: seq<Event>)
    requires Clearable(pool, chain) && Recording(s, pool, chain, w) && LetAlone(s, pool, chain, MEMBER, es)
    ensures RecordRun(s, pool, chain, w, es, Run(s, w, es))
  {
    if es != [] {
      var front, e := es[..|es| - 1], es[|es| - 1];
      RecordRuns(s, pool, chain, w, front);
      var v := Run(s, w, front);
      RecordStep(s, pool, chain, v, e, Step(s, v, e));
      RecordExtends(s, pool, chain, w, front, v, e, Step(s, v, e));
      assert front + [e] == es;
    }
  }

  lemma RecordExtends(
      s: Setup, pool: string, chain: string, w: World, es: seq<Event>, v: World, e: Event, v': World)
    requires RecordRun(s, pool, chain, w, es, v) && RecordMoved(s, pool, chain, v, e, v')
    requires e.Advance? || e.Proceed?
    ensures RecordRun(s, pool, chain, w, es + [e], v')
  {
    assert (es + [e])[..|es|] == es;
  }

  /**
   * A member is recorded: whatever the marker held before, six steps of a pass that is answered "member" leave one
   * that reads back as chain + ":" + pool, with the config as it was. A marker that already does is not written again.
   */
  lemma MemberIsRecorded(s: Setup, w: World, es: seq<Event>)
    requires Eligible(s, w) && Clearable(w.pool, w.chain)
    requires LetAlone(s, w.pool, w.chain, MEMBER, es) && Proceeds(es) >= 6
    ensures IsRecorded(w, Run(s, w, es))
  {
    RecordRuns(s, w.pool, w.chain, w, es);
    RecordEnds(s, w, es, Run(s, w, es));
  }

  /** The marker reads back as the pair of `w`, whose config is as it was and whose marker is kept if it already did. */
  predicate IsRecorded(w: World, v: World) {
    && v.confirmed.Some? && TrimSpace(v.confirmed.value) == w.chain + ":" + w.pool
    && v.pool == w.pool && v.chain == w.chain
    && (w.confirmed.Some? && TrimSpace(w.confirmed.value) == w.chain + ":" + w.pool ==> Unwritten(w, v))
  }

  lemma RecordEnds(s: Setup, w: World, es: seq<Event>, v: World)
    requires w.phase == Idle && RecordRun(s, w.pool, w.chain, w, es, v) && Proceeds(es) >= 6
    ensures IsRecorded(w, v)
  {
  }

  /**
   * From end to end, with no marker assumed: a device that one pass is told is a member, and that later passes are
   * told is not listed, is cleared and restarted.
   */
  lemma MemberThatLeavesIsCleared(
      s: Setup, w: World, es: seq<Event>, fs: seq<Event>, gs: seq<Event>, hs: seq<Event>)
    requires Eligible(s, w) && Clearable(w.pool, w.chain)
    requires LetAlone(s, w.pool, w.chain, MEMBER, es) && Proceeds(es) >= 6
    requires LetAlone(s, w.pool, w.chain, NOT_LISTED, fs) && LetAlone(s, w.pool, w.chain, NOT_LISTED, gs)
    requires LetAlone(s, w.pool, w.chain, NOT_LISTED, hs)
    requires Proceeds(fs) >= 6 && Elapsed(gs) >= s.confirmDelay && Proceeds(hs) >= 12
    ensures Finished(s, |Run(s, w, es).log|, Run(s, w, es + (fs + gs + hs)))
  {
    RecordRuns(s, w.pool, w.chain, w, es);
    var v := Run(s, w, es);
    RecordedIsUnderWay(s, w.pool, w.chain, v);
    LeaverIsCleared(s, w.pool, w.chain, v, fs, gs, hs);
    RunOn(s, w, es, fs + gs + hs);
  }

  lemma RecordedIsUnderWay(s: Setup, pool: string, chain: string, w: World)
    requires Recording(s, pool, chain, w) && Named(w, pool, chain)
    ensures UnderWay(s, pool, chain, w)
  {
  }

  // ---------------------------------------------------------------------------------------------------------------
  // When nothing is done

  /** What happens outside the passes. */
  function Outside(es: seq<Event>): seq<Event> {
    if es == [] then []
    else Outside(es[..|es| - 1]) + if es[|es| - 1].Proceed? then [] else [es[|es| - 1]]
  }

  /** A pool host, or a device whose kill switch is set. */
  predicate Off(s: Setup, w: World) { s.poolHost || w.disabled }

  /** The kill switch is not taken away. */
  predicate NeverEnabled(es: seq<Event>) {
    forall i :: 0 <= i < |es| && es[i].SetDisabled? ==> es[i].disabled
  }

  /** `v` is the world `u`, except that passes were skipped. */
  predicate OnlySkipped(w: World, u: World, v: World) {
    && v == u.(log := v.log) && w.log <= v.log && v.phase == Idle && v.clearedAt == w.clearedAt
    && forall i :: |w.log| <= i < |v.log| ==> v.log[i] == Skipped
  }

  lemma OffStep(s: Setup, w: World, u: World, v: World, e: Event)
    requires OnlySkipped(w, u, v) && Off(s, v) && (e.SetDisabled? ==> e.disabled)
    ensures Off(s, Step(s, v, e)) && OnlySkipped(w, if e.Proceed? then u else Step(s, u, e), Step(s, v, e))
  {
    if e.Proceed? {
      StepWith(s, v, e.input);
    }
  }

  /**
   * On a pool host, and while the kill switch is set, passes do nothing: they only log that they were skipped, and the
   * world is the one that everything else alone would have made.
   */
  lemma {:induction false} SwitchedOff(s: Setup, w: World, es: seq<Event>)
    requires w.phase == Idle && Off(s, w) && NeverEnabled(es)
    ensures Off(s, Run(s, w, es)) && OnlySkipped(w, Run(s, w, Outside(es)), Run(s, w, es))
  {
    if es != [] {
      var front, e := es[..|es| - 1], es[|es| - 1];
      SwitchedOff(s, w, front);
      OffStep(s, w, Run(s, w, Outside(front)), Run(s, w, front), e);
      if e.Proceed? {
        assert Outside(es) == Outside(front);
      } else {
        assert Outside(es) == Outside(front) + [e];
        RunMore(s, w, Outside(front), e);
      }
    }
  }

  /** Names that are worth a question: a set pool with a decimal id below 2^32, and some chain. */
  predicate Askable(pool: string, chain: string) {
    pool != "" && pool != "0" && chain != "" && ParseDecimal(pool, 0x1_0000_0000).Some?
  }

  predicate AskableSoFar(w: World) {
    && (w.phase.At? ==> w.phase.pool != "" && w.phase.pool != "0" && w.phase.chain != "")
    && (w.phase.At? && !w.phase.pc.RateCheck? ==> Askable(w.phase.pool, w.phase.chain))
    && (forall i :: 0 <= i < |w.log| && w.log[i].Answered? ==> Askable(w.log[i].pool, w.log[i].chain))
  }

  predicate AskableStep(w: World, next: (World, Obs)) {
    && (next.0.phase.At? ==>
          && next.0.phase.pool != "" && next.0.phase.pool != "0" && next.0.phase.chain != ""
          && (!next.0.phase.pc.RateCheck? ==> Askable(next.0.phase.pool, next.0.phase.chain)))
    && (next.1.Answered? ==> Askable(next.1.pool, next.1.chain))
  }

  lemma AskableClear(s: Setup, w: World, input: Input, answer: Status)
    requires AskableSoFar(w) && w.phase.At? && Stage(w.phase.pc) >= 5
    ensures AskableStep(w, Act(s, w, input, answer))
  {
  }

  lemma AskableActs(s: Setup, w: World, input: Input, answer: Status)
    requires AskableSoFar(w)
    ensures AskableStep(w, Act(s, w, input, answer))
  {
    if w.phase.At? && Stage(w.phase.pc) >= 5 {
      AskableClear(s, w, input, answer);
    }
  }

  lemma AskableObserved(w: World, next: (World, Obs))
    requires AskableSoFar(w) && AskableStep(w, next)
    ensures AskableSoFar(Observed(w, next))
  {
  }

  lemma AskableEvent(s: Setup, w: World, e: Event)
    requires AskableSoFar(w)
    ensures AskableSoFar(Step(s, w, e))
  {
    if e.Proceed? {
      if Blocked(s, w, e.input) {
        HeldStep(s, w, e.input);
      } else {
        StepWith(s, w, e.input);
        AskableActs(s, w, e.input, Ask(s, w.phase, e.input.rpc));
        AskableObserved(w, Act(s, w, e.input, Ask(s, w.phase, e.input.rpc)));
      }
    }
  }

  /** No pass ever asks the chain without a configured pool and chain, or about an id that is not a 32-bit number. */
  lemma {:induction false} AsksOnlyAboutPools(s: Setup, w: World, es: seq<Event>)
    requires Fresh(w)
    ensures AskableSoFar(Run(s, w, es))
  {
    if es != [] {
      AsksOnlyAboutPools(s, w, es[..|es| - 1]);
      AskableEvent(s, Run(s, w, es[..|es| - 1]), es[|es| - 1]);
    }
  }
}
