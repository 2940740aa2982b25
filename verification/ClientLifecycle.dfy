/**
 * The lifecycle of the mobile client (`mobile/client.go`): any number of threads running host-using operations
 * (`beginOp` ... `done`) and any number of threads calling `Shutdown`, interleaved in any order.
 *
 * A step is one access to shared state: taking or releasing the mutex, testing or setting `closed`, changing the
 * wait group, closing a resource.
 */
module ClientLifecycle {
  import opened Wrappers

  datatype Op =
    | OpLocked     // beginOp holds lifeMu
    | OpRefused    // saw closed, still holds lifeMu
    | OpAdmitted   // has added itself to inflight, still holds lifeMu
    | OpRunning    // may use the host and the datastore
    | OpReleasing  // done() has cancelled the operation's context
    | OpFinished
    | OpRejected   // beginOp returned ErrClientClosed

  datatype Down =
    | DownLocked      // Shutdown holds lifeMu
    | DownLost        // compare-and-swap found closed set, still holds lifeMu
    | DownWon         // set closed, still holds lifeMu
    | DownCancelled   // has cancelled opCtx, still holds lifeMu
    | DownDraining    // in inflight.Wait()
    | DownDrained
    | DownHostClosed  // after exchange, DHT and host
    | DownFlushed
    | DownReturned    // after the datastore
    | DownReturnedEarly

  datatype Thread = OpThread(id: nat) | DownThread(id: nat)

  datatype World = World(
    mutex: Option<Thread>,
    closed: bool,
    ctxCancelled: bool,
    inflight: int,
    ops: map<nat, Op>,        // threads that have entered beginOp
    downs: map<nat, Down>,    // threads that have entered Shutdown
    winner: Option<nat>,      // history: the Shutdown thread that set closed
    hostCloses: nat,
    storeCloses: nat,
    admitted: nat,
    released: nat,
    usedAfterClose: bool)

  /** A client just returned by NewClient. */
  predicate Initial(w: World) {
    w == World(None, false, false, 0, map[], map[], None, 0, 0, 0, 0, false)
  }

  datatype Event =
    | OpStep(id: nat)    // the operation's thread takes its next step, if it can
    | OpUse(id: nat)     // a running operation touches the host or the datastore
    | DownStep(id: nat)  // the Shutdown thread takes its next step, if it can

  function SetOp(w: World, t: nat, pc: Op): World { w.(ops := w.ops[t := pc]) }

  function SetDown(w: World, t: nat, pc: Down): World { w.(downs := w.downs[t := pc]) }

  function StepOp(w: World, t: nat): World {
    if t !in w.ops then
      if w.mutex.Some? then w else SetOp(w, t, OpLocked).(mutex := Some(OpThread(t)))
    else
      match w.ops[t]
      case OpLocked =>
        if w.closed then SetOp(w, t, OpRefused)
        else SetOp(w, t, OpAdmitted).(inflight := w.inflight + 1, admitted := w.admitted + 1)
      case OpRefused => SetOp(w, t, OpRejected).(mutex := None)
      case OpAdmitted => SetOp(w, t, OpRunning).(mutex := None)
      case OpRunning => SetOp(w, t, OpReleasing)
      case OpReleasing => SetOp(w, t, OpFinished).(inflight := w.inflight - 1, released := w.released + 1)
      case OpFinished => w
      case OpRejected => w
  }

  function StepDown(w: World, t: nat): World {
    if t !in w.downs then
      if w.mutex.Some? then w else SetDown(w, t, DownLocked).(mutex := Some(DownThread(t)))
    else
      match w.downs[t]
      case DownLocked =>
        if w.closed then SetDown(w, t, DownLost)
        else SetDown(w, t, DownWon).(closed := true, winner := Some(t))
      case DownLost => SetDown(w, t, DownReturnedEarly).(mutex := None)
      case DownWon => SetDown(w, t, DownCancelled).(ctxCancelled := true)
      case DownCancelled => SetDown(w, t, DownDraining).(mutex := None)
      case DownDraining => if w.inflight == 0 then SetDown(w, t, DownDrained) else w
      case DownDrained => SetDown(w, t, DownHostClosed).(hostCloses := w.hostCloses + 1)
      case DownHostClosed => SetDown(w, t, DownFlushed)
      case DownFlushed => SetDown(w, t, DownReturned).(storeCloses := w.storeCloses + 1)
      case DownReturned => w
      case DownReturnedEarly => w
  }

  function Step(w: World, e: Event): World {
    match e
    case OpStep(t) => StepOp(w, t)
    case DownStep(t) => StepDown(w, t)
    case OpUse(t) =>
      if t in w.ops && w.ops[t] == OpRunning && (w.hostCloses > 0 || w.storeCloses > 0)
      then w.(usedAfterClose := true) else w
  }

  /** Any schedule of any number of threads. */
  function Run(w: World, es: seq<Event>): World
    decreases |es|
  {
    if es == [] then w else Run(Step(w, es[0]), es[1..])
  }

  // ---------------------------------------------------------------------------------------------------------------
  // The invariant

  predicate OpHoldsLock(pc: Op) { pc == OpLocked || pc == OpRefused || pc == OpAdmitted }

  predicate OpCounts(pc: Op) { pc == OpAdmitted || pc == OpRunning || pc == OpReleasing }

  predicate DownHoldsLock(pc: Down) { pc == DownLocked || pc == DownLost || pc == DownWon || pc == DownCancelled }

  /** The Shutdown call that set `closed`. */
  predicate Winner(pc: Down) { pc != DownLocked && pc != DownLost && pc != DownReturnedEarly }

  predicate Drained(pc: Down) {
    pc == DownDrained || pc == DownHostClosed || pc == DownFlushed || pc == DownReturned
  }

  /** Admitted operations that are not done. */
  function Outstanding(w: World): set<nat> { set t | t in w.ops && OpCounts(w.ops[t]) }

  predicate MutexInv(w: World) {
    && (forall t :: t in w.ops ==> (OpHoldsLock(w.ops[t]) <==> w.mutex == Some(OpThread(t))))
    && (forall t :: t in w.downs ==> (DownHoldsLock(w.downs[t]) <==> w.mutex == Some(DownThread(t))))
    && (w.mutex.Some? ==> if w.mutex.value.OpThread? then w.mutex.value.id in w.ops else w.mutex.value.id in w.downs)
  }

  /** Exactly one Shutdown call set `closed`. */
  predicate WinnerInv(w: World) {
    && (w.closed <==> w.winner.Some?)
    && (w.winner.Some? ==> w.winner.value in w.downs && Winner(w.downs[w.winner.value]))
    && (forall t :: t in w.downs && Winner(w.downs[t]) ==> w.winner == Some(t))
  }

  /** How often the host and the datastore have been closed when the winner is at `pc`. */
  function HostCloses(pc: Down): nat { if pc in {DownHostClosed, DownFlushed, DownReturned} then 1 else 0 }

  function StoreCloses(pc: Down): nat { if pc == DownReturned then 1 else 0 }

  predicate CloseInv(w: World) {
    if w.winner.Some? && w.winner.value in w.downs then
      var pc := w.downs[w.winner.value];
      && (Drained(pc) ==> Outstanding(w) == {})
      && w.ctxCancelled == (pc != DownWon)
      && w.hostCloses == HostCloses(pc) && w.storeCloses == StoreCloses(pc)
    else !w.ctxCancelled && w.hostCloses == 0 && w.storeCloses == 0
  }

  predicate CountInv(w: World) {
    w.inflight == |Outstanding(w)| == w.admitted - w.released
  }

  predicate Inv(w: World) {
    MutexInv(w) && WinnerInv(w) && CloseInv(w) && CountInv(w) && !w.usedAfterClose
  }

  // ---------------------------------------------------------------------------------------------------------------
  // What one step can change

  /** Who may hold the mutex after a step of thread `self`: itself or nobody, unless it is left alone. */
  predicate MutexMoves(from: Option<Thread>, to: Option<Thread>, self: Thread, holds: bool) {
    && (from == to || (from in {None, Some(self)} && to in {None, Some(self)}))
    && (holds <==> to == Some(self))
  }

  /** A step of operation `t`: it is admitted only while not closed, and admission and release are counted. */
  predicate OpMoved(w: World, w': World, t: nat) {
    && t in w'.ops && w'.ops == w.ops[t := w'.ops[t]]
    && w' == w.(ops := w'.ops, mutex := w'.mutex, inflight := w'.inflight, admitted := w'.admitted,
                released := w'.released)
    && MutexMoves(w.mutex, w'.mutex, OpThread(t), OpHoldsLock(w'.ops[t]))
    && var was, now := t in w.ops && OpCounts(w.ops[t]), OpCounts(w'.ops[t]);
       && (now && !was ==> !w.closed)
       && w'.admitted == w.admitted + (if now && !was then 1 else 0)
       && w'.released == w.released + (if was && !now then 1 else 0)
       && w'.inflight - w.inflight == (w'.admitted - w.admitted) - (w'.released - w.released)
  }

  /** A step of Shutdown call `t`: it sets `closed` at most once, and drains before it closes anything. */
  predicate DownMoved(w: World, w': World, t: nat) {
    && t in w'.downs && w'.downs == w.downs[t := w'.downs[t]]
    && w' == w.(downs := w'.downs, mutex := w'.mutex, closed := w'.closed, winner := w'.winner,
                ctxCancelled := w'.ctxCancelled, hostCloses := w'.hostCloses, storeCloses := w'.storeCloses)
    && var pc := w'.downs[t];
       && MutexMoves(w.mutex, w'.mutex, DownThread(t), DownHoldsLock(pc))
       && (w'.closed <==> w'.winner.Some?)
       && (w'.winner == w.winner || (w.winner == None && w'.winner == Some(t)))
       && (Winner(pc) <==> w'.winner == Some(t))
       && if Winner(pc)
          then && (Drained(pc) ==> Outstanding(w) == {})
               && w'.ctxCancelled == (pc != DownWon)
               && w'.hostCloses == HostCloses(pc) && w'.storeCloses == StoreCloses(pc)
          else w' == w.(downs := w'.downs, mutex := w'.mutex)
  }

  lemma OpEnters(w: World, t: nat)
    requires Inv(w) && t !in w.ops
    ensures StepOp(w, t) == w || OpMoved(w, StepOp(w, t), t)
  {
  }

  lemma OpUnderLock(w: World, t: nat)
    requires Inv(w) && t in w.ops && OpHoldsLock(w.ops[t])
    ensures StepOp(w, t) == w || OpMoved(w, StepOp(w, t), t)
  {
  }

  lemma OpOutsideLock(w: World, t: nat)
    requires Inv(w) && t in w.ops && !OpHoldsLock(w.ops[t])
    ensures StepOp(w, t) == w || OpMoved(w, StepOp(w, t), t)
  {
  }

  lemma DownEnters(w: World, t: nat)
    requires Inv(w) && t !in w.downs
    ensures StepDown(w, t) == w || DownMoved(w, StepDown(w, t), t)
  {
  }

  lemma DownUnderLock(w: World, t: nat)
    requires Inv(w) && t in w.downs && DownHoldsLock(w.downs[t])
    ensures StepDown(w, t) == w || DownMoved(w, StepDown(w, t), t)
  {
  }

  lemma DownOutsideLock(w: World, t: nat)
    requires Inv(w) && t in w.downs && !DownHoldsLock(w.downs[t])
    ensures StepDown(w, t) == w || DownMoved(w, StepDown(w, t), t)
  {
  }

  lemma StepOpMoves(w: World, t: nat)
    requires Inv(w)
    ensures StepOp(w, t) == w || OpMoved(w, StepOp(w, t), t)
  {
    if t !in w.ops {
      OpEnters(w, t);
    } else if OpHoldsLock(w.ops[t]) {
      OpUnderLock(w, t);
    } else {
      OpOutsideLock(w, t);
    }
  }

  lemma StepDownMoves(w: World, t: nat)
    requires Inv(w)
    ensures StepDown(w, t) == w || DownMoved(w, StepDown(w, t), t)
  {
    if t !in w.downs {
      DownEnters(w, t);
    } else if DownHoldsLock(w.downs[t]) {
      DownUnderLock(w, t);
    } else {
      DownOutsideLock(w, t);
    }
  }

  lemma OpMovesOutstanding(w: World, w': World, t: nat)
    requires OpMoved(w, w', t)
    ensures Outstanding(w') == if OpCounts(w'.ops[t]) then Outstanding(w) + {t} else Outstanding(w) - {t}
    ensures t in Outstanding(w) <==> t in w.ops && OpCounts(w.ops[t])
  {
  }

  lemma OpMovedKeepsInv(w: World, w': World, t: nat)
    requires Inv(w) && OpMoved(w, w', t)
    ensures Inv(w')
  {
    OpMovesOutstanding(w, w', t);
  }

  lemma DownMovedKeepsInv(w: World, w': World, t: nat)
    requires Inv(w) && DownMoved(w, w', t)
    ensures Inv(w')
  {
    assert Outstanding(w') == Outstanding(w);
  }

  /** A running operation never meets a closed host or datastore. */
  lemma UseIsSafe(w: World, t: nat)
    requires WinnerInv(w) && CloseInv(w) && t in w.ops && w.ops[t] == OpRunning
    ensures w.hostCloses == 0 && w.storeCloses == 0
  {
    assert t in Outstanding(w);
  }

  /** A use of a closed host or datastore would not go unnoticed. */
  lemma UseIsNoted(w: World, t: nat)
    requires t in w.ops && w.ops[t] == OpRunning
    ensures Step(w, OpUse(t)).usedAfterClose <==> w.usedAfterClose || w.hostCloses > 0 || w.storeCloses > 0
  {
  }

  lemma StepKeepsInv(w: World, e: Event)
    requires Inv(w)
    ensures Inv(Step(w, e))
  {
    match e
    case OpStep(t) =>
      StepOpMoves(w, t);
      if StepOp(w, t) != w { OpMovedKeepsInv(w, StepOp(w, t), t); }
    case DownStep(t) =>
      StepDownMoves(w, t);
      if StepDown(w, t) != w { DownMovedKeepsInv(w, StepDown(w, t), t); }
    case OpUse(t) =>
      if t in w.ops && w.ops[t] == OpRunning {
        UseIsSafe(w, t);
      }
  }

  // ---------------------------------------------------------------------------------------------------------------
  // Theorems about every schedule

  lemma {:induction false} RunKeepsInv(w: World, es: seq<Event>)
    requires Inv(w)
    ensures Inv(Run(w, es))
    decreases |es|
  {
    if es != [] {
      StepKeepsInv(w, es[0]);
      RunKeepsInv(Step(w, es[0]), es[1..]);
    }
  }

  lemma InitialInv(w: World)
    requires Initial(w)
    ensures Inv(w)
  {
    assert Outstanding(w) == {};
  }

  predicate Safe(w: World) {
    && w.storeCloses <= w.hostCloses <= 1
    && (w.hostCloses == 1 ==> Outstanding(w) == {} && w.closed && w.ctxCancelled)
    && (forall t :: t in w.downs && w.downs[t] == DownReturned ==> w.hostCloses == 1 && w.storeCloses == 1)
    && w.inflight == |Outstanding(w)| == w.admitted - w.released
    && (forall t :: t in w.ops && w.ops[t] == OpRunning ==> w.hostCloses == 0 && w.storeCloses == 0)
    && !w.usedAfterClose
  }

  lemma InvIsSafe(w: World)
    requires Inv(w)
    ensures Safe(w)
  {
    forall t | t in w.ops && w.ops[t] == OpRunning ensures w.hostCloses == 0 && w.storeCloses == 0 {
      UseIsSafe(w, t);
    }
  }

  /**
   * With any number of operations and Shutdown calls: the host and the datastore are closed at most once, in that
   * order, and only when no admitted operation is outstanding; they are closed exactly once when the Shutdown call
   * that closes them returns; no operation ever uses them afterwards; the wait group always counts exactly the
   * operations admitted and not done.
   */
  lemma ShutdownIsSafe(w: World, es: seq<Event>)
    requires Initial(w)
    ensures Safe(Run(w, es))
  {
    InitialInv(w);
    RunKeepsInv(w, es);
    InvIsSafe(Run(w, es));
  }

  lemma ClosedStep(w: World, e: Event)
    requires Inv(w) && w.closed
    ensures Step(w, e).admitted == w.admitted && Step(w, e).closed
  {
    if e.OpStep? {
      StepOpMoves(w, e.id);
    } else if e.DownStep? {
      StepDownMoves(w, e.id);
    }
  }

  lemma {:induction false} ClosedRun(w: World, es: seq<Event>)
    requires Inv(w) && w.closed
    ensures Run(w, es).admitted == w.admitted && Run(w, es).closed
    decreases |es|
  {
    if es != [] {
      StepKeepsInv(w, es[0]);
      ClosedStep(w, es[0]);
      ClosedRun(Step(w, es[0]), es[1..]);
    }
  }

  /** Once `closed` is set nothing is admitted any more, and it stays set. */
  lemma ClosedAdmitsNothing(w: World, es: seq<Event>, fs: seq<Event>)
    requires Initial(w) && Run(w, es).closed
    ensures Run(w, es + fs).closed && Run(w, es + fs).admitted == Run(w, es).admitted
  {
    InitialInv(w);
    RunKeepsInv(w, es);
    ClosedRun(Run(w, es), fs);
    RunOn(w, es, fs);
  }

  /** Host and datastore are both closed, once each. */
  predicate AllClosed(w: World) { w.hostCloses == 1 && w.storeCloses == 1 }

  predicate WinnerReturned(w: World) {
    w.winner.Some? && w.winner.value in w.downs && w.downs[w.winner.value] == DownReturned
  }

  predicate ClosedExactly(w: World) { AllClosed(w) <==> WinnerReturned(w) }

  lemma InvClosedExactly(w: World)
    requires Inv(w)
    ensures ClosedExactly(w)
  {
  }

  /** In every reachable state everything is closed exactly when the Shutdown call that set `closed` has returned. */
  lemma ClosedByWinner(w: World, es: seq<Event>)
    requires Initial(w)
    ensures ClosedExactly(Run(w, es))
  {
    InitialInv(w);
    RunKeepsInv(w, es);
    InvClosedExactly(Run(w, es));
  }

  function LosingCall(t: nat): seq<Event> { [DownStep(t), DownStep(t), DownStep(t)] }

  lemma LosingSteps(w: World, t: nat)
    requires w.closed && w.mutex == None && t !in w.downs
    ensures Run(w, LosingCall(t)) == SetDown(w, t, DownReturnedEarly)
  {
    var w1 := SetDown(w, t, DownLocked).(mutex := Some(DownThread(t)));
    var w2 := SetDown(w1, t, DownLost);
    assert StepDown(w, t) == w1 && StepDown(w1, t) == w2;
    assert StepDown(w2, t) == SetDown(w, t, DownReturnedEarly) by {
      assert w.downs[t := DownLocked][t := DownLost][t := DownReturnedEarly] == w.downs[t := DownReturnedEarly];
    }
    assert LosingCall(t)[1..] == [DownStep(t), DownStep(t)];
    assert LosingCall(t)[1..][1..] == [DownStep(t)];
    RunOne(w2, DownStep(t));
  }

  /**
   * In every reachable state with `closed` set and the mutex free, a further Shutdown call can return in three steps
   * that change nothing else. So its caller finds everything closed exactly if the call that set `closed` had already
   * returned.
   */
  lemma LoserReturnsEarly(w: World, es: seq<Event>, t: nat)
    requires Initial(w)
    requires var v := Run(w, es); v.closed && v.mutex == None && t !in v.downs
    ensures var v, v' := Run(w, es), Run(w, es + LosingCall(t));
            && v' == SetDown(v, t, DownReturnedEarly)
            && (AllClosed(v') <==> WinnerReturned(v))
  {
    RunOn(w, es, LosingCall(t));
    LosingSteps(Run(w, es), t);
    ClosedByWinner(w, es);
  }

  /** For example, while the first Shutdown call is still draining. */
  lemma LoserOvertakes(w: World)
    requires Initial(w)
    ensures var w4 := StepDown(StepDown(StepDown(StepDown(w, 1), 1), 1), 1);
            var w7 := StepDown(StepDown(StepDown(w4, 2), 2), 2);
            w7.downs == map[1 := DownDraining, 2 := DownReturnedEarly] && w7.hostCloses == 0
  {
    var w4 := StepDown(StepDown(StepDown(StepDown(w, 1), 1), 1), 1);
    assert w4 == w.(downs := map[1 := DownDraining], closed := true, winner := Some(1), ctxCancelled := true);
  }

  // ---------------------------------------------------------------------------------------------------------------
  // Shutdown cannot get stuck

  lemma {:induction false} RunOn(w: World, es: seq<Event>, fs: seq<Event>)
    ensures Run(w, es + fs) == Run(Run(w, es), fs)
    decreases |es|
  {
    if es == [] {
      assert es + fs == fs;
    } else {
      assert (es + fs)[1..] == es[1..] + fs;
      RunOn(Step(w, es[0]), es[1..], fs);
    }
  }

  lemma RunOne(w: World, e: Event)
    ensures Run(w, [e]) == Step(w, e)
  {
  }

  /** An outstanding operation can finish, without anything else moving except the mutex. */
  lemma FinishOne(w: World, t: nat) returns (es: seq<Event>)
    requires Inv(w) && t in Outstanding(w)
    ensures var w' := Run(w, es);
            && Inv(w') && w'.downs == w.downs && w'.winner == w.winner
            && Outstanding(w') == Outstanding(w) - {t}
  {
    var w1, w2 := w, w;
    es := [];
    RunKeepsInv(w, []);
    while w1.ops[t] != OpReleasing
      invariant Inv(w1) && w1 == Run(w, es) && w1.downs == w.downs && w1.winner == w.winner
      invariant t in Outstanding(w1) && Outstanding(w1) == Outstanding(w)
      decreases if w1.ops[t] == OpAdmitted then 2 else if w1.ops[t] == OpRunning then 1 else 0
    {
      w2 := AdvanceOp(w1, t);
      RunOn(w, es, [OpStep(t)]);
      RunOne(w1, OpStep(t));
      es, w1 := es + [OpStep(t)], w2;
    }
    RunOn(w, es, [OpStep(t)]);
    RunOne(w1, OpStep(t));
    StepOpMoves(w1, t);
    OpMovesOutstanding(w1, StepOp(w1, t), t);
    StepKeepsInv(w1, OpStep(t));
    es := es + [OpStep(t)];
  }

  lemma AdvanceOp(w: World, t: nat) returns (w': World)
    requires Inv(w) && t in Outstanding(w) && w.ops[t] != OpReleasing
    ensures w' == Step(w, OpStep(t)) && Inv(w') && w'.downs == w.downs && w'.winner == w.winner
    ensures Outstanding(w') == Outstanding(w)
    ensures t in w'.ops && (w.ops[t] == OpAdmitted ==> w'.ops[t] == OpRunning)
    ensures w.ops[t] == OpRunning ==> w'.ops[t] == OpReleasing
  {
    w' := StepOp(w, t);
    StepOpMoves(w, t);
    OpMovesOutstanding(w, w', t);
    StepKeepsInv(w, OpStep(t));
  }

  lemma {:induction false} DrainEnds(w: World, t: nat) returns (es: seq<Event>)
    requires Inv(w) && t in w.downs && w.downs[t] == DownDraining
    ensures t in Run(w, es).downs && Run(w, es).downs[t] == DownReturned
    decreases Outstanding(w)
  {
    if Outstanding(w) == {} {
      var d := DownStep(t);
      RunOne(w, d);
      var w1 := Step(w, d);
      assert w1.downs[t] == DownDrained;
      RunOne(w1, d);
      RunOn(w, [d], [d]);
      var w2 := Step(w1, d);
      assert w2.downs[t] == DownHostClosed;
      RunOne(w2, d);
      RunOn(w, [d] + [d], [d]);
      var w3 := Step(w2, d);
      RunOne(w3, d);
      RunOn(w, [d] + [d] + [d], [d]);
      es := [d] + [d] + [d] + [d];
    } else {
      var u :| u in Outstanding(w);
      var first := FinishOne(w, u);
      var rest := DrainEnds(Run(w, first), t);
      es := first + rest;
      RunOn(w, first, rest);
    }
  }

  /**
   * Shutdown never gets stuck: from every reachable state in which it drains, the outstanding operations can all
   * finish and let it run to its end.
   */
  lemma DrainingCanFinish(w: World, es: seq<Event>, t: nat) returns (fs: seq<Event>)
    requires Initial(w) && t in Run(w, es).downs && Run(w, es).downs[t] == DownDraining
    ensures t in Run(w, es + fs).downs && Run(w, es + fs).downs[t] == DownReturned
  {
    InitialInv(w);
    RunKeepsInv(w, es);
    fs := DrainEnds(Run(w, es), t);
    RunOn(w, es, fs);
  }

  // ---------------------------------------------------------------------------------------------------------------
  // An open client serves

  function BeginOp(t: nat): seq<Event> { [OpStep(t), OpStep(t), OpStep(t)] }

  function Done(t: nat): seq<Event> { [OpStep(t), OpStep(t)] }

  /** What `beginOp` by a new thread makes of a world whose mutex is free. */
  function Begun(w: World, t: nat): World {
    if w.closed then SetOp(w, t, OpRejected)
    else SetOp(w, t, OpRunning).(inflight := w.inflight + 1, admitted := w.admitted + 1)
  }

  lemma RunThree(w: World, e: Event, w1: World, w2: World, w3: World)
    requires Step(w, e) == w1 && Step(w1, e) == w2 && Step(w2, e) == w3
    ensures Run(w, [e, e]) == w2 && Run(w, [e, e, e]) == w3
  {
    RunOne(w1, e);
    RunOne(w2, e);
    assert [e, e][1..] == [e];
    assert [e, e, e][1..] == [e, e];
  }

  lemma BeginOpSteps(w: World, t: nat)
    requires w.mutex == None && t !in w.ops
    ensures Run(w, BeginOp(t)) == Begun(w, t)
  {
    var w1 := SetOp(w, t, OpLocked).(mutex := Some(OpThread(t)));
    var w2 := if w.closed then SetOp(w1, t, OpRefused)
              else SetOp(w1, t, OpAdmitted).(inflight := w.inflight + 1, admitted := w.admitted + 1);
    assert w.ops[t := OpLocked][t := OpRefused][t := OpRejected] == w.ops[t := OpRejected];
    assert w.ops[t := OpLocked][t := OpAdmitted][t := OpRunning] == w.ops[t := OpRunning];
    RunThree(w, OpStep(t), w1, w2, Begun(w, t));
  }

  /**
   * In every reachable state with the mutex free, a new operation is admitted, counted and running after three steps
   * if and only if `closed` is not set; otherwise it is turned away and nothing else changes.
   */
  lemma OpenAdmits(w: World, es: seq<Event>, t: nat)
    requires Initial(w)
    requires var v := Run(w, es); v.mutex == None && t !in v.ops
    ensures Run(w, es + BeginOp(t)) == Begun(Run(w, es), t)
    ensures Run(w, es + BeginOp(t)).ops[t] == OpRunning <==> !Run(w, es).closed
  {
    RunOn(w, es, BeginOp(t));
    BeginOpSteps(Run(w, es), t);
  }

  /** And two steps after it is done it is no longer counted, closed or not. */
  lemma DoneReleases(w: World, es: seq<Event>, t: nat)
    requires Initial(w) && t in Run(w, es).ops && Run(w, es).ops[t] == OpRunning
    ensures var v := Run(w, es);
            Run(w, es + Done(t)) == SetOp(v, t, OpFinished).(inflight := v.inflight - 1, released := v.released + 1)
  {
    var v := Run(w, es);
    RunOn(w, es, Done(t));
    var v1 := SetOp(v, t, OpReleasing);
    assert v.ops[t := OpReleasing][t := OpFinished] == v.ops[t := OpFinished];
    assert Done(t)[1..] == [OpStep(t)];
    RunOne(v1, OpStep(t));
  }

  function BeginShutdown(t: nat): seq<Event> { [DownStep(t), DownStep(t), DownStep(t)] + [DownStep(t)] }

  lemma WinningSteps(w: World, t: nat)
    requires !w.closed && w.mutex == None && t !in w.downs
    ensures Run(w, BeginShutdown(t))
         == SetDown(w, t, DownDraining).(closed := true, winner := Some(t), ctxCancelled := true)
  {
    var e := DownStep(t);
    var w1 := SetDown(w, t, DownLocked).(mutex := Some(DownThread(t)));
    var w2 := SetDown(w1, t, DownWon).(closed := true, winner := Some(t));
    var w3 := SetDown(w2, t, DownCancelled).(ctxCancelled := true);
    RunThree(w, e, w1, w2, w3);
    RunOn(w, [e, e, e], [e]);
    RunOne(w3, e);
    assert w.downs[t := DownLocked][t := DownWon][t := DownCancelled][t := DownDraining]
        == w.downs[t := DownDraining];
  }

  /** The call of thread t has returned, after closing everything unless the client was closed before. */
  predicate Returned(w: World, t: nat, wasClosed: bool) {
    && t in w.downs && w.downs[t] == (if wasClosed then DownReturnedEarly else DownReturned)
    && (!wasClosed ==> AllClosed(w))
  }

  lemma LoserReturns(w: World, t: nat) returns (es: seq<Event>)
    requires w.closed && w.mutex == None && t !in w.downs
    ensures Returned(Run(w, es), t, true)
  {
    es := LosingCall(t);
    LosingSteps(w, t);
  }

  lemma WinnerReturns(w: World, t: nat) returns (es: seq<Event>)
    requires Inv(w) && !w.closed && w.mutex == None && t !in w.downs
    ensures Returned(Run(w, es), t, false)
  {
    WinningSteps(w, t);
    RunKeepsInv(w, BeginShutdown(t));
    var v := Run(w, BeginShutdown(t));
    var rest := DrainEnds(v, t);
    RunKeepsInv(v, rest);
    InvIsSafe(Run(v, rest));
    RunOn(w, BeginShutdown(t), rest);
    es := BeginShutdown(t) + rest;
  }

  /**
   * In every reachable state with the mutex free, a new Shutdown call can be run to its return: on an open client it
   * closes host and datastore, on a closed one it returns early.
   */
  lemma ShutdownReturns(w: World, es: seq<Event>, t: nat) returns (fs: seq<Event>)
    requires Initial(w)
    requires var v := Run(w, es); v.mutex == None && t !in v.downs
    ensures Returned(Run(w, es + fs), t, Run(w, es).closed)
  {
    InitialInv(w);
    RunKeepsInv(w, es);
    fs := CallReturns(Run(w, es), t);
    RunOn(w, es, fs);
  }

  lemma CallReturns(w: World, t: nat) returns (es: seq<Event>)
    requires Inv(w) && w.mutex == None && t !in w.downs
    ensures Returned(Run(w, es), t, w.closed)
  {
    if w.closed {
      es := LoserReturns(w, t);
    } else {
      es := WinnerReturns(w, t);
    }
  }
}
