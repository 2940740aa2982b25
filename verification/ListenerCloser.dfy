/**
 * `multiCloser` of `wap/pkg/server/server.go` with the background watchers of `wap/pkg/server/lanbind.go`: any number
 * of watchers being started and running, listeners being added, and calls of `Close`, interleaved in any order.
 *
 * A step is one access to shared state. The one listener appended without the mutex (by `Serve`, before it returns
 * the closer) is a single atomic step that cannot happen once some `Close` has begun.
 */
module ListenerCloser {
  import opened Wrappers

  type Thread = nat
  type Listener = nat
  type Channel = nat

  datatype Pc =
    // startHotspotWatch / startLANSetupWatch: take the stop channel, then trackWatcher
    | StartLocked
    | StartHasStop(stop: Channel)            // holds mu
    | StartReady(stop: Channel)
    | TrackLocked(stop: Channel)
    | Tracked(stop: Channel)                 // has added itself to watchers, holds mu
    | Refused                                // saw closed, holds mu
    // the watcher goroutine
    | Select(stop: Channel)
    | Exiting                                // about to run watchers.Done()
    // add(l), called by a watcher (with its stop channel) or by Serve
    | Adding(caller: Option<Channel>, l: Listener)
    | AddLocked(caller: Option<Channel>, l: Listener)
    | AddDone(caller: Option<Channel>)       // registered, holds mu
    | AddRefused(caller: Option<Channel>)    // closed the listener instead, holds mu
    // Close
    | CloseLocked
    | CloseMarked                            // closed is set
    | CloseStopped(next: nat)                // the stop channel is dealt with; listeners before `next` are closed
    | CloseCleared                           // listeners is nil
    | CloseWaiting                           // in watchers.Wait()
    | CloseReturned
    | Ended

  datatype World = World(
    mutex: Option<Thread>,
    closed: bool,
    stopWatch: Option<Channel>,
    listeners: seq<Listener>,
    watchers: int,
    threads: map<Thread, Pc>,
    channels: nat,                           // channels made so far; the next one gets this number
    stopCloses: seq<Channel>,                // every close of a stop channel, in order
    bound: set<Listener>,
    shut: set<Listener>,                     // listeners whose Close was called
    handed: set<Listener>)                   // listeners for which add has decided, or appended by Serve

  /** The closer as `Serve` makes it. */
  predicate Initial(w: World) {
    w == World(None, false, None, [], 0, map[], 0, [], {}, {}, {})
  }

  datatype Event =
    | StartWatch(t: Thread)                  // a new thread enters startHotspotWatch or startLANSetupWatch
    | Add(t: Thread, l: Listener)            // a new thread hands a new listener to add
    | Append(l: Listener)                    // Serve appends the main listener without the mutex
    | Close(t: Thread)                       // a new thread calls Close
    | Tick(t: Thread, l: Listener)           // a watcher's tick: it binds a new listener
    | Quit(t: Thread)                        // a watcher returns by itself (bound, or the box has an owner)
    | Go(t: Thread)                          // the thread takes its next step, if it can

  function Set(w: World, t: Thread, pc: Pc): World { w.(threads := w.threads[t := pc]) }

  function Lock(w: World, t: Thread, pc: Pc): World {
    if w.mutex.Some? then w else Set(w, t, pc).(mutex := Some(t))
  }

  function Unlock(w: World, t: Thread, pc: Pc): World { Set(w, t, pc).(mutex := None) }

  predicate ClosePc(pc: Pc) {
    pc.CloseLocked? || pc.CloseMarked? || pc.CloseStopped? || pc.CloseCleared? || pc.CloseWaiting? || pc.CloseReturned?
  }

  /** Some Close has begun. */
  predicate CloseBegun(w: World) { exists t :: t in w.threads && ClosePc(w.threads[t]) }

  function Proceed(w: World, t: Thread): World
    requires t in w.threads
  {
    match w.threads[t]
    case StartLocked =>
      if w.closed then Set(w, t, Refused)
      else if w.stopWatch.None?
      then Set(w, t, StartHasStop(w.channels)).(stopWatch := Some(w.channels), channels := w.channels + 1)
      else Set(w, t, StartHasStop(w.stopWatch.value))
    case StartHasStop(stop) => Unlock(w, t, StartReady(stop))
    case StartReady(stop) => Lock(w, t, TrackLocked(stop))
    case TrackLocked(stop) =>
      if w.closed then Set(w, t, Refused) else Set(w, t, Tracked(stop)).(watchers := w.watchers + 1)
    case Tracked(stop) => Unlock(w, t, Select(stop))
    case Refused => Unlock(w, t, Ended)
    case Select(stop) => if stop in w.stopCloses then Set(w, t, Exiting) else w
    case Exiting => Set(w, t, Ended).(watchers := w.watchers - 1)
    case Adding(caller, l) => Lock(w, t, AddLocked(caller, l))
    case AddLocked(caller, l) =>
      if w.closed then Set(w, t, AddRefused(caller)).(shut := w.shut + {l}, handed := w.handed + {l})
      else Set(w, t, AddDone(caller)).(listeners := w.listeners + [l], handed := w.handed + {l})
    case AddDone(caller) => Unlock(w, t, if caller.Some? then Select(caller.value) else Ended)
    case AddRefused(caller) => Unlock(w, t, if caller.Some? then Exiting else Ended)
    case CloseLocked => Set(w, t, CloseMarked).(closed := true)
    case CloseMarked =>
      if w.stopWatch.Some?
      then Set(w, t, CloseStopped(0)).(stopCloses := w.stopCloses + [w.stopWatch.value], stopWatch := None)
      else Set(w, t, CloseStopped(0))
    case CloseStopped(n) =>
      if n < |w.listeners| then Set(w, t, CloseStopped(n + 1)).(shut := w.shut + {w.listeners[n]})
      else Set(w, t, CloseCleared).(listeners := [])
    case CloseCleared => Unlock(w, t, CloseWaiting)
    case CloseWaiting => if w.watchers == 0 then Set(w, t, CloseReturned) else w
    case CloseReturned => w
    case Ended => w
  }

  function Step(w: World, e: Event): World {
    match e
    case StartWatch(t) => if t in w.threads then w else Lock(w, t, StartLocked)
    case Add(t, l) =>
      if t in w.threads || l in w.bound then w else Set(w, t, Adding(None, l)).(bound := w.bound + {l})
    case Append(l) =>
      if l in w.bound || CloseBegun(w) then w
      else w.(listeners := w.listeners + [l], bound := w.bound + {l}, handed := w.handed + {l})
    case Close(t) => if t in w.threads then w else Lock(w, t, CloseLocked)
    case Tick(t, l) =>
      if t in w.threads && w.threads[t].Select? && l !in w.bound
      then Set(w, t, Adding(Some(w.threads[t].stop), l)).(bound := w.bound + {l}) else w
    case Quit(t) => if t in w.threads && w.threads[t].Select? then Set(w, t, Exiting) else w
    case Go(t) => if t in w.threads then Proceed(w, t) else w
  }

  /** Any schedule. */
  function Run(w: World, es: seq<Event>): World
    decreases |es|
  {
    if es == [] then w else Run(Step(w, es[0]), es[1..])
  }

  // ---------------------------------------------------------------------------------------------------------------
  // The invariant

  predicate HoldsLock(pc: Pc) {
    || pc.StartLocked? || pc.StartHasStop? || pc.TrackLocked? || pc.Tracked? || pc.Refused?
    || pc.AddLocked? || pc.AddDone? || pc.AddRefused?
    || pc.CloseLocked? || pc.CloseMarked? || pc.CloseStopped? || pc.CloseCleared?
  }

  /** A watcher counted by the wait group. */
  predicate Counts(pc: Pc) {
    || pc.Tracked? || pc.Select? || pc.Exiting?
    || (pc.Adding? && pc.caller.Some?) || (pc.AddLocked? && pc.caller.Some?)
    || (pc.AddDone? && pc.caller.Some?) || (pc.AddRefused? && pc.caller.Some?)
  }

  function Running(w: World): set<Thread> { set t | t in w.threads && Counts(w.threads[t]) }

  predicate MutexInv(w: World) {
    && (forall t :: t in w.threads ==> (HoldsLock(w.threads[t]) <==> w.mutex == Some(t)))
    && (w.mutex.Some? ==> w.mutex.value in w.threads)
  }

  /** What holds of the closer's fields, given what the thread holding the mutex is doing. */
  predicate FieldInv(w: World) {
    && |w.stopCloses| <= 1
    && (w.stopWatch.Some? ==> w.stopWatch.value < w.channels && w.stopCloses == [])
    && (w.stopCloses != [] ==> w.closed)
    && (forall l :: l in w.handed ==> l in w.shut || l in w.listeners)
    && (w.mutex.Some? && w.mutex.value in w.threads && w.threads[w.mutex.value].CloseStopped? ==>
          var n := w.threads[w.mutex.value].next;
          w.stopWatch == None && n <= |w.listeners| && forall i :: 0 <= i < n ==> w.listeners[i] in w.shut)
  }

  /** Past the part of Close that takes the listeners and the stop channel. */
  predicate PastClearing(pc: Pc) { pc.CloseCleared? || pc.CloseWaiting? || pc.CloseReturned? }

  predicate ClosedInv(w: World) {
    forall t :: t in w.threads && ClosePc(w.threads[t]) && !w.threads[t].CloseLocked? ==> w.closed
  }

  predicate ClearedInv(w: World) {
    forall t :: t in w.threads && PastClearing(w.threads[t]) ==> w.listeners == [] && w.stopWatch == None
  }

  predicate ReturnedInv(w: World) {
    forall t :: t in w.threads && w.threads[t].CloseReturned? ==> w.watchers == 0
  }

  predicate CloserInv(w: World) {
    ClosedInv(w) && ClearedInv(w) && ReturnedInv(w) && (w.closed ==> CloseBegun(w))
  }

  predicate Inv(w: World) {
    MutexInv(w) && FieldInv(w) && CloserInv(w) && w.watchers == |Running(w)|
  }

  // ---------------------------------------------------------------------------------------------------------------
  // What one step can change

  /** Who may hold the mutex after a step of thread t: itself or nobody, unless it is left alone. */
  predicate MutexMoves(w: World, w': World, t: Thread) {
    && t in w'.threads
    && (w.mutex == w'.mutex || (w.mutex in {None, Some(t)} && w'.mutex in {None, Some(t)}))
    && (HoldsLock(w'.threads[t]) <==> w'.mutex == Some(t))
  }

  /** The thread's step: watchers are counted exactly, and none starts once the server is closed. */
  predicate Moved(w: World, w': World, t: Thread) {
    && t in w'.threads && w'.threads == w.threads[t := w'.threads[t]]
    && MutexMoves(w, w', t)
    && (w.closed ==> w'.closed)
    && (w'.closed != w.closed ==> w'.threads[t].CloseMarked?)
    && var pc := w'.threads[t];
       var was, now := t in w.threads && Counts(w.threads[t]), Counts(pc);
       && (now && !was ==> !w.closed)
       && w'.watchers == w.watchers + (if now && !was then 1 else if was && !now then -1 else 0)
       && (ClosePc(pc) && !pc.CloseLocked? ==> w'.closed)
       && (pc.CloseReturned? ==> w.watchers == 0)
       && (t in w.threads && ClosePc(w.threads[t]) ==> ClosePc(pc))
       && (w.closed ==> w'.listeners in {w.listeners, []} && w'.stopWatch in {w.stopWatch, None})
       && (PastClearing(pc) ==> w'.listeners == [] && w'.stopWatch == None)
  }

  lemma MovedRunning(w: World, w': World, t: Thread)
    requires Moved(w, w', t)
    ensures Running(w') == if Counts(w'.threads[t]) then Running(w) + {t} else Running(w) - {t}
    ensures t in Running(w) <==> t in w.threads && Counts(w.threads[t])
  {
  }

  lemma MovedKeepsMutex(w: World, w': World, t: Thread)
    requires MutexInv(w) && Moved(w, w', t)
    ensures MutexInv(w')
  {
  }

  lemma MovedKeepsCount(w: World, w': World, t: Thread)
    requires w.watchers == |Running(w)| && Moved(w, w', t)
    ensures w'.watchers == |Running(w')|
  {
    MovedRunning(w, w', t);
  }

  lemma MovedKeepsBegun(w: World, w': World, t: Thread)
    requires (w.closed ==> CloseBegun(w)) && Moved(w, w', t)
    ensures w'.closed ==> CloseBegun(w')
  {
    if w'.closed {
      if w.closed {
        var u :| u in w.threads && ClosePc(w.threads[u]);
        assert u in w'.threads && ClosePc(w'.threads[u]);
      } else {
        assert t in w'.threads && ClosePc(w'.threads[t]);
      }
    }
  }

  lemma MovedKeepsClosed(w: World, w': World, t: Thread)
    requires ClosedInv(w) && ClearedInv(w) && Moved(w, w', t)
    ensures ClosedInv(w') && ClearedInv(w')
  {
  }

  lemma MovedKeepsReturned(w: World, w': World, t: Thread)
    requires ClosedInv(w) && ReturnedInv(w) && w.watchers == |Running(w)| && Moved(w, w', t)
    ensures ReturnedInv(w')
  {
    MovedRunning(w, w', t);
    forall u | u in w'.threads && w'.threads[u].CloseReturned? ensures w'.watchers == 0 {
      if u != t {
        assert w.threads[u].CloseReturned? && w.closed && w.watchers == 0;
      }
    }
  }

  // Points of a thread, in groups small enough to reason about at once.
  predicate Starting(pc: Pc) { pc.StartLocked? || pc.StartHasStop? || pc.StartReady? }

  predicate Tracking(pc: Pc) { pc.TrackLocked? || pc.Tracked? || pc.Refused? }

  predicate AddingPc(pc: Pc) { pc.Adding? || pc.AddLocked? || pc.AddDone? || pc.AddRefused? }

  lemma StartProceeds(w: World, t: Thread)
    requires Inv(w) && t in w.threads && Starting(w.threads[t])
    ensures Proceed(w, t) == w || (Moved(w, Proceed(w, t), t) && FieldInv(Proceed(w, t)))
  {
  }

  lemma TrackProceeds(w: World, t: Thread)
    requires Inv(w) && t in w.threads && Tracking(w.threads[t])
    ensures Proceed(w, t) == w || (Moved(w, Proceed(w, t), t) && FieldInv(Proceed(w, t)))
  {
  }

  lemma AddingProceeds(w: World, t: Thread)
    requires Inv(w) && t in w.threads && (w.threads[t].Adding? || w.threads[t].AddLocked?)
    ensures Proceed(w, t) == w || (Moved(w, Proceed(w, t), t) && FieldInv(Proceed(w, t)))
  {
  }

  lemma AddProceeds(w: World, t: Thread)
    requires Inv(w) && t in w.threads && AddingPc(w.threads[t])
    ensures Proceed(w, t) == w || (Moved(w, Proceed(w, t), t) && FieldInv(Proceed(w, t)))
  {
    if w.threads[t].Adding? || w.threads[t].AddLocked? {
      AddingProceeds(w, t);
    }
  }

  lemma CloseProceeds(w: World, t: Thread)
    requires Inv(w) && t in w.threads && ClosePc(w.threads[t]) && !PastClearing(w.threads[t])
    ensures Proceed(w, t) == w || (Moved(w, Proceed(w, t), t) && FieldInv(Proceed(w, t)))
  {
  }

  lemma ClearedProceeds(w: World, t: Thread)
    requires Inv(w) && t in w.threads && PastClearing(w.threads[t])
    ensures Proceed(w, t) == w || (Moved(w, Proceed(w, t), t) && FieldInv(Proceed(w, t)))
  {
  }

  lemma WatcherProceeds(w: World, t: Thread)
    requires Inv(w) && t in w.threads && (w.threads[t].Select? || w.threads[t].Exiting? || w.threads[t].Ended?)
    ensures Proceed(w, t) == w || (Moved(w, Proceed(w, t), t) && FieldInv(Proceed(w, t)))
  {
  }

  lemma ProceedMoves(w: World, t: Thread)
    requires Inv(w) && t in w.threads
    ensures Proceed(w, t) == w || (Moved(w, Proceed(w, t), t) && FieldInv(Proceed(w, t)))
  {
    var pc := w.threads[t];
    if Starting(pc) {
      StartProceeds(w, t);
    } else if Tracking(pc) {
      TrackProceeds(w, t);
    } else if AddingPc(pc) {
      AddProceeds(w, t);
    } else if PastClearing(pc) {
      ClearedProceeds(w, t);
    } else if ClosePc(pc) {
      CloseProceeds(w, t);
    } else {
      WatcherProceeds(w, t);
    }
  }

  /** The thread an event belongs to. */
  function ThreadOf(e: Event): Thread
    requires !e.Append?
  {
    e.t
  }

  lemma LockMoves(w: World, t: Thread, pc: Pc)
    requires Inv(w) && t !in w.threads && pc in {StartLocked, CloseLocked}
    ensures Lock(w, t, pc) == w || (Moved(w, Lock(w, t, pc), t) && FieldInv(Lock(w, t, pc)))
  {
  }

  lemma AddMoves(w: World, t: Thread, l: Listener)
    requires Inv(w)
    ensures var w' := Step(w, Add(t, l)); w' == w || (Moved(w, w', t) && FieldInv(w'))
  {
  }

  lemma SelectMoves(w: World, e: Event)
    requires Inv(w) && (e.Tick? || e.Quit?)
    ensures Step(w, e) == w || (Moved(w, Step(w, e), e.t) && FieldInv(Step(w, e)))
  {
  }

  lemma EnterMoves(w: World, e: Event)
    requires Inv(w) && !e.Append? && !e.Go?
    ensures Step(w, e) == w || (Moved(w, Step(w, e), ThreadOf(e)) && FieldInv(Step(w, e)))
  {
    match e
    case StartWatch(t) => if t !in w.threads { LockMoves(w, t, StartLocked); }
    case Close(t) => if t !in w.threads { LockMoves(w, t, CloseLocked); }
    case Add(t, l) => AddMoves(w, t, l);
    case _ => SelectMoves(w, e);
  }

  lemma MovedKeepsInv(w: World, w': World, t: Thread)
    requires Inv(w) && Moved(w, w', t) && FieldInv(w')
    ensures Inv(w')
  {
    MovedKeepsMutex(w, w', t);
    MovedKeepsCount(w, w', t);
    MovedKeepsClosed(w, w', t);
    MovedKeepsReturned(w, w', t);
    MovedKeepsBegun(w, w', t);
  }

  lemma AppendKeepsInv(w: World, l: Listener)
    requires Inv(w)
    ensures Inv(Step(w, Append(l)))
  {
    assert Running(Step(w, Append(l))) == Running(w);
  }

  lemma StepKeepsInv(w: World, e: Event)
    requires Inv(w)
    ensures Inv(Step(w, e))
  {
    if e.Append? {
      AppendKeepsInv(w, e.l);
    } else if e.Go? {
      if e.t in w.threads {
        ProceedMoves(w, e.t);
        if Proceed(w, e.t) != w { MovedKeepsInv(w, Proceed(w, e.t), e.t); }
      }
    } else {
      EnterMoves(w, e);
      if Step(w, e) != w { MovedKeepsInv(w, Step(w, e), e.t); }
    }
  }

  // ---------------------------------------------------------------------------------------------------------------
  // Theorems about every schedule

  lemma {:induction false} RunKeepsInv(w: World, es: seq<Event>)
    requires Inv(w)
    ensures Inv(Run(w, es))
    decreases |es|
  {
    if es != [] {
      StepKeepsInv(w, es[0]);
      RunKeepsInv(Step(w, es[0]), es[1..]);
    }
  }

  lemma InitialInv(w: World)
    requires Initial(w)
    ensures Inv(w)
  {
    assert Running(w) == {};
  }

  lemma {:induction false} RunOn(w: World, es: seq<Event>, fs: seq<Event>)
    ensures Run(w, es + fs) == Run(Run(w, es), fs)
    decreases |es|
  {
    if es == [] {
      assert es + fs == fs;
    } else {
      assert (es + fs)[1..] == es[1..] + fs;
      RunOn(Step(w, es[0]), es[1..], fs);
    }
  }

  /** The closer is fully shut: no watcher runs and every listener it was ever given is closed. */
  predicate FullyShut(w: World) {
    w.closed && Running(w) == {} && w.handed <= w.shut && w.stopWatch == None && w.listeners == []
  }

  lemma ReturnedIsFullyShut(w: World, t: Thread)
    requires Inv(w) && t in w.threads && w.threads[t].CloseReturned?
    ensures FullyShut(w)
  {
    assert w.handed <= w.shut by {
      forall l | l in w.handed ensures l in w.shut { assert l !in w.listeners; }
    }
  }

  lemma Stays(w: World, e: Event, t: Thread)
    requires Inv(w) && t in w.threads && w.threads[t].CloseReturned?
    ensures t in Step(w, e).threads && Step(w, e).threads[t].CloseReturned?
  {
  }

  lemma {:induction false} StaysReturned(w: World, es: seq<Event>, t: Thread)
    requires Inv(w) && t in w.threads && w.threads[t].CloseReturned?
    ensures t in Run(w, es).threads && Run(w, es).threads[t].CloseReturned?
    decreases |es|
  {
    if es != [] {
      Stays(w, es[0], t);
      StepKeepsInv(w, es[0]);
      StaysReturned(Step(w, es[0]), es[1..], t);
    }
  }

  /**
   * When any call of Close has returned, no watcher is running, every listener ever handed over is closed, and so it
   * stays whatever happens next: no watcher can start and later listeners are closed by add itself.
   */
  lemma CloseIsFinal(w: World, es: seq<Event>, fs: seq<Event>, t: Thread)
    requires Initial(w) && t in Run(w, es).threads && Run(w, es).threads[t].CloseReturned?
    ensures FullyShut(Run(w, es)) && FullyShut(Run(w, es + fs))
  {
    InitialInv(w);
    RunKeepsInv(w, es);
    ReturnedIsFullyShut(Run(w, es), t);
    StaysReturned(Run(w, es), fs, t);
    RunKeepsInv(Run(w, es), fs);
    RunOn(w, es, fs);
    ReturnedIsFullyShut(Run(w, es + fs), t);
  }

  /** At most one close of a stop channel ever happens, so none is closed twice; the wait group never goes negative. */
  lemma StopClosedOnce(w: World, es: seq<Event>)
    requires Initial(w)
    ensures |Run(w, es).stopCloses| <= 1
    ensures Run(w, es).watchers == |Running(Run(w, es))|
  {
    InitialInv(w);
    RunKeepsInv(w, es);
  }

  // ---------------------------------------------------------------------------------------------------------------
  // Close cannot get stuck

  /** The stop channel a thread carries, if any. */
  function StopOf(pc: Pc): Option<Channel> {
    if pc.StartHasStop? || pc.StartReady? || pc.TrackLocked? || pc.Tracked? || pc.Select? then Some(pc.stop)
    else if AddingPc(pc) then pc.caller
    else None
  }

  predicate StopKnown(w: World, pc: Pc) {
    StopOf(pc).Some? ==> StopOf(pc).value in w.stopCloses || w.stopWatch == StopOf(pc)
  }

  /** Every stop channel in use is the current one or already closed. */
  predicate StopInv(w: World) {
    forall t :: t in w.threads ==> StopKnown(w, w.threads[t])
  }

  predicate StopsMoved(w: World, w': World, t: Thread) {
    && t in w'.threads && w'.threads == w.threads[t := w'.threads[t]] && StopKnown(w', w'.threads[t])
    && (w.stopWatch.Some? ==>
          w'.stopWatch == w.stopWatch || (w'.stopWatch == None && w.stopWatch.value in w'.stopCloses))
    && w.stopCloses <= w'.stopCloses
  }

  lemma StopMoves(w: World, w': World, t: Thread)
    requires StopInv(w) && StopsMoved(w, w', t)
    ensures StopInv(w')
  {
    forall u | u in w'.threads ensures StopKnown(w', w'.threads[u]) {
      if u != t {
        assert StopKnown(w, w.threads[u]);
      }
    }
  }

  lemma StartStops(w: World, t: Thread)
    requires t in w.threads && StopKnown(w, w.threads[t])
    requires Starting(w.threads[t]) || Tracking(w.threads[t])
    ensures StopsMoved(w, Proceed(w, t), t)
  {
  }

  lemma CloseStops(w: World, t: Thread)
    requires t in w.threads && StopKnown(w, w.threads[t]) && ClosePc(w.threads[t])
    ensures StopsMoved(w, Proceed(w, t), t)
  {
  }

  lemma AddStops(w: World, t: Thread)
    requires t in w.threads && StopKnown(w, w.threads[t]) && AddingPc(w.threads[t])
    ensures StopsMoved(w, Proceed(w, t), t)
  {
  }

  lemma WatcherStops(w: World, t: Thread)
    requires t in w.threads && StopKnown(w, w.threads[t])
    requires w.threads[t].Select? || w.threads[t].Exiting? || w.threads[t].Ended?
    ensures StopsMoved(w, Proceed(w, t), t)
  {
  }

  lemma ProceedStops(w: World, t: Thread)
    requires StopInv(w) && t in w.threads
    ensures StopsMoved(w, Proceed(w, t), t)
  {
    assert StopKnown(w, w.threads[t]);
    if Starting(w.threads[t]) || Tracking(w.threads[t]) {
      StartStops(w, t);
    } else if ClosePc(w.threads[t]) {
      CloseStops(w, t);
    } else if AddingPc(w.threads[t]) {
      AddStops(w, t);
    } else {
      WatcherStops(w, t);
    }
  }

  lemma EnterStops(w: World, e: Event)
    requires StopInv(w) && !e.Go?
    ensures StopInv(Step(w, e))
  {
  }

  lemma {:induction false} RunKeepsStops(w: World, es: seq<Event>)
    requires StopInv(w)
    ensures StopInv(Run(w, es))
    decreases |es|
  {
    if es != [] {
      var e := es[0];
      if e.Go? {
        if e.t in w.threads {
          ProceedStops(w, e.t);
          StopMoves(w, Proceed(w, e.t), e.t);
        }
      } else {
        EnterStops(w, e);
      }
      RunKeepsStops(Step(w, e), es[1..]);
    }
  }

  /** A state in which the call t of Close waits for the watchers. */
  predicate Waiting(w: World, t: Thread) {
    Inv(w) && StopInv(w) && t in w.threads && w.threads[t].CloseWaiting?
  }

  /** Any other thread's step leaves it waiting, with no more watchers than before. */
  lemma OtherStep(w: World, t: Thread, u: Thread)
    requires Waiting(w, t) && u in w.threads && u != t
    ensures OtherMoved(w, Step(w, Go(u)), t, u)
  {
    ProceedMoves(w, u);
    ProceedStops(w, u);
    if Proceed(w, u) != w {
      OtherMove(w, Proceed(w, u), t, u);
    }
  }

  predicate OtherMoved(w: World, w': World, t: Thread, u: Thread) {
    && Waiting(w', t) && Running(w') <= Running(w) && w'.threads.Keys == w.threads.Keys
    && (forall v :: v in w.threads && v != u ==> w'.threads[v] == w.threads[v])
  }

  lemma OtherMove(w: World, w': World, t: Thread, u: Thread)
    requires Waiting(w, t) && u in w.threads && u != t
    requires Moved(w, w', u) && FieldInv(w') && StopsMoved(w, w', u)
    ensures OtherMoved(w, w', t, u)
  {
    StopMoves(w, w', u);
    MovedRunning(w, w', u);
    MovedKeepsInv(w, w', u);
    assert w.closed;
  }

  /** How many steps a thread is away from giving up the mutex, once the server is closed. */
  function LockRank(pc: Pc): nat {
    match pc
    case CloseLocked => 5
    case CloseMarked => 4
    case CloseStopped(_) => 3
    case StartLocked => 2
    case TrackLocked(_) => 2
    case AddLocked(_, _) => 2
    case _ => if HoldsLock(pc) then 1 else 0
  }

  lemma HolderAdvances(w: World, t: Thread, u: Thread)
    requires Waiting(w, t) && w.mutex == Some(u)
    ensures u in w.threads && u != t
    ensures var w' := Step(w, Go(u));
            u in w'.threads && LockRank(w'.threads[u]) < LockRank(w.threads[u]) && w'.mutex in {None, Some(u)}
  {
    assert PastClearing(w.threads[t]);
    RankDrops(w, u);
  }

  lemma RankDrops(w: World, u: Thread)
    requires u in w.threads && HoldsLock(w.threads[u]) && w.mutex == Some(u) && w.closed && w.listeners == []
    ensures var w' := Proceed(w, u);
            u in w'.threads && LockRank(w'.threads[u]) < LockRank(w.threads[u]) && w'.mutex in {None, Some(u)}
  {
  }

  /** The holder of the mutex can always get out of its critical section; the other threads need not move. */
  lemma {:induction false} FreeMutex(w: World, t: Thread, u: Thread) returns (es: seq<Event>)
    requires Waiting(w, t) && w.mutex == Some(u)
    ensures var w' := Run(w, es);
            && Waiting(w', t) && w'.mutex == None && Running(w') <= Running(w) && w'.threads.Keys == w.threads.Keys
            && (forall v :: v in w.threads && v != u ==> w'.threads[v] == w.threads[v])
    decreases LockRank(w.threads[u])
  {
    HolderAdvances(w, t, u);
    OtherStep(w, t, u);
    var w1 := Step(w, Go(u));
    assert [Go(u)][1..] == [];
    if w1.mutex == None {
      es := [Go(u)];
    } else {
      var rest := FreeMutex(w1, t, u);
      es := [Go(u)] + rest;
      assert es[1..] == rest;
    }
  }

  /** How many steps a watcher is away from its exit, once the stop channel is closed. */
  function WatcherRank(pc: Pc): nat {
    if pc.Adding? then 5
    else if pc.AddLocked? then 4
    else if pc.Tracked? || pc.AddDone? then 3
    else if pc.Select? || pc.AddRefused? then 2
    else if pc.Exiting? then 1
    else 0
  }

  lemma WatcherAdvances(w: World, t: Thread, u: Thread)
    requires Waiting(w, t) && u in Running(w) && w.mutex in {None, Some(u)}
    ensures u != t
    ensures var w' := Step(w, Go(u));
            u in w'.threads && WatcherRank(w'.threads[u]) < WatcherRank(w.threads[u])
  {
    assert PastClearing(w.threads[t]);
    assert StopKnown(w, w.threads[u]);
  }

  lemma {:induction false} FinishWatcher(w: World, t: Thread, u: Thread) returns (es: seq<Event>)
    requires Waiting(w, t) && u in Running(w)
    ensures Waiting(Run(w, es), t) && Running(Run(w, es)) < Running(w)
    decreases WatcherRank(w.threads[u]), if w.mutex in {None, Some(u)} then 0 else 1
  {
    if w.mutex.Some? && w.mutex != Some(u) {
      var first := FreeMutex(w, t, w.mutex.value);
      var w1 := Run(w, first);
      if u in Running(w1) {
        var rest := FinishWatcher(w1, t, u);
        es := first + rest;
        RunOn(w, first, rest);
      } else {
        es := first;
      }
    } else {
      WatcherAdvances(w, t, u);
      OtherStep(w, t, u);
      var w1 := Step(w, Go(u));
      assert [Go(u)][1..] == [];
      if u in Running(w1) {
        var rest := FinishWatcher(w1, t, u);
        es := [Go(u)] + rest;
        assert es[1..] == rest;
      } else {
        es := [Go(u)];
      }
    }
  }

  lemma {:induction false} WaitEnds(w: World, t: Thread) returns (es: seq<Event>)
    requires Waiting(w, t)
    ensures t in Run(w, es).threads && Run(w, es).threads[t].CloseReturned?
    decreases Running(w)
  {
    if Running(w) == {} {
      es := [Go(t)];
      assert es[1..] == [];
    } else {
      var u :| u in Running(w);
      var first := FinishWatcher(w, t, u);
      var rest := WaitEnds(Run(w, first), t);
      es := first + rest;
      RunOn(w, first, rest);
    }
  }

  /**
   * Waiting without the mutex never deadlocks: from every reachable state in which a Close waits, the remaining
   * steps of the other threads let it return.
   */
  lemma CloseCanReturn(w: World, es: seq<Event>, t: Thread) returns (fs: seq<Event>)
    requires Initial(w) && t in Run(w, es).threads && Run(w, es).threads[t].CloseWaiting?
    ensures t in Run(w, es + fs).threads && Run(w, es + fs).threads[t].CloseReturned?
  {
    InitialInv(w);
    RunKeepsInv(w, es);
    RunKeepsStops(w, es);
    fs := WaitEnds(Run(w, es), t);
    RunOn(w, es, fs);
  }

  // ---------------------------------------------------------------------------------------------------------------
  // What a watcher can still do

  /** Once the server is closed nobody is between a successful test of `closed` and giving up the mutex. */
  predicate NoneLate(w: World) {
    forall t :: t in w.threads ==> !Late(w, w.threads[t])
  }

  predicate Late(w: World, pc: Pc) { w.closed && (pc.Tracked? || pc.AddDone?) }

  lemma StarterNotLate(w: World, t: Thread)
    requires t in w.threads && !Late(w, w.threads[t]) && (Starting(w.threads[t]) || Tracking(w.threads[t]))
    ensures var w' := Proceed(w, t); t in w'.threads && !Late(w', w'.threads[t])
  {
  }

  lemma CloserNotLate(w: World, t: Thread)
    requires t in w.threads && ClosePc(w.threads[t])
    ensures var w' := Proceed(w, t); t in w'.threads && !Late(w', w'.threads[t])
  {
  }

  lemma OwnStepNotLate(w: World, t: Thread)
    requires t in w.threads && !Late(w, w.threads[t])
    ensures var w' := Proceed(w, t); t in w'.threads && !Late(w', w'.threads[t])
  {
    if Starting(w.threads[t]) || Tracking(w.threads[t]) {
      StarterNotLate(w, t);
    } else if ClosePc(w.threads[t]) {
      CloserNotLate(w, t);
    }
  }

  lemma MoveNotLate(w: World, w': World, t: Thread)
    requires MutexInv(w) && NoneLate(w) && Moved(w, w', t)
    requires !Late(w', w'.threads[t])
    ensures NoneLate(w')
  {
  }

  lemma EnterNotLate(w: World, e: Event)
    requires NoneLate(w) && !e.Go?
    ensures NoneLate(Step(w, e))
  {
  }

  lemma StepNotLate(w: World, e: Event)
    requires Inv(w) && NoneLate(w)
    ensures NoneLate(Step(w, e))
  {
    if !e.Go? {
      EnterNotLate(w, e);
    } else if e.t in w.threads {
      OwnStepNotLate(w, e.t);
      ProceedMoves(w, e.t);
      if Proceed(w, e.t) != w {
        MoveNotLate(w, Proceed(w, e.t), e.t);
      }
    }
  }

  lemma {:induction false} RunNotLate(w: World, es: seq<Event>)
    requires Inv(w) && NoneLate(w)
    ensures NoneLate(Run(w, es))
    decreases |es|
  {
    if es != [] {
      StepNotLate(w, es[0]);
      StepKeepsInv(w, es[0]);
      RunNotLate(Step(w, es[0]), es[1..]);
    }
  }

  /** A watcher of a closed server, or what is left of it. */
  predicate Winding(w: World, u: Thread) {
    && w.closed && u in w.threads
    && var pc := w.threads[u];
       || pc.Select? || pc.Exiting? || pc.Ended?
       || ((pc.Adding? || pc.AddLocked? || pc.AddRefused?) && pc.caller.Some?)
  }

  /** How many steps of its own a watcher of a closed server can take at most. */
  function OwnSteps(pc: Pc): nat {
    if pc.Select? then 5
    else if pc.Adding? then 4
    else if pc.AddLocked? then 3
    else if pc.AddRefused? then 2
    else if pc.Exiting? then 1
    else 0
  }

  /** How many listeners it can still bind. */
  function OwnTicks(pc: Pc): nat { if pc.Select? then 1 else 0 }

  predicate IsOwn(w: World, e: Event, u: Thread) { !e.Append? && e.t == u && Step(w, e) != w }

  /** The steps of thread u in a schedule, and those of them in which it binds a listener. */
  function StepsOf(w: World, es: seq<Event>, u: Thread): nat
    decreases |es|
  {
    if es == [] then 0 else (if IsOwn(w, es[0], u) then 1 else 0) + StepsOf(Step(w, es[0]), es[1..], u)
  }

  function TicksOf(w: World, es: seq<Event>, u: Thread): nat
    decreases |es|
  {
    if es == [] then 0
    else (if IsOwn(w, es[0], u) && es[0].Tick? then 1 else 0) + TicksOf(Step(w, es[0]), es[1..], u)
  }

  lemma OwnWinds(w: World, e: Event, u: Thread)
    requires Winding(w, u) && IsOwn(w, e, u)
    ensures var w' := Step(w, e);
            && Winding(w', u) && OwnSteps(w'.threads[u]) < OwnSteps(w.threads[u])
            && OwnTicks(w'.threads[u]) + (if e.Tick? then 1 else 0) <= OwnTicks(w.threads[u])
  {
  }

  lemma OtherWinds(w: World, e: Event, u: Thread)
    requires Inv(w) && Winding(w, u) && !IsOwn(w, e, u)
    ensures Winding(Step(w, e), u) && Step(w, e).threads[u] == w.threads[u]
  {
    if e.Go? && e.t in w.threads {
      ProceedMoves(w, e.t);
    } else if !e.Append? && !e.Go? {
      EnterMoves(w, e);
    }
  }

  lemma {:induction false} WindsDown(w: World, es: seq<Event>, u: Thread)
    requires Inv(w) && Winding(w, u)
    ensures Winding(Run(w, es), u)
    ensures StepsOf(w, es, u) + OwnSteps(Run(w, es).threads[u]) <= OwnSteps(w.threads[u])
    ensures TicksOf(w, es, u) + OwnTicks(Run(w, es).threads[u]) <= OwnTicks(w.threads[u])
    decreases |es|
  {
    if es != [] {
      if IsOwn(w, es[0], u) {
        OwnWinds(w, es[0], u);
      } else {
        OtherWinds(w, es[0], u);
      }
      StepKeepsInv(w, es[0]);
      WindsDown(Step(w, es[0]), es[1..], u);
    }
  }

  /**
   * Close waits for at most one tick's work: in every schedule after `closed` is set, a running watcher binds at most
   * one more listener, and only if it is between ticks; it takes at most five steps of its own, and has exited if it
   * takes as many as it has left.
   */
  lemma OneTickLeft(w: World, es: seq<Event>, fs: seq<Event>, u: Thread)
    requires Initial(w) && Run(w, es).closed && u in Running(Run(w, es))
    ensures var v := Run(w, es);
            && TicksOf(v, fs, u) <= OwnTicks(v.threads[u]) <= 1
            && StepsOf(v, fs, u) <= OwnSteps(v.threads[u]) <= 5
            && u in Run(v, fs).threads
            && (StepsOf(v, fs, u) == OwnSteps(v.threads[u]) ==> Run(v, fs).threads[u].Ended?)
  {
    InitialInv(w);
    RunKeepsInv(w, es);
    RunNotLate(w, es);
    WindsDown(Run(w, es), fs, u);
  }

  // ---------------------------------------------------------------------------------------------------------------
  // An open closer keeps what it is given

  predicate OpenKeeps(w: World) { !w.closed ==> w.shut == {} }

  lemma ProceedKeepsOpen(w: World, t: Thread)
    requires ClosedInv(w) && OpenKeeps(w) && t in w.threads
    ensures OpenKeeps(Proceed(w, t))
  {
  }

  lemma {:induction false} RunKeepsOpen(w: World, es: seq<Event>)
    requires Inv(w) && OpenKeeps(w)
    ensures OpenKeeps(Run(w, es))
    decreases |es|
  {
    if es != [] {
      if es[0].Go? && es[0].t in w.threads {
        ProceedKeepsOpen(w, es[0].t);
      }
      StepKeepsInv(w, es[0]);
      RunKeepsOpen(Step(w, es[0]), es[1..]);
    }
  }

  /** Until some Close has set `closed`, no listener is closed. */
  lemma OpenClosesNothing(w: World, es: seq<Event>)
    requires Initial(w) && !Run(w, es).closed
    ensures Run(w, es).shut == {}
  {
    InitialInv(w);
    RunKeepsOpen(w, es);
  }

  lemma RunFirst(w: World, e: Event, es: seq<Event>)
    ensures Run(w, [e] + es) == Run(Step(w, e), es)
  {
    assert ([e] + es)[1..] == es;
  }

  function Turns(t: Thread, n: nat): seq<Event> {
    if n == 0 then [] else [Go(t)] + Turns(t, n - 1)
  }

  lemma {:induction false} TurnsAdd(t: Thread, m: nat, n: nat)
    ensures Turns(t, m + n) == Turns(t, m) + Turns(t, n)
  {
    if m > 0 {
      TurnsAdd(t, m - 1, n);
      assert [Go(t)] + Turns(t, m - 1) + Turns(t, n) == [Go(t)] + (Turns(t, m - 1) + Turns(t, n));
    } else {
      assert [] + Turns(t, n) == Turns(t, n);
    }
  }

  lemma ThreeTurns(w: World, t: Thread, w1: World, w2: World, w3: World)
    requires Step(w, Go(t)) == w1 && Step(w1, Go(t)) == w2 && Step(w2, Go(t)) == w3
    ensures Run(w, Turns(t, 2)) == w2 && Run(w, Turns(t, 3)) == w3
  {
    RunFirst(w, Go(t), Turns(t, 1));
    RunFirst(w1, Go(t), Turns(t, 0));
    RunFirst(w, Go(t), Turns(t, 2));
    RunFirst(w1, Go(t), Turns(t, 1));
    RunFirst(w2, Go(t), Turns(t, 0));
  }

  /** `l` is kept: it is listed and counted as handed over. */
  function Kept(w: World, l: Listener): World {
    w.(listeners := w.listeners + [l], bound := w.bound + {l}, handed := w.handed + {l})
  }

  lemma AddSteps(w: World, t: Thread, caller: Option<Channel>, l: Listener)
    requires !w.closed && w.mutex == None && t in w.threads && w.threads[t] == Adding(caller, l)
    ensures Run(w, Turns(t, 3))
         == Set(w, t, if caller.Some? then Select(caller.value) else Ended).(
              listeners := w.listeners + [l], handed := w.handed + {l})
  {
    var last := if caller.Some? then Select(caller.value) else Ended;
    var w1 := Set(w, t, AddLocked(caller, l)).(mutex := Some(t));
    var w2 := Set(w1, t, AddDone(caller)).(listeners := w.listeners + [l], handed := w.handed + {l});
    var w3 := Set(w, t, last).(listeners := w.listeners + [l], handed := w.handed + {l});
    assert w.threads[t := AddLocked(caller, l)][t := AddDone(caller)][t := last] == w.threads[t := last];
    assert Proceed(w, t) == w1 && Proceed(w1, t) == w2 && Proceed(w2, t) == w3;
    ThreeTurns(w, t, w1, w2, w3);
  }

  /** An open closer whose mutex is free keeps a listener that Serve adds: three steps later it is listed. */
  lemma OpenAdds(w: World, es: seq<Event>, t: Thread, l: Listener)
    requires Initial(w)
    requires var v := Run(w, es); !v.closed && v.mutex == None && t !in v.threads && l !in v.bound
    ensures Run(w, es + ([Add(t, l)] + Turns(t, 3))) == Set(Kept(Run(w, es), l), t, Ended)
  {
    var v := Run(w, es);
    RunOn(w, es, [Add(t, l)] + Turns(t, 3));
    RunFirst(v, Add(t, l), Turns(t, 3));
    AddSteps(Step(v, Add(t, l)), t, None, l);
    assert v.threads[t := Adding(None, l)][t := Ended] == v.threads[t := Ended];
  }

  /** And one that a watcher binds, after which the watcher waits for its next tick. */
  lemma OpenTicks(w: World, es: seq<Event>, t: Thread, l: Listener)
    requires Initial(w)
    requires var v := Run(w, es);
             !v.closed && v.mutex == None && t in v.threads && v.threads[t].Select? && l !in v.bound
    ensures Run(w, es + ([Tick(t, l)] + Turns(t, 3))) == Kept(Run(w, es), l)
  {
    var v := Run(w, es);
    var stop := v.threads[t].stop;
    RunOn(w, es, [Tick(t, l)] + Turns(t, 3));
    RunFirst(v, Tick(t, l), Turns(t, 3));
    AddSteps(Step(v, Tick(t, l)), t, Some(stop), l);
    assert v.threads[t := Adding(Some(stop), l)][t := Select(stop)] == v.threads;
  }

  /** And the listener that Serve appends before it returns. */
  lemma OpenAppends(w: World, es: seq<Event>, l: Listener)
    requires Initial(w) && !CloseBegun(Run(w, es)) && l !in Run(w, es).bound
    ensures Run(w, es + [Append(l)]) == Kept(Run(w, es), l)
  {
    RunOn(w, es, [Append(l)]);
    RunFirst(Run(w, es), Append(l), []);
    assert [Append(l)] + [] == [Append(l)];
  }

  /** The stop channel a watcher gets: the current one, or a new one. */
  function StopFor(w: World): Channel { if w.stopWatch.Some? then w.stopWatch.value else w.channels }

  function Watching(w: World, t: Thread): World {
    Set(w, t, Select(StopFor(w))).(
      stopWatch := Some(StopFor(w)), watchers := w.watchers + 1,
      channels := if w.stopWatch.Some? then w.channels else w.channels + 1)
  }

  lemma ReadySteps(w: World, t: Thread)
    requires !w.closed && w.mutex == None && t !in w.threads
    ensures Run(w, [StartWatch(t)] + Turns(t, 2)) == Watching(w, t).(
              threads := w.threads[t := StartReady(StopFor(w))], watchers := w.watchers)
  {
    var stop := StopFor(w);
    var w0 := Set(w, t, StartLocked).(mutex := Some(t));
    var w1 := Set(w0, t, StartHasStop(stop)).(stopWatch := Some(stop), channels := Watching(w, t).channels);
    RunFirst(w, StartWatch(t), Turns(t, 2));
    RunFirst(w0, Go(t), Turns(t, 1));
    RunFirst(w1, Go(t), Turns(t, 0));
    assert w1.threads[t := StartReady(stop)] == w.threads[t := StartReady(stop)];
  }

  lemma TrackSteps(w: World, t: Thread, stop: Channel)
    requires !w.closed && w.mutex == None && t in w.threads && w.threads[t] == StartReady(stop)
    ensures Run(w, Turns(t, 3)) == Set(w, t, Select(stop)).(watchers := w.watchers + 1)
  {
    var w1 := Set(w, t, TrackLocked(stop)).(mutex := Some(t));
    var w2 := Set(w1, t, Tracked(stop)).(watchers := w.watchers + 1);
    var w3 := Set(w, t, Select(stop)).(watchers := w.watchers + 1);
    assert w2.threads[t := Select(stop)] == w.threads[t := Select(stop)];
    assert Proceed(w, t) == w1 && Proceed(w1, t) == w2 && Proceed(w2, t) == w3;
    ThreeTurns(w, t, w1, w2, w3);
  }

  lemma StartSteps(w: World, t: Thread)
    requires !w.closed && w.mutex == None && t !in w.threads
    ensures Run(w, [StartWatch(t)] + Turns(t, 5)) == Watching(w, t)
  {
    var stop := StopFor(w);
    var ready := Run(w, [StartWatch(t)] + Turns(t, 2));
    ReadySteps(w, t);
    TrackSteps(ready, t, stop);
    RunOn(w, [StartWatch(t)] + Turns(t, 2), Turns(t, 3));
    TurnsAdd(t, 2, 3);
    assert [StartWatch(t)] + Turns(t, 2) + Turns(t, 3) == [StartWatch(t)] + Turns(t, 5);
    assert w.threads[t := StartReady(stop)][t := Select(stop)] == w.threads[t := Select(stop)];
  }

  /** On an open closer a watcher starts: it waits for its first tick and is counted. */
  lemma OpenStarts(w: World, es: seq<Event>, t: Thread)
    requires Initial(w)
    requires var v := Run(w, es); !v.closed && v.mutex == None && t !in v.threads
    ensures Run(w, es + ([StartWatch(t)] + Turns(t, 5))) == Watching(Run(w, es), t)
  {
    RunOn(w, es, [StartWatch(t)] + Turns(t, 5));
    StartSteps(Run(w, es), t);
  }

  /** On a closed one it does not, and nothing else changes. */
  lemma ClosedRefuses(w: World, es: seq<Event>, t: Thread)
    requires Initial(w)
    requires var v := Run(w, es); v.closed && v.mutex == None && t !in v.threads
    ensures Run(w, es + ([StartWatch(t)] + Turns(t, 2))) == Set(Run(w, es), t, Ended)
  {
    var v := Run(w, es);
    var v0 := Set(v, t, StartLocked).(mutex := Some(t));
    var v1 := Set(v0, t, Refused);
    RunOn(w, es, [StartWatch(t)] + Turns(t, 2));
    RunFirst(v, StartWatch(t), Turns(t, 2));
    RunFirst(v0, Go(t), Turns(t, 1));
    RunFirst(v1, Go(t), Turns(t, 0));
    assert v1.threads[t := Ended] == v.threads[t := Ended];
  }

  /** Until then it waits: its stop channel is not closed while the closer is open. */
  lemma OpenWaits(w: World, es: seq<Event>, t: Thread)
    requires Initial(w) && !Run(w, es).closed && t in Run(w, es).threads && Run(w, es).threads[t].Select?
    ensures Step(Run(w, es), Go(t)) == Run(w, es)
  {
    InitialInv(w);
    RunKeepsInv(w, es);
  }

  /** A watcher that has nothing more to watch for exits and is no longer counted. */
  lemma QuitSteps(w: World, es: seq<Event>, t: Thread)
    requires Initial(w) && t in Run(w, es).threads && Run(w, es).threads[t].Select?
    ensures var v := Run(w, es);
            Run(w, es + ([Quit(t)] + Turns(t, 1))) == Set(v, t, Ended).(watchers := v.watchers - 1)
  {
    var v := Run(w, es);
    RunOn(w, es, [Quit(t)] + Turns(t, 1));
    RunFirst(v, Quit(t), Turns(t, 1));
    RunFirst(Set(v, t, Exiting), Go(t), Turns(t, 0));
    assert v.threads[t := Exiting][t := Ended] == v.threads[t := Ended];
  }

  /** A Close that is closing the listeners can get on to waiting by its own steps. */
  lemma {:induction false} StoppedGetsOn(w: World, t: Thread) returns (es: seq<Event>)
    requires t in w.threads && w.threads[t].CloseStopped? && w.threads[t].next <= |w.listeners|
    ensures t in Run(w, es).threads && Run(w, es).threads[t].CloseWaiting?
    decreases |w.listeners| - w.threads[t].next
  {
    var w1 := Proceed(w, t);
    if w.threads[t].next < |w.listeners| {
      var rest := StoppedGetsOn(w1, t);
      es := [Go(t)] + rest;
      RunFirst(w, Go(t), rest);
    } else {
      es := [Go(t)] + ([Go(t)] + []);
      RunFirst(w, Go(t), [Go(t)] + []);
      RunFirst(w1, Go(t), []);
    }
  }

  lemma CloseGetsOn(w: World, t: Thread) returns (es: seq<Event>)
    requires w.mutex == None && t !in w.threads
    ensures t in Run(w, es).threads && Run(w, es).threads[t].CloseWaiting?
  {
    var w0 := Step(w, Close(t));
    var w1 := Proceed(w0, t);
    var w2 := Proceed(w1, t);
    var rest := StoppedGetsOn(w2, t);
    es := [Close(t)] + ([Go(t)] + ([Go(t)] + rest));
    RunFirst(w, Close(t), [Go(t)] + ([Go(t)] + rest));
    RunFirst(w0, Go(t), [Go(t)] + rest);
    RunFirst(w1, Go(t), rest);
  }

  /** In every reachable state with the mutex free, a new Close can be run to its return, open or closed. */
  lemma CloseReturns(w: World, es: seq<Event>, t: Thread) returns (fs: seq<Event>)
    requires Initial(w)
    requires var v := Run(w, es); v.mutex == None && t !in v.threads
    ensures t in Run(w, es + fs).threads && Run(w, es + fs).threads[t].CloseReturned?
  {
    var first := CloseGetsOn(Run(w, es), t);
    RunOn(w, es, first);
    var rest := CloseCanReturn(w, es + first, t);
    fs := first + rest;
    assert es + fs == es + first + rest;
  }
}
