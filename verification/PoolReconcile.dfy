/**
 * The pool reconcile protocol of `blockchain/bl_pool.go` (`ReconcilePoolConfig`, `clearPoolConfig`,
 * `cleanLeaveJoinPool` and the marker files), as a machine of atomic steps.
 *
 * A pass advances one read, write or chain answer at a time. Between any two of its steps the environment may do
 * anything the other handlers can do: write any pool or chain name into the config (joins, cancels, leaves and pool
 * discovery), delete the membership marker, toggle the kill switch, let time pass, or kill the process. Passes do
 * not overlap each other. Every step of a pass appends one observation to `log`, so a claim about the log is a
 * claim about what the code read and wrote, in order.
 */
module PoolReconcile {
  import opened Wrappers
  import opened Durations
  import opened Hex
  import opened Text
  import opened ClusterStatus
  import PeerId
  import PoolLeave
  import Numerals

  /** What does not change during a run. */
  datatype Setup = Setup(poolHost: bool, clusterPeer: string, confirmDelay: nat)

  datatype World = World(
    now: int,                   // wall-clock nanoseconds
    disabled: bool,             // the kill-switch file exists
    pool: string,
    chain: string,
    confirmed: Option<string>,  // contents of the membership marker file
    clearedAt: Option<int>,     // the cleared-at marker, in whole seconds, if it can be read and parsed
    phase: Phase,
    log: seq<Obs>)

  /** Where the pass stands, with the pool and chain it first read. */
  datatype Phase =
    | Idle
    | ReadChain(pool: string)
    | At(pc: Pc, pool: string, chain: string)

  datatype Pc =
    | RateCheck | FirstCheck | RecordRead | RecordWrite | ConfirmRead | Wait(since: int) | SecondCheck
    | RereadPool | RereadChain | MarkClear
    | ClearPool(at: int) | ClearChain(at: int)
    | CleanPool(at: int) | CleanChain(at: int) | CleanMarker(at: int)
    | ReadBackPool(at: int) | Restart(at: int, back: string)

  datatype Obs =
    | Skipped | PoolRead(pool: string) | ChainRead(chain: string)
    | RateLimited | BadPool | RatePassed
    | Answered(chain: string, pool: string, status: Status)
    | RecordKept | RecordNeeded | Recorded | RecordFailed | RecordTorn(left: string)
    | NotConfirmed | ConfirmedRead(text: string)
    | Cancelled | Woke
    | MarkerWritten(at: int) | MarkerFailed
    | PoolWritten(ok: bool) | ChainWritten(ok: bool)
    | CleanedPool | CleanedChain | MarkerRemoved
    | ReadBack(pool: string)
    | RestartSignalled

  /**
   * What the outside decides about one step of a pass: the chain's answers, whether the write of this step succeeds,
   * what a failed marker write leaves behind (nothing changed, or only the first `torn` characters), and
   * cancellation.
   */
  datatype Input = Input(rpc: Rpc, ok: bool, torn: Option<nat>, cancelled: bool)

  datatype Event =
    | Advance(d: nat)
    | SetPool(pool: string)
    | SetChain(chain: string)
    | RemoveConfirmed
    | SetDisabled(disabled: bool)
    | Crash
    | Proceed(input: Input)

  function PoolKey(chain: string, pool: string): string { chain + ":" + pool }

  function PoolNumber(pool: string): Option<nat> { ParseDecimal(pool, UINT32) }

  /** The part of a file that a torn write leaves. */
  function Leftover(text: string, torn: nat): string { if torn <= |text| then text[..torn] else text }

  // ---------------------------------------------------------------------------------------------------------------
  // One step of a pass: the new world (its log not yet extended) and what was observed

  function Begin(s: Setup, w: World): (World, Obs) {
    if w.disabled || s.poolHost then (w, Skipped)
    else (w.(phase := ReadChain(w.pool)), PoolRead(w.pool))
  }

  function TakeChain(w: World, pool: string): (World, Obs) {
    if pool == "" || pool == "0" || w.chain == "" then (w.(phase := Idle), ChainRead(w.chain))
    else (w.(phase := At(RateCheck, pool, w.chain)), ChainRead(w.chain))
  }

  function CheckRate(w: World, pool: string, chain: string): (World, Obs) {
    if w.clearedAt.Some? && w.now - w.clearedAt.value * SECOND < DAY then (w.(phase := Idle), RateLimited)
    else if PoolNumber(pool).None? then (w.(phase := Idle), BadPool)
    else (w.(phase := At(FirstCheck, pool, chain)), RatePassed)
  }

  /** The answer the pass gets if it asks the chain now about the pool and chain it first read. */
  function Ask(s: Setup, phase: Phase, rpc: Rpc): Status {
    if !phase.At? || PoolNumber(phase.pool).None? then Failure
    else ClusterPeerPoolStatus(s.clusterPeer, PoolNumber(phase.pool).value, phase.chain, rpc)
  }

  function Check(w: World, pool: string, chain: string, status: Status, next: Pc): (World, Obs) {
    var phase :=
      if status.Failure? then Idle
      else if status.member then At(RecordRead, pool, chain)
      else if status.pending then Idle
      else At(next, pool, chain);
    (w.(phase := phase), Answered(chain, pool, status))
  }

  function CompareRecord(w: World, pool: string, chain: string): (World, Obs) {
    if w.confirmed.Some? && TrimSpace(w.confirmed.value) == PoolKey(chain, pool) then (w.(phase := Idle), RecordKept)
    else (w.(phase := At(RecordWrite, pool, chain)), RecordNeeded)
  }

  function WriteRecord(w: World, pool: string, chain: string, input: Input): (World, Obs) {
    var key := PoolKey(chain, pool);
    if input.ok then (w.(phase := Idle, confirmed := Some(key)), Recorded)
    else if input.torn.None? then (w.(phase := Idle), RecordFailed)
    else
      var left := Leftover(key, input.torn.value);
      (w.(phase := Idle, confirmed := Some(left)), RecordTorn(left))
  }

  function CheckConfirmed(w: World, pool: string, chain: string): (World, Obs) {
    if w.confirmed.Some? && TrimSpace(w.confirmed.value) == PoolKey(chain, pool)
    then (w.(phase := At(Wait(w.now), pool, chain)), ConfirmedRead(TrimSpace(w.confirmed.value)))
    else (w.(phase := Idle), NotConfirmed)
  }

  function WakeUp(w: World, pool: string, chain: string, cancelled: bool): (World, Obs) {
    if cancelled then (w.(phase := Idle), Cancelled) else (w.(phase := At(SecondCheck, pool, chain)), Woke)
  }

  function Reread(w: World, pool: string, chain: string): (World, Obs) {
    (w.(phase := if w.pool == pool then At(RereadChain, pool, chain) else Idle), PoolRead(w.pool))
  }

  function RereadTheChain(w: World, pool: string, chain: string): (World, Obs) {
    (w.(phase := if w.chain == chain then At(MarkClear, pool, chain) else Idle), ChainRead(w.chain))
  }

  function MarkCleared(w: World, pool: string, chain: string, input: Input): (World, Obs) {
    if input.ok
    then (w.(phase := At(ClearPool(w.now), pool, chain), clearedAt := Some(w.now / SECOND)), MarkerWritten(w.now))
    else (w.(phase := Idle, clearedAt := if input.torn.None? then w.clearedAt else None), MarkerFailed)
  }

  function Clear(w: World, pc: Pc, pool: string, chain: string, ok: bool): (World, Obs)
    requires pc.ClearPool? || pc.ClearChain? || pc.CleanPool? || pc.CleanChain? || pc.CleanMarker?
  {
    match pc
    case ClearPool(at) =>
      if ok then (w.(phase := At(ClearChain(at), pool, chain), pool := "0"), PoolWritten(true))
      else (w.(phase := Idle), PoolWritten(false))
    case ClearChain(at) =>
      if ok then (w.(phase := At(CleanPool(at), pool, chain), chain := ""), ChainWritten(true))
      else (w.(phase := Idle), ChainWritten(false))
    case CleanPool(at) =>
      (w.(phase := At(CleanChain(at), pool, chain), pool := if ok then "0" else w.pool), CleanedPool)
    case CleanChain(at) =>
      (w.(phase := At(CleanMarker(at), pool, chain), chain := if ok then "" else w.chain), CleanedChain)
    case CleanMarker(at) =>
      (w.(phase := At(ReadBackPool(at), pool, chain), confirmed := if ok then None else w.confirmed), MarkerRemoved)
  }

  function ReadBackThePool(w: World, pool: string, chain: string, at: int): (World, Obs) {
    (w.(phase := if w.pool == "" || w.pool == "0" then At(Restart(at, w.pool), pool, chain) else Idle),
     ReadBack(w.pool))
  }

  function Act(s: Setup, w: World, input: Input, answer: Status): (World, Obs) {
    match w.phase
    case Idle => Begin(s, w)
    case ReadChain(pool) => TakeChain(w, pool)
    case At(pc, pool, chain) =>
      match pc
      case RateCheck => CheckRate(w, pool, chain)
      case FirstCheck => Check(w, pool, chain, answer, ConfirmRead)
      case RecordRead => CompareRecord(w, pool, chain)
      case RecordWrite => WriteRecord(w, pool, chain, input)
      case ConfirmRead => CheckConfirmed(w, pool, chain)
      case Wait(_) => WakeUp(w, pool, chain, input.cancelled)
      case SecondCheck => Check(w, pool, chain, answer, RereadPool)
      case RereadPool => Reread(w, pool, chain)
      case RereadChain => RereadTheChain(w, pool, chain)
      case MarkClear => MarkCleared(w, pool, chain, input)
      case ReadBackPool(at) => ReadBackThePool(w, pool, chain, at)
      case Restart(_, _) => (w.(phase := Idle), RestartSignalled)
      case _ => Clear(w, pc, pool, chain, input.ok)
  }

  /** A waiting pass cannot go on before its delay is over, unless it is cancelled. */
  predicate Blocked(s: Setup, w: World, input: Input) {
    && w.phase.At? && w.phase.pc.Wait?
    && !input.cancelled && w.now < w.phase.pc.since + s.confirmDelay
  }

  function Observed(w: World, next: (World, Obs)): World { next.0.(log := w.log + [next.1]) }

  function Step(s: Setup, w: World, e: Event): World {
    match e
    case Advance(d) => w.(now := w.now + d)
    case SetPool(p) => w.(pool := p)
    case SetChain(c) => w.(chain := c)
    case RemoveConfirmed => w.(confirmed := None)
    case SetDisabled(b) => w.(disabled := b)
    case Crash => w.(phase := Idle)
    case Proceed(input) =>
      if Blocked(s, w, input) then w else Observed(w, Act(s, w, input, Ask(s, w.phase, input.rpc)))
  }

  function Run(s: Setup, w: World, es: seq<Event>): World {
    if es == [] then w else Step(s, Run(s, w, es[..|es| - 1]), es[|es| - 1])
  }

  /** Before the first pass of this firmware: no pass under way, no membership marker; all else arbitrary. */
  predicate Fresh(w: World) {
    w.phase == Idle && w.confirmed == None && w.log == []
  }

  // ---------------------------------------------------------------------------------------------------------------
  // What a pass has observed by the time it reaches each point

  /** The observations of a pass that clears `pool` on `chain`, from its start to the read-back. */
  function Expected(k: nat, pool: string, chain: string, at: int, back: string): Obs
    requires k < 16
  {
    if k == 0 then PoolRead(pool)
    else if k == 1 then ChainRead(chain)
    else if k == 2 then RatePassed
    else if k == 3 then Answered(chain, pool, NOT_LISTED)
    else if k == 4 then ConfirmedRead(PoolKey(chain, pool))
    else if k == 5 then Woke
    else if k == 6 then Answered(chain, pool, NOT_LISTED)
    else if k == 7 then PoolRead(pool)
    else if k == 8 then ChainRead(chain)
    else if k == 9 then MarkerWritten(at)
    else if k == 10 then PoolWritten(true)
    else if k == 11 then ChainWritten(true)
    else if k == 12 then CleanedPool
    else if k == 13 then CleanedChain
    else if k == 14 then MarkerRemoved
    else ReadBack(back)
  }

  /** How many of those observations have been made on arrival at each point. */
  function Stage(pc: Pc): nat {
    match pc
    case RateCheck => 2
    case FirstCheck => 3
    case RecordRead => 0
    case RecordWrite => 0
    case ConfirmRead => 4
    case Wait(_) => 5
    case SecondCheck => 6
    case RereadPool => 7
    case RereadChain => 8
    case MarkClear => 9
    case ClearPool(_) => 10
    case ClearChain(_) => 11
    case CleanPool(_) => 12
    case CleanChain(_) => 13
    case CleanMarker(_) => 14
    case ReadBackPool(_) => 15
    case Restart(_, _) => 16
  }

  function MarkTime(pc: Pc): int {
    match pc
    case ClearPool(at) => at
    case ClearChain(at) => at
    case CleanPool(at) => at
    case CleanChain(at) => at
    case CleanMarker(at) => at
    case ReadBackPool(at) => at
    case Restart(at, _) => at
    case _ => 0
  }

  function BackOf(pc: Pc): string {
    if pc.Restart? then pc.back else ""
  }

  /** The log ends with the first n expected observations. */
  predicate Trail(log: seq<Obs>, n: nat, pool: string, chain: string, at: int, back: string)
    requires n <= 16
  {
    n <= |log| && forall k :: 0 <= k < n ==> log[|log| - n + k] == Expected(k, pool, chain, at, back)
  }

  lemma TrailSnoc(log: seq<Obs>, n: nat, pool: string, chain: string, at: int, back: string, at': int, back': string)
    requires n < 16 && Trail(log, n, pool, chain, at, back)
    requires n > 9 ==> at' == at
    ensures Trail(log + [Expected(n, pool, chain, at', back')], n + 1, pool, chain, at', back')
  {
    var log' := log + [Expected(n, pool, chain, at', back')];
    forall k | 0 <= k < n + 1 ensures log'[|log'| - (n + 1) + k] == Expected(k, pool, chain, at', back') {
      if k < n {
        assert log[|log| - n + k] == Expected(k, pool, chain, at, back);
      }
    }
  }

  predicate PassInv(w: World) {
    match w.phase
    case Idle => true
    case ReadChain(pool) => Trail(w.log, 1, pool, "", 0, "")
    case At(pc, pool, chain) =>
      && Trail(w.log, Stage(pc), pool, chain, MarkTime(pc), BackOf(pc))
      && (pc.Restart? ==> pc.back == "" || pc.back == "0")
      && (!pc.RateCheck? ==> PoolNumber(pool).Some?)
      && (pc.RecordRead? ==> w.log != [] && w.log[|w.log| - 1] == Answered(chain, pool, MEMBER))
      && (pc.RecordWrite? ==> |w.log| >= 2 && w.log[|w.log| - 2] == Answered(chain, pool, MEMBER))
  }

  /** Every answer says "member" in one way only. */
  predicate Proper(answer: Status) {
    answer.Listed? && answer.member ==> answer == MEMBER
  }

  /** How a step can move a pass: end it, record a membership, or make one more expected observation. */
  predicate Progress(from: Phase, to: Phase, obs: Obs) {
    || to == Idle
    || (from == Idle && to.ReadChain? && obs == PoolRead(to.pool))
    || (from.ReadChain? && to.At? && to.pc == RateCheck && to.pool == from.pool && obs == ChainRead(to.chain))
    || (from.At? && to.At? && to.pool == from.pool && to.chain == from.chain && PcProgress(from, to, obs))
  }

  predicate PcProgress(from: Phase, to: Phase, obs: Obs)
    requires from.At? && to.At?
  {
    && (from.pc == RateCheck ==> PoolNumber(to.pool).Some?)
    && if to.pc == RecordRead then obs == Answered(to.chain, to.pool, MEMBER)
       else if to.pc == RecordWrite then from.pc == RecordRead
       else
         && Stage(from.pc) != 0
         && Stage(to.pc) == Stage(from.pc) + 1
         && (Stage(from.pc) > 9 ==> MarkTime(to.pc) == MarkTime(from.pc))
         && (to.pc.Restart? ==> to.pc.back == "" || to.pc.back == "0")
         && obs == Expected(Stage(from.pc), to.pool, to.chain, MarkTime(to.pc), BackOf(to.pc))
  }

  lemma ActProgresses(s: Setup, w: World, input: Input, answer: Status)
    requires Proper(answer)
    ensures var (w', obs) := Act(s, w, input, answer); Progress(w.phase, w'.phase, obs)
  {
    if w.phase.At? {
      var stage := Stage(w.phase.pc);
      if stage <= 3 {
        FirstAnswerProgresses(s, w, input, answer);
      } else if stage <= 6 {
        SecondAnswerProgresses(s, w, input, answer);
      } else if stage <= 9 {
        RereadProgresses(s, w, input, answer);
      } else if stage <= 12 {
        WritesProgress(s, w, input, answer);
      } else {
        CleanupProgresses(s, w, input, answer);
      }
    }
  }

  lemma FirstAnswerProgresses(s: Setup, w: World, input: Input, answer: Status)
    requires w.phase.At? && 0 <= Stage(w.phase.pc) <= 3 && Proper(answer)
    ensures var (w', obs) := Act(s, w, input, answer); Progress(w.phase, w'.phase, obs)
  {
  }

  lemma SecondAnswerProgresses(s: Setup, w: World, input: Input, answer: Status)
    requires w.phase.At? && 4 <= Stage(w.phase.pc) <= 6 && Proper(answer)
    ensures var (w', obs) := Act(s, w, input, answer); Progress(w.phase, w'.phase, obs)
  {
  }

  lemma RereadProgresses(s: Setup, w: World, input: Input, answer: Status)
    requires w.phase.At? && 7 <= Stage(w.phase.pc) <= 9 && Proper(answer)
    ensures var (w', obs) := Act(s, w, input, answer); Progress(w.phase, w'.phase, obs)
  {
  }

  lemma WritesProgress(s: Setup, w: World, input: Input, answer: Status)
    requires w.phase.At? && 10 <= Stage(w.phase.pc) <= 12 && Proper(answer)
    ensures var (w', obs) := Act(s, w, input, answer); Progress(w.phase, w'.phase, obs)
  {
  }

  lemma CleanupProgresses(s: Setup, w: World, input: Input, answer: Status)
    requires w.phase.At? && 13 <= Stage(w.phase.pc) <= 16 && Proper(answer)
    ensures var (w', obs) := Act(s, w, input, answer); Progress(w.phase, w'.phase, obs)
  {
  }

  lemma TrailProgress(w: World, w': World, obs: Obs)
    requires PassInv(w) && w.phase.At? && w'.phase.At? && Progress(w.phase, w'.phase, obs)
    requires w'.log == w.log + [obs] && Stage(w'.phase.pc) > 0
    ensures Trail(w'.log, Stage(w'.phase.pc), w'.phase.pool, w'.phase.chain, MarkTime(w'.phase.pc), BackOf(w'.phase.pc))
  {
    var At(pc, pool, chain) := w.phase;
    var pc' := w'.phase.pc;
    TrailSnoc(w.log, Stage(pc), pool, chain, MarkTime(pc), BackOf(pc), MarkTime(pc'), BackOf(pc'));
  }

  lemma ProgressKeepsPassInv(w: World, w': World, obs: Obs)
    requires PassInv(w) && Progress(w.phase, w'.phase, obs) && w'.log == w.log + [obs]
    ensures PassInv(w')
  {
    if w.phase.At? && w'.phase.At? {
      if Stage(w'.phase.pc) > 0 {
        TrailProgress(w, w', obs);
      }
    } else if w.phase.ReadChain? && w'.phase.At? {
      assert w.log[|w.log| - 1] == Expected(0, w.phase.pool, "", 0, "");
    }
  }

  // ---------------------------------------------------------------------------------------------------------------
  // What justifies each observation

  predicate IsMemberAnswer(obs: Obs) {
    obs.Answered? && obs.status == MEMBER
  }

  predicate IsMarkerWrite(obs: Obs) { obs.Recorded? || obs.RecordTorn? }

  /** What a marker write made of the given record. */
  function Left(obs: Obs, record: string): string
    requires IsMarkerWrite(obs)
  {
    if obs.RecordTorn? then obs.left else record
  }

  /** Observation m is the latest marker write, and it followed an answer "member". */
  predicate IsLastWrite(log: seq<Obs>, m: nat) {
    && 2 <= m < |log| && IsMarkerWrite(log[m]) && IsMemberAnswer(log[m - 2])
    && (forall k :: m < k < |log| ==> !IsMarkerWrite(log[k]))
  }

  /** The record that write m was to leave. */
  function RecordOf(log: seq<Obs>, m: nat): string
    requires IsLastWrite(log, m)
  {
    PoolKey(log[m - 2].chain, log[m - 2].pool)
  }

  /** The marker holds what its latest write left of the record of the pair answered "member" just before. */
  predicate Explains(log: seq<Obs>, m: nat, text: string) {
    && IsLastWrite(log, m)
    && text == Left(log[m], RecordOf(log, m)) && text <= RecordOf(log, m)
  }

  ghost predicate Evidence(log: seq<Obs>, text: string) {
    exists m: nat :: Explains(log, m, text)
  }

  /** Names that the chain was ever asked about successfully: a supported chain and a decimal pool id. */
  predicate GoodNames(chain: string, pool: string) {
    chain in SUPPORTED_CHAINS && PoolNumber(pool).Some?
  }

  ghost predicate Justified(prior: seq<Obs>, obs: Obs) {
    match obs
    case Answered(chain, pool, status) => status.Listed? ==> GoodNames(chain, pool)
    case ConfirmedRead(text) => Evidence(prior, text)
    case PoolWritten(_) => exists pool, chain, at :: Trail(prior, 10, pool, chain, at, "")
    case RestartSignalled =>
      exists pool, chain, at, back :: Trail(prior, 16, pool, chain, at, back) && (back == "" || back == "0")
    case _ => true
  }

  ghost predicate LogInv(log: seq<Obs>) {
    forall i :: 0 <= i < |log| ==> Justified(log[..i], log[i])
  }

  ghost predicate MarkerInv(w: World) {
    w.confirmed.Some? ==> Evidence(w.log, w.confirmed.value)
  }

  lemma LogInvSnoc(log: seq<Obs>, obs: Obs)
    requires LogInv(log) && Justified(log, obs)
    ensures LogInv(log + [obs])
  {
    var log' := log + [obs];
    forall i | 0 <= i < |log'| ensures Justified(log'[..i], log'[i]) {
      if i < |log| {
        assert log'[..i] == log[..i];
      } else {
        assert log'[..i] == log;
      }
    }
  }

  lemma EvidenceGrows(log: seq<Obs>, obs: Obs, text: string)
    requires Evidence(log, text) && !IsMarkerWrite(obs)
    ensures Evidence(log + [obs], text)
  {
    var m: nat :| Explains(log, m, text);
    assert Explains(log + [obs], m, text);
  }

  /** Key text of good names contains no white space, so neither does any prefix of it. */
  lemma KeyIsTrimmed(chain: string, pool: string, text: string)
    requires GoodNames(chain, pool) && text <= PoolKey(chain, pool)
    ensures TrimSpace(text) == text
  {
    var key := PoolKey(chain, pool);
    assert forall i :: 0 <= i < |key| ==> !IsSpace(key[i]) by {
      assert forall i :: 0 <= i < |pool| ==> IsDecimal(pool[i]);
      assert forall i :: 0 <= i < |chain| ==> 'a' <= chain[i] <= 'z';
    }
    assert forall i :: 0 <= i < |text| ==> text[i] == key[i];
    TrimKeeps(text);
  }

  /** `poolKey` is injective on colon-free chain names, also up to prefixes of the pool. */
  lemma KeyPrefix(chain: string, pool: string, chain': string, pool': string)
    requires ':' !in chain && ':' !in chain'
    ensures PoolKey(chain, pool) <= PoolKey(chain', pool') <==> chain == chain' && pool <= pool'
    ensures PoolKey(chain, pool) == PoolKey(chain', pool') <==> chain == chain' && pool == pool'
  {
    var k, k' := PoolKey(chain, pool), PoolKey(chain', pool');
    if k <= k' {
      SameChain(chain, pool, chain', pool');
      assert pool == k[|chain| + 1..] <= k'[|chain| + 1..] == pool';
    }
  }

  lemma SameChain(chain: string, pool: string, chain': string, pool': string)
    requires ':' !in chain && ':' !in chain' && PoolKey(chain, pool) <= PoolKey(chain', pool')
    ensures chain == chain'
  {
    var k, k' := PoolKey(chain, pool), PoolKey(chain', pool');
    assert k[|chain|] == ':' && k'[|chain'|] == ':';
    assert forall i :: 0 <= i < |k| ==> k[i] == k'[i];
    assert |chain| == |chain'|;
    assert chain == k[..|chain|] == k'[..|chain|] == chain';
  }

  lemma SupportedIsColonFree(chain: string)
    requires chain in SUPPORTED_CHAINS
    ensures ':' !in chain
  {
  }

  /** A marker write records the pair just answered "member". */
  lemma RecordHasEvidence(w: World, text: string, obs: Obs)
    requires PassInv(w) && w.phase.At? && w.phase.pc.RecordWrite? && IsMarkerWrite(obs)
    requires text == Left(obs, PoolKey(w.phase.chain, w.phase.pool)) && text <= PoolKey(w.phase.chain, w.phase.pool)
    ensures Evidence(w.log + [obs], text)
  {
    assert Explains(w.log + [obs], |w.log|, text);
  }

  /** Only the step that writes the record is a marker write, and only it sets the marker. */
  lemma RecordChanges(s: Setup, w: World, input: Input, answer: Status)
    ensures var (w', obs) := Act(s, w, input, answer);
            if IsMarkerWrite(obs) then
              && w.phase.At? && w.phase.pc.RecordWrite?
              && var key := PoolKey(w.phase.chain, w.phase.pool);
                 w'.confirmed == Some(Left(obs, key)) && Left(obs, key) <= key
            else w'.confirmed in {w.confirmed, None}
  {
  }

  lemma ActKeepsMarkerInv(s: Setup, w: World, input: Input, answer: Status)
    requires PassInv(w) && MarkerInv(w)
    ensures var (w', obs) := Act(s, w, input, answer); MarkerInv(w'.(log := w.log + [obs]))
  {
    var (w', obs) := Act(s, w, input, answer);
    RecordChanges(s, w, input, answer);
    if IsMarkerWrite(obs) {
      RecordHasEvidence(w, w'.confirmed.value, obs);
    } else if w'.confirmed.Some? {
      EvidenceGrows(w.log, obs, w.confirmed.value);
    }
  }

  lemma ConfirmedReadJustified(w: World, pool: string, chain: string)
    requires LogInv(w.log) && MarkerInv(w)
    ensures Justified(w.log, CheckConfirmed(w, pool, chain).1)
  {
    if w.confirmed.Some? {
      var text := w.confirmed.value;
      var m: nat :| Explains(w.log, m, text);
      assert Justified(w.log[..m - 2], w.log[m - 2]);
      KeyIsTrimmed(w.log[m - 2].chain, w.log[m - 2].pool, text);
    }
  }

  lemma ActJustified(s: Setup, w: World, input: Input, answer: Status)
    requires PassInv(w) && LogInv(w.log) && MarkerInv(w)
    requires answer.Listed? ==> w.phase.At? && GoodNames(w.phase.chain, w.phase.pool)
    ensures Justified(w.log, Act(s, w, input, answer).1)
  {
    if w.phase.At? {
      var At(pc, pool, chain) := w.phase;
      if pc.ConfirmRead? {
        ConfirmedReadJustified(w, pool, chain);
      } else if pc.ClearPool? {
        assert Trail(w.log, 10, pool, chain, pc.at, "");
      } else if pc.Restart? {
        assert Trail(w.log, 16, pool, chain, pc.at, pc.back);
      }
    }
  }

  // ---------------------------------------------------------------------------------------------------------------
  // The rate limit

  /** Every clear attempt so far was marked before `bound`. */
  predicate MarkedBefore(log: seq<Obs>, bound: int) {
    forall i :: 0 <= i < |log| && log[i].MarkerWritten? ==> log[i].at < bound
  }

  /** The marker keeps whole seconds only, so up to a second of each interval is lost and the delay is gained. */
  function MinGap(s: Setup): int { DAY - SECOND + s.confirmDelay }

  predicate GapsHold(s: Setup, log: seq<Obs>) {
    forall i, j :: 0 <= i < j < |log| && log[i].MarkerWritten? && log[j].MarkerWritten? ==>
      log[j].at - log[i].at > MinGap(s)
  }

  /** Either the last attempt is a day old, or the marker still tells. */
  predicate MarkerTells(w: World) {
    forall i :: 0 <= i < |w.log| && w.log[i].MarkerWritten? ==>
      || w.log[i].at < w.now - DAY + SECOND
      || (w.clearedAt.Some? && w.log[i].at < (w.clearedAt.value + 1) * SECOND)
  }

  /** How far in the past the last attempt is known to be at each point of a pass, if the limit was checked. */
  function RateBound(s: Setup, phase: Phase, now: int): Option<int> {
    if !phase.At? then None
    else
      match phase.pc
      case FirstCheck => Some(now - DAY + SECOND)
      case ConfirmRead => Some(now - DAY + SECOND)
      case Wait(since) => Some(since - DAY + SECOND)
      case SecondCheck => Some(now - MinGap(s))
      case RereadPool => Some(now - MinGap(s))
      case RereadChain => Some(now - MinGap(s))
      case MarkClear => Some(now - MinGap(s))
      case _ => None
  }

  predicate PassedRate(s: Setup, w: World) {
    var bound := RateBound(s, w.phase, w.now);
    && (bound.Some? ==> MarkedBefore(w.log, bound.value))
    && (w.phase.At? && w.phase.pc.Wait? ==> w.phase.pc.since <= w.now)
  }

  predicate RateInv(s: Setup, w: World) {
    MarkedBefore(w.log, w.now + 1) && GapsHold(s, w.log) && MarkerTells(w) && PassedRate(s, w)
  }

  lemma MarkedBeforeSnoc(log: seq<Obs>, obs: Obs, bound: int)
    requires MarkedBefore(log, bound) && (obs.MarkerWritten? ==> obs.at < bound)
    ensures MarkedBefore(log + [obs], bound)
  {
  }

  lemma GapsSnoc(s: Setup, log: seq<Obs>, obs: Obs)
    requires GapsHold(s, log) && (obs.MarkerWritten? ==> MarkedBefore(log, obs.at - MinGap(s)))
    ensures GapsHold(s, log + [obs])
  {
  }

  /** The rate limit lets a pass on only if the last attempt is a day old, less the truncated second. */
  lemma RateCheckIsSound(w: World, pool: string, chain: string)
    requires MarkerTells(w) && CheckRate(w, pool, chain).1 == RatePassed
    ensures MarkedBefore(w.log, w.now - DAY + SECOND)
  {
  }

  /** The same, over the points of a pass where nothing is marked. */
  lemma QuietStepKeepsRate(s: Setup, w: World, w': World, obs: Obs)
    requires RateInv(s, w) && !obs.MarkerWritten?
    requires w'.log == w.log + [obs] && w'.now == w.now
    requires w'.clearedAt == w.clearedAt || MarkedBefore(w.log, w.now - DAY + SECOND)
    requires PassedRate(s, w'.(log := w.log))
    ensures RateInv(s, w')
  {
    GapsSnoc(s, w.log, obs);
    assert forall i :: 0 <= i < |w'.log| && w'.log[i].MarkerWritten? ==> i < |w.log| && w'.log[i] == w.log[i];
  }

  /** The bound only moves up along a pass; it is established by the rate check. */
  lemma BoundMoves(s: Setup, w: World, input: Input, answer: Status)
    requires !Blocked(s, w, input)
    ensures BoundMoved(s, w, Act(s, w, input, answer).0.phase, Act(s, w, input, answer).1)
  {
    if w.phase.At? && Stage(w.phase.pc) >= 5 {
      LateBoundMoves(s, w, input, answer);
    }
  }

  predicate BoundMoved(s: Setup, w: World, to: Phase, obs: Obs) {
    var b, b' := RateBound(s, w.phase, w.now), RateBound(s, to, w.now);
    || b'.None?
    || (b.Some? && b.value <= b'.value)
    || (w.phase.At? && w.phase.pc.RateCheck? && obs == RatePassed && b' == Some(w.now - DAY + SECOND))
  }

  lemma LateBoundMoves(s: Setup, w: World, input: Input, answer: Status)
    requires !Blocked(s, w, input) && w.phase.At? && Stage(w.phase.pc) >= 5
    ensures BoundMoved(s, w, Act(s, w, input, answer).0.phase, Act(s, w, input, answer).1)
  {
  }

  predicate Changed(w: World, w': World, obs: Obs) {
    && w'.now == w.now
    && (w'.phase.At? && w'.phase.pc.Wait? ==> w'.phase.pc.since == w.now)
    && (w'.clearedAt != w.clearedAt ==> w.phase.At? && w.phase.pc.MarkClear?)
    && (obs.MarkerWritten? ==>
          && w.phase.At? && w.phase.pc.MarkClear?
          && obs.at == w.now && w'.clearedAt == Some(w.now / SECOND) && w'.phase.At? && w'.phase.pc.ClearPool?)
  }

  lemma ClearChanges(s: Setup, w: World, input: Input, answer: Status)
    requires w.phase.At? && Stage(w.phase.pc) >= 10
    ensures var (w', obs) := Act(s, w, input, answer); Changed(w, w', obs)
  {
  }

  lemma RecordingChanges(s: Setup, w: World, input: Input, answer: Status)
    requires w.phase.At? && Stage(w.phase.pc) <= 4
    ensures var (w', obs) := Act(s, w, input, answer); Changed(w, w', obs)
  {
  }

  lemma ActChanges(s: Setup, w: World, input: Input, answer: Status)
    ensures var (w', obs) := Act(s, w, input, answer); Changed(w, w', obs)
  {
    if w.phase.At? && Stage(w.phase.pc) >= 10 {
      ClearChanges(s, w, input, answer);
    } else if w.phase.At? && Stage(w.phase.pc) <= 4 {
      RecordingChanges(s, w, input, answer);
    }
  }

  lemma MarkStepKeepsRate(s: Setup, w: World, w': World, obs: Obs)
    requires RateInv(s, w) && w.phase.At? && w.phase.pc.MarkClear?
    requires obs == MarkerWritten(w.now) && w'.log == w.log + [obs] && w'.now == w.now
    requires w'.clearedAt == Some(w.now / SECOND) && w'.phase.At? && w'.phase.pc.ClearPool?
    ensures RateInv(s, w')
  {
    GapsSnoc(s, w.log, obs);
    MarkedBeforeSnoc(w.log, obs, w.now + 1);
  }

  lemma ActKeepsRateInv(s: Setup, w: World, input: Input, answer: Status)
    requires RateInv(s, w) && !Blocked(s, w, input)
    ensures var (w', obs) := Act(s, w, input, answer); RateInv(s, w'.(log := w.log + [obs]))
  {
    var (w', obs) := Act(s, w, input, answer);
    ActChanges(s, w, input, answer);
    if obs.MarkerWritten? {
      MarkStepKeepsRate(s, w, w'.(log := w.log + [obs]), obs);
    } else {
      BoundMoves(s, w, input, answer);
      if w.phase.At? && w.phase.pc.RateCheck? && obs == RatePassed {
        RateCheckIsSound(w, w.phase.pool, w.phase.chain);
      }
      QuietStepKeepsRate(s, w, w'.(log := w.log + [obs]), obs);
    }
  }

  // ---------------------------------------------------------------------------------------------------------------
  // Whole runs

  ghost predicate Inv(s: Setup, w: World) {
    PassInv(w) && LogInv(w.log) && MarkerInv(w) && RateInv(s, w)
  }

  lemma AskFacts(s: Setup, phase: Phase, rpc: Rpc)
    ensures Proper(Ask(s, phase, rpc))
    ensures Ask(s, phase, rpc).Listed? ==> phase.At? && GoodNames(phase.chain, phase.pool)
  {
    if phase.At? && phase.chain !in SUPPORTED_CHAINS && PoolNumber(phase.pool).Some? {
      UnsupportedChainFails(s.clusterPeer, PoolNumber(phase.pool).value, phase.chain, rpc);
    }
  }

  lemma ProceedKeepsInv(s: Setup, w: World, input: Input)
    requires Inv(s, w)
    ensures Inv(s, Step(s, w, Proceed(input)))
  {
    if !Blocked(s, w, input) {
      var answer := Ask(s, w.phase, input.rpc);
      AskFacts(s, w.phase, input.rpc);
      var (w', obs) := Act(s, w, input, answer);
      ActProgresses(s, w, input, answer);
      ProgressKeepsPassInv(w, w'.(log := w.log + [obs]), obs);
      ActJustified(s, w, input, answer);
      LogInvSnoc(w.log, obs);
      ActKeepsMarkerInv(s, w, input, answer);
      ActKeepsRateInv(s, w, input, answer);
    }
  }

  lemma TimeKeepsRate(s: Setup, w: World, d: nat)
    requires RateInv(s, w)
    ensures RateInv(s, w.(now := w.now + d))
  {
  }

  lemma SamePass(w: World, w': World)
    requires PassInv(w) && w'.log == w.log && (w'.phase == w.phase || w'.phase == Idle)
    ensures PassInv(w')
  {
  }

  lemma SameRate(s: Setup, w: World, w': World)
    requires RateInv(s, w) && w'.log == w.log && (w'.phase == w.phase || w'.phase == Idle)
    requires w'.now == w.now && w'.clearedAt == w.clearedAt
    ensures RateInv(s, w')
  {
  }

  lemma EnvironmentKeepsInv(s: Setup, w: World, e: Event)
    requires Inv(s, w) && !e.Proceed?
    ensures Inv(s, Step(s, w, e))
  {
    var w' := Step(s, w, e);
    assert w'.log == w.log && (w'.phase == w.phase || w'.phase == Idle);
    SamePass(w, w');
    if e.Advance? {
      TimeKeepsRate(s, w, e.d);
    } else {
      SameRate(s, w, w');
    }
  }

  lemma {:induction false} RunKeepsInv(s: Setup, w: World, es: seq<Event>)
    requires Fresh(w)
    ensures Inv(s, Run(s, w, es))
  {
    if es != [] {
      var front, e := es[..|es| - 1], es[|es| - 1];
      RunKeepsInv(s, w, front);
      if e.Proceed? {
        ProceedKeepsInv(s, Run(s, w, front), e.input);
      } else {
        EnvironmentKeepsInv(s, Run(s, w, front), e);
      }
    }
  }

  /** The ten observations that must precede a clear of `pool` on `chain` marked at time `at`. */
  function ClearingTrail(pool: string, chain: string, at: int): seq<Obs> {
    [PoolRead(pool), ChainRead(chain), RatePassed,
     Answered(chain, pool, NOT_LISTED), ConfirmedRead(PoolKey(chain, pool)),
     Woke, Answered(chain, pool, NOT_LISTED), PoolRead(pool), ChainRead(chain), MarkerWritten(at)]
  }

  /** And the six more that must precede a restart. */
  function RestartTrail(back: string): seq<Obs> {
    [PoolWritten(true), ChainWritten(true), CleanedPool, CleanedChain, MarkerRemoved, ReadBack(back)]
  }

  lemma TrailAsText(log: seq<Obs>, n: nat, pool: string, chain: string, at: int, back: string)
    requires n in {10, 16} && Trail(log, n, pool, chain, at, back)
    ensures n == 10 ==> log[|log| - 10..] == ClearingTrail(pool, chain, at)
    ensures n == 16 ==> log[|log| - 16..|log| - 6] == ClearingTrail(pool, chain, at)
    ensures n == 16 ==> log[|log| - 6..] == RestartTrail(back)
  {
    var d := |log| - n;
    assert forall k :: 0 <= k < n ==> log[d + k] == Expected(k, pool, chain, at, back);
    forall k | 0 <= k < 10 ensures log[d + k] == ClearingTrail(pool, chain, at)[k] {
      assert log[d + k] == Expected(k, pool, chain, at, back);
    }
    if n == 16 {
      forall k | 0 <= k < 6 ensures log[d + 10 + k] == RestartTrail(back)[k] {
        assert log[d + (10 + k)] == Expected(10 + k, pool, chain, at, back);
      }
    }
  }

  /**
   * A pass touches the config only at the end of one full, uninterrupted sequence of its own observations: both
   * names read, the rate limit passed, two error-free "not listed" answers for exactly those names, the marker
   * naming exactly that pair in between, the names read again unchanged, and the attempt recorded.
   */
  lemma ClearIsDoubleChecked(s: Setup, w: World, es: seq<Event>, i: nat)
    requires Fresh(w) && i < |Run(s, w, es).log| && Run(s, w, es).log[i].PoolWritten?
    ensures exists pool, chain, at ::
              i >= 10 && Run(s, w, es).log[i - 10..i] == ClearingTrail(pool, chain, at)
  {
    RunKeepsInv(s, w, es);
    var log := Run(s, w, es).log;
    assert Justified(log[..i], log[i]);
    var pool, chain, at :| Trail(log[..i], 10, pool, chain, at, "");
    TrailAsText(log[..i], 10, pool, chain, at, "");
    assert log[i - 10..i] == log[..i][i - 10..];
  }

  /** Write m left the whole record of (chain, pool). */
  predicate WroteWhole(obs: Obs, chain: string, pool: string) {
    IsMarkerWrite(obs) && Left(obs, PoolKey(chain, pool)) == PoolKey(chain, pool)
  }

  /**
   * In every interleaving, a pass clears a pair only after some earlier answer "member", and it is known which: the
   * one behind the latest marker write before the pass read the marker. That answer was for the same chain and for a
   * pool that the cleared one is a prefix of; it was for the very same pool exactly if that write left the whole
   * record.
   */
  lemma ClearsOnlyConfirmed(s: Setup, w: World, es: seq<Event>, i: nat, pool: string, chain: string, at: int)
    returns (m: nat)
    requires Fresh(w) && 10 <= i <= |Run(s, w, es).log|
    requires Run(s, w, es).log[i - 10..i] == ClearingTrail(pool, chain, at)
    ensures var log := Run(s, w, es).log;
            && IsLastWrite(log[..i - 6], m)
            && log[m - 2].chain == chain && pool <= log[m - 2].pool
            && (pool == log[m - 2].pool <==> WroteWhole(log[m], chain, log[m - 2].pool))
  {
    RunKeepsInv(s, w, es);
    var log := Run(s, w, es).log;
    var r := i - 6;
    assert log[r] == log[i - 10..i][4] == ConfirmedRead(PoolKey(chain, pool));
    assert log[r - 1] == log[i - 10..i][3] == Answered(chain, pool, NOT_LISTED);
    m := FindWrite(log, r, pool, chain);
  }

  /** The marker write behind a marker that was read as naming (chain, pool). */
  lemma FindWrite(log: seq<Obs>, r: nat, pool: string, chain: string) returns (m: nat)
    requires LogInv(log) && 1 <= r < |log|
    requires log[r] == ConfirmedRead(PoolKey(chain, pool)) && log[r - 1] == Answered(chain, pool, NOT_LISTED)
    ensures IsLastWrite(log[..r], m) && log[m - 2].chain == chain && pool <= log[m - 2].pool
    ensures pool == log[m - 2].pool <==> WroteWhole(log[m], chain, log[m - 2].pool)
  {
    assert Justified(log[..r], log[r]) && Justified(log[..r - 1], log[r - 1]);
    m :| Explains(log[..r], m, PoolKey(chain, pool));
    assert log[..r][m] == log[m] && log[..r][m - 2] == log[m - 2];
    assert Justified(log[..m - 2], log[m - 2]);
    SupportedIsColonFree(chain);
    SupportedIsColonFree(log[m - 2].chain);
    KeyPrefix(chain, pool, log[m - 2].chain, log[m - 2].pool);
  }

  // ---------------------------------------------------------------------------------------------------------------
  // Why the pair is only known up to a prefix of the pool id

  lemma {:induction false} RunOn(s: Setup, w: World, es: seq<Event>, fs: seq<Event>)
    ensures Run(s, w, es + fs) == Run(s, Run(s, w, es), fs)
  {
    if fs == [] {
      assert es + fs == es;
    } else {
      var n := |fs| - 1;
      RunOn(s, w, es, fs[..n]);
      assert (es + fs)[..|es + fs| - 1] == es + fs[..n];
    }
  }

  lemma RunMore(s: Setup, w: World, es: seq<Event>, e: Event)
    ensures Run(s, w, es + [e]) == Step(s, Run(s, w, es), e)
  {
    assert (es + [e])[..|es|] == es;
  }

  lemma RunTo(s: Setup, w: World, es: seq<Event>, v: World, e: Event, v': World) returns (all: seq<Event>)
    requires Run(s, w, es) == v && Step(s, v, e) == v'
    ensures all == es + [e] && Run(s, w, all) == v'
  {
    RunMore(s, w, es, e);
    all := es + [e];
  }

  /** The pass is answered by one of two chains throughout. */
  ghost predicate AnsweredBy(es: seq<Event>, rpc: Rpc, rpc': Rpc) {
    forall i :: 0 <= i < |es| && es[i].Proceed? ==> es[i].input.rpc == rpc || es[i].input.rpc == rpc'
  }

  predicate Asks(phase: Phase) { phase.At? && (phase.pc.FirstCheck? || phase.pc.SecondCheck?) }

  /** What the chain says about a pool and a chain. */
  ghost predicate Says(s: Setup, pool: string, chain: string, rpc: Rpc, answer: Status) {
    forall phase: Phase :: phase.At? && phase.pool == pool && phase.chain == chain ==> Ask(s, phase, rpc) == answer
  }

  /** A chain that can be reached says what its contract holds. */
  lemma ChainSays(s: Setup, pool: string, chain: string, rpc: Rpc, c: Contract, key: PeerId.Key)
    requires ValidContract(c) && GoodNames(chain, pool) && Truthful(rpc, chain, c) && Reliable(rpc, chain, c)
    requires s.clusterPeer == PeerId.IdOf(key)
    ensures Says(s, pool, chain, rpc, Truth(c, PoolNumber(pool).value, key))
  {
    StatusIsContractState(c, PoolNumber(pool).value, key, chain, rpc);
  }

  /**
   * A pass on (pool, chain) takes n steps with the same input and the same answer to each question. (The second
   * component of `decreases` only keeps the verifier from unrolling the function at literal n.)
   */
  function Play(s: Setup, w: World, input: Input, answer: Status, n: nat): World
    decreases n, s
  {
    if n == 0 then w
    else
      var v := Play(s, w, input, answer, n - 1);
      Observed(v, Act(s, v, input, answer))
  }

  predicate Follows(s: Setup, w: World, input: Input, pool: string, chain: string) {
    !Blocked(s, w, input) && (Asks(w.phase) ==> w.phase.pool == pool && w.phase.chain == chain)
  }

  lemma AskSays(s: Setup, phase: Phase, rpc: Rpc, answer: Status)
    requires phase.At? && Says(s, phase.pool, phase.chain, rpc, answer)
    ensures Ask(s, phase, rpc) == answer
  {
  }

  lemma AnswerIgnored(s: Setup, w: World, input: Input, answer: Status, other: Status)
    requires !Asks(w.phase)
    ensures Act(s, w, input, answer) == Act(s, w, input, other)
  {
  }

  lemma StepWith(s: Setup, w: World, input: Input)
    requires !Blocked(s, w, input)
    ensures Step(s, w, Proceed(input)) == Observed(w, Act(s, w, input, Ask(s, w.phase, input.rpc)))
  {
  }

  lemma StepFollows(s: Setup, w: World, input: Input, answer: Status, pool: string, chain: string)
    requires Says(s, pool, chain, input.rpc, answer) && Follows(s, w, input, pool, chain)
    ensures Step(s, w, Proceed(input)) == Observed(w, Act(s, w, input, answer))
  {
    var asked := Ask(s, w.phase, input.rpc);
    StepWith(s, w, input);
    if Asks(w.phase) {
      AskSays(s, w.phase, input.rpc, answer);
    } else {
      AnswerIgnored(s, w, input, answer, asked);
    }
  }

  /** All n steps are free to go ahead and ask only about (pool, chain). */
  ghost predicate Playable(s: Setup, w: World, input: Input, answer: Status, n: nat, pool: string, chain: string) {
    forall k: nat :: k < n ==> Follows(s, Play(s, w, input, answer, k), input, pool, chain)
  }

  lemma {:induction false} PlayIsRun(
      s: Setup, w: World, input: Input, answer: Status, n: nat, pool: string, chain: string)
    returns (es: seq<Event>)
    requires Says(s, pool, chain, input.rpc, answer) && Playable(s, w, input, answer, n, pool, chain)
    ensures Run(s, w, es) == Play(s, w, input, answer, n) && AnsweredBy(es, input.rpc, input.rpc)
  {
    if n == 0 {
      es := [];
    } else {
      es := PlayIsRun(s, w, input, answer, n - 1, pool, chain);
      var v := Play(s, w, input, answer, n - 1);
      StepFollows(s, v, input, answer, pool, chain);
      es := RunTo(s, w, es, v, Proceed(input), Play(s, w, input, answer, n));
    }
  }

  /** A pass that is about to ask the chain: it could read both names and is not rate limited. */
  predicate Eligible(s: Setup, w: World) {
    && w.phase == Idle && !w.disabled && !s.poolHost
    && (w.clearedAt.Some? ==> w.now - w.clearedAt.value * SECOND >= DAY)
    && !(w.pool == "" || w.pool == "0") && w.chain != "" && PoolNumber(w.pool).Some?
  }

  lemma PlayToCheck(s: Setup, w: World, input: Input, answer: Status)
    requires Eligible(s, w)
    ensures Play(s, w, input, answer, 1) == w.(phase := ReadChain(w.pool), log := w.log + [PoolRead(w.pool)])
    ensures Play(s, w, input, answer, 2)
         == w.(phase := At(RateCheck, w.pool, w.chain), log := w.log + [PoolRead(w.pool), ChainRead(w.chain)])
    ensures Play(s, w, input, answer, 3)
         == w.(phase := At(FirstCheck, w.pool, w.chain),
               log := w.log + [PoolRead(w.pool), ChainRead(w.chain), RatePassed])
    ensures Play(s, w, input, answer, 0) == w
  {
    var log1 := w.log + [PoolRead(w.pool)];
    assert Play(s, w, input, answer, 1) == w.(phase := ReadChain(w.pool), log := log1);
    assert Play(s, w, input, answer, 2)
        == w.(phase := At(RateCheck, w.pool, w.chain), log := log1 + [ChainRead(w.chain)]);
  }

  function TornTrail(pool: string, chain: string, left: string): seq<Obs> {
    [PoolRead(pool), ChainRead(chain), RatePassed, Answered(chain, pool, MEMBER), RecordNeeded, RecordTorn(left)]
  }

  /** The world after a pass that started in `w` and left the first `torn` characters of its record. */
  function Torn(w: World, torn: nat): World {
    var left := Leftover(PoolKey(w.chain, w.pool), torn);
    w.(confirmed := Some(left), log := w.log + TornTrail(w.pool, w.chain, left))
  }

  lemma PlayTornSteps(s: Setup, w: World, input: Input, torn: nat)
    requires Eligible(s, w) && w.confirmed == None && !input.ok && input.torn == Some(torn)
    ensures Play(s, w, input, MEMBER, 4).phase == At(RecordRead, w.pool, w.chain)
    ensures Play(s, w, input, MEMBER, 5).phase == At(RecordWrite, w.pool, w.chain)
    ensures Play(s, w, input, MEMBER, 6)
         == Torn(w, torn)
  {
    PlayToCheck(s, w, input, MEMBER);
    var v3 := Play(s, w, input, MEMBER, 3);
    var v4 := v3.(phase := At(RecordRead, w.pool, w.chain), log := v3.log + [Answered(w.chain, w.pool, MEMBER)]);
    assert Play(s, w, input, MEMBER, 4) == v4;
    assert Play(s, w, input, MEMBER, 5)
        == v4.(phase := At(RecordWrite, w.pool, w.chain), log := v4.log + [RecordNeeded]);
  }

  lemma PlayTorn(s: Setup, w: World, input: Input, torn: nat)
    requires Eligible(s, w) && w.confirmed == None && !input.ok && input.torn == Some(torn)
    ensures Playable(s, w, input, MEMBER, 6, w.pool, w.chain)
  {
    PlayToCheck(s, w, input, MEMBER);
    PlayTornSteps(s, w, input, torn);
    forall k: nat | k < 6 ensures Follows(s, Play(s, w, input, MEMBER, k), input, w.pool, w.chain) {
      assert k in {0, 1, 2, 3, 4, 5};
    }
  }

  /** A pass that is told "member" and whose record is cut short. */
  lemma TearRecord(s: Setup, w: World, rpc: Rpc, torn: nat) returns (es: seq<Event>)
    requires Eligible(s, w) && w.confirmed == None && Says(s, w.pool, w.chain, rpc, MEMBER)
    ensures Run(s, w, es) == Torn(w, torn) && AnsweredBy(es, rpc, rpc)
  {
    var input := Input(rpc, false, Some(torn), false);
    PlayTorn(s, w, input, torn);
    PlayTornSteps(s, w, input, torn);
    es := PlayIsRun(s, w, input, MEMBER, 6, w.pool, w.chain);
  }

  lemma PlayToWaitSteps(s: Setup, w: World, input: Input)
    requires Eligible(s, w) && w.confirmed == Some(PoolKey(w.chain, w.pool)) && w.chain in SUPPORTED_CHAINS
    ensures Play(s, w, input, NOT_LISTED, 4).phase == At(ConfirmRead, w.pool, w.chain)
    ensures Play(s, w, input, NOT_LISTED, 5) == w.(phase := At(Wait(w.now), w.pool, w.chain),
                                                   log := w.log + ClearingTrail(w.pool, w.chain, 0)[..5])
  {
    KeyIsTrimmed(w.chain, w.pool, PoolKey(w.chain, w.pool));
    PlayToCheck(s, w, input, NOT_LISTED);
    var v3 := Play(s, w, input, NOT_LISTED, 3);
    assert Play(s, w, input, NOT_LISTED, 4)
        == v3.(phase := At(ConfirmRead, w.pool, w.chain), log := v3.log + [Answered(w.chain, w.pool, NOT_LISTED)]);
  }

  lemma PlayToWait(s: Setup, w: World, input: Input)
    requires Eligible(s, w) && w.confirmed == Some(PoolKey(w.chain, w.pool)) && w.chain in SUPPORTED_CHAINS
    ensures Playable(s, w, input, NOT_LISTED, 5, w.pool, w.chain)
  {
    PlayToCheck(s, w, input, NOT_LISTED);
    PlayToWaitSteps(s, w, input);
    forall k: nat | k < 5 ensures Follows(s, Play(s, w, input, NOT_LISTED, k), input, w.pool, w.chain) {
      assert k in {0, 1, 2, 3, 4};
    }
  }

  /** The first half of a pass that is told "not listed" and finds the marker naming its pair. */
  lemma UpToWait(s: Setup, w: World, rpc: Rpc) returns (es: seq<Event>)
    requires Eligible(s, w) && w.confirmed == Some(PoolKey(w.chain, w.pool)) && w.chain in SUPPORTED_CHAINS
    requires Says(s, w.pool, w.chain, rpc, NOT_LISTED)
    ensures Run(s, w, es) == w.(phase := At(Wait(w.now), w.pool, w.chain),
                                log := w.log + ClearingTrail(w.pool, w.chain, 0)[..5])
    ensures AnsweredBy(es, rpc, rpc)
  {
    var input := Input(rpc, true, None, false);
    PlayToWait(s, w, input);
    PlayToWaitSteps(s, w, input);
    es := PlayIsRun(s, w, input, NOT_LISTED, 5, w.pool, w.chain);
  }

  lemma PlayToRereadSteps(s: Setup, w: World, input: Input)
    requires w.phase.At? && w.phase.pc.Wait? && w.phase.pool == w.pool && w.phase.chain == w.chain && !input.cancelled
    ensures Play(s, w, input, NOT_LISTED, 0) == w
    ensures Play(s, w, input, NOT_LISTED, 1).phase == At(SecondCheck, w.pool, w.chain)
    ensures Play(s, w, input, NOT_LISTED, 2) == w.(phase := At(RereadPool, w.pool, w.chain),
                                                   log := w.log + [Woke, Answered(w.chain, w.pool, NOT_LISTED)])
  {
    assert Play(s, w, input, NOT_LISTED, 1)
        == w.(phase := At(SecondCheck, w.pool, w.chain), log := w.log + [Woke]);
  }

  lemma PlayToClearSteps(s: Setup, w: World, input: Input)
    requires w.phase.At? && w.phase.pc.Wait? && w.phase.pool == w.pool && w.phase.chain == w.chain && !input.cancelled
    requires input.ok
    ensures Play(s, w, input, NOT_LISTED, 3).phase == At(RereadChain, w.pool, w.chain)
    ensures Play(s, w, input, NOT_LISTED, 4).phase == At(MarkClear, w.pool, w.chain)
    ensures Play(s, w, input, NOT_LISTED, 5)
         == w.(phase := At(ClearPool(w.now), w.pool, w.chain), clearedAt := Some(w.now / SECOND),
               log := w.log + ClearingTrail(w.pool, w.chain, w.now)[5..])
  {
    PlayToRereadSteps(s, w, input);
    var v2 := Play(s, w, input, NOT_LISTED, 2);
    var v3 := v2.(phase := At(RereadChain, w.pool, w.chain), log := v2.log + [PoolRead(w.pool)]);
    assert Play(s, w, input, NOT_LISTED, 3) == v3;
    assert Play(s, w, input, NOT_LISTED, 4)
        == v3.(phase := At(MarkClear, w.pool, w.chain), log := v3.log + [ChainRead(w.chain)]);
  }

  lemma PlayToClear(s: Setup, w: World, input: Input)
    requires w.phase == At(Wait(w.now - s.confirmDelay), w.pool, w.chain) && input.ok && !input.cancelled
    ensures Playable(s, w, input, NOT_LISTED, 5, w.pool, w.chain)
  {
    PlayToRereadSteps(s, w, input);
    PlayToClearSteps(s, w, input);
    forall k: nat | k < 5 ensures Follows(s, Play(s, w, input, NOT_LISTED, k), input, w.pool, w.chain) {
      assert k in {0, 1, 2, 3, 4};
    }
  }

  /** The world after the wait of a pass that started in `w`. */
  predicate Woken(s: Setup, w: World, later: World) {
    later == w.(phase := At(Wait(w.now), w.pool, w.chain), now := w.now + s.confirmDelay,
                log := w.log + ClearingTrail(w.pool, w.chain, 0)[..5])
  }

  /** The world after the attempt of that pass is recorded. */
  function Marked(s: Setup, w: World): World {
    var at := w.now + s.confirmDelay;
    w.(phase := At(ClearPool(at), w.pool, w.chain), now := at, clearedAt := Some(at / SECOND),
       log := w.log + ClearingTrail(w.pool, w.chain, at))
  }

  lemma PlayFromWake(s: Setup, w: World, later: World, input: Input)
    requires Woken(s, w, later) && input.ok && !input.cancelled
    ensures Playable(s, later, input, NOT_LISTED, 5, w.pool, w.chain)
    ensures Play(s, later, input, NOT_LISTED, 5) == Marked(s, w)
  {
    PlayToClear(s, later, input);
    PlayToClearSteps(s, later, input);
    TrailJoined(w.log, w.pool, w.chain, w.now + s.confirmDelay);
  }

  /** And its second half, after the wait. */
  lemma FromWake(s: Setup, w: World, later: World, rpc: Rpc) returns (es: seq<Event>)
    requires Woken(s, w, later) && Says(s, w.pool, w.chain, rpc, NOT_LISTED)
    ensures Run(s, later, es) == Marked(s, w) && AnsweredBy(es, rpc, rpc)
  {
    var input := Input(rpc, true, None, false);
    PlayFromWake(s, w, later, input);
    es := PlayIsRun(s, later, input, NOT_LISTED, 5, w.pool, w.chain);
  }

  /** The clear itself, with every write going through. */
  lemma PlayWrites(s: Setup, w: World, input: Input, at: int, pool: string, chain: string)
    requires w.phase == At(ClearPool(at), pool, chain) && input.ok
    ensures Play(s, w, input, NOT_LISTED, 0) == w
    ensures Play(s, w, input, NOT_LISTED, 1).phase == At(ClearChain(at), pool, chain)
    ensures Play(s, w, input, NOT_LISTED, 2)
         == w.(phase := At(CleanPool(at), pool, chain), pool := "0", chain := "",
               log := w.log + [PoolWritten(true), ChainWritten(true)])
  {
    assert Play(s, w, input, NOT_LISTED, 1)
        == w.(phase := At(ClearChain(at), pool, chain), pool := "0", log := w.log + [PoolWritten(true)]);
  }

  lemma PlayCleanUp(s: Setup, w: World, input: Input, at: int, pool: string, chain: string)
    requires w.phase == At(ClearPool(at), pool, chain) && input.ok
    ensures Play(s, w, input, NOT_LISTED, 3).phase == At(CleanChain(at), pool, chain)
    ensures Play(s, w, input, NOT_LISTED, 4).phase == At(CleanMarker(at), pool, chain)
    ensures Play(s, w, input, NOT_LISTED, 5)
         == w.(phase := At(ReadBackPool(at), pool, chain), pool := "0", chain := "", confirmed := None,
               log := w.log + RestartTrail("0")[..5])
  {
    PlayWrites(s, w, input, at, pool, chain);
    var v2 := Play(s, w, input, NOT_LISTED, 2);
    var v3 := v2.(phase := At(CleanChain(at), pool, chain), log := v2.log + [CleanedPool]);
    assert Play(s, w, input, NOT_LISTED, 3) == v3;
    assert Play(s, w, input, NOT_LISTED, 4)
        == v3.(phase := At(CleanMarker(at), pool, chain), log := v3.log + [CleanedChain]);
  }

  /** The world after a whole clear: no pool, no chain, no marker, and the restart signalled. */
  function Done(w: World): World {
    w.(phase := Idle, pool := "0", chain := "", confirmed := None,
       log := w.log + RestartTrail("0") + [RestartSignalled])
  }

  lemma PlayToRestart(s: Setup, w: World, input: Input, at: int, pool: string, chain: string)
    requires w.phase == At(ClearPool(at), pool, chain) && input.ok
    ensures Play(s, w, input, NOT_LISTED, 6).phase == At(Restart(at, "0"), pool, chain)
    ensures Play(s, w, input, NOT_LISTED, 7) == Done(w)
  {
    PlayCleanUp(s, w, input, at, pool, chain);
    var v5 := Play(s, w, input, NOT_LISTED, 5);
    assert Play(s, w, input, NOT_LISTED, 6)
        == v5.(phase := At(Restart(at, "0"), pool, chain), log := v5.log + [ReadBack("0")]);
    assert RestartTrail("0")[..5] + [ReadBack("0")] == RestartTrail("0");
  }

  lemma PlayClear(s: Setup, w: World, input: Input, at: int, pool: string, chain: string)
    requires w.phase == At(ClearPool(at), pool, chain) && input.ok
    ensures Playable(s, w, input, NOT_LISTED, 7, pool, chain)
  {
    PlayWrites(s, w, input, at, pool, chain);
    PlayCleanUp(s, w, input, at, pool, chain);
    PlayToRestart(s, w, input, at, pool, chain);
    forall k: nat | k < 7 ensures Follows(s, Play(s, w, input, NOT_LISTED, k), input, pool, chain) {
      assert k in {0, 1, 2, 3, 4, 5, 6};
    }
  }

  lemma FromMark(s: Setup, w: World, rpc: Rpc) returns (es: seq<Event>)
    requires w.phase.At? && w.phase.pc.ClearPool? && Says(s, w.phase.pool, w.phase.chain, rpc, NOT_LISTED)
    ensures Run(s, w, es) == Done(w) && AnsweredBy(es, rpc, rpc)
  {
    var input := Input(rpc, true, None, false);
    var At(ClearPool(at), pool, chain) := w.phase;
    PlayClear(s, w, input, at, pool, chain);
    PlayToRestart(s, w, input, at, pool, chain);
    es := PlayIsRun(s, w, input, NOT_LISTED, 7, pool, chain);
  }

  lemma UpToWake(s: Setup, w: World, rpc: Rpc) returns (es: seq<Event>, later: World)
    requires Eligible(s, w) && w.confirmed == Some(PoolKey(w.chain, w.pool)) && w.chain in SUPPORTED_CHAINS
    requires Says(s, w.pool, w.chain, rpc, NOT_LISTED)
    ensures Run(s, w, es) == later && AnsweredBy(es, rpc, rpc)
    ensures Woken(s, w, later)
  {
    var start := UpToWait(s, w, rpc);
    var v := w.(phase := At(Wait(w.now), w.pool, w.chain), log := w.log + ClearingTrail(w.pool, w.chain, 0)[..5]);
    es := AdvanceBetween(s, w, start, v, s.confirmDelay, []);
    later := v.(now := w.now + s.confirmDelay);
  }

  lemma UpToMark(s: Setup, w: World, rpc: Rpc) returns (es: seq<Event>)
    requires Eligible(s, w) && w.confirmed == Some(PoolKey(w.chain, w.pool)) && w.chain in SUPPORTED_CHAINS
    requires Says(s, w.pool, w.chain, rpc, NOT_LISTED)
    ensures Run(s, w, es) == Marked(s, w) && AnsweredBy(es, rpc, rpc)
  {
    var start, later := UpToWake(s, w, rpc);
    var rest := FromWake(s, w, later, rpc);
    RunOn(s, w, start, rest);
    es := start + rest;
  }

  /** The whole world after a pass that is left alone and wakes as soon as it can. */
  lemma PromptClear(s: Setup, w: World, rpc: Rpc) returns (es: seq<Event>)
    requires Eligible(s, w) && w.confirmed == Some(PoolKey(w.chain, w.pool)) && w.chain in SUPPORTED_CHAINS
    requires Says(s, w.pool, w.chain, rpc, NOT_LISTED)
    ensures Run(s, w, es) == Done(Marked(s, w)) && AnsweredBy(es, rpc, rpc)
  {
    var start := UpToMark(s, w, rpc);
    var rest := FromMark(s, Marked(s, w), rpc);
    es := RunThrough(s, w, start, Marked(s, w), rest);
  }

  lemma RunThrough(s: Setup, w: World, es: seq<Event>, v: World, fs: seq<Event>) returns (all: seq<Event>)
    requires Run(s, w, es) == v
    ensures all == es + fs && Run(s, w, all) == Run(s, v, fs)
  {
    all := es + fs;
    RunOn(s, w, es, fs);
  }

  lemma TrailJoined(log: seq<Obs>, pool: string, chain: string, at: int)
    ensures (log + ClearingTrail(pool, chain, 0)[..5]) + ClearingTrail(pool, chain, at)[5..]
         == log + ClearingTrail(pool, chain, at)
  {
    assert ClearingTrail(pool, chain, 0)[..5] + ClearingTrail(pool, chain, at)[5..] == ClearingTrail(pool, chain, at);
  }

  /** Two runs with one event between them are a run. */
  lemma RunJoined(s: Setup, w: World, es: seq<Event>, v: World, e: Event, v': World, fs: seq<Event>)
    returns (all: seq<Event>)
    requires Run(s, w, es) == v && Step(s, v, e) == v'
    ensures all == es + [e] + fs && Run(s, w, all) == Run(s, v', fs)
  {
    RunMore(s, w, es, e);
    RunOn(s, w, es + [e], fs);
    all := es + [e] + fs;
  }

  lemma AdvanceBetween(s: Setup, w: World, es: seq<Event>, v: World, d: nat, fs: seq<Event>)
    returns (all: seq<Event>)
    requires Run(s, w, es) == v
    ensures all == es + [Advance(d)] + fs && Run(s, w, all) == Run(s, v.(now := v.now + d), fs)
  {
    all := RunJoined(s, w, es, v, Advance(d), v.(now := v.now + d), fs);
  }

  lemma SetPoolBetween(s: Setup, w: World, es: seq<Event>, v: World, pool: string, fs: seq<Event>)
    returns (all: seq<Event>)
    requires Run(s, w, es) == v
    ensures all == es + [SetPool(pool)] + fs && Run(s, w, all) == Run(s, v.(pool := pool), fs)
  {
    all := RunJoined(s, w, es, v, SetPool(pool), v.(pool := pool), fs);
  }

  lemma CutKey(chain: string, pool: string, longer: string)
    requires pool <= longer
    ensures Leftover(PoolKey(chain, longer), |PoolKey(chain, pool)|) == PoolKey(chain, pool)
  {
  }

  lemma OnlyMemberOf(pool: string, other: string, chain: string, left: string, at: int)
    requires pool != other
    ensures forall o :: o in TornTrail(pool, chain, left) + ClearingTrail(other, chain, at) && IsMemberAnswer(o) ==>
              o.pool != other
  {
    assert forall o :: o in ClearingTrail(other, chain, at) ==> !IsMemberAnswer(o);
    assert forall o :: o in TornTrail(pool, chain, left) && IsMemberAnswer(o) ==> o.pool == pool;
  }

  /** All that is observed when a record of one pool is torn and another pool is then cleared. */
  function MisledLog(pool: string, other: string, chain: string, at: int): seq<Obs> {
    TornTrail(pool, chain, PoolKey(chain, other)) + ClearingTrail(other, chain, at) + RestartTrail("0")
    + [RestartSignalled]
  }

  lemma MisledIsUnconfirmed(pool: string, other: string, chain: string, at: int)
    requires pool != other
    ensures forall o :: o in MisledLog(pool, other, chain, at) && IsMemberAnswer(o) ==> o.pool != other
  {
    OnlyMemberOf(pool, other, chain, PoolKey(chain, other), at);
    assert forall o :: o in RestartTrail("0") ==> !IsMemberAnswer(o);
  }

  lemma MisledEnd(s: Setup, w: World, pool: string, key: string)
    requires w.log == [] && key == PoolKey(w.chain, pool) == Leftover(PoolKey(w.chain, w.pool), |key|)
    ensures var end := Done(Marked(s, Torn(w, |key|).(pool := pool)));
            && end.log == MisledLog(w.pool, pool, w.chain, w.now + s.confirmDelay)
            && end.pool == "0" && end.chain == ""
  {
  }

  /**
   * Torn writes are why the pair is only known up to a prefix of the pool id, and every proper prefix can happen: a
   * device that is answered "member" of `w.pool`, and later moves to a pool whose id is a prefix of it and is not
   * listed there, can have that pool cleared although no pass was ever told it is a member of it.
   */
  lemma TornRecordMisleads(s: Setup, w: World, pool: string, rpc: Rpc, rpc': Rpc) returns (es: seq<Event>)
    requires Fresh(w) && Eligible(s, w) && w.chain in SUPPORTED_CHAINS
    requires pool < w.pool && pool != "" && pool != "0" && PoolNumber(pool).Some?
    requires Says(s, w.pool, w.chain, rpc, MEMBER) && Says(s, pool, w.chain, rpc', NOT_LISTED)
    ensures Run(s, w, es).log == MisledLog(w.pool, pool, w.chain, w.now + s.confirmDelay)
    ensures Run(s, w, es).pool == "0" && Run(s, w, es).chain == ""
    ensures forall o :: o in Run(s, w, es).log && IsMemberAnswer(o) ==> o.pool != pool
    ensures AnsweredBy(es, rpc, rpc')
  {
    var key := PoolKey(w.chain, pool);
    CutKey(w.chain, pool, w.pool);
    var start := TearRecord(s, w, rpc, |key|);
    var v := Torn(w, |key|);
    var moved := v.(pool := pool);
    var rest := PromptClear(s, moved, rpc');
    es := SetPoolBetween(s, w, start, v, pool, rest);
    MisledEnd(s, w, pool, key);
    MisledIsUnconfirmed(w.pool, pool, w.chain, w.now + s.confirmDelay);
  }

  /** A contract in which every device is a member of pool n alone, and a chain that always answers from it. */
  function OnePool(n: nat): Contract {
    Contract((pool, key) => if pool == n then Some(0) else None, (pool, key) => JoinRequest(0, 0, 0, 0, 0, 0, 0, 0))
  }

  function Answering(c: Contract): Rpc { (chain, data, n) => Response(200, Result(Execute(c, data))) }

  lemma AnsweringIsReliable(c: Contract, chain: string)
    ensures Truthful(Answering(c), chain, c) && Reliable(Answering(c), chain, c)
  {
    forall data: string ensures GetsThroughSometime(Answering(c), chain, c, data) {
      assert GetsThrough(Answering(c), chain, c, data, 1);
    }
  }

  lemma OnePoolSays(s: Setup, n: nat, pool: string, chain: string, key: PeerId.Key)
    requires GoodNames(chain, pool) && s.clusterPeer == PeerId.IdOf(key)
    ensures Says(s, pool, chain, Answering(OnePool(n)), if PoolNumber(pool) == Some(n) then MEMBER else NOT_LISTED)
  {
    AnsweringIsReliable(OnePool(n), chain);
    ChainSays(s, pool, chain, Answering(OnePool(n)), OnePool(n), key);
  }

  lemma Twelve()
    ensures PoolNumber("12") == Some(12) && PoolNumber("1") == Some(1)
  {
    assert DecimalDigits("12") == [1, 2] && DecimalDigits("1") == [1];
    assert Numerals.Value([1], 10) == 1;
    assert Numerals.Value([1, 2], 10) == 12;
  }

  /** It does happen: to a device that is a member of pool 12 and not of pool 1, on a chain that never fails. */
  lemma TornRecordHappens(key: PeerId.Key) returns (s: Setup, w: World, es: seq<Event>)
    ensures Fresh(w) && w.pool == "12" && w.chain == "base" && s.clusterPeer == PeerId.IdOf(key)
    ensures Run(s, w, es).log == MisledLog("12", "1", "base", w.now + s.confirmDelay)
    ensures AnsweredBy(es, Answering(OnePool(12)), Answering(OnePool(12)))
  {
    s := Setup(false, PeerId.IdOf(key), 0);
    w := World(0, false, "12", "base", None, None, Idle, []);
    Twelve();
    OnePoolSays(s, 12, "12", "base", key);
    OnePoolSays(s, 12, "1", "base", key);
    es := TornRecordMisleads(s, w, "1", Answering(OnePool(12)), Answering(OnePool(12)));
  }

  /** A restart is signalled only after both config writes succeeded and the pool read back empty. */
  lemma RestartOnlyAfterConfirmedClear(s: Setup, w: World, es: seq<Event>, i: nat)
    requires Fresh(w) && i < |Run(s, w, es).log| && Run(s, w, es).log[i] == RestartSignalled
    ensures exists pool, chain, at, back ::
              && i >= 16 && (back == "" || back == "0")
              && Run(s, w, es).log[i - 16..i] == ClearingTrail(pool, chain, at) + RestartTrail(back)
  {
    RunKeepsInv(s, w, es);
    var log := Run(s, w, es).log;
    assert Justified(log[..i], log[i]);
    var pool, chain, at, back :| Trail(log[..i], 16, pool, chain, at, back) && (back == "" || back == "0");
    TrailAsText(log[..i], 16, pool, chain, at, back);
    assert log[i - 16..i] == log[..i][i - 16..i - 6] + log[..i][i - 6..];
  }

  /** Any two clear attempts are more than a day, less a second, plus the confirm delay apart. */
  lemma AttemptsAreSpaced(s: Setup, w: World, es: seq<Event>, i: nat, j: nat)
    requires Fresh(w) && i < j < |Run(s, w, es).log|
    requires Run(s, w, es).log[i].MarkerWritten? && Run(s, w, es).log[j].MarkerWritten?
    ensures Run(s, w, es).log[j].at - Run(s, w, es).log[i].at > MinGap(s)
  {
    RunKeepsInv(s, w, es);
  }

  // ---------------------------------------------------------------------------------------------------------------
  // The clear is the one a leave makes

  /** The steps of a clear that nothing comes between, from its first write to the removal of the marker. */
  function ClearAlone(w: World, io: PoolLeave.ClearIo): World
    requires w.phase.At? && w.phase.pc.ClearPool?
  {
    var At(pc, pool, chain) := w.phase;
    var w1 := Clear(w, pc, pool, chain, io.writePool).0;
    if !io.writePool then w1
    else
      var w2 := Clear(w1, w1.phase.pc, pool, chain, io.writeChain).0;
      if !io.writeChain then w2
      else
        var w3 := Clear(w2, w2.phase.pc, pool, chain, io.rewritePool).0;
        var w4 := Clear(w3, w3.phase.pc, pool, chain, io.rewriteChain).0;
        Clear(w4, w4.phase.pc, pool, chain, io.removeMarker).0
  }

  /** Taken together, the steps do what the same function does when a leave calls it. */
  lemma ClearsLikeLeave(w: World, before: PoolLeave.Snapshot, io: PoolLeave.ClearIo)
    requires w.phase.At? && w.phase.pc.ClearPool? && io.join == None
    requires before.pool == w.pool && before.chain == w.chain
    requires before.confirmed == w.confirmed && before.clearedAt == w.clearedAt
    ensures var w', after := ClearAlone(w, io), PoolLeave.Cleared(before, io);
            && after.pool == w'.pool && after.chain == w'.chain
            && after.confirmed == w'.confirmed && after.clearedAt == w'.clearedAt
            && (w'.phase != Idle <==> PoolLeave.Clears(io))
  {
  }

  // ---------------------------------------------------------------------------------------------------------------
  // How often

  /** The times of all recorded clear attempts, in order. */
  function Marks(log: seq<Obs>): seq<int> {
    if log == [] then []
    else
      var n := |log| - 1;
      Marks(log[..n]) + (if log[n].MarkerWritten? then [log[n].at] else [])
  }

  function Restarts(log: seq<Obs>): nat {
    if log == [] then 0
    else Restarts(log[..|log| - 1]) + (if log[|log| - 1] == RestartSignalled then 1 else 0)
  }

  lemma CountsSnoc(log: seq<Obs>, obs: Obs)
    ensures Marks(log + [obs]) == Marks(log) + (if obs.MarkerWritten? then [obs.at] else [])
    ensures Restarts(log + [obs]) == Restarts(log) + (if obs == RestartSignalled then 1 else 0)
  {
    assert (log + [obs])[..|log|] == log;
  }

  predicate MarkedWithin(log: seq<Obs>, lo: int, hi: int) {
    forall i :: 0 <= i < |log| && log[i].MarkerWritten? ==> lo <= log[i].at <= hi
  }

  lemma EarlierMarks(s: Setup, log: seq<Obs>, lo: int, hi: int)
    requires log != [] && GapsHold(s, log) && MarkedWithin(log, lo, hi)
    ensures var n := |log| - 1;
            && GapsHold(s, log[..n]) && MarkedWithin(log[..n], lo, hi)
            && (log[n].MarkerWritten? ==> lo <= log[n].at <= hi && MarkedWithin(log[..n], lo, log[n].at - MinGap(s)))
  {
  }

  /** Attempts that are a day apart and lie in [lo, hi] are few. */
  lemma {:induction false} FewMarks(s: Setup, log: seq<Obs>, lo: int, hi: int)
    requires s.confirmDelay >= SECOND && GapsHold(s, log) && MarkedWithin(log, lo, hi)
    ensures |Marks(log)| > 0 ==> (|Marks(log)| - 1) * DAY <= hi - lo
  {
    if log != [] {
      var n := |log| - 1;
      EarlierMarks(s, log, lo, hi);
      if log[n].MarkerWritten? {
        FewMarks(s, log[..n], lo, log[n].at - MinGap(s));
      } else {
        FewMarks(s, log[..n], lo, hi);
      }
    }
  }

  predicate Clearing(phase: Phase) { phase.At? && Stage(phase.pc) >= 10 }

  /** Times never go back, and a restart is preceded by a recorded attempt of its own. */
  predicate CountInv(start: int, w: World) {
    && start <= w.now
    && (forall i :: 0 <= i < |w.log| && w.log[i].MarkerWritten? ==> start <= w.log[i].at)
    && Restarts(w.log) + (if Clearing(w.phase) then 1 else 0) <= |Marks(w.log)|
  }

  lemma ActCounts(s: Setup, w: World, input: Input, answer: Status)
    requires Proper(answer)
    ensures var (w', obs) := Act(s, w, input, answer);
            && (obs == RestartSignalled ==> Clearing(w.phase) && !Clearing(w'.phase))
            && (Clearing(w'.phase) ==> Clearing(w.phase) || obs.MarkerWritten?)
            && (obs.MarkerWritten? ==> !Clearing(w.phase))
  {
    ActProgresses(s, w, input, answer);
    ActChanges(s, w, input, answer);
  }

  lemma CountStep(start: int, w: World, w': World, obs: Obs)
    requires CountInv(start, w) && w'.now == w.now && w'.log == w.log + [obs]
    requires obs.MarkerWritten? ==> obs.at == w.now && !Clearing(w.phase)
    requires obs == RestartSignalled ==> Clearing(w.phase) && !Clearing(w'.phase)
    requires Clearing(w'.phase) ==> Clearing(w.phase) || obs.MarkerWritten?
    ensures CountInv(start, w')
  {
    CountsSnoc(w.log, obs);
  }

  lemma {:induction false} RunKeepsCounts(s: Setup, w: World, es: seq<Event>)
    requires Fresh(w)
    ensures CountInv(w.now, Run(s, w, es))
  {
    if es != [] {
      var front, e := es[..|es| - 1], es[|es| - 1];
      RunKeepsCounts(s, w, front);
      var v := Run(s, w, front);
      if e.Proceed? && !Blocked(s, v, e.input) {
        var answer := Ask(s, v.phase, e.input.rpc);
        AskFacts(s, v.phase, e.input.rpc);
        ActCounts(s, v, e.input, answer);
        ActChanges(s, v, e.input, answer);
        CountStep(w.now, v, Run(s, w, es), Act(s, v, e.input, answer).1);
      }
    }
  }

  /**
   * No combination of chain answers, config changes, crashes and torn writes can make a restart loop: with a confirm
   * delay of at least a second, a run of length L records at most 1 + floor(L / 24 h) attempts and signals at most
   * as many restarts.
   */
  lemma NoRestartLoop(s: Setup, w: World, es: seq<Event>)
    requires Fresh(w) && s.confirmDelay >= SECOND
    ensures FewRestarts(w.now, Run(s, w, es))
  {
    RunKeepsCounts(s, w, es);
    RunKeepsInv(s, w, es);
    CountedIsFew(s, w.now, Run(s, w, es));
  }

  /** At most one attempt a day since `start`, rounded up, and no more restarts than attempts. */
  predicate FewRestarts(start: int, w: World) {
    Restarts(w.log) <= |Marks(w.log)| <= 1 + (w.now - start) / DAY
  }

  lemma CountedIsFew(s: Setup, start: int, w: World)
    requires s.confirmDelay >= SECOND && CountInv(start, w) && Inv(s, w)
    ensures FewRestarts(start, w)
  {
    MarksWithin(s, start, w);
    FewPerDay(s, w.log, start, w.now);
  }

  lemma MarksWithin(s: Setup, start: int, w: World)
    requires CountInv(start, w) && Inv(s, w)
    ensures GapsHold(s, w.log) && MarkedWithin(w.log, start, w.now) && start <= w.now
  {
  }

  lemma WholeDays(n: nat, length: nat)
    requires n * DAY <= length
    ensures n <= length / DAY
  {
  }

  lemma FewPerDay(s: Setup, log: seq<Obs>, lo: int, hi: int)
    requires s.confirmDelay >= SECOND && GapsHold(s, log) && lo <= hi && MarkedWithin(log, lo, hi)
    ensures |Marks(log)| <= 1 + (hi - lo) / DAY
  {
    FewMarks(s, log, lo, hi);
    var n := |Marks(log)|;
    if n > 0 {
      WholeDays(n - 1, hi - lo);
    }
  }
}
