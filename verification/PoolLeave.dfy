/**
 * `HandlePoolLeave`, `clearPoolConfig` and `cleanLeaveJoinPool` of `blockchain/bl_pool.go`: the device's pool state
 * and the handler that drops it once the chain confirms the device has left.
 */
module PoolLeave {
  import opened Wrappers
  import opened Hex
  import opened Text
  import opened ClusterStatus

  const CHECK_ATTEMPTS: nat := 3

  /** What another handler, such as a join, writes into the config. */
  datatype Config = Config(pool: string, chain: string)

  /** Which writes succeed while clearing, and what another handler writes before the read-back, if any. */
  datatype ClearIo = ClearIo(
    writePool: bool, writeChain: bool, rewritePool: bool, rewriteChain: bool, removeMarker: bool, join: Option<Config>)

  datatype Reason = PoolHost | PoolMismatch | ChainMismatch | StillListed

  datatype Outcome =
    | Accepted(cleared: bool)   // 202
    | Conflict(reason: Reason)  // 409
    | Unavailable               // 503
    | Failed                    // 500

  /** `uint32(poolID)` */
  function ToUint32(poolID: int): nat { poolID % UINT32 }

  /**
   * The configured pool is compared with the full requested id, but the chain is asked about its low 32 bits: the
   * two are the same pool exactly when the id fits.
   */
  lemma AsksConfiguredPool(poolID: int, pool: string)
    requires pool == Itoa(poolID)
    ensures ParseDecimal(pool, UINT32) == Some(ToUint32(poolID)) <==> 0 <= poolID < UINT32
  {
    if 0 <= poolID < UINT32 {
      ParseItoa(poolID, UINT32);
    } else if poolID > 0 {
      ParseItoa(poolID, poolID + 1);
      BeyondLimit(pool, poolID, poolID + 1);
    } else {
      assert pool[0] == '-';
    }
  }

  lemma BeyondLimit(s: string, n: nat, limit: nat)
    requires ParseDecimal(s, limit) == Some(n) && UINT32 <= n
    ensures ParseDecimal(s, UINT32) == None
  {
  }

  function ResolveChain(requested: string, configured: string, discovered: Option<string>): string {
    if requested != "" then requested
    else if configured != "" then configured
    else if discovered.Some? then discovered.value
    else "skale"
  }

  /** Which chain a leave is about: the requested one, else the configured one, else the discovered one, else skale. */
  lemma ResolvedChain(requested: string, configured: string, discovered: Option<string>)
    ensures var chain := ResolveChain(requested, configured, discovered);
            && (requested != "" ==> chain == requested)
            && (requested == "" && configured != "" ==> chain == configured)
            && (requested == configured == "" && discovered.Some? ==> chain == discovered.value)
            && (requested == configured == "" && discovered.None? ==> chain == "skale")
  {
  }

  predicate Unset(pool: string) { pool == "" || pool == "0" }

  /** Everything a leave may change. */
  datatype Snapshot = Snapshot(
    pool: string, chain: string, confirmed: Option<string>, clearedAt: Option<int>,
    members: map<string, nat>, stopFetch: Option<nat>, closedChannels: multiset<nat>, pinging: bool, restarts: nat)

  function Overwritten(s: Snapshot, c: Option<Config>): Snapshot {
    if c.None? then s else s.(pool := c.value.pool, chain := c.value.chain)
  }

  /** Both writes go through and no join makes the pool read back as set. */
  predicate Clears(io: ClearIo) {
    io.writePool && io.writeChain && (io.join.Some? ==> Unset(io.join.value.pool))
  }

  /** What clearing leaves behind: nothing changed, only the pool reset, or everything dropped. */
  function Cleared(s: Snapshot, io: ClearIo): Snapshot {
    if !io.writePool then s
    else if !io.writeChain then s.(pool := "0")
    else
      var dropped := s.(
        pool := "0", chain := "",
        confirmed := if io.removeMarker then None else s.confirmed, members := map[], stopFetch := None,
        closedChannels := s.closedChannels + (if s.stopFetch.Some? then multiset{s.stopFetch.value} else multiset{}),
        pinging := false);
      Overwritten(dropped, io.join)
  }

  /** A cleared device is left in no pool, whatever else failed, and keeps its cleared-at marker. */
  lemma ClearedIsUnset(s: Snapshot, io: ClearIo)
    ensures Clears(io) ==>
              var c := Cleared(s, io);
              && Unset(c.pool) && (io.join.None? ==> c.pool == "0" && c.chain == "")
              && c.members == map[] && c.stopFetch == None && !c.pinging
    ensures !Clears(io) && !Unset(s.pool) ==>
              (Unset(Cleared(s, io).pool) <==> io.writePool && !io.writeChain)
    ensures Cleared(s, io).clearedAt == s.clearedAt && Cleared(s, io).restarts == s.restarts
    ensures Cleared(s, io).confirmed in {s.confirmed, None}
  {
  }

  /** A leave request and what the outside answers to it. */
  datatype Request = Request(
    poolID: int, chain: string,
    discovered: Option<string>,   // the chain found by auto-discovery
    // what ClusterPeerPoolStatus returns for a pool and a chain on attempt 1, 2 or 3
    status: (nat, string, nat) -> Status,
    cancelled: nat -> bool,       // whether the request context ends while waiting after an attempt
    meanwhile: Option<Config>)    // what another handler writes while the chain is being asked

  class Device {
    const poolHost: bool
    var pool: string
    var chain: string
    var confirmed: Option<string>
    var clearedAt: Option<int>
    var members: map<string, nat>
    var stopFetch: Option<nat>            // the stop channel, if not nil
    var closedChannels: multiset<nat>     // every close() so far
    var pinging: bool
    var restarts: nat                     // restart hooks scheduled

    /** The open stop channel has not been closed, so closing it cannot panic. */
    ghost predicate Valid()
      reads this
    {
      stopFetch.Some? ==> stopFetch.value !in closedChannels
    }

    ghost function State(): Snapshot
      reads this
    {
      Snapshot(pool, chain, confirmed, clearedAt, members, stopFetch, closedChannels, pinging, restarts)
    }

    constructor (host: bool)
      ensures Valid() && poolHost == host
      ensures State() == Snapshot("0", "", None, None, map[], None, multiset{}, false, 0)
    {
      poolHost := host;
      pool, chain, confirmed, clearedAt := "0", "", None, None;
      members, stopFetch, closedChannels, pinging, restarts := map[], None, multiset{}, false, 0;
    }

    /** cleanLeaveJoinPool: its own config resets may fail unnoticed. */
    method CleanLeaveJoinPool(io: ClearIo)
      requires Valid()
      modifies this
      ensures Valid()
      ensures pool == (if io.rewritePool then "0" else old(pool))
      ensures chain == (if io.rewriteChain then "" else old(chain))
      ensures confirmed == (if io.removeMarker then None else old(confirmed))
      ensures members == map[] && stopFetch == None && !pinging
      ensures closedChannels == old(closedChannels)
                + (if old(stopFetch).Some? then multiset{old(stopFetch).value} else multiset{})
      ensures clearedAt == old(clearedAt) && restarts == old(restarts)
    {
      if io.rewritePool {
        pool := "0";
      }
      if io.rewriteChain {
        chain := "";
      }
      if io.removeMarker {
        confirmed := None;
      }
      pinging := false;
      if stopFetch.Some? {
        closedChannels := closedChannels + multiset{stopFetch.value};
        stopFetch := None;
      }
      members := map[];
    }

    /** Another handler writes the config. */
    method Interfere(c: Option<Config>)
      requires Valid()
      modifies this
      ensures Valid() && State() == Overwritten(old(State()), c)
    {
      if c.Some? {
        pool, chain := c.value.pool, c.value.chain;
      }
    }

    /** clearPoolConfig: succeeds only if both writes did and the pool reads back empty. */
    method ClearPoolConfig(io: ClearIo) returns (ok: bool)
      requires Valid()
      modifies this
      ensures Valid()
      ensures ok <==> Clears(io)
      ensures State() == Cleared(old(State()), io)
    {
      if !io.writePool {
        return false;
      }
      pool := "0";
      if !io.writeChain {
        return false;
      }
      chain := "";
      CleanLeaveJoinPool(io);
      Interfere(io.join);
      ok := Unset(pool);
    }

    /** The chain's answer on attempt k about the pool and chain of the request. */
    function Answer(r: Request, chainName: string, k: nat): Status {
      r.status(ToUint32(r.poolID), chainName, k)
    }

    /** Reads the chain up to three times, until it no longer lists the device. */
    method CheckListed(answer: nat -> Status, cancelled: nat -> bool) returns (stillListed: Option<bool>, attempts: nat)
      ensures 1 <= attempts <= CHECK_ATTEMPTS
      ensures forall k :: 1 <= k < attempts ==> answer(k) !in {Failure, NOT_LISTED} && !cancelled(k)
      ensures stillListed == Some(false) <==> answer(attempts) == NOT_LISTED
      ensures stillListed == Some(true) <==>
                attempts == CHECK_ATTEMPTS && answer(attempts) !in {Failure, NOT_LISTED}
      ensures stillListed == None <==>
                || answer(attempts) == Failure
                || (attempts < CHECK_ATTEMPTS && answer(attempts) != NOT_LISTED && cancelled(attempts))
    {
      attempts := 1;
      while true
        invariant 1 <= attempts <= CHECK_ATTEMPTS
        invariant forall k :: 1 <= k < attempts ==> answer(k) !in {Failure, NOT_LISTED} && !cancelled(k)
        decreases CHECK_ATTEMPTS - attempts
      {
        var status := answer(attempts);
        if status.Failure? {
          return None, attempts;
        }
        var listed := status.member || status.pending;
        if !listed || attempts == CHECK_ATTEMPTS {
          return Some(listed), attempts;
        }
        if cancelled(attempts) {
          return None, attempts;
        }
        attempts := attempts + 1;
      }
    }

    /** What a leave needs before it may clear anything. */
    predicate LeaveAllowed(r: Request, pool: string, chain: string) {
      && !poolHost && pool != "" && pool != "0" && pool == Itoa(r.poolID)
      && (r.chain == "" || chain == "" || r.chain == chain)
    }

    /** The answer on attempt k about the pool of the request and the chain it resolves to. */
    function LeaveAnswer(r: Request, chain: string, k: nat): Status {
      Answer(r, ResolveChain(r.chain, chain, r.discovered), k)
    }

    /** The chain is asked about the low 32 bits of the requested pool id, on the chain the leave is about. */
    lemma LeaveAsks(r: Request, chain: string, k: nat)
      ensures r.chain != "" ==> LeaveAnswer(r, chain, k) == r.status(r.poolID % 0x1_0000_0000, r.chain, k)
      ensures r.chain == "" && chain != "" ==> LeaveAnswer(r, chain, k) == r.status(r.poolID % 0x1_0000_0000, chain, k)
      ensures r.chain == chain == "" && r.discovered.Some? ==>
                LeaveAnswer(r, chain, k) == r.status(r.poolID % 0x1_0000_0000, r.discovered.value, k)
      ensures r.chain == chain == "" && r.discovered.None? ==>
                LeaveAnswer(r, chain, k) == r.status(r.poolID % 0x1_0000_0000, "skale", k)
    {
    }

    /** The attempts end with number n: all before it listed the device, and the waits after them were not cut short. */
    predicate EndsAt(r: Request, chain: string, n: nat) {
      && 1 <= n <= 3
      && (forall k :: 1 <= k < n ==> LeaveAnswer(r, chain, k) !in {Failure, NOT_LISTED} && !r.cancelled(k))
      && (LeaveAnswer(r, chain, n) in {Failure, NOT_LISTED} || n == 3 || r.cancelled(n))
    }

    /** The attempts of one leave of a device configured for `chain`. */
    method AskChain(r: Request, chain: string) returns (stillListed: Option<bool>, attempts: nat)
      ensures EndsAt(r, chain, attempts)
      ensures stillListed == Some(false) <==> LeaveAnswer(r, chain, attempts) == NOT_LISTED
      ensures stillListed == Some(true) <==>
                attempts == CHECK_ATTEMPTS && LeaveAnswer(r, chain, attempts) !in {Failure, NOT_LISTED}
    {
      var answers := (k: nat) => LeaveAnswer(r, chain, k);
      stillListed, attempts := CheckListed(answers, r.cancelled);
      assert answers(attempts) == LeaveAnswer(r, chain, attempts);
      assert stillListed.Some? ==> stillListed == Some(false) || stillListed == Some(true) by {
        if stillListed.Some? && stillListed.value {
          assert stillListed == Some(true);
        }
      }
      forall k | 1 <= k < attempts ensures LeaveAnswer(r, chain, k) !in {Failure, NOT_LISTED} && !r.cancelled(k) {
        assert answers(k) !in {Failure, NOT_LISTED};
      }
    }

    /** The config that a leave finds when it clears. */
    function FoundAtClear(r: Request, pool: string, chain: string): Config {
      if r.meanwhile.Some? then r.meanwhile.value else Config(pool, chain)
    }

    /** The part of a leave that asks the chain and then clears. */
    method LeaveAllowedPool(r: Request, io: ClearIo) returns (outcome: Outcome, attempts: nat, wiped: Option<Config>)
      requires Valid()
      modifies this
      ensures Valid() && EndsAt(r, old(chain), attempts)
      ensures LeaveAnswer(r, old(chain), attempts) != NOT_LISTED ==>
                && outcome == (if attempts == CHECK_ATTEMPTS && LeaveAnswer(r, old(chain), attempts) != Failure
                               then Conflict(StillListed) else Unavailable)
                && State() == Overwritten(old(State()), r.meanwhile) && wiped == None
      ensures LeaveAnswer(r, old(chain), attempts) == NOT_LISTED ==>
                var after := Cleared(Overwritten(old(State()), r.meanwhile), io);
                && outcome == (if Clears(io) then Accepted(true) else Failed)
                && State() == (if Clears(io) then after.(restarts := old(restarts) + 1) else after)
                && wiped == if io.writePool then Some(FoundAtClear(r, old(pool), old(chain))) else None
    {
      var stillListed;
      stillListed, attempts := AskChain(r, chain);
      Interfere(r.meanwhile);
      wiped := None;
      if stillListed.None? {
        return Unavailable, attempts, wiped;
      }
      if stillListed.value {
        return Conflict(StillListed), attempts, wiped;
      }
      if io.writePool {
        wiped := Some(Config(pool, chain));
      }
      var ok := ClearPoolConfig(io);
      if !ok {
        return Failed, attempts, wiped;
      }
      restarts := restarts + 1;
      outcome := Accepted(true);
    }

    /** `wiped` is the config that the clear overwrote, if it wrote anything. */
    method HandlePoolLeave(r: Request, io: ClearIo) returns (outcome: Outcome, attempts: nat, wiped: Option<Config>)
      requires Valid()
      modifies this
      ensures Valid()
      // Refusals that come without asking the chain.
      ensures outcome == Conflict(PoolHost) <==> poolHost
      ensures outcome == Accepted(false) <==> !poolHost && (old(pool) == "" || old(pool) == "0")
      ensures outcome == Conflict(PoolMismatch) <==>
                !poolHost && old(pool) != "" && old(pool) != "0" && old(pool) != Itoa(r.poolID)
      ensures outcome == Conflict(ChainMismatch) <==>
                && !poolHost && old(pool) != "" && old(pool) != "0" && old(pool) == Itoa(r.poolID)
                && r.chain != "" && old(chain) != "" && r.chain != old(chain)
      // How often the chain is asked.
      ensures if LeaveAllowed(r, old(pool), old(chain)) then EndsAt(r, old(chain), attempts) else attempts == 0
      // What the last answer decides: an error or a cut wait is 503, a third listing 409, and only "not listed" clears.
      ensures outcome == Unavailable <==>
                && LeaveAllowed(r, old(pool), old(chain))
                && (|| LeaveAnswer(r, old(chain), attempts) == Failure
                    || (LeaveAnswer(r, old(chain), attempts) != NOT_LISTED && attempts < 3))
      ensures outcome == Conflict(StillListed) <==>
                && LeaveAllowed(r, old(pool), old(chain)) && attempts == 3
                && LeaveAnswer(r, old(chain), attempts) !in {Failure, NOT_LISTED}
      ensures outcome == Accepted(true) <==>
                && LeaveAllowed(r, old(pool), old(chain))
                && LeaveAnswer(r, old(chain), attempts) == NOT_LISTED && Clears(io)
      ensures outcome == Failed <==>
                && LeaveAllowed(r, old(pool), old(chain))
                && LeaveAnswer(r, old(chain), attempts) == NOT_LISTED && !Clears(io)
      // What is left behind. A refusal changes nothing itself; a restart is scheduled exactly on a confirmed clear.
      ensures var asked := if attempts > 0 then Overwritten(old(State()), r.meanwhile) else old(State());
              State() == match outcome
                         case Accepted(true) => Cleared(asked, io).(restarts := old(restarts) + 1)
                         case Failed => Cleared(asked, io)
                         case _ => asked
      ensures outcome == Accepted(true) ==> Unset(pool) && (io.join.None? ==> chain == "")
      // The config is not read again before it is cleared: the pool wiped is the one asked about exactly if no other
      // was configured meanwhile.
      ensures wiped.Some? <==> (outcome == Accepted(true) || outcome == Failed) && io.writePool
      ensures wiped.Some? ==> wiped.value == FoundAtClear(r, old(pool), old(chain))
      ensures wiped.Some? ==>
                (wiped.value.pool == Itoa(r.poolID) <==> r.meanwhile.None? || r.meanwhile.value.pool == old(pool))
    {
      attempts, wiped := 0, None;
      if poolHost {
        return Conflict(PoolHost), attempts, wiped;
      }
      if !Unset(pool) && pool != Itoa(r.poolID) {
        return Conflict(PoolMismatch), attempts, wiped;
      }
      if Unset(pool) {
        return Accepted(false), attempts, wiped;
      }
      var chainName := ResolveChain(r.chain, chain, r.discovered);
      if chain != "" && chain != chainName {
        return Conflict(ChainMismatch), attempts, wiped;
      }
      outcome, attempts, wiped := LeaveAllowedPool(r, io);
    }
  }

  /**
   * So a leave can clear a different pool than the one asked about, against what it says of itself: whatever pool a
   * join configures while the chain is being asked is wiped, and the leave reports success.
   */
  method LoseJoin(poolID: int, chain: string, joined: Config)
    returns (device: Device, outcome: Outcome, wiped: Option<Config>)
    requires !Unset(Itoa(poolID)) && joined.pool != Itoa(poolID)
    ensures outcome == Accepted(true) && wiped == Some(joined)
    ensures device.pool == "0" && device.chain == "" && device.restarts == 1
  {
    device := new Device(false);
    device.pool, device.chain := Itoa(poolID), chain;
    var attempts;
    var io := ClearIo(true, true, true, true, true, None);
    var r := Request(poolID, chain, None, (p, c, k) => NOT_LISTED, k => false, Some(joined));
    outcome, attempts, wiped := device.HandlePoolLeave(r, io);
  }
}
