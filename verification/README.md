# Verified core of the fula device software

A Dafny model of the parts of the go-fula repository that are hard to get right by reading: the relay watchdog, the
pool leave and reconcile protocol, the two shutdown protocols, the Ethereum ABI and peer-id codecs, and the two small
reducers beside them (the plugin file and the Wi-Fi scan).

`dafny verify dfyconfig.toml` checks the whole project.

| file | models |
|---|---|
| `Watchdog.dfy` | one tick of the relay watchdog, and whole runs of it |
| `Durations.dfy`, `Wrappers.dfy` | units of time, optional values |
| `PoolReconcile.dfy` | reconcile passes interleaved with joins, cancels, leaves, crashes and torn writes |
| `PoolProgress.dfy` | what the passes are for: members are recorded, leavers are cleared |
| `PoolLeave.dfy` | the leave handler and the config clear it shares with reconcile |
| `ClusterStatus.dfy` | what the chain says about this device, over an unreliable RPC oracle |
| `Abi.dfy`, `Hex.dfy`, `Numerals.dfy`, `Text.dfy` | the contract codec, and the number and text functions it uses |
| `PeerId.dfy` | peer ids and bytes32 keys, over a concrete base58 |
| `ClientLifecycle.dfy` | `beginOp` / `done` / `Shutdown` of the mobile client with any number of threads |
| `ListenerCloser.dfy` | `multiCloser` and its watchers with any number of threads and listeners |
| `PluginRegistry.dfy` | the active-plugins file as a list of names |
| `WifiScan.dfy` | the reduction of a scan to its six strongest networks |

How the outside enters the model: clocks are integers that never go back (nanoseconds; a watchdog tick reads the clock
six times and the readings are kept apart); HTTP and RPC answers, write failures, cancellation and the choice of which
thread moves next are inputs, and every theorem holds for all of them. A reconcile pass reads and writes one thing
per step, and anything else the device can do may happen between two steps. The shutdown protocols take and release
their mutex explicitly; one step is one access to shared state.

Where the code does something other than its comments say, the model follows the code:

* The watchdog's "extended cooldown" of one hour never ends within a run, and the watchdog is silent for good even
  earlier, from the second counted failure on once the latest signal is three minutes old
  (`Watchdog.SignalsAgainExactly`, `Watchdog.DeathIsReached`).
* A second `Shutdown` of the mobile client can return before the first has closed anything
  (`ClientLifecycle.LoserReturnsEarly`); everything is closed exactly when the call that set `closed` has returned.
* The membership marker is meant to show that this very pool was confirmed. A marker write that fails half way leaves
  a prefix of the record, and that can pass for another pool whose number is a prefix, until the next whole write.
  `PoolReconcile.ClearsOnlyConfirmed` and `PoolReconcile.TornRecordMisleads` say exactly how far this goes.
* A leave says it never clears a different pool than the one asked about. It does not read the config again before it
  clears, so a join that lands while it asks the chain is wiped (`PoolLeave.LoseJoin`); the contract of
  `PoolLeave.Device.HandlePoolLeave` has the exact condition.
* A leave compares the configured pool with the full requested number but asks the chain about its low 32 bits
  (`PoolLeave.AsksConfiguredPool`).
* The 34-byte branch of `peerIdToBytes32` can never succeed (`PeerId.LegacyNeverSucceeds`).
* Plugin names are not checked on install, so some are reported as installed and then not found
  (`PluginRegistry.InstallKeepsExactly`); a write that fails half way loses other plugins
  (`PluginRegistry.CutKeepsFirst`).

## Model

| member | source | states |
|---|---|---|
| `Watchdog.RateLimit` | blox/kubo_proxy.go:441-484 | over every run, the (k+3)-th restart signal comes at least one hour after the k-th |
| `Watchdog.KeptIsSuffix` | blox/kubo_proxy.go:443-451 | pruning a sorted history drops exactly a prefix of it, all of it over an hour old |
| `Watchdog.RunKeepsInv` | blox/kubo_proxy.go:335-489 | after every run the kept history is a suffix, of at most three, of the log of all signals; everything dropped is an hour old; the last-restart time is the newest signal; three counted failures leave that signal at least five minutes back |
| `Watchdog.MinimumGap` | blox/kubo_proxy.go:434-439 | any two signals of a run are at least five minutes apart |
| `Watchdog.RecoveryBudget` | blox/kubo_proxy.go:371-484 | a stretch of ticks without a verified recovery holds at most three signals, at most two if a signal came before it, even when signal attempts fail |
| `Watchdog.LockedOutForever` | blox/kubo_proxy.go:371-475 | from two counted failures with the latest signal three minutes back, no later tick of the run signals and the failure counter never falls |
| `Watchdog.SignalsAgainExactly` | blox/kubo_proxy.go:335-489 | some continuation of a run signals again if and only if the run is not in that state |
| `Watchdog.DeathIsReached` | blox/kubo_proxy.go:335-489 | the state is reached: a run without a circuit signals after one, two and three hours and is silent for good three minutes later |
| `Watchdog.CountersMean` | blox/kubo_proxy.go:366-413 | the circuit flag holds exactly when a circuit was seen, and the last `missing` ticks were all counted misses |
| `Watchdog.SignalNeedsEvidence` | blox/kubo_proxy.go:386-422 | a signal needs two counted misses in a row (kubo alive, no circuit, circuit seen before or five minutes since startup), a connected relay and an accepted signal |
| `Watchdog.SignalsExactly` | blox/kubo_proxy.go:335-489 | the whole machine without its counters: a tick signals exactly when two unspent counted misses are in a row, the relay is connected, the latest signal is five minutes and the third-latest an hour back, the host accepts, and fewer than two attempts followed the latest verified recovery (or nothing was signalled yet) |
| `Watchdog.LimitsAreTight` | blox/kubo_proxy.go:42-57 | one run meets every limit exactly: first signal five minutes after the start, the second five minutes later, a recovery a nanosecond short of three minutes, the fourth signal an hour after the first |
| `Watchdog.CooldownHolds` | blox/kubo_proxy.go:424-432 | during the long cooldown nothing is judged or signalled |
| `Watchdog.CooldownLasts` | blox/kubo_proxy.go:467-473 | the cooldown is set to end an hour later, with three failures counted and the misses reset |
| `Watchdog.Monitor.constructor` | blox/kubo_proxy.go:313-333 | the state before the first tick |
| `Watchdog.Monitor.Prune` | blox/kubo_proxy.go:445-451 | compacting the slice over its own backing array leaves exactly the timestamps after the cutoff, in order |
| `Watchdog.Monitor.Append` | blox/kubo_proxy.go:483 | the slice grows by one timestamp, in place or in a fresh array |
| `Watchdog.Monitor.Tick` | blox/kubo_proxy.go:338-413 | the imperative tick is the step function on the old state, result and whole new state |
| `Watchdog.Monitor.PassGates` | blox/kubo_proxy.go:415-458 | the four gates in order, result and whole new state |
| `Watchdog.Monitor.SignalRestart` | blox/kubo_proxy.go:460-485 | counting the failed restart, the long cooldown and the signal, result and whole new state |
| `Watchdog.Watch` | blox/kubo_proxy.go:335-489 | the loop signals exactly at the signal times of the run, and so keeps the hourly limit |
| `PoolReconcile.ClearsOnlyConfirmed` | blockchain/bl_pool.go:1502-1539 | in every interleaving, the latest marker write before the pass read the marker followed an answer "member" for the same chain and a pool the cleared one is a prefix of; the two pools are equal if and only if that write left the whole record |
| `PoolReconcile.TornRecordMisleads` | blockchain/bl_pool.go:1362-1373 | and every proper prefix can happen: a run in which a torn record of one pool lets a pass clear another, and restart, though that one was never confirmed |
| `PoolReconcile.TornRecordHappens` | blockchain/bl_pool.go:1362-1373 | for every key, such a run in which every question is answered, without fail, from a contract that has the device in pool 12 alone |
| `PoolReconcile.KeyPrefix` | blockchain/bl_pool.go:1358 | for colon-free chain names one key is a prefix of, or equals, another if and only if the chains are equal and the pools are prefix or equal |
| `PoolReconcile.ClearIsDoubleChecked` | blockchain/bl_pool.go:1480-1543 | a clear is preceded, without a gap, by the pass's own ten observations: names read, rate limit passed, two error-free "not listed" answers for those names around a marker naming the pair, names re-read unchanged, attempt recorded |
| `PoolReconcile.RestartOnlyAfterConfirmedClear` | blockchain/bl_pool.go:1539-1567 | a restart is signalled only right after those, both successful config writes, the clean-up and a read-back of "" or "0" |
| `PoolProgress.LeaverIsCleared` | blockchain/bl_pool.go:1480-1567 | every schedule that lets the passes alone clears and restarts a device whose marker names its pair and that the chain no longer lists, whatever its pass was doing: six steps, the confirm delay and twelve more are enough, and it stays cleared |
| `PoolProgress.MemberIsRecorded` | blockchain/bl_pool.go:1362-1373 | six steps of a pass that is answered "member" leave a marker that reads back as chain + ":" + pool, whatever it held before, and touch nothing else; a marker that already does is not written |
| `PoolProgress.MemberThatLeavesIsCleared` | blockchain/bl_pool.go:1480-1544 | from end to end, with no marker assumed: a device told "member" and later "not listed" is cleared and restarted |
| `PoolProgress.SwitchedOff` | blockchain/bl_pool.go:1481-1487 | on a pool host, or while the kill switch is set, passes only log that they were skipped and the world is what everything else alone makes of it |
| `PoolProgress.AsksOnlyAboutPools` | blockchain/bl_pool.go:1488-1500 | no pass asks the chain without a configured pool and chain, or about an id that is not a 32-bit number |
| `PoolReconcile.PromptClear` | blockchain/bl_pool.go:1480-1567 | the whole world and log after such a pass that wakes as soon as it can |
| `PoolReconcile.ClearsLikeLeave` | blockchain/bl_pool.go:1549-1567 | the steps of an undisturbed clear do together what the same function does in a leave, for every pattern of failing writes |
| `PoolReconcile.AttemptsAreSpaced` | blockchain/bl_pool.go:1493-1535 | any two recorded clear attempts are more than 24 h - 1 s + confirm delay apart, though the marker keeps whole seconds only |
| `PoolReconcile.NoRestartLoop` | blockchain/bl_pool.go:1569-1586 | a run of length L has at most 1 + floor(L / 24 h) attempts and no more restarts than attempts, for a confirm delay of a second or more |
| `PoolReconcile.RunKeepsInv` | blockchain/bl_pool.go:1480-1567 | the invariant of the pass, the log, the marker and the rate limit holds after every interleaving |
| `PoolReconcile.ChainSays` | blockchain/bl_pool.go:1502-1527 | asked through a reachable chain, a pass hears what the contract holds |
| `PoolLeave.Device.HandlePoolLeave` | blockchain/bl_pool.go:1199-1327 | every outcome if and only if its condition on the config, the answers, cancellation and the writes holds; how many reads are made; the whole state each outcome leaves (409, 503 and "nothing configured" change nothing of their own, a failed clear leaves what its failing write left); a restart exactly on a confirmed clear; the pool wiped is the one asked about if and only if no other was configured during the reads |
| `PoolLeave.LoseJoin` | blockchain/bl_pool.go:1228-1310 | for every pool asked about and every other config written while the chain is asked, a leave that wipes that other config and reports success |
| `PoolLeave.Device.CheckListed` | blockchain/bl_pool.go:1278-1303 | at most three reads; the verdict is decided by the last, an error or a cancelled wait is never "not listed" |
| `PoolLeave.Device.ClearPoolConfig` | blockchain/bl_pool.go:1549-1567 | succeeds exactly if both writes do and the pool reads back unset; the whole state each failure leaves behind |
| `PoolLeave.ClearedIsUnset` | blockchain/bl_pool.go:1549-1567 | a confirmed clear leaves no pool, chain, member or open channel; after a failed one the pool is unset only if the second write failed; the cleared-at marker is never touched |
| `PoolLeave.Device.CleanLeaveJoinPool` | blockchain/bl_pool.go:315-342 | the whole new state; the stop channel is closed once and dropped |
| `PoolLeave.AsksConfiguredPool` | blockchain/bl_pool.go:1228-1281 | the chain is asked about the configured pool exactly when the requested id fits 32 bits |
| `PoolLeave.ResolvedChain` | blockchain/bl_pool.go:1252-1269 | the chain a leave is about is the requested one, else the configured one, else the discovered one, else skale |
| `PoolLeave.Device.LeaveAsks` | blockchain/bl_pool.go:1280-1281 | the question of a leave is about the low 32 bits of the requested id on that chain |
| `ClusterStatus.StatusIsContractState` | blockchain/bl_pool.go:1405-1435 | over replies encoded by the contract the status is an error or exactly the membership bit, and pending exactly for status 1 of a non-member; no error if the calls get through |
| `ClusterStatus.AnswersAreDefinite` | blockchain/bl_pool.go:1405-1472 | each of the four results if and only if the raw replies say so: a lost, short or malformed reply to a call it makes is an error, as are an unknown chain and an invalid id; "member" needs a full reply with a non-zero flag, "pending" and "not listed" a zero flag and a full second reply |
| `ClusterStatus.NotListedIsTrue` | blockchain/bl_pool.go:1405-1435 | over truthful replies it means neither a member nor waiting |
| `ClusterStatus.TruthfulEthCall` | blockchain/bl_pool.go:1439-1472 | a strict call returns nothing or the contract's own reply, through any pattern of lost attempts |
| `ClusterStatus.FirstResponse` | blockchain/blockchain.go:365-390 | a call has the result of the first of three attempts that gets a response, and none only if all three do not |
| `ClusterStatus.ReadCallRoundTrip` | blockchain/abi/contract.go:360-391 | a contract reading the call data gets back method, pool and key |
| `ClusterStatus.RepliesDecode` | blockchain/abi/contract.go:246-274 | the decoded replies are the contract's membership and status |
| `Abi.PoolsRoundTrip` | blockchain/abi/contract.go:97-243 | decoding inverts the head/tail encoding of every pool: fixed fields exact, strings up to 32 bytes; exactly a zero creator is rejected |
| `Abi.ShortPoolIsError` | blockchain/abi/contract.go:101-116 | a reply shorter than nine words is an error |
| `Abi.AmountsAreSigned` | blockchain/abi/contract.go:176-184 | the two amounts are read with their sign |
| `Abi.HugeLengthPanics` | blockchain/abi/contract.go:198-240 | a declared string length of 2^62 to 2^63 - 1 panics |
| `Abi.MissingStringIsEmpty` | blockchain/abi/contract.go:198-240 | a string that lies beyond the reply is read as empty |
| `Abi.StringRoundTrip` | blockchain/abi/contract.go:198-240 | a string at any slot offset comes back as its first 32 bytes |
| `Abi.SlotsOfFlatten` | blockchain/abi/contract.go:106-112 | cutting a reply into slots undoes joining its words |
| `Abi.SplitSlots` | blockchain/abi/contract.go:106-112 | the loop cuts the reply into whole 64-character slots |
| `Abi.IsZeroAddress` | blockchain/abi/contract.go:136-143 | the loop finds out whether every character is a zero |
| `Abi.DecodePoolsResult` | blockchain/abi/contract.go:97-243 | the imperative decoder is the function that `Abi.PoolsRoundTrip` is about, on every input |
| `Abi.PeerIdsRoundTrip` | blockchain/abi/contract.go:277-328 | decoding inverts the encoding of a bytes32 array of any length that can be allocated, in order, and panics on a longer one |
| `Abi.TruncatedArray` | blockchain/abi/contract.go:277-328 | a reply cut anywhere gives the ids that arrived whole |
| `Abi.HugeOffsetPanics` | blockchain/abi/contract.go:293-305 | a declared array offset of 2^62 to 2^63 - 1 panics |
| `Abi.DecodeGetMemberPeerIdsResult` | blockchain/abi/contract.go:277-328 | the imperative decoder is the function that `Abi.PeerIdsRoundTrip` is about, on every input |
| `Abi.MembershipRoundTrip` | blockchain/abi/contract.go:246-274 | the membership reply decodes to its bit and address |
| `Abi.StatusRoundTrip` | blockchain/abi/contract.go:397-412 | the status word of any eight-word reply is read |
| `Abi.PoolIdRoundTrip` | blockchain/abi/contract.go:341-357 | pool ids below 2^64 come back truncated to 32 bits, larger ones are an error |
| `Abi.PoolIdNeedsOneWord` | blockchain/abi/contract.go:345-348 | a reply of any other length is an error |
| `Abi.CallsInjective` | blockchain/abi/contract.go:331-391 | two encoder calls with equal data are the same method, the same number and the same peer up to its 0x |
| `Abi.CallParts` | blockchain/abi/contract.go:331-391 | call data is the method selector, one word for the number, and the peer without its 0x |
| `PeerId.SucceedsExactlyOnKeyIds` | blockchain/peerid_utils.go:14-72 | an id is accepted exactly when it is, up to a leading z, the id of some 32-byte key, and the result is that key |
| `PeerId.SuccessIsReversible` | blockchain/peerid_utils.go:14-108 | turning an accepted id's result back gives the id without its z |
| `PeerId.InvertsFromBytes32` | blockchain/peerid_utils.go:14-108 | the id of every key converts back to the key, with and without z |
| `PeerId.FromBytes32OfKey` | blockchain/peerid_utils.go:76-108 | every 32-byte key has an id |
| `PeerId.IdStarts` | blockchain/peerid_utils.go:90-108 | the id of every key starts with 12D3KooW |
| `PeerId.IdIsMultihash` | blockchain/peerid_utils.go:90-95 | the id of every key is the base58 text of the six-byte prefix and the key |
| `PeerId.Injective` | blockchain/peerid_utils.go:14-72 | two ids with the same result are equal up to the z |
| `PeerId.LegacyNeverSucceeds` | blockchain/peerid_utils.go:43-69 | a 34-byte decoding is always refused |
| `PeerId.HasHeader` | blockchain/peerid_utils.go:28-38 | the comparing loop is the prefix test |
| `PeerId.PeerIdToBytes32` | blockchain/peerid_utils.go:14-72 | the imperative conversion is that function, on every input |
| `Base58.RoundTrip` | blockchain/peerid_utils.go:97-101 | base58 decoding undoes encoding, leading zero bytes included |
| `ClientLifecycle.ShutdownIsSafe` | mobile/client.go:288-327 | in every interleaving host and datastore are closed at most once and only with nothing outstanding; the wait group counts admitted minus done; nothing is closed while an operation runs; the call that wins returns with both closed |
| `ClientLifecycle.ClosedAdmitsNothing` | mobile/client.go:97-110 | once `closed` is set no operation is ever admitted |
| `ClientLifecycle.OpenAdmits` | mobile/client.go:97-110 | in every reachable state with the mutex free a new operation is admitted, counted and running after three steps if and only if `closed` is not set, and turned away otherwise |
| `ClientLifecycle.DoneReleases` | mobile/client.go:104-109 | a running operation is no longer counted two steps after it is done |
| `ClientLifecycle.LoserReturnsEarly` | mobile/client.go:288-293 | in every reachable state with `closed` set and the mutex free, a further `Shutdown` can return in three steps that change nothing else, so it finds everything closed if and only if the first call had returned |
| `ClientLifecycle.ClosedByWinner` | mobile/client.go:288-327 | in every reachable state host and datastore are both closed if and only if the call that set `closed` has returned |
| `ClientLifecycle.DrainingCanFinish` | mobile/client.go:299-327 | from every reachable state a draining `Shutdown` can be run to its return |
| `ClientLifecycle.ShutdownReturns` | mobile/client.go:288-327 | in every reachable state with the mutex free a new `Shutdown` can be run to its return, with everything closed if the client was open |
| `ClientLifecycle.StepKeepsInv` | mobile/client.go:97-327 | each step of any thread keeps the invariant |
| `ListenerCloser.CloseIsFinal` | wap/pkg/server/server.go:50-108 | when any `Close` has returned, and ever after, no watcher runs, every listener handed over is closed and none can start |
| `ListenerCloser.StopClosedOnce` | wap/pkg/server/server.go:89-108 | the stop channel is closed at most once and the wait group counts the running watchers |
| `ListenerCloser.CloseCanReturn` | wap/pkg/server/lanbind.go:140-197 | a waiting `Close` never deadlocks with a watcher in `add`: from every reachable state it can be run to its return |
| `ListenerCloser.CloseReturns` | wap/pkg/server/server.go:88-108 | in every reachable state with the mutex free a new `Close` can be run to its return |
| `ListenerCloser.OneTickLeft` | wap/pkg/server/server.go:104-106 | in every schedule after `closed` is set a running watcher binds at most one more listener and takes at most five steps of its own, after which it has exited |
| `ListenerCloser.OpenClosesNothing` | wap/pkg/server/server.go:75-86 | no listener is closed while `closed` is not set |
| `ListenerCloser.OpenAdds` | wap/pkg/server/server.go:75-86 | an open closer lists an added listener three steps later, the whole new state |
| `ListenerCloser.OpenTicks` | wap/pkg/server/lanbind.go:324-343 | and one that a watcher binds, which then waits for its next tick |
| `ListenerCloser.OpenAppends` | wap/pkg/server/server.go:977 | and the one that `Serve` appends |
| `ListenerCloser.OpenStarts` | wap/pkg/server/lanbind.go:140-172 | on an open closer a watcher starts, gets the stop channel and is counted |
| `ListenerCloser.ClosedRefuses` | wap/pkg/server/lanbind.go:141-145 | on a closed one it does not start |
| `ListenerCloser.OpenWaits` | wap/pkg/server/lanbind.go:175-180 | on an open one it does not stop by itself |
| `ListenerCloser.QuitSteps` | wap/pkg/server/lanbind.go:171-194 | a watcher that is finished is no longer counted |
| `ListenerCloser.StepKeepsInv` | wap/pkg/server/lanbind.go:286-346 | each step of any thread keeps the invariant |
| `PluginRegistry.FileRefinesNames` | blockchain/bl_plugins.go:157-276 | over every run of installs and uninstalls of good names the file stands for, and lists, the sequence of distinct names |
| `PluginRegistry.InstallRefines` | blockchain/bl_plugins.go:157-218 | an install appends an absent name, also to the empty file that reads as one empty string |
| `PluginRegistry.UninstallRefines` | blockchain/bl_plugins.go:243-276 | an uninstall removes exactly that name |
| `PluginRegistry.ReadBack` | blockchain/bl_plugins.go:417-438 | the file reads back as the names; the empty list as no line or one empty line |
| `PluginRegistry.ActiveIsNames` | blockchain/bl_plugins.go:120-125 | listing shows exactly the registered names |
| `PluginRegistry.InstallKeepsExactly` | blockchain/bl_plugins.go:157-218 | for any name at all, when an install can be found afterwards |
| `PluginRegistry.CutKeepsFirst` | blockchain/bl_plugins.go:432-438 | after a write that was cut short the file lists the first names and what is left of the next one; all later plugins are lost |
| `PluginRegistry.Registry.Install` | blockchain/bl_plugins.go:157-218 | each reply exactly when, an unreadable file and bad parameters included, and the file it leaves, also when the write fails before or after truncating it |
| `PluginRegistry.Registry.Uninstall` | blockchain/bl_plugins.go:243-276 | each reply exactly when, an unreadable file included, and the file it leaves, also when the write fails before or after truncating it |
| `PluginRegistry.Registry.ListActive` | blockchain/bl_plugins.go:120-125 | the loop keeps the non-empty lines in order |
| `WifiScan.ParseLinux` | wap/pkg/wifi/scan.go:90-165 | an error exactly for empty or unreadable output; else at most six distinct networks by falling strength, each with the greatest strength heard for it, and a network is left out only for six that are no weaker |
| `WifiScan.ScanTable` | wap/pkg/wifi/scan.go:90-165 | the same over the rows of a printed table: signals are read from the signal column of rows in use or not, hidden networks and unreadable signals are skipped, strengths are half the signal less 100 |
| `WifiScan.PrintedRow` | wap/pkg/wifi/scan.go:105-125 | a printed row is skipped if and only if its network is hidden or its signal is no number, and otherwise reports its own network and signal |
| `WifiScan.ShortLine` | wap/pkg/wifi/scan.go:105-107 | a line cut before its eighth field is skipped |
| `WifiScan.AtoiItoa` | wap/pkg/wifi/scan.go:120-123 | every 64-bit number is read as written, also after a plus |
| `WifiScan.AtoiOnly` | wap/pkg/wifi/scan.go:120-123 | nothing but digits after at most one sign is read, and nothing out of 64 bits |
| `WifiScan.SameStrengths` | wap/pkg/wifi/scan.go:149-165 | whatever the map order and the order of ties, two answers have the same strengths in the same places and differ only among networks as weak as the last |
| `WifiScan.UpdateKeepsTable` | wap/pkg/wifi/scan.go:127-142 | the table holds the greatest strength of every network heard so far |

## Left out

- `exchange/fx_exchange.go`: one-shot push grants; only the use count could be stated, which is an easy counter.
- `PluginRegistry.Registry.Install`: the syntax of the parameters and the parameter and status files are one input that says whether they went well.
- `updatePluginImpl` and the plugin status, parameter and install-output files: plain file writes.
- `EncodeGetMemberPeerIdsCall`: its padding of an address depends on how Go pads strings with zeros; no decoder uses it.
- `PoolReconcile`: a pass is a machine over values rather than a method with fields, because other handlers run between its steps; joins, cancels and leaves appear as arbitrary writes of the pool, the chain and the marker.
- `PoolReconcile`: the text of the time marker is a number of whole seconds, its RFC 3339 form is not modelled; passes do not overlap, as the source assumes.
- `PoolReconcile.AttemptsAreSpaced`: a cleared-at marker that was written can be read back; the code treats one it cannot read like none, and then the limit does not hold.
- `PoolReconcile`: a join that lands after the re-check is not claimed to survive, and the two config writes are not claimed to be atomic; the code promises neither.
- `PoolLeave.Device.HandlePoolLeave`: other handlers interfere by one write of pool and chain during the reads and one before the read-back, not inside the two config writes; the wait between reads and the restart delay are not timed.
- `Abi.PoolsRoundTrip`: replies of 2^63 characters or more are excluded, since a Go string cannot have that length.
- `Abi.PeerIdsRoundTrip`: the same bound on the length of a reply.
- `Abi.DecodeGetMemberPeerIdsResult`: how long a slice can be allocated is a parameter, since it depends on the machine; a longer declared length panics.
- `PeerId`: multibase and base58 are modelled as plain base58 with the usual alphabet; keys are bytes without any curve arithmetic.
- `ClientLifecycle` and `ListenerCloser`: threads are values of one machine, not Dafny objects; real sockets, streams and contexts are events.
- `ListenerCloser.OneTickLeft`: a tick that binds nothing is no step; how often a watcher with a closed stop channel may still draw such a tick is left to the scheduler.
- `ListenerCloser`: the append without the mutex at `wap/pkg/server/server.go:977` is one atomic step that precedes every `Close`.
- `WifiScan.ParseLinux`: lines arrive already split into fields; the Windows and macOS parsers are separate code.
- HTTP handlers, JSON, libp2p, kubo, Docker, the other chain handlers, mDNS and AI chat: input and output around this core.
