# Verified model of the Bifrost IB socket layer

The IB socket layer runs services that hold a connection to a TWS or IB Gateway instance. At most one pod may do so at a
time, commands reach it through a Redis stream, and it keeps market data lines within an account budget. This project
models the parts of it where that is decided, and proves what they guarantee over every run.

| file | models |
|---|---|
| `lease_record.dfy`, `lease_backend.dfy`, `lease_elector.dfy` | the Lease record, the compare-and-swap store and the elector, as classes over one store |
| `lease_protocol.dfy` | any number of pods over one store, ticks split into interleaving steps, with lost, late and refused calls, crashes, restarts and clock skew |
| `lease_drivers.dfy` | the elector's ticks and driver loops as runs of that protocol |
| `lease_exclusion.dfy`, `lease_history.dfy`, `lease_service.dfy`, `lease_failover.dfy` | what holds of every run of it |
| `operator_protocol.dfy`, `operator_stream.dfy`, `operator_delivery.dfy`, `operator_turns.dfy`, `operator_service.dfy` | the operator's command envelope, the stream and its consumer step by step, the turns of the loop, and the loop over a Redis object |
| `ib_connect.dfy` | the port and client-id search, and the client that keeps its id across reconnects |
| `historical_bars.dfy`, `executions.dfy`, `subscriptions.dfy` | backward chunking of bars, the three-source execution merge, subscriptions and ticker tables |
| `heartbeat.dfy`, `config_merge.dfy` | the heartbeat clock and the layered configuration merge |

Times are reals. What the outside world does (clock readings, failures, answers, outcomes of commands and of connect
attempts) enters as parameters or as the choice of actions in a run, and every statement is over all of them.

## What the code does and does not guarantee

- **One service per Lease.** `run_with_leadership` promises at most one live connection per Lease. Compare-and-swap and
  expiry alone give that only for leaders whose last success is still fresh (`LeaseExclusion.MutualExclusion`). For the
  services it holds exactly when, for every pod, renew deadline + gap between ends of renew ticks + time a cancelled
  service takes to end + clock skew is at most the stored lease duration (`LeaseService.ExclusionIffTimingFits`).
  `LeaseService.OverlapWithoutTheBound` builds the run that breaks it when the sum is larger by however little. The
  defaults leave five seconds for gap, unwinding and skew. A tick is taken to last no longer than the renew deadline,
  which nothing in the code enforces.
- **One leader.** At most one pod is in its renew loop exactly when renew deadline + gap + skew, without the unwind time,
  fit into every pod's stored duration (`LeaseService.OneRenewingIff`), and the same bound keeps the `is_leader` flags
  apart as long as nobody is told to stop (`LeaseService.OneFlagIff`). `stop` never clears the flag: a stopped pod keeps
  it under any timing, also when another pod leads (`LeaseService.StopLeavesTwoFlags`).
- **Identities.** Holding is decided by identity alone, so two electors sharing one both lead
  (`LeaderElection.SharedIdentityBreaksExclusion`).
- **Fail-over.** Take any reachable state and any pod, whatever restarts and failed calls it went through before. If from
  then on its ticks start at most a period apart over a working backend, a record still valid then is replaced within 20
  seconds of its renew time when period and tick together take less than five
  (`LeaseFailover.DefaultsFailOverWithin20`), so a period of two seconds allows ticks of up to three. But the drivers
  sleep the retry time after a tick, so their period is the retry time plus a tick. For them fail-over stays under a
  bound exactly when duration + retry time + two ticks are less than it (`LeaseFailover.FailOverIff`): the default two
  seconds keep the 20 if and only if a whole tick, which is two backend calls at a takeover, takes less than 1.5 seconds
  (`LeaseFailover.FailOverWithin20Iff`; `SlowestFailOver` is the run that misses it).
- **At least once.** No entry is lost, but only the consumer that was given one can get it again, and the consumer name
  holds the process id. A crash followed by a restart under another name strands the command
  (`OperatorDelivery.RenameStrands`, `StrandedUntilOwnerReturns`); `OperatorTurns.AtLeastOnceIff` says exactly which
  entries come back.
- **Realized profit.** The second pass over the cached fills can erase a realized profit that was already known
  (`Executions.ProfitIsLost`); `Executions.ProfitLostIff` says for which inputs it does. Requested fills without an
  execution id are not deduplicated; only non-empty ids are distinct.
- **Line budget.** The watchlist split keeps the cap; on-demand symbols are added after it and are not capped
  (`Subscriptions.OnDemandIsNotCapped`). The published keys keep it exactly when the on-demand symbols not already
  selected fit into what the selection leaves (`Subscriptions.CapKeptIff`).
- **Empty polls.** When nothing is wanted, or the watchlist query fails, the session publishes that nothing is subscribed
  but leaves every ticker line open (`Subscriptions.TickerTable.Poll` gives the exact case). When the connector is not
  connected it publishes the keys although none of them got a line.
- **Countdown.** The published countdown is zero exactly when the next tick fires, except for a clock never set with a
  zero interval (`Heartbeat.CountdownIff`).
- **Merge.** The configuration merge is not associative; `ConfigMerge.AssociativeIff` says exactly when it is.
- **Branches never taken.** The result written for an unparsable command that has a request id, and "all client ids
  failed, trying port" in `connect`.

## Model

| member | source | states |
|---|---|---|
| `LeaseRecords.RoundHalfEvenUnique` | src/bifrost_socket/ib/lease.py:188 | rounding to whole seconds is to the nearest, even on a tie, and nothing else is |
| `LeaseRecords.KubernetesDurationDrift` | src/bifrost_socket/ib/lease.py:172-192 | writing and reading a duration moves it by at most half a second if and only if it does not round to zero; one that does comes back as 15; a second trip changes nothing |
| `LeaseRecords.KubernetesReadsNearestWhole` | src/bifrost_socket/ib/lease.py:172-192 | a duration comes back as the whole number of seconds nearest to it, the even one on a tie, and as 15 if that is zero |
| `LeaseBackends.InMemoryLeaseBackend.constructor` | src/bifrost_socket/ib/lease.py:106-108 | the store starts empty |
| `LeaseBackends.InMemoryLeaseBackend.Get` | src/bifrost_socket/ib/lease.py:110-111 | returns the last stored record, if any |
| `LeaseBackends.InMemoryLeaseBackend.CreateLease` | src/bifrost_socket/ib/lease.py:113-119 | stores the record under the next version if and only if nothing was ever stored; otherwise conflict and no change |
| `LeaseBackends.InMemoryLeaseBackend.UpdateLease` | src/bifrost_socket/ib/lease.py:121-132 | replaces the record if and only if its version is the current one; otherwise conflict and no change |
| `LeaseBackends.CompareAndSwap` | src/bifrost_socket/ib/lease.py:113-132 | after any writes by others, an update prepared on the current record is admitted if and only if none of them was applied |
| `LeaderElection.LeaderElector.TryAcquireOrRenew` | src/bifrost_socket/ib/lease.py:277-331 | one tick, with rivals writing in between and any fault of its calls, leaves store, elector and attempt as `Tick` says |
| `LeaderElection.LeaderElector.WriteAndMark` | src/bifrost_socket/ib/lease.py:324-340 | marks leadership only when the write was applied and its answer heard; a lost answer still leaves the record stored |
| `LeaderElection.LeaderElector.MarkNotLeader` | src/bifrost_socket/ib/lease.py:342-349 | drops the flag and fires "stopped" once, only if leading |
| `LeaderElection.LeaderElector.ExpireSelf` | src/bifrost_socket/ib/lease.py:351-360 | the same demotion at the renew deadline |
| `LeaderElection.LeaderElector.Acquire` | src/bifrost_socket/ib/lease.py:364-371 | the standby loop ticks until one succeeds or `stop` is set |
| `LeaderElection.LeaderElector.RenewUntilLost` | src/bifrost_socket/ib/lease.py:373-387 | the renew loop leaves on another holder, on a failed tick past the deadline, or on `stop` |
| `LeaderElection.TickOutcome` | src/bifrost_socket/ib/lease.py:277-349 | a success leaves our own record dated now in the store; a failed tick changes nothing in the elector; held-by-other means another's unexpired record and no flag |
| `LeaderElection.TickExactly` | src/bifrost_socket/ib/lease.py:277-349 | exactly when a tick succeeds, fails, or finds another holder, when a success acquires and when it renews, and which callback it fires |
| `LeaderElection.TransitionsKeepValid` | src/bifrost_socket/ib/lease.py:333-360 | marking and demoting keep the callbacks alternating and the flag in step |
| `LeaderElection.StartedMinusStopped` | src/bifrost_socket/ib/lease.py:333-360 | started minus stopped is one exactly while leading |
| `LeaderElection.AcquireLeadsOnlyByWinning` | src/bifrost_socket/ib/lease.py:364-371 | over every run a standby fires nothing until the round that stores its record, and then "started" once |
| `LeaderElection.RenewGivesUpTheFlag` | src/bifrost_socket/ib/lease.py:373-387 | over every run the renew loop gives the flag up on every exit but `stop`, and by the deadline only when it has passed |
| `LeaderElection.SharedIdentityBreaksExclusion` | src/bifrost_socket/ib/lease.py:306 | two electors with one identity both lead |
| `LeaseProtocol.AppliedIsLinked` | src/bifrost_socket/ib/lease.py:311-324 | however late a request is applied, it is admitted exactly when nothing was stored since it was prepared, and a takeover only of an expired record |
| `LeaseProtocol.DeliverKeepsInv` | src/bifrost_socket/ib/lease.py:296-340 | applying a request keeps every pod's last success either visible in the store or too old to count |
| `LeaseProtocol.DeliveredOnce` | src/bifrost_socket/ib/lease.py:121-132 | a write that was sent is applied at most once, however late |
| `LeaseProtocol.ControlEffects` | src/bifrost_socket/ib/lease.py:435-455 | stopping cancels the service and leaves the flag; a restart leaves a standby whose earlier writes may still arrive |
| `LeaseProtocol.StepKeepsInv` | src/bifrost_socket/ib/lease.py:277-387 | every step of every pod keeps the protocol invariant |
| `LeaseProtocol.ReachableInv` | src/bifrost_socket/ib/lease.py:277-387 | the invariant holds in every reachable state |
| `LeaseExclusion.FreshLeaderIsHolder` | src/bifrost_socket/ib/lease.py:277-340 | in every reachable state a fresh leader is the stored holder with a renew time no older than its last success |
| `LeaseExclusion.MutualExclusion` | src/bifrost_socket/ib/lease.py:277-340 | in every reachable state at most one pod leads on a fresh success |
| `LeaseExclusion.CallbacksBalance` | src/bifrost_socket/ib/lease.py:333-360 | in every reachable state each pod's callbacks alternate and balance with its flag |
| `LeaseDrivers.TickRefinesProtocol` | src/bifrost_socket/ib/lease.py:277-331 | an elector's tick, whatever rivals do between its read and its write, is a run of the split protocol with the same store and elector |
| `LeaseDrivers.AcquireRefinesProtocol` | src/bifrost_socket/ib/lease.py:364-371 | the whole standby loop, whatever rivals do between and within its ticks, is a run of the protocol that goes on to renew exactly when it led |
| `LeaseDrivers.RenewRefinesProtocol` | src/bifrost_socket/ib/lease.py:373-387 | the whole renew loop is one, and its pod is past its loops exactly on the loss and deadline exits |
| `LeaseHistory.LinkShape` | src/bifrost_socket/ib/lease.py:311-322 | what each stored record takes over from the one before, for a renewal and for a takeover |
| `LeaseHistory.LogIsTerms` | src/bifrost_socket/ib/lease.py:289-331 | the records form terms; transitions count the holder changes exactly, acquire time is fixed within a term, and terms are separated by more than the old duration |
| `LeaseHistory.ReachableLogIsTerms` | src/bifrost_socket/ib/lease.py:113-132 | the same of every reachable store, whose version counts its records |
| `LeaseHistory.RenewTimeNeverDecreases` | src/bifrost_socket/ib/lease.py:311-321 | renew times never go back between any two records |
| `LeaseHistory.VersionCountsWrites` | src/bifrost_socket/ib/lease.py:113-132 | over every run the version counts the applied writes and stored records stay |
| `LeaseService.TimelyStepKeepsPace` | src/bifrost_socket/ib/lease.py:364-387 | every timely step keeps each pod within deadline, gap and unwind time of its last success |
| `LeaseService.TimelyStepKeepsInv` | src/bifrost_socket/ib/lease.py:306-309 | under the bound every timely step also keeps renewing pods reading only their own record |
| `LeaseService.AtMostOneService` | src/bifrost_socket/ib/lease.py:421-455 | under the timing bound no two services are ever alive, on the loss, deadline and stop paths alike |
| `LeaseService.LeaderReadsItself` | src/bifrost_socket/ib/lease.py:306-309 | under the bound a running leader only ever reads its own record |
| `LeaseService.LossGoesThroughTheDeadline` | src/bifrost_socket/ib/lease.py:342-387 | under the bound its flag drops if and only if the renew deadline has passed at a failed tick, or the pod restarts |
| `LeaseService.StepsDownInTime` | src/bifrost_socket/ib/lease.py:375-387 | whether or not the bound holds, a leader has left the renew loop by last success + deadline + gap, and its service is gone one unwind time later |
| `LeaseService.SlowestLeader` | src/bifrost_socket/ib/lease.py:435-449 | the run of a leader that uses up every allowance |
| `LeaseService.OverlapWithoutTheBound` | src/bifrost_socket/ib/lease.py:421-455 | when the bound fails for one pod, a timely run ends with two services alive (and, the first pod being stopped, two flags up) |
| `LeaseService.OneRenewingIff` | src/bifrost_socket/ib/lease.py:373-387 | over all timely runs at most one pod is in its renew loop if and only if deadline, gap and skew fit into every stored duration |
| `LeaseService.FlagMeansRenewing` | src/bifrost_socket/ib/lease.py:333-360 | unless somebody is told to stop the flag is up exactly in the renew loop |
| `LeaseService.OneFlagIff` | src/bifrost_socket/ib/lease.py:333-387 | over all timely runs without `stop` at most one flag is up if and only if the same bound holds |
| `LeaseService.TwoLeadersWithoutTheBound` | src/bifrost_socket/ib/lease.py:373-387 | the run without `stop` that ends with two pods renewing and two flags up when it fails |
| `LeaseService.StopLeavesTwoFlags` | src/bifrost_socket/ib/lease.py:373-381 | under any timing a stopped pod's flag is still up when another pod leads |
| `LeaseService.ExclusionIffTimingFits` | src/bifrost_socket/ib/lease.py:431-433 | exclusion of services over all timely runs holds if and only if the bound does |
| `LeaseService.DefaultsAreSafeIff` | src/bifrost_socket/ib/lease.py:42-44 | the default durations keep services apart exactly when gap, unwind time and skew fit into five seconds, and leaders when gap and skew do |
| `LeaseFailover.NoStaleLease` | src/bifrost_socket/ib/lease.py:306-331 | from any reachable state, while one pod keeps ticking, no record outlives its lapse by more than a period and a tick |
| `LeaseFailover.FailOver` | src/bifrost_socket/ib/lease.py:306-331 | past that point, if the holder stored nothing, another pod has taken the Lease over, whatever the ticking pod went through before |
| `LeaseFailover.DefaultsFailOverWithin20` | src/bifrost_socket/ib/lease.py:40-44 | with the default duration a record still valid is replaced within 20 seconds of its renew time when period and tick take less than five |
| `LeaseFailover.DriverRunTicks` | src/bifrost_socket/ib/lease.py:364-381 | the drivers' ticks start at most the retry time plus a tick apart |
| `LeaseFailover.SlowestFailOver` | src/bifrost_socket/ib/lease.py:364-371 | a driver run in which a record is still there after its duration, the retry time and two ticks |
| `LeaseFailover.FailOverIff` | src/bifrost_socket/ib/lease.py:364-381 | from all reachable states and over all driver runs from there, every record still valid is replaced within a bound of its renew time if and only if duration + retry time + two ticks are less than the bound |
| `LeaseFailover.FailOverWithin20Iff` | src/bifrost_socket/ib/lease.py:40-44 | with the defaults fail-over takes less than 20 seconds if and only if a tick takes less than 1.5 |
| `OperatorProtocol.ParseIsMessageXorError` | src/bifrost_socket/ib/operator/protocol.py:66-109 | parsing yields exactly one of message and error, a message exactly when every field is acceptable |
| `OperatorProtocol.FirstFaultIsReported` | src/bifrost_socket/ib/operator/protocol.py:72-97 | the error names the first unacceptable field in order |
| `OperatorProtocol.CommandOf` | src/bifrost_socket/ib/operator/protocol.py:37-109 | what a command takes from each field of its entry, and that it has expired exactly when the deadline its entry names lies strictly before now |
| `Text.StripMeaning` | src/bifrost_socket/ib/operator/protocol.py:73 | trimming takes off all white space at both ends and nothing else |
| `OperatorProtocol.BodyRespectsCap` | src/bifrost_socket/ib/operator/protocol.py:51-59 | every dumped body is within the cap, the outcome itself whenever it fits |
| `OperatorProtocol.BodiesWhenTooLarge` | src/bifrost_socket/ib/operator/service.py:348-372 | what is written when the outcome cannot be encoded or is too large, and for a late command |
| `OperatorStream.StepKeepsInv` | src/bifrost_socket/ib/operator/service.py:303-373 | every step, fault or crash keeps the consumer's invariant |
| `OperatorStream.FailureEffects` | src/bifrost_socket/ib/operator/service.py:303-373 | what a failed read, write or acknowledgement, a lost reply, and the end of the loop leave behind |
| `OperatorStream.ResultBeforeAck` | src/bifrost_socket/ib/operator/service.py:332-373 | every acknowledged entry could not be parsed or has a result written under its request id |
| `OperatorStream.ResultIsThere` | src/bifrost_socket/ib/operator/service.py:332-373 | as long as no result expires, the result of every acknowledged command stands in Redis under the prefix and its trimmed request id |
| `OperatorStream.NothingIsLost` | src/bifrost_socket/ib/operator/service.py:303-326 | every entry is undelivered, pending, or acknowledged, even if its request id was used before |
| `OperatorStream.ExpiredIsNeverExecuted` | src/bifrost_socket/ib/operator/service.py:340-361 | every execution is of an acceptable entry checked no later than the deadline it names, if it names one, and no delivery executes twice |
| `OperatorStream.ExecutedUnlessLate` | src/bifrost_socket/ib/operator/service.py:340-372 | a command about to be answered or acknowledged was executed on this very delivery, unless a deadline it names had passed at the check |
| `OperatorDelivery.InOrderOnePending` | src/bifrost_socket/ib/operator/service.py:303-321 | while the group survives and no pending read errors, entries come in stream order with at most one pending |
| `OperatorDelivery.ExactlyOnce` | src/bifrost_socket/ib/operator/service.py:303-373 | with no crash or failed ack either, the k-th delivery is entry k and each is acknowledged |
| `OperatorDelivery.StrandedUntilOwnerReturns` | src/bifrost_socket/ib/operator/redis_io.py:87-88 | an entry pending for another consumer name is never delivered while the group lives and the name stays away |
| `OperatorDelivery.RenameStrands` | src/bifrost_socket/ib/operator/redis_io.py:87-88 | a crash and a restart under another name leave a good command without a result |
| `OperatorTurns.CalmTurn` | src/bifrost_socket/ib/operator/service.py:303-373 | any turn without faults takes one entry out of reach, if there is one, settles it, and touches nobody else's |
| `OperatorTurns.CalmLoop` | src/bifrost_socket/ib/operator/service.py:275-373 | any turns without faults, if there are enough of them, deliver exactly what is within reach, each once, and its result is stored |
| `OperatorTurns.AtLeastOnceIff` | src/bifrost_socket/ib/operator/service.py:303-326 | they deliver an entry that is not acknowledged if and only if it is not pending for another consumer, and what they deliver is settled; if the group is gone every entry comes back |
| `OperatorService.RedisServer.EnsureGroup` | src/bifrost_socket/ib/operator/redis_io.py:46-61 | creates a missing group from id 0 and leaves an existing one |
| `OperatorService.RedisServer.ReadPending` | src/bifrost_socket/ib/operator/redis_io.py:19-43 | the consumer's oldest pending entry, recreating a missing group |
| `OperatorService.RedisServer.ReadNew` | src/bifrost_socket/ib/operator/redis_io.py:115-126 | the next undelivered entry, which becomes pending for the consumer |
| `OperatorService.RedisServer.XAck` | src/bifrost_socket/ib/operator/redis_io.py:98-102 | the entry is pending no more |
| `OperatorService.OperatorLoop.ReadOwn` | src/bifrost_socket/ib/operator/service.py:303-313 | one pending read, whose error counts as having none |
| `OperatorService.OperatorLoop.ReadNext` | src/bifrost_socket/ib/operator/service.py:315-324 | one read of new entries, whose error starts the next turn |
| `OperatorService.OperatorLoop.CheckAndExecute` | src/bifrost_socket/ib/operator/service.py:329-371 | executes exactly the acceptable entries whose deadline has not passed, and yields the body to be written: of the outcome, of lateness, or nothing for an entry that is only acknowledged |
| `OperatorService.OperatorLoop.HandleEntry` | src/bifrost_socket/ib/operator/service.py:326-373 | takes exactly the steps the entry and the faults call for, and leaves that body in Redis under the prefix and the request id, all other results untouched; a failed write leaves the loop |
| `OperatorService.OperatorLoop.TakeTurn` | src/bifrost_socket/ib/operator/service.py:303-373 | one turn: pending first, new entries only if none is pending, the entry handled at once; `stop` found set before new entries are read or before handling leaves the loop, the entry still pending |
| `OperatorService.OperatorLoop.Run` | src/bifrost_socket/ib/operator/service.py:275-373 | whatever the turns bring, the loop takes exactly the steps `LoopSteps` lists, they are a run of the modelled consumer, and it is where they lead |
| `IbConnect.SearchMeaning` | src/bifrost_socket/ib/connector/ib_connector.py:157-287 | at most ports x ids attempts; the pair it ends on is given by the refusals and the failures in a row; it ends for one of three reasons |
| `IbConnect.IBConnector.Connect` | src/bifrost_socket/ib/connector/ib_connector.py:134-291 | the nested loops refine the recursive search; success lands on the port as many steps on as attempts were refused and the id as many on as failed since; failure leaves both; the last fall-through is reached only with no attempts allowed |
| `IbConnect.IBConnector.Disconnect` | src/bifrost_socket/ib/connector/ib_connector.py:293-312 | closes a connected connector, leaves another alone (its tables: `Subscriptions.TickerTable.Disconnect`) |
| `IbConnect.NextKeepsInv` | src/bifrost_socket/ib/connector/ib_client.py:175-263 | each event keeps the client's invariant and bounds the rise of its id: nine for a full connect, zero for a heartbeat |
| `IbConnect.EventEffects` | src/bifrost_socket/ib/connector/ib_client.py:73-263 | what each event does to flag, connector and memory of a drop, and that reconnects count exactly the successful connects after one |
| `IbConnect.EnsuredMeaning` | src/bifrost_socket/ib/connector/ib_client.py:175-231 | a connect that is needed searches five ports, or one port with one attempt for a heartbeat, from the configured port and the current id |
| `IbConnect.ClientIdOverRuns` | src/bifrost_socket/ib/connector/ib_client.py:175-263 | over any sequence of events the id never goes down, its rise is bounded by the connects, the configured port stays, and the flag implies a connector |
| `IbConnect.BaseIbClient.EnsureConnected` | src/bifrost_socket/ib/connector/ib_client.py:175-231 | replaces a dead connector by a search from the configured port and the current id |
| `IbConnect.BaseIbClient.OnDisconnected` | src/bifrost_socket/ib/connector/ib_client.py:113-120 | a disconnected event clears the flag |
| `IbConnect.BaseIbClient.ConnectedSnapshot` | src/bifrost_socket/ib/connector/ib_client.py:73-111 | reports live or within the grace period, else clears the flag; a read that raises or times out reports the flag and leaves it; never true without a connector |
| `IbConnect.BaseIbClient.DisconnectClient` | src/bifrost_socket/ib/connector/ib_client.py:245-263 | leaves no connector and no flag |
| `HistoricalBars.GetHistoricalBarsRange` | src/bifrost_socket/ib/connector/ib_connector.py:1333-1435 | at most 2000 requests, tiling the range backward, collecting good answers until one of six reasons to stop |
| `HistoricalBars.ReachedStartTiles` | src/bifrost_socket/ib/connector/ib_connector.py:1376-1381 | when the start is reached the segments cover the range exactly, in its length over the chunk, rounded up, requests |
| `HistoricalBars.ReachesStartIff` | src/bifrost_socket/ib/connector/ib_connector.py:1370-1378 | with good answers only, the start is reached if and only if 2000 chunks are enough |
| `HistoricalBars.EveryBarExactlyOnce` | src/bifrost_socket/ib/connector/ib_connector.py:1383-1424 | with exact non-empty windows every bar in range comes back exactly as often as it exists; any other lies less than a chunk before the start |
| `HistoricalBars.CollectedInOrder` | src/bifrost_socket/ib/connector/ib_connector.py:1366-1413 | the answers are returned one after the other in the order of the requests |
| `Executions.GetExecutions` | src/bifrost_socket/ib/connector/ib_connector.py:1031-1232 | the loops over a set of seen ids refine the merge of the fills that count, followed by the second pass row by row |
| `Executions.SecondPass` | src/bifrost_socket/ib/connector/ib_connector.py:1198-1226 | rewriting rows from an index of cached fills keeps count and order and refreshes each row from its last cached fill |
| `Executions.IdsDistinctAndComplete` | src/bifrost_socket/ib/connector/ib_connector.py:1031-1196 | non-empty ids are distinct and are those of the requested fills and of the account's cached fills |
| `Executions.ReturnedRow` | src/bifrost_socket/ib/connector/ib_connector.py:1047-1226 | every returned row belongs to a fill that counts and takes its commission from that fill, the events, or the last cached fill, in this order |
| `Executions.ReturnedFields` | src/bifrost_socket/ib/connector/ib_connector.py:1047-1226 | where each field of each returned row comes from: the fill's own report, the events if it has no commission, its contract, then the second pass |
| `Executions.EveryFillHasItsRow` | src/bifrost_socket/ib/connector/ib_connector.py:1037-1196 | every requested fill without an id or first with its id, and every first matching cached fill with a new id, has its row at the place its order gives it |
| `Executions.OneRowPerFill` | src/bifrost_socket/ib/connector/ib_connector.py:1037-1196 | and no other fill has one |
| `Executions.SecondPassTouches` | src/bifrost_socket/ib/connector/ib_connector.py:1207-1226 | rows with a commission are untouched; exactly when a row's known realized profit is erased |
| `Executions.ProfitLostIff` | src/bifrost_socket/ib/connector/ib_connector.py:1031-1226 | over all inputs: some row loses a known realized profit if and only if a fill that counts has a profit, no commission, and a last cached fill that reports something but no profit |
| `Executions.ProfitIsLost` | src/bifrost_socket/ib/connector/ib_connector.py:1198-1226 | an input for which the profit is lost |
| `Subscriptions.FetchWatchlist` | src/bifrost_socket/ib/ingestor/watchlist.py:33-109 | options first, stocks from what is left, never beyond the budget, nothing left out while budget remains, and nothing at all when the query fails |
| `Subscriptions.CollectOptions` | src/bifrost_socket/ib/ingestor/watchlist.py:49-85 | watchlist rows, then positions with new keys |
| `Subscriptions.OptionsMeaning` | src/bifrost_socket/ib/ingestor/watchlist.py:49-85 | exactly the keys of watchlist and positions are there, and no position repeats a key |
| `Subscriptions.ContractFields` | src/bifrost_socket/ib/ingestor/watchlist.py:49-84 | each field of a selected contract, trimmed, a call by default |
| `Subscriptions.WithKeyInOrder` | src/bifrost_socket/ib/ingestor/watchlist.py:49-59 | watchlist rows keep their order |
| `Subscriptions.NewPositionsInOrder` | src/bifrost_socket/ib/ingestor/watchlist.py:73-84 | positions keep theirs, and of several with one key the first is taken |
| `Subscriptions.MergeOnDemand` | src/bifrost_socket/ib/ingestor/ib_ingestor.py:304-311 | appends each on-demand symbol not selected yet, once |
| `Subscriptions.PublishedMeaning` | src/bifrost_socket/ib/ingestor/ib_ingestor.py:333-336 | options are published under their contract key, stocks under symbol and suffix, and nothing else is |
| `Subscriptions.KeysWithinCapPlusOnDemand` | src/bifrost_socket/ib/ingestor/ib_ingestor.py:297-336 | whatever is queried, the key set exceeds the cap by at most the on-demand symbols not already selected |
| `Subscriptions.CapKeptIff` | src/bifrost_socket/ib/ingestor/ib_ingestor.py:297-336 | how many keys are published, and so exactly when the cap is kept |
| `Subscriptions.FullCapKeptIff` | src/bifrost_socket/ib/ingestor/ib_ingestor.py:297-336 | a watchlist that fills the cap keeps it if and only if every on-demand symbol was selected anyway |
| `Subscriptions.OnDemandIsNotCapped` | src/bifrost_socket/ib/ingestor/ib_ingestor.py:304-336 | under a cap of zero every on-demand symbol is still a key |
| `Subscriptions.TickerTable.UnsubscribeTicker` | src/bifrost_socket/ib/connector/ib_connector.py:675-686 | the key goes; its line closes exactly if the cancel goes through |
| `Subscriptions.TickerTable.UnsubscribeOptionTicker` | src/bifrost_socket/ib/connector/ib_connector.py:763-774 | the same for an option |
| `Subscriptions.TickerTable.SubscribeTickers` | src/bifrost_socket/ib/connector/ib_connector.py:636-669 | each requested symbol that gets a line gets one of its own; a symbol tracked already leaves its old line open and untracked, and no other line goes astray |
| `Subscriptions.TickerTable.SubscribeOptionTicker` | src/bifrost_socket/ib/connector/ib_connector.py:688-732 | one line of its own if connected and either request goes through, else no change |
| `Subscriptions.TickerTable.SubscribeOptionTickers` | src/bifrost_socket/ib/connector/ib_connector.py:734-761 | each contract key gets at most one line, and the same for keys tracked already |
| `Subscriptions.OptionKeysMeaning` | src/bifrost_socket/ib/connector/ib_connector.py:688-761 | a contract key gets a line exactly if its first row can be requested and one of the two requests goes through |
| `Subscriptions.TickerTable.ApplySubs` | src/bifrost_socket/ib/ingestor/ib_ingestor.py:344-355 | no stale key remains, the open lines the tables do not track are exactly older strays and failed cancels, and without either lines and entries correspond one to one |
| `Subscriptions.TickerTable.Poll` | src/bifrost_socket/ib/ingestor/ib_ingestor.py:296-359 | one round of the session, from query to published keys; it publishes nothing while lines are tracked exactly when nothing is wanted and lines were tracked before |
| `Subscriptions.TickerTable.PollAll` | src/bifrost_socket/ib/ingestor/ib_ingestor.py:294-359 | over any session, an untracked open line was one before or failed to be cancelled; as long as cancels go through lines and entries correspond one to one |
| `Subscriptions.TickerTable.Disconnect` | src/bifrost_socket/ib/connector/ib_connector.py:293-312 | both tables are cleared, option lines are cancelled, and closing the socket ends the rest |
| `Heartbeat.ServiceHeartbeatClock.Tick` | src/bifrost_socket/ib/connection_lifecycle.py:122-130 | fires when an interval has passed, and sets an unset clock without firing |
| `Heartbeat.ServiceHeartbeatClock.TickAll` | src/bifrost_socket/ib/operator/service.py:275-278 | the fires of a whole run |
| `Heartbeat.EffectiveInterval` | src/bifrost_socket/ib/connection_lifecycle.py:65-73 | at least the probe interval and the configured refresh |
| `Heartbeat.FiresAreSpaced` | src/bifrost_socket/ib/connection_lifecycle.py:122-130 | fires are an interval apart, the first one from when the clock was set |
| `Heartbeat.FireRate` | src/bifrost_socket/ib/connection_lifecycle.py:122-130 | at most floor(elapsed / interval) fires |
| `Heartbeat.NoBeatMissed` | src/bifrost_socket/ib/connection_lifecycle.py:122-130 | less than an interval before every tick lies a fire, or the time the clock was set |
| `Heartbeat.CountdownIff` | src/bifrost_socket/ib/connection_lifecycle.py:132-143 | exactly when the published countdown tells whether the next tick fires |
| `Heartbeat.CountdownTells` | src/bifrost_socket/ib/connection_lifecycle.py:132-143 | the countdown of a clock that was set gives the time of the next fire |
| `ConfigMerge.DeepMerge` | src/bifrost_socket/config.py:112-120 | the loop over the overlay's keys yields the recursive merge |
| `ConfigMerge.MergeIdempotent` | src/bifrost_socket/config.py:112-120 | merging a layer onto itself changes nothing |
| `ConfigMerge.MergeAbsorbs` | src/bifrost_socket/config.py:112-120 | merging the overlay again, or the base again below, changes nothing |
| `ConfigMerge.OverlayLeavesSurvive` | src/bifrost_socket/config.py:112-120 | every leaf path of the overlay survives with its value |
| `ConfigMerge.BaseLeavesSurviveIff` | src/bifrost_socket/config.py:112-120 | exactly which leaves of the base survive |
| `ConfigMerge.CoversIff` | src/bifrost_socket/config.py:112-120 | exactly when the base adds nothing to the overlay |
| `ConfigMerge.AssociativeIff` | src/bifrost_socket/config.py:112-120 | three layers associate if and only if no leaf in the middle hides a mapping the top brings back incompletely |
| `ConfigMerge.AgreeingLayersAssociate` | src/bifrost_socket/config.py:112-120 | layers that agree on which shared keys are mappings associate |
| `ConfigMerge.MergeIsNotAssociative` | src/bifrost_socket/config.py:112-120 | three layers that do not |

## Left out

- The Kubernetes API client beyond the duration encoding and 409 as a conflict: the Lease is an atomic register that is never deleted, and times keep full precision.
- Clocks that go backward: each pod's own clock readings never decrease, and no pod's clock is more than `skew` ahead of the slowest; gap, unwind time and latency are measured on the slowest.
- Callbacks that raise, logging, and the `asyncio` and thread machinery: a service is running, cancelled and ending within a bound, or gone, and a tick blocks its own pod as the synchronous call does.
- `run_with_leadership_sync`: its thread bridge is covered only as a service that takes time to end after it was told to.
- LeaseDrivers.TickRefinesProtocol: is, like the two loops, about the in-memory store, whose durations come back as written; the elector class is over that store.
- OperatorProtocol.ParseIsMessageXorError: takes JSON and integer parsing as given functions.
- The pairs-or-mapping formats of an XREADGROUP reply, more than one entry per read, trimmed streams, and other consumers reading at the same time.
- Encoding of results: an envelope is opaque with a size; the expiry of a stored result is the action `Forget`.
- Heartbeat reconnects and health records inside the operator loop, which touch neither the stream nor the results.
- Event handlers registered by `connect`, connection timeouts, and how an exception is classed as a refusal or a drop: an attempt or request simply ends one way or another.
- Bar conversion, formatting of the end time to whole seconds, contract qualification, and the pause between requests.
- Row fields of an execution that are copied from its fill, and fills of another type in the lists.
- Database queries and their filters: rows are inputs.
- Subscriptions.TickerTable.Poll: takes the client's connector as present; a missing one raises and ends the session, and a reconnect starts over with an empty table.
- `subscribe_ticker` and one-shot quote helpers, whose lines no table tracks.
- Path and environment resolution of the configuration, and key order of mappings.
