# Servora accounting and state-keeping: a Dafny model

Servora watches one host. An agent counts network bytes in kernel probes and samples the system; a
monitor polls the agent, stores history, evaluates alerts, handles logins and streams snapshots. This
project models the parts whose guarantees hold only over whole runs and across several functions, and
proves those guarantees.

How the model is built:

- SQL tables are maps keyed by their primary keys, and a transaction is one step that commits or does
  nothing. A failing statement is an input (`fault`, `fate`, `commits`), so failed saves are part of
  every run.
- Concurrent parts (probe entry and return per thread, drain of one key, snapshot, refresh completion,
  poll, save, acknowledgement, request, tick) are events; a run is any finite sequence of them.
- Components that update fields, maps or buffers step by step are classes and methods with loops, each
  proved to compute a specification function; the theorems are about those functions.
- Stored times are floored to seconds exactly where the code floors them; the kernel's 64-bit counters
  wrap. Averages and CPU use exact reals.

| module | what it covers |
|---|---|
| `BpfAccounting` | the probes' three maps, and the agent's drain, reset and drop counter |
| `SocketCounters` | the fallback that turns per-socket counters into deltas |
| `NetworkHistory` | the per-minute flow table and its three query views |
| `FlowPipeline` | kernel, agent and monitor together: where every byte is |
| `Alerts` | evaluation, acknowledgement, messages and timing of alerts |
| `LoginBans`, `Sessions` | sliding failure window, escalating bans; session lookup, expiry and pruning |
| `PackageInventory` | the scan transaction and its event log |
| `PackageRefresh` | the refresh flag, its queue and the scan loop |
| `ResourceHistory` | per-process disk deltas, row averages and peaks, and the two views |
| `MetricRollup` | five-minute rollups of raw metrics |
| `SnapshotStream` | publication to stream clients |
| `ConfigFile`, `LineMerge` | the installer's merge of the configuration file and both of its readers |
| `Ipv4Network` | the installer's network address arithmetic |
| `ImageRetention` | which Docker images the cleaner may remove |
| `NetworkFlows`, `QueryRange`, `Sums`, `Powers`, `Wrappers` | shared flow records and query ranges; finite sums, group-by and exact means; powers of two; optional values |

Promises that turned out to hold only under a condition are stated with that condition, both ways, and
with a run or an input that breaks them:

- `Alerts.OneActiveRowIff`: a failed read is taken for "no active alert".
- `Alerts.AcknowledgementKeptIff`: a later write can overwrite an acknowledgement.
- `Alerts.FiresAgainIff`: a lost write makes an alert fire twice.
- `Alerts.FiredThroughoutIff`: a pause that a failed read, a lost write or a doubled row lets an alert outlive.
- `FlowPipeline.NothingLostIff`, `FlowPipeline.RefreshLosesIff`: a batch that no poll fetched is overwritten.
- `Sessions.PrunesInvisibleIff`: the daily prune and a long absolute limit.
- `PackageInventory.ReplayIff`, `PackageInventory.WholeLogReplays`: a scan that lists one id twice; a refill
  after the inventory was emptied.
- `MetricRollup.RowCompleteIff`: a cutoff inside a bucket.
- `ConfigFile.GetAfterSetIff`, `ConfigFile.ReadersAgreeIff`, `ConfigFile.RereadIff`: a line holding only the
  key; more than one quote at an end of a value; a line break in a value.
- `SnapshotStream.MissesNothingIff`: a client that falls two snapshots behind.

Where code and documentation differ the code is followed: the alert delay is counted from a start time
stored in whole seconds, so an alert can fire up to one second early (`Alerts.FiresNotEarly`).

## Model

| member | source | states |
|---|---|---|
| BpfAccounting.KernelConservation | internal/agent/bpf/network_accounting.c:60-165 | over any interleaving of entries, returns and single-key drains, and for any choice of counters, bytes in the map + handed out + turned away = accepted returns, up to one 64-bit word per wrap |
| BpfAccounting.DropsAreCounted | internal/agent/bpf/network_accounting.c:78-86 | the per-CPU drop counters together hold exactly the bytes a full map turned away, modulo their own wraps |
| BpfAccounting.ExactBelowOneWord | internal/agent/bpf/network_accounting.c:103-165 | below 2^64 accepted bytes no counter ever wraps and the three visible totals balance exactly |
| BpfAccounting.CounterConservation | internal/agent/bpf/network_accounting.c:121-162 | the balance holds for every single counter, so no byte is charged to another process, peer or direction |
| BpfAccounting.OnlyDrainTakes | internal/agent/bpf/network_accounting.c:60-69 | no step but the drain of its own key (or a wrap) removes or lowers a counter: nothing is evicted |
| BpfAccounting.CallAndReturn | internal/agent/bpf/network_accounting.c:88-165 | while the map has room, a thread's entry and accepted return together add the bytes to the counter of the remembered call, and leave no call behind |
| BpfAccounting.RunWellFormed | internal/agent/bpf/network_accounting.c:52-76 | in every run both maps stay within capacity and every counter is a 64-bit word |
| BpfAccounting.DrainMovesBytes | internal/agent/network_bpf_linux.go:163-209 | whatever keys the iterator yields, however often, the batch carries exactly the bytes that left the map, per process, protocol, remote address, port and direction |
| BpfAccounting.FullDrainEmpties | internal/agent/network_bpf_linux.go:163-209 | a drain removes exactly the keys it visits |
| BpfAccounting.BpfTracker.AccountReturn | internal/agent/bpf/network_accounting.c:103-165 | the in-place update of the maps is the model's return step, including rejected and dropped samples |
| BpfAccounting.BpfTracker.DroppedBytes | internal/agent/network_bpf_linux.go:114-129 | the loop returns the wrapped sum of the per-CPU counters |
| BpfAccounting.BpfTracker.Drain | internal/agent/network_bpf_linux.go:163-209 | the lookup-append-delete loop returns the drained batch and removes those keys |
| BpfAccounting.BpfTracker.Reset | internal/agent/network_bpf_linux.go:131-161 | afterwards all three maps are as at load |
| SocketCounters.MovedIsReportedPlusMissed | internal/agent/collector.go:799-855 | over any polls, per socket and direction, bytes moved = bytes reported + bytes missed, and nothing missed is negative |
| SocketCounters.NeverOverCounts | internal/agent/collector.go:834-850 | no socket is charged more than it moved, whatever appears, vanishes, restarts or reuses a key |
| SocketCounters.ReportsTelescope | internal/agent/collector.go:830-880 | after any polls, from the one that newly lists a connection on and while it stays listed, failed polls included, its reports add up to last minus first |
| SocketCounters.EmittedCarryBytes | internal/agent/collector.go:830-850 | no empty delta is emitted, and each belongs to a socket listed both this time and last time |
| SocketCounters.ReadNetworkFlows | internal/agent/collector.go:808-855 | the loop over one listing yields the deltas against the previous table, and the new table |
| NetworkHistory.RowsAreExact | internal/store/store.go:347-373 | after any committed and failed saves a row exists exactly for keys hit by a committed non-empty flow, and holds their exact sums and count |
| NetworkHistory.UpsertAllBytes | internal/store/store.go:356-371 | a batch moves its bytes into the table under the right process, protocol, remote address, port and direction |
| NetworkHistory.TimelineAgreesWithDestinations | internal/store/store.go:411-475 | in any window the timeline points and the destinations of a selection have equal totals |
| NetworkHistory.UsageAgreesWithDetail | internal/store/store.go:375-409 | the usage row of a process or group shows that same total, and exists when there are rows |
| NetworkHistory.ListingsAgree | internal/store/store.go:375-409 | the process listing and the group listing of a window have the same grand total |
| NetworkHistory.ListingCompleteIffWithinLimit | internal/store/store.go:375-409 | a reachable table's listing shows every byte if and only if the groups fit the row limit |
| NetworkHistory.DestinationsCompleteIffWithinLimit | internal/store/store.go:411-441 | the destination listing matches the timeline if and only if the destinations fit the limit |
| NetworkHistory.ReachablePositive | internal/store/store.go:359-361 | every stored row carries bytes, because empty flows are skipped |
| NetworkHistory.FlowStore.SaveNetworkFlows | internal/store/store.go:347-373 | the transaction applies the whole batch or, when any statement or the commit fails, nothing |
| FlowPipeline.EveryByteAccountedFor | internal/app/server.go:1006-1020 | at every step of every run, and per process, protocol, remote address, port and direction, each accepted byte is in the flow map, dropped, held in a batch, in the history table, or was discarded by a step named in the ledger (an unfetched or unsaved batch, a reset, a prune, a clear) |
| FlowPipeline.NothingLostIff | internal/app/server.go:991-1020 | all accepted bytes are still in one of those places if and only if no step of the run discarded any |
| FlowPipeline.UndisturbedLosesNothing | internal/agent/collector.go:89-169 | with history on, no failures, no other client and no reset, prune or clear, no interleaving discards anything |
| FlowPipeline.VisibleBalance | internal/agent/collector.go:89-169 | below 2^64 bytes and without resets, a run that discards nothing has accepted = flow map + reported drops + held batches + stored history |
| FlowPipeline.NoBatchSavedTwice | internal/app/server.go:1006-1020 | in every run, whatever fails, is toggled or reset, two saves never share a drain |
| FlowPipeline.TableHoldsSaves | internal/store/store.go:347-373 | unless pruned or cleared, the table rows are the exact sums of the saved batches |
| FlowPipeline.SingleFlight | internal/agent/collector.go:111-115 | a snapshot launches a refresh only when none is under way |
| FlowPipeline.RunKeepsInv | internal/agent/collector.go:148-169 | in every run the flag mirrors the refresh, and published, delivered and draining batches each stem from one drain |
| FlowPipeline.ReportedDropsAreLost | internal/agent/network_bpf_linux.go:114-129 | between resets, whatever else happens, the drop counter in snapshots is what the full map turned away |
| FlowPipeline.RefreshLosesIff | internal/agent/collector.go:162-168 | completing a refresh keeps all held bytes if and only if the overwritten batch has none unsaved or is being delivered |
| FlowPipeline.UnfetchedBatchIsDiscarded | internal/agent/collector.go:162-168 | after any run, a refresh that completes before the monitor fetched the published batch discards exactly its unsaved bytes |
| FlowPipeline.BytesLostInARun | internal/agent/collector.go:110-168 | a run from the start in which n sent bytes are drained, published and lost to the second refresh |
| FlowPipeline.Collector.RefreshConnections | internal/agent/collector.go:148-169 | drain and publication together clear the flag, publish the batch and empty the visited keys |
| FlowPipeline.Collector.ResetNetworkAccounting | internal/agent/collector.go:181-190 | published flows are forgotten and the maps are as at load |
| FlowPipeline.FlowIngest.Collect | internal/app/server.go:1006-1020 | a batch is saved exactly when history is on, it is newer than the last saved one, and the save commits |
| Alerts.OneActiveRowIff | internal/app/server.go:1055-1093 | in any run, whatever fails and wherever acknowledgements fall, a rule has at most one active row at every moment if and only if no write commits the new row of an evaluation whose read failed while the rule had one |
| Alerts.OneActiveRowPerRule | internal/app/server.go:1055-1093 | so it always has at most one when no read fails, even with failed writes and acknowledgements between read and write |
| Alerts.FailedReadDuplicatesIff | internal/store/store.go:1114-1125 | a triggered evaluation whose read fails keeps the rows unique if and only if there was no active row or its write fails too |
| Alerts.FailedReadDuplicates | internal/store/store.go:1114-1125 | a four-step run in which one failed read leaves two active rows |
| Alerts.ResolvedIsTerminal | internal/app/server.go:1080-1092 | a resolved row never changes again in any continuation of any run, whatever fails |
| Alerts.AcknowledgementKeptIff | internal/store/store.go:1126-1135 | an acknowledgement between read and write survives if and only if that write fails |
| Alerts.AcknowledgementLost | internal/store/store.go:1126-1135 | a run in which an acknowledgement made during an evaluation is overwritten |
| Alerts.MessagesOnceAndInOrder | internal/app/server.go:1064-1092 | when writes succeed, whatever reads fail, each alert sends at most one firing and one recovery message, recovery only after firing |
| Alerts.FiresAgainIff | internal/app/server.go:1064-1079 | after a firing, the next triggered evaluation of the alert announces it again if and only if the write of the first was lost |
| Alerts.LostWriteFiresTwice | internal/app/server.go:1064-1079 | a five-step run that sends the firing message twice |
| Alerts.FiresNotEarly | internal/app/server.go:1061-1079 | in any run, whatever fails, an alert fires only when more than its delay less one second has passed since its creation |
| Alerts.FiresNotLate | internal/app/server.go:1061-1079 | in any run it has fired by the first triggering evaluation at which the whole delay has passed |
| Alerts.PendingTriggeredIff | internal/app/server.go:1061-1092 | in any run, whatever fails, every evaluation since a pending row's creation triggered if and only if no step passed over that row in a pause (a non-triggering evaluation that read another row or none, or a lost resolving write) |
| Alerts.FiredThroughoutIff | internal/app/server.go:1061-1092 | an alert that fires has triggered at every evaluation since its creation if and only if no step before had passed over its row |
| Alerts.DueFires | internal/app/server.go:1072-1075 | a due evaluation that reads a pending row fires it, paused or not |
| Alerts.FiresOnlyIfTriggeredThroughout | internal/app/server.go:1061-1092 | so it has in every run whose pauses all take effect |
| Alerts.LostPauseStillFires | internal/app/server.go:1080-1086 | a run in which a pause is forgotten because its resolving write is lost |
| Alerts.DuplicateOutlivesPause | internal/app/server.go:1080-1086 | a run in which a failed read doubles the row, a committed pause resolves one and the other still fires |
| Alerts.AlertStore.ActiveAlert | internal/store/store.go:1114-1125 | the query returns an active row of the rule with the greatest update time, or none if there is none |
| Alerts.AlertStore.Put | internal/store/store.go:1126-1131 | an existing row keeps its rule and start time, and no other row changes |
| Alerts.AlertStore.EvaluateRule | internal/app/server.go:1055-1093 | one undisturbed turn is the read step followed by a committed write step, with exactly their messages |
| LoginBans.NeverMoreThanFive | internal/store/store.go:969-997 | at no time do more than five failures of an address lie in its window |
| LoginBans.BanIffFifth | internal/store/store.go:969-997 | a failed attempt is answered with a ban exactly when it is the fifth in the window |
| LoginBans.BanCountsOnlyFreshFailures | internal/app/server.go:228-266 | the failures that earn a ban all follow the previous ban's end and the last success |
| LoginBans.StrikesCountBans | internal/store/store.go:980-995 | strikes are min(k, 6) when the run issued k bans to the address since a prune last removed an expired one, and the ban lasts 30 minutes doubled per further strike |
| LoginBans.BanHolds | internal/app/server.go:233-241 | until a ban ends, whatever attempts and prunes follow, it stays as issued and no attempt of the address counts as a failure or a success |
| LoginBans.ParallelFailuresStrikeTwice | internal/store/store.go:969-997 | if a sixth failure slips past the check with the fifth, the address pays two strikes at once |
| LoginBans.ParallelCostsAStrike | internal/store/store.go:969-997 | after a run of four failures, two more in parallel earn two strikes, while one after the other they earn one |
| LoginBans.PruneOutsideWindow | internal/store/store.go:904-905 | pruning day-old failures cannot change what the window counts |
| LoginBans.LoginStore.RecordFailure | internal/store/store.go:969-997 | the statements together are the model's failure step |
| LoginBans.LoginStore.ClearFailures | internal/store/store.go:998-1000 | exactly the address's failures go |
| LoginBans.LoginStore.HandleLogin | internal/app/server.go:228-274 | check, authentication outcome and recording are one model attempt |
| Sessions.PassiveChecksInvisible | internal/store/store.go:937-956 | erasing all passive checks from any run leaves every request's answer unchanged |
| Sessions.PrunesInvisibleIff | internal/store/store.go:903 | erasing the prune passes too leaves every answer unchanged, for every run, if and only if the absolute limit is below a day and a second |
| Sessions.RejectedForever | internal/store/store.go:924-956 | a token rejected once is rejected by every later request |
| Sessions.AcceptedWithinLimits | internal/app/server.go:205-226 | an accepted request comes from the login's address, gets its user and CSRF token, and lies within both limits |
| Sessions.RowsHaveCreators | internal/store/store.go:918-923 | every row descends unchanged, but for its idle time, from the login that created its token |
| Sessions.SessionStore.SessionActive | internal/store/store.go:937-956 | only an expired row of this token goes, and a row is returned exactly if it is stored and within both limits |
| Sessions.SessionStore.RequireAuth | internal/app/server.go:205-226 | lookup, renewal and address check together are the model's request |
| PackageInventory.ReplayIff | internal/store/packages.go:24-124 | replaying a scan's events on the old versions gives the new ones if and only if no package is listed both with another version and, last, with its stored one |
| PackageInventory.RevertedScanDiffers | internal/store/packages.go:60-80 | a scan that lists a package with another version and then with its stored one does not replay |
| PackageInventory.DistinctScanReplays | internal/store/packages.go:24-124 | with distinct ids replay always succeeds |
| PackageInventory.OneEventPerChange | internal/store/packages.go:60-120 | every changed id has exactly one event, of the right kind and with both versions, and no unchanged id has any |
| PackageInventory.BaselineHasNoEvents | internal/store/packages.go:60-120 | a scan of an empty inventory stores rows but reports nothing |
| PackageInventory.WholeLogLacksSilent | internal/store/packages.go:24-124 | from any baseline and through any scans, committed or rolled back, emptying or refilling, the whole log replays to the current inventory less the ids that a refill installed without an event and no event has named since |
| PackageInventory.WholeLogReplaysIff | internal/store/packages.go:24-124 | so it replays to the inventory itself if and only if there is no such id |
| PackageInventory.WholeLogReplays | internal/store/packages.go:24-124 | the log replays to the inventory after every scan if and only if no committed scan fills an empty inventory |
| PackageInventory.RefillBreaksReplay | internal/store/packages.go:60-80 | an emptying scan followed by a refill does not replay |
| PackageInventory.PackageStore.SavePackageScan | internal/store/packages.go:24-124 | the loops of the transaction produce the specified rows and events, or nothing |
| PackageRefresh.RunKeepsInv | internal/app/packages.go:164-216 | in every interleaving the queue holds at most one token, accepted = served + in service + queued, and before the stop a raised flag has a token queued or a scan running or about to run |
| PackageRefresh.FlagComesDown | internal/app/packages.go:184-216 | from any reachable state before the stop the loop alone clears the flag and serves every accepted request in at most eight steps |
| PackageRefresh.FlagClearWhenIdle | internal/app/packages.go:184-216 | an idle loop with an empty queue shows a clear flag and has served every accepted request |
| PackageRefresh.RefusedMeansBusy | internal/app/packages.go:164-182 | before the stop, a refused request finds a token queued or a scan running or about to run |
| PackageRefresh.AcceptedIff | internal/app/packages.go:169-179 | a request is accepted exactly when the flag is clear and no token waits |
| PackageRefresh.StopSticks | internal/app/packages.go:202-204 | after the stop the flag never comes down, the next request raises it, and nothing more is served |
| PackageRefresh.RefusedWithoutRefresh | internal/app/packages.go:169-179 | a request can be refused while no metadata refresh is queued, running or about to run |
| PackageRefresh.Server.PackageRefreshRequest | internal/app/packages.go:164-182 | the handler's critical section is the model's request, and answers whether it was accepted |
| ResourceHistory.DiskNeverOverCounts | internal/store/store.go:562-619 | over any snapshots, toggles, clears, prunes and failed transactions, recorded bytes of an incarnation never exceed the upward steps of its counter |
| ResourceHistory.DiskDeltasTelescope | internal/store/store.go:562-619 | after any run whatever, while an incarnation stays listed with history on, committed saves and no clear, exactly the climbs of its counter are added, and they are last minus first if and only if no snapshot shows the counter lower than the one before |
| ResourceHistory.TableMatchesLedger | internal/store/store.go:599-611 | without clears and prunes the rows of each pid hold exactly the bytes recorded for its incarnations |
| ResourceHistory.AveragesNeverExceedPeaks | internal/store/store.go:639-722 | after any run every usage line and timeline point has CPU and memory averages at most their peaks, through all three levels of averaging and truncation |
| ResourceHistory.RunSound | internal/store/store.go:599-611 | every stored row's sums are at most its sample count times its peak |
| ResourceHistory.ResourceStore.InsertAll | internal/store/store.go:577-617 | the insert loop moves the counters up to the failing statement |
| ResourceHistory.ResourceStore.SaveProcessResources | internal/store/store.go:562-619 | the transaction and the remembered counters move as specified for each fate |
| MetricRollup.RowSummarisesItsSource | internal/store/store.go:891-902 | in every reachable state a row's extremes are attained by and bound exactly the samples its last pass took, and its averages are their exact means |
| MetricRollup.RowsAreOrdered | internal/store/store.go:893-896 | minimum <= average <= maximum in every row |
| MetricRollup.PassClearsBelowCutoff | internal/store/store.go:900-902 | a pass whose deletes succeed leaves exactly the raw samples at or above its cutoff and no expired row |
| MetricRollup.RowCompleteIff | internal/store/store.go:891-902 | a pass makes a row cover every sample ever stored in its bucket if and only if none was deleted before and none lies at or above the cutoff |
| MetricRollup.AlignedRowsAreWhole | internal/store/store.go:891-902 | with cutoffs on bucket boundaries and no late samples every row covers everything ever stored in its bucket, whichever deletes fail |
| MetricRollup.SplitBucketForgets | internal/store/store.go:893-900 | from every state, a cutoff between two samples of a bucket and a later pass leave a row that has forgotten the earlier one |
| SnapshotStream.StreamsAreSound | internal/app/server.go:940-959 | every client's stream starts with the snapshot current at subscription and rises strictly, its buffer never exceeds two, and each later publication is either in the stream once or dropped |
| SnapshotStream.WrittenIsPrefix | internal/app/server.go:945-959 | what a client has been sent is a prefix of that stream |
| SnapshotStream.DropStep | internal/app/server.go:1028-1033 | a publication is dropped exactly for the open clients whose buffer is full |
| SnapshotStream.MissesNothingIff | internal/app/server.go:1025-1034 | a client misses nothing if and only if its buffer was never full at a publication |
| SnapshotStream.ThirdIsMissed | internal/app/server.go:1025-1034 | a client that does not read misses the third publication |
| SnapshotStream.MissedNothingIsEverything | internal/app/server.go:1025-1034 | its stream is then every publication from its subscription on, in order |
| SnapshotStream.Hub.Publish | internal/app/server.go:1025-1034 | whatever the order of the clients, each is offered the snapshot once and the loop ends |
| ConfigFile.GetAfterSetIff | scripts/lib/install-lib.sh:14-65 | reading a key after setting it gives the value if and only if no bare line of that key follows its first assignment (or the value equals it) |
| ConfigFile.BareKeyHidesValue | scripts/lib/install-lib.sh:14-65 | the key alone on a line after its assignment hides the value that is set |
| ConfigFile.GetOtherAfterSet | scripts/lib/install-lib.sh:14-65 | for a value without line breaks and escapes, all other keys read as before, for every file |
| ConfigFile.UnrelatedSurvive | scripts/lib/install-lib.sh:35-65 | all other lines keep content and order up to trailing empty lines, and the key is assigned exactly once, where it first was |
| ConfigFile.SetOverwrites | scripts/lib/install-lib.sh:35-65 | a second setting forgets the first, so setting twice equals setting once |
| ConfigFile.RereadIff | scripts/lib/install-lib.sh:47-64 | the merged lines are what the next reader finds if and only if the value has no line break |
| ConfigFile.LineBreakSetsOther | scripts/lib/install-lib.sh:47-64 | with one, setting a key to a value sets another key as well |
| ConfigFile.LineBreakRejects | internal/app/config.go:108-120 | or makes the monitor reject a file that it accepted |
| ConfigFile.ReadAfterSet | internal/app/config.go:108-120 | the monitor then reads its old values with the one key changed |
| ConfigFile.ReadOkAfterSet | internal/app/config.go:108-120 | the merged file is accepted exactly when the old one was |
| ConfigFile.ReadersAgreeIff | internal/app/config.go:108-120 | both readers give a key the same value if and only if one quote removed from each end of its last value leaves none there |
| ConfigFile.DoubleQuoteDisagrees | internal/app/config.go:108-120 | with two quotes before a value only the monitor takes both off |
| ConfigFile.QuotedReads | scripts/lib/install-lib.sh:22-24 | both readers take off a value's enclosing quotes, of either kind |
| ConfigFile.ReadOkIff | internal/app/config.go:111-118 | a file is accepted if and only if every line is blank, a comment, or has an equals sign |
| ConfigFile.ConfigGet | scripts/lib/install-lib.sh:14-29 | the loop returns the last matching line's value |
| ConfigFile.ConfigSet | scripts/lib/install-lib.sh:35-65 | the loop with its flag, and the loss of trailing newlines, yield the specified file |
| ConfigFile.LoadValues | internal/app/config.go:106-124 | the loop returns the values, or the first unreadable line |
| Ipv4Network.NetworkIsTheBlockStart | scripts/lib/install-lib.sh:140-153 | for every address and prefix the result is the one address that starts a block of 2^(32-prefix) holding it, and its octets are in range |
| Ipv4Network.SameNetworkIff | scripts/lib/install-lib.sh:140-153 | two addresses have the same network if and only if their top prefix bits agree |
| Ipv4Network.NetworkIdempotent | scripts/lib/install-lib.sh:140-153 | the network of a network is itself |
| Ipv4Network.MaskShape | scripts/lib/install-lib.sh:144-148 | the mask is prefix ones above zeros, the special case for prefix 0 included |
| Ipv4Network.PackIsValue | scripts/lib/install-lib.sh:143 | the shifted and or-ed octets are the address as a number |
| ImageRetention.CandidateIff | bin/docker-image-cleaner:68-79 | an image may go if and only if no container references it, it is older than the cutoff, and in each of its repositories another image is newer, or as new and listed earlier |
| ImageRetention.NewestSurvives | bin/docker-image-cleaner:68-79 | whichever candidates are removed, every tagged repository keeps a newest image, and referenced or recent images stay |
| ImageRetention.NewestWins | bin/docker-image-cleaner:69-70 | the kept image of a repository beats every other image tagged in it |
| ImageRetention.WinnerUnique | bin/docker-image-cleaner:69-70 | at most one image wins a repository, so the kept one does not depend on how it is found |
| ImageRetention.RepoOfReference | bin/docker-image-cleaner:64 | a version is cut off a reference, and a registry port is not taken for one |
| ImageRetention.Select | bin/docker-image-cleaner:37-79 | the loops over containers, listing, tags and repositories return exactly the candidates, each once |
| ImageRetention.FirstRows | bin/docker-image-cleaner:44-56 | of the listing's repeated rows the first of each id counts |
| ImageRetention.GroupByRepo | bin/docker-image-cleaner:58-65 | the nested loops group the images by repository in listing order |
| Sums.GroupTotalsSum | internal/store/store.go:375-409 | however rows are grouped, the group totals add up to the total of the rows |

## Left out

- The web frontend, HTTP routing, JSON, TLS, PAM, Telegram delivery and SQLite internals: foreign calls with no state of their own here.
- Reading and parsing `/proc`, `ss`, `docker`, `systemctl` and package managers: their parsed results are inputs.
- Interleavings inside one probe return and inside a reset: each is one step, and conservation is stated between resets.
- Fresh start of the monitor, which forgets the last saved flow time, and clocks that go back.
- Integer overflow of SQLite columns: stored rows are unbounded; only the kernel counters wrap.
- `FlowPipeline`: runs with the eBPF tracker only; the socket fallback is in `SocketCounters` by itself.
- `SocketCounters.ReadNetworkFlows`: deltas carry the socket key; process name, group and user are copied text.
- The text filter of the network and resource listings, and the order of rows with equal totals: listings are any rows the limit allows.
- `Alerts`: message texts, names, severities, notification targets and cooldown; only which message is sent and when.
- `Sessions`: the table key is the token itself, not its hash.
- `MetricRollup.RowSummarisesItsSource`: the pass is one SQL statement and is modelled on values, not as a loop; watch metrics and the size-driven deletion with VACUUM are not modelled.
- `ResourceHistory`: the name-to-group table of processes is an input field of each process.
- `PackageInventory`: the scan-state row, listing queries and event pruning by age.
- `PackageRefresh`: the scan's HTTP exchange; a scan is a beginning and an end, in any order with requests.
- `SnapshotStream`: keepalives and write deadlines; an expired session or closed connection is a departure.
- `ConfigFile`: the expansion of backslash escapes by awk (values and keys with a backslash are excluded from the laws), keys that look like numbers, which awk compares numerically, file ownership, the backup copy, the atomic rename, Unicode white space, lines beyond the scanner's limit, and assigning values to the monitor's typed settings.
- `Ipv4Network`: octets written with leading zeros, which the shell would read as octal.
- `ImageRetention.Select`: the order in which candidates are printed and the removal commands; removal of any subset is covered by `ImageRetention.NewestSurvives`.
