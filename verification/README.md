# Castle Rock Agent: a verified model of its stateful machines

Castle Rock Agent watches Docker containers. Most of it talks to the daemon or draws a terminal
screen; the parts with memory are a handful of small machines, and this project models those and
proves what they do over whole runs.

| module | what it is about |
|---|---|
| `AlertModel`, `AlertAutomaton`, `AlertEngine`, `AlertRuns` | the alert engine: two maps and a history, updated by nested loops over a map in arbitrary order, refine one three-phase timer per (container, rule) |
| `StatsCollection` | the parallel collection of statistics that feeds the engine |
| `AlertMarks` | the mark of each container row |
| `ShardHash`, `ClusterStore`, `ConcurrentRead` | sixteen locked maps that stand for one; reads under concurrent pushes |
| `PushPipeline` | worker to leader: encode, encrypt, compress, retry; authenticate, decrypt, decode, store |
| `SecurityRules`, `Auditor`, `AuditRuns` | the ten security rules and the cached audit of them |
| `EventQueue` | the bounded, dropping event queue with its worker and its draining `Close` |
| `Enrichment` | container details and their cache under concurrent goroutines |
| `Pruner` | the prune throttle |
| `Dashboard` | the key-handling state machine |
| `Common` | sequences, bags and an optional value |

Methods that the source writes as loops over fields are methods of classes with those fields, each
proved against a specification (`Evaluates`, `Audits`, `Flatten`, `Apply`, `Decide`, `Drained`, ...);
the lemmas then reason about runs of the specification. Concurrent code is a system of atomic steps,
and a statement about it covers every interleaving.

## Assumptions

- Rule names are pairwise distinct and container IDs contain no `:`. `AlertModel.KeysCollideExactly`
  says exactly when two flattened keys collide otherwise. That the statistics map is keyed by
  `ContainerID` is not assumed: `StatsCollection.FetchStats` proves it.
- Times and durations are integers, metric values are reals. Clocks do not run backwards where a
  statement says so (`ClockMonotone`, `Sequential`); `ConcurrentRead` only needs it of one host's
  stamps, which are taken under that host's shard lock.
- What the daemon, the disk query, the database and the network answer are inputs. Iteration over a
  Go map, and the order in which goroutines finish, is an arbitrary choice.
- AES-GCM (sections 7.1 and 7.2 of NIST SP 800-38D), HKDF (section 2 of RFC 5869), gzip and JSON are
  functions with an inverse law (`OpensSealed`, `Decodes`). The salt and the nonce are inputs.
- Tokens carry no surrounding white space and no line breaks, which an HTTP header would not preserve.
- Audits do not overlap, and no container is listed twice where a statement asks for `DistinctIds`.
- Redaction, number formatting and white-space trimming are function parameters; the number of a
  port is a field beside its text.

## What the code does where one might expect otherwise

- A pending timer survives its container's absence: only firing slots are cleared
  (`internal/alerts/alerts.go:113-118`). So the condition holds *whenever the container was sampled* in
  a firing window, not at every evaluation in it: `FiresAcrossAbsence`.
- Two alerts of a slot have disjoint intervals, but if the clock stands still the second may start in
  the instant in which the first fired (`FiringsMayTouch`); hence `<=` in `AlertsOfASlotAreSeparated`.
- A read of the cluster store need not be a snapshot: `SnapshotExactlyWithinOneShard` says that it
  always is one if and only if the hosts that push during it share a shard.
- A save after `Close` has begun crashes the program (send on a closed channel,
  `internal/storage/sqlite.go:110`); `PanicsExactlyOnLateSave` states that this is the only way.
- The short ID that keys the statistics can be shared by two containers; then the goroutine that
  finishes last wins (`LastToFinishWins`). `DeterminedExactlyWithoutClash` says for which listings the order matters.
- The next prune on a disk that stays full is prompt in the start of its *check*: the disk query's own
  delay comes on top before the prune itself starts, and is a term of the bound in `NextPruneIsPrompt`.
- A container's mark is unaffected by the one-per-metric reduction only because "critical" is the one
  severity of the highest weight (`OnlyCriticalWeighsThree`).

## Model

| member | source | states |
|---|---|---|
| `AlertModel.KeyInjective` | internal/alerts/alerts.go:234-236 | for IDs without the separator, a flattened key determines both its container and its rule |
| `AlertModel.KeysCollideExactly` | internal/alerts/alerts.go:234-236 | for arbitrary strings, two slots share a key iff they are the same slot or one ID carries the separator and the start of the other slot's name |
| `AlertModel.HoldsExactly` | internal/alerts/alerts.go:239-271 | the condition in full: the value of five metrics and of any other name, and the five comparisons with no other |
| `AlertModel.SeverityOrder` | internal/alerts/alerts.go:205-216 | critical outranks warning, warning info, and info everything else |
| `AlertAutomaton.PhaseFromSamples` | internal/alerts/alerts.go:107-173 | from the samples alone: a slot is pending iff a true condition started a timer that still runs, and firing iff a window closed and no sample since shows the container missing or the condition false; start times and alerts are those of these samples |
| `AlertAutomaton.FiresExactlyAtWindowEnd` | internal/alerts/alerts.go:127-164 | an alert fires iff it closes a window: the timer started from idle on a true condition, the condition held at every sample in between with less than the duration elapsed, and the firing sample is the first to reach the duration; the alert carries both ends |
| `AlertAutomaton.FiringsAreSeparated` | internal/alerts/alerts.go:113-150 | between two firings of a slot its container was missing or its condition false, and the second timer started only after that |
| `AlertAutomaton.FiresAcrossAbsence` | internal/alerts/alerts.go:113-118 | every rule whose condition can hold has a firing window in which the container is absent |
| `AlertAutomaton.FiringsMayTouch` | internal/alerts/alerts.go:127-164 | every such rule has a run whose second alert's timer starts in the instant in which the first one fired |
| `AlertAutomaton.FiringRate` | internal/alerts/alerts.go:142-164 | k firings of a slot need k durations of elapsed time |
| `AlertEngine.Engine.ClearInactiveAlerts` | internal/alerts/alerts.go:107-119 | exactly the active keys whose container is absent leave both maps; keys that are only pending stay |
| `AlertEngine.Engine.EvaluateRule` | internal/alerts/alerts.go:122-173 | afterwards the slot has a start time iff the condition holds, and no alert if it does not; it took one automaton step, every other key of both maps is unchanged, the history gains exactly the alert returned |
| `AlertEngine.Engine.Evaluate` | internal/alerts/alerts.go:86-104 | for every order of containers: each slot takes one automaton step, exactly the slots' emissions are returned, once each, and recorded; the state stays well formed |
| `AlertEngine.EvaluationOrderIrrelevant` | internal/alerts/alerts.go:95-101 | two evaluations in different orders end in the same maps and return the same multiset of alerts |
| `AlertEngine.SlotsDetermineState` | internal/alerts/alerts.go:43-60 | in well-formed states the phases of the slots determine both maps |
| `AlertEngine.Engine.GetActiveAlerts` | internal/alerts/alerts.go:177-202 | one active alert per (container, metric) that has one, none of the group of higher severity, nothing else |
| `AlertEngine.OneEntryPerGroup` | internal/alerts/alerts.go:177-202 | every active alert has exactly one entry of its container and metric in the list, at least as severe as itself |
| `AlertEngine.Engine.GetPendingCount` | internal/alerts/alerts.go:220-231 | the number of pending slots, which equals the difference of the two map sizes because active keys are a subset |
| `AlertRuns.SlotsRunAutomata` | internal/alerts/alerts.go:86-173 | after any run, each slot of the flattened maps is where its own automaton is after that container's samples |
| `AlertRuns.RunsAgree` | internal/alerts/alerts.go:86-173 | two runs on the same snapshots have the same maps throughout and return the same alerts up to order |
| `AlertRuns.ReturnedIffWindowCloses` | internal/alerts/alerts.go:86-173 | an evaluation of a run returns an alert iff it closes a firing window of one of the rules |
| `AlertRuns.ReturnedAlertTells` | internal/alerts/alerts.go:152-162 | a returned alert carries the name, metric, threshold and severity of a rule, the name and current value of its container in that snapshot, and its time |
| `AlertRuns.ActiveExactlyUntilCleared` | internal/alerts/alerts.go:107-173 | after any run an alert is active iff it was returned and no evaluation since found its container missing or its condition false |
| `AlertRuns.PendingExactlyWhileWaiting` | internal/alerts/alerts.go:107-173 | after any run a key has a start time but no alert iff its timer still runs, and the time is that of the sample that started it |
| `AlertRuns.AlertsOfASlotAreSeparated` | internal/alerts/alerts.go:113-150 | two alerts of a slot in a run: a clearing evaluation strictly between them and disjoint intervals |
| `AlertRuns.AlertRate` | internal/alerts/alerts.go:142-164 | k alerts of one slot returned over a run mean that it lasted at least k durations |
| `AlertRuns.HistoryIsNewest` | internal/alerts/alerts.go:166-170 | the history is the first 50 of the reversed list of everything ever fired |
| `AlertRuns.HistoryNewestFirst` | internal/alerts/alerts.go:166-170 | firing times do not increase along the history |
| `StatsCollection.GetAllContainerStats` | internal/docker/client.go:478-524 | the goroutines of the monitored entries finish in some order, and the map is the one of that order: one entry per short ID of a monitored, answering container |
| `StatsCollection.LastToFinishWins` | internal/docker/client.go:509-521 | for every completion order, a short ID has an entry iff some goroutine answers for it, and the entry is that of the one that finishes last |
| `StatsCollection.DeterminedExactlyWithoutClash` | internal/docker/client.go:478-524 | for a listing of IDs and names: all completion orders end in the same map, whatever the daemon replies, iff no two monitored entries share the first twelve characters of their IDs |
| `StatsCollection.CollectionUniqueExactly` | internal/docker/client.go:509-521 | for given replies, all completion orders end in the same map iff answering containers that share a short ID agree |
| `StatsCollection.FetchStats` | internal/tui/tui.go:1474-1496 | under every key stands the last worker entry for it, or without one an answering local container's; no other keys appear; with separator-free IDs the map is keyed by the containers its entries describe |
| `AlertMarks.UpdateAlertMarks` | internal/tui/tui.go:278-299 | a row has a mark iff an alert is of its container; each of the four marks under its own condition, critical before other and active before security, whatever the order of the lists |
| `AlertMarks.ReducedListSameMarks` | internal/alerts/alerts.go:177-202 | marks from the reduced list equal marks from all active alerts |
| `ShardHash.GetShardIndex` | internal/cluster/receiver.go:64-70 | the byte loop computes 32-bit FNV-1a and masks it to one of sixteen shards |
| `ShardHash.PublishedHashes` | internal/cluster/receiver.go:64-68 | the hash has the published FNV-1a values of nothing, "a" and "foobar" |
| `ShardHash.HashFollowsNibbles` | internal/cluster/receiver.go:64-70 | the shard is given by a four-bit recurrence on the low nibbles of the ID's bytes |
| `ShardHash.OneByteApart` | internal/cluster/receiver.go:64-70 | IDs that differ in one byte share a shard iff that byte's low nibbles agree |
| `ClusterStore.FlattenLooksUpShard` | internal/cluster/receiver.go:64-80 | looking a host up in the shard its hash selects is looking it up in the one flat map |
| `ClusterStore.PushUpdatesFlat` | internal/cluster/receiver.go:72-80 | replacing one entry of one shard replaces exactly that entry of the flat map and keeps hosts in their shards |
| `ClusterStore.ShardsHoldLatestPushes` | internal/cluster/receiver.go:50-80 | after any pushes a host is known iff it pushed, with its latest push, in the shard its hash selects |
| `ClusterStore.SupersededPush` | internal/cluster/receiver.go:72-80 | a push that its host repeats later leaves no trace, whatever other hosts push in between |
| `ClusterStore.RedeliveryOnlyRefreshes` | internal/cluster/receiver.go:72-80 | after any pushes, a host that pushes its last payload again changes only the time of its own entry |
| `ClusterStore.MemoryStore.constructor` | internal/cluster/receiver.go:50-61 | sixteen distinct empty shards stand for the empty map |
| `ClusterStore.MemoryStore.UpdateHost` | internal/cluster/receiver.go:72-80 | the flat map gains exactly this host's payload and time, by changing one shard |
| `ClusterStore.MemoryStore.GetAllMetrics` | internal/cluster/receiver.go:82-98 | as a multiset, the metrics of exactly the hosts whose last push is at most 30,000,000,000 ns old; nothing when every host is older |
| `ClusterStore.MemoryStore.GetAllContainers` | internal/cluster/receiver.go:100-115 | the same for containers |
| `ClusterStore.FreshItemsExactly` | internal/cluster/receiver.go:87-92 | the freshness filter in full, on any map of hosts |
| `ConcurrentRead.ReadGuarantee` | internal/cluster/receiver.go:82-98 | with pushes between the lock sections: each host contributes at most once, exactly what was current when its shard was visited and at most 30 seconds old; and a host at most 30 seconds old at the start contributes an entry no older than it had then |
| `ConcurrentRead.NextVisitMayHappen` | internal/cluster/receiver.go:86-96 | whatever the store holds, a reader with shards left can visit the next one |
| `ConcurrentRead.ReadableInOneShard` | internal/cluster/receiver.go:86-95 | on the flat map of sixteen shards, a visit reads what that one shard's own map holds |
| `ConcurrentRead.SnapshotExactlyWithinOneShard` | internal/cluster/receiver.go:82-98 | every finished read amid pushes of a set of hosts shows one state of the store, iff all of those hosts share a shard |
| `ConcurrentRead.OneShardIsSnapshot` | internal/cluster/receiver.go:82-98 | while only one shard's hosts push, a read shows the store as it was when that shard was visited |
| `ConcurrentRead.ReadMissesFirstPush` | internal/cluster/receiver.go:82-98 | for any two new hosts in different shards, a finished read that returns exactly the later push, although every state of the store that shows it also shows the earlier one |
| `PushPipeline.EncryptFrame` | internal/cluster/crypto.go:27-62 | the three appends give the frame of salt, nonce and ciphertext |
| `PushPipeline.DecryptsExactly` | internal/cluster/crypto.go:66-100 | a frame is accepted iff it splits into a 16-byte salt, a 12-byte nonce and a ciphertext that opens under the salt's key |
| `PushPipeline.FrameSplitsOnce` | internal/cluster/crypto.go:27-100 | a frame determines its 16-byte salt, 12-byte nonce and ciphertext, and is their concatenation |
| `PushPipeline.EncryptedDecrypts` | internal/cluster/crypto.go:27-100 | decrypting with the same secret inverts encrypting |
| `PushPipeline.PrepareRequest` | internal/cluster/sender.go:105-152 | method, headers and body of the request, and exactly when none is sent: marshalling or key derivation fails |
| `PushPipeline.DeliversExactly` | internal/cluster/receiver.go:141-216 | with equal secrets the leader recovers exactly the pushed payload iff its token is empty or the worker's, the compressed body is within 5 MiB and the host is named; otherwise it rejects |
| `PushPipeline.AnswersExactly` | internal/cluster/receiver.go:141-216 | any request, whoever built it: when it is answered 405, 401, 403 or accepted with which payload, and 400 otherwise |
| `PushPipeline.UnequalSecrets` | internal/cluster/receiver.go:182-216 | when one end only has a secret: the leader with one rejects every push, the leader without one accepts iff the frame itself happens to decode |
| `PushPipeline.Receiver.ServeHTTP` | internal/cluster/receiver.go:141-220 | the decision sequence with its status codes; the flat map gains exactly the accepted payload and is untouched on rejection |
| `PushPipeline.SendPushPayload` | internal/cluster/sender.go:132-184 | at most four attempts, none after a success or a cancellation and fewer than four only because of one, waits of 1, 2 and 4 seconds, the failure count, and what the attempts did to the leader's map |
| `PushPipeline.Push` | internal/cluster/sender.go:100-185 | end to end: a push succeeds iff it is deliverable and one of its four attempts gets through before a cancellation; the leader's map then holds exactly this payload at the last attempt's time; in every case only that host's entry changes, to the payload at the time of its last arrival, and not at all when the leader must refuse |
| `SecurityRules.EvaluateAll` | internal/security/auditor.go:97-100 | the rule loop and the loops inside the rules compute the ten rules' findings in order |
| `SecurityRules.HostConfigReport` | internal/security/auditor.go:144-304 | from the host configuration: which of the privileged, quota, root file system and host network alerts a report holds, with name, metric, value and severity |
| `SecurityRules.UserAndPortReport` | internal/security/auditor.go:157-273 | the same for the user and the remote login ports |
| `SecurityRules.OptionReport` | internal/security/auditor.go:278-291 | the same for the security options |
| `SecurityRules.MountReport` | internal/security/auditor.go:309-319 | the same for the mounts |
| `SecurityRules.DbPortReport` | internal/security/auditor.go:174-205 | one alert per binding of a database port to every address, in order, and no other of that name |
| `SecurityRules.CapabilityReport` | internal/security/auditor.go:210-228 | one alert per added capability among the seven sensitive ones, in order, and no other of that name |
| `SecurityRules.NothingElseReported` | internal/security/auditor.go:44-57 | every alert of a report has one of the ten names |
| `SecurityRules.EmptyReportExactly` | internal/security/auditor.go:97-100 | a report is empty iff the container is hardened in all ten respects |
| `SecurityRules.EvalDbPortExposed` | internal/security/auditor.go:174-194 | one critical alert per globally reachable binding of a database port |
| `SecurityRules.EvalNoNewPrivileges` | internal/security/auditor.go:278-291 | the loop with its redundant test warns iff no option contains the shorter text |
| `SecurityRules.RestampAllFindings` | internal/security/auditor.go:72-75 | re-stamping cached findings gives what evaluating the rules later would, but for the start time |
| `SecurityRules.SameDataSameAlerts` | internal/security/auditor.go:174-194 | on the same inspect data the findings are the same multiset, whatever the order of the port map |
| `Auditor.Auditor.Audit` | internal/security/auditor.go:60-135 | the three phases meet the specification: which IDs are cached afterwards, with what, and what is reported |
| `Auditor.Auditor.ServeCached` | internal/security/auditor.go:68-80 | cached alerts of listed containers are re-stamped in place and reported; exactly the uncached ones are left to inspect |
| `Auditor.InspectAll` | internal/security/auditor.go:86-107 | whatever the completion order: findings of exactly the answering containers |
| `Auditor.EachListedReports` | internal/security/auditor.go:69-116 | hits and misses together report each listing entry's cached alerts once |
| `AuditRuns.CachedIffInspectable` | internal/security/auditor.go:67-132 | over any run a container is cached iff some audit of its current uninterrupted presence could inspect it |
| `AuditRuns.CachedSinceFirstSuccess` | internal/security/auditor.go:67-132 | a cached entry is what the first success of that presence found, fired now |
| `AuditRuns.EntryAsExpected` | internal/security/auditor.go:60-135 | over any run, a listed container that has not changed since its first successful audit reports exactly what the ten rules find in its data now, fired now and active since that audit, iff it was cached or is inspected now; other containers are irrelevant |
| `AuditRuns.EntryRuleByRule` | internal/security/auditor.go:60-135 | what an audit reports of an unchanged container under a rule's name is that rule's report of its data now |
| `AuditRuns.AuditMatchesUncached` | internal/security/auditor.go:60-135 | so when no listed container has changed, the whole report is that of an audit without a cache |
| `AuditRuns.OneInspectionPerPresence` | internal/security/auditor.go:67-132 | at most one successful inspection per uninterrupted presence |
| `EventQueue.Conservation` | internal/storage/sqlite.go:73-114 | in every interleaving accepted records are the written, in-flight and queued ones in order, and submitted ones are the accepted and dropped |
| `EventQueue.DroppedExactlyWhenFull` | internal/storage/sqlite.go:108-114 | a record is dropped iff 500 accepted ones are queued |
| `EventQueue.CloseDrains` | internal/storage/sqlite.go:155-163 | when `Close` returns every accepted record was written, in order; with failing inserts, attempted |
| `EventQueue.DrainTakesExactly` | internal/storage/sqlite.go:92-105 | after the channel closes the worker takes exactly the measured number of actions in every interleaving and is done then and only then |
| `EventQueue.WorkerProgress` | internal/storage/sqlite.go:92-105 | after close the worker is never stuck before it is done, each of its actions shrinks the measure by one, and nothing else changes it |
| `EventQueue.NobodyWaitsInVain` | internal/storage/sqlite.go:92-163 | at any time: the worker waits only for a record or the close, every producer may save, and `Close` returns once the worker is done |
| `EventQueue.PanicsExactlyOnLateSave` | internal/storage/sqlite.go:108-114 | the program crashes iff a save follows the closing of the channel |
| `EventQueue.DrainedIsWritten` | internal/storage/sqlite.go:92-105 | left alone, the worker empties the queue and attempts one insert per accepted record, in order |
| `EventQueue.SQLiteStore.Save` | internal/storage/sqlite.go:108-114 | a send appends, drops or crashes as the step system says |
| `EventQueue.SQLiteStore.WriteWorker` | internal/storage/sqlite.go:92-105 | the loop ends in the drained state, whatever the inserts answer |
| `EventQueue.SQLiteStore.Close` | internal/storage/sqlite.go:155-163 | the first call drains; a later one changes nothing |
| `Enrichment.Client.EnrichContainerDetails` | internal/docker/client.go:747-868 | a hit overwrites the static fields only, a miss fills the display by the four helpers and caches its static fields, a failed inspection does neither; one counter goes up |
| `Enrichment.FieldsFromReply` | internal/docker/client.go:793-868 | each static field from the reply: both limits, the policy with its retry suffix, each redacted variable, the redacted command line cut above 80 bytes, one label per mount in order |
| `Enrichment.CommandLineExactly` | internal/docker/client.go:805-817 | the command line is the joined entrypoint and command, without a leading space for a single empty entrypoint word |
| `Enrichment.DynamicFieldsFromReply` | internal/docker/client.go:827-857 | health status, the last health output cut above 120 bytes, and the restart count |
| `Enrichment.UninterruptedSteps` | internal/docker/client.go:747-791 | the atomic steps of one goroutine, taken together, do what the method does, and can always be taken |
| `Enrichment.Provenance` | internal/docker/client.go:704-791 | under every interleaving, however containers change: every cache entry and inspected display is what an earlier inspection of that container gave to an earlier listing of it, and a hit serves such an entry to the listing it started from |
| `Enrichment.HitLikeFreshInspection` | internal/docker/client.go:704-791 | while one container does not change, a display of it served from the cache has the static fields of a fresh inspection, and these are the reply's, whatever other containers do |
| `Enrichment.TruthThroughout` | internal/docker/client.go:704-791 | while one container does not change, its cache entry and every finished display of it in every reachable state show exactly its static data |
| `Enrichment.LookupAfterWriteHits` | internal/docker/client.go:747-791 | under every interleaving, once a container was written to the cache each later lookup of it is a hit |
| `Enrichment.HitsPlusMisses` | internal/docker/client.go:752-769 | each enrichment counts once, as a hit or a miss |
| `Pruner.AutoPruner.CheckAndPrune` | internal/prune/pruner.go:62-88 | prunes iff the disk is readable and at or above the threshold and no prune ended less than an hour before; then and only then the time is set |
| `Pruner.AutoPruner.Start` | internal/prune/pruner.go:48-60 | over any run, a check prunes iff its usage is readable and at or above the threshold and the latest earlier prune ended at least an hour before it; so a high reading has a prune at or before it |
| `Pruner.PrunesAnHourApart` | internal/prune/pruner.go:62-76 | a prune starts at least an hour after any earlier one ended |
| `Pruner.PruneRate` | internal/prune/pruner.go:62-76 | k prunes span at least k - 1 hours |
| `Pruner.NextPruneIsPrompt` | internal/prune/pruner.go:48-76 | if after a prune every check finds the disk too full and follows the end of the one before it within a period, the next prune belongs to a check that starts within an hour and a period, and itself starts at most one query later |
| `Pruner.PressureLeadsToPrune` | internal/prune/pruner.go:48-76 | whatever happened before: from any check on that finds the disk too full, and stays so, the next prune is that check's or belongs to one within an hour and a period of it |
| `Dashboard.ReachableSound` | internal/tui/tui.go:266-767 | over every message sequence at most one mode is active, search shows logs, cleanup hides logs, detail and map, offset and log buffer stay in bounds, and the cursor is on a container iff there is one |
| `Dashboard.ConfirmationOrigin` | internal/tui/tui.go:475-488 | a confirmation is open iff the last key press was the `s` or `R` that opened it on a container |
| `Dashboard.ActionExactlyAfterConfirmation` | internal/tui/tui.go:475-488 | a stop or restart is issued iff `y` or `Y` directly follows the key that opened that confirmation, for the container under the cursor |
| `Dashboard.KeyActs` | internal/tui/tui.go:452-488 | in any model, exactly `y` or `Y` on an open confirmation acts |
| `Dashboard.ModalKeyStartsExactly` | internal/tui/tui.go:475-533 | which commands a key starts in a mode: three stress tests, pruning of images or volumes, nothing else |
| `Dashboard.NormalKeyStartsExactly` | internal/tui/tui.go:535-767 | which commands each key starts outside the modes |
| `Dashboard.KeyModesExactly` | internal/tui/tui.go:459-767 | which mode is open after each key |
| `Dashboard.KeyShowsExactly` | internal/tui/tui.go:614-767 | which panels are shown after each key |
| `Dashboard.KeyMovesExactly` | internal/tui/tui.go:557-711 | how each key moves the cursor and the log offset |
| `Dashboard.KeyTogglesExactly` | internal/tui/tui.go:535-612 | the selection, the container filter and quitting after each key |
| `Dashboard.MessageStartsExactly` | internal/tui/tui.go:230-450 | which commands every other message starts |
| `Dashboard.LogLineKeepsNewest` | internal/tui/tui.go:383-392 | a log line joins the buffer, which keeps the newest thousand |
| `Dashboard.ListKeepsCursor` | internal/tui/tui.go:266-276 | a new list keeps the cursor, or puts it on the last container |

## Left out

- Docker, HTTP, SQL, disk and clock calls, discovery, metrics registration: their results are inputs.
- `PushPipeline.DeliversExactly`: says nothing of two different secrets; what a wrong key opens to is the strength of AES-GCM, which is not modelled. `UnequalSecrets` covers a secret on one end only.
- `EventQueue.CloseDrains`: the error that closing the database may return, and `GetRecent`, are not modelled.
- `EventQueue.SQLiteStore.WriteWorker`: the class shows one caller at a time; interleavings are in the step system, not in the class.
- `ClusterStore.MemoryStore.GetAllMetrics`: the class shows a read that nothing interrupts; `ConcurrentRead` has the interleavings, on the flat map.
- `Auditor.Auditor.Audit`: overlapping audits, which would write the same cached alerts under a read lock, are not modelled.
- `Enrichment.Client.EnrichContainerDetails`: shows an enrichment that nothing interrupts.
- `Dashboard.ActionExactlyAfterConfirmation`: the container acted on is the one under the cursor when `y` is pressed; that it is the one shown when the confirmation opened does not follow from the code.
- Dashboard: drawing, the event panel, log export, window size, the network map's data, and the sharing of the selection map between copies of the model.
- Live log search: typed characters are swallowed by the code; only entering and leaving the mode is modelled.
- Floating point: rounding, NaN and the conversion of 64-bit counters; the CPU formula.
- Configuration, topology, collector, logger and translation packages: straight-line code without a deep property.
