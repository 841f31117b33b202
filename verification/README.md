# MizuFlow, modelled and proved in Dafny

MizuFlow carries feature flags from MySQL, through a transactional outbox, to etcd, and from etcd
through a watch, a cache, a ring of recent messages and a hub over SSE streams to SDK clients that keep
a snapshot file. This project models that path and proves what every run of it keeps.
`dafny verify dfyconfig.toml` checks all of it.

## How the model is built

Code that changes things in place is a class whose methods follow the Go code branch by branch and are
proved against specification functions: the ring (`RevisionBuffer.Ring`), the cache, the hub and its
clients, the stream handler's loops, the watch loop, `SaveFeatureIfNewer`, `SaveFeature` and
`RollbackFeature`, the outbox worker, the reconciler, the rate-limiting script and the SDK client. What
spans goroutines or processes is a state machine whose steps interleave freely; its theorems hold after
every sequence of enabled steps.

| file | what it models |
|---|---|
| `Model.dfy`, `FeatureKey.dfy`, `EventLog.dfy` | flags, messages and scopes; etcd keys; filters and replay of an event log |
| `FeatureStore.dfy`, `OutboxWorker.dfy`, `Reconciler.dfy` | the MySQL transaction and its audit trail; the worker; the reconciler |
| `Etcd.dfy`, `CasProtocol.dfy` | one compare-and-put call; any number of calls stopped anywhere between their requests |
| `SyncSystem.dfy`, `SyncRefinement.dfy` | MySQL, outbox, etcd and the three actors, with faults, crashes and racing status updates; that the loops of worker and reconciler are its steps |
| `RevisionBuffer.dfy`, `FeatureCache.dfy`, `FeatureWatcher.dfy` | the server's data structures and its watch loop |
| `ServerSnapshot.dfy` | what a server shows after loading etcd and watching it, against the log of all writes |
| `Hub.dfy`, `StreamHandler.dfy`, `WatchPipeline.dfy`, `BroadcastTurn.dfy` | the hub; one stream; watcher, hub and all streams interleaved; one broadcast amid the streams |
| `SdkClient.dfy`, `ClientSystem.dfy`, `ClientStream.dfy`, `ClientReset.dfy` | the SDK client; its whole life against the server; what a stretch of a stream does to it; what a reset does |
| `EndToEnd.dfy` | from a committed save to what a client shows |
| `RateLimit.dfy` | the token-bucket script, over the reals |

Calls into code that is not part of the repository become parameters. A `Weather` gives, before each
request of an etcd call, what other clients do to etcd and whether the request or its reply is lost;
`Faults` says which SQL statements fail; page reads, payloads that do not parse, file errors and clock
readings are arguments. The theorems hold for every choice of them.

## What the code does that its design does not say

Each of these is a lemma below, with the exact condition under which the intended property holds.

- Enqueuing a client with the hub is not registering it. An event that passes the hub between the
  ring read and the moment the hub takes the Register is never delivered (`RegisteredTooLate`), and
  after the next event the client disagrees with a log it believes to have followed
  (`MissedEventMisleads`). A connection is free of gaps exactly when nothing wanted lies in that window
  (`DeliveryIsExact`); a client that missed events is right again exactly when each of them has been
  overtaken (`ClientFollowsLog`).
- After a restart the ring is empty and accepts any last revision; a client that was behind loses
  events silently, unless the ring has been refilled when it connects (`ServedAfterRestart`,
  `DeliveryAfterRestart`).
- The initial load files flags under their short key in etcd's key order. Two namespaces of one scope
  that use the same short key are left at whichever key sorts last, not at the newest; if that one was
  not written last, clients of both are served the older flag under the newer stamp after a restart
  (`ServerServes`, `RestartShowsOlder`).
- Watched puts do not advance the stamp of the cache, because the stored JSON carries revision 0. From
  the first announced put on, a client that refetches the snapshot is told to reset again, for ever
  (`FreshClientIsServed`, `ResetForever`); it shows what it fetched, and converges by refetching
  (`FetchShowsLog`, `FetchShowsMaster`). The same stamp makes a reset client's last revision fall back
  exactly when it is past the server's initial load, so a reload from disk is not the only way it can
  (`RefetchLowersRevision`, `RefetchFallsBack`).
- A delete is filed in the cache under the full key, where nothing is. Streams announce it, but every
  later snapshot still has the flag, so a client that starts, restarts or is reset brings it back, exactly
  for the keys that were put and then deleted for good (`DeletedComesBack`, `SnapshotBringsBack`).
- The cache is keyed by the short key across environments and namespaces, so another environment's flag
  hides the caller's own (`SnapshotIsolation`, `AnotherEnvironmentShadows`).
- `SaveFeature` reads without a lock and drops the error of `Save`. The audit trail stays linked exactly
  when the read was up to date and the save took effect (`CommitKeepsTrail`); two racing saves can leave
  different values in MySQL and etcd with both outbox rows completed (`RacingSavesDiverge`), until the
  next serialised save (`SaveRepairsRace`).
- A rollback restores the old value under the type of the change it undoes (`RollbackRestores`,
  `RollbackKeepsTheLaterType`), and the version it passes along for compare-and-swap is not used.
- Redis truncates the wait that the rate limiter's script returns. A denied caller that waits what it is
  told is admitted only if nothing was cut off; one asking for a single token at more than one per second
  is always told 0 seconds (`ResetAfterIsExact`, `ToldTooEarly`).
- The reconciler reads an absent key as an error, so it never repairs one (`ReconcilerCreatesNothing`).
- A slash in an environment or namespace always makes keys collide, and so does a short key in which
  the features segment occurs again (`SlashesCollide`, `NestedCollides`); a feature owns its key exactly
  in all other cases (`KeyIsUnique`).
- A failed snapshot write leaves the dirty flag cleared and is not tried again before the next update
  (`FailedSaveIsNotRepaired`, `CleanIsSaved`).

## Model

| member | source | states |
|---|---|---|
| `FeatureKey.DeleteKeyRoundTrip` | internal/service/feature.go:351-363 | the delete path recovers environment, namespace and key from a built key exactly when none of the three contains a slash |
| `FeatureKey.KeysAreInjective` | internal/service/feature.go:32-34 | features whose environment and namespace are slash-free never share an etcd key |
| `FeatureKey.SlashesCollide` | internal/service/feature.go:32-34 | for every environment or namespace with a slash there is a second, different feature with the same key |
| `FeatureKey.NestedCollides` | internal/service/feature.go:32-34 | the same for every short key in which the features segment occurs again |
| `FeatureKey.KeyIsUnique` | internal/service/feature.go:32-34 | a feature shares its etcd key with no other exactly when environment and namespace are slash-free and the features segment does not occur again in its short key |
| `EventLog.ReplayIsLastChange` | client/client.go:245-260 | after a replay each key shows its last change, or what it showed before |
| `EventLog.ReplayTwice` | client/client.go:236-264 | replaying a stretch of the log a second time changes nothing |
| `EventLog.StaleStampIsSafe` | internal/service/feature.go:322-396 | data of position `base`, replayed from any earlier position, is exact from the moment the replay passes `base` |
| `EventLog.StaleStampShowsOldOrSnapshot` | internal/service/feature.go:322-396 | before that moment each key shows its value at the replay position or at the snapshot, nothing else |
| `EventLog.WantedOfSince` | internal/api/stream_handler.go:84-91 | filtering the newer messages by scope is selecting by scope and revision at once |
| `RevisionBuffer.RetainedSuffices` | internal/buffer/revision_buffer.go:55-60 | when the oldest kept revision is not above the requested one, nothing the ring has overwritten is newer than it |
| `RevisionBuffer.Ring.constructor` | internal/buffer/revision_buffer.go:17-27 | an empty ring of the requested size, 1000 if that is not positive |
| `RevisionBuffer.Ring.AddMessage` | internal/buffer/revision_buffer.go:29-38 | the ring goes on holding the newest `size` messages of everything ever added, also across wrap-around |
| `RevisionBuffer.Ring.GetSince` | internal/buffer/revision_buffer.go:40-83 | not ok exactly when the requested revision is below the oldest kept; otherwise, for non-decreasing revisions, the filter "newer than" over all messages ever added |
| `RevisionBuffer.Ring.FirstNewer` | internal/buffer/revision_buffer.go:62-69 | the binary search returns a position with an older message before it and a newer one at it |
| `FeatureCache.Cache.Update` | internal/service/cache.go:20-28 | the flag replaces the one of its short key; the stamp becomes the larger revision; flags stay under their own key |
| `FeatureCache.Cache.Delete` | internal/service/cache.go:30-37 | exactly the given key goes; the stamp becomes the larger revision |
| `FeatureCache.Cache.GetSnapshot` | internal/service/cache.go:39-47 | each cached flag once, in any order; merging them gives back the data |
| `FeatureCache.FetchAll` | internal/api/stream_handler.go:183-198 | the loop keeps exactly the flags the environment and namespace filters let through, in order |
| `FeatureCache.FiltersAreOneSided` | internal/api/stream_handler.go:183-198 | an environment alone shows all of it, namespaces alone show theirs in every environment, both show what is in both, and neither shows everything |
| `FeatureCache.Snapshot` | internal/api/stream_handler.go:167-204 | whatever order the cache yields, the response merges into the visible part of the cache under its stamp |
| `FeatureCache.SnapshotIsolation` | internal/service/cache.go:24 | a caller sees its own history exactly when no foreign flag has been written over one of its flags |
| `FeatureCache.AnotherEnvironmentShadows` | internal/service/cache.go:24 | a production flag hides the development flag of the same short key |
| `FeatureWatcher.Watcher.Load` | internal/service/feature.go:324-332 | the initial load files each readable flag, unless a later one replaces it, under its own modification revision and skips the others; the stamp is the newest of these revisions |
| `FeatureWatcher.Watcher.Handle` | internal/service/feature.go:345-396 | one event goes to cache, ring and hub alike, a put with its flag's identity and content, a delete with the parsed identity, both under etcd's revision; or, if unreadable, to none of them |
| `FeatureWatcher.Watcher.Watch` | internal/service/feature.go:335-398 | after any events ring and hub have been given the same messages in etcd's order |
| `FeatureWatcher.FreshClientIsServed` | internal/service/feature.go:330-391 | a client that has just fetched the snapshot is served exactly when nothing was announced yet, or a delete has moved the stamp into the ring |
| `FeatureWatcher.ResetForever` | internal/service/feature.go:374-392 | in a put-only history every refetching client is reset again, however late it tries |
| `FeatureWatcher.ServedAfterRestart` | internal/buffer/revision_buffer.go:51-53 | what an emptied ring serves is complete exactly when it holds something again or the client had seen the last event |
| `Hub.Client.TrySend` | internal/service/hub.go:96-103 | a send never blocks: it is taken exactly when the channel has room |
| `Hub.Hub.AddToShards` | internal/service/hub.go:45-63 | the client appears in exactly its own cells, or among the wildcards alone |
| `Hub.Hub.RemoveFromShards` | internal/service/hub.go:64-86 | the client leaves exactly its own cells and no empty cell or row stays behind |
| `Hub.Hub.HandleRegister` | internal/service/hub.go:106-109 | the index, the online count and the channels stay in order when a client joins |
| `Hub.Hub.RemoveClient` | internal/service/hub.go:87-95 | a connected client is closed once and leaves index and count; any other is ignored |
| `Hub.Hub.HandleBroadcast` | internal/service/hub.go:114-125 | each client with a wildcard, or with the message's environment and namespace, is sent it exactly once and no other, although full clients are removed from the maps being iterated |
| `Hub.Hub.HandleHeartbeat` | internal/service/hub.go:141-146 | every connected client is sent exactly one ping, or removed if it is full |
| `Hub.Hub.Run` | internal/service/hub.go:40-149 | any run of the sharded hub ends with the clients and channel contents of a hub that scans all clients; the index agrees with the client set, the online count is its size, no closed channel is used |
| `Hub.UndrainedClientLeaves` | internal/service/hub.go:96-103 | a client nobody drains or unregisters is out exactly after its channel's free slots plus one sends |
| `StreamHandler.WatchFeature` | internal/api/stream_handler.go:34-123 | an unnamed scope is refused; otherwise the stream is the wanted history followed by the live messages above the highest revision written, and a reset when the ring cannot serve |
| `WatchPipeline.StepKeepsInv` | internal/api/stream_handler.go:76-122 | every step of watcher, hub and streams keeps, for every connection: written plus backlog is the promised stretch of the log |
| `WatchPipeline.NoDuplicates` | internal/api/stream_handler.go:112-117 | on every run a connection writes only wanted, newer events, in strictly increasing order |
| `WatchPipeline.DeliveryIsExact` | internal/api/stream_handler.go:76-122 | what a served connection writes is the whole selection exactly when no wanted event lies between the ring read and the registration |
| `WatchPipeline.NoGaps` | internal/api/stream_handler.go:76-122 | registered before the ring read, a connection writes a prefix of the wanted newer events, even if the hub drops it; once drained, all of them up to where the hub got with it, which for a client still in the hub is everything broadcast |
| `WatchPipeline.RegisteredTooLate` | internal/service/hub.go:33 | a run in which an event passes between ring read and registration and is lost |
| `WatchPipeline.DeliveryAfterRestart` | internal/buffer/revision_buffer.go:51-53 | across a restart a connection writes everything wanted and newer exactly when it misses nothing in the registration window and nothing wanted and newer lay before the restart |
| `WatchPipeline.NoGapsAfterRestart` | internal/api/stream_handler.go:76-122 | the same across a restart, if the ring held something when it was read or the client had seen the last event before the restart |
| `WatchPipeline.SendsAreBroadcast` | internal/service/hub.go:114-125 | whatever order the hub's maps yield its clients in, the sends of one broadcast can be made in that order and do what the scanning hub's broadcast does |
| `BroadcastTurn.BroadcastIsAtomic` | internal/service/hub.go:114-125 | however streams read, take messages, open and end between the sends of a broadcast, every client ends as if the scanning hub had broadcast at one instant, after the messages taken before its own send and before those taken after it |
| `SdkClient.MizuClient.HandleUpdate` | client/client.go:236-264 | stale messages change nothing; others apply their action, move the revision and mark dirty |
| `SdkClient.MizuClient.FetchAll` | client/client.go:103-131 | a response is merged and its revision taken over even if lower; a failure changes nothing |
| `SdkClient.MizuClient.Start` | client/client.go:90-101 | the server first, then the file; an error exactly when both fail |
| `SdkClient.MizuClient.Watch` | client/client.go:168-231 | a connection applies the messages before its first reset in order, skips pings and garbage, and ends at the reset with a refetch on top |
| `SdkClient.UpdatesInOrder` | client/client.go:187-216 | event by event: an update counts where it arrives, a ping or garbage does not, nothing counts after a reset |
| `SdkClient.MizuClient.LoadSnapshot` | client/client.go:409-425 | features and revision come from the file together; the dirty flag stays |
| `SdkClient.MizuClient.SnapshotTurn` | client/client.go:362-407 | the file becomes the features and revision of the capture, after the updates that preceded it and before those that follow, or stays |
| `SdkClient.HandledApplies` | client/client.go:245-260 | a fresh update has on what callers observe the effect of its message |
| `SdkClient.MergeIsReplace` | client/client.go:125-127 | merging a snapshot equals replacing by it exactly when the client holds no key the snapshot lacks |
| `ClientSystem.StepKeepsInv` | client/client.go:236-264 | every step of server, stream, missed events, saves, crashes and restarts, puts and deletes alike, keeps: memory, capture and file are each a snapshot plus a stretch of the log without the events passed over |
| `ClientSystem.ClientFollowsLog` | client/client.go:236-264 | in every reachable state the features are the replay of the log up to the last revision if every key a snapshot was ahead in has been applied since, and wherever the last event of a key was passed over or lay before the stamp no harm is done; where the versions of each key's puts ascend, only if |
| `ClientSystem.CaughtUpAmongPuts` | client/client.go:236-264 | in a log of puts that condition says: every missed event has been overtaken by a later one of its key, or was in the snapshot with nothing older applied on top |
| `ClientSystem.SnapshotBringsBack` | internal/service/feature.go:351-373 | a snapshot shows the log exactly when no key was put and then deleted for good |
| `ClientSystem.RevisionNeverFalls` | client/client.go:236-264 | without crash and refetch it never falls over any run |
| `ClientSystem.FetchShowsLog` | client/client.go:103-131 | whatever a client held, after a fetch it shows the puts of the log as of the response, and while nothing is delivered to it those of its last fetch, however it is reset, fetches, reconnects and saves; this is the log as of that fetch exactly when no deleted key comes back |
| `ClientSystem.FileWasMemory` | client/client.go:385-407 | the file always holds a pair of features and revision that memory held at one instant of the run |
| `ClientSystem.CleanMeansSaved` | client/client.go:370-380 | without write errors a client that is neither dirty nor saving has its memory in the file |
| `ClientSystem.CleanIsSaved` | client/client.go:370-406 | over any run a clean, idle client has its memory in the file exactly when its last attempt to save did not fail, or the file held just that before the attempt began |
| `ClientSystem.FailedSaveIsNotRepaired` | client/client.go:371-406 | a start, a failed save, and any continuation without an update, a refetch or a crash: no file is ever written |
| `ClientSystem.FailedSaveIsForgotten` | client/client.go:371-377 | a clean, idle client never writes its file before its features change |
| `ClientReset.RefetchLowersRevision` | client/client.go:128 | against a server of a put-only history a running client's last revision falls exactly when it refetches after a reset and is past the stamp of the initial load, so always when it has received an announced event; from then on the ring refuses it for ever |
| `ClientReset.RefetchFallsBack` | client/client.go:191-200 | for any put-only history from an empty etcd: a client that follows its scope's events, hangs up, and returns after the ring has turned over is refused, and its refetch sends its last revision back to 0 |
| `Etcd.Client.SaveFeatureIfNewer` | internal/repository/etcd.go:57-121 | a call takes at most four rounds, each lost one to a rival that wrote the key between read and transaction; what it returns and leaves in etcd is told for every way a round can end, and it equals one run of the call's state machine under any interference |
| `Etcd.RunAnswers` | internal/repository/etcd.go:57-121 | one run of that state machine gives such an answer |
| `Etcd.RetriesUntilStored` | internal/repository/etcd.go:79-119 | without faults, if rivals for the key fall silent by the fourth round, the call succeeds and the key holds at least its version |
| `Etcd.ErrorMeansFourRaces` | internal/repository/etcd.go:113-119 | without faults a call fails exactly when it lost the race in each of four rounds, and then it has written nothing |
| `CasProtocol.ErrorMeansNewerVersions` | internal/repository/etcd.go:113-119 | among clients that only do what calls do, such a failure means the rivals stored a newer version four times in a row |
| `Etcd.SuccessIsAtRevision` | internal/repository/etcd.go:86-112 | after success the key holds at least the call's version at the revision the call returned |
| `Etcd.AloneItStores` | internal/repository/etcd.go:57-112 | undisturbed, an older version or none is replaced by exactly the call's flag, and anything else stays |
| `Etcd.CallIsExplained` | internal/repository/etcd.go:57-121 | whatever happens, a call writes nothing but its own flag under its own key |
| `Etcd.SuccessMeansStored` | internal/repository/etcd.go:90-92 | whatever others do between the requests, a nil error means the version is stored when the call returns |
| `Etcd.Client.GetFeature` | internal/repository/etcd.go:31-45 | an absent key is an error, and what is read back has version 0 |
| `CasProtocol.StepKeepsInv` | internal/repository/etcd.go:57-121 | at any interleaving an unchanged modification revision means an unchanged entry, so there is no ABA |
| `CasProtocol.VersionsNeverDecrease` | internal/repository/etcd.go:57-121 | over any run no stored version falls, and no entry changes without a newer version and revision |
| `CasProtocol.SuccessIsForever` | internal/repository/etcd.go:57-121 | after a nil error the stored version is at least the caller's in all later states |
| `CasProtocol.CallGrows` | internal/repository/etcd.go:57-121 | one call among well-behaved others lowers no version |
| `CasProtocol.FinalVersionIsMaximum` | internal/repository/etcd.go:57-121 | after any run a key has the largest of its initial version and those of all committed calls, as the last commit wrote it |
| `FeatureStore.FeatureService.SaveFeature` | internal/service/feature.go:68-149 | the transaction commits the audit from the old to the new value, the pending outbox row with the flag at the next version, and, unless its Save failed, the master, and returns that version and row; an invalid value or a failed statement is an error and changes nothing |
| `FeatureStore.FeatureService.RollbackFeature` | internal/service/feature.go:272-302 | an audit that is missing or another feature's is refused and nothing changes; otherwise the audit's old value and type are saved for the caller's feature like any other value |
| `FeatureStore.RollbackIsOwn` | internal/service/feature.go:276-280 | a rollback succeeds exactly when the audit is the feature's own, the value is valid and no checked statement fails, and never touches another feature's master |
| `FeatureStore.CommitKeepsTrail` | internal/service/feature.go:84-138 | a save keeps the feature's trail exactly when its read was up to date and its Save took effect |
| `FeatureStore.CommitKeepsOthers` | internal/service/feature.go:84-138 | a save leaves the trails of all other features alone |
| `FeatureStore.TrailOverAnyRun` | internal/service/feature.go:84-138 | over any mix of saves and rollbacks, statements failing or not, a feature's trail (one audit for each version since it was set up, each linked to the next, the last one the current value) survives exactly when no request about that feature commits with its Save error dropped; a broken trail stays broken |
| `FeatureStore.NewDbHasTrails` | mysql/init/init.sql:69-71 | a database as its initial script leaves it has an unbroken trail of every feature, seeded or not |
| `FeatureStore.RollbackRestores` | internal/service/feature.go:272-302 | a rollback makes the value before the chosen change current as one more version, and its type exactly when the change kept the type |
| `FeatureStore.RollbackKeepsTheLaterType` | internal/service/feature.go:299 | undoing a change from bool to string leaves the bool's text typed as a string |
| `SyncSystem.StepKeepsInv` | internal/service/feature.go:78-161 | saves in any order, goroutines, worker, reconciler, faults and crashes keep: etcd holds only content MySQL has held, and a completed row's version has been reached there |
| `SyncSystem.StepKeepsTrail` | internal/service/feature.go:84-138 | a feature's trail survives every step as long as its own saves are serialised and take effect, whatever other features do |
| `SyncSystem.EtcdHoldsCommitted` | internal/service/feature.go:151-161 | in every run, saves racing or lost, each entry of etcd is content MySQL has held, under its own key, and completed rows are in etcd |
| `SyncSystem.EtcdNeverAhead` | internal/service/feature.go:151-161 | the entry of a feature that owns its key and whose own saves are serialised is what MySQL held as exactly that version, at most the master's, from any initial set of masters |
| `SyncSystem.CompletedMeansInSync` | internal/service/worker.go:65-81 | in every run, when the row of the master's current version is completed and every row of the feature at that version or above carries the master's content, etcd and MySQL agree on value, type and version, although statuses race and earlier saves may have |
| `SyncSystem.OrderlyRowsAgree` | internal/service/feature.go:84-138 | a feature all of whose saves were serialised and took effect meets that condition |
| `SyncSystem.StepKeepsEvents` | internal/service/feature.go:151-161 | etcd's log ascends in revision, and in version for each key, and holds committed content only |
| `SyncSystem.ReconcilerCreatesNothing` | internal/service/reconciler.go:121-125 | without goroutine and worker no run adds a key to etcd |
| `SyncSystem.RacingSavesDiverge` | internal/service/feature.go:84-107 | two saves that read the same version end with different values in MySQL and etcd, both rows completed |
| `OutboxWorker.Outbox.FetchPending` | internal/repository/outbox.go:29-37 | the oldest pending rows in order, at most the limit, and none left out that would fit |
| `OutboxWorker.Outbox.ProcessPending` | internal/service/worker.go:45-87 | the at most ten oldest pending rows are tried one after another, each by one call with its own flag and key; a row whose call returns no error is completed with its count, an unreadable one fails with its count, a refused one counts one attempt more and fails at the fifth; rows outside the batch and rows whose update fails stay |
| `OutboxWorker.UndisturbedIsSynced` | internal/service/worker.go:63-81 | a readable row whose requests meet no fault and whose rivals fall silent by the fourth round is synced |
| `SyncRefinement.MarkIsReport` | internal/service/worker.go:63-85 | what the worker makes of a row it has tried is what the synchronisation's worker reports |
| `OutboxWorker.PassSpendsAttempts` | internal/service/worker.go:65-78 | every pass lowers the attempts left by at least the number of attempts it records, whatever etcd refuses and whichever updates are lost |
| `OutboxWorker.NoRowStarves` | internal/service/worker.go:45-87 | with arrivals after every pass, refused syncs, and turns that lose updates in between, a row has left Pending after as many turns without a lost update as the attempts left to it and the older rows fill batches, at most one for every two rows, and five more |
| `OutboxWorker.AttemptsAreBounded` | internal/service/worker.go:70-76 | without arrivals at most five attempts per row are recorded in all |
| `OutboxWorker.OutboxDrains` | internal/service/worker.go:45-87 | without arrivals nothing is pending after as many turns without a lost update as the attempts left fill batches, and five more |
| `Reconciler.Reconciler.CheckOne` | internal/service/reconciler.go:119-156 | a failed read or an absent key changes nothing; a present key is pushed by one call with the row's identity, value, type and version, and settled means that call succeeded, so etcd has at least the row's version |
| `Reconciler.PushWritesRow` | internal/service/reconciler.go:141-155 | undisturbed, an entry of a lower version is replaced by the row's identity, value, type and version, and any other entry stays |
| `Reconciler.ChainWrites` | internal/service/reconciler.go:89-156 | in a pass every entry that is not as it was is a write of others or the flag of a visited row under its key |
| `SyncRefinement.PushIsInspect` | internal/service/reconciler.go:119-150 | pushing a row read at any earlier point of any run, saves racing or lost, is a step of the synchronisation |
| `Reconciler.Reconciler.Reconcile` | internal/service/reconciler.go:89-117 | a pass that meets no failing page read runs to its end and visits every row present at its start exactly once although rows are appended; any pass changes etcd at each visit as that row's check alone prescribes, writes nothing but flags of visited rows, lowers no version, keeps what is settled settled, and settles every row it visits whose key etcd had unless that row's own requests met an error or a rival |
| `Reconciler.UndisturbedSettles` | internal/service/reconciler.go:119-156 | the check of a present key whose requests meet no error and no rival for the key ends settled |
| `Reconciler.CalmSettles` | internal/service/reconciler.go:119-156 | without faults or interference a present key is settled and no key is added |
| `RateLimit.Redis.TokenBucket` | internal/middleware/ratelimit.go:29-70 | the answer is 1 exactly if the refilled level covers the request and 0 otherwise, with the whole tokens left and the whole seconds to wait, 0 if admitted; a denial writes nothing, an admission takes the tokens and sets the expiry to at least two fill times |
| `RateLimit.ExpiryIsInvisible` | internal/middleware/ratelimit.go:37-38 | keys expire only when the bucket is full anyway, with one fill time of clock skew to spare |
| `RateLimit.LazyEqualsEager` | internal/middleware/ratelimit.go:40-67 | lazy refill, no write on denial and expiry give on every run the answers of a bucket that always writes and never expires: admitted exactly if that bucket has enough, and told its whole tokens |
| `RateLimit.WindowBound` | internal/middleware/ratelimit.go:47-67 | the callers answered 1 in any window of any run are granted at most capacity plus rate times its length, and stored tokens stay between 0 and capacity |
| `RateLimit.ResetAfterIsExact` | internal/middleware/ratelimit.go:58-62 | a denied caller that waits alone is admitted exactly from the script's `reset_after` on, if the bucket can hold its request at all |
| `RateLimit.ToldTooEarly` | internal/middleware/ratelimit.go:58-69 | a denied caller that waits the truncated `reset_after` it is told is admitted exactly when nothing was cut off and the bucket can hold its request; for one token at a rate of at least one per second it is told 0 unless the rate is one and the bucket empty |
| `ServerSnapshot.SnapshotIsHistory` | internal/service/feature.go:322-396 | the visible snapshot is the replay of the scope's own puts over its part of the initial load exactly when it is not shadowed |
| `ServerSnapshot.NewestIsLastWritten` | internal/service/feature.go:317-332 | of the flags a load lists under one short key, in whatever order, the one with the newest revision is what the log last wrote of it, exactly when no other feature with the same etcd key has overwritten that since |
| `ServerSnapshot.SnapshotIsLog` | internal/service/feature.go:322-396 | a server that loaded etcd in any key order and watched it since shows the replay of everything ever put exactly when nothing is shadowed and every short key, unless rewritten since, was left at the content last written of it |
| `ServerSnapshot.LatestIsInOrder` | internal/service/feature.go:324-332 | where those last writes are still in etcd, the second half of that condition says that under each such short key the flag listed last has the content of the newest |
| `ServerSnapshot.ServerServes` | internal/api/stream_handler.go:181-203 | in exactly the same case the endpoint serves the puts as of the cached events, under a stamp that is never ahead of them |
| `ServerSnapshot.DeletedComesBack` | internal/service/feature.go:351-373 | for any feature without slashes, put and then deleted: the stream's replay shows nothing, the snapshot still the flag |
| `ServerSnapshot.RestartShowsOlder` | internal/service/feature.go:324-332 | for any two flags of one short key in two namespaces, the one whose etcd key sorts first written last: a restart, listing in key order, leaves the older one showing, with nothing shadowed, under the newer stamp |
| `ServerSnapshot.KeysAreOrdered` | internal/repository/etcd.go:128-130 | of two different keys exactly one comes first in etcd's order |
| `EndToEnd.StreamKeepsAgreement` | client/client.go:133-234 | over any interleaving, restarts included: if the hub took the Register before the ring was read, the read was served, and the ring held something or the client had seen the last event before the restart, a client that agrees with its scope's events when it connects agrees after everything the connection writes, and shows all of them when it has been through the log |
| `EndToEnd.ConnectionIsWalk` | internal/api/stream_handler.go:76-122 | every served and registered connection does to its client what steps of the client model do, passing over exactly the events from before a restart and from the registration window |
| `EndToEnd.WatchIsWalk` | client/client.go:184-231 | the watch loop on such a connection, pings and garbage among its messages, ends with the memory of those steps, and after a reset with that of a refetch on top |
| `EndToEnd.MissedEventMisleads` | internal/service/hub.go:33 | a run whose client missed one event and received the next disagrees with the log up to its last revision |
| `EndToEnd.CaughtUpClientAgrees` | client/client.go:236-264 | in every reachable state a client that is caught up agrees with its log, so the promise for its next connection applies |
| `EndToEnd.EtcdLogIsOrderly` | internal/service/feature.go:374-392 | the announced log of any run is put-only, ascending in revision and, for each feature, in version |
| `EndToEnd.ListingIsLoad` | internal/service/feature.go:317-332 | what etcd lists, in any order, is a load of all it ever wrote |
| `EndToEnd.ReplayShowsEtcd` | internal/service/feature.go:374-392 | replaying the announced events of a scope shows, for each feature that owns its short key, exactly etcd's entry |
| `EndToEnd.ClientShowsMaster` | internal/service/feature.go:78-161 | when the row of a feature's current version is completed and agrees with the master, a client that agreed with the log when it connected, on a connection registered before its read, served, and with a filled ring or an up-to-date client, to a server started at any point of the log, shows value, type and version as MySQL holds them once the connection has been through the rest |
| `EndToEnd.FetchShowsMaster` | client/client.go:191-200 | any reachable client whose last fetch, at its start or after any number of resets, was of the whole announced log shows such a feature as MySQL holds it, as long as nothing was delivered to it since its first fetch |
| `EndToEnd.ServerFetchShowsMaster` | internal/api/stream_handler.go:181-203 | a server started at any point of the log with everything since in its cache answers with such a snapshot, unless something of the scope is shadowed or was loaded out of order, and a client that takes the answer shows the feature as MySQL holds it |

## Left out

- EtcdNeverAhead: is about features whose own saves are serialised and take effect and which own their key; `EtcdHoldsCommitted` says what holds of all others, `CommitKeepsTrail`, `RacingSavesDiverge` and `KeyIsUnique` where the line runs.
- CompletedMeansInSync: needs the rows at the master's version to carry the master's content, which racing saves can break (`RacingSavesDiverge`) and the next serialised save repairs, and a feature that owns its key.
- ClientFollowsLog: its "only if" needs versions that ascend per short key, which two namespaces sharing a short key need not have.
- ServerServes: is about a client against one server at a time, whose cache does not go back; replicas that lag behind each other are not modelled. No flag may have for its short key the full key of a deleted one, the only kind a delete would remove from the cache.
- RefetchLowersRevision: is about servers whose writers store no revision in a flag's JSON, as all of the repository do; `FreshClientIsServed` covers deletes.
- TokenBucket: computes over the reals; the rounding of the script's numbers is not modelled.
- Reconcile: rows are appended or updated during a pass but never removed, as in the repository.
- OutboxDrains: is about one worker. Turns in which a status update is lost do not count towards its bound, or `NoRowStarves`', and may come in between; a turn whose fetch fails changes no row, like one that loses all its updates.
- ClientShowsMaster: names the feature by an outbox row, so it says nothing of a master that the initial script inserted and nobody has saved since, which has no outbox row and never reaches etcd.
- SSE framing and JSON encoding: messages are values, with a case for payloads that do not parse; that the SDK looks for `event: ` with a space is not modelled.
- The fallback limiter in memory, which is a library's.
- The reconciler's distributed lock: safety does not rest on it, and overlapping reconcilers are modelled instead.
- etcd's compaction and watch cancellation, after which the server's watch loop ends.
- `validatePayload` and the strategy evaluation of the SDK: case distinctions with easy claims; a save takes the validation's verdict as a parameter.
- HTTP routing, parsing of namespace lists, authentication, metrics, logging and configuration.
- Back-off times, the heartbeat watchdog and tick intervals: any amount of time may pass between steps.
- `DashboardWatch`, which has no history and no filter, and `FeatureMasterRepository.Rollback`, which the service does not call.
