# Verification of the dot-ai controller

A Dafny model of the stateful cores of the dot-ai Kubernetes controller, with proofs about whole runs.
`dafny verify dfyconfig.toml` checks all of it.

| file | what it models |
|---|---|
| `Text.dfy` | optional values, time in nanoseconds, and the string operations the controllers rely on |
| `CooldownKeys.dfy` | the keys of cooldowns: pod and CronJob owners, full keys of policies |
| `EventGate.dfy` | the remediation gate of one reconcile, as a class over its tracking maps and as a function |
| `GateRuns.dfy` | runs of that gate: spacing of remediations, refinement by one timer per key |
| `SlidingWindow.dfy` | the rate limiter alone, without the object cooldown in front of it |
| `CooldownPersistence.dfy` | dirty set, one ConfigMap per policy, sync, stop and load |
| `CooldownLifecycle.dfy` | runs of admissions, syncs, failed writes, shutdowns, crashes and restarts |
| `PolicyStatus.dfy` | the status of a policy under optimistic concurrency |
| `ResourceSync.dfy` | resource identifiers, informer handlers, batches and their overlay on the remote store |
| `DebounceBuffer.dfy` | the debounce buffer, its event loop, and the retrying client |
| `SyncPipeline.dfy` | cluster, bounded queue, buffer, request in flight, remote store and resync as one step system |
| `GitSync.dfy` | full and incremental sync of a Git repository to a knowledge server |
| `CapabilityScan.dfy` | resource patterns, discovery, the capability diff and the capability buffer |
| `Backoff.dfy` | both forms of capped exponential backoff with jitter, and the retry loop |

Objects whose methods update fields are classes; each method's `ensures` gives its whole new state through a
specification function, and the theorems over runs are lemmas about those functions. Clock readings, the answers of the
API server, of Git and of the remote servers, and the random numbers of the jitter are parameters or nondeterministic
choices, so every theorem holds for all of them.

## What the proofs found

- `flush` has a branch for partial failures that are not re-queued (internal/controller/resourcesync_debounce.go:200-208);
  it is unreachable, because `sendWithRetry` returns a nil error only together with a successful response. Every failure
  re-queues the whole batch; this is what makes delivery at-least-once.
- A comment says that a conflicting ConfigMap update is retried on the next sync (internal/controller/persistence.go:402),
  but `Sync` has cleared the dirty set by then (internal/controller/persistence.go:301-304), so the next sync does nothing.
  `CooldownLifecycle.FailedWriteIsNotRetried` says exactly when the cooldown is stored all the same,
  `CompleteThroughoutIff` says the same of whole runs, and `ConflictLosesCooldown` shows one that is not.
- A load that fails for all policies or for one ConfigMap (internal/controller/persistence.go:143-146 and 183-190) forgets
  cooldowns that are still stored; the next good restart brings them back (`CooldownLifecycle.MissedLoadCreatesCooldown`).
  A key stays sound over a run exactly if every load saw its ConfigMap or found its stored end expired
  (`SoundThroughoutIff`).
- In `reconcileEvent` the one-minute window never turns an event away: the five-minute object cooldown has always emptied
  it first. The window matters only for `isRateLimited` alone.
- A policy cooldown is set only if `EventsPerMinute` is positive (internal/controller/remediationpolicy_ratelimit.go:197-241),
  so `CooldownMinutes` without `EventsPerMinute` leaves only the object cooldown. A cooldown setting is kept over all runs
  exactly if `EventsPerMinute` is positive: by `isRateLimited` alone (`SlidingWindow.CooldownKeptIff`) and, beyond five
  minutes, by whole reconciles (`GateRuns.CooldownKeptIff`). With an explicit zero and a cooldown of 30 minutes, two
  remediations are five minutes apart (`CooldownSettingExample`).
- `LastSyncedCommit` advances although files failed (internal/controller/gitknowledgesource_controller.go:432), and the next
  incremental sync of the same commit reports success with those files still missing (`GitSync.FailedFileIsNotRetried`,
  with actual values in `RefusedFileExample`). Such a file is repaired exactly by a later sync that lists and reads it
  (`FileHeldIff`): one whose commit touches the file, or a full one, which a changed spec, a failed diff and a last commit
  outside the fetched history all cause (`FullSyncIff`). A file that was deleted from the repository surfaces as an error of
  the sync that learns of it.
- The capability buffer is not last-state-wins: what its batch does for a type is what the last event asks exactly if that
  event is a delete or no event since the last flush is one (`CapabilityScan.LastStateWinsIff`). A CRD deleted and created
  again in between is deleted and not scanned (`RecreatedTypeIsDeleted`). Unlike the resource buffer it also drops batches
  whose requests fail.
- A partial discovery (internal/controller/capabilityscan_controller.go:416-422) makes the startup reconciliation delete
  live capabilities: those that only silent API groups serve (`CapabilityScan.LiveTypeLostIff`), such as Deployments while
  `apps/v1` is silent (`SilentGroupExample`).
- The capability client does not cap its wait after adding the jitter, so it can wait up to a quarter longer than
  `maxBackoffSeconds`; `Backoff.ClientOvershootsIff` says for which settings. With `backoffSeconds: 300` under the default
  maximum its first retry may wait 360 seconds (`CapabilityClientExample`). The resource client has the same formula, but its
  fixed settings keep it below its maximum (`ResourceClientStaysBelowCap`). The knowledge client caps once more.
- The comments of both power forms speak of 2^attempt (internal/controller/capabilityscan_mcp.go:325,
  internal/controller/resourcesync_mcp.go:234); the code, and the model, start at 2^0. `maxAttempts` is documented as
  including the initial attempt (api/v1alpha1/capabilityscanconfig_types.go:60), but the code retries that often, so it
  limits the requests exactly if they end early anyway (`Backoff.WithinSettingIff`); with 1, two are made
  (`SecondRequestExample`).

## Model

| member | source | states |
|---|---|---|
| CooldownKeys.ParseCronJobNameExact | internal/controller/remediationpolicy_ratelimit.go:26-58 | parsing a pod name yields a CronJob name exactly if the pod name is that name, digits and a dash-free suffix joined by dashes, all non-empty; the name may hold dashes |
| CooldownKeys.RateLimitKeyText | internal/controller/remediationpolicy_ratelimit.go:69-175 | the key of every object as text: policy namespace, policy name, object namespace and identifier joined by slashes; the identifier is `cronjob:` and a name for pods of a CronJob, present or deleted, `job:` and a name for pods of any other Job or one that cannot be read, and the own name for everything else |
| CooldownKeys.FirstOwnerIs | internal/controller/remediationpolicy_ratelimit.go:108-155 | an owner search yields the first owner reference of the kind, and nothing exactly if there is none |
| CooldownKeys.KeySurvivesDeletion | internal/controller/remediationpolicy_ratelimit.go:69-175 | a CronJob's pod keeps its rate-limit key across its deletion if and only if its name has the shape for that CronJob |
| CooldownKeys.CronJobPodsShareKey | internal/controller/remediationpolicy_ratelimit.go:69-175 | all pods of one CronJob, alive with an intact owner chain or deleted, share one key |
| CooldownKeys.ParseThenMake | internal/controller/persistence.go:110-121 | exactly the strings with three or more slashes parse, and building the key undoes parsing |
| CooldownKeys.MakeThenParse | internal/controller/persistence.go:110-121 | parsing undoes building if and only if the policy parts are slash-free and the short key has a slash |
| CooldownKeys.FullKeysDisjoint | internal/controller/persistence.go:110-121 | different policies or short keys never share a full key |
| CooldownKeys.RateLimitKeyBelongsToPolicy | internal/controller/remediationpolicy_ratelimit.go:160-175 | every rate-limit key parses back to the policy that made it |
| CooldownKeys.MakeThenSplit | internal/controller/persistence.go:226-228 | the full keys that a load builds, short keys without a slash included, split back into policy and short key |
| CooldownPersistence.GroupEntries | internal/controller/persistence.go:261-285 | a policy's group holds exactly its cooldowns that have the minimum duration left, with their ends |
| CooldownPersistence.GroupOrigin | internal/controller/persistence.go:261-285 | each grouped entry comes from the cooldown that its policy and short key name, so policies never mix |
| CooldownPersistence.CooldownPersistence.MarkDirty | internal/controller/persistence.go:236-245 | a key becomes dirty unless less than the minimum duration is left |
| CooldownPersistence.CooldownPersistence.SyncPolicyConfigMap | internal/controller/persistence.go:316-414 | the ConfigMap holds the entries truncated to seconds exactly if the policy exists, is enabled and the write went through; a conflict is no error |
| CooldownPersistence.CooldownPersistence.GroupByPolicy | internal/controller/persistence.go:261-285 | the nested map built key by key is the partition of the qualifying cooldowns by policy |
| CooldownPersistence.CooldownPersistence.Sync | internal/controller/persistence.go:249-313 | with anything dirty, all groups are written except where the API fails, errors are reported, and the dirty set is empty even after failures; with nothing dirty, nothing changes |
| CooldownPersistence.CooldownPersistence.Stop | internal/controller/persistence.go:453-497 | writes the groups of all cooldowns in memory, whatever was dirty |
| CooldownPersistence.CooldownPersistence.Load | internal/controller/persistence.go:138-171 | restores exactly the unexpired, readable stored ends of enabled policies under their full keys; a failed listing restores nothing, an unreadable ConfigMap nothing of its policy |
| CooldownPersistence.CooldownPersistence.LoadPolicyState | internal/controller/persistence.go:174-232 | adds one policy's unexpired entries, none if its ConfigMap cannot be read, and leaves all other keys as they were |
| CooldownLifecycle.StoredEndAfterSync | internal/controller/persistence.go:249-346 | what is stored for any key after a sync: its truncated durable end where its policy's write went through, and what was there before elsewhere |
| CooldownPersistence.ReachedEnd | internal/controller/persistence.go:143-190 | what a load with failing calls sees of a key: its stored end, or nothing if the listing or its ConfigMap failed |
| CooldownLifecycle.RestartKeepsSoundIff | internal/controller/persistence.go:138-231 | after a restart the stored end of a key has expired or is no later than its end in memory, if and only if the load saw the key's ConfigMap or the stored end had expired |
| CooldownLifecycle.SoundThroughoutIff | internal/controller/persistence.go:138-346 | over every run, failed writes and failing loads included, that holds after every step if and only if it holds of every load |
| CooldownLifecycle.MissedLoadCreatesCooldown | internal/controller/persistence.go:143-146 | a failed listing followed by a good restart: a cooldown appears that was not in memory |
| CooldownLifecycle.RestartNeverLengthens | internal/controller/persistence.go:174-231 | if the loads of a run covered a key, a restart at its end never creates its cooldown and never lengthens it |
| CooldownLifecycle.StepKeepsCompleteIff | internal/controller/persistence.go:249-497 | a step leaves a durable cooldown dirty or stored as its truncated end if and only if, when it clears the dirty marks, the key's write goes through, or the end is there already, or the cooldown is not durable |
| CooldownLifecycle.CompleteThroughoutIff | internal/controller/persistence.go:249-497 | over every run, failed writes and loads included, that completeness holds after every step if and only if every write that clears the marks meets that condition |
| CooldownLifecycle.CompleteOverRun | internal/controller/persistence.go:249-346 | in particular over every run whose writes succeed, whatever its loads missed |
| CooldownLifecycle.CrashKeepsCooldown | internal/controller/persistence.go:174-313 | after a run whose writes meet that condition for a key, a crash followed by a load that sees the ConfigMap loses less than one second of its durable cooldown, unless that waits for its first sync |
| CooldownLifecycle.StopStoresEverything | internal/controller/persistence.go:453-497 | an orderly stop stores every durable cooldown of an enabled policy, dirty or not |
| CooldownLifecycle.DurableIsHeld | internal/controller/persistence.go:249-497 | with `persistence` absent, `enabled` absent or `enabled: true`, a sync with anything dirty and every stop store a cooldown that has the minimum duration left as the whole second it ends in, under a version that loads accept |
| CooldownLifecycle.AdmittedIsHeld | internal/controller/persistence.go:236-346 | for every policy with both settings and without `persistence`, a run of one admission and one later sync with the minimum duration left ends with the cooldown's end stored |
| CooldownLifecycle.HeldIsRestored | internal/controller/persistence.go:125-231 | a load restores an end for a key if and only if `enabled` is not false, the listing and the ConfigMap could be read, the version is absent or 1, and that end is stored and not past |
| CooldownLifecycle.TurnedOffIsLeftAlone | internal/controller/persistence.go:125-341 | with `enabled: false` no step changes the policy's ConfigMap, marks its keys or restores one of them |
| CooldownLifecycle.AdmissionMarks | internal/controller/remediationpolicy_ratelimit.go:228-241 | an admission marks its key dirty if and only if EventsPerMinute and CooldownMinutes are positive, `enabled` is not false and the minimum duration is left |
| CooldownLifecycle.FailedWriteIsNotRetried | internal/controller/persistence.go:301-304 | after two syncs in a row with any faults, a cooldown is stored if and only if the first write went through or the ConfigMap already held it |
| CooldownLifecycle.ConflictLosesCooldown | internal/controller/persistence.go:400-404 | one dirty cooldown, an existing ConfigMap and one conflicting update: after two syncs nothing is stored |
| EventGate.FirstMatch | internal/controller/remediationpolicy_controller.go:671-674 | the first policy in list order that matches the event, if any matches |
| EventGate.FirstSelector | internal/controller/remediationpolicy_controller.go:181-188 | the first selector of a policy that matches the event, if any matches |
| EventGate.RemediationPolicyReconciler.MatchesPolicyWithSelector | internal/controller/remediationpolicy_controller.go:181-262 | returns the first selector that matches, checked field by field, and none exactly if the policy does not match |
| EventGate.RemediationPolicyReconciler.WithinMinute | internal/controller/remediationpolicy_ratelimit.go:209-216 | keeps exactly the times of the last minute, in order |
| EventGate.RemediationPolicyReconciler.IsRateLimited | internal/controller/remediationpolicy_ratelimit.go:178-244 | the verdict of cooldown and window, and the tracked times, cooldown end and dirty mark after it |
| EventGate.RemediationPolicyReconciler.SetObjectCooldown | internal/controller/remediationpolicy_ratelimit.go:297-315 | the object's key is blocked for five minutes |
| EventGate.RemediationPolicyReconciler.ReconcileEvent | internal/controller/remediationpolicy_controller.go:617-748 | the outcome and the whole gate state after one event, over all its early exits, and the dirty mark |
| EventGate.SelectorsDecide | internal/controller/remediationpolicy_controller.go:224-748 | on the fields: the policy with the first selector whose type, reason, kind, namespace and message pattern the event all has decides it, with that selector and under the key of that policy and object |
| EventGate.IgnoredIff | internal/controller/remediationpolicy_controller.go:617-748 | an event is ignored if and only if it is older than the process, its object is gone, its namespace, name and version were processed, or every selector of every policy names something that it does not have |
| EventGate.RemediationPolicyReconciler.FirstMatchingPolicy | internal/controller/remediationpolicy_controller.go:673-674 | the loop finds the first matching policy and its first matching selector |
| EventGate.RemediationPolicyReconciler.Consult | internal/controller/remediationpolicy_controller.go:674-738 | the first matching policy decides alone; an admitted event is marked and its object put into cooldown before processing can fail |
| EventGate.RemediationPolicyReconciler.CleanupProcessedEvents | internal/controller/remediationpolicy_controller.go:154-168 | forgets exactly the events older than the age |
| EventGate.RemediationPolicyReconciler.CleanupObjectCooldowns | internal/controller/remediationpolicy_ratelimit.go:318-332 | forgets exactly the object cooldowns that have ended |
| GateRuns.WindowNeverFull | internal/controller/remediationpolicy_ratelimit.go:196-222 | no event of any run is turned away because the window is full |
| GateRuns.RemediationsAreSpaced | internal/controller/remediationpolicy_controller.go:671-739 | in any run without restart, remediations of one key are five minutes and its policy cooldown apart, and those of one event key more than ten minutes, even if processing failed |
| GateRuns.CleanupForgets | internal/controller/remediationpolicy_controller.go:607-610 | a policy reconcile forgets exactly the events processed more than ten minutes ago and the object cooldowns that have ended |
| GateRuns.OnlyFirstMatchDecides | internal/controller/remediationpolicy_controller.go:671-739 | an event is remediated or blocked under the first matching policy only, with the settings of its first matching selector, and never while it counts as processed |
| GateRuns.CooldownKeptIff | internal/controller/remediationpolicy_controller.go:671-739 | a CooldownMinutes above five is kept between all remediations of a key under a policy with selectors, over all runs, if and only if its EventsPerMinute is positive |
| GateRuns.RemediatedAfterFiveMinutes | internal/controller/remediationpolicy_controller.go:671-739 | for every policy with selectors and without EventsPerMinute, a run with two remediations of one key five minutes apart |
| GateRuns.CooldownSettingExample | internal/controller/remediationpolicy_controller.go:671-739 | the same for EventsPerMinute 0 and CooldownMinutes 30 |
| GateRuns.GateRefinesTimer | internal/controller/remediationpolicy_controller.go:617-748 | with one clock reading per reconcile and steady settings, every decision of every run, across cleanups and restarts with restored cooldowns, is that of one timer per key with period max(5, CooldownMinutes) or 5 minutes |
| SlidingWindow.RateLimitHolds | internal/controller/remediationpolicy_ratelimit.go:178-244 | every half-open minute of every run lets at most EventsPerMinute checks of a key pass |
| SlidingWindow.CooldownHolds | internal/controller/remediationpolicy_ratelimit.go:178-244 | with a limit on the events per minute, successive passes of a key are at least CooldownMinutes apart |
| SlidingWindow.CooldownKeptIff | internal/controller/remediationpolicy_ratelimit.go:197-241 | a positive CooldownMinutes is kept in every run of checks if and only if EventsPerMinute is positive |
| SlidingWindow.TwoPassesAtOnce | internal/controller/remediationpolicy_ratelimit.go:197-241 | without EventsPerMinute two checks at the same time both pass |
| SlidingWindow.SpreadBoundsCount | internal/controller/remediationpolicy_ratelimit.go:209-226 | if any n + 1 successive times span a minute, no half-open minute holds more than n |
| PolicyStatus.StatusConsistent | internal/controller/remediationpolicy_controller.go:389-526 | under any interleaving of the four writers the totals add up, message count stays below the total, condition types stay unique, Ready reports the current counters, and each last-event time is set exactly if its counter is positive |
| PolicyStatus.CountersTellHistory | internal/controller/remediationpolicy_controller.go:389-526 | each counter is the number of accepted changes of its kind since the last initialization |
| PolicyStatus.UpdatePolicyStatus | internal/controller/remediationpolicy_controller.go:389-488 | of at most four attempts each is made exactly if the earlier ones failed to read or met a conflict and no wait was cancelled; it succeeds if and only if one that is made finds the server reachable and nobody writing in between, and the event is counted exactly once if one lands, else not at all |
| PolicyStatus.WriteOnce | internal/controller/remediationpolicy_ratelimit.go:247-265 | the routines without retries succeed if and only if the read works, nobody writes in between and the server is reachable; their change is stored exactly once if it lands, else not at all |
| PolicyStatus.ReplaceHealth | internal/controller/remediationpolicy_notifications.go:195-213 | replaces the health condition, or only its message if the status is unchanged |
| PolicyStatus.ReplaceCondition | internal/controller/remediationpolicy_controller.go:458-469 | replaces the first Ready condition or appends one |
| PolicyStatus.CountedEvent | internal/controller/remediationpolicy_controller.go:420-469 | the status written for one processed event: counters, last-event times and the Ready condition |
| PolicyStatus.Rewritten | internal/controller/remediationpolicy_controller.go:491-526 | the statuses written by initialization, rate-limit count and notification health |
| ResourceSync.ResourceIdInjective | internal/controller/resourcesync_controller.go:825-831 | distinct objects have distinct ids if namespaces, API versions and kinds hold no colon and no namespace is `_cluster`; names may hold colons |
| ResourceSync.ResourceIdText | internal/controller/resourcesync_controller.go:825-831 | an id is namespace, API version, kind and name joined by colons, with `_cluster` for an empty namespace |
| ResourceSync.HandledOnFields | internal/controller/resourcesync_controller.go:834-1042 | additions, and updates that change the labels, queue the object's own identity, labels, descriptions and creation time; other updates queue nothing; deletions queue the identity |
| ResourceSync.Extract | internal/controller/resourcesync_controller.go:834-881 | the loop over the annotations copies what the specification of the payload says |
| ResourceSync.ExtractMirrorsObject | internal/controller/resourcesync_controller.go:834-881 | the payload has the object's labels, empty ones for absent ones, and exactly its annotations named description or ending in /description that Helm does not own |
| ResourceSync.HandledWellFormed | internal/controller/resourcesync_controller.go:913-1042 | every change that a handler queues carries a payload from which the server rebuilds its id |
| ResourceSync.RequestOrderIrrelevant | internal/controller/resourcesync_debounce.go:146-162 | a request has at most one operation per remote object, so upserts first and deletes first give the same store |
| ResourceSync.OverlayAbsorbs | internal/controller/resourcesync_debounce.go:184-195 | a partly applied batch is invisible under that batch |
| ResourceSync.OverlayRequeue | internal/controller/resourcesync_debounce.go:216-225 | re-queueing a batch under newer changes keeps the eventual store |
| DebounceBuffer.SendWithRetry | internal/controller/resourcesync_mcp.go:179-230 | for given answers and cancellations: request n is made if and only if n is at most the retries, all earlier ones failed without details and nobody gave up; the error is nil if and only if one that is made is answered with success; then the whole request is remote, else any part of it |
| DebounceBuffer.ResponseOnFields | internal/controller/resourcesync_mcp.go:68-86 | the error text is the message, else the code, else a fixed text; the counts are those of the data, else zero |
| DebounceBuffer.DebounceBuffer.Record | internal/controller/resourcesync_debounce.go:105-134 | the newest change of an id replaces any other; unnamed changes are counted as dropped |
| DebounceBuffer.DebounceBuffer.TakeBatch | internal/controller/resourcesync_debounce.go:140-166 | empties the buffer into a request that carries exactly the changes with a payload |
| DebounceBuffer.DebounceBuffer.RequeueChangesFromMap | internal/controller/resourcesync_debounce.go:216-225 | failed changes come back unless a newer one of the same id arrived |
| DebounceBuffer.DebounceBuffer.Flush | internal/controller/resourcesync_debounce.go:137-213 | with a client and something to send, exactly the requests of the retry rule are made and the error is nil if and only if one is answered with success; then all is remote and nothing pending, else all is pending; pending over remote means the same before and after; changes without a payload, and without a client all, are dropped |
| DebounceBuffer.DebounceBuffer.FlushThrough | internal/controller/resourcesync_debounce.go:137-213 | if one of its requests is answered with success, everything that was pending is remote |
| DebounceBuffer.DebounceBuffer.Run | internal/controller/resourcesync_debounce.go:65-99 | for any interleaving of changes, flushes and server answers, pending over remote is the replay of the received changes in order; if the last flush gets through, remote alone is; without a client, what is pending is what came since the last flush |
| DebounceBuffer.HandlersSignalWellFormed | internal/controller/resourcesync_controller.go:913-1042 | the changes that handlers queue are such changes |
| SyncPipeline.PipelineConverges | internal/controller/resourcesync_controller.go:885-1042 | in every state reachable from any remote store, a resource has its cluster labels once remote, in-flight, buffered and queued changes are laid over each other, unless its last event was dropped or an earlier process left it in the store, and no event or healing resync has come since |
| SyncPipeline.PipelineMirrorsObjects | internal/controller/resourcesync_controller.go:834-1042 | the same on the objects' own fields: the store has the object's labels, empty ones if it has none, and no entry for an absent object |
| SyncPipeline.QuietPipelineMirrors | internal/controller/resourcesync_controller.go:885-1042 | with nothing on its way, the remote store itself holds those labels |
| SyncPipeline.DrainDelivers | internal/controller/resourcesync_debounce.go:65-225 | from every reachable state, steps of the buffer and the server can deliver everything on its way, and the remote store is then the eventual one |
| SyncPipeline.AddedObjectArrives | internal/controller/resourcesync_controller.go:913-941 | an added object whose event finds room in the queue of 10000 can arrive with its own labels |
| SyncPipeline.UpdatedObjectArrives | internal/controller/resourcesync_controller.go:944-984 | so can an update that changes the labels |
| SyncPipeline.DeletedObjectDisappears | internal/controller/resourcesync_controller.go:987-1042 | a deleted object whose event finds room can disappear from the remote store |
| SyncPipeline.FirstEventArrives | internal/controller/resourcesync_controller.go:893-941 | the first event of a process can arrive whatever an earlier process left |
| SyncPipeline.ClosedQueueDrops | internal/controller/resourcesync_controller.go:893-910 | after the queue is closed an event queues nothing and its resource counts as stale |
| SyncPipeline.LeftoverIsStale | internal/controller/resourcesync_controller.go:1318-1325 | what an earlier process left in the store disagrees with the cluster as the new process first knows it |
| SyncPipeline.ResyncHeals | internal/controller/resourcesync_controller.go:1272-1316 | a resync with nothing on its way mirrors every resource, dropped events and orphans of an earlier process included |
| SyncPipeline.StepKeepsConsistent | internal/controller/resourcesync_debounce.go:105-225 | each single step keeps that invariant: partial, repeated and failed requests, partial resyncs, and resyncs that land between the application of a request and its acknowledgement |
| SyncPipeline.ListAllResources | internal/controller/resourcesync_controller.go:1221-1267 | lists the data of exactly the cached objects of all informers but the CRD informer |
| SyncPipeline.ListedMirrorsObjects | internal/controller/resourcesync_controller.go:834-1267 | that data mirrors each cached object as it is, and nothing else |
| SyncPipeline.ListedIsSnapshot | internal/controller/resourcesync_controller.go:1221-1316 | stored under the server's keys, that list is exactly the cluster without CRDs |
| SyncPipeline.ChangeQueue.TrySendChange | internal/controller/resourcesync_controller.go:893-910 | appends the change unless the queue is closed or full, and says which |
| SyncPipeline.ChangeQueue.OnAdd | internal/controller/resourcesync_controller.go:913-941 | does to the queue what the pipeline's notify step does for an added object |
| SyncPipeline.ChangeQueue.OnUpdate | internal/controller/resourcesync_controller.go:944-984 | the same for an update; unchanged labels queue nothing |
| SyncPipeline.ChangeQueue.OnDelete | internal/controller/resourcesync_controller.go:987-1042 | the same for a deletion or its tombstone |
| GitSync.LocationInjective | internal/controller/gitknowledgesource_controller.go:584-614 | within one spec, distinct paths have distinct document URIs |
| GitSync.AddressIsLocation | internal/controller/gitknowledgesource_controller.go:584-614 | the URI is the browsable address of the repository without a trailing `.git`, `/blob/`, the branch or `main`, and the path |
| GitSync.TallyOf | internal/controller/gitknowledgesource_controller.go:378-437 | every file is counted once as document, error or skipped; no errors means all were readable and accepted; skipped are exactly the readable oversized ones |
| GitSync.ProcessFile | internal/controller/gitknowledgesource_controller.go:384-426 | what one file does to the tallies and to its own place in the knowledge base, and to no other place; a counted document has the file's content, the source as `sourceIdentifier` and the other metadata of the spec |
| GitSync.ProcessFiles | internal/controller/gitknowledgesource_controller.go:378-426 | the loop's tallies, and that each processed file is ingested, untouched or refused as its outcome says |
| GitSync.GitKnowledgeSourceReconciler.DoSync | internal/controller/gitknowledgesource_controller.go:240-455 | full or incremental choice, processed files and the status of a completed sync; an early stop changes only the phase |
| GitSync.GitKnowledgeSourceReconciler.Reconcile | internal/controller/gitknowledgesource_controller.go:131-163 | the stored status and knowledge base after a reconcile, whichever status writes fail and whether it timed out |
| GitSync.FullSyncMirrors | internal/controller/gitknowledgesource_controller.go:351-440 | a full sync without errors makes the knowledge base hold every eligible file of the head |
| GitSync.FileHeldIff | internal/controller/gitknowledgesource_controller.go:327-426 | an eligible file that was not refused is held with the head's content after a sync if and only if the sync listed and read it or it was held before |
| GitSync.FullSyncIff | internal/controller/gitknowledgesource_controller.go:335-360 | a sync processes all files if and only if the spec changed, nothing was synced before, or the history does not tell what changed |
| GitSync.PlannedFilesIff | internal/controller/gitknowledgesource_controller.go:335-360 | the processed files are exactly the accepted ones of the listing, or of the patch since the last synced commit |
| GitSync.ErrorFreeSyncMirrorsIff | internal/controller/gitknowledgesource_controller.go:327-440 | a sync without errors mirrors the head if and only if every eligible file that it did not process was already held as in the head |
| GitSync.IncrementalSyncMirrors | internal/controller/gitknowledgesource_controller.go:327-440 | with a complete diff, an error-free incremental sync from a mirrored commit does what a full one would |
| GitSync.CleanRunMirrors | internal/controller/gitknowledgesource_controller.go:131-440 | over every run: if since the last full sync all syncs were error-free and recorded, every eligible file of the last synced commit is held with that commit's content |
| GitSync.CleanRunHolds | internal/controller/gitknowledgesource_controller.go:131-440 | the same on the documents: since an error-free full sync nothing failed and the spec was not edited, so every accepted file within the size limit has a document at its URI with that commit's content, the source as `sourceIdentifier` and all other metadata of the spec |
| GitSync.CleanRunExists | internal/controller/gitknowledgesource_controller.go:131-440 | for any two commits of one file such a run: a full sync, then an incremental one of the changed file |
| GitSync.EditForcesFull | internal/controller/gitknowledgesource_controller.go:131-132 | after a change of the spec every sync is full until one is recorded |
| GitSync.DeletedFileIsAnError | internal/controller/gitknowledgesource_controller.go:384-392 | a listed file that is gone from the head makes its sync end with errors |
| GitSync.FailedFileIsNotRetried | internal/controller/gitknowledgesource_controller.go:335-440 | a file missing after a recorded sync is still missing after the next incremental sync of that commit, which reports success |
| GitSync.RefusedThenSynced | internal/controller/gitknowledgesource_controller.go:335-440 | for every one-file commit, two syncs, the first refused the file and the second untroubled, that end as a success without the file |
| GitSync.RefusedFileExample | internal/controller/gitknowledgesource_controller.go:335-440 | the same with actual values |
| CapabilityScan.GroupPatternIsLabelSuffix | internal/controller/capabilityscan_controller.go:536-555 | a plain group pattern matches if and only if its labels are a suffix of the group's, a starred one if and only if they are a proper suffix |
| CapabilityScan.PatternIsSelection | internal/controller/capabilityscan_controller.go:500-532 | pattern matching on strings equals a selection on label lists |
| CapabilityScan.PlainPatternsTransitive | internal/controller/capabilityscan_controller.go:536-555 | what a plain pattern selects, it selects with all its subdomains |
| CapabilityScan.ShouldProcessResource | internal/controller/capabilityscan_controller.go:473-496 | a resource is processed if and only if some include pattern matches, or there is none, and no exclude pattern matches |
| CapabilityScan.ExcludingIsAntitone | internal/controller/capabilityscan_controller.go:473-496 | excluding more or including less never selects more |
| CapabilityScan.ListAllResourceIDs | internal/controller/capabilityscan_controller.go:407-470 | a duplicate-free list of exactly the discovered ids that are no subresources and pass the filters |
| CapabilityScan.DiscoveredText | internal/controller/capabilityscan_controller.go:424-455 | the discovered ids as text: the kind of each resource that is no subresource, followed by a dot and its group if its group version has one |
| CapabilityScan.ComputeCapabilityDiff | internal/controller/capabilityscan_controller.go:299-325 | the ids only in the cluster and the ids only in the server, in order |
| CapabilityScan.DiffReconciles | internal/controller/capabilityscan_controller.go:299-325 | the two plans are disjoint, applying both gives the cluster's set, and diffing again gives nothing |
| CapabilityScan.PerformStartupReconciliation | internal/controller/capabilityscan_controller.go:230-293 | what the server knows afterwards under every failure; without failures exactly the cluster's ids |
| CapabilityScan.ReconcileAfterDiscovery | internal/controller/capabilityscan_controller.go:230-470 | a known capability whose deletion would go through survives discovery and reconciliation if and only if it passes the filters and a group that answered serves it; only such ids come to be known, and all of them unless the scan fails |
| CapabilityScan.LiveTypeLostIff | internal/controller/capabilityscan_controller.go:416-422 | a known live type that passes the filters is gone from the server after such a reconciliation if and only if every group version that serves it is silent, its deletion going through |
| CapabilityScan.LoseSilentType | internal/controller/capabilityscan_controller.go:416-422 | any type served by one group version, which is silent: served, known before, and gone after reconciliation |
| CapabilityScan.SilentGroupExample | internal/controller/capabilityscan_controller.go:416-422 | the same for Deployments of `apps/v1` |
| CapabilityScan.CapabilityScanBuffer.Record | internal/controller/capabilityscan_debounce.go:103-126 | pending deletes are the ids with some delete since the last flush, pending scans the other ids seen |
| CapabilityScan.CapabilityScanBuffer.Flush | internal/controller/capabilityscan_debounce.go:129-193 | empties the buffer whatever fails; scanned ids are known and deleted ids gone unless their own request failed |
| CapabilityScan.LastStateWinsIff | internal/controller/capabilityscan_debounce.go:103-126 | the batch does for a type what the last event about it asks if and only if that event is a delete or no event is one |
| CapabilityScan.ServerFollowsLastIff | internal/controller/capabilityscan_debounce.go:103-193 | the same of what the server knows after a flush whose requests went through |
| CapabilityScan.RecreatedTypeIsDeleted | internal/controller/capabilityscan_debounce.go:103-126 | a delete and then a creation between two flushes: the batch deletes the type and scans nothing |
| CapabilityScan.BatchOrderIrrelevant | internal/controller/capabilityscan_debounce.go:103-151 | the batch is the same for every order of the events, and its two parts are disjoint |
| Backoff.CappedMonotone | internal/controller/gitknowledgesource_mcp.go:358-378 | later attempts never wait less before the jitter, and never more than the maximum |
| Backoff.DoubleUpTo | internal/controller/gitknowledgesource_mcp.go:358-368 | for settings below 2^62 the doubling loop in 64-bit arithmetic never wraps and gives the initial wait times a power of two, capped from the second attempt on |
| Backoff.DoubledIsCapped | internal/controller/gitknowledgesource_mcp.go:358-368 | with an initial wait up to the maximum that is the capped power for every attempt |
| Backoff.CalculateBackoff | internal/controller/gitknowledgesource_mcp.go:358-378 | for every initial wait and maximum the result is at most the maximum, and for settings below 2^62 at least three quarters of the capped power, truncated |
| Backoff.PowerBackoff | internal/controller/capabilityscan_mcp.go:324-336 | the power form has the same wait before the jitter and stays within a quarter of it |
| Backoff.PowerBackoffExceedsCap | internal/controller/capabilityscan_mcp.go:324-336 | some random number takes the wait above the maximum if and only if five times the wait before the jitter exceeds four times the maximum plus one |
| Backoff.ClientOvershootsIff | internal/controller/capabilityscan_mcp.go:274-336 | one of the retries that a client can make may wait longer than its maximum if and only if its last one meets that condition |
| Backoff.CapabilityDefaults | api/v1alpha1/capabilityscanconfig_types.go:140-162 | each retry setting counts if it is positive, else 3 retries, 5 s and 300 s do |
| Backoff.CapabilityClientExample | internal/controller/capabilityscan_controller.go:126-128 | `maxAttempts` 3, `backoffSeconds` and `maxBackoffSeconds` 300: with the random number 0.9 the first retry waits 360 s |
| Backoff.ResourceClientStaysBelowCap | internal/controller/resourcesync_mcp.go:128-245 | with the defaults it is always built with, no retry of the resource client waits longer than 5 s, under a maximum of 30 s |
| Backoff.DoRequestWithRetry | internal/controller/gitknowledgesource_mcp.go:215-242 | succeeds if and only if an attempt that is made succeeds, and makes exactly the attempts whose predecessors failed within the allowed retries |
| Backoff.WithinSettingIff | internal/controller/capabilityscan_mcp.go:274-322 | a scan makes at most `maxAttempts` requests if and only if one of them succeeds or is given up before the retries are used up |
| Backoff.SecondRequestExample | internal/controller/capabilityscan_mcp.go:274-322 | `maxAttempts` 1 and a server that always fails: a second request is made |

## Left out

- HTTP, JSON, secrets, notifications, logging, event recording, metrics timestamps, generated types and `cmd/main.go`: I/O and boilerplate.
- Regular expressions, glob patterns, URL parsing, cron schedules and Git itself: given as sets, functions or answers with the contract a theorem needs.
- Integer overflow of times, durations and counters: integers are unbounded except in `Backoff.DoubleUpTo`.
- Rounding and range of 64-bit floating point in the jitter and the power: real arithmetic stands for it.
- Changes in the API server during one reconcile of an event: each reconcile sees one answer per object.
- ConfigMaps are keyed by policy namespace and name; the name is the policy's name with a fixed suffix.
- Timestamps outside the years of RFC 3339, and admissions that happen before the load has finished.
- CooldownLifecycle.SoundThroughoutIff: policies, their enable flags and the minimum duration are fixed over a run; a flag switched off for one restart and on for the next hides a stored end like an unreadable ConfigMap does.
- CooldownLifecycle.RestartNeverLengthens: the same fixed policies and flags.
- CooldownLifecycle.CompleteThroughoutIff: the same fixed policies and flags, and no `MarkDirty` between a sync's grouping and its clearing of the dirty set, because the code loses that mark.
- GateRuns.GateRefinesTimer: one clock reading per reconcile and settings that do not change per key; the other run theorems allow several readings and changing settings.
- GateRuns.RemediationsAreSpaced: ends at a restart, which forgets processed events and object cooldowns.
- SyncPipeline.PipelineConverges: labels only, since changes of annotations queue nothing; informers report updates against the object they last reported; CRDs are excluded, because handlers may queue them while resyncs skip them.
- SyncPipeline.ResyncHeals: the resync is one step with its listing; a listing that lands after newer flushed changes is not modelled, and an empty cluster sends nothing.
- The race between the closed check and the send in `trySendChange`, and items still in the queue at shutdown.
- DebounceBuffer.DebounceBuffer.Flush: delivery is claimed for changes whose payload names their id, as all changes of the handlers do (`ResourceSync.HandledWellFormed`).
- Status times are kept to the nanosecond; the API server stores whole seconds.
- The finalizer, deletion policy, lock per source, schedule and document deletion of Git knowledge sources, and how `DocumentCount` drifts over syncs.
- GitSync.CleanRunMirrors: assumes that the diff lists every file whose content differs; what go-git leaves out of its statistics is outside this model.
- Files that outgrew the size limit keep their last ingested content in the knowledge base; the theorems speak of files within the limit.
- The queue of CRD events and its filter, and the final flush of the capability buffer on a cancelled context.
- A scan that the server has accepted counts as having its effect.
- `shutdown.Tracker`, the solution controller, the default getters other than the retry settings, `configChanged` and the GVR of a CRD: none of them shares state with the cores above.
