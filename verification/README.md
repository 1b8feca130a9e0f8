# Runner scaler verification

A Dafny model of the demand-driven GitHub runner autoscaler: its concurrent protocols, the reconcile pass, its caches
and its log-derived metrics, with proofs of what they promise.

`dafny verify dfyconfig.toml` checks the whole project.

| file | part |
|---|---|
| TriggerProtocol.dfy | webhook and timer triggers, the running flag and the bounded channel, interleaved step by step |
| RunnerCache.dfy, TokenCache.dfy | the shared runner inventory and the token caches, for any number of callers |
| Providers.dfy, Pass.dfy, Reconciler.dfy, Names.dfy, Config.dfy | the reconcile pass against a runtime, a CI provider and a store that may fail at any call |
| Demand.dfy, Audit.dfy, Routing.dfy | persisted demand, its two writers, and which groups a job is queued for |
| LogStore.dfy, Analytics.dfy, Lifecycle.dfy, Statistics.dfy | the log buffer and its file, the memo above it, and the metrics derived from it |
| SeenCache.dfy, WorkflowPipeline.dfy | delivery dedupe and the workflow metrics pipeline around it |
| Rotation.dfy, ShellQuote.dfy, Loki.dfy | repository batches, shell quoting, the Loki payload |
| Sorting.dfy, Sequences.dfy, Decimal.dfy, Clock.dfy, Wrappers.dfy | shared definitions |

Objects that the code updates in place are classes, one method per function or lock region. Each protocol is a state
machine over the same step functions that specify the class methods, and its theorems range over all runs. Calls into
GitHub, the container runtime and the file system become values chosen arbitrarily, or parameters, so that every
failure is covered. What a reconcile pass decides is a function of what it sees of each container (`Pass.Due`,
`Pass.Provisioning`), which `Pass.TornDownIff`, `Pass.ComingUpIff` and `Pass.MissingIs` state in terms of what it was
given; ghost logs of the runtime and the API tie those decisions to what is really asked of them, in order. A clock
reading never goes back; nothing else is known about time.

What the proofs show about the code that its comments do not say:

- A trigger is never lost, but the trigger of one group can be: a rerun starts from an empty request list, and what it
  drains from the channel narrows "all groups" to those IDs (`GroupTriggerCanBeLost`). IDs that enter the channel are
  all served (`SentIdIsServed`); `TriggerServedIff`, `PassTargetsIff` and `RerunCoversAllIff` give the exact conditions
  for a trigger, a pass and a rerun, `TriggerServedIf` a sufficient one at the trigger. The comment at
  internal/daemon/daemon.go:311 says that a full channel means a trigger is pending; it may be another group's.
- A webhook job that no group matches is queued for every group of its repository, and their next audits drop it
  (`FallbackIsDropped`; exactly when the two agree: `RoutingAgreesIff`).
- A log entry whose append failed only on closing the file, or lost only its newline, is in the file but not in the
  buffer, and reappears after a restart (`CrashRecovery`); a short write followed by a good one makes the file
  unreadable until it is rewritten (`SharedLineBlocksRestart`).
- internal/daemon/seen_cache.go:20-23 calls the cache LRU; the code is first in, first out, since a suppressed key is
  not refreshed. The model follows the code.
- The state store's `Delete` also removes the files of containers whose names continue the name with a dot, so a teardown
  can restart another container's idle time (`Providers.StateStore.Delete`, `Pass.StoreStep`).
- The last guard of `percentile` (internal/daemon/analytics.go:237-239) never applies, rounding aside (`Statistics.IndexFor`).

## Model

| member | source | states |
|---|---|---|
| TriggerProtocol.NoTriggerLost | internal/daemon/daemon.go:298-407 | in every run without cancellation, for any number of triggering goroutines and with sends dropped on a full channel, whenever nothing is in flight every trigger was followed by a pass that started after it |
| TriggerProtocol.TriggerInvHolds | internal/daemon/daemon.go:298-407 | the inductive invariant behind it: an unserved trigger is in the channel, before its send, ahead of a worker about to enter, or under a running pass that will notice it by its sequence number |
| TriggerProtocol.PassesExclude | internal/daemon/daemon.go:342-407 | for any number of callers at most one is past the running flag, and the flag is up exactly while one is |
| TriggerProtocol.PassTargetsIff | internal/daemon/daemon.go:342-476 | with the single worker, a pass reconciles a configured group exactly when no ID was received since the previous pass, or the empty ID was, or its own was |
| TriggerProtocol.ReceivedIdIsServed | internal/daemon/daemon.go:316-476 | every configured or empty ID that leaves the channel is honoured by the first pass that starts afterwards, through both drains and the merge |
| TriggerProtocol.SentIdsAllServed | internal/daemon/daemon.go:298-465 | at rest every ID ever sent was received, in order, and none waits for a pass |
| TriggerProtocol.SentIdIsServed | internal/daemon/daemon.go:298-476 | in every uncancelled run of the single worker, at rest, every send of a configured ID was followed by a pass that reconciles the group, and every send of the empty ID by one that reconciles each group |
| TriggerProtocol.TriggerServedIff | internal/daemon/daemon.go:298-476 | a trigger of a configured group is followed by a pass that reconciles it if and only if some later pass took nothing from the channel, or the empty ID, or the group's own |
| TriggerProtocol.TriggerServedIf | internal/daemon/daemon.go:298-476 | by what can be seen at the trigger: it is served if the group's ID or the empty one is already in the channel or in the worker's request list, or if its own or a later send enters the channel, as when no pass runs and there is room |
| TriggerProtocol.NoneEarlyHolds | internal/daemon/daemon.go:298-465 | in every prefix of a run no more IDs were received than sent |
| TriggerProtocol.SendIsDroppedIff | internal/daemon/daemon.go:298-313 | in every run the channel holds at most one ID more than there are groups, and a send is dropped exactly when it holds that many |
| TriggerProtocol.GroupTriggerCanBeLost | internal/daemon/daemon.go:298-476 | a reachable run in which group b is triggered, the daemon comes to rest, and no later pass includes b |
| TriggerProtocol.RerunCoversAllIff | internal/daemon/daemon.go:365-476 | a rerun covers every configured group if and only if its two drains take nothing, or take the empty ID, or name every group |
| TriggerProtocol.SelectedIff | internal/daemon/daemon.go:435-453 | which groups a request list selects, both directions |
| TriggerProtocol.OnlyRequestedInOrder | internal/daemon/daemon.go:446-452 | the selection keeps the order of the configuration |
| TriggerProtocol.Daemon.TriggerGroup | internal/daemon/daemon.go:298-313 | the sequence number always grows by one; the ID enters the channel if and only if no pass was running and at most as many IDs wait as there are groups; whoever saw no pass leaves the channel non-empty |
| TriggerProtocol.Daemon.TryEnter | internal/daemon/daemon.go:343-350 | entered exactly when nobody was inside, and the flag is up either way |
| TriggerProtocol.Daemon.DrainTriggerSignals | internal/daemon/daemon.go:455-465 | takes everything waiting, in order, and leaves the channel empty |
| TriggerProtocol.Daemon.FinishPass | internal/daemon/daemon.go:381-395 | a pass reruns if and only if a trigger came after it read the sequence number and nothing was cancelled, and lowers the flag otherwise |
| TriggerProtocol.Daemon.SelectedGroups | internal/daemon/daemon.go:435-453 | the set-based loop selects what `SelectedIff` describes, in configuration order |
| RunnerCache.InventoryIsFresh | provider/github/ci.go:193-222 | every inventory returned (hit, double-checked hit, own fetch, stale fallback) was read from the API after every suspension, resumption and deletion that completed before the call began, in every interleaving; cached ones after every one completed before they were handed out |
| RunnerCache.HitWasReadOutsideMutations | provider/github/ci.go:193-301 | reconcile never gets a cached inventory that was read inside a mutation section |
| RunnerCache.OneFetchAtATime | provider/github/ci.go:193-222 | at most one call is between its double check and its return |
| RunnerCache.CheckHitsIff | provider/github/ci.go:193-207 | the first or second check of a call ends it with the cached inventory if and only if there is one, no mutation section is open and it is within the positive lifetime; otherwise the call goes on |
| RunnerCache.FallbackHitsIff | provider/github/ci.go:209-218 | after a failed fetch a metrics call ends with the cached inventory if and only if it is within either positive lifetime, mutation section or not; every other call fails |
| RunnerCache.FetchIsStored | provider/github/ci.go:207-274 | in every run, a fetch with no invalidation since its call began leaves its inventory in the cache |
| RunnerCache.RunnerInventoryCache.GetCached | provider/github/ci.go:276-301 | a hit if and only if there is an inventory, no mutation section keeps it from reconcile, and it is within the positive lifetime, or for metrics within the longer one |
| RunnerCache.RunnerInventoryCache.StoreFetched | provider/github/ci.go:264-274 | stores exactly when no invalidation overtook the fetch |
| RunnerCache.RunnerInventoryCache.InvalidateRunnerCache | provider/github/ci.go:433-440 | empties the cache and starts a new generation, leaving the suspension flag |
| RunnerCache.RunnerInventoryCache.Suspend | provider/github/ci.go:443-451 | empties, suspends and starts a new generation |
| RunnerCache.RunnerInventoryCache.Resume | provider/github/ci.go:454-462 | empties, resumes and starts a new generation |
| TokenCache.FetchOnlyWhenUnusable | provider/github/ci.go:324-378 | between two consecutive successful API calls some caller found the earlier token empty, without expiry, or within five minutes of it, for any number of callers |
| TokenCache.ServedTokenIsLive | provider/github/ci.go:472-501 | every token served from the cache was created by the API before, and had more than five minutes left when it was checked |
| TokenCache.CheckServesIff | provider/github/ci.go:324-378 | either check ends the call with the cached token if and only if the token is set and has more than five minutes left; only a failed second check leads to the API |
| TokenCache.CachedToken.Get | provider/github/ci.go:496-501 | a hit exactly when the token is set and has more than five minutes left |
| TokenCache.CachedToken.Put | provider/github/ci.go:478-494 | replaces value and expiry together |
| Names.NextName | internal/engine/reconciler.go:471-483 | the name is the prefix, a dash and the least unused index, which is at most one past the number of existing names, so the unbounded loop ends |
| Names.TakenNames | internal/engine/reconciler.go:471-483 | pigeonhole: n taken indices need n names |
| Names.NameAtInjective | internal/engine/reconciler.go:478-478 | different indices give different names |
| Decimal.ToStringInjective | internal/engine/reconciler.go:478-478 | different numbers are written differently |
| Decimal.DigitsOnly | internal/engine/reconciler.go:478-478 | numbers are written with digits only and without leading zeros |
| Reconciler.Reconciler.ReconcileDemand | internal/engine/reconciler.go:87-215 | whatever fails: the managed count stays within the larger of its start and the limit; no more scale-ups are tried than the demand left over (`Pass.MissingIs`), and only the names tried can be new, so zero demand adds none, not even by a failed clone; available is the number of listed runners that are online, idle and labelled; a pass whose listing fails tears down and creates nothing; the report of what the pass saw is true, and every stop, deletion, clone, command, API deletion and busy mark follows from it. With only name conflicts failing: the baseline counts exactly when it is configured and not online, what is due is gone, and exactly min(max(0, missing), max(0, limit minus what is left)) containers are created, each under the least index not in use, in at most two attempts |
| Reconciler.Reconciler.ActOn | internal/engine/reconciler.go:119-214 | the part of a pass after its snapshot: the same, with the managed count bounded by the listing or the limit |
| Reconciler.Reconciler.Passes | internal/engine/reconciler.go:87-215 | any number of passes: the bounds, true and consecutive reports, and everything asked of the runtime and the API read off the reports; only touched containers are stopped, deleted, cloned or given a command; with a working store every teardown of a live container respects the job it was last seen running |
| Pass.BooksMean | internal/engine/reconciler.go:87-215 | the books of a run: the teardowns are exactly the due sights, and every call of the runtime beyond reading concerns a container that was due, the baseline, or a clone of the pass itself |
| Pass.PassAdds | internal/engine/reconciler.go:87-215 | the same for one pass |
| Pass.WorkingLeftAlone | internal/engine/reconciler.go:151-157 | a pass stops, deletes and commands no container that it saw running and busy, unless it cloned one of that name itself |
| Pass.LastJobRespected | internal/engine/reconciler.go:119-196 | over a whole run, a container that some pass saw running and busy at t is torn down live by a later pass only after t plus the idle timeout (or the grace, once unregistered) less one second |
| Pass.BusyIsRemembered | internal/engine/reconciler.go:156-157 | no later pass of a run forgets when a container was last seen running and busy |
| Pass.NeverWhileWorking | internal/engine/reconciler.go:151-157 | no pass tears down a container that it saw running and busy |
| Pass.TornDownIff | internal/engine/reconciler.go:119-196 | exactly which listed containers a pass tears down, from the sight of the container, its stored time and the configured timeouts: stopped, or unregistered past the grace of two minutes (or a shorter idle timeout), or registered, idle and past the idle timeout |
| Pass.ComingUpIff | internal/engine/reconciler.go:187-196 | exactly which listed containers count as coming up: running, registered with the labels, not online, not busy, idle within the grace |
| Pass.MissingIs | internal/engine/reconciler.go:199-202 | the demand left over: queued jobs, less the online idle labelled runners, less the containers coming up, less one for a baseline that is young or was just provisioned |
| Pass.SightIsOf | internal/engine/reconciler.go:136-153 | a container is judged by its listed status, or by a live read if that is unknown, or stopped while a runner is available, and by the first runner of its name |
| Pass.DeregisteredIff | internal/engine/reconciler.go:430-444 | exactly which registrations the API is asked to delete: those of torn-down containers and of a removed baseline, the first of each name, none of them busy |
| Reconciler.Reconciler.ScaleDownPhase | internal/engine/reconciler.go:119-196 | the loop tears down, counts as pending and enters in the books exactly what its sights of the listed containers decide; removed names were due, and with a reliable runtime all due ones are removed; its count is what is left of the listing, and nothing else is managed |
| Reconciler.Reconciler.ScaleDownTurn | internal/engine/reconciler.go:136-196 | one turn takes the loop from one container to the next: sights, books, pending count, tally and the stored times of the containers still to come |
| Reconciler.InStepTurn | internal/engine/reconciler.go:136-196 | the loop invariant over one turn, as a statement about values |
| Reconciler.Reconciler.ConsiderContainer | internal/engine/reconciler.go:136-152 | the status used is the listed one or a live read, as the code chooses; a container whose status cannot be read is left alone; it is torn down if and only if it is due, with its books |
| Reconciler.Reconciler.ConsiderLive | internal/engine/reconciler.go:153-196 | a live container is torn down if and only if it is unregistered past the grace or not busy and idle past the timeout, by its stored time or a first record of now; it counts as pending if and only if it is running, offline, idle within the grace and labelled; a busy one is marked active |
| Reconciler.Reconciler.LastActiveOr | internal/engine/reconciler.go:166-185 | the stored time or a first record of now; never a second or more before the container was last seen busy |
| Reconciler.Reconciler.KeepBusy | internal/engine/reconciler.go:156-157 | a busy container is active now |
| Reconciler.Reconciler.TearDown | internal/engine/reconciler.go:124-133 | only a due container that is not working is torn down, and it is entered in the books |
| Reconciler.Reconciler.RefreshContainerStatuses | internal/engine/reconciler.go:485-506 | same containers in order; every known status was read live |
| Reconciler.Reconciler.ScaleUpPhase | internal/engine/reconciler.go:199-212 | at most as many scale-ups are tried as needed, and up to the limit; only the names tried can be new; each but the last succeeded, and a clone that fails later is deleted again; with only name conflicts failing exactly the missing containers are created, each under the least index not in use, although the name search does not see names removed earlier in the pass |
| Reconciler.FilterRemovedContainers | internal/engine/reconciler.go:508-521 | exactly the names that were not removed |
| Reconciler.Reconciler.CloneWithFreshName | internal/engine/reconciler.go:372-396 | only the attempted name can appear; below the limit and with only conflicts failing it succeeds in at most two attempts, under the least index not in use if no existing name was made up |
| Reconciler.Reconciler.ConfigureClonedRunner | internal/engine/reconciler.go:239-310 | a configured runner is running and its idle time starts at that second; a failure asks the runtime to delete it, after a stop unless it never started; no other container appears or, with a reliable runtime, disappears |
| Reconciler.Reconciler.CleanupFailedScaleUp | internal/engine/reconciler.go:673-687 | asks for the stop, if wanted, and for the deletion whatever fails before, never adds a container, and reports success only when the container is gone |
| Reconciler.Reconciler.ScaleUp | internal/engine/reconciler.go:220-237 | every return path leaves the inventory cache resumed and empty; nothing is cloned without a registration token; a success is a running, recorded container under the name tried, a clone that fails later is deleted, and nothing else is touched |
| Reconciler.Reconciler.ScaleDown | internal/engine/reconciler.go:399-468 | every path leaves the cache resumed and empty; the container gets its commands, then a stop, then a deletion, which counts exactly when the runtime deleted; the stored time goes; the API is asked to delete the container's own runner and never a busy one |
| Reconciler.Reconciler.Deregister | internal/engine/reconciler.go:407-444 | service stop, token, deregistration and API delete stay inside the mutation section; commands go to the container only; exactly the named, not busy runner is deleted |
| Reconciler.Reconciler.GetRemoveToken | internal/engine/reconciler.go:656-671 | one successful token fetch serves the whole pass |
| Reconciler.Reconciler.EnsureBaseline | internal/engine/reconciler.go:312-370 | an online baseline is left alone; an offline one is left if and only if it is running and young, and removed otherwise; the answer is 1 if and only if it was left or a new one was cloned and configured, and with nothing failing it is 1; only the baseline name can appear; the cache is left resumed |
| Reconciler.Reconciler.ReviveBaseline | internal/engine/reconciler.go:325-369 | the same for an offline baseline |
| Reconciler.Reconciler.RetireBaseline | internal/engine/reconciler.go:325-354 | the listed baseline container is left if and only if it is running and young, and removed otherwise |
| Reconciler.Reconciler.RetireListed | internal/engine/reconciler.go:329-354 | the loop over the listing: at most one container has the name, judged by its listed status and stored time |
| Reconciler.Reconciler.KeepOrRemoveBaseline | internal/engine/reconciler.go:333-354 | left if and only if running and younger than the grace by its stored time, or running without one; removal is reported only when it happened |
| Reconciler.Reconciler.ProvisionBaseline | internal/engine/reconciler.go:356-369 | every return path leaves the cache resumed and empty; nothing is cloned without a registration token; 1 if and only if a container was cloned and configured, a failed one is deleted |
| Reconciler.Reconciler.MaintainBaseline | internal/engine/reconciler.go:94-102 | 0 without a baseline, 1 exactly when one is coming up, a failure counts as 0; the overflow containers stay as they are |
| Reconciler.Reconciler.ListOverflow | internal/engine/reconciler.go:113-117 | lists exactly the class's containers, and reads every status live when no runner is available |
| Reconciler.Reconciler.TakeSnapshot | internal/engine/reconciler.go:87-117 | the runners listed, the available count, the baseline work and the listing that a pass decides on |
| Reconciler.Reconciler.AvailableRunnerCount | internal/engine/reconciler.go:592-601 | the number of runners that are online, not busy and have all class labels |
| Reconciler.FindRunner | internal/engine/reconciler.go:554-561 | the first runner of the name, or none exactly when there is none |
| Pass.WholeSeconds | provider/fsstate/store.go:34-53 | the store's truncation loses less than a second |
| Pass.StoreStep | provider/fsstate/store.go:61-71 | a teardown keeps the stored times of the containers still to come, except of names that continue its own with a dot |
| Providers.StateStore.SetLastActive | provider/fsstate/store.go:47-58 | writes whole seconds, or nothing |
| Providers.StateStore.GetLastActive | provider/fsstate/store.go:34-44 | reads back whole seconds |
| Providers.StateStore.Delete | provider/fsstate/store.go:61-71 | removes the name's file and those of names that continue it with a dot, and no other |
| Config.Validate | internal/config/config.go:366-401 | no error if and only if class IDs and prefixes are unique, at most one class has a baseline, and its name is set and starts with no class prefix; an error names a real violation |
| Config.CheckUnique | internal/config/config.go:370-391 | the first loop accepts exactly unique classes and collects exactly their prefixes |
| Config.StartsWithAny | internal/config/config.go:396-400 | some prefix starts the name |
| Config.BaselineIsolated | internal/config/config.go:392-401 | an accepted baseline name is neither listed under any class prefix nor ever picked as an overflow name |
| Demand.SnapshotCountsSpec | internal/demand/tracker.go:33-174 | after every sequence of Queue, Clear, Replace, reads and restarts, with every persist free to fail, a snapshot counts a job if and only if a never-pruned map holds it with a time no earlier than now minus the lifetime, in memory and after a restart |
| Demand.RunRefines | internal/demand/tracker.go:33-174 | the pruned map holds only jobs of the never-pruned one, and every one queued at or after the cutoff |
| Demand.NoEmptyGroups | internal/demand/tracker.go:69-174 | no group is left with an empty job map |
| Demand.PrunedIff | internal/demand/tracker.go:162-174 | pruning leaves exactly the jobs with a time at or after the cutoff, unchanged, and no empty group |
| Demand.IndexedIsListed | internal/demand/tracker.go:110-120 | the map built by the loop over listed jobs holds, for every ID but zero, the last job listed with it |
| Demand.NewTracker | internal/demand/tracker.go:33-67 | fails exactly without a path, without a positive lifetime, or on a file that cannot be read or decoded; otherwise holds the live part of what was persisted |
| Demand.Tracker.constructor | internal/demand/tracker.go:44-66 | loads and prunes what was persisted |
| Demand.Tracker.Queue | internal/demand/tracker.go:69-88 | rejects an empty group or job ID untouched; otherwise prunes and adds the job, with its own time or else the reading, in memory even when persisting fails; a step of the model over runs, as are Clear and Replace |
| Demand.Tracker.Clear | internal/demand/tracker.go:90-101 | prunes and removes one job, and its group once empty |
| Demand.Tracker.Replace | internal/demand/tracker.go:104-128 | prunes and sets one group to the listed jobs, the last of each ID, or removes it |
| Demand.Tracker.IndexJobs | internal/demand/tracker.go:110-120 | jobs without an ID are dropped, the last of each ID wins, each job without a time gets its own clock reading |
| Demand.Tracker.Snapshot | internal/demand/tracker.go:130-145 | counts the pruned group; the oldest age is a maximum that some job attains, or zero |
| Demand.Tracker.PruneLocked | internal/demand/tracker.go:162-174 | a job is left if and only if it was there with a time no earlier than now minus the lifetime; no empty group is left |
| Demand.Tracker.PersistLocked | internal/demand/tracker.go:176-209 | the file is the old one or the new one |
| Audit.DemandConverges | internal/daemon/daemon.go:259-286 | for every interleaving of queue changes, deliveries in order per job, losses and audits that may fail: once the events in flight are applied, the tracker agrees with GitHub on every job that lost no event since its last audit |
| Audit.NothingLostNothingWrong | internal/daemon/webhook.go:170-191 | without losses the tracker with everything in flight applied is exactly GitHub's queued set |
| Audit.AuditRepairs | internal/daemon/daemon.go:259-286 | an audit puts right every job of its group that had nothing in flight when it listed and lost nothing before it committed |
| Routing.GroupsForEvent | internal/daemon/webhook.go:294-317 | the groups that match, or all of the repository's when the job has no labels or nothing matches; none only when none serves the repository; no event selects every group |
| Routing.GroupsForRepo | internal/daemon/webhook.go:319-344 | exactly the groups whose target covers the repository: all for a blank repository or target, else a repository's own name for a scoped group, and the part before the first slash for the others |
| Routing.MatchLabels | internal/daemon/webhook.go:346-364 | every non-blank group label is among the job's, ignoring case and surrounding space |
| Routing.OwnerIff | internal/daemon/webhook.go:342-343 | the owner of a repository is the part before its first slash |
| Routing.NormalIs | internal/daemon/webhook.go:334-335 | normalizing cuts the space off both ends and lowers A to Z, and changes nothing else |
| Routing.RoutingAgreesIff | internal/daemon/daemon.go:259-286 | the webhook and the audit agree on a job for every group if and only if no group serves it, or some serving group matches its labels, or it has none and every serving group asks for none |
| Routing.FallbackIsDropped | internal/daemon/webhook.go:294-317 | a job that no serving group matches is queued for every group of its repository, and each of their audits drops it |
| Routing.FallbackIsDroppedOnce | internal/daemon/daemon.go:272-277 | one such job, at a concrete group and label |
| LogStore.BufferIsRecent | internal/daemon/logs.go:182-213 | whatever happens to the file, the buffer holds the last entries among those whose append succeeded, and the version counts them |
| LogStore.SoundIff | internal/daemon/logs.go:182-309 | file and buffer agree (no broken line, right count, buffer is the end of the file) if and only if no failed append wrote to the file since the last successful rewrite |
| LogStore.RestartKeepsBuffer | internal/daemon/logs.go:80-148 | a restart of a sound store rebuilds the same buffer, and fails exactly when the file is longer than the buffer and cannot be rewritten |
| LogStore.CrashRecovery | internal/daemon/logs.go:80-165 | after a crash in mid-append the old buffer comes back, or the whole entry if all of it was written |
| LogStore.SharedLineBlocksRestart | internal/daemon/logs.go:80-148 | a short write followed by a successful one spoils the line they share, and no restart succeeds until the file is rewritten |
| LogStore.LogStore.Load | internal/daemon/logs.go:80-148 | skips blank lines; succeeds exactly on readable files that need no rewrite or can be rewritten, with the last entries, the right count and a repaired file |
| LogStore.LoadSucceedsIff | internal/daemon/logs.go:80-148 | a file loads if and only if only its unfinished last line is broken, recognisably, and any rewrite that this or too many entries call for succeeds |
| LogStore.LogStore.Record | internal/daemon/logs.go:182-213 | buffer, count, version and file after each outcome of the append; the file is rewritten exactly when the buffer or the file is past its bound, and success means every step succeeded |
| LogStore.LogStore.Compact | internal/daemon/logs.go:284-309 | the file becomes the buffer, or stays as it was |
| LogStore.LogStore.Query | internal/daemon/logs.go:216-233 | the newest matching entries first, up to the normalized limit, by their positions |
| LogStore.NormalizedLimit | internal/daemon/logs.go:549-558 | the requested limit within 1 to 1000, 200 when it is not positive, 1000 above that |
| Analytics.PushedIsFresh | internal/daemon/analytics.go:18-71 | for any number of collectors interleaved with records, every pushed value was derived from the whole buffer of one version, no older than the start of the collection and no newer than the push |
| Analytics.RunKeepsInv | internal/daemon/analytics.go:18-71 | the memo always equals recomputing from the buffer of its version |
| Analytics.VersionNamesBuffer | internal/daemon/logs.go:242-259 | a version number names one buffer content throughout a run |
| Analytics.LookHitsIff | internal/daemon/analytics.go:18-61 | a collector pushes the memo at once if and only if it is of the version it began with |
| Analytics.Memo.Get | internal/daemon/analytics.go:53-61 | a hit exactly for the cached version |
| Analytics.Memo.Put | internal/daemon/analytics.go:63-71 | replaces version and value together |
| Lifecycle.BuildLifecycleMetrics | internal/daemon/analytics.go:131-204 | the loop computes the metrics of the stably sorted entries; the window runs from the earliest to the latest of the entries, and there is none without entries |
| Lifecycle.SamplesAre | internal/daemon/analytics.go:131-204 | the samples are described without running state: waits, jobs per lifecycle and gaps in terms of the last earlier entry on the same job, runner or scaling |
| Lifecycle.QueueAfterIs | internal/daemon/analytics.go:156-164 | a started job waits on a queued entry if and only if that is the last entry on the job |
| Lifecycle.RunnersAfterIs | internal/daemon/analytics.go:165-200 | which jobs each open lifecycle and each pending runner holds, and the count at scale-down |
| Lifecycle.GapsAfterIs | internal/daemon/analytics.go:186-199 | a gap is measured from the last scale-down if no request came in between |
| Lifecycle.PairedIff | internal/daemon/analytics.go:156-164 | which queued entry a started job is paired with, both directions |
| Lifecycle.PairedOnce | internal/daemon/analytics.go:156-164 | no queued entry is used twice |
| Lifecycle.WaitsAreNonNegative | internal/daemon/analytics.go:159-164 | every queue wait is at least zero |
| Lifecycle.SamplesAreBounded | internal/daemon/analytics.go:156-200 | wait samples are at most the queued entries, lifecycle samples at most the completed scale-ups, even with those still open |
| Lifecycle.OrderIndependent | internal/daemon/analytics.go:131-204 | with pairwise distinct times every permutation of the entries gives the same metrics |
| Lifecycle.SortAlikeIff | internal/daemon/analytics.go:137-140 | two arrangements of the same entries sort alike if and only if the entries of each time are in the same order in both |
| Lifecycle.Summarize | internal/daemon/analytics.go:202-204 | averages, the 95th percentile and the reused share of the samples, all zero without samples |
| Lifecycle.ReusedLifecyclePct | internal/daemon/analytics.go:243-254 | the share of lifecycles with more than one job, in percent |
| Statistics.Average | internal/daemon/analytics.go:213-222 | an average, zero for no values |
| Statistics.AverageBounds | internal/daemon/analytics.go:213-222 | an average lies between any bounds of its values |
| Statistics.SumOfParts | internal/daemon/analytics.go:217-221 | the sum that averages are of is the sum of any two parts |
| Statistics.Percentile | internal/daemon/analytics.go:224-241 | one of the values, such that at least the target share of values are at most it and no more than the next rank allows are below it |
| Statistics.RankCounts | internal/daemon/analytics.go:229-240 | the value at a rank of the sorted copy has that many values below or equal in the original |
| Statistics.IndexFor | internal/daemon/analytics.go:232-240 | the index is in range before the last guard, and the rounding constant rounds it up |
| Lifecycle.OrderCanShow | internal/daemon/analytics.go:137-164 | with equal times the order of arrival can change the samples |
| Sorting.SortSorts | internal/daemon/analytics.go:137-140 | the stable sort sorts under any strict weak order |
| Sorting.SortPermutes | internal/daemon/analytics.go:137-140 | the stable sort permutes |
| Sorting.SortIsStable | internal/daemon/analytics.go:137-140 | the stable sort keeps the order of elements the comparison does not tell apart |
| Sorting.SortedIsUnique | internal/daemon/analytics.go:137-140 | sorted arrangements of the same elements, all told apart, are equal |
| SeenCache.SuppressedIff | internal/daemon/seen_cache.go:74-117 | a key is suppressed if and only if it is among the last `limit` keys appended |
| SeenCache.SeenCache.FilterNew | internal/daemon/seen_cache.go:74-91 | keeps an item if and only if its key was neither delivered nor seen earlier in the batch, in order |
| SeenCache.FreshKeys | internal/daemon/seen_cache.go:74-91 | what the filter keeps has distinct undelivered keys, one for every undelivered key |
| SeenCache.FreshAre | internal/daemon/seen_cache.go:74-91 | the filter keeps an item if and only if its key is undelivered and not that of an earlier item, in order |
| SeenCache.FreshOfFresh | internal/daemon/seen_cache.go:74-109 | filtering a filtered batch changes nothing |
| SeenCache.SeenCache.MarkDelivered | internal/daemon/seen_cache.go:94-109 | from any state, exactly the new keys of the batch are appended and the oldest above the limit dropped; in a valid cache the order stays the last `limit` keys appended, keys stay the set of the order, and a key recurs only after more than `limit` others |
| SeenCache.SeenCache.Append | internal/daemon/seen_cache.go:97-104 | the loop appends each new key once |
| SeenCache.SeenCache.Trim | internal/daemon/seen_cache.go:111-117 | drops the oldest keys above the limit from both structures |
| SeenCache.SeenCache.Load | internal/daemon/seen_cache.go:45-70 | rebuilds order and keys from the file; the cache is then valid if and only if no kept key occurs twice in the file |
| SeenCache.LoadValidIff | internal/daemon/seen_cache.go:45-70 | the condition in values: keys are the set of the order, the order has no duplicates and is spaced, if and only if no kept key occurs twice in the file |
| WorkflowPipeline.CollectWorkflowMetrics | internal/daemon/daemon.go:649-681 | pushes the filtered runs in order, or everything listed when listing failed half way, with nothing changed but failure details and only if enrichment is asked for; a failed push marks nothing, a successful one marks exactly the new keys; nothing is pushed only when nothing is left to push |
| WorkflowPipeline.EnrichWorkflowMetrics | provider/github/ci.go:588-616 | asks about exactly the runs that did not end well, and changes nothing but their failure details |
| WorkflowPipeline.EnrichmentKeepsKeys | internal/daemon/daemon.go:815-829 | enrichment never changes a run's delivery key |
| WorkflowPipeline.KeysEqualIff | internal/daemon/daemon.go:815-829 | two runs are one delivery if and only if they are the same attempt of the same run or, both without a run ID, agree in all seven fields |
| Rotation.FairRotation | provider/github/ci.go:715-731 | over consecutive calls on a list of one length every index is returned floor or ceiling of (calls * limit / length) times |
| Rotation.HitsIs | provider/github/ci.go:715-731 | the exact number of times, from the cursor |
| Rotation.TimesReturnedIsHits | provider/github/ci.go:723-730 | consecutive batches are one unbroken walk round the list |
| Rotation.BatchIsDistinct | provider/github/ci.go:723-729 | no index occurs twice in a batch |
| Rotation.Coverage | provider/github/ci.go:715-731 | ceil(length / limit) consecutive calls cover the whole list, from any cursor |
| Rotation.RepoRotation.NextBatch | provider/github/ci.go:715-731 | the elements from the cursor on, round the list, and the cursor moved past them; short lists are returned whole |
| ShellQuote.QuoteRoundTrip | provider/lxd/cache.go:226-228 | a quoted value reads back as one word, the value itself, if and only if it has no NUL |
| ShellQuote.ReadQuoted | internal/daemon/webhook.go:464-466 | in any unquoted position a quoted value adds exactly its own characters to the word |
| ShellQuote.QuotedListRoundTrip | provider/lxd/cache.go:209-220 | a list of quoted values joined by spaces reads back as the list |
| Loki.WorkflowPayload | provider/loki/metrics.go:65-112 | streams have strictly increasing repository names, exactly those of the runs; each holds its runs sorted, ties in order of arrival, at consecutive nanoseconds; no runs, no payload |
| Loki.Conserved | provider/loki/metrics.go:65-112 | the entries over all streams are a permutation of the runs |
| Loki.StreamsAreSorted | provider/loki/metrics.go:186-204 | within a stream runs go from the earliest to the latest completion, those without one come last, ties go by run ID, attempt, number, workflow and branch in that order, and timestamps are consecutive |
| Loki.StreamsAreLabelled | provider/loki/metrics.go:86-95 | a stream holds runs of one repository only, which is its label unless it is empty |
| Loki.LexLessIff | provider/loki/metrics.go:328-331 | strings compare by the first character that differs, or by length |
| Loki.RunsOfIsFilter | provider/loki/metrics.go:75-78 | the runs of a repository are picked in order of arrival |
| Loki.BeforeIsOrder | provider/loki/metrics.go:287-332 | the comparator is a strict weak order |
| Loki.BeforeTotal | provider/loki/metrics.go:298-332 | the comparator tells runs apart unless completion time and all tie-break fields agree |
| Loki.BuildValues | provider/loki/metrics.go:186-204 | keeps the runs in order and stamps them one nanosecond apart |
| Loki.GroupByRepo | provider/loki/metrics.go:75-78 | each repository gets its runs in order of arrival |
| Loki.SortedKeys | provider/loki/metrics.go:80-84 | every repository once, strictly increasing, whatever order the map is read in |

## Left out

- Counters of 64 bits: the trigger sequence, the cache generation and the log version are unbounded here; wrap-around is not modelled.
- The debouncer in front of cache synchronisation (internal/daemon/webhook.go:52-113): no claim that a scheduled call runs.
- HTTP handlers, GitHub and LXD clients, retries, TOML and JSON encoding, error text, log fields, dashboards and shell scripts.
- "Capacity after the pass meets demand" does not hold of the code: available and pending runners are counted before or while their containers are torn down; sufficiency is stated against the snapshot's counts.
- Reconciler.Reconciler.ReconcileDemand: assumes that nobody else creates containers under the class prefix and that a clone refused for a name conflict creates nothing; any other failed clone may leave a container behind and is covered.
- Pass.TornDownIff: for a store whose calls succeed, as is Pass.ComingUpIff; otherwise a container may be judged from now on, as the code does when a read fails.
- Pass.LastJobRespected: about teardowns of live containers; a container that a live read reports as stopped is torn down at once, as the code does; that the passes stop only due containers is in Pass.BooksMean.
- Reconciler.Reconciler.ConfigureClonedRunner: does not model cache attachment, symlinks, pruning and log delivery, whose failures the code only logs.
- Reconciler.Reconciler.AvailableRunnerCount: labels are sets that are already lower-cased and trimmed, because the code normalizes both sides before comparing them.
- Reconciler.Reconciler.Passes: the bounds on teardown times need a store whose calls succeed, because a lost write loses the time a container was last active; the reasons for a teardown need no such store.
- Containers of different classes: only equal prefixes are rejected, while listing goes by prefix, so one class is modelled at a time; only the baseline is proved apart from every class.
- Annotation of listed runners (provider/github/ci.go:464-470), which fills one derived field.
- TokenCache.FetchOnlyWhenUnusable: one token kind is modelled; the second kind runs the same code on its own fields, and the suspension made by a fetch is part of the reconciler's model.
- `ActiveGroups` of the demand tracker, a read of the same pruned map.
- Audit.DemandConverges: takes the listing of an audit as exact and the events of one job as arriving in order, because GitHub decides both; the listing of the code is bounded by repository batch and page size. Job expiry is left to Demand.
- Routing.MatchLabels: lower case and space are those of ASCII.
- LogStore.LogStore.Load: the normalization of times and empty attribute maps is not modelled; which cut lines count as truncated is a parameter.
- LogStore.LogStore.Query: the field-by-field match is a parameter.
- Lifecycle.Summarize: over the reals, so floating-point rounding is not modelled.
- Lifecycle.BuildLifecycleMetrics: an entry carries its job key as one string, and its event type and action as one kind.
- The selection of issue events and the text of their reasons (internal/daemon/analytics.go:73-129).
- WorkflowPipeline.CollectWorkflowMetrics: a delivery key is a value with fields; that fields containing a vertical bar could print to the same key string is not modelled.
- SeenCache.SeenCache.MarkDelivered: a file that cannot be read or decoded is an empty one.
- Rotation.FairRotation: stated for lists of one length, because the batches after a change of length depend on both lists.
- ShellQuote.QuoteRoundTrip: the reader covers quoting and blanks; outside quotes, a backslash, an operator or an expansion is not read, and quoted text never needs one.
- Loki.BeforeIsOrder: a completion time is a parsed instant or absent; parsing is not modelled. Labels other than the repository are constant and not modelled.
