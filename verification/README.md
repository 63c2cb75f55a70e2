# Fission control plane and router: a verified model

A Dafny model of the parts of [Fission](https://github.com/fission/fission) where state, concurrency
and routing arithmetic meet, with proofs of what they promise. `dafny verify dfyconfig.toml` covers
the whole project.

| file | models |
|---|---|
| `AuthMaster.dfy` | the pre-upgrade hook that provisions one internal-auth master across namespaces: any number of concurrent runs, one API call per step, any call may fail |
| `Canary.dfy` | the canary manager in function-pair mode and alias mode, with adversarial metrics, reads and writes |
| `WeightedPick.dfy`, `Resolver.dfy` | how the router resolves a reference to weighted backends and picks one per request |
| `ToolRegistry.dfy` | the MCP tool registry and the reconciler that drives it and the server's tool set |
| `RouteResync.dfy`, `RouteAdmission.dfy`, `RouteIndex.dfy`, `RouteEvents.dfy` | the router's route table: the periodic resync, what an admitted route is built from, the indexes that tell which triggers an event touches, and the handlers of trigger, function, alias and version events |
| `OciPackage.dfy`, `OciOutcome.dfy`, `Paths.dfy` | packing a directory into tar entries, extracting entry lists under a root with a sub-path and a byte cap |
| `ContentStream.dfy` | the length-prefixed byte stream that identifies a package's content |
| `InternalUrls.dfy` | the internal listener's URLs, their subtrees, and the trimming of request paths |
| `PodTemplate.dfy`, `NameSort.dfy` | the canonical order and fingerprint of the builder pod template, and the drift check |
| `InformerGate.dfy` | the access-review gate in front of the per-namespace EndpointSlice informers |
| `MqTriggers.dfy` | the message queue trigger manager: the subscription actor and concurrent reconciles |

Code that changes state step by step is a class or a method with loops, proved equal to a
specification function; the theorems are about those functions, over every input, every interleaving
or every history. Clusters, message queues, metric servers, random sources and clocks appear as
parameters that may answer anything.

Six promises turned out not to hold as stated. Each is kept as the code has it, with a concrete
case and the exact condition:

- A keyless Secret is refused before anything is written only when the namespaces listed before it
  are all absent, or all provisioned with one master (`KeylessSecretRefused`,
  `KeylessSecretRefusedTooLate`); the comment at `cmd/preupgradechecks/generateauth.go:129-137`
  claims it always.
- Default tool names can collide (`DefaultNamesCollide`, `DefaultNamesCanCollide`); the comment at
  `pkg/mcp/registry.go:76-77` says they never do.
- A second resync of an unchanged cluster reports no drift exactly when no alias and version of one
  function contend for a route (`ResyncTwice`, `ContendedRouteFlaps`).
- The two canary modes part exactly when a promotion is stored, reported as failed, and followed by
  another step (`ModesSimulateEachOther`, `ModesCanPart`).
- The builder fingerprint is independent of the order of assembly exactly when names identify
  entries; listing two mounts of one volume the other way round changes it (`FingerprintInvariant`,
  `TwoMountsOfOneVolume`), and then the builder is rolled again (`QuietExactlyWhenWellNamed`).
- A tagged internal URL trims to the sub-path except in its qualified form for the function "default"
  of namespace default (`TrimInverts`, `DefaultIsMisread`); the comment at
  `pkg/router/rewrite.go:66-85` promises it for every tagged route.

## Model

| member | source | states |
|---|---|---|
| `AuthMaster.SuccessMeansOneValue` | cmd/preupgradechecks/generateauth.go:60-123 | From any start and in every interleaving: no stored value ever changes, and once a run has reported success its namespaces hold one same non-empty value, then and ever after |
| `AuthMaster.SuccessfulRunsAgree` | cmd/preupgradechecks/generateauth.go:60-123 | Two runs that succeed, at whatever moments, and share a namespace leave one value on both lists |
| `AuthMaster.ConsistencyIsKept` | cmd/preupgradechecks/generateauth.go:60-228 | From a consistent store and coordinated lists, every interleaving with any failing calls keeps all listed masters equal at every moment; no run loses a second attempt or ends other than in success or an API error |
| `AuthMaster.SharedListIsCoordinated` | cmd/preupgradechecks/generateauth.go:60-101 | One ordered list shared by all runs meets the coordination condition |
| `AuthMaster.ConsistencyExactlyWhenCoordinated` | cmd/preupgradechecks/generateauth.go:60-228 | For a consistent store, all interleavings keep it consistent if and only if the lists are coordinated |
| `AuthMaster.EveryRunFinishes` | cmd/preupgradechecks/generateauth.go:60-101 | A run is over after 9n+8 steps of its own whatever the others do, and has then succeeded if the start was consistent and coordinated and the API served it |
| `AuthMaster.ThreeAttempts` | cmd/preupgradechecks/generateauth.go:69-100 | In every interleaving a run makes at most three attempts and gives up on disagreement in the third only |
| `AuthMaster.KeylessSecretRefused` | cmd/preupgradechecks/generateauth.go:125-159 | For the first keyless Secret of any list and store: the run ends with that error and nothing written if and only if the namespaces before it are all absent, or all hold one master; it ends in disagreement if and only if masters before it differ |
| `AuthMaster.KeylessSecretRefusedTooLate` | cmd/preupgradechecks/generateauth.go:125-159 | A store and list for which the refusal comes after a write |
| `AuthMaster.SoloIsARun` | cmd/preupgradechecks/generateauth.go:60-101 | The undisturbed run that the methods compute, with any failing calls, is one of the interleavings |
| `AuthMaster.SecretStore.ExistingMaster` | cmd/preupgradechecks/generateauth.go:138-159 | The scan reads in list order and continues the run with the first master found or with minting, or ends it at a keyless Secret or a failing read |
| `AuthMaster.SecretStore.CreateIfAbsent` | cmd/preupgradechecks/generateauth.go:180-228 | Creates only where absent; says whether it created, whether the stored value is the caller's, and which failure occurred: create, read or keyless |
| `AuthMaster.SecretStore.WriteMaster` | cmd/preupgradechecks/generateauth.go:106-123 | Writes in list order and stops at the first different master, which costs one attempt, or at a failure |
| `AuthMaster.SecretStore.GenerateAuthSecret` | cmd/preupgradechecks/generateauth.go:60-101 | The whole hook, with its early return and any failing calls: final store and outcome are those of the undisturbed run |
| `Canary.PromotionIsGatedAndFinal` | pkg/canaryconfigmgr/canaryConfigMgr.go:312-493 | In every run with failing reads, alias writes and status writes: the alias leaves OldFunction only for NewFunction with the split cleared, only with the primary below 100 in a tick that observed a failure rate below threshold + 1 percent, and is never sent another write |
| `Canary.PairStepMeans` | pkg/canaryconfigmgr/canaryConfigMgr.go:185-273 | In pair mode, on weights and failure rate themselves: with traffic on the new function a step sends weights 0 and 100 if and only if the rate is at least threshold + 1, goes forward if and only if it is below, and does nothing without an observation; the exact weights stored and the outcome for every answer of the write |
| `Canary.AliasStepMeans` | pkg/canaryconfigmgr/canaryConfigMgr.go:312-501 | In alias mode likewise, with the exact alias stored; and nothing is written unless the alias exists, is neither digest-pinned nor spec-managed, is at OldFunction, and both versions can be read and are its function's |
| `Canary.IdleStepMeans` | pkg/canaryconfigmgr/canaryConfigMgr.go:185-220 | Without a readable trigger, or with one that names neither an alias nor weights, nothing is written; only a failing read is an error |
| `Canary.StatusIsEarned` | pkg/canaryconfigmgr/reconciler.go:53-110 | Over any run, a pending rollout is over if and only if some tick's step succeeded or failed with its status stored, and it then keeps that status and what that step left |
| `Canary.OverIsFinal` | pkg/canaryconfigmgr/reconciler.go:53-80 | A rollout that is over, or whose interval or increment is not positive, is never changed |
| `Canary.EvaluateMeans` | pkg/canaryconfigmgr/canaryConfigMgr.go:239-250 | The truncated comparison crosses exactly at threshold + 1 percent |
| `Canary.ForeignAliasUntouched` | pkg/canaryconfigmgr/canaryConfigMgr.go:406-455 | An alias that does not start at OldFunction is never written |
| `Canary.StepsMirror` | pkg/canaryconfigmgr/canaryConfigMgr.go:185-383 | One step with the same answers gives the same outcome in both modes and keeps new weight = 100 - primary weight |
| `Canary.ModesSimulateEachOther` | pkg/canaryconfigmgr/canaryConfigMgr.go:185-571 | Both modes give the same outcomes up to and including the terminal one if and only if no promotion is stored, reported as failed and followed by another step |
| `Canary.ModesCanPart` | pkg/canaryconfigmgr/canaryConfigMgr.go:185-383 | A run of two ticks on which the pair succeeds and the promoted alias is refused |
| `Canary.AfterLostPromotion` | pkg/canaryconfigmgr/canaryConfigMgr.go:406-455 | After such a promotion the two modes answer alike exactly while the trigger cannot be read |
| `Canary.StartMirrors` | pkg/canaryconfigmgr/canaryConfigMgr.go:477-561 | Weights (0,100) and an alias without a weight correspond |
| `Canary.PairStaysBalanced` | pkg/canaryconfigmgr/canaryConfigMgr.go:545-571 | In pair mode the two weights add up to 100 after every run, whatever is answered |
| `Canary.WindowsIsCeiling` | pkg/canaryconfigmgr/canaryConfigMgr.go:545-561 | The number of increments to reach n is n/increment rounded up |
| `Canary.HealthyTrace` | pkg/canaryconfigmgr/canaryConfigMgr.go:185-273 | The exact outcomes of a healthy pair rollout from any weight |
| `Canary.RolloutLength` | pkg/canaryconfigmgr/reconciler.go:72-110 | With healthy windows and stored writes both modes succeed on exactly tick max(2, ceil(100/increment)) |
| `Canary.StickyKeysOnlyMoveForward` | pkg/canaryconfigmgr/canaryConfigMgr.go:312-503 | From manager through resolver to pick, over any run with failing reads and writes and crossing windows: a sticky key served by the new version stays there through every forward step and the promotion, up to a tick that rolls back |
| `Canary.OnlyRollbackMovesBack` | pkg/canaryconfigmgr/canaryConfigMgr.go:312-503 | In one tick such a key leaves the new version if and only if a failure rate of at least threshold + 1 percent was observed below primary weight 100 in a workable, active rollout and the rollback reached the store |
| `Canary.CanaryConfigMgr.UpdateHttpTrigger` | pkg/canaryconfigmgr/canaryConfigMgr.go:579-601 | Copies the computed weights into the freshly read map, keeping its other entries, and stores it, or not, as the write is answered |
| `Canary.CanaryConfigMgr.DoReconcile` | pkg/canaryconfigmgr/reconciler.go:36-110 | One reconcile of the stored objects, through step, stepAlias and the rolls: terminal configs are left alone, otherwise a step and a status write that may fail |
| `WeightedPick.ResolveByFunctionWeights` | pkg/router/functionReferenceResolver.go:342-368 | Fails exactly when a weighted function is missing; otherwise every function gets one slot with its weight and a running total, in some order |
| `WeightedPick.FindCeil` | pkg/router/canary.go:24-41 | The loop is the binary search whose result the lemmas characterise |
| `WeightedPick.SearchIsScan` | pkg/router/canary.go:24-41 | For every draw below the total the binary search finds the first running total above the draw, and never a zero weight |
| `WeightedPick.SlotOwnsDraws` | pkg/router/canary.go:24-41 | A slot is selected exactly by the draws between its predecessor's total and its own |
| `WeightedPick.BeyondTheTotal` | pkg/router/canary.go:37-40 | A draw above the total finds nothing, and the total itself the last slot |
| `WeightedPick.FairShares` | pkg/router/functionReferenceResolver.go:342-368 | Whatever the slot order, exactly weight(f) of the draws select f |
| `WeightedPick.StickyWeightHash` | pkg/router/canary.go:59-70 | The loop computes 64-bit FNV-1a with wrap-around |
| `WeightedPick.PublishedVectors` | pkg/router/canary.go:59-70 | It gives the published FNV-1a values for the empty string, "a" and "fo" |
| `WeightedPick.XorByBits` | pkg/router/canary.go:66 | Every bit of the exclusive or tells whether the two bits differ |
| `WeightedPick.GetCanaryBackend` | pkg/router/canary.go:89-106 | The backend is a function of the sticky key when there is one, of the random draw otherwise, and the first slot when the total is not positive |
| `WeightedPick.TwoWaySplit` | pkg/router/functionReferenceResolver.go:304-338 | In an alias split the second backend gets exactly the draws at or above the first's weight |
| `Resolver.BackendKeyInjective` | pkg/router/routetable/backendkey.go:23-28 | Two versions of one function have different backend keys |
| `Resolver.SplitServes` | pkg/router/functionReferenceResolver.go:248-340 | A resolved alias serves a sticky key from the secondary exactly when its draw reaches the primary's weight |
| `Resolver.SplitIsCumulative` | pkg/router/functionReferenceResolver.go:320-338 | The two slots of a weighted alias share out one hundred draws, and are running totals if and only if the weight is between 0 and 100 |
| `ToolRegistry.EveryRunIsSound` | pkg/mcp/reconciler.go:49-150 | Over every serial run of reconciles, byName and byFn stay inverse and the server's tool set is byName |
| `ToolRegistry.UpsertInverse` | pkg/mcp/registry.go:83-112 | Renames, evictions and conflicts keep the two maps inverse |
| `ToolRegistry.UpsertMeans` | pkg/mcp/registry.go:83-112 | A conflict, which changes nothing, if and only if a function that is not larger holds the name. Otherwise the entry is registered, the function's former name is gone and other names are as they were; no change is reported exactly when the entry was there, and the evicted function is named |
| `ToolRegistry.ReconcileMeans` | pkg/mcp/reconciler.go:49-150 | What a reconcile does to the names, case by case: a failed read and an unresolved alias with a registered tool change nothing, a function that is gone or loses its name is unregistered, and no other function's name is touched but one it wins |
| `ToolRegistry.WantsMeans` | pkg/mcp/reconciler.go:172-205 | A tool is advertised under the name and schema of the configuration that counts, live or of the version the alias means, or under the defaults; unresolved exactly when the alias means no published version |
| `ToolRegistry.ConvergesFromEmpty` | pkg/mcp/registry.go:83-116 | From empty, any covering sequence of reconciles leaves each wanted name with the smallest function wanting it and nothing else |
| `ToolRegistry.ConvergedUnique` | pkg/mcp/registry.go:83-116 | That end state is determined by what is wanted, so it does not depend on the order |
| `ToolRegistry.ConvergesInTwoPasses` | pkg/mcp/reconciler.go:104-113 | From any sound state, stale and deleted functions included, two covering passes converge |
| `ToolRegistry.OnePassMayNotConverge` | pkg/mcp/reconciler.go:104-113 | A sound state from which one covering pass does not |
| `ToolRegistry.FnKeyInjective` | pkg/mcp/registry.go:116 | The contest order tells functions apart |
| `ToolRegistry.WantsProper` | pkg/mcp/registry.go:165-191 | What a function object asks for is always registered under a name and for itself |
| `ToolRegistry.DefaultNamesCollide` | pkg/mcp/registry.go:76-77 | Two default names coincide if and only if the functions are the same or one namespace extends the other by "-x" and the names make up for it |
| `ToolRegistry.DefaultNamesCanCollide` | pkg/mcp/registry.go:76-77 | Two functions with one default name |
| `ToolRegistry.ToolServer.DoReconcile` | pkg/mcp/reconciler.go:49-150 | One reconcile over registry and tool set, keeping them sound |
| `ToolRegistry.ToolServer.FilterTools` | pkg/mcp/server.go:181-195 | The in-place compaction yields a subsequence of the list that holds every tool registered to a namespace of the caller's scope as often as it was listed, and no other tool |
| `ToolRegistry.ToolServer.CallTool` | pkg/mcp/server.go:161-171 | Finds exactly the registered tools in scope; a forbidden tool is answered like an unknown one |
| `ToolRegistry.OutOfScopeUnobservable` | pkg/mcp/server.go:125-157 | Registries that agree on the tools in scope give the caller the same list |
| `RouteResync.RouteTable.Resync` | pkg/router/incremental.go:793-967 | On a fixed cluster, from any reachable table, the table becomes exactly what the cluster admits; drift is 0 if and only if it was that already and no alias and version contend |
| `RouteResync.RouteTable.ResyncTwice` | pkg/router/incremental.go:793-967 | The second resync reports 0 if and only if no alias and version contend for a route |
| `RouteResync.RouteTable.ResyncInternal` | pkg/router/incremental.go:815-922 | The internal half: functions, aliases, versions, then the sweep |
| `RouteResync.RouteTable.ResyncPublic` | pkg/router/incremental.go:924-959 | The public half: triggers, then the sweep |
| `RouteResync.RouteTable.ReconcileInternal` | pkg/router/incremental.go:815-863 | One listing loop sets exactly the listed keys and counts no drift exactly when nothing changed |
| `RouteResync.RouteTable.SweepInternal` | pkg/router/incremental.go:865-922 | Drops exactly the internal routes nobody claims |
| `RouteResync.RouteTable.ReconcileTriggers` | pkg/router/incremental.go:924-936 | Settles every listed trigger's entry; drift is 0 exactly when nothing changed |
| `RouteResync.RouteTable.SweepTriggers` | pkg/router/incremental.go:937-959 | Drops exactly the entries without a live trigger of that UID |
| `RouteResync.RouteTable.ApplyTriggerIncremental` | pkg/router/incremental.go:102-219 | Admits, rejects or keeps the trigger's entry by validation and resolution |
| `RouteResync.RouteTable.ApplyTrigger` | pkg/router/routetable/table.go:255-290 | Afterwards the UID has the given route, but possibly an older name, and other entries are as they were; no change is reported exactly when nothing changed |
| `RouteResync.RouteTable.DeleteTrigger` | pkg/router/routetable/table.go:295-307 | Removes one entry by UID |
| `RouteResync.RouteTable.DeleteTriggerByName` | pkg/router/routetable/table.go:314-328 | Removes every entry with the name |
| `RouteResync.RouteTable.ApplyFunction` | pkg/router/routetable/table.go:342-356 | Upserts one internal route and classifies the change |
| `RouteResync.RouteTable.DeleteFunction` | pkg/router/routetable/table.go:359-367 | Removes one internal route |
| `RouteResync.RouteTable.DeleteInternalRouteBySuffix` | pkg/router/incremental.go:433-483 | Removes, of all routes with the suffix in the namespace, exactly those whose claims can be read and are gone; fails exactly when a claim cannot be read |
| `RouteResync.InternalPass` | pkg/router/incremental.go:815-922 | The four internal loops end at what the objects admit, and change nothing exactly when that was there and nothing contends |
| `RouteResync.PublicPass` | pkg/router/incremental.go:924-959 | The two public loops end at what the cluster admits, and change nothing exactly when that was there |
| `RouteResync.PartwayStep` | pkg/router/incremental.go:924-936 | Each turn of the trigger loop settles one trigger and never undoes a correction, so the drift count cannot cancel out |
| `RouteResync.DisjointNamesNeverFlap` | pkg/router/incremental.go:838-863 | No alias named like a version of its own function rules contention out |
| `RouteResync.ContendedRouteFlaps` | pkg/router/incremental.go:838-863 | Objects for which it does occur |
| `RouteAdmission.AdmittedExactly` | pkg/router/incremental.go:125-189 | A valid trigger is admitted with a route if and only if everything its reference reaches is there and the route holds its generation and shape, the generation of every function and version reached, the alias's generation, and that of the sticky configuration's source |
| `RouteIndex.FunctionTells` | pkg/router/incremental.go:160-189 | When a function changes, the route of an admitted trigger that names it changes if and only if the function's generation does, unless the trigger is pinned to a version |
| `RouteIndex.EditIsDrift` | pkg/router/incremental.go:924-936 | So a table that was in step before the edit is not afterwards, and a resync counts drift |
| `RouteIndex.UnchangedExactly` | pkg/router/routetable/table.go:255-290 | Applying a trigger that can be resolved changes nothing if and only if the stored route holds the present generations and shape |
| `RouteIndex.BiIndex.DropTrigger` | pkg/router/routetable/biindex.go:59-69 | Removes a trigger's edges in both directions, which keep holding the same edges |
| `RouteIndex.BiIndex.Reindex` | pkg/router/routetable/biindex.go:74-80 | Replaces a trigger's edges by the given ones in both directions |
| `RouteIndex.IndexedTable.ApplyTrigger` | pkg/router/routetable/table.go:255-290 | Whatever branch is taken, the function and alias indexes stay exactly what the stored entries were resolved through, and the trigger's unresolved marks are cleared |
| `RouteIndex.IndexedTable.DeleteTrigger` | pkg/router/routetable/table.go:295-307 | Likewise for a removal by UID; only marks of that entry's name can go |
| `RouteIndex.IndexedTable.DeleteTriggerByName` | pkg/router/routetable/table.go:314-328 | Likewise for every entry with a name |
| `RouteIndex.IndexedTable.MarkUnresolved` | pkg/router/routetable/table.go:403-409 | Marks the trigger with exactly the functions and aliases its reference names and leaves other marks |
| `RouteIndex.IndexedTable.TriggersForFunction` | pkg/router/routetable/table.go:421-444 | The index lookup yields exactly the triggers whose stored entry was resolved through the function, and those marked as waiting for it |
| `RouteIndex.IndexedTable.TriggersForAlias` | pkg/router/routetable/table.go:452-476 | Likewise for an alias |
| `RouteIndex.IndexedTable.ApplyTriggerIncremental` | pkg/router/incremental.go:102-219 | Settles the trigger's entry, keeps the indexes exact, and leaves it marked if it cannot be resolved |
| `RouteIndex.EntryNamesFunction` | pkg/router/routetable/table.go:560-573 | An admitted entry's index keys hold every function its trigger names, through versions and splits |
| `RouteIndex.FunctionListed` | pkg/router/incremental.go:265-283 | In a table in step, a trigger that the lookup of a function does not list is admitted as before, whatever happened to that function |
| `RouteIndex.AliasListed` | pkg/router/incremental.go:290-306 | Likewise for an alias |
| `RouteIndex.IndexedTable.ReapplyTriggersForFunction` | pkg/router/incremental.go:265-283 | From the lookup alone, with any triggers unreadable: afterwards every readable trigger of the whole table is in step, all of them if no error is returned, and an error means that some trigger could not be applied |
| `RouteIndex.IndexedTable.ReapplyTriggersForAlias` | pkg/router/incremental.go:290-306 | Likewise for an alias |
| `RouteIndex.IndexedTable.ResyncTriggers` | pkg/router/incremental.go:924-959 | From any reachable table with valid indexes, one pass puts entries, indexes and marks in step; the sweep never drops the mark of a trigger that waits |
| `RouteIndex.IndexedTable.HandleTrigger` | pkg/router/incremental.go:102-219 | After a trigger was created, edited or recreated the table is in step if and only if it did not come back under a new UID, not rejected, with its old route still there; no change is reported if and only if the stored route holds the present generations and shape |
| `RouteIndex.IndexedTable.DeleteTriggerIncremental` | pkg/router/incremental.go:223-230 | After a trigger was deleted the table is in step |
| `RouteEvents.HistoryIsReachable` | pkg/router/incremental.go:102-230 | A public table grown from the empty one by applies, deletes and sweeps over any cluster history with stable UIDs is reachable |
| `RouteEvents.ApplyAliasIncremental` | pkg/router/incremental.go:373-418 | After an alias was created or edited every readable trigger is in step, all of them if nothing failed; a failing resolution of the alias leaves the internal routes as they were, and otherwise they are in step if and only if no version wants another route there and no route is left under a former function |
| `RouteEvents.DeleteAliasIncremental` | pkg/router/incremental.go:491-499 | After an alias was deleted every readable trigger is in step, all of them if nothing failed, and the internal routes are too unless a claim could not be read |
| `RouteEvents.ApplyFunctionIncremental` | pkg/router/incremental.go:237-249 | After a function was created or edited every readable trigger is in step, all of them if nothing failed, and the internal routes if and only if the function existed or has no versions |
| `RouteEvents.DeleteFunctionIncremental` | pkg/router/incremental.go:254-260 | After a function was deleted every readable trigger is in step, all of them if nothing failed, and the internal routes if and only if it did not exist or has no versions left |
| `RouteEvents.ApplyVersionIncremental` | pkg/router/incremental.go:507-533 | After a version was created or edited, with nothing re-applied: triggers are in step if and only if the version was stored already or no trigger that goes through it is admitted, with the old version or the new. A failing resolution changes nothing; otherwise the internal routes are in step if and only if every alias concerned wants the route it has and no route is left under a former function, which without hash collisions, for a new version or one that keeps its function, means that it was stored already or no alias relying on it resolves, before or now |
| `RouteEvents.DeleteVersionIncremental` | pkg/router/incremental.go:539-546 | After a version was deleted: triggers are in step if and only if no admitted one goes through it, the internal routes if and only if no alias relying on it has a route of its own and an alias named like it wants the version's route |
| `RouteEvents.VersionSettles` | pkg/router/incremental.go:501-533 | The trigger half of a version's creation or edit, with its exact condition |
| `RouteEvents.DependentsTell` | pkg/router/incremental.go:350-363 | Without hash collisions, the alias routes move exactly when the version changes and some alias that relies on it resolves, before or now |
| `RouteEvents.FunctionApplied` | pkg/router/incremental.go:237-260 | The internal half of the function events, with its exact condition |
| `RouteEvents.VersionApplied` | pkg/router/incremental.go:507-533 | The internal half of a version's creation or edit |
| `RouteEvents.VersionDeleted` | pkg/router/incremental.go:539-546 | The internal half of a version's deletion |
| `RouteEvents.OtherAliasesResolveAlike` | pkg/router/functionReferenceResolver.go:248-340 | An alias has no say in the routes of other aliases or of versions |
| `OciPackage.ExtractionIsConfined` | pkg/oci/extract.go:114-212 | For any entry list, whether or not it succeeds: every new or changed node lies strictly below destDir along plain names, nothing is removed, bytes written stay within the cap; success if and only if it would succeed without the cap and the admitted bytes fit, and then exactly they were written |
| `OciPackage.RoundTrip` | pkg/oci/extract.go:114-212 | Packing any tree of directories and regular files and extracting it, whole or by the sub-path of one of its directories, into an empty directory succeeds if and only if the selection fits the cap, and then adds exactly the selected subtree |
| `OciPackage.CapIsOnTheSum` | pkg/oci/extract.go:175-202 | The cap refuses exactly on the sum of admitted bytes and changes nothing else |
| `OciPackage.PlacedIsPlain` | pkg/oci/extract.go:144-168 | Whatever the entry name and sub-path, an entry that is placed has a non-empty relative path without dot segments |
| `OciPackage.SelectsDirectory` | pkg/oci/extract.go:158-167 | With the sub-path of a directory, the other entries of a packed tree change nothing and weigh nothing |
| `OciPackage.SubPathForms` | pkg/oci/extract.go:131 | A directory's sub-path selects it with or without surrounding slashes |
| `OciPackage.TarWriter.Walk` | pkg/oci/push.go:106-165 | The walk refuses exactly trees with something other than directories and regular files, and otherwise appends the packed tree |
| `OciPackage.Root.ExtractEntry` | pkg/oci/extract.go:136-210 | One turn of the loop, case by case, is the specified step |
| `OciOutcome.SucceedsExactly` | pkg/oci/extract.go:114-212 | On any tree, extraction succeeds if and only if every entry can be read, none is absolute or cleans to a path that starts with "..", none under the sub-path is a link, no path is needed both as a directory and as a file by the entries or what is there, and the regular entries under the sub-path fit the cap. Then nothing is gone, the new nodes are what the entries need, and a file has the content of its last entry and the mode it had or its first entry's permission bits |
| `OciOutcome.OneBadEntryRefuses` | pkg/oci/extract.go:136-206 | One unreadable, absolute or escaping entry, or one link under the sub-path, anywhere refuses the image |
| `OciOutcome.MkdirMeans` | pkg/oci/extract.go:169-185 | Directories are made down to a path if and only if no file is on the way, and nothing else changes |
| `Paths.CleanGoesBack` | pkg/oci/extract.go:150 | A name followed by ".." cleans away |
| `Paths.CleanDropsDots` | pkg/oci/extract.go:150 | Empty and "." components clean away |
| `Paths.CleanKeepsClean` | pkg/oci/extract.go:150 | A clean path stays; with the two laws before, this determines the clean-up |
| `OciPackage.Root.ExtractTar` | pkg/oci/extract.go:114-212 | The loop's final tree, byte count and success are those of the specified extraction |
| `ContentStream.StreamDeterminesContent` | pkg/buildermgr/contenthash.go:40-101 | Two package specs give the same stream if and only if both or neither supply a source, as a literal, by URL or as an image, and the archive that counts agrees on type, OCI image, digest and trimmed sub-path, checksum (or URL without one) and literal |
| `ContentStream.DecodeInvertsEncode` | pkg/buildermgr/contenthash.go:97-101 | The length-prefixed framing is uniquely decodable |
| `ContentStream.NumberOfDecimal` | pkg/buildermgr/contenthash.go:97-101 | Decimal lengths read back |
| `ContentStream.ArchiveDetermined` | pkg/buildermgr/contenthash.go:64-93 | The fields of an archive determine its content |
| `ContentStream.FieldsSpelledOut` | pkg/buildermgr/contenthash.go:64-93 | The fields of an archive by URL, with a checksum, with a literal, and of an image |
| `ContentStream.FieldSpelledOut` | pkg/buildermgr/contenthash.go:97-101 | A field is its length in decimal, a colon and its bytes |
| `ContentStream.BuildOutputIsNotContent` | pkg/buildermgr/contenthash.go:40-48 | What a build writes into the deployment of a source package does not change the stream |
| `ContentStream.Digest.WriteBytes` | pkg/buildermgr/contenthash.go:97-101 | Appends one framed field |
| `ContentStream.Digest.HashArchive` | pkg/buildermgr/contenthash.go:64-93 | Appends the archive's fields in order |
| `ContentStream.Digest.PackageContentHash` | pkg/buildermgr/contenthash.go:40-48 | What is written into the digest is the stream of the spec |
| `InternalUrls.TrimInverts` | pkg/router/rewrite.go:42-106 | Trimming any registered URL plus any sub-path gives exactly the sub-path, if and only if the URL is not the qualified form for the function "default" of namespace default |
| `InternalUrls.DefaultIsMisread` | pkg/router/rewrite.go:86-106 | In the excepted case the pod sees name and tag before the sub-path |
| `InternalUrls.TrimFunctionPrefix` | pkg/router/rewrite.go:86-106 | The loop tries the bases in order and consumes a whole tag |
| `InternalUrls.ExactURLsDisjoint` | pkg/router/routeshape.go:137-152 | Distinct keys never register one URL |
| `InternalUrls.UrlsSpelledOut` | pkg/router/routeshape.go:137-152 | The URLs of a function, alias or version inside and outside the default namespace, spelled out |
| `InternalUrls.OverlapExactly` | pkg/router/routeshape.go:137-166 | Two different routes take a request in common if and only if one is a plain default-namespace function named like the namespace segment of a URL of the other |
| `InternalUrls.Mux.RegisterInternalRoute` | pkg/router/routeshape.go:161-166 | Registers each exact URL and its subtree, which together match exactly the requests at or below a URL of the key |
| `PodTemplate.FingerprintsAgree` | pkg/buildermgr/environment_reconciler.go:638-669 | For a well-named template the canonical forms agree if and only if the templates agree up to the order of containers, init containers, volumes, env vars and mounts |
| `PodTemplate.FingerprintInvariant` | pkg/buildermgr/environment_reconciler.go:638-669 | For any sort by name: every way of assembling what a template says gets the same canonical form if and only if names identify entries at each level |
| `PodTemplate.TwoMountsOfOneVolume` | pkg/buildermgr/environment_reconciler.go:657-669 | For any sort by name: a template and its copy with two mounts of one volume swapped say the same and have different canonical forms |
| `PodTemplate.UpdatesAreRealChanges` | pkg/buildermgr/environment_reconciler.go:223-258 | Over every sequence of reconciles the Deployment is updated at most once for the start and once per real change, and exactly so when no update is rejected |
| `PodTemplate.SettledIsNoOp` | pkg/buildermgr/environment_reconciler.go:223-258 | After a reconcile that did not fail, the same template in any order is a no-op |
| `PodTemplate.QuietExactlyWhenWellNamed` | pkg/buildermgr/environment_reconciler.go:223-258 | Once a template is settled, no reassembly of it rolls the builder again if and only if names identify entries |
| `PodTemplate.LastDesiredRuns` | pkg/buildermgr/environment_reconciler.go:223-258 | After any run from a Deployment whose stored fingerprint is its own: if the last update was not rejected the live template says what was desired last, up to order; a rejected one changes nothing, and the live template then says something else if names identify the desired entries |
| `PodTemplate.RunHonest` | pkg/buildermgr/environment_reconciler.go:223-258 | Every run keeps the stored fingerprint that of the live template, and the selector |
| `PodTemplate.BuilderSpecHash` | pkg/buildermgr/environment_reconciler.go:638-652 | The canonical form: the template with every list in name order, a function of the template |
| `PodTemplate.SortByName` | pkg/buildermgr/environment_reconciler.go:657-669 | Sorts containers in place by name, and each one's env vars and mounts |
| `PodTemplate.Builder.ReconcileBuilderDeployment` | pkg/buildermgr/environment_reconciler.go:223-258 | An update stores the desired template with its fingerprint and the live selector; otherwise nothing changes. It is a no-op if and only if the fingerprint is stored already |
| `NameSort.SortFunc` | pkg/buildermgr/environment_reconciler.go:658-660 | The in-place loop computes insertion sort by name |
| `NameSort.SortIsArranged` | pkg/buildermgr/environment_reconciler.go:658-660 | Insertion sort applies a permutation that depends on the names alone and orders them |
| `NameSort.ArrangedIsSort` | pkg/buildermgr/environment_reconciler.go:657-669 | Such a sort yields an ordered permutation |
| `NameSort.OrderInvariant` | pkg/buildermgr/environment_reconciler.go:657-669 | A sort that looks at names only gives one outcome for all orders of the entries if and only if entries with one name are the same entry |
| `InformerGate.OnlyReviewedAreWatched` | pkg/router/router.go:280-362 | Over every history of live sets and reviews: the pass cache is within the live set; an uncancelled sync hands over exactly the live namespaces that are cleared or have 1 to 3 failing reviews in a row, and is pending if and only if some live namespace is not cleared |
| `InformerGate.ClearedMeans` | pkg/router/router.go:280-362 | Cleared means: seeded by the preflight or passed a review, and not seen outside the live set since |
| `InformerGate.DeniedIsNotWatched` | pkg/router/router.go:280-362 | A namespace that is denied and was not cleared before is not watched and leaves the sync pending, whatever failed earlier |
| `InformerGate.GateIsHistory` | pkg/router/router.go:280-362 | Cache and error counts are, per namespace, what the history says, cancelled syncs included |
| `InformerGate.DynamicEndpointCache.SyncInformers` | pkg/router/router.go:280-362 | The loops compute the specified sync; a cancelled one hands nothing to the informers |
| `InformerGate.DynamicEndpointCache.DropDeparted` | pkg/router/router.go:291-312 | Prunes passes and error counts of namespaces that left the live set |
| `InformerGate.SliceWatchAllowedForNamespace` | pkg/router/router.go:191-202 | Passes if and only if every answer is a grant; refused, failing or cancelled if and only if the first answer that is not a grant is a denial, an API error or a context error |
| `MqTriggers.SubscriptionsAreRecorded` | pkg/mqtrigger/mqtmanager.go:122-314 | In every interleaving with any subscribe and unsubscribe failures: the count is the number of recorded subscriptions; between reconciles of a trigger its only live consumer is the recorded one; a nil return leaves it alive, or nothing when released; the add roll-back is never entered |
| `MqTriggers.NextKeeps` | pkg/mqtrigger/mqtmanager.go:122-314 | Each single request or call keeps the invariant of its own trigger, of all others and of the count |
| `MqTriggers.RecordsAreGuarded` | pkg/mqtrigger/mqtmanager.go:133-150 | An add refuses a recorded trigger and an update an unrecorded one, and a refusal changes nothing |
| `MqTriggers.ReconcileMeans` | pkg/mqtrigger/reconciler.go:47-95 | A reconcile from a quiet manager ends in one, registers or releases on success, and succeeds when the queue does |
| `MqTriggers.ReconcileIsARun` | pkg/mqtrigger/reconciler.go:47-95 | A reconcile carried through at once is one of the interleavings |
| `MqTriggers.ReconcileEnds` | pkg/mqtrigger/reconciler.go:47-95 | From a quiet manager, a missing trigger, one of another queue type and one that KEDA scales end released, one's own registered, unless the message queue fails |
| `MqTriggers.Manager.ReleaseTrigger` | pkg/mqtrigger/mqtmanager.go:298-314 | Unsubscribes and deletes the record; says whether one was removed |
| `MqTriggers.Manager.Reconcile` | pkg/mqtrigger/reconciler.go:47-95 | From a quiet manager to a quiet one, touching no other trigger: registered only for a trigger of this queue type that KEDA does not scale, released only for a missing or foreign one, and everything is left alone when the lookup fails |

## Left out

- AuthMaster: the random source is a parameter of fixed output length, and Secret labels and conflict logging are not modelled.
- Canary.CanaryConfigMgr: the conflict-retry loops around trigger and alias updates are one write that is stored, rejected, or stored and reported as failed; conditions and messages of the status are not modelled.
- Canary status after a failed terminal status write: only what happens to alias and weights is claimed.
- WeightedPick.GetCanaryBackend: the map from names to function objects is the identity on names.
- Resolver: reads always see the objects given; policies, timeouts and sticky-key extraction are not modelled.
- ToolRegistry.ToolServer.DoReconcile: reconciles are serial; conditions on losing functions and the registration of handlers are not modelled; a published version whose snapshot lacks a tool configuration counts as a failed reconcile.
- ToolRegistry.ToolServer.CallTool: how a token becomes a scope, and the proxied invocation, are not modelled.
- RouteIndex.IndexedTable: function names hold no `@`, as Kubernetes names do not; the lookups return sets, their sorted order is not modelled.
- RouteResync.RouteTable: handlers and the materialisation of muxes are not modelled; the generation fold of aliases is an arbitrary function.
- OciPackage: gzip, digests and the registry are the identity on entry lists; a write that fails half way through a file, and modes of directories, are not modelled; refusing to create a directory over a file leaves the tree as it was.
- OciOutcome.SucceedsExactly: is about destination trees in which every node lies in a directory.
- ContentStream: SHA-256 is not modelled; claims are about the bytes that go into it.
- InternalUrls: which of two overlapping patterns the mux prefers is not modelled; only that they overlap.
- NameSort.SortFunc: the standard library's sort is insertion sort only for short lists; the theorems are about every sort that compares nothing but names.
- PodTemplate.SortByName: sorts by insertion; for longer lists the standard library may leave entries of one name in another order, which `FingerprintInvariant` covers by its exact condition.
- PodTemplate.BuilderSpecHash: likewise the canonical form under that sort.
- PodTemplate: JSON and SHA-256 are taken as injective, so a fingerprint is the canonical template; labels and annotations other than the hash are not modelled.
- InformerGate.DynamicEndpointCache.SyncInformers: the up-to-three attempts of one access review are one answer; what the informers do with the set is not modelled.
- MqTriggers: a failing subscribe leaves no consumer; leadership loss and status conditions are not modelled.
- Statestore drivers, async dispatch, the executor, the storage service, timers, Kafka and KEDA integrations, and the CLI are not part of this model.
- Mid-build edits of packages are not part of this model.
