# Conducto: a verified model of its protocols and transformations

This project models six parts of Conducto in Dafny and proves what they are for:

* **Schema projection** (`JsonSchema`, `SchemaMeaning`, `SchemaReferences`, `SchemaErrors`, `SchemaShape`): the
  compiler that inlines `$ref`/`$defs`, rejects reference cycles and keeps a subset of JSON Schema. It is checked
  against a validation semantics of that subset (JSON Schema Core 2020-12, sections 8.2.3.1, 8.2.4, 10.2.1.2, 10.3.1.2,
  10.3.2.1, 10.3.2.3 and 10.3.2.4) in which `type`, `pattern`, `minimum` and the like are an arbitrary predicate.
* **Tool names** (`ToolNames`) and the **tool-call cache** (`ToolCache`).
* **Replay and cancellation of inbound calls** (`Replay`, `ReplayEffects`, `ReplayCancellation`, `ReplayHandler`): a
  state machine whose steps are the stretches of code between two suspension points, and the handler object whose locked
  sections perform those steps.
* **The agent registry** (`RegistrySpec`, `RegistryHistory`, `AgentRegistry`): the mutable object with its inverted
  index, proved step by step against its meaning; what is live, since when and for whom a binding is honoured is
  proved of every run from its operations alone.
* **The host boundary** (`ConcurrencyLimiter`, `ResponseBuffering`, `RequestPump`, `HostBoundary`,
  `HostHistory`, `HostLifecycle`, `TaskRepository`, `TaskClaims`, `TaskSweep`): admission slots, bounded buffers,
  executions that outlive their request, host states, and task claims by compare-and-set. `HostedCalls` composes the
  claims with the replay tables.
* **Delegated authority** (`Budgets`, `RunContexts`, `InvocationScope`) and the **toolbox** (`Toolbox`).

Stateful objects are classes with the source's fields. Where a protocol runs over them, ghost parameters carry
the rest of the protocol state, and each method's contract says that it performs the protocol's step; the
protocol's properties are then proved over all runs of steps. A step that is not enabled leaves the state as it is,
so a run is any sequence of actions.

Properties that fail are kept as results, each with an input and its exact condition:

* a cancellation takes effect, in every run that goes on without a discard, exactly when it flags a running
  execution, or waits for a task of which every call is gone and every result cached
  (`ReplayCancellation.TakesEffectExactly`). It is lost on a finished execution that is still registered
  (`LostAfterAbandonedExecution`, `NextExecutionEscapesExactly`), to the clean-up of a call that repeats the request of
  a failed execution (`LostToRepeatOfFailure`; once the calls of the task are gone nothing else drops it:
  `DroppedByRejoining`), or when a task has two live records (`LostWithTwoLiveRecords`; exactly which one is reached:
  `CancelReaches`). In the host two records are never live (`HostedCalls.HostedRunsAreCalm`), a finished execution is
  registered only while its handler is on its way out or on a task that is closed or about to be (`MissedInHost`), and
  a cancellation that comes before the handler has entered stops its execution (`HostedEarlyCancellation`);
* a key that a call carried is not bound by joining (`Replay.JoiningBindsNothing`; exactly: `BoundAfterBegin`,
  `SameAnswerExactlyWhenBound`);
* a closed, drained or failed host is revived by a startup check under way (`HostBoundary.ClosedIsFinal`,
  `HostHistory.DownIsFinalExactly`, equivalences);
* an id given out again lets a second handler in (`TaskClaims.EvictionNeedsFreshIds`): over all runs, exactly when
  a handler still runs for that id or a send is about to publish a reply that leaves the task open
  (`SecondHandlerExactly`, `StaleReplyLetsIn`); by the very next claim, exactly in the first case
  (`SecondAtOnceExactly`);
* authority is not narrowed across runtimes (`RunContexts.EscapesFromOtherRuntime`; exactly:
  `NarrowsExactlyInItsRuntime`).

`dafny verify dfyconfig.toml` checks everything.

## Model

| member | source | states |
|---|---|---|
| SchemaMeaning.ProjectionPreservesMeaning | src/conducto/mcp/schema.py:131-253 | whenever projection succeeds, an instance is valid under the original schema, references read through any consistent reading of the definitions, exactly when it is valid under the result, whatever a reference would mean there |
| SchemaMeaning.ProjectionIsTheUnrolling | src/conducto/mcp/schema.py:131-253 | the result accepts what the schema accepts with its references unrolled as deep as there are definitions, whatever is assumed below that depth; so the meaning is determined, not assumed |
| SchemaMeaning.ProjectMeaning | src/conducto/mcp/schema.py:131-161 | preservation at every node and every stack of references being expanded |
| SchemaMeaning.DefinitionMeaning | src/conducto/mcp/schema.py:227-253 | a definition expanded in place accepts what the reference to it accepts |
| SchemaMeaning.KeywordMeaning | src/conducto/mcp/schema.py:164-203 | each kept keyword accepts the same instances after its value is projected |
| SchemaMeaning.BranchesMeaning | src/conducto/mcp/schema.py:206-224 | some projected `anyOf` branch accepts exactly when some original one does |
| SchemaMeaning.InputSchemaMeaning | src/conducto/mcp/schema.py:57-81 | an exported input schema is within its size limit and accepts what the capability's schema accepts under its own root `$defs` |
| SchemaMeaning.OutputSchemaMeaning | src/conducto/mcp/schema.py:84-118 | an exported output schema accepts exactly the objects whose only member is a `result` the return schema accepts |
| SchemaReferences.SuccessMeansAcyclic | src/conducto/mcp/schema.py:227-253 | success implies that every reference reachable from the schema resolves and no reference cycle is reachable |
| SchemaReferences.RecursionErrorIsReal | src/conducto/mcp/schema.py:236-243 | the recursion error is raised only with a reachable reference cycle that closes at the name it reports |
| SchemaReferences.RecursionTrace | src/conducto/mcp/schema.py:131-253 | a recursion error under any stack comes with the walk of references that leads back into the stack |
| SchemaErrors.ProjectsExactly | src/conducto/mcp/schema.py:131-264 | a schema projects exactly when every node in a schema position of it, or of a definition that a walk of references leads to, passes its own checks, every reference met on the way resolves, and no walk returns to a name |
| SchemaErrors.ErrorIsReal | src/conducto/mcp/schema.py:131-264 | every error but recursion is the fault of such a node: the reported check is one that node fails |
| SchemaErrors.UnresolvedErrorIsReal | src/conducto/mcp/schema.py:239-241 | an unresolved name is at the end of a walk of references and no definition has it |
| SchemaErrors.InputExportedExactly | src/conducto/mcp/schema.py:57-81 | an input schema is exported exactly when its `$defs` are objects, it projects by those conditions, the schema its references lead to has type object, and the result is within the size limit |
| SchemaErrors.OutputExportedExactly | src/conducto/mcp/schema.py:84-118 | an output schema is exported exactly when its `$defs` are objects, it projects by those conditions, and its wrapper is within the size limit |
| SchemaErrors.DefinitionsRead | src/conducto/mcp/schema.py:121-128 | the definitions are those of the root's `$defs` under their own names, none without it, and refused exactly if it or one of them is not an object |
| SchemaShape.ProjectIsNormal | src/conducto/mcp/schema.py:131-264 | results hold no reference or definitions block, only supported keywords and types, and at most one non-null branch in each `anyOf` |
| SchemaShape.ProjectionIsIdempotent | src/conducto/mcp/schema.py:131-264 | projecting a result again returns it unchanged |
| SchemaShape.FixedPointsAreNormal | src/conducto/mcp/schema.py:131-264 | the schemas that projection returns unchanged are exactly the normal ones |
| SchemaShape.ProjectionSize | src/conducto/mcp/schema.py:131-253 | with m definitions and at most n nodes in the root and each of them, at most n^(m+1) nodes result |
| JsonSchema.ValidNodes | src/conducto/mcp/schema.py:256-264 | a node passes exactly when it declares a supported type, or none while `anyOf`, `enum` or `const` constrains it; the two failures are told apart |
| ToolNames.NormalizeToolName | src/conducto/mcp/naming.py:13-40 | the character loop and the strip compute the words of the lowered name joined by single underscores, or fail when there are none |
| ToolNames.NormalizeNormalizes | src/conducto/mcp/naming.py:29-40 | a normalized name is normal, and normalization leaves exactly the normal names unchanged |
| ToolNames.NormalizeIsIdempotent | src/conducto/mcp/naming.py:29-40 | normalizing twice is normalizing once |
| ToolNames.NormalizeKeepsAlphanumerics | src/conducto/mcp/naming.py:13-40 | a name keeps all letters and digits of the lowered value in order, and there is none exactly when there are no such characters |
| ToolNames.SeparatorOnce | src/conducto/mcp/naming.py:43-58 | in a default name the double underscore occurs at one place only |
| ToolNames.DefaultNameIs | src/conducto/mcp/naming.py:43-58 | a default name is the two normalized segments joined by a double underscore, and exists exactly if both have a letter or a digit |
| ToolNames.DefaultNamesDecode | src/conducto/mcp/naming.py:43-58 | equal default names have equal normalized agent and capability segments |
| ToolNames.AliasIsNoDefaultName | src/conducto/mcp/policy.py:35-46 | no alias that an export rule accepts equals any default name |
| ToolNames.AliasAcceptedExactly | src/conducto/mcp/policy.py:35-46 | aliases are accepted exactly if they are normal names |
| ToolCache.ToolCallCache.Remember | src/conducto/providers/_tool_cache.py:30-36 | insertion, move to the end and the eviction loop leave the last calls by recency |
| ToolCache.ToolCallCache.Lookup | src/conducto/providers/_tool_cache.py:38-44 | a hit returns the call and makes it the most recent; a miss changes nothing |
| ToolCache.CacheIsItsHistory | src/conducto/providers/_tool_cache.py:30-44 | after any run the cache holds the last min(limit, n) distinct ids ordered by last effective touch |
| ToolCache.HeldExactlyIfRecent | src/conducto/providers/_tool_cache.py:30-44 | after any run a call is held exactly if it was the last touch of its id and fewer than `limit` other ids were touched since |
| ToolCache.HeldIsLatest | src/conducto/providers/_tool_cache.py:30-44 | what is held for an id is what was last remembered for it |
| ToolCache.SmallerCacheIsContained | src/conducto/providers/_tool_cache.py:30-44 | for the same operations a cache with a smaller limit holds a part of what one with a larger limit holds, in the same order |
| Replay.AtMostOneExecution | src/conducto/a2a/runtime.py:546-571 | in no run of calls, completions, callbacks and cancellations are two executions created by calls that carry one key |
| Replay.StepSound | src/conducto/a2a/runtime.py:538-581 | every step keeps each record bound to all its keys and each reply true to its record; bindings, outcomes, replies and raised flags are never undone |
| Replay.RunSound | src/conducto/a2a/runtime.py:538-581 | the same for every run |
| Replay.ReplayAgreement | src/conducto/a2a/runtime.py:546-573 | a call arriving with a bound key creates nothing; it is refused exactly when the record was created for another task or payload or its two keys are bound to different records, and any other reply is the outcome of the execution its key was bound to, also between completion and the caching callback |
| Replay.LateCallIsAnswered | src/conducto/a2a/runtime.py:549-573 | a repeated request whose execution has returned gets its value, at once after the caching callback and on waking before it |
| Replay.SameKeySameAnswer | src/conducto/a2a/runtime.py:546-573 | two calls carrying one key are never answered differently if the key was bound when the first arrived or the first created the execution |
| Replay.SameAnswerExactlyWhenBound | src/conducto/a2a/runtime.py:546-573 | for a first call that is not refused and whose execution has not failed, that condition is exact: otherwise some continuation answers the two calls differently |
| Replay.BoundAfterBegin | src/conducto/a2a/runtime.py:547-571 | a key is bound after a call arrives exactly if it was before or the call created the execution |
| Replay.JoiningBindsNothing | src/conducto/a2a/runtime.py:549-559 | for any keys, a call that joins through one key leaves its other key unbound: three calls, two executions |
| ReplayEffects.RecordChangesExactly | src/conducto/a2a/runtime.py:561-581 | a record is flagged exactly when a cancellation of its task finds it registered; it reaches the runtime exactly by its own check while it runs unflagged; it ends by its first end, or by that check when flagged; a value is kept exactly when it was returned |
| ReplayEffects.CreatedExactly | src/conducto/a2a/runtime.py:561-571 | an execution is created exactly by a call with two unbound keys, for that call, and flagged exactly if a cancellation waits |
| ReplayEffects.KeysBoundExactly | src/conducto/a2a/runtime.py:570-571 | keys are bound by the creation of their execution alone and never unbound |
| ReplayEffects.TablesChangeExactly | src/conducto/a2a/runtime.py:299-311 | what is registered for a task is replaced by a creation and dropped by a departure after the end; a cancellation waits exactly from when it finds nothing registered until a discard or such a departure |
| ReplayEffects.CallChangesExactly | src/conducto/a2a/runtime.py:572-581 | a call is told something only by its own waking, the outcome of its execution, or by its own interruption, and leaves only after that |
| ReplayEffects.AnswersComeFromExecutions | src/conducto/a2a/runtime.py:546-581 | over any run, a value a call is told was returned by its own execution, or that execution was cancelled before it reached the runtime |
| ReplayEffects.FreshCallIsServed | src/conducto/a2a/runtime.py:546-581 | a call with unbound keys for a task nobody cancels reaches the runtime, is told what is returned, and leaves nothing registered but its keys and the value |
| ReplayCancellation.NoLostCancellation | src/conducto/a2a/runtime.py:299-311 | while no task has two live records, a cancellation flags the running execution for ever and keeps it from the runtime if it was not there yet, or, with nothing registered, stops every execution created for the task until it is dropped; if every call of the task is gone and every result cached, the next execution is stopped in any run without a discard |
| ReplayCancellation.TakesEffectExactly | src/conducto/a2a/runtime.py:299-306 | in every sound state a cancellation reaches a running execution, or the next one in every run without a discard, exactly when what is registered for the task runs, or nothing is registered, every call of the task is gone and every result of it cached |
| ReplayCancellation.DroppedByRejoining | src/conducto/a2a/runtime.py:577-581 | with none of the task's executions running and none created, a call that was not there before drops a waiting cancellation only by having joined an execution that is done and not cached |
| ReplayCancellation.LostToRepeatOfFailure | src/conducto/a2a/runtime.py:157-162 | such a run: a failed execution is not cached, so a repeat of its request joins it and its clean-up drops the waiting cancellation; the next execution reaches the runtime, though no two records were ever live and nothing was discarded |
| ReplayCancellation.NextExecutionEscapesExactly | src/conducto/a2a/runtime.py:299-306 | with no cancellation waiting, the next execution of a task that was cancelled reaches the runtime exactly when something was registered for the task |
| ReplayCancellation.RegisteredExactly | src/conducto/a2a/runtime.py:561-581 | after any run, what is registered for a task is its newest execution, until a call of the task cleans up after a finished one |
| ReplayCancellation.MissedMeansAbandoned | src/conducto/a2a/runtime.py:574-581 | in a run where no task has two live records, a cancellation misses a task only when none of its executions runs and every call of the newest that left did so before it was done |
| ReplayCancellation.LostAfterAbandonedExecution | src/conducto/a2a/runtime.py:574-581 | such a run: an interrupted caller leaves its execution, and a cancellation after its end does not stop the next one, though no two records were ever live and nothing was dropped |
| ReplayCancellation.RunTracked | src/conducto/a2a/runtime.py:561-581 | while no task has two live records, the cancellation registered for a task is that of its running execution |
| ReplayCancellation.PendingStops | src/conducto/a2a/runtime.py:562-563 | an execution created while a cancellation waits starts cancelled and never reaches the runtime |
| ReplayCancellation.CancelReaches | src/conducto/a2a/runtime.py:299-306 | a cancellation flags a running execution exactly when that one is registered for the task |
| ReplayCancellation.LostWithTwoLiveRecords | src/conducto/a2a/runtime.py:577-581 | with two live records of one task the clean-up after the first loses the cancellation of the second, which then reaches the runtime |
| ReplayHandler.A2ARuntimeHandler.Enter | src/conducto/a2a/runtime.py:546-571 | the locked section performs the protocol's begin step and returns its reply or the execution to await |
| ReplayHandler.A2ARuntimeHandler.Cancel | src/conducto/a2a/runtime.py:299-306 | flags the registered execution of the task, or else leaves a pending cancellation, and keeps every key bound as it was |
| ReplayHandler.A2ARuntimeHandler.DiscardPendingCancellation | src/conducto/a2a/runtime.py:308-311 | drops a pending cancellation of the task and touches nothing registered |
| ReplayHandler.A2ARuntimeHandler.CleanUp | src/conducto/a2a/runtime.py:577-581 | a leaving call drops its task's cancellations exactly when its execution is done |
| ReplayHandler.A2ARuntimeHandler.CaptureResult | src/conducto/a2a/runtime.py:157-162 | caches a returned result and nothing else |
| AgentRegistry.AgentRegistry.Register | src/conducto/core/registry.py:124-194 | checks, conflict evictions, replacement, insertion and indexing amount to the abstract registration, and a rejected one changes nothing |
| AgentRegistry.AgentRegistry.Remove | src/conducto/core/registry.py:253-276 | removal by name is the abstract removal, with its tombstone |
| AgentRegistry.AgentRegistry.RemoveObject | src/conducto/core/registry.py:253-276 | removal by object is refused unless that very object is registered |
| AgentRegistry.AgentRegistry.ClearAll | src/conducto/core/registry.py:278-285 | clearing is the abstract clearing |
| AgentRegistry.AgentRegistry.SetLifecycle | src/conducto/core/registry.py:196-221 | a lifecycle change rewrites the registration everywhere it is indexed |
| AgentRegistry.AgentRegistry.SetHealth | src/conducto/core/registry.py:223-241 | a health change rewrites the registration everywhere it is indexed |
| AgentRegistry.AgentRegistry.RegisterDataSource | src/conducto/core/registry.py:82-100 | a new source is a revision; a known one is refused |
| AgentRegistry.AgentRegistry.Accept | src/conducto/core/registry.py:309-346 | the answer to a binding is the abstract one |
| AgentRegistry.AgentRegistry.ConflictingCapabilities | src/conducto/core/registry.py:297-307 | the index tells exactly the capabilities that another registered agent provides |
| AgentRegistry.AgentRegistry.RemoveMapping | src/conducto/core/registry.py:391-402 | drops the agent from every bucket and every empty bucket from the index |
| AgentRegistry.AgentRegistry.ReplaceRegistration | src/conducto/core/registry.py:404-411 | overwrites the registration in every bucket that holds it |
| RegistrySpec.RunSound | src/conducto/core/registry.py:124-285 | over every run tombstones are disjoint from live names, names match their agents and generations are distinct and were issued |
| RegistrySpec.StepSound | src/conducto/core/registry.py:124-285 | every operation keeps those invariants |
| RegistrySpec.TombstonesAreRemovals | src/conducto/core/registry.py:253-285 | after any run the tombstones are the names last taken out by a removal, a clear or the removed state and not registered since; an eviction leaves none |
| RegistryHistory.RegistrationIsItsHistory | src/conducto/core/registry.py:124-285 | after any run a name is live exactly if some operation registered it and none since displaced it; agent and generation are that operation's, lifecycle and health those last set since |
| RegistryHistory.LiveNameChangesExactly | src/conducto/core/registry.py:124-285 | a live agent keeps its place exactly unless it is replaced with `replace`, evicted for a shared capability, removed, cleared or set to removed; its lifecycle and health change to what is set and otherwise not |
| RegistryHistory.EntersExactly | src/conducto/core/registry.py:149-187 | an agent is registered exactly if admissible and either `replace` is given, or its name is free and no forbidden conflict exists; it is then active and healthy under a new generation |
| RegistryHistory.RefusedChangesNothing | src/conducto/core/registry.py:149-156 | any other registration, as one under a live name without `replace`, changes nothing |
| RegistryHistory.CountersExactly | src/conducto/core/registry.py:64-100 | the revision advances by one exactly when an operation is accepted, for each operation its condition; generations are issued by registrations alone, and sources are those registered |
| RegistrySpec.RevisionIsAVersion | src/conducto/core/registry.py:64-80 | the revision never falls, and if it is unchanged so is everything |
| RegistrySpec.EqualRevisionsEqualSnapshots | src/conducto/core/registry.py:64-80 | equal revisions of one registry have equal snapshots |
| RegistrySpec.OneProviderEach | src/conducto/core/orchestrator.py:223-238 | when no registration allows conflicts, each indexed capability has exactly one provider |
| RegistrySpec.BindingSafety | src/conducto/core/registry.py:309-346 | a binding accepted with a valid generation reaches the agent object it was issued for, across removals, evictions and re-registrations; once invalid it stays invalid |
| RegistryHistory.BindingLivesExactly | src/conducto/core/registry.py:309-346 | a binding issued for a live agent is honoured after further operations exactly as long as none of them displaced that registration |
| RegistryHistory.AcceptedMeans | src/conducto/core/registry.py:309-346 | target, generation and schema of a binding are told apart |
| RegistrySpec.OldGenerationsFade | src/conducto/core/registry.py:158-187 | what is registered under an old generation has been registered under it, as the same object, ever since |
| RegistrySpec.RefreshKeepsTarget | src/conducto/a2a/runtime.py:701-748 | a binding is renewed exactly while its target is active, healthy and unchanged, and only its expiry moves |
| RegistrySpec.RenewalSafety | src/conducto/a2a/runtime.py:701-748 | however often it is renewed, an accepted binding reaches the agent object of its first issue |
| ConcurrencyLimiter.A2AConcurrencyLimiter.TryAcquire | src/conducto/a2a/lifecycle.py:72-88 | a slot is given exactly when both bounds have room, and then the counters account for one more holder |
| ConcurrencyLimiter.A2AConcurrencyLimiter.Release | src/conducto/a2a/lifecycle.py:90-104 | a matching release accounts for one holder less; a stray one never goes below zero |
| ResponseBuffering.ResponseBuffer.Send | src/conducto/a2a/guard.py:144-161 | stores one message, and raises exactly when the total is over the bound |
| ResponseBuffering.ResponseBuffer.Flush | src/conducto/a2a/guard.py:163-171 | emits the stored start and the joined body the first time, and nothing after |
| ResponseBuffering.AllOrNothing | src/conducto/a2a/guard.py:144-171 | whatever sequence is sent, the emitted body is all of it in order if it fits the bound, and empty otherwise |
| ResponseBuffering.StoredAllWithin | src/conducto/a2a/guard.py:144-161 | the buffered bytes never exceed the bound |
| RequestPump.RequestChannel.Pump | src/conducto/a2a/guard.py:104-118 | the queue is what the client sent up to a disconnect or to the first message that breaks a bound, and the flags say which |
| RequestPump.CutIsUnique | src/conducto/a2a/guard.py:104-118 | what the client sent determines where the pump stops |
| RequestPump.CutMeans | src/conducto/a2a/guard.py:104-118 | what is queued is within the byte and the chunk bound, and the pump stops short of the end only at a disconnect or at a chunk that would break one of them |
| HostBoundary.RunSound | src/conducto/a2a/guard.py:202-343 | every interleaving of arrivals, sends, completions, disconnects, deadlines, cancellations and host changes keeps the accounts of slots, trackings and replies |
| HostBoundary.StepSound | src/conducto/a2a/guard.py:202-343 | the same for one step |
| HostBoundary.SlotsAccountedFor | src/conducto/a2a/guard.py:202-222 | the slots held are those of the requests inside the guard, in total and per caller key, within both limits |
| HostBoundary.IdleMeansFinished | src/conducto/a2a/lifecycle.py:212-221 | the host is idle only when no execution runs, and is idle once every guard has left and every callback has run |
| HostBoundary.OrphanIsReaped | src/conducto/a2a/guard.py:324-343 | an execution that outlived its request is untracked by its completion callback, for good |
| HostBoundary.OneResponseThenSilence | src/conducto/a2a/guard.py:236-322 | at most one response start reaches a client, before anything else, what was sent is never taken back, and nothing follows once the guard closes the request, whatever the execution still sends |
| HostBoundary.ClientGetsTheAnswer | src/conducto/a2a/guard.py:252-302 | once the guard wakes, over any run the client gets no more than the answer and, unless the caller is cancelled, all of it by the time the guard closes: a finished execution decides it, then an oversized request, then a disconnect, then the deadline; a successful one is answered with everything its application sent, or an empty body if that was over the bound |
| HostBoundary.GuardCloses | src/conducto/a2a/guard.py:252-322 | the guard's own steps suffice to deliver the answer and close the request |
| HostBoundary.CancelledCallerGetsNothing | src/conducto/a2a/guard.py:258-260 | a caller cancelled while the guard waits is sent nothing in any run |
| HostBoundary.AdmittedExactly | src/conducto/a2a/guard.py:213-222 | a request enters exactly when the host is ready and both limits have room; otherwise it is told which of the two failed and starts nothing |
| HostBoundary.StoppedAdmitsNothing | src/conducto/a2a/lifecycle.py:142-279 | a draining, failed or closed host with no startup check under way takes no new work in any run, and a closed one stays closed |
| HostBoundary.ClosedIsFinal | src/conducto/a2a/lifecycle.py:177-205 | a closed host stays closed in all runs exactly when no startup check is under way |
| HostHistory.HostWrites | src/conducto/a2a/lifecycle.py:142-279 | what each operation leaves the host as: draining, closed, failed or ready, and nothing else writes it |
| HostHistory.DownTurnsAway | src/conducto/a2a/lifecycle.py:235-259 | after a drain or a close the host is draining or closed, and in any later run a protocol request is turned away with 503 and nothing of it runs, unless a startup check then under way passes |
| HostHistory.FailedTurnsAway | src/conducto/a2a/lifecycle.py:191-210 | the same after a startup check that fails |
| HostHistory.DownIsFinalExactly | src/conducto/a2a/lifecycle.py:177-205 | a drained, closed or failed host is never ready again exactly when no startup check is under way |
| HostHistory.ArrivalsAnswered | src/conducto/a2a/guard.py:202-234 | each arrival is turned away with its own status or let in, by route, host state and room |
| HostHistory.RequestIsItsHistory | src/conducto/a2a/guard.py:236-302 | over any run a request has seen exactly what happened to it: an oversized body, a disconnect, the first end of its execution, and what was sent before that |
| HostHistory.AnsweredForItsHistory | src/conducto/a2a/guard.py:202-322 | from arrival to reply: a request let in is answered for what happened to it until the guard woke, unless its caller is cancelled |
| HostHistory.CancelledCallerIsLetGo | src/conducto/a2a/guard.py:258-322 | a caller cancelled once the guard no longer waits is let go at once with what it has |
| HostHistory.LeavingFreesTheSlot | src/conducto/a2a/guard.py:219-222 | leaving gives back the one slot of the request's key |
| HostLifecycle.A2AHostLifecycle.Track | src/conducto/a2a/lifecycle.py:212-215 | adds the execution and keeps the idle event set exactly when nothing is tracked |
| HostLifecycle.A2AHostLifecycle.Untrack | src/conducto/a2a/lifecycle.py:217-221 | drops the execution and keeps the idle event set exactly when nothing is tracked |
| HostLifecycle.A2AHostLifecycle.MarkReady | src/conducto/a2a/lifecycle.py:142-152 | readies a host that was never started and revives no other |
| HostLifecycle.A2AHostLifecycle.BeginStartup | src/conducto/a2a/lifecycle.py:186-191 | startup up to its check: refused exactly when draining, closed or failed |
| HostLifecycle.A2AHostLifecycle.EndStartup | src/conducto/a2a/lifecycle.py:191-210 | startup after its check: the outcome is written whatever the state is by then |
| HostLifecycle.A2AHostLifecycle.Drain | src/conducto/a2a/lifecycle.py:235-238 | a host that is not closed stops taking work before anything is waited for |
| HostLifecycle.A2AHostLifecycle.Close | src/conducto/a2a/lifecycle.py:256-259 | closes the host from any state, and again without effect |
| TaskRepository.InMemoryTaskRepository.Create | src/conducto/transport/tasks.py:94-111 | refuses an empty or known id, and a full repository gives up exactly its oldest task |
| TaskRepository.InMemoryTaskRepository.CompareAndTransition | src/conducto/transport/tasks.py:144-163 | changes the state or reports why not, in the source's order of checks |
| TaskRepository.InMemoryTaskRepository.CompareAndUpdate | src/conducto/transport/tasks.py:165-184 | replaces the snapshot or reports why not, in the source's order of checks |
| TaskRepository.InMemoryTaskRepository.Cancel | src/conducto/transport/tasks.py:186-195 | cancels exactly a known task that is not terminal |
| TaskRepository.RefusalMeans | src/conducto/transport/tasks.py:144-184 | a write goes through exactly when the stored state is the expected one, not terminal, and changes |
| TaskRepository.RefusalNames | src/conducto/transport/tasks.py:144-184 | each refusal is reported exactly in its own case |
| TaskRepository.WritesAre | src/conducto/transport/tasks.py:144-195 | a write that goes through changes the state, the snapshot or the cancellation of its own task and nothing else |
| TaskRepository.LatestAreKept | src/conducto/transport/tasks.py:94-111 | of the tasks created under new ids the latest are kept, in order, as many as may be retained |
| TaskClaims.OneHandlerPerTask | src/conducto/a2a/asgi.py:252-270 | no two handlers of one task run in any run that creates no task under an id a send still works on |
| TaskClaims.FreshIdsAreNeverOwned | src/conducto/a2a/asgi.py:240-250 | ids that are never given out twice meet that condition |
| TaskClaims.SecondHandlerExactly | src/conducto/a2a/asgi.py:240-322 | after a task is created under an id that is not stored, some run that creates no id still worked on gives a task two handlers exactly when a handler still runs for that id or a send is about to publish for it a reply that is neither terminal nor working |
| TaskClaims.SecondAtOnceExactly | src/conducto/a2a/asgi.py:240-266 | the claim that directly follows such a creation is a second one exactly when a handler still runs for the id |
| TaskClaims.StaleReplyLetsIn | src/conducto/a2a/asgi.py:294-322 | the reply of an evicted task's handler opens the new task of the same id under its handler, and one more claim makes two |
| TaskClaims.TerminalIsFinal | src/conducto/a2a/asgi.py:223-322 | a terminal task is never rewritten by any later send, timeout, cancellation or sweep, and no write drops a stored artifact |
| TaskClaims.ClaimedExactly | src/conducto/a2a/asgi.py:252-266 | a claim succeeds exactly when the task is stored as it was read, not terminal and not being worked on, and then no other send owns it |
| TaskClaims.PublishedExactly | src/conducto/a2a/asgi.py:268-322 | every way a handler ends is stored exactly when the task was neither terminated nor evicted since the claim, and then nothing stored is lost |
| TaskClaims.UndisturbedSend | src/conducto/a2a/asgi.py:240-322 | a send nothing interferes with ends its task as its handler ends, in each of the ways it can end |
| TaskClaims.ContinuedExactly | src/conducto/a2a/asgi.py:223-240 | a message continues exactly a stored task that is open |
| TaskClaims.TasksChangeExactly | src/conducto/a2a/asgi.py:180-190 | creating, cancelling and sweeping touch the named task alone, and the oldest one that a creation evicts |
| TaskClaims.RunOwners | src/conducto/a2a/asgi.py:180-322 | over every such run a claimed task has one owner, and only a terminal state is written over a claim |
| TaskClaims.EvictionNeedsFreshIds | src/conducto/a2a/asgi.py:240-250 | a run with two handlers: a task is evicted while its handler runs and its id is given out again |
| TaskSweep.Sweep | src/conducto/a2a/lifecycle.py:315-328 | the paging loop fails exactly the active ones among the first listed tasks, up to the end of the listing, the retention bound or the deadline; with time and room for all no stored task is active afterwards |
| TaskSweep.SweepPage | src/conducto/a2a/lifecycle.py:326-337 | one page tries each task with the state it was listed in, whatever is stored by then |
| TaskSweep.CurrentPage | src/conducto/a2a/lifecycle.py:330-337 | a page that is still current fails exactly its active tasks and leaves every other task as it was |
| TaskSweep.FailedExactly | src/conducto/a2a/lifecycle.py:330-337 | visiting a listed task fails it exactly if it is still in the active state it was listed in |
| HostedCalls.HostedRunsAreCalm | src/conducto/a2a/asgi.py:252-322 | when handlers that hold a claim make the calls, no task has two live executions in any run of the host |
| HostedCalls.StepSound | src/conducto/a2a/asgi.py:252-322 | every step of sends and calls keeps each live execution with the one send that works on its task, or on a closed task |
| HostedCalls.HostedCancellation | src/conducto/a2a/asgi.py:184-190 | in the host a cancellation during an execution flags it for ever and keeps it from the runtime if it was not there yet, with nothing assumed of the run but fresh ids |
| HostedCalls.HostedEarlyCancellation | src/conducto/a2a/runtime.py:561-563 | in the host a cancellation that comes while a handler of the task runs but has not entered waits for it in any run without a discard, and the execution the handler then creates never reaches the runtime |
| HostedCalls.EarlyStepWaits | src/conducto/a2a/runtime.py:299-311 | until that handler enters, no step of the host but a discard drops the waiting cancellation |
| HostedCalls.MissedInHost | src/conducto/a2a/asgi.py:272-292 | in the host a cancellation misses a task only while the handler of its finished execution is on its way out, or when the task is closed or about to be |
| HostedCalls.ClosedForGood | src/conducto/a2a/asgi.py:252-266 | nothing works on a closed task again: whoever owns it later owned it already |
| HostedCalls.HandlerStepsExactly | src/conducto/a2a/asgi.py:268-294 | a handler enters the replay tables exactly once, for its own task, and ends exactly when its call is gone and lets it end so |
| HostedCalls.HandlerIsServed | src/conducto/a2a/asgi.py:252-322 | a handler that has not entered, with unbound keys and no cancellation waiting, is served by the runtime and goes on to publish |
| RunContexts.AuthorityNeverGrows | src/conducto/core/runtime_context.py:69-144 | along any chain of contexts built in one runtime the deadline never grows later, the permitted capabilities shrink, the path is extended, and ledger and cancellation are shared |
| RunContexts.DeadlineIsEarliestRequested | src/conducto/core/runtime_context.py:75-89 | a context has a deadline exactly if some request on the way down to it had a timeout; it is the end of one of these timeouts and not later than any |
| RunContexts.PermitsWhatEveryRequestPermits | src/conducto/core/runtime_context.py:103-118 | a context permits exactly what every request on the way down to it permitted |
| RunContexts.ChildNarrows | src/conducto/core/runtime_context.py:69-144 | a child's deadline is the earlier of its request's and its parent's, it permits what both permit, and its path is its parent's and its own frame |
| RunContexts.RootIs | src/conducto/core/runtime_context.py:69-144 | a context built under none of its runtime has exactly the ledger and the cancellation it is given, or new ones, and the deadline, permissions and frame of its own request |
| RunContexts.RunIdIs | src/conducto/core/runtime_context.py:90-98 | an explicit run id is kept, a root of an authorized task takes the task's, any other gets a fresh one |
| RunContexts.TimeoutEndsAtDeadline | src/conducto/core/runtime_context.py:75-89 | the timeout a context reports ends at its deadline, or is zero once that has passed |
| RunContexts.RefusedExactlyWhenBroader | src/conducto/core/runtime_context.py:100-120 | a child is refused exactly when it asks for what its caller may not do or its correlation does not match |
| RunContexts.RefusalsAre | src/conducto/core/runtime_context.py:100-120 | a root is refused exactly for a mismatched correlation, which is reported before broader permissions |
| RunContexts.CallEndsByEveryDeadline | src/conducto/core/model_gateway.py:192-202 | the timeout of a model call ends no later than the deadline of any context above it, and the call is refused exactly when its own has passed |
| RunContexts.CallGetsTheSmaller | src/conducto/core/model_gateway.py:192-202 | a model call gets the configured timeout or what is left until the earlier of its two deadlines, whichever is less, and none exactly once one has passed |
| RunContexts.InboundAuthority | src/conducto/a2a/runtime.py:855-863 | at any depth below an inbound call, what is permitted both the authenticated identity and the request permit |
| RunContexts.NarrowsExactlyInItsRuntime | src/conducto/core/runtime_context.py:69-74 | every context that can be built under an active one narrows it exactly when both belong to one runtime |
| RunContexts.EscapesFromOtherRuntime | src/conducto/core/runtime_context.py:69-74 | under a context of another runtime one can be built that permits everything, never expires and spends from its own ledger |
| RunContexts.TreeSpendsOneLedger | src/conducto/core/runtime_context.py:132-136 | whatever the contexts built under a root reserve, in any order, the root's limits are what remains and the sum of what was granted, nothing goes negative and no other ledger moves |
| RunContexts.InboundSpends | src/conducto/a2a/runtime.py:646-674 | every reservation at any depth below an inbound call is made on the ledger opened with the attenuated budget, so that all that is granted both the identity and the request afford, and all its contexts share the call's cancellation |
| RunContexts.ChildIsBuiltUnder | src/conducto/core/runtime_context.py:69-144 | a context built while one of a tree is active is in the tree |
| Budgets.DelegationBudget.Reserve | src/conducto/core/run_context.py:120-142 | takes the whole amount exactly when every limit affords it, and otherwise nothing; a negative amount is an error |
| Budgets.DelegationBudget.Snapshot | src/conducto/core/run_context.py:104-118 | what is left, with the depth still open |
| Budgets.GrantedUpToWhatIsLeft | src/conducto/core/run_context.py:120-142 | each limited resource can be reserved up to exactly what is left of it and no further, an unlimited one always, and a negative amount never |
| Budgets.ReservedLeavesTheRest | src/conducto/core/run_context.py:120-142 | a grant leaves what was there less what was taken, a refusal everything |
| Budgets.AttenuatedAffordsWhatBothAfford | src/conducto/a2a/runtime.py:866-905 | the attenuated budget affords exactly the amounts that both the authenticated and the requested budget afford |
| Budgets.AffordingDetermines | src/conducto/a2a/runtime.py:899-905 | limits are determined by what they afford, so the componentwise minimum is the only answer |
| InvocationScope.BeginsExactlyWhenLatest | src/conducto/core/run_context.py:299-319 | after any run a model call may begin exactly when its task's context descends from the latest activation and no deactivation followed it |
| InvocationScope.StaleTasksStayOut | src/conducto/core/run_context.py:264-319 | a task that cannot begin a call never can again unless the scope is activated in its own context |
| InvocationScope.NoCallOutlivesItsScope | src/conducto/core/run_context.py:271-285 | a call that has not ended when its scope is no longer active was cancelled |
| InvocationScope.BegunCallIsCancelled | src/conducto/core/run_context.py:271-319 | a call that was allowed to begin and has not ended is cancelled once its scope is no longer active |
| InvocationScope.CancelledExactly | src/conducto/core/run_context.py:271-285 | a task is cancelled exactly by the end of a scope in which its call is registered |
| InvocationScope.RegisteredExactly | src/conducto/core/run_context.py:299-324 | a call is registered exactly from an allowed beginning until its end or its scope's |
| InvocationScope.DeactivateRestores | src/conducto/core/run_context.py:271-285 | deactivating with an activation's token puts back what its context held before, whatever happened in between, and touches no other context |
| InvocationScope.ActivationAdmitsItsContext | src/conducto/core/run_context.py:264-269 | an activation admits its own context and shuts out every other |
| InvocationScope.ForkInherits | src/conducto/core/run_context.py:258-262 | a child task may begin a call exactly when its parent may |
| InvocationScope.InvocationState.Activate | src/conducto/core/run_context.py:264-269 | a new generation is seen in the activating context alone, and the token holds what it replaced |
| InvocationScope.InvocationState.Deactivate | src/conducto/core/run_context.py:271-285 | cancels exactly the registered calls of an active scope, moves the generation past every context, and restores the token's context |
| InvocationScope.InvocationState.BeginModelCall | src/conducto/core/run_context.py:299-319 | registers the task exactly when the scope is active and its context holds the current generation |
| InvocationScope.InvocationState.EndModelCall | src/conducto/core/run_context.py:321-324 | an ended call is no longer there to be cancelled |
| Toolbox.BuildToolbox | src/conducto/core/gateway_tools.py:292-394 | succeeds exactly when every required use found something, no identifier names two capabilities and what is kept is within every limit; then tools, revision, skipped uses and the byte count of the serialized array are exact; a failure reports the first problem: that of the first use, and in it of the first tool, at which something breaks |
| Toolbox.FailureIsDetermined | src/conducto/core/gateway_tools.py:320-391 | there is one such first problem at most, so uses and discoveries determine the failure that is reported |
| Toolbox.AcceptableMeans | src/conducto/core/gateway_tools.py:292-394 | what a build accepts in terms of agents, capabilities, descriptions, schemas, tools and bytes |
| Toolbox.StatusOf | src/conducto/core/gateway_tools.py:275-289 | the status a required use fails with, for each reported failure |
| Toolbox.RevisionIsHighest | src/conducto/core/gateway_tools.py:318-323 | the revision is the highest any discovery reported |
| Toolbox.SkippedAre | src/conducto/core/gateway_tools.py:324-334 | the skipped uses are those that found nothing, each with its reported failure |
| Toolbox.AddTools | src/conducto/core/gateway_tools.py:336-391 | the inner loop keeps the first tool of each identifier with exact accounting, or reports a collision or a broken limit |
| Toolbox.FoundIsPresent | src/conducto/core/gateway_tools.py:336-391 | every tool a use found is in the toolbox, as itself or as the same capability found before |
| Toolbox.ResolvesToFirstFound | src/conducto/core/gateway_tools.py:206-219 | identifiers in a toolbox are distinct, and each resolves to the first tool found for it |
| Toolbox.Resolve | src/conducto/core/gateway_tools.py:206-219 | the lookup loop finds the first tool with the identifier, or nothing |

## Left out

- Schema projection: the diagnostic `label` and the wording of errors; `show` stands for Python's text of a
  non-string `required` item, and the encoded size is a parameter.
- Schema projection: nested `$defs` are dropped and references read through the root `$defs`, as the code does.
- ToolNames: Unicode lower-casing is a parameter of which only its effect on the allowed characters is assumed.
- ToolCache: a negative limit, for which the source fails on an empty cache, is reported as an unsuccessful call.
- AgentRegistry: the checks made before the lock is taken (type, name, data sources, card) are one Boolean; agent
  names and capability sets are fixed per object; descriptor building and routing metadata.
- Replay: the digest of a request is taken to be injective in its task and payload; a second cancellation that
  interrupts a call while it waits for the lock is a call that never takes its next step; records are held by
  index, so sharing of the record object between its two keys is not modelled as aliasing.
- Replay: authentication, parsing and the authorization checks before the invocation are the step that finishes
  an execution without invoking the runtime.
- Binding signatures and the expiry clock: a renewal is an event with any new expiry.
- HostBoundary: a rejection before admission is sent in one step; a send that fails is a cancelled caller; header,
  host, trace and mTLS validation is the status of an invalid request; deadlines may pass at any moment.
- HostBoundary: the guard's coroutines are steps of a protocol rather than methods, because what is proved of them
  is their interleaving.
- TaskClaims: task history, metadata and context ids; sends as methods, for the same reason; a repository other
  than the in-memory one.
- TaskSweep: other writers while it runs, except as the outdated pages of `SweepPage` and the sweep steps of
  `TaskClaims`; a timeout in the middle of a page.
- HostedCalls: a handler whose call was interrupted ends without a reply, as the interruption is raised again; each
  handler makes one call.
- Replay: waking and cleaning up are two steps although no other task runs between them in the source, so the runs
  considered include all of its own.
- Resource closers and the error aggregation of a close.
- RunContexts: model resolution, instruction chains and output contracts; clock readings and fresh identities are
  parameters; money and time are reals.
- Budgets: rejected constructor arguments (negative limits, non-positive concurrency limits) are preconditions of
  the constructors.
- InvocationScope: a task is identified with its context, and a token is reset at most where the source resets it.
- Toolbox: discovery itself; its replies are inputs. The canonical JSON of a tool and the byte sizes are given.
- Provider adapters, telemetry, logging, configuration, the catalog and the MCP session limits.
