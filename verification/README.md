# Device Links, modelled and proved

Device Links is a Home Assistant integration that turns rules ("this button controls that
light") into entries written on the devices themselves: Z-Wave associations, Zigbee bindings,
Matter bindings. This project models the part of it that decides and applies: the compiler from
rules to links, the planner that diffs wanted links against observed ones, the coordinator's
cache and ownership index, the apply engine with its concurrent device coroutines, the loop
analysis, device swap, snapshot rollback, and the two printed forms (link fingerprints and the
profile data format).

`dafny verify dfyconfig.toml` checks everything.

## How it is laid out

| file | what it models |
|---|---|
| `Wrappers.dfy`, `Orders.dfy`, `Text.dfy`, `Graphs.dfy` | optional values, orders and sorting, decimal text and joining, reachability |
| `Models.dfy`, `Fingerprints.dfy` | devices, links, rules, plans; a link's fingerprint, printed and parsed |
| `Tarjan.dfy`, `Loops.dfy`, `RuleLoops.dfy` | the iterative component search, and the loops rules form |
| `Planner.dfy`, `PlannerProperties.dfy`, `PlanToken.dfy` | the plan, its safety, capacity and fixed point, and what its token determines |
| `Compiler.dfy`, `Compilation.dfy`, `CompilerProperties.dfy`, `HybridProperties.dfy` | what a rule compiles to, the run that accumulates it, and its guarantees |
| `Swap.dfy`, `SwapProperties.dfy` | replacing a device in every rule, and that meaning is kept |
| `Caches.dfy`, `CacheProperties.dfy`, `Coordinator.dfy`, `Drift.dfy`, `Scopes.dfy` | the coordinator's cache as a value with its steps, the invariant of every run, the object itself, rule states, and plans narrowed to rules |
| `Rollbacks.dfy`, `EngineRollbacks.dfy`, `Storage.dfy` | rolling a job back, that any job of a run can be, and what histories keep |
| `Executor.dfy`, `ExecutorInvariant.dfy`, `ExecutorSteps.dfy`, `ExecutorRuns.dfy` | the apply engine as a step system, its invariant, and that every step of every interleaving keeps it |
| `ExecutorReads.dfy`, `ExecutorProperties.dfy`, `ExecutorEnds.dfy`, `JobRunner.dfy` | when devices are read back, what the engine guarantees, that every job ends, and the runner object refining the steps |
| `Refreshes.dfy` | holding back and flushing change events |
| `ProfileData.dfy`, `ProfileRoundTrip.dfy`, `ProfileExports.dfy` | a profile as plain data, written and read, and what exactly comes back |

Three things are worth knowing before reading.

- **Specifications say what, methods say how.** A plan is specified link by link: a missing link
  is added exactly when what survives in its group, plus the missing links of that group that
  sort before it, leave room. The program's two counting passes are methods proved against that.
  The same holds for the component search, the compiler's accumulators, the coordinator and the
  runner.
- **Concurrency is a step system.** One step is the code between two awaits. Which step comes
  next, what a backend answers (any of five statuses, or a timeout, or an exception, or no
  device), what else touches the cache meanwhile, and when somebody cancels or shuts down are all
  free. `Executor.Job` carries two history values, `started` and `checked`, and `Executor.Op` and
  `Executor.Task` the answers they were given; the program keeps none of them.
- **Backends are adversaries with two obligations**: a link read off a device starts at that
  device, and arrives with no owner.

## Assumptions

- The hash behind a plan token is injective, so `Planner.Token` is the hashed text. Token theorems
  ask for link texts without the two separator characters (`PlanToken.Clean`).
- Capabilities are keyed by their own device, and every group is given or named by its control, as
  `g7` or `7` name group 7 (`Compiler.Coherent`); without that a link cannot be constructed. A
  profile is one its constructor accepts (`Models.Rule.Valid`, `Models.Profile.Valid`).
- Integers are unbounded, as they are in Python.

## What turned out to have exact conditions

- The token does not depend on input order exactly when equal fingerprints come with equal
  ownership (`PlanToken.TokenOrderFreeExactly`). Two entries of one link, one of them a system
  entry, are enough to break it (`PlanToken.SystemTwinBreaksTheOrder`).
- A text is what parsing and printing gives back exactly when it is canonical
  (`Fingerprints.PrintUndoesParse`).
- A valid profile survives storage exactly when it says one thing of each device and every model
  is described the way its protocol describes models (`ProfileRoundTrip.ProfilesRoundTripExactly`).
  Nothing in the constructors demands either. Of several handles with one address the first stands
  for all after reading (`ProfileExports.FirstIsFiled`, `ProfileExports.WrittenProfilesReadAs`), so
  a device named twice loses its second name (`ProfileExports.SecondNameIsForgotten`), and a rule
  with one device twice at one endpoint, under two handles, is written but cannot be read. In an
  export, handles that differ only in the local id do no harm
  (`ProfileExports.WrittenProfilesComeBackExactly`).

## Model

| member | source | states |
|---|---|---|
| Models.IdentityIsBackendAndAddress | custom_components/device_links/models.py:88-106 | Two handles are the same device exactly when backend and address agree, whatever their names, models and registry ids. |
| Fingerprints.ParseFingerprint | frontend/src/format.ts:304-335 | The character loop returns the seven parts that the specification splits off, and nothing unless there are exactly seven. |
| Fingerprints.ParseUndoesPrint | frontend/src/format.ts:304-335 | Parsing a link's fingerprint returns its seven fields, whatever characters they hold. |
| Fingerprints.FingerprintIsIdentity | custom_components/device_links/models.py:171-192 | Two links share a fingerprint if and only if backend, source device and endpoint, group, target device and endpoint, and feature all agree. |
| Fingerprints.PrintUndoesParse | custom_components/device_links/models.py:133-135 | Printing what was parsed returns the text if and only if the text is canonical. |
| Tarjan.SearchFrom | custom_components/device_links/loops.py:181-213 | One search from a root, with its explicit work list, terminates and settles every node it reaches, keeping the whole search invariant. |
| Tarjan.TakenIsComponent | custom_components/device_links/loops.py:197-206 | What is popped when a node's low equals its index is a strongly connected component. |
| Tarjan.Components | custom_components/device_links/loops.py:165-215 | For every finite edge map the search terminates and returns exactly the strongly connected components of two or more nodes, pairwise disjoint. |
| Loops.Graph.Add | custom_components/device_links/loops.py:105-114 | One more wire: the edge is recorded exactly if both ends forward, with the rule among its owners. |
| Loops.Graph.RulesInside | custom_components/device_links/loops.py:116-126 | The rules of a component are exactly the owners of edges between two of its devices, in order and without repeats. |
| Loops.FindLoops | custom_components/device_links/loops.py:129-162 | The reported loops are exactly the rings of forwarding devices the enabled rules' links form, each once, with exactly the rules inside it. |
| Loops.ClosedWalkIsReported | custom_components/device_links/loops.py:129-162 | Every closed walk of enabled rules' links whose devices forward lies inside exactly one reported loop. |
| Loops.LoopIsReal | custom_components/device_links/loops.py:129-162 | Any two devices of a reported loop are on one closed walk of such links, and its rule ids are exactly the rules with a link inside it. |
| RuleLoops.EveryCycleOfRulesIsReported | custom_components/device_links/loops.py:64-162 | Every closed walk along what enabled rules really compile to, between devices that repeat because a rule asks or because they report so, lies inside exactly one reported loop. |
| Planner.Classify | custom_components/device_links/planner.py:96-126 | Every observed entry is sorted by the safety rule into removal, foreign, surviving and already present, each exactly. |
| Planner.PlannedAdds | custom_components/device_links/planner.py:129-175 | The counting pass gives every missing link its specified verdict: added, blocked for an unknown group, or blocked with the figures of a full one. |
| Planner.BuildPlan | custom_components/device_links/planner.py:55-83 | The plan of any inputs: exactly one item per planned link in key order, exactly the foreign links, the unchanged count and the token. |
| PlannerProperties.ItemsAreUnique | custom_components/device_links/planner.py:207-213 | The ordering is total on items, so inputs determine the item list. |
| PlannerProperties.PlanExists | custom_components/device_links/planner.py:55-83 | Every input has a plan. |
| PlannerProperties.RemovalsAreSafe | custom_components/device_links/planner.py:111-126 | A removal is of an observed entry that is no system link and not wanted, and is managed or selected. |
| PlannerProperties.ForeignIsReported | custom_components/device_links/planner.py:111-126 | An entry is reported as foreign exactly when it is no system link, not wanted and nobody's. |
| PlannerProperties.AddsFillTheRoom | custom_components/device_links/planner.py:129-175 | A plan adds to a group of known capacity exactly as many links as it misses and has room for, the first of them in order, and to a group of unknown capacity none. |
| PlannerProperties.CapacityHolds | custom_components/device_links/planner.py:46-52 | At every prefix of a plan each group holds at most the larger of what it held at the start and its capacity. |
| PlannerProperties.AddsHappenBelowCapacity | custom_components/device_links/planner.py:46-52 | Every add happens while its group is strictly below capacity. |
| PlannerProperties.PlanIsAFixedPoint | custom_components/device_links/planner.py:55-83 | Once a plan took effect, planning again gives exactly its blocked items, used and capacity figures included. |
| PlanToken.EqualTokensEqualItems | custom_components/device_links/planner.py:216-253 | Equal tokens mean the same operations on the same fingerprints in the same order. |
| PlanToken.EqualTokensEqualReport | custom_components/device_links/planner.py:216-260 | Equal tokens mean the same foreign fingerprints and the same unchanged count. |
| PlanToken.TokenOrderFreeExactly | custom_components/device_links/planner.py:216-260 | The token is independent of the order of the inputs if and only if entries with one fingerprint agree on ownership. |
| PlanToken.SystemTwinBreaksTheOrder | custom_components/device_links/planner.py:216-260 | Whatever the link, one entry of it that is the device's own and one that is nobody's make the token depend on which is listed last. |
| CompilerProperties.CompilationIsSound | custom_components/device_links/compiler.py:272-322 | Every compiled link joins two distinct known devices, neither long range, with a feature the receiver accepts, the group its control uses for it, and an endpoint only if the control supports one. |
| CompilerProperties.CompilationIsComplete | custom_components/device_links/compiler.py:205-322 | Every feature natively owed that the control carries and a usable target accepts has its forward link to that target. |
| CompilerProperties.TwoWayIsLinkedBack | custom_components/device_links/compiler.py:324-368 | A two-way rule whose target has one control for everything is linked back for every feature the source accepts, those a hybrid leg took over included. |
| CompilerProperties.CompilationIsNeverSilent | custom_components/device_links/compiler.py:125-161 | An enabled rule that yields no link and no hybrid leg carries an error. |
| CompilerProperties.EveryRequestIsAnswered | custom_components/device_links/compiler.py:125-322 | Every target and every feature natively owed has its link exactly if nothing stands against it, and otherwise what stands against it (the control, that target, that feature of the control, or that feature of the target) is among the messages; a target naming the rule's own device may be left to a self-load opt-in. |
| CompilerProperties.RefusalsAreNarrow | custom_components/device_links/compiler.py:242-302 | A rule's links are, counted, the union of what each of its targets compiles to alone. |
| HybridProperties.TakenIsNotWritten | custom_components/device_links/compiler.py:389-408 | A feature a leg took over is never also written as a link of the rule's own direction. |
| HybridProperties.HybridLegsAreExactly | custom_components/device_links/compiler.py:389-542 | A rule's hybrid legs are exactly one per usable target and taken feature (on/off by an opted-in off-only or else on-only leg, a status report by an opted-in button light), and one per target naming its own device under self-load, each only when the device told the scene or indication it needs, and a button light only for one target. |
| Compilations.Compilation.ResolvedActions | custom_components/device_links/compiler.py:205-240 | Returns the owed features the control carries, and adds the messages for those it does not: warnings if anything resolved, errors otherwise. |
| Compilations.Compilation.AddLinks | custom_components/device_links/compiler.py:272-322 | Adds exactly one leg's links, refusals and downgrade warnings to what was decided. |
| Compilations.Compilation.CompileReverse | custom_components/device_links/compiler.py:324-385 | Adds the other direction of a two-way rule off the target's first control that carries every feature. |
| Compilations.Compilation.CompileHybrid | custom_components/device_links/compiler.py:410-451 | Adds exactly the hybrid legs, their refusals and the warnings about opt-ins. |
| Compilations.CompileRule | custom_components/device_links/compiler.py:82-161 | The accumulating run returns the specified compiled rule, sorted and with each message once; nothing for a disabled rule. |
| Swap.EmittersUsed | custom_components/device_links/swap.py:165-177 | Each control the rules drive the device from, with exactly the features they ask of it. |
| Swap.TargetsOf | custom_components/device_links/swap.py:414-463 | The loop with its set of seen places returns the moved targets, first of each place, with the notes the specification gives. |
| SwapProperties.ControlsAreNeverGuessed | custom_components/device_links/swap.py:275-332 | A control maps to the user's offered choice, else to the same id, else to the one control that carries everything asked; with none or several of those it stays unmapped. |
| SwapProperties.SameModelSwapKeepsMeaning | custom_components/device_links/swap.py:351-463 | On a replacement with the old device's capabilities, each rule compiles afterwards to exactly its links from before with the old device replaced, in both directions. |
| SwapProperties.SameModelSwapKeepsFingerprints | custom_components/device_links/swap.py:351-463 | The fingerprints written afterwards are exactly the original ones with the old device replaced. |
| SwapProperties.NoRuleNamesTheOldDevice | custom_components/device_links/swap.py:144-155 | After an applicable swap no rule names the old device, as source or target. |
| SwapProperties.SwapKeepsProfilesValid | custom_components/device_links/swap.py:148-155 | A swap keeps every rule's id and place, and leaves every rule and the profile valid. |
| SwapProperties.LossesAreExact | custom_components/device_links/swap.py:391-412 | A feature is reported lost exactly when the rule was authored with it and no link of the rewritten rule carries it. |
| CacheProperties.OwnerIsFirst | custom_components/device_links/coordinator.py:630-659 | A fingerprint's owner is the first rule of the profile that asks for it, enabled or not; nobody's if none does. |
| CacheProperties.OwnershipHolds | custom_components/device_links/coordinator.py:612-672 | Over every run of reads, listings, losses and profile changes a cached link's owner is nobody or exactly the index's, and never anybody on a system link. |
| CacheProperties.ResolvingSettles | custom_components/device_links/coordinator.py:612-628 | Resolving ownership again, with nothing new, changes nothing. |
| CacheProperties.EveryRemovalIsOurs | custom_components/device_links/coordinator.py:676-749 | In every reachable state a planned removal is of no system link, not wanted by the profile, read off an available device, and claimed by a rule of the profile or selected. |
| CacheProperties.PlansTouchOnlyAvailableDevices | custom_components/device_links/coordinator.py:751-769 | Every item of a plan is about a device in scope that answered the last time it was asked. |
| Coordinators.Coordinator.CompileActiveProfile | custom_components/device_links/coordinator.py:630-659 | The loop gives what each rule compiles to, the first claims, and the links of the enabled rules. |
| Coordinators.Coordinator.ResolveOwnership | custom_components/device_links/coordinator.py:612-628 | Replaces the index and stamps every cached entry with it, changing nothing else. |
| Coordinators.Coordinator.ReadDevice | custom_components/device_links/coordinator.py:536-568 | An answer replaces what is cached of the device; silence keeps it and marks the device unavailable; an unloaded backend changes nothing. |
| Coordinators.Coordinator.ForgetUnlisted | custom_components/device_links/coordinator.py:499-534 | Drops exactly the backend's devices it no longer lists; an empty listing drops nothing. |
| Coordinators.Coordinator.SetRuleEnabled | custom_components/device_links/coordinator.py:390-421 | Says whether the rule exists, and if so resolves ownership over the profile with only that switch changed. |
| Coordinators.Coordinator.AsyncPlan | custom_components/device_links/coordinator.py:676-735 | The plan over whole available devices in scope, then narrowed to the scope's rules. |
| Scopes.ScopedPlansDoOnlyTheirRulesWork | custom_components/device_links/coordinator.py:713-749 | Every item of a rule-scoped plan is a write one of those rules compiles to, or the removal of an unowned entry the user selected. |
| Drift.DriftAgreesWithPlanning | custom_components/device_links/coordinator.py:838-883 | For an enabled rule whose devices answer and that compiles to links, in sync means an unscoped plan has nothing to do about any of them; drifted and pending mean that it has. |
| Rollbacks.RollbackUndoesApply | custom_components/device_links/websocket.py:1140-1170 | Whatever part of a job landed, on devices that answer and whose groups held no more than a known capacity, if no foreign entry was taken off and none is selected now, the rollback plan once in effect leaves exactly the fingerprints of the snapshot on its devices, and blocks nothing. |
| EngineRollbacks.JobsRollBack | custom_components/device_links/executor.py:530-553 | For a job of any run of the engine, whatever part of the writes it sent took effect, planning its own snapshot again blocks nothing and brings back exactly what the snapshot recorded, under the same conditions on devices, groups and foreign entries. |
| Rollbacks.UndoingRestores | custom_components/device_links/planner.py:96-175 | A plan that wants back what went, and owns what came, removes exactly the one and adds exactly the other. |
| Storage.KeptAreTheNewest | custom_components/device_links/storage.py:164-170 | A bounded history holds exactly the newest entries ever added, in order. |
| Storage.StoresHoldTheNewest | custom_components/device_links/storage.py:51-52 | However they are recorded among each other, exactly the last twenty snapshots and the last fifty jobs are held, in order. |
| ExecutorRuns.RunsKeepInv | custom_components/device_links/executor.py:506-574 | Every state of every interleaving of device steps, answers, cancels, shutdowns and cache changes has the engine's invariant. |
| ExecutorProperties.AtMostOneJobRuns | custom_components/device_links/executor.py:421-454 | Two jobs are never under way together. |
| ExecutorProperties.OneConversationPerDevice | custom_components/device_links/executor.py:848-911 | No device is ever in two conversations, and a conversation only ever works links that start at its own device. |
| ExecutorProperties.ConversationsAreBounded | custom_components/device_links/executor.py:848-869 | The devices in conversation never number more than the cap. |
| ExecutorProperties.NoCallStartsAfterAStop | custom_components/device_links/executor.py:487-502 | Once a stop is recorded no call of that job starts in any continuation, and the reason to stop never changes. |
| ExecutorProperties.OnlyAllowedWritesAreSent | custom_components/device_links/executor.py:589-700 | Whatever plan was handed in, a call is an add or a removal over a loaded backend, never of a system link or into a system slot, and never a removal of somebody else's link that was not selected. |
| ExecutorProperties.NothingIsSentBeforeTheCheck | custom_components/device_links/executor.py:530-546 | No call is made before the staleness check and the snapshot. |
| ExecutorProperties.SentWorkIsStillPlanned | custom_components/device_links/executor.py:745-791 | For a plan the coordinator made, or a choice of its items, every call is an operation and fingerprint that a fresh plan over the re-read cache still contains, on a device that answered, covered by a snapshot of exactly what was read. |
| ExecutorReads.ReadsComeAfterTheLastCall | custom_components/device_links/executor.py:864-885 | Every recorded deep read was made by a step of the run, and from that step on no call was made to its device. |
| ExecutorProperties.FinishedJobsAccountForEverything | custom_components/device_links/executor.py:968-1019 | A finished job has decided every item; unsent ones made no call and match the job's stop; sent ones made one to three calls, repeated only after a failure; each of their devices was read deeply after the last call to it, and applied and already present were confirmed by that read; completed means all succeeded. |
| ExecutorEnds.OwnStepsAreFew | custom_components/device_links/executor.py:506-574 | From any state of any run, the steps a job still takes are at most what its measure says it has left. |
| ExecutorEnds.NewJobsAreBounded | custom_components/device_links/executor.py:887-911 | A job that has just begun has at most nine steps per item of its plan, and one more. |
| ExecutorEnds.JobsAreNeverStuck | custom_components/device_links/executor.py:848-869 | While a job is not done and the cap is positive, one of its own steps is possible. |
| ExecutorEnds.JobsCanFinish | custom_components/device_links/executor.py:506-574 | From any reachable state a job can be run to its end by its own steps alone. |
| JobRunners.Grouped | custom_components/device_links/executor.py:1082-1093 | The loop files every write under its device, in plan order, each device once. |
| JobRunners.StaleDevices | custom_components/device_links/executor.py:745-791 | With the token unchanged nothing is stale; otherwise exactly the devices with an approved write a fresh plan would not do. |
| JobRunners.GoOn | custom_components/device_links/executor.py:871-885 | The loop over a device's writes starts the next one, or passes over all of them after a stop. |
| JobRunners.Verify | custom_components/device_links/executor.py:944-1003 | Checks exactly the device's applied and already present writes against its deep read. |
| JobRunners.JobRunner.AsyncApply | custom_components/device_links/executor.py:421-454 | A job is taken on exactly when the runner is neither shut down nor busy, and the call is the step system's own. |
| JobRunners.JobRunner.Check | custom_components/device_links/executor.py:530-553 | Marks the stale devices of the coordinator's fresh plan, snapshots the rest and sets them to work. |
| JobRunners.JobRunner.CallAnswered | custom_components/device_links/executor.py:887-911 | A failure with attempts left waits for a retry; anything else decides the write and goes on. |
| JobRunners.JobRunner.Woken | custom_components/device_links/executor.py:899-908 | After a wait the write is tried again, or keeps its failure if the job was stopped. |
| JobRunners.JobRunner.AsyncShutdown | custom_components/device_links/executor.py:467-485 | Shuts the runner for good and stops the current job as interrupted, unless it was stopped already. |
| Refreshes.ChangesAreNeverLost | custom_components/device_links/coordinator.py:886-963 | After every run of holds, releases, changes, flushes and unloads, a pending device nobody holds has its read scheduled, and each hold count is the number of outstanding holds. |
| Refreshes.NobodyHoldsForever | custom_components/device_links/coordinator.py:910-920 | When every hold was let go nothing is held, and anything pending is scheduled. |
| Refreshes.FlushesTakeOnlyWhatNobodyHolds | custom_components/device_links/coordinator.py:949-963 | A change stays pending until a flush takes it, and a flush never takes a device with an outstanding hold. |
| Refreshes.Follower.LetGoOf | custom_components/device_links/coordinator.py:910-922 | Releasing lowers exactly the hold's counts and arms the flush; a second time it does nothing. |
| Refreshes.Follower.FlushPending | custom_components/device_links/coordinator.py:949-963 | Takes the pending devices nobody holds and keeps the others pending, losing none. |
| ProfileData.WriteProfile | custom_components/device_links/yaml_io.py:150-165 | The data written is the specified form: each device once, as first mentioned, and every rule. |
| ProfileData.ReadProfile | custom_components/device_links/yaml_io.py:168-189 | Reading returns the specified profile, or the places of all the rules that cannot be read. |
| ProfileRoundTrip.ProfilesRoundTrip | custom_components/device_links/yaml_io.py:150-189 | A valid profile with one handle per device and fitting models reads back as itself; without local ids, with only those emptied. |
| ProfileRoundTrip.ProfilesRoundTripExactly | custom_components/device_links/yaml_io.py:150-189 | A valid profile survives storage if and only if it has one handle per device and every model fits its protocol. |
| ProfileExports.FirstIsFiled | custom_components/device_links/yaml_io.py:157-159 | Of several handles with one identity the data keeps what the first one says. |
| ProfileExports.WrittenProfilesReadAs | custom_components/device_links/yaml_io.py:150-189 | What any valid profile reads back as: no file at all if a first handle has another protocol's model, else the places of exactly the rules that have one device twice at one endpoint, else the profile with the first handle of each device standing for all. |
| ProfileExports.WrittenProfilesComeBackExactly | custom_components/device_links/yaml_io.py:150-189 | With and without local ids, a profile comes back if and only if the handles of a device agree in all that is written, every model fits, and no rule has one device twice at one endpoint. |
| ProfileExports.SecondNameIsForgotten | custom_components/device_links/yaml_io.py:157-159 | A valid profile that names its device twice, under two names, comes back with the first name in both places. |
| ProfileRoundTrip.ReadProfilesAreSound | custom_components/device_links/yaml_io.py:348-434 | Whatever the data, a profile that reads is valid, has one handle per device, and fitting models. |
| ProfileRoundTrip.ReadingSettles | custom_components/device_links/yaml_io.py:168-189 | What was read reads the same from what is written of it. |
| ProfileRoundTrip.RuleReadsBack | custom_components/device_links/yaml_io.py:384-434 | A written rule reads back as itself naming the described devices, or not at all if that is no valid rule. |

## Left out

- Home Assistant plumbing (entities, services, config flow, panel, repairs, events, listeners, diagnostics, WebSocket transport): glue over libraries that are not part of this model.
- Backend adapters and `backends/base.py`: abstract adversaries here; the executor only uses whether a backend's system entries reserve their whole slot.
- YAML and JSON text, storage files and migrations, timestamps, job ids, logging: library calls and I/O. Snapshots carry an empty id.
- Message texts of the profile reader, raw errors and reasons of write reports, and the scope line of a job: they decide nothing here.
- `hybrid.py`, `rule_toggle.py`, `profile_db.py`, `diff.py`, `tools/` and the frontend except `parseFingerprint`.
- `swap.find_replacements`, and the labels, endpoints and bases a mapping is shown with beyond what rewriting uses.
- Models.GroupOf: does not model the two errors of `Link.__post_init__` (a link from a device to itself, a group neither given nor named by its control): no compiled link meets them (`CompilerProperties.CompilationIsSound`). Digits are 0 to 9, while the program's pattern accepts those of other scripts.
- The apply of a swap comparing whole plan items, and the list of links a rollback removes that an enabled rule would put back.
- Which rules a finished job marks as applied: `Drift.StateOf` takes that set as given.
- Executor.Effect: does not model cancellation of the awaiting task in the middle of a gather, nor a device coroutine that raises; a timeout or exception of a write is its failure, one of a read is no answer.
- The loops over every backend and device of a full re-read, and the hold a job takes on its devices: each read, listing and loss is a step of its own, and the engine allows any of them between any two of a job's.
- Executor.Task: the coroutines interleave as steps on values, because steps of several coroutines have no sequential method; the stretches between awaits are the methods of `JobRunners.JobRunner`.
- ExecutorProperties.OneConversationPerDevice: does not speak of the coordinator's own reads of a device, which the hold defers only for change events.
- Refreshes.FlushesTakeOnlyWhatNobodyHolds: does not say that a device taken by a flush stays unheld until it is read, because a hold taken during the flush's own reads does not stop it.
- SwapProperties.SameModelSwapKeepsMeaning: speaks of sets of links, because two targets at one place of the replacement merge into one.
- CompilerProperties.CompilationIsSound: does not say a rule's links have distinct fingerprints, because two endpoints of one target may downgrade to the same link.
- Caches.IsScopedPlan: a rule-scoped plan is narrowed by the rule that last wanted a link, while ownership takes the first claim, so it may miss a link two rules share; nothing is claimed about completeness of a narrowed plan.
