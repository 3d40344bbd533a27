# Codlet core protocols

A Dafny model of the parts of Codlet that decide what runs, who may call whom, and what is on disk after a
crash. Every function, class and state machine follows one source file; the lemmas beside it say what the code
guarantees over all inputs, all reachable states or all interleavings.

- **Capability kernel** (`Ids`, `Capabilities`, `CapabilityCalls`, `CapabilityRegistry`): registrations, the capability index, active
  scopes and the shared epoch counter; principals and leases, and why a stale one never becomes current again.
- **Activation order** (`Graphs`, `Placement`, `Activation`, `CycleSearch`): Kahn's loop over least ready ids, exactly
  where it puts one node relative to another, and the depth-first search that names a cycle when the loop stalls.
- **Lifecycle planner** (`PluginGraph`, `GraphBuilding`, `Lifecycle`, `PluginOrder`, `OrderWitnesses`, `Generations`): the graph built
  from manifests, the closure of affected plugins, the projection of entry order to plugins, and generation numbers.
- **Crash-safe installation** (`ManagedTypes`, `Installation`, `InstallationSafety`, `InstallationTheorems`,
  `InstallationRuns`, `InstallationOutcome`, `FinalDisk`, `OldPackage`, `InstallationWitnesses`, `ManagedStorage`, `ManagedRecords`): the
  write-ahead journal over directory renames and a registry save, with a crash, an I/O failure or a change by another
  process after any durable step. `ManagedStorage.Storage` is the code
  in its own imperative form; each of its writes is shown to be one step of the machine in `Installation`.
- **OS broker** (`OsAuthorizations`, `OsRequests`): exact-generation tokens, the shared permit, delivery of results.
- **Client bridge** (`ClientBridge`): the epoch and receipt client against a peer that answers anything.
- **Package trees** (`Bytes`, `TreeDigest`, `TreeAmbiguity`): the hashed byte stream, the worklist, the copy.
- **Error stream scanner** (`StderrScanner`): the chunked search for one accepted line.
- **Windows restart bridge** (`RestartHook`, `ImportTable`): the lock-protected hook against its watcher, and the
  bounded walk over an image's import tables.

`dafny verify dfyconfig.toml` checks everything.

## Where the code does less than it looks

Each of these is a lemma: the code is modelled as it is, and the exact condition is proved.

- `order` does not always put a provider before its consumer. Of any two plugins the first is told exactly from the
  graph of their entries (`PluginOrders.PlacementIsExactFor`). Providers come first except in two cases:
  - the consumer has the reserved id `codlet.core.host` and stands where the built-in entry does: exactly the plugins
    whose home entry is reached from lesser ids only come before it (`PluginOrders.ReservedIdIsPlaced`, with a family
    of pairs in `OrderWitnesses.ReservedConsumerIsMisplaced`); the loader refuses to register that id (`src/plugins.rs:823-835`);
  - the offer is that of a combined plugin's host, which is ordered at entry level only
    (`PluginOrders.HostOffersComeFirst`, with a family of pairs in `OrderWitnesses.CombinedProviderIsMisplaced`).
- `commit` accepts every registration its journal lists, the previous and the candidate one included, so a commit
  can go ahead over a registration another writer put back (`InstallationTheorems.CommitGuard`, with runs that do so in
  `InstallationWitnesses.CommitOverPreviousIsReached`).
- The save that restores a registration compares source and grants only; an `enabled` preference switched between
  the check and the save is lost (`InstallationTheorems.RestoreGuard`, with runs in
  `InstallationWitnesses.LostPreferenceIsReached`).
- A rollback looks at the registration before it moves the files and again only when it saves. A registration that
  turns foreign in between stays, but the new package is deleted and the old one moved home under it
  (`InstallationRuns.TargetGoesUnlooked`, `InstallationRuns.BackupMovesUnlooked`, with runs in
  `InstallationWitnesses.LateForeignEntryIsReached`).
- If the staged directory was itself the registered one, a rollback's sweep that gets through loses the old package exactly
  when, at its look at the registry, no registered directory overlaps that one (`OldPackages.SweepKeepsOldIff`); a rolled-back
  transaction has lost its old package exactly then (`InstallationTheorems.AllOrNothing`), and no other step of any run
  ever takes it (`OldPackages.OldPackageIsKeptIff`). Whatever entry another writer saves between the restoring save and
  that look decides it (`InstallationWitnesses.OldPackageLossIsReached`).
- When a record's history is full, staging drops every older version, the one installed until then included
  (`ManagedRecords.OverflowKeepsOnlyTheNewVersion`).
- Where file names may contain a backslash, two different trees can hash alike. A tree has such a twin exactly when
  one of its recorded names reads as lying below one of its directories (`TreeAmbiguity.AmbiguousIffNested`); among
  trees without backslashes the stream determines the tree.
- The watcher hands the latest suppressed registration over exactly when its last section sees the stop flag or the
  owner's exit. If it left through a failed wait or a failed install while the owner lives, that registration is lost
  (`RestartHook.LatestIsHandedOver`, `RestartHook.RegistrationCanBeLost`).

## Model

| member | source | states |
|---|---|---|
| Ids.HostIdFacts | src/capabilities.rs:209-218 | A host entry's id parses back to its plugin, a plain id never does, and the host entry sorts after its plugin's |
| Ids.HostIdInjective | src/capabilities.rs:209-211 | Different plugins have different host entries |
| Ids.TextLessIsByteOrder | src/capabilities.rs:736-756 | The order of ready ids is that of their bytes: a proper prefix first, otherwise by the first difference |
| Capabilities.ReachableIsWellFormed | src/capabilities.rs:408-535 | After any run of operations the index is exactly the union of the registrations' offers with matching id, generation and epoch, and live epochs are distinct and issued |
| Capabilities.KeysAreExclusive | src/capabilities.rs:408-479 | In such a state no two registrations offer the same name and scope |
| Capabilities.StepKeepsWellFormed | src/capabilities.rs:408-535 | Every single operation, refused or not, keeps the index in agreement with the registrations |
| Capabilities.StepNeverReusesEpochs | src/capabilities.rs:829-835 | A registration or scope that carries an already issued epoch after a step is the one that carried it before |
| Capabilities.PrincipalRevocationIsPermanent | src/capabilities.rs:790-802 | A principal issued in one reachable state and stale in a later one is stale in every state after that, whatever is registered or activated again |
| Capabilities.LeaseRevocationIsPermanent | src/capabilities.rs:804-827 | The same for a lease, against replacement of consumer, provider and scope |
| Capabilities.CurrentLeaseImpliesCurrentOwner | src/capabilities.rs:804-855 | For issued tokens a current lease owned by a principal means the principal is current too, so the check before an action is enough |
| Capabilities.ReplacementRevokesForGood | src/capabilities.rs:502-535 | Unregistering the consumer or deactivating the scope makes an issued principal stale for every continuation |
| Capabilities.ProviderReplacementRevokesForGood | src/capabilities.rs:502-519 | Unregistering the provider makes an issued lease stale for every continuation, even if the same descriptor returns |
| CapabilityCalls.CallsRunUntilRevoked | src/capabilities.rs:631-659 | A call under an issued principal and a lease it resolved runs exactly if nothing since unregistered consumer or provider or deactivated the principal's scope or the provider's, which is the runtime's for a runtime need and otherwise the principal's own; otherwise the error says whether principal or lease is stale |
| CapabilityCalls.ProviderScopeRevokesForGood | src/capabilities.rs:804-827 | After its provider's scope is deactivated a lease is refused for every continuation, whatever is activated again |
| CapabilityCalls.LeaseServesItsOwner | src/capabilities.rs:845-855 | No principal but the one that resolved a lease can ever call with it |
| CapabilityCalls.ResolveIsExact | src/capabilities.rs:572-629 | A principal resolves until its consumer is unregistered or its scope deactivated; what it gets is told from declared needs, scopes active now and the offers registered now, with each refusal |
| CapabilityCalls.NeedIsMetByItsOffer | src/capabilities.rs:765-788 | A need finds the one registration that offers exactly it; an offer of another version is named as such, and no offer of the ability is a missing one |
| CapabilityCalls.RegisterIsExact | src/capabilities.rs:408-479 | Registration succeeds exactly on a valid, free id, a positive generation and abilities nobody has, adds itself alone, and a refused ability is the first one taken, with its owner |
| CapabilityCalls.UnregisterIsExact | src/capabilities.rs:502-519 | Exactly the one registration goes, and with it its offers: needs are met afterwards exactly by the others |
| CapabilityCalls.ActivateIsExact | src/capabilities.rs:521-535 | An inactive scope becomes active under the next epoch, deactivation takes exactly one scope, and nothing else changes |
| CapabilityCalls.ActivatedScopeIssues | src/capabilities.rs:537-570 | For a scope just activated a principal is issued exactly to a consumer registered in that generation, with its grants |
| CapabilityRegistries.CapabilityRegistry.RegisterProvider | src/capabilities.rs:408-479 | The new state is the specified one, and a refused registration changes nothing |
| CapabilityRegistries.CapabilityRegistry.RequireProviderBefore | src/capabilities.rs:483-500 | Adds the dependency or reports the missing party, unchanged |
| CapabilityRegistries.CapabilityRegistry.UnregisterProvider | src/capabilities.rs:502-519 | Removes the registration and exactly its keys; the answer says whether it existed |
| CapabilityRegistries.CapabilityRegistry.ActivateScope | src/capabilities.rs:521-531 | A scope gets a new epoch on every activation |
| CapabilityRegistries.CapabilityRegistry.DeactivateScope | src/capabilities.rs:533-535 | Removes the scope and says whether it was active |
| CapabilityRegistries.CapabilityRegistry.LinkDependencies | src/capabilities.rs:696-734 | Inserts a consumer below exactly its explicit dependencies and counts them, or names the least unregistered one |
| CapabilityRegistries.CapabilityRegistry.LinkNeeds | src/capabilities.rs:696-734 | Inserts a consumer below exactly the owners of its needs, counting an owner once, or reports the first need without a matching provider |
| CapabilityRegistries.CapabilityRegistry.BuildGraph | src/capabilities.rs:696-734 | The graph and counters are those of the registrations, or the first fault in id order is named |
| CapabilityRegistries.CapabilityRegistry.ResolveActivationOrder | src/capabilities.rs:696-763 | Succeeds exactly when every dependency and need is met and the graph is acyclic, with a permutation that is topological and lexicographically least; otherwise names the first fault or a real cycle |
| Activation.EdgesAreDeclared | src/capabilities.rs:709-733 | One entry waits for another exactly if it depends on it or needs an ability the other offers |
| Activation.SatisfiedIsOffered | src/capabilities.rs:709-733 | An entry is satisfied exactly if its dependencies are registered and every need is offered in that version |
| Activation.FaultsAreTrue | src/capabilities.rs:765-788 | Each reported fault is a fact about the registrations: the dependency is not there, nobody offers the ability, or the named owner offers the named other version |
| Activation.Kahn | src/capabilities.rs:736-756 | The loop emits the greedy order, each time the least node with nothing pending, and what it leaves out is stalled; counters never underflow |
| Graphs.GreedyIsLexLeast | src/capabilities.rs:736-756 | The greedy complete order is the least among all topological orders |
| Graphs.TopologicalMeansAcyclic | src/capabilities.rs:757-763 | A graph with a topological order has no cycle |
| Graphs.StalledIsNotRanked | src/capabilities.rs:865-915 | Stalled nodes cannot all be finished by a search that found no cycle |
| Placement.ReachesIsHavingAPath | src/capabilities.rs:736-756 | Reaching, defined by the sets closed under providers, is having a path of edges |
| Placement.GreedyPosition | src/capabilities.rs:736-756 | One node is emitted before another exactly when nothing that must come before the first can be overtaken: each such node is less than the other or goes no later than one of the other's providers |
| Placement.PlacementIsExact | src/capabilities.rs:736-756 | The same told from the graph without the order, as a condition on reachability and ids |
| Placement.BeforeASource | src/capabilities.rs:736-756 | Before a node that waits for nothing go exactly the nodes reached from lesser ones only |
| Placement.GreedyCompletes | src/capabilities.rs:736-763 | A graph that has any topological order has the greedy one |
| CycleSearches.CycleSearch.Visit | src/capabilities.rs:872-905 | Explores a node: either names distinct nodes whose consecutive and closing edges are in the graph, or completes it and restores the stack; the recursion ends |
| CycleSearches.FindDependencyCycle | src/capabilities.rs:865-915 | Whenever a set of nodes is stalled a cycle is returned and the statement after the loop is never reached |
| PluginGraphs.BuildCapabilityGraph | src/catalog.rs:283-345 | The registry built step by step from the manifests is the specified one, with the same first error; `GraphBuilding.CapabilityGraphIsExact` says when there is none |
| GraphBuilding.CapabilityGraphIsExact | src/catalog.rs:283-345 | A plugin set builds a graph exactly if its entries have distinct new owners and positive generations, no two offers name the same ability, built-in ones included, and all hosts together offer the launch ability at most once |
| GraphBuilding.LaunchConflictIsNamed | src/catalog.rs:303-316 | The host that is second to offer the launch ability is refused, and the error names both owners |
| GraphBuilding.DoubleLaunchIsNamed | src/catalog.rs:303-316 | A host that offers it twice conflicts with itself |
| GraphBuilding.HostIsAwaitedIff | src/catalog.rs:338-345 | A renderer waits for its host exactly if the host has more to do than offer the launch ability |
| PluginGraphs.CapabilityGraphMirrors | src/catalog.rs:283-345 | The graph holds exactly the built-in entry and the declared entries of every plugin, and its only explicit edges put a combined plugin's host before its renderer |
| PluginGraphs.CapabilityGraphWithin | src/catalog.rs:283-345 | Leaving plugins out succeeds whenever the whole set does and gives the sub-registry of the entries kept |
| Lifecycle.DependentClosure | src/plugin_lifecycle.rs:65-93 | The loop ends with the least set that contains the root and every plugin needing something its members offer |
| Lifecycle.RemovalKeepsResolving | src/plugin_lifecycle.rs:65-93 | If a plugin set resolves, removing a closed set leaves one that resolves: no missing need, wrong version or cycle |
| Lifecycle.RemovableIffClosed | src/plugin_lifecycle.rs:65-93 | For a resolving plugin set whose renderers do not offer the native launch ability, a subset can be removed exactly when it is closed |
| Lifecycle.ClosureIsLeastRemovable | src/plugin_lifecycle.rs:65-93 | Under the same condition the closure is the least removable set that contains the root |
| PluginOrders.Order | src/plugin_lifecycle.rs:240-266 | Succeeds exactly when the plugins resolve, which includes that their graph can be built, with the projection of the least entry order; otherwise with the graph's own error, the first fault or a real cycle |
| PluginOrders.EachPluginOnce | src/plugin_lifecycle.rs:240-266 | For distinct ids the result holds every plugin exactly once |
| PluginOrders.PlacementIsExactFor | src/plugin_lifecycle.rs:240-266 | Of any two plugins exactly which comes first, as a condition on the graph of entries |
| PluginOrders.ProvidersComeFirst | src/plugin_lifecycle.rs:240-266 | A plugin that offers what another needs comes before it if and only if the offer is its renderer's or it is host-only and the consumer does not have the reserved id, or the graph puts its home entry first |
| PluginOrders.ReachingComesFirst | src/plugin_lifecycle.rs:246-264 | A plugin whose home entry must come before another's always precedes it |
| PluginOrders.HostOffersComeFirst | src/catalog.rs:317-343 | What a combined plugin's host offers is ordered at entry level: the host entry precedes the entry that needs it in every activation order |
| PluginOrders.ReservedIdIsPlaced | src/plugin_lifecycle.rs:246-264 | Exactly the plugins reached from entries less than the built-in one only come before a plugin of the reserved id |
| OrderWitnesses.ReservedConsumerIsMisplaced | src/plugin_lifecycle.rs:246-264 | A reserved consumer and a plugin whose renderer offers what it needs always order, and the provider comes first exactly if its id is less than the reserved one |
| OrderWitnesses.CombinedProviderIsMisplaced | src/plugin_lifecycle.rs:253-259 | A renderer that needs a combined plugin's host offer and offers what that plugin's renderer needs always orders before it |
| Generations.Prepare | src/plugin_lifecycle.rs:180-229 | Works on a copy: a failed plan leaves the map unchanged, a successful one publishes exactly the generations it handed out |
| Generations.Rollback | src/plugin_lifecycle.rs:315-329 | Takes generations from the live map in order; what a failed rollback took stays taken |
| Generations.AllocateIsExact | src/plugin_lifecycle.rs:157-170 | An allocation is complete exactly if every plugin is admitted and has a next generation, and stops at the first that is not; each before it got the generation after its last one |
| Generations.HostStartIsExact | src/host_control.rs:655-666 | A host start hands out exactly the next generation, unless it would be an identity too many or there is none left |
| Generations.ObservingIsExact | src/host_control.rs:294-306 | An observed generation in range raises the plugin's last one to at least itself and hands out nothing |
| Generations.NeverHandedOutTwice | src/plugin_lifecycle.rs:157-170 | Over every run of plans, rollbacks, host starts and observed generations no (plugin, generation) pair is handed out twice and values stay in 1 to 2^53-1 |
| Generations.HandedOnceFromStart | src/host_control.rs:655-666 | The same from the empty map, host starts bounded by the identity limit included |
| InstallationTheorems.AllOrNothing | src/managed_storage.rs:180-300 | In every state of every run with crashes anywhere and changes by others, a rolled-back transaction left the old package at its path, except exactly one staged in place that its sweep saw unprotected, and a committed one the new package at the target; the registration is the previous or the new one unless others changed it |
| InstallationTheorems.OldPackageSurvives | src/managed_storage.rs:251-300 | Until a committed journal is on disk the old package exists at its own path or in the backup, unless it was staged in place and the last sweep, after a change by others, saw it unprotected |
| OldPackages.AdvanceKeepsOldIff | src/managed_storage.rs:326-450 | Before the commit a step of the protocol keeps an old package registered away from the target exactly if it is not the cleaning step that takes it |
| OldPackages.OldPackageIsKeptIff | src/managed_storage.rs:180-450 | From the beginning of any transaction, over every run short of a commit, that package is there exactly if no cleaning step took it |
| OldPackages.SweepKeepsOldIff | src/managed_storage.rs:430-450 | A rollback's sweep keeps an old package staged in place exactly if some directory registered when it looks overlaps the package's |
| OldPackages.SweepKeepsOthers | src/managed_storage.rs:430-450 | Every other old package it keeps, whatever is registered |
| InstallationTheorems.OtherEntriesUntouchedByRuns | src/managed_storage.rs:285-287 | No run of the protocol changes another plugin's registration |
| InstallationTheorems.RecoveryCompletes | src/managed_storage.rs:483-514 | From every restorable crash state of an uncommitted transaction, whatever others did before, undisturbed recovery ends with the journal gone, exactly the previous entry registered and the old package back |
| InstallationRuns.RecoveryFinishesIff | src/managed_storage.rs:313-365 | Recovery gets through exactly on restorable states, whatever the packages are |
| FinalDisks.RecoveryFinishesExactly | src/managed_storage.rs:313-398 | In full: the journal lists the registration; the package in the backup, or else at the registered path, has source and manifest of the version the previous record names, or verifies as the installer's if there is no record; and every copy that is to go is the plugin's own |
| InstallationRuns.UndisturbedRecoveryCompletes | src/managed_storage.rs:483-514 | In runs nobody disturbs, if the packages are those their records describe, every crash state with an uncommitted journal is restorable, so recovery always completes |
| FinalDisks.UndisturbedCommitCompletes | src/managed_storage.rs:489-501 | In runs nobody disturbs, whose superseded directories are the plugin's own and whose adopted seed nothing overlaps, recovery from every crash state with a committed journal ends with the journal gone, the new package at the target, the new entry registered, and of the directories exactly those gone that the commit superseded |
| FinalDisks.CommittedDiskIsExact | src/managed_storage.rs:399-450 | After a commit exactly these directories are gone: staged copies, backup and retained versions that are neither the target nor around or inside a registered directory, and the adopted seed |
| FinalDisks.RolledBackDiskIsExact | src/managed_storage.rs:326-365 | After a rollback the target holds what was in the backup, or what stood there if it was the old one, or nothing; backup and unprotected copies are gone and all else is as before |
| FinalDisks.RecoveryLeavesFinalDisk | src/managed_storage.rs:483-514 | Whenever recovery is through, the disk is the final one of the journal it found |
| FinalDisks.OverlappingIsNesting | src/managed_storage.rs:434-441 | Two directories overlap exactly if one path continues the other |
| InstallationTheorems.CheckpointRecoveryCompletes | src/managed_storage.rs:516-543 | A checkpoint whose entry is still registered is undone or dropped, and no package is touched |
| InstallationOutcome.RecoveryHasOneOutcome | src/managed_storage.rs:454-514 | However often recovery is started, stopped, failed or crashed, the disk keeps heading for the same end, committed or not, and is exactly that end when the journal goes |
| InstallationTheorems.NoCheckpointBehindCommit | src/managed_storage.rs:252-254 | In every reachable state a checkpoint is left only while no directory has moved, and none is left once the new entry is saved |
| InstallationTheorems.NoCheckpointAtFinish | src/managed_storage.rs:399-406 | A transaction never finishes committed while a checkpoint could undo it |
| InstallationRuns.ForeignEntryStaysWhileOpen | src/managed_storage.rs:313-325 | Over every run of an open transaction a registration that is none of its own is never written over |
| InstallationRuns.ForeignEntryStopsRecovery | src/managed_storage.rs:326-335 | Over every run of recoveries, steps, failures, crashes and requests, a registration the open journal does not list, or a previous package that is gone or changed, keeps the whole disk as it is |
| InstallationRuns.TargetGoesUnlooked | src/managed_storage.rs:326-352 | Once the registration was found allowed, the directory at the target goes exactly if the packages allow it, whatever is saved in between |
| InstallationRuns.BackupMovesUnlooked | src/managed_storage.rs:326-352 | So does the backup move home, and the registration stays what it became |
| InstallationRuns.ForeignEntryKeepsCheckpoint | src/managed_storage.rs:87-100 | Until a new transaction begins no run undoes a registration the checkpoint does not know, nor forgets the checkpoint |
| InstallationTheorems.RestoreGuard | src/managed_storage.rs:326-365 | The restoring save goes ahead exactly when the registered source and record are as loaded |
| InstallationTheorems.InstallationIsChecked | src/managed_storage.rs:258-287 | The transaction goes on exactly if what was moved in has source and manifest of the candidate's version, and saves exactly if source and grants are those it was based on |
| InstallationTheorems.CheckpointIsDroppedIff | src/managed_storage.rs:87-100 | A checkpoint is dropped exactly for one of its own two entries; otherwise the transaction stops before any file moves |
| InstallationWitnesses.LostPreferenceIsReached | src/managed_storage.rs:326-365 | From every initial state with an update there is a run in which a preference switched after the check is overwritten |
| InstallationWitnesses.LateForeignEntryIsReached | src/managed_storage.rs:326-352 | And one in which the files go back under a registration that turned foreign after the check |
| InstallationWitnesses.OldPackageLossIsReached | src/managed_storage.rs:430-450 | From every state staged in place and for every entry saved before the sweep looks, a run that ends with that entry registered, and with the old package exactly if the entry protects its directory |
| InstallationWitnesses.StagedInPlaceExists | src/managed_storage.rs:180-250 | Such states exist for every plugin and any three directories |
| InstallationWitnesses.PublishInstalls | src/managed_storage.rs:180-300 | With nobody interfering a transaction that can begin, and whose packages match, is installed, with exactly this disk |
| InstallationWitnesses.UpdateExists | src/managed_storage.rs:180-250 | Such updates exist for every plugin and any four directories |
| InstallationTheorems.CommitGuard | src/managed_storage.rs:399-400 | A commit goes ahead exactly on the staged, the previous or the new entry, or the new one enabled if that was asked for |
| InstallationWitnesses.CommitOverPreviousIsReached | src/managed_storage.rs:244-247 | From every initial state with an update there is a run that commits the new package over the previous entry |
| InstallationTheorems.CleanupSpares | src/managed_storage.rs:430-450 | A cleanup step removes its one directory exactly if that is this plugin's, not the target and not overlapping a directory registered when the sweep loaded the registry, and touches nothing else |
| InstallationTheorems.SeedGoesIff | src/managed_storage.rs:417-428 | The adopted installer package goes exactly if it still verifies and no registered directory overlaps it |
| InstallationTheorems.RollbackRestores | src/managed_storage.rs:326-365 | Four steps of rollback bring back files and registration, write this entry alone and touch only target and backup |
| InstallationSafety.StepKeeps | src/managed_storage.rs:180-543 | Every durable step, failure, crash, recovery start and outside change keeps the phase invariant |
| ManagedStorage.Storage.Publish | src/managed_storage.rs:180-300 | Publishing is refused exactly, and before anything is written, if a journal is open, the staged package is missing, or the target is somebody else's or changed; success leaves the new package at the target, the old one in the backup, and the rewritten entry in the registry, and nothing else changed |
| ManagedStorage.Storage.Rollback | src/managed_storage.rs:326-365 | Success means journal gone, previous entry registered, the old package at the target and exactly the unprotected copies gone; a foreign entry means nothing was changed |
| ManagedStorage.Storage.CommitInstallation | src/managed_storage.rs:399-406 | Success means committed, journal gone, the registry as it was, and of the directories exactly those gone that the commit superseded; an entry not listed means nothing was changed |
| ManagedStorage.Storage.CleanPaths | src/managed_storage.rs:430-450 | The sweep visits every obsolete path under one loaded registry and leaves the registry alone |
| ManagedStorage.Storage.CheckpointRegistration | src/managed_storage.rs:50-85 | Writes the checkpoint only when neither a journal nor a checkpoint exists |
| ManagedStorage.Storage.RecoverJournal | src/managed_storage.rs:483-514 | A recovery of one journal, each write one machine step: it ends with the final disk of that journal, after a commit with exactly the superseded directories gone, or keeps it and still heads for that disk |
| ManagedStorage.Storage.RecoverCheckpoint | src/managed_storage.rs:516-543 | A recovery of one checkpoint, each write one machine step: the candidate is replaced, the previous entry drops it, any other entry keeps it, and nothing else changes |
| ManagedStorage.Storage.PrepareInstallation | src/managed_storage.rs:454-543 | Success means the disk is exactly that of the settled journal and then the settled checkpoint; a journal that stays keeps heading for its disk |
| ManagedRecords.StagingKeepsRecordsValid | src/managed_plugins.rs:422-444 | Staging a version keeps 1 to 64 versions, unique keys and a present current version that matches the registered path |
| ManagedRecords.OverflowKeepsOnlyTheNewVersion | src/managed_plugins.rs:422-440 | A full history is replaced by the new version alone; otherwise it only grows |
| ManagedRecords.StagingIsExact | src/managed_plugins.rs:371-444 | Staging goes ahead exactly for the plugin's own package into an unregistered entry, over an unmanaged installer package, or from the same repository over an installed version, which a rollback must retain; the result is given in full |
| ManagedRecords.SameRepositoryIsExact | src/managed_plugins.rs:567-577 | Sources agree exactly if owner, name and address do but for ASCII case and no recorded number is missing or other |
| ManagedRecords.PublicationIsExact | src/managed_plugins.rs:446-497 | A publication needs the package that is installed and leaves one version at the new path |
| ManagedRecords.UnregisteringIsExact | src/plugins.rs:810-821 | Unregistering forgets the path and the current version and keeps the retained ones |
| ManagedRecords.RecordsStayValid | src/managed_plugins.rs:58-92 | Every sequence of stages, installations, preference changes and unregistrations keeps the record valid |
| ManagedRecords.SourceIdentityIsKept | src/managed_plugins.rs:567-577 | Through any updates, rollbacks and installations the repository stays the same, recorded numeric ids included |
| ManagedRecords.StagedEntriesCanBegin | src/managed_plugins.rs:371-444 | What staging admits has the shape the installation protocol asks for |
| ManagedRecords.RestorePrevious | src/managed_plugins.rs:528-565 | Writes exactly if the candidate was loaded and source and grants are still its own when the save looks again; otherwise leaves the registry and says why |
| OsAuthorizations.OneLiveAuthorization | src/os_broker.rs:166-243 | In every reachable state at most one granted token of a plugin is live and it carries the highest generation granted |
| OsAuthorizations.GenerationsIncrease | src/os_broker.rs:222-228 | Every grant raises its plugin's generation |
| OsAuthorizations.NeverRevived | src/os_broker.rs:245-282 | A token that is not live, or gone, is never live again |
| OsAuthorizations.ReportedAtMostOnce | src/os_broker.rs:263-282 | No (plugin, generation) pair is reported twice in any run |
| OsAuthorizations.OwnerTable.PublishToken | src/os_broker.rs:217-243 | Goes ahead exactly on a generation above the owner's, or a free place for a new identity; then the token is granted and owned, the one before it silent and everything else as it was; otherwise it is gone and nothing changed |
| OsAuthorizations.OwnerTable.RevokeChanged | src/os_broker.rs:263-282 | Afterwards exactly the tokens whose grant is not the registered one are silent and marked, every other token is as it was, and the answer names those of them not reported before |
| OsAuthorizations.PrepareIsExact | src/os_broker.rs:166-216 | A token comes into being exactly while the broker is open, for a generation in range whose recorded grant is registered |
| OsAuthorizations.NothingAfterClosing | src/os_broker.rs:166-169 | Over every run of a closed broker no token comes into being |
| OsAuthorizations.RevokeOwnerIsExact | src/os_broker.rs:245-259 | Exactly the token of that plugin and generation is silenced |
| OsRequests.RetainedCountsPermits | src/os_broker.rs:318-357 | In every reachable state the counter equals reservations plus permits out, at most 16, and never underflows |
| OsRequests.AdmissionIsExact | src/os_broker.rs:318-325 | A request is turned away for capacity exactly when sixteen are out |
| OsRequests.SlotIsHeldUntilBothLetGo | src/os_broker.rs:326-357 | Over every run a permit is out exactly until both its handle and its queued work have let go of it |
| OsRequests.Operation.TryResult | src/os_broker.rs:390-419 | One poll delivers at most once, after completion, and then gives up its share of the permit; what it says is given by cases |
| OsRequests.DeliversOnceWithFirstCause | src/os_broker.rs:390-419 | Over any polls only the first after completion answers: incomplete cleanup as it is, otherwise the first fault a guard saw up to then, otherwise the fault of the moment, and only otherwise the result |
| ClientBridge.SourceRuntime.AwaitReceipt | src/client_bridge.rs:403-421 | An uncertain operation is only asked about, never sent again, until the first answer that is not pending; it counts exactly if it knows the operation |
| ClientBridge.SourceRuntime.Replace | src/client_bridge.rs:368-515 | Against any peer: the change is sent at most once, and what follows is told from the answer that settles it: recorded and successful exactly for an applied one that is believed and names the requested provider, every other outcome with its error and state; nothing that is not believed stays recorded |
| ClientBridge.SourceRuntime.Judge | src/client_bridge.rs:433-515 | The outcome of a settled change in full, with the revocation that follows lost authority |
| ClientBridge.SourceRuntime.RevokeAuthority | src/client_bridge.rs:469-484 | The lease outlives a revocation exactly if the peer confirms it with the next epoch |
| ClientBridge.RecordedExactly | src/client_bridge.rs:433-466 | A reply is recorded exactly if its verdict is known, its epoch the one that verdict comes with, its owner nobody, the requested or the recorded provider, and its activation valid; otherwise provider and lease are gone |
| ClientBridge.SourceRuntime.RetireIfAffected | src/client_bridge.rs:528-537 | An affected provider is cleared, anything else is left alone |
| ClientBridge.SourceRuntime.CompleteStartup | src/client_bridge.rs:299-367 | Success records nobody or exactly the provider started with, and only on an applied receipt of epoch zero with a valid activation; readiness is sent once and first, then only queried, and at most the one change that clears the provider follows |
| ClientBridge.ReadyIsSentOnce | src/client_bridge.rs:303-312 | So no later command of a startup is a readiness |
| ClientBridge.AcceptFacts | src/client_bridge.rs:433-466 | An accepted reply moves the epoch exactly as its verdict says; any other records nothing |
| ClientBridge.RepliesFacts | src/client_bridge.rs:433-466 | Over any series of replies the epoch counts the accepted changes and a lost lease stays lost |
| TreeDigest.Walk | src/github_distribution.rs:1338-1383 | The worklist reads every covered entry exactly once, in whatever order directories list theirs, and ends |
| TreeDigest.CollectItems | src/github_distribution.rs:1338-1384 | Succeeds exactly when names are valid, distinct without case and at most 2048 and the files together at most 64 MiB, with the list sorted by name |
| TreeDigest.ListedIsExact | src/github_distribution.rs:1346-1355 | Left out of the digest is the receipt at the root and nothing else at any depth |
| TreeDigest.FoldedAlike | src/github_distribution.rs:1357-1362 | Names count as the same exactly if they differ at most in the case of ASCII letters |
| TreeDigest.LengthsReadBack | src/github_distribution.rs:1385-1394 | A length is written least significant byte first |
| TreeDigest.ClonePackage | src/github_distribution.rs:1129-1152 | The copy holds exactly the covered entries with the same contents |
| TreeDigest.CopyHasSameStream | src/github_distribution.rs:1153-1161 | The copy hashes to the same stream as its source |
| TreeDigest.EncodeInjective | src/github_distribution.rs:1385-1394 | The tagged, length-prefixed stream determines the list of items |
| TreeDigest.StreamDeterminesTree | src/github_distribution.rs:1338-1396 | For accepted trees without backslashes in names, equal streams mean equal covered trees |
| TreeDigest.StreamIsCanonical | src/github_distribution.rs:1384 | A tree has one stream whatever order its directories are listed in |
| TreeDigest.BackslashIsAmbiguous | src/github_distribution.rs:1348-1353 | A file called with a backslash next to a directory reads like a file inside it |
| TreeAmbiguity.AmbiguousIffNested | src/github_distribution.rs:1348-1353 | A tree shares its stream with a different tree exactly when one of its names reads as lying below one of its directories |
| TreeAmbiguity.TwinIsAccepted | src/github_distribution.rs:1356-1366 | The checks on names and numbers accept such a twin too |
| StderrScanner.Drain | src/client_stderr.rs:160-201 | For every way of cutting a stream of at most 65536 bytes exactly one message is sent, whatever is done to the startup capture: the first accepted line, or that there is none |
| StderrScanner.CaptureIsWhatWasRead | src/client_stderr.rs:174-177 | Since the startup capture was last switched on it holds the first 65536 bytes read since then |
| StderrScanner.CutsDoNotMatter | src/client_stderr.rs:168-197 | The verdict depends on the concatenated stream only |
| StderrScanner.FirstAcceptedIsFirst | src/client_stderr.rs:187-196 | The line found is the first newline-terminated one of the stream that is accepted, and none is found exactly if there is none |
| StderrScanner.LimitIsExact | src/client_stderr.rs:180-186 | Past the limit the answer is a line accepted within it, if there was one, and otherwise that the limit is exceeded |
| StderrScanner.SearchResumes | src/client_stderr.rs:187-196 | Searching what is pending after new bytes finds what searching the whole stream finds |
| RestartHook.LatestIsHandedOver | native/windows-restart-bridge.c:153-157 | In every interleaving the watcher hands over exactly the latest suppressed registration if its last section sees stop or exit, and nothing otherwise; stop always leads there, exit unless the last wait breaks |
| RestartHook.CallIsJudgedExactly | native/windows-restart-bridge.c:34-62 | A call is suppressed exactly if the hook is enabled, nobody asked to stop, the owner is found alive, the command fits, and unregistering and signal succeed; it fails exactly if only the unregistering does not; every other call is passed on |
| RestartHook.NoCallIsTakenWhenOver | native/windows-restart-bridge.c:34-62 | Over every run after the stop flag or the owner's exit, with no call past that test, none is suppressed or failed |
| RestartHook.LastSectionIsExact | native/windows-restart-bridge.c:153-157 | The saved registration is handed over exactly on the stop flag or a signalled owner |
| RestartHook.LoopsEndExactly | native/windows-restart-bridge.c:135-152 | The watcher leaves its loops exactly on the stop flag, the owner's exit or a broken wait, each under its own name |
| RestartHook.RestoreIsExact | native/windows-restart-bridge.c:158-167 | The slot is given back exactly if this hook put itself there and is there still |
| RestartHook.SwapIsExact | native/windows-restart-bridge.c:123-134 | The hook goes in exactly where the original still is, and only into the updater |
| RestartHook.EveryCallIsAccountedFor | native/windows-restart-bridge.c:34-62 | Every hook call is in exactly one place: suppressed, failed, passed on, or still inside |
| RestartHook.LaterCallsPassThrough | native/windows-restart-bridge.c:153-157 | After the watcher's last section nothing is suppressed, failed or replayed any more and every later call is passed on |
| RestartHook.HookIsAlwaysSafe | native/windows-restart-bridge.c:34-62 | Whenever the hook runs the original function is known, and a saved command fits its buffer |
| RestartHook.ForeignPatchStays | native/windows-restart-bridge.c:158-167 | A slot somebody else patched is never written again |
| RestartHook.RegistrationCanBeLost | native/windows-restart-bridge.c:127-157 | With the owner alive, a failed install after the swap loses a registration suppressed in between |
| ImportTable.FindSlot | native/windows-restart-bridge.c:90-122 | A slot is found exactly when every thunk reached is readable inside the image without wrap-around and exactly one of them imports the function, in a slot still bound to it |
| ImportTable.ScanArray | native/windows-restart-bridge.c:101-120 | One descriptor's arrays leave the search as it was, add the one usable slot, or refuse the image |
| ImportTable.LayoutIsExact | native/windows-restart-bridge.c:94-98 | Numbers are little-endian and a descriptor's fields stand at offsets 0, 12 and 16 of its twenty bytes |
| ImportTable.ThunkIsExact | native/windows-restart-bridge.c:99-108 | A thunk has eight bytes in either array, all inside the image |
| ImportTable.WantedIsExact | native/windows-restart-bridge.c:109-114 | A thunk imports the function exactly if its name, with the terminator, stands two bytes past where it points |

## Left out

- Files, JSON and hashing: packages, registries, journals and checkpoints are values, a digest is the value it digests, and links and reparse points do not occur.
- Removing a directory tree and saving the registry are single steps; a half-removed directory is not modelled.
- The loops over all journals and checkpoints: the machine follows one plugin, other plugins' entries change only as outside saves.
- The migration of older layouts at startup (`src/managed_storage.rs:545-593`): it is one more run of publish and commit from a registered package.
- The sweep's order: obsolete paths are visited as listed, not sorted and without duplicates removed; a path already gone is skipped either way.
- ManagedStorage.Storage.Publish: the names of the temporary directories are arguments that no directory has yet. No outside change happens inside one call; changes between any two steps are covered on the machine in `Installation`.
- InstallationTheorems.AllOrNothing: if others change this plugin's registration, only packages and not entries are promised; when the old package was already missing at the target, a rollback may leave the new one there.
- InstallationRuns.UndisturbedRecoveryCompletes: assumes that the packages are those their records describe; `InstallationRuns.RecoveryFinishesIff` has no such assumption.
- Outside writes to the target, ready, backup and old directories of a transaction that is open: `OthersWrite` leaves them out, as those directories are the protocol's own; every other directory and every registration may change at any moment.
- FinalDisks.UndisturbedCommitCompletes: assumes that the directories of the superseded history belong to the plugin and that no other registration overlaps the adopted installer package; otherwise the sweep stops at the first that does not, and the journal stays.
- InstallationTheorems.CleanupSpares: a directory registered after the sweep loaded the registry is not protected.
- Lifecycle.RemovableIffClosed: takes from the loader that only hosts declare the native launch ability; the graph never registers that ability for a host. `Lifecycle.RemovalKeepsResolving` needs no such condition.
- The registry's endpoint actions: `invoke` is the guard before an action, and what an action does is not part of this model.
- Exhausting the 64-bit epoch counter is an error here and aborts the program there.
- Capability names and API versions: their own validation rules are not modelled, descriptors compare by value.
- Disabling closures, preferences, snapshot trust and re-verification (`src/plugin_lifecycle.rs:95-153,268-312,331`): single-pass checks over what is modelled.
- Observed generations outside 1 to 2^53-1 are not merged: what is observed was handed out before.
- Which plugins a plan reloads and the checks on each are parameters of `Generations.Prepare`.
- The numeric aliases and legacy ids of the graphical plugin.
- OS endpoints, deadlines and the worker threads: a guard's verdict and the channel's content are inputs of a poll, and time is any number of polls.
- OsAuthorizations.OwnerTable.RevokeChanged: runs with the owner table locked; other threads' changes to a token between two owners are covered by the steps of `OsAuthorizations.Step`.
- The client bridge's transport, lease acquisition and bootstrap: a reply is any value and a deadline is any number of queries.
- Archive extraction and the rules for portable names: a predicate on names that is only known to imply short ASCII names.
- Reading package metadata and receipts, and network access to GitHub.
- The accepted inspector line is any predicate, and reads never fail half-way.
- Finding the import directory in the image headers, and 32-bit images.
- Waits and handles of the restart bridge: a wait answers timeout only before the owner's exit, signals only after it, and may break at any time.
- The foreground permission, the event's other side and the log.
