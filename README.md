# Stonehenge kernel and room bookkeeping in Dafny

This project models two parts of the Stonehenge Screeps bot:

- **The kernel.** It covers both kernels the repository carries:
  - the tick-driven kernel of `src/core/kernel`: a process table keyed by pid, heat-ordered scheduling under a CPU budget, cascading kills, and saving/loading the process table to and from game memory;
  - the earlier queue kernel of `src/kernel`: three priority queues drained from the back, sleeping processes woken by the game clock, and a `killProcess` whose child loop never fires.
- **The bookkeeping rules of the game layer:**
  - the structure queries and the construction-site categories;
  - the builder's state rule;
  - the creep manager's role choice and creep naming;
  - the two `Memory.guid` counters;
  - the creep-builder module;
  - the room initialisers and creep-memory clean-ups;
  - the memory-cleaner process.

Each component is written in the form its source has:

- Objects whose fields are updated in place are `class`es with `modifies` clauses. These are:
  - the two kernels, the process registry and a process's cached memory;
  - the game `Memory`, the builder's creep memory, and the room orchestrator and manager.
- Each loop of the source is a `while` loop with invariants, proved against a value-level specification function.
- Pure selection rules are functions. Their lemmas state what the source promises.

Game objects are plain records, for example a structure's type tag, energy, capacity and store total. JavaScript values held in memory are the datatype `GameMemory.Value`, with JavaScript truthiness.

Inputs that come from the game or from code that is not modelled are parameters:

| Source | Parameter |
|---|---|
| `Game.cpu.getUsed()` | CPU readings `used(k)`, one per loop iteration |
| a process's `run()` | an outcome per pid |
| `canCreateCreep` / `createCreep` | functions in `Creeps.World` |
| `getLargestBuildableBodyFromTemplate` | a function of the template |
| `isNearTo` | a predicate |
| `Game.creeps` | a set of names |
| `room.memory` | the entry `Memory.rooms[roomName]` of the game `Memory` |
| `Game.time` | an integer |

## Model

| member | source | states |
|---|---|---|
| `Base.IntToString` | src/room/creep/creepManager.ts:173 | the decimal text of a guid is never empty and has no sign for a non-negative guid |
| `Base.IntToStringDigits` | src/room/creep/creepManager.ts:173 | the text of a non-negative number consists of decimal digits only |
| `Base.IntToStringInjective` | src/room/creep/creepManager.ts:173 | two non-negative numbers with the same decimal text are equal |
| `ProcessTypes.BelowRunIsDead` | src/core/kernel/kernel.ts:99 | `status < RUN` holds exactly for TERM and EXIT, `status >= RUN` exactly for RUN |
| `ProcessTypes.DeclareProcessClass` | src/core/kernel/process.ts:57 | a class's base heat is its own override, or 10 if it has none |
| `ProcessTypes.NewProcess` | src/core/kernel/process.ts:74-79 | a new process is RUN, with the given pid and parent and its class's base heat and name |
| `Registry.Lookup` | src/core/kernel/processRegistry.ts:18-20 | a lookup finds a constructor exactly when the name is registered |
| `Registry.ProcessRegistry.Register` | src/core/kernel/processRegistry.ts:14-16 | the constructor is stored under its own class name, overwriting any earlier one |
| `Registry.ProcessRegistry.Fetch` | src/core/kernel/processRegistry.ts:18-20 | fetch returns the stored constructor, or undefined for an unknown name |
| `Registry.FetchAfterRegister` | src/core/kernel/processRegistry.ts:14-20 | after registering a constructor, fetching its name returns it |
| `Registry.LastWriterWins` | src/core/kernel/processRegistry.ts:14-16 | of two registrations under one name the second wins |
| `Registry.RegisterLeavesOthers` | src/core/kernel/processRegistry.ts:14-16 | registering does not change what other names resolve to |
| `Registry.FetchUnregistered` | src/core/kernel/processRegistry.ts:18-20 | a name never registered fetches nothing |
| `Registry.RegisterKeepsConsistent` | src/core/kernel/processRegistry.ts:14-16 | registering keeps every entry stored under its own constructor's name |
| `KernelSpec.RemoveKeys` | src/core/kernel/kernel.ts:166-171 | deleting memory entries removes exactly those keys, and does nothing without a dictionary |
| `KernelSpec.RemoveKeysTwice` | src/core/kernel/kernel.ts:166-171 | deleting memory entries in two rounds equals deleting them together |
| `KernelSpec.DoomedAreLive` | src/core/kernel/kernel.ts:246-248 | a kill removes only processes running at the time of the kill |
| `KernelSpec.NotLiveNothingDoomed` | src/core/kernel/kernel.ts:247-248 | killing a pid that is absent or not running removes nothing |
| `KernelSpec.LiveIsDoomed` | src/core/kernel/kernel.ts:246-251 | killing a running process removes that process |
| `KernelSpec.DoomedClosed` | src/core/kernel/kernel.ts:254-258 | a running child of a removed process is removed too |
| `KernelSpec.DoomedLeast` | src/core/kernel/kernel.ts:246-258 | the removed set is the least set that contains the target and is closed under running children |
| `KernelSpec.DoomedShrinks` | src/core/kernel/kernel.ts:246-258 | a kill in a smaller table never reaches further |
| `KernelSpec.DoomedTransitive` | src/core/kernel/kernel.ts:254-258 | what the recursive kill of a removed child removes, the parent's kill removes too |
| `KernelSpec.KillTableCharacterised` | src/core/kernel/kernel.ts:246-259 | a kill only removes records and changes none it keeps; a running target is removed; a record that is not running is never removed; a running child of a removed record is removed too |
| `KernelSpec.Serialize` | src/core/kernel/kernel.ts:102-107 | a saved entry carries the record's pid, parent pid, class name and heat |
| `KernelSpec.LoadEntry` | src/core/kernel/kernel.ts:319-330 | an entry of a registered class adds a fresh running process of that class with the saved heat; an unregistered one is skipped |
| `KernelSpec.LoadTableContents` | src/core/kernel/kernel.ts:79-94 | loading distinct registered entries gives one running record per entry, with its pid, parent, heat and class |
| `KernelSpec.LoadTableWellKeyed` | src/core/kernel/kernel.ts:79-94 | a loaded table stores every record under its own pid |
| `KernelSpec.SaveAfterLoad` | src/core/kernel/kernel.ts:79-111 | saving a freshly loaded table writes back exactly the entries it was loaded from |
| `KernelSpec.RunningPart` | src/core/kernel/kernel.ts:98-101 | the running part keeps exactly the running records, unchanged |
| `KernelSpec.LoadAfterSave` | src/core/kernel/kernel.ts:79-111 | reloading the saved entries of a well-keyed table of registered processes gives back its running part |
| `KernelSpec.DeadNotSaved` | src/core/kernel/kernel.ts:99-101 | no saved entry belongs to a record that is not running |
| `KernelSpec.TryRun` | src/core/kernel/kernel.ts:340-358 | an orphan is marked EXIT, not run, and reported TERM; a process with a running parent is run; the result is TERM exactly for an orphan, a throw or a process that sets TERM; no record is added or removed |
| `KernelSpec.FirstOver` | src/core/kernel/kernel.ts:373-377 | the main loop stops at the first CPU reading that reaches the budget, or at the end |
| `KernelSpec.FirstOverUnique` | src/core/kernel/kernel.ts:373-377 | that stopping index is the only one with every earlier reading under budget and its own reading not |
| `KernelSpec.HeatRestEffect` | src/core/kernel/kernel.ts:398-406 | the overheat phase adds base heat once to each running record it lists and changes nothing else |
| `KernelSpec.StepEffect` | src/core/kernel/kernel.ts:380-396 | one iteration resets the pid's heat to its base heat and only removes running processes with a running parent; `run()` is called only for such a process |
| `KernelSpec.ThrowingProcessKilled` | src/core/kernel/kernel.ts:380-396 | a running process with a running parent whose `run()` throws is killed in the same iteration: the table becomes the kill of it, its running descendants go with it, and their memory entries are deleted |
| `KernelSpec.SelfTerminatedStays` | src/core/kernel/kernel.ts:340-396 | a process that sets its own status to TERM is reported as TERM, but the kill finds no running process under its pid, so it stays in the table marked TERM with its memory |
| `KernelSpec.RunPrefixShape` | src/core/kernel/kernel.ts:373-397 | after k iterations records have only left, and only running ones with a running parent; unreached ones are unchanged, reached ones carry their base heat and differ at most in status, and no status returns to RUN |
| `KernelSpec.RunPrefixRan` | src/core/kernel/kernel.ts:373-397 | the processes run so far are in loop order, each once, among those reached, and each was running at the start |
| `KernelSpec.RunPrefixOrphans` | src/core/kernel/kernel.ts:340-346 | an orphan at the start of a pass is never removed during it, and once reached it is marked EXIT and never run |
| `KernelSpec.RunAllHeat` | src/core/kernel/kernel.ts:369-407 | after a pass, every reached record still present has exactly its base heat; every unreached one has gained its base heat; records outside the order are untouched |
| `KernelSpec.RunAllBudget` | src/core/kernel/kernel.ts:369-397 | the processes run are, in order and each once, among those before the first over-budget reading |
| `KernelSpec.RunAllOrphan` | src/core/kernel/kernel.ts:340-346 | an orphan survives the pass and is never run; if reached it is marked EXIT and so is dropped by the next save |
| `KernelSpec.CompareByHeat` | src/core/kernel/kernel.ts:332-334 | the comparator is negative exactly when the first record is hotter, zero exactly at equal heat |
| `KernelSpec.SortByHeat` | src/core/kernel/kernel.ts:287 | the sorted records are a permutation of the input, hottest first |
| `Kernel.ApplyKMemDefaults` | src/core/kernel/kernel.ts:291-317 | a reset empties the saved table and process memories and keeps the pid counter (1 if unset); otherwise only missing parts are filled, with a missing counter becoming 1 |
| `Kernel.ApplyKMemDefaultsIdempotent` | src/core/kernel/kernel.ts:291-317 | filling in defaults after either kind of call changes nothing more |
| `Kernel.Kernel.Memory` | src/core/kernel/kernel.ts:75-77 | the kernel memory seen by the game is the counter, saved table and process memories the kernel holds |
| `Kernel.Kernel.constructor` | src/core/kernel/kernel.ts:55-66 | an empty process table; a missing counter becomes 0, an existing one is kept |
| `Kernel.Kernel.GetFreePid` | src/core/kernel/kernel.ts:113-130 | returns the current counter and leaves it one higher; the rotation store is overwritten, so the counter never rotates |
| `Kernel.Kernel.SpawnProcess` | src/core/kernel/kernel.ts:183-201 | a free pid gets a new running process of the class, with its base heat; an occupied pid throws and leaves the table, but the counter has advanced |
| `Kernel.Kernel.SpawnProcessByClassName` | src/core/kernel/kernel.ts:173-181 | the parent defaults to 0; an unregistered name spawns nothing and changes nothing |
| `Kernel.Kernel.AddProcess` | src/core/kernel/kernel.ts:203-213 | the process is stored under its own pid with its base heat; an occupied pid throws and changes nothing |
| `Kernel.Kernel.GetChildProcesses` | src/core/kernel/kernel.ts:216-225 | exactly the pids of the records of any status that name the parent, each once |
| `Kernel.Kernel.GetProcessById` | src/core/kernel/kernel.ts:261-270 | a process is found exactly when its pid is given, is in the table and is running |
| `Kernel.Kernel.GetProcessByIdOrThrow` | src/core/kernel/kernel.ts:272-276 | throws exactly for an absent pid, whatever a present record's status |
| `Kernel.Kernel.GetProcessMemory` | src/core/kernel/kernel.ts:150-157 | returns the stored memory object, or stores and returns a new empty one; dictionary created if unset |
| `Kernel.Kernel.SetProcessMemory` | src/core/kernel/kernel.ts:159-164 | stores the object under the pid, creating the dictionary if unset, nothing else changes |
| `Kernel.Kernel.DeleteProcessMemory` | src/core/kernel/kernel.ts:166-171 | removes the pid's memory; nothing to do without a dictionary |
| `Kernel.Kernel.KillProcess` | src/core/kernel/kernel.ts:246-259 | the table becomes the kill spec and the memories of exactly the removed pids are deleted |
| `Kernel.Kernel.LoadProcessEntry` | src/core/kernel/kernel.ts:319-330 | a record for a registered class name, none otherwise |
| `Kernel.Kernel.LoadProcessTable` | src/core/kernel/kernel.ts:79-94 | a missing saved table becomes empty and the table is rebuilt from the saved entries |
| `Kernel.Kernel.SerializeRunning` | src/core/kernel/kernel.ts:97-109 | one saved entry per running record, none for any other, no pid twice |
| `Kernel.Kernel.SaveProcessTable` | src/core/kernel/kernel.ts:96-111 | the saved table is replaced by exactly the entries of the running records |
| `Kernel.Kernel.TryRunProc` | src/core/kernel/kernel.ts:340-358 | the returned status and new state are the spec's TryRun, apart from a memory entry fetched for the log |
| `Kernel.Kernel.RunOne` | src/core/kernel/kernel.ts:380-396 | one iteration is the spec's step: heat reset, skip if not running, kill on TERM |
| `Kernel.Kernel.RunUntilBudget` | src/core/kernel/kernel.ts:371-397 | the main loop runs the records in order up to the first over-budget reading, as the spec's prefix |
| `Kernel.Kernel.OverheatFrom` | src/core/kernel/kernel.ts:398-406 | every record from the stopping index on that is still running gains its base heat |
| `Kernel.Kernel.RunAllProcesses` | src/core/kernel/kernel.ts:369-407 | the pass equals the spec's RunAll: main loop to the budget, then overheat |
| `Kernel.Kernel.CollectRunning` | src/core/kernel/kernel.ts:279-285 | every running record once, and no other |
| `Kernel.Kernel.Run` | src/core/kernel/kernel.ts:278-289 | the running records, sorted hottest first, are passed to runAllProcesses |
| `Kernel.Kernel.Reboot` | src/core/kernel/kernel.ts:132-144 | an empty table, empty saved table and process memories, the counter kept |
| `Kernel.SortedRunOrder` | src/core/kernel/kernel.ts:279-287 | the sorted running records give every running pid exactly once, in order of non-increasing heat |
| `ProcessOps.ProcessHandle.Memory` | src/core/kernel/process.ts:88-92 | the first read fetches and caches the kernel's memory for the pid; later reads return the cached object and leave the kernel alone; the object is new when the kernel had no entry for the pid |
| `ProcessOps.ProcessHandle.SpawnChildProcess` | src/core/kernel/process.ts:94-96 | spawns through the kernel with this process as the parent: the new process under the next pid, or a DuplicatePid error with the table unchanged; the counter advances, the saved table and the process memories are unchanged, and it succeeds whenever every pid from the counter upwards is free |
| `ProcessOps.ProcessHandle.SpawnIndependentProcess` | src/core/kernel/process.ts:98-100 | spawns through the kernel with parent 0: the new process under the next pid, or a DuplicatePid error with the table unchanged; the counter advances, the saved table and the process memories are unchanged, and it succeeds whenever every pid from the counter upwards is free |
| `ProcessOps.ProcessHandle.AssertParentProcess` | src/core/kernel/process.ts:102-104 | throws exactly when the parent pid has no record; an exited parent still passes |
| `ProcessOps.MemoryTwice` | src/core/kernel/process.ts:88-92 | two reads of `memory` return the same object |
| `LegacyKernel.Kill` | src/kernel/kernel.ts:35-54 | pid 0 is refused with -1; an absent pid throws; otherwise the process is marked DEAD and its memory slot cleared, or, without a memory dictionary, it throws after marking |
| `LegacyKernel.KillOnlyTarget` | src/kernel/kernel.ts:35-54 | a kill changes no other process and no other memory slot |
| `LegacyKernel.Wake` | src/kernel/kernel.ts:145-150 | a sleeper without sleep info throws; a process is ALIVE afterwards exactly when it was ALIVE or its sleep ran out and is not forever; a woken one has its sleep cleared and keeps its pid and parent |
| `LegacyKernel.Sleep` | src/kernel/kernel.ts:56-60 | the process is SLEEP with the given start and duration, everything else about it unchanged |
| `LegacyKernel.SleepThenWake` | src/kernel/kernel.ts:56-60 | a process put to sleep wakes exactly once the sleep has run out and is not forever |
| `LegacyKernel.SleepForeverNeverWakes` | src/kernel/kernel.ts:145-147 | a sleep of duration -1 never ends |
| `LegacyKernel.Step` | src/kernel/kernel.ts:139-159 | one inner-loop iteration neither adds nor removes a process and keeps every record under its own pid |
| `LegacyKernel.StepEffect` | src/kernel/kernel.ts:139-159 | a step changes only the stepped process, keeps its identity, and runs it only if it ends ALIVE |
| `LegacyKernel.OrphanKilled` | src/kernel/kernel.ts:140-143 | a process whose parent is gone is marked DEAD and not run, unless it is pid 0 |
| `LegacyKernel.RunsIffAwake` | src/kernel/kernel.ts:140-154 | with its parent present a process runs exactly when it is ALIVE or its sleep has run out; a DEAD one never runs |
| `LegacyKernel.RunQueue` | src/kernel/kernel.ts:135-165 | a queue pass neither adds nor removes a process and keeps every record under its own pid |
| `LegacyKernel.RunnableQueueRunsReversed` | src/kernel/kernel.ts:135-165 | when all queued processes are ALIVE with a parent, each runs once, back to front, and nothing changes |
| `LegacyKernel.RunQueueRanQueued` | src/kernel/kernel.ts:135-165 | every process a pass runs was queued |
| `LegacyKernel.LegacyKernel.constructor` | src/kernel/kernel.ts:4-9 | an empty table and empty queues |
| `LegacyKernel.LegacyKernel.Reboot` | src/kernel/kernel.ts:11-16 | empty queues and an empty table; counter, memory and stored table kept |
| `LegacyKernel.LegacyKernel.GarbageCollection` | src/kernel/kernel.ts:18-20 | keeps exactly the memory slots of pids in the table |
| `LegacyKernel.LegacyKernel.GetProcessById` | src/kernel/kernel.ts:62-64 | the stored process, whatever its status |
| `LegacyKernel.LegacyKernel.GetFreePid` | src/kernel/kernel.ts:127-133 | the least pid at or above the counter (0 if unset) with no record: every pid in between is taken; it is stored as the counter |
| `LegacyKernel.LegacyKernel.GetProcessMemory` | src/kernel/kernel.ts:72-76 | returns the stored memory object unchanged, or stores and returns a new one, creating the dictionary if unset |
| `LegacyKernel.LegacyKernel.AddProcess` | src/kernel/kernel.ts:22-33 | the process is stored under the least free pid at or above `Memory.pidCounter || 0`, with its priority (LOW by default) and a new memory slot, and is ALIVE; without a memory dictionary it throws after being stored |
| `LegacyKernel.LegacyKernel.KillProcess` | src/kernel/kernel.ts:35-54 | the state becomes the spec's Kill: the child loop reads the killed process itself and never recurses |
| `LegacyKernel.LegacyKernel.SleepProcess` | src/kernel/kernel.ts:56-60 | the stored process becomes the spec's Sleep |
| `LegacyKernel.LegacyKernel.AliveProcesses` | src/kernel/kernel.ts:67 | exactly the pids of the processes that are not DEAD, none twice, with the table unchanged |
| `LegacyKernel.LegacyKernel.StoreProcessTable` | src/kernel/kernel.ts:66-70 | the call throws a TypeError, leaving `Memory.processTable` as it was, exactly when some process is not DEAD; otherwise `Memory.processTable` becomes []; the table, the memory, the pid counter and the queues are unchanged |
| `LegacyKernel.LegacyKernel.StepProcess` | src/kernel/kernel.ts:139-159 | one inner-loop iteration is the spec's step |
| `LegacyKernel.LegacyKernel.DrainPopped` | src/kernel/kernel.ts:137-162 | the inner loop steps the popped process and then the rest, from the back, as the spec's queue pass |
| `LegacyKernel.LegacyKernel.RunOneQueue` | src/kernel/kernel.ts:135-165 | the queue is emptied and the state is the spec's queue pass |
| `LegacyKernel.LegacyKernel.Run` | src/kernel/kernel.ts:78-82 | the high, then mid, then low queue are drained |
| `Structures.StructureManager.GetStorageObjects` | src/shared/structureManager.ts:21-36 | the non-full containers in order; only when there are none, the spawns and extensions that can take energy; empty iff neither exists |
| `Structures.StructureManager.GetSourceWithdrawalPoints` | src/shared/structureManager.ts:42-68 | always present: the storages holding more than 500; only when there are none, the containers holding more than 500 |
| `Structures.StructureManager.GetDropOffPoints` | src/shared/structureManager.ts:74-107 | the selection of the first non-empty tier of non-full spawns, non-full extensions and towers below half capacity, else the non-full storages |
| `Structures.NewStructureManager` | src/shared/structureManager.ts:8-15 | keeps the structures found and their count |
| `Structures.QueriesSelectFromStructures` | src/shared/structureManager.ts:21-107 | every query result is an order-preserving selection from the structures |
| `Structures.NeedEnergy` | src/prototypes/Structure.prototype.ts:2-10 | only extensions and towers need energy; a tower below 100 units, an extension below its capacity |
| `Structures.TowerNeedIgnoresCapacity` | src/prototypes/Structure.prototype.ts:2-10 | whether a tower needs energy does not depend on its capacity |
| `Structures.StockedTowerNeedsNothing` | src/prototypes/Structure.prototype.ts:2-10 | a tower holding 100 or more never needs energy, even when not full |
| `ConstructionSites.SitesOfKind` | src/shared/constructionSiteManager.ts:27-55 | exactly the sites of the kind, in order, each occurrence once |
| `ConstructionSites.NewConstructionSiteManager` | src/shared/constructionSiteManager.ts:16-19 | the count is the number of sites and each category list holds exactly the sites of its kind |
| `ConstructionSites.ListForIsFilter` | src/shared/constructionSiteManager.ts:27-55 | the list kept for a category is the filter of the sites by that kind |
| `ConstructionSites.CategoriesDisjoint` | src/shared/constructionSiteManager.ts:27-55 | no site is in two category lists |
| `ConstructionSites.ListedCount` | src/shared/constructionSiteManager.ts:27-55 | the categorised sites number at most all sites, all of them iff every site is of a listed kind |
| `ConstructionSites.CategorizedIsListedCount` | src/shared/constructionSiteManager.ts:27-55 | the category lengths add up to the number of sites of listed kinds |
| `ConstructionSites.ManagerListsFitCount` | src/shared/constructionSiteManager.ts:16-55 | the seven lists together hold no more sites than the count |
| `ConstructionSites.Rank` | src/colony/role/type/builder.ts:56-78 | the priority rank of a kind; below 7 exactly for the seven listed kinds |
| `ConstructionSites.RankInjective` | src/colony/role/type/builder.ts:56-78 | two listed kinds with the same rank are the same kind |
| `ConstructionSites.GetConstructionSite` | src/colony/role/type/builder.ts:56-78 | none only when every list and the site list are empty; with all lists empty, the first site |
| `ConstructionSites.PickIsFirstNonEmpty` | src/colony/role/type/builder.ts:56-78 | the pick is the head of the first non-empty list in priority order |
| `ConstructionSites.FirstNonEmptyRank` | src/colony/role/type/builder.ts:56-78 | the first rank from the given one whose list is non-empty, or 7 |
| `ConstructionSites.PickHasPriority` | src/colony/role/type/builder.ts:56-78 | for a manager built from the sites, a site is picked iff there are sites, and the pick has the least rank among them |
| `ConstructionSites.NextState` | src/colony/role/type/builder.ts:25-37 | a builder that is not full becomes idle when its state is unset or it carries nothing, and otherwise keeps a state other than building; it ends building exactly when it is full or was building with energy |
| `ConstructionSites.BuilderRun` | src/colony/role/type/builder.ts:25-48 | the stored state becomes NextState; energy is fetched exactly when the builder is not building; a building builder builds at the prioritised site when near it, moves to it otherwise, and does nothing without one |
| `GameMemory.Get` | src/room/roomOrchestrator.ts:86 | a property read yields the stored value, or undefined for a missing key |
| `GameMemory.Defaulted` | src/core/shared/memoryManager.ts:6-22 | a missing dictionary becomes empty, an existing one is kept |
| `GameMemory.DefaultedIdempotent` | src/core/shared/memoryManager.ts:6-22 | defaulting twice is defaulting once |
| `GameMemory.Memory.CheckOutOfBounds` | src/core/shared/memoryManager.ts:6-22 | each of creeps, flags, rooms, spawns and modules is defaulted, the guid untouched |
| `GameMemory.Memory.GetGuid` | src/core/shared/memoryManager.ts:30-37 | stores and returns NextModuleGuid of the stored guid, nothing else changes |
| `GameMemory.NextModuleGuid` | src/core/shared/memoryManager.ts:30-37 | 1 after a missing, zero or above-100 value, otherwise one more; within 1 to 101 for a non-negative stored value |
| `GameMemory.Memory.OrchestratorGetGuid` | src-old/core/orchestrator.ts:17-23 | returns OrchestratorGuid of the stored guid and leaves OrchestratorStore of it in `Memory.guid`; the dictionaries are untouched |
| `GameMemory.OrchestratorStore` | src-old/core/orchestrator.ts:17-23 | the stored value becomes 0 after a missing, zero or above-10000 value, and is kept otherwise |
| `GameMemory.OrchestratorGuid` | src-old/core/orchestrator.ts:17-23 | 0 after a reset, otherwise the stored value itself, never incremented; within 0 to 10000 for a non-negative stored value |
| `GameMemory.OrchestratorGuidStable` | src-old/core/orchestrator.ts:17-23 | a second call returns the same guid and stores the same value |
| `GameMemory.OrchestratorGetGuidTwice` | src-old/core/orchestrator.ts:17-23 | two calls on memory return the same guid |
| `GameMemory.TemplateFor` | src-old/core/orchestrator.ts:73-83 | haulers for "hauler", harvesters for "harvester", workers for every other role |
| `Creeps.WithRole` | src/room/creep/creepManager.ts:75-85 | exactly the creeps with that role string, in order, each occurrence once |
| `Creeps.LoadCreeps` | src/room/creep/creepManager.ts:75-85 | each of the nine role lists holds exactly the creeps with its role |
| `Creeps.RoleListsDisjoint` | src/room/creep/creepManager.ts:75-85 | no creep is in two role lists |
| `Creeps.GetQuota` | src/room/creep/creepManager.ts:111 | a count is below the quota exactly when the job is configured and the count is less than its number, as a comparison with undefined is false |
| `Creeps.ChooseRole` | src/room/creep/creepManager.ts:109-144 | with no harvester only a harvester below quota is chosen; otherwise the first of hauler, harvester, upgrader, builder below quota; none iff no candidate is below quota |
| `Creeps.Normalize` | src/room/creep/creepManager.ts:170 | a string status is OK, a code is kept |
| `Creeps.CreepNameLayout` | src/room/creep/creepManager.ts:173 | a creep name has the guid's decimal digits right after its first character, followed by ")" |
| `Creeps.CreepNamesDistinct` | src/room/creep/creepManager.ts:173 | different non-negative guids give different creep names |
| `Creeps.CreepProperties` | src/room/creep/creepManager.ts:161-164 | the new creep's memory has exactly the keys role and room with those values |
| `Creeps.SpawnOutcome` | src/room/creep/creepManager.ts:157-191 | with g the old orchestrator's guid, the stored guid becomes g+1 exactly when canCreateCreep yields OK or a string; the creep is then created under its name with its role and room and createCreep's normalised result returned; otherwise canCreateCreep's code is returned and the guid is as getGuid left it |
| `Creeps.SuccessiveSpawnsDistinct` | src/room/creep/creepManager.ts:157-191 | after a successful spawn the next guid is one higher and the next name differs |
| `Creeps.SpawnCreep` | src/room/creep/creepManager.ts:157-191 | the guid and status are the SpawnOutcome of the stored guid; creeps, rooms, flags, spawns and modules are untouched |
| `Creeps.BuildMissingCreeps` | src/room/creep/creepManager.ts:91-147 | at most one attempt, on the first idle spawn with the chosen role; no attempt iff no idle spawn or no role, leaving the guid unchanged; creeps, rooms, flags, spawns and modules are untouched |
| `CreepBuilder.CheckPayload` | src/modules/creepBuilder.ts:55-64 | true iff spawn, room, role and bodyParts are all keys of the payload |
| `CreepBuilder.CommonKeysCount` | src/modules/creepBuilder.ts:57-59 | four required keys are shared exactly when all four are present |
| `CreepBuilder.ExtraKeysIrrelevant` | src/modules/creepBuilder.ts:55-64 | adding a key that is not required never changes the verdict |
| `CreepBuilder.ModuleCreepNamesDistinct` | src/modules/creepBuilder.ts:23 | for one room and role, different non-negative guids give different names "room - role#guid" |
| `CreepBuilder.BuildProperties` | src/modules/creepBuilder.ts:30-34 | the data has exactly the keys guid, role and room with those values |
| `CreepBuilder.Run` | src/modules/creepBuilder.ts:11-53 | an invalid payload gives ERROR and leaves the guid; otherwise a new module guid is stored, and the creep is created under "room - role#guid" with its data when canCreateCreep yields OK or a string, its error returned otherwise; creeps, rooms, flags, spawns and modules are untouched |
| `CreepCleanup.DefaultField` | src/room/roomOrchestrator.ts:49-51 | a falsy or missing field takes the default, a truthy one and every other key stay |
| `CreepCleanup.DefaultFieldIdempotent` | src/room/roomOrchestrator.ts:49-51 | defaulting a field to a truthy value twice is doing it once |
| `CreepCleanup.Claims` | src/room/roomOrchestrator.ts:90-93 | the claims handed back, one per name in order, read from each entry |
| `CreepCleanup.SurvivorsOfRoomAreAlive` | src/room/roomManager.ts:94-105 | after the clean-up every remaining entry of this room names a live creep |
| `CreepCleanup.SurvivorsKept` | src/room/roomOrchestrator.ts:86-100 | an entry stays exactly when it is a live creep of this room or a non-empty entry of another room, and it stays unchanged |
| `CreepCleanup.SurvivorsIdempotent` | src/room/roomOrchestrator.ts:82-102 | a second clean-up with the same live creeps deletes nothing more |
| `CreepCleanup.HandingAreDeleted` | src/room/roomOrchestrator.ts:87-96 | every entry that hands a claim back is deleted |
| `CreepCleanup.CleanupLoop` | src/room/roomOrchestrator.ts:83-101 | the kept entries are the survivors, and each dead source miner's claim is appended exactly once |
| `CreepCleanup.CleanupCreeps` | src/room/roomOrchestrator.ts:82-102 | with creeps undefined nothing happens; otherwise creeps become the survivors and the list gains each handed-back claim once |
| `Rooms.OrchestratorInitialised` | src/room/roomOrchestrator.ts:48-56 | jobs becomes {} when falsy and manualJobControl true when falsy, so a stored false is overwritten; other keys stay |
| `Rooms.ManagerInitialised` | src/room/roomManager.ts:54-70 | the orchestrator's fields plus claimedFlags = [] when falsy |
| `Rooms.InitialisedIdempotent` | src/room/roomManager.ts:54-70 | initialising an initialised memory changes nothing, for both classes |
| `Rooms.SetRoomField` | src/room/roomOrchestrator.ts:17 | a write to a room object's `memory` field is a write to `Memory.rooms[roomName]`, and nothing else in `Memory` changes |
| `Rooms.OrchestratorSetUp` | src/room/roomOrchestrator.ts:48-65 | initialising a memory whose sources are an array or falsy, then defaulting the sources, leaves jobs and manualJobControl truthy, sources an array and every other key as it was |
| `Rooms.OrchestratorReadyKeeps` | src/room/roomOrchestrator.ts:92 | pushing onto sources keeps the memory set up |
| `Rooms.RoomOrchestrator.constructor` | src/room/roomOrchestrator.ts:15-23 | afterwards `Memory.rooms[roomName]` has truthy jobs and manualJobControl and an array of sources, its other keys are kept, no other room entry changes, and `Memory.creeps` becomes its survivors, so every remaining creep entry of this room names a live creep; the guid, flags, spawns and modules are untouched |
| `Rooms.RoomOrchestrator.InitialiseMemory` | src/room/roomOrchestrator.ts:48-56 | `Memory.rooms[roomName]` becomes OrchestratorInitialised of the old entry; the other rooms, the guid, creeps, flags, spawns and modules are untouched |
| `Rooms.RoomOrchestrator.RefreshMiningPositions` | src/room/roomOrchestrator.ts:61-65 | sources in `Memory.rooms[roomName]` becomes [] only when falsy; the other rooms, the guid, creeps, flags, spawns and modules are untouched |
| `Rooms.RoomOrchestrator.CleanupCreepMemory` | src/room/roomOrchestrator.ts:82-102 | creeps become the survivors and each dead source miner's assignedSource is pushed once onto sources in `Memory.rooms[roomName]`; without `Memory.creeps` nothing changes; the guid, flags, spawns and modules are untouched |
| `Rooms.ManagerPrepared` | src/room/roomManager.ts:54-84 | initialising a memory whose positions are an array or falsy, then defaulting the positions, leaves jobs, manualJobControl and claimedFlags truthy and the positions an array |
| `Rooms.PreparedKeeps` | src/room/roomManager.ts:101 | pushing onto the positions keeps the memory prepared |
| `Rooms.RoomManager.constructor` | src/room/roomManager.ts:27-32 | the manager's memory is `Memory.rooms[roomName]` when that is an object, and unset when it is falsy |
| `Rooms.RoomManager.SetField` | src/room/roomManager.ts:29 | a field write lands in `Memory.rooms[roomName]` when the memory is that entry, and only in the manager's own object otherwise; the guid, creeps, flags, spawns and modules are untouched |
| `Rooms.RoomManager.EnsureMemory` | src/room/roomManager.ts:55-57 | an unset memory becomes a fresh `{}` of the manager's own, which `Memory.rooms` does not see; a set one is kept |
| `Rooms.RoomManager.InitializeMemory` | src/room/roomManager.ts:54-70 | a missing memory becomes {}, then jobs, manualJobControl and claimedFlags are defaulted, written through to `Memory.rooms[roomName]` when the memory is that entry; the guid, creeps, flags, spawns and modules are untouched |
| `Rooms.RoomManager.RefreshMiningPositions` | src/room/roomManager.ts:76-84 | a missing memory becomes {}, and unoccupiedMiningPositions becomes [] only when falsy, written through when shared; the guid, creeps, flags, spawns and modules are untouched |
| `Rooms.RoomManager.CleanupCreepMemory` | src/room/roomManager.ts:90-111 | creeps become the survivors and each dead source miner's occupiedMiningPosition is appended once, written through when shared; the guid, flags, spawns and modules are untouched |
| `Rooms.RoomManager.Run` | src/room/roomManager.ts:38-41 | afterwards the room memory has truthy jobs, manualJobControl and claimedFlags and an array of positions; when it is `Memory.rooms[roomName]` no other room entry changes, and otherwise `Memory.rooms` is untouched; `Memory.creeps` becomes its survivors, so every remaining creep entry of this room names a live creep; the guid, flags, spawns and modules are untouched |
| `MemoryCleaner.NoEmptyEntryLeft` | src/processes/MemoryCleanerProcess.ts:14-21 | after cleaning no entry without keys remains |
| `MemoryCleaner.NonEmptyKept` | src/processes/MemoryCleanerProcess.ts:16 | an entry is kept exactly when it has a key, and unchanged |
| `MemoryCleaner.NonEmptyIdempotent` | src/processes/MemoryCleanerProcess.ts:14-21 | cleaning twice is cleaning once |
| `MemoryCleaner.CleanLoop` | src/processes/MemoryCleanerProcess.ts:15-20 | the loop keeps exactly the entries with at least one key |
| `MemoryCleaner.Run` | src/processes/MemoryCleanerProcess.ts:10-21 | with creeps undefined nothing happens; otherwise exactly the empty entries are deleted, all else unchanged |
| `MemoryCleaner.SkippedCleanerGainsTwo` | src/processes/MemoryCleanerProcess.ts:8 | a running cleaner the main loop did not reach gains its base heat 2 in the overheat phase |

## Left out

- Logging, the debug flag, the profiler decorators and `kernelLog` are not modelled; they change no state the model tracks.
- `Game.cpu.getUsed()` is a sequence of readings given as a parameter, and their monotonicity is not assumed.
- A process's `run()` is abstract: an outcome per pid. Spawning or killing other processes from inside `run()` is not modelled.
- The kernel's `Map` iteration order is not modelled. Table results are stated as sets or maps of records, and `getChildProcesses` as a duplicate-free list with the right members.
- Stability of `Array.prototype.sort` is left out: `SortByHeat` is one insertion sort, and only permutation and ordering by heat are stated.
- Record and process objects are identified by pid. Aliasing between a sorted record and the table entry is replaced by looking the pid up in the table.
- `processCtor` in a kernel record is dropped. Only the class name and base heat of a class are kept.
- `getProcessesByClass`, `getProcessesByClassName` and `getProcessCount` are not modelled. They rely on `instanceof` and the map size, and no property in the model depends on them.
- `reboot()` also deletes `rmem.p`, `rmem.r` and `Memory.sources` for every room. Only its kernel-memory part is modelled.
- `KernelSpec.RunOutcome` has no case for a `run()` that sets its own status to a non-running one and then throws. In the source the process is reported as TERM, but `killProcess` no longer finds it running: it stays in the table with that status and keeps the memory entry that `getProcessMemory` created for the log. That entry is a fresh object, which the value-level scheduling pass cannot name, so the case is left out; `Throws` covers a `run()` that throws with its status still RUN.
- `Kernel.Kernel.constructor` defaults the counter to 0, while `applyKMemDefaults` defaults it to 1. Both are modelled as written.
- The PID rotation branch of `getFreePid` is dead code. It is kept only as the counter store that is overwritten; no property about rotation is claimed.
- The legacy `loadProcessTable` is not modelled. It destructures a tuple with a rest pattern whose last slot is taken as sleep info, and it builds processes through constructors not shown.
- The legacy `storeProcessTable` calls `p.classPath()`, a method src/kernel/process.ts does not define, on every process that is not DEAD, so the first such call throws a TypeError. The model follows it: `LegacyKernel.LegacyKernel.StoreProcessTable` fails with `TypeError` whenever such a process exists, and otherwise stores `[]`. `StoredEntry` keeps the shape an entry would have, with the always-undefined `p.parentPID` dropped.
- `LegacyKernel.LegacyKernel.RunOneQueue` pops from a local copy of the queue and empties the queue at the end. Nothing reads the queue in between.
- The legacy process's `memory` field and `setMemory` are dropped. Memory is modelled as `Memory.processMemory` slots only.
- `refreshJobAssignments` (in the orchestrators) is not modelled. It applies lodash `difference` to a job configuration that is not part of this model.
- The source manager, `refreshRoomObjects` (the `room.find` results) and the creep manager's `run()` inside `RoomManager.run` are not modelled; they read game objects only.
- Role behaviour other than the builder's state rule and target choice is not modelled: hauler, harvester, upgrader and the role managers.
- `tryRetrieveEnergy`, `build` and `moveTo`, and the GCL helpers, are not modelled.
- The glue modules (CLI, bootstrap, main loop, colony classes) and the duplicated copies of the same rules under src-old and src/colony are not modelled.
- `isNearTo`, `canCreateCreep`, `createCreep` and `getLargestBuildableBodyFromTemplate` are inputs. The `find` order of spawns and of construction sites is an input order.
- The `if (spawn.canCreateCreep)` test in `buildMissingCreeps` reads a method, which is always truthy, so the model drops it.
- `buildMissingCreeps` reads `Memory.rooms[room].jobs` as if it were present. The model takes the jobs map as an input.
- A creep's `memory.role` is an `Option<string>`. `Memory.creeps` entries are dictionaries of values, and other shapes are not modelled.
- The creep-builder payload is typed: `CreepBuilder.Run` requires the four properties it reads to hold a spawn, two strings and a list of body parts.
- `Rooms.RoomOrchestrator.CleanupCreepMemory` and `Rooms.RoomManager.CleanupCreepMemory` require the list they push to be an array, and the constructor and `Rooms.RoomManager.Run` require it to be an array or falsy. In the source a truthy non-array makes `push` throw only when a dead source miner of this room is visited; with no such creep the source runs fine, and the model does not cover that case.
- `room.memory` is modelled as the entry `Memory.rooms[roomName]` as it stands; the game's own creation of that entry on first access is not modelled. `Rooms.RoomOrchestrator.constructor` requires the entry to be an object, since reading `jobs` of a missing memory throws; `Rooms.RoomManager.constructor` requires it to be an object or falsy, since a field write on a number or string throws in strict mode.
- The pushes of the clean-up loop are collected on a list and stored into the room memory when the loop ends. Nothing reads that list during the loop.
- The `for ... in` loops over `Memory.creeps` run in an order the model does not fix. The hand-back list is stated up to the order the loop took (a ghost `order`).
- The clean-up loops delete from a copy of the dictionary that is stored back at the end. Each entry is visited once and only it is deleted, so the result is the same as deleting in place.
- GameMemory.NextModuleGuid: the 1 to 101 range is stated only for a stored guid that is absent or non-negative. A negative stored guid is incremented as it is.
- GameMemory.OrchestratorGuid: the 0 to 10000 range is stated only for a stored guid that is absent or non-negative.
- The creep manager and the room manager import the default export of `src/core/orchestrator.ts`, which has only a named `Orchestrator` class and defines neither `getGuid` nor `getBodyParts`. The model uses the functions of the default-exported `Orchestrator` namespace in src-old/core/orchestrator.ts instead, which defines both.
- The kernel reads `kpar`, `proc` and `pmem` through `getKmem()` on every access. The model holds them in the kernel's own fields, so it treats the kernel as the only writer of its memory: a change made by other code between two calls is not seen.
- Creeps.SpawnOutcome: the old orchestrator's `getGuid` resets a missing, zero or too-large guid to 0 even when spawning then fails. A failed spawn therefore leaves the guid as that call stored it, not always unchanged.
