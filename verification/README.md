# The manifest compiler's device loop, modelled and proved in Dafny

This project models the `manifest_compiler` mode of the repository: the device's closed loop (thermal
world, safety supervisor, compiled controller, leases, A/B slots, probation, restart), the validator and
compiler that feed it, and the ledger protocol that authorises what it runs. It proves what the
simulation over seeded scenarios can only sample.

Run `dafny verify dfyconfig.toml` (Dafny 4.11) to check everything.

## How it is built

| Files | Content |
|---|---|
| `Names`, `Manifests`, `Registry`, `Programs` | the data: vocabulary, manifests, registry and schema, programs |
| `Validator`, `Compiler`, `Folds` | the front end; validator checks as loops, each proved to find exactly what is due |
| `Runtime`, `World`, `Supervisor`, `Harness` | the loop: pure functions that say what each operation does, and classes proved to do it |
| `Slots`, `Packages`, `Devices`, `VirtualDevice` | the device, again as functions and as a class |
| `Ledger`, `Pipeline` | deployments, the transition graph, the gates |
| `RuntimeProofs`, `SupervisorProofs`, `CompilerProofs` | hold, hysteresis, sliding window, disjointness, meaning |
| `PolicyProofs`, `IntentProofs` | thermostat, release, missed heartbeats; which intents are accepted, why not, and what they do |
| `ManifestProofs`, `CompiledMeaning` | what valid means, what compiles, and what the program is and reports |
| `TraceProofs` | what the rows of a scenario, a crash and a broken sensor show |
| `Thermal`, `Adaptation`, `Budget`, `Rescue` | the compiled program in the closed loop |
| `ShippedManifests`, `CoolingExample`, `DistanceExample`, `RestlessExample` | worked instances on the registry that ships, and counterexamples |
| `DeviceThermal`, `DeviceSlots`, `DeviceLeases`, `DeviceRuns`, `GuardExample` | the device over every run |
| `DeviceOutcomes`, `PromiseProofs` | what each event makes of a device, how long a lease lasts, what a fallback comes to |
| `PipelineProofs`, `Protocol` | gate order; server, link and device together |
| `Arithmetic`, `Runs` | products of reals; runs of any machine and the invariants they carry |

Temperatures, times and costs are reals. Noise, distance, wall-clock readings, faults, proposals, the
verifier's verdict and whatever happens on the link are arbitrary inputs. Where the source mutates an
object there is a class; its contracts equate the new state with a function of the old one, and the
theorems are about those functions, over all runs.

## What the proofs found

- **An install can overwrite last-known-good.** `install` picks the inactive slot without asking whether
  it is last-known-good, which after a promotion it is. `GuardIsExact` gives the exact condition,
  `UnguardedRevertKeepsTheCandidate` the consequence (a revert lands on the candidate, without a lease),
  `GuardExample` a concrete run. A/B safety and the lease bound are proved under the guard
  `active_slot == last_known_good_slot` at each accepted install.
- **Hold and transition ceiling of the shipped registry meet exactly.** A five-second hold lets twelve
  gaps into the sixty-second window, and the ceiling is twelve (`HoldsAloneAreNotEnough`): a command can be
  refused, after which the controller believes a fan state that is not so and stays silent about it.
  `BudgetHoldsExactlyWhen` is the exact condition where readings are unrestricted, `CanBeRefused` a run of
  the shipped program, `RestlessExample` a run in which every reading is exact. In the default world with
  readings within half a degree it cannot happen, because the fan, or the dead band, enforces a rest of six
  ticks before the fan is asked for again (`FanGivesRest`, `DeadBandGivesRest`), and then the program is
  never rescued (`StaysBelow`).
- **Disjointness of activation and recovery is not the validator's doing alone.** For conditions it has no
  complaint about, and without conjunctions, they are disjoint if and only if all terms read one metric
  (`OverlapCheckSufficesExactlyWhen`); `DistanceExample` is a manifest that passes validation with conditions
  that overlap, and that only the pattern refuses. Composed with sensor binding and pattern coverage
  disjointness holds (`DisjointEndToEnd`). In the other direction the pairwise check refuses some disjoint
  conjunctions (`OverlapCheckOverRejectsConjunctions`); without conjunctions it is exact.
- **The yield step bypasses the minimum hold.** `YieldKeepsSpacingExactlyWhen` says when that shows,
  `YieldBreaksSpacing` is a run in which it does. On a device the yield itself is reached only by artifacts
  without a lease: under the guard that is the factory image alone (`MorphNeverYields`); without it also a
  morph that a revert has landed on. A revert that ends a controller's turn runs the same fallback with the
  same disregard (`RevertIgnoresHold`); an install or a restart runs none.

- **A morph compiled under the safe-idle pattern can never be activated.** It asks for the safe state on every
  step, and a candidate that leaves the supervisor in safe state has failed (`SafeIdleIsNeverActivated`).
- **A failed candidate keeps its lease, and the active slot loses its own.** Its status is set before the
  revert, which then takes the active slot for the outgoing one (`HowATickEnds`). Under the guard the active
  slot is the lease-free factory image, so nothing comes of it.
- **A missed heartbeat cools one tick late.** The miss is counted after the thermostat has had its turn, so
  the safe state that it leads to first drives the fan on the next tick (`CrashedRunsAreCooled` says when).

## Model

| member | source | states |
|---|---|---|
| `Worlds.ThermalWorld.constructor` | server/sim/world.py:98-113 | A new world is at tick zero, fan off, at its initial temperature and load |
| `Worlds.ThermalWorld.Set` | server/sim/world.py:115-127 | Sets exactly the named actuator; setting the state it is in changes nothing and logs nothing |
| `Worlds.ThermalWorld.FollowSchedule` | server/sim/world.py:146-148 | Of several load changes due at one tick the last one listed wins |
| `Worlds.ThermalWorld.Advance` | server/sim/world.py:135-162 | One tick in the fixed order: clock, load, spike, thermal recurrence, then the draws; nothing else moves |
| `Thermal.RecurrenceMonotone` | server/sim/world.py:153-160 | Hotter start and more heat never end cooler, for any cooling rate that does not overshoot ambient |
| `Thermal.FanHolds` | server/sim/world.py:153-160 | A fan that holds one temperature holds or lowers every temperature |
| `Thermal.IteratesMoveOneWay` | server/sim/world.py:153-160 | Repeated fan-off steps move in one direction |
| `Thermal.RampStep` | server/sim/world.py:153-160 | The envelope of k fan-off steps is carried into that of k + 1 by one more step |
| `Thermal.WorldStep` | server/sim/world.py:135-184 | One honest tick stays below the recurrence at the heat bound and is read within the sensor error |
| `Supervisors.SafetySupervisor.constructor` | edge_node/supervisor.py:92-118 | A new supervisor is in normal state with nothing allowed and an empty log |
| `Supervisors.SafetySupervisor.Install` | edge_node/supervisor.py:122-131 | Allows exactly the capabilities the program uses, and restarts the heartbeat count |
| `Supervisors.SafetySupervisor.Write` | edge_node/supervisor.py:428-432 | Writes one actuator and logs one transition, or neither if it is already there |
| `Supervisors.SafetySupervisor.ReleaseUnowned` | edge_node/supervisor.py:136-177 | Releases exactly the unowned actuators, in table order, and only when cool, normal and without emergency |
| `Supervisors.SafetySupervisor.EnforceSafeState` | edge_node/supervisor.py:407-420 | Every actuator goes to the thermostat target with hysteresis; without a reading, to its hot state |
| `Supervisors.SafetySupervisor.HandleEmergency` | edge_node/supervisor.py:208-221 | Engages at or above the threshold, forces the fan on, counts only new engagements, releases below it |
| `Supervisors.SafetySupervisor.CountHeartbeat` | edge_node/supervisor.py:231-240 | Counts a miss only if a heartbeat was declared; beyond the limit enters the safe state |
| `Supervisors.SafetySupervisor.Enforce` | edge_node/supervisor.py:201-229 | Emergency, then safe state or release, then heartbeat, in that order |
| `Supervisors.SafetySupervisor.ConsiderOne` | edge_node/supervisor.py:273-364 | The first failing check names the rejection; only an accepted intent has its effect |
| `Supervisors.SafetySupervisor.Apply` | edge_node/supervisor.py:244-271 | Each intent is judged against the state its predecessors left; a rejection stops nothing |
| `SupervisorProofs.SlidingWindowBound` | edge_node/supervisor.py:366-380 | In every run of one supervisor no window of the policy length holds more controller-caused transitions of an actuator than the largest ceiling, though forced ones share the log; times need not even be ordered |
| `SupervisorProofs.RunKeepsLimit` | edge_node/supervisor.py:366-432 | What every operation keeps: each controller-caused entry found room in the window that ended with it |
| `SupervisorProofs.EnforceCools` | edge_node/supervisor.py:201-226 | After the local policy: hot means fan on and required, below the threshold means the emergency is over |
| `SupervisorProofs.IntentsCannotStopCooling` | edge_node/supervisor.py:345-355 | While cooling is required no list of intents takes it away |
| `SupervisorProofs.EnforceFrame` | edge_node/supervisor.py:201-229 | The local policy touches neither the physics nor the installed program |
| `PolicyProofs.SafeStateIsAThermostat` | edge_node/supervisor.py:179-199 | In safe state one pass of the local policy moves every listed actuator like a thermostat: hot level from the cooling threshold up and without a reading, default from the foot of the band down, unchanged in between |
| `PolicyProofs.ReleaseMeans` | edge_node/supervisor.py:136-177 | Exactly the listed actuators nobody owns, exactly on a reading below the cooling threshold in normal state without emergency, go to their default level, and nothing is ever engaged |
| `PolicyProofs.NormalStateOnlyReleases` | edge_node/supervisor.py:201-229 | The whole pass in normal state, for every actuator: forced on in an emergency, released when unowned and cool, otherwise as it was |
| `PolicyProofs.PolicyFlags` | edge_node/supervisor.py:201-242 | When the emergency stands, when it is counted, how misses are counted and when they end in safe state |
| `PolicyProofs.SilenceIsCaught` | edge_node/supervisor.py:231-242 | A program that promised a heartbeat and sends none loses control on the first pass after the miss limit and not before |
| `PolicyProofs.EveryProgramIsCountedAfresh` | edge_node/supervisor.py:122-131 | Installing a program starts the miss count afresh, whatever the one before it had missed |
| `IntentProofs.AcceptedExactlyWhen` | edge_node/supervisor.py:273-382 | An intent is accepted if and only if the state is normal and it is authorised and, if it drives an actuator, well aimed, unopposed by an emergency and within the window |
| `IntentProofs.OneIntentDoes` | edge_node/supervisor.py:273-364 | An accepted intent has exactly the effect of its kind, with one log entry for a real change; a refused one has none |
| `IntentProofs.TheFirstGroundIsNamed` | edge_node/supervisor.py:276-362 | The verdict is the first of the fourteen grounds that stands; where none stands the intent is accepted |
| `IntentProofs.ControlEndsAtTheFirstRequest` | edge_node/supervisor.py:244-298 | After a list considered in normal state the supervisor is in safe state if and only if a request for it was granted; every intent behind the first such one is refused and the plant stays as it was left there |
| `IntentProofs.TheLastWordCounts` | edge_node/supervisor.py:244-311 | Every actuator stands where the last applied intent put it, and the miss counter is reset exactly by an accepted heartbeat |
| `IntentProofs.RecentAreCounted` | edge_node/supervisor.py:378-380 | The transition count of a window is the number of log entries of the actuator in it |
| `Runtime.CompiledController.Initialize` | server/compiler/runtime.py:72-81 | Starts an epoch: real states seed the commanded ones, no hold is remembered |
| `Runtime.CompiledController.ShutDown` | server/compiler/runtime.py:83-97 | Yields and emits the whole fallback, in order |
| `Runtime.CompiledController.MaybeEmitOne` | server/compiler/runtime.py:138-168 | Suppressed if already there or held; otherwise emitted and remembered |
| `Runtime.CompiledController.TakeStep` | server/compiler/runtime.py:99-136 | Faults before initialisation or over budget; yields once past its lifetime; otherwise runs every holding rule in order |
| `RuntimeProofs.HoldSpacing` | server/compiler/runtime.py:155-168 | Within one epoch, commands to an actuator alternate and are at least the hold apart, whatever the program and the readings |
| `RuntimeProofs.CommandRateIsBounded` | server/compiler/runtime.py:155-168 | n ticks see at most 1 + (n - 1) / hold commands to an actuator |
| `RuntimeProofs.YieldKeepsSpacingExactlyWhen` | server/compiler/runtime.py:83-124 | The yield step keeps the spacing and alternation of an epoch if and only if the fallback has no command for the actuator, or has one that is the first or differs from what is commanded and comes a hold later by the step count |
| `RuntimeProofs.YieldBreaksSpacing` | server/compiler/runtime.py:83-124 | A concrete run in which it does not: on at tick 1, on again by the yield at tick 2, the hold being five |
| `RuntimeProofs.CoolingStep` | server/compiler/runtime.py:126-168 | One step of a cooling program, in either rule order, commands exactly what the two-threshold switch says |
| `RuntimeProofs.CoolingMeansHysteresis` | server/compiler/compiler.py:156-179 | On every stream within the lifetime the fan commands are those of the switch, tick for tick |
| `RuntimeProofs.RuleOrderIsPresentation` | server/compiler/compiler.py:157-162 | Swapping activate and recover rules changes no command, given disjoint conditions |
| `RuntimeProofs.OverlapBreaksMeaning` | server/compiler/compiler.py:157-162 | Where both conditions hold, a running fan is switched off: disjointness is what meaning rests on |
| `RuntimeProofs.RunFollowsSwitch` | server/compiler/runtime.py:126-168 | The controller state follows the switch state over every stream |
| `RuntimeProofs.BoundedResponse` | server/compiler/compiler.py:456-470 | Activation true for one hold of consecutive ticks forces the fan on by the last of them |
| `CompiledMeaning.StepsAreCounted` | server/compiler/runtime.py:99-168 | A step faults exactly when never started or over budget; otherwise it is counted and charged once, and the transitions it counts are the commands it emits |
| `PromiseProofs.YieldsOnce` | server/compiler/runtime.py:83-124 | Past its lifetime a controller emits its whole fallback once, stamped with the step count, and then nothing |
| `Validator.ProbesAreExact` | server/manifest/validator.py:273-299 | Nine probes decide satisfiability of two comparisons on one metric exactly, over the reals |
| `Validator.CheckHeader` | server/manifest/validator.py:78-110 | Complaints about version, device and registry, exactly when due |
| `Validator.CheckKnownCapabilities` | server/manifest/validator.py:112-123 | Exactly the unknown capabilities |
| `Validator.CheckSensorBinding` | server/manifest/validator.py:125-151 | Exactly the unregistered, unproduced and undeclared metrics |
| `Validator.CheckActuatorBinding` | server/manifest/validator.py:154-176 | Exactly the unregistered, undriven and undeclared actuators |
| `Validator.CheckPreconditions` | server/manifest/validator.py:179-222 | Exactly the unmet preconditions of requested capabilities |
| `Validator.CheckPinPermissions` | server/manifest/validator.py:225-246 | Exactly the forbidden and absent pins |
| `Validator.CheckLease` | server/manifest/validator.py:249-270 | Exactly the lease and period faults |
| `Validator.CheckConditionConsistency` | server/manifest/validator.py:302-320 | A complaint for exactly the overlapping pairs of terms |
| `Validator.CheckFallback` | server/manifest/validator.py:323-340 | Exactly the fallback faults |
| `Validator.CheckResourceBudget` | server/manifest/validator.py:343-389 | Exactly the budget faults |
| `Validator.Validate` | server/manifest/validator.py:392-424 | Passes exactly the manifests nothing can be held against; complains of everything due and nothing else |
| `ManifestProofs.ValidExactlyWhen` | server/manifest/validator.py:78-420 | Valid is exactly: addressed to this device and registry, reads only what it senses, drives exactly what it declares, wired as permitted, timed within the limits, no reading satisfies both conditions of a metric, fallback asked for and safe, affordable |
| `Compiler.BuildFragments` | server/compiler/compiler.py:411-424 | Fragments in sorted capability order, or the first template that refuses |
| `Costs.OrderDoesNotMatter` | server/compiler/compiler.py:411-470 | Sort, sums and longest hold of a permuted request list are the same |
| `CompilerProofs.FragmentsAreFaithful` | server/compiler/templates.py:48-103 | Every intent built came from the requested capability it is filed under |
| `CompilerProofs.CompiledFrom` | server/compiler/compiler.py:310-387 | What a successful compilation is made of: covering pattern, its rules and fallback over built intents, budget, hold, wired pins |
| `CompilerProofs.EmittedSpecIsBuilt` | server/compiler/compiler.py:310-401 | Everything a program can emit was built from the requested capability it names |
| `CompilerProofs.CapabilitiesAreRequested` | server/compiler/program.py:120-124 | A program uses no capability its manifest did not request |
| `CompilerProofs.OnlyDynamicRejections` | edge_node/supervisor.py:273-364 | For a statically fine intent the verdict depends on safe state, emergency and budget alone |
| `CompilerProofs.CompiledIntentsPassStaticChecks` | edge_node/supervisor.py:273-364 | Every intent a validated, compiled program can emit is statically fine and declared |
| `CompilerProofs.CompiledEmitsPresentably` | edge_node/supervisor.py:273-364 | The same of the whole program |
| `CompilerProofs.CompiledIntentsAreJudgedByTheMoment` | edge_node/supervisor.py:273-364 | On any plant that allows the program, every verdict on what a step or its fallback emits is acceptance, safe state, emergency override or transition budget |
| `CompilerProofs.ThermalPatternIsCooling` | server/compiler/compiler.py:156-179 | A program compiled under the thermal pattern has the hysteresis shape of its manifest |
| `CompilerProofs.DisjointEndToEnd` | server/compiler/compiler.py:157-162 | No reading makes activation and recovery both true, for every validated manifest that compiles to cooling, single or grouped |
| `CompilerProofs.OverlapCheckSufficesExactlyWhen` | server/manifest/validator.py:302-320 | With no overlap complaint and no conjunction, activation and recovery are disjoint if and only if all their terms read the same metric: exactly what the overlap check gives by itself |
| `DistanceExample.ValidatorAloneIsNotEnough` | server/compiler/compiler.py:157-162 | A manifest the validator passes against the shipped registry whose conditions both hold on one reading; only the pattern refuses it |
| `CompilerProofs.OverlapCheckIsExactForDisjunctions` | server/manifest/validator.py:302-320 | On one metric and without conjunctions the overlap check complains if and only if some reading overlaps |
| `CompilerProofs.OverlapCheckOverRejectsConjunctions` | server/manifest/validator.py:302-320 | With a conjunction it refuses a disjoint manifest: a concrete one |
| `CompilerProofs.CompilationPreservesMeaning` | server/compiler/compiler.py:310-387 | The fan commands of a compiled cooling manifest are those of the switch read off the manifest, and rule order is immaterial |
| `CompilerProofs.HoldIsTheRegistrys` | server/compiler/compiler.py:456-470 | The compiled hold is the least positive number of periods that meets every requested minimum |
| `CompiledMeaning.CompilesExactlyWhen` | server/compiler/compiler.py:310-400 | A valid manifest compiles if and only if a pattern fits its request and the registry gives every requested template what it needs |
| `CompiledMeaning.TheFirstThatCannotBeBuilt` | server/compiler/compiler.py:411-424 | Of capabilities that cannot be built the first in order is named |
| `CompiledMeaning.SortedIsInOrder` | server/compiler/compiler.py:411-424 | The order capabilities are built in is the order of their names |
| `CompiledMeaning.HeaderIsTheManifests` | server/compiler/compiler.py:360-387 | Identity, addressing, base firmware, limits and budgets of the program are the manifest's, version and content hash the registry's |
| `CompiledMeaning.PatternIsTheFirstThatFits` | server/compiler/compiler.py:200-246 | Requirements met and nothing beyond them asked; cooling before monitoring before idling |
| `CompiledMeaning.IntentsAreAsRegistered` | server/compiler/templates.py:48-97 | Every intent a program can emit says what the registry says of a requested capability: actuator, level, the one pin, current; or the event; or the safe state |
| `CompiledMeaning.BindingsAreTheSensors` | server/compiler/templates.py:48-54 | One binding for each requested sensor capability, to its metric and its one pin, and no other |
| `CompiledMeaning.FallbackKeepsItsPromise` | server/compiler/compiler.py:252-271 | Leaving cooling on compiles to exactly one fan-on command, the safe state to exactly one request, restoring the previous firmware to nothing |
| `CompiledMeaning.StepsReportWhatIsDue` | server/compiler/compiler.py:106-199 | Within its lifetime a compiled program never faults and, besides its commands, says exactly what its pattern makes due of request and reading, in order |
| `CompiledMeaning.OnlyCoolingCommands` | server/compiler/compiler.py:182-199 | Monitoring and idling programs command no actuator from a rule |
| `CompilerProofs.CapabilityOrderIsIrrelevant` | server/compiler/compiler.py:310-470 | Permuting the requested capabilities gives the same verdict and, hash apart, the same program |
| `ShippedRegistry.ShippedFilesAreWellFormed` | registry/capability_registry_v1.json:1-268 | The registry and schema that ship meet every hypothesis made about a registry here |
| `Harness.RunScenario` | server/sim/harness.py:127-231 | The rows and the final objects are those of the pure loop, crash injection included |
| `Harness.TickOnce` | server/sim/harness.py:170-219 | One pass: world, policy, controller, intents, row |
| `Harness.RowsShow` | server/sim/harness.py:170-219 | The rows of a run show exactly what its ticks show |
| `TraceProofs.RowsObeyTheWorld` | server/sim/world.py:135-184 | Every row of a trace follows by the heat balance, schedule and spike from temperature and fan of the row before, and shows what the sensor, broken or not, made of it |
| `TraceProofs.TheLastChangeWins` | server/sim/world.py:146-148 | Of several load changes due at one tick the last one listed wins, with none due the load stays |
| `TraceProofs.NormalPhase` | server/sim/harness.py:170-198 | In normal operation a row shows what the controller said to what the sensors claimed at that tick, and what the supervisor made of it |
| `TraceProofs.EveryWriteIsOnRecord` | edge_node/supervisor.py:422-432 | After any scenario the recorded changes lead from the initial levels to the present ones, each was a real change, and the budget log has one entry for each at its time |
| `TraceProofs.RowEmergency` | edge_node/supervisor.py:208-221 | In every row the emergency is what the reading says, and in an emergency the fan is on |
| `TraceProofs.BrokenSensorDecides` | server/sim/world.py:175-184 | A sensor stuck at or above the threshold keeps the fan on from the tick it breaks; stuck below, no emergency is ever seen again |
| `TraceProofs.SafeRowsAreAThermostat` | edge_node/supervisor.py:407-418 | Once in safe state the supervisor keeps control and runs the fan from row to row as a thermostat with hysteresis |
| `TraceProofs.CrashedRunsAreCooled` | server/sim/harness.py:48-66 | A controller that crashes from some tick on never acts again, and in every row from there the fan is on at a cooling temperature and at its default well below it |
| `Adaptation.CompiledIsReady` | server/compiler/compiler.py:156-179 | Validated and compiled under the thermal pattern gives everything the closed loop relies on |
| `Adaptation.QuietTick` | server/sim/harness.py:170-198 | An undisturbed tick: the controller steps its switch, the plant obeys, and the only possible refusal is for the budget |
| `BudgetProofs.PacedCount` | edge_node/supervisor.py:366-380 | Log entries lying apart by two gaps in turn cannot crowd a window |
| `BudgetProofs.RoomyByHold` | edge_node/supervisor.py:366-380 | Without a rest longer than the hold, the switching is affordable exactly when as many holds as the ceiling allows outlast the window |
| `BudgetProofs.HoldKeepsBudget` | server/compiler/runtime.py:155-168 | If as many holds as the ceiling allows outlast the window, no command is refused for the budget and the commanded state is the real one after every tick |
| `BudgetProofs.BudgetHoldsExactlyWhen` | edge_node/supervisor.py:366-380 | And only then: the condition is exact, for every device that can be asked both ways below the emergency threshold |
| `BudgetProofs.SomeRunIsRefused` | edge_node/supervisor.py:366-380 | Otherwise a run exists that ends in a refusal and leaves the controller believing something false of its fan |
| `BudgetProofs.RestlessRunIsRefused` | edge_node/supervisor.py:366-380 | The same for any family of states in which the opposite of the fan level is demanded whenever the hold allows, whether noise or physics demands it |
| `NeverRescued.StaysContained` | server/sim/world.py:153-160 | Joint invariant of temperature and hold counter: at most as many fan-off steps above the level as the hold has kept the fan off |
| `NeverRescued.AsksNoSooner` | server/sim/world.py:153-160 | Dwell time: a fan that has been turned off is not asked for again before its rest is over |
| `NeverRescued.StaysDwelling` | server/sim/world.py:153-160 | What the dwell time rests on is kept by every tick: fan-off steps from cold, fan-on steps from the top |
| `NeverRescued.RunIsNeverRescued` | server/verify/verifier.py:197-270 | From any supported state, for as long as the lease lasts: bounded temperature, no emergency, no refusal |
| `NeverRescued.AdaptationIsNeverRescued` | server/verify/verifier.py:197-270 | A compiled manifest activating at a threshold keeps every row at most at the H-fold fan-off iterate of its level and the emergency policy never fires, where the budget affords the switching by the hold alone or by the rest that dead band or fan enforce |
| `RestlessExample.ExactReadingsCanBeRefused` | edge_node/supervisor.py:366-380 | That affording cannot be dropped: exact readings, a wide dead band, a fan that holds the device far below the emergency, and a run that ends in a refusal |
| `ShippedManifests.SensibleIsValid` | server/manifest/validator.py:392-424 | Against the shipped registry and schema a manifest within its limits can be faulted for overlapping conditions at most |
| `CoolingExample.IsValid` | server/agent/manifest_agent.py:125-160 | The proposal the repository itself makes, for any recovery below activation, passes every check |
| `CoolingExample.CompilesToCooling` | server/compiler/compiler.py:310-387 | It compiles, to the program written out there: the hypotheses of the theorems about compiled programs can be met |
| `CoolingExample.ProgramFits` | server/compiler/compiler.py:310-387 | The program compiled from that proposal with the shipped registry is one the closed-loop results on the default world apply to |
| `CoolingExample.HoldsAloneAreNotEnough` | registry/capability_registry_v1.json:88-114 | With the shipped hold, ceiling and window at one-second ticks the plain budget condition fails: twelve holds fill the window to the second |
| `CoolingExample.SixTicksOfRestAreEnough` | registry/capability_registry_v1.json:88-114 | Six ticks of rest make up for it |
| `CoolingExample.FanGivesRest` | server/sim/world.py:44-79 | In the default world five ticks of the fan give that rest, whatever the recovery condition |
| `CoolingExample.DeadBandGivesRest` | server/sim/world.py:44-79 | So does the dead band between 60 and 80 degrees alone |
| `CoolingExample.CanBeRefused` | edge_node/supervisor.py:366-380 | With unrestricted sensor noise the shipped program under the shipped registry does have a refused run |
| `CoolingExample.StaysBelow` | server/verify/verifier.py:197-270 | The never-rescued theorem under the shipped registry, one-second ticks and the default losses at two degrees a second: activating at 80, at most 84.78 degrees for the whole lifetime, no emergency and no refusal, whatever the readings within half a degree |
| `VirtualDevices.VirtualDevice.constructor` | edge_node/virtual_device.py:83-136 | A process boots whatever the state file says is running |
| `VirtualDevices.VirtualDevice.StartProgram` | edge_node/virtual_device.py:138-148 | Installs, leaves safe state, and starts a fresh controller seeded from the world |
| `VirtualDevices.VirtualDevice.ProvisionFactory` | edge_node/virtual_device.py:150-172 | Slot A becomes active, last-known-good and lease-free |
| `VirtualDevices.VirtualDevice.InstallPackage` | edge_node/virtual_device.py:180-238 | A rejected package changes nothing; an accepted one is staged, watermarked, on probation, running and saved |
| `VirtualDevices.VirtualDevice.RunTick` | edge_node/virtual_device.py:242-276 | The fixed order of the tick |
| `VirtualDevices.VirtualDevice.ChargeRunningLease` | edge_node/virtual_device.py:298-319 | Charges the running lease, saves, or reverts if it is spent |
| `VirtualDevices.VirtualDevice.OnFault` | edge_node/virtual_device.py:321-337 | Fails a candidate at once, an established artifact at the third failure |
| `VirtualDevices.VirtualDevice.ScoreCandidate` | edge_node/virtual_device.py:339-366 | Scores, fails or promotes a candidate |
| `VirtualDevices.VirtualDevice.Revert` | edge_node/virtual_device.py:370-408 | Fallback, slot bookkeeping, start of last-known-good, release of unowned actuators, save; succeeds exactly if there is an artifact |
| `VirtualDevices.VirtualDevice.RestartProcess` | edge_node/virtual_device.py:412-429 | A new instance over the same world and state file |
| `VirtualDevices.Record` | edge_node/virtual_device.py:242-276 | Ticking the device object is running the transition function, tick for tick, and the log is the temperatures it passes through |
| `VirtualDevices.Drive` | edge_node/virtual_device.py:242-276 | Driven tick by tick, with any clock and any crashes, the device object never logs a temperature above the thermal bound, and stays coherent |
| `DeviceThermal.TickIsMinded` | edge_node/virtual_device.py:242-276 | After any tick, whatever reverted or faulted in it, a hot reading means cooling is on and required |
| `DeviceThermal.ThermalBound` | edge_node/supervisor.py:201-226 | Over all runs of ticks, crashes, installs, restarts and provisionings the device never exceeds the larger of E + e and one fan-off step from there |
| `DeviceThermal.ShippedBound` | server/sim/world.py:44-79 | With the default world at rate 2.0 that is 95.6 + 0.98 e |
| `Slots.LeaseIsNeverExtended` | edge_node/slots.py:56-67 | A lease is over exactly when either clock has used it up, and neither clock can revive it |
| `DeviceSlots.AlwaysCoherent` | edge_node/virtual_device.py:118-408 | From provisioning on, at every boundary: the saved state is the state, the controller is the running slot, its capabilities are the allowed ones, and there is a last-known-good artifact |
| `DeviceSlots.RevertOutcome` | edge_node/virtual_device.py:370-408 | What a revert leaves, exactly, of slots, controller and supervisor |
| `DeviceSlots.RevertAlwaysSucceeds` | edge_node/virtual_device.py:370-383 | A coherent device always has something to revert to |
| `DeviceOutcomes.InstallMeans` | edge_node/virtual_device.py:180-238 | A refused package changes nothing; an accepted one takes the inactive slot on a lease that begins with the clock reading, on probation for five healthy ticks, from a clean start |
| `DeviceOutcomes.ProvisionMeans` | edge_node/virtual_device.py:150-172 | The whole slot state after provisioning, and the image from a clean start |
| `DeviceOutcomes.RestartMeans` | edge_node/virtual_device.py:412-429 | A restart forgets supervisor and controller and nothing else |
| `DeviceOutcomes.HowATickEnds` | edge_node/virtual_device.py:242-366 | While the lease holds a tick ends in one of six ways: a candidate fails on its first fault or first safe state, an established artifact on the third fault, otherwise the state moves exactly by the charge, the count and, at the last healthy tick, the promotion |
| `DeviceOutcomes.AnUnhealthyCandidateFails` | edge_node/virtual_device.py:321-347 | A candidate that faults or leaves the supervisor in safe state has failed by the end of that tick, and last-known-good runs under a normal supervisor |
| `DeviceOutcomes.SpentLeaseEndsIt` | edge_node/virtual_device.py:298-319 | On the tick that uses the lease up, by either clock, the artifact is sent home and its lease is gone |
| `DeviceOutcomes.ActivationIsAlwaysEarned` | edge_node/virtual_device.py:339-366 | In every run from provisioning on, a candidate is activated only by a healthy tick that was the last one missing |
| `DeviceOutcomes.PromotionTakesItsTime` | edge_node/virtual_device.py:339-366 | Restarts included, a candidate on probation has as many healthy ticks fewer to go as it has had, an activated one has had them all, and failure is final |
| `DeviceOutcomes.ALeaseLastsExactly` | edge_node/virtual_device.py:298-319 | Through any run without failure, restarts included, the artifact is running on what is left of its lease if and only if no clock reading is the lease past the installation and the ticks add up to less |
| `PromiseProofs.RevertLeaves` | edge_node/virtual_device.py:370-408 | What a revert does to an actuator: the outgoing fallback has the last word unless nobody owns it any more and the device is cool |
| `PromiseProofs.HoldCoolingIsHeld` | edge_node/virtual_device.py:370-408 | A compiled morph that promised to leave cooling on is reverted with its fan-on command applied, and the fan is on unless the device is cool and what it returns to does not own it |
| `PromiseProofs.SafeIdleIsNeverActivated` | edge_node/virtual_device.py:339-347 | A candidate compiled under the safe-idle pattern fails on its first tick, whatever that tick brings |
| `DeviceLeases.GuardIsExact` | edge_node/virtual_device.py:199-216 | An accepted package leaves the last-known-good record alone if and only if the active slot is the last-known-good one |
| `DeviceLeases.UnguardedRevertKeepsTheCandidate` | edge_node/virtual_device.py:370-408 | Without the guard, a revert lands on the candidate it should undo, and without a lease |
| `DeviceLeases.RevertRestoresFactory` | edge_node/virtual_device.py:370-408 | Under the guard every revert restores the factory image |
| `DeviceLeases.FactoryImageSurvives` | edge_node/virtual_device.py:150-238 | A/B safety: under the guard the last-known-good slot holds the provisioned image for ever, and a candidate is always in the other, inactive slot |
| `DeviceLeases.TickFate` | edge_node/virtual_device.py:242-276 | A tick of a grounded device either brings the factory image back or charges the running lease once |
| `DeviceLeases.LeaseBoundsSteps` | edge_node/slots.py:56-67 | The control steps of a leased morph, each charged a tick, stay short of its lease over any interleaving and any wall clock |
| `DeviceLeases.MorphStepsAreBounded` | edge_node/virtual_device.py:298-319 | A morph leased for D seconds takes at most ceil(D / dt) - 1 control steps, ever |
| `DeviceLeases.LeaseRunsOut` | edge_node/virtual_device.py:298-319 | Left without new packages, the factory image is running once the ticks add up to the lease, whatever clocks, crashes and restarts did |
| `DeviceLeases.MorphRetires` | edge_node/virtual_device.py:298-319 | With guarded installs going on, the morph of a sequence number is gone for good once the ticks add up to its lease |
| `DeviceRuns.AlwaysInStep` | edge_node/virtual_device.py:298-314 | The controller has never been running longer than its lease has been charged for |
| `DeviceRuns.LeaseEndsBeforeYield` | server/compiler/runtime.py:116-124 | An artifact leased for its own lifetime is reverted before it could yield |
| `DeviceRuns.RevertIgnoresHold` | edge_node/virtual_device.py:385-387 | A fallback command run in a revert changes the fan at once, however recently it was commanded |
| `DeviceRuns.HarnessIsTheDevice` | edge_node/virtual_device.py:242-276 | On any stretch without fault, expiry or probation failure the device follows the harness loop exactly |
| `DeviceRuns.HealthyTicksPromote` | edge_node/virtual_device.py:339-366 | A candidate is promoted by exactly the configured number of healthy ticks, and the old active slot becomes last-known-good untouched |
| `GuardExample.FirstIsStaged` | edge_node/virtual_device.py:180-238 | The concrete run, first half: provision, then an accepted package on probation |
| `GuardExample.GuardIsNeeded` | edge_node/virtual_device.py:180-238 | Second half: five healthy ticks, a second accepted package, and the factory image is in neither slot after a revert |
| `Packages.BuiltPackageIsJudgedOnFreshness` | server/ota/package.py:111-238 | A package straight from the signer is accepted exactly if addressed, based, numbered, leased and versioned right |
| `Packages.RefusedForTheFirstRuleBroken` | server/ota/package.py:147-238 | Whatever package arrives: taken exactly when it breaks none of the rules, refused for the first it breaks |
| `Ledgers.Ledger.OpenDeployment` | server/deploy/ledger.py:56-96 | A new deployment in proposed, with its first transition |
| `Ledgers.Ledger.Advance` | server/deploy/ledger.py:99-151 | Moves and records a legal transition; an illegal one is refused and leaves no trace |
| `Ledgers.Ledger.NextSequence` | server/deploy/ledger.py:216-234 | One above every number ever issued to the device |
| `Ledgers.Ledger.LiveForEvent` | server/deploy/ledger.py:237-260 | Whether the device already has a deployment for the situation |
| `Ledgers.MovingIsLawful` | server/deploy/ledger.py:99-151 | A move extends one history by one legal stage and touches no other |
| `Ledgers.PathShape` | server/deploy/ledger.py:32-49 | Every path is a stretch of one line, ended at most by a terminal stage |
| `Ledgers.TheGraphIsTheLine` | server/deploy/ledger.py:32-49 | The graph is the line, rejection until it runs, revert or rollback once the device has taken it, and no other edge |
| `Ledgers.StageVouches` | server/deploy/ledger.py:32-49 | A stage of the line in a history vouches for all stages before it, in order |
| `Ledgers.ActiveHasBeenThroughEverything` | server/deploy/ledger.py:38-45 | Active means the whole line was gone through, acceptance by the device included |
| `Ledgers.HighestBounds` | server/deploy/ledger.py:216-234 | The highest number is an upper bound and is attained |
| `Pipelines.ManifestPipeline.RunTask` | server/manifest_pipeline.py:119-261 | The run as specified, none of its ledger moves being illegal |
| `Pipelines.ManifestPipeline.Reject` | server/manifest_pipeline.py:325-334 | Rejects a deployment wherever it stands |
| `Pipelines.ManifestPipeline.Record` | server/manifest_pipeline.py:265-286 | Later device reports; an impossible one is refused |
| `PipelineProofs.GatesAreInOrder` | server/manifest_pipeline.py:119-261 | The first gate that fails is the one recorded; a package is signed if and only if validation, compilation and verification passed; no other deployment is touched |
| `PipelineProofs.RunsKeepRecords` | server/manifest_pipeline.py:119-261 | A run records manifest hash, artifact hash, number and lease from the gate on that established them, and not before |
| `PipelineProofs.OnlyWhatIsOnTheDeviceBlocks` | server/deploy/ledger.py:237-260 | A deployment blocks another for the same situation exactly while it is on the device |
| `Protocol.AlwaysSound` | edge_node/virtual_device.py:180-238 | The invariant of server, link and device over every run |
| `Protocol.AlwaysTied` | edge_node/virtual_device.py:180-238 | Under the guard, besides: the factory image underneath and a lease on whatever runs on top of it |
| `Protocol.VerifiedBeforeRun` | server/manifest_pipeline.py:198-261 | Under the guard every running program is the factory image, or was signed for a deployment with validation, compilation, verification, signing and delivery attempt in that order and runs on a lease equal to its own lifetime, within the ceiling |
| `Protocol.VerifiedWithoutGuard` | server/manifest_pipeline.py:198-261 | Without the guard the same of its provenance, and of its lease if a revert has not taken it away |
| `Protocol.MorphNeverYields` | server/compiler/runtime.py:116-124 | Under the guard, on every tick, whatever runs on top of the factory image has a lease and is not past its lifetime |
| `Protocol.LeasedMorphNeverYields` | server/compiler/runtime.py:116-124 | Without the guard, of a morph that still has its lease |
| `Protocol.NothingIsAcceptedTwice` | server/ota/package.py:211-216 | Accepted numbers strictly increase and every accepted package is refused from then on |
| `Protocol.FreshIsNeverReplayed` | server/deploy/ledger.py:216-234 | The next number is above the watermark: a fresh package is never refused as a replay, and the exact condition for its acceptance |
| `Protocol.WatermarkIsBelow` | edge_node/virtual_device.py:217-225 | The watermark never passes the highest number issued |

## Left out

- Proposal agents, prompts, retrieval and tool servers: any manifest may be proposed.
- The verifier's seeded scenarios and scoring: its verdict is an arbitrary predicate on tasks and programs; the
  harness loop it judges is modelled.
- Sockets, HTTP, the asynchronous distributor and scheduler, dashboards, the Docker sandbox, experiments
  and metrics: I/O, library concurrency and reporting. The distributor's per-device lock is why a pipeline
  run is one step of the protocol.
- The v0.1 source pipeline (deployer, rollback orchestration, watchdog, source scanning); whether
  generation is halted is an input of a pipeline run.
- SHA-256, HMAC (RFC 2104, section 2) and JSON text: uninterpreted functions; that only the pipeline can
  make a signature that verifies is a stated hypothesis of the protocol.
- The database: a table of deployments and an append-only table of transitions, with the joined event name
  stored in the deployment; timestamps and details are left out.
- File-system atomicity, unreadable or foreign state files: saving then loading is the identity.
- IEEE rounding: world and metrics are over the reals.
- Stuck sensors, spikes and too weak a fan in the thermal theorems: modelled in the world, excluded by
  hypothesis there. Their dynamics in all other theorems are unrestricted.
- Intent ids, reasons, trigger types and values, telemetry sinks, event logs, tick reports, rendering of
  programs, and the supervisor's counters other than emergency activations: written, never read.
- The copies of hold and rate limit on each intent specification: the runtime reads the program's hold and
  the supervisor the registry.
- The order of messages in a validator's error list: which complaints are raised is exact, their order is not
  stated.
- Worlds.ThermalWorld.Advance: does not round time and stored temperature to six digits, because the model is
  over the reals; `OnTime` and the two lease clocks turn on exact time.
- Thermal.WorldStep: bounds the unrounded temperature; the rounding of a reading is part of the sensor error,
  that of the stored temperature is not.
- Supervisors.SafetySupervisor.Write: a missing actuator, for which the world raises, is a precondition;
  every caller checks, and an intent for one is rejected as a validation error.
- Pipelines.ManifestPipeline.RunTask: loading a hardware schema is a function of the device id that yields a
  schema for that device; the base firmware hash the server notes is not modelled, the device's own check is.
- Protocol.AlwaysSound: the server may be told anything about a delivery, so an answer need not be the
  device's; what the device accepts is decided by the device alone.
- Runtime.CompiledController.TakeStep: a controller object is started once per installation, as the device
  and the harness do.
- The device's state, slot records and leases are values held in one field, assigned in the source's order;
  aliasing of a slot record with the running record is therefore not modelled.
