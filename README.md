# ASSpawner, modelled in Dafny

`ASSpawner` is an Unreal Engine actor that spawns actors against quotas.
It keeps an ordered map from actor class to amount (`ActorsToSpawn`). Each
tick it makes up to `SpawnPerFrame` (2) placement attempts. A placement
attempt probes random points in a box until one is on the ground and clear
of pawn-blocking geometry, giving up after 11 probes. The actor walks the
map with a cursor (`ClassIndex`, `CurrentClassToSpawn`,
`CurrentCountToSpawn`). A global budget (`GlobalSpawnLimit`, -1 meaning no
limit) can cut a run short. When the run finishes, `OnFinishSpawnDelegate`
fires with the number of actors produced and the list of them. When
`IntervalOfSpawn` is positive, a looping timer calls `StartTick` every
`IntervalOfSpawn` seconds. `StartTick` empties the produced list and enables
ticking but keeps the cursor. It starts a new run only once the previous run
has finished. In the middle of a run the run goes on, and the completion
broadcast then reports only the actors placed since the last firing
(`SpawnerProperties.TimerMidRunCutsBroadcast`).

The model has four files:

- `ledger.dfy` (module `Ledger`) is the quota map. `TMap<UClass*, int32>` is a
  sequence of (class, amount) pairs with distinct keys, in the map's
  iteration order. A new key goes after the others; the engine's reuse of
  freed slots is not modelled (see Left out).
  Its operations are `FindOrAdd`/`Add` (`Put`), `Append` (`Merge`), `Remove`
  (`Without`, `RemoveAll`) and the validity pass (`Validated`). Class
  pointers are `ClassRef`: null, or a class that does or does not derive
  from `AActor`.
- `model.dfy` (module `SpawnerModel`) is the actor as a state machine. The
  record `State` holds the actor's fields, and there is one function per
  operation. Engine services become inputs:
  - each probe's outcome (`GroundMiss`, `Blocked`, `Clear`);
  - what the factory returns (an actor handle, or none);
  - how many actors the setup overlap test finds.
  `Op`, `Apply` and `Replay` describe the calls a host can make.
- `properties.dfy` (module `SpawnerProperties`) holds the lemmas about that
  state machine:
  - the bounded placement search;
  - what a tick may change;
  - budget monotonicity;
  - the quota each tick and each run spends;
  - the completion broadcast;
  - termination of a run;
  - the invariants every host call keeps.
- `spawner.dfy` (module `SpawnerActor`) is class `Spawner`, the actor as an
  object. Its methods update its fields in place, with the source's
  branches and loops:
  - two loops in `CheckClassValidity`;
  - the counted loop of `SpawnLoop`;
  - the probe loop of `GetRandomLocationInBox`, which replaces the
    recursion between `GetRandomLocationInBox` and `CheckSpawnPosition`.

  Every method is proved to leave `Abs()`, the fields read as a `State`,
  exactly where the matching `SpawnerModel` function takes it. The object
  runs only the corrected class change (`corrected == true`). So every lemma
  of `SpawnerProperties` stated for the corrected step holds of the object;
  the as-written instances (`ZeroQuotaSpawnedAsWritten`, and `TickBounds`,
  `LoopEffects` and `AdvanceEffects` at `corrected == false`) describe the
  step as the source writes it, which the object never takes.

The class and the host model use the corrected class change of `SpawnLoop`
and the guarded start of a tick (see Findings). The as-written step is kept as `SpawnerModel.AdvanceOnce`,
selected by `corrected == false`.

Where the source and its header comments disagree, the model follows the
code. The header comment says "setup timer to cyclic spawn if
IntervalOfSpawn greater than 0". But `StartSpawn` with an interval of 0
does not disarm a timer that is already armed: its timer ends armed iff the
interval is positive or the timer was armed already
(`SpawnerModel.StartSpawn`).

## Model

| member | source | states |
|---|---|---|
| SpawnerModel.Initial | Source/Sandbox/Core/SSpawner.h:22-29 | A fresh actor is well formed, has no limit (-1), no current class, cursor and probe counter 0, ticking allowed but disabled, and no timer. |
| SpawnerActor.Spawner.constructor | Source/Sandbox/Core/SSpawner.cpp:9-13 | The constructed object's fields are the initial state: radius 100, interval 0, limit -1, tick allowed and not enabled. |
| SpawnerModel.ClampRadius | Source/Sandbox/Core/SSpawner.h:66 | The radius always lands in [100, 1000]; in-range input is kept; below goes to 100, above to 1000. |
| SpawnerModel.ClampInterval | Source/Sandbox/Core/SSpawner.h:68 | The interval always lands in [0, 300]; in-range input is kept; negative goes to 0, above 300 to 300. |
| SpawnerActor.Spawner.SetRadiusOfSpawn | Source/Sandbox/Core/SSpawner.h:66 | Only the radius changes, to the clamped value, which lies in [100, 1000]. |
| SpawnerActor.Spawner.SetIntervalOfSpawn | Source/Sandbox/Core/SSpawner.h:68 | Only the interval changes, to the clamped value, which lies in [0, 300]. |
| Ledger.Put | Source/Sandbox/Core/SSpawner.h:71 | After `FindOrAdd(c) = n` the keys are the old keys, in order, with c appended only if it was absent. |
| Ledger.PutFind | Source/Sandbox/Core/SSpawner.h:71 | After the update, c maps to n and every other key maps to what it mapped to before. |
| Ledger.PutKeepsOthers | Source/Sandbox/Core/SSpawner.h:71 | Every pair with another key stays at its position, unchanged. |
| Ledger.PutDistinct | Source/Sandbox/Core/SSpawner.h:71 | Keys stay distinct. |
| SpawnerActor.Spawner.ChangeAmountToSpawn | Source/Sandbox/Core/SSpawner.h:71 | Only the map changes, with no validity pass, and afterwards c maps to n. |
| Ledger.InvalidKeys | Source/Sandbox/Core/SSpawner.cpp:92-99 | The collected keys are exactly the map's keys that are null or not actor classes. |
| Ledger.Validated | Source/Sandbox/Core/SSpawner.cpp:90-105 | After the validity pass every key is non-null and an actor class, and the map never grows. |
| Ledger.ValidatedFind | Source/Sandbox/Core/SSpawner.cpp:90-105 | A valid key keeps its amount, and an invalid key is gone. |
| Ledger.ValidatedOfValid | Source/Sandbox/Core/SSpawner.cpp:90-105 | A map whose keys are all valid is left unchanged. |
| Ledger.ValidatedIdempotent | Source/Sandbox/Core/SSpawner.cpp:90-105 | Validating twice gives the same map as validating once. |
| Ledger.ValidatedDistinct | Source/Sandbox/Core/SSpawner.cpp:90-105 | Validation keeps keys distinct. |
| Ledger.ValidatedNonNegative | Source/Sandbox/Core/SSpawner.cpp:90-105 | Validation keeps every amount non-negative. |
| Ledger.RemoveAllSnoc | Source/Sandbox/Core/SSpawner.cpp:100-104 | Removing the collected keys one at a time equals removing them all at once. |
| Ledger.RemoveInvalidIsValidated | Source/Sandbox/Core/SSpawner.cpp:92-104 | Removing exactly the invalid keys yields the validated map. |
| SpawnerActor.Spawner.CheckClassValidity | Source/Sandbox/Core/SSpawner.cpp:90-105 | The two loops leave the validated map and change nothing else. Their invariants: every collected key is invalid, every invalid key seen so far is collected, and the map is the original minus the keys removed so far. |
| Ledger.Merge | Source/Sandbox/Core/SSpawner.cpp:60 | `Append` never shrinks the map and grows it by at most one pair per pair of the new map. Its key-by-key result is stated by `MergeFind` and `MergeKeys`. |
| Ledger.MergeFind | Source/Sandbox/Core/SSpawner.cpp:60 | After `Append`, a key of the new map has the new amount, every other key keeps its amount, and keys stay distinct. |
| Ledger.MergeKeys | Source/Sandbox/Core/SSpawner.cpp:60 | After `Append`, the old keys come first, in their order, and a key is present iff it was in either map. |
| SpawnerModel.SetParams | Source/Sandbox/Core/SSpawner.cpp:50-56 | The map becomes the validated argument: a valid key has the argument's amount, and every other key is absent. The radius is the clamped radius, in [100, 1000], and the interval the clamped interval, in [0, 300]. Nothing else changes. |
| SpawnerActor.Spawner.SetParams | Source/Sandbox/Core/SSpawner.cpp:50-56 | The fields become `SpawnerModel.SetParams` of the old ones. |
| SpawnerModel.AddClassToSpawn | Source/Sandbox/Core/SSpawner.cpp:58-62 | The map becomes the validated `Append` of the argument, and nothing else changes. Every key is then valid. With distinct keys on both sides, a valid key of the argument has the argument's amount, any other valid key keeps its old amount, and an invalid key is absent. |
| SpawnerActor.Spawner.AddClassToSpawn | Source/Sandbox/Core/SSpawner.cpp:58-62 | The fields become `SpawnerModel.AddClassToSpawn` of the old ones. |
| SpawnerModel.StartTick | Source/Sandbox/Core/SSpawner.h:87-91 | The produced list is empty; ticking is enabled unless the setup gate is closed; nothing else changes. |
| SpawnerActor.Spawner.StartTick | Source/Sandbox/Core/SSpawner.h:87-91 | The fields become `SpawnerModel.StartTick` of the old ones. |
| SpawnerActor.Spawner.SetActorTickEnabled | Source/Sandbox/Core/SSpawner.cpp:228 | Ticking changes only while the setup gate is open. |
| SpawnerActor.Spawner.StopSpawnTimer | Source/Sandbox/Core/SSpawner.cpp:181-187 | The timer ends disarmed, and nothing else changes. |
| SpawnerModel.StartSpawn | Source/Sandbox/Core/SSpawner.cpp:64-88 | Three outcomes. An empty map only disarms the timer. A budget that is neither -1 nor positive only disarms the timer. Otherwise the produced list is cleared, ticking is enabled (when allowed), and the timer ends armed iff the interval is positive or it was armed already. |
| SpawnerActor.Spawner.StartSpawn | Source/Sandbox/Core/SSpawner.cpp:64-88 | The fields become `SpawnerModel.StartSpawn` of the old ones. |
| SpawnerModel.OnStartCheck | Source/Sandbox/Core/SSpawner.cpp:244-260 | With no overlapping actor, only the setup gate closes. Otherwise only the map changes, to the validated map: a valid key keeps its amount, and an invalid key is gone. |
| SpawnerActor.Spawner.OnStartCheck | Source/Sandbox/Core/SSpawner.cpp:244-260 | The fields become `SpawnerModel.OnStartCheck` of the old ones. |
| SpawnerModel.AfterSpawn | Source/Sandbox/Core/SSpawner.cpp:235-242 | No class is current and count and index are 0. The delegate log gains one broadcast of the produced list's length and the list. Nothing else changes. |
| SpawnerActor.Spawner.AfterSpawn | Source/Sandbox/Core/SSpawner.cpp:235-242 | The fields become `SpawnerModel.AfterSpawn` of the old ones. |
| SpawnerModel.FindNextSpawnParameters | Source/Sandbox/Core/SSpawner.cpp:262-278 | It succeeds iff index + 1 is a valid position. On success it adopts that pair and changes only the cursor. On failure the cursor resets, one broadcast of the produced list is logged, ticking is disabled (when allowed), and the timer and list are untouched. |
| SpawnerActor.Spawner.FindNextSpawnParameters | Source/Sandbox/Core/SSpawner.cpp:262-278 | The fields and the returned flag are those of `SpawnerModel.FindNextSpawnParameters`. |
| SpawnerModel.Spawn | Source/Sandbox/Core/SSpawner.cpp:189-206 | A failed factory call changes nothing, and the factory always fails for a null or non-actor class. A success appends exactly one actor of the current class, lowers the budget by one only if it is positive, and lowers the class count by one only if it is positive. |
| SpawnerActor.Spawner.Spawn | Source/Sandbox/Core/SSpawner.cpp:189-206 | The fields become `SpawnerModel.Spawn` of the old ones. |
| SpawnerModel.GetRandomLocationInBox | Source/Sandbox/Core/SSpawner.cpp:133-179 | A search places at most one actor, keeps the map and never raises the budget. Its full effect, including the probe bound, is stated by `SearchBound` and `SearchEffects`. |
| SpawnerActor.Spawner.CheckSpawnPosition | Source/Sandbox/Core/SSpawner.cpp:158-179 | A blocked point is reported and changes nothing. A clear point is spawned on. |
| SpawnerActor.Spawner.GetRandomLocationInBox | Source/Sandbox/Core/SSpawner.cpp:133-156 | The probe loop ends where the recursive search ends. Loop invariant: searching on from the current fields gives what searching from the entry fields gives. |
| SpawnerProperties.SearchBound | Source/Sandbox/Core/SSpawner.cpp:133-179 | Each probe raises the counter, and no probe is made past 10, so a search makes at most 11 probes. Ground misses and blocked points both cost a probe. The search spawns at most once, at the first clear point, and otherwise ends with the counter at 11 and nothing else changed. |
| SpawnerProperties.SearchEffects | Source/Sandbox/Core/SSpawner.cpp:133-206 | One attempt from a reset counter appends at most the factory's actor, and appends it when the first probe is clear, the class is spawnable and the factory succeeds. For a null or non-actor class it appends nothing. Budget and class count drop only for the actor appended. |
| SpawnerModel.AdvanceOnce | Source/Sandbox/Core/SSpawner.cpp:212-218 | The class-change step as written: a current amount that is not 0 is kept. At 0 it moves at most one pair and adopts that pair whatever its amount. Map, list, budget, radius, interval and setup gate are untouched. `AdvanceEffects` states what the failing step does. |
| SpawnerModel.Advance | Source/Sandbox/Core/SSpawner.cpp:212-218 | The corrected class change lands on a class whose amount is not 0 or finishes the run; map, list and budget are untouched. |
| SpawnerProperties.AdvanceEffects | Source/Sandbox/Core/SSpawner.cpp:212-218 | Both class-change steps either move only the cursor or finish the run with a broadcast and ticking disabled. |
| SpawnerProperties.AdvanceQuota | Source/Sandbox/Core/SSpawner.cpp:212-218 | From a consistent ledger, the corrected step lands on a positive amount without changing what is pending, and it fails only when nothing is pending. |
| SpawnerModel.LoopFrom | Source/Sandbox/Core/SSpawner.cpp:208-233 | The remaining iterations of the loop, with either class-change step, keep the map, never raise the budget, and place at most one actor per remaining iteration. `LoopEffects` and `LoopQuota` state the rest. |
| SpawnerModel.SpawnLoop | Source/Sandbox/Core/SSpawner.cpp:208-233 | The whole loop keeps the map, never raises the budget, and places at most 2 actors. |
| SpawnerProperties.LoopEffects | Source/Sandbox/Core/SSpawner.cpp:208-233 | The remaining iterations of the loop place at most one actor each. They keep map, radius, interval and setup gate. A finite budget drops by exactly the number placed and never below 0, and -1 stays -1. The timer is at most disarmed. The delegate fires at most once, and only as the run finishes. |
| SpawnerActor.Spawner.SpawnLoop | Source/Sandbox/Core/SSpawner.cpp:208-233 | The for-loop and its inner class-change loop end where the corrected `SpawnLoop` ends. Invariants: the remaining iterations from the current fields equal the whole loop from the entry fields, and each class change leads where it would have led from the iteration's start. |
| SpawnerProperties.TickStartQuota | Source/Sandbox/Core/SSpawner.cpp:107-131 | The start of a tick, from a consistent ledger, adopts pair 0 when no class is current, or the next pair when the current one is used up. It does not change what is pending, and it fails only when nothing is pending. |
| SpawnerProperties.TickBounds | Source/Sandbox/Core/SSpawner.cpp:107-233 | A tick produces at most 2 actors and keeps map, radius, interval and setup gate. It never raises the budget or lets a finite one go below 0. It only disarms the timer. It fires the delegate at most once, with the full list's length, as it finishes the run. |
| SpawnerModel.SpawnActorsLoop | Source/Sandbox/Core/SSpawner.cpp:107-131 | A tick keeps the map, never raises the budget, and places at most 2 actors. With no current class and an empty map it only disarms the timer and disables ticking. `TickBounds`, `TickQuota` and `TickProgress` state the rest. |
| SpawnerModel.SpawnActorsLoopAsWritten | Source/Sandbox/Core/SSpawner.cpp:123-130 | As written, a tick fails exactly when no class is current and the map is empty, because it reads pair 0 unchecked. Otherwise it does what the guarded tick does. |
| SpawnerActor.Spawner.SpawnActorsLoop | Source/Sandbox/Core/SSpawner.cpp:107-131 | The fields become `SpawnerModel.SpawnActorsLoop` of the old ones, with the corrected loop and the empty-map guard. |
| SpawnerProperties.ExhaustedBudgetFinishes | Source/Sandbox/Core/SSpawner.cpp:219-231 | A tick that starts with a budget that is neither -1 nor positive places nothing and finishes the run with one broadcast. It disarms the timer when a class with amount left is current. With the corrected class change and a consistent ledger, it disarms the timer exactly when something is pending, whether the class was current, adopted from pair 0 or found further on. |
| SpawnerProperties.ExhaustedBudgetTimer | Source/Sandbox/Core/SSpawner.cpp:107-131 | With the corrected class change, a consistent ledger and an exhausted budget, the timer ends disarmed iff something is pending or it was not armed. |
| SpawnerProperties.LoopQuota | Source/Sandbox/Core/SSpawner.cpp:208-233 | From a consistent ledger, the loop keeps it consistent and produces only actors of classes in the map. Produced plus still owed is at most what was pending, and equal while the budget is -1 or stays positive. The delegate fires iff the run ends. |
| SpawnerProperties.TickQuota | Source/Sandbox/Core/SSpawner.cpp:107-233 | The same quota accounting for a whole tick, including the start step. |
| SpawnerProperties.TickProgress | Source/Sandbox/Core/SSpawner.cpp:107-233 | When probes and factory cooperate, every tick either finishes the run or produces at least one actor. |
| SpawnerProperties.RunQuota | Source/Sandbox/Core/SSpawner.cpp:107-242 | Over any number of ticks the ledger stays consistent, and every actor is of a class in the map. Produced plus owed is at most the pending quota, and equal while the budget lasts. A finite budget drops by exactly the number produced, and -1 never changes. The delegate fires once, exactly when the run finishes. |
| SpawnerProperties.RunTerminates | Source/Sandbox/Core/SSpawner.cpp:107-278 | When probes and factory cooperate, a run finishes within one more tick than its pending quota. |
| SpawnerProperties.RunProducesExactly | Source/Sandbox/Core/SSpawner.cpp:107-278 | When probes and factory cooperate, a run from no current class produces exactly: the sum of the amounts when the budget is -1; the lesser of budget and sum when the budget is non-negative; nothing when it is below -1. |
| SpawnerProperties.ApplyWellFormed | Source/Sandbox/Core/SSpawner.cpp:50-278 | Every host call keeps the actor well formed. Keys stay distinct, radius is in [100, 1000] and interval in [0, 300]. The cursor index and probe counter stay in range. Every broadcast's amount equals the length of its list. |
| SpawnerProperties.ApplyBudget | Source/Sandbox/Core/SSpawner.cpp:189-233 | No host call raises the budget. A non-negative budget never goes negative, and a negative one never changes. |
| SpawnerProperties.ApplySetupGate | Source/Sandbox/Core/SSpawner.cpp:244-260 | Once the setup gate is closed, no host call reopens it or enables ticking. |
| SpawnerProperties.ReplayInvariants | Source/Sandbox/Core/SSpawner.cpp:50-278 | Along any sequence of host calls the actor stays well formed, the budget is monotone, and a closed setup gate stays closed with ticking never switched on. |
| SpawnerProperties.SetupFailureIsPermanent | Source/Sandbox/Core/SSpawner.cpp:253-258 | A fresh actor whose overlap test finds nothing never ticks, whatever is called afterwards. |
| SpawnerProperties.UnspawnableLoopStalls | Source/Sandbox/Core/SSpawner.cpp:193-204 | Loop iterations whose current class the factory refuses change only the probe counter, because the amount never drops. |
| SpawnerProperties.UnspawnableTickStalls | Source/Sandbox/Core/SSpawner.cpp:107-113 | A tick whose current class is a non-actor class, with amount and budget left, produces nothing, keeps the cursor and fires no delegate, whatever the environment does. So the run never finishes. |
| SpawnerProperties.NullKeyRestartsRun | Source/Sandbox/Core/SSpawner.cpp:109-129 | With a null key behind `{A: 1}` and no limit, every tick spawns one more A, moves to the null key and fires no delegate. The next tick treats the null current class as "no class" and starts again from pair 0. |
| SpawnerProperties.TimerMidRunCutsBroadcast | Source/Sandbox/Core/SSpawner.h:87-91 | For `{A: 3}` with interval 5, the sequence `StartSpawn`, tick, timer, tick ends the run with one broadcast carrying one actor, though three were spawned. |
| SpawnerProperties.EmptyMapTickAfterRun | Source/Sandbox/Core/SSpawner.cpp:123-130 | After `SetParams({A: 1}, 100, 5)`, `StartSpawn` and one tick, the run is over and the timer is still armed. Then `SetParams({}, 100, 5)` and a firing enable a tick with no class and an empty map. As written that tick reads a missing pair 0; the guarded tick disarms the timer, disables ticking and places nothing. |
| Ledger.CheckClassValidityAsWritten | Source/Sandbox/Core/SSpawner.cpp:90-105 | The validity pass as written fails exactly when the map holds a null key. Otherwise it leaves the validated map. |
| Ledger.RemoveLoggedIsRemoveAll | Source/Sandbox/Core/SSpawner.cpp:100-104 | The removal loop as written fails iff a collected key is null; otherwise it removes exactly the collected keys. |
| Ledger.NullKeyCrashesAsWritten | Source/Sandbox/Core/SSpawner.cpp:100-104 | A map holding a null key makes the as-written removal loop dereference null, though the intended result (the empty map) is well defined. |
| SpawnerProperties.ZeroQuotaSpawnedAsWritten | Source/Sandbox/Core/SSpawner.cpp:212-222 | As written, the first tick over `{A: 1, B: 0}` spawns two actors, the second of class B, more than the map asks for. |
| SpawnerProperties.ZeroQuotaSkippedCorrected | Source/Sandbox/Core/SSpawner.cpp:212-222 | With the corrected class change, the same tick spawns one actor and finishes the run. |

## Left out

- Engine glue is not modelled: the constructor's component setup, `OnConstruction`, box extents, actor scale and the object types to trace. The `BeginPlay` wrapper (check, then `StartSpawn` when `bStartOnBeginPlay`) and the `Tick` wrapper around `SpawnActorsLoop` are the `BeginPlayCheck`, `StartSpawnCall` and `TickCall` operations of `SpawnerModel.Op`.
- Geometry is not modelled: `RandPointInBox`, the line trace, the sphere trace, the overlap test and vector arithmetic. Each probe's outcome, the factory's result and the overlap count are inputs.
- The timer manager and the tick machinery are booleans (`timerArmed`, `tickEnabled`, `canEverTick`). A timer firing is the host calling `StartTick`.
- Logging (`UE_LOG`) is not modelled. The multicast delegate is a ghost log of broadcasts, with no subscribers.
- Radius and interval are reals, so float rounding is not modelled.
- `TMap` slot addressing is not modelled. The map is a dense sequence indexed by `ClassIndex`, and three engine behaviours are not captured:
  - `Remove` in `CheckClassValidity` can leave a hole, which makes `IsValidId` fail early.
  - A later `FindOrAdd` or `Append` reuses a freed slot, so a new key can sit before older keys instead of after them.
  - When the freed slot is slot 0, `SpawnActorsLoop` reads pair 0 from it unchecked (`Get(FromInteger(0))`).
  The lemmas about a run assume the map is not changed while the run is in progress.
- Class pointers are abstract (`ClassRef`); `IsChildOf` is a flag on the class.
- `SpawnerModel.CanApply` states what the host's calls themselves ensure: the timer fires only while armed, ticks come only while ticking is enabled, and a map argument has distinct keys. Nothing keeps the map non-empty while the timer is armed, so a tick with no current class can meet an empty map (`EmptyMapTickAfterRun`). The source reads pair 0 unchecked there; the model runs the guarded tick instead (see Findings).
- SpawnerProperties.AdvanceQuota, TickStartQuota, LoopQuota, TickQuota, TickProgress, RunQuota, RunTerminates and RunProducesExactly assume a consistent ledger (`Consistent`), for three reasons:
  - The map must be non-empty. With an empty map a tick with no class does not start a run (see Findings).
  - Amounts must be non-negative. `Spawn` lowers only positive counts, so a negative amount never reaches 0 and its class is spawned until the budget stops it.
  - Every key must be spawnable, as `CheckClassValidity` leaves the map. `ChangeAmountToSpawn` does not validate, so it can put in a null or non-actor key that the factory always refuses. With such a key the run never finishes: see `UnspawnableTickStalls` and `NullKeyRestartsRun`.
- SpawnerProperties.RunQuota, RunTerminates and RunProducesExactly describe a run as a sequence of ticks only. A timer firing (`StartTick`) or a `StartSpawn` call during a run is excluded. Such a firing empties the produced list without resetting the cursor, so the run's one broadcast no longer covers every actor of the run (`TimerMidRunCutsBroadcast`).
- SpawnerProperties.RunTerminates and RunProducesExactly are proved only when each attempt's first probe is clear and the factory succeeds. Under a hostile environment a run can tick forever, as the source can.
- The constants `SpawnPerFrame`, `MinRadiusOfSpawn`, `MaxRadiusOfSpawn` and `MaxIntervalOfSpawn` are Dafny `const`s, so no operation can change them.
- The public `GlobalSpawnLimit` may be written by other code at any time. The model changes it only through the spawner's own operations.

## Findings

| source | as written | input that shows it | evidently intended | confidence | as-written member | corrected member |
|---|---|---|---|---|---|---|
| Source/Sandbox/Core/SSpawner.cpp:212-222 | When the current count is 0, `SpawnLoop` moves to the next pair once and attempts a placement without checking that pair's amount. | Map `{A: 1, B: 0}`, limit -1, clear probes: the first tick spawns A and then one B. | Skip every pair whose amount is 0, so a run produces exactly the sum of the amounts. | medium, not executed | SpawnerProperties.ZeroQuotaSpawnedAsWritten | SpawnerModel.Advance (proved in SpawnerProperties.AdvanceQuota, RunProducesExactly, ZeroQuotaSkippedCorrected) |
| Source/Sandbox/Core/SSpawner.cpp:100-104 | The removal loop logs `*Class->GetName()` for every collected key, including a null one, which dereferences null. | `ChangeAmountToSpawn(nullptr, 1)` then `AddClassToSpawn({})`. | Remove the null key without naming it. | medium (the log line is compiled out when logging is disabled), not executed | Ledger.CheckClassValidityAsWritten, Ledger.NullKeyCrashesAsWritten | Ledger.Validated (proved in Ledger.ValidatedFind, ValidatedIdempotent) |
| Source/Sandbox/Core/SSpawner.cpp:123-130 | With no current class, `SpawnActorsLoop` reads `Get(FSetElementId::FromInteger(0))` without checking that the map has a pair. | `SetParams({A: 1}, 100, 5)`, `StartSpawn`, one tick (the run ends through `FindNextSpawnParameters`, which leaves the timer armed), `SetParams({}, 100, 5)`, then the timer fires and the actor ticks. | Check `IsEmpty` first and, as `StartSpawn` does for an empty map, stop the timer (and ticking) instead of reading pair 0. | medium, not executed | SpawnerModel.SpawnActorsLoopAsWritten, SpawnerProperties.EmptyMapTickAfterRun | SpawnerModel.SpawnActorsLoop (proved in SpawnerProperties.EmptyMapTickAfterRun, ApplyWellFormed, ReplayInvariants) |
