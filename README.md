# Elevator simulator: a verified model of its decision logic

This project models the sequential core of a small multi-car elevator
simulator, written in Python, in Dafny, and proves properties of that model.
Three Python files are covered:

- `models.py`: riders, elevator cars with their kinematics and door counters,
  and the building.
- `controller.py`: the dispatch controller, with its `min_wait` and `min_idle`
  strategies.
- `simulation.py`: one tick of the simulation loop. This covers the scenario
  drain, the rider life cycle, the normal stop handling and the fire override,
  plus the alarm switches, the stop request and the statistics snapshot.

Modules follow the program's structure:

| module | file | models |
|---|---|---|
| `Common` | common.dfy | exceptions as values (`Fault`, `Outcome`), directions, Python's `list.remove`, filters and truncation |
| `Sorting` | sorting.dfy | the stable `list.sort(key=...)`, proved sorted and a permutation |
| `Models` | models.dfy | `Person`, the class `Elevator`, the class `Building` |
| `Dispatch` | dispatch.dfy | the strategies as pure selection functions, and the class `Controller`, whose loop methods are proved against them |
| `Engine` | engine.dfy | the class `Simulation`, with one method per step of a tick, each proved against a function on a snapshot of the state |

Riders are records (`Person`) in a map from id to record. The roster, the
waiting queues and the cars' passenger lists hold ids. Python exceptions
that can escape a tick are modelled as an `Outcome`. These are:

- `KeyError` for a floor that is not a key of `waiting_queues`;
- `IndexError` or `ValueError` from `_choose_elevator` when there is no car;
- `ValueError` from `people.remove` during a fire evacuation.

## Model

| member | source | states |
|---|---|---|
| Models.TargetChoices | models.py:31-33 | the choices are every floor of 1..num_floors except the origin; when no such floor exists they are exactly [1] |
| Models.ChooseTarget | models.py:29-36 | the target is one of the choices. If some other floor exists, it lies in 1..num_floors and differs from the origin; otherwise it is 1. The state becomes waiting, the decision time is `now`, and nothing else changes |
| Models.WaitTime | models.py:38-41 | zero unless both time stamps are set and non-zero; otherwise enter time minus decision time, non-negative when they are in order |
| Models.SortedTargetsOrder | models.py:78-86 | sorting is a permutation of a duplicate-free list. The result is strictly ascending going up, strictly descending going down, and non-decreasing in distance from the car when idle |
| Models.AddedTargetsProperties | models.py:70-73 | `add_target` keeps the list duplicate-free and includes the floor. Its set is the old set plus the floor, re-adding a present floor changes nothing, and a new floor adds exactly one element |
| Models.ClampSpeed | models.py:134-136 | the clamped velocity lies in [-max_speed, max_speed] and is unchanged when it already did |
| Models.StepProperties | models.py:92-143 | the car moves iff its doors are shut, it has a target and it has not arrived. Open doors zero the velocity and nothing else. No targets stop it and make it idle. Arrival within 0.05 metres snaps it to the target floor at rest. A moving step keeps the speed within the limit, heads up or down by the sign of the remaining distance, and advances the position by velocity times dt metres, that is by velocity times dt over the floor height in floors |
| Models.MovedProperties | models.py:131-143 | a travelling step stays within the speed limit, heads by the sign of the distance and moves velocity times dt metres (velocity times dt over the floor height, in floors) |
| Models.DistanceSign | models.py:101-116 | the distance to the target is positive exactly when the target floor is above the car |
| Models.Elevator.constructor | models.py:49-68 | a new car is at floor 1, at rest, doors shut, with no targets or passengers, idle, with zero counters and the given id and limits |
| Models.Elevator.AddTarget | models.py:70-73 | the new target list is `old` if the floor is present, else the old list plus the floor, re-sorted for the current direction and position |
| Models.Elevator.DropTarget | simulation.py:175-176 | removes the first occurrence of the floor, after which the floor is no longer a target |
| Models.Elevator.ClearTargets | models.py:75-76 | the target list becomes empty, and the car stays valid |
| Models.Elevator.SortTargets | models.py:78-86 | the target list becomes its direction-dependent stable sort, still duplicate-free |
| Models.Elevator.UpdatePhysics | models.py:88-143 | the new position, velocity, heading and the returned flag are exactly one kinematic `Step` of the old ones |
| Models.Elevator.Advance | models.py:115-142 | the new motion is the speed-limited travelling step |
| Models.Elevator.OpenDoors | models.py:145-151 | opening shut doors counts one trip, and one empty trip iff the car has no passengers. On open doors it changes nothing. It keeps empty trips at most trips |
| Models.Elevator.CloseDoors | models.py:153-154 | afterwards the doors are shut |
| Models.FloorSet | models.py:162 | the set of floors 1..num_floors |
| Models.Building.constructor | models.py:157-162 | the cars have ids 1..n, capacity 8, top speed 2.0 and acceleration 1.0, all in their initial state. The roster is empty and each floor 1..num_floors has an empty queue |
| Models.Building.CreatePerson | models.py:13-27 | a fresh rider gets the next id, is deciding at its origin with no target, and the counter moves by one |
| Models.Building.AddPerson | models.py:164-165 | appends the rider to the roster and touches nothing else |
| Dispatch.MinWaitScan | controller.py:46-67 | the pick is None iff every car is full. Otherwise it is a car that is not full, with minimal score among the cars that are not full, and no earlier car that is not full scores as low |
| Dispatch.FewerStopsWin | controller.py:55-66 | of two idle, equidistant cars with equal top speed, the one with more pending stops is not chosen |
| Dispatch.IdleBeatsMovingAway | controller.py:55-62 | for callers on floors 1..20, an idle car beats an equally placed car that is moving away from the caller |
| Dispatch.MovingAwayWinsAboveTwenty | controller.py:59-60 | above floor 20 the downward penalty is negative: for a caller on floor 26, a car at 25 moving down wins over an idle car at 25 |
| Dispatch.CandidateScanFacts | controller.py:72-78 | the candidates are exactly the cars that are not full and are idle or on the way, in list order |
| Dispatch.PoolFacts | controller.py:72-81 | the pool is the candidates when there are any, otherwise every car, including full ones, in list order |
| Dispatch.NearestScanFacts | controller.py:84 | `min(..., key=distance)` returns a car of minimal distance, the first such one |
| Dispatch.MinIdle | controller.py:69-84 | `min_idle` picks a car iff there is a car at all |
| Dispatch.MinIdleChoice | controller.py:69-84 | the pick is in the pool, at minimal distance, with no earlier pool car as close. It is a candidate whenever any candidate exists |
| Dispatch.FallbackChoosesFullCar | controller.py:80-81 | with no candidate, a full car can be picked |
| Dispatch.ChooseCases | controller.py:38-44 | `min_wait` returns nothing iff all cars are full, never a full car, and never raises. `min_idle` raises `ValueError` iff there are no cars. Any other name picks car 0, or raises `IndexError` on an empty fleet |
| Dispatch.AddToFacts | controller.py:36 | adding a floor to one car changes only that car's targets, by that floor, and keeps them duplicate-free |
| Dispatch.FloorStepUnclaimed | controller.py:14-36 | on a floor with riders that no passenger-less car targets, the step applies the strategy's pick |
| Dispatch.StepFacts | controller.py:14-36 | one floor step changes only targets, keeps them duplicate-free, and adds the floor exactly to the chosen car when it is calling and unclaimed |
| Dispatch.AssignFrom | controller.py:12-36 | `assign` keeps the number of cars and their drivability |
| Dispatch.AssignFromSame | controller.py:12-36 | `assign` changes nothing about a car but its targets |
| Dispatch.AssignFromGrows | controller.py:12-36 | `assign` keeps targets duplicate-free and never drops one |
| Dispatch.AssignFromAddsCalls | controller.py:14-32 | every added target is a floor with riders waiting that was not already claimed |
| Dispatch.AssignFromAddsOnce | controller.py:34-36 | no floor is added to two cars |
| Dispatch.AssignFromFaults | controller.py:34-44 | `assign` raises iff the fleet is empty, some floor is calling and the strategy is not `min_wait`. The fault is `ValueError` for `min_idle` and `IndexError` otherwise |
| Dispatch.AssignFromServes | controller.py:12-36 | unless `min_wait` faces only full cars, after `assign` every calling floor is some car's target |
| Dispatch.AssignFromStable | controller.py:23-32 | when every calling floor is already claimed, `assign` changes nothing |
| Dispatch.AssignIdempotentWhenEmpty | controller.py:12-36 | with no passengers on board, a second `assign` changes no targets |
| Dispatch.AssignNotIdempotentWithPassengers | controller.py:25 | with passengers on board, a second `assign` adds the same floor to a second car |
| Models.SingleTarget | models.py:70-73 | adding a floor to an empty target list gives just that floor |
| Dispatch.Controller.constructor | controller.py:6-7 | the strategy is the given name |
| Dispatch.Controller.SetStrategy | controller.py:9-10 | only the strategy name changes |
| Dispatch.Controller.StrategyMinWait | controller.py:46-67 | the accumulator loop computes the `min_wait` selection |
| Dispatch.Controller.MinIdleCandidates | controller.py:72-78 | the loop computes the candidate list |
| Dispatch.Controller.Nearest | controller.py:84 | the loop finds the first nearest car of the pool |
| Dispatch.Controller.StrategyMinIdle | controller.py:69-84 | the method computes the `min_idle` selection |
| Dispatch.Controller.ChooseElevator | controller.py:38-44 | the method computes the strategy dispatch of `Choose` |
| Dispatch.Controller.IsClaimed | controller.py:23-30 | true iff some passenger-less car targets the floor |
| Dispatch.Controller.Retarget | controller.py:36 | one car's `add_target` leaves the fleet as `AddTo` says |
| Dispatch.Controller.ApplyPick | controller.py:35-36 | a pick adds the floor to that car, no pick changes nothing, and a fault is returned |
| Dispatch.Controller.AssignUnclaimed | controller.py:34-36 | chooses with the active strategy and applies the pick |
| Dispatch.Controller.AssignFloor | controller.py:15-36 | one iteration of the floor loop of `assign` |
| Dispatch.Controller.Assign | controller.py:12-36 | the floor loop leaves the cars and the outcome as `AssignCalls` says: floors ascending, stopping at the first fault |
| Engine.TriggerFacts | simulation.py:221-226 | raising the alarm sets the flag. From inactive it counts exactly one alarm and records the start; when already active it changes nothing. Raising it twice is raising it once |
| Engine.StopFacts | simulation.py:228-234 | clearing the alarm unsets the flag and keeps the count. When inactive it changes nothing, and clearing twice is clearing once. With a start time it adds `now - start` (non-negative when in order) and forgets the start |
| Engine.SpawnedFacts | simulation.py:107-117 | a spawn of `count` appends exactly `count` consecutive new ids to the roster (none for count <= 0) and leaves the alarm alone |
| Engine.SpawnedStore | simulation.py:111-117 | the new riders are deciding at the spawn floor, created at `now`, and all other riders are unchanged |
| Engine.ApplyEventFacts | simulation.py:105-121 | a spawn without count or floor makes one rider at floor 1. Fire events touch only the alarm, and unknown actions change nothing |
| Engine.JoinedQueues | simulation.py:70-78 | after the roster pass, each queue is the old queue followed by, in roster order, the riders who decided for that floor |
| Engine.ApplyFacts | simulation.py:138-188 | each mark (evacuated at lines 138-139 and 151-152, delivered at 171-172, on board at 187-188) sets its state and its time stamp, keeps id, origin and target, is idempotent and keeps a rider consistent |
| Engine.ArrivalFacts | simulation.py:166-176 | exactly the passengers bound for the floor get off. Their number is added to the transported count, they are stamped delivered at `now`, nobody else changes, and the floor leaves the targets |
| Engine.BoardTargetsMembers | simulation.py:189-191 | after boarding, the targets are the old ones plus each boarder's target, duplicate-free |
| Engine.BoardingFacts | simulation.py:179-191 | boarding is FIFO: the boarders are a prefix of the queue and are appended after the old passengers. The capacity is respected, a queue is left non-empty only when the car is full, other floors' queues are unchanged, and boarders are in the car from `now`. The targets are as stated above, and the transported count is unchanged |
| Engine.MovedBackPermutes | simulation.py:137-144 | moving evacuees to the end of the roster keeps it the same multiset |
| Engine.MovedBackOrder | simulation.py:137-144 | for a duplicate-free roster, the result is the roster without the evacuees followed by the evacuees in car order |
| Engine.DrainedAll | simulation.py:147-152 | draining every floor in ascending order empties every queue and marks everybody who was queued |
| Engine.DrainMaximal | simulation.py:61-67 | in a sorted scenario, once the next event lies in the future so do all later ones |
| Engine.Simulation.constructor | simulation.py:10-32 | not stopped, running, no scenario, no alarm, zero counters |
| Sorting.SortByStable | simulation.py:36 | the sort is stable: for each key, the elements with that key keep their relative order |
| Engine.Simulation.LoadScenario | simulation.py:34-36 | the scenario becomes a permutation of the events, sorted by time (the stable sort) |
| Engine.Simulation.TriggerFire | simulation.py:221-226 | the alarm fields become `Triggered` of the old ones |
| Engine.Simulation.StopFire | simulation.py:228-234 | the alarm fields become `Stopped` of the old ones |
| Engine.Simulation.Spawn | simulation.py:111-117 | the roster, the store and the id counter become `Spawned` of the old ones, and no queue changes |
| Engine.Simulation.ProcessEvent | simulation.py:105-121 | the state becomes `ApplyEvent` of the old one |
| Engine.Simulation.DrainScenario | simulation.py:59-67 | processes in order exactly the maximal run of due events from the cursor. The cursor only grows, stays within the scenario, and then points at the end or at a future event |
| Engine.Simulation.DecideRider | simulation.py:72-78 | the rider chooses a valid target, and nobody else changes. It joins the back of its origin's queue, or the step raises `KeyError(origin)` when that floor has no queue |
| Engine.Simulation.DropRider | simulation.py:83-90 | removes the rider's first occurrence from the roster |
| Engine.Simulation.AdvanceRider | simulation.py:70-90 | one rider's step: it raises iff the rider decides for a floor without a queue |
| Engine.Simulation.AdvancePersons | simulation.py:69-90 | the pass over a copy of the roster completes iff nobody is stranded. On completion the crowd is as `AdvancedTo` describes; a failure is a `KeyError` for a floor without a queue |
| Engine.Simulation.UnloadOne | simulation.py:167-172 | one passenger gets off if bound for the floor, counted and stamped delivered |
| Engine.Simulation.Unload | simulation.py:166-172 | the kept passengers are those not bound for the floor, in order. Every rider who got off is counted and stamped delivered |
| Engine.Simulation.TakeFront | simulation.py:183-188 | pops the front of the queue and stamps that rider on board |
| Engine.Simulation.BoardOne | simulation.py:182-191 | one boarding step: the front rider joins the car and adds its target |
| Engine.Simulation.Embark | simulation.py:189 | the rider is appended to the passengers |
| Engine.Simulation.AddCarTarget | simulation.py:190-191 | the car's targets become `AddedTargets` of the old ones |
| Engine.Simulation.BoardLoop | simulation.py:182-191 | the loop boards the queue's riders in order until it is empty or the car is full |
| Engine.Simulation.Board | simulation.py:179-191 | the stop's state becomes `AfterBoarding` of the old one |
| Engine.Simulation.OpenCar | simulation.py:162-163 | the car's `open_doors` |
| Engine.Simulation.CloseCar | simulation.py:196 | the doors end shut |
| Engine.Simulation.DropCarTarget | simulation.py:174-176 | removes the floor from the car's targets if present |
| Engine.Simulation.Alight | simulation.py:166-176 | the stop's state becomes `AfterArrival` of the old one |
| Engine.Simulation.ArriveAt | simulation.py:161-176 | opens the doors, counting a trip only if they were shut, then unloads and drops the floor |
| Engine.Simulation.ServeStop | simulation.py:160-196 | a stop raises `KeyError` iff the floor has no queue. Otherwise it unloads, drops the target, boards and ends with the doors shut; the doors stay open only on the fault |
| Engine.StopFloor | simulation.py:160-161 | a car serves a stop iff after its physics step it is not moving and its doors were open or its first target is its truncated position; the stop is at that truncated position |
| Engine.Simulation.ServeElevator | simulation.py:155-196 | the car's position, velocity and heading become one kinematic `Step` of the old ones, and a stop is served exactly at `StopFloor`. Without a stop the outcome is `Done`, the doors stay shut, and the passengers, targets, transported count, riders, queues and trip counters are unchanged. At a stop it raises `KeyError` iff the floor has no queue, and the doors stay open only on that fault. Trips are counted as by `open_doors`, and the passengers, transported count, targets, riders and queues become the arrival followed, unless it raises, by boarding (`AfterArrival` then `AfterBoarding`) |
| Engine.Simulation.ServeCar | simulation.py:155-196 | one car of the normal loop: the doors end shut unless a `KeyError` for a floor without a queue is raised |
| Engine.Simulation.NormalLogic | simulation.py:154-196 | every car in order; on completion every car's doors are shut |
| Engine.Simulation.MarkEvacuated | simulation.py:138-139 | stamps the rider evacuated at `now` |
| Engine.Simulation.LeaveCar | simulation.py:140 | removes the rider from the passengers |
| Engine.Simulation.MoveToBack | simulation.py:141-144 | moves the rider to the end of the roster, or raises `ValueError` when it is not on it; either way the roster keeps its multiset |
| Engine.Simulation.EvacuateOne | simulation.py:137-144 | one rider is evacuated from the car, or `ValueError` is raised. On both paths the rider has left the car, the rider's record alone is stamped evacuated and the roster keeps its multiset |
| Engine.Simulation.Evacuate | simulation.py:137-144 | completes iff every passenger is on the roster. The car is then empty and the roster keeps its multiset, with the evacuees moved to its end. Every passenger is stamped evacuated at `now`. Also when it fails, the roster keeps its multiset, no record is added or removed, and only the records of the car's passengers change. The riders still aboard are always a final segment of the old passenger list |
| Engine.Simulation.Recall | simulation.py:126-127 | clears the targets and adds floor 1: the targets are exactly [1] |
| Engine.Simulation.FireApproach | simulation.py:126-132 | targets [1]. The doors are forced shut unless the car is at floor 1, and the new position, velocity, heading and the `moving` flag are exactly one kinematic `Step` towards floor 1 with those doors. Open doors are left only at floor 1 with the car halted |
| Engine.Simulation.LobbyEvacuate | simulation.py:134-144 | opens the doors, counting one trip (and an empty trip iff no passengers) only if they were shut. It completes iff every passenger is on the roster; the car is then empty, the evacuees are moved to the end of the roster and stamped evacuated at `now`. On every path the roster keeps its multiset and only the passengers' records change |
| Engine.Simulation.FireElevator | simulation.py:125-144 | targets [1]. The motion is one kinematic `Step` towards floor 1 with the doors forced shut away from it, and the doors end open iff the car then stands at floor 1. Only then are they opened (a trip, and an empty trip iff no passengers, when they were shut) and the car evacuated; otherwise passengers, roster, riders and trip counters are unchanged. The transported count never changes, and the only fault is `ValueError`. On every path the roster keeps its multiset, no record is added or removed, and only the records of the car's old passengers change |
| Engine.Simulation.PopEvacuated | simulation.py:150-152 | pops the back of the queue and stamps that rider evacuated |
| Engine.Simulation.DrainFloor | simulation.py:148-152 | empties one queue and stamps every rider in it evacuated |
| Engine.Simulation.FireDrain | simulation.py:147-152 | empties every queue and stamps everybody queued evacuated at `now` |
| Engine.Simulation.FireCar | simulation.py:125-144 | one car of the fire pass: the only fault is `ValueError`, and on completion the car is recalled. The roster keeps its multiset and only the records of the car's old passengers change |
| Engine.Simulation.FireCars | simulation.py:125-144 | every car in list order: on completion all are recalled. On every path the roster keeps its multiset, no record is added or removed, and riders who were aboard no car keep their records |
| Engine.Simulation.FireLogic | simulation.py:123-152 | on completion every car has targets [1] (an open car is at floor 1 and empty), every queue is empty and every previously queued rider is evacuated at `now`. A failure is a `ValueError` that leaves the queues alone. On every path the roster keeps its multiset, no record is added or removed, and riders who were neither queued nor aboard keep their records |
| Engine.Simulation.Clock | simulation.py:50-67 | simulated time advances by `real_dt * speed`. Then exactly the maximal run of events from the cursor that are due at the new time is processed, in order: the alarm, roster, riders and id counter become `ApplyRange` of those events, the cursor moves past them, and no later event is due |
| Engine.Simulation.ElevatorLogic | simulation.py:92-97 | under the alarm, on completion, all cars are recalled, all queues empty and every previously queued rider evacuated at `now`; on every path under the alarm the roster keeps its multiset and riders neither queued nor aboard keep their records. Otherwise `assign` runs and then the normal logic, after which every car's doors are shut |
| Engine.Simulation.Tick | simulation.py:50-97 | one tick keeps the simulation's invariant and advances simulated time. Afterwards no remaining event is due, and the elevator step's guarantees hold |
| Engine.Simulation.StopSim | simulation.py:211-219 | succeeds iff every car is empty, at rest and at an integral floor. On success the stop and run flags are set; otherwise nothing changes |
| Engine.Simulation.GetStats | simulation.py:236-245 | the snapshot holds the sum of the cars' transported counts, the alarm count and duration, and the simulated time |

## Left out

- Threads: the `Thread` subclass, the `Event` and `RLock` waits, `start_sim`, `pause_sim`, `resume_sim`, the sleep pacing and `ui_callback` (simulation.py:9-19, 38-44, 99-103, 199-209). They are scheduling, not decision logic; the stop and pause events are plain booleans.
- `time.time()`: it becomes the `now` parameter. `real_dt` (simulation.py:46-48) and `speed_multiplier` are parameters of `Tick`.
- `random.choice`: modelled as a nondeterministic choice among the choices.
- Floating point: the kinematics and time arithmetic use exact reals. The contracts state the guard, snap, clamp and heading properties, not IEEE trajectories.
- `Person._id_counter` is the field `Building.nextId`, not a process-wide global.
- The unused `target` override of spawn events (simulation.py:110-116) and the `door_timer` write (simulation.py:164) have no effect on the state and are not modelled.
- An event's `time` key is always present. The default `0` of `load_scenario`'s key and the `KeyError` of `ev['time']` are not modelled.
- `get_stats` returns a snapshot of the counters, without the live elevator objects.
- main_app.py is not part of this model. It is the user interface and file input and output, including its range check of the configuration.
- The loop `for floor in waiting_queues` visits floors 1..num_floors in ascending order. This is the dictionary's insertion order, since the building invariant keeps the keys exactly those floors.
- The scenario cursor, a local of `run` in the source, is the field `cursor`; `load_scenario` does not reset it.
- The roster clean-up of an evacuated rider (simulation.py:86-90) assumes `delivered_at` is set. The building invariant guarantees that every delivered or evacuated rider carries a time stamp, so the `TypeError` the source would raise otherwise is not modelled.
- Models.Elevator.constructor: requires a positive top speed and acceleration. `Building` always passes 2.0 and 1.0, and a zero acceleration would divide by zero in the braking test of the source.
- Dispatch.WaitScore: requires a positive top speed. Every car built by `Building` has top speed 2.0, and a zero speed would divide by zero in the source.
- Models.Building.AddPerson: requires the rider not to be on the roster yet. The source appends unconditionally, but it is only ever called with a freshly created rider, and the roster's freedom from duplicates depends on it.
- Engine.Simulation.Tick: does not state the full new state of the riders and cars. The steps it is made of (`Clock`, `AdvancePersons`, `ElevatorLogic`) each carry their own contract; those of `ElevatorLogic` are weaker, as the next line says.
- Engine.Simulation.ElevatorLogic: in the normal branch it states the closed doors and the fault, not the targets `assign` added. `Dispatch.Controller.Assign` states those.
- Engine.Simulation.NormalLogic: states per tick only the closed doors and the fault kind. The per-car effect is `ServeElevator`'s contract, which the loop body `ServeCar` calls.

## Where the model follows the code rather than the intuitive design

- The arrival tolerance is 0.05 metres, with a floor height of 3.0 (models.py:88, 102-108), not 0.05 floors.
- A floor counts as already assigned only if a car *with no passengers* targets it (controller.py:25). As a consequence `assign` is idempotent only when no car carries passengers (`Dispatch.AssignIdempotentWhenEmpty`). With passengers aboard, a second call sends a second car (`Dispatch.AssignNotIdempotentWithPassengers`).
- The downward penalty of `min_wait` uses a fixed 20 (controller.py:59-60). Above floor 20 it is negative, so a car moving down and away from the caller can beat an idle car at the same place (`Dispatch.MovingAwayWinsAboveTwenty`). `Dispatch.IdleBeatsMovingAway` is stated for callers on floors 1..20.
- The `min_idle` fallback includes full cars (controller.py:80-81; `Dispatch.FallbackChoosesFullCar`).
- The fire-alarm counter increments when the alarm is raised, not when it is cleared (simulation.py:226).
