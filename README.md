# YuSandbox core, modelled in Dafny

YuSandbox is an Android gravity sandbox. This project models three parts of it.

- **The simulator** (`Simulator`):
  - the object list with its de-duplicating `addObject`;
  - the `setDelta` clamp;
  - the run-state machine `IDLE / RUNNING / PAUSE / STOPPED` driven by `start`, `pause`, `resume`, `stop` and `reset` and by the life of the submitted simulation task;
  - the tick of the worker thread: forces, then velocities, then positions, the sleep decision, `currentTPS` and `totalStep`.
- **The id-keyed object store** (`SimObjectStoreProviderImpl`): two maps that are inverses of each other, and an id counter that only grows.
- **The renderer's per-object trail buffers and tap selection** (`SimCanvas`): a bounded FIFO of `(offset, frame)` entries per object, and a one-shot selection flag.

Modules:

- `Vectors`: `Vec3` over exact reals. The Euclidean norm is a function parameter constrained by `IsNorm`: non-negative, with its square equal to the squared length.
- `Kernel`: value snapshots (`Body`) of the objects. It defines `calForce`, the net force `updateForces` leaves on each object, and one tick (`Step`) and `n` ticks (`Steps`) of the semi-implicit Euler step.
- `Objects`: `SimObject` as a class whose identity is its reference, and `Lookup = Void | Found(obj)` standing for `SimObject.VOID`.
- `Collections`: the absence of duplicates and the "add unless present" append.
- `ObjectStore`: `SimObjectStoreProviderImpl` as a class over two maps and a counter.
- `RunState`: the run-state machine on values. `Control(status, tasks)` lists every submitted task as `Task(cancelled, phase)`; the last one is `simulationFuture`.
- `Simulation`: the `Simulator` class. Its command and tick methods are proved against `RunState` and `Kernel`.
- `Trails`: the trail update and the drawing pass of `SimCanvas` as a class over a map of sequences.

The executor and the future appear as explicit events:
- the worker starts a task, which is where `status = RUNNING` runs;
- the task fails;
- a cancelled task is interrupted in `Thread.sleep`.

`System.nanoTime()` readings are passed in as a `Clock` per tick. `Thread.sleep` is represented by its argument.

## Model

| member | source | states |
|---|---|---|
| Collections.AppendNew | app/src/main/java/top/sunrt233/toys/yusandbox/simulate/Simulator.kt:51-53 | the object is in the result; nothing else is added; a listed object leaves the list unchanged; otherwise it is appended at the end; the absence of duplicates is preserved |
| Collections.AppendNewIdempotent | app/src/main/java/top/sunrt233/toys/yusandbox/simulate/Simulator.kt:51-53 | adding the same object twice is the same as adding it once |
| Collections.AppendAll | app/src/main/java/top/sunrt233/toys/yusandbox/simulate/Simulator.kt:55-59 | the intended `addObjects`: every argument and every old element is in the result, nothing else is, the old list is a prefix, and no duplicates arise |
| Simulation.Simulator.constructor | app/src/main/java/top/sunrt233/toys/yusandbox/simulate/Simulator.kt:17-31 | a new simulator is idle, without future, objects or forces, at zero steps and zero rate, with `maxTimePerTick` from the expected rate |
| Simulation.Simulator.AddObject | app/src/main/java/top/sunrt233/toys/yusandbox/simulate/Simulator.kt:51-53 | the list becomes `AppendNew` of the old list; every other field is unchanged; the list stays free of duplicates |
| Simulation.Simulator.AddObjects | app/src/main/java/top/sunrt233/toys/yusandbox/simulate/Simulator.kt:55-59 | as written: all fields and the run state end exactly as they were, whatever the arguments |
| Simulation.AddObjectsIgnoresArguments | app/src/main/java/top/sunrt233/toys/yusandbox/simulate/Simulator.kt:55-59 | `addObjects(o)` on a fresh simulator leaves `o` out of the list |
| Simulation.Simulator.AddAll | app/src/main/java/top/sunrt233/toys/yusandbox/simulate/Simulator.kt:51-59 | the corrected `addObjects`: the list becomes `AppendAll` of the old list and the arguments; nothing else changes |
| Simulation.AddAllAddsArguments | app/src/main/java/top/sunrt233/toys/yusandbox/simulate/Simulator.kt:51-59 | the corrected `addObjects(o)` on a fresh simulator lists exactly `o` |
| Simulation.ClampDelta | app/src/main/java/top/sunrt233/toys/yusandbox/simulate/Simulator.kt:144-150 | the time step is never negative; a non-negative request is kept and a negative one becomes 0 |
| Simulation.ClampDeltaIdempotent | app/src/main/java/top/sunrt233/toys/yusandbox/simulate/Simulator.kt:144-150 | clamping twice is clamping once |
| Simulation.Simulator.SetDelta | app/src/main/java/top/sunrt233/toys/yusandbox/simulate/Simulator.kt:144-150 | `delta` becomes the clamped request and nothing else changes |
| RunState.Start | app/src/main/java/top/sunrt233/toys/yusandbox/simulate/Simulator.kt:61-64 | `start` keeps the invariant that a status other than `IDLE` implies an assigned future |
| RunState.StartOnlyFromIdle | app/src/main/java/top/sunrt233/toys/yusandbox/simulate/Simulator.kt:61-64 | `start` does nothing unless idle, and is `resume` when idle |
| Simulation.Simulator.Start | app/src/main/java/top/sunrt233/toys/yusandbox/simulate/Simulator.kt:61-64 | the simulator's run state moves as `RunState.Start` and its data is untouched |
| RunState.Stop | app/src/main/java/top/sunrt233/toys/yusandbox/simulate/Simulator.kt:66-71 | `stop` keeps the future invariant |
| RunState.StopEffect | app/src/main/java/top/sunrt233/toys/yusandbox/simulate/Simulator.kt:66-71 | `stop` does nothing when idle or when the future is already cancelled; otherwise it ends `STOPPED` with the current task cancelled, if it had not ended, and the earlier tasks kept |
| Simulation.Simulator.Stop | app/src/main/java/top/sunrt233/toys/yusandbox/simulate/Simulator.kt:66-71 | the run state moves as `RunState.Stop`; the data is untouched |
| RunState.StopAfterPauseKeepsPause | app/src/main/java/top/sunrt233/toys/yusandbox/simulate/Simulator.kt:66-71 | `stop` after a `pause` that took effect leaves the status `PAUSE` |
| RunState.Reset | app/src/main/java/top/sunrt233/toys/yusandbox/simulate/Simulator.kt:73-80 | the control part of `reset` keeps the future invariant |
| RunState.ResetEndsIdle | app/src/main/java/top/sunrt233/toys/yusandbox/simulate/Simulator.kt:73-80 | `reset` ends `IDLE` from any state and submits no task |
| Simulation.Simulator.Reset | app/src/main/java/top/sunrt233/toys/yusandbox/simulate/Simulator.kt:73-80 | `reset` ends `IDLE` with no objects, no forces, zero steps and zero rate, and the time step unchanged |
| RunState.Pause | app/src/main/java/top/sunrt233/toys/yusandbox/simulate/Simulator.kt:82-86 | `pause` keeps the future invariant |
| RunState.PauseEffect | app/src/main/java/top/sunrt233/toys/yusandbox/simulate/Simulator.kt:82-86 | `pause` acts only when running with an uncancelled future, and then ends `PAUSE` with the current task cancelled, if it had not ended; otherwise it does nothing |
| Simulation.Simulator.Pause | app/src/main/java/top/sunrt233/toys/yusandbox/simulate/Simulator.kt:82-86 | the run state moves as `RunState.Pause`; the data is untouched |
| RunState.Cancel | app/src/main/java/top/sunrt233/toys/yusandbox/simulate/Simulator.kt:69 | `cancel(true)` keeps the phase, marks a task that has not ended as cancelled, and leaves an ended task as it was |
| RunState.CancelCurrent | app/src/main/java/top/sunrt233/toys/yusandbox/simulate/Simulator.kt:84 | only the current future is cancelled; every earlier task is kept and the number of tasks is unchanged |
| RunState.Resume | app/src/main/java/top/sunrt233/toys/yusandbox/simulate/Simulator.kt:88-112 | `resume` keeps the future invariant |
| RunState.ResumeInstallsFreshTask | app/src/main/java/top/sunrt233/toys/yusandbox/simulate/Simulator.kt:88-95 | `resume` does nothing while running; otherwise it appends a fresh, uncancelled, not yet started task, keeps the earlier tasks and leaves the status to the worker |
| Simulation.Simulator.Resume | app/src/main/java/top/sunrt233/toys/yusandbox/simulate/Simulator.kt:88-112 | the run state moves as `RunState.Resume`; the data is untouched |
| RunState.WorkerStarts | app/src/main/java/top/sunrt233/toys/yusandbox/simulate/Simulator.kt:92-93 | the first statement of the task makes the status `RUNNING`; the future invariant holds afterwards |
| Simulation.Simulator.WorkerStarts | app/src/main/java/top/sunrt233/toys/yusandbox/simulate/Simulator.kt:92-93 | the status becomes `RUNNING` and the task is marked started; the data is untouched |
| RunState.WorkerFails | app/src/main/java/top/sunrt233/toys/yusandbox/simulate/Simulator.kt:102-106 | a failing task ends; the future invariant is kept |
| Simulation.Simulator.WorkerFails | app/src/main/java/top/sunrt233/toys/yusandbox/simulate/Simulator.kt:102-106 | a failure of an uncancelled task sets `STOPPED`; a cancelled task only ends |
| RunState.WorkerInterrupted | app/src/main/java/top/sunrt233/toys/yusandbox/simulate/Simulator.kt:133-134 | a cancelled task interrupted in its sleep ends; the future invariant is kept |
| RunState.StopBeforeWorkerStartIsIgnored | app/src/main/java/top/sunrt233/toys/yusandbox/simulate/Simulator.kt:61-93 | a `stop` between `start` and the worker's first statement is ignored, because the status is still `IDLE`; the task then runs |
| RunState.SecondStartLeavesFirstTaskLive | app/src/main/java/top/sunrt233/toys/yusandbox/simulate/Simulator.kt:61-95 | two `start` calls before the worker starts submit two tasks; `stop` cancels only the second, and the first can still start and set `RUNNING` |
| RunState.CommandSequenceEndsIdle | app/src/main/java/top/sunrt233/toys/yusandbox/simulate/Simulator.kt:61-112 | start, pause, resume, stop, reset end `IDLE` with both submitted tasks cancelled |
| Simulation.Session | app/src/main/java/top/sunrt233/toys/yusandbox/simulate/Simulator.kt:61-112 | the statuses along start, worker start, pause, resume, worker start, stop and reset on one simulator, and the reset leaves no objects and zero steps |
| Vectors.Add | app/src/main/java/top/sunrt233/toys/yusandbox/simulate/Simulator.kt:219-221 | the componentwise sum; `Vectors.AddSubInverse` states that subtracting either summand gives back the other and that `Zero` is neutral |
| Vectors.AddSubInverse | app/src/main/java/top/sunrt233/toys/yusandbox/simulate/Simulator.kt:219-225 | `minus` undoes `plus` on either side, and adding `Zero` changes nothing |
| Vectors.Sub | app/src/main/java/top/sunrt233/toys/yusandbox/simulate/Simulator.kt:223-225 | the componentwise difference; `Vectors.SubZeroIff` states that it is zero exactly for equal vectors |
| Vectors.SubZeroIff | app/src/main/java/top/sunrt233/toys/yusandbox/simulate/Simulator.kt:223-225 | the separation of two points is zero exactly when they coincide |
| Vectors.Scale | app/src/main/java/top/sunrt233/toys/yusandbox/simulate/Simulator.kt:227-229 | scaling by 1 keeps a vector and scaling by 0 gives `Zero` |
| Vectors.ScaleSquaredLength | app/src/main/java/top/sunrt233/toys/yusandbox/simulate/Simulator.kt:227-229 | scaling by `s` multiplies the squared length by `s * s` |
| Vectors.NormAt | app/src/main/java/top/sunrt233/toys/yusandbox/simulate/Simulator.kt:214-217 | what `norm` must be at a vector: non-negative, with its square equal to `x*x + y*y + z*z`; `IsNorm` asks it everywhere, and `NormOfNeg` and `NormOfZero` follow from it |
| Vectors.NormOfNeg | app/src/main/java/top/sunrt233/toys/yusandbox/simulate/Simulator.kt:214-217 | a vector and its opposite have the same norm |
| Vectors.NormOfZero | app/src/main/java/top/sunrt233/toys/yusandbox/simulate/Simulator.kt:214-217 | the zero vector has norm 0 |
| Vectors.Normalized | app/src/main/java/top/sunrt233/toys/yusandbox/simulate/Simulator.kt:209-212 | the vector times `1 / norm`; `Vectors.NormalizedIsUnit` states that it has length 1 |
| Vectors.NormalizedIsUnit | app/src/main/java/top/sunrt233/toys/yusandbox/simulate/Simulator.kt:209-212 | `normalized` of a vector with non-zero norm has squared length 1 |
| Kernel.Magnitude | app/src/main/java/top/sunrt233/toys/yusandbox/simulate/Simulator.kt:156 | the magnitude `G * m1 * m2 / (d * d)`; `Kernel.MagnitudeInverseSquare` states the inverse-square law |
| Kernel.MagnitudeInverseSquare | app/src/main/java/top/sunrt233/toys/yusandbox/simulate/Simulator.kt:156 | the magnitude times the squared separation is `G * m1 * m2` |
| Kernel.CalForce | app/src/main/java/top/sunrt233/toys/yusandbox/simulate/Simulator.kt:152-157 | the force is zero when the separation is below 4 |
| Kernel.SelfForceIsZero | app/src/main/java/top/sunrt233/toys/yusandbox/simulate/Simulator.kt:152-157 | an object exerts no force on itself |
| Kernel.CalForceAntisymmetric | app/src/main/java/top/sunrt233/toys/yusandbox/simulate/Simulator.kt:152-157 | the force of `b` on `a` is the opposite of the force of `a` on `b` |
| Kernel.SelfSkipIsRedundant | app/src/main/java/top/sunrt233/toys/yusandbox/simulate/Simulator.kt:159-166 | skipping the object itself, as `updateForces` does, gives the same sum as not skipping it |
| Kernel.TwoBodyNetForcesOpposite | app/src/main/java/top/sunrt233/toys/yusandbox/simulate/Simulator.kt:159-166 | with two objects the net forces are opposite |
| Kernel.Forces | app/src/main/java/top/sunrt233/toys/yusandbox/simulate/Simulator.kt:159-166 | the net force of every object, one per object |
| Kernel.PartialForce | app/src/main/java/top/sunrt233/toys/yusandbox/simulate/Simulator.kt:160-165 | the force accumulated on object `i` after the first `j` others in list order, skipping `i` itself; `Kernel.SelfSkipIsRedundant` states that the skip does not change the sum |
| Kernel.NetForce | app/src/main/java/top/sunrt233/toys/yusandbox/simulate/Simulator.kt:159-166 | the force `updateForces` leaves on object `i`; `Kernel.NetForceIsFullSum` states that it equals the sum over all objects including itself |
| Kernel.NetForceIsFullSum | app/src/main/java/top/sunrt233/toys/yusandbox/simulate/Simulator.kt:159-166 | the net force on an object is the full pairwise sum over every object, itself included |
| Simulation.Simulator.AccumulateForce | app/src/main/java/top/sunrt233/toys/yusandbox/simulate/Simulator.kt:160-165 | for one object, the force is reset to zero, then the pull of every other object is added in list order; no other entry and no other field changes |
| Simulation.Simulator.UpdateForces | app/src/main/java/top/sunrt233/toys/yusandbox/simulate/Simulator.kt:159-166 | afterwards every listed object has its net force; entries of unlisted objects are kept; nothing else changes |
| Simulation.ForcesOf | app/src/main/java/top/sunrt233/toys/yusandbox/simulate/Simulator.kt:168-172 | the forces the map holds for the listed objects, in list order |
| Kernel.Velocities | app/src/main/java/top/sunrt233/toys/yusandbox/simulate/Simulator.kt:168-172 | every velocity grows by force times `1 / mass` times `delta`, in order |
| Kernel.Accelerated | app/src/main/java/top/sunrt233/toys/yusandbox/simulate/Simulator.kt:170 | one object's velocity update; `Kernel.AcceleratedIsNewton` states mass times velocity change equals force times `delta` |
| Kernel.AcceleratedIsNewton | app/src/main/java/top/sunrt233/toys/yusandbox/simulate/Simulator.kt:170 | the mass times the velocity change is the force times `delta`; mass and position are kept |
| Simulation.Simulator.UpdateVelocities | app/src/main/java/top/sunrt233/toys/yusandbox/simulate/Simulator.kt:168-172 | the objects' snapshots become `Velocities` of their forces; masses and positions do not change |
| Kernel.Positions | app/src/main/java/top/sunrt233/toys/yusandbox/simulate/Simulator.kt:174-178 | every position grows by velocity times `delta` |
| Kernel.Moved | app/src/main/java/top/sunrt233/toys/yusandbox/simulate/Simulator.kt:176 | one object's position update; `Kernel.MovedByVelocity` states the shift |
| Kernel.MovedByVelocity | app/src/main/java/top/sunrt233/toys/yusandbox/simulate/Simulator.kt:176 | the position shifts by velocity times `delta`; mass and velocity are kept |
| Simulation.Simulator.UpdatePositions | app/src/main/java/top/sunrt233/toys/yusandbox/simulate/Simulator.kt:174-178 | the objects' snapshots become `Positions`; masses and velocities do not change |
| Kernel.Step | app/src/main/java/top/sunrt233/toys/yusandbox/simulate/Simulator.kt:126-128 | one tick keeps the number of objects and their masses |
| Kernel.StepEffect | app/src/main/java/top/sunrt233/toys/yusandbox/simulate/Simulator.kt:168-178 | in one tick each velocity changes by its net force from the old positions, and each position moves by its new velocity |
| Kernel.FrozenWhenDeltaZero | app/src/main/java/top/sunrt233/toys/yusandbox/simulate/Simulator.kt:168-178 | with a time step of 0 a tick changes nothing |
| Kernel.Steps | app/src/main/java/top/sunrt233/toys/yusandbox/simulate/Simulator.kt:123-141 | `n` ticks keep the number of objects and their masses |
| Kernel.FrozenStepsWhenDeltaZero | app/src/main/java/top/sunrt233/toys/yusandbox/simulate/Simulator.kt:123-141 | with a time step of 0 no number of ticks changes anything |
| Simulation.Simulator.Integrate | app/src/main/java/top/sunrt233/toys/yusandbox/simulate/Simulator.kt:126-128 | the physics of a tick turns the objects' snapshots into `Step` of the old ones |
| Simulation.RoundToLong | app/src/main/java/top/sunrt233/toys/yusandbox/simulate/Simulator.kt:134 | `roundToLong` lies within half a unit of its argument inside the `Long` range, and saturates outside it |
| Simulation.MaxTimePerTick | app/src/main/java/top/sunrt233/toys/yusandbox/simulate/Simulator.kt:31 | the tick budget is `Long.MAX_VALUE` for a rate of 0, non-negative for a positive rate, and within half a nanosecond of `1e9 / rate` for a rate of at least 1 |
| Simulation.SleepMillis | app/src/main/java/top/sunrt233/toys/yusandbox/simulate/Simulator.kt:133-134 | the sleep argument is never negative and is the remaining budget in milliseconds to within half a millisecond either way |
| Simulation.RateOf | app/src/main/java/top/sunrt233/toys/yusandbox/simulate/Simulator.kt:138 | `currentTPS` is infinite exactly for a zero duration; otherwise it is a positive rate whose product with the duration is one second |
| Simulation.Simulator.WorkerTick | app/src/main/java/top/sunrt233/toys/yusandbox/simulate/Simulator.kt:123-141 | one iteration: the objects move by one `Step`; it sleeps exactly when under budget, by `SleepMillis`; a cancelled task is interrupted there and ends with no change to the counters; otherwise `totalStep` grows by 1 and `currentTPS` is the rate of the measured duration |
| Simulation.Simulator.Simulate | app/src/main/java/top/sunrt233/toys/yusandbox/simulate/Simulator.kt:118-142 | the loop ticks until the clock readings run out or an interrupted sleep ends the task; `totalStep` counts the completed ticks and the objects are `Steps` of the old ones |
| Objects.Bodies | app/src/main/java/top/sunrt233/toys/yusandbox/simulate/Simulator.kt:198-202 | the snapshots of a list of objects, one per object, in order |
| Objects.SimObject.constructor | app/src/main/java/top/sunrt233/toys/yusandbox/simulate/Simulator.kt:198 | a new object holds the given mass, position and velocity |
| ObjectStore.SimObjectStore.constructor | app/src/main/java/top/sunrt233/toys/yusandbox/simulate/SimObjectStoreProvider.kt:33-38 | a new store is valid, with counter 0 and both maps empty |
| ObjectStore.SimObjectStore.AddObject | app/src/main/java/top/sunrt233/toys/yusandbox/simulate/SimObjectStoreProvider.kt:33-51 | a registered object returns its id, which is not `INVALID_ID`, and nothing changes; a new object gets the counter's value, an id greater than every id issued before, the counter grows by 1, both directions are bound and `size` grows by 1; the maps stay inverses |
| ObjectStore.SimObjectStore.RemoveObject | app/src/main/java/top/sunrt233/toys/yusandbox/simulate/SimObjectStoreProvider.kt:53-59 | the object bound to the id, or `VOID`, is returned; a bound id loses both directions and `size` drops by 1; an unbound id changes nothing; afterwards `getObject(id)` is `VOID`; the counter and the issued ids stay |
| ObjectStore.SimObjectStore.GetObject | app/src/main/java/top/sunrt233/toys/yusandbox/simulate/SimObjectStoreProvider.kt:61-63 | an object exactly for a bound id, and `VOID` otherwise; the object found maps back to the id |
| ObjectStore.SimObjectStore.Size | app/src/main/java/top/sunrt233/toys/yusandbox/simulate/SimObjectStoreProvider.kt:65-67 | `size` is 0 exactly when no id is bound, and positive when some id is bound |
| ObjectStore.SimObjectStore.SizeIsObjectCount | app/src/main/java/top/sunrt233/toys/yusandbox/simulate/SimObjectStoreProvider.kt:65-67 | in a valid store `size` is also the number of registered objects and of distinct bound objects |
| ObjectStore.InjectiveValuesCount | app/src/main/java/top/sunrt233/toys/yusandbox/simulate/SimObjectStoreProvider.kt:37-38 | a map from distinct keys to distinct values has as many values as keys |
| ObjectStore.SimObjectStore.ClearAll | app/src/main/java/top/sunrt233/toys/yusandbox/simulate/SimObjectStoreProvider.kt:69-72 | both maps become empty and `size` 0; the id counter is not reset |
| ObjectStore.SimObjectStore.Contains | app/src/main/java/top/sunrt233/toys/yusandbox/simulate/SimObjectStoreProvider.kt:74-76 | `contains` holds exactly for registered objects, and `getObject` of the object's id finds it |
| ObjectStore.SimObjectStore.Get | app/src/main/java/top/sunrt233/toys/yusandbox/simulate/SimObjectStoreProvider.kt:78-80 | the `get` operator agrees with `getObject` |
| ObjectStore.SimObjectStore.RegisteredAreValues | app/src/main/java/top/sunrt233/toys/yusandbox/simulate/SimObjectStoreProvider.kt:74-76 | in a valid store the registered objects are exactly the values of the id map |
| ObjectStore.SimObjectStore.Iterator | app/src/main/java/top/sunrt233/toys/yusandbox/simulate/SimObjectStoreProvider.kt:82-84 | the iterator yields exactly the bound objects, once per bound id, without repetition |
| Trails.UpdateTrail | app/src/main/java/top/sunrt233/toys/yusandbox/renderer/SimCanvas.kt:169-175 | the trail fails exactly when it is empty and `maxHistory <= 0`; otherwise it ends with `(offset, frames)`, and it shrinks by one entry before the append exactly when it is full or its front entry is at least 240 frames old |
| Trails.UpdateTrailKeepsRest | app/src/main/java/top/sunrt233/toys/yusandbox/renderer/SimCanvas.kt:170-175 | an update removes at most one entry, and only from the front |
| Trails.UpdateTrailBounded | app/src/main/java/top/sunrt233/toys/yusandbox/renderer/SimCanvas.kt:171-175 | a trail within `maxHistory` entries stays within it |
| Trails.UpdateTrailOrdered | app/src/main/java/top/sunrt233/toys/yusandbox/renderer/SimCanvas.kt:171-175 | stamps that do not decrease and do not exceed the frame counter keep that property |
| Trails.OrderedLater | app/src/main/java/top/sunrt233/toys/yusandbox/renderer/SimCanvas.kt:171-175 | increasing the frame counter between passes keeps the trails ordered |
| Trails.Evicts | app/src/main/java/top/sunrt233/toys/yusandbox/renderer/SimCanvas.kt:171 | the eviction condition: the trail is full, or non-empty with its front entry at least 240 frames old; `Trails.UpdateTrail` states that an entry is dropped exactly when it holds |
| Trails.Record | app/src/main/java/top/sunrt233/toys/yusandbox/renderer/SimCanvas.kt:112-175 | the update of one object's trail in the map, an unseen object starting empty; `Trails.RecordEffect` states its effect |
| Trails.RecordEffect | app/src/main/java/top/sunrt233/toys/yusandbox/renderer/SimCanvas.kt:169-175 | the object gets a trail ending in `(offset, frames)`, the keys gain only that object, and every other trail is unchanged |
| Trails.Histories | app/src/main/java/top/sunrt233/toys/yusandbox/renderer/SimCanvas.kt:109-177 | the trails after the first `n` objects of a pass; the `Trails.Histories*` lemmas state its keys, bounds, ordering, last entries and first-seen trails |
| Trails.FirstHit | app/src/main/java/top/sunrt233/toys/yusandbox/renderer/SimCanvas.kt:145-149 | the first object in frame order that the tap hits, if any |
| Trails.HistoriesKeys | app/src/main/java/top/sunrt233/toys/yusandbox/renderer/SimCanvas.kt:109-114 | after a pass the objects with a trail are those with one before and those in the frame |
| Trails.HistoriesOutsideFrame | app/src/main/java/top/sunrt233/toys/yusandbox/renderer/SimCanvas.kt:109-114 | the trails of objects not in the frame are unchanged |
| Trails.HistoriesLastEntry | app/src/main/java/top/sunrt233/toys/yusandbox/renderer/SimCanvas.kt:175 | every object of the frame ends its trail with its offset and the current frame counter |
| Trails.HistoriesBounded | app/src/main/java/top/sunrt233/toys/yusandbox/renderer/SimCanvas.kt:171-175 | no trail in the map grows beyond `maxHistory` entries |
| Trails.HistoriesOrdered | app/src/main/java/top/sunrt233/toys/yusandbox/renderer/SimCanvas.kt:171-175 | stamps stay ordered in every trail of the map |
| Trails.HistoriesFirstSeen | app/src/main/java/top/sunrt233/toys/yusandbox/renderer/SimCanvas.kt:112-114 | an object seen for the first time, once in the frame, ends its first pass with only its current entry |
| Trails.CanvasState.constructor | app/src/main/java/top/sunrt233/toys/yusandbox/renderer/SimCanvas.kt:68-77 | empty trails, no selection, no pending selection |
| Trails.CanvasState.Press | app/src/main/java/top/sunrt233/toys/yusandbox/renderer/SimCanvas.kt:88-92 | a press records the point and makes a selection pending; nothing else changes |
| Trails.CanvasState.Visit | app/src/main/java/top/sunrt233/toys/yusandbox/renderer/SimCanvas.kt:109-175 | the pass body for one object: a trail is drawn exactly for an object that had one; a pending selection picks the object if the tap hits it; the trail is updated as `Record` |
| Trails.CanvasState.DrawFrame | app/src/main/java/top/sunrt233/toys/yusandbox/renderer/SimCanvas.kt:109-181 | the trails become `Histories` of the frame; the trail of `frame[i]` is drawn exactly when it had one before the pass or occurs earlier in the frame; a pending selection picks the first hit object, and is otherwise left as it was; afterwards no selection is pending and the press point is reset |

## Left out

- Floating point: numbers are exact reals, so there is no `Float` or `Double` rounding and no `G` scaling error.
- Square roots: `sqrt` is the `norm` parameter, and Dafny's reals have no square root.
- `NaN`: the `NaN` mass of `SimObject.VOID` is the `Void` constructor of `Lookup`.
- `-0.0` and `NaN` arguments to `setDelta` and the `Simulator` constructor are out of scope.
- `Simulation.MaxTimePerTick`: does not cover a negative `expectedTPS`, which gives a negative budget, or a rate between 0 and 1 beyond the saturation and non-negativity bounds. A rate of 0 is `Long.MAX_VALUE`, as `1 / 0.0` is infinite.
- `Simulation.RateOf`: requires a non-negative duration. The clock readings of a tick are required to be monotone (`Monotone`), which `System.nanoTime` promises.
- `Simulation.Simulator.UpdateVelocities`, `Kernel.Velocities`, `Kernel.Step`, `Kernel.Steps`, `Simulation.Simulator.Integrate`, `Simulation.Simulator.WorkerTick`, `Simulation.Simulator.Simulate`: require every mass to be non-zero (`Massive`). A zero mass, which the random object generator of the user interface can produce, gives an infinite `1 / mass` in floats; exact reals cannot express that, so the model does not cover a tick with a massless object.
- Concurrency: executor threads, future callbacks, `ConcurrentHashMap` and `AtomicInteger` thread safety, and the renderer reading the live object list (`getSimulateFrame`) while the worker writes it are not modelled. Everything runs sequentially, and the worker's start, failure and interruption are explicit events.
- The failure callback: for a cancellation it runs inside `cancel`, and `pause` or `stop` overwrite its `STOPPED` right away, so the model shows only its effect on a genuine failure.
- Time and sleeping: `System.nanoTime()` readings are parameters (`Clock`), and `Thread.sleep` is represented by its argument and by whether the task is interrupted there.
- Interruption is observed only in `Thread.sleep`. A cancelled task that never sleeps goes on ticking.
- `onSuccess`'s `TODO()` and logging: `simulate` never returns normally, so `onSuccess` is unreachable, and logs are I/O.
- `Simulation.Simulator.Simulate`: models a finite prefix of the `while (true)` loop, as many ticks as there are clock readings.
- `AtomicInteger` overflow: ids are unbounded integers, so there is no wrap-around at `Int.MAX_VALUE`.
- `totalStep` overflow: it is an unbounded counter.
- `Trails.Ordered`, `Trails.OrderedLater`, `Trails.HistoriesOrdered`: the frame counter is an unbounded integer that never decreases between passes. The `Int` counter of the user interface wraps around after `Int.MAX_VALUE` frames, and then the age test `frames - stamp` and the ordering of stamps no longer hold; the model does not cover that.
- `SimulationInfo` and `getSimulateFrame` are plain reads of fields.
- The simulator's unused `simObjectStoreProvider` field: the store is modelled on its own.
- Drawing: `drawPoints`, `drawCircle`, `drawRect`, dp-to-px conversion, the drag and anchor offsets, the follow mode and colours are not modelled. Offsets are opaque values given by `offsetOf`, and the tap test is the predicate `hit`.
- `Trails.CanvasState.DrawFrame`: requires `maxHistory >= 1`; the only caller uses the default of 1000. The `removeFirst` failure on an empty trail with `maxHistory <= 0` is modelled only in `UpdateTrail`, as `None`. For a negative `maxHistory`, the `ArrayDeque(maxHistory)` constructor would already fail.
- The user interface: `MainActivity.kt` and `Widgets.kt` are not part of this model.

## Findings

| source | as written | input that shows it | evidently intended | confidence | as-written member | corrected member |
|---|---|---|---|---|---|---|
| app/src/main/java/top/sunrt233/toys/yusandbox/simulate/Simulator.kt:55-59 | `addObjects` iterates the simulator's own `simObjects` and passes each to `addObject`, ignoring its arguments | a fresh simulator and `addObjects(o)`: the list stays empty | `addObject` for each argument in turn | high; not executed | Simulation.AddObjectsIgnoresArguments | Simulation.Simulator.AddAll |
