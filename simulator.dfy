/** `Simulator`: the object list, the force map, the run-state fields, and the
    tick performed by the worker thread, one object field update at a time. */
module Simulation {
  import opened Vectors
  import opened Kernel
  import opened Objects
  import opened Collections
  import RunState

  const LongMax: int := 0x7fff_ffff_ffff_ffff
  const LongMin: int := -0x8000_0000_0000_0000
  const NanosPerSecond: real := 1000000000.0
  const NanosPerMilli: real := 1000000.0

  /** Kotlin's `Double.roundToLong()`: to the nearest integer, ties upwards,
      saturating at the bounds of `Long`. */
  function RoundToLong(x: real): (r: int)
    ensures LongMin <= r <= LongMax
    ensures LongMin as real <= x < LongMax as real ==> x - 0.5 < r as real <= x + 0.5
    ensures x >= LongMax as real ==> r == LongMax
    ensures x < LongMin as real ==> r == LongMin
  {
    var f := (x + 0.5).Floor;
    if f > LongMax then LongMax else if f < LongMin then LongMin else f
  }

  /** `maxTimePerTick`: the nanoseconds one tick may take at `expectedTPS` ticks per
      second. A rate of 0 divides to infinity, which rounds to `Long.MAX_VALUE`. */
  function MaxTimePerTick(expectedTPS: real): (r: int)
    ensures expectedTPS == 0.0 ==> r == LongMax
    ensures expectedTPS > 0.0 ==> 0 <= r
    ensures expectedTPS >= 1.0 ==>
      NanosPerSecond / expectedTPS - 0.5 < r as real <= NanosPerSecond / expectedTPS + 0.5
  {
    if expectedTPS == 0.0 then LongMax else RoundToLong((1.0 / expectedTPS) * NanosPerSecond)
  }

  /** The argument of `Thread.sleep`: the rest of the tick budget in milliseconds.
      It is never negative, so `sleep` never rejects it, and it is the rest of the
      budget to within half a millisecond either way. */
  function SleepMillis(maxTimePerTick: int, duration: int): (r: int)
    requires 0 <= duration < maxTimePerTick <= LongMax
    ensures 0 <= r
    ensures r as real * NanosPerMilli <= (maxTimePerTick - duration) as real + NanosPerMilli / 2.0
    ensures (maxTimePerTick - duration) as real - NanosPerMilli / 2.0 < r as real * NanosPerMilli
  {
    RoundToLong((maxTimePerTick - duration) as real / NanosPerMilli)
  }

  /** `currentTPS`: a rate, or the infinity that `1e9 / 0` gives for a tick of no duration. */
  datatype Rate = PerSecond(tps: real) | Infinite

  function RateOf(duration: int): (r: Rate)
    requires 0 <= duration
    ensures duration == 0 <==> r == Infinite
    ensures r.PerSecond? ==> r.tps > 0.0 && r.tps * duration as real == NanosPerSecond
  {
    if duration == 0 then Infinite else PerSecond(NanosPerSecond / duration as real)
  }

  /** `setDelta`: a negative time step becomes 0. */
  function ClampDelta(d: real): (r: real)
    ensures 0.0 <= r
    ensures d >= 0.0 ==> r == d
    ensures d < 0.0 ==> r == 0.0
  {
    if d < 0.0 then 0.0 else d
  }

  lemma ClampDeltaIdempotent(d: real)
    ensures ClampDelta(ClampDelta(d)) == ClampDelta(d)
  {
  }

  /** The three `System.nanoTime()` readings of one tick: at its start, after the
      physics, and after the sleep (unused when the tick does not sleep). */
  datatype Clock = Clock(start: int, computed: int, woke: int)

  predicate Monotone(c: Clock)
  {
    c.start <= c.computed <= c.woke
  }

  /** The forces a map holds for a list of objects. */
  function ForcesOf(objs: seq<SimObject>, m: map<SimObject, Vec3>): (fs: seq<Vec3>)
    requires forall k :: 0 <= k < |objs| ==> objs[k] in m
    ensures |fs| == |objs|
    ensures forall k :: 0 <= k < |objs| ==> fs[k] == m[objs[k]]
  {
    seq(|objs|, k requires 0 <= k < |objs| => m[objs[k]])
  }

  datatype Data = Data(simObjects: seq<SimObject>, objForceMap: map<SimObject, Vec3>,
                       delta: real, totalStep: int, currentTPS: Rate)

  class Simulator {
    var delta: real
    /** The Euclidean norm used by `calForce`. */
    const norm: Vec3 -> real
    const maxTimePerTick: int
    var simObjects: seq<SimObject>
    var objForceMap: map<SimObject, Vec3>
    var totalStep: int
    var currentTPS: Rate
    var status: RunState.Status
    /** Every submitted task; the last is `simulationFuture`. */
    var tasks: seq<RunState.Task>

    function Run(): RunState.Control
      reads this
    {
      RunState.Control(status, tasks)
    }

    /** Everything but the run state. */
    function Fields(): Data
      reads this
    {
      Data(simObjects, objForceMap, delta, totalStep, currentTPS)
    }

    ghost predicate Valid()
      reads this
    {
      && IsNorm(norm)
      && NoDuplicates(simObjects)
      && RunState.Inv(Run())
      && 0 <= totalStep
      && maxTimePerTick <= LongMax
    }

    constructor (delta: real, expectedTPS: real, norm: Vec3 -> real)
      requires IsNorm(norm)
      ensures Valid()
      ensures this.delta == delta && this.norm == norm
      ensures maxTimePerTick == MaxTimePerTick(expectedTPS)
      ensures simObjects == [] && objForceMap == map[]
      ensures totalStep == 0 && currentTPS == PerSecond(0.0)
      ensures Run() == RunState.Initial
    {
      this.delta := delta;
      this.norm := norm;
      maxTimePerTick := MaxTimePerTick(expectedTPS);
      simObjects := [];
      objForceMap := map[];
      totalStep := 0;
      currentTPS := PerSecond(0.0);
      status := RunState.Idle;
      tasks := [];
    }

    /** `addObject`: append unless the very object is already listed. */
    method AddObject(obj: SimObject)
      requires Valid()
      modifies this
      ensures Valid()
      ensures simObjects == AppendNew(old(simObjects), obj)
      ensures objForceMap == old(objForceMap) && delta == old(delta)
      ensures totalStep == old(totalStep) && currentTPS == old(currentTPS) && Run() == old(Run())
    {
      if obj !in simObjects {
        simObjects := simObjects + [obj];
      }
    }

    /** `addObjects` as written: it walks the simulator's own list instead of its
        arguments, so every call re-adds objects that are already there. */
    method AddObjects(objs: seq<SimObject>)
      requires Valid()
      modifies this
      ensures Valid()
      ensures Fields() == old(Fields()) && Run() == old(Run())
    {
      var listed := simObjects;
      var i := 0;
      while i < |listed|
        invariant 0 <= i <= |listed|
        invariant Valid()
        invariant simObjects == listed
        invariant Fields() == old(Fields()) && Run() == old(Run())
      {
        AddObject(listed[i]);
        i := i + 1;
      }
    }

    /** `addObjects` as intended: `addObject` for each argument in turn. */
    method AddAll(objs: seq<SimObject>)
      requires Valid()
      modifies this
      ensures Valid()
      ensures simObjects == AppendAll(old(simObjects), objs)
      ensures objForceMap == old(objForceMap) && delta == old(delta)
      ensures totalStep == old(totalStep) && currentTPS == old(currentTPS) && Run() == old(Run())
    {
      var i := 0;
      while i < |objs|
        invariant 0 <= i <= |objs|
        invariant Valid()
        invariant simObjects == AppendAll(old(simObjects), objs[..i])
        invariant objForceMap == old(objForceMap) && delta == old(delta)
        invariant totalStep == old(totalStep) && currentTPS == old(currentTPS) && Run() == old(Run())
      {
        assert objs[..i + 1][..i] == objs[..i];
        AddObject(objs[i]);
        i := i + 1;
      }
      assert objs[..i] == objs;
    }

    /** `setDelta`. */
    method SetDelta(newDelta: real)
      requires Valid()
      modifies this
      ensures Valid()
      ensures delta == ClampDelta(newDelta)
      ensures simObjects == old(simObjects) && objForceMap == old(objForceMap)
      ensures totalStep == old(totalStep) && currentTPS == old(currentTPS) && Run() == old(Run())
    {
      if newDelta < 0.0 {
        delta := 0.0;
      } else {
        delta := newDelta;
      }
    }

    /** `resume`: unless running, submit a fresh task on a new executor. */
    method Resume()
      requires Valid()
      modifies this
      ensures Valid()
      ensures Run() == RunState.Resume(old(Run()))
      ensures Fields() == old(Fields())
    {
      if status == RunState.Running {
        return;
      }
      tasks := tasks + [RunState.Task(false, RunState.Queued)];
    }

    /** `start`. */
    method Start()
      requires Valid()
      modifies this
      ensures Valid()
      ensures Run() == RunState.Start(old(Run()))
      ensures Fields() == old(Fields())
    {
      if status != RunState.Idle {
        return;
      }
      Resume();
    }

    /** `stop`. */
    method Stop()
      requires Valid()
      modifies this
      ensures Valid()
      ensures Run() == RunState.Stop(old(Run()))
      ensures Fields() == old(Fields())
    {
      if status == RunState.Idle {
        return;
      }
      if tasks[|tasks| - 1].cancelled {
        return;
      }
      tasks := RunState.CancelCurrent(tasks);
      status := RunState.Stopped;
    }

    /** `pause`. */
    method Pause()
      requires Valid()
      modifies this
      ensures Valid()
      ensures Run() == RunState.Pause(old(Run()))
      ensures Fields() == old(Fields())
    {
      if status != RunState.Running || tasks[|tasks| - 1].cancelled {
        return;
      }
      tasks := RunState.CancelCurrent(tasks);
      status := RunState.Paused;
    }

    /** `reset`: `stop`, then an empty simulation in `IDLE`; the time step stays. */
    method Reset()
      requires Valid()
      modifies this
      ensures Valid()
      ensures Run() == RunState.Reset(old(Run())) && status == RunState.Idle
      ensures simObjects == [] && objForceMap == map[]
      ensures totalStep == 0 && currentTPS == PerSecond(0.0)
      ensures delta == old(delta)
    {
      Stop();
      simObjects := [];
      objForceMap := map[];
      totalStep := 0;
      currentTPS := PerSecond(0.0);
      status := RunState.Idle;
    }

    /** The submitted task begins: `status = RUNNING`. */
    method WorkerStarts(k: nat)
      requires Valid() && RunState.CanStart(Run(), k)
      modifies this
      ensures Valid()
      ensures Run() == RunState.WorkerStarts(old(Run()), k) && status == RunState.Running
      ensures Fields() == old(Fields())
    {
      status := RunState.Running;
      tasks := tasks[k := RunState.Task(false, RunState.Started)];
    }

    /** The task ends with an exception; `onFailure` reports it unless the future
        was cancelled. */
    method WorkerFails(k: nat)
      requires Valid() && RunState.IsStarted(Run(), k)
      modifies this
      ensures Valid()
      ensures Run() == RunState.WorkerFails(old(Run()), k)
      ensures !old(tasks[k].cancelled) ==> status == RunState.Stopped
      ensures Fields() == old(Fields())
    {
      var cancelled := tasks[k].cancelled;
      tasks := tasks[k := tasks[k].(phase := RunState.Ended)];
      if !cancelled {
        status := RunState.Stopped;
      }
    }

    /** `updateForces`: for each object, reset its force to zero and add the pull of
        every other object. Entries of objects no longer listed are kept. */
    method UpdateForces()
      requires Valid()
      modifies this
      ensures Valid()
      ensures forall k :: 0 <= k < |simObjects| ==>
        simObjects[k] in objForceMap && objForceMap[simObjects[k]] == NetForce(norm, Bodies(simObjects), k)
      ensures forall o :: o in objForceMap <==> o in old(objForceMap) || o in simObjects
      ensures forall o :: o in old(objForceMap) && o !in simObjects ==> objForceMap[o] == old(objForceMap[o])
      ensures simObjects == old(simObjects) && delta == old(delta)
      ensures totalStep == old(totalStep) && currentTPS == old(currentTPS) && Run() == old(Run())
    {
      ghost var bodies := Bodies(simObjects);
      var i := 0;
      while i < |simObjects|
        invariant 0 <= i <= |simObjects| && |bodies| == |simObjects|
        invariant bodies == Bodies(simObjects)
        invariant Valid()
        invariant forall k :: 0 <= k < i ==>
          simObjects[k] in objForceMap && objForceMap[simObjects[k]] == NetForce(norm, bodies, k)
        invariant forall o :: o in objForceMap <==> o in old(objForceMap) || o in simObjects[..i]
        invariant forall o :: o in old(objForceMap) && o !in simObjects[..i] ==> objForceMap[o] == old(objForceMap[o])
        invariant simObjects == old(simObjects) && delta == old(delta)
        invariant totalStep == old(totalStep) && currentTPS == old(currentTPS) && Run() == old(Run())
      {
        ghost var before := objForceMap;
        AccumulateForce(i);
        assert objForceMap == before[simObjects[i] := NetForce(norm, bodies, i)];
        assert simObjects[..i + 1] == simObjects[..i] + [simObjects[i]];
        i := i + 1;
      }
      assert simObjects[..i] == simObjects;
    }

    /** The body of the outer loop of `updateForces` for the object at position `i`:
        reset its force, then add the pull of every other object in list order. */
    method AccumulateForce(i: nat)
      requires NoDuplicates(simObjects) && i < |simObjects|
      modifies this
      ensures simObjects == old(simObjects) && delta == old(delta)
      ensures objForceMap == old(objForceMap)[simObjects[i] := NetForce(norm, Bodies(simObjects), i)]
      ensures totalStep == old(totalStep) && currentTPS == old(currentTPS)
      ensures status == old(status) && tasks == old(tasks)
    {
      ghost var bodies := Bodies(simObjects);
      var obj := simObjects[i];
      objForceMap := objForceMap[obj := Zero];
      var j := 0;
      while j < |simObjects|
        invariant 0 <= j <= |simObjects| && bodies == Bodies(simObjects)
        invariant objForceMap == old(objForceMap)[obj := PartialForce(norm, bodies, i, j)]
        invariant simObjects == old(simObjects) && delta == old(delta)
        invariant totalStep == old(totalStep) && currentTPS == old(currentTPS)
        invariant status == old(status) && tasks == old(tasks)
      {
        var other := simObjects[j];
        assert other.Snapshot() == bodies[j] && obj.Snapshot() == bodies[i];
        if obj != other {
          objForceMap := objForceMap[obj := Add(objForceMap[obj], CalForce(norm, obj.Snapshot(), other.Snapshot()))];
        }
        assert (obj == other) == (j == i) by {
          assert NoDuplicates(simObjects);
        }
        j := j + 1;
      }
    }

    /** `updateVelocities`: `velocity += force * (1 / mass) * delta` for each object. */
    method UpdateVelocities()
      requires NoDuplicates(simObjects)
      requires forall k :: 0 <= k < |simObjects| ==> simObjects[k] in objForceMap
      requires Massive(Bodies(simObjects))
      modifies set o | o in simObjects
      ensures Bodies(simObjects) == Velocities(old(Bodies(simObjects)), ForcesOf(simObjects, objForceMap), delta)
      ensures forall k :: 0 <= k < |simObjects| ==>
        simObjects[k].mass == old(simObjects[k].mass) && simObjects[k].position == old(simObjects[k].position)
    {
      ghost var bodies := Bodies(simObjects);
      var i := 0;
      while i < |simObjects|
        invariant 0 <= i <= |simObjects|
        invariant forall k :: 0 <= k < i ==>
          simObjects[k].Snapshot() == Accelerated(bodies[k], objForceMap[simObjects[k]], delta)
        invariant forall k :: i <= k < |simObjects| ==> simObjects[k].Snapshot() == bodies[k]
      {
        var obj := simObjects[i];
        obj.velocity := Add(obj.velocity, Scale(Scale(objForceMap[obj], 1.0 / obj.mass), delta));
        i := i + 1;
      }
    }

    /** `updatePositions`: `position += velocity * delta` for each object. */
    method UpdatePositions()
      requires NoDuplicates(simObjects)
      modifies set o | o in simObjects
      ensures Bodies(simObjects) == Positions(old(Bodies(simObjects)), delta)
      ensures forall k :: 0 <= k < |simObjects| ==>
        simObjects[k].mass == old(simObjects[k].mass) && simObjects[k].velocity == old(simObjects[k].velocity)
    {
      ghost var bodies := Bodies(simObjects);
      var i := 0;
      while i < |simObjects|
        invariant 0 <= i <= |simObjects|
        invariant forall k :: 0 <= k < i ==> simObjects[k].Snapshot() == Moved(bodies[k], delta)
        invariant forall k :: i <= k < |simObjects| ==> simObjects[k].Snapshot() == bodies[k]
      {
        var obj := simObjects[i];
        obj.position := Add(obj.position, Scale(obj.velocity, delta));
        i := i + 1;
      }
    }

    /** The physics of one tick: forces from the current positions, then all
        velocities, then all positions. */
    method Integrate()
      requires Valid() && Massive(Bodies(simObjects))
      modifies this, set o | o in simObjects
      ensures Valid()
      ensures Bodies(simObjects) == Step(norm, delta, old(Bodies(simObjects)))
      ensures simObjects == old(simObjects) && delta == old(delta)
      ensures totalStep == old(totalStep) && currentTPS == old(currentTPS) && Run() == old(Run())
    {
      ghost var bodies := Bodies(simObjects);
      UpdateForces();
      assert Bodies(simObjects) == bodies;
      ghost var forces := ForcesOf(simObjects, objForceMap);
      assert forces == Forces(norm, bodies);
      UpdateVelocities();
      ghost var accelerated := Bodies(simObjects);
      assert accelerated == Velocities(bodies, Forces(norm, bodies), delta);
      UpdatePositions();
      assert Bodies(simObjects) == Positions(accelerated, delta);
    }

    /** One iteration of `simulate` on task `k`: the physics, then the sleep decision.
        A cancelled task is interrupted in `Thread.sleep` and ends there, after its
        physics but before `currentTPS` and `totalStep` are updated. */
    method WorkerTick(k: nat, clock: Clock) returns (slept: bool, millis: int)
      requires Valid() && RunState.IsStarted(Run(), k)
      requires Massive(Bodies(simObjects))
      requires Monotone(clock)
      modifies this, set o | o in simObjects
      ensures Valid()
      ensures simObjects == old(simObjects) && delta == old(delta) && status == old(status)
      ensures Bodies(simObjects) == Step(norm, delta, old(Bodies(simObjects)))
      ensures slept <==> clock.computed - clock.start < maxTimePerTick
      ensures slept ==> millis == SleepMillis(maxTimePerTick, clock.computed - clock.start)
      ensures slept && old(tasks[k].cancelled) ==>
        && Run() == RunState.WorkerInterrupted(old(Run()), k)
        && totalStep == old(totalStep) && currentTPS == old(currentTPS)
      ensures !(slept && old(tasks[k].cancelled)) ==>
        && tasks == old(tasks)
        && totalStep == old(totalStep) + 1
        && currentTPS == RateOf(if slept then clock.woke - clock.start else clock.computed - clock.start)
    {
      Integrate();
      var duration := clock.computed - clock.start;
      slept := duration < maxTimePerTick;
      millis := 0;
      if slept {
        millis := SleepMillis(maxTimePerTick, duration);
        if tasks[k].cancelled {
          tasks := tasks[k := tasks[k].(phase := RunState.Ended)];
          return;
        }
        duration := clock.woke - clock.start;
      }
      currentTPS := RateOf(duration);
      totalStep := totalStep + 1;
    }

    /** `simulate` on task `k`, for as many ticks as `clocks` has readings: it ticks
        until the readings run out or an interrupted sleep ends the task. */
    method Simulate(k: nat, clocks: seq<Clock>) returns (ticks: nat, interrupted: bool)
      requires Valid() && RunState.IsStarted(Run(), k)
      requires Massive(Bodies(simObjects))
      requires forall i :: 0 <= i < |clocks| ==> Monotone(clocks[i])
      modifies this, set o | o in simObjects
      ensures Valid()
      ensures simObjects == old(simObjects) && delta == old(delta) && status == old(status)
      ensures ticks <= |clocks| && totalStep == old(totalStep) + ticks
      ensures interrupted ==>
        && old(tasks[k].cancelled) && ticks < |clocks|
        && Run() == RunState.WorkerInterrupted(old(Run()), k)
        && Bodies(simObjects) == Steps(norm, delta, old(Bodies(simObjects)), ticks + 1)
      ensures !interrupted ==>
        && ticks == |clocks| && tasks == old(tasks)
        && Bodies(simObjects) == Steps(norm, delta, old(Bodies(simObjects)), ticks)
    {
      ghost var bodies := Bodies(simObjects);
      var cancelled := tasks[k].cancelled;
      ticks := 0;
      interrupted := false;
      while ticks < |clocks|
        invariant 0 <= ticks <= |clocks|
        invariant Valid() && RunState.IsStarted(Run(), k)
        invariant tasks == old(tasks) && simObjects == old(simObjects)
        invariant delta == old(delta) && status == old(status)
        invariant totalStep == old(totalStep) + ticks
        invariant Bodies(simObjects) == Steps(norm, delta, bodies, ticks)
        invariant Massive(Bodies(simObjects))
      {
        var slept, millis := WorkerTick(k, clocks[ticks]);
        if slept && cancelled {
          interrupted := true;
          return;
        }
        ticks := ticks + 1;
      }
    }
  }

  /** `addObjects(o)` on a fresh simulator leaves it without objects. */
  method AddObjectsIgnoresArguments(norm: Vec3 -> real) returns (added: bool)
    requires IsNorm(norm)
    ensures !added
  {
    var sim := new Simulator(0.01, 60.0, norm);
    var o := new SimObject(1.0, Zero, Zero);
    sim.AddObjects([o]);
    added := o in sim.simObjects;
  }

  /** The intended `addObjects(o)` on a fresh simulator lists exactly `o`. */
  method AddAllAddsArguments(norm: Vec3 -> real) returns (o: SimObject, objs: seq<SimObject>)
    requires IsNorm(norm)
    ensures objs == [o]
  {
    var sim := new Simulator(0.01, 60.0, norm);
    o := new SimObject(1.0, Zero, Zero);
    sim.AddAll([o]);
    assert [o][..0] == [];
    objs := sim.simObjects;
  }

  /** A session: start, the worker starts, pause, resume, the new worker starts,
      stop, reset. Each command lands in the documented state, and the reset leaves
      an empty, idle simulator. */
  method Session(norm: Vec3 -> real, obj: SimObject)
    returns (trace: seq<RunState.Status>, objs: seq<SimObject>, steps: int)
    requires IsNorm(norm)
    ensures trace == [RunState.Idle, RunState.Running, RunState.Paused, RunState.Paused,
                      RunState.Running, RunState.Stopped, RunState.Idle]
    ensures objs == [] && steps == 0
  {
    var sim := new Simulator(0.01, 60.0, norm);
    sim.AddObject(obj);
    sim.Start();
    trace := [sim.status];
    sim.WorkerStarts(0);
    trace := trace + [sim.status];
    sim.Pause();
    trace := trace + [sim.status];
    sim.Resume();
    trace := trace + [sim.status];
    sim.WorkerStarts(1);
    trace := trace + [sim.status];
    sim.Stop();
    trace := trace + [sim.status];
    sim.Reset();
    trace := trace + [sim.status];
    objs, steps := sim.simObjects, sim.totalStep;
  }
}
