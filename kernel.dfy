/** The integration kernel of `Simulator`, on value snapshots of the objects:
    pairwise gravity with the minimum-separation clamp, the net force of every
    object, and the semi-implicit Euler step (velocities first, then positions
    with the new velocities). */
module Kernel {
  import opened Vectors

  /** `Simulator.G`: the gravitational constant scaled by 1e12. */
  const G: real := 66.7

  /** Below this separation the pairwise force is zero. */
  const MinSeparation: real := 4.0

  /** What the kernel reads and writes of a `SimObject`. */
  datatype Body = Body(mass: real, position: Vec3, velocity: Vec3)

  /** The inverse-square magnitude `G * m1 * m2 / (d * d)`. */
  function Magnitude(m1: real, m2: real, d: real): real
    requires d != 0.0
  {
    G * m1 * m2 / (d * d)
  }

  /** The force that `b` exerts on `a` (`calForce(obj1 = a, obj2 = b)`). */
  function CalForce(norm: Vec3 -> real, a: Body, b: Body): (f: Vec3)
    ensures norm(Sub(b.position, a.position)) < MinSeparation ==> f == Zero
  {
    var r := Sub(b.position, a.position);
    var n := norm(r);
    if n < MinSeparation then Zero
    else Scale(Normalized(norm, r), Magnitude(a.mass, b.mass, n))
  }

  /** The force accumulated on `bodies[i]` after visiting the others among the first `j`,
      in list order, skipping the object itself. */
  function PartialForce(norm: Vec3 -> real, bodies: seq<Body>, i: nat, j: nat): Vec3
    requires i < |bodies| && j <= |bodies|
  {
    if j == 0 then Zero
    else
      var acc := PartialForce(norm, bodies, i, j - 1);
      if j - 1 == i then acc else Add(acc, CalForce(norm, bodies[i], bodies[j - 1]))
  }

  /** The force `updateForces` leaves on `bodies[i]`. */
  function NetForce(norm: Vec3 -> real, bodies: seq<Body>, i: nat): Vec3
    requires i < |bodies|
  {
    PartialForce(norm, bodies, i, |bodies|)
  }

  /** A reference sum that does not skip the object itself. */
  function PartialForceWithSelf(norm: Vec3 -> real, bodies: seq<Body>, i: nat, j: nat): Vec3
    requires i < |bodies| && j <= |bodies|
  {
    if j == 0 then Zero
    else Add(PartialForceWithSelf(norm, bodies, i, j - 1), CalForce(norm, bodies[i], bodies[j - 1]))
  }

  function Forces(norm: Vec3 -> real, bodies: seq<Body>): (fs: seq<Vec3>)
    ensures |fs| == |bodies|
    ensures forall i :: 0 <= i < |bodies| ==> fs[i] == NetForce(norm, bodies, i)
  {
    seq(|bodies|, i requires 0 <= i < |bodies| => NetForce(norm, bodies, i))
  }

  /** Every mass is non-zero, so that `1 / mass` is defined. */
  predicate Massive(bodies: seq<Body>)
  {
    forall i :: 0 <= i < |bodies| ==> bodies[i].mass != 0.0
  }

  /** `velocity += force * (1 / mass) * delta`. */
  function Accelerated(b: Body, force: Vec3, delta: real): Body
    requires b.mass != 0.0
  {
    b.(velocity := Add(b.velocity, Scale(Scale(force, 1.0 / b.mass), delta)))
  }

  /** `position += velocity * delta`. */
  function Moved(b: Body, delta: real): Body
  {
    b.(position := Add(b.position, Scale(b.velocity, delta)))
  }

  function Velocities(bodies: seq<Body>, forces: seq<Vec3>, delta: real): (r: seq<Body>)
    requires Massive(bodies) && |forces| == |bodies|
    ensures |r| == |bodies|
    ensures forall i :: 0 <= i < |bodies| ==> r[i] == Accelerated(bodies[i], forces[i], delta)
  {
    seq(|bodies|, i requires 0 <= i < |bodies| => Accelerated(bodies[i], forces[i], delta))
  }

  function Positions(bodies: seq<Body>, delta: real): (r: seq<Body>)
    ensures |r| == |bodies|
    ensures forall i :: 0 <= i < |bodies| ==> r[i] == Moved(bodies[i], delta)
  {
    seq(|bodies|, i requires 0 <= i < |bodies| => Moved(bodies[i], delta))
  }

  /** One tick: forces from the old positions, then velocities, then positions. */
  function Step(norm: Vec3 -> real, delta: real, bodies: seq<Body>): (r: seq<Body>)
    requires Massive(bodies)
    ensures |r| == |bodies| && Massive(r)
    ensures forall i :: 0 <= i < |bodies| ==> r[i].mass == bodies[i].mass
  {
    Positions(Velocities(bodies, Forces(norm, bodies), delta), delta)
  }

  /** `n` consecutive ticks. */
  function Steps(norm: Vec3 -> real, delta: real, bodies: seq<Body>, n: nat): (r: seq<Body>)
    requires Massive(bodies)
    ensures |r| == |bodies| && Massive(r)
    ensures forall i :: 0 <= i < |bodies| ==> r[i].mass == bodies[i].mass
  {
    if n == 0 then bodies else Step(norm, delta, Steps(norm, delta, bodies, n - 1))
  }

  // ---------------------------------------------------------------------------
  // Properties of the kernel

  /** The magnitude times the squared separation is `G * m1 * m2`: an inverse-square law. */
  lemma MagnitudeInverseSquare(m1: real, m2: real, d: real)
    requires d != 0.0
    ensures Magnitude(m1, m2, d) * (d * d) == G * m1 * m2
  {
  }

  /** Newton's second law for one step: the mass times the change of velocity is the
      force times the time step; the mass and the position do not change. */
  lemma AcceleratedIsNewton(b: Body, force: Vec3, delta: real)
    requires b.mass != 0.0
    ensures Accelerated(b, force, delta).mass == b.mass
    ensures Accelerated(b, force, delta).position == b.position
    ensures Scale(Sub(Accelerated(b, force, delta).velocity, b.velocity), b.mass) == Scale(force, delta)
  {
    var k := 1.0 / b.mass;
    assert k * b.mass == 1.0;
    var f := force;
    assert f.x * k * delta * b.mass == f.x * delta * (k * b.mass);
    assert f.y * k * delta * b.mass == f.y * delta * (k * b.mass);
    assert f.z * k * delta * b.mass == f.z * delta * (k * b.mass);
  }

  /** A move shifts the position by velocity times the time step and keeps the rest. */
  lemma MovedByVelocity(b: Body, delta: real)
    ensures Moved(b, delta).mass == b.mass && Moved(b, delta).velocity == b.velocity
    ensures Sub(Moved(b, delta).position, b.position) == Scale(b.velocity, delta)
  {
  }

  /** The net force on an object is the full sum over all objects, itself included. */
  lemma NetForceIsFullSum(norm: Vec3 -> real, bodies: seq<Body>, i: nat)
    requires IsNorm(norm) && i < |bodies|
    ensures NetForce(norm, bodies, i) == PartialForceWithSelf(norm, bodies, i, |bodies|)
  {
    SelfSkipIsRedundant(norm, bodies, i, |bodies|);
  }

  /** An object exerts no force on itself: its separation from itself is below the clamp. */
  lemma SelfForceIsZero(norm: Vec3 -> real, b: Body)
    requires IsNorm(norm)
    ensures CalForce(norm, b, b) == Zero
  {
    assert Sub(b.position, b.position) == Zero;
    NormOfZero(norm);
  }

  /** Newton's third law for one pair: the force of `b` on `a` is the opposite of that of `a` on `b`. */
  lemma CalForceAntisymmetric(norm: Vec3 -> real, a: Body, b: Body)
    requires IsNorm(norm)
    ensures CalForce(norm, a, b) == Neg(CalForce(norm, b, a))
  {
    var r := Sub(b.position, a.position);
    assert Sub(a.position, b.position) == Neg(r);
    NormOfNeg(norm, r);
    var n := norm(r);
    if n >= MinSeparation {
      var k := Magnitude(a.mass, b.mass, n);
      assert Magnitude(b.mass, a.mass, n) == k;
      var u := Normalized(norm, r);
      ScaleNeg(r, 1.0 / n);
      assert Normalized(norm, Neg(r)) == Neg(u);
      assert CalForce(norm, a, b) == Scale(u, k);
      assert CalForce(norm, b, a) == Scale(Neg(u), k);
      ScaleNeg(u, k);
    } else {
      assert CalForce(norm, a, b) == Zero && CalForce(norm, b, a) == Zero;
      assert Neg(Zero) == Zero;
    }
  }

  /** Skipping the object itself in `updateForces` does not change the result. */
  lemma {:induction false} SelfSkipIsRedundant(norm: Vec3 -> real, bodies: seq<Body>, i: nat, j: nat)
    requires IsNorm(norm) && i < |bodies| && j <= |bodies|
    ensures PartialForce(norm, bodies, i, j) == PartialForceWithSelf(norm, bodies, i, j)
  {
    if j > 0 {
      SelfSkipIsRedundant(norm, bodies, i, j - 1);
      if j - 1 == i {
        SelfForceIsZero(norm, bodies[i]);
        var acc := PartialForceWithSelf(norm, bodies, i, j - 1);
        assert Add(acc, Zero) == acc;
      }
    }
  }

  /** Two objects pull on each other with opposite forces. */
  lemma TwoBodyNetForcesOpposite(norm: Vec3 -> real, bodies: seq<Body>)
    requires IsNorm(norm) && |bodies| == 2
    ensures NetForce(norm, bodies, 0) == Neg(NetForce(norm, bodies, 1))
  {
    var f01 := CalForce(norm, bodies[0], bodies[1]);
    var f10 := CalForce(norm, bodies[1], bodies[0]);
    assert PartialForce(norm, bodies, 0, 1) == Zero;
    assert NetForce(norm, bodies, 0) == Add(Zero, f01);
    assert PartialForce(norm, bodies, 1, 1) == Add(Zero, f10);
    assert NetForce(norm, bodies, 1) == Add(Zero, f10);
    CalForceAntisymmetric(norm, bodies[0], bodies[1]);
  }

  /** With a time step of 0 (what `setDelta` makes of a negative request) a tick moves nothing. */
  lemma FrozenWhenDeltaZero(norm: Vec3 -> real, bodies: seq<Body>)
    requires Massive(bodies)
    ensures Step(norm, 0.0, bodies) == bodies
  {
    var s := Step(norm, 0.0, bodies);
    forall i | 0 <= i < |bodies|
      ensures s[i] == bodies[i]
    {
      var b := bodies[i];
      var f := NetForce(norm, bodies, i);
      assert Add(b.velocity, Scale(Scale(f, 1.0 / b.mass), 0.0)) == b.velocity;
      assert Add(b.position, Scale(b.velocity, 0.0)) == b.position;
    }
  }

  /** With a time step of 0 any number of ticks moves nothing. */
  lemma {:induction false} FrozenStepsWhenDeltaZero(norm: Vec3 -> real, bodies: seq<Body>, n: nat)
    requires Massive(bodies)
    ensures Steps(norm, 0.0, bodies, n) == bodies
  {
    if n > 0 {
      FrozenStepsWhenDeltaZero(norm, bodies, n - 1);
      FrozenWhenDeltaZero(norm, bodies);
    }
  }

  /** A tick keeps the masses, moves each object by its new velocity times `delta`,
      and changes its velocity by its net force. */
  lemma StepEffect(norm: Vec3 -> real, delta: real, bodies: seq<Body>, i: nat)
    requires Massive(bodies) && i < |bodies|
    ensures |Step(norm, delta, bodies)| == |bodies|
    ensures Step(norm, delta, bodies)[i].mass == bodies[i].mass
    ensures Step(norm, delta, bodies)[i].velocity
         == Add(bodies[i].velocity, Scale(Scale(NetForce(norm, bodies, i), 1.0 / bodies[i].mass), delta))
    ensures Step(norm, delta, bodies)[i].position
         == Add(bodies[i].position, Scale(Step(norm, delta, bodies)[i].velocity, delta))
  {
  }
}
