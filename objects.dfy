/** `SimObject`: a mutable record whose identity is its reference. */
module Objects {
  import opened Vectors
  import opened Kernel

  class SimObject {
    var mass: real
    var position: Vec3
    var velocity: Vec3

    constructor (mass: real, position: Vec3, velocity: Vec3)
      ensures this.mass == mass && this.position == position && this.velocity == velocity
    {
      this.mass := mass;
      this.position := position;
      this.velocity := velocity;
    }

    /** The values the kernel works on. */
    function Snapshot(): Body
      reads this
    {
      Body(mass, position, velocity)
    }
  }

  /** A lookup result: an object, or the `SimObject.VOID` sentinel that stands for "none". */
  datatype Lookup = Void | Found(obj: SimObject)

  /** The snapshots of a list of objects, in order. */
  function Bodies(objs: seq<SimObject>): (bs: seq<Body>)
    reads set o | o in objs
    ensures |bs| == |objs|
    ensures forall i :: 0 <= i < |objs| ==> bs[i] == objs[i].Snapshot()
  {
    seq(|objs|, i reads set o | o in objs requires 0 <= i < |objs| => objs[i].Snapshot())
  }
}
