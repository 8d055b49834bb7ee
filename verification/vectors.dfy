/** Plain 2- and 3-component vectors over the reals, standing in for the
    single-precision vectors of the engine's math library. Only the operations
    the water core uses are defined; normalisation needs a square root and is
    therefore always passed in as a function parameter by the callers. */
module Vectors {

  datatype Vec2 = Vec2(x: real, y: real) {

    function Add(o: Vec2): Vec2 {
      Vec2(x + o.x, y + o.y)
    }

    function Sub(o: Vec2): Vec2 {
      Vec2(x - o.x, y - o.y)
    }

    /** `v * s` with a scalar `s`. */
    function Scale(s: real): Vec2 {
      Vec2(x * s, y * s)
    }

    /** `v + s` with a scalar `s`, added to every component. */
    function AddScalar(s: real): Vec2 {
      Vec2(x + s, y + s)
    }

    function Dot(o: Vec2): real {
      x * o.x + y * o.y
    }

    function LengthSquared(): real {
      x * x + y * y
    }

    /** Componentwise floor. */
    function Floor(): Vec2 {
      Vec2(x.Floor as real, y.Floor as real)
    }
  }

  datatype Vec3 = Vec3(x: real, y: real, z: real) {

    function Add(o: Vec3): Vec3 {
      Vec3(x + o.x, y + o.y, z + o.z)
    }

    function Neg(): Vec3 {
      Vec3(-x, -y, -z)
    }

    function Dot(o: Vec3): real {
      x * o.x + y * o.y + z * o.z
    }

    function Cross(o: Vec3): Vec3 {
      Vec3(y * o.z - z * o.y, z * o.x - x * o.z, x * o.y - y * o.x)
    }

    /** The horizontal part `(x, z)` of a world position. */
    function Xz(): Vec2 {
      Vec2(x, z)
    }
  }

  const UnitX: Vec3 := Vec3(1.0, 0.0, 0.0)
  const UnitY: Vec3 := Vec3(0.0, 1.0, 0.0)
  const UnitZ: Vec3 := Vec3(0.0, 0.0, 1.0)
}
