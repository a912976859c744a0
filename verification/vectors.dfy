/** Three-component vectors over exact reals, standing in for the engine's
    single-precision `Vector3`. Normalisation is not modelled: where the
    controller normalises, the model takes the normalised vector as an input. */
module Vectors {

  datatype Vec3 = Vec3(x: real, y: real, z: real)
  {
    function Add(o: Vec3): Vec3 {
      Vec3(x + o.x, y + o.y, z + o.z)
    }

    function Sub(o: Vec3): Vec3 {
      Vec3(x - o.x, y - o.y, z - o.z)
    }

    function Scale(k: real): Vec3 {
      Vec3(k * x, k * y, k * z)
    }

    function Neg(): Vec3 {
      Vec3(-x, -y, -z)
    }

    /** The y component replaced, as in `v.y = c`. */
    function WithY(c: real): Vec3 {
      Vec3(x, c, z)
    }
  }

  const Zero := Vec3(0.0, 0.0, 0.0)

  function Dot(a: Vec3, b: Vec3): real {
    a.x * b.x + a.y * b.y + a.z * b.z
  }

  /** `sqrMagnitude`. */
  function SqrMagnitude(v: Vec3): real {
    Dot(v, v)
  }

  /** A direction the engine produced with `normalized`: unit length, or the
      zero vector when the source vector was (nearly) zero. */
  predicate UnitOrZero(d: Vec3) {
    SqrMagnitude(d) == 1.0 || d == Zero
  }

  /** `Vector3.Reflect(v, n)`: v minus twice its component along n. */
  function Reflect(v: Vec3, n: Vec3): Vec3 {
    v.Sub(n.Scale(2.0 * Dot(v, n)))
  }

  /** Reflection off a unit normal keeps the squared length. */
  lemma ReflectKeepsSqrMagnitude(v: Vec3, n: Vec3)
    requires SqrMagnitude(n) == 1.0
    ensures SqrMagnitude(Reflect(v, n)) == SqrMagnitude(v)
  {
    var d := Dot(v, n);
    var r := Reflect(v, n);
    calc {
      SqrMagnitude(r);
      Dot(v, v) - 4.0 * d * Dot(v, n) + 4.0 * d * d * Dot(n, n);
      Dot(v, v) - 4.0 * d * d + 4.0 * d * d;
      SqrMagnitude(v);
    }
  }

  /** Reflection off a unit normal flips the component along the normal. */
  lemma ReflectFlipsNormalComponent(v: Vec3, n: Vec3)
    requires SqrMagnitude(n) == 1.0
    ensures Dot(Reflect(v, n), n) == -Dot(v, n)
  {
    var d := Dot(v, n);
    assert Dot(Reflect(v, n), n) == d - 2.0 * d * Dot(n, n);
  }

  // Arithmetic step: scaling a vector by k scales its squared length by k squared.
  lemma SqrMagnitudeScale(k: real, a: Vec3)
    ensures SqrMagnitude(a.Scale(k)) == k * k * SqrMagnitude(a)
  {
  }
}
