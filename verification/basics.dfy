/** Building blocks shared by every module of the model: optional values,
    outcomes that distinguish a thrown error from a runtime trap, and the
    32-bit floats and poses that the app copies but never computes with. */
module Basics {

  /** Swift's `Optional`. */
  datatype Option<+T> = None | Some(value: T)

  /** The result of a Swift call that may `throw` a recoverable error or trap
      (an out-of-range index, a `fatalError`). A trap is not caught by `try?`.
      Usable with `:-`: both `Err` and `Trap` propagate. */
  datatype Outcome<+T, +E> = Ok(value: T) | Err(error: E) | Trap {

    predicate IsFailure() {
      !Ok?
    }

    function PropagateFailure<U>(): Outcome<U, E>
      requires IsFailure()
    {
      if Err? then Err(error) else Trap
    }

    function Extract(): T
      requires Ok?
    {
      value
    }
  }

  /** The effect of a state transition that may end the process with a trap. */
  datatype Run<+S> = Ran(state: S) | Crashed

  /** An IEEE 754 single-precision value, kept as its bit pattern. */
  type Float = bv32

  /** Not a NaN and not an infinity: the exponent field is not all ones. */
  predicate IsFinite(f: Float) {
    (f >> 23) & 0xFF != 0xFF
  }

  const FloatZero: Float := 0x0000_0000
  const FloatOne: Float := 0x3F80_0000

  /** `SIMD3<Float>`. */
  datatype Vec3 = Vec3(x: Float, y: Float, z: Float)

  /** `simd_quatf`, imaginary part first. */
  datatype Quat = Quat(ix: Float, iy: Float, iz: Float, r: Float)

  const IdentityQuat: Quat := Quat(FloatZero, FloatZero, FloatZero, FloatOne)

  predicate Vec3IsFinite(v: Vec3) {
    IsFinite(v.x) && IsFinite(v.y) && IsFinite(v.z)
  }

  predicate QuatIsFinite(q: Quat) {
    IsFinite(q.ix) && IsFinite(q.iy) && IsFinite(q.iz) && IsFinite(q.r)
  }

  /** The two angles a flip can target. */
  datatype Angle = NoTurn | HalfTurn

  /** An orientation: either a stored quaternion, or `simd_quatf(angle:axis:)`
      about the y axis, kept symbolic. */
  datatype Rotation = Quaternion(q: Quat) | AboutY(angle: Angle)

  /** RealityKit's `Transform`. */
  datatype Transform = Transform(scale: Vec3, rotation: Rotation, translation: Vec3)

  const IdentityTransform: Transform :=
    Transform(Vec3(FloatOne, FloatOne, FloatOne), Quaternion(IdentityQuat), Vec3(FloatZero, FloatZero, FloatZero))
}
