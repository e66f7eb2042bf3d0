/**
 * The host framework's value types that the binding converts to: three- and
 * four-component vectors and 3x3 / 4x4 matrices. Components are exact reals;
 * single-precision rounding is not modelled.
 */
module Cinder {

  datatype Vec3f = Vec3f(x: real, y: real, z: real)

  datatype Vec4f = Vec4f(x: real, y: real, z: real, w: real)

  /** `Vec3f::zero()` */
  const Zero: Vec3f := Vec3f(0.0, 0.0, 0.0)

  /** `Vec3f::zAxis()` */
  const ZAxis: Vec3f := Vec3f(0.0, 0.0, 1.0)

  function Add(a: Vec3f, b: Vec3f): Vec3f {
    Vec3f(a.x + b.x, a.y + b.y, a.z + b.z)
  }

  function Sub(a: Vec3f, b: Vec3f): Vec3f {
    Vec3f(a.x - b.x, a.y - b.y, a.z - b.z)
  }

  function Scale(a: Vec3f, k: real): Vec3f {
    Vec3f(a.x * k, a.y * k, a.z * k)
  }

  function Cross(a: Vec3f, b: Vec3f): Vec3f {
    Vec3f(a.y * b.z - a.z * b.y, a.z * b.x - a.x * b.z, a.x * b.y - a.y * b.x)
  }

  /** A 3x3 matrix; `mRC` is the element in row R, column C. */
  datatype Matrix33f = Matrix33f(
    m00: real, m01: real, m02: real,
    m10: real, m11: real, m12: real,
    m20: real, m21: real, m22: real)
  {
    /** Row `i` of the matrix. */
    function Row(i: nat): Vec3f
      requires i < 3
    {
      if i == 0 then Vec3f(m00, m01, m02)
      else if i == 1 then Vec3f(m10, m11, m12)
      else Vec3f(m20, m21, m22)
    }

    /** `setRow(i, v)`: row `i` becomes `v`, the other rows stay. */
    function SetRow(i: nat, v: Vec3f): (r: Matrix33f)
      requires i < 3
      ensures r.Row(i) == v
      ensures forall k :: 0 <= k < 3 && k != i ==> r.Row(k) == Row(k)
    {
      if i == 0 then this.(m00 := v.x, m01 := v.y, m02 := v.z)
      else if i == 1 then this.(m10 := v.x, m11 := v.y, m12 := v.z)
      else this.(m20 := v.x, m21 := v.y, m22 := v.z)
    }
  }

  /** The default-constructed 3x3 matrix: the identity. */
  const Identity33: Matrix33f := Matrix33f(1.0, 0.0, 0.0, 0.0, 1.0, 0.0, 0.0, 0.0, 1.0)

  /** A 4x4 matrix; `mRC` is the element in row R, column C. */
  datatype Matrix44f = Matrix44f(
    m00: real, m01: real, m02: real, m03: real,
    m10: real, m11: real, m12: real, m13: real,
    m20: real, m21: real, m22: real, m23: real,
    m30: real, m31: real, m32: real, m33: real)
  {
    function Row(i: nat): Vec4f
      requires i < 4
    {
      if i == 0 then Vec4f(m00, m01, m02, m03)
      else if i == 1 then Vec4f(m10, m11, m12, m13)
      else if i == 2 then Vec4f(m20, m21, m22, m23)
      else Vec4f(m30, m31, m32, m33)
    }

    function SetRow(i: nat, v: Vec4f): (r: Matrix44f)
      requires i < 4
      ensures r.Row(i) == v
      ensures forall k :: 0 <= k < 4 && k != i ==> r.Row(k) == Row(k)
    {
      if i == 0 then this.(m00 := v.x, m01 := v.y, m02 := v.z, m03 := v.w)
      else if i == 1 then this.(m10 := v.x, m11 := v.y, m12 := v.z, m13 := v.w)
      else if i == 2 then this.(m20 := v.x, m21 := v.y, m22 := v.z, m23 := v.w)
      else this.(m30 := v.x, m31 := v.y, m32 := v.z, m33 := v.w)
    }
  }

  /** The default-constructed 4x4 matrix: the identity. */
  const Identity44: Matrix44f :=
    Matrix44f(1.0, 0.0, 0.0, 0.0, 0.0, 1.0, 0.0, 0.0, 0.0, 0.0, 1.0, 0.0, 0.0, 0.0, 0.0, 1.0)
}
