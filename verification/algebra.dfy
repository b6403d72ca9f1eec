/** 4x4 transforms, vectors and quaternions (lib/algebra.ts), over the reals.
    A `Mat4` is a column-major 16-tuple: the entry in column c and row r sits at index
    c * 4 + r. Points and directions are column vectors, so `Apply(m, v)` is `m * v`. */
module Algebra {
  import opened RealMath

  type Mat4 = m: seq<real> | |m| == 16
    witness [1.0, 0.0, 0.0, 0.0, 0.0, 1.0, 0.0, 0.0, 0.0, 0.0, 1.0, 0.0, 0.0, 0.0, 0.0, 1.0]

  type Vec4 = v: seq<real> | |v| == 4 witness [0.0, 0.0, 0.0, 0.0]

  type Vec3 = v: seq<real> | |v| == 3 witness [0.0, 0.0, 0.0]

  // ---------------------------------------------------------------------------
  // Matrices

  function Identity(): Mat4
  {
    [1.0, 0.0, 0.0, 0.0, 0.0, 1.0, 0.0, 0.0, 0.0, 0.0, 1.0, 0.0, 0.0, 0.0, 0.0, 1.0]
  }

  /** `left * right`: the transform that applies `right` first, then `left`. */
  function Multiply(l: Mat4, r: Mat4): Mat4
  {
    [
      l[0] * r[0] + l[4] * r[1] + l[8] * r[2] + l[12] * r[3],
      l[1] * r[0] + l[5] * r[1] + l[9] * r[2] + l[13] * r[3],
      l[2] * r[0] + l[6] * r[1] + l[10] * r[2] + l[14] * r[3],
      l[3] * r[0] + l[7] * r[1] + l[11] * r[2] + l[15] * r[3],
      l[0] * r[4] + l[4] * r[5] + l[8] * r[6] + l[12] * r[7],
      l[1] * r[4] + l[5] * r[5] + l[9] * r[6] + l[13] * r[7],
      l[2] * r[4] + l[6] * r[5] + l[10] * r[6] + l[14] * r[7],
      l[3] * r[4] + l[7] * r[5] + l[11] * r[6] + l[15] * r[7],
      l[0] * r[8] + l[4] * r[9] + l[8] * r[10] + l[12] * r[11],
      l[1] * r[8] + l[5] * r[9] + l[9] * r[10] + l[13] * r[11],
      l[2] * r[8] + l[6] * r[9] + l[10] * r[10] + l[14] * r[11],
      l[3] * r[8] + l[7] * r[9] + l[11] * r[10] + l[15] * r[11],
      l[0] * r[12] + l[4] * r[13] + l[8] * r[14] + l[12] * r[15],
      l[1] * r[12] + l[5] * r[13] + l[9] * r[14] + l[13] * r[15],
      l[2] * r[12] + l[6] * r[13] + l[10] * r[14] + l[14] * r[15],
      l[3] * r[12] + l[7] * r[13] + l[11] * r[14] + l[15] * r[15]
    ]
  }

  /** The homogeneous point or direction `v` transformed by `m`. */
  function Apply(m: Mat4, v: Vec4): Vec4
  {
    [
      m[0] * v[0] + m[4] * v[1] + m[8] * v[2] + m[12] * v[3],
      m[1] * v[0] + m[5] * v[1] + m[9] * v[2] + m[13] * v[3],
      m[2] * v[0] + m[6] * v[1] + m[10] * v[2] + m[14] * v[3],
      m[3] * v[0] + m[7] * v[1] + m[11] * v[2] + m[15] * v[3]
    ]
  }

  function Zoom(scale: Vec3): Mat4
  {
    [scale[0], 0.0, 0.0, 0.0, 0.0, scale[1], 0.0, 0.0, 0.0, 0.0, scale[2], 0.0, 0.0, 0.0, 0.0, 1.0]
  }

  function Translate(t: Vec3): Mat4
  {
    [1.0, 0.0, 0.0, 0.0, 0.0, 1.0, 0.0, 0.0, 0.0, 0.0, 1.0, 0.0, t[0], t[1], t[2], 1.0]
  }

  /** True of a matrix whose last row is (0, 0, 0, 1): an affine, non-projective transform. */
  predicate Affine(m: Mat4)
  {
    m[3] == 0.0 && m[7] == 0.0 && m[11] == 0.0 && m[15] == 1.0
  }

  /** The rotation matrix of the quaternion q = (x, y, z, w), by the double-product formula. */
  function Rotate(q: Vec4): (m: Mat4)
    ensures Affine(m)
    ensures m[12] == 0.0 && m[13] == 0.0 && m[14] == 0.0
  {
    var x2 := 2.0 * q[0];
    var y2 := 2.0 * q[1];
    var z2 := 2.0 * q[2];
    var xx2 := x2 * q[0];
    var xy2 := x2 * q[1];
    var xz2 := x2 * q[2];
    var xw2 := x2 * q[3];
    var yy2 := y2 * q[1];
    var yz2 := y2 * q[2];
    var yw2 := y2 * q[3];
    var zz2 := z2 * q[2];
    var zw2 := z2 * q[3];
    [
      1.0 - yy2 - zz2, xy2 + zw2, xz2 - yw2, 0.0,
      xy2 - zw2, 1.0 - xx2 - zz2, yz2 + xw2, 0.0,
      xz2 + yw2, yz2 - xw2, 1.0 - xx2 - yy2, 0.0,
      0.0, 0.0, 0.0, 1.0
    ]
  }

  /** Scale, then rotate by the quaternion, then translate, fused into one matrix. */
  function Compose(scale: Vec3, q: Vec4, t: Vec3): Mat4
  {
    var x2 := 2.0 * q[0];
    var y2 := 2.0 * q[1];
    var z2 := 2.0 * q[2];
    var xx2 := x2 * q[0];
    var xy2 := x2 * q[1];
    var xz2 := x2 * q[2];
    var xw2 := x2 * q[3];
    var yy2 := y2 * q[1];
    var yz2 := y2 * q[2];
    var yw2 := y2 * q[3];
    var zz2 := z2 * q[2];
    var zw2 := z2 * q[3];
    [
      (1.0 - yy2 - zz2) * scale[0], (xy2 + zw2) * scale[0], (xz2 - yw2) * scale[0], 0.0,
      (xy2 - zw2) * scale[1], (1.0 - xx2 - zz2) * scale[1], (yz2 + xw2) * scale[1], 0.0,
      (xz2 + yw2) * scale[2], (yz2 - xw2) * scale[2], (1.0 - xx2 - yy2) * scale[2], 0.0,
      t[0], t[1], t[2], 1.0
    ]
  }

  // ---------------------------------------------------------------------------
  // Vectors (the source's `number[]` helpers work on arrays of any length)

  function Plus(a: seq<real>, b: seq<real>): (r: seq<real>)
    requires |a| <= |b|
    ensures |r| == |a|
  {
    seq(|a|, i requires 0 <= i < |a| => a[i] + b[i])
  }

  function Minus(a: seq<real>, b: seq<real>): (r: seq<real>)
    requires |a| <= |b|
    ensures |r| == |a|
  {
    seq(|a|, i requires 0 <= i < |a| => a[i] - b[i])
  }

  function Times(a: seq<real>, k: real): (r: seq<real>)
    ensures |r| == |a|
  {
    seq(|a|, i requires 0 <= i < |a| => a[i] * k)
  }

  /** `a.reduce((sum, x, j) => sum + x * b[j], 0)`: a left fold. */
  function Dot(a: seq<real>, b: seq<real>): real
    requires |a| <= |b|
  {
    if |a| == 0 then 0.0 else Dot(a[..|a| - 1], b) + a[|a| - 1] * b[|a| - 1]
  }

  /** `a.reduce((sum, x) => sum + x * x, 0)`: the squared Euclidean length. */
  function SumOfSquares(a: seq<real>): real
  {
    if |a| == 0 then 0.0 else SumOfSquares(a[..|a| - 1]) + a[|a| - 1] * a[|a| - 1]
  }

  function Cross(a: Vec3, b: Vec3): Vec3
  {
    [a[1] * b[2] - a[2] * b[1], a[2] * b[0] - a[0] * b[2], a[0] * b[1] - a[1] * b[0]]
  }

  /** The norm `sqrt` gives for `a`; `Normalize` divides by it. */
  function Norm(sqrt: real -> real, a: seq<real>): real
  {
    sqrt(SumOfSquares(a))
  }

  /** Each component divided by the norm. A zero norm gives non-finite values in the
      source; the model requires it to be non-zero. */
  function Normalize(sqrt: real -> real, a: seq<real>): (r: seq<real>)
    requires Norm(sqrt, a) != 0.0
    ensures |r| == |a|
  {
    var len := Norm(sqrt, a);
    seq(|a|, i requires 0 <= i < |a| => a[i] / len)
  }

  /** `previous + t * (next - previous)`, componentwise, as long as `next`. */
  function Lerp(previous: seq<real>, next: seq<real>, t: real): (r: seq<real>)
    requires |next| <= |previous|
    ensures |r| == |next|
  {
    seq(|next|, i requires 0 <= i < |next| => previous[i] + t * (next[i] - previous[i]))
  }

  function Negate(a: seq<real>): (r: seq<real>)
    ensures |r| == |a|
  {
    seq(|a|, i requires 0 <= i < |a| => -a[i])
  }

  /** The second argument after the shortest-arc correction, and the dot product with it. */
  function ShortestArc(previous: seq<real>, next: seq<real>): (nd: (seq<real>, real))
    requires |previous| == |next|
    ensures |nd.0| == |next| && nd.1 >= 0.0
    ensures nd.1 == Abs(Dot(previous, next))
    ensures nd.0 == next || nd.0 == Negate(next)
  {
    var d := Dot(previous, next);
    if d < 0.0 then (Negate(next), -d) else (next, d)
  }

  /** The threshold above which slerp falls back to a normalized linear interpolation. */
  const SLERP_LINEAR_THRESHOLD: real := 0.9995

  /** The conditions under which slerp divides by non-zero numbers. */
  ghost predicate SlerpDefined(m: MathLib, previous: seq<real>, next: seq<real>, t: real)
    requires |previous| == |next|
  {
    var (n, d) := ShortestArc(previous, next);
    if d > SLERP_LINEAR_THRESHOLD then Norm(m.sqrt, Lerp(previous, n, t)) != 0.0
    else m.sin(m.acos(d)) != 0.0
  }

  function Slerp(m: MathLib, previous: seq<real>, next: seq<real>, t: real): (r: seq<real>)
    requires |previous| == |next|
    requires SlerpDefined(m, previous, next, t)
    ensures |r| == |next|
  {
    var (n, d) := ShortestArc(previous, next);
    if d > SLERP_LINEAR_THRESHOLD then
      Normalize(m.sqrt, Lerp(previous, n, t))
    else
      SlerpSpherical(m, previous, n, d, t)
  }

  /** The spherical branch of slerp: `previous` and the corrected `next` blended with the
      weights SlerpWeights gives. */
  function SlerpSpherical(m: MathLib, previous: seq<real>, n: seq<real>, d: real, t: real): (r: seq<real>)
    requires |previous| == |n| && m.sin(m.acos(d)) != 0.0
    ensures |r| == |n|
  {
    var w := SlerpWeights(m, d, t);
    Blend(previous, n, w.0, w.1)
  }

  /** With alpha = acos(d) the angle between the two ends: the weight of `previous` is
      cos(t alpha) - d sin(t alpha) / sin(alpha), the weight of `next` sin(t alpha) / sin(alpha). */
  function SlerpWeights(m: MathLib, d: real, t: real): (w: (real, real))
    requires m.sin(m.acos(d)) != 0.0
  {
    var alpha := m.acos(d);
    var beta := t * alpha;
    var sinAlpha := m.sin(alpha);
    var sinBeta := m.sin(beta);
    var scaleNext := sinBeta / sinAlpha;
    var scalePrevious := m.cos(beta) - d * scaleNext;
    (scalePrevious, scaleNext)
  }

  /** At t = 0 the weights are (1, 0); at t = 1, where cos(alpha) == d, they are (0, 1). */
  lemma SlerpWeightsEnds(m: MathLib, d: real)
    requires m.sin(m.acos(d)) != 0.0
    ensures TrigAtZero(m) ==> SlerpWeights(m, d, 0.0) == (1.0, 0.0)
    ensures m.cos(m.acos(d)) == d ==> SlerpWeights(m, d, 1.0) == (0.0, 1.0)
  {
    var alpha := m.acos(d);
    assert 0.0 * alpha == 0.0 && 1.0 * alpha == alpha;
    assert m.sin(alpha) / m.sin(alpha) == 1.0;
    assert SlerpWeights(m, d, 1.0).1 == 1.0;
    assert m.cos(m.acos(d)) == d ==> SlerpWeights(m, d, 1.0).0 == 0.0;
    assert TrigAtZero(m) ==> SlerpWeights(m, d, 0.0).1 == 0.0;
    assert TrigAtZero(m) ==> SlerpWeights(m, d, 0.0).0 == 1.0;
  }

  /** The weighted sum wa * a + wb * b, component by component. */
  function Blend(a: seq<real>, b: seq<real>, wa: real, wb: real): (r: seq<real>)
    requires |a| == |b|
    ensures |r| == |b|
  {
    seq(|b|, i requires 0 <= i < |b| => wa * a[i] + wb * b[i])
  }

  /** Weights (1, 0) pick the first vector, weights (0, 1) the second. */
  lemma BlendEnds(a: seq<real>, b: seq<real>)
    requires |a| == |b|
    ensures Blend(a, b, 1.0, 0.0) == a && Blend(a, b, 0.0, 1.0) == b
  {
  }

  /** The quaternion (normalize(axis) * sin(radian / 2), cos(radian / 2)). */
  function AxisAngleQuaternion(m: MathLib, axis: Vec3, radian: real): (q: Vec4)
    requires Norm(m.sqrt, axis) != 0.0
  {
    var half := radian / 2.0;
    Times(Normalize(m.sqrt, axis), m.sin(half)) + [m.cos(half)]
  }

  function RotateAroundAxisAngle(m: MathLib, axis: Vec3, radian: real): Mat4
    requires Norm(m.sqrt, axis) != 0.0
  {
    Rotate(AxisAngleQuaternion(m, axis, radian))
  }

  // ---------------------------------------------------------------------------
  // Projections

  predicate OrthogonalDefined(left: real, right: real, bottom: real, top: real, near: real, far: real)
  {
    right != left && top != bottom && near != far
  }

  function Orthogonal(left: real, right: real, bottom: real, top: real, near: real, far: real): Mat4
    requires OrthogonalDefined(left, right, bottom, top, near, far)
  {
    [
      2.0 / (right - left), 0.0, 0.0, 0.0,
      0.0, 2.0 / (top - bottom), 0.0, 0.0,
      0.0, 0.0, 2.0 / (near - far), 0.0,
      -(right + left) / (right - left), -(top + bottom) / (top - bottom), (far + near) / (near - far), 1.0
    ]
  }

  /** `fov` is the vertical field of view in degrees. */
  predicate PerspectiveDefined(m: MathLib, fov: real, near: real, far: real, aspect: real)
  {
    m.tan(fov * PI / 360.0) != 0.0 && near != far && aspect != 0.0
  }

  function Perspective(m: MathLib, fov: real, near: real, far: real, aspect: real): Mat4
    requires PerspectiveDefined(m, fov, near, far, aspect)
  {
    var f := 1.0 / m.tan(fov * PI / 360.0);
    var depthInv := 1.0 / (near - far);
    [
      f / aspect, 0.0, 0.0, 0.0,
      0.0, f, 0.0, 0.0,
      0.0, 0.0, (near + far) * depthInv, -1.0,
      0.0, 0.0, near * far * depthInv * 2.0, 0.0
    ]
  }

  /** The gaze axis of a view: from the target towards the eye. */
  function Gaze(sqrt: real -> real, position: Vec3, target: Vec3): Vec3
    requires Norm(sqrt, Minus(position, target)) != 0.0
  {
    Normalize(sqrt, Minus(position, target))
  }

  /** lookAt divides by two norms; both must be non-zero. */
  predicate LookAtDefined(sqrt: real -> real, position: Vec3, target: Vec3, up: Vec3)
  {
    Norm(sqrt, Minus(position, target)) != 0.0 &&
    Norm(sqrt, Cross(up, Gaze(sqrt, position, target))) != 0.0
  }

  function LookAt(sqrt: real -> real, position: Vec3, target: Vec3, up: Vec3): Mat4
    requires LookAtDefined(sqrt, position, target, up)
  {
    var gaze := Gaze(sqrt, position, target);
    var right: Vec3 := Normalize(sqrt, Cross(up, gaze));
    var up' := Cross(gaze, right);
    [
      right[0], up'[0], gaze[0], 0.0,
      right[1], up'[1], gaze[1], 0.0,
      right[2], up'[2], gaze[2], 0.0,
      -Dot(right, position), -Dot(up', position), -Dot(gaze, position), 1.0
    ]
  }

  // ---------------------------------------------------------------------------
  // Properties of the matrix algebra

  lemma MultiplyIdentityLeft(m: Mat4)
    ensures Multiply(Identity(), m) == m
  {
    var p := Multiply(Identity(), m);
    forall k | 0 <= k < 16 ensures p[k] == m[k] {}
  }

  lemma MultiplyIdentityRight(m: Mat4)
    ensures Multiply(m, Identity()) == m
  {
    var p := Multiply(m, Identity());
    forall k | 0 <= k < 16 ensures p[k] == m[k] {}
  }

  lemma ApplyIdentity(v: Vec4)
    ensures Apply(Identity(), v) == v
  {
    var u := Apply(Identity(), v);
    assert u[0] == v[0] && u[1] == v[1] && u[2] == v[2] && u[3] == v[3];
  }

  /** Column c of m, which is where m sends the c-th unit vector. */
  function Column(m: Mat4, c: nat): Vec4
    requires c < 4
  {
    m[4 * c..4 * c + 4]
  }

  /** Four-component dot product. */
  function Dot4(x0: real, x1: real, x2: real, x3: real, y0: real, y1: real, y2: real, y3: real): real
  {
    x0 * y0 + x1 * y1 + x2 * y2 + x3 * y3
  }

  /** One row of a product applied to a vector, regrouped: (a * B) . v == a . (B * v). */
  lemma RowRegroup(a0: real, a1: real, a2: real, a3: real,
                   b00: real, b01: real, b02: real, b03: real,
                   b10: real, b11: real, b12: real, b13: real,
                   b20: real, b21: real, b22: real, b23: real,
                   b30: real, b31: real, b32: real, b33: real,
                   v0: real, v1: real, v2: real, v3: real)
    ensures Dot4(Dot4(a0, a1, a2, a3, b00, b10, b20, b30), Dot4(a0, a1, a2, a3, b01, b11, b21, b31),
                 Dot4(a0, a1, a2, a3, b02, b12, b22, b32), Dot4(a0, a1, a2, a3, b03, b13, b23, b33),
                 v0, v1, v2, v3)
         == Dot4(a0, a1, a2, a3,
                 Dot4(b00, b01, b02, b03, v0, v1, v2, v3), Dot4(b10, b11, b12, b13, v0, v1, v2, v3),
                 Dot4(b20, b21, b22, b23, v0, v1, v2, v3), Dot4(b30, b31, b32, b33, v0, v1, v2, v3))
  {
    calc {
      Dot4(Dot4(a0, a1, a2, a3, b00, b10, b20, b30), Dot4(a0, a1, a2, a3, b01, b11, b21, b31),
           Dot4(a0, a1, a2, a3, b02, b12, b22, b32), Dot4(a0, a1, a2, a3, b03, b13, b23, b33),
           v0, v1, v2, v3);
      Dot4(a0, a1, a2, a3, b00, b10, b20, b30) * v0 + Dot4(a0, a1, a2, a3, b01, b11, b21, b31) * v1
        + Dot4(a0, a1, a2, a3, b02, b12, b22, b32) * v2 + Dot4(a0, a1, a2, a3, b03, b13, b23, b33) * v3;
      { ScaleDot(a0, a1, a2, a3, b00, b10, b20, b30, v0);
        ScaleDot(a0, a1, a2, a3, b01, b11, b21, b31, v1);
        ScaleDot(a0, a1, a2, a3, b02, b12, b22, b32, v2);
        ScaleDot(a0, a1, a2, a3, b03, b13, b23, b33, v3); }
      Dot4(a0, a1, a2, a3, b00 * v0, b10 * v0, b20 * v0, b30 * v0)
        + Dot4(a0, a1, a2, a3, b01 * v1, b11 * v1, b21 * v1, b31 * v1)
        + Dot4(a0, a1, a2, a3, b02 * v2, b12 * v2, b22 * v2, b32 * v2)
        + Dot4(a0, a1, a2, a3, b03 * v3, b13 * v3, b23 * v3, b33 * v3);
      { AddDot4(a0, a1, a2, a3, b00 * v0, b10 * v0, b20 * v0, b30 * v0, b01 * v1, b11 * v1, b21 * v1, b31 * v1,
                b02 * v2, b12 * v2, b22 * v2, b32 * v2, b03 * v3, b13 * v3, b23 * v3, b33 * v3); }
      Dot4(a0, a1, a2, a3,
           b00 * v0 + b01 * v1 + b02 * v2 + b03 * v3, b10 * v0 + b11 * v1 + b12 * v2 + b13 * v3,
           b20 * v0 + b21 * v1 + b22 * v2 + b23 * v3, b30 * v0 + b31 * v1 + b32 * v2 + b33 * v3);
      Dot4(a0, a1, a2, a3,
           Dot4(b00, b01, b02, b03, v0, v1, v2, v3), Dot4(b10, b11, b12, b13, v0, v1, v2, v3),
           Dot4(b20, b21, b22, b23, v0, v1, v2, v3), Dot4(b30, b31, b32, b33, v0, v1, v2, v3));
    }
  }

  /** Scaling a dot product scales its second vector. */
  lemma ScaleDot(x0: real, x1: real, x2: real, x3: real, y0: real, y1: real, y2: real, y3: real, k: real)
    ensures Dot4(x0, x1, x2, x3, y0, y1, y2, y3) * k == Dot4(x0, x1, x2, x3, y0 * k, y1 * k, y2 * k, y3 * k)
  {
  }

  /** Dot products with a common first vector add up through their second vectors. */
  lemma AddDot4(x0: real, x1: real, x2: real, x3: real,
                p0: real, p1: real, p2: real, p3: real, q0: real, q1: real, q2: real, q3: real,
                r0: real, r1: real, r2: real, r3: real, s0: real, s1: real, s2: real, s3: real)
    ensures Dot4(x0, x1, x2, x3, p0, p1, p2, p3) + Dot4(x0, x1, x2, x3, q0, q1, q2, q3)
          + Dot4(x0, x1, x2, x3, r0, r1, r2, r3) + Dot4(x0, x1, x2, x3, s0, s1, s2, s3)
         == Dot4(x0, x1, x2, x3, p0 + q0 + r0 + s0, p1 + q1 + r1 + s1, p2 + q2 + r2 + s2, p3 + q3 + r3 + s3)
  {
  }

  /** Multiply means "right first, then left". */
  lemma ApplyMultiply(a: Mat4, b: Mat4, v: Vec4)
    ensures Apply(Multiply(a, b), v) == Apply(a, Apply(b, v))
  {
    var lhs, rhs := Apply(Multiply(a, b), v), Apply(a, Apply(b, v));
    var m := Multiply(a, b);
    ApplyMultiplyRow0(a, b, m, v);
    ApplyMultiplyRow1(a, b, m, v);
    ApplyMultiplyRow2(a, b, m, v);
    ApplyMultiplyRow3(a, b, m, v);
    assert lhs[0] == rhs[0] && lhs[1] == rhs[1] && lhs[2] == rhs[2] && lhs[3] == rhs[3];
  }

  /** Row r of m * v is row r of a * (b * v) when row r of m is row r of a * b. */
  lemma ApplyMultiplyRow0(a: Mat4, b: Mat4, m: Mat4, v: Vec4)
    requires m[0] == a[0] * b[0] + a[4] * b[1] + a[8] * b[2] + a[12] * b[3]
    requires m[4] == a[0] * b[4] + a[4] * b[5] + a[8] * b[6] + a[12] * b[7]
    requires m[8] == a[0] * b[8] + a[4] * b[9] + a[8] * b[10] + a[12] * b[11]
    requires m[12] == a[0] * b[12] + a[4] * b[13] + a[8] * b[14] + a[12] * b[15]
    ensures Apply(m, v)[0] == Apply(a, Apply(b, v))[0]
  {
    var u := Apply(b, v);
    assert Apply(m, v)[0] == Dot4(m[0], m[4], m[8], m[12], v[0], v[1], v[2], v[3]);
    assert m[0] == Dot4(a[0], a[4], a[8], a[12], b[0], b[1], b[2], b[3]);
    assert m[4] == Dot4(a[0], a[4], a[8], a[12], b[4], b[5], b[6], b[7]);
    assert m[8] == Dot4(a[0], a[4], a[8], a[12], b[8], b[9], b[10], b[11]);
    assert m[12] == Dot4(a[0], a[4], a[8], a[12], b[12], b[13], b[14], b[15]);
    assert u[0] == Dot4(b[0], b[4], b[8], b[12], v[0], v[1], v[2], v[3]);
    assert u[1] == Dot4(b[1], b[5], b[9], b[13], v[0], v[1], v[2], v[3]);
    assert u[2] == Dot4(b[2], b[6], b[10], b[14], v[0], v[1], v[2], v[3]);
    assert u[3] == Dot4(b[3], b[7], b[11], b[15], v[0], v[1], v[2], v[3]);
    assert Apply(a, u)[0] == Dot4(a[0], a[4], a[8], a[12], u[0], u[1], u[2], u[3]);
    RowRegroup(a[0], a[4], a[8], a[12], b[0], b[4], b[8], b[12], b[1], b[5], b[9], b[13], b[2], b[6], b[10], b[14], b[3], b[7], b[11], b[15],
               v[0], v[1], v[2], v[3]);
  }

  lemma ApplyMultiplyRow1(a: Mat4, b: Mat4, m: Mat4, v: Vec4)
    requires m[1] == a[1] * b[0] + a[5] * b[1] + a[9] * b[2] + a[13] * b[3]
    requires m[5] == a[1] * b[4] + a[5] * b[5] + a[9] * b[6] + a[13] * b[7]
    requires m[9] == a[1] * b[8] + a[5] * b[9] + a[9] * b[10] + a[13] * b[11]
    requires m[13] == a[1] * b[12] + a[5] * b[13] + a[9] * b[14] + a[13] * b[15]
    ensures Apply(m, v)[1] == Apply(a, Apply(b, v))[1]
  {
    var u := Apply(b, v);
    assert Apply(m, v)[1] == Dot4(m[1], m[5], m[9], m[13], v[0], v[1], v[2], v[3]);
    assert m[1] == Dot4(a[1], a[5], a[9], a[13], b[0], b[1], b[2], b[3]);
    assert m[5] == Dot4(a[1], a[5], a[9], a[13], b[4], b[5], b[6], b[7]);
    assert m[9] == Dot4(a[1], a[5], a[9], a[13], b[8], b[9], b[10], b[11]);
    assert m[13] == Dot4(a[1], a[5], a[9], a[13], b[12], b[13], b[14], b[15]);
    assert u[0] == Dot4(b[0], b[4], b[8], b[12], v[0], v[1], v[2], v[3]);
    assert u[1] == Dot4(b[1], b[5], b[9], b[13], v[0], v[1], v[2], v[3]);
    assert u[2] == Dot4(b[2], b[6], b[10], b[14], v[0], v[1], v[2], v[3]);
    assert u[3] == Dot4(b[3], b[7], b[11], b[15], v[0], v[1], v[2], v[3]);
    assert Apply(a, u)[1] == Dot4(a[1], a[5], a[9], a[13], u[0], u[1], u[2], u[3]);
    RowRegroup(a[1], a[5], a[9], a[13], b[0], b[4], b[8], b[12], b[1], b[5], b[9], b[13], b[2], b[6], b[10], b[14], b[3], b[7], b[11], b[15],
               v[0], v[1], v[2], v[3]);
  }

  lemma ApplyMultiplyRow2(a: Mat4, b: Mat4, m: Mat4, v: Vec4)
    requires m[2] == a[2] * b[0] + a[6] * b[1] + a[10] * b[2] + a[14] * b[3]
    requires m[6] == a[2] * b[4] + a[6] * b[5] + a[10] * b[6] + a[14] * b[7]
    requires m[10] == a[2] * b[8] + a[6] * b[9] + a[10] * b[10] + a[14] * b[11]
    requires m[14] == a[2] * b[12] + a[6] * b[13] + a[10] * b[14] + a[14] * b[15]
    ensures Apply(m, v)[2] == Apply(a, Apply(b, v))[2]
  {
    var u := Apply(b, v);
    assert Apply(m, v)[2] == Dot4(m[2], m[6], m[10], m[14], v[0], v[1], v[2], v[3]);
    assert m[2] == Dot4(a[2], a[6], a[10], a[14], b[0], b[1], b[2], b[3]);
    assert m[6] == Dot4(a[2], a[6], a[10], a[14], b[4], b[5], b[6], b[7]);
    assert m[10] == Dot4(a[2], a[6], a[10], a[14], b[8], b[9], b[10], b[11]);
    assert m[14] == Dot4(a[2], a[6], a[10], a[14], b[12], b[13], b[14], b[15]);
    assert u[0] == Dot4(b[0], b[4], b[8], b[12], v[0], v[1], v[2], v[3]);
    assert u[1] == Dot4(b[1], b[5], b[9], b[13], v[0], v[1], v[2], v[3]);
    assert u[2] == Dot4(b[2], b[6], b[10], b[14], v[0], v[1], v[2], v[3]);
    assert u[3] == Dot4(b[3], b[7], b[11], b[15], v[0], v[1], v[2], v[3]);
    assert Apply(a, u)[2] == Dot4(a[2], a[6], a[10], a[14], u[0], u[1], u[2], u[3]);
    RowRegroup(a[2], a[6], a[10], a[14], b[0], b[4], b[8], b[12], b[1], b[5], b[9], b[13], b[2], b[6], b[10], b[14], b[3], b[7], b[11], b[15],
               v[0], v[1], v[2], v[3]);
  }

  lemma ApplyMultiplyRow3(a: Mat4, b: Mat4, m: Mat4, v: Vec4)
    requires m[3] == a[3] * b[0] + a[7] * b[1] + a[11] * b[2] + a[15] * b[3]
    requires m[7] == a[3] * b[4] + a[7] * b[5] + a[11] * b[6] + a[15] * b[7]
    requires m[11] == a[3] * b[8] + a[7] * b[9] + a[11] * b[10] + a[15] * b[11]
    requires m[15] == a[3] * b[12] + a[7] * b[13] + a[11] * b[14] + a[15] * b[15]
    ensures Apply(m, v)[3] == Apply(a, Apply(b, v))[3]
  {
    var u := Apply(b, v);
    assert Apply(m, v)[3] == Dot4(m[3], m[7], m[11], m[15], v[0], v[1], v[2], v[3]);
    assert m[3] == Dot4(a[3], a[7], a[11], a[15], b[0], b[1], b[2], b[3]);
    assert m[7] == Dot4(a[3], a[7], a[11], a[15], b[4], b[5], b[6], b[7]);
    assert m[11] == Dot4(a[3], a[7], a[11], a[15], b[8], b[9], b[10], b[11]);
    assert m[15] == Dot4(a[3], a[7], a[11], a[15], b[12], b[13], b[14], b[15]);
    assert u[0] == Dot4(b[0], b[4], b[8], b[12], v[0], v[1], v[2], v[3]);
    assert u[1] == Dot4(b[1], b[5], b[9], b[13], v[0], v[1], v[2], v[3]);
    assert u[2] == Dot4(b[2], b[6], b[10], b[14], v[0], v[1], v[2], v[3]);
    assert u[3] == Dot4(b[3], b[7], b[11], b[15], v[0], v[1], v[2], v[3]);
    assert Apply(a, u)[3] == Dot4(a[3], a[7], a[11], a[15], u[0], u[1], u[2], u[3]);
    RowRegroup(a[3], a[7], a[11], a[15], b[0], b[4], b[8], b[12], b[1], b[5], b[9], b[13], b[2], b[6], b[10], b[14], b[3], b[7], b[11], b[15],
               v[0], v[1], v[2], v[3]);
  }

  /** The four unit column vectors. */
  function Basis(c: nat): Vec4
    requires c < 4
  {
    if c == 0 then [1.0, 0.0, 0.0, 0.0]
    else if c == 1 then [0.0, 1.0, 0.0, 0.0]
    else if c == 2 then [0.0, 0.0, 1.0, 0.0]
    else [0.0, 0.0, 0.0, 1.0]
  }

  lemma ApplyBasis(m: Mat4, c: nat)
    requires c < 4
    ensures Apply(m, Basis(c)) == Column(m, c)
  {
    var u := Apply(m, Basis(c));
    assert u[0] == m[4 * c] && u[1] == m[4 * c + 1] && u[2] == m[4 * c + 2] && u[3] == m[4 * c + 3];
  }

  /** Two matrices that move every unit vector alike are equal. */
  lemma EqualOnBasis(m: Mat4, n: Mat4)
    requires forall c :: 0 <= c < 4 ==> Apply(m, Basis(c)) == Apply(n, Basis(c))
    ensures m == n
  {
    forall c | 0 <= c < 4 ensures Column(m, c) == Column(n, c) {
      ApplyBasis(m, c);
      ApplyBasis(n, c);
    }
    forall k | 0 <= k < 16 ensures m[k] == n[k] {
      var c := k / 4;
      assert Column(m, c)[k - 4 * c] == Column(n, c)[k - 4 * c];
    }
  }

  /** Composition of transforms is associative. */
  lemma MultiplyAssociative(a: Mat4, b: Mat4, c: Mat4)
    ensures Multiply(Multiply(a, b), c) == Multiply(a, Multiply(b, c))
  {
    forall k | 0 <= k < 4
      ensures Apply(Multiply(Multiply(a, b), c), Basis(k)) == Apply(Multiply(a, Multiply(b, c)), Basis(k))
    {
      var e := Basis(k);
      calc {
        Apply(Multiply(Multiply(a, b), c), e);
        { ApplyMultiply(Multiply(a, b), c, e); }
        Apply(Multiply(a, b), Apply(c, e));
        { ApplyMultiply(a, b, Apply(c, e)); }
        Apply(a, Apply(b, Apply(c, e)));
        { ApplyMultiply(b, c, e); }
        Apply(a, Apply(Multiply(b, c), e));
        { ApplyMultiply(a, Multiply(b, c), e); }
        Apply(Multiply(a, Multiply(b, c)), e);
      }
    }
    EqualOnBasis(Multiply(Multiply(a, b), c), Multiply(a, Multiply(b, c)));
  }

  /** Multiplying by a scale on the right scales the first three columns. */
  lemma MultiplyZoom(m: Mat4, s: Vec3)
    ensures Multiply(m, Zoom(s)) ==
      [m[0] * s[0], m[1] * s[0], m[2] * s[0], m[3] * s[0],
       m[4] * s[1], m[5] * s[1], m[6] * s[1], m[7] * s[1],
       m[8] * s[2], m[9] * s[2], m[10] * s[2], m[11] * s[2],
       m[12], m[13], m[14], m[15]]
  {
    var p := Multiply(m, Zoom(s));
    var e := [m[0] * s[0], m[1] * s[0], m[2] * s[0], m[3] * s[0],
              m[4] * s[1], m[5] * s[1], m[6] * s[1], m[7] * s[1],
              m[8] * s[2], m[9] * s[2], m[10] * s[2], m[11] * s[2],
              m[12], m[13], m[14], m[15]];
    var z := Zoom(s);
    DiagonalProduct(m, z);
    assert p[0] == e[0] && p[1] == e[1] && p[2] == e[2] && p[3] == e[3];
    assert p[4] == e[4] && p[5] == e[5] && p[6] == e[6] && p[7] == e[7];
    assert p[8] == e[8] && p[9] == e[9] && p[10] == e[10] && p[11] == e[11];
    assert p[12] == e[12] && p[13] == e[13] && p[14] == e[14] && p[15] == e[15];
  }

  /** A product with a diagonal matrix on the right scales each column by its diagonal entry. */
  lemma DiagonalProduct(m: Mat4, r: Mat4)
    requires r[1] == 0.0 && r[2] == 0.0 && r[3] == 0.0 && r[4] == 0.0 && r[6] == 0.0 && r[7] == 0.0
    requires r[8] == 0.0 && r[9] == 0.0 && r[11] == 0.0 && r[12] == 0.0 && r[13] == 0.0 && r[14] == 0.0
    ensures var p := Multiply(m, r);
      && p[0] == m[0] * r[0] && p[1] == m[1] * r[0] && p[2] == m[2] * r[0] && p[3] == m[3] * r[0]
      && p[4] == m[4] * r[5] && p[5] == m[5] * r[5] && p[6] == m[6] * r[5] && p[7] == m[7] * r[5]
      && p[8] == m[8] * r[10] && p[9] == m[9] * r[10] && p[10] == m[10] * r[10] && p[11] == m[11] * r[10]
      && p[12] == m[12] * r[15] && p[13] == m[13] * r[15] && p[14] == m[14] * r[15] && p[15] == m[15] * r[15]
  {
  }

  /** Translating a linear (affine, translation-free) transform sets its last column. */
  lemma TranslateLinear(t: Vec3, m: Mat4)
    requires Affine(m) && m[12] == 0.0 && m[13] == 0.0 && m[14] == 0.0
    ensures Multiply(Translate(t), m) == m[..12] + [t[0], t[1], t[2], 1.0]
  {
    var p := Multiply(Translate(t), m);
    forall k | 0 <= k < 16 ensures p[k] == (m[..12] + [t[0], t[1], t[2], 1.0])[k] {}
  }

  /** The fused compose equals translate * rotate * zoom. */
  lemma ComposeIsTranslateRotateZoom(scale: Vec3, q: Vec4, t: Vec3)
    ensures Compose(scale, q, t) == Multiply(Translate(t), Multiply(Rotate(q), Zoom(scale)))
  {
    var r := Rotate(q);
    MultiplyZoom(r, scale);
    var rz := Multiply(r, Zoom(scale));
    TranslateLinear(t, rz);
    ComposeScalesRotation(scale, q, t, r);
    ScaledColumnsThenTranslate(Compose(scale, q, t), Multiply(Translate(t), rz), rz, r, scale, t);
  }

  /** The bookkeeping step of the previous lemma, over plain sequences. */
  lemma ScaledColumnsThenTranslate(a: Mat4, b: Mat4, rz: Mat4, r: Mat4, s: Vec3, t: Vec3)
    requires rz ==
      [r[0] * s[0], r[1] * s[0], r[2] * s[0], r[3] * s[0],
       r[4] * s[1], r[5] * s[1], r[6] * s[1], r[7] * s[1],
       r[8] * s[2], r[9] * s[2], r[10] * s[2], r[11] * s[2],
       r[12], r[13], r[14], r[15]]
    requires b == rz[..12] + [t[0], t[1], t[2], 1.0]
    requires a ==
      [r[0] * s[0], r[1] * s[0], r[2] * s[0], r[3] * s[0],
       r[4] * s[1], r[5] * s[1], r[6] * s[1], r[7] * s[1],
       r[8] * s[2], r[9] * s[2], r[10] * s[2], r[11] * s[2],
       t[0], t[1], t[2], 1.0]
    ensures a == b
  {
    forall k | 0 <= k < 16 ensures a[k] == b[k] {
      if k < 12 {
        assert b[k] == rz[k];
      }
    }
  }

  /** Compose, column by column: the rotation's columns scaled, then the translation. */
  lemma ComposeScalesRotation(scale: Vec3, q: Vec4, t: Vec3, r: Mat4)
    requires r == Rotate(q)
    ensures Compose(scale, q, t) ==
      [r[0] * scale[0], r[1] * scale[0], r[2] * scale[0], r[3] * scale[0],
       r[4] * scale[1], r[5] * scale[1], r[6] * scale[1], r[7] * scale[1],
       r[8] * scale[2], r[9] * scale[2], r[10] * scale[2], r[11] * scale[2],
       t[0], t[1], t[2], 1.0]
  {
    ComposeColumn0(scale, q, t);
    ComposeColumn1(scale, q, t);
    ComposeColumn2(scale, q, t);
    var a := Compose(scale, q, t);
    var e := [r[0] * scale[0], r[1] * scale[0], r[2] * scale[0], r[3] * scale[0],
              r[4] * scale[1], r[5] * scale[1], r[6] * scale[1], r[7] * scale[1],
              r[8] * scale[2], r[9] * scale[2], r[10] * scale[2], r[11] * scale[2],
              t[0], t[1], t[2], 1.0];
    forall k | 0 <= k < 16 ensures a[k] == e[k] {}
  }

  /** Column 0 of compose is column 0 of the rotation scaled by scale[0]. */
  lemma ComposeColumn0(scale: Vec3, q: Vec4, t: Vec3)
    ensures Compose(scale, q, t)[0] == Rotate(q)[0] * scale[0]
         && Compose(scale, q, t)[1] == Rotate(q)[1] * scale[0]
         && Compose(scale, q, t)[2] == Rotate(q)[2] * scale[0]
         && Compose(scale, q, t)[3] == Rotate(q)[3] * scale[0]
  {
    var r := Rotate(q);
    var m := Compose(scale, q, t);
    assert m[0] == r[0] * scale[0];
    assert m[1] == r[1] * scale[0];
    assert m[2] == r[2] * scale[0];
    assert m[3] == r[3] * scale[0];
  }

  /** Column 1 of compose is column 1 of the rotation scaled by scale[1]. */
  lemma ComposeColumn1(scale: Vec3, q: Vec4, t: Vec3)
    ensures Compose(scale, q, t)[4] == Rotate(q)[4] * scale[1]
         && Compose(scale, q, t)[5] == Rotate(q)[5] * scale[1]
         && Compose(scale, q, t)[6] == Rotate(q)[6] * scale[1]
         && Compose(scale, q, t)[7] == Rotate(q)[7] * scale[1]
  {
    var r := Rotate(q);
    var m := Compose(scale, q, t);
    assert m[4] == r[4] * scale[1];
    assert m[5] == r[5] * scale[1];
    assert m[6] == r[6] * scale[1];
    assert m[7] == r[7] * scale[1];
  }

  /** Column 2 of compose is column 2 of the rotation scaled by scale[2]. */
  lemma ComposeColumn2(scale: Vec3, q: Vec4, t: Vec3)
    ensures Compose(scale, q, t)[8] == Rotate(q)[8] * scale[2]
         && Compose(scale, q, t)[9] == Rotate(q)[9] * scale[2]
         && Compose(scale, q, t)[10] == Rotate(q)[10] * scale[2]
         && Compose(scale, q, t)[11] == Rotate(q)[11] * scale[2]
  {
    var r := Rotate(q);
    var m := Compose(scale, q, t);
    assert m[8] == r[8] * scale[2];
    assert m[9] == r[9] * scale[2];
    assert m[10] == r[10] * scale[2];
    assert m[11] == r[11] * scale[2];
  }

  /** With the glTF loader's defaults for an absent scale, rotation and translation,
      compose yields the identity. */
  lemma ComposeDefaultsIsIdentity()
    ensures Compose([1.0, 1.0, 1.0], [0.0, 0.0, 0.0, 0.0], [0.0, 0.0, 0.0]) == Identity()
  {
  }

  lemma TranslateMovesPoints(t: Vec3, v: Vec4)
    ensures Apply(Translate(t), v) == [v[0] + t[0] * v[3], v[1] + t[1] * v[3], v[2] + t[2] * v[3], v[3]]
  {
    var u := Apply(Translate(t), v);
    assert u[0] == v[0] + t[0] * v[3] && u[1] == v[1] + t[1] * v[3];
    assert u[2] == v[2] + t[2] * v[3] && u[3] == v[3];
  }

  lemma ZoomScalesPoints(s: Vec3, v: Vec4)
    ensures Apply(Zoom(s), v) == [s[0] * v[0], s[1] * v[1], s[2] * v[2], v[3]]
  {
    var u := Apply(Zoom(s), v);
    assert u[0] == s[0] * v[0] && u[1] == s[1] * v[1] && u[2] == s[2] * v[2] && u[3] == v[3];
  }

  // ---------------------------------------------------------------------------
  // Rotations

  function Dot3(a0: real, a1: real, a2: real, b0: real, b1: real, b2: real): real
  {
    a0 * b0 + a1 * b1 + a2 * b2
  }

  /** Where the linear part of m sends the c-th coordinate axis. */
  function Axis(m: Mat4, c: nat): Vec3
    requires c < 3
  {
    [m[4 * c], m[4 * c + 1], m[4 * c + 2]]
  }

  /** The linear part of m sends the coordinate axes to an orthonormal basis. */
  predicate Orthonormal(m: Mat4)
  {
    Dot(Axis(m, 0), Axis(m, 0)) == 1.0 && Dot(Axis(m, 1), Axis(m, 1)) == 1.0 &&
    Dot(Axis(m, 2), Axis(m, 2)) == 1.0 && Dot(Axis(m, 0), Axis(m, 1)) == 0.0 &&
    Dot(Axis(m, 0), Axis(m, 2)) == 0.0 && Dot(Axis(m, 1), Axis(m, 2)) == 0.0
  }

  lemma MulByOne(k: real, n: real)
    requires n == 1.0
    ensures k * n == k
  {
  }

  lemma SumOfSquares4(a: seq<real>)
    requires |a| == 4
    ensures SumOfSquares(a) == a[0] * a[0] + a[1] * a[1] + a[2] * a[2] + a[3] * a[3]
  {
    assert SumOfSquares(a[..1]) == a[0] * a[0] by { assert a[..1][..0] == []; }
    assert SumOfSquares(a[..2]) == a[0] * a[0] + a[1] * a[1] by { assert a[..2][..1] == a[..1]; }
    assert SumOfSquares(a[..3]) == a[0] * a[0] + a[1] * a[1] + a[2] * a[2] by { assert a[..3][..2] == a[..2]; }
    assert a[..4] == a;
  }

  lemma SumOfSquares3(a: seq<real>)
    requires |a| == 3
    ensures SumOfSquares(a) == a[0] * a[0] + a[1] * a[1] + a[2] * a[2]
  {
    assert SumOfSquares(a[..1]) == a[0] * a[0] by { assert a[..1][..0] == []; }
    assert SumOfSquares(a[..2]) == a[0] * a[0] + a[1] * a[1] by { assert a[..2][..1] == a[..1]; }
    assert a[..3] == a;
  }

  /** A three-vector's sum of squares as its dot product with itself. */
  lemma SumOfSquaresAsDot3(a: seq<real>)
    requires |a| == 3
    ensures SumOfSquares(a) == Dot3(a[0], a[1], a[2], a[0], a[1], a[2])
  {
    SumOfSquares3(a);
  }

  /** The axes of Rotate(q), written out in the quaternion's components. */
  function QuaternionAxis(q: Vec4, c: nat): Vec3
    requires c < 3
  {
    QuaternionAxisOf(q[0], q[1], q[2], q[3], c)
  }

  /** Column c of the rotation of the quaternion (x, y, z, w). */
  function QuaternionAxisOf(x: real, y: real, z: real, w: real, c: nat): Vec3
    requires c < 3
  {
    if c == 0 then [1.0 - 2.0 * y * y - 2.0 * z * z, 2.0 * x * y + 2.0 * z * w, 2.0 * x * z - 2.0 * y * w]
    else if c == 1 then [2.0 * x * y - 2.0 * z * w, 1.0 - 2.0 * x * x - 2.0 * z * z, 2.0 * y * z + 2.0 * x * w]
    else [2.0 * x * z + 2.0 * y * w, 2.0 * y * z - 2.0 * x * w, 1.0 - 2.0 * x * x - 2.0 * y * y]
  }

  lemma RotateAxes(q: Vec4)
    ensures Axis(Rotate(q), 0) == QuaternionAxis(q, 0)
    ensures Axis(Rotate(q), 1) == QuaternionAxis(q, 1)
    ensures Axis(Rotate(q), 2) == QuaternionAxis(q, 2)
  {
  }

  /** The inner products of the rotation axes as polynomials in the quaternion (x, y, z, w). */
  lemma QuaternionAxisProduct00(x: real, y: real, z: real, w: real)
    ensures Dot(QuaternionAxisOf(x, y, z, w, 0), QuaternionAxisOf(x, y, z, w, 0))
      == 1.0 - 4.0 * (y * y + z * z) + 4.0 * (y * y + z * z) * (x * x + y * y + z * z + w * w)
  {
    Dot3Unfold(QuaternionAxisOf(x, y, z, w, 0), QuaternionAxisOf(x, y, z, w, 0));
  }

  lemma QuaternionAxisProduct11(x: real, y: real, z: real, w: real)
    ensures Dot(QuaternionAxisOf(x, y, z, w, 1), QuaternionAxisOf(x, y, z, w, 1))
      == 1.0 - 4.0 * (x * x + z * z) + 4.0 * (x * x + z * z) * (x * x + y * y + z * z + w * w)
  {
    Dot3Unfold(QuaternionAxisOf(x, y, z, w, 1), QuaternionAxisOf(x, y, z, w, 1));
  }

  lemma QuaternionAxisProduct22(x: real, y: real, z: real, w: real)
    ensures Dot(QuaternionAxisOf(x, y, z, w, 2), QuaternionAxisOf(x, y, z, w, 2))
      == 1.0 - 4.0 * (x * x + y * y) + 4.0 * (x * x + y * y) * (x * x + y * y + z * z + w * w)
  {
    Dot3Unfold(QuaternionAxisOf(x, y, z, w, 2), QuaternionAxisOf(x, y, z, w, 2));
  }

  lemma QuaternionAxisProduct01(x: real, y: real, z: real, w: real)
    ensures Dot(QuaternionAxisOf(x, y, z, w, 0), QuaternionAxisOf(x, y, z, w, 1))
      == 4.0 * x * y - 4.0 * x * y * (x * x + y * y + z * z + w * w)
  {
    Dot3Unfold(QuaternionAxisOf(x, y, z, w, 0), QuaternionAxisOf(x, y, z, w, 1));
  }

  lemma QuaternionAxisProduct02(x: real, y: real, z: real, w: real)
    ensures Dot(QuaternionAxisOf(x, y, z, w, 0), QuaternionAxisOf(x, y, z, w, 2))
      == 4.0 * x * z - 4.0 * x * z * (x * x + y * y + z * z + w * w)
  {
    Dot3Unfold(QuaternionAxisOf(x, y, z, w, 0), QuaternionAxisOf(x, y, z, w, 2));
  }

  lemma QuaternionAxisProduct12(x: real, y: real, z: real, w: real)
    ensures Dot(QuaternionAxisOf(x, y, z, w, 1), QuaternionAxisOf(x, y, z, w, 2))
      == 4.0 * y * z - 4.0 * y * z * (x * x + y * y + z * z + w * w)
  {
    Dot3Unfold(QuaternionAxisOf(x, y, z, w, 1), QuaternionAxisOf(x, y, z, w, 2));
  }

  /** Axis 0 of the rotation of a unit quaternion has unit length. */
  lemma QuaternionAxisUnit0(q: Vec4)
    requires q[0] * q[0] + q[1] * q[1] + q[2] * q[2] + q[3] * q[3] == 1.0
    ensures Dot(QuaternionAxis(q, 0), QuaternionAxis(q, 0)) == 1.0
  {
    QuaternionAxisUnit0Components(q[0], q[1], q[2], q[3]);
  }

  lemma QuaternionAxisUnit0Components(x: real, y: real, z: real, w: real)
    requires x * x + y * y + z * z + w * w == 1.0
    ensures Dot(QuaternionAxisOf(x, y, z, w, 0), QuaternionAxisOf(x, y, z, w, 0)) == 1.0
  {
    QuaternionAxisProduct00(x, y, z, w);
    MulByOne(4.0 * (y * y + z * z), x * x + y * y + z * z + w * w);
  }

  /** Axis 1 of the rotation of a unit quaternion has unit length. */
  lemma QuaternionAxisUnit1(q: Vec4)
    requires q[0] * q[0] + q[1] * q[1] + q[2] * q[2] + q[3] * q[3] == 1.0
    ensures Dot(QuaternionAxis(q, 1), QuaternionAxis(q, 1)) == 1.0
  {
    QuaternionAxisUnit1Components(q[0], q[1], q[2], q[3]);
  }

  lemma QuaternionAxisUnit1Components(x: real, y: real, z: real, w: real)
    requires x * x + y * y + z * z + w * w == 1.0
    ensures Dot(QuaternionAxisOf(x, y, z, w, 1), QuaternionAxisOf(x, y, z, w, 1)) == 1.0
  {
    QuaternionAxisProduct11(x, y, z, w);
    MulByOne(4.0 * (x * x + z * z), x * x + y * y + z * z + w * w);
  }

  /** Axis 2 of the rotation of a unit quaternion has unit length. */
  lemma QuaternionAxisUnit2(q: Vec4)
    requires q[0] * q[0] + q[1] * q[1] + q[2] * q[2] + q[3] * q[3] == 1.0
    ensures Dot(QuaternionAxis(q, 2), QuaternionAxis(q, 2)) == 1.0
  {
    QuaternionAxisUnit2Components(q[0], q[1], q[2], q[3]);
  }

  lemma QuaternionAxisUnit2Components(x: real, y: real, z: real, w: real)
    requires x * x + y * y + z * z + w * w == 1.0
    ensures Dot(QuaternionAxisOf(x, y, z, w, 2), QuaternionAxisOf(x, y, z, w, 2)) == 1.0
  {
    QuaternionAxisProduct22(x, y, z, w);
    MulByOne(4.0 * (x * x + y * y), x * x + y * y + z * z + w * w);
  }

  /** Axes 0 and 1 of the rotation of a unit quaternion are orthogonal. */
  lemma QuaternionAxesOrthogonal01(q: Vec4)
    requires q[0] * q[0] + q[1] * q[1] + q[2] * q[2] + q[3] * q[3] == 1.0
    ensures Dot(QuaternionAxis(q, 0), QuaternionAxis(q, 1)) == 0.0
  {
    QuaternionAxesOrthogonal01Components(q[0], q[1], q[2], q[3]);
  }

  lemma QuaternionAxesOrthogonal01Components(x: real, y: real, z: real, w: real)
    requires x * x + y * y + z * z + w * w == 1.0
    ensures Dot(QuaternionAxisOf(x, y, z, w, 0), QuaternionAxisOf(x, y, z, w, 1)) == 0.0
  {
    QuaternionAxisProduct01(x, y, z, w);
    MulByOne(4.0 * x * y, x * x + y * y + z * z + w * w);
  }

  /** Axes 0 and 2 of the rotation of a unit quaternion are orthogonal. */
  lemma QuaternionAxesOrthogonal02(q: Vec4)
    requires q[0] * q[0] + q[1] * q[1] + q[2] * q[2] + q[3] * q[3] == 1.0
    ensures Dot(QuaternionAxis(q, 0), QuaternionAxis(q, 2)) == 0.0
  {
    QuaternionAxesOrthogonal02Components(q[0], q[1], q[2], q[3]);
  }

  lemma QuaternionAxesOrthogonal02Components(x: real, y: real, z: real, w: real)
    requires x * x + y * y + z * z + w * w == 1.0
    ensures Dot(QuaternionAxisOf(x, y, z, w, 0), QuaternionAxisOf(x, y, z, w, 2)) == 0.0
  {
    QuaternionAxisProduct02(x, y, z, w);
    MulByOne(4.0 * x * z, x * x + y * y + z * z + w * w);
  }

  /** Axes 1 and 2 of the rotation of a unit quaternion are orthogonal. */
  lemma QuaternionAxesOrthogonal12(q: Vec4)
    requires q[0] * q[0] + q[1] * q[1] + q[2] * q[2] + q[3] * q[3] == 1.0
    ensures Dot(QuaternionAxis(q, 1), QuaternionAxis(q, 2)) == 0.0
  {
    QuaternionAxesOrthogonal12Components(q[0], q[1], q[2], q[3]);
  }

  lemma QuaternionAxesOrthogonal12Components(x: real, y: real, z: real, w: real)
    requires x * x + y * y + z * z + w * w == 1.0
    ensures Dot(QuaternionAxisOf(x, y, z, w, 1), QuaternionAxisOf(x, y, z, w, 2)) == 0.0
  {
    QuaternionAxisProduct12(x, y, z, w);
    MulByOne(4.0 * y * z, x * x + y * y + z * z + w * w);
  }

  /** A unit quaternion gives a matrix whose linear part is orthonormal. */
  lemma RotateOrthonormal(q: Vec4)
    requires SumOfSquares(q) == 1.0
    ensures Orthonormal(Rotate(q))
  {
    SumOfSquares4(q);
    RotateAxes(q);
    QuaternionAxisUnit0(q);
    QuaternionAxisUnit1(q);
    QuaternionAxisUnit2(q);
    QuaternionAxesOrthogonal01(q);
    QuaternionAxesOrthogonal02(q);
    QuaternionAxesOrthogonal12(q);
  }

  /** A combination u of orthonormal columns a, b, c has the length of its coefficients. */
  lemma OrthonormalCombination(
    a0: real, a1: real, a2: real, b0: real, b1: real, b2: real, c0: real, c1: real, c2: real,
    x: real, y: real, z: real, u0: real, u1: real, u2: real)
    requires Dot3(a0, a1, a2, a0, a1, a2) == 1.0 && Dot3(b0, b1, b2, b0, b1, b2) == 1.0
    requires Dot3(c0, c1, c2, c0, c1, c2) == 1.0 && Dot3(a0, a1, a2, b0, b1, b2) == 0.0
    requires Dot3(a0, a1, a2, c0, c1, c2) == 0.0 && Dot3(b0, b1, b2, c0, c1, c2) == 0.0
    requires u0 == a0 * x + b0 * y + c0 * z && u1 == a1 * x + b1 * y + c1 * z && u2 == a2 * x + b2 * y + c2 * z
    ensures Dot3(u0, u1, u2, u0, u1, u2) == Dot3(x, y, z, x, y, z)
  {
    var aa, bb, cc := Dot3(a0, a1, a2, a0, a1, a2), Dot3(b0, b1, b2, b0, b1, b2), Dot3(c0, c1, c2, c0, c1, c2);
    var ab, ac, bc := Dot3(a0, a1, a2, b0, b1, b2), Dot3(a0, a1, a2, c0, c1, c2), Dot3(b0, b1, b2, c0, c1, c2);
    assert u0 * u0 + u1 * u1 + u2 * u2
      == x * x * aa + y * y * bb + z * z * cc + 2.0 * x * y * ab + 2.0 * x * z * ac + 2.0 * y * z * bc;
    MulByOne(x * x, aa);
    MulByOne(y * y, bb);
    MulByOne(z * z, cc);
  }

  /** Rotating by a unit quaternion keeps the length of a direction (x, y, z, 0), and keeps
      it a direction. */
  lemma RotatePreservesLength(q: Vec4, v: Vec4)
    requires SumOfSquares(q) == 1.0
    requires v[3] == 0.0
    ensures var u := Apply(Rotate(q), v);
      u[3] == 0.0 && Dot3(u[0], u[1], u[2], u[0], u[1], u[2]) == Dot3(v[0], v[1], v[2], v[0], v[1], v[2])
  {
    var m := Rotate(q);
    RotateOrthonormal(q);
    Dot3Unfold(Axis(m, 0), Axis(m, 0));
    Dot3Unfold(Axis(m, 1), Axis(m, 1));
    Dot3Unfold(Axis(m, 2), Axis(m, 2));
    Dot3Unfold(Axis(m, 0), Axis(m, 1));
    Dot3Unfold(Axis(m, 0), Axis(m, 2));
    Dot3Unfold(Axis(m, 1), Axis(m, 2));
    var u := Apply(m, v);
    OrthonormalCombination(m[0], m[1], m[2], m[4], m[5], m[6], m[8], m[9], m[10], v[0], v[1], v[2], u[0], u[1], u[2]);
  }

  // ---------------------------------------------------------------------------
  // Projections

  /** The orthographic box maps onto the clip cube, and w is kept. */
  lemma OrthogonalMapsBox(left: real, right: real, bottom: real, top: real, near: real, far: real,
                          x: real, y: real, z: real, w: real)
    requires OrthogonalDefined(left, right, bottom, top, near, far)
    ensures var o := Orthogonal(left, right, bottom, top, near, far);
      && Apply(o, [left, y, z, 1.0])[0] == -1.0 && Apply(o, [right, y, z, 1.0])[0] == 1.0
      && Apply(o, [x, bottom, z, 1.0])[1] == -1.0 && Apply(o, [x, top, z, 1.0])[1] == 1.0
      && Apply(o, [x, y, -near, 1.0])[2] == -1.0 && Apply(o, [x, y, -far, 1.0])[2] == 1.0
      && Apply(o, [x, y, z, w])[3] == w
  {
    var o := Orthogonal(left, right, bottom, top, near, far);
    var dx, dy, dz := right - left, top - bottom, near - far;
    assert Apply(o, [left, y, z, 1.0])[0] == (2.0 * left - (right + left)) / dx;
    assert Apply(o, [right, y, z, 1.0])[0] == (2.0 * right - (right + left)) / dx;
    assert Apply(o, [x, bottom, z, 1.0])[1] == (2.0 * bottom - (top + bottom)) / dy;
    assert Apply(o, [x, top, z, 1.0])[1] == (2.0 * top - (top + bottom)) / dy;
    assert Apply(o, [x, y, -near, 1.0])[2] == (-2.0 * near + (far + near)) / dz;
    assert Apply(o, [x, y, -far, 1.0])[2] == (-2.0 * far + (far + near)) / dz;
  }

  /** Perspective: clip w is -z, the near plane lands on z = -w and the far plane on z = w. */
  lemma PerspectiveDepth(m: MathLib, fov: real, near: real, far: real, aspect: real, x: real, y: real, z: real)
    requires PerspectiveDefined(m, fov, near, far, aspect)
    ensures var p := Perspective(m, fov, near, far, aspect);
      && Apply(p, [x, y, z, 1.0])[3] == -z
      && Apply(p, [x, y, -near, 1.0])[2] == -Apply(p, [x, y, -near, 1.0])[3]
      && Apply(p, [x, y, -far, 1.0])[2] == Apply(p, [x, y, -far, 1.0])[3]
  {
    var p := Perspective(m, fov, near, far, aspect);
    var d := near - far;
    assert Apply(p, [x, y, -near, 1.0])[2] == (-(near + far) * near + near * far * 2.0) / d;
    assert (-(near + far) * near + near * far * 2.0) == -near * d;
    assert Apply(p, [x, y, -far, 1.0])[2] == (-(near + far) * far + near * far * 2.0) / d;
    assert (-(near + far) * far + near * far * 2.0) == far * d;
  }

  lemma Dot3Unfold(a: seq<real>, b: seq<real>)
    requires |a| == 3 && |b| == 3
    ensures Dot(a, b) == Dot3(a[0], a[1], a[2], b[0], b[1], b[2])
  {
    assert Dot(a[..1], b) == a[0] * b[0] by { assert a[..1][..0] == []; }
    assert Dot(a[..2], b) == a[0] * b[0] + a[1] * b[1] by { assert a[..2][..1] == a[..1]; }
    assert a[..3] == a;
  }

  /** lookAt sends the eye point to the origin of view space, whatever the norms are. */
  lemma LookAtEyeAtOrigin(sqrt: real -> real, position: Vec3, target: Vec3, up: Vec3)
    requires LookAtDefined(sqrt, position, target, up)
    ensures Apply(LookAt(sqrt, position, target, up), position + [1.0]) == [0.0, 0.0, 0.0, 1.0]
  {
    var gaze := Gaze(sqrt, position, target);
    var x: Vec3 := Normalize(sqrt, Cross(up, gaze));
    var y := Cross(gaze, x);
    var p := position;
    Dot3Unfold(x, p);
    Dot3Unfold(y, p);
    Dot3Unfold(gaze, p);
    assert LookAt(sqrt, position, target, up)
      == [x[0], y[0], gaze[0], 0.0, x[1], y[1], gaze[1], 0.0, x[2], y[2], gaze[2], 0.0,
          -Dot3(x[0], x[1], x[2], p[0], p[1], p[2]), -Dot3(y[0], y[1], y[2], p[0], p[1], p[2]),
          -Dot3(gaze[0], gaze[1], gaze[2], p[0], p[1], p[2]), 1.0];
    assert p + [1.0] == [p[0], p[1], p[2], 1.0];
    AxesWithOffsetSendEyeToOrigin(x[0], x[1], x[2], y[0], y[1], y[2], gaze[0], gaze[1], gaze[2], p[0], p[1], p[2]);
  }

  /** A matrix with three axes as rows and translations -(axis . p) sends the point p to
      the origin. */
  lemma AxesWithOffsetSendEyeToOrigin(x0: real, x1: real, x2: real, y0: real, y1: real, y2: real,
                                      z0: real, z1: real, z2: real, p0: real, p1: real, p2: real)
    ensures Apply([x0, y0, z0, 0.0, x1, y1, z1, 0.0, x2, y2, z2, 0.0,
                   -Dot3(x0, x1, x2, p0, p1, p2), -Dot3(y0, y1, y2, p0, p1, p2), -Dot3(z0, z1, z2, p0, p1, p2), 1.0],
                  [p0, p1, p2, 1.0])
         == [0.0, 0.0, 0.0, 1.0]
  {
    var u := Apply([x0, y0, z0, 0.0, x1, y1, z1, 0.0, x2, y2, z2, 0.0,
                    -Dot3(x0, x1, x2, p0, p1, p2), -Dot3(y0, y1, y2, p0, p1, p2), -Dot3(z0, z1, z2, p0, p1, p2), 1.0],
                   [p0, p1, p2, 1.0]);
    assert u[0] == 0.0 && u[1] == 0.0 && u[2] == 0.0 && u[3] == 1.0;
  }

  // ---------------------------------------------------------------------------
  // Vectors

  lemma PlusMinus(a: seq<real>, b: seq<real>)
    requires |a| == |b|
    ensures Plus(Minus(a, b), b) == a
  {
  }

  lemma CrossIsOrthogonal(a: Vec3, b: Vec3)
    ensures Dot(Cross(a, b), a) == 0.0 && Dot(Cross(a, b), b) == 0.0
  {
    Dot3Unfold(Cross(a, b), a);
    Dot3Unfold(Cross(a, b), b);
  }

  lemma {:induction false} SumOfSquaresScaled(a: seq<real>, k: real)
    ensures SumOfSquares(Times(a, k)) == k * k * SumOfSquares(a)
  {
    if |a| > 0 {
      var n := |a| - 1;
      var ka := Times(a, k);
      forall i | 0 <= i < n ensures ka[..n][i] == Times(a[..n], k)[i] {}
      assert ka[..n] == Times(a[..n], k);
      SumOfSquaresScaled(a[..n], k);
      assert ka[n] * ka[n] == k * k * (a[n] * a[n]);
      Distribute(k * k, SumOfSquares(a[..n]), a[n] * a[n]);
    }
  }

  lemma Distribute(c: real, x: real, y: real)
    ensures c * x + c * y == c * (x + y)
  {
  }

  lemma {:induction false} SumOfSquaresNonNegative(a: seq<real>)
    ensures SumOfSquares(a) >= 0.0
  {
    if |a| > 0 {
      SumOfSquaresNonNegative(a[..|a| - 1]);
    }
  }

  /** With a square root that squares back, a normalized vector has unit length. */
  lemma NormalizeIsUnit(sqrt: real -> real, a: seq<real>)
    requires SqrtSquares(sqrt)
    requires Norm(sqrt, a) != 0.0
    ensures SumOfSquares(Normalize(sqrt, a)) == 1.0
  {
    var len := Norm(sqrt, a);
    SumOfSquaresNonNegative(a);
    assert len * len == SumOfSquares(a);
    NormalizeIsScaling(sqrt, a);
    SumOfSquaresScaled(a, 1.0 / len);
    InverseSquare(len, SumOfSquares(a));
  }

  /** Dividing by the norm is scaling by its inverse. */
  lemma NormalizeIsScaling(sqrt: real -> real, a: seq<real>)
    requires Norm(sqrt, a) != 0.0
    ensures Normalize(sqrt, a) == Times(a, 1.0 / Norm(sqrt, a))
  {
    var len := Norm(sqrt, a);
    forall i | 0 <= i < |a| ensures Normalize(sqrt, a)[i] == Times(a, 1.0 / len)[i] {
      assert a[i] / len == a[i] * (1.0 / len);
    }
  }

  lemma InverseSquare(len: real, s: real)
    requires len != 0.0 && len * len == s
    ensures (1.0 / len) * (1.0 / len) * s == 1.0
  {
  }

  lemma LerpEnds(a: seq<real>, b: seq<real>)
    requires |a| == |b|
    ensures Lerp(a, b, 0.0) == a && Lerp(a, b, 1.0) == b
  {
  }

  /** A unit vector normalizes to itself when sqrt(1) == 1. */
  lemma NormalizeUnit(sqrt: real -> real, a: seq<real>)
    requires SqrtOfOne(sqrt) && SumOfSquares(a) == 1.0
    ensures Norm(sqrt, a) == 1.0 && Normalize(sqrt, a) == a
  {
  }

  lemma {:induction false} SumOfSquaresNegate(a: seq<real>)
    ensures SumOfSquares(Negate(a)) == SumOfSquares(a)
  {
    if |a| > 0 {
      assert Negate(a)[..|a| - 1] == Negate(a[..|a| - 1]);
      SumOfSquaresNegate(a[..|a| - 1]);
    }
  }

  /** slerp starts at `previous`. */
  lemma SlerpStart(m: MathLib, previous: seq<real>, next: seq<real>)
    requires |previous| == |next| && SumOfSquares(previous) == 1.0
    requires TrigAtZero(m) && SqrtOfOne(m.sqrt)
    requires SlerpDefined(m, previous, next, 0.0)
    ensures Slerp(m, previous, next, 0.0) == previous
  {
    var (n, d) := ShortestArc(previous, next);
    if d > SLERP_LINEAR_THRESHOLD {
      LerpEnds(previous, n);
      NormalizeUnit(m.sqrt, previous);
    } else {
      SlerpWeightsEnds(m, d);
      BlendEnds(previous, n);
    }
  }

  /** At t = 1 the spherical branch weighs `previous` by cos(alpha) - d = 0 and the corrected
      `next` by 1. */
  lemma SlerpSphericalEnd(m: MathLib, previous: seq<real>, next: seq<real>)
    requires |previous| == |next| && CosAcosInverse(m)
    requires SlerpDefined(m, previous, next, 1.0)
    requires ShortestArc(previous, next).1 <= SLERP_LINEAR_THRESHOLD
    ensures Slerp(m, previous, next, 1.0) == ShortestArc(previous, next).0
  {
    var (n, d) := ShortestArc(previous, next);
    assert Slerp(m, previous, next, 1.0) == SlerpSpherical(m, previous, n, d, 1.0);
    SlerpWeightsEnds(m, d);
    BlendEnds(previous, n);
  }

  /** slerp ends at `next`, or at `-next` when the shortest arc flipped it. */
  lemma SlerpEnd(m: MathLib, previous: seq<real>, next: seq<real>)
    requires |previous| == |next| && SumOfSquares(next) == 1.0
    requires CosAcosInverse(m) && SqrtOfOne(m.sqrt)
    requires SlerpDefined(m, previous, next, 1.0)
    ensures var r := Slerp(m, previous, next, 1.0);
      (Dot(previous, next) >= 0.0 ==> r == next) && (Dot(previous, next) < 0.0 ==> r == Negate(next))
  {
    var (n, d) := ShortestArc(previous, next);
    if d > SLERP_LINEAR_THRESHOLD {
      SumOfSquaresNegate(next);
      LerpEnds(previous, n);
      NormalizeUnit(m.sqrt, n);
    } else {
      SlerpSphericalEnd(m, previous, next);
    }
  }

  /** With sin^2 + cos^2 == 1 and a square root that squares back, the axis-angle
      quaternion has unit length, so its rotation keeps lengths. */
  lemma AxisAngleQuaternionIsUnit(m: MathLib, axis: Vec3, radian: real)
    requires SqrtSquares(m.sqrt) && Pythagoras(m)
    requires Norm(m.sqrt, axis) != 0.0
    ensures SumOfSquares(AxisAngleQuaternion(m, axis, radian)) == 1.0
  {
    var half := radian / 2.0;
    var u := Normalize(m.sqrt, axis);
    var s, c := m.sin(half), m.cos(half);
    NormalizeIsUnit(m.sqrt, axis);
    ScaledUnitSquares(u, s);
    AppendedSquares(Times(u, s), c);
    assert s * s + c * c == 1.0;
  }

  lemma ScaledUnitSquares(u: seq<real>, s: real)
    requires SumOfSquares(u) == 1.0
    ensures SumOfSquares(Times(u, s)) == s * s
  {
    SumOfSquaresScaled(u, s);
    MulByOne(s * s, SumOfSquares(u));
  }

  lemma AppendedSquares(v: seq<real>, c: real)
    ensures SumOfSquares(v + [c]) == SumOfSquares(v) + c * c
  {
    assert (v + [c])[..|v|] == v;
  }
}
