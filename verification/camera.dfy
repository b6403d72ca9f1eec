/** The camera (lib/camera.ts): a perspective projection times a look-at view, cached
    behind a dirty flag that every setter raises; orbiting by two mouse angles; and the
    wheel-zoom rule, which moves the eye along its line to the target unless that would
    bring it closer than a tenth of its initial distance. */
module Cameras {
  import opened RealMath
  import opened Algebra

  /** perspective(fov, near, far, aspect) · lookAt(position, target, up). */
  function ViewProjection(m: MathLib, fov: real, near: real, far: real, aspect: real,
                          position: Vec3, target: Vec3, up: Vec3): Mat4
    requires PerspectiveDefined(m, fov, near, far, aspect) && LookAtDefined(m.sqrt, position, target, up)
  {
    Multiply(Perspective(m, fov, near, far, aspect), LookAt(m.sqrt, position, target, up))
  }

  /** The eye sits at the origin of view space, so it projects onto clip w == 0: it is on
      the camera plane, neither in front of nor behind the viewer. */
  lemma ViewProjectionOfEye(m: MathLib, fov: real, near: real, far: real, aspect: real,
                            position: Vec3, target: Vec3, up: Vec3)
    requires PerspectiveDefined(m, fov, near, far, aspect) && LookAtDefined(m.sqrt, position, target, up)
    ensures Apply(ViewProjection(m, fov, near, far, aspect, position, target, up), position + [1.0])[3] == 0.0
  {
    var p := Perspective(m, fov, near, far, aspect);
    var v := LookAt(m.sqrt, position, target, up);
    ApplyMultiply(p, v, position + [1.0]);
    LookAtEyeAtOrigin(m.sqrt, position, target, up);
    PerspectiveDepth(m, fov, near, far, aspect, 0.0, 0.0, 0.0);
  }

  // ---------------------------------------------------------------------------
  // getQuaterinion

  /** `getQuaterinion(radian, axis)`: the rotation of (axis · sin(radian/2), cos(radian/2)),
      with the axis taken as given. */
  function AxisRotation(m: MathLib, radian: real, axis: Vec3): Mat4
  {
    var half := radian / 2.0;
    Rotate(Times(axis, m.sin(half)) + [m.cos(half)])
  }

  /** For a unit axis this is the axis-angle rotation, which normalizes the axis first. */
  lemma AxisRotationOfUnitAxis(m: MathLib, radian: real, axis: Vec3)
    requires SqrtOfOne(m.sqrt) && SumOfSquares(axis) == 1.0
    ensures Norm(m.sqrt, axis) != 0.0
    ensures AxisRotation(m, radian, axis) == RotateAroundAxisAngle(m, axis, radian)
  {
    NormalizeUnit(m.sqrt, axis);
  }

  // ---------------------------------------------------------------------------
  // orbit

  /** The axes `orbit` rotates about: x = up × (position − target), y = (position − target) × x. */
  function OrbitAxes(position: Vec3, target: Vec3, up: Vec3): (axes: (Vec3, Vec3))
  {
    var zAxis: Vec3 := Minus(position, target);
    var xAxis := Cross(up, zAxis);
    (xAxis, Cross(zAxis, xAxis))
  }

  /** Both axes have a non-zero length, so that normalizing them divides by non-zero. */
  predicate OrbitDefined(sqrt: real -> real, position: Vec3, target: Vec3, up: Vec3)
  {
    var (xAxis, yAxis) := OrbitAxes(position, target, up);
    Norm(sqrt, xAxis) != 0.0 && Norm(sqrt, yAxis) != 0.0
  }

  /** Where `orbit(radianX, radianY)` moves the eye: the point rotated by radianY about the
      y axis, then by radianX about the x axis, both axes through the origin. */
  function OrbitPosition(m: MathLib, position: Vec3, target: Vec3, up: Vec3, radianX: real, radianY: real): Vec3
    requires OrbitDefined(m.sqrt, position, target, up)
  {
    var (xAxis, yAxis) := OrbitAxes(position, target, up);
    var rotation := Multiply(RotateAroundAxisAngle(m, xAxis, radianX), RotateAroundAxisAngle(m, yAxis, radianY));
    var p := Apply(rotation, position + [1.0]);
    [p[0], p[1], p[2]]
  }

  /** A rotation about the origin keeps a point (w == 1) a point and keeps its distance to
      the origin. */
  lemma RotatePointKeepsLength(q: Vec4, v: Vec4)
    requires SumOfSquares(q) == 1.0 && v[3] == 1.0
    ensures var u := Apply(Rotate(q), v);
      u[3] == 1.0 && Dot3(u[0], u[1], u[2], u[0], u[1], u[2]) == Dot3(v[0], v[1], v[2], v[0], v[1], v[2])
  {
    var d: Vec4 := [v[0], v[1], v[2], 0.0];
    RotatePreservesLength(q, d);
    var u, e := Apply(Rotate(q), v), Apply(Rotate(q), d);
    assert u[0] == e[0] && u[1] == e[1] && u[2] == e[2];
  }

  /** With sin² + cos² == 1 and a square root that squares back, orbiting keeps the eye's
      distance to the origin: the eye moves on a sphere about the origin. */
  lemma OrbitKeepsRadius(m: MathLib, position: Vec3, target: Vec3, up: Vec3, radianX: real, radianY: real)
    requires SqrtSquares(m.sqrt) && Pythagoras(m)
    requires OrbitDefined(m.sqrt, position, target, up)
    ensures SumOfSquares(OrbitPosition(m, position, target, up, radianX, radianY)) == SumOfSquares(position)
  {
    var (xAxis, yAxis) := OrbitAxes(position, target, up);
    var qx := AxisAngleQuaternion(m, xAxis, radianX);
    var qy := AxisAngleQuaternion(m, yAxis, radianY);
    AxisAngleQuaternionIsUnit(m, xAxis, radianX);
    AxisAngleQuaternionIsUnit(m, yAxis, radianY);
    var v: Vec4 := position + [1.0];
    ApplyMultiply(Rotate(qx), Rotate(qy), v);
    var w := Apply(Rotate(qy), v);
    var p := Apply(Rotate(qx), w);
    RotatePointKeepsLength(qy, v);
    RotatePointKeepsLength(qx, w);
    var r := OrbitPosition(m, position, target, up, radianX, radianY);
    assert r == [p[0], p[1], p[2]];
    assert v[0] == position[0] && v[1] == position[1] && v[2] == position[2];
    SumOfSquaresAsDot3(r);
    SumOfSquaresAsDot3(position);
  }

  // ---------------------------------------------------------------------------
  // The wheel-zoom rule

  /** `Math.sqrt(v.reduce((sum, i) => sum + i * i))` on a vector of three: with no initial
      value the fold starts from the first component itself, so that component is added
      unsquared. */
  function UnseededSumOfSquares(v: Vec3): real
  {
    v[0] + v[1] * v[1] + v[2] * v[2]
  }

  /** The fold as written and the squared length part ways: for (−4, 0, 0) the sum is −4,
      whose square root is NaN, where the squared length is 16. */
  lemma UnseededSumOfSquaresDiffers()
    ensures UnseededSumOfSquares([-4.0, 0.0, 0.0]) == -4.0
    ensures SumOfSquares([-4.0, 0.0, 0.0]) == 16.0
  {
    SumOfSquares3([-4.0, 0.0, 0.0]);
  }

  /** The fold as written agrees with the squared length only when the first component
      equals its own square, 0 or 1. */
  lemma UnseededSumOfSquaresExact(v: Vec3)
    ensures UnseededSumOfSquares(v) == SumOfSquares(v) <==> v[0] == 0.0 || v[0] == 1.0
  {
    SumOfSquares3(v);
    if v[0] * v[0] == v[0] {
      assert v[0] * (v[0] - 1.0) == 0.0;
    }
  }

  /** The eye's distance to the target. */
  function Distance(sqrt: real -> real, position: Vec3, target: Vec3): real
  {
    sqrt(SumOfSquares(Minus(position, target)))
  }

  /** The closest the wheel may bring the eye: a tenth of its distance when the controller
      is installed. */
  function MinDistance(sqrt: real -> real, position: Vec3, target: Vec3): real
  {
    Distance(sqrt, position, target) / 10.0
  }

  /** The zoom factor of a wheel event: deltaY / height + 1. */
  function WheelFactor(deltaY: real, height: real): real
    requires height != 0.0
  {
    deltaY / height + 1.0
  }

  /** The proposed eye: target + factor · (position − target). */
  function ZoomProposal(position: Vec3, target: Vec3, factor: real): Vec3
  {
    Plus(target, Times(Minus(position, target), factor))
  }

  /** The wheel zoom applies when the scaled distance is at least the minimum. */
  predicate ZoomAccepted(sqrt: real -> real, position: Vec3, target: Vec3, factor: real, minDistance: real)
  {
    Distance(sqrt, position, target) * factor >= minDistance
  }

  /** The proposal stays on the line from the target through the eye: its offset from the
      target is the old offset scaled by the factor, so its squared distance scales by the
      factor squared. */
  lemma ZoomScalesOffset(position: Vec3, target: Vec3, factor: real)
    ensures Minus(ZoomProposal(position, target, factor), target) == Times(Minus(position, target), factor)
    ensures SumOfSquares(Minus(ZoomProposal(position, target, factor), target))
         == factor * factor * SumOfSquares(Minus(position, target))
  {
    var offset: Vec3 := Minus(position, target);
    var moved: Vec3 := Minus(ZoomProposal(position, target, factor), target);
    assert moved == Times(offset, factor);
    SumOfSquaresScaled(offset, factor);
  }

  /** A zoom the rule accepts never brings the eye closer to the target than the minimum. */
  lemma ZoomKeepsMinimumDistance(sqrt: real -> real, position: Vec3, target: Vec3, factor: real, minDistance: real)
    requires SqrtSquares(sqrt) && minDistance >= 0.0
    requires ZoomAccepted(sqrt, position, target, factor, minDistance)
    ensures SumOfSquares(Minus(ZoomProposal(position, target, factor), target)) >= minDistance * minDistance
  {
    var s := SumOfSquares(Minus(position, target));
    SumOfSquaresNonNegative(Minus(position, target));
    var d := sqrt(s);
    assert d >= 0.0 && d * d == s;
    ZoomScalesOffset(position, target, factor);
    var scaled := d * factor;
    assert scaled >= minDistance >= 0.0;
    assert scaled * scaled >= minDistance * minDistance by {
      assert scaled * scaled - minDistance * minDistance == (scaled - minDistance) * (scaled + minDistance);
    }
    assert scaled * scaled == factor * factor * s;
  }

  /** The wheel zoom as written, with the unseeded fold for both distances: for an eye at
      (−4, 0, 0) looking at the origin no zoom is ever accepted, because the square roots of
      −4 are NaN and every comparison with NaN is false. */
  predicate ZoomAcceptedAsWritten(sqrt: real -> real, position: Vec3, target: Vec3, factor: real, initial: Vec3)
  {
    var minDistance := sqrt(UnseededSumOfSquares(Minus(initial, target))) / 10.0;
    sqrt(UnseededSumOfSquares(Minus(position, target))) * factor >= minDistance
  }

  /** The two rules agree exactly where the fold as written is exact: when the first
      component of both the eye's and the initial eye's offset from the target is 0 or 1. */
  lemma ZoomRulesAgree(sqrt: real -> real, position: Vec3, target: Vec3, factor: real, initial: Vec3)
    requires var p := Minus(position, target)[0]; p == 0.0 || p == 1.0
    requires var q := Minus(initial, target)[0]; q == 0.0 || q == 1.0
    ensures ZoomAcceptedAsWritten(sqrt, position, target, factor, initial)
        <==> ZoomAccepted(sqrt, position, target, factor, MinDistance(sqrt, initial, target))
  {
    UnseededSumOfSquaresExact(Minus(position, target));
    UnseededSumOfSquaresExact(Minus(initial, target));
  }

  /** The two rules disagree whenever the first offset component is neither 0 nor 1 (here
      the eye at (−4, 0, 0), looking at the origin, with any square root that is exact on
      16): the corrected rule accepts doubling the distance, the written one compares
      square roots of −4. */
  lemma ZoomRulesDisagree(sqrt: real -> real)
    requires SqrtSquares(sqrt)
    ensures ZoomAccepted(sqrt, [-4.0, 0.0, 0.0], [0.0, 0.0, 0.0], 2.0, MinDistance(sqrt, [-4.0, 0.0, 0.0], [0.0, 0.0, 0.0]))
    ensures UnseededSumOfSquares(Minus([-4.0, 0.0, 0.0], [0.0, 0.0, 0.0])) < 0.0
  {
    var eye: Vec3 := [-4.0, 0.0, 0.0];
    var origin: Vec3 := [0.0, 0.0, 0.0];
    assert Minus(eye, origin) == eye;
    UnseededSumOfSquaresDiffers();
    var d := sqrt(16.0);
    assert d >= 0.0 && d * d == 16.0;
    assert d * 2.0 >= d / 10.0;
  }

  // ---------------------------------------------------------------------------
  // The camera

  class Camera {
    /** The `Math` functions the camera computes with. */
    const m: MathLib
    var fov: real
    var near: real
    var far: real
    var aspect: real
    var position: Vec3
    var target: Vec3
    var up: Vec3
    var matrix: Mat4
    var dirty: bool

    /** The projection and the view can be computed from the current settings. */
    predicate Defined()
      reads this
    {
      PerspectiveDefined(m, fov, near, far, aspect) && LookAtDefined(m.sqrt, position, target, up)
    }

    /** The cache is coherent: when the flag is down, the matrix is the view-projection of
        the current settings. */
    ghost predicate Valid()
      reads this
    {
      !dirty ==> Defined() && matrix == ViewProjection(m, fov, near, far, aspect, position, target, up)
    }

    /** The defaults: a 45° field of view, near 0.01, far 10000, square aspect, the eye at
        (0, 0, 10) looking at the origin with y up, and no matrix computed yet. */
    constructor(m: MathLib)
      ensures this.m == m && fov == 45.0 && near == 0.01 && far == 10000.0 && aspect == 1.0
      ensures position == [0.0, 0.0, 10.0] && target == [0.0, 0.0, 0.0] && up == [0.0, 1.0, 0.0]
      ensures dirty && Valid()
    {
      this.m := m;
      fov := 45.0;
      near := 0.01;
      far := 10000.0;
      aspect := 1.0;
      position := [0.0, 0.0, 10.0];
      target := [0.0, 0.0, 0.0];
      up := [0.0, 1.0, 0.0];
      matrix := Identity();
      dirty := true;
    }

    method SetFov(fov: real) returns (self: Camera)
      modifies this
      ensures self == this && this.fov == fov && dirty && Valid()
      ensures near == old(near) && far == old(far) && aspect == old(aspect)
      ensures position == old(position) && target == old(target) && up == old(up) && matrix == old(matrix)
    {
      this.fov := fov;
      dirty := true;
      return this;
    }

    method SetNear(near: real) returns (self: Camera)
      modifies this
      ensures self == this && this.near == near && dirty && Valid()
      ensures fov == old(fov) && far == old(far) && aspect == old(aspect)
      ensures position == old(position) && target == old(target) && up == old(up) && matrix == old(matrix)
    {
      this.near := near;
      dirty := true;
      return this;
    }

    method SetFar(far: real) returns (self: Camera)
      modifies this
      ensures self == this && this.far == far && dirty && Valid()
      ensures fov == old(fov) && near == old(near) && aspect == old(aspect)
      ensures position == old(position) && target == old(target) && up == old(up) && matrix == old(matrix)
    {
      this.far := far;
      dirty := true;
      return this;
    }

    method SetAspect(aspect: real) returns (self: Camera)
      modifies this
      ensures self == this && this.aspect == aspect && dirty && Valid()
      ensures fov == old(fov) && near == old(near) && far == old(far)
      ensures position == old(position) && target == old(target) && up == old(up) && matrix == old(matrix)
    {
      this.aspect := aspect;
      dirty := true;
      return this;
    }

    method SetPosition(position: Vec3) returns (self: Camera)
      modifies this
      ensures self == this && this.position == position && dirty && Valid()
      ensures fov == old(fov) && near == old(near) && far == old(far) && aspect == old(aspect)
      ensures target == old(target) && up == old(up) && matrix == old(matrix)
    {
      this.position := position;
      dirty := true;
      return this;
    }

    method SetTarget(target: Vec3) returns (self: Camera)
      modifies this
      ensures self == this && this.target == target && dirty && Valid()
      ensures fov == old(fov) && near == old(near) && far == old(far) && aspect == old(aspect)
      ensures position == old(position) && up == old(up) && matrix == old(matrix)
    {
      this.target := target;
      dirty := true;
      return this;
    }

    method SetUp(up: Vec3) returns (self: Camera)
      modifies this
      ensures self == this && this.up == up && dirty && Valid()
      ensures fov == old(fov) && near == old(near) && far == old(far) && aspect == old(aspect)
      ensures position == old(position) && target == old(target) && matrix == old(matrix)
    {
      this.up := up;
      dirty := true;
      return this;
    }

    /** `getMatrix`: the view-projection of the current settings, recomputed only when the
        flag is up; when it is down the cached matrix is returned untouched. Afterwards the
        flag is down and the cache coherent, so a second call with no setter in between
        returns the same matrix. */
    method GetMatrix() returns (r: Mat4)
      requires Valid() && Defined()
      modifies this
      ensures Valid() && !dirty && r == matrix
      ensures r == ViewProjection(m, fov, near, far, aspect, position, target, up)
      ensures !old(dirty) ==> matrix == old(matrix)
      ensures fov == old(fov) && near == old(near) && far == old(far) && aspect == old(aspect)
      ensures position == old(position) && target == old(target) && up == old(up)
    {
      if dirty {
        dirty := false;
        matrix := ViewProjection(m, fov, near, far, aspect, position, target, up);
      }
      return matrix;
    }

    /** `orbit(radianX, radianY)`: only the eye moves, to its orbited position, and the
        cache is invalidated. */
    method Orbit(radianX: real, radianY: real)
      requires OrbitDefined(m.sqrt, position, target, up)
      modifies this
      ensures position == OrbitPosition(m, old(position), old(target), old(up), radianX, radianY)
      ensures dirty && Valid()
      ensures fov == old(fov) && near == old(near) && far == old(far) && aspect == old(aspect)
      ensures target == old(target) && up == old(up) && matrix == old(matrix)
    {
      var moved := OrbitPosition(m, position, target, up, radianX, radianY);
      var _ := SetPosition(moved);
    }

    /** The wheel listener: the zoom proposal becomes the eye when the rule accepts it;
        otherwise nothing changes. */
    method Wheel(deltaY: real, height: real, minDistance: real)
      requires height != 0.0 && Valid()
      modifies this
      ensures var factor := WheelFactor(deltaY, height);
        if ZoomAccepted(m.sqrt, old(position), target, factor, minDistance)
        then position == ZoomProposal(old(position), target, factor) && dirty
        else position == old(position) && dirty == old(dirty)
      ensures Valid()
      ensures fov == old(fov) && near == old(near) && far == old(far) && aspect == old(aspect)
      ensures target == old(target) && up == old(up) && matrix == old(matrix)
    {
      var factor := WheelFactor(deltaY, height);
      var proposal := ZoomProposal(position, target, factor);
      if ZoomAccepted(m.sqrt, position, target, factor, minDistance) {
        var _ := SetPosition(proposal);
      }
    }
  }
}
