/** Planar poses and the kinematics of the four mecanum wheels. */
module Geometry {
  import opened RealMath

  /** The library functions the geometry is built on. */
  datatype Maths = Maths(sin: real -> real, cos: real -> real, sqrt: real -> real) {
    /** The laws used: the unit circle, the symmetries of sine and cosine, and square roots. */
    ghost predicate Lawful() {
      && (forall a :: sin(a) * sin(a) + cos(a) * cos(a) == 1.0)
      && (forall a :: sin(-a) == -sin(a) && cos(-a) == cos(a))
      && (forall x :: x >= 0.0 ==> sqrt(x) >= 0.0 && sqrt(x) * sqrt(x) == x)
    }
  }

  datatype Vector = Vector(x: real, y: real) {
    /** Rotation given the cosine and the sine of the angle. */
    function Rotate(c: real, s: real): Vector {
      Vector(x * c - y * s, x * s + y * c)
    }

    function Plus(v: Vector): Vector {
      Vector(x + v.x, y + v.y)
    }

    function Minus(v: Vector): Vector {
      Vector(x - v.x, y - v.y)
    }

    function Times(k: real): Vector {
      Vector(x * k, y * k)
    }

    function Square(): real {
      x * x + y * y
    }
  }

  datatype Twist = Twist(linear: Vector, theta: real)

  const NO_TWIST := Twist(Vector(0.0, 0.0), 0.0)

  function RotateBy(m: Maths, v: Vector, angle: real): Vector {
    v.Rotate(m.cos(angle), m.sin(angle))
  }

  datatype Pose = Pose(at: Vector, theta: real) {
    /** First apply `p`, then this pose. */
    function Compose(m: Maths, p: Pose): Pose {
      Pose(RotateBy(m, p.at, theta).Plus(at), p.theta + theta)
    }

    function Inverse(m: Maths): Pose {
      Pose(RotateBy(m, at, -theta).Times(-1.0), -theta)
    }

    function RelativeTo(m: Maths, pose: Pose): Pose {
      pose.Inverse(m).Compose(m, this)
    }

    function Distance(m: Maths): real {
      m.sqrt(at.Square())
    }

    function Norm(m: Maths): real {
      Distance(m) + Abs(Normalize(theta))
    }

    /** Integrates a twist given in the frame of the odometry. */
    function Integrate(t: Twist, dt: real): Pose {
      Pose(at.Plus(t.linear.Times(dt)), theta + t.theta * dt)
    }
  }

  // ----- Rotations

  lemma RotateLinear(v: Vector, w: Vector, c: real, s: real)
    ensures v.Minus(w).Rotate(c, s) == v.Rotate(c, s).Minus(w.Rotate(c, s))
  {
  }

  /** A rotation takes the axes to the unit vector of its angle and to the one a quarter turn on. */
  lemma RotateAxes(v: Vector, c: real, s: real)
    ensures Vector(1.0, 0.0).Rotate(c, s) == Vector(c, s) && Vector(0.0, 1.0).Rotate(c, s) == Vector(-s, c)
    ensures v.Rotate(c, s) == Vector(c, s).Times(v.x).Plus(Vector(-s, c).Times(v.y))
  {
    assert -s * v.y == -(v.y * s);
  }

  lemma RotateScaled(v: Vector, k: real, c: real, s: real)
    ensures v.Times(k).Rotate(c, s) == v.Rotate(c, s).Times(k)
  {
    assert v.x * k * c - v.y * k * s == (v.x * c - v.y * s) * k;
    assert v.x * k * s + v.y * k * c == (v.x * s + v.y * c) * k;
  }

  lemma RotateBack(v: Vector, c: real, s: real)
    requires c * c + s * s == 1.0
    ensures v.Rotate(c, -s).Rotate(c, s) == v
    ensures v.Rotate(c, s).Rotate(c, -s) == v
  {
    TurnedThere(v, c, s);
    assert -s * -s == s * s;
    TurnedThere(v, c, -s);
    assert v.Rotate(c, --s) == v.Rotate(c, s);
  }

  lemma TurnedThere(v: Vector, c: real, s: real)
    requires c * c + s * s == 1.0
    ensures v.Rotate(c, -s).Rotate(c, s) == v
  {
    var xc, xs, yc, ys := v.x * c, v.x * s, v.y * c, v.y * s;
    assert v.Rotate(c, -s) == Vector(xc + ys, yc - xs);
    UnitFactor(v.x, c, s);
    UnitFactor(v.y, c, s);
    CrossTerms(v.x, c, s);
    CrossTerms(v.y, c, s);
    assert (xc + ys) * c - (yc - xs) * s == xc * c + xs * s + (ys * c - yc * s);
    assert (xc + ys) * s + (yc - xs) * c == yc * c + ys * s + (xc * s - xs * c);
  }

  lemma CrossTerms(x: real, c: real, s: real)
    ensures (x * c) * s == (x * s) * c
  {
  }

  lemma UnitFactor(x: real, c: real, s: real)
    requires c * c + s * s == 1.0
    ensures x * c * c + x * s * s == x
  {
    assert x * c * c + x * s * s == x * (c * c + s * s);
  }

  lemma RotateKeepsSquare(v: Vector, c: real, s: real)
    requires c * c + s * s == 1.0
    ensures v.Rotate(c, s).Square() == v.Square()
  {
    var r := v.Rotate(c, s);
    var a, b := v.x * v.x, v.y * v.y;
    assert r.x * r.x == a * (c * c) - 2.0 * (v.x * c) * (v.y * s) + b * (s * s);
    assert r.y * r.y == a * (s * s) + 2.0 * (v.x * c) * (v.y * s) + b * (c * c);
    UnitSquare(a, c, s);
    UnitSquare(b, c, s);
  }

  lemma UnitSquare(a: real, c: real, s: real)
    requires c * c + s * s == 1.0
    ensures a * (c * c) + a * (s * s) == a
  {
    assert a * (c * c) + a * (s * s) == a * (c * c + s * s);
  }

  // ----- Roots

  lemma SquareStrict(a: real, b: real)
    requires 0.0 <= a < b
    ensures a * a < b * b
  {
    assert b * b - a * a == (b - a) * (b + a);
    ProductPositive(b - a, b + a);
  }

  lemma RootUnique(a: real, b: real)
    requires a >= 0.0 && b >= 0.0 && a * a == b * b
    ensures a == b
  {
    if a < b {
      SquareStrict(a, b);
    } else if b < a {
      SquareStrict(b, a);
    }
  }

  lemma RootOfZero(r: real, square: real)
    requires r >= 0.0 && r * r == square && square == 0.0
    ensures r == 0.0
  {
    if r > 0.0 {
      SquareStrict(0.0, r);
    }
  }

  lemma NoSquare(v: Vector)
    ensures v.Minus(v).Square() == 0.0
  {
  }

  lemma SquareNonNegative(v: Vector)
    ensures v.Square() >= 0.0
  {
  }

  /** Scaling a vector scales its length. */
  lemma LengthScaled(m: Maths, v: Vector, k: real)
    requires m.Lawful() && k >= 0.0
    ensures m.sqrt(v.Times(k).Square()) == k * m.sqrt(v.Square())
  {
    SquareNonNegative(v);
    SquareNonNegative(v.Times(k));
    var a, b := m.sqrt(v.Times(k).Square()), m.sqrt(v.Square());
    ProductMonotone(0.0, b, k);
    ScaledSquare(v, k);
    assert (k * b) * (k * b) == (k * k) * (b * b);
    RootUnique(a, k * b);
  }

  lemma ScaledSquare(v: Vector, k: real)
    ensures v.Times(k).Square() == (k * k) * v.Square()
  {
    assert (v.x * k) * (v.x * k) == (k * k) * (v.x * v.x);
    assert (v.y * k) * (v.y * k) == (k * k) * (v.y * v.y);
  }

  // ----- Relative poses

  /** A pose seen from another one: the difference, turned back. */
  lemma RelativeIsDifference(m: Maths, goal: Pose, pose: Pose)
    requires m.Lawful()
    ensures goal.RelativeTo(m, pose)
              == Pose(RotateBy(m, goal.at.Minus(pose.at), -pose.theta), goal.theta - pose.theta)
  {
    RotateLinear(goal.at, pose.at, m.cos(-pose.theta), m.sin(-pose.theta));
  }

  /** Composing and then looking from the same pose gives the second pose back. */
  lemma ComposeThenRelative(m: Maths, pose: Pose, goal: Pose)
    requires m.Lawful()
    ensures pose.Compose(m, goal).RelativeTo(m, pose) == goal
  {
    var there := pose.Compose(m, goal);
    RelativeIsDifference(m, there, pose);
    var c, s := m.cos(pose.theta), m.sin(pose.theta);
    assert there.at.Minus(pose.at) == goal.at.Rotate(c, s);
    RotateBack(goal.at, c, s);
  }

  /** Distances do not depend on the frame they are seen from. */
  lemma RelativeDistance(m: Maths, goal: Pose, pose: Pose)
    requires m.Lawful()
    ensures goal.RelativeTo(m, pose).Distance(m) == m.sqrt(goal.at.Minus(pose.at).Square())
  {
    RelativeIsDifference(m, goal, pose);
    assert m.sin(-pose.theta) * m.sin(-pose.theta) + m.cos(-pose.theta) * m.cos(-pose.theta) == 1.0;
    RotateKeepsSquare(goal.at.Minus(pose.at), m.cos(-pose.theta), m.sin(-pose.theta));
  }

  // ----- Wheels

  datatype Wheels = Wheels(frontLeft: real, frontRight: real, rearLeft: real, rearRight: real)

  const STOPPED := Wheels(0.0, 0.0, 0.0, 0.0)

  const AXIS_SUM: real := 0.2
  const WHEEL_RADIUS: real := 0.05

  function WheelsFromTwist(t: Twist): Wheels {
    var l, r := AXIS_SUM, WHEEL_RADIUS;
    Wheels((t.linear.x - t.linear.y - l * t.theta) / r,
           (t.linear.x + t.linear.y + l * t.theta) / r,
           (t.linear.x + t.linear.y - l * t.theta) / r,
           (t.linear.x - t.linear.y + l * t.theta) / r)
  }

  function TwistFromWheels(w: Wheels): Twist {
    var l, r := AXIS_SUM, WHEEL_RADIUS;
    Twist(Vector(0.25 * (w.frontLeft + w.frontRight + w.rearLeft + w.rearRight) * r,
                 0.25 * (-w.frontLeft + w.frontRight + w.rearLeft - w.rearRight) * r),
          0.25 * (-w.frontLeft + w.frontRight - w.rearLeft + w.rearRight) * r / l)
  }

  /** Driving the wheels for a twist moves the body with that twist. */
  lemma TwistRoundTrip(t: Twist)
    ensures TwistFromWheels(WheelsFromTwist(t)) == t
  {
  }

  /** Wheel speeds come from a twist exactly when no wheel has to slip. */
  lemma WheelsRoundTripIff(w: Wheels)
    ensures WheelsFromTwist(TwistFromWheels(w)) == w <==> w.frontLeft + w.frontRight == w.rearLeft + w.rearRight
  {
  }

  /** The speeds asked of the wheels for a motion of the body, times their radius. */
  lemma WheelSpeedsIs(t: Twist)
    ensures var w := WheelsFromTwist(t);
            && w.frontLeft * 0.05 == t.linear.x - t.linear.y - 0.2 * t.theta
            && w.frontRight * 0.05 == t.linear.x + t.linear.y + 0.2 * t.theta
            && w.rearLeft * 0.05 == t.linear.x + t.linear.y - 0.2 * t.theta
            && w.rearRight * 0.05 == t.linear.x - t.linear.y + 0.2 * t.theta
  {
  }

  /** What no motion of the body explains is the same at all wheels, forwards in front and backwards behind. */
  lemma SlipIsShared(w: Wheels)
    ensures var v := WheelsFromTwist(TwistFromWheels(w));
            var slip := (w.frontLeft + w.frontRight - w.rearLeft - w.rearRight) / 4.0;
            && w.frontLeft - v.frontLeft == slip && w.frontRight - v.frontRight == slip
            && w.rearLeft - v.rearLeft == -slip && w.rearRight - v.rearRight == -slip
  {
  }

  /** How badly a twist explains the speeds of the wheels. */
  function Misfit(w: Wheels, t: Twist): real {
    var v := WheelsFromTwist(t);
    Squared(w.frontLeft - v.frontLeft) + Squared(w.frontRight - v.frontRight)
    + Squared(w.rearLeft - v.rearLeft) + Squared(w.rearRight - v.rearRight)
  }

  function Squared(x: real): real {
    x * x
  }

  /** The twist measured is the one that explains the speeds best, in the sense of least squares. */
  lemma TwistFitsBest(w: Wheels, t: Twist)
    ensures Misfit(w, TwistFromWheels(w)) <= Misfit(w, t)
  {
    hide Squared, WheelsFromTwist, TwistFromWheels;
    SlipIsShared(w);
    var v, u := WheelsFromTwist(TwistFromWheels(w)), WheelsFromTwist(t);
    var slip := (w.frontLeft + w.frontRight - w.rearLeft - w.rearRight) / 4.0;
    NoSlip(TwistFromWheels(w));
    NoSlip(t);
    OrthogonalFit(slip, v.frontLeft - u.frontLeft, v.frontRight - u.frontRight,
                  v.rearLeft - u.rearLeft, v.rearRight - u.rearRight);
  }

  /** The speeds that a twist asks for make no wheel slip. */
  lemma NoSlip(t: Twist)
    ensures var w := WheelsFromTwist(t);
            w.frontLeft + w.frontRight == w.rearLeft + w.rearRight
  {
  }

  lemma OrthogonalFit(slip: real, a: real, b: real, c: real, d: real)
    requires a + b == c + d
    ensures Squared(slip) + Squared(slip) + Squared(-slip) + Squared(-slip)
            <= Squared(slip + a) + Squared(slip + b) + Squared(-slip + c) + Squared(-slip + d)
  {
    SumSquared(slip, a);
    SumSquared(slip, b);
    SumSquared(-slip, c);
    SumSquared(-slip, d);
    assert slip * a + slip * b - slip * c - slip * d == slip * (a + b - c - d);
  }

  lemma SumSquared(x: real, y: real)
    ensures Squared(x + y) >= Squared(x) + 2.0 * (x * y)
  {
    assert Squared(x + y) == Squared(x) + 2.0 * (x * y) + y * y;
  }
}
