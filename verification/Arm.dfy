/** The two coupled arm motors: keeping their angles inside the polygon the mechanism allows. */
module Arm {
  import opened RealMath

  /** Angles of the right and the left motor. */
  datatype Angles = Angles(right: real, left: real)

  const RIGHT_MIN: real := -0.2740
  const RIGHT_MAX: real := 1.3840
  const LEFT_MIN: real := -0.7993
  const LEFT_MAX: real := 1.7313
  const DIFFERENCE_MIN: real := -0.3473
  const DIFFERENCE_MAX: real := 1.2147

  ghost predicate InBox(a: Angles) {
    RIGHT_MIN <= a.right <= RIGHT_MAX && LEFT_MIN <= a.left <= LEFT_MAX
  }

  ghost predicate InBand(a: Angles) {
    DIFFERENCE_MIN <= a.right - a.left <= DIFFERENCE_MAX
  }

  /** The polygon of admissible angles. */
  ghost predicate Safe(a: Angles) {
    InBox(a) && InBand(a)
  }

  predicate IsRoot2(root2: real) {
    root2 > 0.0 && root2 * root2 == 2.0
  }

  function Clamped(a: Angles): Angles {
    Angles(Clamp(a.right, RIGHT_MIN, RIGHT_MAX), Clamp(a.left, LEFT_MIN, LEFT_MAX))
  }

  /** Moves by `dist` along (1, -1), downwards for positive distances. */
  function Shifted(a: Angles, dist: real): Angles {
    Angles(a.right - dist, a.left + dist)
  }

  function SafeMotorAngles(target: Angles, root2: real): Angles
    requires IsRoot2(root2)
  {
    var clamped := Clamped(target);
    var above := (clamped.right - clamped.left - DIFFERENCE_MAX) / root2;
    var lowered := if above > 0.0 then Shifted(clamped, above) else clamped;
    var below := (lowered.right - lowered.left - DIFFERENCE_MIN) / root2;
    if below < 0.0 then Shifted(lowered, below) else lowered
  }

  // ----- The result is always admissible

  lemma Root2Bounds(root2: real)
    requires IsRoot2(root2)
    ensures 1.4 < root2 < 1.5
  {
    if root2 <= 1.4 {
      ProductMonotone(root2, 1.4, root2);
      ProductMonotone(root2, 1.4, 1.4);
    }
    if root2 >= 1.5 {
      ProductMonotone(1.5, root2, root2);
      ProductMonotone(1.5, root2, 1.5);
    }
  }

  /** Dividing by the square root of two keeps the sign and takes away less than a third. */
  lemma OverRoot2(e: real, root2: real, d: real)
    requires IsRoot2(root2) && d == e / root2
    ensures e >= 0.0 ==> e * 0.66 <= d <= e * 0.72
    ensures e <= 0.0 ==> e * 0.72 <= d <= e * 0.66
    ensures d > 0.0 <==> e > 0.0
    ensures d < 0.0 <==> e < 0.0
  {
    Root2Bounds(root2);
    QuotientTimes(e, root2);
    FactorCompare(d, e, root2, 0.0);
    if e >= 0.0 {
      ProductMonotone(root2, 1.5, d);
      ProductMonotone(1.4, root2, d);
    } else {
      ProductMonotone(root2, 1.5, -d);
      ProductMonotone(1.4, root2, -d);
    }
  }

  /** Every request is mapped into the polygon. */
  lemma AlwaysSafe(target: Angles, root2: real)
    requires IsRoot2(root2)
    ensures Safe(SafeMotorAngles(target, root2))
    ensures var r := SafeMotorAngles(target, root2);
            -0.2740 <= r.right <= 1.3840 && -0.7993 <= r.left <= 1.7313 && -0.3473 <= r.right - r.left <= 1.2147
  {
    hide IsRoot2;
    Root2Bounds(root2);
    var clamped := Clamped(target);
    var e := clamped.right - clamped.left - DIFFERENCE_MAX;
    var above := e / root2;
    OverRoot2(e, root2, above);
    var lowered := if above > 0.0 then Shifted(clamped, above) else clamped;
    var f := lowered.right - lowered.left - DIFFERENCE_MIN;
    OverRoot2(f, root2, f / root2);
  }

  /** Admissible angles are left alone; with `AlwaysSafe`, the map is a retraction. */
  lemma SafeUnchangedIff(target: Angles, root2: real)
    requires IsRoot2(root2)
    ensures SafeMotorAngles(target, root2) == target <==> Safe(target)
    ensures Safe(target) <==>
            && -0.2740 <= target.right <= 1.3840 && -0.7993 <= target.left <= 1.7313
            && -0.3473 <= target.right - target.left <= 1.2147
  {
    hide IsRoot2;
    AlwaysSafe(target, root2);
    Root2Bounds(root2);
    if Safe(target) {
      assert Clamped(target) == target;
      var e := target.right - target.left - DIFFERENCE_MAX;
      OverRoot2(e, root2, e / root2);
      var f := target.right - target.left - DIFFERENCE_MIN;
      OverRoot2(f, root2, f / root2);
    }
  }

  lemma Idempotent(target: Angles, root2: real)
    requires IsRoot2(root2)
    ensures SafeMotorAngles(SafeMotorAngles(target, root2), root2) == SafeMotorAngles(target, root2)
  {
    AlwaysSafe(target, root2);
    SafeUnchangedIff(SafeMotorAngles(target, root2), root2);
  }

  // ----- It is not the nearest admissible point

  function SquaredDistance(a: Angles, b: Angles): real {
    (a.right - b.right) * (a.right - b.right) + (a.left - b.left) * (a.left - b.left)
  }

  ghost predicate NearestSafe(a: Angles, to: Angles) {
    Safe(a) && forall b :: Safe(b) ==> SquaredDistance(a, to) <= SquaredDistance(b, to)
  }

  /** The comments promise the nearest point on a crossed line; each coordinate is moved by the whole
      distance to the line, though, where half the difference would do.  The result is the nearest
      admissible point to the clamped request only when no line was crossed. */
  lemma NearestIff(target: Angles, root2: real)
    requires IsRoot2(root2)
    ensures NearestSafe(SafeMotorAngles(target, root2), Clamped(target)) <==> InBand(Clamped(target))
  {
    hide SafeMotorAngles, SquaredDistance, Clamped;
    var clamped := Clamped(target);
    AlwaysSafe(target, root2);
    if InBand(clamped) {
      InsideStays(target, root2);
      forall b | Safe(b)
        ensures SquaredDistance(clamped, clamped) <= SquaredDistance(b, clamped)
      {
        ZeroDistance(clamped, b);
      }
    } else {
      var half := HalfShiftCloser(target, root2);
      assert Safe(half);
    }
  }

  /** With the right motor asked up to its limit and the left one down, the result is not the nearest. */
  lemma NearestMissed(root2: real)
    requires IsRoot2(root2)
    ensures var target := Angles(1.384, -0.6);
            Clamped(target) == target && !NearestSafe(SafeMotorAngles(target, root2), target)
  {
    hide SafeMotorAngles, NearestSafe, IsRoot2;
    NearestIff(Angles(1.384, -0.6), root2);
  }

  lemma InsideStays(target: Angles, root2: real)
    requires IsRoot2(root2) && InBand(Clamped(target))
    ensures SafeMotorAngles(target, root2) == Clamped(target)
  {
    SafeUnchangedIff(Clamped(target), root2);
  }

  lemma ZeroDistance(a: Angles, b: Angles)
    ensures SquaredDistance(a, a) == 0.0 <= SquaredDistance(b, a)
  {
    SquaresNonNegative(b.right - a.right, b.left - a.left);
  }

  /** Half the shift would have been enough to reach the band, and is closer. */
  lemma HalfShiftCloser(target: Angles, root2: real) returns (half: Angles)
    requires IsRoot2(root2) && !InBand(Clamped(target))
    ensures Safe(half)
    ensures SquaredDistance(half, Clamped(target)) < SquaredDistance(SafeMotorAngles(target, root2), Clamped(target))
  {
    hide IsRoot2, SafeMotorAngles;
    Root2Bounds(root2);
    var c := Clamped(target);
    var e := if c.right - c.left > DIFFERENCE_MAX then c.right - c.left - DIFFERENCE_MAX
             else c.right - c.left - DIFFERENCE_MIN;
    var d := e / root2;
    OverRoot2(e, root2, d);
    ShiftTaken(target, root2, e);
    half := Shifted(c, e / 2.0);
    ShiftDistance(c, e / 2.0);
    ShiftDistance(c, d);
    SquareGrows(e / 2.0, d);
  }

  lemma ShiftDistance(a: Angles, d: real)
    ensures SquaredDistance(Shifted(a, d), a) == 2.0 * (d * d)
  {
    assert -d * -d == d * d;
  }

  lemma SquaresNonNegative(x: real, y: real)
    ensures x * x + y * y >= 0.0
  {
  }

  lemma SquareGrows(x: real, y: real)
    requires (0.0 < x < y) || (y < x < 0.0)
    ensures x * x < y * y
  {
    assert y * y - x * x == (y - x) * (y + x);
    if x > 0.0 {
      ProductPositive(y - x, y + x);
    } else {
      ProductPositive(x - y, -(y + x));
      assert (x - y) * -(y + x) == (y - x) * (y + x);
    }
  }

  /** Exactly one line is crossed, and the shift is by its whole distance. */
  lemma ShiftTaken(target: Angles, root2: real, e: real)
    requires IsRoot2(root2)
    requires var c := Clamped(target);
             e == if c.right - c.left > DIFFERENCE_MAX then c.right - c.left - DIFFERENCE_MAX
                  else c.right - c.left - DIFFERENCE_MIN
    requires !InBand(Clamped(target))
    ensures SafeMotorAngles(target, root2) == Shifted(Clamped(target), e / root2)
  {
    hide IsRoot2;
    Root2Bounds(root2);
    var c := Clamped(target);
    var d := e / root2;
    OverRoot2(e, root2, d);
    var up := c.right - c.left - DIFFERENCE_MAX;
    OverRoot2(up, root2, up / root2);
    if up > 0.0 {
      var lowered := Shifted(c, d);
      var f := lowered.right - lowered.left - DIFFERENCE_MIN;
      OverRoot2(f, root2, f / root2);
    }
  }

  // ----- Where a request goes

  /** r is the value nearest to x from lo to hi. */
  predicate NearestIn(r: real, x: real, lo: real, hi: real) {
    lo <= r <= hi && (if x < lo then r == lo else if x > hi then r == hi else r == x)
  }

  /** A request is cut to the limits of each motor, to `c`.  If that is off the band of differences, both motors are
      moved against each other by the distance of `c` from the line that was crossed, the excess over the square root
      of two. */
  lemma RequestGoes(target: Angles, root2: real, c: Angles)
    requires IsRoot2(root2)
    requires NearestIn(c.right, target.right, -0.2740, 1.3840) && NearestIn(c.left, target.left, -0.7993, 1.7313)
    ensures var r := SafeMotorAngles(target, root2);
            var d := c.right - c.left;
            && r.right + r.left == c.right + c.left
            && (-0.3473 <= d <= 1.2147 ==> r == c)
            && (d > 1.2147 ==> (c.right - r.right) * root2 == d - 1.2147)
            && (d < -0.3473 ==> (r.right - c.right) * root2 == -0.3473 - d)
  {
    hide IsRoot2, SafeMotorAngles;
    assert c == Clamped(target);
    var d := c.right - c.left;
    if d > 1.2147 {
      ShiftTaken(target, root2, d - DIFFERENCE_MAX);
      TimesRoot(c, SafeMotorAngles(target, root2), d - DIFFERENCE_MAX, root2);
    } else if d < -0.3473 {
      ShiftTaken(target, root2, d - DIFFERENCE_MIN);
      TimesRoot(c, SafeMotorAngles(target, root2), d - DIFFERENCE_MIN, root2);
    } else {
      InsideStays(target, root2);
    }
  }

  lemma TimesRoot(c: Angles, r: Angles, e: real, root2: real)
    requires IsRoot2(root2) && r == Shifted(c, e / root2)
    ensures (c.right - r.right) * root2 == e && (r.right - c.right) * root2 == -e
    ensures r.right + r.left == c.right + c.left
  {
    QuotientTimes(e, root2);
    assert c.right - r.right == e / root2;
    assert (r.right - c.right) * root2 == -((c.right - r.right) * root2);
  }
}
