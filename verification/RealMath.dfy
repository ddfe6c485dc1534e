/** Real arithmetic shared by the simulator models: exact reals in place of floats, C's `fmod`, and
    laws that the square root and the trigonometric functions are used with. */
module RealMath {

  /** The constant M_PI. */
  const PI: real := 3.14159265358979323846

  function Abs(x: real): real {
    if x < 0.0 then -x else x
  }

  function Min(x: real, y: real): real {
    if y < x then y else x
  }

  function Max(x: real, y: real): real {
    if x < y then y else x
  }

  /** `std::clamp`. */
  function Clamp(x: real, lo: real, hi: real): real
    requires lo <= hi
  {
    if x < lo then lo else if hi < x then hi else x
  }

  // ----- Products and quotients

  lemma ProductPositive(x: real, y: real)
    requires x > 0.0 && y > 0.0
    ensures x * y > 0.0
  {
  }

  lemma ProductMonotone(x: real, y: real, k: real)
    requires x <= y && k >= 0.0
    ensures x * k <= y * k
  {
    assert y * k - x * k == (y - x) * k;
  }

  lemma ProductStrict(x: real, y: real, k: real)
    requires x < y && k > 0.0
    ensures x * k < y * k
  {
    ProductPositive(y - x, k);
    assert y * k - x * k == (y - x) * k;
  }

  lemma QuotientTimes(x: real, y: real)
    requires y != 0.0
    ensures x / y * y == x
  {
  }

  lemma FactorCompare(q: real, x: real, y: real, c: real)
    requires y > 0.0 && q * y == x
    ensures q <= c <==> x <= c * y
    ensures q >= c <==> x >= c * y
  {
    if q < c {
      ProductStrict(q, c, y);
    } else if q > c {
      ProductStrict(c, q, y);
    }
  }

  /** Comparing a quotient is comparing a product. */
  lemma QuotientCompare(x: real, y: real, c: real)
    requires y > 0.0
    ensures x / y <= c <==> x <= c * y
    ensures x / y >= c <==> x >= c * y
  {
    QuotientTimes(x, y);
    FactorCompare(x / y, x, y, c);
  }

  // ----- Counting steps

  /** The number of steps of length `dt` until a span has strictly passed. */
  function StepsPast(span: real, dt: real): nat
    requires span >= 0.0 && dt > 0.0
  {
    QuotientNonNegative(span, dt);
    (span / dt).Floor + 1
  }

  lemma QuotientNonNegative(x: real, y: real)
    requires x >= 0.0 && y > 0.0
    ensures x / y >= 0.0
  {
    QuotientTimes(x, y);
    FactorCompare(x / y, x, y, 0.0);
  }

  lemma PastIff(span: real, dt: real, n: nat)
    requires span >= 0.0 && dt > 0.0
    ensures span - n as real * dt < 0.0 <==> n >= StepsPast(span, dt)
  {
    QuotientTimes(span, dt);
    FactorCompare(span / dt, span, dt, n as real);
    FloorBelow(span / dt, n);
  }

  lemma FloorBelow(q: real, n: nat)
    requires q >= 0.0
    ensures q < n as real <==> n >= q.Floor + 1
  {
  }

  // ----- Angles

  const TURN: real := 2.0 * PI

  /** Rounding towards zero. */
  function Truncate(q: real): int {
    if q >= 0.0 then q.Floor else -((-q).Floor)
  }

  /** C's remainder: it has the sign of the dividend. */
  function Fmod(x: real, y: real): real
    requires y > 0.0
  {
    x - Truncate(x / y) as real * y
  }

  lemma FmodRange(x: real, y: real)
    requires y > 0.0
    ensures x >= 0.0 ==> 0.0 <= Fmod(x, y) < y
    ensures x <= 0.0 ==> -y < Fmod(x, y) <= 0.0
  {
    var q := x / y;
    QuotientTimes(x, y);
    FactorCompare(q, x, y, 0.0);
    var t := Truncate(q) as real;
    FactorCompare(q, x, y, t);
    FactorCompare(q, x, y, t + 1.0);
    FactorCompare(q, x, y, t - 1.0);
    assert (t + 1.0) * y == t * y + y && (t - 1.0) * y == t * y - y;
  }

  function Normalize(value: real): real {
    var m := Fmod(value + PI, TURN);
    (if m < 0.0 then m + TURN else m) - PI
  }

  /** The number of whole turns that normalizing takes away. */
  function TurnsOff(value: real): int {
    var x := value + PI;
    Truncate(x / TURN) - (if Fmod(x, TURN) < 0.0 then 1 else 0)
  }

  ghost predicate Congruent(a: real, b: real) {
    exists k: int :: a == Turned(b, k)
  }

  function Turned(a: real, k: int): real {
    a + k as real * TURN
  }

  /** Normalizing lands in [-pi, pi) and takes away whole turns. */
  lemma NormalizeTurns(value: real)
    ensures -PI <= Normalize(value) < PI
    ensures Normalize(value) == Turned(value, -TurnsOff(value))
  {
    var x := value + PI;
    FmodRange(x, TURN);
    var t := Truncate(x / TURN);
    assert (t - 1) as real * TURN == t as real * TURN - TURN;
  }

  /** Two angles in [-pi, pi) a whole number of turns apart are equal. */
  lemma NoRoomForATurn(a: real, b: real, k: int)
    requires -PI <= a < PI && -PI <= b < PI && a == Turned(b, k)
    ensures k == 0 && a == b
  {
    if k >= 1 {
      ProductMonotone(1.0, k as real, TURN);
    } else if k <= -1 {
      ProductMonotone(k as real, -1.0, TURN);
    }
  }

  lemma NormalizeFixes(value: real)
    requires -PI <= value < PI
    ensures Normalize(value) == value
  {
    NormalizeTurns(value);
    NoRoomForATurn(Normalize(value), value, -TurnsOff(value));
  }

  /** Normalizing never makes an angle larger. */
  lemma NormalizeShrinks(value: real)
    ensures Abs(Normalize(value)) <= Abs(value)
  {
    hide Normalize;
    NormalizeTurns(value);
    if -PI <= value < PI {
      NormalizeFixes(value);
    }
  }

  lemma TurnsApart(goal: real, k: int, n: int)
    ensures Turned(goal, k) == Turned(goal, n) + (k - n) as real * TURN
  {
    assert k as real * TURN == n as real * TURN + (k - n) as real * TURN;
  }

  lemma WholeTurns(k: int)
    ensures k >= 1 ==> k as real * TURN >= TURN
    ensures k <= -1 ==> k as real * TURN <= -TURN
  {
    if k >= 1 {
      ProductMonotone(1.0, k as real, TURN);
    } else if k <= -1 {
      ProductMonotone(k as real, -1.0, TURN);
    }
  }

  /** No angle a whole number of turns away is nearer to zero. */
  lemma NormalizeNearest(value: real, k: int)
    ensures Abs(Normalize(value)) <= Abs(Turned(value, k))
  {
    hide Normalize, TurnsOff, Turned;
    NormalizeTurns(value);
    var n := -TurnsOff(value);
    TurnsApart(value, k, n);
    WholeTurns(k - n);
  }
}
