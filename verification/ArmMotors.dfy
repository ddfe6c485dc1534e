/** The simulated arm over whole runs: its motors never leave the admissible polygon, and the limits
    computed for them always contain the angles they are at. */
module ArmMotors {
  import opened RealMath
  import opened Arm

  datatype Motor = Motor(
    current: real, desired: real,
    speedTarget: real, speedDesired: real, speedCurrent: real,
    minAngle: real, maxAngle: real, maxSpeed: real,
    speedMode: bool, enabled: bool)
  {
    predicate Valid() {
      minAngle <= maxAngle && maxSpeed >= 0.0
    }

    /** Near a limit, just the speed that reaches it. */
    function ApproachSpeed(dt: real): real
      requires dt != 0.0
    {
      var next := speedDesired * dt + current;
      if next < minAngle && speedDesired <= 0.0 then (minAngle - current) / dt
      else if next > maxAngle && speedDesired >= 0.0 then (maxAngle - current) / dt
      else speedDesired
    }

    /** The speed to ask for. */
    function DesiredSpeed(dt: real): real
      requires Valid() && dt != 0.0
    {
      if enabled then Clamp(ApproachSpeed(dt), -maxSpeed, maxSpeed) else 0.0
    }

    function DesiredAngle(dt: real): real
      requires Valid() && dt != 0.0
    {
      if speedMode then current + DesiredSpeed(dt) * dt else desired
    }

    function WithDesiredAngle(value: real, dt: real): Motor
      requires dt != 0.0
    {
      if speedMode then
        if enabled then this.(speedDesired := (value - current) / dt) else this
      else this.(desired := value)
    }

    /** Where the desired value alone would take the motor, at any speed. */
    function Aim(dt: real): real {
      if speedMode then current + speedDesired * dt else desired
    }

    /** How far a motor in speed mode can turn in a step. */
    function Reach(dt: real): real {
      if enabled then maxSpeed * dt else 0.0
    }

    function Lowest(dt: real): real {
      Max(minAngle, current - Reach(dt))
    }

    function Highest(dt: real): real {
      Min(maxAngle, current + Reach(dt))
    }

    function Moved(dt: real): Motor
      requires Valid()
    {
      this.(current := Clamp(current + speedTarget * dt, minAngle, maxAngle))
    }

    function Measured(previous: real, dt: real): Motor
      requires dt != 0.0
    {
      this.(speedCurrent := (current - previous) / dt)
    }
  }

  datatype ArmState = ArmState(right: Motor, left: Motor) {
    predicate Valid() {
      right.Valid() && left.Valid()
    }

    function Current(): Angles {
      Angles(right.current, left.current)
    }

    function WithCurrent(a: Angles): ArmState {
      ArmState(right.(current := a.right), left.(current := a.left))
    }

    /** One step of the simulated mechanism: move, project into the polygon, measure the speeds. */
    function Moved(dt: real, root2: real): ArmState
      requires Valid() && dt != 0.0 && IsRoot2(root2)
    {
      var moved := ArmState(right.Moved(dt), left.Moved(dt));
      var limited := moved.WithCurrent(SafeMotorAngles(moved.Current(), root2));
      ArmState(limited.right.Measured(right.current, dt), limited.left.Measured(left.current, dt))
    }

    /** Each motor's interval, given where the other one is. */
    function WithLimits(): ArmState {
      ArmState(right.(minAngle := Max(left.current - 0.3473, RIGHT_MIN),
                      maxAngle := Min(left.current + 1.2147, RIGHT_MAX)),
               left.(minAngle := Max(right.current - 1.2147, LEFT_MIN), maxAngle := right.current + 0.3473))
    }

    function Limited(dt: real, root2: real): ArmState
      requires dt != 0.0 && IsRoot2(root2) && WithLimits().Valid()
    {
      var s := WithLimits();
      var safe := SafeMotorAngles(Angles(s.right.DesiredAngle(dt), s.left.DesiredAngle(dt)), root2);
      ArmState(s.right.WithDesiredAngle(safe.right, dt), s.left.WithDesiredAngle(safe.left, dt))
    }
  }

  class ArmDriver {
    var right: Motor
    var left: Motor
    const root2: real

    constructor (right: Motor, left: Motor, root2: real)
      ensures State() == ArmState(right, left) && this.root2 == root2
    {
      this.right, this.left, this.root2 := right, left, root2;
    }

    function State(): ArmState
      reads this
    {
      ArmState(right, left)
    }

    method LimitMotorAngles()
      requires IsRoot2(root2)
      modifies this
      ensures State() == old(State()).WithCurrent(SafeMotorAngles(old(State()).Current(), root2))
    {
      var safe := SafeMotorAngles(Angles(right.current, left.current), root2);
      left := left.(current := safe.left);
      right := right.(current := safe.right);
    }

    method DoStep(dt: real)
      requires State().Valid() && dt != 0.0 && IsRoot2(root2)
      modifies this
      ensures State() == old(State()).Moved(dt, root2)
    {
      hide SafeMotorAngles, Motor.Moved, Motor.Measured;
      var angles := Angles(right.current, left.current);
      left := left.Moved(dt);
      right := right.Moved(dt);
      LimitMotorAngles();
      left := left.Measured(angles.left, dt);
      right := right.Measured(angles.right, dt);
    }

    method LimitMotors(dt: real)
      requires dt != 0.0 && IsRoot2(root2) && State().WithLimits().Valid()
      modifies this
      ensures State() == old(State()).Limited(dt, root2)
    {
      hide SafeMotorAngles, Motor.DesiredAngle;
      right := right.(minAngle := Max(left.current - 0.3473, -0.2740));
      right := right.(maxAngle := Min(left.current + 1.2147, 1.3840));
      left := left.(minAngle := Max(right.current - 1.2147, -0.7993));
      left := left.(maxAngle := right.current + 0.3473);
      var safe := SafeMotorAngles(Angles(right.DesiredAngle(dt), left.DesiredAngle(dt)), root2);
      left := left.WithDesiredAngle(safe.left, dt);
      right := right.WithDesiredAngle(safe.right, dt);
    }
  }

  // ----- Whole runs

  /** Steps of the mechanism and of its controller, and requests of any kind in between. */
  datatype Event =
    | Move(dt: real)
    | Limit(dt: real)
    | Drive(rightSpeed: real, leftSpeed: real)
    | AskAngles(angles: Angles)
    | AskSpeeds(rightSpeed: real, leftSpeed: real)
    | SetModes(rightSpeedMode: bool, leftSpeedMode: bool)
    | Enable(right: bool, left: bool)

  ghost predicate Secure(s: ArmState) {
    s.Valid() && Safe(s.Current())
  }

  ghost predicate InLimits(m: Motor) {
    m.minAngle <= m.current <= m.maxAngle
  }

  lemma LimitsContain(s: ArmState)
    requires Safe(s.Current())
    ensures var t := s.WithLimits();
            InLimits(t.right) && InLimits(t.left)
  {
  }

  /** They are exactly the angles a motor may take while the other one stays. */
  lemma LimitsExact(s: ArmState, angle: real)
    requires Safe(s.Current())
    ensures var t := s.WithLimits();
            && (t.right.minAngle <= angle <= t.right.maxAngle <==> Safe(Angles(angle, s.left.current)))
            && (t.left.minAngle <= angle <= t.left.maxAngle <==> Safe(Angles(s.right.current, angle)))
            && t.right == s.right.(minAngle := t.right.minAngle, maxAngle := t.right.maxAngle)
            && t.left == s.left.(minAngle := t.left.minAngle, maxAngle := t.left.maxAngle)
  {
  }

  /** A step of the mechanism: each motor goes where its target speed takes it, up to its limits, and the pair is made
      admissible; the speeds measured are those that lead from the old angles to the new ones. */
  lemma MovedIs(s: ArmState, dt: real, root2: real, reached: Angles)
    requires s.Valid() && dt != 0.0 && IsRoot2(root2)
    requires NearestIn(reached.right, s.right.current + s.right.speedTarget * dt, s.right.minAngle, s.right.maxAngle)
    requires NearestIn(reached.left, s.left.current + s.left.speedTarget * dt, s.left.minAngle, s.left.maxAngle)
    ensures var t := s.Moved(dt, root2);
            && t.Current() == SafeMotorAngles(reached, root2)
            && t.right.speedCurrent * dt == t.right.current - s.right.current
            && t.left.speedCurrent * dt == t.left.current - s.left.current
            && t.right == s.right.(current := t.right.current, speedCurrent := t.right.speedCurrent)
            && t.left == s.left.(current := t.left.current, speedCurrent := t.left.speedCurrent)
  {
    hide SafeMotorAngles, IsRoot2, Motor.Moved, Motor.Measured, NearestIn;
    MotorMoves(s.right, reached.right, dt);
    MotorMoves(s.left, reached.left, dt);
    var safe := SafeMotorAngles(reached, root2);
    MotorMeasures(s.right.(current := safe.right), s.right.current, dt);
    MotorMeasures(s.left.(current := safe.left), s.left.current, dt);
  }

  lemma MotorMoves(m: Motor, reached: real, dt: real)
    requires m.Valid() && NearestIn(reached, m.current + m.speedTarget * dt, m.minAngle, m.maxAngle)
    ensures m.Moved(dt) == m.(current := reached)
  {
  }

  lemma MotorMeasures(m: Motor, previous: real, dt: real)
    requires dt != 0.0
    ensures var r := m.Measured(previous, dt);
            r.speedCurrent * dt == m.current - previous && r == m.(speedCurrent := r.speedCurrent)
  {
    QuotientTimes(m.current - previous, dt);
  }

  lemma MovedSecure(s: ArmState, dt: real, root2: real)
    requires s.Valid() && dt != 0.0 && IsRoot2(root2)
    ensures Secure(s.Moved(dt, root2))
  {
    hide SafeMotorAngles, IsRoot2;
    var moved := ArmState(s.right.Moved(dt), s.left.Moved(dt));
    AlwaysSafe(moved.Current(), root2);
  }

  lemma LimitedSecure(s: ArmState, dt: real, root2: real)
    requires Secure(s) && dt != 0.0 && IsRoot2(root2)
    ensures s.WithLimits().Valid()
    ensures var r := s.Limited(dt, root2);
            && Secure(r) && r.Current() == s.Current()
            && InLimits(r.right) && InLimits(r.left)
  {
    hide SafeMotorAngles, Motor.DesiredAngle, IsRoot2;
    LimitsContain(s);
  }

  // ----- Where the motors are sent

  /** The angles a step takes the motors to: those desired, or as far as the speeds sent reach. */
  function Heading(s: ArmState, dt: real): Angles
    requires s.Valid() && dt != 0.0
  {
    Angles(s.right.DesiredAngle(dt), s.left.DesiredAngle(dt))
  }

  /** The admissible pair that the controller picks. */
  function Picked(s: ArmState, dt: real, root2: real): Angles
    requires dt != 0.0 && IsRoot2(root2) && s.WithLimits().Valid()
  {
    SafeMotorAngles(Heading(s.WithLimits(), dt), root2)
  }

  /** The desired values set by the controller are those of an admissible pair, unless a motor is in speed
      mode while disabled and keeps its own. */
  lemma AimSafe(s: ArmState, dt: real, root2: real)
    requires Secure(s) && dt != 0.0 && IsRoot2(root2)
    requires (s.right.speedMode ==> s.right.enabled) && (s.left.speedMode ==> s.left.enabled)
    ensures s.WithLimits().Valid()
    ensures var r := s.Limited(dt, root2);
            var t := s.WithLimits();
            && Safe(Angles(r.right.Aim(dt), r.left.Aim(dt)))
            && Angles(r.right.Aim(dt), r.left.Aim(dt))
               == SafeMotorAngles(Angles(t.right.DesiredAngle(dt), t.left.DesiredAngle(dt)), root2)
  {
    hide SafeMotorAngles, Motor.DesiredAngle, Motor.WithDesiredAngle, Motor.Aim, IsRoot2;
    LimitsContain(s);
    PickedSafe(s, dt, root2);
    LimitedIs(s, dt, root2);
    var t, picked := s.WithLimits(), Picked(s, dt, root2);
    AimReached(t.right, picked.right, dt);
    AimReached(t.left, picked.left, dt);
  }

  lemma AimReached(m: Motor, value: real, dt: real)
    requires dt != 0.0 && (m.speedMode ==> m.enabled)
    ensures m.WithDesiredAngle(value, dt).Aim(dt) == value
  {
    QuotientTimes(value - m.current, dt);
  }

  /** A motor in speed mode gets as close to the angle picked for it as speed and interval allow. */
  lemma SpeedReaches(m: Motor, value: real, dt: real)
    requires dt > 0.0 && m.Valid() && InLimits(m) && m.speedMode
    ensures m.Lowest(dt) <= m.current <= m.Highest(dt)
    ensures m.WithDesiredAngle(value, dt).DesiredAngle(dt) == Clamp(value, m.Lowest(dt), m.Highest(dt))
  {
    hide Motor.ApproachSpeed, Motor.DesiredAngle, Motor.Reach, Motor.WithDesiredAngle, Clamp;
    ReachNonNegative(m, dt);
    if m.enabled {
      var n := m.WithDesiredAngle(value, dt);
      AskedSpeed(m, value, dt);
      SameReach(m, n, dt);
      EnabledGoes(n, value, dt);
    } else {
      DisabledStays(m, value, dt);
    }
  }

  /** What a motor asks for: the desired angle, or in speed mode the angle its desired speed leads to, as far as speed
      and interval allow; a disabled motor stays. */
  lemma DesiredIs(m: Motor, dt: real)
    requires dt > 0.0 && m.Valid() && InLimits(m)
    ensures m.DesiredAngle(dt) ==
            if !m.speedMode then m.desired
            else if !m.enabled then m.current
            else Clamp(m.current + m.speedDesired * dt, Max(m.minAngle, m.current - m.maxSpeed * dt),
                       Min(m.maxAngle, m.current + m.maxSpeed * dt))
  {
    hide Motor.ApproachSpeed, Clamp, Min, Max;
    ProductsKeepSign(m.maxSpeed, dt);
    if m.speedMode && m.enabled {
      EnabledReaches(m, m.current + m.speedDesired * dt, dt, m.maxSpeed * dt);
    }
  }

  /** A motor that is off its interval, and not asked to turn towards it, is sent back to its nearer end as fast as its
      speed allows. */
  lemma OutsideReturns(m: Motor, dt: real)
    requires dt > 0.0 && m.Valid() && m.speedMode && m.enabled
    requires (m.current < m.minAngle && m.speedDesired <= 0.0) || (m.current > m.maxAngle && m.speedDesired >= 0.0)
    ensures m.DesiredAngle(dt) ==
            if m.current < m.minAngle then Min(m.minAngle, m.current + m.maxSpeed * dt)
            else Max(m.maxAngle, m.current - m.maxSpeed * dt)
  {
    hide Motor.ApproachSpeed, Clamp;
    var way := (if m.current < m.minAngle then m.minAngle else m.maxAngle) - m.current;
    BackSpeed(m, dt, way);
    ProductsKeepSign(m.maxSpeed, dt);
    var speed, sent := m.ApproachSpeed(dt), m.DesiredSpeed(dt);
    assert sent == Clamp(speed, -m.maxSpeed, m.maxSpeed);
    hide Motor.DesiredSpeed;
    ClampedTimes(speed, sent, m.maxSpeed, dt, way, m.maxSpeed * dt);
    ClampedWay(way, m.maxSpeed * dt);
  }

  lemma ClampedWay(way: real, reach: real)
    requires reach >= 0.0
    ensures Clamp(way, -reach, reach) == if way > 0.0 then Min(way, reach) else Max(way, -reach)
  {
  }

  lemma BackSpeed(m: Motor, dt: real, way: real)
    requires dt > 0.0 && m.Valid()
    requires (m.current < m.minAngle && m.speedDesired <= 0.0 && way == m.minAngle - m.current)
             || (m.current > m.maxAngle && m.speedDesired >= 0.0 && way == m.maxAngle - m.current)
    ensures m.ApproachSpeed(dt) * dt == way
  {
    QuotientTimes(way, dt);
    if m.speedDesired <= 0.0 {
      ProductMonotone(m.speedDesired, 0.0, dt);
    }
    if m.speedDesired >= 0.0 {
      ProductMonotone(0.0, m.speedDesired, dt);
    }
  }

  lemma AskedSpeed(m: Motor, value: real, dt: real)
    requires dt > 0.0 && m.speedMode && m.enabled
    ensures m.WithDesiredAngle(value, dt) == m.(speedDesired := m.WithDesiredAngle(value, dt).speedDesired)
    ensures m.WithDesiredAngle(value, dt).speedDesired * dt == value - m.current
  {
    QuotientTimes(value - m.current, dt);
  }

  lemma DisabledStays(m: Motor, value: real, dt: real)
    requires dt > 0.0 && m.Valid() && InLimits(m) && m.speedMode && !m.enabled
    ensures m.WithDesiredAngle(value, dt).DesiredAngle(dt) == Clamp(value, m.Lowest(dt), m.Highest(dt))
  {
  }

  lemma ReachNonNegative(m: Motor, dt: real)
    requires dt > 0.0 && m.Valid()
    ensures m.Reach(dt) >= 0.0
  {
    ProductsKeepSign(m.maxSpeed, dt);
  }

  lemma SameReach(m: Motor, n: Motor, dt: real)
    requires n == m.(speedDesired := n.speedDesired)
    ensures n.Reach(dt) == m.Reach(dt)
  {
    SameProduct(n.maxSpeed, m.maxSpeed, dt);
  }

  lemma SameProduct(x: real, y: real, k: real)
    requires x == y
    ensures x * k == y * k
  {
  }

  lemma EnabledGoes(m: Motor, value: real, dt: real)
    requires dt > 0.0 && m.Valid() && InLimits(m) && m.speedMode && m.enabled
    requires m.speedDesired * dt == value - m.current
    ensures m.DesiredAngle(dt) == Clamp(value, m.Lowest(dt), m.Highest(dt))
  {
    hide Motor.ApproachSpeed, Motor.DesiredAngle, Clamp, Min, Max;
    ReachNonNegative(m, dt);
    EnabledReaches(m, value, dt, m.Reach(dt));
  }

  lemma EnabledReaches(m: Motor, value: real, dt: real, reach: real)
    requires dt > 0.0 && m.Valid() && InLimits(m) && m.speedMode && m.enabled
    requires m.speedDesired * dt == value - m.current && reach == m.maxSpeed * dt && reach >= 0.0
    ensures m.DesiredAngle(dt) == Clamp(value, Max(m.minAngle, m.current - reach), Min(m.maxAngle, m.current + reach))
  {
    hide Motor.ApproachSpeed, Clamp, Min, Max;
    var speed, sent := m.ApproachSpeed(dt), m.DesiredSpeed(dt);
    assert sent == Clamp(speed, -m.maxSpeed, m.maxSpeed);
    hide Motor.DesiredSpeed;
    var way := Clamp(value, m.minAngle, m.maxAngle) - m.current;
    ApproachReaches(m, value, dt);
    ClampedTimes(speed, sent, m.maxSpeed, dt, way, reach);
    ClampNested(value, m.current, m.minAngle, m.maxAngle, reach);
  }

  lemma ProductsKeepSign(x: real, y: real)
    requires x >= 0.0 && y >= 0.0
    ensures x * y >= 0.0
  {
    ProductMonotone(0.0, x, y);
  }

  lemma ApproachReaches(m: Motor, value: real, dt: real)
    requires dt > 0.0 && InLimits(m) && m.speedDesired * dt == value - m.current
    ensures m.ApproachSpeed(dt) * dt == Clamp(value, m.minAngle, m.maxAngle) - m.current
  {
    QuotientTimes(m.minAngle - m.current, dt);
    QuotientTimes(m.maxAngle - m.current, dt);
    FactorCompare(m.speedDesired, value - m.current, dt, 0.0);
  }

  lemma ClampNested(value: real, current: real, lo: real, hi: real, reach: real)
    requires lo <= current <= hi && reach >= 0.0
    ensures current + Clamp(Clamp(value, lo, hi) - current, -reach, reach)
            == Clamp(value, Max(lo, current - reach), Min(hi, current + reach))
  {
  }

  lemma ClampedTimes(speed: real, sent: real, limit: real, dt: real, way: real, reach: real)
    requires dt > 0.0 && limit >= 0.0 && sent == Clamp(speed, -limit, limit)
    requires way == speed * dt && reach == limit * dt && reach >= 0.0
    ensures sent * dt == Clamp(way, -reach, reach)
  {
    assert -limit * dt == -reach;
    if speed < -limit {
      ProductStrict(speed, -limit, dt);
    } else {
      ProductMonotone(-limit, speed, dt);
    }
    if limit < speed {
      ProductStrict(limit, speed, dt);
    } else {
      ProductMonotone(speed, limit, dt);
    }
  }

  /** Some angle the speed-mode motor can reach goes together with the angle picked for the other one. */
  predicate Compatible(s: ArmState, dt: real, root2: real)
    requires dt != 0.0 && IsRoot2(root2) && s.WithLimits().Valid()
  {
    var t, picked := s.WithLimits(), Picked(s, dt, root2);
    if s.right.speedMode == s.left.speedMode then true
    else if s.right.speedMode then
      Max(t.right.Lowest(dt), picked.left + DIFFERENCE_MIN) <= Min(t.right.Highest(dt), picked.left + DIFFERENCE_MAX)
    else
      Max(t.left.Lowest(dt), picked.right - DIFFERENCE_MAX) <= Min(t.left.Highest(dt), picked.right - DIFFERENCE_MIN)
  }

  lemma PickedSafe(s: ArmState, dt: real, root2: real)
    requires dt != 0.0 && IsRoot2(root2) && s.WithLimits().Valid()
    ensures Safe(Picked(s, dt, root2))
  {
    hide SafeMotorAngles, IsRoot2;
    AlwaysSafe(Heading(s.WithLimits(), dt), root2);
  }

  /** Where each motor is sent, in either mode. */
  lemma SentTo(m: Motor, value: real, dt: real)
    requires dt > 0.0 && m.Valid() && InLimits(m)
    ensures m.Lowest(dt) <= m.current <= m.Highest(dt) || !m.speedMode
    ensures m.WithDesiredAngle(value, dt).DesiredAngle(dt) ==
            if m.speedMode then Clamp(value, m.Lowest(dt), m.Highest(dt)) else value
  {
    hide Motor.Lowest, Motor.Highest;
    if m.speedMode {
      SpeedReaches(m, value, dt);
    }
  }

  /** The controller sends the motors to an admissible pair of angles exactly if both are in the same mode,
      or the one in speed mode can keep up with the other: the speed limit is applied after the pair has
      been picked. */
  lemma HeadingSafeIff(s: ArmState, dt: real, root2: real)
    requires Secure(s) && dt > 0.0 && IsRoot2(root2)
    ensures s.WithLimits().Valid() && s.Limited(dt, root2).Valid()
    ensures Safe(Heading(s.Limited(dt, root2), dt)) <==> Compatible(s, dt, root2)
  {
    hide SafeMotorAngles, Motor.DesiredAngle, Motor.WithDesiredAngle, Motor.Reach, IsRoot2, Picked;
    LimitsContain(s);
    LimitedSecure(s, dt, root2);
    PickedSafe(s, dt, root2);
    var t, picked := s.WithLimits(), Picked(s, dt, root2);
    SentTo(t.right, picked.right, dt);
    SentTo(t.left, picked.left, dt);
    LimitedIs(s, dt, root2);
  }

  lemma LimitedIs(s: ArmState, dt: real, root2: real)
    requires dt != 0.0 && IsRoot2(root2) && s.WithLimits().Valid()
    ensures var t, picked := s.WithLimits(), Picked(s, dt, root2);
            s.Limited(dt, root2) == ArmState(t.right.WithDesiredAngle(picked.right, dt),
                                             t.left.WithDesiredAngle(picked.left, dt))
  {
    hide SafeMotorAngles, IsRoot2, Motor.WithDesiredAngle;
  }

  /** Two motors in the same mode are always sent to an admissible pair, at any speed limits. */
  lemma SameModeHeadingSafe(s: ArmState, dt: real, root2: real)
    requires Secure(s) && dt > 0.0 && IsRoot2(root2) && s.right.speedMode == s.left.speedMode
    ensures s.WithLimits().Valid() && s.Limited(dt, root2).Valid()
    ensures Safe(Heading(s.Limited(dt, root2), dt))
  {
    HeadingSafeIff(s, dt, root2);
  }

  /** A slow left motor in speed mode does not keep up with a right one sent to its upper end. */
  lemma SlowMotorLags(root2: real) returns (s: ArmState)
    requires IsRoot2(root2)
    ensures Secure(s) && s.WithLimits().Valid() && s.Limited(1.0, root2).Valid()
    ensures !Safe(Heading(s.Limited(1.0, root2), 1.0))
  {
    s := ArmState(Motor(0.5, 1.384, 0.0, 0.0, 0.0, -0.274, 1.384, 1.0, false, true),
                  Motor(-0.6, 0.0, 0.0, 0.0, 0.0, -0.7993, 1.7313, 0.01, true, true));
    HeadingSafeIff(s, 1.0, root2);
    var t := s.WithLimits();
    assert Heading(t, 1.0) == Angles(1.384, -0.6);
    var e := 1.384 + 0.6 - DIFFERENCE_MAX;
    OverRoot2(e, root2, e / root2);
    var shifted := Shifted(Angles(1.384, -0.6), e / root2);
    var f := shifted.right - shifted.left - DIFFERENCE_MIN;
    OverRoot2(f, root2, f / root2);
    assert Picked(s, 1.0, root2) == shifted;
  }

  function Apply(s: ArmState, e: Event, root2: real): (r: ArmState)
    requires Secure(s) && IsRoot2(root2) && (e.Move? || e.Limit? ==> e.dt != 0.0)
    ensures Secure(r)
  {
    match e
    case Move(dt) => MovedSecure(s, dt, root2); s.Moved(dt, root2)
    case Limit(dt) => LimitedSecure(s, dt, root2); s.Limited(dt, root2)
    case Drive(r, l) => ArmState(s.right.(speedTarget := r), s.left.(speedTarget := l))
    case AskAngles(a) => ArmState(s.right.(desired := a.right), s.left.(desired := a.left))
    case AskSpeeds(r, l) => ArmState(s.right.(speedDesired := r), s.left.(speedDesired := l))
    case SetModes(r, l) => ArmState(s.right.(speedMode := r), s.left.(speedMode := l))
    case Enable(r, l) => ArmState(s.right.(enabled := r), s.left.(enabled := l))
  }

  /** A request sets, for each motor on its own, the target speed, the desired angle or speed, the mode or whether it
      is enabled, and nothing else. */
  lemma RequestSets(s: ArmState, e: Event, root2: real)
    requires Secure(s) && IsRoot2(root2) && !e.Move? && !e.Limit?
    ensures var t := Apply(s, e, root2);
            && MotorSet(s.right, t.right, e, if e.Drive? || e.AskSpeeds? then e.rightSpeed else 0.0,
                        if e.AskAngles? then e.angles.right else 0.0,
                        if e.SetModes? then e.rightSpeedMode else if e.Enable? then e.right else false)
            && MotorSet(s.left, t.left, e, if e.Drive? || e.AskSpeeds? then e.leftSpeed else 0.0,
                        if e.AskAngles? then e.angles.left else 0.0,
                        if e.SetModes? then e.leftSpeedMode else if e.Enable? then e.left else false)
  {
    hide IsRoot2;
  }

  predicate MotorSet(m: Motor, n: Motor, e: Event, speed: real, angle: real, flag: bool) {
    && n.current == m.current && n.speedCurrent == m.speedCurrent
    && n.minAngle == m.minAngle && n.maxAngle == m.maxAngle && n.maxSpeed == m.maxSpeed
    && n.speedTarget == (if e.Drive? then speed else m.speedTarget)
    && n.speedDesired == (if e.AskSpeeds? then speed else m.speedDesired)
    && n.desired == (if e.AskAngles? then angle else m.desired)
    && n.speedMode == (if e.SetModes? then flag else m.speedMode)
    && n.enabled == (if e.Enable? then flag else m.enabled)
  }

  ghost predicate Timed(events: seq<Event>) {
    forall e :: e in events ==> (e.Move? || e.Limit? ==> e.dt != 0.0)
  }

  function Run(s: ArmState, events: seq<Event>, root2: real): (r: ArmState)
    requires Secure(s) && IsRoot2(root2) && Timed(events)
    ensures Secure(r)
    decreases |events|
  {
    if events == [] then s else
      assert events[|events| - 1] in events;
      Apply(Run(s, events[..|events| - 1], root2), events[|events| - 1], root2)
  }

  /** Over every run the angles stay in the polygon and no motor's interval is ever empty; whenever the
      controller has just computed the intervals, they contain the angles. */
  lemma {:induction false} ArmAlwaysSecure(s: ArmState, events: seq<Event>, root2: real)
    requires Secure(s) && IsRoot2(root2) && Timed(events)
    ensures var r := Run(s, events, root2);
            && Safe(r.Current())
            && r.right.minAngle <= r.right.maxAngle && r.left.minAngle <= r.left.maxAngle
            && (events != [] && events[|events| - 1].Limit? ==> InLimits(r.right) && InLimits(r.left))
  {
    hide IsRoot2, ArmState.Limited, ArmState.Moved;
    if events != [] && events[|events| - 1].Limit? {
      var e := events[|events| - 1];
      assert e in events;
      LimitedSecure(Run(s, events[..|events| - 1], root2), e.dt, root2);
    }
  }

  /** The same from the start: freshly built motors stand at angle zero between their limits. */
  lemma ArmSecureFromStart(right: Motor, left: Motor, events: seq<Event>, root2: real)
    requires right.Valid() && left.Valid() && right.current == 0.0 == left.current
    requires IsRoot2(root2) && Timed(events)
    ensures Secure(ArmState(right, left))
    ensures var r := Run(ArmState(right, left), events, root2);
            && Safe(r.Current())
            && r.right.minAngle <= r.right.maxAngle && r.left.minAngle <= r.left.maxAngle
            && (events != [] && events[|events| - 1].Limit? ==> InLimits(r.right) && InLimits(r.left))
  {
    hide IsRoot2, Run;
    ArmAlwaysSecure(ArmState(right, left), events, root2);
  }
}
