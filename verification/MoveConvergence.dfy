/** The closed loop of a move on the simulated robot: every step shrinks the position error along its own
    direction and never lets the heading error grow, and the move succeeds within an explicit number of
    steps and stays at its goal. */
module MoveConvergence {
  import opened Geometry
  import opened Options
  import opened RealMath
  import opened Robot
  import opened RobotRuns
  import opened SlotSteps

  // ----- The controller, one coordinate at a time

  /** The part of the distance the controller asks for per time constant: all of it, or what the speed
      limit allows. */
  lemma SpeedFactor(d: real, v: real, f: real)
    requires d >= 0.0 && v > 0.0
    requires f == if d == 0.0 then 1.0 else Min(1.0, v / (d / TAU))
    ensures 0.0 < f <= 1.0 && f * d == Min(d, v * TAU)
  {
    if d > 0.0 {
      var q := v / (d / TAU);
      QuotientTimes(v, d / TAU);
      FactorCompare(q, v, d / TAU, 0.0);
      FactorCompare(q, v, d / TAU, 1.0);
      HalfFactor(q, d, v);
    }
  }

  lemma HalfFactor(q: real, d: real, v: real)
    requires q * (d / TAU) == v
    ensures q * d == v * TAU
  {
    assert q * (d / TAU) == (q * d) / TAU;
  }

  lemma ScaledMin(x: real, y: real, k: real)
    requires k >= 0.0
    ensures Min(x, y) * k == Min(x * k, y * k)
  {
    if y < x {
      ProductMonotone(y, x, k);
    } else {
      ProductMonotone(x, y, k);
    }
  }

  /** The error after a step of length `dt`, under a speed limit. */
  function Shrunk(error: real, limit: real, dt: real): real {
    error - Min(error * (dt / TAU), limit * dt)
  }

  /** The part of the gap that is left when the share `f` is asked for per time constant. */
  function Left(f: real, dt: real): real {
    1.0 - f * (dt / TAU)
  }

  lemma DistanceShrinks(d: real, v: real, f: real, dt: real)
    requires d >= 0.0 && v > 0.0 && 0.0 < dt <= TAU
    requires 0.0 < f <= 1.0 && f * d == Min(d, v * TAU)
    ensures 0.0 <= Left(f, dt) <= 1.0 && Left(f, dt) * d == Shrunk(d, v, dt)
  {
    var r := dt / TAU;
    ProductMonotone(0.0, f, r);
    ProductMonotone(f, 1.0, r);
    Expanded(f, d, r);
    ScaledMin(d, v * TAU, r);
    TauCancels(v, dt);
  }

  lemma Expanded(f: real, d: real, r: real)
    ensures (1.0 - f * r) * d == d - (f * d) * r
  {
  }

  lemma TauCancels(x: real, dt: real)
    ensures x * TAU * (dt / TAU) == x * dt
    ensures x * (dt / TAU) == x / TAU * dt
  {
  }

  /** The heading error after a step. */
  function HeadingAfter(h: real, w: NonNegative, dt: real): real {
    h - dt * Clamp(h / TAU, -(w as real), w)
  }

  lemma HeadingShrinks(h: real, w: NonNegative, dt: real)
    requires w as real > 0.0 && 0.0 < dt <= TAU
    ensures Abs(HeadingAfter(h, w, dt)) == Shrunk(Abs(h), w, dt)
  {
    if h >= 0.0 {
      ForwardTurn(h, w, dt);
    } else {
      ForwardTurn(-h, w, dt);
      MirroredTurn(h, w, dt);
    }
  }

  lemma MirroredTurn(h: real, w: NonNegative, dt: real)
    ensures HeadingAfter(-h, w, dt) == -HeadingAfter(h, w, dt)
  {
    var c := Clamp(h / TAU, -(w as real), w);
    assert Clamp(-h / TAU, -(w as real), w) == -c;
    Negated(dt, c);
  }

  lemma Negated(x: real, y: real)
    ensures x * -y == -(x * y)
  {
  }

  lemma ForwardTurn(h: real, w: NonNegative, dt: real)
    requires h >= 0.0 && w as real > 0.0 && 0.0 < dt <= TAU
    ensures 0.0 <= HeadingAfter(h, w, dt) == Shrunk(h, w, dt)
  {
    hide Min, Clamp;
    var q := h / TAU;
    var c := Min(q, w);
    ClampForward(q, w);
    TauCancels(h, dt);
    ScaledMin(q, w, dt);
    assert 0.0 <= c <= q by { MinBetween(q, w); }
    assert HeadingAfter(h, w, dt) == h - dt * c;
    ShrunkIs(h, w, dt, q * dt, w as real * dt);
    ProductMonotone(dt, TAU, c);
    assert TAU * c <= TAU * q == h;
  }

  lemma ShrunkIs(error: real, limit: real, dt: real, share: real, most: real)
    requires share == error * (dt / TAU) && most == limit * dt
    ensures Shrunk(error, limit, dt) == error - Min(share, most)
  {
  }

  lemma ClampForward(x: real, limit: real)
    requires x >= 0.0 && limit >= 0.0
    ensures Clamp(x, -limit, limit) == Min(x, limit)
  {
  }

  lemma MinBetween(x: real, y: real)
    requires x >= 0.0 && y >= 0.0
    ensures 0.0 <= Min(x, y) <= x
  {
  }

  // ----- One step of the loop

  function Gap(goal: Pose, s: RobotState): Vector {
    goal.at.Minus(s.chassis.pose.at)
  }

  function DistanceTo(m: Maths, goal: Pose, s: RobotState): real {
    m.sqrt(Gap(goal, s).Square())
  }

  function HeadingTo(goal: Pose, s: RobotState): real {
    goal.theta - s.chassis.pose.theta
  }

  function SteeringTo(m: Maths, goal: Pose, s: RobotState, v: real, w: NonNegative): Twist {
    Steering(m, goal.RelativeTo(m, s.chassis.pose), v, w)
  }

  /** A settled chassis: engaged, odometry and gyroscope agree, and the last target has been forwarded. */
  ghost predicate Settled(s: RobotState) {
    && s.chassis.engaged && s.chassis.yaw == s.chassis.pose.theta
    && s.chassis.wheels.target == s.chassis.wheels.desired && s.chassis.wheels.initialized
  }

  ghost predicate IsNear(m: Maths, goal: Pose, s: RobotState) {
    goal.RelativeTo(m, s.chassis.pose).Norm(m) < MOVE_TOLERANCE
  }

  /** A move on its way to `goal`, in the odometry frame. */
  ghost predicate Following(m: Maths, s: RobotState, goal: Pose, v: real, w: NonNegative) {
    && Sorted(s) && Settled(s)
    && Move in s.actions && s.actions[Move].state.Running?
    && s.actions[Move].task.MoveTask? && s.actions[Move].task.goalOdom == goal
    && s.actions[Move].task.linearSpeed == v && s.actions[Move].task.angularSpeed == w
    && s.chassis.wheels.target == WheelsFromTwist(SteeringTo(m, goal, s, v, w))
    && !IsNear(m, goal, s)
  }

  /** A move that has succeeded, with the robot standing still at the goal. */
  ghost predicate Arrived(m: Maths, s: RobotState, goal: Pose) {
    && Sorted(s) && Settled(s)
    && Move !in s.actions && s.ActionStateOf(Move).Succeed?
    && s.chassis.wheels.target == STOPPED
    && IsNear(m, goal, s)
  }

  /** The chassis when the simulated robot has moved, before the actions run. */
  function MovedChassis(m: Maths, s: RobotState, dt: real): ChassisState {
    s.chassis.Read(m, s.chassis.wheels.target, TwistFromWheels(s.chassis.wheels.target).theta, dt)
  }

  lemma MovedBy(m: Maths, s: RobotState, t: Twist, dt: real)
    requires s.chassis.wheels.target == WheelsFromTwist(t) && s.chassis.yaw == s.chassis.pose.theta
    ensures var c := MovedChassis(m, s, dt);
            && c.pose == Pose(s.chassis.pose.at.Plus(RotateBy(m, t.linear, s.chassis.pose.theta).Times(dt)),
                              s.chassis.pose.theta + dt * t.theta)
            && c.yaw == c.pose.theta
            && c.engaged == s.chassis.engaged
            && c.wheels == s.chassis.wheels.(current := s.chassis.wheels.target)
  {
    hide RotateBy, WheelsFromTwist, TwistFromWheels;
    TwistRoundTrip(t);
  }

  /** Steering points straight at the goal: turned into the odometry frame it is a multiple of the gap. */
  lemma SteeringAlongGap(m: Maths, goal: Pose, s: RobotState, v: real, w: NonNegative)
    requires m.Lawful() && v > 0.0
    ensures var t := SteeringTo(m, goal, s, v, w);
            var d := DistanceTo(m, goal, s);
            var f := if d == 0.0 then 1.0 else Min(1.0, v / (d / TAU));
            && RotateBy(m, t.linear, s.chassis.pose.theta) == Gap(goal, s).Times(f / TAU)
            && t.theta == Clamp(HeadingTo(goal, s) / TAU, -(w as real), w)
            && t.theta == Clamp(2.0 * HeadingTo(goal, s), -(w as real), w)
  {
    hide Maths.Lawful;
    var theta := s.chassis.pose.theta;
    var rel := goal.RelativeTo(m, s.chassis.pose);
    var gap := Gap(goal, s);
    RelativeIsDifference(m, goal, s.chassis.pose);
    RelativeDistance(m, goal, s.chassis.pose);
    var d := rel.Distance(m);
    var f := if d == 0.0 then 1.0 else Min(1.0, v / (d / TAU));
    var t := SteeringTo(m, goal, s, v, w);
    DividedTwice(f, rel.at);
    assert t.linear == rel.at.Times(f / TAU);
    RotateScaled(rel.at, f / TAU, m.cos(theta), m.sin(theta));
    TurnedBack(m, gap, theta);
  }

  lemma DividedTwice(f: real, v: Vector)
    ensures Vector(f * v.x / TAU, f * v.y / TAU) == v.Times(f / TAU)
  {
  }

  lemma TurnedBack(m: Maths, v: Vector, theta: real)
    requires m.Lawful()
    ensures RotateBy(m, RotateBy(m, v, -theta), theta) == v
  {
    RotateBack(v, m.cos(theta), m.sin(theta));
  }

  /** The gap after moving for `dt`: scaled down, in the same direction. */
  lemma GapScaled(gap: Vector, at: Vector, goalAt: Vector, f: real, dt: real)
    requires gap == goalAt.Minus(at)
    ensures goalAt.Minus(at.Plus(gap.Times(f / TAU).Times(dt))) == gap.Times(Left(f, dt))
  {
    ScaledCoordinate(gap.x, f, dt);
    ScaledCoordinate(gap.y, f, dt);
  }

  lemma ScaledCoordinate(x: real, f: real, dt: real)
    ensures x - x * (f / TAU) * dt == x * Left(f, dt)
  {
    assert x * (f / TAU) * dt == x * (f * (dt / TAU));
  }

  /** What one step does to the errors. */
  ghost predicate ErrorsShrink(m: Maths, goal: Pose, s: RobotState, t: RobotState, v: real, w: real, dt: real) {
    && (exists k :: 0.0 <= k <= 1.0 && Gap(goal, t) == Gap(goal, s).Times(k))
    && DistanceTo(m, goal, t) == Shrunk(DistanceTo(m, goal, s), v, dt)
    && Abs(HeadingTo(goal, t)) == Shrunk(Abs(HeadingTo(goal, s)), w, dt)
  }

  /** The share of the distance asked for per time constant. */
  function Share(m: Maths, goal: Pose, s: RobotState, v: real): real {
    var d := DistanceTo(m, goal, s);
    if d == 0.0 then 1.0 else Min(1.0, v / (d / TAU))
  }

  lemma MovedGap(m: Maths, s: RobotState, goal: Pose, v: real, w: NonNegative, dt: real)
    requires m.Lawful() && v > 0.0 && Following(m, s, goal, v, w)
    ensures var c := MovedChassis(m, s, dt);
            var after := s.(chassis := c);
            && c.yaw == c.pose.theta && c.engaged && c.wheels == s.chassis.wheels.(current := s.chassis.wheels.target)
            && Gap(goal, after) == Gap(goal, s).Times(Left(Share(m, goal, s, v), dt))
            && HeadingTo(goal, after) == HeadingAfter(HeadingTo(goal, s), w, dt)
  {
    hide Maths.Lawful, WheelsFromTwist, TwistFromWheels, Steering, MovedChassis, RotateBy, Pose.RelativeTo;
    var t := SteeringTo(m, goal, s, v, w);
    MovedBy(m, s, t, dt);
    SteeringAlongGap(m, goal, s, v, w);
    GapScaled(Gap(goal, s), s.chassis.pose.at, goal.at, Share(m, goal, s, v), dt);
  }

  lemma MovedErrors(m: Maths, s: RobotState, goal: Pose, v: real, w: NonNegative, dt: real)
    requires m.Lawful() && v > 0.0 && w as real > 0.0 && 0.0 < dt <= TAU
    requires Following(m, s, goal, v, w)
    ensures ErrorsShrink(m, goal, s, s.(chassis := MovedChassis(m, s, dt)), v, w, dt)
    ensures var c := MovedChassis(m, s, dt);
            c.yaw == c.pose.theta && c.engaged && c.wheels == s.chassis.wheels.(current := s.chassis.wheels.target)
  {
    hide Maths.Lawful, Following, MovedChassis, Gap, Left, HeadingAfter, Shrunk;
    var f := Share(m, goal, s, v);
    var k := Left(f, dt);
    MovedGap(m, s, goal, v, w, dt);
    DistanceNonNegative(m, Gap(goal, s));
    SpeedFactor(DistanceTo(m, goal, s), v, f);
    DistanceShrinks(DistanceTo(m, goal, s), v, f, dt);
    LengthScaled(m, Gap(goal, s), k);
    HeadingShrinks(HeadingTo(goal, s), w, dt);
  }

  lemma DistanceNonNegative(m: Maths, v: Vector)
    requires m.Lawful()
    ensures m.sqrt(v.Square()) >= 0.0
  {
    SquareNonNegative(v);
  }

  lemma SteppedSorted(m: Maths, s: RobotState, sensors: Sensors, dt: real)
    requires Sorted(s)
    ensures Sorted(DummyStepped(s, m, sensors, dt))
  {
    hide Sorted, RobotState.Stepped, TwistFromWheels;
    var wheels := s.chassis.wheels.target;
    ApplySorted(m, s, Step(Readings(wheels, TwistFromWheels(wheels).theta, s.gripper.status.target, sensors), dt));
  }

  /** The simulated robot's step, seen from the chassis and the move slot. */
  lemma DummyStepOfMove(m: Maths, s: RobotState, sensors: Sensors, dt: real)
    requires Sorted(s) && Move in s.actions && s.actions[Move].task.MoveTask?
    ensures var t := DummyStepped(s, m, sensors, dt);
            var read := MovedChassis(m, s, dt);
            var (stepped, twist) := MoveStep(s.actions[Move], m, read.pose);
            && t.chassis == (if twist.Some? then read.WithTargetVelocity(twist.value) else read).Controlled()
            && (if stepped.Done() then Move !in t.actions && Move in t.previous && t.previous[Move] == stepped.state
                else Move in t.actions && t.actions[Move] == Published(stepped, dt))
  {
    hide RobotState.Stepped, ChassisState.Read, TwistFromWheels, MoveStep, Sorted, ChassisState.WithTargetVelocity,
         ChassisState.Controlled;
    var wheels := s.chassis.wheels.target;
    var r := Readings(wheels, TwistFromWheels(wheels).theta, s.gripper.status.target, sensors);
    StepOfSlot(s, m, r, dt, Move);
    StepOfChassis(s, m, r, dt);
  }

  /** The decision a running move takes when the robot has moved to `read`. */
  lemma MoveDecision(m: Maths, a: Action, pose: Pose)
    requires a.state.Running? && a.task.MoveTask?
    ensures MoveStep(a, m, pose) ==
            if a.task.goalOdom.RelativeTo(m, pose).Norm(m) < MOVE_TOLERANCE then (a.(state := Succeed), Some(NO_TWIST))
            else (a, Some(Steering(m, a.task.goalOdom.RelativeTo(m, pose), a.task.linearSpeed, a.task.angularSpeed)))
  {
  }

  lemma ControlledSettles(c: ChassisState, t: Twist)
    requires c.engaged && c.yaw == c.pose.theta
    ensures var d := c.WithTargetVelocity(t).Controlled();
            && d.pose == c.pose && d.yaw == c.yaw && d.engaged
            && d.wheels.target == d.wheels.desired == WheelsFromTwist(t) && d.wheels.initialized
  {
    hide WheelsFromTwist;
  }

  /** What a running move makes of the chassis it finds: it follows on, or stops at the goal. */
  lemma FollowsOrArrives(m: Maths, s: RobotState, t: RobotState, read: ChassisState, a: Action, link: Option<Link>)
    requires a.state.Running? && a.task.MoveTask?
    requires read.engaged && read.yaw == read.pose.theta && Sorted(t)
    requires var (stepped, twist) := MoveStep(a, m, read.pose);
             && twist.Some? && t.chassis == read.WithTargetVelocity(twist.value).Controlled()
             && (if stepped.Done() then Move !in t.actions && Move in t.previous && t.previous[Move] == stepped.state
                 else Move in t.actions && t.actions[Move] == stepped.(link := link))
    ensures t.chassis.pose == read.pose
    ensures if IsNear(m, a.task.goalOdom, t) then Arrived(m, t, a.task.goalOdom)
            else Following(m, t, a.task.goalOdom, a.task.linearSpeed, a.task.angularSpeed)
  {
    hide Steering, Pose.RelativeTo, Pose.Norm, ChassisState.WithTargetVelocity, ChassisState.Controlled, MoveStep;
    MoveDecision(m, a, read.pose);
    ControlledSettles(read, MoveStep(a, m, read.pose).1.value);
  }

  /** One step of the closed loop. */
  lemma LoopStep(m: Maths, s: RobotState, goal: Pose, v: real, w: NonNegative, sensors: Sensors, dt: real)
    requires m.Lawful() && v > 0.0 && w as real > 0.0 && 0.0 < dt <= TAU
    requires Following(m, s, goal, v, w)
    ensures var t := DummyStepped(s, m, sensors, dt);
            && ErrorsShrink(m, goal, s, t, v, w, dt)
            && (if IsNear(m, goal, t) then Arrived(m, t, goal) else Following(m, t, goal, v, w))
  {
    hide Maths.Lawful, Steering, Pose.RelativeTo, Pose.Norm, DummyStepped, MovedChassis, MoveStep, Shrunk,
         ChassisState.WithTargetVelocity, ChassisState.Controlled, WheelsFromTwist;
    var a := s.actions[Move];
    var t := DummyStepped(s, m, sensors, dt);
    var read := MovedChassis(m, s, dt);
    MovedErrors(m, s, goal, v, w, dt);
    SteppedSorted(m, s, sensors, dt);
    DummyStepOfMove(m, s, sensors, dt);
    MoveDecision(m, a, read.pose);
    var stepped := MoveStep(a, m, read.pose).0;
    PublishedLink(stepped, dt);
    FollowsOrArrives(m, s, t, read, a, Published(stepped, dt).link);
    SamePoseSameErrors(m, goal, s, s.(chassis := read), t, v, w, dt);
  }

  lemma PublishedLink(a: Action, dt: real)
    ensures Published(a, dt) == a.(link := Published(a, dt).link)
  {
  }

  lemma SamePoseSameErrors(m: Maths, goal: Pose, s: RobotState, t: RobotState, u: RobotState, v: real, w: real,
                           dt: real)
    requires ErrorsShrink(m, goal, s, t, v, w, dt) && u.chassis.pose == t.chassis.pose
    ensures ErrorsShrink(m, goal, s, u, v, w, dt)
  {
    hide Shrunk;
  }

  /** The first step of a move: whatever the robot was doing, the goal becomes a pose in the odometry
      frame at exactly the distance and heading that were asked for. */
  lemma MoveStarts(m: Maths, s: RobotState, a: Action, sensors: Sensors, dt: real) returns (goal: Pose)
    requires m.Lawful() && Sorted(s) && s.chassis.engaged && Move !in s.actions && a.task.MoveTask?
    ensures var t := DummyStepped(s.Submitted(a, true), m, sensors, dt);
            && DistanceTo(m, goal, t) == a.task.goal.Distance(m) && HeadingTo(goal, t) == a.task.goal.theta
            && (if IsNear(m, goal, t) then Arrived(m, t, goal)
                else Following(m, t, goal, a.task.linearSpeed, a.task.angularSpeed))
  {
    hide Maths.Lawful, Steering, Pose.RelativeTo, Pose.Norm, Pose.Compose, DummyStepped, MoveStep, RotateBy,
         TwistFromWheels, ChassisState.WithTargetVelocity, ChassisState.Controlled, WheelsFromTwist;
    var start := s.Submitted(a, true);
    var t := DummyStepped(start, m, sensors, dt);
    var read := MovedChassis(m, start, dt);
    goal := read.pose.Compose(m, a.task.goal);
    var b := MoveStarted(start.actions[Move], m, read.pose);
    ComposeThenRelative(m, read.pose, a.task.goal);
    RelativeDistance(m, goal, read.pose);
    RelativeHeading(m, goal, read.pose);
    SteppedSorted(m, start, sensors, dt);
    DummyStepOfMove(m, start, sensors, dt);
    StartedStep(start.actions[Move], m, read.pose);
    MoveDecision(m, b, read.pose);
    var stepped := MoveStep(b, m, read.pose).0;
    PublishedLink(stepped, dt);
    FollowsOrArrives(m, start, t, read, b, Published(stepped, dt).link);
  }

  lemma RelativeHeading(m: Maths, goal: Pose, pose: Pose)
    ensures goal.RelativeTo(m, pose).theta == goal.theta - pose.theta
  {
  }

  lemma StartedStep(a: Action, m: Maths, pose: Pose)
    requires a.task.MoveTask? && a.state.Started?
    ensures MoveStep(a, m, pose) == MoveStep(MoveStarted(a, m, pose), m, pose)
  {
    hide Pose.RelativeTo, Pose.Norm, Pose.Compose, Steering;
  }

  // ----- Standing at the goal

  lemma StoppedStays(m: Maths, s: RobotState, dt: real)
    requires s.chassis.wheels.target == STOPPED && s.chassis.yaw == s.chassis.pose.theta
    ensures MovedChassis(m, s, dt).pose == s.chassis.pose && MovedChassis(m, s, dt).yaw == s.chassis.yaw
    ensures MovedChassis(m, s, dt).wheels == s.chassis.wheels.(current := STOPPED)
    ensures MovedChassis(m, s, dt).engaged == s.chassis.engaged
  {
    assert WheelsFromTwist(NO_TWIST) == STOPPED;
    MovedBy(m, s, NO_TWIST, dt);
  }

  lemma ArrivedStays(m: Maths, s: RobotState, goal: Pose, sensors: Sensors, dt: real)
    requires Arrived(m, s, goal)
    ensures Arrived(m, DummyStepped(s, m, sensors, dt), goal)
    ensures DummyStepped(s, m, sensors, dt).chassis.pose == s.chassis.pose
  {
    hide Pose.RelativeTo, Pose.Norm, RobotState.Stepped, ChassisState.Read, TwistFromWheels, Sorted;
    var wheels := s.chassis.wheels.target;
    var r := Readings(wheels, TwistFromWheels(wheels).theta, s.gripper.status.target, sensors);
    SteppedSorted(m, s, sensors, dt);
    StepOfIdleSlot(s, m, r, dt, Move);
    StepOfChassis(s, m, r, dt);
    StoppedStays(m, s, dt);
  }

  // ----- Whole runs

  /** A step of the simulated robot, or a request. */
  datatype Moment = Tick(sensors: Sensors, dt: real) | Request(event: Event)

  function RunDummy(m: Maths, s: RobotState, run: seq<Moment>): RobotState
    decreases |run|
  {
    if run == [] then s
    else
      var before, last := RunDummy(m, s, run[..|run| - 1]), run[|run| - 1];
      if last.Tick? then DummyStepped(before, m, last.sensors, last.dt) else Apply(m, before, last.event)
  }

  /** Steps between `dtMin` and the controller's time constant; any requests to the other modules. */
  ghost predicate Calm(run: seq<Moment>, dtMin: real) {
    forall x :: x in run ==>
      if x.Tick? then dtMin <= x.dt <= TAU
      else x.event.AskGripper? || (x.event.Submit? && x.event.action.SlotOf() != Move)
  }

  function CountTicks(run: seq<Moment>): nat {
    if run == [] then 0 else CountTicks(run[..|run| - 1]) + if run[|run| - 1].Tick? then 1 else 0
  }

  const HALF_TOLERANCE: real := 0.005

  /** What every step takes off an error that is still at least half the tolerance. */
  function Progress(limit: real, dtMin: real): real {
    Min(HALF_TOLERANCE * (dtMin / TAU), limit * dtMin)
  }

  lemma ProgressPositive(limit: real, dtMin: real)
    requires limit > 0.0 && dtMin > 0.0
    ensures Progress(limit, dtMin) > 0.0
  {
    ProductPositive(HALF_TOLERANCE, dtMin / TAU);
    ProductPositive(limit, dtMin);
  }

  lemma ProgressMade(error: real, limit: real, dt: real, dtMin: real)
    requires error >= 0.0 && limit > 0.0 && 0.0 < dtMin <= dt
    ensures Shrunk(error, limit, dt) <= error
    ensures error >= HALF_TOLERANCE ==> Shrunk(error, limit, dt) <= error - Progress(limit, dtMin)
  {
    hide Shrunk, Min;
    var share, least := dt / TAU, dtMin / TAU;
    ShrunkIs(error, limit, dt, error * share, limit * dt);
    MinNonNegative(error * share, limit * dt) by {
      ProductsOrdered(0.0, error, 0.0, share);
      ProductsOrdered(0.0, limit, 0.0, dt);
    }
    if error >= HALF_TOLERANCE {
      MinAtLeast(HALF_TOLERANCE * least, limit * dtMin, error * share, limit * dt) by {
        ProductsOrdered(HALF_TOLERANCE, error, least, share);
        ProductsOrdered(limit, limit, dtMin, dt);
      }
    }
  }

  lemma MinNonNegative(a: real, b: real)
    requires a >= 0.0 && b >= 0.0
    ensures Min(a, b) >= 0.0
  {
  }

  lemma ProductsOrdered(a: real, b: real, x: real, y: real)
    requires 0.0 <= a <= b && 0.0 <= x <= y
    ensures a * x <= b * y
  {
    ProductMonotone(a, b, y);
    ProductMonotone(x, y, a);
  }

  lemma MinAtLeast(a: real, b: real, c: real, d: real)
    requires a <= c && b <= d
    ensures Min(a, b) <= Min(c, d)
  {
  }

  /** An error after `n` steps: below half the tolerance, or down by `n` times the progress. */
  ghost predicate ErrorAfter(error: real, initial: real, progress: real, n: nat) {
    error < HALF_TOLERANCE || error <= initial - n as real * progress
  }

  ghost predicate MoveProgress(m: Maths, s: RobotState, goal: Pose, v: real, w: NonNegative, dtMin: real,
                               d0: real, h0: real, n: nat)
  {
    || Arrived(m, s, goal)
    || (&& Following(m, s, goal, v, w)
        && ErrorAfter(DistanceTo(m, goal, s), d0, Progress(v, dtMin), n)
        && ErrorAfter(Abs(HeadingTo(goal, s)), h0, Progress(w, dtMin), n))
  }

  lemma ErrorAfterStep(error: real, initial: real, limit: real, dt: real, dtMin: real, n: nat)
    requires error >= 0.0 && limit > 0.0 && 0.0 < dtMin <= dt
    requires ErrorAfter(error, initial, Progress(limit, dtMin), n)
    ensures ErrorAfter(Shrunk(error, limit, dt), initial, Progress(limit, dtMin), n + 1)
  {
    hide Progress, Shrunk;
    ProgressMade(error, limit, dt, dtMin);
    var p := Progress(limit, dtMin);
    assert (n + 1) as real * p == n as real * p + p;
  }

  lemma ProgressStep(m: Maths, s: RobotState, goal: Pose, v: real, w: NonNegative, dtMin: real, d0: real, h0: real,
                     n: nat, sensors: Sensors, dt: real)
    requires m.Lawful() && v > 0.0 && w as real > 0.0 && 0.0 < dtMin <= dt <= TAU
    requires MoveProgress(m, s, goal, v, w, dtMin, d0, h0, n)
    ensures MoveProgress(m, DummyStepped(s, m, sensors, dt), goal, v, w, dtMin, d0, h0, n + 1)
  {
    hide Maths.Lawful, Following, Arrived, DummyStepped, Shrunk, Progress, ErrorAfter, IsNear;
    if Arrived(m, s, goal) {
      ArrivedStays(m, s, goal, sensors, dt);
    } else {
      LoopStep(m, s, goal, v, w, sensors, dt);
      DistanceNonNegative(m, Gap(goal, s));
      ErrorAfterStep(DistanceTo(m, goal, s), d0, v, dt, dtMin, n);
      ErrorAfterStep(Abs(HeadingTo(goal, s)), h0, w, dt, dtMin, n);
    }
  }

  lemma RequestKeepsMove(m: Maths, s: RobotState, e: Event)
    requires e.AskGripper? || (e.Submit? && e.action.SlotOf() != Move)
    ensures var t := Apply(m, s, e);
            && t.chassis == s.chassis && t.previous == s.previous
            && (Move in s.actions <==> Move in t.actions) && (Move in s.actions ==> t.actions[Move] == s.actions[Move])
  {
  }

  lemma ProgressKept(m: Maths, s: RobotState, goal: Pose, v: real, w: NonNegative, dtMin: real, d0: real, h0: real,
                     n: nat, e: Event)
    requires e.AskGripper? || (e.Submit? && e.action.SlotOf() != Move)
    requires MoveProgress(m, s, goal, v, w, dtMin, d0, h0, n)
    ensures MoveProgress(m, Apply(m, s, e), goal, v, w, dtMin, d0, h0, n)
  {
    hide Sorted, Steering, Pose.RelativeTo, Pose.Norm, Apply, ErrorAfter, Progress;
    RequestKeepsMove(m, s, e);
    ApplySorted(m, s, e);
  }

  lemma {:induction false} ProgressAlways(m: Maths, s: RobotState, goal: Pose, v: real, w: NonNegative, dtMin: real,
                                          d0: real, h0: real, run: seq<Moment>)
    requires m.Lawful() && v > 0.0 && w as real > 0.0 && dtMin > 0.0 && Calm(run, dtMin)
    requires MoveProgress(m, s, goal, v, w, dtMin, d0, h0, 0)
    ensures MoveProgress(m, RunDummy(m, s, run), goal, v, w, dtMin, d0, h0, CountTicks(run))
    decreases |run|
  {
    hide Maths.Lawful, MoveProgress, DummyStepped, Apply;
    if run != [] {
      var front, last := run[..|run| - 1], run[|run| - 1];
      assert last in run;
      ProgressAlways(m, s, goal, v, w, dtMin, d0, h0, front);
      var before := RunDummy(m, s, front);
      if last.Tick? {
        ProgressStep(m, before, goal, v, w, dtMin, d0, h0, CountTicks(front), last.sensors, last.dt);
      } else {
        ProgressKept(m, before, goal, v, w, dtMin, d0, h0, CountTicks(front), last.event);
      }
    }
  }

  /** Both errors below half the tolerance is near enough. */
  lemma SmallErrorsNear(m: Maths, s: RobotState, goal: Pose)
    requires m.Lawful()
    requires DistanceTo(m, goal, s) < HALF_TOLERANCE && Abs(HeadingTo(goal, s)) < HALF_TOLERANCE
    ensures IsNear(m, goal, s)
  {
    hide Maths.Lawful, Normalize, Pose.RelativeTo;
    RelativeDistance(m, goal, s.chassis.pose);
    RelativeHeading(m, goal, s.chassis.pose);
    NormalizeShrinks(HeadingTo(goal, s));
  }

  /** Enough steps for both errors. */
  function MoveBound(d0: real, h0: real, v: real, w: NonNegative, dtMin: real): nat
    requires v > 0.0 && w as real > 0.0 && dtMin > 0.0
  {
    ProgressPositive(v, dtMin);
    ProgressPositive(w, dtMin);
    var a, b := StepsPast(Abs(d0), Progress(v, dtMin)), StepsPast(Abs(h0), Progress(w, dtMin));
    if a < b then b else a
  }

  /** Near enough means that the distance and the angle still to turn, up to whole turns, add up to less than 0.01. */
  lemma NearIff(m: Maths, s: RobotState, goal: Pose)
    requires m.Lawful()
    ensures IsNear(m, goal, s) <==>
            exists k: int :: DistanceTo(m, goal, s) + Abs(Turned(HeadingTo(goal, s), k)) < 0.01
  {
    hide Maths.Lawful, Normalize, TurnsOff, Pose.RelativeTo, Turned;
    var heading := HeadingTo(goal, s);
    RelativeDistance(m, goal, s.chassis.pose);
    RelativeHeading(m, goal, s.chassis.pose);
    NormalizeTurns(heading);
    assert IsNear(m, goal, s) <==> DistanceTo(m, goal, s) + Abs(Turned(heading, -TurnsOff(heading))) < 0.01;
    forall k: int
      ensures Abs(Normalize(heading)) <= Abs(Turned(heading, k))
    {
      NormalizeNearest(heading, k);
    }
  }

  lemma ErrorGone(error: real, initial: real, progress: real, n: nat)
    requires error >= 0.0 && initial >= 0.0 && progress > 0.0
    requires ErrorAfter(error, initial, progress, n) && n >= StepsPast(initial, progress)
    ensures error < HALF_TOLERANCE
  {
    hide StepsPast;
    PastIff(initial, progress, n);
  }

  /** A move submitted to an engaged robot succeeds: after its first step and as many more as the bound
      says, of any lengths between `dtMin` and the time constant and with any requests to other modules in
      between, it has left its slot with success, and the robot stands within the tolerance of its goal. */
  lemma MoveSucceeds(m: Maths, s: RobotState, a: Action, sensors: Sensors, dt: real, dtMin: real, run: seq<Moment>)
      returns (goal: Pose)
    requires m.Lawful() && Sorted(s) && s.chassis.engaged && Move !in s.actions
    requires a.task.MoveTask? && a.task.linearSpeed > 0.0 && a.task.angularSpeed as real > 0.0
    requires dtMin > 0.0 && Calm(run, dtMin)
    requires CountTicks(run)
             >= MoveBound(a.task.goal.Distance(m), a.task.goal.theta, a.task.linearSpeed, a.task.angularSpeed, dtMin)
    ensures var t := DummyStepped(s.Submitted(a, true), m, sensors, dt);
            && DistanceTo(m, goal, t) == a.task.goal.Distance(m) && HeadingTo(goal, t) == a.task.goal.theta
            && Arrived(m, RunDummy(m, t, run), goal)
  {
    hide Maths.Lawful, DummyStepped, RunDummy, Following, Arrived, Progress, ErrorAfter, StepsPast, Sorted,
         Pose.Distance, RobotState.Submitted, IsNear, DistanceTo, HeadingTo;
    var v, w := a.task.linearSpeed, a.task.angularSpeed;
    var d0, h0 := a.task.goal.Distance(m), Abs(a.task.goal.theta);
    var n := CountTicks(run);
    DistancePositive(m, a.task.goal);
    goal := MoveStarts(m, s, a, sensors, dt);
    var t := DummyStepped(s.Submitted(a, true), m, sensors, dt);
    ErrorInitially(d0, Progress(v, dtMin));
    ErrorInitially(h0, Progress(w, dtMin));
    ProgressAlways(m, t, goal, v, w, dtMin, d0, h0, run);
    var r := RunDummy(m, t, run);
    if !Arrived(m, r, goal) {
      ProgressPositive(v, dtMin);
      ProgressPositive(w, dtMin);
      DistanceOf(m, goal, r);
      ErrorGone(DistanceTo(m, goal, r), d0, Progress(v, dtMin), n);
      ErrorGone(Abs(HeadingTo(goal, r)), h0, Progress(w, dtMin), n);
      SmallErrorsNear(m, r, goal);
      FollowingNotNear(m, r, goal, v, w);
    }
  }

  lemma DistancePositive(m: Maths, p: Pose)
    requires m.Lawful()
    ensures p.Distance(m) >= 0.0
  {
    DistanceNonNegative(m, p.at);
  }

  lemma ErrorInitially(initial: real, progress: real)
    ensures ErrorAfter(initial, initial, progress, 0)
  {
  }

  lemma DistanceOf(m: Maths, goal: Pose, s: RobotState)
    requires m.Lawful()
    ensures DistanceTo(m, goal, s) >= 0.0
  {
    DistanceNonNegative(m, Gap(goal, s));
  }

  lemma FollowingNotNear(m: Maths, s: RobotState, goal: Pose, v: real, w: NonNegative)
    requires Following(m, s, goal, v, w)
    ensures !IsNear(m, goal, s)
  {
  }
}
