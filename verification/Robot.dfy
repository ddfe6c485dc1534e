/** The robot's step: read the sensors, advance the actions, forward changed targets. */
module Robot {
  import opened Geometry
  import opened Options
  import opened RealMath

  // ----- Values that are controlled

  /** A value with its measured, last forwarded and desired setting. */
  datatype Controllable<T(==)> = Controllable(current: T, target: T, desired: T, initialized: bool) {
    predicate Changed() {
      target != desired || !initialized
    }

    function Checked(): Controllable<T> {
      this.(target := desired, initialized := true)
    }
  }

  // ----- Chassis

  datatype ChassisState = ChassisState(
    wheels: Controllable<Wheels>,
    pose: Pose,
    yaw: real,
    bodyTwist: Twist,
    odomTwist: Twist,
    yawRate: real,
    engaged: bool)
  {
    function WithTargetVelocity(t: Twist): ChassisState {
      this.(wheels := wheels.(desired := WheelsFromTwist(t)))
    }

    function WithTargetWheels(w: Wheels): ChassisState {
      this.(wheels := wheels.(desired := w))
    }

    function OdometryUpdated(m: Maths, dt: real): ChassisState {
      var body := TwistFromWheels(wheels.current);
      var odom := Twist(RotateBy(m, body.linear, pose.theta), body.theta);
      this.(bodyTwist := body, odomTwist := odom, pose := pose.Integrate(odom, dt))
    }

    /** The gyroscope is the source of the heading, also for the odometry. */
    function AttitudeUpdated(dt: real): ChassisState {
      this.(yaw := yaw + dt * yawRate, odomTwist := odomTwist.(theta := yawRate),
            pose := pose.(theta := yaw + dt * yawRate))
    }

    function Read(m: Maths, measured: Wheels, rate: real, dt: real): ChassisState {
      this.(wheels := wheels.(current := measured)).OdometryUpdated(m, dt).(yawRate := rate).AttitudeUpdated(dt)
    }

    /** Engaging the motors discards whatever was asked for while they were disengaged. */
    function WithEngaged(value: bool): ChassisState {
      if value == engaged then this
      else if value then this.(engaged := true).WithTargetWheels(STOPPED)
      else this.(engaged := false)
    }

    predicate MustForward() {
      engaged && wheels.Changed()
    }

    function Controlled(): ChassisState {
      if MustForward() then this.(wheels := wheels.Checked()) else this
    }
  }

  class Chassis {
    const maths: Maths
    var wheels: Controllable<Wheels>
    var pose: Pose
    var yaw: real
    var bodyTwist: Twist
    var odomTwist: Twist
    var yawRate: real
    var engaged: bool

    constructor (maths: Maths)
      ensures this.maths == maths
      ensures State() == ChassisState(Controllable(STOPPED, STOPPED, STOPPED, false), Pose(Vector(0.0, 0.0), 0.0),
                                      0.0, NO_TWIST, NO_TWIST, 0.0, true)
    {
      this.maths := maths;
      wheels := Controllable(STOPPED, STOPPED, STOPPED, false);
      pose := Pose(Vector(0.0, 0.0), 0.0);
      yaw, bodyTwist, odomTwist, yawRate, engaged := 0.0, NO_TWIST, NO_TWIST, 0.0, true;
    }

    function State(): ChassisState
      reads this
    {
      ChassisState(wheels, pose, yaw, bodyTwist, odomTwist, yawRate, engaged)
    }

    method SetTargetVelocity(twist: Twist)
      modifies this
      ensures State() == old(State()).WithTargetVelocity(twist)
    {
      wheels := wheels.(desired := WheelsFromTwist(twist));
    }

    method SetTargetWheels(w: Wheels)
      modifies this
      ensures State() == old(State()).WithTargetWheels(w)
    {
      wheels := wheels.(desired := w);
    }

    method Stop()
      modifies this
      ensures State() == old(State()).WithTargetWheels(STOPPED)
    {
      wheels := wheels.(desired := STOPPED);
    }

    method UpdateOdometry(dt: real)
      modifies this
      ensures State() == old(State()).OdometryUpdated(maths, dt)
      ensures pose.theta == old(pose.theta) + TwistFromWheels(wheels.current).theta * dt
    {
      bodyTwist := TwistFromWheels(wheels.current);
      odomTwist := Twist(RotateBy(maths, bodyTwist.linear, pose.theta), bodyTwist.theta);
      pose := pose.Integrate(odomTwist, dt);
    }

    method UpdateAttitude(dt: real)
      modifies this
      ensures State() == old(State()).AttitudeUpdated(dt)
    {
      yaw := yaw + dt * yawRate;
      odomTwist := odomTwist.(theta := yawRate);
      pose := pose.(theta := yaw);
    }
  }

  // ----- Gripper

  datatype GripperStatus = Pause | Open | Close

  datatype Gripper = Gripper(status: Controllable<GripperStatus>, power: Controllable<real>) {
    function Asked(s: GripperStatus, p: real): Gripper {
      Gripper(status.(desired := s), power.(desired := p))
    }

    /** The two checks are joined by a short-circuit "or": when the status has changed, the power is not
        looked at. */
    function Controlled(): Gripper {
      if status.Changed() then this.(status := status.Checked())
      else if power.Changed() then this.(power := power.Checked())
      else this
    }

    predicate MustForward() {
      status.Changed() || power.Changed()
    }
  }

  // ----- Actions

  datatype ActionState = Running | Succeed | Failed | Started | Undefined | Rejected

  datatype Slot = Move | MoveArm | MoveGimbal | MoveServo | PlaySound

  /** The slots in the order in which a step visits them. */
  const SLOTS: seq<Slot> := [Move, MoveArm, MoveGimbal, MoveServo, PlaySound]

  type Positive = x: real | x > 0.0 witness 1.0
  type NonNegative = x: real | x >= 0.0 witness 0.0

  /** The link of an action to the client that asked for it. */
  datatype Link = Link(id: nat, frequency: Positive, deadline: real)

  datatype Task =
    | MoveTask(goal: Pose, goalOdom: Pose, linearSpeed: real, angularSpeed: NonNegative)
    | ArmTask
    | GimbalTask
    | ServoTask(servoId: nat, timeLeft: real)
    | SoundTask(playTimes: nat, remaining: real)
  {
    function SlotOf(): Slot {
      match this
      case MoveTask(_, _, _, _) => Move
      case ArmTask => MoveArm
      case GimbalTask => MoveGimbal
      case ServoTask(_, _) => MoveServo
      case SoundTask(_, _) => PlaySound
    }
  }

  datatype Action = Action(state: ActionState, link: Option<Link>, task: Task) {
    function SlotOf(): Slot {
      task.SlotOf()
    }

    /** The number the client gave the action, if it is to be reported. */
    function Id(): Option<nat> {
      if link.Some? then Some(link.value.id) else None
    }

    predicate Done() {
      state.Failed? || state.Succeed?
    }

    predicate Live() {
      state.Started? || state.Running?
    }
  }

  const SOUND_DURATION: real := 3.0
  const SERVO_MAX_DURATION: real := 5.0
  const TAU: real := 0.5
  const MOVE_TOLERANCE: real := 0.01

  /** What an action learns about the robot while it runs: the distances to the set goals. */
  datatype Sensors = Sensors(arm: real, gimbal: real, servo: nat -> real)

  /** The proportional controller of a move, with both speeds limited. */
  function Steering(m: Maths, rel: Pose, linearSpeed: real, angularSpeed: NonNegative): Twist {
    var d := rel.Distance(m);
    var f := if d == 0.0 then 1.0 else Min(1.0, linearSpeed / (d / TAU));
    Twist(Vector(f * rel.at.x / TAU, f * rel.at.y / TAU), Clamp(rel.theta / TAU, -(angularSpeed as real), angularSpeed))
  }

  /** The goal is fixed in the odometry frame when the move starts. */
  function MoveStarted(a: Action, m: Maths, pose: Pose): (r: Action)
    requires a.task.MoveTask?
    ensures r.task.MoveTask?
  {
    if a.state.Started? then a.(state := Running, task := a.task.(goalOdom := pose.Compose(m, a.task.goal))) else a
  }

  function MoveStep(a: Action, m: Maths, pose: Pose): (r: (Action, Option<Twist>))
    requires a.task.MoveTask?
    ensures r.0.task.MoveTask?
  {
    var b := MoveStarted(a, m, pose);
    if !b.state.Running? then (b, None)
    else
      var rel := b.task.goalOdom.RelativeTo(m, pose);
      if rel.Norm(m) < MOVE_TOLERANCE then (b.(state := Succeed), Some(NO_TWIST))
      else (b, Some(Steering(m, rel, b.task.linearSpeed, b.task.angularSpeed)))
  }

  /** Arm and gimbal moves end when the motors are close enough to where they were sent. */
  function ReachStep(a: Action, distance: real, tolerance: real): Action {
    if a.Live() then a.(state := if distance < tolerance then Succeed else Running) else a
  }

  /** A servo move also ends when its time is up. */
  function ServoStep(a: Action, distance: real, dt: real): Action
    requires a.task.ServoTask?
  {
    var state := if !a.Live() then a.state
                 else if distance < 0.005 || a.task.timeLeft < 0.0 then Succeed
                 else Running;
    a.(state := state, task := a.task.(timeLeft := a.task.timeLeft - dt))
  }

  function SoundStep(a: Action, dt: real): Action
    requires a.task.SoundTask?
  {
    var left := a.task.remaining - dt;
    if left < 0.0 then
      if a.task.playTimes == 0 then a.(state := Succeed, task := a.task.(remaining := left))
      else a.(state := Running, task := SoundTask(a.task.playTimes - 1, SOUND_DURATION))
    else a.(state := Running, task := a.task.(remaining := left))
  }

  /** One step of any action, and the velocity it asks the chassis for. */
  function ActionStep(a: Action, m: Maths, pose: Pose, sensors: Sensors, dt: real): (r: (Action, Option<Twist>))
    ensures r.0.SlotOf() == a.SlotOf() && r.0.link == a.link
    ensures r.1.Some? ==> a.task.MoveTask?
  {
    match a.task
    case MoveTask(_, _, _, _) => MoveStep(a, m, pose)
    case ArmTask => (ReachStep(a, sensors.arm, 0.005), None)
    case GimbalTask => (ReachStep(a, sensors.gimbal, 0.02), None)
    case ServoTask(id, _) => (ServoStep(a, sensors.servo(id), dt), None)
    case SoundTask(_, _) => (SoundStep(a, dt), None)
  }

  // ----- Reports to the client

  /** Everything the robot does that can be seen from outside. */
  datatype Entry =
    | Accepted(slot: Slot, link: Option<nat>)
    | Pushed(slot: Slot, id: nat, state: ActionState)
    | Ended(slot: Slot, state: ActionState)
    | WheelsForwarded(wheels: Wheels)
    | GripperForwarded(status: GripperStatus, power: real)

  predicate MustPush(a: Action, dt: real) {
    a.link.Some? && (a.Done() || a.link.value.deadline - dt <= 0.0)
  }

  /** The callback after each step of a linked action. */
  function Published(a: Action, dt: real): Action {
    if a.link.None? then a
    else
      var l := a.link.value;
      var late := l.deadline - dt;
      a.(link := Some(l.(deadline := if MustPush(a, dt) then late + 1.0 / l.frequency else late)))
  }

  function PushEntries(a: Action, dt: real): seq<Entry> {
    if MustPush(a, dt) then [Pushed(a.SlotOf(), a.link.value.id, a.state)] else []
  }

  // ----- The robot

  datatype RobotState = RobotState(
    chassis: ChassisState,
    gripper: Gripper,
    actions: map<Slot, Action>,
    previous: map<Slot, ActionState>,
    log: seq<Entry>)
  {
    function ActionStateOf(slot: Slot): ActionState {
      if slot in actions then actions[slot].state
      else if slot in previous then previous[slot]
      else Undefined
    }

    /** Advances one slot; an action that is done leaves its slot. */
    function SlotRun(slot: Slot, m: Maths, sensors: Sensors, dt: real): RobotState {
      if slot !in actions then this
      else
        var (stepped, twist) := ActionStep(actions[slot], m, chassis.pose, sensors, dt);
        var a := Published(stepped, dt);
        var c := if twist.Some? then chassis.WithTargetVelocity(twist.value) else chassis;
        var l := log + PushEntries(stepped, dt);
        if a.Done() then
          this.(chassis := c, previous := previous[slot := a.state], actions := actions - {slot},
                log := l + [Ended(slot, a.state)])
        else
          this.(chassis := c, actions := actions[slot := a], log := l)
    }

    /** Advances the slots from the `k`th on. */
    function SlotsRun(k: nat, m: Maths, sensors: Sensors, dt: real): RobotState
      requires k <= |SLOTS|
      decreases |SLOTS| - k
    {
      if k == |SLOTS| then this else SlotRun(SLOTS[k], m, sensors, dt).SlotsRun(k + 1, m, sensors, dt)
    }

    function ChassisControlled(): RobotState {
      if chassis.MustForward() then
        this.(chassis := chassis.Controlled(), log := log + [WheelsForwarded(chassis.wheels.desired)])
      else this
    }

    function GripperControlled(): RobotState {
      var g := gripper.Controlled();
      var forwarded := if gripper.MustForward() then [GripperForwarded(g.status.target, g.power.target)] else [];
      this.(gripper := g, log := log + forwarded)
    }

    /** Right after the sensors have been read. */
    function Sensed(m: Maths, r: Readings, dt: real): RobotState {
      var read := chassis.Read(m, r.wheels, r.yawRate, dt);
      this.(chassis := read, gripper := gripper.(status := gripper.status.(current := r.gripper)))
    }

    function Stepped(m: Maths, r: Readings, dt: real): RobotState {
      Sensed(m, r, dt).SlotsRun(0, m, r.sensors, dt).ChassisControlled().GripperControlled()
    }

    function Submitted(a: Action, permitted: bool): RobotState {
      var slot := a.SlotOf();
      if !permitted || slot in actions then this
      else this.(actions := actions[slot := a.(state := Started)], log := log + [Accepted(slot, a.Id())])
    }
  }

  /** What a step reads. */
  datatype Readings = Readings(wheels: Wheels, yawRate: real, gripper: GripperStatus, sensors: Sensors)

  /** A new robot, as the constructor leaves it. */
  const NEW_ROBOT: RobotState := RobotState(
    ChassisState(Controllable(STOPPED, STOPPED, STOPPED, false), Pose(Vector(0.0, 0.0), 0.0), 0.0, NO_TWIST,
                 NO_TWIST, 0.0, true),
    Gripper(Controllable(Pause, Pause, Pause, false), Controllable(0.5, 0.5, 0.5, false)), map[], map[], [])

  class Robot {
    const chassis: Chassis
    var gripper: Gripper
    var actions: map<Slot, Action>
    var previous: map<Slot, ActionState>
    var log: seq<Entry>
    var time: real
    var lastTimeStep: real

    constructor (maths: Maths)
      ensures fresh(chassis) && chassis.maths == maths
      ensures State() == NEW_ROBOT && time == 0.0 && lastTimeStep == 0.0
    {
      chassis := new Chassis(maths);
      gripper := Gripper(Controllable(Pause, Pause, Pause, false), Controllable(0.5, 0.5, 0.5, false));
      actions, previous, log, time, lastTimeStep := map[], map[], [], 0.0, 0.0;
    }

    function State(): RobotState
      reads this, chassis
    {
      RobotState(chassis.State(), gripper, actions, previous, log)
    }

    method EngageWheelMotors(value: bool)
      modifies this, chassis
      ensures State() == old(State()).(chassis := old(State()).chassis.WithEngaged(value))
    {
      if value != chassis.engaged {
        chassis.engaged := value;
        if value {
          chassis.Stop();
        }
      }
    }

    method ReadChassis(wheels: Wheels, yawRate: real)
      modifies chassis
      ensures chassis.State() == old(chassis.State()).Read(chassis.maths, wheels, yawRate, lastTimeStep)
    {
      hide RotateBy, TwistFromWheels;
      chassis.wheels := chassis.wheels.(current := wheels);
      chassis.UpdateOdometry(lastTimeStep);
      chassis.yawRate := yawRate;
      chassis.UpdateAttitude(lastTimeStep);
    }

    method RunSlot(slot: Slot, sensors: Sensors, dt: real)
      modifies this, chassis
      ensures State() == old(State()).SlotRun(slot, chassis.maths, sensors, dt)
      ensures time == old(time) && lastTimeStep == old(lastTimeStep)
    {
      hide ActionStep, WheelsFromTwist;
      if slot !in actions {
        return;
      }
      var (stepped, twist) := ActionStep(actions[slot], chassis.maths, chassis.pose, sensors, dt);
      if twist.Some? {
        chassis.SetTargetVelocity(twist.value);
      }
      log := log + PushEntries(stepped, dt);
      var a := Published(stepped, dt);
      if a.Done() {
        previous := previous[slot := a.state];
        actions := actions - {slot};
        log := log + [Ended(slot, a.state)];
      } else {
        actions := actions[slot := a];
      }
    }

    method ControlChassis()
      modifies this, chassis
      ensures State() == old(State()).ChassisControlled()
      ensures time == old(time) && lastTimeStep == old(lastTimeStep)
    {
      if chassis.engaged && chassis.wheels.Changed() {
        chassis.wheels := chassis.wheels.Checked();
        log := log + [WheelsForwarded(chassis.wheels.target)];
      }
    }

    method ControlGripper()
      modifies this
      ensures State() == old(State()).GripperControlled()
      ensures time == old(time) && lastTimeStep == old(lastTimeStep)
    {
      var forward := false;
      if gripper.status.Changed() {
        gripper := gripper.(status := gripper.status.Checked());
        forward := true;
      } else if gripper.power.Changed() {
        gripper := gripper.(power := gripper.power.Checked());
        forward := true;
      }
      if forward {
        log := log + [GripperForwarded(gripper.status.target, gripper.power.target)];
      }
    }

    method DoStep(r: Readings, dt: real)
      modifies this, chassis
      ensures State() == old(State()).Stepped(chassis.maths, r, dt)
      ensures time == old(time) + dt && lastTimeStep == dt
    {
      hide ChassisState.Read, RobotState.SlotRun, RobotState.ChassisControlled, RobotState.GripperControlled;
      time := time + dt;
      lastTimeStep := dt;
      ReadChassis(r.wheels, r.yawRate);
      gripper := gripper.(status := gripper.status.(current := r.gripper));
      ghost var start := State();
      for k := 0 to |SLOTS|
        invariant State().SlotsRun(k, chassis.maths, r.sensors, dt) == start.SlotsRun(0, chassis.maths, r.sensors, dt)
        invariant time == old(time) + dt && lastTimeStep == dt
      {
        RunSlot(SLOTS[k], r.sensors, dt);
      }
      ControlChassis();
      ControlGripper();
    }

    /** The simulated robot without physics: wheels and gripper are where they were last sent. */
    method DoDummyStep(sensors: Sensors, dt: real)
      modifies this, chassis
      ensures State() == DummyStepped(old(State()), chassis.maths, sensors, dt)
    {
      hide RobotState.Stepped, TwistFromWheels;
      var wheels := chassis.wheels.target;
      DoStep(Readings(wheels, TwistFromWheels(wheels).theta, gripper.status.target, sensors), dt);
    }

    method SubmitAction(a: Action, permitted: bool) returns (state: ActionState)
      modifies this
      ensures State() == old(State()).Submitted(a, permitted)
      ensures state == if permitted && a.SlotOf() !in old(actions) then Started else Rejected
    {
      var slot := a.SlotOf();
      if !permitted {
        return Rejected;
      }
      if slot in actions {
        return Rejected;
      }
      actions := actions[slot := a.(state := Started)];
      log := log + [Accepted(slot, a.Id())];
      state := actions[slot].state;
    }
  }

  function DummyStepped(s: RobotState, m: Maths, sensors: Sensors, dt: real): RobotState {
    var wheels := s.chassis.wheels.target;
    s.Stepped(m, Readings(wheels, TwistFromWheels(wheels).theta, s.gripper.status.target, sensors), dt)
  }
}
