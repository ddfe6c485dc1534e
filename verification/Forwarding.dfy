/** Which wheel and gripper commands reach the hardware. */
module Forwarding {
  import opened Geometry
  import opened Options
  import opened Robot
  import opened RobotRuns

  // ----- Wheels: what was last forwarded

  function LastWheels(log: seq<Entry>): Option<Wheels>
    decreases |log|
  {
    if log == [] then None
    else if log[|log| - 1].WheelsForwarded? then Some(log[|log| - 1].wheels)
    else LastWheels(log[..|log| - 1])
  }

  function LastGripper(log: seq<Entry>): Option<(GripperStatus, real)>
    decreases |log|
  {
    if log == [] then None
    else if log[|log| - 1].GripperForwarded? then Some((log[|log| - 1].status, log[|log| - 1].power))
    else LastGripper(log[..|log| - 1])
  }

  lemma LastNext(log: seq<Entry>, e: Entry)
    ensures LastWheels(log + [e]) == if e.WheelsForwarded? then Some(e.wheels) else LastWheels(log)
    ensures LastGripper(log + [e]) == if e.GripperForwarded? then Some((e.status, e.power)) else LastGripper(log)
  {
    assert (log + [e])[..|log|] == log;
  }

  /** The targets are what was last forwarded, from the first forwarding on. */
  ghost predicate TargetsForwarded(s: RobotState) {
    && (s.chassis.wheels.initialized <==> LastWheels(s.log).Some?)
    && (LastWheels(s.log).Some? ==> LastWheels(s.log).value == s.chassis.wheels.target)
    && (s.gripper.status.initialized <==> LastGripper(s.log).Some?)
    && (LastGripper(s.log).Some? ==> LastGripper(s.log).value == (s.gripper.status.target, s.gripper.power.target))
  }

  /** What a slot leaves alone. */
  lemma SlotRunTargets(s: RobotState, slot: Slot, m: Maths, sensors: Sensors, dt: real)
    ensures var t := s.SlotRun(slot, m, sensors, dt);
            && t.chassis.wheels.target == s.chassis.wheels.target
            && t.chassis.wheels.initialized == s.chassis.wheels.initialized
            && t.chassis.engaged == s.chassis.engaged && t.gripper == s.gripper
            && LastWheels(t.log) == LastWheels(s.log) && LastGripper(t.log) == LastGripper(s.log)
  {
    hide ActionStep, LastWheels, LastGripper, WheelsFromTwist;
    if slot in s.actions {
      var stepped := ActionStep(s.actions[slot], m, s.chassis.pose, sensors, dt).0;
      var pushes := PushEntries(stepped, dt);
      if MustPush(stepped, dt) {
        LastNext(s.log, pushes[0]);
      } else {
        assert s.log + pushes == s.log;
      }
      LastNext(s.log + pushes, Ended(slot, stepped.state));
    }
  }

  lemma {:induction false} SlotsRunTargets(s: RobotState, k: nat, m: Maths, sensors: Sensors, dt: real)
    requires k <= |SLOTS|
    ensures var t := s.SlotsRun(k, m, sensors, dt);
            && t.chassis.wheels.target == s.chassis.wheels.target
            && t.chassis.wheels.initialized == s.chassis.wheels.initialized
            && t.chassis.engaged == s.chassis.engaged && t.gripper == s.gripper
            && LastWheels(t.log) == LastWheels(s.log) && LastGripper(t.log) == LastGripper(s.log)
    decreases |SLOTS| - k
  {
    hide RobotState.SlotRun, LastWheels, LastGripper;
    if k < |SLOTS| {
      SlotRunTargets(s, SLOTS[k], m, sensors, dt);
      SlotsRunTargets(s.SlotRun(SLOTS[k], m, sensors, dt), k + 1, m, sensors, dt);
    }
  }

  lemma ControlledTargets(s: RobotState)
    requires TargetsForwarded(s)
    ensures TargetsForwarded(s.ChassisControlled().GripperControlled())
  {
    hide LastWheels, LastGripper;
    var c := s.ChassisControlled();
    if s.chassis.MustForward() {
      LastNext(s.log, WheelsForwarded(s.chassis.wheels.desired));
    }
    var g := c.gripper.Controlled();
    if c.gripper.MustForward() {
      LastNext(c.log, GripperForwarded(g.status.target, g.power.target));
    } else {
      assert c.log + [] == c.log;
    }
  }

  lemma SteppedTargets(s: RobotState, m: Maths, r: Readings, dt: real)
    requires TargetsForwarded(s)
    ensures TargetsForwarded(s.Stepped(m, r, dt))
  {
    hide LastWheels, LastGripper, RobotState.SlotsRun, RobotState.ChassisControlled, RobotState.GripperControlled;
    var read := s.Sensed(m, r, dt);
    SlotsRunTargets(read, 0, m, r.sensors, dt);
    ControlledTargets(read.SlotsRun(0, m, r.sensors, dt));
  }

  lemma {:induction false} TargetsAlwaysForwarded(m: Maths, s: RobotState, events: seq<Event>)
    requires TargetsForwarded(s)
    ensures TargetsForwarded(Run(m, s, events))
    decreases |events|
  {
    hide LastWheels, LastGripper, RobotState.Stepped, WheelsFromTwist;
    if events != [] {
      var before := Run(m, s, events[..|events| - 1]);
      TargetsAlwaysForwarded(m, s, events[..|events| - 1]);
      match events[|events| - 1] {
        case Step(r, dt) => SteppedTargets(before, m, r, dt);
        case Submit(a, permitted) => LastNext(before.log, Accepted(a.SlotOf(), a.Id()));
        case Drive(t) =>
        case SpinWheels(w) =>
        case Engage(value) =>
        case AskGripper(status, power) =>
      }
    }
  }

  /** After every step with engaged motors, the wheel target last forwarded is the desired one. */
  lemma WheelsUpToDate(m: Maths, s: RobotState, events: seq<Event>, r: Readings, dt: real)
    requires TargetsForwarded(s)
    ensures var t := Run(m, s, events + [Step(r, dt)]);
            t.chassis.engaged ==> LastWheels(t.log) == Some(t.chassis.wheels.desired)
  {
    hide LastWheels, RobotState.SlotsRun, ChassisState.Read;
    var all := events + [Step(r, dt)];
    TargetsAlwaysForwarded(m, s, all);
    assert all[..|all| - 1] == events;
  }

  // ----- Wheels: commands given while the motors are disengaged

  predicate IsWheelCommand(e: Event) {
    e.Drive? || e.SpinWheels?
  }

  function EngagedAfter(engaged: bool, events: seq<Event>): bool
    decreases |events|
  {
    if events == [] then engaged
    else if events[|events| - 1].Engage? then events[|events| - 1].value
    else EngagedAfter(engaged, events[..|events| - 1])
  }

  /** The run without the wheel commands given while the motors are disengaged. */
  function Heeded(engaged: bool, events: seq<Event>): seq<Event>
    decreases |events|
  {
    if events == [] then []
    else
      var front, e := events[..|events| - 1], events[|events| - 1];
      Heeded(engaged, front) + if IsWheelCommand(e) && !EngagedAfter(engaged, front) then [] else [e]
  }

  /** Two robots that differ at most in the wheel speeds desired while disengaged. */
  ghost predicate Alike(s: RobotState, t: RobotState) {
    && t == s.(chassis := s.chassis.(wheels := s.chassis.wheels.(desired := t.chassis.wheels.desired)))
    && (s.chassis.engaged ==> s == t)
  }

  lemma SlotRunAlike(s: RobotState, t: RobotState, slot: Slot, m: Maths, sensors: Sensors, dt: real)
    requires Alike(s, t)
    ensures Alike(s.SlotRun(slot, m, sensors, dt), t.SlotRun(slot, m, sensors, dt))
  {
    hide ActionStep, WheelsFromTwist, PushEntries, Published;
  }

  lemma {:induction false} SlotsRunAlike(s: RobotState, t: RobotState, k: nat, m: Maths, sensors: Sensors, dt: real)
    requires k <= |SLOTS| && Alike(s, t)
    ensures Alike(s.SlotsRun(k, m, sensors, dt), t.SlotsRun(k, m, sensors, dt))
    decreases |SLOTS| - k
  {
    hide RobotState.SlotRun, Alike;
    if k < |SLOTS| {
      SlotRunAlike(s, t, SLOTS[k], m, sensors, dt);
      SlotsRunAlike(s.SlotRun(SLOTS[k], m, sensors, dt), t.SlotRun(SLOTS[k], m, sensors, dt), k + 1, m, sensors, dt);
    }
  }

  lemma SteppedAlike(s: RobotState, t: RobotState, m: Maths, r: Readings, dt: real)
    requires Alike(s, t)
    ensures Alike(s.Stepped(m, r, dt), t.Stepped(m, r, dt))
  {
    hide RobotState.SlotsRun, RotateBy, TwistFromWheels;
    SlotsRunAlike(
      s.Sensed(m, r, dt),
      t.Sensed(m, r, dt),
      0, m, r.sensors, dt);
  }

  lemma {:induction false} EngagedIs(m: Maths, s: RobotState, events: seq<Event>)
    ensures Run(m, s, events).chassis.engaged == EngagedAfter(s.chassis.engaged, events)
    decreases |events|
  {
    hide RobotState.SlotsRun, WheelsFromTwist;
    if events != [] {
      EngagedIs(m, s, events[..|events| - 1]);
      var e := events[|events| - 1];
      if e.Step? {
        var before := Run(m, s, events[..|events| - 1]);
        var read := before.Sensed(m, e.readings, e.dt);
        SlotsRunTargets(read, 0, m, e.readings.sensors, e.dt);
      }
    }
  }

  lemma OneMoreAlike(m: Maths, s: RobotState, t: RobotState, e: Event)
    requires Alike(s, t)
    ensures Alike(Apply(m, s, e), Apply(m, t, e))
  {
    hide RobotState.Stepped, WheelsFromTwist;
    if e.Step? {
      SteppedAlike(s, t, m, e.readings, e.dt);
    }
  }

  /** Wheel commands given while the motors are disengaged leave no trace: leaving them out changes
      neither the log of forwarded commands nor, once the motors are engaged, anything about the robot. */
  lemma {:induction false} DisengagedCommandsDropped(m: Maths, s: RobotState, events: seq<Event>)
    ensures var full, heeded := Run(m, s, events), Run(m, s, Heeded(s.chassis.engaged, events));
            Alike(full, heeded) && full.log == heeded.log
    decreases |events|
  {
    hide Apply, Alike;
    if events == [] {
      AlikeSelf(s);
    } else {
      var front, e := events[..|events| - 1], events[|events| - 1];
      var heeded := Heeded(s.chassis.engaged, front);
      DisengagedCommandsDropped(m, s, front);
      EngagedIs(m, s, front);
      var full, less := Run(m, s, front), Run(m, s, heeded);
      if IsWheelCommand(e) && !EngagedAfter(s.chassis.engaged, front) {
        assert heeded + [] == heeded;
        DroppedAlike(m, full, less, e);
      } else {
        assert (heeded + [e])[..|heeded|] == heeded;
        OneMoreAlike(m, full, less, e);
      }
      AlikeLogs(Run(m, s, events), Run(m, s, Heeded(s.chassis.engaged, events)));
    }
  }

  lemma AlikeSelf(s: RobotState)
    ensures Alike(s, s)
  {
  }

  lemma AlikeLogs(s: RobotState, t: RobotState)
    requires Alike(s, t)
    ensures s.log == t.log
  {
  }

  lemma DroppedAlike(m: Maths, s: RobotState, t: RobotState, e: Event)
    requires Alike(s, t) && IsWheelCommand(e) && !s.chassis.engaged
    ensures Alike(Apply(m, s, e), t)
  {
    hide WheelsFromTwist;
  }

  // ----- Gripper

  lemma GripperAfterStep(s: RobotState, m: Maths, r: Readings, dt: real)
    ensures s.Stepped(m, r, dt).gripper == s.gripper.(status := s.gripper.status.(current := r.gripper)).Controlled()
  {
    hide RobotState.SlotsRun, ChassisState.Read;
    var read := s.Sensed(m, r, dt);
    SlotsRunTargets(read, 0, m, r.sensors, dt);
  }

  /** The pair last forwarded to the gripper is the desired one. */
  ghost predicate GripperUpToDate(s: RobotState) {
    LastGripper(s.log) == Some((s.gripper.status.desired, s.gripper.power.desired))
  }

  /** One step brings the gripper up to date unless status and power have both changed: then the old power
      is forwarded with the new status. */
  lemma GripperAfterOneStepIff(s: RobotState, m: Maths, r: Readings, dt: real)
    requires TargetsForwarded(s)
    ensures GripperUpToDate(s.Stepped(m, r, dt)) <==>
            !(s.gripper.status.Changed() && s.gripper.power.target != s.gripper.power.desired)
  {
    hide LastWheels, LastGripper, RobotState.Stepped;
    SteppedTargets(s, m, r, dt);
    GripperAfterStep(s, m, r, dt);
  }

  /** Asked to close at full power, a new robot first closes at the power it was built with. */
  lemma FirstPowerLags(m: Maths, r: Readings, dt: real)
    ensures var t := NEW_ROBOT.(gripper := NEW_ROBOT.gripper.Asked(Close, 1.0)).Stepped(m, r, dt);
            !GripperUpToDate(t) && LastGripper(t.log) == Some((Close, 0.5))
  {
    hide RobotState.Stepped;
    var s := NEW_ROBOT.(gripper := NEW_ROBOT.gripper.Asked(Close, 1.0));
    SteppedTargets(s, m, r, dt);
    GripperAfterStep(s, m, r, dt);
    GripperAfterOneStepIff(s, m, r, dt);
  }

  /** Without a new command two steps are always enough, whatever else happens in between. */
  lemma GripperAfterTwoSteps(s: RobotState, m: Maths, r: Readings, dt: real, between: seq<Event>, r': Readings,
                             dt': real)
    requires TargetsForwarded(s)
    requires forall e :: e in between ==> !e.AskGripper? && !e.Step?
    ensures GripperUpToDate(Run(m, s.Stepped(m, r, dt), between).Stepped(m, r', dt'))
  {
    hide LastWheels, LastGripper, RobotState.Stepped;
    var t := s.Stepped(m, r, dt);
    SteppedTargets(s, m, r, dt);
    GripperAfterStep(s, m, r, dt);
    GripperKept(m, t, between);
    TargetsAlwaysForwarded(m, t, between);
    GripperAfterOneStepIff(Run(m, t, between), m, r', dt');
  }

  lemma {:induction false} GripperKept(m: Maths, s: RobotState, events: seq<Event>)
    requires forall e :: e in events ==> !e.AskGripper? && !e.Step?
    ensures Run(m, s, events).gripper == s.gripper
    decreases |events|
  {
    hide WheelsFromTwist;
    if events != [] {
      assert events[|events| - 1] in events;
      GripperKept(m, s, events[..|events| - 1]);
    }
  }
}
