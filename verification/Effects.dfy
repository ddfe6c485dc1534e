/** What single events do to a robot: how a step reads the chassis, what a request sets, in which order a step acts,
    and when it forwards commands. */
module Effects {
  import opened Forwarding
  import opened Geometry
  import opened Options
  import opened Robot
  import opened RobotRuns
  import opened SlotSteps

  // ----- Reading the chassis

  /** The heading comes from the gyroscope alone, also when the wheels turn otherwise; the position moves by what the
      wheels say, turned by the heading before the step. */
  lemma ReadIs(c: ChassisState, m: Maths, measured: Wheels, rate: real, dt: real)
    ensures var r := c.Read(m, measured, rate, dt);
            var body := TwistFromWheels(measured);
            var cos, sin := m.cos(c.pose.theta), m.sin(c.pose.theta);
            && r.yaw == c.yaw + dt * rate && r.pose.theta == c.yaw + dt * rate
            && r.yawRate == rate && r.odomTwist.theta == rate
            && r.bodyTwist == body
            && r.odomTwist.linear.x == body.linear.x * cos - body.linear.y * sin
            && r.odomTwist.linear.y == body.linear.x * sin + body.linear.y * cos
            && r.pose.at.x == c.pose.at.x + r.odomTwist.linear.x * dt
            && r.pose.at.y == c.pose.at.y + r.odomTwist.linear.y * dt
            && r.wheels == c.wheels.(current := measured) && r.engaged == c.engaged
  {
    hide TwistFromWheels;
  }

  // ----- Requests

  /** A request sets desired values and nothing else: the wheel speeds of a motion or as given, or the gripper's
      status and power; engaging the motors anew asks them to stand still. */
  lemma RequestSets(m: Maths, s: RobotState, e: Event)
    requires !e.Step? && !e.Submit?
    ensures var t := Apply(m, s, e);
            && t.actions == s.actions && t.previous == s.previous && t.log == s.log
            && t.chassis == s.chassis.(engaged := t.chassis.engaged,
                                       wheels := s.chassis.wheels.(desired := t.chassis.wheels.desired))
            && t.gripper.status == s.gripper.status.(desired := if e.AskGripper? then e.status
                                                                else s.gripper.status.desired)
            && t.gripper.power == s.gripper.power.(desired := if e.AskGripper? then e.power
                                                              else s.gripper.power.desired)
            && t.chassis.engaged == (if e.Engage? then e.value else s.chassis.engaged)
            && t.chassis.wheels.desired ==
               (match e
                case Drive(twist) => WheelsFromTwist(twist)
                case SpinWheels(w) => w
                case Engage(value) =>
                  if value && !s.chassis.engaged then Wheels(0.0, 0.0, 0.0, 0.0) else s.chassis.wheels.desired
                case AskGripper(_, _) => s.chassis.wheels.desired)
  {
    hide WheelsFromTwist;
  }

  // ----- The order of a step

  /** Moves report first, then the arm, the gimbal, servos and sounds; wheel commands come after them, and then the
      gripper.  Requests are accepted outside of steps. */
  function Turn(e: Entry): nat {
    match e
    case Accepted(_, _) => 7
    case Pushed(slot, _, _) => TurnOf(slot)
    case Ended(slot, _) => TurnOf(slot)
    case WheelsForwarded(_) => 5
    case GripperForwarded(_, _) => 6
  }

  function TurnOf(slot: Slot): nat {
    match slot case Move => 0 case MoveArm => 1 case MoveGimbal => 2 case MoveServo => 3 case PlaySound => 4
  }

  ghost predicate InTurn(entries: seq<Entry>, first: nat, last: nat) {
    && (forall e :: e in entries ==> first <= Turn(e) <= last)
    && (forall i, j :: 0 <= i < j < |entries| ==> Turn(entries[i]) <= Turn(entries[j]))
  }

  lemma InTurnAppend(a: seq<Entry>, b: seq<Entry>, first: nat, middle: nat, last: nat)
    requires first <= middle <= last && InTurn(a, first, middle) && InTurn(b, middle, last)
    ensures InTurn(a + b, first, last)
  {
    var all := a + b;
    assert forall e :: e in all <==> e in a || e in b;
    forall i, j | 0 <= i < j < |all|
      ensures Turn(all[i]) <= Turn(all[j])
    {
      if i < |a| <= j {
        assert all[i] in a && all[j] in b;
      }
    }
  }

  lemma InTurnWider(a: seq<Entry>, first: nat, last: nat, first': nat, last': nat)
    requires InTurn(a, first, last) && first' <= first && last <= last'
    ensures InTurn(a, first', last')
  {
  }

  lemma SlotEntriesInTurn(stepped: Action, k: nat, dt: real)
    requires k < |SLOTS| && stepped.SlotOf() == SLOTS[k]
    ensures InTurn(SlotEntries(stepped, SLOTS[k], dt), k, k)
  {
    assert TurnOf(SLOTS[k]) == k;
  }

  lemma SlotRunAdds(s: RobotState, k: nat, m: Maths, sensors: Sensors, dt: real) returns (added: seq<Entry>)
    requires k < |SLOTS| && Sorted(s)
    ensures s.SlotRun(SLOTS[k], m, sensors, dt).log == s.log + added && InTurn(added, k, k)
  {
    hide ActionStep, SlotEntries, InTurn;
    if SLOTS[k] in s.actions {
      var stepped := ActionStep(s.actions[SLOTS[k]], m, s.chassis.pose, sensors, dt).0;
      SlotRunLog(s, SLOTS[k], m, sensors, dt);
      SlotEntriesInTurn(stepped, k, dt);
      added := SlotEntries(stepped, SLOTS[k], dt);
    } else {
      added := [];
      assert s.log + [] == s.log;
      NothingInTurn(k, k);
    }
  }

  lemma NothingInTurn(first: nat, last: nat)
    ensures InTurn([], first, last)
  {
  }

  lemma {:induction false} SlotsRunAdd(s: RobotState, k: nat, m: Maths, sensors: Sensors, dt: real)
    returns (added: seq<Entry>)
    requires k <= |SLOTS| && Sorted(s)
    ensures s.SlotsRun(k, m, sensors, dt).log == s.log + added && InTurn(added, k, 4)
    decreases |SLOTS| - k
  {
    hide RobotState.SlotRun, InTurn, Sorted;
    if k == |SLOTS| {
      added := [];
      assert s.log + [] == s.log;
      NothingInTurn(k, 4);
    } else {
      var here := SlotRunAdds(s, k, m, sensors, dt);
      SlotRunSorted(s, SLOTS[k], m, sensors, dt);
      var rest := SlotsRunAdd(s.SlotRun(SLOTS[k], m, sensors, dt), k + 1, m, sensors, dt);
      InTurnWider(rest, k + 1, 4, k, 4);
      InTurnAppend(here, rest, k, k, 4);
      added := here + rest;
      assert s.log + here + rest == s.log + added;
    }
  }

  // ----- What a step forwards

  /** What controlling the chassis and the gripper adds. */
  lemma ControlAdds(s: RobotState) returns (w: seq<Entry>, g: seq<Entry>)
    ensures var t := s.ChassisControlled().GripperControlled();
            var wheels, status, power := s.chassis.wheels, s.gripper.status, s.gripper.power;
            && t.log == s.log + w + g && t.chassis.wheels.desired == wheels.desired
            && w == (if s.chassis.engaged && (wheels.target != wheels.desired || !wheels.initialized)
                     then [WheelsForwarded(wheels.desired)] else [])
            && g == (if status.target != status.desired || !status.initialized
                        || power.target != power.desired || !power.initialized
                     then [GripperForwarded(t.gripper.status.target, t.gripper.power.target)] else [])
  {
    var c := s.ChassisControlled();
    w := if s.chassis.MustForward() then [WheelsForwarded(s.chassis.wheels.desired)] else [];
    assert c.log == s.log + w;
    g := if c.gripper.MustForward()
         then [GripperForwarded(c.gripper.Controlled().status.target, c.gripper.Controlled().power.target)] else [];
  }

  /** A step first lets the actions report, slot by slot, and then forwards: the desired wheel speeds exactly if the
      motors are engaged and the speeds differ from those last set, or none were set yet; and the gripper's command
      exactly if its status or its power differs, or was not set yet. */
  lemma StepForwards(s: RobotState, m: Maths, r: Readings, dt: real)
    returns (reports: seq<Entry>, w: seq<Entry>, g: seq<Entry>)
    requires Sorted(s)
    ensures var t := s.Stepped(m, r, dt);
            var wheels, status, power := s.chassis.wheels, s.gripper.status, s.gripper.power;
            && t.log == s.log + reports + w + g && InTurn(reports, 0, 4)
            && w == (if s.chassis.engaged && (wheels.target != t.chassis.wheels.desired || !wheels.initialized)
                     then [WheelsForwarded(t.chassis.wheels.desired)] else [])
            && g == (if status.target != status.desired || !status.initialized
                        || power.target != power.desired || !power.initialized
                     then [GripperForwarded(t.gripper.status.target, t.gripper.power.target)] else [])
  {
    hide RobotState.SlotsRun, ChassisState.Read, RobotState.ChassisControlled, RobotState.GripperControlled, InTurn;
    var read := s.Sensed(m, r, dt);
    reports := SlotsRunAdd(read, 0, m, r.sensors, dt);
    SlotsRunTargets(read, 0, m, r.sensors, dt);
    ReadKeeps(s.chassis, m, r, dt);
    w, g := ControlAdds(read.SlotsRun(0, m, r.sensors, dt));
  }

  lemma ReadKeeps(c: ChassisState, m: Maths, r: Readings, dt: real)
    ensures var next := c.Read(m, r.wheels, r.yawRate, dt);
            next.wheels.target == c.wheels.target && next.wheels.initialized == c.wheels.initialized
            && next.engaged == c.engaged
  {
    hide TwistFromWheels, RotateBy;
  }

  /** No wheel command is forwarded twice in a row. */
  ghost predicate NoRepeats(log: seq<Entry>) {
    forall i :: 0 <= i < |log| && log[i].WheelsForwarded? ==> LastWheels(log[..i]) != Some(log[i].wheels)
  }

  lemma NoRepeatsNext(log: seq<Entry>, e: Entry)
    requires NoRepeats(log) && (e.WheelsForwarded? ==> LastWheels(log) != Some(e.wheels))
    ensures NoRepeats(log + [e])
  {
    hide LastWheels;
    var all := log + [e];
    forall i | 0 <= i < |all| && all[i].WheelsForwarded?
      ensures LastWheels(all[..i]) != Some(all[i].wheels)
    {
      if i < |log| {
        assert all[..i] == log[..i];
      } else {
        assert all[..i] == log;
      }
    }
  }

  lemma {:induction false} NoRepeatsReports(log: seq<Entry>, reports: seq<Entry>)
    requires NoRepeats(log) && InTurn(reports, 0, 4)
    ensures NoRepeats(log + reports) && LastWheels(log + reports) == LastWheels(log)
    decreases |reports|
  {
    hide NoRepeats, LastWheels;
    if reports == [] {
      assert log + reports == log;
    } else {
      var front, e := reports[..|reports| - 1], reports[|reports| - 1];
      assert e in reports && forall x :: x in front ==> x in reports;
      NoRepeatsReports(log, front);
      NoRepeatsNext(log + front, e);
      LastNext(log + front, e);
      assert log + front + [e] == log + reports;
    }
  }

  lemma StepNoRepeats(s: RobotState, m: Maths, r: Readings, dt: real)
    requires Sorted(s) && TargetsForwarded(s) && NoRepeats(s.log)
    ensures NoRepeats(s.Stepped(m, r, dt).log)
  {
    hide RobotState.Stepped, Sorted, NoRepeats, LastWheels, LastGripper, InTurn;
    var reports, w, g := StepForwards(s, m, r, dt);
    NoRepeatsReports(s.log, reports);
    var told := s.log + reports;
    if w == [] {
      assert told + w == told;
    } else {
      NoRepeatsNext(told, w[0]);
    }
    if g == [] {
      assert told + w + g == told + w;
    } else {
      NoRepeatsNext(told + w, g[0]);
    }
  }

  /** In every run from a new robot a wheel command that is forwarded differs from the one before: an unchanged target
      is not forwarded again. */
  lemma {:induction false} WheelsNeverRepeated(m: Maths, events: seq<Event>)
    ensures NoRepeats(Run(m, NEW_ROBOT, events).log)
    decreases |events|
  {
    hide RobotState.Stepped, Sorted, NoRepeats, LastWheels, LastGripper, WheelsFromTwist;
    if events == [] {
      NothingRepeated();
    } else {
      var front, e := events[..|events| - 1], events[|events| - 1];
      var before := Run(m, NEW_ROBOT, front);
      WheelsNeverRepeated(m, front);
      NewRobot();
      RunSorted(m, NEW_ROBOT, front);
      TargetsAlwaysForwarded(m, NEW_ROBOT, front);
      match e {
        case Step(r, dt) => StepNoRepeats(before, m, r, dt);
        case Submit(a, permitted) => NoRepeatsNext(before.log, Accepted(a.SlotOf(), a.Id()));
        case _ => RequestSets(m, before, e);
      }
    }
  }

  lemma NothingRepeated()
    ensures NoRepeats([])
  {
  }

  lemma NewRobot()
    ensures Sorted(NEW_ROBOT) && TargetsForwarded(NEW_ROBOT)
  {
  }

  /** The gripper's command is: a new robot forwards the one it was built with in each of its first two steps. */
  lemma GripperForwardedTwice(m: Maths, r: Readings, dt: real, r': Readings, dt': real)
    ensures var first := NEW_ROBOT.Stepped(m, r, dt);
            var second := first.Stepped(m, r', dt');
            && GripperForwarded(Pause, 0.5) in first.log
            && |second.log| > |first.log| && second.log[|second.log| - 1] == GripperForwarded(Pause, 0.5)
  {
    hide RobotState.Stepped, Sorted, InTurn;
    NewRobot();
    var first := NEW_ROBOT.Stepped(m, r, dt);
    var _, _, g := StepForwards(NEW_ROBOT, m, r, dt);
    GripperAfterStep(NEW_ROBOT, m, r, dt);
    assert g[0] in first.log;
    NewSorted(m, r, dt);
    var _, _, g' := StepForwards(first, m, r', dt');
    GripperAfterStep(first, m, r', dt');
  }

  lemma NewSorted(m: Maths, r: Readings, dt: real)
    ensures Sorted(NEW_ROBOT.Stepped(m, r, dt))
  {
    hide RobotState.Stepped, Sorted;
    NewRobot();
    ApplySorted(m, NEW_ROBOT, Step(r, dt));
  }
}
