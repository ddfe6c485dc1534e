/** Slots do not disturb each other: a step of the robot is, for each slot, one step of its action. */
module SlotSteps {
  import opened Geometry
  import opened Robot
  import opened RobotRuns

  /** Two robots that look the same from one slot; the move slot also looks at the whole chassis. */
  ghost predicate SameSlot(s: RobotState, t: RobotState, slot: Slot) {
    && (slot in s.actions <==> slot in t.actions)
    && (slot in s.actions ==> s.actions[slot] == t.actions[slot])
    && (slot in s.previous <==> slot in t.previous)
    && (slot in s.previous ==> s.previous[slot] == t.previous[slot])
    && s.chassis.pose == t.chassis.pose
    && (slot.Move? ==> s.chassis == t.chassis)
  }

  /** Every action in its own slot. */
  ghost predicate Sorted(s: RobotState) {
    forall slot :: slot in s.actions ==> s.actions[slot].SlotOf() == slot
  }

  lemma SlotRunSorted(s: RobotState, ran: Slot, m: Maths, sensors: Sensors, dt: real)
    requires Sorted(s)
    ensures Sorted(s.SlotRun(ran, m, sensors, dt))
  {
    hide ActionStep, ChassisState.WithTargetVelocity, PushEntries;
  }

  lemma OtherSlotRun(s: RobotState, ran: Slot, m: Maths, sensors: Sensors, dt: real, slot: Slot)
    requires Sorted(s) && ran != slot
    ensures SameSlot(s, s.SlotRun(ran, m, sensors, dt), slot)
  {
    hide ActionStep, PushEntries, Published;
  }

  lemma SlotRunSame(s: RobotState, t: RobotState, slot: Slot, m: Maths, sensors: Sensors, dt: real)
    requires SameSlot(s, t, slot) && Sorted(s)
    ensures SameSlot(s.SlotRun(slot, m, sensors, dt), t.SlotRun(slot, m, sensors, dt), slot)
  {
    hide ActionStep, PushEntries, Published;
  }

  lemma {:induction false} SlotsRunAfter(s: RobotState, k: nat, i: nat, m: Maths, sensors: Sensors, dt: real)
    requires i < k <= |SLOTS| && Sorted(s)
    ensures SameSlot(s, s.SlotsRun(k, m, sensors, dt), SLOTS[i])
    decreases |SLOTS| - k
  {
    hide RobotState.SlotRun;
    if k < |SLOTS| {
      OtherSlotRun(s, SLOTS[k], m, sensors, dt, SLOTS[i]);
      SlotRunSorted(s, SLOTS[k], m, sensors, dt);
      SlotsRunAfter(s.SlotRun(SLOTS[k], m, sensors, dt), k + 1, i, m, sensors, dt);
    }
  }

  lemma {:induction false} SlotsRunOutcome(s: RobotState, k: nat, i: nat, m: Maths, sensors: Sensors, dt: real)
    requires k <= i < |SLOTS| && Sorted(s)
    ensures SameSlot(s.SlotRun(SLOTS[i], m, sensors, dt), s.SlotsRun(k, m, sensors, dt), SLOTS[i])
    decreases |SLOTS| - k
  {
    hide RobotState.SlotRun;
    var next := s.SlotRun(SLOTS[k], m, sensors, dt);
    SlotRunSorted(s, SLOTS[k], m, sensors, dt);
    if k == i {
      SlotsRunAfter(next, k + 1, i, m, sensors, dt);
    } else {
      OtherSlotRun(s, SLOTS[k], m, sensors, dt, SLOTS[i]);
      SlotRunSame(s, next, SLOTS[i], m, sensors, dt);
      SlotsRunOutcome(next, k + 1, i, m, sensors, dt);
    }
  }

  function Index(slot: Slot): (i: nat)
    ensures i < |SLOTS| && SLOTS[i] == slot
  {
    match slot case Move => 0 case MoveArm => 1 case MoveGimbal => 2 case MoveServo => 3 case PlaySound => 4
  }

  /** A step as seen from one slot: its action takes one step, reports, and leaves when it is done. */
  lemma StepOfSlot(s: RobotState, m: Maths, r: Readings, dt: real, slot: Slot)
    requires Sorted(s) && slot in s.actions
    ensures var t := s.Stepped(m, r, dt);
            var pose := s.chassis.Read(m, r.wheels, r.yawRate, dt).pose;
            var a := Published(ActionStep(s.actions[slot], m, pose, r.sensors, dt).0, dt);
            if a.Done() then slot !in t.actions && slot in t.previous && t.previous[slot] == a.state
            else slot in t.actions && t.actions[slot] == a
  {
    hide ActionStep, ChassisState.Read, RobotState.SlotsRun, PushEntries, Published;
    SlotsRunOutcome(s.Sensed(m, r, dt), 0, Index(slot), m, r.sensors, dt);
  }

  lemma StepOfIdleSlot(s: RobotState, m: Maths, r: Readings, dt: real, slot: Slot)
    requires Sorted(s) && slot !in s.actions
    ensures var t := s.Stepped(m, r, dt);
            && slot !in t.actions
            && (slot in t.previous <==> slot in s.previous)
            && (slot in s.previous ==> t.previous[slot] == s.previous[slot])
  {
    hide ActionStep, ChassisState.Read, RobotState.SlotsRun, PushEntries, Published;
    SlotsRunOutcome(s.Sensed(m, r, dt), 0, Index(slot), m, r.sensors, dt);
  }

  /** Only a move steers the chassis. */
  lemma StepOfChassis(s: RobotState, m: Maths, r: Readings, dt: real)
    requires Sorted(s)
    ensures var read := s.chassis.Read(m, r.wheels, r.yawRate, dt);
            var t := s.Stepped(m, r, dt);
            if Move in s.actions && ActionStep(s.actions[Move], m, read.pose, r.sensors, dt).1.Some?
            then
              var twist := ActionStep(s.actions[Move], m, read.pose, r.sensors, dt).1.value;
              t.chassis == read.WithTargetVelocity(twist).Controlled()
            else t.chassis == read.Controlled()
  {
    hide ActionStep, ChassisState.Read, RobotState.SlotsRun, PushEntries, Published, ChassisState.WithTargetVelocity;
    SlotsRunOutcome(s.Sensed(m, r, dt), 0, 0, m, r.sensors, dt);
  }

  lemma {:induction false} SlotsRunSorted(s: RobotState, k: nat, m: Maths, sensors: Sensors, dt: real)
    requires k <= |SLOTS| && Sorted(s)
    ensures Sorted(s.SlotsRun(k, m, sensors, dt))
    decreases |SLOTS| - k
  {
    hide RobotState.SlotRun, Sorted;
    if k < |SLOTS| {
      SlotRunSorted(s, SLOTS[k], m, sensors, dt);
      SlotsRunSorted(s.SlotRun(SLOTS[k], m, sensors, dt), k + 1, m, sensors, dt);
    }
  }

  lemma ApplySorted(m: Maths, s: RobotState, e: Event)
    requires Sorted(s)
    ensures Sorted(Apply(m, s, e))
  {
    hide ChassisState.Read, RobotState.SlotsRun;
    if e.Step? {
      SlotsRunSorted(s.Sensed(m, e.readings, e.dt), 0, m, e.readings.sensors, e.dt);
    }
  }

  lemma {:induction false} RunSorted(m: Maths, s: RobotState, events: seq<Event>)
    requires Sorted(s)
    ensures Sorted(Run(m, s, events))
    decreases |events|
  {
    hide Apply, Sorted;
    if events != [] {
      RunSorted(m, s, events[..|events| - 1]);
      ApplySorted(m, Run(m, s, events[..|events| - 1]), events[|events| - 1]);
    }
  }

  // ----- Runs seen from a slot

  function CountSteps(events: seq<Event>): nat {
    if events == [] then 0
    else CountSteps(events[..|events| - 1]) + if events[|events| - 1].Step? then 1 else 0
  }

  /** Steps of constant length, and no further request for the slot. */
  ghost predicate Steady(events: seq<Event>, slot: Slot, dt: real) {
    forall e :: e in events ==> (e.Step? ==> e.dt == dt) && (e.Submit? ==> e.action.SlotOf() != slot)
  }

  /** Between steps nothing happens to a slot that is not asked for. */
  lemma RequestKeepsSlot(m: Maths, s: RobotState, e: Event, slot: Slot)
    requires !e.Step? && (e.Submit? ==> e.action.SlotOf() != slot)
    ensures var t := Apply(m, s, e);
            && (slot in s.actions <==> slot in t.actions)
            && (slot in s.actions ==> s.actions[slot] == t.actions[slot])
            && t.previous == s.previous
  {
  }
}
