/** The robot over whole runs: what its action slots, reports and forwarded commands look like under any
    interleaving of steps and requests. */
module RobotRuns {
  import opened Geometry
  import opened Options
  import opened Robot

  /** Everything that can happen to a robot. */
  datatype Event =
    | Step(readings: Readings, dt: real)
    | Submit(action: Action, permitted: bool)
    | Drive(twist: Twist)
    | SpinWheels(wheels: Wheels)
    | Engage(value: bool)
    | AskGripper(status: GripperStatus, power: real)

  function Apply(m: Maths, s: RobotState, e: Event): RobotState {
    match e
    case Step(r, dt) => s.Stepped(m, r, dt)
    case Submit(a, permitted) => s.Submitted(a, permitted)
    case Drive(t) => s.(chassis := s.chassis.WithTargetVelocity(t))
    case SpinWheels(w) => s.(chassis := s.chassis.WithTargetWheels(w))
    case Engage(value) => s.(chassis := s.chassis.WithEngaged(value))
    case AskGripper(status, power) => s.(gripper := s.gripper.Asked(status, power))
  }

  function Run(m: Maths, s: RobotState, events: seq<Event>): RobotState
    decreases |events|
  {
    if events == [] then s else Apply(m, Run(m, s, events[..|events| - 1]), events[|events| - 1])
  }

  // ----- The life of a slot, read off the log

  /** Idle, busy with an action (under a client's number or none), or just before the end of a linked one. */
  datatype Phase = Idle | Busy(id: Option<nat>) | Closing | Broken

  /** What the log may say about a slot: a linked action is accepted, pushes under its own number while it
      runs, pushes its final state once, and ends; an unlinked one is accepted and ends. */
  function Advance(phase: Phase, slot: Slot, e: Entry): Phase {
    match e
    case Accepted(s, id) => if s != slot then phase else if phase.Idle? then Busy(id) else Broken
    case Pushed(s, id, state) =>
      if s != slot then phase
      else if phase == Busy(Some(id)) && state.Running? then phase
      else if phase == Busy(Some(id)) && state.Succeed? then Closing
      else Broken
    case Ended(s, state) =>
      if s != slot then phase
      else if (phase.Closing? || phase == Busy(None)) && state.Succeed? then Idle
      else Broken
    case _ => phase
  }

  function PhaseOf(log: seq<Entry>, slot: Slot): Phase
    decreases |log|
  {
    if log == [] then Idle else Advance(PhaseOf(log[..|log| - 1], slot), slot, log[|log| - 1])
  }

  lemma PhaseNext(log: seq<Entry>, e: Entry, slot: Slot)
    ensures PhaseOf(log + [e], slot) == Advance(PhaseOf(log, slot), slot, e)
  {
    assert (log + [e])[..|log|] == log;
  }

  /** The slots agree with the log, hold only live actions of their own kind, and a slot is known to the
      robot exactly if some action was ever accepted for it. */
  ghost predicate SlotSound(s: RobotState, slot: Slot) {
    && PhaseOf(s.log, slot) == (if slot in s.actions then Busy(s.actions[slot].Id()) else Idle)
    && (slot in s.actions ==> s.actions[slot].SlotOf() == slot && s.actions[slot].Live())
    && (slot in s.previous ==> s.previous[slot].Succeed?)
    && (slot in s.actions || slot in s.previous <==> EverAccepted(s.log, slot))
  }

  ghost predicate EverAccepted(log: seq<Entry>, slot: Slot) {
    exists e :: e in log && e.Accepted? && e.slot == slot
  }

  lemma LiveStep(a: Action, m: Maths, pose: Pose, sensors: Sensors, dt: real)
    requires a.Live()
    ensures var r := ActionStep(a, m, pose, sensors, dt).0;
            r.state.Running? || r.state.Succeed?
  {
    hide Pose.RelativeTo, Pose.Norm, Pose.Compose, Steering;
  }

  /** The entries one step of a slot adds. */
  function SlotEntries(stepped: Action, ran: Slot, dt: real): seq<Entry> {
    PushEntries(stepped, dt) + if stepped.Done() then [Ended(ran, stepped.state)] else []
  }

  lemma SlotRunLog(s: RobotState, ran: Slot, m: Maths, sensors: Sensors, dt: real)
    requires ran in s.actions
    ensures var stepped := ActionStep(s.actions[ran], m, s.chassis.pose, sensors, dt).0;
            s.SlotRun(ran, m, sensors, dt).log == s.log + SlotEntries(stepped, ran, dt)
  {
    hide ActionStep, ChassisState.WithTargetVelocity, PushEntries;
    var stepped := ActionStep(s.actions[ran], m, s.chassis.pose, sensors, dt).0;
    assert s.log + PushEntries(stepped, dt) + [] == s.log + PushEntries(stepped, dt);
    assert s.log + PushEntries(stepped, dt) + [Ended(ran, stepped.state)]
        == s.log + (PushEntries(stepped, dt) + [Ended(ran, stepped.state)]);
  }

  lemma EntriesPhase(log: seq<Entry>, stepped: Action, ran: Slot, dt: real, slot: Slot)
    requires stepped.SlotOf() == ran && (stepped.state.Running? || stepped.state.Succeed?)
    requires PhaseOf(log, ran) == Busy(stepped.Id())
    ensures PhaseOf(log + SlotEntries(stepped, ran, dt), slot) ==
            if slot != ran then PhaseOf(log, slot)
            else if stepped.Done() then Idle else Busy(stepped.Id())
  {
    hide PhaseOf;
    var pushes := PushEntries(stepped, dt);
    if MustPush(stepped, dt) {
      PhaseNext(log, pushes[0], slot);
    } else {
      assert log + pushes == log;
    }
    if stepped.Done() {
      PhaseNext(log + pushes, Ended(ran, stepped.state), slot);
      assert log + pushes + [Ended(ran, stepped.state)] == log + SlotEntries(stepped, ran, dt);
    } else {
      assert SlotEntries(stepped, ran, dt) == pushes;
    }
  }

  lemma EntriesAcceptNothing(log: seq<Entry>, stepped: Action, ran: Slot, dt: real, slot: Slot)
    ensures EverAccepted(log + SlotEntries(stepped, ran, dt), slot) <==> EverAccepted(log, slot)
  {
    var entries := SlotEntries(stepped, ran, dt);
    assert forall e :: e in log + entries <==> e in log || e in entries;
  }

  lemma SlotRunSound(s: RobotState, ran: Slot, m: Maths, sensors: Sensors, dt: real, slot: Slot)
    requires SlotSound(s, ran) && SlotSound(s, slot)
    ensures SlotSound(s.SlotRun(ran, m, sensors, dt), slot)
  {
    hide ActionStep, ChassisState.WithTargetVelocity, PhaseOf, SlotEntries, EverAccepted, PushEntries, MustPush;
    if ran in s.actions {
      LiveStep(s.actions[ran], m, s.chassis.pose, sensors, dt);
      var stepped := ActionStep(s.actions[ran], m, s.chassis.pose, sensors, dt).0;
      SlotRunLog(s, ran, m, sensors, dt);
      EntriesPhase(s.log, stepped, ran, dt, slot);
      EntriesAcceptNothing(s.log, stepped, ran, dt, slot);
    }
  }

  lemma {:induction false} SlotsRunSound(s: RobotState, k: nat, m: Maths, sensors: Sensors, dt: real, slot: Slot)
    requires k <= |SLOTS| && forall any :: SlotSound(s, any)
    ensures SlotSound(s.SlotsRun(k, m, sensors, dt), slot)
    decreases |SLOTS| - k
  {
    hide RobotState.SlotRun, SlotSound;
    if k < |SLOTS| {
      forall any
        ensures SlotSound(s.SlotRun(SLOTS[k], m, sensors, dt), any)
      {
        SlotRunSound(s, SLOTS[k], m, sensors, dt, any);
      }
      SlotsRunSound(s.SlotRun(SLOTS[k], m, sensors, dt), k + 1, m, sensors, dt, slot);
    }
  }

  /** Entries about the chassis and the gripper do not concern the slots. */
  lemma OtherEntry(s: RobotState, t: RobotState, slot: Slot)
    requires SlotSound(s, slot) && t.actions == s.actions && t.previous == s.previous
    requires t.log == s.log || (|t.log| > 0 && t.log[..|t.log| - 1] == s.log
                                && (t.log[|t.log| - 1].WheelsForwarded? || t.log[|t.log| - 1].GripperForwarded?))
    ensures SlotSound(t, slot)
  {
  }

  lemma SteppedSound(s: RobotState, m: Maths, r: Readings, dt: real, slot: Slot)
    requires forall any :: SlotSound(s, any)
    ensures SlotSound(s.Stepped(m, r, dt), slot)
  {
    hide RobotState.SlotsRun, ChassisState.Read, SlotSound, PhaseOf;
    var read := s.Sensed(m, r, dt);
    forall any
      ensures SlotSound(read, any)
    {
      OtherEntry(s, read, any);
    }
    SlotsRunSound(read, 0, m, r.sensors, dt, slot);
    var ran := read.SlotsRun(0, m, r.sensors, dt);
    OtherEntry(ran, ran.ChassisControlled(), slot);
    OtherEntry(ran.ChassisControlled(), ran.ChassisControlled().GripperControlled(), slot);
  }

  lemma SubmittedSound(s: RobotState, a: Action, permitted: bool, slot: Slot)
    requires SlotSound(s, slot)
    ensures SlotSound(s.Submitted(a, permitted), slot)
  {
    hide PhaseOf;
    PhaseNext(s.log, Accepted(a.SlotOf(), a.Id()), slot);
  }

  lemma {:induction false} SlotsAlwaysSound(m: Maths, s: RobotState, events: seq<Event>, slot: Slot)
    requires forall any :: SlotSound(s, any)
    ensures SlotSound(Run(m, s, events), slot)
    decreases |events|
  {
    hide RobotState.Stepped, RobotState.Submitted, SlotSound;
    if events != [] {
      var before := Run(m, s, events[..|events| - 1]);
      forall any
        ensures SlotSound(before, any)
      {
        SlotsAlwaysSound(m, s, events[..|events| - 1], any);
      }
      match events[|events| - 1] {
        case Step(r, dt) => SteppedSound(before, m, r, dt, slot);
        case Submit(a, permitted) => SubmittedSound(before, a, permitted, slot);
        case Drive(t) => OtherEntry(before, Run(m, s, events), slot);
        case SpinWheels(w) => OtherEntry(before, Run(m, s, events), slot);
        case Engage(value) => OtherEntry(before, Run(m, s, events), slot);
        case AskGripper(status, power) => OtherEntry(before, Run(m, s, events), slot);
      }
    }
  }

  // ----- What the log then says

  /** Actions accepted under a number, or under none. */
  function CountAccepted(log: seq<Entry>, slot: Slot, id: Option<nat>): nat {
    if log == [] then 0
    else CountAccepted(log[..|log| - 1], slot, id) + if log[|log| - 1] == Accepted(slot, id) then 1 else 0
  }

  function CountAllAccepted(log: seq<Entry>, slot: Slot): nat {
    if log == [] then 0
    else
      var e := log[|log| - 1];
      CountAllAccepted(log[..|log| - 1], slot) + if e.Accepted? && e.slot == slot then 1 else 0
  }

  /** Final states reported to the client under a number. */
  function CountFinal(log: seq<Entry>, slot: Slot, id: nat): nat {
    if log == [] then 0
    else
      var e := log[|log| - 1];
      CountFinal(log[..|log| - 1], slot, id) +
      if e.Pushed? && e.slot == slot && e.id == id && !e.state.Running? then 1 else 0
  }

  function CountEnded(log: seq<Entry>, slot: Slot): nat {
    if log == [] then 0
    else
      var e := log[|log| - 1];
      CountEnded(log[..|log| - 1], slot) + if e.Ended? && e.slot == slot then 1 else 0
  }

  lemma {:induction false} CountsOfUnbroken(log: seq<Entry>, slot: Slot)
    requires !PhaseOf(log, slot).Broken?
    ensures CountAllAccepted(log, slot) == CountEnded(log, slot) + (if PhaseOf(log, slot).Idle? then 0 else 1)
    decreases |log|
  {
    if log != [] {
      CountsOfUnbroken(log[..|log| - 1], slot);
    }
  }

  /** Every number that actions were accepted under has as many final reports as actions that are over. */
  lemma {:induction false} FinalsOfUnbroken(log: seq<Entry>, slot: Slot, id: nat)
    requires !PhaseOf(log, slot).Broken?
    ensures CountAccepted(log, slot, Some(id)) ==
            CountFinal(log, slot, id) + (if PhaseOf(log, slot) == Busy(Some(id)) then 1 else 0)
    decreases |log|
  {
    if log != [] {
      FinalsOfUnbroken(log[..|log| - 1], slot, id);
    }
  }

  /** In every run from a new robot: each slot holds at most one action, live and of its own kind; every
      linked action that has left its slot reported its final state exactly once, under its own number and as
      its last report, and every accepted action has ended exactly once or is still in its slot. */
  lemma SlotProtocol(m: Maths, s: RobotState, events: seq<Event>, slot: Slot, id: nat)
    requires s.actions == map[] && s.previous == map[] && s.log == []
    ensures var r := Run(m, s, events);
            && (slot in r.actions ==> r.actions[slot].SlotOf() == slot && r.actions[slot].Live())
            && !PhaseOf(r.log, slot).Broken? && !PhaseOf(r.log, slot).Closing?
            && CountAccepted(r.log, slot, Some(id)) ==
               CountFinal(r.log, slot, id) + (if slot in r.actions && r.actions[slot].Id() == Some(id) then 1 else 0)
            && CountAllAccepted(r.log, slot) == CountEnded(r.log, slot) + (if slot in r.actions then 1 else 0)
  {
    hide CountAccepted, CountAllAccepted, CountFinal, CountEnded, Run, Advance;
    forall any
      ensures SlotSound(s, any)
    {
    }
    SlotsAlwaysSound(m, s, events, slot);
    CountsOfUnbroken(Run(m, s, events).log, slot);
    FinalsOfUnbroken(Run(m, s, events).log, slot, id);
  }

  /** The state the robot reports for a slot: unknown before the first accepted action, that of the live
      action while there is one, and success from its end until the next one is accepted. */
  lemma ReportedState(m: Maths, s: RobotState, events: seq<Event>, slot: Slot)
    requires s.actions == map[] && s.previous == map[] && s.log == []
    ensures var r := Run(m, s, events);
            && (r.ActionStateOf(slot).Undefined? <==> !EverAccepted(r.log, slot))
            && (r.ActionStateOf(slot).Succeed? <==> EverAccepted(r.log, slot) && PhaseOf(r.log, slot).Idle?)
            && (r.ActionStateOf(slot).Started? || r.ActionStateOf(slot).Running? <==> slot in r.actions)
  {
    forall any
      ensures SlotSound(s, any)
    {
    }
    SlotsAlwaysSound(m, s, events, slot);
  }

  /** A request for a slot that is busy, or for a missing module, changes nothing. */
  lemma BusySubmitIgnored(s: RobotState, a: Action, permitted: bool)
    ensures s.Submitted(a, permitted) == s <==> !permitted || a.SlotOf() in s.actions
  {
    if permitted && a.SlotOf() !in s.actions {
      assert a.SlotOf() in s.Submitted(a, permitted).actions;
    }
  }
}
