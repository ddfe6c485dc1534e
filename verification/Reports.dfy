/** How often an action reports to its client while it runs: at most once per step, and at the frequency
    asked for as long as the steps are shorter than its period. */
module Reports {
  import opened Geometry
  import opened Options
  import opened RealMath
  import opened Robot
  import opened RobotRuns
  import opened SlotSteps
  import Topic

  function CountReports(log: seq<Entry>, slot: Slot): nat {
    if log == [] then 0
    else
      var e := log[|log| - 1];
      CountReports(log[..|log| - 1], slot) + if e.Pushed? && e.slot == slot then 1 else 0
  }

  lemma ReportsNext(log: seq<Entry>, e: Entry, slot: Slot)
    ensures CountReports(log + [e], slot) == CountReports(log, slot) + if e.Pushed? && e.slot == slot then 1 else 0
  {
    assert (log + [e])[..|log|] == log;
  }

  // ----- One step

  lemma EntriesReport(log: seq<Entry>, stepped: Action, ran: Slot, dt: real, slot: Slot)
    requires stepped.SlotOf() == ran
    ensures CountReports(log + SlotEntries(stepped, ran, dt), slot) ==
            CountReports(log, slot) + if ran == slot && MustPush(stepped, dt) then 1 else 0
  {
    hide CountReports;
    var pushes := PushEntries(stepped, dt);
    if MustPush(stepped, dt) {
      ReportsNext(log, pushes[0], slot);
    } else {
      assert log + pushes == log;
    }
    if stepped.Done() {
      ReportsNext(log + pushes, Ended(ran, stepped.state), slot);
      assert log + pushes + [Ended(ran, stepped.state)] == log + SlotEntries(stepped, ran, dt);
    } else {
      assert SlotEntries(stepped, ran, dt) == pushes;
    }
  }

  /** Does an action that is not over report in a step of length `dt`? */
  predicate Due(a: Action, dt: real) {
    a.link.Some? && a.link.value.deadline - dt <= 0.0
  }

  lemma SlotRunReports(s: RobotState, ran: Slot, m: Maths, sensors: Sensors, dt: real, slot: Slot)
    requires Sorted(s) && slot in s.actions && (ran == slot ==> slot in s.SlotRun(ran, m, sensors, dt).actions)
    ensures CountReports(s.SlotRun(ran, m, sensors, dt).log, slot) ==
            CountReports(s.log, slot) + if ran == slot && Due(s.actions[slot], dt) then 1 else 0
  {
    hide ActionStep, CountReports, SlotEntries, PushEntries;
    if ran in s.actions {
      var stepped := ActionStep(s.actions[ran], m, s.chassis.pose, sensors, dt).0;
      SlotRunLog(s, ran, m, sensors, dt);
      EntriesReport(s.log, stepped, ran, dt, slot);
    }
  }

  lemma {:induction false} SlotsRunReports(s: RobotState, k: nat, m: Maths, sensors: Sensors, dt: real, i: nat)
    requires k <= |SLOTS| && i < |SLOTS| && Sorted(s) && SLOTS[i] in s.actions
    requires SLOTS[i] in s.SlotsRun(k, m, sensors, dt).actions
    ensures CountReports(s.SlotsRun(k, m, sensors, dt).log, SLOTS[i]) ==
            CountReports(s.log, SLOTS[i]) + if k <= i && Due(s.actions[SLOTS[i]], dt) then 1 else 0
    decreases |SLOTS| - k
  {
    hide RobotState.SlotRun, CountReports, Sorted, Due;
    if k < |SLOTS| {
      var slot, next := SLOTS[i], s.SlotRun(SLOTS[k], m, sensors, dt);
      SlotRunSorted(s, SLOTS[k], m, sensors, dt);
      if k == i {
        SlotsRunAfter(next, k + 1, i, m, sensors, dt);
      } else {
        OtherSlotRun(s, SLOTS[k], m, sensors, dt, slot);
      }
      SlotRunReports(s, SLOTS[k], m, sensors, dt, slot);
      SlotsRunReports(next, k + 1, m, sensors, dt, i);
    }
  }

  lemma ControlReports(s: RobotState, slot: Slot)
    ensures CountReports(s.ChassisControlled().GripperControlled().log, slot) == CountReports(s.log, slot)
  {
    hide CountReports;
    var t := s.ChassisControlled();
    ReportsNext(s.log, WheelsForwarded(s.chassis.wheels.desired), slot);
    var g := t.gripper.Controlled();
    ReportsNext(t.log, GripperForwarded(g.status.target, g.power.target), slot);
    assert t.log + [] == t.log;
  }

  /** A step of the robot, for an action that stays in its slot: one report if it is due. */
  lemma StepReports(s: RobotState, m: Maths, r: Readings, dt: real, slot: Slot)
    requires Sorted(s) && slot in s.actions && slot in s.Stepped(m, r, dt).actions
    ensures var t := s.Stepped(m, r, dt);
            CountReports(t.log, slot) == CountReports(s.log, slot) + if Due(s.actions[slot], dt) then 1 else 0
  {
    hide CountReports, RobotState.SlotsRun, RobotState.ChassisControlled, RobotState.GripperControlled,
         ChassisState.Read, Due;
    var read := s.Sensed(m, r, dt);
    var ran := read.SlotsRun(0, m, r.sensors, dt);
    ControlActions(ran);
    SlotsRunReports(read, 0, m, r.sensors, dt, Index(slot));
    ControlReports(ran, slot);
  }

  lemma ControlActions(s: RobotState)
    ensures s.ChassisControlled().GripperControlled().actions == s.actions
  {
  }

  /** The link after such a step. */
  lemma StepLink(s: RobotState, m: Maths, r: Readings, dt: real, slot: Slot)
    requires Sorted(s) && slot in s.actions && s.actions[slot].link.Some? && slot in s.Stepped(m, r, dt).actions
    ensures var l := s.actions[slot].link.value;
            s.Stepped(m, r, dt).actions[slot].link ==
            Some(l.(deadline := l.deadline - dt + if Due(s.actions[slot], dt) then 1.0 / l.frequency else 0.0))
  {
    hide ActionStep, RobotState.Stepped, ChassisState.Read;
    StepOfSlot(s, m, r, dt, slot);
  }

  // ----- Whole runs

  function Elapsed(events: seq<Event>): real {
    if events == [] then 0.0
    else
      var e := events[|events| - 1];
      Elapsed(events[..|events| - 1]) + if e.Step? then e.dt else 0.0
  }

  /** No further request for the slot. */
  ghost predicate Undisturbed(events: seq<Event>, slot: Slot) {
    forall e :: e in events && e.Submit? ==> e.action.SlotOf() != slot
  }

  ghost predicate ShortSteps(events: seq<Event>, period: real) {
    forall e :: e in events && e.Step? ==> 0.0 <= e.dt < period
  }

  ghost predicate LongSteps(events: seq<Event>, period: real) {
    forall e :: e in events && e.Step? ==> e.dt >= period
  }

  /** What the deadline says after `k` reports and `n` steps in time `t`. */
  ghost predicate Scheduled(deadline: real, period: real, k: nat, n: nat, t: real, short: bool, long: bool) {
    && deadline == k as real * period - t
    && (short ==> if n == 0 then deadline == 0.0 else 0.0 < deadline <= period)
    && (long ==> k == n && deadline <= 0.0)
  }

  lemma ScheduledNext(deadline: real, period: real, k: nat, n: nat, t: real, short: bool, long: bool, dt: real)
    requires period > 0.0 && Scheduled(deadline, period, k, n, t, short, long)
    requires (short ==> 0.0 <= dt < period) && (long ==> dt >= period)
    ensures var due := deadline - dt <= 0.0;
            Scheduled(deadline - dt + (if due then period else 0.0), period, k + (if due then 1 else 0), n + 1,
                      t + dt, short, long)
  {
    assert (k + 1) as real * period == k as real * period + period;
  }

  ghost predicate OnSchedule(s: RobotState, slot: Slot, start: nat, period: real, n: nat, t: real, short: bool,
                             long: bool) {
    slot in s.actions ==>
      && s.actions[slot].link.Some? && 1.0 / s.actions[slot].link.value.frequency == period
      && CountReports(s.log, slot) >= start
      && Scheduled(s.actions[slot].link.value.deadline, period, CountReports(s.log, slot) - start, n, t, short, long)
  }

  lemma PeriodPositive(f: Positive)
    ensures 1.0 / f > 0.0 && 1.0 / f * f == 1.0
  {
    QuotientTimes(1.0, f);
    FactorCompare(1.0 / f, 1.0, f, 0.0);
  }

  lemma ScheduleStep(s: RobotState, m: Maths, r: Readings, dt: real, slot: Slot, start: nat, period: real, n: nat,
                     t: real, short: bool, long: bool)
    requires period > 0.0 && Sorted(s) && OnSchedule(s, slot, start, period, n, t, short, long)
    requires (short ==> 0.0 <= dt < period) && (long ==> dt >= period)
    ensures OnSchedule(s.Stepped(m, r, dt), slot, start, period, n + 1, t + dt, short, long)
  {
    hide RobotState.Stepped, CountReports, Scheduled, Sorted;
    if slot in s.Stepped(m, r, dt).actions {
      if slot !in s.actions {
        StepOfIdleSlot(s, m, r, dt, slot);
      }
      StepReports(s, m, r, dt, slot);
      StepLink(s, m, r, dt, slot);
      ScheduledNext(s.actions[slot].link.value.deadline, period, CountReports(s.log, slot) - start, n, t, short,
                    long, dt);
    }
  }

  lemma RequestReports(m: Maths, s: RobotState, e: Event, slot: Slot)
    requires !e.Step?
    ensures CountReports(Apply(m, s, e).log, slot) == CountReports(s.log, slot)
  {
    hide CountReports;
    if e.Submit? {
      ReportsNext(s.log, Accepted(e.action.SlotOf(), e.action.Id()), slot);
    }
  }

  function StepTime(e: Event): real {
    if e.Step? then e.dt else 0.0
  }

  lemma ScheduleEvent(m: Maths, s: RobotState, e: Event, slot: Slot, start: nat, period: real, n: nat, t: real,
                      short: bool, long: bool)
    requires period > 0.0 && Sorted(s) && OnSchedule(s, slot, start, period, n, t, short, long)
    requires e.Submit? ==> e.action.SlotOf() != slot
    requires e.Step? ==> (short ==> 0.0 <= e.dt < period) && (long ==> e.dt >= period)
    ensures OnSchedule(Apply(m, s, e), slot, start, period, n + (if e.Step? then 1 else 0), t + StepTime(e), short,
                       long)
  {
    hide Apply, Sorted, OnSchedule;
    if e.Step? {
      ScheduleStep(s, m, e.readings, e.dt, slot, start, period, n, t, short, long);
      StepIs(m, s, e);
    } else {
      RequestKeepsSlot(m, s, e, slot);
      RequestReports(m, s, e, slot);
      ScheduleKept(s, Apply(m, s, e), slot, start, period, n, t, short, long);
    }
  }

  /** Everything before the last event, and the last event. */
  lemma Unrolled(m: Maths, s: RobotState, events: seq<Event>, slot: Slot, period: real)
    requires events != []
    ensures var front, e := events[..|events| - 1], events[|events| - 1];
            && Run(m, s, events) == Apply(m, Run(m, s, front), e)
            && CountSteps(events) == CountSteps(front) + (if e.Step? then 1 else 0)
            && Elapsed(events) == Elapsed(front) + StepTime(e)
            && (Undisturbed(events, slot) ==> Undisturbed(front, slot) && (e.Submit? ==> e.action.SlotOf() != slot))
            && (ShortSteps(events, period) ==> ShortSteps(front, period) && (e.Step? ==> 0.0 <= e.dt < period))
            && (LongSteps(events, period) ==> LongSteps(front, period) && (e.Step? ==> e.dt >= period))
  {
    hide Apply;
    var front, e := events[..|events| - 1], events[|events| - 1];
    assert e in events && forall x :: x in front ==> x in events;
  }

  lemma {:induction false} ScheduleRun(m: Maths, s: RobotState, events: seq<Event>, slot: Slot, start: nat,
                                       period: real, short: bool, long: bool)
    requires period > 0.0 && Sorted(s) && OnSchedule(s, slot, start, period, 0, 0.0, short, long)
    requires Undisturbed(events, slot) && (short ==> ShortSteps(events, period)) && (long ==> LongSteps(events, period))
    ensures OnSchedule(Run(m, s, events), slot, start, period, CountSteps(events), Elapsed(events), short, long)
    decreases |events|
  {
    if events != [] {
      hide *;
      var front, e := events[..|events| - 1], events[|events| - 1];
      Unrolled(m, s, events, slot, period);
      ScheduleRun(m, s, front, slot, start, period, short, long);
      RunSorted(m, s, front);
      ScheduleEvent(m, Run(m, s, front), e, slot, start, period, CountSteps(front), Elapsed(front), short, long);
    }
  }

  lemma StepIs(m: Maths, s: RobotState, e: Event)
    requires e.Step?
    ensures Apply(m, s, e) == s.Stepped(m, e.readings, e.dt)
  {
  }

  lemma ScheduleKept(s: RobotState, t: RobotState, slot: Slot, start: nat, period: real, n: nat, time: real,
                     short: bool, long: bool)
    requires OnSchedule(s, slot, start, period, n, time, short, long)
    requires slot in s.actions <==> slot in t.actions
    requires slot in s.actions ==> s.actions[slot] == t.actions[slot]
    requires CountReports(t.log, slot) == CountReports(s.log, slot)
    ensures OnSchedule(t, slot, start, period, n, time, short, long)
  {
  }

  /** An action accepted with a link of frequency f, while it is still in its slot after steps that sum to T:
      if all steps are shorter than 1/f it has reported floor(T * f) + 1 times, however T is split; if none is,
      it has reported once per step, and no more. */
  lemma RunningReports(m: Maths, s: RobotState, a: Action, events: seq<Event>)
    requires Sorted(s) && a.SlotOf() !in s.actions && a.link.Some? && a.link.value.deadline == 0.0
    requires Undisturbed(events, a.SlotOf()) && CountSteps(events) > 0
    requires a.SlotOf() in Run(m, s.Submitted(a, true), events).actions
    ensures var l := a.link.value;
            var end := Run(m, s.Submitted(a, true), events);
            var reports := CountReports(end.log, a.SlotOf()) - CountReports(s.log, a.SlotOf());
            && (ShortSteps(events, 1.0 / l.frequency) ==> reports == (Elapsed(events) * l.frequency).Floor + 1)
            && (LongSteps(events, 1.0 / l.frequency) ==> reports == CountSteps(events))
  {
    hide Run, CountReports, CountSteps, Elapsed, ShortSteps, LongSteps;
    var slot, f, begin := a.SlotOf(), a.link.value.frequency, s.Submitted(a, true);
    var short, long := ShortSteps(events, 1.0 / f), LongSteps(events, 1.0 / f);
    ReportsNext(s.log, Accepted(slot, a.Id()), slot);
    var start := CountReports(s.log, slot);
    PeriodPositive(f);
    ScheduleRun(m, begin, events, slot, start, 1.0 / f, short, long);
    if short {
      Topic.CountIsFloor(CountReports(Run(m, begin, events).log, slot) - start, 1.0 / f, f, Elapsed(events));
    }
  }
}
