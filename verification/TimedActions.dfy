/** When timed and reaching actions end, whatever else the robot does: sounds and servo moves after a number of
    steps of constant length, moves of the arm and the gimbal at the first step that finds them at their goal. */
module TimedActions {
  import opened Geometry
  import opened RealMath
  import opened Robot
  import opened RobotRuns
  import opened SlotSteps

  // ----- Sounds

  /** A sound action in its `q`th step after starting play number `p`, counting from zero. */
  ghost predicate SoundAt(a: Action, n: nat, dt: real, p: nat, q: nat)
    requires dt > 0.0
  {
    && a.task.SoundTask? && a.state.Running?
    && p < n && q < StepsPast(SOUND_DURATION, dt)
    && a.task.playTimes == n - 1 - p
    && a.task.remaining == SOUND_DURATION - q as real * dt
  }

  ghost predicate SoundFresh(a: Action, n: nat) {
    a.state.Started? && a.task == SoundTask(n, 0.0)
  }

  lemma SoundFirstStep(a: Action, n: nat, dt: real)
    requires dt > 0.0 && SoundFresh(a, n)
    ensures var r := SoundStep(a, dt);
            if n == 0 then r.state.Succeed? else SoundAt(r, n, dt, 0, 0)
  {
    hide StepsPast;
    PastIff(SOUND_DURATION, dt, 0);
  }

  lemma SoundNextStep(a: Action, n: nat, dt: real, p: nat, q: nat)
    requires dt > 0.0 && SoundAt(a, n, dt, p, q)
    ensures var r := SoundStep(a, dt);
            if q + 1 < StepsPast(SOUND_DURATION, dt) then SoundAt(r, n, dt, p, q + 1)
            else if p + 1 < n then SoundAt(r, n, dt, p + 1, 0)
            else r.state.Succeed?
  {
    hide StepsPast;
    PastIff(SOUND_DURATION, dt, q + 1);
    assert (q + 1) as real * dt == q as real * dt + dt;
  }

  lemma PublishedTask(a: Action, dt: real)
    ensures Published(a, dt).task == a.task && Published(a, dt).state == a.state
  {
  }

  /** Where a sound action is after its first `k` steps. */
  ghost predicate SoundProgress(s: RobotState, n: nat, dt: real, k: nat)
    requires dt > 0.0
  {
    var per := StepsPast(SOUND_DURATION, dt);
    if k == 0 then PlaySound in s.actions && SoundFresh(s.actions[PlaySound], n)
    else if k <= n * per then
      && PlaySound in s.actions
      && exists p: nat, q: nat :: SoundAt(s.actions[PlaySound], n, dt, p, q) && At(p, q, per) == k
    else PlaySound !in s.actions && PlaySound in s.previous && s.previous[PlaySound].Succeed?
  }

  function At(p: nat, q: nat, per: nat): nat {
    1 + p * per + q
  }

  lemma AtBounds(n: nat, per: nat, p: nat, q: nat)
    requires p < n && q < per
    ensures At(p, q, per) <= n * per
    ensures q + 1 < per ==> At(p, q + 1, per) == At(p, q, per) + 1 <= n * per
    ensures q + 1 == per && p + 1 < n ==> At(p + 1, 0, per) == At(p, q, per) + 1 <= n * per
    ensures q + 1 == per && p + 1 == n ==> At(p, q, per) == n * per
  {
    TimesMonotone(p + 1, n, per);
    if p + 1 < n {
      TimesMonotone(p + 2, n, per);
    }
    TimesNext(p, per);
    TimesNext(p + 1, per);
  }

  lemma TimesMonotone(x: nat, y: nat, k: nat)
    requires x <= y
    ensures x * k <= y * k
  {
  }

  lemma TimesNext(x: nat, k: nat)
    ensures (x + 1) * k == x * k + k
  {
  }

  lemma SoundProgressStep(s: RobotState, m: Maths, r: Readings, n: nat, dt: real, k: nat)
    requires dt > 0.0 && Sorted(s) && SoundProgress(s, n, dt, k)
    ensures SoundProgress(s.Stepped(m, r, dt), n, dt, k + 1)
  {
    hide StepsPast, SoundStep, SoundAt, Sorted, RobotState.Stepped, At, ChassisState.Read, Published;
    var per := StepsPast(SOUND_DURATION, dt);
    var t := s.Stepped(m, r, dt);
    if PlaySound in s.actions {
      var a := s.actions[PlaySound];
      StepOfSlot(s, m, r, dt, PlaySound);
      SoundTaskOf(s, n, dt, k);
      PublishedTask(SoundStep(a, dt), dt);
      if k == 0 {
        SoundFirstStep(a, n, dt);
        StepsPastPositive(dt);
        if n > 0 {
          FirstOfPlay(n, per);
          SoundAtKept(SoundStep(a, dt), dt, n, 0, 0);
          SoundLive(Published(SoundStep(a, dt), dt), n, dt, 0, 0);
        }
      } else {
        var p: nat, q: nat :| SoundAt(a, n, dt, p, q) && At(p, q, per) == k;
        SoundIndices(a, n, dt, p, q);
        SoundNextStep(a, n, dt, p, q);
        AtBounds(n, per, p, q);
        if q + 1 < per {
          SoundAtKept(SoundStep(a, dt), dt, n, p, q + 1);
          SoundLive(Published(SoundStep(a, dt), dt), n, dt, p, q + 1);
        } else if p + 1 < n {
          SoundAtKept(SoundStep(a, dt), dt, n, p + 1, 0);
          SoundLive(Published(SoundStep(a, dt), dt), n, dt, p + 1, 0);
        }
      }
    } else {
      StepOfIdleSlot(s, m, r, dt, PlaySound);
    }
  }

  lemma StepsPastPositive(dt: real)
    requires dt > 0.0
    ensures StepsPast(SOUND_DURATION, dt) >= 1
  {
  }

  lemma FirstOfPlay(n: nat, per: nat)
    requires n > 0 && per > 0
    ensures At(0, 0, per) == 1 <= n * per
  {
    assert 1 * per <= n * per;
  }

  lemma SoundTaskOf(s: RobotState, n: nat, dt: real, k: nat)
    requires dt > 0.0 && SoundProgress(s, n, dt, k) && PlaySound in s.actions
    ensures s.actions[PlaySound].task.SoundTask?
  {
  }

  lemma SoundAtKept(a: Action, dt: real, n: nat, p: nat, q: nat)
    requires dt > 0.0 && SoundAt(a, n, dt, p, q)
    ensures SoundAt(Published(a, dt), n, dt, p, q)
  {
  }

  lemma SoundLive(a: Action, n: nat, dt: real, p: nat, q: nat)
    requires dt > 0.0 && SoundAt(a, n, dt, p, q)
    ensures a.state.Running?
  {
  }

  lemma SoundIndices(a: Action, n: nat, dt: real, p: nat, q: nat)
    requires dt > 0.0 && SoundAt(a, n, dt, p, q)
    ensures p < n && q < StepsPast(SOUND_DURATION, dt)
  {
  }

  lemma {:induction false} SoundRun(m: Maths, s: RobotState, events: seq<Event>, n: nat, dt: real)
    requires dt > 0.0 && Sorted(s) && SoundProgress(s, n, dt, 0) && Steady(events, PlaySound, dt)
    ensures SoundProgress(Run(m, s, events), n, dt, CountSteps(events))
    decreases |events|
  {
    hide SoundProgress, Apply, Sorted, RobotState.Stepped;
    if events != [] {
      var front, e := events[..|events| - 1], events[|events| - 1];
      assert e in events;
      SoundRun(m, s, front, n, dt);
      RunSorted(m, s, front);
      var before := Run(m, s, front);
      if e.Step? {
        StepIsStepped(m, before, e);
        SoundProgressStep(before, m, e.readings, n, dt, CountSteps(front));
      } else {
        RequestKeepsSlot(m, before, e, PlaySound);
        SoundProgressKept(before, Apply(m, before, e), n, dt, CountSteps(front));
      }
    }
  }

  lemma StepIsStepped(m: Maths, s: RobotState, e: Event)
    requires e.Step?
    ensures Apply(m, s, e) == s.Stepped(m, e.readings, e.dt)
  {
  }

  lemma SoundProgressKept(s: RobotState, t: RobotState, n: nat, dt: real, k: nat)
    requires dt > 0.0 && SoundProgress(s, n, dt, k)
    requires PlaySound in s.actions <==> PlaySound in t.actions
    requires PlaySound in s.actions ==> s.actions[PlaySound] == t.actions[PlaySound]
    requires t.previous == s.previous
    ensures SoundProgress(t, n, dt, k)
  {
  }

  /** Playing a sound n times takes 1 + n * (floor(3 / dt) + 1) steps: the action is live after k steps
      exactly when k is smaller, its plays start at every floor(3 / dt) + 1 steps, and it then succeeds. */
  lemma SoundDuration(m: Maths, s: RobotState, a: Action, n: nat, events: seq<Event>, dt: real)
    requires dt > 0.0 && Sorted(s) && PlaySound !in s.actions
    requires a.task == SoundTask(n, 0.0) && Steady(events, PlaySound, dt)
    ensures var r := Run(m, s.Submitted(a, true), events);
            var k, per := CountSteps(events), StepsPast(3.0, dt);
            && (PlaySound in r.actions <==> k < 1 + n * per)
            && (PlaySound !in r.actions ==> r.ActionStateOf(PlaySound).Succeed?)
            && (PlaySound in r.actions && k > 0 ==>
                  && r.actions[PlaySound].task.SoundTask?
                  && n - r.actions[PlaySound].task.playTimes == (k - 1) / per + 1)
  {
    hide StepsPast, SoundProgress, Run, Sorted;
    var start := s.Submitted(a, true);
    SoundSubmitted(s, a, n, dt);
    SoundRun(m, start, events, n, dt);
    SoundProgressTells(Run(m, start, events), n, dt, CountSteps(events));
  }

  lemma SoundSubmitted(s: RobotState, a: Action, n: nat, dt: real)
    requires dt > 0.0 && Sorted(s) && PlaySound !in s.actions && a.task == SoundTask(n, 0.0)
    ensures Sorted(s.Submitted(a, true)) && SoundProgress(s.Submitted(a, true), n, dt, 0)
  {
    hide StepsPast;
  }

  lemma SoundProgressTells(s: RobotState, n: nat, dt: real, k: nat)
    requires dt > 0.0 && SoundProgress(s, n, dt, k)
    ensures var per := StepsPast(3.0, dt);
            && (PlaySound in s.actions <==> k < 1 + n * per)
            && (PlaySound !in s.actions ==> s.ActionStateOf(PlaySound).Succeed?)
            && (PlaySound in s.actions && k > 0 ==>
                  && s.actions[PlaySound].task.SoundTask?
                  && n - s.actions[PlaySound].task.playTimes == (k - 1) / per + 1)
  {
    hide StepsPast;
    var per := StepsPast(SOUND_DURATION, dt);
    if 0 < k <= n * per {
      var p: nat, q: nat :| SoundAt(s.actions[PlaySound], n, dt, p, q) && At(p, q, per) == k;
      PlaysBefore(p, q, per);
    } else if k == 0 {
      ProductNonNegative(n, per);
    }
  }

  lemma ProductNonNegative(n: nat, per: nat)
    ensures n * per >= 0
  {
  }

  lemma PlaysBefore(p: nat, q: nat, per: nat)
    requires q < per
    ensures (At(p, q, per) - 1) / per == p
  {
    QuotientUnique(p * per + q, per, p);
  }

  lemma QuotientUnique(x: nat, per: nat, p: nat)
    requires per > 0 && p * per <= x < p * per + per
    ensures x / per == p
  {
    var d := x / per;
    TimesNext(d, per);
    TimesNext(p, per);
    if d > p {
      TimesMonotone(p + 1, d, per);
    } else if d < p {
      TimesMonotone(d + 1, p, per);
    }
  }

  // ----- Servo moves

  ghost predicate ServoAt(s: RobotState, id: nat, dt: real, k: nat) {
    && MoveServo in s.actions && s.actions[MoveServo].Live()
    && s.actions[MoveServo].task == ServoTask(id, SERVO_MAX_DURATION - k as real * dt)
  }

  ghost predicate Near(events: seq<Event>, id: nat) {
    exists e :: e in events && e.Step? && e.readings.sensors.servo(id) < 0.005
  }

  lemma ServoAtStep(s: RobotState, m: Maths, r: Readings, id: nat, dt: real, k: nat)
    requires dt > 0.0 && Sorted(s) && ServoAt(s, id, dt, k)
    ensures var t := s.Stepped(m, r, dt);
            if r.sensors.servo(id) < 0.005 || k >= StepsPast(SERVO_MAX_DURATION, dt)
            then MoveServo !in t.actions && MoveServo in t.previous && t.previous[MoveServo].Succeed?
            else ServoAt(t, id, dt, k + 1)
  {
    hide StepsPast, RobotState.Stepped, ChassisState.Read, Published;
    var a := s.actions[MoveServo];
    StepOfSlot(s, m, r, dt, MoveServo);
    PublishedTask(ServoStep(a, r.sensors.servo(id), dt), dt);
    PastIff(SERVO_MAX_DURATION, dt, k);
    assert (k + 1) as real * dt == k as real * dt + dt;
  }

  /** Where a servo move is after its first `k` steps. */
  ghost predicate ServoProgress(s: RobotState, id: nat, dt: real, k: nat, near: bool)
    requires dt > 0.0
  {
    if !near && k < StepsPast(SERVO_MAX_DURATION, dt) + 1 then ServoAt(s, id, dt, k)
    else MoveServo !in s.actions && MoveServo in s.previous && s.previous[MoveServo].Succeed?
  }

  lemma {:induction false} ServoRun(m: Maths, s: RobotState, events: seq<Event>, id: nat, dt: real)
    requires dt > 0.0 && Sorted(s) && ServoAt(s, id, dt, 0) && Steady(events, MoveServo, dt)
    ensures ServoProgress(Run(m, s, events), id, dt, CountSteps(events), Near(events, id))
    decreases |events|
  {
    hide Apply, Sorted, RobotState.Stepped, StepsPast, ServoAt;
    if events != [] {
      var front, e := events[..|events| - 1], events[|events| - 1];
      assert e in events;
      ServoRun(m, s, front, id, dt);
      RunSorted(m, s, front);
      NearNext(front, e, id);
      assert front + [e] == events;
      var before := Run(m, s, front);
      if e.Step? {
        StepIsStepped(m, before, e);
        if MoveServo in before.actions {
          ServoHeld(before, id, dt, CountSteps(front), Near(front, id));
          ServoAtStep(before, m, e.readings, id, dt, CountSteps(front));
        } else {
          ServoGone(before, id, dt, CountSteps(front), Near(front, id));
          StepOfIdleSlot(before, m, e.readings, dt, MoveServo);
        }
      } else {
        RequestKeepsSlot(m, before, e, MoveServo);
        ServoProgressKept(before, Apply(m, before, e), id, dt, CountSteps(front), Near(front, id));
      }
    }
  }

  lemma NearNext(front: seq<Event>, e: Event, id: nat)
    ensures Near(front + [e], id) <==> Near(front, id) || (e.Step? && e.readings.sensors.servo(id) < 0.005)
  {
    assert forall x :: x in front + [e] <==> x in front || x == e;
  }

  lemma ServoHeld(s: RobotState, id: nat, dt: real, k: nat, near: bool)
    requires dt > 0.0 && ServoProgress(s, id, dt, k, near) && MoveServo in s.actions
    ensures !near && k < StepsPast(SERVO_MAX_DURATION, dt) + 1 && ServoAt(s, id, dt, k)
  {
  }

  lemma ServoGone(s: RobotState, id: nat, dt: real, k: nat, near: bool)
    requires dt > 0.0 && ServoProgress(s, id, dt, k, near) && MoveServo !in s.actions
    ensures near || k >= StepsPast(SERVO_MAX_DURATION, dt) + 1
  {
  }

  lemma ServoProgressKept(s: RobotState, t: RobotState, id: nat, dt: real, k: nat, near: bool)
    requires dt > 0.0 && ServoProgress(s, id, dt, k, near)
    requires MoveServo in s.actions <==> MoveServo in t.actions
    requires MoveServo in s.actions ==> s.actions[MoveServo] == t.actions[MoveServo]
    requires t.previous == s.previous
    ensures ServoProgress(t, id, dt, k, near)
  {
  }

  /** A servo move is live after k steps exactly when k < floor(5 / dt) + 2 and no step has found the servo
      within 0.005 rad of its target; otherwise it has succeeded, whatever the servo does. */
  lemma ServoDuration(m: Maths, s: RobotState, a: Action, id: nat, events: seq<Event>, dt: real)
    requires dt > 0.0 && Sorted(s) && MoveServo !in s.actions
    requires a.task == ServoTask(id, 5.0) && Steady(events, MoveServo, dt)
    ensures var r := Run(m, s.Submitted(a, true), events);
            && (MoveServo in r.actions <==>
                  CountSteps(events) < (5.0 / dt).Floor + 2 && !Near(events, id))
            && (MoveServo !in r.actions ==> r.ActionStateOf(MoveServo).Succeed?)
  {
    ServoRun(m, s.Submitted(a, true), events, id, dt);
  }

  // ----- Moves of the arm and the gimbal

  /** No further request for the slot. */
  ghost predicate Unasked(events: seq<Event>, slot: Slot) {
    forall e :: e in events && e.Submit? ==> e.action.SlotOf() != slot
  }

  ghost predicate ArmNear(events: seq<Event>) {
    exists e :: e in events && e.Step? && e.readings.sensors.arm < 0.005
  }

  ghost predicate GimbalNear(events: seq<Event>) {
    exists e :: e in events && e.Step? && e.readings.sensors.gimbal < 0.02
  }

  ghost predicate GoalNear(events: seq<Event>, slot: Slot) {
    if slot.MoveArm? then ArmNear(events) else GimbalNear(events)
  }

  predicate NearNow(e: Event, slot: Slot) {
    e.Step? && if slot.MoveArm? then e.readings.sensors.arm < 0.005 else e.readings.sensors.gimbal < 0.02
  }

  lemma GoalNearNext(front: seq<Event>, e: Event, slot: Slot)
    ensures GoalNear(front + [e], slot) <==> GoalNear(front, slot) || NearNow(e, slot)
  {
    assert forall x :: x in front + [e] <==> x in front || x == e;
  }

  /** Where such a move is: live, or over and reported as a success. */
  ghost predicate MoveIs(s: RobotState, slot: Slot, live: bool) {
    if live then slot in s.actions && s.actions[slot].Live()
    else slot !in s.actions && slot in s.previous && s.previous[slot].Succeed?
  }

  lemma MoveNext(m: Maths, s: RobotState, e: Event, slot: Slot, live: bool)
    requires slot.MoveArm? || slot.MoveGimbal?
    requires Sorted(s) && MoveIs(s, slot, live)
    requires e.Submit? ==> e.action.SlotOf() != slot
    ensures MoveIs(Apply(m, s, e), slot, live && !NearNow(e, slot))
  {
    hide Apply, ActionStep, ChassisState.Read, RobotState.Stepped, Published;
    if !e.Step? {
      RequestKeepsSlot(m, s, e, slot);
    } else {
      StepIsStepped(m, s, e);
      if live {
        var pose := s.chassis.Read(m, e.readings.wheels, e.readings.yawRate, e.dt).pose;
        StepOfSlot(s, m, e.readings, e.dt, slot);
        ReachOutcome(s.actions[slot], m, pose, e, slot);
        PublishedTask(ActionStep(s.actions[slot], m, pose, e.readings.sensors, e.dt).0, e.dt);
      } else {
        StepOfIdleSlot(s, m, e.readings, e.dt, slot);
      }
    }
  }

  lemma ReachOutcome(a: Action, m: Maths, pose: Pose, e: Event, slot: Slot)
    requires e.Step? && (slot.MoveArm? || slot.MoveGimbal?) && a.SlotOf() == slot && a.Live()
    ensures ActionStep(a, m, pose, e.readings.sensors, e.dt).0.state == if NearNow(e, slot) then Succeed else Running
  {
    hide MoveStep, ServoStep, SoundStep;
  }

  lemma {:induction false} MoveRun(m: Maths, s: RobotState, events: seq<Event>, slot: Slot)
    requires slot.MoveArm? || slot.MoveGimbal?
    requires Sorted(s) && MoveIs(s, slot, true) && Unasked(events, slot)
    ensures MoveIs(Run(m, s, events), slot, !GoalNear(events, slot))
    decreases |events|
  {
    hide Apply, Sorted, MoveIs, NearNow, GoalNear;
    if events == [] {
      NothingNear(slot);
    } else {
      var front, e := events[..|events| - 1], events[|events| - 1];
      assert e in events && forall x :: x in front ==> x in events;
      MoveRun(m, s, front, slot);
      RunSorted(m, s, front);
      GoalNearNext(front, e, slot);
      assert front + [e] == events;
      MoveNext(m, Run(m, s, front), e, slot, !GoalNear(front, slot));
    }
  }

  lemma NothingNear(slot: Slot)
    ensures !GoalNear([], slot)
  {
  }

  lemma SubmittedLive(s: RobotState, a: Action)
    requires Sorted(s) && a.SlotOf() !in s.actions
    ensures Sorted(s.Submitted(a, true)) && MoveIs(s.Submitted(a, true), a.SlotOf(), true)
  {
  }

  /** A move of the arm is live exactly until a step finds the arm within 0.005 of its goal; it has then
      succeeded. */
  lemma ArmMoveEndsIff(m: Maths, s: RobotState, a: Action, events: seq<Event>)
    requires Sorted(s) && MoveArm !in s.actions
    requires a.task.ArmTask? && Unasked(events, MoveArm)
    ensures var r := Run(m, s.Submitted(a, true), events);
            && (MoveArm in r.actions <==> !ArmNear(events))
            && (MoveArm in r.actions ==> r.actions[MoveArm].state.Started? || r.actions[MoveArm].state.Running?)
            && (MoveArm !in r.actions ==> r.ActionStateOf(MoveArm).Succeed?)
  {
    SubmittedLive(s, a);
    MoveRun(m, s.Submitted(a, true), events, MoveArm);
  }

  /** A move of the gimbal ends likewise at the first step that finds it within 0.02 rad of its goal. */
  lemma GimbalMoveEndsIff(m: Maths, s: RobotState, a: Action, events: seq<Event>)
    requires Sorted(s) && MoveGimbal !in s.actions
    requires a.task.GimbalTask? && Unasked(events, MoveGimbal)
    ensures var r := Run(m, s.Submitted(a, true), events);
            && (MoveGimbal in r.actions <==> !GimbalNear(events))
            && (MoveGimbal in r.actions ==>
                  r.actions[MoveGimbal].state.Started? || r.actions[MoveGimbal].state.Running?)
            && (MoveGimbal !in r.actions ==> r.ActionStateOf(MoveGimbal).Succeed?)
  {
    SubmittedLive(s, a);
    MoveRun(m, s.Submitted(a, true), events, MoveGimbal);
  }
}
