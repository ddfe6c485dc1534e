/** Turning a gimbal goal given in some frame into angles of the fixed frame, so that the limited yaw
    servo can reach them. */
module Gimbal {
  import opened RealMath

  datatype Frame = ChassisFrame | FixedFrame | GimbalFrame

  datatype Axis = Yaw | Pitch

  /** A value for each axis. */
  datatype Values<T> = Values(yaw: T, pitch: T) {
    function Get(axis: Axis): T {
      if axis.Yaw? then yaw else pitch
    }

    function With(axis: Axis, value: T): Values<T> {
      if axis.Yaw? then this.(yaw := value) else this.(pitch := value)
    }
  }

  function DegreesToRadians(value: real): real {
    PI * value / 180.0
  }

  /** Servo limits: 250 degrees either way for yaw, from -30 to 25 degrees for pitch. */
  function MinAngle(axis: Axis): real {
    DegreesToRadians(if axis.Yaw? then -250.0 else -30.0)
  }

  function MaxAngle(axis: Axis): real {
    DegreesToRadians(if axis.Yaw? then 250.0 else 25.0)
  }

  /** How far to turn for a goal in the fixed frame: the short way, or the other way round if the servo
      would pass a limit. */
  function TurnTo(goal: real, chassis: real, servo: real, lo: real, hi: real): real {
    var delta := Normalize(goal - chassis - servo);
    if servo + delta < lo then delta + TURN
    else if servo + delta > hi then delta - TURN
    else delta
  }

  /** One axis of `fixed_angles`; the second test looks at the frame of the yaw axis, whatever the axis. */
  function FixedAxis(axis: Axis, value: real, frame: Values<Frame>, chassis: real, servo: real): real {
    if frame.Get(axis) == ChassisFrame then value + chassis
    else if frame.yaw == GimbalFrame then value + chassis + servo
    else TurnTo(value, chassis, servo, MinAngle(axis), MaxAngle(axis)) + chassis + servo
  }

  // ----- What is asked of the result

  /** From the servo angle, `turn` is the short way along a gap: the angle in [-pi, pi) that is a whole number of
      turns off it, or one full turn less or more if the servo would pass a limit. */
  ghost predicate ShortWay(turn: real, gap: real, servo: real, lo: real, hi: real) {
    exists k: int :: -PI <= Turned(gap, k) < PI && WithinLimits(turn, Turned(gap, k), servo, lo, hi)
  }

  predicate WithinLimits(turn: real, delta: real, servo: real, lo: real, hi: real) {
    && (servo + delta < lo ==> turn == delta + 2.0 * PI)
    && (lo <= servo + delta <= hi ==> turn == delta)
    && (lo <= servo + delta && hi < servo + delta ==> turn == delta - 2.0 * PI)
  }

  lemma TurnToIsShortWay(goal: real, chassis: real, servo: real, lo: real, hi: real)
    ensures ShortWay(TurnTo(goal, chassis, servo, lo, hi), goal - chassis - servo, servo, lo, hi)
  {
    hide Normalize, TurnsOff, Turned;
    var gap := goal - chassis - servo;
    NormalizeTurns(gap);
    assert WithinLimits(TurnTo(goal, chassis, servo, lo, hi), Turned(gap, -TurnsOff(gap)), servo, lo, hi);
  }

  lemma PlacedInFrame(axis: Axis, value: real, frame: Values<Frame>, chassis: real, servo: real)
    ensures var r := FixedAxis(axis, value, frame, chassis, servo);
            && (frame.Get(axis) == ChassisFrame ==> r - chassis == value)
            && (frame.Get(axis) != ChassisFrame && frame.yaw == GimbalFrame ==> r - chassis - servo == value)
            && (frame.Get(axis) != ChassisFrame && frame.yaw != GimbalFrame ==>
                  ShortWay(r - chassis - servo, value - chassis - servo, servo, MinAngle(axis), MaxAngle(axis)))
  {
    hide TurnTo, ShortWay;
    TurnToIsShortWay(value, chassis, servo, MinAngle(axis), MaxAngle(axis));
    assert TurnTo(value, chassis, servo, MinAngle(axis), MaxAngle(axis)) + chassis + servo - chassis - servo
        == TurnTo(value, chassis, servo, MinAngle(axis), MaxAngle(axis));
  }

  class Gimbal {
    var servo: Values<real>
    var chassis: Values<real>

    constructor (servo: Values<real>, chassis: Values<real>)
      ensures this.servo == servo && this.chassis == chassis
    {
      this.servo, this.chassis := servo, chassis;
    }

    method FixedAngles(value: Values<real>, frame: Values<Frame>) returns (r: Values<real>)
      ensures r == Values(FixedAxis(Yaw, value.yaw, frame, chassis.yaw, servo.yaw),
                          FixedAxis(Pitch, value.pitch, frame, chassis.pitch, servo.pitch))
      ensures frame.yaw == ChassisFrame ==> r.yaw - chassis.yaw == value.yaw
      ensures frame.pitch == ChassisFrame ==> r.pitch - chassis.pitch == value.pitch
      ensures frame.yaw == GimbalFrame ==> r.yaw - chassis.yaw - servo.yaw == value.yaw
      ensures frame.yaw == GimbalFrame && frame.pitch != ChassisFrame ==>
                r.pitch - chassis.pitch - servo.pitch == value.pitch
      ensures frame.yaw == FixedFrame ==>
                ShortWay(r.yaw - chassis.yaw - servo.yaw, value.yaw - chassis.yaw - servo.yaw, servo.yaw,
                         PI * -250.0 / 180.0, PI * 250.0 / 180.0)
      ensures frame.yaw != GimbalFrame && frame.pitch != ChassisFrame ==>
                ShortWay(r.pitch - chassis.pitch - servo.pitch, value.pitch - chassis.pitch - servo.pitch, servo.pitch,
                         PI * -30.0 / 180.0, PI * 25.0 / 180.0)
    {
      hide Normalize, ShortWay, Turned;
      r := value;
      var axes := [Yaw, Pitch];
      for i := 0 to |axes|
        invariant r == Values(if i > 0 then FixedAxis(Yaw, value.yaw, frame, chassis.yaw, servo.yaw) else value.yaw,
                              if i > 1 then FixedAxis(Pitch, value.pitch, frame, chassis.pitch, servo.pitch)
                              else value.pitch)
      {
        var axis := axes[i];
        var angle, base := servo.Get(axis), chassis.Get(axis);
        if frame.Get(axis) == ChassisFrame {
          r := r.With(axis, r.Get(axis) + base);
        } else if frame.yaw == GimbalFrame {
          r := r.With(axis, r.Get(axis) + base + angle);
        } else {
          var delta := Normalize(r.Get(axis) - base - angle);
          if angle + delta < MinAngle(axis) {
            delta := delta + TURN;
          } else if angle + delta > MaxAngle(axis) {
            delta := delta - TURN;
          }
          r := r.With(axis, delta + base + angle);
        }
      }
      PlacedInFrame(Yaw, value.yaw, frame, chassis.yaw, servo.yaw);
      PlacedInFrame(Pitch, value.pitch, frame, chassis.pitch, servo.pitch);
    }
  }

  // ----- Goals in the fixed frame

  /** How many whole turns lie between the goal and the angle chosen for it. */
  function TurnsTaken(goal: real, chassis: real, servo: real, lo: real, hi: real): int {
    var delta := Normalize(goal - chassis - servo);
    (if servo + delta < lo then 1 else if servo + delta > hi then -1 else 0) - TurnsOff(goal - chassis - servo)
  }

  lemma TurnToCongruent(goal: real, chassis: real, servo: real, lo: real, hi: real)
    ensures TurnTo(goal, chassis, servo, lo, hi) + chassis + servo
              == Turned(goal, TurnsTaken(goal, chassis, servo, lo, hi))
  {
    hide Normalize, TurnsOff;
    var gap := goal - chassis - servo;
    NormalizeTurns(gap);
    var off := TurnsOff(gap);
    assert (1 - off) as real * TURN == TURN - off as real * TURN;
    assert (-1 - off) as real * TURN == -TURN - off as real * TURN;
  }

  /** The servo angle the choice asks for lies within the limits exactly when any angle a whole number of
      turns from the goal does: the single correction is always enough. */
  lemma ReachedIffReachable(goal: real, chassis: real, servo: real, lo: real, hi: real)
    requires lo <= servo <= hi
    ensures lo <= servo + TurnTo(goal, chassis, servo, lo, hi) <= hi
            <==> exists k: int :: lo <= Turned(goal, k) - chassis <= hi
  {
    hide Normalize, TurnsOff;
    var delta := Normalize(goal - chassis - servo);
    var r := servo + TurnTo(goal, chassis, servo, lo, hi);
    var n := TurnsTaken(goal, chassis, servo, lo, hi);
    TurnToCongruent(goal, chassis, servo, lo, hi);
    NormalizeTurns(goal - chassis - servo);
    assert Turned(goal, n) - chassis == r;
    forall k: int | lo <= Turned(goal, k) - chassis <= hi
      ensures lo <= r <= hi
    {
      TurnsApart(goal, k, n);
      WholeTurns(k - n);
    }
  }

  /** The yaw servo turns 250 degrees either way, so every fixed-frame yaw goal is met: the angle is the
      goal up to whole turns and the servo can reach it. */
  lemma YawGoalReached(goal: real, pitchFrame: Frame, chassis: real, servo: real)
    requires MinAngle(Yaw) <= servo <= MaxAngle(Yaw)
    ensures var angle := FixedAxis(Yaw, goal, Values(FixedFrame, pitchFrame), chassis, servo);
            Congruent(angle, goal) && MinAngle(Yaw) <= angle - chassis <= MaxAngle(Yaw)
  {
    hide Normalize;
    TurnToCongruent(goal, chassis, servo, MinAngle(Yaw), MaxAngle(Yaw));
    NormalizeTurns(goal - chassis - servo);
  }

  /** No reachable angle congruent to the goal needs a smaller turn. */
  lemma ShortestReachableTurn(goal: real, chassis: real, servo: real, lo: real, hi: real, k: int)
    requires lo <= servo <= hi
    requires lo <= Turned(goal, k) - chassis <= hi
    ensures Abs(TurnTo(goal, chassis, servo, lo, hi)) <= Abs(Turned(goal, k) - chassis - servo)
  {
    hide Normalize, TurnsOff;
    var n := TurnsTaken(goal, chassis, servo, lo, hi);
    TurnToCongruent(goal, chassis, servo, lo, hi);
    NormalizeTurns(goal - chassis - servo);
    TurnsApart(goal, k, n);
    WholeTurns(k - n);
  }

  // ----- Goals are read in the frame they are given in

  /** What a goal means in the fixed frame. */
  function Meaning(value: real, frame: Frame, chassis: real, servo: real): real {
    match frame
    case ChassisFrame => value + chassis
    case FixedFrame => value
    case GimbalFrame => value + chassis + servo
  }

  ghost predicate Honoured(axis: Axis, value: real, frame: Values<Frame>, chassis: real, servo: real) {
    Congruent(FixedAxis(axis, value, frame, chassis, servo), Meaning(value, frame.Get(axis), chassis, servo))
  }

  lemma CongruentBy(a: real, b: real, k: int)
    requires a == Turned(b, k)
    ensures Congruent(a, b)
  {
  }

  /** The gap to an angle congruent to `b` is congruent to the gap to `b`. */
  lemma CongruentShift(a: real, b: real, c: real, n: int)
    requires a == Turned(b, n)
    ensures Congruent(a, b + c) <==> Congruent(c, 0.0)
    ensures Congruent(b + c, b) <==> Congruent(c, 0.0)
  {
    if Congruent(a, b + c) {
      var k: int :| a == Turned(b + c, k);
      TurnsApart(0.0, n, k);
      assert c == Turned(0.0, n - k);
    }
    if Congruent(c, 0.0) {
      var k: int :| c == Turned(0.0, k);
      TurnsApart(b, n, k);
      assert a == Turned(b + c, n - k);
      assert b + c == Turned(b, k);
    }
    if Congruent(b + c, b) {
      var k: int :| b + c == Turned(b, k);
      assert c == Turned(0.0, k);
    }
  }

  /** Yaw goals are honoured in every combination of frames. */
  lemma YawFrameHonoured(value: real, frame: Values<Frame>, chassis: real, servo: real)
    ensures Honoured(Yaw, value, frame, chassis, servo)
  {
    hide TurnTo;
    if frame.yaw == FixedFrame {
      TurnToCongruent(value, chassis, servo, MinAngle(Yaw), MaxAngle(Yaw));
    } else {
      CongruentBy(FixedAxis(Yaw, value, frame, chassis, servo), Meaning(value, frame.yaw, chassis, servo), 0);
    }
  }

  /** A pitch goal is honoured, up to whole turns, exactly if it is relative to the chassis, or yaw and pitch
      agree on being relative to the gimbal, or the pitch of the gimbal in the fixed frame is zero, up to
      whole turns. */
  lemma PitchFrameHonouredIff(value: real, frame: Values<Frame>, chassis: real, servo: real)
    ensures Honoured(Pitch, value, frame, chassis, servo) <==>
            || frame.pitch == ChassisFrame
            || (frame.yaw == GimbalFrame <==> frame.pitch == GimbalFrame)
            || Congruent(chassis + servo, 0.0)
  {
    hide TurnTo, Congruent, Turned;
    var result, meaning := FixedAxis(Pitch, value, frame, chassis, servo), Meaning(value, frame.pitch, chassis, servo);
    NoTurns(value);
    NoTurns(meaning);
    if frame.pitch == ChassisFrame || (frame.yaw == GimbalFrame && frame.pitch == GimbalFrame) {
      CongruentBy(result, meaning, 0);
    } else if frame.yaw == GimbalFrame {
      CongruentShift(value, value, chassis + servo, 0);
    } else {
      var n := TurnsTaken(value, chassis, servo, MinAngle(Pitch), MaxAngle(Pitch));
      TurnToCongruent(value, chassis, servo, MinAngle(Pitch), MaxAngle(Pitch));
      if frame.pitch == GimbalFrame {
        CongruentShift(result, value, chassis + servo, n);
      } else {
        CongruentBy(result, value, n);
      }
    }
  }

  lemma NoTurns(a: real)
    ensures Turned(a, 0) == a
  {
  }

  /** Not even a goal that is already met is kept: read relative to the gimbal, a fixed-frame pitch goal is
      moved by the pitch of the gimbal. */
  lemma FixedPitchKeptIff(goal: real, chassis: real, servo: real)
    ensures FixedAxis(Pitch, goal, Values(GimbalFrame, FixedFrame), chassis, servo) == goal <==> chassis + servo == 0.0
  {
  }

  /** With the gimbal pitched up by a tenth of a radian, a level pitch goal in the fixed frame is missed
      when yaw is relative to the gimbal, and a pitch goal relative to the gimbal when yaw is not. */
  lemma PitchGoalsMissed(yawFrame: Frame)
    requires yawFrame != GimbalFrame
    ensures !Honoured(Pitch, 0.0, Values(GimbalFrame, FixedFrame), 0.0, 0.1)
    ensures !Honoured(Pitch, 0.0, Values(yawFrame, GimbalFrame), 0.0, 0.1)
  {
    PitchFrameHonouredIff(0.0, Values(GimbalFrame, FixedFrame), 0.0, 0.1);
    PitchFrameHonouredIff(0.0, Values(yawFrame, GimbalFrame), 0.0, 0.1);
    forall k: int
      ensures 0.0 + 0.1 != Turned(0.0, k)
    {
      WholeTurns(k);
    }
  }

  /** A pitch goal relative to the gimbal is read as one in the fixed frame unless yaw is relative to the
      gimbal too; it is then met only if the gimbal is level, up to whole turns. */
  lemma GimbalPitchReadAsFixed(goal: real, yawFrame: Frame, chassis: real, servo: real)
    requires yawFrame != GimbalFrame
    ensures var angle := FixedAxis(Pitch, goal, Values(yawFrame, GimbalFrame), chassis, servo);
            && Congruent(angle, goal)
            && (Congruent(angle, goal + chassis + servo) <==> Congruent(chassis + servo, 0.0))
  {
    TurnToCongruent(goal, chassis, servo, MinAngle(Pitch), MaxAngle(Pitch));
    PitchFrameHonouredIff(goal, Values(yawFrame, GimbalFrame), chassis, servo);
  }
}
