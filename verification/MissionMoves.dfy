/** Where the mission's moves end up: the goals it sends, the landmarks it remembers, and how far from the
    plate's centre the cube is dropped. */
module MissionMoves {
  import opened Geometry
  import opened Mission
  import opened MissionRuns
  import opened Options
  import opened RealMath

  /** The laws used: those of the maths, polar coordinates, and the parabola below the cosine. */
  ghost predicate LawfulConfig(cfg: Config) {
    && cfg.maths.Lawful()
    && (forall v: Vector :: v == Vector(cfg.Length(v) * cfg.maths.cos(cfg.Heading(v)),
                                        cfg.Length(v) * cfg.maths.sin(cfg.Heading(v))))
    && (forall a :: 1.0 - cfg.maths.cos(a) <= a * a / 2.0)
  }

  /** The point `length` ahead of a pose. */
  function Ahead(cfg: Config, pose: Pose, length: real): Vector {
    pose.at.Plus(Vector(cfg.maths.cos(pose.theta), cfg.maths.sin(pose.theta)).Times(length))
  }

  // ----- Goals

  /** The goal for the key faces the cube at exactly the standoff distance, on the line from the robot. */
  lemma KeyGoalStandsOff(cfg: Config, cube: Vector, at: Vector)
    requires LawfulConfig(cfg)
    ensures var goal := KeyGoal(cfg, cube, at);
            && Ahead(cfg, goal, cfg.pickupStandoff) == cube
            && goal.at.Minus(cube).Square() == cfg.pickupStandoff * cfg.pickupStandoff
            && cube.Minus(goal.at).Times(cfg.Length(cube.Minus(at))) == cube.Minus(at).Times(cfg.pickupStandoff)
  {
    hide LawfulConfig, Config.Length, Config.Heading, Maths.Lawful;
    var gap := cube.Minus(at);
    var yaw, k, d := cfg.Heading(gap), cfg.pickupStandoff, cfg.Length(gap);
    var c, s := cfg.maths.cos(yaw), cfg.maths.sin(yaw);
    LawsAt(cfg, gap);
    UnitSquare(k, c, s);
    KeyGoalAlgebra(cube, gap, k, d, c, s);
    assert KeyGoal(cfg, cube, at) == Pose(Vector(cube.x - k * c, cube.y - k * s), yaw);
  }

  /** The laws for one vector and the angle of its heading. */
  lemma LawsAt(cfg: Config, v: Vector)
    requires LawfulConfig(cfg)
    ensures cfg.maths.Lawful()
    ensures var a := cfg.Heading(v);
            && v == Vector(cfg.Length(v) * cfg.maths.cos(a), cfg.Length(v) * cfg.maths.sin(a))
            && cfg.maths.cos(a) * cfg.maths.cos(a) + cfg.maths.sin(a) * cfg.maths.sin(a) == 1.0
            && 1.0 - cfg.maths.cos(a) <= a * a / 2.0
  {
    hide Config.Length, Config.Heading;
  }

  lemma KeyGoalAlgebra(cube: Vector, gap: Vector, k: real, d: real, c: real, s: real)
    requires c * c + s * s == 1.0 && gap == Vector(d * c, d * s)
    ensures var at := Vector(cube.x - k * c, cube.y - k * s);
            && at.Plus(Vector(c, s).Times(k)) == cube
            && at.Minus(cube).Square() == k * k
            && cube.Minus(at).Times(d) == gap.Times(k)
  {
    UnitSquare(k, c, s);
    CrossProducts(k, d, c);
    CrossProducts(k, d, s);
  }

  lemma UnitSquare(k: real, c: real, s: real)
    requires c * c + s * s == 1.0
    ensures (k * c) * (k * c) + (k * s) * (k * s) == k * k
  {
    assert (k * c) * (k * c) + (k * s) * (k * s) == k * k * (c * c + s * s);
  }

  lemma CrossProducts(k: real, d: real, c: real)
    ensures (k * c) * d == (d * c) * k
  {
  }

  // ----- Landmarks

  /** The last report of a landmark. */
  function LastSeen(events: seq<Event>, name: Landmark): Option<Vector> {
    if events == [] then None
    else
      var e := events[|events| - 1];
      if e.SeeTarget? && e.name == name then Some(e.at) else LastSeen(events[..|events| - 1], name)
  }

  lemma TickKeepsTargets(cfg: Config, s: State, e: Event)
    requires Sound(s) && !e.SeeTarget?
    ensures Apply(cfg, s, e).targets == s.targets
  {
    hide Sound, NavStep, State.Handled;
    var mid, last := ApplyStep(cfg, s, e);
  }

  lemma NoDistance(cfg: Config, at: Vector)
    requires cfg.maths.Lawful()
    ensures cfg.Length(at.Minus(at)) == 0.0
  {
    hide Maths.Lawful, Config.Length, Vector.Square, Vector.Minus;
    LengthSquared(cfg, at.Minus(at));
    NoSquare(at);
    RootOfZero(cfg.Length(at.Minus(at)), at.Minus(at).Square());
  }

  /** In every run a landmark is known exactly if it was reported, and remembered within 0.1 of its last
      report, however many small moves were ignored. */
  lemma {:induction false} TargetsFollow(cfg: Config, events: seq<Event>, name: Landmark)
    requires cfg.maths.Lawful()
    ensures var r := Run(cfg, BEGIN, events);
            && (name in r.targets <==> LastSeen(events, name).Some?)
            && (name in r.targets ==> cfg.Length(LastSeen(events, name).value.Minus(r.targets[name])) <= 0.1)
    decreases |events|
  {
    hide Sound, Config.Length, State.Ticked, Maths.Lawful;
    if events != [] {
      var front, last := events[..|events| - 1], events[|events| - 1];
      TargetsFollow(cfg, front, name);
      BeginSound();
      AlwaysSound(cfg, BEGIN, front);
      var s := Run(cfg, BEGIN, front);
      SoundRuns(s);
      if last.SeeTarget? {
        NoDistance(cfg, last.at);
      } else {
        TickKeepsTargets(cfg, s, last);
      }
    }
  }

  lemma SoundRuns(s: State)
    requires Sound(s)
    ensures !s.failed
  {
  }

  // ----- Directions

  predicate SameSign(x: real, y: real) {
    (x > 0.0 <==> y > 0.0) && (x < 0.0 <==> y < 0.0)
  }

  /** Positive gains and limits. */
  predicate Tuned(cfg: Config) {
    cfg.alignKp > 0.0 && cfg.parkMaxSpeed > 0.0 && cfg.alignMaxOmega > 0.0 && cfg.alignYawTol >= 0.0
  }

  lemma BoundedSign(x: real, limit: real)
    requires limit > 0.0
    ensures SameSign(Bounded(x, -limit, limit), x)
  {
  }

  lemma TurnSign(cfg: Config, bearing: real)
    requires Tuned(cfg)
    ensures SameSign(TurnRate(cfg, bearing), bearing)
  {
    if bearing > 0.0 {
      ProductPositive(cfg.alignKp, bearing);
    } else if bearing < 0.0 {
      ProductPositive(cfg.alignKp, -bearing);
      assert cfg.alignKp * -bearing == -(cfg.alignKp * bearing);
    }
  }

  /** A velocity that turns towards `bearing`, on the spot while that is beyond the tolerance, and moves
      in the direction of `gap` otherwise. */
  ghost predicate Towards(cfg: Config, act: Act, gap: real, bearing: real) {
    && act.Velocity? && SameSign(act.angular, bearing)
    && (if Abs(bearing) > cfg.alignYawTol then act.linear == 0.0 else SameSign(act.linear, gap))
  }

  lemma DrivenTowards(cfg: Config, s: State, gap: real, bearing: real)
    requires Tuned(cfg)
    ensures var t := if Abs(bearing) > cfg.alignYawTol then s.Driven(cfg, 0.0, TurnRate(cfg, bearing), true)
                     else s.Driven(cfg, 0.5 * gap, 0.5 * bearing, true);
            && t == s.(acts := t.acts) && |t.acts| == |s.acts| + 1
            && Towards(cfg, t.acts[|s.acts|], gap, bearing)
  {
    hide TurnRate, Bounded;
    TurnSign(cfg, bearing);
    BoundedSign(TurnRate(cfg, bearing), cfg.alignMaxOmega);
    BoundedSign(0.5 * bearing, cfg.alignMaxOmega);
    BoundedSign(0.5 * gap, cfg.parkMaxSpeed);
    BoundedSign(0.0, cfg.parkMaxSpeed);
  }

  /** While a tick leaves the robot aligning, it closes in: on the cube up to the engage distance, or on the
      point from which the carried cube is over the plate. */
  lemma AligningCloses(cfg: Config, s: State, v: View)
    requires Tuned(cfg) && s.mode.PickupAlign? && !s.lungeActive && s.CubeFresh(cfg, v)
    requires s.Aligning(cfg, v).acts != s.acts && !s.Aligning(cfg, v).lungeActive
    ensures var t := s.Aligning(cfg, v);
            var at := s.cubeLive.value.at;
            |t.acts| == |s.acts| + 1 && Towards(cfg, t.acts[|s.acts|], cfg.Length(at) - cfg.engageDist, cfg.Heading(at))
  {
    hide Config.Length, Config.Heading, TurnRate, State.Driven, Towards;
    var at := s.cubeLive.value.at;
    var gap, bearing := cfg.Length(at) - cfg.engageDist, cfg.Heading(at);
    DrivenTowards(cfg, s, gap, bearing);
  }

  lemma DropAligningCloses(cfg: Config, s: State, v: View)
    requires Tuned(cfg) && s.mode.DropAlign? && v.pose.Some? && Plate in s.targets
    requires s.AligningDrop(cfg, v).mode.DropAlign?
    ensures var t := s.AligningDrop(cfg, v);
            var at := InBase(cfg, v.pose.value, s.targets[Plate]);
            |t.acts| == |s.acts| + 1
            && Towards(cfg, t.acts[|s.acts|], cfg.Length(at) - (cfg.engageDist + cfg.lungeMargin), cfg.Heading(at))
  {
    hide Config.Length, Config.Heading, TurnRate, State.Driven, Towards, InBase;
    var at := InBase(cfg, v.pose.value, s.targets[Plate]);
    var gap, bearing := cfg.Length(at) - (cfg.engageDist + cfg.lungeMargin), cfg.Heading(at);
    DrivenTowards(cfg, s, gap, bearing);
  }

  // ----- The drop

  /** Where the carried cube is, seen from the robot and from the plate. */
  lemma CubeFromPlate(cfg: Config, pose: Pose, plate: Vector, carried: real)
    requires LawfulConfig(cfg)
    ensures var b := InBase(cfg, pose, plate);
            Ahead(cfg, pose, carried).Minus(plate).Square() == Vector(carried, 0.0).Minus(b).Square()
  {
    hide Config.Length, Config.Heading;
    var c, s := cfg.maths.cos(pose.theta), cfg.maths.sin(pose.theta);
    assert cfg.maths.cos(-pose.theta) == c && cfg.maths.sin(-pose.theta) == -s && c * c + s * s == 1.0;
    MinusUnit(c, s);
    var gap := Ahead(cfg, pose, carried).Minus(plate);
    var ahead := Vector(c, s).Times(carried);
    assert gap == ahead.Minus(plate.Minus(pose.at));
    RotateLinear(ahead, plate.Minus(pose.at), c, -s);
    AheadInBase(c, s, carried);
    RotateKeepsSquare(gap, c, -s);
  }

  lemma MinusUnit(c: real, s: real)
    requires c * c + s * s == 1.0
    ensures c * c + (-s) * (-s) == 1.0
  {
  }

  lemma AheadInBase(c: real, s: real, k: real)
    requires c * c + s * s == 1.0
    ensures Vector(c, s).Times(k).Rotate(c, -s) == Vector(k, 0.0)
  {
    assert c * k * c - s * k * -s == k * (c * c + s * s);
    assert c * k * -s + s * k * c == 0.0;
  }

  /** The law of cosines. */
  lemma LawOfCosines(k: real, d: real, c: real, s: real, versine: real)
    requires c * c + s * s == 1.0 && versine == 1.0 - c
    ensures Vector(k, 0.0).Minus(Vector(d * c, d * s)).Square() == (d - k) * (d - k) + 2.0 * (d * k) * versine
  {
    UnitSquare(d, c, s);
    assert (k - d * c) * (k - d * c) == k * k - 2.0 * (d * k) * c + (d * c) * (d * c);
    assert (0.0 - d * s) * (0.0 - d * s) == (d * s) * (d * s);
    assert (d - k) * (d - k) == d * d - 2.0 * (d * k) + k * k;
    assert 2.0 * (d * k) * versine == 2.0 * (d * k) - 2.0 * (d * k) * c;
  }

  lemma SquareBelow(x: real, limit: real)
    requires Abs(x) <= limit
    ensures x * x <= limit * limit
  {
    ProductMonotone(Abs(x), limit, Abs(x));
    ProductMonotone(Abs(x), limit, limit);
  }

  lemma DropBound(k: real, d: real, bearing: real, tol: real, versine: real)
    requires k >= 0.0 && d >= 0.0 && Abs(d - k) <= 0.03 && Abs(bearing) <= tol
    requires versine <= bearing * bearing / 2.0
    ensures (d - k) * (d - k) + 2.0 * (d * k) * versine <= 0.0009 + (k + 0.03) * k * (tol * tol)
  {
    SquareBelow(d - k, 0.03);
    SquareBelow(bearing, tol);
    ProductMonotone(d, k + 0.03, k);
    ProductMonotone(0.0, d, k);
    var dk, most, square := d * k, (k + 0.03) * k, tol * tol;
    assert 0.0 <= dk <= most && 2.0 * versine <= square;
    ProductMonotone(2.0 * versine, square, dk);
    assert 0.0 <= square;
    ProductMonotone(dk, most, square);
    assert 2.0 * dk * versine == (2.0 * versine) * dk && square * dk == dk * square;
  }

  /** When the jaws are told to drop the cube, it is over the plate's centre up to the two tolerances:
      3 cm along, and the yaw tolerance across. */
  lemma DropNearPlate(cfg: Config, s: State, v: View)
    requires LawfulConfig(cfg) && cfg.engageDist + cfg.lungeMargin >= 0.0
    requires Sound(s) && s.mode.DropAlign? && s.Handled(cfg, v).mode.DropOpen?
    ensures v.pose.Some?
    ensures var k := cfg.engageDist + cfg.lungeMargin;
            Ahead(cfg, v.pose.value, k).Minus(s.targets[Plate]).Square()
              <= 0.0009 + (k + 0.03) * k * (cfg.alignYawTol * cfg.alignYawTol)
  {
    hide Sound, LawfulConfig, InBase, State.Handled, Config.Length, Config.Heading, Maths.Lawful, Ahead, Vector.Square;
    SoundPlate(s);
    var plate := s.targets[Plate];
    var k := cfg.engageDist + cfg.lungeMargin;
    DropIsAimed(cfg, s, v);
    var b := InBase(cfg, v.pose.value, plate);
    CubeFromPlate(cfg, v.pose.value, plate, k);
    AimedSquare(cfg, b, k);
  }

  lemma AimedSquare(cfg: Config, b: Vector, k: real)
    requires LawfulConfig(cfg) && k >= 0.0
    requires Abs(cfg.Heading(b)) <= cfg.alignYawTol && Abs(cfg.Length(b) - k) <= 0.03
    ensures Vector(k, 0.0).Minus(b).Square() <= 0.0009 + (k + 0.03) * k * (cfg.alignYawTol * cfg.alignYawTol)
  {
    hide LawfulConfig, Config.Length, Config.Heading, Maths.Lawful, Vector.Square, Vector.Minus, Abs;
    LawsAt(cfg, b);
    LengthSquared(cfg, b);
    var a := cfg.Heading(b);
    AimedAlgebra(b, k, cfg.Length(b), cfg.maths.cos(a), cfg.maths.sin(a), a, cfg.alignYawTol);
  }

  lemma AimedAlgebra(b: Vector, k: real, d: real, c: real, s: real, bearing: real, tol: real)
    requires b == Vector(d * c, d * s) && c * c + s * s == 1.0 && 1.0 - c <= bearing * bearing / 2.0
    requires k >= 0.0 && d >= 0.0 && Abs(d - k) <= 0.03 && Abs(bearing) <= tol
    ensures Vector(k, 0.0).Minus(b).Square() <= 0.0009 + (k + 0.03) * k * (tol * tol)
  {
    hide Vector.Square, Vector.Minus, Abs;
    var versine := 1.0 - c;
    LawOfCosines(k, d, c, s, versine);
    DropBound(k, d, bearing, tol, versine);
  }

  lemma SoundPlate(s: State)
    requires Sound(s) && s.mode.DropAlign?
    ensures Plate in s.targets
  {
  }

  lemma DropIsAimed(cfg: Config, s: State, v: View)
    requires s.mode.DropAlign? && Plate in s.targets && s.Handled(cfg, v).mode.DropOpen?
    ensures v.pose.Some?
    ensures var b := InBase(cfg, v.pose.value, s.targets[Plate]);
            Abs(cfg.Heading(b)) <= cfg.alignYawTol && Abs(cfg.Length(b) - (cfg.engageDist + cfg.lungeMargin)) <= 0.03
  {
    hide InBase, TurnRate, Config.Length, Config.Heading;
  }

  /** With the parameters the node declares, that is less than 3.5 cm from the centre of the plate, which is
      30 cm wide. */
  lemma DefaultDropNearPlate(cfg: Config, s: State, v: View)
    requires LawfulConfig(cfg) && cfg.Default()
    requires Sound(s) && s.mode.DropAlign? && s.Handled(cfg, v).mode.DropOpen?
    ensures v.pose.Some?
    ensures cfg.Length(Ahead(cfg, v.pose.value, cfg.engageDist + cfg.lungeMargin).Minus(s.targets[Plate])) < 0.035
  {
    hide Sound, State.Handled, Ahead, Vector.Square;
    SoundPlate(s);
    DropNearPlate(cfg, s, v);
    var gap := Ahead(cfg, v.pose.value, cfg.engageDist + cfg.lungeMargin).Minus(s.targets[Plate]);
    var length := cfg.Length(gap);
    LengthSquared(cfg, gap);
    var k := cfg.engageDist + cfg.lungeMargin;
    assert (k + 0.03) * k * (cfg.alignYawTol * cfg.alignYawTol) == 0.237 * 0.207 * 0.0064;
    if length >= 0.035 {
      SquareBelow(0.035, length);
    }
  }

  lemma LengthSquared(cfg: Config, v: Vector)
    requires cfg.maths.Lawful()
    ensures cfg.Length(v) >= 0.0 && cfg.Length(v) * cfg.Length(v) == v.Square()
  {
    SquareNonNegative(v);
  }
}
