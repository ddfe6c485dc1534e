/** What one tick of the mission does in each mode, read off the state, the clock, the poses and the jaws: which
    command it gives, where it sends the robot, and when it moves on. */
module MissionTicks {
  import opened Geometry
  import opened Mission
  import opened MissionRuns
  import opened NavClient
  import opened Options
  import opened RealMath

  // ----- Distances, bearings and limits

  /** How far away, and in which direction, a point is that is seen from the robot. */
  function Range(cfg: Config, a: Vector): real {
    cfg.maths.sqrt(a.x * a.x + a.y * a.y)
  }

  function Azimuth(cfg: Config, a: Vector): real {
    cfg.atan2(a.y, a.x)
  }

  /** The same from a point of the map or of the odometry. */
  function Distance(cfg: Config, from: Vector, to: Vector): real {
    Range(cfg, Vector(to.x - from.x, to.y - from.y))
  }

  function Bearing(cfg: Config, from: Vector, to: Vector): real {
    Azimuth(cfg, Vector(to.x - from.x, to.y - from.y))
  }

  /** The value nearest to x within the limit, either way; a negative limit is a bound from below. */
  function Capped(x: real, limit: real): real {
    if limit < 0.0 || x < -limit then -limit else if x > limit then limit else x
  }

  lemma BoundedCaps(x: real, limit: real)
    ensures Bounded(x, -limit, limit) == Capped(x, limit)
  {
  }

  lemma LengthIsRange(cfg: Config, a: Vector)
    ensures cfg.Length(a) == Range(cfg, a) && cfg.Heading(a) == Azimuth(cfg, a)
  {
    assert a.Square() == a.x * a.x + a.y * a.y;
  }

  lemma LengthIsDistance(cfg: Config, from: Vector, to: Vector)
    ensures cfg.Length(to.Minus(from)) == Distance(cfg, from, to)
    ensures cfg.Heading(to.Minus(from)) == Bearing(cfg, from, to)
  {
    hide Config.Length, Config.Heading, Range, Azimuth;
    LengthIsRange(cfg, to.Minus(from));
  }

  /** Commands that turn to a bearing on the spot, and that close a gap while keeping to a bearing. */
  function TurnInPlace(cfg: Config, bearing: real): Act {
    Velocity(Capped(0.0, cfg.parkMaxSpeed), Capped(cfg.alignKp * bearing, cfg.alignMaxOmega))
  }

  function Approach(cfg: Config, gap: real, bearing: real): Act {
    Velocity(Capped(0.5 * gap, cfg.parkMaxSpeed), Capped(0.5 * bearing, cfg.alignMaxOmega))
  }

  lemma DrivenIs(cfg: Config, s: State, gap: real, bearing: real)
    ensures s.Driven(cfg, 0.0, TurnRate(cfg, bearing), true) == s.(acts := s.acts + [TurnInPlace(cfg, bearing)])
    ensures s.Driven(cfg, 0.5 * gap, 0.5 * bearing, true) == s.(acts := s.acts + [Approach(cfg, gap, bearing)])
  {
    hide Bounded, Capped;
    BoundedCaps(0.0, cfg.parkMaxSpeed);
    BoundedCaps(TurnRate(cfg, bearing), cfg.alignMaxOmega);
    BoundedCaps(0.5 * gap, cfg.parkMaxSpeed);
    BoundedCaps(0.5 * bearing, cfg.alignMaxOmega);
  }

  lemma ActsTwice(acts: seq<Act>, a: Act, b: Act)
    ensures acts + [a] + [b] == acts + [a, b]
  {
  }

  // ----- Exploration

  lemma NotStartedTick(cfg: Config, s: State, v: View)
    requires !s.started
    ensures s.Ticked(cfg, v) == s.(started := v.ready && s.mapped && v.pose.Some?)
  {
  }

  /** Number k is the first of the points nearest to `at`. */
  ghost predicate FirstNearest(cfg: Config, points: seq<Vector>, at: Vector, k: int) {
    && 0 <= k < |points|
    && (forall i :: 0 <= i < k ==> Distance(cfg, at, points[k]) < Distance(cfg, at, points[i]))
    && (forall i :: k <= i < |points| ==> Distance(cfg, at, points[k]) <= Distance(cfg, at, points[i]))
  }

  lemma {:induction false} NearestIsFirst(cfg: Config, points: seq<Vector>, at: Vector) returns (k: nat)
    requires points != []
    ensures FirstNearest(cfg, points, at, k) && Nearest(cfg, points, at) == points[k]
    decreases |points|
  {
    hide Config.Length, Distance;
    LengthIsDistance(cfg, at, points[|points| - 1]);
    if |points| == 1 {
      k := 0;
    } else {
      var front, last := points[..|points| - 1], points[|points| - 1];
      k := NearestIsFirst(cfg, front, at);
      LengthIsDistance(cfg, at, front[k]);
      assert forall i :: 0 <= i < |front| ==> points[i] == front[i];
      if cfg.Length(last.Minus(at)) < cfg.Length(front[k].Minus(at)) {
        k := |points| - 1;
      }
    }
  }

  /** The goal for the key: short of the cube by the standoff, facing it. */
  function KeyPose(cfg: Config, cube: Vector, at: Vector): Pose {
    var yaw := Bearing(cfg, at, cube);
    Pose(Vector(cube.x - cfg.pickupStandoff * cfg.maths.cos(yaw),
                cube.y - cfg.pickupStandoff * cfg.maths.sin(yaw)), yaw)
  }

  lemma KeyGoalIsKeyPose(cfg: Config, cube: Vector, at: Vector)
    ensures KeyGoal(cfg, cube, at) == KeyPose(cfg, cube, at)
  {
    hide Config.Heading, Bearing;
    LengthIsDistance(cfg, at, cube);
  }

  /** With all three landmarks known exploration ends, and the robot is sent towards the cube as soon as its pose
      is known; whatever goal it had is canceled first. */
  lemma ExploredTick(cfg: Config, s: State, v: View)
    requires s.started && s.mode.Explore? && Cube in s.targets && Plate in s.targets && Door in s.targets
    ensures s.Ticked(cfg, v) ==
            s.(mode := GoToKey,
               nav := if v.pose.None? then s.nav.Canceling()
                      else s.nav.Canceling().Sending(KeyPose(cfg, s.targets[Cube], v.pose.value.at), v.ready))
  {
    hide Client.Canceling, Client.Sending, KeyGoal, KeyPose;
    AllThree(s.targets);
    if v.pose.Some? {
      KeyGoalIsKeyPose(cfg, s.targets[Cube], v.pose.value.at);
    }
  }

  lemma AllThree(targets: map<Landmark, Vector>)
    requires Cube in targets && Plate in targets && Door in targets
    ensures |targets| == 3
  {
    var all := {Cube, Plate, Door};
    forall name | name in targets.Keys
      ensures name in all
    {
      assert name.Cube? || name.Plate? || name.Door?;
    }
    assert targets.Keys == all;
    assert |targets.Keys| == |targets|;
  }

  /** Until then a tick that finds the robot under way, or nowhere to go, does nothing; otherwise it sends the robot
      to the first of the nearest frontiers, facing away from where it is.  Without a map the node fails. */
  lemma ExploringTick(cfg: Config, s: State, v: View)
    requires s.started && s.mode.Explore? && (Cube !in s.targets || Plate !in s.targets || Door !in s.targets)
    ensures var t := s.Ticked(cfg, v);
            if s.nav.active then t == s
            else if !s.mapped then t == s.(failed := true)
            else if v.frontiers == [] || v.pose.None? then t == s
            else
              var at := v.pose.value.at;
              exists k :: FirstNearest(cfg, v.frontiers, at, k)
                          && t == s.(nav := s.nav.Sending(Pose(v.frontiers[k], Bearing(cfg, at, v.frontiers[k])),
                                                          v.ready))
  {
    hide Client.Canceling, Client.Sending, Nearest, FirstNearest;
    if |s.targets| == 3 {
      AllLandmarks(s.targets);
    } else if v.frontiers != [] && v.pose.Some? {
      var k := NearestIsFirst(cfg, v.frontiers, v.pose.value.at);
      FrontierInRange(cfg, v.frontiers, v.pose.value.at, k);
      LengthIsDistance(cfg, v.pose.value.at, v.frontiers[k]);
    }
  }

  lemma FrontierInRange(cfg: Config, points: seq<Vector>, at: Vector, k: int)
    requires FirstNearest(cfg, points, at, k)
    ensures 0 <= k < |points|
  {
  }

  // ----- What is noted between ticks

  /** A landmark is remembered where it was first seen, or seen again more than 0.1 away; nothing else changes. */
  lemma LandmarkSeen(cfg: Config, s: State, name: Landmark, at: Vector)
    requires !s.failed
    ensures var t := Apply(cfg, s, SeeTarget(name, at));
            var kept := name in s.targets && Distance(cfg, s.targets[name], at) <= 0.1;
            t == s.(targets := t.targets)
            && (forall other :: other in t.targets <==> other in s.targets || other == name)
            && (forall other :: other in s.targets && (other != name || kept) ==> t.targets[other] == s.targets[other])
            && (!kept ==> t.targets[name] == at)
  {
    hide Config.Length, Distance;
    if name in s.targets {
      LengthIsDistance(cfg, s.targets[name], at);
    }
  }

  /** The last sighting of the cube, the arrival of a map and the answers of the server are noted, and a node that
      has failed takes note of nothing. */
  lemma Noted(cfg: Config, s: State, e: Event)
    requires !e.Tick? && !e.SeeTarget?
    ensures var t := Apply(cfg, s, e);
            && t == s.(cubeLive := t.cubeLive, mapped := t.mapped, nav := t.nav)
            && t.cubeLive == (if e.SeeCube? && !s.failed then Some(Sighting(e.at, e.clock)) else s.cubeLive)
            && (t.mapped <==> s.mapped || (e.GetMap? && !s.failed))
            && (s.failed || !(e.AnswerGoal? || e.FinishGoal?) ==> t.nav == s.nav)
            && (!s.failed && e.AnswerGoal? ==> t.nav == s.nav.Answered(e.goal, e.accepted))
            && (!s.failed && e.FinishGoal? ==> t.nav == s.nav.Resulted(e.goal, e.status))
  {
    hide Client.Answered, Client.Resulted;
  }

  // ----- The legs

  /** On the way to the key: waits, tries again after a failure, and opens the jaws once it has arrived. */
  lemma GoToKeyTick(cfg: Config, s: State, v: View)
    requires s.started && s.mode.GoToKey? && Cube in s.targets
    ensures s.Ticked(cfg, v) ==
            if s.nav.active then s
            else if s.nav.succeeded then
              s.(mode := PickupOpen, actionT := v.clock, lungeActive := false, lungeStart := None,
                 nav := s.nav.Canceling(), acts := s.acts + [Velocity(0.0, 0.0), JawsOpen])
            else if v.pose.None? then s
            else s.(nav := s.nav.Sending(KeyPose(cfg, s.targets[Cube], v.pose.value.at), v.ready))
  {
    hide Client.Canceling, Client.Sending, KeyGoal, KeyPose;
    ActsTwice(s.acts, HALT, JawsOpen);
    if v.pose.Some? {
      KeyGoalIsKeyPose(cfg, s.targets[Cube], v.pose.value.at);
    }
  }

  /** On the way to the plate: likewise, up to the final alignment. */
  lemma GoToPlateTick(cfg: Config, s: State, v: View)
    requires s.started && s.mode.GoToPlate? && Plate in s.targets
    ensures s.Ticked(cfg, v) ==
            if s.nav.active then s
            else if s.nav.succeeded then
              s.(mode := DropAlign, nav := s.nav.Canceling(), acts := s.acts + [Velocity(0.0, 0.0)])
            else if v.pose.None? then s
            else
              s.(nav := s.nav.Sending(Pose(s.targets[Plate], Bearing(cfg, v.pose.value.at, s.targets[Plate])), v.ready))
  {
    hide Client.Canceling, Client.Sending;
    if v.pose.Some? {
      LengthIsDistance(cfg, v.pose.value.at, s.targets[Plate]);
    }
  }

  // ----- Waiting for the jaws

  /** The robot stands still until the jaws report that they are open, or the time is up. */
  lemma PickupOpenTick(cfg: Config, s: State, v: View)
    requires s.started && s.mode.PickupOpen?
    ensures var halted := s.(acts := s.acts + [Velocity(0.0, 0.0)]);
            s.Ticked(cfg, v) ==
            if v.jaws == Some(1) || v.clock - s.actionT >= cfg.gripperTimeout
            then halted.(mode := PickupAlign, nav := s.nav.Canceling())
            else halted
  {
    hide Client.Canceling;
  }

  /** Once the jaws are closed the cube is hidden from the sensors and carried to the plate. */
  lemma PickupCloseTick(cfg: Config, s: State, v: View)
    requires s.started && s.mode.PickupClose? && Plate in s.targets
    ensures s.Ticked(cfg, v) ==
            if v.jaws == Some(2) || v.clock - s.actionT >= cfg.gripperTimeout then
              s.(mode := GoToPlate, acts := s.acts + [Velocity(0.0, 0.0), CubeHidden],
                 nav := if v.pose.None? then s.nav.Canceling()
                        else s.nav.Canceling().Sending(
                               Pose(s.targets[Plate], Bearing(cfg, v.pose.value.at, s.targets[Plate])), v.ready))
            else s.(acts := s.acts + [Velocity(0.0, 0.0)])
  {
    hide Client.Canceling, Client.Sending;
    ActsTwice(s.acts, HALT, CubeHidden);
    if v.pose.Some? {
      LengthIsDistance(cfg, v.pose.value.at, s.targets[Plate]);
    }
  }

  /** Once the jaws are open and the odometry is known, the cube is shown again and the retreat starts from here. */
  lemma DropOpenTick(cfg: Config, s: State, v: View)
    requires s.started && s.mode.DropOpen?
    ensures s.Ticked(cfg, v) ==
            if (v.jaws == Some(1) || v.clock - s.actionT >= cfg.gripperTimeout) && v.odom.Some? then
              s.(mode := DropBackup, backupStart := v.odom, nav := s.nav.Canceling(),
                 acts := s.acts + [Velocity(0.0, 0.0), CubeShown])
            else s.(acts := s.acts + [Velocity(0.0, 0.0)])
  {
    hide Client.Canceling;
    ActsTwice(s.acts, HALT, CubeShown);
  }

  // ----- Picking up

  /** Without a sighting of the cube that is recent enough, alignment waits. */
  lemma BlindAlignTick(cfg: Config, s: State, v: View)
    requires s.started && s.mode.PickupAlign? && !s.lungeActive
    requires s.cubeLive.None? || v.clock - s.cubeLive.value.stamp > cfg.cubeLiveTimeout
    ensures s.Ticked(cfg, v) == s
  {
  }

  /** With one, the robot turns to the cube on the spot, drives up to it, and from the start distance on goes into
      the lunge, for what then remains of the way up to the engage distance less the margin. */
  lemma AlignTick(cfg: Config, s: State, v: View)
    requires s.started && s.mode.PickupAlign? && !s.lungeActive
    requires s.cubeLive.Some? && v.clock - s.cubeLive.value.stamp <= cfg.cubeLiveTimeout
    ensures var range, bearing := Range(cfg, s.cubeLive.value.at), Azimuth(cfg, s.cubeLive.value.at);
            var left := range - cfg.engageDist - cfg.lungeMargin;
            s.Ticked(cfg, v) ==
            if bearing > cfg.alignYawTol || bearing < -cfg.alignYawTol then
              s.(acts := s.acts + [TurnInPlace(cfg, bearing)])
            else if range > cfg.lungeStart then
              s.(acts := s.acts + [Approach(cfg, range - cfg.engageDist, bearing)])
            else if v.odom.None? then s
            else
              s.(lungeActive := true, lungeStart := v.odom, lungeDist := if left > 0.0 then left else 0.0,
                 acts := s.acts + [Velocity(0.0, 0.0)])
  {
    hide Config.Length, Config.Heading, Range, Azimuth, State.Driven, TurnRate, TurnInPlace, Approach;
    var at := s.cubeLive.value.at;
    LengthIsRange(cfg, at);
    DrivenIs(cfg, s, cfg.Length(at) - cfg.engageDist, cfg.Heading(at));
  }

  /** The lunge drives forward, at the parking speed, until the odometry has covered its distance, and the jaws then
      close; the heading follows the cube while it is seen. */
  lemma LungeTick(cfg: Config, s: State, v: View)
    requires s.started && s.mode.PickupAlign? && s.lungeActive && v.odom.Some? && s.lungeStart.Some?
    ensures var seen := s.cubeLive.Some? && v.clock - s.cubeLive.value.stamp <= cfg.cubeLiveTimeout;
            var bearing := if seen then Azimuth(cfg, s.cubeLive.value.at) else 0.0;
            s.Ticked(cfg, v) ==
            if Distance(cfg, s.lungeStart.value, v.odom.value) < s.lungeDist then
              s.(acts := s.acts + [Velocity(cfg.parkMaxSpeed, Capped(0.5 * bearing, cfg.alignMaxOmega))])
            else
              s.(mode := PickupClose, actionT := v.clock, lungeActive := false, nav := s.nav.Canceling(),
                 acts := s.acts + [Velocity(0.0, 0.0), JawsClose])
  {
    hide Config.Length, Config.Heading, Distance, Range, Azimuth, Bounded, Capped, TurnRate, Client.Canceling;
    LengthIsDistance(cfg, s.lungeStart.value, v.odom.value);
    if s.cubeLive.Some? {
      LengthIsRange(cfg, s.cubeLive.value.at);
    }
    BoundedCaps(0.5 * s.LungeBearing(cfg, v), cfg.alignMaxOmega);
    ActsTwice(s.acts, HALT, JawsClose);
  }

  // ----- Dropping

  /** The plate as seen from the robot: forward and to the left. */
  function Seen(cfg: Config, pose: Pose, at: Vector): Vector {
    var c, s := cfg.maths.cos(-pose.theta), cfg.maths.sin(-pose.theta);
    var x, y := at.x - pose.at.x, at.y - pose.at.y;
    Vector(c * x - s * y, s * x + c * y)
  }

  /** The robot turns to the plate on the spot, then goes to where the cube it carries is over the centre, and opens
      the jaws there. */
  lemma DropAlignTick(cfg: Config, s: State, v: View)
    requires s.started && s.mode.DropAlign? && v.pose.Some? && Plate in s.targets
    ensures var plate := Seen(cfg, v.pose.value, s.targets[Plate]);
            var bearing := Azimuth(cfg, plate);
            var gap := Range(cfg, plate) - cfg.engageDist - cfg.lungeMargin;
            s.Ticked(cfg, v) ==
            if bearing > cfg.alignYawTol || bearing < -cfg.alignYawTol then
              s.(acts := s.acts + [TurnInPlace(cfg, bearing)])
            else if -0.03 <= gap <= 0.03 then
              s.(mode := DropOpen, actionT := v.clock, nav := s.nav.Canceling(),
                 acts := s.acts + [Velocity(0.0, 0.0), JawsOpen])
            else
              s.(acts := s.acts + [Approach(cfg, gap, bearing)])
  {
    hide Config.Length, Config.Heading, Range, Azimuth, InBase, Seen, Client.Canceling, State.Driven, TurnRate,
         TurnInPlace, Approach;
    SeenInBase(cfg, v.pose.value, s.targets[Plate]);
    var plate := Seen(cfg, v.pose.value, s.targets[Plate]);
    LengthIsRange(cfg, plate);
    DrivenIs(cfg, s, cfg.Length(plate) - (cfg.engageDist + cfg.lungeMargin), cfg.Heading(plate));
    ActsTwice(s.acts, HALT, JawsOpen);
  }

  lemma SeenInBase(cfg: Config, pose: Pose, at: Vector)
    ensures Seen(cfg, pose, at) == InBase(cfg, pose, at)
  {
  }

  /** The retreat drives straight back at the parking speed until the odometry is far enough from its start. */
  lemma BackUpTick(cfg: Config, s: State, v: View)
    requires s.started && s.mode.DropBackup? && v.odom.Some? && s.backupStart.Some?
    ensures s.Ticked(cfg, v) ==
            if Distance(cfg, s.backupStart.value, v.odom.value) < cfg.dropBackup then
              s.(acts := s.acts + [Velocity(-cfg.parkMaxSpeed,
                                            if cfg.alignMaxOmega >= 0.0 then 0.0 else -cfg.alignMaxOmega)])
            else
              s.(mode := Done, nav := s.nav.Canceling(), acts := s.acts + [Velocity(0.0, 0.0)])
  {
    hide Config.Length, Distance, Bounded, Client.Canceling;
    LengthIsDistance(cfg, s.backupStart.value, v.odom.value);
    BoundedCaps(0.0, cfg.alignMaxOmega);
  }

  /** Without the pose it is measured by, or the start it is measured from, no such tick commands anything; nor does
      any tick once the mission is done. */
  lemma UnmeasuredTick(cfg: Config, s: State, v: View)
    requires s.started
    requires || s.mode.Done?
             || (s.mode.DropAlign? && v.pose.None?)
             || ((s.mode.DropBackup? || (s.mode.PickupAlign? && s.lungeActive)) && v.odom.None?)
    ensures s.Ticked(cfg, v) == s
  {
  }

  // ----- The retreat over whole runs

  predicate FarTick(cfg: Config, start: Vector, e: Event) {
    e.Tick? && e.view.odom.Some? && Distance(cfg, start, e.view.odom.value) >= cfg.dropBackup
  }

  predicate NearTick(cfg: Config, start: Vector, e: Event) {
    e.Tick? && e.view.odom.Some? && Distance(cfg, start, e.view.odom.value) < cfg.dropBackup
  }

  ghost predicate WasFar(cfg: Config, start: Vector, events: seq<Event>) {
    exists e :: e in events && FarTick(cfg, start, e)
  }

  /** How many ticks have read the odometry before one of them found it far enough from the start. */
  ghost function TicksShort(cfg: Config, start: Vector, events: seq<Event>): nat {
    if events == [] then 0
    else
      var front, e := events[..|events| - 1], events[|events| - 1];
      TicksShort(cfg, start, front) + if NearTick(cfg, start, e) && !WasFar(cfg, start, front) then 1 else 0
  }

  function Repeated(act: Act, n: nat): (r: seq<Act>)
    ensures |r| == n && forall i :: 0 <= i < n ==> r[i] == act
  {
    seq(n, i => act)
  }

  /** The retreat after some events: the same command back for every tick that was short, and a halt at the end. */
  ghost predicate Retreated(cfg: Config, s: State, r: State, n: nat, far: bool) {
    && !r.failed && r.started && r.backupStart == s.backupStart
    && r.mode == (if far then Done else DropBackup)
    && r.acts == s.acts + Repeated(Velocity(-cfg.parkMaxSpeed, 0.0), n) + (if far then [Velocity(0.0, 0.0)] else [])
  }

  lemma RetreatStep(cfg: Config, s: State, r: State, e: Event, n: nat, far: bool)
    requires s.backupStart.Some? && cfg.alignMaxOmega >= 0.0 && Retreated(cfg, s, r, n, far)
    ensures var near := NearTick(cfg, s.backupStart.value, e) && !far;
            Retreated(cfg, s, Apply(cfg, r, e), if near then n + 1 else n, far || FarTick(cfg, s.backupStart.value, e))
  {
    hide State.Ticked, Distance;
    var back, halt := Velocity(-cfg.parkMaxSpeed, 0.0), Velocity(0.0, 0.0);
    assert s.acts + Repeated(back, n) + [] + [back] == s.acts + Repeated(back, n + 1) + [];
    assert s.acts + Repeated(back, n) + [] + [halt] == s.acts + Repeated(back, n) + [halt];
    if e.Tick? {
      if far || e.view.odom.None? {
        UnmeasuredTick(cfg, r, e.view);
      } else {
        BackUpTick(cfg, r, e.view);
      }
    }
  }

  /** Whatever else happens, the retreat commands nothing but straight back at the parking speed, once per tick that
      reads the odometry, halts at the first that finds it far enough from the start, and is silent from then on. */
  lemma {:induction false} RetreatRun(cfg: Config, s: State, events: seq<Event>)
    requires cfg.alignMaxOmega >= 0.0
    requires !s.failed && s.started && s.mode.DropBackup? && s.backupStart.Some?
    ensures var start := s.backupStart.value;
            Retreated(cfg, s, Run(cfg, s, events), TicksShort(cfg, start, events), WasFar(cfg, start, events))
    decreases |events|
  {
    hide Apply, FarTick, NearTick;
    if events == [] {
      assert s.acts + [] + [] == s.acts;
    } else {
      var front, e := events[..|events| - 1], events[|events| - 1];
      RetreatRun(cfg, s, front);
      assert forall x :: x in events <==> x in front || x == e;
      RetreatStep(cfg, s, Run(cfg, s, front), e, TicksShort(cfg, s.backupStart.value, front),
                  WasFar(cfg, s.backupStart.value, front));
    }
  }
}
