/** The mission of the escape room: a state machine driven by a timer, by detections and by the callbacks
    of the navigation client. */
module Mission {
  import opened Geometry
  import opened NavClient
  import opened Options
  import opened RealMath

  datatype Mode =
    | Explore | GoToKey | PickupOpen | PickupAlign | PickupClose | GoToPlate | DropAlign | DropOpen | DropBackup | Done

  datatype Landmark = Cube | Plate | Door

  /** Everything the mission does to the robot and to the scene besides navigation. */
  datatype Act =
    | JawsOpen
    | JawsClose
    | CubeHidden
    | CubeShown
    | Velocity(linear: real, angular: real)

  const HALT := Velocity(0.0, 0.0)

  /** Codes of the gripper's script. */
  const OPENED: int := 1
  const CLOSED: int := 2

  datatype Config = Config(
    pickupStandoff: real,
    parkMaxSpeed: real,
    alignYawTol: real,
    alignKp: real,
    alignMaxOmega: real,
    gripperTimeout: real,
    engageDist: real,
    cubeLiveTimeout: real,
    lungeStart: real,
    lungeMargin: real,
    dropBackup: real,
    maths: Maths,
    atan2: (real, real) -> real)
  {
    function Length(v: Vector): real {
      maths.sqrt(v.Square())
    }

    function Heading(v: Vector): real {
      atan2(v.y, v.x)
    }

    /** The parameters the node declares. */
    predicate Default() {
      && pickupStandoff == 0.9 && parkMaxSpeed == 0.06 && alignYawTol == 0.08 && alignKp == 1.5 && alignMaxOmega == 0.6
      && gripperTimeout == 4.0 && engageDist == 0.177 && cubeLiveTimeout == 0.8 && lungeStart == 0.9
      && lungeMargin == 0.03 && dropBackup == 0.25
    }
  }

  /** What a tick can see: the navigation server, the clock, the poses and the gripper, each of which may
      not be available, and the frontiers of the current map. */
  datatype View = View(
    ready: bool,
    clock: real,
    pose: Option<Pose>,
    odom: Option<Vector>,
    jaws: Option<int>,
    frontiers: seq<Vector>)

  datatype Sighting = Sighting(at: Vector, stamp: real)

  /** Keeps `x` between the bounds, the lower one winning if they are crossed. */
  function Bounded(x: real, lo: real, hi: real): real {
    Max(lo, Min(hi, x))
  }

  function TurnRate(cfg: Config, bearing: real): real {
    cfg.alignKp * bearing
  }

  /** The first of the nearest points. */
  function Nearest(cfg: Config, points: seq<Vector>, at: Vector): (best: Vector)
    requires points != []
    ensures best in points && forall p :: p in points ==> cfg.Length(best.Minus(at)) <= cfg.Length(p.Minus(at))
  {
    if |points| == 1 then points[0]
    else
      var front, last := points[..|points| - 1], points[|points| - 1];
      var best := Nearest(cfg, front, at);
      if cfg.Length(last.Minus(at)) < cfg.Length(best.Minus(at)) then last else best
  }

  function FrontierGoal(cfg: Config, v: View, at: Vector): Pose
    requires v.frontiers != []
  {
    var f := Nearest(cfg, v.frontiers, at);
    Pose(f, cfg.Heading(f.Minus(at)))
  }

  function KeyGoal(cfg: Config, cube: Vector, at: Vector): Pose {
    var yaw := cfg.Heading(cube.Minus(at));
    var back := Vector(cfg.pickupStandoff * cfg.maths.cos(yaw), cfg.pickupStandoff * cfg.maths.sin(yaw));
    Pose(Vector(cube.x - back.x, cube.y - back.y), yaw)
  }

  function PlateGoal(cfg: Config, plate: Vector, at: Vector): Pose {
    Pose(plate, cfg.Heading(plate.Minus(at)))
  }

  /** The jaws count as having reached a state also when the time is up. */
  predicate Reached(cfg: Config, v: View, since: real, code: int) {
    v.clock - since >= cfg.gripperTimeout || v.jaws == Some(code)
  }

  /** A position in the map as seen from the robot. */
  function InBase(cfg: Config, pose: Pose, at: Vector): Vector {
    at.Minus(pose.at).Rotate(cfg.maths.cos(-pose.theta), cfg.maths.sin(-pose.theta))
  }

  datatype State = State(
    mode: Mode,
    started: bool,
    mapped: bool,
    targets: map<Landmark, Vector>,
    actionT: real,
    cubeLive: Option<Sighting>,
    lungeActive: bool,
    lungeStart: Option<Vector>,
    lungeDist: real,
    backupStart: Option<Vector>,
    nav: Client,
    acts: seq<Act>,
    failed: bool)
  {
    // ----- Commands

    function Did(act: Act): State {
      this.(acts := acts + [act])
    }

    function Driven(cfg: Config, linear: real, angular: real, capLinear: bool): State {
      Did(Velocity(if capLinear then Bounded(linear, -cfg.parkMaxSpeed, cfg.parkMaxSpeed) else linear,
                   Bounded(angular, -cfg.alignMaxOmega, cfg.alignMaxOmega)))
    }

    function Moved(to: Mode): State {
      this.(nav := nav.Canceling(), mode := to)
    }

    function SentTo(target: Pose, v: View): State {
      this.(nav := nav.Sending(target, v.ready))
    }

    function Failed(): State {
      this.(failed := true)
    }

    /** Without a pose nothing is sent; an unknown landmark would be an uncaught error. */
    function NavToKey(cfg: Config, v: View): State {
      if v.pose.None? then this
      else if Cube !in targets then Failed()
      else SentTo(KeyGoal(cfg, targets[Cube], v.pose.value.at), v)
    }

    function NavToPlate(cfg: Config, v: View): State {
      if v.pose.None? then this
      else if Plate !in targets then Failed()
      else SentTo(PlateGoal(cfg, targets[Plate], v.pose.value.at), v)
    }

    predicate CubeFresh(cfg: Config, v: View) {
      cubeLive.Some? && v.clock - cubeLive.value.stamp <= cfg.cubeLiveTimeout
    }

    /** The heading is kept on the cube while it is seen. */
    function LungeBearing(cfg: Config, v: View): real {
      if CubeFresh(cfg, v) then cfg.Heading(cubeLive.value.at) else 0.0
    }

    function CubeEngaged(v: View): State {
      Moved(PickupClose).(actionT := v.clock).Did(JawsClose)
    }

    // ----- One tick in each mode

    function Exploring(cfg: Config, v: View): State {
      if |targets| == 3 then Moved(GoToKey).NavToKey(cfg, v)
      else if nav.active then this
      else if !mapped then Failed()
      else if v.frontiers == [] || v.pose.None? then this
      else SentTo(FrontierGoal(cfg, v, v.pose.value.at), v)
    }

    function GoingToKey(cfg: Config, v: View): State {
      if nav.active then this
      else if !nav.succeeded then NavToKey(cfg, v)
      else
        Did(HALT).(lungeActive := false, lungeStart := None).Moved(PickupOpen).(actionT := v.clock).Did(JawsOpen)
    }

    function OpeningForPickup(cfg: Config, v: View): State {
      if Reached(cfg, v, actionT, OPENED) then Did(HALT).Moved(PickupAlign) else Did(HALT)
    }

    function Aligning(cfg: Config, v: View): State {
      if lungeActive then Lunging(cfg, v)
      else if !CubeFresh(cfg, v) then this
      else
        var at := cubeLive.value.at;
        var range, bearing := cfg.Length(at), cfg.Heading(at);
        if Abs(bearing) > cfg.alignYawTol then Driven(cfg, 0.0, TurnRate(cfg, bearing), true)
        else if range > cfg.lungeStart then Driven(cfg, 0.5 * (range - cfg.engageDist), 0.5 * bearing, true)
        else if v.odom.None? then this
        else
          this.(lungeActive := true, lungeStart := v.odom,
                lungeDist := Max(0.0, range - cfg.engageDist - cfg.lungeMargin)).Did(HALT)
    }

    function Lunging(cfg: Config, v: View): State {
      if v.odom.None? then this
      else if lungeStart.None? then Failed()
      else if cfg.Length(v.odom.value.Minus(lungeStart.value)) >= lungeDist then
        Did(HALT).(lungeActive := false).CubeEngaged(v)
      else Driven(cfg, cfg.parkMaxSpeed, 0.5 * LungeBearing(cfg, v), false)
    }

    function ClosingJaws(cfg: Config, v: View): State {
      if Reached(cfg, v, actionT, CLOSED) then Did(HALT).Did(CubeHidden).Moved(GoToPlate).NavToPlate(cfg, v)
      else Did(HALT)
    }

    function GoingToPlate(cfg: Config, v: View): State {
      if nav.active then this
      else if !nav.succeeded then NavToPlate(cfg, v)
      else Did(HALT).Moved(DropAlign)
    }

    function AligningDrop(cfg: Config, v: View): State {
      if v.pose.None? then this
      else if Plate !in targets then Failed()
      else
        var plate := InBase(cfg, v.pose.value, targets[Plate]);
        var bearing := cfg.Heading(plate);
        var err := cfg.Length(plate) - (cfg.engageDist + cfg.lungeMargin);
        if Abs(bearing) > cfg.alignYawTol then Driven(cfg, 0.0, TurnRate(cfg, bearing), true)
        else if Abs(err) <= 0.03 then Did(HALT).Moved(DropOpen).(actionT := v.clock).Did(JawsOpen)
        else Driven(cfg, 0.5 * err, 0.5 * bearing, true)
    }

    function OpeningForDrop(cfg: Config, v: View): State {
      if !Reached(cfg, v, actionT, OPENED) || v.odom.None? then Did(HALT)
      else Did(HALT).Did(CubeShown).(backupStart := v.odom).Moved(DropBackup)
    }

    function BackingUp(cfg: Config, v: View): State {
      if v.odom.None? then this
      else if backupStart.None? then Failed()
      else if cfg.Length(v.odom.value.Minus(backupStart.value)) >= cfg.dropBackup then Did(HALT).Moved(Done)
      else Driven(cfg, -cfg.parkMaxSpeed, 0.0, false)
    }

    function Handled(cfg: Config, v: View): State {
      match mode
      case Explore => Exploring(cfg, v)
      case GoToKey => GoingToKey(cfg, v)
      case PickupOpen => OpeningForPickup(cfg, v)
      case PickupAlign => Aligning(cfg, v)
      case PickupClose => ClosingJaws(cfg, v)
      case GoToPlate => GoingToPlate(cfg, v)
      case DropAlign => AligningDrop(cfg, v)
      case DropOpen => OpeningForDrop(cfg, v)
      case DropBackup => BackingUp(cfg, v)
      case Done => this
    }

    function Ticked(cfg: Config, v: View): State {
      if started then Handled(cfg, v)
      else this.(started := v.ready && mapped && v.pose.Some?)
    }

    /** A landmark that moved by at most 0.1 is left where it was. */
    function TargetSeen(cfg: Config, name: Landmark, at: Vector): State {
      if name in targets && cfg.Length(at.Minus(targets[name])) <= 0.1 then this
      else this.(targets := targets[name := at])
    }
  }

  const BEGIN := State(Explore, false, false, map[], 0.0, None, false, None, 0.0, None, IDLE, [], false)

  class ExplorerNode {
    const cfg: Config
    const nav: NavClient
    var mode: Mode
    var started: bool
    var mapped: bool
    var targets: map<Landmark, Vector>
    var actionT: real
    var cubeLive: Option<Sighting>
    var lungeActive: bool
    var lungeStart: Option<Vector>
    var lungeDist: real
    var backupStart: Option<Vector>
    var acts: seq<Act>
    var failed: bool

    constructor (cfg: Config)
      ensures this.cfg == cfg && fresh(nav) && Current() == BEGIN
    {
      this.cfg := cfg;
      nav := new NavClient();
      mode, started, mapped, targets, actionT, cubeLive := Explore, false, false, map[], 0.0, None;
      lungeActive, lungeStart, lungeDist, backupStart, acts, failed := false, None, 0.0, None, [], false;
    }

    function Current(): State
      reads this, nav
    {
      State(mode, started, mapped, targets, actionT, cubeLive, lungeActive, lungeStart, lungeDist, backupStart,
            nav.State(), acts, failed)
    }

    method OnMap()
      modifies this
      ensures Current() == old(Current()).(mapped := true)
    {
      mapped := true;
    }

    method OnTarget(name: Landmark, at: Vector)
      modifies this
      ensures Current() == old(Current()).TargetSeen(cfg, name, at)
    {
      if name in targets {
        var known := targets[name];
        if cfg.Length(at.Minus(known)) <= 0.1 {
          return;
        }
      }
      targets := targets[name := at];
    }

    method OnCubeLive(at: Vector, clock: real)
      modifies this
      ensures Current() == old(Current()).(cubeLive := Some(Sighting(at, clock)))
    {
      cubeLive := Some(Sighting(at, clock));
    }

    method Stop()
      modifies this
      ensures Current() == old(Current()).Did(HALT)
    {
      acts := acts + [HALT];
    }

    method Drive(linear: real, angular: real, capLinear: bool := true)
      modifies this
      ensures Current() == old(Current()).Driven(cfg, linear, angular, capLinear)
    {
      var x := if capLinear then Bounded(linear, -cfg.parkMaxSpeed, cfg.parkMaxSpeed) else linear;
      acts := acts + [Velocity(x, Bounded(angular, -cfg.alignMaxOmega, cfg.alignMaxOmega))];
    }

    method Transition(to: Mode)
      modifies this, nav
      ensures Current() == old(Current()).Moved(to)
    {
      nav.Cancel();
      mode := to;
    }

    method NavGoToKey(v: View)
      modifies this, nav
      ensures Current() == old(Current()).NavToKey(cfg, v)
    {
      if v.pose.None? {
        return;
      }
      if Cube !in targets {
        failed := true;
        return;
      }
      var _ := nav.Send(KeyGoal(cfg, targets[Cube], v.pose.value.at), v.ready);
    }

    method NavGoToPlate(v: View)
      modifies this, nav
      ensures Current() == old(Current()).NavToPlate(cfg, v)
    {
      if v.pose.None? {
        return;
      }
      if Plate !in targets {
        failed := true;
        return;
      }
      var _ := nav.Send(PlateGoal(cfg, targets[Plate], v.pose.value.at), v.ready);
    }

    method Exploration(v: View)
      modifies this, nav
      ensures Current() == old(Current()).Exploring(cfg, v)
    {
      if |targets| == 3 {
        Transition(GoToKey);
        NavGoToKey(v);
        return;
      }
      if nav.active {
        return;
      }
      if !mapped {
        failed := true;
        return;
      }
      if v.frontiers == [] {
        return;
      }
      if v.pose.None? {
        return;
      }
      var _ := nav.Send(FrontierGoal(cfg, v, v.pose.value.at), v.ready);
    }

    method GoToTheKey(v: View)
      modifies this, nav
      ensures Current() == old(Current()).GoingToKey(cfg, v)
    {
      hide State.Moved, Bounded;
      if nav.active {
        return;
      }
      if !nav.succeeded {
        NavGoToKey(v);
        return;
      }
      Stop();
      lungeActive := false;
      lungeStart := None;
      Transition(PickupOpen);
      actionT := v.clock;
      acts := acts + [JawsOpen];
    }

    method GoToThePlate(v: View)
      modifies this, nav
      ensures Current() == old(Current()).GoingToPlate(cfg, v)
    {
      hide State.Moved;
      if nav.active {
        return;
      }
      if !nav.succeeded {
        NavGoToPlate(v);
        return;
      }
      Stop();
      Transition(DropAlign);
    }

    method OpenForPickup(v: View)
      modifies this, nav
      ensures Current() == old(Current()).OpeningForPickup(cfg, v)
    {
      Stop();
      if Reached(cfg, v, actionT, OPENED) {
        Transition(PickupAlign);
      }
    }

    method CloseJaws(v: View)
      modifies this, nav
      ensures Current() == old(Current()).ClosingJaws(cfg, v)
    {
      hide State.Moved, Bounded;
      Stop();
      if Reached(cfg, v, actionT, CLOSED) {
        acts := acts + [CubeHidden];
        Transition(GoToPlate);
        NavGoToPlate(v);
      }
    }

    method AlignPickup(v: View)
      modifies this, nav
      ensures Current() == old(Current()).Aligning(cfg, v)
    {
      hide State.Moved, TurnRate, Bounded;
      if lungeActive {
        Lunge(v);
        return;
      }
      if !Current().CubeFresh(cfg, v) {
        return;
      }
      var at := cubeLive.value.at;
      var range := cfg.Length(at);
      var bearing := cfg.Heading(at);
      if Abs(bearing) > cfg.alignYawTol {
        Drive(0.0, TurnRate(cfg, bearing));
        return;
      }
      if range <= cfg.lungeStart {
        if v.odom.None? {
          return;
        }
        lungeActive := true;
        lungeStart := v.odom;
        lungeDist := Max(0.0, range - cfg.engageDist - cfg.lungeMargin);
        Stop();
        return;
      }
      Drive(0.5 * (range - cfg.engageDist), 0.5 * bearing);
    }

    method Lunge(v: View)
      modifies this, nav
      ensures Current() == old(Current()).Lunging(cfg, v)
    {
      hide State.CubeEngaged, State.LungeBearing, Config.Length, Bounded;
      if v.odom.None? {
        return;
      }
      if lungeStart.None? {
        failed := true;
        return;
      }
      var advanced := cfg.Length(v.odom.value.Minus(lungeStart.value));
      if advanced >= lungeDist {
        Stop();
        lungeActive := false;
        EngageCube(v);
        return;
      }
      Drive(cfg.parkMaxSpeed, 0.5 * Current().LungeBearing(cfg, v), false);
    }

    method EngageCube(v: View)
      modifies this, nav
      ensures Current() == old(Current()).CubeEngaged(v)
    {
      hide State.Moved;
      Transition(PickupClose);
      actionT := v.clock;
      acts := acts + [JawsClose];
    }

    method AlignDrop(v: View)
      modifies this, nav
      ensures Current() == old(Current()).AligningDrop(cfg, v)
    {
      hide InBase, State.Moved, TurnRate, Bounded;
      if v.pose.None? {
        return;
      }
      if Plate !in targets {
        failed := true;
        return;
      }
      var plate := InBase(cfg, v.pose.value, targets[Plate]);
      var bearing := cfg.Heading(plate);
      if Abs(bearing) > cfg.alignYawTol {
        Drive(0.0, TurnRate(cfg, bearing));
        return;
      }
      var carried := cfg.engageDist + cfg.lungeMargin;
      var err := cfg.Length(plate) - carried;
      if Abs(err) <= 0.03 {
        Stop();
        Transition(DropOpen);
        actionT := v.clock;
        acts := acts + [JawsOpen];
        return;
      }
      Drive(0.5 * err, 0.5 * bearing);
    }

    method OpenForDrop(v: View)
      modifies this, nav
      ensures Current() == old(Current()).OpeningForDrop(cfg, v)
    {
      hide State.Moved, Bounded;
      Stop();
      if !Reached(cfg, v, actionT, OPENED) {
        return;
      }
      if v.odom.None? {
        return;
      }
      acts := acts + [CubeShown];
      backupStart := v.odom;
      Transition(DropBackup);
    }

    method BackUp(v: View)
      modifies this, nav
      ensures Current() == old(Current()).BackingUp(cfg, v)
    {
      hide State.Moved, Bounded;
      if v.odom.None? {
        return;
      }
      if backupStart.None? {
        failed := true;
        return;
      }
      var advanced := cfg.Length(v.odom.value.Minus(backupStart.value));
      if advanced >= cfg.dropBackup {
        Stop();
        Transition(Done);
        return;
      }
      Drive(-cfg.parkMaxSpeed, 0.0, false);
    }

    method Tick(v: View)
      modifies this, nav
      ensures Current() == old(Current()).Ticked(cfg, v)
    {
      hide State.Exploring, State.GoingToKey, State.OpeningForPickup, State.Aligning, State.ClosingJaws,
           State.GoingToPlate, State.AligningDrop, State.OpeningForDrop, State.BackingUp;
      if !started {
        if v.ready && mapped && v.pose.Some? {
          started := true;
        }
        return;
      }
      match mode {
        case Explore => Exploration(v);
        case GoToKey => GoToTheKey(v);
        case PickupOpen => OpenForPickup(v);
        case PickupAlign => AlignPickup(v);
        case PickupClose => CloseJaws(v);
        case GoToPlate => GoToThePlate(v);
        case DropAlign => AlignDrop(v);
        case DropOpen => OpenForDrop(v);
        case DropBackup => BackUp(v);
        case Done =>
      }
    }
  }
}
