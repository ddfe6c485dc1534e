/** The mission over whole runs, under any interleaving of ticks, detections and navigation callbacks. */
module MissionRuns {
  import opened Geometry
  import opened Mission
  import opened NavClient
  import opened Options
  import opened RealMath

  datatype Event =
    | Tick(view: View)
    | SeeTarget(name: Landmark, at: Vector)
    | SeeCube(at: Vector, clock: real)
    | GetMap
    | AnswerGoal(goal: nat, accepted: bool)
    | FinishGoal(goal: nat, status: Status)

  /** An uncaught error ends the node. */
  function Apply(cfg: Config, s: State, e: Event): State {
    if s.failed then s
    else
      match e
      case Tick(v) => s.Ticked(cfg, v)
      case SeeTarget(name, at) => s.TargetSeen(cfg, name, at)
      case SeeCube(at, clock) => s.(cubeLive := Some(Sighting(at, clock)))
      case GetMap => s.(mapped := true)
      case AnswerGoal(goal, accepted) => s.(nav := s.nav.Answered(goal, accepted))
      case FinishGoal(goal, status) => s.(nav := s.nav.Resulted(goal, status))
  }

  function Run(cfg: Config, s: State, events: seq<Event>): State
    decreases |events|
  {
    if events == [] then s else Apply(cfg, Run(cfg, s, events[..|events| - 1]), events[|events| - 1])
  }

  // ----- What every run keeps

  /** The place of a mode in the chain. */
  function Rank(mode: Mode): nat {
    match mode
    case Explore => 0
    case GoToKey => 1
    case PickupOpen => 2
    case PickupAlign => 3
    case PickupClose => 4
    case GoToPlate => 5
    case DropAlign => 6
    case DropOpen => 7
    case DropBackup => 8
    case Done => 9
  }

  /** Everything done but driving. */
  function Story(acts: seq<Act>): seq<Act> {
    if acts == [] then []
    else
      var last := acts[|acts| - 1];
      Story(acts[..|acts| - 1]) + if last.Velocity? then [] else [last]
  }

  /** The whole story of a mission, and how much of it has been told in each mode. */
  const SCRIPT: seq<Act> := [JawsOpen, JawsClose, CubeHidden, JawsOpen, CubeShown]

  function Told(mode: Mode): nat {
    match mode
    case Explore => 0
    case GoToKey => 0
    case PickupOpen => 1
    case PickupAlign => 1
    case PickupClose => 2
    case GoToPlate => 3
    case DropAlign => 3
    case DropOpen => 4
    case DropBackup => 5
    case Done => 5
  }

  predicate Navigating(mode: Mode) {
    mode.Explore? || mode.GoToKey? || mode.GoToPlate?
  }

  ghost predicate Sound(s: State) {
    && !s.failed
    && (s.started ==> s.mapped)
    && (!s.mode.Explore? ==> Cube in s.targets && Plate in s.targets && Door in s.targets)
    && (s.nav.active ==> Navigating(s.mode))
    && (s.lungeActive ==> s.mode.PickupAlign? && s.lungeStart.Some?)
    && (s.mode.DropBackup? ==> s.backupStart.Some?)
    && Story(s.acts) == SCRIPT[..Told(s.mode)]
    && CountCancels(s.nav.log) == Rank(s.mode)
    && FlagsTell(s.nav)
    && (Rank(s.mode) >= 2 ==> SuccessInLeg(s.nav.log, 1))
    && (Rank(s.mode) >= 6 ==> SuccessInLeg(s.nav.log, 5))
  }

  /** Three landmarks are all landmarks. */
  lemma AllLandmarks(targets: map<Landmark, Vector>)
    requires |targets| == 3
    ensures Cube in targets && Plate in targets && Door in targets
  {
    var all := {Cube, Plate, Door};
    forall name | name in targets.Keys
      ensures name in all
    {
      assert name.Cube? || name.Plate? || name.Door?;
    }
    if targets.Keys != all {
      SmallerSet(targets.Keys, all);
    }
  }

  lemma SmallerSet<T>(a: set<T>, b: set<T>)
    requires a <= b && a != b
    ensures |a| < |b|
  {
    var x :| x in b && x !in a;
    var rest := b - {x};
    assert a <= rest && |rest| == |b| - 1;
    assert a + (rest - a) == rest;
  }

  lemma StoryNext(acts: seq<Act>, act: Act)
    ensures Story(acts + [act]) == Story(acts) + if act.Velocity? then [] else [act]
  {
    assert (acts + [act])[..|acts|] == acts;
  }

  /** What a tick does to the client: at most one cancel, when the mode changes, and then at most one send,
      never while a goal is active. */
  ghost predicate NavStep(c: Client, mid: Client, last: seq<Entry>, next: Client, moved: bool) {
    && mid == (if moved then c.Canceling() else c)
    && |last| <= 1
    && (last == [] ==> next == mid)
    && (last != [] ==> Follows(mid, last[0], next) && (last[0].Sent? ==> !mid.active) && !last[0].CancelCalled?)
  }

  lemma SendStep(s: State, target: Pose, v: View) returns (last: seq<Entry>)
    requires !s.nav.active
    ensures NavStep(s.nav, s.nav, last, s.SentTo(target, v).nav, false)
  {
    last := if v.ready then [Sent(s.nav.sent, target)] else [];
  }

  lemma KeyStep(cfg: Config, s: State, v: View) returns (last: seq<Entry>)
    requires !s.nav.active && Cube in s.targets
    ensures NavStep(s.nav, s.nav, last, s.NavToKey(cfg, v).nav, false)
    ensures s.NavToKey(cfg, v) == s.(nav := s.NavToKey(cfg, v).nav)
  {
    hide KeyGoal;
    last := [];
    if v.pose.Some? {
      last := SendStep(s, KeyGoal(cfg, s.targets[Cube], v.pose.value.at), v);
    }
  }

  lemma PlateStep(cfg: Config, s: State, v: View) returns (last: seq<Entry>)
    requires !s.nav.active && Plate in s.targets
    ensures NavStep(s.nav, s.nav, last, s.NavToPlate(cfg, v).nav, false)
    ensures s.NavToPlate(cfg, v) == s.(nav := s.NavToPlate(cfg, v).nav)
  {
    hide PlateGoal;
    last := [];
    if v.pose.Some? {
      last := SendStep(s, PlateGoal(cfg, s.targets[Plate], v.pose.value.at), v);
    }
  }

  lemma ScriptNext(k: nat)
    requires k < |SCRIPT|
    ensures SCRIPT[..k] + [SCRIPT[k]] == SCRIPT[..k + 1]
  {
  }

  /** What a tick may change: the mode advances by at most one, and the story keeps up with it. */
  ghost predicate TickStep(s: State, t: State, mid: Client, last: seq<Entry>) {
    && !t.failed && t.targets == s.targets && t.started == s.started && t.mapped == s.mapped
    && (t.mode == s.mode || Rank(t.mode) == Rank(s.mode) + 1)
    && NavStep(s.nav, mid, last, t.nav, t.mode != s.mode)
    && Story(t.acts) == SCRIPT[..Told(t.mode)]
    && (t.lungeActive ==> t.mode.PickupAlign? && t.lungeStart.Some?)
    && (t.mode.DropBackup? ==> t.backupStart.Some?)
    && (t.mode != s.mode && s.mode.Explore? ==> |s.targets| == 3)
    && (t.mode != s.mode && (s.mode.GoToKey? || s.mode.GoToPlate?) ==> s.nav.succeeded && !s.nav.active)
    && (t.nav.active ==> Navigating(t.mode))
  }

  lemma ExploringStep(cfg: Config, s: State, v: View) returns (mid: Client, last: seq<Entry>)
    requires Sound(s) && s.started && s.mode.Explore?
    ensures TickStep(s, s.Exploring(cfg, v), mid, last)
  {
    hide Story, FlagsTell, SuccessInLeg, FrontierGoal, State.NavToKey, CountCancels;
    mid, last := s.nav, [];
    if |s.targets| == 3 {
      AllLandmarks(s.targets);
      mid := s.nav.Canceling();
      last := KeyStep(cfg, s.Moved(GoToKey), v);
    } else if !s.nav.active && v.frontiers != [] && v.pose.Some? {
      last := SendStep(s, FrontierGoal(cfg, v, v.pose.value.at), v);
    }
  }

  lemma GoingToKeyStep(cfg: Config, s: State, v: View) returns (mid: Client, last: seq<Entry>)
    requires Sound(s) && s.mode.GoToKey?
    ensures TickStep(s, s.GoingToKey(cfg, v), mid, last)
  {
    hide Story, FlagsTell, SuccessInLeg, State.NavToKey, CountCancels;
    mid, last := s.nav, [];
    if !s.nav.active && !s.nav.succeeded {
      last := KeyStep(cfg, s, v);
    } else if !s.nav.active {
      mid := s.nav.Canceling();
      StoryNext(s.acts, HALT);
      StoryNext(s.acts + [HALT], JawsOpen);
      ScriptNext(0);
    }
  }

  lemma OpeningForPickupStep(cfg: Config, s: State, v: View) returns (mid: Client, last: seq<Entry>)
    requires Sound(s) && s.mode.PickupOpen?
    ensures TickStep(s, s.OpeningForPickup(cfg, v), mid, last)
  {
    hide Story, FlagsTell, SuccessInLeg, CountCancels, Reached;
    mid, last := if Reached(cfg, v, s.actionT, OPENED) then s.nav.Canceling() else s.nav, [];
    StoryNext(s.acts, HALT);
  }

  lemma DrivenTells(cfg: Config, s: State, linear: real, angular: real, capLinear: bool)
    ensures var t := s.Driven(cfg, linear, angular, capLinear);
            t == s.(acts := t.acts) && Story(t.acts) == Story(s.acts)
  {
    hide Story;
    StoryNext(s.acts, s.Driven(cfg, linear, angular, capLinear).acts[|s.acts|]);
    assert Story(s.acts) + [] == Story(s.acts);
  }

  lemma LungingStep(cfg: Config, s: State, v: View) returns (mid: Client, last: seq<Entry>)
    requires Sound(s) && s.mode.PickupAlign? && s.lungeActive
    ensures TickStep(s, s.Lunging(cfg, v), mid, last)
  {
    hide Story, FlagsTell, SuccessInLeg, CountCancels, Config.Length, State.LungeBearing, Bounded;
    var t := s.Lunging(cfg, v);
    mid, last := if t.mode.PickupClose? then s.nav.Canceling() else s.nav, [];
    StoryNext(s.acts, HALT);
    StoryNext(s.acts + [HALT], JawsClose);
    ScriptNext(1);
    if t.acts != s.acts {
      StoryNext(s.acts, t.acts[|s.acts|]);
    }
  }

  lemma AligningStep(cfg: Config, s: State, v: View) returns (mid: Client, last: seq<Entry>)
    requires Sound(s) && s.mode.PickupAlign?
    ensures TickStep(s, s.Aligning(cfg, v), mid, last)
  {
    hide Story, FlagsTell, SuccessInLeg, CountCancels, Config.Length, Config.Heading, TurnRate, State.CubeFresh,
         State.Lunging, Bounded;
    if s.lungeActive {
      mid, last := LungingStep(cfg, s, v);
    } else {
      mid, last := s.nav, [];
      var t := s.Aligning(cfg, v);
      if t.acts != s.acts {
        StoryNext(s.acts, t.acts[|s.acts|]);
      }
    }
  }

  lemma ClosingJawsStep(cfg: Config, s: State, v: View) returns (mid: Client, last: seq<Entry>)
    requires Sound(s) && s.mode.PickupClose?
    ensures TickStep(s, s.ClosingJaws(cfg, v), mid, last)
  {
    hide Story, FlagsTell, SuccessInLeg, CountCancels, Reached, State.NavToPlate;
    mid, last := s.nav, [];
    StoryNext(s.acts, HALT);
    if Reached(cfg, v, s.actionT, CLOSED) {
      mid := s.nav.Canceling();
      StoryNext(s.acts + [HALT], CubeHidden);
      ScriptNext(2);
      last := PlateStep(cfg, s.Did(HALT).Did(CubeHidden).Moved(GoToPlate), v);
    }
  }

  lemma GoingToPlateStep(cfg: Config, s: State, v: View) returns (mid: Client, last: seq<Entry>)
    requires Sound(s) && s.mode.GoToPlate?
    ensures TickStep(s, s.GoingToPlate(cfg, v), mid, last)
  {
    hide Story, FlagsTell, SuccessInLeg, State.NavToPlate, CountCancels;
    mid, last := s.nav, [];
    if !s.nav.active && !s.nav.succeeded {
      last := PlateStep(cfg, s, v);
    } else if !s.nav.active {
      mid := s.nav.Canceling();
      StoryNext(s.acts, HALT);
    }
  }

  lemma AligningDropStep(cfg: Config, s: State, v: View) returns (mid: Client, last: seq<Entry>)
    requires Sound(s) && s.mode.DropAlign?
    ensures TickStep(s, s.AligningDrop(cfg, v), mid, last)
  {
    hide Story, FlagsTell, SuccessInLeg, CountCancels, Config.Length, Config.Heading, TurnRate, InBase, State.Driven;
    mid, last := if s.AligningDrop(cfg, v).mode.DropOpen? then s.nav.Canceling() else s.nav, [];
    StoryNext(s.acts, HALT);
    StoryNext(s.acts + [HALT], JawsOpen);
    ScriptNext(3);
    if v.pose.Some? {
      var plate := InBase(cfg, v.pose.value, s.targets[Plate]);
      DrivenTells(cfg, s, 0.0, TurnRate(cfg, cfg.Heading(plate)), true);
      DrivenTells(cfg, s, 0.5 * (cfg.Length(plate) - (cfg.engageDist + cfg.lungeMargin)), 0.5 * cfg.Heading(plate),
                  true);
    }
  }

  lemma OpeningForDropStep(cfg: Config, s: State, v: View) returns (mid: Client, last: seq<Entry>)
    requires Sound(s) && s.mode.DropOpen?
    ensures TickStep(s, s.OpeningForDrop(cfg, v), mid, last)
  {
    hide Story, FlagsTell, SuccessInLeg, CountCancels, Reached;
    mid, last := if Reached(cfg, v, s.actionT, OPENED) && v.odom.Some? then s.nav.Canceling() else s.nav, [];
    StoryNext(s.acts, HALT);
    StoryNext(s.acts + [HALT], CubeShown);
    ScriptNext(4);
  }

  lemma BackingUpStep(cfg: Config, s: State, v: View) returns (mid: Client, last: seq<Entry>)
    requires Sound(s) && s.mode.DropBackup?
    ensures TickStep(s, s.BackingUp(cfg, v), mid, last)
  {
    hide Story, FlagsTell, SuccessInLeg, CountCancels, Config.Length;
    var t := s.BackingUp(cfg, v);
    mid, last := if t.mode.Done? then s.nav.Canceling() else s.nav, [];
    if t.acts != s.acts {
      StoryNext(s.acts, t.acts[|s.acts|]);
    }
  }

  lemma HandledStep(cfg: Config, s: State, v: View) returns (mid: Client, last: seq<Entry>)
    requires Sound(s) && s.started
    ensures TickStep(s, s.Handled(cfg, v), mid, last)
  {
    hide Sound, TickStep, State.Exploring, State.GoingToKey, State.OpeningForPickup, State.Aligning, State.ClosingJaws,
         State.GoingToPlate, State.AligningDrop, State.OpeningForDrop, State.BackingUp;
    match s.mode {
      case Explore => mid, last := ExploringStep(cfg, s, v);
      case GoToKey => mid, last := GoingToKeyStep(cfg, s, v);
      case PickupOpen => mid, last := OpeningForPickupStep(cfg, s, v);
      case PickupAlign => mid, last := AligningStep(cfg, s, v);
      case PickupClose => mid, last := ClosingJawsStep(cfg, s, v);
      case GoToPlate => mid, last := GoingToPlateStep(cfg, s, v);
      case DropAlign => mid, last := AligningDropStep(cfg, s, v);
      case DropOpen => mid, last := OpeningForDropStep(cfg, s, v);
      case DropBackup => mid, last := BackingUpStep(cfg, s, v);
      case Done => mid, last := s.nav, []; DoneStep(s);
    }
  }

  lemma DoneStep(s: State)
    requires Sound(s) && s.mode.Done?
    ensures TickStep(s, s, s.nav, [])
  {
    hide Story, FlagsTell, SuccessInLeg, CountCancels;
  }

  lemma NavKeeps(c: Client, mid: Client, last: seq<Entry>, next: Client, moved: bool)
    requires NavStep(c, mid, last, next, moved) && FlagsTell(c)
    ensures FlagsTell(mid) && FlagsTell(next)
    ensures CountCancels(next.log) == CountCancels(c.log) + (if moved then 1 else 0)
    ensures mid.log == c.log + (if moved then [CancelCalled(c.handle)] else []) && next.log == mid.log + last
  {
    hide FlagsTell;
    if moved {
      FlagsNext(c, CancelCalled(c.handle), mid);
      LedgersNext(c.log, CancelCalled(c.handle));
    } else {
      assert c.log + [] == c.log;
    }
    if last != [] {
      assert last == [last[0]];
      FlagsNext(mid, last[0], next);
      LedgersNext(mid.log, last[0]);
    } else {
      assert mid.log + [] == mid.log;
    }
  }

  /** One event, seen by the client. */
  lemma ApplyStep(cfg: Config, s: State, e: Event) returns (mid: Client, last: seq<Entry>)
    requires Sound(s)
    ensures var t := Apply(cfg, s, e);
            NavStep(s.nav, mid, last, t.nav, t.mode != s.mode) && (e.Tick? && s.started ==> TickStep(s, t, mid, last))
  {
    hide State.Handled, FlagsTell, SuccessInLeg, Story, TickStep;
    mid, last := s.nav, [];
    match e {
      case Tick(v) =>
        if s.started {
          mid, last := HandledStep(cfg, s, v);
          TickNav(s, s.Handled(cfg, v), mid, last);
        }
      case AnswerGoal(goal, accepted) => last := [if accepted then Accepted(goal) else Refused(goal)];
      case FinishGoal(goal, status) => last := [Finished(goal, status)];
      case _ =>
    }
  }

  lemma TickNav(s: State, t: State, mid: Client, last: seq<Entry>)
    requires TickStep(s, t, mid, last)
    ensures NavStep(s.nav, mid, last, t.nav, t.mode != s.mode)
  {
  }

  lemma SuccessesKept(s: State, t: State, mid: Client, last: seq<Entry>)
    requires Sound(s) && TickStep(s, t, mid, last)
    ensures Rank(t.mode) >= 2 ==> SuccessInLeg(t.nav.log, 1)
    ensures Rank(t.mode) >= 6 ==> SuccessInLeg(t.nav.log, 5)
  {
    hide FlagsTell, SuccessInLeg, Story, CountCancels;
    NavKeeps(s.nav, mid, last, t.nav, t.mode != s.mode);
    var cancel := if t.mode != s.mode then [CancelCalled(s.nav.handle)] else [];
    var more := cancel + last;
    assert t.nav.log == s.nav.log + more;
    LegsKept(s.nav.log, more, 0, 1);
    LegsKept(s.nav.log, more, 0, 5);
    if t.mode != s.mode && (s.mode.GoToKey? || s.mode.GoToPlate?) {
      SuccessIsRecent(s.nav);
    }
  }

  lemma TickSound(s: State, t: State, mid: Client, last: seq<Entry>)
    requires Sound(s) && TickStep(s, t, mid, last)
    ensures Sound(t)
  {
    hide FlagsTell, SuccessInLeg, Story, CountCancels;
    NavKeeps(s.nav, mid, last, t.nav, t.mode != s.mode);
    SuccessesKept(s, t, mid, last);
    if s.mode.Explore? && !t.mode.Explore? {
      AllLandmarks(s.targets);
    }
  }

  lemma CallbackSound(s: State, t: State, last: seq<Entry>)
    requires Sound(s) && t == s.(nav := t.nav) && NavStep(s.nav, s.nav, last, t.nav, false)
    requires t.nav.active ==> s.nav.active
    ensures Sound(t)
  {
    hide FlagsTell, SuccessInLeg, Story, CountCancels;
    NavKeeps(s.nav, s.nav, last, t.nav, false);
    LegsKept(s.nav.log, last, 0, 1);
    LegsKept(s.nav.log, last, 0, 5);
    assert s.nav.log + [] == s.nav.log;
  }

  lemma ApplySound(cfg: Config, s: State, e: Event)
    requires Sound(s)
    ensures Sound(Apply(cfg, s, e))
  {
    hide State.Handled, FlagsTell, SuccessInLeg, Story, TickStep, CountCancels, Config.Length;
    var mid, last := ApplyStep(cfg, s, e);
    match e {
      case Tick(v) =>
        if s.started {
          TickSound(s, s.Handled(cfg, v), mid, last);
        }
      case AnswerGoal(goal, accepted) => CallbackSound(s, Apply(cfg, s, e), last);
      case FinishGoal(goal, status) => CallbackSound(s, Apply(cfg, s, e), last);
      case _ =>
    }
  }

  lemma BeginSound()
    ensures Sound(BEGIN)
  {
    assert SCRIPT[..0] == [];
  }

  lemma {:induction false} AlwaysSound(cfg: Config, s: State, events: seq<Event>)
    requires Sound(s)
    ensures Sound(Run(cfg, s, events))
    decreases |events|
  {
    hide Sound, Apply;
    if events != [] {
      AlwaysSound(cfg, s, events[..|events| - 1]);
      ApplySound(cfg, Run(cfg, s, events[..|events| - 1]), events[|events| - 1]);
    }
  }

  // ----- What this says about a mission

  /** In every run from the start: no tick fails on a missing map, landmark or start pose, whatever is
      unavailable and whenever; outside exploration all landmarks are known; and the client's flags are true
      to the server's answers. */
  lemma NeverFails(cfg: Config, events: seq<Event>)
    ensures var r := Run(cfg, BEGIN, events);
            && !r.failed && (r.started ==> r.mapped) && (!r.mode.Explore? ==> r.targets.Keys == {Cube, Plate, Door})
            && (r.lungeActive ==> r.mode.PickupAlign? && r.lungeStart.Some?)
            && (r.mode.DropBackup? ==> r.backupStart.Some?)
            && FlagsTell(r.nav)
  {
    hide FlagsTell, SuccessInLeg, Story, CountCancels, Run;
    BeginSound();
    AlwaysSound(cfg, BEGIN, events);
    var r := Run(cfg, BEGIN, events);
    forall name | name in r.targets
      ensures name in {Cube, Plate, Door}
    {
      assert name.Cube? || name.Plate? || name.Door?;
    }
  }

  /** The cube as the last command left it; it can be seen at first. */
  function Hidden(acts: seq<Act>): bool {
    if acts == [] then false
    else
      var last := acts[|acts| - 1];
      if last.CubeHidden? then true else if last.CubeShown? then false else Hidden(acts[..|acts| - 1])
  }

  function Jaws(acts: seq<Act>): seq<Act> {
    if acts == [] then []
    else
      var last := acts[|acts| - 1];
      Jaws(acts[..|acts| - 1]) + if last.JawsOpen? || last.JawsClose? then [last] else []
  }

  lemma {:induction false} StoryIsEnough(acts: seq<Act>)
    ensures Hidden(Story(acts)) == Hidden(acts) && Jaws(Story(acts)) == Jaws(acts)
    decreases |acts|
  {
    if acts != [] {
      var front, last := acts[..|acts| - 1], acts[|acts| - 1];
      StoryIsEnough(front);
      if !last.Velocity? {
        assert (Story(front) + [last])[..|Story(front)|] == Story(front);
      } else {
        assert Story(front) + [] == Story(front);
      }
    }
  }

  lemma ScriptHides(k: nat)
    requires k <= |SCRIPT|
    ensures Hidden(SCRIPT[..k]) <==> k == 3 || k == 4
    ensures Jaws(SCRIPT[..k]) ==
            if k == 0 then [] else if k == 1 then [JawsOpen] else if k <= 3 then [JawsOpen, JawsClose]
            else [JawsOpen, JawsClose, JawsOpen]
  {
    if k > 0 {
      ScriptHides(k - 1);
      ScriptNext(k - 1);
      assert SCRIPT[..k][..k - 1] == SCRIPT[..k - 1];
    }
  }

  /** In every run: the cube is hidden exactly while it is carried, and the jaws have been told exactly the
      part of open-close-open that belongs to the mode. */
  lemma CarriedMeansHidden(cfg: Config, events: seq<Event>)
    ensures var r := Run(cfg, BEGIN, events);
            && (Hidden(r.acts) <==> r.mode.GoToPlate? || r.mode.DropAlign? || r.mode.DropOpen?)
            && Jaws(r.acts) == (if Rank(r.mode) < 2 then [] else if Rank(r.mode) < 4 then [JawsOpen]
                                else if Rank(r.mode) < 7 then [JawsOpen, JawsClose]
                                else [JawsOpen, JawsClose, JawsOpen])
  {
    hide FlagsTell, SuccessInLeg, Story, CountCancels, Run, Hidden, Jaws;
    BeginSound();
    AlwaysSound(cfg, BEGIN, events);
    var r := Run(cfg, BEGIN, events);
    StoryIsEnough(r.acts);
    ScriptHides(Told(r.mode));
  }

  /** One event takes a mission at most one mode further, and only a tick does. */
  lemma AdvanceByOne(cfg: Config, s: State, e: Event)
    requires Sound(s)
    ensures var t := Apply(cfg, s, e);
            t.mode == s.mode || (e.Tick? && Rank(t.mode) == Rank(s.mode) + 1)
  {
    hide Sound, NavStep, State.Handled, Config.Length;
    var mid, last := ApplyStep(cfg, s, e);
  }

  lemma {:induction false} NeverBack(cfg: Config, events: seq<Event>, more: seq<Event>)
    ensures Rank(Run(cfg, BEGIN, events).mode) <= Rank(Run(cfg, BEGIN, events + more).mode)
    decreases |more|
  {
    hide Sound, Apply;
    if more == [] {
      assert events + more == events;
    } else {
      var front, last := more[..|more| - 1], more[|more| - 1];
      NeverBack(cfg, events, front);
      assert (events + more)[..|events + more| - 1] == events + front;
      BeginSound();
      AlwaysSound(cfg, BEGIN, events + front);
      AdvanceByOne(cfg, Run(cfg, BEGIN, events + front), last);
    }
  }

  /** In every run, the robot has left GO_TO_KEY only after a success was reported while it was in it, and
      likewise GO_TO_PLATE. (The success may be that of an older goal.) */
  lemma LegsSucceeded(cfg: Config, events: seq<Event>)
    ensures var r := Run(cfg, BEGIN, events);
            && CountCancels(r.nav.log) == Rank(r.mode)
            && (Rank(r.mode) >= 2 ==> SuccessInLeg(r.nav.log, 1))
            && (Rank(r.mode) >= 6 ==> SuccessInLeg(r.nav.log, 5))
  {
    hide FlagsTell, SuccessInLeg, Story, CountCancels, Run;
    BeginSound();
    AlwaysSound(cfg, BEGIN, events);
  }

  // ----- Who drives

  predicate Steering(mode: Mode) {
    mode.PickupAlign? || mode.DropAlign? || mode.DropBackup?
  }

  predicate Within(cfg: Config, act: Act) {
    act.Velocity? ==> Abs(act.linear) <= cfg.parkMaxSpeed && Abs(act.angular) <= cfg.alignMaxOmega
  }

  /** What one event may command: everything is within the limits, and only while the robot steers itself
      and no goal is active does it move. */
  ghost predicate DrivesWell(cfg: Config, s: State, t: State) {
    && |s.acts| <= |t.acts| && t.acts[..|s.acts|] == s.acts
    && forall i :: |s.acts| <= i < |t.acts| ==>
         && Within(cfg, t.acts[i])
         && (t.acts[i].Velocity? && t.acts[i] != HALT ==>
               Steering(s.mode) && !s.nav.active && t.nav == s.nav && t.mode == s.mode)
  }

  lemma BoundedWithin(x: real, limit: real)
    requires limit >= 0.0
    ensures Abs(Bounded(x, -limit, limit)) <= limit
  {
  }

  lemma DrivenWell(cfg: Config, s: State, linear: real, angular: real, capLinear: bool)
    requires cfg.parkMaxSpeed >= 0.0 && cfg.alignMaxOmega >= 0.0 && (!capLinear ==> Abs(linear) <= cfg.parkMaxSpeed)
    requires Steering(s.mode) && !s.nav.active
    ensures DrivesWell(cfg, s, s.Driven(cfg, linear, angular, capLinear))
    ensures s.Driven(cfg, linear, angular, capLinear).mode == s.mode
  {
    hide Bounded;
    BoundedWithin(linear, cfg.parkMaxSpeed);
    BoundedWithin(angular, cfg.alignMaxOmega);
  }

  lemma LungingDrives(cfg: Config, s: State, v: View)
    requires s.mode.PickupAlign? && !s.nav.active && cfg.parkMaxSpeed >= 0.0 && cfg.alignMaxOmega >= 0.0
    ensures DrivesWell(cfg, s, s.Lunging(cfg, v))
  {
    hide Config.Length, State.LungeBearing, State.Driven, DrivesWell;
    DrivenWell(cfg, s, cfg.parkMaxSpeed, 0.5 * s.LungeBearing(cfg, v), false);
    var t := s.Lunging(cfg, v);
    if t.mode.PickupClose? {
      HaltsWell(cfg, s, t, [JawsClose]);
    } else if t.acts == s.acts {
      StandsStill(cfg, s, t);
    }
  }

  lemma AligningDrives(cfg: Config, s: State, v: View)
    requires s.mode.PickupAlign? && !s.nav.active && cfg.parkMaxSpeed >= 0.0 && cfg.alignMaxOmega >= 0.0
    ensures DrivesWell(cfg, s, s.Aligning(cfg, v))
  {
    hide Config.Length, Config.Heading, TurnRate, State.Driven, State.Lunging;
    if s.lungeActive {
      LungingDrives(cfg, s, v);
    } else if s.CubeFresh(cfg, v) {
      var at := s.cubeLive.value.at;
      DrivenWell(cfg, s, 0.0, TurnRate(cfg, cfg.Heading(at)), true);
      DrivenWell(cfg, s, 0.5 * (cfg.Length(at) - cfg.engageDist), 0.5 * cfg.Heading(at), true);
    }
  }

  lemma AligningDropDrives(cfg: Config, s: State, v: View)
    requires s.mode.DropAlign? && !s.nav.active && cfg.parkMaxSpeed >= 0.0 && cfg.alignMaxOmega >= 0.0
    ensures DrivesWell(cfg, s, s.AligningDrop(cfg, v))
  {
    hide Config.Length, Config.Heading, TurnRate, State.Driven, InBase, DrivesWell;
    if v.pose.Some? && Plate in s.targets {
      var plate := InBase(cfg, v.pose.value, s.targets[Plate]);
      DrivenWell(cfg, s, 0.0, TurnRate(cfg, cfg.Heading(plate)), true);
      DrivenWell(cfg, s, 0.5 * (cfg.Length(plate) - (cfg.engageDist + cfg.lungeMargin)), 0.5 * cfg.Heading(plate),
                 true);
    }
    var t := s.AligningDrop(cfg, v);
    if t.mode.DropOpen? {
      HaltsWell(cfg, s, t, [JawsOpen]);
    } else if t.acts == s.acts {
      StandsStill(cfg, s, t);
    }
  }

  lemma BackingUpDrives(cfg: Config, s: State, v: View)
    requires s.mode.DropBackup? && !s.nav.active && cfg.parkMaxSpeed >= 0.0 && cfg.alignMaxOmega >= 0.0
    ensures DrivesWell(cfg, s, s.BackingUp(cfg, v))
  {
    hide Config.Length, State.Driven;
    DrivenWell(cfg, s, -cfg.parkMaxSpeed, 0.0, false);
  }

  lemma NavActs(cfg: Config, s: State, v: View)
    ensures s.NavToKey(cfg, v).acts == s.acts && s.NavToPlate(cfg, v).acts == s.acts
  {
  }

  /** In the other modes the robot is at most told to halt. */
  lemma OthersDrive(cfg: Config, s: State, v: View)
    requires !Steering(s.mode) && cfg.parkMaxSpeed >= 0.0 && cfg.alignMaxOmega >= 0.0
    ensures DrivesWell(cfg, s, s.Handled(cfg, v))
  {
    hide DrivesWell, State.Exploring, State.GoingToKey, State.OpeningForPickup, State.ClosingJaws,
         State.GoingToPlate, State.OpeningForDrop;
    match s.mode {
      case Explore => StandsStill(cfg, s, s.Exploring(cfg, v)) by { ExploringActs(cfg, s, v); }
      case GoToKey => GoingToKeyDrives(cfg, s, v);
      case PickupOpen => OpeningsDrive(cfg, s, v);
      case PickupClose => ClosingJawsDrives(cfg, s, v);
      case GoToPlate => GoingToPlateDrives(cfg, s, v);
      case DropOpen => OpeningsDrive(cfg, s, v);
      case Done => StandsStill(cfg, s, s);
    }
  }

  lemma ExploringActs(cfg: Config, s: State, v: View)
    ensures s.Exploring(cfg, v).acts == s.acts
  {
    hide State.NavToKey, FrontierGoal;
    NavActs(cfg, s.Moved(GoToKey), v);
  }

  lemma HaltsWell(cfg: Config, s: State, t: State, more: seq<Act>)
    requires cfg.parkMaxSpeed >= 0.0 && cfg.alignMaxOmega >= 0.0
    requires t.acts == s.acts + [HALT] + more && forall act :: act in more ==> !act.Velocity?
    ensures DrivesWell(cfg, s, t)
  {
  }

  lemma GoingToKeyDrives(cfg: Config, s: State, v: View)
    requires cfg.parkMaxSpeed >= 0.0 && cfg.alignMaxOmega >= 0.0
    ensures DrivesWell(cfg, s, s.GoingToKey(cfg, v))
  {
    hide State.NavToKey, DrivesWell;
    NavActs(cfg, s, v);
    var t := s.GoingToKey(cfg, v);
    if t.acts == s.acts {
      StandsStill(cfg, s, t);
    } else {
      HaltsWell(cfg, s, t, [JawsOpen]);
    }
  }

  lemma GoingToPlateDrives(cfg: Config, s: State, v: View)
    requires cfg.parkMaxSpeed >= 0.0 && cfg.alignMaxOmega >= 0.0
    ensures DrivesWell(cfg, s, s.GoingToPlate(cfg, v))
  {
    hide State.NavToPlate, DrivesWell;
    NavActs(cfg, s, v);
    var t := s.GoingToPlate(cfg, v);
    if t.acts == s.acts {
      StandsStill(cfg, s, t);
    } else {
      assert s.acts + [HALT] + [] == s.acts + [HALT];
      HaltsWell(cfg, s, t, []);
    }
  }

  lemma ClosingJawsDrives(cfg: Config, s: State, v: View)
    requires cfg.parkMaxSpeed >= 0.0 && cfg.alignMaxOmega >= 0.0
    ensures DrivesWell(cfg, s, s.ClosingJaws(cfg, v))
  {
    hide State.NavToPlate, Reached, DrivesWell;
    NavActs(cfg, s.Did(HALT).Did(CubeHidden).Moved(GoToPlate), v);
    var t := s.ClosingJaws(cfg, v);
    assert s.acts + [HALT] + [] == s.acts + [HALT];
    HaltsWell(cfg, s, t, t.acts[|s.acts| + 1..]);
  }

  lemma OpeningsDrive(cfg: Config, s: State, v: View)
    requires cfg.parkMaxSpeed >= 0.0 && cfg.alignMaxOmega >= 0.0
    ensures DrivesWell(cfg, s, s.OpeningForPickup(cfg, v)) && DrivesWell(cfg, s, s.OpeningForDrop(cfg, v))
  {
    hide Reached, DrivesWell;
    assert s.acts + [HALT] + [] == s.acts + [HALT];
    HaltsWell(cfg, s, s.OpeningForPickup(cfg, v), []);
    var t := s.OpeningForDrop(cfg, v);
    HaltsWell(cfg, s, t, t.acts[|s.acts| + 1..]);
  }

  /** Every run, every event: the node moves the robot only in the modes that steer it, with no goal active
      before or after, and never beyond the two speed limits. */
  lemma DrivesAlways(cfg: Config, events: seq<Event>, e: Event)
    requires cfg.parkMaxSpeed >= 0.0 && cfg.alignMaxOmega >= 0.0
    ensures DrivesWell(cfg, Run(cfg, BEGIN, events), Run(cfg, BEGIN, events + [e]))
  {
    hide FlagsTell, SuccessInLeg, Story, CountCancels, DrivesWell, State.Ticked, State.TargetSeen;
    BeginSound();
    AlwaysSound(cfg, BEGIN, events);
    var s := Run(cfg, BEGIN, events);
    assert (events + [e])[..|events|] == events;
    match e {
      case Tick(v) => TickDrives(cfg, s, v);
      case _ => StandsStill(cfg, s, Apply(cfg, s, e)) by { TargetSeenKeeps(cfg, s, e); }
    }
  }

  lemma TargetSeenKeeps(cfg: Config, s: State, e: Event)
    requires !e.Tick?
    ensures Apply(cfg, s, e).acts == s.acts
  {
  }

  lemma StandsStill(cfg: Config, s: State, t: State)
    requires t.acts == s.acts
    ensures DrivesWell(cfg, s, t)
  {
  }

  lemma TickDrives(cfg: Config, s: State, v: View)
    requires Sound(s) && cfg.parkMaxSpeed >= 0.0 && cfg.alignMaxOmega >= 0.0
    ensures DrivesWell(cfg, s, s.Ticked(cfg, v))
  {
    hide FlagsTell, SuccessInLeg, Story, CountCancels, DrivesWell, State.Exploring, State.GoingToKey,
         State.OpeningForPickup, State.Aligning, State.ClosingJaws, State.GoingToPlate, State.AligningDrop,
         State.OpeningForDrop, State.BackingUp;
    if !s.started {
      StandsStill(cfg, s, s.Ticked(cfg, v));
    } else if s.mode.PickupAlign? {
      AligningDrives(cfg, s, v);
    } else if s.mode.DropAlign? {
      AligningDropDrives(cfg, s, v);
    } else if s.mode.DropBackup? {
      BackingUpDrives(cfg, s, v);
    } else {
      OthersDrive(cfg, s, v);
    }
  }
}
