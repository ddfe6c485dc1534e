/** Whose success moves the mission on: what is guaranteed when exploration ends between two goals, and what
    goes wrong when it ends during one. */
module MissionGoals {
  import opened Geometry
  import opened Mission
  import opened MissionRuns
  import opened NavClient
  import opened Options

  // ----- When exploration ends between two goals

  /** Client and server agree, and both driving legs ended with the success of a goal of their own. */
  ghost predicate Trusted(s: State) {
    && Agrees(s.nav)
    && (Rank(s.mode) >= 2 ==> OwnSuccessInLeg(s.nav.log, 1))
    && (Rank(s.mode) >= 6 ==> OwnSuccessInLeg(s.nav.log, 5))
  }

  /** Exploration is never left while a frontier is being driven to. */
  ghost predicate LeavesIdle(cfg: Config, events: seq<Event>)
    decreases |events|
  {
    events != [] ==>
      && LeavesIdle(cfg, events[..|events| - 1])
      && (var s := Run(cfg, BEGIN, events[..|events| - 1]);
          s.mode.Explore? && s.nav.active ==> Run(cfg, BEGIN, events).mode.Explore?)
  }

  lemma {:induction false} LawfulPrefix(log: seq<Entry>, more: seq<Entry>)
    requires Lawful(log + more)
    ensures Lawful(log)
    decreases |more|
  {
    if more == [] {
      assert log + more == log;
    } else {
      var front, last := more[..|more| - 1], more[|more| - 1];
      assert log + more == (log + front) + [last];
      LedgersNext(log + front, last);
      LawfulPrefix(log, front);
    }
  }

  lemma AgreesLast(c: Client, last: seq<Entry>, next: Client)
    requires NavStep(c, c, last, next, false) && Agrees(c) && Lawful(next.log)
    ensures Agrees(next)
  {
    hide Agrees, Lawful;
    if last != [] {
      AgreesNext(c, last[0], next);
    }
  }

  lemma AgreesThrough(c: Client, mid: Client, last: seq<Entry>, next: Client, moved: bool)
    requires NavStep(c, mid, last, next, moved) && FlagsTell(c) && Agrees(c) && Lawful(next.log)
    requires moved ==> !c.active
    ensures Agrees(next)
  {
    hide Agrees, FlagsTell, Lawful, Follows, Client.Canceling;
    NavKeeps(c, mid, last, next, moved);
    LawfulPrefix(mid.log, last);
    if moved {
      CancelFollows(c);
      AgreesNext(c, CancelCalled(c.handle), mid);
    }
    AgreesLast(mid, last, next);
  }

  lemma CancelFollows(c: Client)
    ensures Follows(c, CancelCalled(c.handle), c.Canceling())
  {
  }

  lemma OwnSuccessThrough(c: Client, mid: Client, last: seq<Entry>, next: Client, moved: bool, leg: nat)
    requires NavStep(c, mid, last, next, moved) && FlagsTell(c) && OwnSuccessInLeg(c.log, leg)
    ensures OwnSuccessInLeg(next.log, leg)
  {
    hide OwnSuccessInLeg, FlagsTell;
    NavKeeps(c, mid, last, next, moved);
    var more := (if moved then [CancelCalled(c.handle)] else []) + last;
    assert next.log == c.log + more;
    OwnSuccessKept(c.log, more, leg);
  }

  lemma TrustedNext(cfg: Config, s: State, e: Event)
    requires Sound(s) && Trusted(s) && Lawful(Apply(cfg, s, e).nav.log)
    requires s.mode.Explore? && s.nav.active ==> Apply(cfg, s, e).mode.Explore?
    ensures Trusted(Apply(cfg, s, e))
  {
    hide Agrees, FlagsTell, SuccessInLeg, OwnSuccessInLeg, Story, Lawful, Apply, CountCancels;
    var t := Apply(cfg, s, e);
    var mid, last := ApplyStep(cfg, s, e);
    MovesByTick(cfg, s, e);
    AgreesThrough(s.nav, mid, last, t.nav, t.mode != s.mode);
    if Rank(s.mode) >= 2 {
      OwnSuccessThrough(s.nav, mid, last, t.nav, t.mode != s.mode, 1);
    }
    if Rank(s.mode) >= 6 {
      OwnSuccessThrough(s.nav, mid, last, t.nav, t.mode != s.mode, 5);
    }
    if t.mode != s.mode && (s.mode.GoToKey? || s.mode.GoToPlate?) {
      SucceededOwn(s.nav);
      OwnSuccessThrough(s.nav, mid, last, t.nav, true, Rank(s.mode));
    }
  }

  lemma SucceededOwn(c: Client)
    requires Agrees(c) && c.succeeded
    ensures OwnSuccessInLeg(c.log, CountCancels(c.log))
  {
  }

  lemma MovesByTick(cfg: Config, s: State, e: Event)
    requires Sound(s)
    ensures var t := Apply(cfg, s, e);
            && (t.mode == s.mode || Rank(t.mode) == Rank(s.mode) + 1)
            && (t.mode != s.mode && (s.mode.GoToKey? || s.mode.GoToPlate?) ==> s.nav.succeeded && !s.nav.active)
  {
    hide FlagsTell, SuccessInLeg, Story, CountCancels, NavStep, State.Handled, Config.Length;
    var mid, last := ApplyStep(cfg, s, e);
  }

  /** With a server that answers what it was sent, and exploration left only between two goals: at any time
      no goal but the last one sent is open, and none at all while the node steers the robot itself; and
      each driving leg was ended by the success of a goal sent during that leg. */
  lemma {:induction false} TrustedRun(cfg: Config, events: seq<Event>)
    requires Lawful(Run(cfg, BEGIN, events).nav.log) && LeavesIdle(cfg, events)
    ensures Trusted(Run(cfg, BEGIN, events))
    ensures var r := Run(cfg, BEGIN, events);
            && Open(r.nav.log) <= {r.nav.sent - 1}
            && (Open(r.nav.log) == {} || Navigating(r.mode))
    decreases |events|
  {
    hide FlagsTell, SuccessInLeg, OwnSuccessInLeg, Story, Apply, CountCancels, Lawful, Tracks;
    if events == [] {
      BeginTrusted();
    } else {
      var front, last := events[..|events| - 1], events[|events| - 1];
      var s := Run(cfg, BEGIN, front);
      BeginSound();
      AlwaysSound(cfg, BEGIN, front);
      LogGrows(cfg, s, last);
      TrustedRun(cfg, front);
      TrustedNext(cfg, s, last);
      ApplySound(cfg, s, last);
    }
  }

  lemma BeginTrusted()
    ensures Trusted(BEGIN)
  {
  }

  lemma LogGrows(cfg: Config, s: State, e: Event)
    requires Sound(s) && Lawful(Apply(cfg, s, e).nav.log)
    ensures Lawful(s.nav.log)
  {
    hide FlagsTell, SuccessInLeg, Story, CountCancels, Lawful, Apply, TickStep;
    var t := Apply(cfg, s, e);
    var mid, last := ApplyStep(cfg, s, e);
    NavKeeps(s.nav, mid, last, t.nav, t.mode != s.mode);
    var cancel := if t.mode != s.mode then [CancelCalled(s.nav.handle)] else [];
    assert t.nav.log == s.nav.log + (cancel + last);
    LawfulPrefix(s.nav.log, cancel + last);
  }

  // ----- When exploration ends during a goal

  /** The tick that leaves exploration for good keeps client and server in agreement exactly if no frontier
      was being driven to; otherwise the goal it sends is open beside an older one. */
  lemma LeavingExploreIff(cfg: Config, s: State, v: View)
    requires Sound(s) && Agrees(s.nav) && Lawful(s.nav.log) && s.mode.Explore? && s.started && |s.targets| == 3
    requires v.ready && v.pose.Some?
    ensures Agrees(s.Ticked(cfg, v).nav) <==> !s.nav.active
    ensures Open(s.Ticked(cfg, v).nav.log) == Open(s.nav.log) + {s.nav.sent}
  {
    hide FlagsTell, SuccessInLeg, Story, CountCancels, KeyGoal, OwnSuccessInLeg, SentInLeg;
    AllLandmarks(s.targets);
    var c := s.nav.Canceling();
    var target := KeyGoal(cfg, s.targets[Cube], v.pose.value.at);
    var next := c.Sending(target, true);
    assert s.Ticked(cfg, v).nav == next;
    LedgersNext(s.nav.log, CancelCalled(s.nav.handle));
    LedgersNext(c.log, Sent(c.sent, target));
    assert Pending(c.log) == Pending(s.nav.log) && Running(c.log) == Running(s.nav.log);
    assert Pending(next.log) == Pending(c.log) + {s.nav.sent} && Running(next.log) == Running(c.log);
    if s.nav.active {
      var goal :| goal in Open(s.nav.log);
      assert goal in Open(next.log) && goal != next.sent - 1;
    } else {
      AgreesNext(s.nav, CancelCalled(s.nav.handle), c);
      AgreesNext(c, Sent(c.sent, target), next);
    }
  }

  lemma {:induction false} TrustedFrom(cfg: Config, s: State, events: seq<Event>)
    requires Sound(s) && Trusted(s) && !s.mode.Explore? && Lawful(Run(cfg, s, events).nav.log)
    ensures Trusted(Run(cfg, s, events)) && !Run(cfg, s, events).mode.Explore?
    decreases |events|
  {
    hide Sound, Trusted, Lawful, Apply;
    if events != [] {
      var front, last := events[..|events| - 1], events[|events| - 1];
      var before := Run(cfg, s, front);
      AlwaysSound(cfg, s, front);
      LogGrows(cfg, before, last);
      TrustedFrom(cfg, s, front);
      TrustedNext(cfg, before, last);
      AdvanceByOne(cfg, before, last);
    }
  }

  lemma {:induction false} CancelsSoFar(log: seq<Entry>, i: nat)
    requires i <= |log|
    ensures CountCancels(log[..i]) <= CountCancels(log)
    decreases |log|
  {
    if i == |log| {
      assert log[..i] == log;
    } else {
      assert log[..|log| - 1][..i] == log[..i];
      CancelsSoFar(log[..|log| - 1], i);
    }
  }

  /** What is logged when exploration ends during goal `goal` and its success comes next. */
  ghost predicate StaleLog(log: seq<Entry>, past: seq<Entry>, sent: nat, goal: nat) {
    && |past| + 4 <= |log| && log[..|past|] == past && log[|past|].CancelCalled?
    && log[|past| + 1].Sent? && log[|past| + 1].goal == sent
    && log[|log| - 2] == Finished(goal, Succeeded) && log[|log| - 1].CancelCalled?
    && (|log| == |past| + 4 || (|log| == |past| + 5 && log[|past| + 2] == Accepted(goal)))
  }

  lemma StaleLegs(log: seq<Entry>, past: seq<Entry>, sent: nat, goal: nat)
    requires StaleLog(log, past, sent, goal) && goal != sent && CountCancels(past) == 0
    ensures !OwnSuccessInLeg(log, 1)
  {
    forall i: nat | InLeg(log, i, 1)
      ensures i > |past|
    {
      if i <= |past| {
        assert log[..i] == past[..i];
        CancelsSoFar(past, i);
      }
    }
    forall i: nat | InLeg(log, i, 1) && log[i].Sent?
      ensures log[i].goal == sent
    {
      assert i == |past| + 1 || i == |past| + 2 || i == |past| + 3 || i == |past| + 4;
    }
    forall i: nat | InLeg(log, i, 1) && IsSuccess(log[i])
      ensures log[i].goal == goal
    {
      assert i == |past| + 1 || i == |past| + 2 || i == |past| + 3 || i == |past| + 4;
    }
  }

  /** The state in which exploration has just been left for the key. */
  ghost predicate JustLeft(s: State, t: State, target: Pose) {
    && t.mode == GoToKey && t.started && !t.failed && t.nav == s.nav.Canceling().Sending(target, true)
  }

  lemma LeavingTick(cfg: Config, s: State, v: View) returns (target: Pose)
    requires Sound(s) && s.mode.Explore? && s.started && |s.targets| == 3 && v.ready && v.pose.Some?
    ensures JustLeft(s, s.Ticked(cfg, v), target)
  {
    hide FlagsTell, SuccessInLeg, Story, CountCancels, KeyGoal;
    AllLandmarks(s.targets);
    target := KeyGoal(cfg, s.targets[Cube], v.pose.value.at);
  }

  /** A success that comes next, of any goal, starts the pickup. */
  lemma SuccessMovesOn(cfg: Config, t: State, goal: nat, v: View)
    requires t.mode == GoToKey && t.started && !t.failed
    ensures var r := Run(cfg, t, [FinishGoal(goal, Succeeded), Tick(v)]);
            && r.mode == PickupOpen && r.nav.sent == t.nav.sent
            && r.nav.log == t.nav.log + [Finished(goal, Succeeded)] + [CancelCalled(None)]
  {
    hide State.Exploring, State.OpeningForPickup, State.Aligning, State.ClosingJaws, State.GoingToPlate,
         State.AligningDrop, State.OpeningForDrop, State.BackingUp, Run;
    var e, f := FinishGoal(goal, Succeeded), Tick(v);
    RunNothing(cfg, t);
    RunNext(cfg, t, [], e);
    RunNext(cfg, t, [e], f);
    assert [] + [e] == [e] && [e] + [f] == [e, f];
  }

  lemma LawfulNextStep(log: seq<Entry>, e: Entry)
    requires Lawful(log) && LawfulNext(log, e)
    ensures Lawful(log + [e])
  {
    LedgersNext(log, e);
  }

  /** What is logged when exploration has ended during goal `goal`, up to its acceptance. */
  ghost predicate StaleStart(log: seq<Entry>, past: seq<Entry>, sent: nat, goal: nat) {
    && |past| + 2 <= |log| && log[..|past|] == past && log[|past|].CancelCalled?
    && log[|past| + 1].Sent? && log[|past| + 1].goal == sent
    && (|log| == |past| + 2 || (|log| == |past| + 3 && log[|past| + 2] == Accepted(goal)))
  }

  lemma StaleEnd(log: seq<Entry>, past: seq<Entry>, sent: nat, goal: nat)
    requires StaleStart(log, past, sent, goal)
    ensures StaleLog(log + [Finished(goal, Succeeded)] + [CancelCalled(None)], past, sent, goal)
  {
    var all := log + [Finished(goal, Succeeded)] + [CancelCalled(None)];
    assert all[..|past|] == past;
  }

  /** A running goal of exploration that succeeds next starts the pickup. */
  lemma StaleSuccess(cfg: Config, t: State, goal: nat, v: View, past: seq<Entry>, sent: nat)
    requires t.mode == GoToKey && t.started && !t.failed
    requires StaleStart(t.nav.log, past, sent, goal) && goal != sent && CountCancels(past) == 0
    requires Lawful(t.nav.log) && goal in Running(t.nav.log)
    ensures var r := Run(cfg, t, [FinishGoal(goal, Succeeded), Tick(v)]);
            Lawful(r.nav.log) && Rank(r.mode) >= 2 && !OwnSuccessInLeg(r.nav.log, 1)
  {
    hide Run, Lawful, OwnSuccessInLeg, Running, CountCancels, StaleStart, StaleLog;
    var log := t.nav.log;
    LawfulNextStep(log, Finished(goal, Succeeded));
    LawfulNextStep(log + [Finished(goal, Succeeded)], CancelCalled(None));
    SuccessMovesOn(cfg, t, goal, v);
    StaleEnd(log, past, sent, goal);
    StaleLegs(log + [Finished(goal, Succeeded)] + [CancelCalled(None)], past, sent, goal);
  }

  /** If a frontier is being driven to when exploration is left, its success may start the pickup. */
  lemma StalePickup(cfg: Config, s: State, v: View) returns (events: seq<Event>)
    requires Sound(s) && Agrees(s.nav) && Lawful(s.nav.log) && s.mode.Explore? && s.started && |s.targets| == 3
    requires v.ready && v.pose.Some? && s.nav.active
    ensures var r := Run(cfg, s.Ticked(cfg, v), events);
            Lawful(r.nav.log) && Rank(r.mode) >= 2 && !OwnSuccessInLeg(r.nav.log, 1)
  {
    hide Run, Lawful, OwnSuccessInLeg, State.Ticked, FlagsTell, SuccessInLeg, Story, Agrees, Pending, Running, Loose;
    var past, sent := s.nav.log, s.nav.sent;
    var target := LeavingTick(cfg, s, v);
    var t := s.Ticked(cfg, v);
    var goal: nat := AnOpenGoal(s.nav);
    OpenThroughLeaving(past, CancelCalled(s.nav.handle), Sent(sent, target), goal);
    assert t.nav.log == past + [CancelCalled(s.nav.handle)] + [Sent(sent, target)];
    events := [FinishGoal(goal, Succeeded), Tick(v)];
    if goal in Running(t.nav.log) {
      StaleSuccess(cfg, t, goal, v, past, sent);
    } else {
      var u := t.(nav := t.nav.Answered(goal, true));
      LawfulNextStep(t.nav.log, Accepted(goal));
      RunningOnceAccepted(t.nav.log, goal);
      StaleSuccess(cfg, u, goal, v, past, sent);
      RunAfter(cfg, t, AnswerGoal(goal, true), events);
      events := [AnswerGoal(goal, true)] + events;
    }
  }

  lemma AnOpenGoal(c: Client) returns (goal: nat)
    requires Agrees(c) && c.active
    ensures goal in Open(c.log) && goal != c.sent
  {
    goal :| goal in Open(c.log);
  }

  lemma OpenThroughLeaving(past: seq<Entry>, cancel: Entry, send: Entry, goal: nat)
    requires Lawful(past) && goal in Open(past) && cancel.CancelCalled? && send.Sent? && send.goal != goal
    ensures var log := past + [cancel] + [send];
            Lawful(log) && (goal in Pending(log) || goal in Running(log))
  {
    hide Loose;
    LawfulNextStep(past, cancel);
    LawfulNextStep(past + [cancel], send);
    LedgersNext(past, cancel);
    LedgersNext(past + [cancel], send);
  }

  lemma RunningOnceAccepted(log: seq<Entry>, goal: nat)
    ensures goal in Running(log + [Accepted(goal)])
  {
    LedgersNext(log, Accepted(goal));
  }

  lemma {:induction false} RunAfter(cfg: Config, s: State, e: Event, events: seq<Event>)
    ensures Run(cfg, s, [e] + events) == Run(cfg, Apply(cfg, s, e), events)
    decreases |events|
  {
    hide Apply;
    if events == [] {
      assert [e] + events == [] + [e];
      RunNext(cfg, s, [], e);
    } else {
      var front, last := events[..|events| - 1], events[|events| - 1];
      RunAfter(cfg, s, e, front);
      RunNext(cfg, s, [e] + front, last);
      assert ([e] + front) + [last] == [e] + events;
    }
  }

  /** Whatever a lawful server does after exploration was left, the leg to the key ends with the success of a
      goal of its own, exactly if no frontier was being driven to. */
  lemma KeyLegOwnIff(cfg: Config, s: State, v: View)
    requires Sound(s) && Agrees(s.nav) && Lawful(s.nav.log) && s.mode.Explore? && s.started && |s.targets| == 3
    requires v.ready && v.pose.Some?
    ensures (forall events :: var r := Run(cfg, s.Ticked(cfg, v), events);
               Lawful(r.nav.log) && Rank(r.mode) >= 2 ==> OwnSuccessInLeg(r.nav.log, 1))
            <==> !s.nav.active
  {
    hide Sound, Lawful, Agrees, OwnSuccessInLeg, State.Ticked, Run;
    var t := s.Ticked(cfg, v);
    if s.nav.active {
      var events := StalePickup(cfg, s, v);
      assert !OwnSuccessInLeg(Run(cfg, t, events).nav.log, 1);
    } else {
      LeavingExploreIff(cfg, s, v);
      var target := LeavingTick(cfg, s, v);
      SoundTick(cfg, s, v);
      forall events | Lawful(Run(cfg, t, events).nav.log) && Rank(Run(cfg, t, events).mode) >= 2
        ensures OwnSuccessInLeg(Run(cfg, t, events).nav.log, 1)
      {
        TrustedFrom(cfg, t, events);
      }
    }
  }

  lemma SoundTick(cfg: Config, s: State, v: View)
    requires Sound(s)
    ensures Sound(s.Ticked(cfg, v))
  {
    hide State.Ticked;
    ApplySound(cfg, s, Tick(v));
    NotFailed(s);
  }

  lemma NotFailed(s: State)
    requires Sound(s)
    ensures !s.failed
  {
  }

  /** With a server that answers what it was sent, a cancel made in any run finds the client tracking a
      running goal or none. */
  lemma {:induction false} TracksAlways(cfg: Config, events: seq<Event>)
    requires Lawful(Run(cfg, BEGIN, events).nav.log)
    ensures Tracks(Run(cfg, BEGIN, events).nav)
    decreases |events|
  {
    hide FlagsTell, SuccessInLeg, Story, Apply, CountCancels, Lawful;
    if events != [] {
      var front, last := events[..|events| - 1], events[|events| - 1];
      var s := Run(cfg, BEGIN, front);
      BeginSound();
      AlwaysSound(cfg, BEGIN, front);
      LogGrows(cfg, s, last);
      TracksAlways(cfg, front);
      var t := Apply(cfg, s, last);
      var mid, sent := ApplyStep(cfg, s, last);
      TracksThrough(s.nav, mid, sent, t.nav, t.mode != s.mode);
    }
  }

  lemma TracksThrough(c: Client, mid: Client, last: seq<Entry>, next: Client, moved: bool)
    requires NavStep(c, mid, last, next, moved) && FlagsTell(c) && Tracks(c) && Lawful(next.log)
    ensures Tracks(next)
  {
    hide Tracks, FlagsTell, Lawful, Follows, Client.Canceling;
    NavKeeps(c, mid, last, next, moved);
    LawfulPrefix(mid.log, last);
    if moved {
      CancelFollows(c);
      TracksNext(c, CancelCalled(c.handle), mid);
    }
    TracksLast(mid, last, next);
  }

  lemma TracksLast(c: Client, last: seq<Entry>, next: Client)
    requires NavStep(c, c, last, next, false) && Tracks(c) && Lawful(next.log)
    ensures Tracks(next)
  {
    hide Tracks, Lawful;
    if last != [] {
      TracksNext(c, last[0], next);
    }
  }

  // ----- A pickup started by the wrong goal

  lemma RunNext(cfg: Config, s: State, events: seq<Event>, e: Event)
    ensures Run(cfg, s, events + [e]) == Apply(cfg, Run(cfg, s, events), e)
  {
    assert (events + [e])[..|events|] == events;
  }

  /** A view with everything available. */
  function ClearView(frontiers: seq<Vector>): View {
    View(true, 0.0, Some(Pose(Vector(0.0, 0.0), 0.0)), Some(Vector(0.0, 0.0)), None, frontiers)
  }

  /** The robot drives to a frontier while the last landmark is seen, and reaches it just as the goal for
      the key is sent. */
  const HASTY: seq<Event> := [
    GetMap,
    Tick(ClearView([])),
    Tick(ClearView([Vector(1.0, 0.0)])),
    AnswerGoal(0, true),
    SeeTarget(Cube, Vector(2.0, 0.0)),
    SeeTarget(Plate, Vector(3.0, 0.0)),
    SeeTarget(Door, Vector(4.0, 0.0)),
    Tick(ClearView([])),
    FinishGoal(0, Succeeded),
    Tick(ClearView([]))]

  /** The states of that run, up to the sighting of the last landmark. */
  lemma HastyExploration(cfg: Config) returns (target: Pose)
    ensures Run(cfg, BEGIN, HASTY[..7]) ==
            State(Explore, true, true,
                  map[Cube := Vector(2.0, 0.0), Plate := Vector(3.0, 0.0), Door := Vector(4.0, 0.0)],
                  0.0, None, false, None, 0.0, None,
                  Client(true, Some(0), false, false, 1, [Sent(0, target), Accepted(0)]), [], false)
  {
    hide Run, Apply;
    RunNothing(cfg, BEGIN);
    var s4;
    s4, target := HastyDrive(cfg);
    HastySightings(cfg, s4);
    forall k: nat | k < 7
      ensures Run(cfg, BEGIN, HASTY[..k + 1]) == Apply(cfg, Run(cfg, BEGIN, HASTY[..k]), HASTY[k])
    {
      RunNext(cfg, BEGIN, HASTY[..k], HASTY[k]);
      assert HASTY[..k] + [HASTY[k]] == HASTY[..k + 1];
    }
    assert Run(cfg, BEGIN, HASTY[..0 + 1]) == Apply(cfg, BEGIN, HASTY[0]);
    var s3 := Run(cfg, BEGIN, HASTY[..2 + 1]);
    assert s3 == Apply(cfg, Run(cfg, BEGIN, HASTY[..1 + 1]), HASTY[2]);
    assert Run(cfg, BEGIN, HASTY[..3 + 1]) == s4;
    var s6 := Run(cfg, BEGIN, HASTY[..5 + 1]);
    assert s6 == Apply(cfg, Run(cfg, BEGIN, HASTY[..4 + 1]), HASTY[5]);
    assert Run(cfg, BEGIN, HASTY[..6 + 1]) == Apply(cfg, s6, HASTY[6]);
  }

  /** The first four events: the frontier goal has been accepted. */
  lemma HastyDrive(cfg: Config) returns (s4: State, target: Pose)
    ensures s4 == Apply(cfg, Apply(cfg, Apply(cfg, Apply(cfg, BEGIN, HASTY[0]), HASTY[1]), HASTY[2]), HASTY[3])
    ensures s4 == BEGIN.(mapped := true, started := true,
                         nav := Client(true, Some(0), false, false, 1, [Sent(0, target), Accepted(0)]))
  {
    hide Nearest, Config.Length, Config.Heading, State.GoingToKey, State.OpeningForPickup, State.Aligning,
         State.ClosingJaws, State.GoingToPlate, State.AligningDrop, State.OpeningForDrop, State.BackingUp;
    target := FrontierGoal(cfg, ClearView([Vector(1.0, 0.0)]), Vector(0.0, 0.0));
    var s2 := Apply(cfg, Apply(cfg, BEGIN, HASTY[0]), HASTY[1]);
    assert s2 == BEGIN.(mapped := true, started := true);
    var s3 := Apply(cfg, s2, HASTY[2]);
    assert s3 == s2.(nav := Client(true, None, false, false, 1, [Sent(0, target)]));
    s4 := Apply(cfg, s3, HASTY[3]);
  }

  lemma HastySightings(cfg: Config, s: State)
    requires !s.failed && s.targets == map[]
    ensures Apply(cfg, Apply(cfg, Apply(cfg, s, HASTY[4]), HASTY[5]), HASTY[6]) ==
            s.(targets := map[Cube := Vector(2.0, 0.0), Plate := Vector(3.0, 0.0), Door := Vector(4.0, 0.0)])
  {
    hide Config.Length, State.Ticked;
  }

  lemma RunNothing(cfg: Config, s: State)
    ensures Run(cfg, s, []) == s
  {
  }

  /** Then the success of the frontier goal starts the pickup: the goal for the key, the only one sent in
      that leg, is still waiting to be answered, and nobody asked it to stop. */
  lemma HastyPickup(cfg: Config)
    ensures var r := Run(cfg, BEGIN, HASTY);
            && r.mode == PickupOpen && Lawful(r.nav.log) && r.nav.sent == 2
            && 1 in Pending(r.nav.log) && 1 in Loose(r.nav.log)
            && SuccessInLeg(r.nav.log, 1) && !OwnSuccessInLeg(r.nav.log, 1)
  {
    hide Lawful, SuccessInLeg, OwnSuccessInLeg;
    var log := HastyLog(cfg);
    HastyLedger(log);
  }

  ghost predicate IsHastyLog(log: seq<Entry>) {
    && |log| == 6
    && log[0].Sent? && log[0].goal == 0 && log[1] == Accepted(0) && log[2] == CancelCalled(Some(0))
    && log[3].Sent? && log[3].goal == 1 && log[4] == Finished(0, Succeeded) && log[5] == CancelCalled(None)
  }

  lemma HastyLog(cfg: Config) returns (log: seq<Entry>)
    ensures IsHastyLog(log)
    ensures var r := Run(cfg, BEGIN, HASTY); r.mode == PickupOpen && r.nav.sent == 2 && r.nav.log == log
  {
    hide Run, Apply, Sound;
    var target := HastyExploration(cfg);
    var s7 := Run(cfg, BEGIN, HASTY[..7]);
    RunNext(cfg, BEGIN, HASTY[..7], HASTY[7]);
    RunNext(cfg, BEGIN, HASTY[..8], HASTY[8]);
    RunNext(cfg, BEGIN, HASTY[..9], HASTY[9]);
    assert HASTY[..7] + [HASTY[7]] == HASTY[..8] && HASTY[..8] + [HASTY[8]] == HASTY[..9]
        && HASTY[..9] + [HASTY[9]] == HASTY;
    BeginSound();
    AlwaysSound(cfg, BEGIN, HASTY[..7]);
    log := HastyEnd(cfg, s7, target);
  }

  /** The last three events. */
  lemma HastyEnd(cfg: Config, s: State, target: Pose) returns (log: seq<Entry>)
    requires Sound(s) && s.mode == Explore && s.started && s.targets.Keys == {Cube, Plate, Door}
    requires s.nav == Client(true, Some(0), false, false, 1, [Sent(0, target), Accepted(0)])
    ensures IsHastyLog(log)
    ensures var r := Apply(cfg, Apply(cfg, Apply(cfg, s, HASTY[7]), HASTY[8]), HASTY[9]);
            r.mode == PickupOpen && r.nav.sent == 2 && r.nav.log == log
  {
    hide Run, Sound, State.Ticked;
    var v := ClearView([]);
    NotFailed(s);
    ThreeLandmarks(s.targets);
    var key := LeavingTick(cfg, s, v);
    var t := s.Ticked(cfg, v);
    assert t.nav == Client(true, None, false, true, 1,
                           [Sent(0, target), Accepted(0), CancelCalled(Some(0))]).Sending(key, true);
    SuccessMovesOn(cfg, t, 0, v);
    RunNothing(cfg, t);
    RunNext(cfg, t, [], HASTY[8]);
    RunNext(cfg, t, [HASTY[8]], HASTY[9]);
    assert [] + [HASTY[8]] == [HASTY[8]] && [HASTY[8]] + [HASTY[9]] == [HASTY[8], HASTY[9]];
    log := t.nav.log + [Finished(0, Succeeded)] + [CancelCalled(None)];
  }

  lemma ThreeLandmarks(targets: map<Landmark, Vector>)
    requires targets.Keys == {Cube, Plate, Door}
    ensures |targets| == 3
  {
  }

  lemma PrefixNext(log: seq<Entry>, k: nat)
    requires k < |log|
    ensures log[..k + 1][..|log[..k + 1]| - 1] == log[..k] && log[..k + 1][|log[..k + 1]| - 1] == log[k]
  {
  }

  lemma HastyGoals(log: seq<Entry>)
    requires IsHastyLog(log)
    ensures 0 in Pending(log[..1]) && 0 in Running(log[..2]) && 0 in Running(log[..4])
    ensures 1 in Pending(log[..6]) && 1 in Loose(log[..6])
  {
    PrefixNext(log, 0);
    PrefixNext(log, 1);
    PrefixNext(log, 2);
    PrefixNext(log, 3);
    assert 1 in Pending(log[..4]) && 1 in Loose(log[..4]);
    PrefixNext(log, 4);
    PrefixNext(log, 5);
  }

  lemma HastyLawful(log: seq<Entry>)
    requires IsHastyLog(log)
    ensures Lawful(log[..6])
  {
    hide Pending, Running;
    HastyGoals(log);
    PrefixNext(log, 0);
    assert Lawful(log[..1]);
    PrefixNext(log, 1);
    assert Lawful(log[..2]);
    PrefixNext(log, 2);
    assert Lawful(log[..3]);
    PrefixNext(log, 3);
    assert Lawful(log[..4]);
    PrefixNext(log, 4);
    assert Lawful(log[..5]);
    PrefixNext(log, 5);
  }

  lemma {:induction false} HastyLegs(log: seq<Entry>, k: nat)
    requires IsHastyLog(log) && k < 6
    ensures CountCancels(log[..k]) == if k < 3 then 0 else 1
  {
    if k > 0 {
      HastyLegs(log, k - 1);
      PrefixNext(log, k - 1);
    }
  }

  lemma HastyLedger(log: seq<Entry>)
    requires IsHastyLog(log)
    ensures Lawful(log) && 1 in Pending(log) && 1 in Loose(log) && SuccessInLeg(log, 1) && !OwnSuccessInLeg(log, 1)
  {
    hide Lawful, Pending, Running, Loose, CountCancels;
    assert log[..6] == log;
    HastyGoals(log);
    HastyLawful(log);
    forall i: nat | i < 6
      ensures InLeg(log, i, 1) <==> i >= 3
    {
      HastyLegs(log, i);
    }
    assert InLeg(log, 4, 1) && IsSuccess(log[4]);
    assert forall i: nat :: InLeg(log, i, 1) ==> i == 3 || i == 4 || i == 5;
  }
}
