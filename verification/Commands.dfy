/** The command server: subscriptions, heartbeat and the loss of a client. */
module Commands {
  import opened Topic

  const MAX_HEARTBEAT_DELAY: real := 3.0

  datatype Subscription = Subscription(uid: nat, topic: TopicState) {
    function Stepped(dt: real): Subscription {
      this.(topic := topic.Stepped(dt))
    }
  }

  /** Events reported to the client while it is subscribed to them. */
  datatype Events = Events(armorHits: bool, irHits: bool, vision: bool)

  const NO_EVENTS := Events(false, false, false)

  /** Both bytes of the key of a subscription. */
  function KeyFrom(node: nat, msg: nat): int {
    msg + 256 * node
  }

  lemma KeyTells(node: nat, msg: nat, node': nat, msg': nat)
    requires msg < 256 && msg' < 256
    ensures KeyFrom(node, msg) == KeyFrom(node', msg') <==> node == node' && msg == msg'
    ensures KeyFrom(node, msg) % 256 == msg && KeyFrom(node, msg) / 256 == node
  {
  }

  /** What the server is built with: the subjects that can be subscribed to, and which hits it reports. */
  datatype Setup = Setup(subjects: set<nat>, armorHits: bool, irHits: bool)

  datatype Server = Server(
    time: real,
    lastHeartbeat: real,
    connected: bool,
    publishers: map<int, Subscription>,
    events: Events,
    streaming: bool)
  {
    function Unconnected(): Server {
      this.(streaming := false, events := NO_EVENTS, publishers := map[], connected := false)
    }

    function NodeAdded(setup: Setup): Server {
      this.(events := Events(events.armorHits || setup.armorHits, events.irHits || setup.irHits, events.vision),
            lastHeartbeat := time, connected := true)
    }

    function HeartbeatSeen(): Server {
      this.(lastHeartbeat := time)
    }

    function SdkSet(value: bool): Server {
      if value then this else this.(events := NO_EVENTS, publishers := map[])
    }

    /** A second request for the same key keeps the first subject and restarts it. */
    function Subscribed(setup: Setup, uid: nat, key: int, frequency: nat): Server {
      if uid !in setup.subjects then this
      else
        var kept := if key in publishers then publishers[key]
                    else Subscription(uid, TopicState(frequency, false, In(0.0), 0));
        this.(publishers := publishers[key := kept.(topic := kept.topic.Started())])
    }

    function Unsubscribed(key: int): Server {
      this.(publishers := publishers - {key})
    }

    function PublishersStepped(dt: real): map<int, Subscription> {
      map key | key in publishers :: publishers[key].Stepped(dt)
    }

    predicate Lost() {
      connected && time - lastHeartbeat > MAX_HEARTBEAT_DELAY
    }

    function Stepped(dt: real): Server {
      var next := this.(publishers := PublishersStepped(dt), time := time + dt);
      if next.Lost() then next.Unconnected() else next
    }
  }

  datatype Event =
    | AddNode
    | Heartbeat
    | ResetNode
    | SetSdk(value: bool)
    | Subscribe(uid: nat, key: int, frequency: nat)
    | Unsubscribe(key: int)
    | AskVision
    | StartStream
    | Step(dt: real)

  function Apply(setup: Setup, s: Server, e: Event): Server {
    match e
    case AddNode => s.NodeAdded(setup)
    case Heartbeat => s.HeartbeatSeen()
    case ResetNode => s.Unconnected()
    case SetSdk(value) => s.SdkSet(value)
    case Subscribe(uid, key, frequency) => s.Subscribed(setup, uid, key, frequency)
    case Unsubscribe(key) => s.Unsubscribed(key)
    case AskVision => s.(events := s.events.(vision := true))
    case StartStream => s.(streaming := true)
    case Step(dt) => s.Stepped(dt)
  }

  function Run(setup: Setup, s: Server, events: seq<Event>): Server
    decreases |events|
  {
    if events == [] then s else Apply(setup, Run(setup, s, events[..|events| - 1]), events[|events| - 1])
  }

  /** Any of the keys left to visit; the order is irrelevant. */
  method AnyKey<T>(keys: set<T>) returns (key: T)
    requires keys != {}
    ensures key in keys
  {
    key :| key in keys;
  }

  method StepPublishers(publishers: map<int, Subscription>, dt: real) returns (stepped: map<int, Subscription>)
    ensures stepped == map key | key in publishers :: publishers[key].Stepped(dt)
  {
    hide Subscription.Stepped;
    stepped := publishers;
    var todo := publishers.Keys;
    while todo != {}
      invariant todo <= publishers.Keys
      invariant stepped == map key | key in publishers ::
                             if key in todo then publishers[key] else publishers[key].Stepped(dt)
      decreases |todo|
    {
      var key := AnyKey(todo);
      stepped := stepped[key := publishers[key].Stepped(dt)];
      todo := todo - {key};
    }
  }

  class Commands {
    const setup: Setup
    var time: real
    var lastHeartbeat: real
    var connected: bool
    var publishers: map<int, Subscription>
    var events: Events
    var streaming: bool

    constructor (setup: Setup)
      ensures this.setup == setup
      ensures time == 0.0 && !connected && publishers == map[] && events == NO_EVENTS
    {
      this.setup := setup;
      time, connected, publishers, events := 0.0, false, map[], NO_EVENTS;
    }

    function State(): Server
      reads this
    {
      Server(time, lastHeartbeat, connected, publishers, events, streaming)
    }

    method Unconnect()
      modifies this
      ensures State() == old(State()).Unconnected()
    {
      streaming := false;
      events := NO_EVENTS;
      publishers := map[];
      connected := false;
    }

    method AddSubscriberNode()
      modifies this
      ensures State() == Apply(setup, old(State()), AddNode)
    {
      if setup.armorHits {
        events := events.(armorHits := true);
      }
      if setup.irHits {
        events := events.(irHits := true);
      }
      lastHeartbeat := time;
      connected := true;
    }

    method GotHeartbeat()
      modifies this
      ensures State() == Apply(setup, old(State()), Heartbeat)
    {
      lastHeartbeat := time;
    }

    method ResetSubscriberNode()
      modifies this
      ensures State() == Apply(setup, old(State()), ResetNode)
    {
      Unconnect();
    }

    method SetEnableSdk(value: bool)
      modifies this
      ensures State() == Apply(setup, old(State()), SetSdk(value))
    {
      if !value {
        events := NO_EVENTS;
        publishers := map[];
      }
    }

    method CreatePublisher(uid: nat, node: nat, msg: nat, frequency: nat)
      modifies this
      ensures State() == Apply(setup, old(State()), Subscribe(uid, KeyFrom(node, msg), frequency))
    {
      var key := KeyFrom(node, msg);
      if uid !in setup.subjects {
        return;
      }
      if key !in publishers {
        publishers := publishers[key := Subscription(uid, TopicState(frequency, false, In(0.0), 0))];
      }
      publishers := publishers[key := publishers[key].(topic := publishers[key].topic.Started())];
    }

    method StopPublisher(node: nat, msg: nat)
      modifies this
      ensures State() == Apply(setup, old(State()), Unsubscribe(KeyFrom(node, msg)))
      ensures KeyFrom(node, msg) !in publishers
      ensures forall key :: key != KeyFrom(node, msg) ==>
                (key in publishers <==> key in old(publishers))
                && (key in publishers ==> publishers[key] == old(publishers)[key])
      ensures unchanged(this`time) && unchanged(this`lastHeartbeat) && unchanged(this`connected)
              && unchanged(this`events) && unchanged(this`streaming)
    {
      publishers := publishers - {KeyFrom(node, msg)};
    }

    method DoStep(dt: real)
      modifies this
      ensures State() == Apply(setup, old(State()), Step(dt))
    {
      publishers := StepPublishers(publishers, dt);
      time := time + dt;
      if connected && time - lastHeartbeat > MAX_HEARTBEAT_DELAY {
        Unconnect();
      }
    }
  }

  // ----- What each event does

  /** The step that finds the last heartbeat more than 3 s old. */
  predicate Expires(s: Server, e: Event) {
    e.Step? && s.connected && s.time + e.dt - s.lastHeartbeat > 3.0
  }

  /** What ends a subscription: its deletion, switching the SDK off, a reset, or the loss of the client. */
  predicate Ends(s: Server, e: Event, key: int) {
    e == Unsubscribe(key) || e == SetSdk(false) || e.ResetNode? || Expires(s, e)
  }

  predicate Begins(setup: Setup, e: Event, key: int) {
    e.Subscribe? && e.key == key && e.uid in setup.subjects
  }

  lemma PresentAfter(setup: Setup, s: Server, e: Event, key: int)
    ensures key in Apply(setup, s, e).publishers <==>
            Begins(setup, e, key) || (key in s.publishers && !Ends(s, e, key))
  {
    hide Subscription.Stepped;
  }

  /** What is recorded for a key: the subject and frequency first asked for, until the subscription ends. */
  lemma RecordedAfter(setup: Setup, s: Server, e: Event, key: int)
    requires key in Apply(setup, s, e).publishers
    ensures var r := Apply(setup, s, e).publishers[key];
            && r.uid == (if key in s.publishers then s.publishers[key].uid else e.uid)
            && r.topic.frequency == (if key in s.publishers then s.publishers[key].topic.frequency else e.frequency)
            && (Begins(setup, e, key) ==> r.topic.active && r.topic.deadline == In(0.0))
            && (key !in s.publishers ==> r.topic.published == 0)
            && (key in s.publishers && !Begins(setup, e, key) && !e.Step? ==> r == s.publishers[key])
  {
    hide TopicState.Stepped;
    PresentAfter(setup, s, e, key);
    if e.Step? {
      FrequencyKept(s.publishers[key].topic, e.dt);
    }
  }

  /** The rest of the state: the clock runs in steps only, registering and heartbeats are signs of life, and
      events and the stream go on until they are ended. */
  lemma RestAfter(setup: Setup, s: Server, e: Event)
    ensures var r := Apply(setup, s, e);
            var over := e.ResetNode? || Expires(s, e);
            && r.time == s.time + (if e.Step? then e.dt else 0.0)
            && r.lastHeartbeat == (if e.AddNode? || e.Heartbeat? then s.time else s.lastHeartbeat)
            && (r.connected <==> (s.connected || e.AddNode?) && !over)
            && (r.streaming <==> (s.streaming || e.StartStream?) && !over)
            && (r.events.armorHits <==>
                (s.events.armorHits || (e.AddNode? && setup.armorHits)) && !over && e != SetSdk(false))
            && (r.events.irHits <==>
                (s.events.irHits || (e.AddNode? && setup.irHits)) && !over && e != SetSdk(false))
            && (r.events.vision <==> (s.events.vision || e.AskVision?) && !over && e != SetSdk(false))
  {
    hide Server.PublishersStepped;
  }

  // ----- When a key is subscribed

  /** From event `first` on, nothing ends the subscription of a key. */
  ghost predicate Survives(setup: Setup, s: Server, events: seq<Event>, key: int, first: nat) {
    forall i :: first <= i < |events| ==> !Ends(Run(setup, s, events[..i]), events[i], key)
  }

  ghost predicate BegunAt(setup: Setup, s: Server, events: seq<Event>, key: int, i: int) {
    0 <= i < |events| && Begins(setup, events[i], key) && Survives(setup, s, events, key, i + 1)
  }

  lemma SurvivesLonger(setup: Setup, s: Server, front: seq<Event>, e: Event, key: int, first: nat)
    requires first <= |front|
    ensures Survives(setup, s, front + [e], key, first) <==>
            Survives(setup, s, front, key, first) && !Ends(Run(setup, s, front), e, key)
  {
    hide Ends, Run;
    var events := front + [e];
    assert events[..|front|] == front;
    assert forall i :: 0 <= i < |front| ==> events[..i] == front[..i];
    if Survives(setup, s, events, key, first) {
      assert events[|front|] == e;
      forall i | first <= i < |front|
        ensures !Ends(Run(setup, s, front[..i]), front[i], key)
      {
        assert !Ends(Run(setup, s, events[..i]), events[i], key);
      }
    }
  }

  /** A key is subscribed after a run exactly if it was requested, with a known subject, or subscribed from the
      start, and nothing has ended the subscription since. */
  lemma {:induction false} SubscribedIff(setup: Setup, s: Server, events: seq<Event>, key: int)
    ensures key in Run(setup, s, events).publishers <==>
            || (key in s.publishers && Survives(setup, s, events, key, 0))
            || exists i :: BegunAt(setup, s, events, key, i)
    decreases |events|
  {
    hide Ends, Begins, Apply, Survives;
    if events == [] {
      assert Survives(setup, s, [], key, 0) by { NothingEnds(setup, s, key, 0); }
    } else {
      var front, e := events[..|events| - 1], events[|events| - 1];
      assert events == front + [e];
      SubscribedIff(setup, s, front, key);
      PresentAfter(setup, Run(setup, s, front), e, key);
      SurvivesLonger(setup, s, front, e, key, 0);
      forall i | 0 <= i < |front|
        ensures BegunAt(setup, s, events, key, i) <==>
                BegunAt(setup, s, front, key, i) && !Ends(Run(setup, s, front), e, key)
      {
        SurvivesLonger(setup, s, front, e, key, i + 1);
      }
      assert BegunAt(setup, s, events, key, |front|) <==> Begins(setup, e, key) by {
        NothingAfter(setup, s, events, key);
      }
    }
  }

  lemma NothingEnds(setup: Setup, s: Server, key: int, first: nat)
    ensures Survives(setup, s, [], key, first)
  {
  }

  lemma NothingAfter(setup: Setup, s: Server, events: seq<Event>, key: int)
    ensures Survives(setup, s, events, key, |events|)
  {
  }

  /** A deletion removes the subscription and nothing else, and the key stays free until it is requested again. */
  lemma DeletionHolds(setup: Setup, s: Server, key: int, events: seq<Event>)
    requires forall e :: e in events ==> !e.Subscribe? || e.key != key
    ensures var deleted := Apply(setup, s, Unsubscribe(key));
            && key !in deleted.publishers
            && (forall k :: k != key ==>
                  (k in deleted.publishers <==> k in s.publishers)
                  && (k in s.publishers ==> deleted.publishers[k] == s.publishers[k]))
            && deleted == s.(publishers := deleted.publishers)
            && key !in Run(setup, deleted, events).publishers
  {
    hide Run;
    var deleted := Apply(setup, s, Unsubscribe(key));
    SubscribedIff(setup, deleted, events, key);
    forall i | 0 <= i < |events|
      ensures !BegunAt(setup, deleted, events, key, i)
    {
      assert events[i] in events;
    }
  }

  // ----- The watchdog

  /** Between steps a client counts as connected only if its last heartbeat is at most 3 s old. */
  ghost predicate Alive(s: Server) {
    s.connected ==> s.time - s.lastHeartbeat <= 3.0
  }

  lemma {:induction false} AliveAlways(setup: Setup, s: Server, events: seq<Event>)
    requires Alive(s)
    ensures Alive(Run(setup, s, events))
    decreases |events|
  {
    hide Server.PublishersStepped;
    if events != [] {
      AliveAlways(setup, s, events[..|events| - 1]);
    }
  }

  function Elapsed(events: seq<Event>): real {
    if events == [] then 0.0
    else
      var e := events[|events| - 1];
      Elapsed(events[..|events| - 1]) + if e.Step? then e.dt else 0.0
  }

  /** No sign of life from the client, and nothing that ends or renews its session. */
  ghost predicate Silent(events: seq<Event>) {
    forall e :: e in events ==> !e.AddNode? && !e.Heartbeat? && !e.ResetNode? && (e.Step? ==> e.dt >= 0.0)
  }

  lemma {:induction false} ElapsedForward(events: seq<Event>)
    requires Silent(events)
    ensures Elapsed(events) >= 0.0
    decreases |events|
  {
    if events != [] {
      var front := events[..|events| - 1];
      assert events[|events| - 1] in events && forall x :: x in front ==> x in events;
      ElapsedForward(front);
    }
  }

  /** A silent client is disconnected by steps exactly when more than 3 s have passed since its last
      heartbeat, however the time is split and whatever else it requests. */
  lemma {:induction false} SilenceDisconnectsIff(setup: Setup, s: Server, events: seq<Event>)
    requires s.connected && Alive(s) && Silent(events)
    ensures var r := Run(setup, s, events);
            && r.time == s.time + Elapsed(events) && r.lastHeartbeat == s.lastHeartbeat
            && (r.connected <==> s.time - s.lastHeartbeat + Elapsed(events) <= 3.0)
    decreases |events|
  {
    hide Server.PublishersStepped;
    if events != [] {
      var front := events[..|events| - 1];
      assert forall x :: x in front ==> x in events;
      SilenceDisconnectsIff(setup, s, front);
      ElapsedForward(front);
      assert events[|events| - 1] in events;
    }
  }

  /** Losing the client ends everything it had started. */
  lemma LossClears(setup: Setup, s: Server, e: Event)
    requires s.connected && !Apply(setup, s, e).connected
    ensures var r := Apply(setup, s, e);
            r.publishers == map[] && r.events == NO_EVENTS && !r.streaming
    ensures e.ResetNode? || (e.Step? && s.time + e.dt - s.lastHeartbeat > 3.0)
  {
  }

  // ----- Subscriptions

  /** Nothing in these events removes subscription `key`. */
  ghost predicate Keeps(events: seq<Event>, key: int) {
    forall e :: e in events ==> e != Unsubscribe(key) && e != SetSdk(false) && !e.ResetNode?
  }

  /** The client is not lost, and not reset, at any point of a run. */
  ghost predicate NeverLost(setup: Setup, s: Server, events: seq<Event>)
    decreases |events|
  {
    events != [] ==>
      && NeverLost(setup, s, events[..|events| - 1])
      && (Run(setup, s, events[..|events| - 1]).connected ==> Run(setup, s, events).connected)
  }

  /** A subscription keeps its first subject and frequency, whatever is requested for its key, until it
      is deleted or the client is lost. */
  lemma {:induction false} FirstSubjectKept(setup: Setup, s: Server, events: seq<Event>, key: int)
    requires key in s.publishers && Keeps(events, key) && NeverLost(setup, s, events)
    ensures var r := Run(setup, s, events);
            && key in r.publishers && r.publishers[key].uid == s.publishers[key].uid
            && r.publishers[key].topic.frequency == s.publishers[key].topic.frequency
    decreases |events|
  {
    hide TopicState.Stepped;
    if events != [] {
      var front, e := events[..|events| - 1], events[|events| - 1];
      assert e in events && forall x :: x in front ==> x in events;
      FirstSubjectKept(setup, s, front, key);
      if e.Step? {
        FrequencyKept(Run(setup, s, front).publishers[key].topic, e.dt);
      }
    }
  }

  lemma FrequencyKept(t: TopicState, dt: real)
    ensures t.Stepped(dt).frequency == t.frequency && t.Stepped(dt).active == t.active
  {
    if t.active {
      CatchUpKeeps(t.(deadline := t.deadline.Minus(dt)));
    }
  }

  lemma {:induction false} CatchUpKeeps(t: TopicState)
    ensures t.CaughtUp().frequency == t.frequency && t.CaughtUp().active == t.active
    decreases Lag(t.frequency, t.deadline)
  {
    if t.deadline.Passed() {
      LagShrinks(t.frequency, t.deadline);
      CatchUpKeeps(t.(deadline := t.deadline.Plus(Period(t.frequency)), published := t.published + 1));
    }
  }

  function StepsOf(events: seq<Event>): seq<real> {
    if events == [] then []
    else
      var e := events[|events| - 1];
      StepsOf(events[..|events| - 1]) + if e.Step? then [e.dt] else []
  }

  lemma TopicOfEvent(setup: Setup, s: Server, e: Event, key: int)
    requires !e.Subscribe? || e.key != key
    requires key in Apply(setup, s, e).publishers
    ensures key in s.publishers
    ensures Apply(setup, s, e).publishers[key].topic ==
            if e.Step? then s.publishers[key].topic.Stepped(e.dt) else s.publishers[key].topic
  {
    hide TopicState.Stepped;
  }

  /** Steps, heartbeats and requests for other keys do not disturb a subscription: its topic runs
      through exactly the steps. */
  lemma {:induction false} SubscriptionRuns(setup: Setup, s: Server, events: seq<Event>, key: int)
    requires key in s.publishers
    requires forall e :: e in events ==> !e.Subscribe? || e.key != key
    requires key in Run(setup, s, events).publishers
    ensures Run(setup, s, events).publishers[key].topic == s.publishers[key].topic.Ran(StepsOf(events))
    decreases |events|
  {
    hide TopicState.Stepped, Apply;
    if events != [] {
      var front, e := events[..|events| - 1], events[|events| - 1];
      assert e in events && forall x :: x in front ==> x in events;
      var steps := StepsOf(front);
      TopicOfEvent(setup, Run(setup, s, front), e, key);
      SubscriptionRuns(setup, s, front, key);
      if e.Step? {
        assert (steps + [e.dt])[..|steps|] == steps;
      } else {
        assert steps + [] == steps;
      }
    }
  }

  lemma {:induction false} StepsSum(events: seq<Event>)
    requires forall e :: e in events ==> e.Step? ==> e.dt >= 0.0
    ensures Sum(StepsOf(events)) == Elapsed(events) && Forward(StepsOf(events))
    decreases |events|
  {
    hide Sum, Forward;
    if events == [] {
      NoSteps();
    } else {
      var front, e := events[..|events| - 1], events[|events| - 1];
      assert e in events && forall x :: x in front ==> x in events;
      StepsSum(front);
      if e.Step? {
        OneMoreStep(StepsOf(front), e.dt);
      } else {
        assert StepsOf(front) + [] == StepsOf(front);
      }
    }
  }

  lemma NoSteps()
    ensures Sum([]) == 0.0 && Forward([])
  {
  }

  lemma OneMoreStep(steps: seq<real>, dt: real)
    requires Forward(steps) && dt >= 0.0
    ensures Sum(steps + [dt]) == Sum(steps) + dt && Forward(steps + [dt])
  {
    assert (steps + [dt])[..|steps|] == steps;
  }

  /** A request for a key, whether or not it had a subscription, starts it anew: at frequency f, the one
      kept if there was one, it publishes floor(T * f) + 1 times in time T, in at least one step, if it is
      still alive and was not requested again. */
  lemma SubscriptionPublishes(setup: Setup, s: Server, uid: nat, key: int, frequency: nat, events: seq<Event>)
    requires uid in setup.subjects
    requires forall e :: e in events ==> (!e.Subscribe? || e.key != key) && (e.Step? ==> e.dt >= 0.0)
    requires exists e :: e in events && e.Step?
    requires key in Run(setup, s.Subscribed(setup, uid, key, frequency), events).publishers
    requires s.Subscribed(setup, uid, key, frequency).publishers[key].topic.frequency > 0
    ensures var start := s.Subscribed(setup, uid, key, frequency).publishers[key].topic;
            var end := Run(setup, s.Subscribed(setup, uid, key, frequency), events).publishers[key].topic;
            && (key !in s.publishers ==> start.frequency == frequency && start.published == 0)
            && (key in s.publishers ==> start == s.publishers[key].topic.Started())
            && end.published == start.published + (Elapsed(events) * start.frequency as real).Floor + 1
  {
    hide Run, TopicState.Ran, TopicState.Stepped, TopicState.CaughtUp, StepsOf, Elapsed, Sum;
    var start := s.Subscribed(setup, uid, key, frequency);
    SubscriptionRuns(setup, start, events, key);
    StepsSum(events);
    StepsPresent(events);
    var topic := start.publishers[key].topic;
    StartedTwice(if key in s.publishers then s.publishers[key].topic else TopicState(frequency, false, In(0.0), 0));
    PublicationCount(topic, StepsOf(events));
  }

  lemma StartedTwice(t: TopicState)
    ensures t.Started().Started() == t.Started()
  {
  }

  lemma {:induction false} StepsPresent(events: seq<Event>)
    requires exists e :: e in events && e.Step?
    ensures StepsOf(events) != []
    decreases |events|
  {
    var e := events[|events| - 1];
    if !e.Step? {
      var x :| x in events && x.Step?;
      assert x in events[..|events| - 1];
      StepsPresent(events[..|events| - 1]);
    }
  }
}
