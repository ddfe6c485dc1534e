/** Periodic publication on simulated time: a topic that publishes whenever its deadline has passed. */
module Topic {
  import opened RealMath

  /** Time left to the next publication.  A request may ask for frequency zero; its period is then the
      float infinity, and no later publication ever comes. */
  datatype Deadline = In(seconds: real) | Never {
    predicate Passed() {
      In? && seconds <= 0.0
    }

    function Minus(dt: real): Deadline {
      if In? then In(seconds - dt) else Never
    }

    function Plus(period: Deadline): Deadline {
      if In? && period.In? then In(seconds + period.seconds) else Never
    }
  }

  function Period(frequency: nat): Deadline {
    if frequency == 0 then Never else In(Interval(frequency))
  }

  function Interval(frequency: nat): (p: real)
    requires frequency > 0
    ensures p * frequency as real == 1.0
  {
    QuotientTimes(1.0, frequency as real);
    1.0 / frequency as real
  }

  datatype TopicState = TopicState(frequency: nat, active: bool, deadline: Deadline, published: nat) {
    function Started(): TopicState {
      this.(active := true, deadline := In(0.0))
    }

    function Stopped(): TopicState {
      this.(active := false)
    }

    /** Publishes once per period until the deadline lies ahead. */
    function CaughtUp(): TopicState
      decreases Lag(frequency, deadline)
    {
      if deadline.Passed() then
        LagShrinks(frequency, deadline);
        this.(deadline := deadline.Plus(Period(frequency)), published := published + 1).CaughtUp()
      else this
    }

    function Stepped(dt: real): TopicState {
      if active then this.(deadline := deadline.Minus(dt)).CaughtUp() else this
    }

    function Ran(steps: seq<real>): TopicState
      decreases |steps|
    {
      if steps == [] then this else Ran(steps[..|steps| - 1]).Stepped(steps[|steps| - 1])
    }
  }

  /** How many more times a topic publishes before its deadline lies ahead. */
  function Lag(frequency: nat, deadline: Deadline): nat {
    if !deadline.Passed() then 0
    else if frequency == 0 then 1
    else
      ScaledSign(-deadline.seconds, frequency as real);
      (-deadline.seconds * frequency as real).Floor + 1
  }

  lemma ScaledSign(x: real, f: real)
    requires x >= 0.0 && f >= 0.0
    ensures x * f >= 0.0
  {
    ProductMonotone(0.0, x, f);
  }

  lemma LagShrinks(frequency: nat, deadline: Deadline)
    requires deadline.Passed()
    ensures Lag(frequency, deadline.Plus(Period(frequency))) < Lag(frequency, deadline)
  {
    if frequency > 0 {
      var f := frequency as real;
      var d := deadline.seconds;
      ScaledSign(-d, f);
      var p := Interval(frequency);
      assert -(d + p) * f == -d * f - p * f;
    }
  }

  class Topic {
    var active: bool
    var deadline: Deadline
    var published: nat
    const frequency: nat

    constructor (frequency: nat)
      ensures !active && deadline == In(0.0) && published == 0 && this.frequency == frequency
    {
      active, deadline, published := false, In(0.0), 0;
      this.frequency := frequency;
    }

    function State(): TopicState
      reads this
    {
      TopicState(frequency, active, deadline, published)
    }

    method Start()
      modifies this
      ensures State() == old(State()).Started()
    {
      active := true;
      deadline := In(0.0);
    }

    method Stop()
      modifies this
      ensures State() == old(State()).Stopped()
    {
      active := false;
    }

    method Publish()
      modifies this`published
      ensures published == old(published) + 1
    {
      published := published + 1;
    }

    method DoStep(dt: real)
      modifies this
      ensures State() == old(State()).Stepped(dt)
    {
      if !active {
        return;
      }
      deadline := deadline.Minus(dt);
      while deadline.Passed()
        invariant active
        invariant State().CaughtUp() == old(State()).Stepped(dt)
        decreases Lag(frequency, deadline)
      {
        LagShrinks(frequency, deadline);
        deadline := deadline.Plus(Period(frequency));
        Publish();
      }
    }
  }

  // ----- Exact counting

  lemma {:induction false} CatchUpCount(s: TopicState)
    requires s.frequency > 0 && s.deadline.In?
    ensures var r := s.CaughtUp();
            && r.frequency == s.frequency && r.active == s.active && r.deadline.In?
            && r.published >= s.published
            && r.deadline.seconds == s.deadline.seconds + (r.published - s.published) as real * Interval(s.frequency)
            && r.deadline.seconds > 0.0
            && (r.published > s.published ==> r.deadline.seconds <= Interval(s.frequency))
    decreases Lag(s.frequency, s.deadline)
  {
    if s.deadline.Passed() {
      LagShrinks(s.frequency, s.deadline);
      var next := s.(deadline := s.deadline.Plus(Period(s.frequency)), published := s.published + 1);
      CatchUpCount(next);
      var n, p := (s.CaughtUp().published - next.published) as real, Interval(s.frequency);
      assert (n + 1.0) * p == n * p + p;
    }
  }

  function Sum(steps: seq<real>): real {
    if steps == [] then 0.0 else Sum(steps[..|steps| - 1]) + steps[|steps| - 1]
  }

  ghost predicate Forward(steps: seq<real>) {
    forall i :: 0 <= i < |steps| ==> steps[i] >= 0.0
  }

  /** After any steps the deadline is what the publications so far leave of the elapsed time. */
  lemma {:induction false} DeadlineAfter(s: TopicState, steps: seq<real>)
    requires s.frequency > 0 && Forward(steps)
    ensures var r := s.Started().Ran(steps);
            var p := Interval(s.frequency);
            && r.frequency == s.frequency && r.active && r.deadline.In? && r.published >= s.published
            && r.deadline.seconds == (r.published - s.published) as real * p - Sum(steps)
            && (if steps == [] then r.deadline.seconds == 0.0 && r.published == s.published
                else 0.0 < r.deadline.seconds <= p)
    decreases |steps|
  {
    hide Interval, TopicState.CaughtUp;
    var p := Interval(s.frequency);
    if steps != [] {
      var front, dt := steps[..|steps| - 1], steps[|steps| - 1];
      DeadlineAfter(s, front);
      var before := s.Started().Ran(front);
      var late := before.(deadline := before.deadline.Minus(dt));
      CatchUpCount(late);
      var r := late.CaughtUp();
      Distribute((before.published - s.published) as real, (r.published - before.published) as real, p);
    }
  }

  lemma Distribute(m: real, n: real, p: real)
    ensures (m + n) * p == m * p + n * p
  {
  }

  /** A started topic has published floor(T * f) + 1 times after steps that sum to T, however T is
      split into steps. */
  lemma PublicationCount(s: TopicState, steps: seq<real>)
    requires s.frequency > 0 && Forward(steps) && steps != []
    ensures s.Started().Ran(steps).published == s.published + (Sum(steps) * s.frequency as real).Floor + 1
  {
    hide TopicState.Ran, TopicState.Started, Interval;
    DeadlineAfter(s, steps);
    var n := s.Started().Ran(steps).published - s.published;
    CountIsFloor(n, Interval(s.frequency), s.frequency as real, Sum(steps));
  }

  lemma CountIsFloor(n: nat, p: real, f: real, t: real)
    requires f > 0.0 && p * f == 1.0 && 0.0 < n as real * p - t <= p
    ensures n == (t * f).Floor + 1
  {
    var d := n as real * p - t;
    Rescaled(n as real, p, f, t);
    FactorCompare(d, d * f, f, 0.0);
    FactorCompare(d, d * f, f, p);
  }

  lemma Rescaled(n: real, p: real, f: real, t: real)
    requires p * f == 1.0
    ensures (n * p - t) * f == n - t * f
  {
    assert (n * p - t) * f == n * (p * f) - t * f;
  }

  /** A stopped topic lets its deadline rest and publishes nothing, however much time passes. */
  lemma {:induction false} StoppedRests(s: TopicState, steps: seq<real>)
    ensures var r := s.Stopped().Ran(steps);
            !r.active && r.published == s.published && r.deadline == s.deadline && r.frequency == s.frequency
    decreases |steps|
  {
    if steps != [] {
      StoppedRests(s, steps[..|steps| - 1]);
    }
  }

  /** At frequency zero a started topic publishes once, at its first step, and never again. */
  lemma {:induction false} ZeroFrequencyPublishesOnce(s: TopicState, steps: seq<real>)
    requires s.frequency == 0 && Forward(steps)
    ensures var r := s.Started().Ran(steps);
            && r.frequency == 0 && r.active
            && r.published == s.published + (if steps == [] then 0 else 1)
            && (if steps == [] then r.deadline == In(0.0) else r.deadline == Never)
    decreases |steps|
  {
    if steps != [] {
      ZeroFrequencyPublishesOnce(s, steps[..|steps| - 1]);
      var before := s.Started().Ran(steps[..|steps| - 1]);
      CatchUpAtZero(before.(deadline := before.deadline.Minus(steps[|steps| - 1])));
    }
  }

  lemma CatchUpAtZero(s: TopicState)
    requires s.frequency == 0
    ensures s.CaughtUp() == if s.deadline.Passed() then s.(deadline := Never, published := s.published + 1) else s
  {
    if s.deadline.Passed() {
      assert !s.(deadline := Never, published := s.published + 1).deadline.Passed();
    }
  }
}
