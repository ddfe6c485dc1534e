/** The asynchronous client of the navigation server: goals are sent, and answered and finished by
    callbacks that may arrive at any time. */
module NavClient {
  import opened Geometry
  import opened Options

  datatype Status = Succeeded | Canceled | Aborted

  /** What passes between the client and the server; goals are numbered in the order they are sent. */
  datatype Entry =
    | Sent(goal: nat, target: Pose)
    | Accepted(goal: nat)
    | Refused(goal: nat)
    | Finished(goal: nat, status: Status)
    | CancelCalled(handle: Option<nat>)

  datatype Client = Client(active: bool, handle: Option<nat>, succeeded: bool, canceled: bool, sent: nat,
                           log: seq<Entry>) {
    function Sending(target: Pose, ready: bool): Client {
      if !ready then this
      else Client(true, handle, false, false, sent + 1, log + [Sent(sent, target)])
    }

    function Canceling(): Client {
      Client(false, None, false, canceled || handle.Some?, sent, log + [CancelCalled(handle)])
    }

    function Answered(goal: nat, accepted: bool): Client {
      if accepted then this.(handle := Some(goal), log := log + [Accepted(goal)])
      else this.(active := false, log := log + [Refused(goal)])
    }

    /** The result of any goal clears the client, whichever goal is being tracked. */
    function Resulted(goal: nat, status: Status): Client {
      Client(false, None, status.Succeeded?, false, sent, log + [Finished(goal, status)])
    }
  }

  const IDLE := Client(false, None, false, false, 0, [])

  class NavClient {
    var active: bool
    var handle: Option<nat>
    var succeeded: bool
    var canceled: bool
    var sent: nat
    var log: seq<Entry>

    constructor ()
      ensures State() == IDLE
    {
      active, handle, succeeded, canceled, sent, log := false, None, false, false, 0, [];
    }

    function State(): Client
      reads this
    {
      Client(active, handle, succeeded, canceled, sent, log)
    }

    method Send(target: Pose, ready: bool) returns (ok: bool)
      modifies this
      ensures State() == old(State()).Sending(target, ready) && ok == ready
      ensures if ready then
                active && !succeeded && !canceled && handle == old(handle)
                && sent == old(sent) + 1 && log == old(log) + [Sent(old(sent), target)]
              else unchanged(this)
    {
      if !ready {
        return false;
      }
      active := true;
      succeeded := false;
      canceled := false;
      log := log + [Sent(sent, target)];
      sent := sent + 1;
      ok := true;
    }

    method Cancel()
      modifies this
      ensures State() == old(State()).Canceling()
      ensures !active && handle.None? && !succeeded && (canceled <==> old(canceled) || old(handle).Some?)
      ensures sent == old(sent) && log == old(log) + [CancelCalled(old(handle))]
    {
      log := log + [CancelCalled(handle)];
      if handle.Some? {
        canceled := true;
      }
      active := false;
      handle := None;
      succeeded := false;
    }

    method OnGoalAccepted(goal: nat, accepted: bool)
      modifies this
      ensures State() == old(State()).Answered(goal, accepted)
      ensures unchanged(this`succeeded) && unchanged(this`canceled) && unchanged(this`sent)
      ensures if accepted then
                active == old(active) && handle == Some(goal) && log == old(log) + [Accepted(goal)]
              else !active && handle == old(handle) && log == old(log) + [Refused(goal)]
    {
      if !accepted {
        log := log + [Refused(goal)];
        active := false;
        return;
      }
      log := log + [Accepted(goal)];
      handle := Some(goal);
    }

    /** Warns of every result but success and a cancellation that was asked for. */
    method OnNavResult(goal: nat, status: Status) returns (warned: bool)
      modifies this
      ensures State() == old(State()).Resulted(goal, status)
      ensures !active && handle.None? && !canceled && (succeeded <==> status == Succeeded)
      ensures sent == old(sent) && log == old(log) + [Finished(goal, status)]
      ensures warned <==> status.Aborted? || (status.Canceled? && !old(canceled))
    {
      log := log + [Finished(goal, status)];
      active := false;
      handle := None;
      succeeded := status == Succeeded;
      warned := false;
      if status != Succeeded {
        if !(canceled && status == Canceled) {
          warned := true;
        }
      }
      canceled := false;
    }
  }

  // ----- What the flags tell about the past

  /** Some entry satisfies `start` and all later ones satisfy `quiet`. */
  ghost predicate Since(log: seq<Entry>, start: Entry -> bool, quiet: Entry -> bool) {
    exists i :: 0 <= i < |log| && start(log[i]) && forall j :: i < j < |log| ==> quiet(log[j])
  }

  lemma SinceNext(log: seq<Entry>, e: Entry, start: Entry -> bool, quiet: Entry -> bool)
    ensures Since(log + [e], start, quiet) <==> start(e) || (quiet(e) && Since(log, start, quiet))
  {
    var all := log + [e];
    assert start(e) ==> start(all[|log|]);
    if Since(all, start, quiet) {
      var i :| 0 <= i < |all| && start(all[i]) && forall j :: i < j < |all| ==> quiet(all[j]);
      if i < |log| {
        assert all[i] == log[i] && quiet(all[|log|]);
        forall j | i < j < |log|
          ensures quiet(log[j])
        {
          assert quiet(all[j]);
        }
      }
    }
    if quiet(e) && Since(log, start, quiet) {
      var i :| 0 <= i < |log| && start(log[i]) && forall j :: i < j < |log| ==> quiet(log[j]);
      assert all[i] == log[i];
      assert forall j :: i < j < |all| ==> quiet(all[j]);
    }
  }

  predicate IsSent(e: Entry) { e.Sent? }
  predicate IsAccepted(e: Entry) { e.Accepted? }
  predicate IsAnswer(e: Entry) { e.Accepted? || e.Refused? }
  predicate IsSuccess(e: Entry) { e.Finished? && e.status.Succeeded? }
  predicate IsSentOrRefused(e: Entry) { e.Sent? || e.Refused? }

  function AcceptanceOf(goal: nat): Entry -> bool {
    e => e == Accepted(goal)
  }

  /** The client is active from a send until anything but an acceptance; it has succeeded from a successful
      result until the next send, cancel or result; and it tracks a goal from its acceptance until the next
      acceptance, cancel or result. */
  ghost predicate FlagsTell(c: Client) {
    && (c.active <==> Since(c.log, IsSent, IsAccepted))
    && (c.succeeded <==> Since(c.log, IsSuccess, IsAnswer))
    && (forall goal: nat :: c.handle == Some(goal) <==> Since(c.log, AcceptanceOf(goal), IsSentOrRefused))
  }

  /** The client after one more entry. */
  ghost predicate Follows(c: Client, e: Entry, next: Client) {
    match e
    case Sent(goal, target) => goal == c.sent && next == c.Sending(target, true)
    case Accepted(goal) => next == c.Answered(goal, true)
    case Refused(goal) => next == c.Answered(goal, false)
    case Finished(goal, status) => next == c.Resulted(goal, status)
    case CancelCalled(handle) => handle == c.handle && next == c.Canceling()
  }

  lemma FlagsNext(c: Client, e: Entry, next: Client)
    requires FlagsTell(c) && Follows(c, e, next)
    ensures FlagsTell(next)
  {
    hide Since;
    assert next.log == c.log + [e];
    SinceNext(c.log, e, IsSent, IsAccepted);
    SinceNext(c.log, e, IsSuccess, IsAnswer);
    forall goal: nat
      ensures next.handle == Some(goal) <==> Since(next.log, AcceptanceOf(goal), IsSentOrRefused)
    {
      SinceNext(c.log, e, AcceptanceOf(goal), IsSentOrRefused);
    }
  }

  // ----- The goals on the server's side

  /** Goals not answered yet. */
  ghost function Pending(log: seq<Entry>): set<nat> {
    if log == [] then {}
    else
      var before := Pending(log[..|log| - 1]);
      match log[|log| - 1]
      case Sent(goal, _) => before + {goal}
      case Accepted(goal) => before - {goal}
      case Refused(goal) => before - {goal}
      case _ => before
  }

  /** Goals accepted and not finished. */
  ghost function Running(log: seq<Entry>): set<nat> {
    if log == [] then {}
    else
      var before := Running(log[..|log| - 1]);
      match log[|log| - 1]
      case Accepted(goal) => before + {goal}
      case Finished(goal, _) => before - {goal}
      case _ => before
  }

  ghost function Open(log: seq<Entry>): set<nat> {
    Pending(log) + Running(log)
  }

  /** Open goals that the server was never asked to cancel. */
  ghost function Loose(log: seq<Entry>): set<nat> {
    if log == [] then {}
    else
      var before := Loose(log[..|log| - 1]);
      match log[|log| - 1]
      case Sent(goal, _) => before + {goal}
      case Refused(goal) => before - {goal}
      case Finished(goal, _) => before - {goal}
      case CancelCalled(Some(goal)) => before - {goal}
      case _ => before
  }

  lemma LedgersNext(log: seq<Entry>, e: Entry)
    ensures (log + [e])[..|log|] == log && (log + [e])[|log|] == e
  {
  }

  /** The server answers only goals it was sent, once, and finishes only goals it has accepted, once. */
  ghost predicate LawfulNext(log: seq<Entry>, e: Entry) {
    match e
    case Accepted(goal) => goal in Pending(log)
    case Refused(goal) => goal in Pending(log)
    case Finished(goal, _) => goal in Running(log)
    case _ => true
  }

  ghost predicate Lawful(log: seq<Entry>)
    decreases |log|
  {
    log != [] ==> Lawful(log[..|log| - 1]) && LawfulNext(log[..|log| - 1], log[|log| - 1])
  }

  /** With a lawful server: goals are numbered below `sent`, no goal is both pending and running, and the
      tracked goal is running and was not asked to stop. */
  ghost predicate Tracks(c: Client) {
    && (forall goal :: goal in Open(c.log) ==> goal < c.sent)
    && Pending(c.log) !! Running(c.log)
    && Loose(c.log) <= Open(c.log)
    && (c.handle.Some? ==> c.handle.value in Running(c.log) && c.handle.value in Loose(c.log))
    && (forall goal :: goal in Pending(c.log) ==> goal in Loose(c.log))
  }

  lemma TracksNext(c: Client, e: Entry, next: Client)
    requires Tracks(c) && Follows(c, e, next) && Lawful(next.log)
    ensures Tracks(next)
  {
    assert next.log == c.log + [e];
    LedgersNext(c.log, e);
  }

  // ----- What a cancel achieves, and whose result a result is

  /** A cancel leaves no goal behind that was not asked to stop exactly if the tracked goal is the only one
      there was; a goal that is still waiting for its answer is missed. */
  lemma CancelStopsAllIff(c: Client)
    requires Tracks(c)
    ensures Loose(c.Canceling().log) == {} <==> Loose(c.log) == (if c.handle.Some? then {c.handle.value} else {})
    ensures Pending(c.log) != {} ==> Loose(c.Canceling().log) != {}
  {
    LedgersNext(c.log, CancelCalled(c.handle));
    if Pending(c.log) != {} {
      var goal :| goal in Pending(c.log);
      assert goal in Loose(c.Canceling().log);
    }
  }

  ghost predicate Callbacks(entries: seq<Entry>) {
    forall e :: e in entries ==> e.Accepted? || e.Refused? || e.Finished?
  }

  lemma {:induction false} CallbacksClose(log: seq<Entry>, entries: seq<Entry>)
    requires Callbacks(entries) && Lawful(log + entries)
    ensures Open(log + entries) <= Open(log)
    ensures forall e :: e in entries && e.Finished? ==> e.goal in Open(log)
    decreases |entries|
  {
    if entries == [] {
      assert log + entries == log;
    } else {
      var front, last := entries[..|entries| - 1], entries[|entries| - 1];
      assert last in entries;
      assert log + entries == (log + front) + [last];
      LedgersNext(log + front, last);
      CallbacksClose(log, front);
      assert forall e :: e in entries <==> e in front || e == last;
    }
  }

  /** Whatever the server does until the next send, every result is that of goal `latest`, exactly if no
      other goal is open. */
  lemma ResultsOfLatestIff(log: seq<Entry>, latest: nat)
    requires Lawful(log) && Pending(log) !! Running(log)
    ensures (forall entries :: Callbacks(entries) && Lawful(log + entries) ==>
               forall e :: e in entries && e.Finished? ==> e.goal == latest)
            <==> Open(log) <= {latest}
  {
    if Open(log) <= {latest} {
      forall entries | Callbacks(entries) && Lawful(log + entries)
        ensures forall e :: e in entries && e.Finished? ==> e.goal == latest
      {
        CallbacksClose(log, entries);
      }
    } else {
      var goal :| goal in Open(log) && goal != latest;
      var entries := StaleResult(log, goal);
      assert Finished(goal, Succeeded) in entries && Finished(goal, Succeeded).goal != latest;
    }
  }

  /** Any open goal may be the next to succeed. */
  lemma StaleResult(log: seq<Entry>, goal: nat) returns (entries: seq<Entry>)
    requires Lawful(log) && goal in Open(log)
    ensures Callbacks(entries) && Lawful(log + entries) && Finished(goal, Succeeded) in entries
  {
    var done := Finished(goal, Succeeded);
    if goal in Running(log) {
      entries := [done];
      LedgersNext(log, done);
    } else {
      entries := [Accepted(goal), done];
      LedgersNext(log, Accepted(goal));
      LedgersNext(log + [Accepted(goal)], done);
      assert log + entries == (log + [Accepted(goal)]) + [done];
      assert entries[1] == done;
    }
  }

  // ----- Legs: what happens between two cancels

  function CountCancels(log: seq<Entry>): nat {
    if log == [] then 0 else CountCancels(log[..|log| - 1]) + if log[|log| - 1].CancelCalled? then 1 else 0
  }

  /** Entry `i` belongs to the leg after `leg` cancels. */
  ghost predicate InLeg(log: seq<Entry>, i: nat, leg: nat) {
    i < |log| && CountCancels(log[..i]) == leg
  }

  ghost predicate SentInLeg(log: seq<Entry>, goal: nat, leg: nat) {
    exists i: nat :: InLeg(log, i, leg) && log[i].Sent? && log[i].goal == goal
  }

  /** Some success was reported during a leg. */
  ghost predicate SuccessInLeg(log: seq<Entry>, leg: nat) {
    exists i: nat :: InLeg(log, i, leg) && IsSuccess(log[i])
  }

  /** Some goal sent during a leg succeeded during the same leg. */
  ghost predicate OwnSuccessInLeg(log: seq<Entry>, leg: nat) {
    exists i: nat :: InLeg(log, i, leg) && IsSuccess(log[i]) && SentInLeg(log, log[i].goal, leg)
  }

  lemma InLegKept(log: seq<Entry>, more: seq<Entry>, i: nat, leg: nat)
    requires InLeg(log, i, leg)
    ensures InLeg(log + more, i, leg) && (log + more)[i] == log[i]
  {
    assert (log + more)[..i] == log[..i];
  }

  lemma LegsKept(log: seq<Entry>, more: seq<Entry>, goal: nat, leg: nat)
    ensures SentInLeg(log, goal, leg) ==> SentInLeg(log + more, goal, leg)
    ensures SuccessInLeg(log, leg) ==> SuccessInLeg(log + more, leg)
  {
    forall i: nat | InLeg(log, i, leg)
      ensures InLeg(log + more, i, leg) && (log + more)[i] == log[i]
    {
      InLegKept(log, more, i, leg);
    }
  }

  lemma OwnSuccessKept(log: seq<Entry>, more: seq<Entry>, leg: nat)
    requires OwnSuccessInLeg(log, leg)
    ensures OwnSuccessInLeg(log + more, leg)
  {
    var i: nat :| InLeg(log, i, leg) && IsSuccess(log[i]) && SentInLeg(log, log[i].goal, leg);
    InLegKept(log, more, i, leg);
    LegsKept(log, more, log[i].goal, leg);
  }

  /** A client that has succeeded did so in the current leg. */
  lemma SuccessIsRecent(c: Client)
    requires FlagsTell(c) && c.succeeded
    ensures SuccessInLeg(c.log, CountCancels(c.log))
  {
    hide CountCancels, Since;
    var i: nat := LastSuccess(c.log);
    QuietTail(c.log, i);
    assert InLeg(c.log, i, CountCancels(c.log));
  }

  lemma LastSuccess(log: seq<Entry>) returns (i: nat)
    requires Since(log, IsSuccess, IsAnswer)
    ensures i < |log| && IsSuccess(log[i]) && forall j :: i <= j < |log| ==> !log[j].CancelCalled?
  {
    i :| 0 <= i < |log| && IsSuccess(log[i]) && forall j :: i < j < |log| ==> IsAnswer(log[j]);
    forall j | i <= j < |log|
      ensures !log[j].CancelCalled?
    {
      assert j == i || IsAnswer(log[j]);
    }
  }

  lemma {:induction false} QuietTail(log: seq<Entry>, i: nat)
    requires i <= |log| && forall j :: i <= j < |log| ==> !log[j].CancelCalled?
    ensures CountCancels(log[..i]) == CountCancels(log)
    decreases |log|
  {
    if i == |log| {
      assert log[..i] == log;
    } else {
      var front := log[..|log| - 1];
      assert front[..i] == log[..i];
      QuietTail(front, i);
    }
  }

  /** The client and the server agree: no goal is open but the last one sent, which was sent in this leg,
      has not been asked to stop, and is what the client's flags are about. */
  ghost predicate Agrees(c: Client) {
    && Tracks(c)
    && (forall goal :: goal in Open(c.log) ==> goal == c.sent - 1 && SentInLeg(c.log, goal, CountCancels(c.log)))
    && Loose(c.log) == Open(c.log)
    && (c.active <==> Open(c.log) != {})
    && (c.handle.Some? <==> Running(c.log) != {})
    && (c.succeeded ==> OwnSuccessInLeg(c.log, CountCancels(c.log)))
  }

  /** Agreement survives everything but sending or cancelling while a goal is open. */
  lemma AgreesNext(c: Client, e: Entry, next: Client)
    requires Agrees(c) && Follows(c, e, next) && Lawful(next.log)
    requires e.Sent? || e.CancelCalled? ==> !c.active
    ensures Agrees(next)
  {
    hide InLeg, SentInLeg, OwnSuccessInLeg, SuccessInLeg;
    assert next.log == c.log + [e];
    LedgersNext(c.log, e);
    TracksNext(c, e, next);
    var leg := CountCancels(c.log);
    forall goal | goal in Open(c.log)
      ensures SentInLeg(next.log, goal, leg)
    {
      LegsKept(c.log, [e], goal, leg);
    }
    if c.succeeded {
      OwnSuccessKept(c.log, [e], leg);
    }
    NewestEntry(c.log, e);
    assert CountCancels(next.log) == leg + if e.CancelCalled? then 1 else 0;
    match e {
      case Sent(goal, _) => assert Open(next.log) == {goal};
      case Accepted(goal) => assert Open(next.log) == {goal} && goal in Running(next.log);
      case Refused(goal) => assert Open(next.log) == {} && Running(c.log) == {};
      case Finished(goal, _) => assert Open(next.log) == {};
      case CancelCalled(_) => assert Open(next.log) == {};
    }
  }

  /** The newest entry belongs to the current leg. */
  lemma NewestEntry(log: seq<Entry>, e: Entry)
    ensures e.Sent? ==> SentInLeg(log + [e], e.goal, CountCancels(log))
    ensures IsSuccess(e) && SentInLeg(log, e.goal, CountCancels(log)) ==> OwnSuccessInLeg(log + [e], CountCancels(log))
  {
    var all := log + [e];
    LedgersNext(log, e);
    assert InLeg(all, |log|, CountCancels(log));
    if IsSuccess(e) {
      LegsKept(log, [e], e.goal, CountCancels(log));
    }
  }
}
