/**
 The heartbeat monitor of a task: every claim starts a timer that, when it fires, either submits a
 timeout to the workflow or starts itself again. Claims (of different retries of one task) share the
 task record and its last heartbeat. Times are in milliseconds, timers fire exactly once.
 */
module Heartbeat {
  import opened Options

  datatype MonitorRequest = MonitorRequest(executionId: string, taskSeq: nat, heartbeatSeconds: nat)

  /** `isHeartbeatTimeElapsed`, with a task that never sent a heartbeat counted as elapsed. */
  predicate Elapsed(heartbeat: Option<int>, heartbeatSeconds: nat, now: int) {
    heartbeat.None? || heartbeatSeconds * 1000 < now - heartbeat.value
  }

  class TimerHandler {
    /** The heartbeat times of the task records. */
    var heartbeats: map<(string, nat), int>
    /** The timeout events submitted, by execution and sequence number, with their timestamps. */
    var submitted: seq<(string, nat, int)>
    /** The monitors started, each for a delay of its own `heartbeatSeconds`. */
    var started: seq<MonitorRequest>

    constructor ()
      ensures heartbeats == map[] && submitted == [] && started == []
    {
      heartbeats, submitted, started := map[], [], [];
    }

    ghost function HeartbeatOf(task: (string, nat)): Option<int>
      reads this
    {
      if task in heartbeats then Some(heartbeats[task]) else None
    }

    /** The monitor branch of `createTimerHandler`: exactly one of a timeout and a new monitor. */
    method HandleMonitor(request: MonitorRequest, now: int)
      modifies this`submitted, this`started
      ensures Handled(HeartbeatOf((request.executionId, request.taskSeq)), request, now,
                      old(submitted), old(started), submitted, started)
      ensures var task := (request.executionId, request.taskSeq);
              var silent := task !in heartbeats || now - heartbeats[task] > request.heartbeatSeconds * 1000;
              && submitted == old(submitted) + (if silent then [(task.0, task.1, now)] else [])
              && started == old(started) +
                   (if silent then []
                    else [MonitorRequest(request.executionId, request.taskSeq, request.heartbeatSeconds)])
    {
      var task := (request.executionId, request.taskSeq);
      if task !in heartbeats || request.heartbeatSeconds * 1000 < now - heartbeats[task] {
        submitted := submitted + [(request.executionId, request.taskSeq, now)];
      } else {
        started := started + [request];
      }
    }
  }

  /** The monitor of the request was handled at that time, with that last heartbeat on record. */
  predicate Handled(
    heartbeat: Option<int>, request: MonitorRequest, now: int, submitted: seq<(string, nat, int)>,
    started: seq<MonitorRequest>, submitted': seq<(string, nat, int)>, started': seq<MonitorRequest>)
  {
    if Elapsed(heartbeat, request.heartbeatSeconds, now)
    then submitted' == submitted + [(request.executionId, request.taskSeq, now)] && started' == started
    else submitted' == submitted && started' == started + [request]
  }

  // ---------------------------------------------------------------- all runs of one task

  /** A running timer, for the claim with that number, started at that time. */
  datatype Monitor = Monitor(claim: nat, startedAt: int)

  datatype Timeout = Timeout(claim: nat, at: int)

  /** `timers` is indexed by timer; `next` is the first index never used. */
  datatype State = State(
    now: int, claims: seq<int>, heartbeat: Option<int>, timers: map<nat, Monitor>, next: nat, timeouts: seq<Timeout>)

  datatype Event =
    | Claim(time: int)
    | Beat(time: int)
    | Check(time: int, timer: nat)
    | Pass(time: int) // time passes

  /** H is `heartbeatSeconds`; a timer fires H seconds after its start, at most `slack` ms late. */
  datatype Setting = Setting(H: nat, slack: nat)

  const IDLE := State(0, [], None, map[], 0, [])

  /** Time does not run backwards, nor past the moment by which a timer must have fired. */
  ghost predicate Possible(c: Setting, s: State, e: Event) {
    && e.time >= s.now
    && (forall t :: t in s.timers ==> e.time <= s.timers[t].startedAt + c.H * 1000 + c.slack)
    && (e.Check? ==> e.timer in s.timers && s.timers[e.timer].startedAt + c.H * 1000 <= e.time)
  }

  function Next(c: Setting, s: State, e: Event): State {
    match e
    case Claim(time) =>
      s.(now := time, claims := s.claims + [time],
         timers := s.timers[s.next := Monitor(|s.claims|, time)], next := s.next + 1)
    case Beat(time) => s.(now := time, heartbeat := Some(time))
    case Pass(time) => s.(now := time)
    case Check(time, timer) =>
      if timer !in s.timers then s
      else
        var m := s.timers[timer];
        var fired := s.timers - {timer};
        if Elapsed(s.heartbeat, c.H, time) then
          s.(now := time, timers := fired, timeouts := s.timeouts + [Timeout(m.claim, time)])
        else
          s.(now := time, timers := fired[s.next := Monitor(m.claim, time)], next := s.next + 1)
  }

  function Run(c: Setting, events: seq<Event>): State {
    if events == [] then IDLE else Next(c, Run(c, events[..|events| - 1]), events[|events| - 1])
  }

  ghost predicate PossibleRun(c: Setting, events: seq<Event>) {
    events == [] ||
    (PossibleRun(c, events[..|events| - 1]) &&
     Possible(c, Run(c, events[..|events| - 1]), events[|events| - 1]))
  }

  /** By when a claim whose task falls silent now must have timed out. */
  function Deadline(c: Setting, s: State, claim: nat): int
    requires claim < |s.claims|
  {
    var first := s.claims[claim] + c.H * 1000 + c.slack;
    var later := if s.heartbeat.Some? then s.heartbeat.value + 2 * c.H * 1000 + c.slack else first;
    if first > later then first else later
  }

  predicate HasTimedOut(s: State, claim: nat) {
    exists i :: 0 <= i < |s.timeouts| && s.timeouts[i].claim == claim
  }

  predicate IsMonitored(s: State, claim: nat) {
    exists t :: t in s.timers && s.timers[t].claim == claim
  }

  /** Every claim has one running monitor, or one timeout and no monitor. */
  ghost predicate OneMonitorPerClaim(s: State) {
    && (forall t :: t in s.timers ==> t < s.next && s.timers[t].claim < |s.claims|)
    && (forall t, u :: t in s.timers && u in s.timers && s.timers[t].claim == s.timers[u].claim ==> t == u)
    && (forall i :: 0 <= i < |s.timeouts| ==> s.timeouts[i].claim < |s.claims|)
    && (forall i, j :: 0 <= i < j < |s.timeouts| ==> s.timeouts[i].claim != s.timeouts[j].claim)
    && (forall claim :: 0 <= claim < |s.claims| ==> (IsMonitored(s, claim) <==> !HasTimedOut(s, claim)))
  }

  ghost predicate OnTime(c: Setting, s: State) {
    && (forall t :: t in s.timers && s.timers[t].claim < |s.claims| ==>
          var m := s.timers[t];
          && m.startedAt <= s.now <= m.startedAt + c.H * 1000 + c.slack
          && (m.startedAt == s.claims[m.claim]
              || (s.heartbeat.Some? && m.startedAt <= s.heartbeat.value + c.H * 1000)))
    && (s.heartbeat.Some? ==> s.heartbeat.value <= s.now)
    && (forall i :: 0 <= i < |s.timeouts| && s.timeouts[i].claim < |s.claims| ==>
          s.timeouts[i].at <= Deadline(c, s, s.timeouts[i].claim))
  }

  lemma ClaimKeepsMonitors(c: Setting, s: State, time: int)
    requires OneMonitorPerClaim(s)
    ensures OneMonitorPerClaim(Next(c, s, Claim(time)))
  {
    var s' := Next(c, s, Claim(time));
    assert s.next in s'.timers && s'.timers[s.next].claim == |s.claims|;
    forall claim | 0 <= claim < |s'.claims|
      ensures IsMonitored(s', claim) <==> !HasTimedOut(s', claim)
    {
      if claim < |s.claims| && IsMonitored(s, claim) {
        var t :| t in s.timers && s.timers[t].claim == claim;
        assert t in s'.timers && s'.timers[t].claim == claim;
      }
      if claim < |s.claims| && IsMonitored(s', claim) {
        var t :| t in s'.timers && s'.timers[t].claim == claim;
        assert t in s.timers;
      }
    }
  }

  /** Timers and timeouts of the other claims are as they were. */
  ghost predicate OthersKept(s: State, s': State, mine: nat) {
    && (forall t :: t in s.timers && s.timers[t].claim != mine ==> t in s'.timers && s'.timers[t] == s.timers[t])
    && (forall t :: t in s'.timers && s'.timers[t].claim != mine ==> t in s.timers && s'.timers[t] == s.timers[t])
    && s.timeouts <= s'.timeouts
    && (forall i :: |s.timeouts| <= i < |s'.timeouts| ==> s'.timeouts[i].claim == mine)
  }

  lemma OthersKeepMonitors(s: State, s': State, mine: nat, claim: nat)
    requires OthersKept(s, s', mine) && claim != mine
    ensures IsMonitored(s', claim) <==> IsMonitored(s, claim)
    ensures HasTimedOut(s', claim) <==> HasTimedOut(s, claim)
  {
    if t :| t in s.timers && s.timers[t].claim == claim { assert t in s'.timers && s'.timers[t].claim == claim; }
    if i :| 0 <= i < |s.timeouts| && s.timeouts[i].claim == claim { assert s'.timeouts[i].claim == claim; }
  }

  lemma CheckKeepsMonitors(c: Setting, s: State, time: int, timer: nat)
    requires OneMonitorPerClaim(s) && timer in s.timers
    ensures OneMonitorPerClaim(Next(c, s, Check(time, timer)))
  {
    var s' := Next(c, s, Check(time, timer));
    var mine := s.timers[timer].claim;
    assert IsMonitored(s, mine);
    if Elapsed(s.heartbeat, c.H, time) {
      assert s'.timeouts[|s.timeouts|].claim == mine;
    } else {
      assert s.next in s'.timers && s'.timers[s.next].claim == mine;
    }
    forall claim | 0 <= claim < |s'.claims|
      ensures IsMonitored(s', claim) <==> !HasTimedOut(s', claim)
    {
      if claim != mine {
        OthersKeepMonitors(s, s', mine, claim);
      }
    }
  }

  lemma StepKeepsOnTime(c: Setting, s: State, e: Event)
    requires OneMonitorPerClaim(s) && OnTime(c, s) && Possible(c, s, e)
    ensures OnTime(c, Next(c, s, e))
  {
    var s' := Next(c, s, e);
    forall i | 0 <= i < |s'.timeouts| && s'.timeouts[i].claim < |s'.claims|
      ensures s'.timeouts[i].at <= Deadline(c, s', s'.timeouts[i].claim)
    {
      if i < |s.timeouts| {
        assert s'.timeouts[i] == s.timeouts[i];
        assert s.timeouts[i].at <= Deadline(c, s, s.timeouts[i].claim);
      } else {
        assert e.Check?;
      }
    }
  }

  lemma {:induction false} RunInvariant(c: Setting, events: seq<Event>)
    requires PossibleRun(c, events)
    ensures OneMonitorPerClaim(Run(c, events)) && OnTime(c, Run(c, events))
  {
    if events != [] {
      var earlier, e := events[..|events| - 1], events[|events| - 1];
      RunInvariant(c, earlier);
      var s := Run(c, earlier);
      StepKeepsOnTime(c, s, e);
      match e
      case Claim(time) => ClaimKeepsMonitors(c, s, time);
      case Check(time, timer) => CheckKeepsMonitors(c, s, time, timer);
      case Beat(time) => SameMonitors(s, Next(c, s, e));
      case Pass(time) => SameMonitors(s, Next(c, s, e));
    }
  }

  lemma SameMonitors(s: State, s': State)
    requires OneMonitorPerClaim(s)
    requires s'.claims == s.claims && s'.timers == s.timers && s'.next == s.next && s'.timeouts == s.timeouts
    ensures OneMonitorPerClaim(s')
  {
    forall claim | 0 <= claim < |s'.claims|
      ensures IsMonitored(s', claim) <==> !HasTimedOut(s', claim)
    {
      assert IsMonitored(s, claim) <==> IsMonitored(s', claim);
      assert HasTimedOut(s, claim) <==> HasTimedOut(s', claim);
    }
  }

  /**
   Detection: once time is past claim + H + slack of a claim, and past the last heartbeat + 2H + slack if
   there was one, the claim has a timeout, submitted by the later of the two.
   */
  lemma SilenceIsDetected(c: Setting, events: seq<Event>, claim: nat)
    requires PossibleRun(c, events) && claim < |Run(c, events).claims|
    requires Run(c, events).now > Run(c, events).claims[claim] + c.H * 1000 + c.slack
    requires var s := Run(c, events);
             s.heartbeat.Some? ==> s.now > s.heartbeat.value + 2 * c.H * 1000 + c.slack
    ensures var s := Run(c, events);
            exists i :: 0 <= i < |s.timeouts| && s.timeouts[i].claim == claim
                        && (|| s.timeouts[i].at <= s.claims[claim] + c.H * 1000 + c.slack
                            || (s.heartbeat.Some? && s.timeouts[i].at <= s.heartbeat.value + 2 * c.H * 1000 + c.slack))
  {
    var s := Run(c, events);
    RunInvariant(c, events);
    MonitoredIsNotOverdue(c, s, claim);
    assert HasTimedOut(s, claim);
  }

  lemma MonitoredIsNotOverdue(c: Setting, s: State, claim: nat)
    requires OnTime(c, s) && claim < |s.claims|
    ensures IsMonitored(s, claim) ==> s.now <= Deadline(c, s, claim)
  {
    if t :| t in s.timers && s.timers[t].claim == claim {
      assert s.now <= s.timers[t].startedAt + c.H * 1000 + c.slack;
    }
  }

  /** A claim never has two monitors, and none after its one timeout. */
  lemma MonitorsAreConserved(c: Setting, events: seq<Event>)
    requires PossibleRun(c, events)
    ensures OneMonitorPerClaim(Run(c, events))
  {
    RunInvariant(c, events);
  }

  // ---------------------------------------------------------------- soundness

  /** Since the last heartbeat at most H has passed; before the first, less than H since any claim. */
  ghost predicate Alive(c: Setting, s: State, time: int) {
    if s.heartbeat.Some? then time <= s.heartbeat.value + c.H * 1000
    else forall i :: 0 <= i < |s.claims| ==> time < s.claims[i] + c.H * 1000
  }

  /** No heartbeat comes later than H after the one before; the first comes earlier than H after any claim. */
  ghost predicate BeatsInTime(c: Setting, events: seq<Event>) {
    forall n :: 0 <= n < |events| && events[n].Beat? ==> Alive(c, Run(c, events[..n]), events[n].time)
  }

  /**
   Soundness: if every heartbeat comes in time, and the run ends while the next one is not yet overdue,
   no timeout has been submitted, whenever the monitors fired.
   */
  lemma {:induction false} LiveTaskNeverTimesOut(c: Setting, events: seq<Event>)
    requires PossibleRun(c, events) && BeatsInTime(c, events) && Alive(c, Run(c, events), Run(c, events).now)
    ensures Run(c, events).timeouts == []
  {
    if events != [] {
      var n := |events| - 1;
      var earlier, e, s := events[..n], events[n], Run(c, events[..n]);
      forall m | 0 <= m < n && earlier[m].Beat? ensures Alive(c, Run(c, earlier[..m]), earlier[m].time) {
        assert earlier[..m] == events[..m];
        assert events[m].Beat?;
      }
      AliveBefore(c, s, e);
      LiveTaskNeverTimesOut(c, earlier);
      RunInvariant(c, earlier);
      CheckOfLiveTask(c, s, e);
    }
  }

  /** A task that is alive after an event, and whose heartbeat, if it was one, came in time, was alive until then. */
  lemma AliveBefore(c: Setting, s: State, e: Event)
    requires Possible(c, s, e) && (e.Beat? ==> Alive(c, s, e.time)) && Alive(c, Next(c, s, e), Next(c, s, e).now)
    ensures Alive(c, s, e.time) && Alive(c, s, s.now)
  {
    var s' := Next(c, s, e);
    if !e.Beat? && s.heartbeat.None? {
      forall i | 0 <= i < |s.claims| ensures e.time < s.claims[i] + c.H * 1000 {
        assert s'.claims[i] == s.claims[i];
      }
    }
  }

  lemma CheckOfLiveTask(c: Setting, s: State, e: Event)
    requires Possible(c, s, e) && OneMonitorPerClaim(s) && OnTime(c, s) && Alive(c, s, e.time)
    ensures Next(c, s, e).timeouts == s.timeouts
  {
  }

  // ---------------------------------------------------------------- the handler and the model

  /** The timeout events that a run of one task has submitted. */
  function TimeoutEvents(timeouts: seq<Timeout>, task: (string, nat)): seq<(string, nat, int)> {
    seq(|timeouts|, i requires 0 <= i < |timeouts| => (task.0, task.1, timeouts[i].at))
  }

  /** `HandleMonitor` does to its queues what a check does to the timeouts and timers of its task. */
  lemma HandlerFollowsCheck(
    c: Setting, s: State, timer: nat, request: MonitorRequest, now: int, submitted: seq<(string, nat, int)>,
    started: seq<MonitorRequest>, submitted': seq<(string, nat, int)>, started': seq<MonitorRequest>)
    requires OneMonitorPerClaim(s) && request.heartbeatSeconds == c.H && timer in s.timers
    requires submitted == TimeoutEvents(s.timeouts, (request.executionId, request.taskSeq))
    requires Handled(s.heartbeat, request, now, submitted, started, submitted', started')
    ensures var s' := Next(c, s, Check(now, timer));
            && submitted' == TimeoutEvents(s'.timeouts, (request.executionId, request.taskSeq))
            && s'.timers == (if started' == started then s.timers - {timer}
                             else (s.timers - {timer})[s.next := Monitor(s.timers[timer].claim, now)])
  {
    assert |started + [request]| != |started|;
  }
}
