/**
 Running a task: at-least-once deliveries of a request, a conditional claim, the handler, and the
 report of its result, directly or through the fallback that a failed invocation triggers.
 The invocation itself is never retried, so a failed one always reaches the fallback handler.
 */
module TaskWorker {
  import opened Options

  datatype Request = Request(executionId: string, seqNo: nat, retry: nat, heartbeatSeconds: Option<nat>)

  datatype Completion = TaskSucceeded(seqNo: nat) | TaskFailed(seqNo: nat)

  /** The error message of a failed invocation: the worker's own fallback request, or someone else's words. */
  datatype Message =
    | SendEvent(executionId: string, event: Completion)
    | OtherJson // parses as JSON, but is no fallback request
    | PlainText

  // ---------------------------------------------------------------- the task store

  datatype TaskRecord = TaskRecord(claims: set<nat>, heartbeatTime: Option<int>, cancelled: bool)

  type Tasks = map<(string, nat), TaskRecord>

  /** What a claim is for: one attempt at one task of one execution. */
  datatype Attempt = Attempt(executionId: string, seqNo: nat, retry: nat)

  function AttemptOf(r: Request): Attempt {
    Attempt(r.executionId, r.seqNo, r.retry)
  }

  function RecordOf(tasks: Tasks, task: (string, nat)): TaskRecord {
    if task in tasks then tasks[task] else TaskRecord({}, None, false)
  }

  predicate IsClaimed(tasks: Tasks, a: Attempt) {
    a.retry in RecordOf(tasks, (a.executionId, a.seqNo)).claims
  }

  function WithClaim(tasks: Tasks, a: Attempt): Tasks {
    var task := (a.executionId, a.seqNo);
    var record := RecordOf(tasks, task);
    tasks[task := record.(claims := record.claims + {a.retry})]
  }

  lemma ClaimTakesOneAttempt(tasks: Tasks, a: Attempt, b: Attempt)
    ensures IsClaimed(WithClaim(tasks, a), b) <==> IsClaimed(tasks, b) || a == b
  {
    assert (a.executionId, a.seqNo) == (b.executionId, b.seqNo) <==> a.executionId == b.executionId && a.seqNo == b.seqNo;
  }

  /** Each update creates the record if need be and touches one attribute of it. */
  class TaskStore {
    var tasks: Tasks

    constructor ()
      ensures tasks == map[]
    {
      tasks := map[];
    }

    method Claim(a: Attempt) returns (ok: bool)
      modifies this
      ensures ok == !IsClaimed(old(tasks), a)
      ensures tasks == if ok then WithClaim(old(tasks), a) else old(tasks)
      ensures var task := (a.executionId, a.seqNo);
              var before, after := RecordOf(old(tasks), task), RecordOf(tasks, task);
              && (ok <==> a.retry !in before.claims)
              && after.claims == before.claims + {a.retry}
              && after.heartbeatTime == before.heartbeatTime && after.cancelled == before.cancelled
              && forall other: (string, nat) :: other != task ==> RecordOf(tasks, other) == RecordOf(old(tasks), other)
    {
      ok := !IsClaimed(tasks, a);
      if ok {
        tasks := WithClaim(tasks, a);
      }
    }

    method Heartbeat(executionId: string, seqNo: nat, time: int) returns (cancelled: bool)
      modifies this
      ensures var task := (executionId, seqNo);
              && tasks == old(tasks)[task := RecordOf(old(tasks), task).(heartbeatTime := Some(time))]
              && cancelled == RecordOf(old(tasks), task).cancelled
    {
      var task := (executionId, seqNo);
      tasks := tasks[task := RecordOf(tasks, task).(heartbeatTime := Some(time))];
      cancelled := tasks[task].cancelled;
    }

    method Cancel(executionId: string, seqNo: nat)
      modifies this
      ensures var task := (executionId, seqNo);
              tasks == old(tasks)[task := RecordOf(old(tasks), task).(cancelled := true)]
    {
      var task := (executionId, seqNo);
      tasks := tasks[task := RecordOf(tasks, task).(cancelled := true)];
    }
  }

  // ---------------------------------------------------------------- one delivery

  /** What the handler does: it returns a value, declares the task async, or throws. */
  datatype HandlerResult = Value | Async | Error

  /** Everything around one delivery that may go one way or the other. `flushed` is the log flush at its end. */
  datatype Environment = Environment(
    storeUp: bool, timerUp: bool, taskExists: bool, handler: HandlerResult, queueUp: bool, flushed: bool)

  /** The event the worker reports itself; none for an async task. */
  function EventOf(r: Request, taskExists: bool, handler: HandlerResult): Option<Completion> {
    if !taskExists || handler.Error? then Some(TaskFailed(r.seqNo))
    else if handler.Value? then Some(TaskSucceeded(r.seqNo))
    else None
  }

  function OwnFailure(r: Request): Message {
    SendEvent(r.executionId, TaskFailed(r.seqNo))
  }

  /** What one invocation leaves behind when it does not crash. */
  datatype Served = Served(
    tasks: Tasks, monitored: bool, runs: bool, submitted: Option<Completion>, fallback: Option<Message>)

  /**
   A flush that fails after an async result fails outside the handler's own catch, so no event is made
   and the worker's last catch reports it.
   */
  function Serve(tasks: Tasks, r: Request, env: Environment): Served {
    if !env.storeUp then Served(tasks, false, false, None, Some(OwnFailure(r)))
    else if IsClaimed(tasks, AttemptOf(r)) then Served(tasks, false, false, None, None)
    else
      var claimed := WithClaim(tasks, AttemptOf(r));
      if r.heartbeatSeconds.Some? && !env.timerUp then Served(claimed, false, false, None, Some(OwnFailure(r)))
      else
        var event := EventOf(r, env.taskExists, env.handler);
        Served(claimed, r.heartbeatSeconds.Some?, env.taskExists, if env.queueUp then event else None,
               ServedFallback(r, event, env.queueUp, env.flushed))
  }

  function ServedFallback(r: Request, event: Option<Completion>, queueUp: bool, flushed: bool): Option<Message> {
    if event.None? then (if flushed then None else Some(OwnFailure(r)))
    else if queueUp && flushed then None
    else Some(SendEvent(r.executionId, event.value))
  }

  predicate IsOwn(executionId: string, event: Completion, r: Request) {
    executionId == r.executionId && event.seqNo == r.seqNo
  }

  class Worker {
    const taskStore: TaskStore
    var queue: seq<(string, Completion)>
    var monitors: seq<Request>
    var handlerRuns: seq<Request>

    constructor (taskStore: TaskStore)
      ensures this.taskStore == taskStore && queue == [] && monitors == [] && handlerRuns == []
    {
      this.taskStore := taskStore;
      queue, monitors, handlerRuns := [], [], [];
    }

    /**
     One invocation without a crash: what it does is `Serve`. No fallback request means that the claim
     was refused, or the task is async, or its event is in the queue; a fallback request carries an
     event of its own execution and sequence number. The handler runs only for the winner of the claim.
     */
    method HandleRequest(r: Request, env: Environment) returns (fallback: Option<Message>)
      modifies this`queue, this`monitors, this`handlerRuns, taskStore
      ensures var served := Serve(old(taskStore.tasks), r, env);
              && taskStore.tasks == served.tasks
              && handlerRuns == (if served.runs then old(handlerRuns) + [r] else old(handlerRuns))
              && monitors == (if served.monitored then old(monitors) + [r] else old(monitors))
              && queue == (if served.submitted.Some?
                           then old(queue) + [(r.executionId, served.submitted.value)] else old(queue))
              && fallback == served.fallback
      ensures fallback.None? ==>
                || IsClaimed(old(taskStore.tasks), AttemptOf(r))
                || (env.taskExists && env.handler.Async?)
                || exists event :: queue == old(queue) + [(r.executionId, event)] && IsOwn(r.executionId, event, r)
      ensures fallback.Some? ==>
                fallback.value.SendEvent? && IsOwn(fallback.value.executionId, fallback.value.event, r)
      ensures var claims := RecordOf(old(taskStore.tasks), (r.executionId, r.seqNo)).claims;
              RecordOf(taskStore.tasks, (r.executionId, r.seqNo)).claims == claims + if env.storeUp then {r.retry} else {}
      ensures var claims := RecordOf(old(taskStore.tasks), (r.executionId, r.seqNo)).claims;
              var started := env.storeUp && r.retry !in claims && (r.heartbeatSeconds.None? || env.timerUp);
              var submitted := if env.queueUp then 1 else 0;
              && (started && env.taskExists && env.handler.Value? ==>
                    && queue == old(queue) + [(r.executionId, TaskSucceeded(r.seqNo))][..submitted]
                    && fallback == if env.queueUp && env.flushed then None
                                   else Some(SendEvent(r.executionId, TaskSucceeded(r.seqNo))))
              && (started && (!env.taskExists || env.handler.Error?) ==>
                    && queue == old(queue) + [(r.executionId, TaskFailed(r.seqNo))][..submitted]
                    && fallback == if env.queueUp && env.flushed then None
                                   else Some(SendEvent(r.executionId, TaskFailed(r.seqNo))))
              && (started && env.taskExists && env.handler.Async? ==>
                    && queue == old(queue)
                    && fallback == if env.flushed then None else Some(SendEvent(r.executionId, TaskFailed(r.seqNo))))
              && (!started ==> queue == old(queue) && handlerRuns == old(handlerRuns) && monitors == old(monitors))
              && (started ==>
                    && handlerRuns == old(handlerRuns) + (if env.taskExists then [r] else [])
                    && monitors == old(monitors) + (if r.heartbeatSeconds.Some? then [r] else []))
      ensures handlerRuns != old(handlerRuns) ==>
                !IsClaimed(old(taskStore.tasks), AttemptOf(r)) && IsClaimed(taskStore.tasks, AttemptOf(r))
    {
      if !env.storeUp {
        return Some(OwnFailure(r));
      }
      var claimed := taskStore.Claim(AttemptOf(r));
      if !claimed {
        return None;
      }
      if r.heartbeatSeconds.Some? {
        if !env.timerUp {
          return Some(OwnFailure(r));
        }
        monitors := monitors + [r];
      }
      if env.taskExists {
        handlerRuns := handlerRuns + [r];
      }
      var event := EventOf(r, env.taskExists, env.handler);
      if event.None? {
        return if env.flushed then None else Some(OwnFailure(r));
      }
      if env.queueUp {
        queue := queue + [(r.executionId, event.value)];
      }
      if !env.queueUp || !env.flushed {
        return Some(SendEvent(r.executionId, event.value));
      }
      fallback := None;
    }

    /** The fallback handlers. A message that is JSON but no request makes them throw. */
    method HandleFallback(message: Message, r: Request) returns (ok: bool)
      modifies this`queue
      ensures ok == FallbackEvent(message, r).Some?
      ensures queue == if ok then old(queue) + [FallbackEvent(message, r).value] else old(queue)
    {
      match message
      case SendEvent(executionId, event) =>
        queue := queue + [(executionId, event)];
        ok := true;
      case PlainText =>
        queue := queue + [(r.executionId, TaskFailed(r.seqNo))];
        ok := true;
      case OtherJson =>
        ok := false;
    }
  }

  function FallbackEvent(message: Message, r: Request): Option<(string, Completion)> {
    match message
    case SendEvent(executionId, event) => Some((executionId, event))
    case PlainText => Some((r.executionId, TaskFailed(r.seqNo)))
    case OtherJson => None
  }

  // ---------------------------------------------------------------- all deliveries, interleaved

  /** The phases of one invocation, and then the fallback or the end. */
  datatype Phase =
    | Received
    | Claimed
    | Ready
    | Running
    | Finished(event: Completion)
    | Refused                      // the claim was refused; the invocation is about to return
    | AsyncDeclared                // the log is being flushed
    | Submitted(event: Completion) // likewise
    | Failing(message: Message)
    | LostClaim
    | DeclaredAsync
    | Reported
    | Dropped

  datatype ClaimAnswer = NotAsked | Won | Lost

  /** What has happened to one delivery, besides its phase: the answer to its claim, and an async result. */
  datatype Delivery = Delivery(request: Request, phase: Phase, claim: ClaimAnswer, async: bool)

  /** An entry of the execution queue, with the delivery whose worker or fallback submitted it. */
  datatype Submission = Submission(sender: nat, executionId: string, event: Completion)

  datatype System = System(deliveries: map<nat, Delivery>, tasks: Tasks, runs: seq<nat>, queue: seq<Submission>)

  const IDLE := System(map[], map[], [], [])

  datatype Action =
    | Deliver(request: Request)
    | Claim(storeUp: bool)
    | StartMonitor(timerUp: bool)
    | Begin(taskExists: bool)
    | End(result: HandlerResult)
    | Submit(queueUp: bool)
    | Flush(flushed: bool)
    | Return
    | Crash(plain: bool) // the invocation dies with an error message that is not the worker's
    | Fallback

  datatype Step = Step(delivery: nat, action: Action)

  function Rank(p: Phase): nat {
    match p
    case Received => 7
    case Claimed => 6
    case Ready => 5
    case Running => 4
    case Finished(_) => 3
    case Refused => 2
    case AsyncDeclared => 2
    case Submitted(_) => 2
    case Failing(_) => 1
    case _ => 0
  }

  /** An invocation can crash at any point before it has ended. */
  predicate Enabled(s: System, step: Step) {
    var d := step.delivery;
    if step.action.Deliver? then d !in s.deliveries
    else
      d in s.deliveries &&
      var p := s.deliveries[d].phase;
      match step.action
      case Claim(_) => p.Received?
      case StartMonitor(_) => p.Claimed?
      case Begin(_) => p.Ready?
      case End(_) => p.Running?
      case Submit(_) => p.Finished?
      case Flush(_) => p.AsyncDeclared? || p.Submitted?
      case Return => p.Refused?
      case Crash(_) => Rank(p) >= 2
      case Fallback => p.Failing?
  }

  /** What one step does: the delivery's next phase, the answer to a claim, a handler run, an event submitted. */
  datatype Outcome = Outcome(phase: Phase, claim: ClaimAnswer, runs: bool, event: Option<(string, Completion)>)

  function Quietly(phase: Phase): Outcome {
    Outcome(phase, NotAsked, false, None)
  }

  function OutcomeOf(s: System, step: Step): Outcome
    requires Enabled(s, step) && !step.action.Deliver?
  {
    var r, p := s.deliveries[step.delivery].request, s.deliveries[step.delivery].phase;
    match step.action
    case Claim(storeUp) =>
      if !storeUp then Quietly(Failing(OwnFailure(r)))
      else if IsClaimed(s.tasks, AttemptOf(r)) then Outcome(Refused, Lost, false, None)
      else Outcome(if r.heartbeatSeconds.Some? then Claimed else Ready, Won, false, None)
    case StartMonitor(timerUp) => Quietly(if timerUp then Ready else Failing(OwnFailure(r)))
    case Begin(taskExists) =>
      if taskExists then Outcome(Running, NotAsked, true, None) else Quietly(Finished(TaskFailed(r.seqNo)))
    case End(result) =>
      var event := EventOf(r, true, result);
      Quietly(if event.Some? then Finished(event.value) else AsyncDeclared)
    case Submit(queueUp) =>
      if queueUp then Outcome(Submitted(p.event), NotAsked, false, Some((r.executionId, p.event)))
      else Quietly(Failing(SendEvent(r.executionId, p.event)))
    case Flush(flushed) =>
      Quietly(if p.AsyncDeclared? then (if flushed then DeclaredAsync else Failing(OwnFailure(r)))
              else if flushed then Reported
              else Failing(SendEvent(r.executionId, p.event)))
    case Return => Quietly(LostClaim)
    case Crash(plain) => Quietly(Failing(if plain then PlainText else OtherJson))
    case Fallback =>
      var event := FallbackEvent(p.message, r);
      Outcome(if event.Some? then Reported else Dropped, NotAsked, false, event)
  }

  function Next(s: System, step: Step): System {
    var d := step.delivery;
    if !Enabled(s, step) then s
    else if step.action.Deliver? then
      s.(deliveries := s.deliveries[d := Delivery(step.action.request, Received, NotAsked, false)])
    else
      var before, o := s.deliveries[d], OutcomeOf(s, step);
      System(s.deliveries[d := Delivery(before.request, o.phase, if o.claim.NotAsked? then before.claim else o.claim,
                                        before.async || o.phase.AsyncDeclared?)],
             if o.claim.Won? then WithClaim(s.tasks, AttemptOf(before.request)) else s.tasks,
             if o.runs then s.runs + [d] else s.runs,
             if o.event.Some? then s.queue + [Submission(d, o.event.value.0, o.event.value.1)] else s.queue)
  }

  function Run(steps: seq<Step>): System {
    if steps == [] then IDLE else Next(Run(steps[..|steps| - 1]), steps[|steps| - 1])
  }

  // ---------------------------------------------------------------- claims

  predicate IsWinner(s: System, d: nat, a: Attempt) {
    d in s.deliveries && s.deliveries[d].claim.Won? && AttemptOf(s.deliveries[d].request) == a
  }

  ghost predicate WinnersHoldClaims(s: System) {
    forall d, a :: IsWinner(s, d, a) ==> IsClaimed(s.tasks, a)
  }

  ghost predicate OneWinner(s: System) {
    forall d, e, a :: IsWinner(s, d, a) && IsWinner(s, e, a) ==> d == e
  }

  ghost predicate ClaimsHaveWinners(s: System) {
    forall a :: IsClaimed(s.tasks, a) ==> exists d :: IsWinner(s, d, a)
  }

  predicate AnswerOk(s: System, d: Delivery) {
    && (d.phase.Received? ==> d.claim.NotAsked?)
    && (d.claim.Lost? ==> IsClaimed(s.tasks, AttemptOf(d.request)))
  }

  ghost predicate AnswersOk(s: System) {
    forall d :: d in s.deliveries ==> AnswerOk(s, s.deliveries[d])
  }

  ghost predicate ClaimsOk(s: System) {
    WinnersHoldClaims(s) && OneWinner(s) && ClaimsHaveWinners(s) && AnswersOk(s)
  }

  /** A step makes its delivery the winner of a free attempt, or changes neither claims nor winners. */
  lemma StepWins(s: System, step: Step, d: nat, a: Attempt)
    requires AnswersOk(s)
    ensures var s' := Next(s, step);
            var wins := Enabled(s, step) && step.action == Claim(true)
                        && AttemptOf(s.deliveries[step.delivery].request) == a && !IsClaimed(s.tasks, a);
            && (IsClaimed(s'.tasks, a) <==> IsClaimed(s.tasks, a) || wins)
            && (IsWinner(s', d, a) <==> IsWinner(s, d, a) || (wins && d == step.delivery))
  {
    if Enabled(s, step) && !step.action.Deliver? {
      var r := s.deliveries[step.delivery].request;
      assert AnswerOk(s, s.deliveries[step.delivery]);
      ClaimTakesOneAttempt(s.tasks, AttemptOf(r), a);
    }
  }

  lemma StepKeepsClaims(s: System, step: Step)
    requires ClaimsOk(s)
    ensures ClaimsOk(Next(s, step))
  {
    var s' := Next(s, step);
    forall d, a ensures IsWinner(s', d, a) ==> IsClaimed(s'.tasks, a) {
      StepWins(s, step, d, a);
    }
    forall d, e, a | IsWinner(s', d, a) && IsWinner(s', e, a) ensures d == e {
      StepWins(s, step, d, a);
      StepWins(s, step, e, a);
    }
    forall a | IsClaimed(s'.tasks, a) ensures exists d :: IsWinner(s', d, a) {
      StepWins(s, step, step.delivery, a);
      if IsClaimed(s.tasks, a) {
        var d :| IsWinner(s, d, a);
        StepWins(s, step, d, a);
      }
    }
    StepKeepsAnswers(s, step);
  }

  lemma StepKeepsAnswers(s: System, step: Step)
    requires AnswersOk(s)
    ensures AnswersOk(Next(s, step))
  {
    var s' := Next(s, step);
    forall d | d in s'.deliveries ensures AnswerOk(s', s'.deliveries[d]) {
      var a := AttemptOf(s'.deliveries[d].request);
      StepWins(s, step, d, a);
      if d in s.deliveries {
        assert AnswerOk(s, s.deliveries[d]);
      }
    }
  }

  // ---------------------------------------------------------------- handler runs

  /** A delivery whose handler runs, has run or may run next is a winner; it has run only once past `Ready`. */
  predicate RunOk(s: System, d: nat) {
    d in s.deliveries ==>
      && (s.deliveries[d].phase in {Claimed, Ready, Running} ==> s.deliveries[d].claim.Won?)
      && (d in s.runs ==> s.deliveries[d].claim.Won? && Rank(s.deliveries[d].phase) < Rank(Ready))
  }

  ghost predicate RunsOk(s: System) {
    && (forall d: nat :: RunOk(s, d))
    && (forall d :: d in s.runs ==> d in s.deliveries)
    && (forall i, j :: 0 <= i < j < |s.runs| ==> s.runs[i] != s.runs[j])
  }

  lemma StepKeepsRun(s: System, step: Step, d: nat)
    requires RunsOk(s)
    ensures RunOk(Next(s, step), d)
  {
    assert RunOk(s, d);
    if Enabled(s, step) && step.action.Deliver? {
      assert step.delivery !in s.runs;
    }
  }

  lemma StepKeepsRuns(s: System, step: Step)
    requires RunsOk(s)
    ensures RunsOk(Next(s, step))
  {
    forall d: nat ensures RunOk(Next(s, step), d) {
      StepKeepsRun(s, step, d);
    }
    if Enabled(s, step) && step.action.Begin? {
      assert RunOk(s, step.delivery);
      assert step.delivery !in s.runs;
    }
  }

  // ---------------------------------------------------------------- reports

  predicate HasEntry(s: System, d: nat) {
    exists i :: 0 <= i < |s.queue| && s.queue[i].sender == d
  }

  /** The delivery was refused, or has declared itself async, or has an entry in the queue. */
  predicate IsSettled(s: System, d: nat)
    requires d in s.deliveries
  {
    s.deliveries[d].claim.Lost? || s.deliveries[d].async || HasEntry(s, d)
  }

  /** The event that a phase carries is the delivery's own. */
  predicate CarriesOwn(d: Delivery) {
    match d.phase
    case Finished(event) => IsOwn(d.request.executionId, event, d.request)
    case Submitted(event) => IsOwn(d.request.executionId, event, d.request)
    case Failing(SendEvent(executionId, event)) => IsOwn(executionId, event, d.request)
    case _ => true
  }

  predicate EntryOk(s: System, entry: Submission) {
    entry.sender in s.deliveries && IsOwn(entry.executionId, entry.event, s.deliveries[entry.sender].request)
  }

  ghost predicate EntriesOk(s: System) {
    && (forall d :: d in s.deliveries ==> CarriesOwn(s.deliveries[d]))
    && (forall i :: 0 <= i < |s.queue| ==> EntryOk(s, s.queue[i]))
  }

  lemma StepKeepsEntries(s: System, step: Step)
    requires EntriesOk(s)
    ensures EntriesOk(Next(s, step))
  {
    var s' := Next(s, step);
    forall i | 0 <= i < |s'.queue| ensures EntryOk(s', s'.queue[i]) {
      if i < |s.queue| {
        assert EntryOk(s, s.queue[i]);
      } else {
        assert CarriesOwn(s.deliveries[step.delivery]);
      }
    }
  }

  /** The invocation dies with JSON of its own, with nothing refused, declared or submitted yet. */
  predicate CrashesInJson(s: System, step: Step, d: nat) {
    step == Step(d, Crash(false)) && Enabled(s, step) && Rank(s.deliveries[d].phase) >= 3
  }

  /** The invocation died with JSON of its own before it was refused, declared async or had its event submitted. */
  predicate CrashedInJson(steps: seq<Step>, d: nat) {
    steps != [] &&
    var earlier, step := steps[..|steps| - 1], steps[|steps| - 1];
    CrashedInJson(earlier, d) || CrashesInJson(Run(earlier), step, d)
  }

  /** A delivery that is past those points, and not on its way to the fallback, is settled. */
  predicate ProgressOk(s: System, d: nat, crashed: bool) {
    if d !in s.deliveries then !crashed && !HasEntry(s, d)
    else
      var p := s.deliveries[d].phase;
      && (Rank(p) >= 3 ==> !crashed && !IsSettled(s, d))
      && (Rank(p) < 3 && !p.Failing? && !p.Dropped? ==> IsSettled(s, d) && !crashed)
      && (p.Failing? && p.message != OtherJson ==> !crashed)
      && (p == Failing(OtherJson) || p.Dropped? ==> (crashed <==> !IsSettled(s, d)))
  }

  lemma EntriesAfter(s: System, step: Step, d: nat)
    ensures HasEntry(Next(s, step), d) <==>
              HasEntry(s, d) || (d == step.delivery && Enabled(s, step) && !step.action.Deliver?
                                 && OutcomeOf(s, step).event.Some?)
  {
    var s' := Next(s, step);
    if i :| 0 <= i < |s.queue| && s.queue[i].sender == d { assert s'.queue[i].sender == d; }
    if |s'.queue| > |s.queue| { assert s'.queue[|s.queue|].sender == step.delivery; }
  }

  lemma OthersKeepProgress(s: System, step: Step, d: nat, crashed: bool)
    requires ProgressOk(s, d, crashed) && step.delivery != d
    ensures ProgressOk(Next(s, step), d, crashed)
  {
    EntriesAfter(s, step, d);
  }

  lemma StepKeepsProgress(s: System, step: Step, d: nat, crashed: bool)
    requires ProgressOk(s, d, crashed) && step.delivery == d
    ensures ProgressOk(Next(s, step), d, crashed || CrashesInJson(s, step, d))
  {
    EntriesAfter(s, step, d);
  }

  lemma {:induction false} CrashedIffUnsettled(steps: seq<Step>, d: nat)
    ensures ProgressOk(Run(steps), d, CrashedInJson(steps, d))
  {
    if steps != [] {
      var earlier, step := steps[..|steps| - 1], steps[|steps| - 1];
      CrashedIffUnsettled(earlier, d);
      if step.delivery == d {
        StepKeepsProgress(Run(earlier), step, d, CrashedInJson(earlier, d));
      } else {
        OthersKeepProgress(Run(earlier), step, d, CrashedInJson(earlier, d));
      }
    }
  }

  lemma {:induction false} RunInvariant(steps: seq<Step>)
    ensures var s := Run(steps);
            ClaimsOk(s) && RunsOk(s) && EntriesOk(s)
  {
    if steps != [] {
      var earlier, step := steps[..|steps| - 1], steps[|steps| - 1];
      RunInvariant(earlier);
      StepKeepsClaims(Run(earlier), step);
      StepKeepsRuns(Run(earlier), step);
      StepKeepsEntries(Run(earlier), step);
    }
  }

  // ---------------------------------------------------------------- the theorems

  /** Whatever is delivered however often, the handler runs at most once per execution, seq and retry. */
  lemma HandlerRunsOncePerClaim(steps: seq<Step>, i: nat, j: nat)
    requires i < j < |Run(steps).runs|
    ensures var s := Run(steps);
            && s.runs[i] in s.deliveries && s.runs[j] in s.deliveries
            && var q, r := s.deliveries[s.runs[i]].request, s.deliveries[s.runs[j]].request;
               q.executionId != r.executionId || q.seqNo != r.seqNo || q.retry != r.retry
  {
    RunInvariant(steps);
    var s := Run(steps);
    assert s.runs[i] in s.runs && s.runs[j] in s.runs;
    assert RunOk(s, s.runs[i]) && RunOk(s, s.runs[j]);
    assert IsWinner(s, s.runs[i], AttemptOf(s.deliveries[s.runs[i]].request));
    assert IsWinner(s, s.runs[j], AttemptOf(s.deliveries[s.runs[j]].request));
  }

  /** Every delivery can always go on until it has ended, and every step takes it closer to its end. */
  lemma DeliveriesEnd(s: System, d: nat)
    requires d in s.deliveries
    ensures Rank(s.deliveries[d].phase) > 0 <==> exists a :: Enabled(s, Step(d, a))
    ensures forall a :: Enabled(s, Step(d, a)) ==>
              && d in Next(s, Step(d, a)).deliveries
              && Rank(Next(s, Step(d, a)).deliveries[d].phase) < Rank(s.deliveries[d].phase)
  {
    var p := s.deliveries[d].phase;
    var a := match p
      case Received => Claim(true)
      case Claimed => StartMonitor(true)
      case Ready => Begin(true)
      case Running => End(Value)
      case Finished(_) => Submit(true)
      case Refused => Return
      case AsyncDeclared => Flush(true)
      case Submitted(_) => Flush(true)
      case _ => Fallback;
    assert Rank(p) > 0 ==> Enabled(s, Step(d, a));
  }

  /** The delivery holds the claim of that execution, sequence number and retry. */
  predicate WonSame(s: System, e: nat, r: Request) {
    && e in s.deliveries && s.deliveries[e].claim.Won?
    && var q := s.deliveries[e].request;
       q.executionId == r.executionId && q.seqNo == r.seqNo && q.retry == r.retry
  }

  /** The delivery was refused a claim that another one holds. */
  ghost predicate LostToAnother(s: System, d: nat)
    requires d in s.deliveries
  {
    s.deliveries[d].claim.Lost? && exists e :: e != d && WonSame(s, e, s.deliveries[d].request)
  }

  /** An event of its own execution and seq is in the queue, submitted by its own worker or fallback. */
  predicate HasReported(s: System, d: nat)
    requires d in s.deliveries
  {
    exists i :: 0 <= i < |s.queue| && s.queue[i].sender == d
                && IsOwn(s.queue[i].executionId, s.queue[i].event, s.deliveries[d].request)
  }

  /**
   Every delivery that has ended was refused a claim that another delivery holds, or declared itself
   async, or has submitted a completion event of its own execution and seq, wherever it crashed, if and
   only if its invocation did not die with an error message that is itself JSON before any of these.
   */
  lemma EndedDeliveriesAreAccountedForIff(steps: seq<Step>, d: nat)
    requires d in Run(steps).deliveries && Rank(Run(steps).deliveries[d].phase) == 0
    ensures var s := Run(steps);
            LostToAnother(s, d) || s.deliveries[d].async || HasReported(s, d) <==> !CrashedInJson(steps, d)
  {
    var s := Run(steps);
    RunInvariant(steps);
    CrashedIffUnsettled(steps, d);
    assert AnswerOk(s, s.deliveries[d]);
    if i :| 0 <= i < |s.queue| && s.queue[i].sender == d {
      assert EntryOk(s, s.queue[i]);
    }
    if s.deliveries[d].claim.Lost? {
      var e :| IsWinner(s, e, AttemptOf(s.deliveries[d].request));
      assert e != d && WonSame(s, e, s.deliveries[d].request);
    }
  }

  /** Such a delivery never reports anything, however the run goes on. */
  lemma {:induction false} JsonCrashIsNeverRepaired(steps: seq<Step>, n: nat, d: nat)
    requires n <= |steps| && CrashedInJson(steps[..n], d)
    ensures CrashedInJson(steps, d) && d in Run(steps).deliveries
    ensures !IsSettled(Run(steps), d)
  {
    if n == |steps| {
      assert steps[..n] == steps;
    } else {
      assert steps[..|steps| - 1][..n] == steps[..n];
      JsonCrashIsNeverRepaired(steps[..|steps| - 1], n, d);
    }
    CrashedIffUnsettled(steps, d);
  }

  // ---------------------------------------------------------------- successes

  /** The step was taken at some point of the run. */
  predicate Took(steps: seq<Step>, step: Step) {
    steps != [] &&
    var earlier, last := steps[..|steps| - 1], steps[|steps| - 1];
    Took(earlier, step) || (last == step && Enabled(Run(earlier), step))
  }

  predicate CrashesUnsubmitted(s: System, step: Step, d: nat) {
    step.delivery == d && step.action.Crash? && Enabled(s, step) && s.deliveries[d].phase.Finished?
  }

  /** The invocation died between making its event and submitting it. */
  predicate CrashedUnsubmitted(steps: seq<Step>, d: nat) {
    steps != [] &&
    var earlier, last := steps[..|steps| - 1], steps[|steps| - 1];
    CrashedUnsubmitted(earlier, d) || CrashesUnsubmitted(Run(earlier), last, d)
  }

  predicate IsSuccess(entry: Submission, d: nat) {
    entry.sender == d && entry.event.TaskSucceeded?
  }

  predicate HasSucceeded(s: System, d: nat) {
    exists i :: 0 <= i < |s.queue| && IsSuccess(s.queue[i], d)
  }

  /** The phase holds a success that is to be submitted, or has been. */
  predicate CarriesSuccess(p: Phase) {
    match p
    case Finished(event) => event.TaskSucceeded?
    case Submitted(event) => event.TaskSucceeded?
    case Failing(SendEvent(_, event)) => event.TaskSucceeded?
    case _ => false
  }

  /**
   `returned`: the handler has returned a value; `failed`: it has thrown, declared the task async, or was
   missing; `crashed`: the invocation died with its event unsubmitted.
   */
  predicate SuccessOk(s: System, d: nat, returned: bool, failed: bool, crashed: bool) {
    var carries := d in s.deliveries && CarriesSuccess(s.deliveries[d].phase);
    && !(returned && failed)
    && (HasSucceeded(s, d) || carries ==> returned && !crashed)
    && (returned && !crashed ==> HasSucceeded(s, d) || carries)
    && (returned || failed || crashed ==> d in s.deliveries && Rank(s.deliveries[d].phase) < Rank(Running))
    && (crashed ==> Rank(s.deliveries[d].phase) < 3)
    && (d in s.deliveries && s.deliveries[d].phase.Finished? ==> !HasSucceeded(s, d))
    && (d in s.deliveries && s.deliveries[d].phase.Submitted? && carries ==> HasSucceeded(s, d))
  }

  lemma SuccessesAfter(s: System, step: Step, d: nat)
    ensures HasSucceeded(Next(s, step), d) <==>
              || HasSucceeded(s, d)
              || (d == step.delivery && Enabled(s, step) && !step.action.Deliver?
                  && OutcomeOf(s, step).event.Some? && OutcomeOf(s, step).event.value.1.TaskSucceeded?)
  {
    var s' := Next(s, step);
    if i :| 0 <= i < |s.queue| && IsSuccess(s.queue[i], d) { assert IsSuccess(s'.queue[i], d); }
    if |s'.queue| > |s.queue| && s'.queue[|s.queue|].event.TaskSucceeded? {
      assert IsSuccess(s'.queue[|s.queue|], step.delivery);
    }
  }

  predicate Fails(action: Action) {
    action in {End(Error), End(Async), Begin(false)}
  }

  lemma OthersKeepSuccess(s: System, step: Step, d: nat, returned: bool, failed: bool, crashed: bool)
    requires SuccessOk(s, d, returned, failed, crashed) && step.delivery != d
    ensures SuccessOk(Next(s, step), d, returned, failed, crashed)
  {
    SuccessesAfter(s, step, d);
  }

  lemma StepKeepsSuccess(s: System, step: Step, d: nat, returned: bool, failed: bool, crashed: bool)
    requires SuccessOk(s, d, returned, failed, crashed) && step.delivery == d
    ensures SuccessOk(Next(s, step), d, returned || (step.action == End(Value) && Enabled(s, step)),
                      failed || (Fails(step.action) && Enabled(s, step)), crashed || CrashesUnsubmitted(s, step, d))
  {
    SuccessesAfter(s, step, d);
  }

  predicate TookFailure(steps: seq<Step>, d: nat) {
    Took(steps, Step(d, End(Error))) || Took(steps, Step(d, End(Async))) || Took(steps, Step(d, Begin(false)))
  }

  lemma {:induction false} SuccessesFollowHandlers(steps: seq<Step>, d: nat)
    ensures SuccessOk(Run(steps), d, Took(steps, Step(d, End(Value))), TookFailure(steps, d), CrashedUnsubmitted(steps, d))
  {
    if steps != [] {
      var earlier, step := steps[..|steps| - 1], steps[|steps| - 1];
      SuccessesFollowHandlers(earlier, d);
      var returned, failed := Took(earlier, Step(d, End(Value))), TookFailure(earlier, d);
      if step.delivery == d {
        StepKeepsSuccess(Run(earlier), step, d, returned, failed, CrashedUnsubmitted(earlier, d));
      } else {
        OthersKeepSuccess(Run(earlier), step, d, returned, failed, CrashedUnsubmitted(earlier, d));
      }
    }
  }

  /**
   A success in the queue is that of a delivery whose handler returned a value. And a delivery that has
   ended has submitted its success, itself or through its fallback, if and only if its handler returned a
   value and its invocation did not die with the event unsubmitted. So a handler that threw, declared
   the task async, or is missing, never has one.
   */
  lemma SucceededIffHandlerReturned(steps: seq<Step>, d: nat)
    ensures var s := Run(steps);
            && (HasSucceeded(s, d) ==> Took(steps, Step(d, End(Value))))
            && (d in s.deliveries && Rank(s.deliveries[d].phase) == 0 ==>
                  (HasSucceeded(s, d) <==> Took(steps, Step(d, End(Value))) && !CrashedUnsubmitted(steps, d)))
            && (Took(steps, Step(d, End(Error))) ==> !HasSucceeded(s, d))
            && (Took(steps, Step(d, End(Async))) ==> !HasSucceeded(s, d))
            && (Took(steps, Step(d, Begin(false))) ==> !HasSucceeded(s, d))
  {
    SuccessesFollowHandlers(steps, d);
  }

  // ---------------------------------------------------------------- the steps of one invocation

  /** What one invocation leaves in the system, if it has ended as `served` says. */
  predicate Leaves(s: System, d: nat, served: Served, s': System)
    requires d in s.deliveries
  {
    && s'.tasks == served.tasks
    && s'.runs == (if served.runs then s.runs + [d] else s.runs)
    && s'.queue == (if served.submitted.Some?
                    then s.queue + [Submission(d, s.deliveries[d].request.executionId, served.submitted.value)]
                    else s.queue)
    && d in s'.deliveries
    && match served.fallback
       case Some(message) => s'.deliveries[d].phase == Failing(message)
       case None => s'.deliveries[d].phase in {LostClaim, DeclaredAsync, Reported}
  }

  function FirstSteps(s: System, d: nat, env: Environment): System {
    Next(Next(Next(s, Step(d, Claim(env.storeUp))), Step(d, Return)), Step(d, StartMonitor(env.timerUp)))
  }

  function LastSteps(s: System, d: nat, env: Environment): System {
    var s1 := Next(Next(s, Step(d, Begin(env.taskExists))), Step(d, End(env.handler)));
    Next(Next(s1, Step(d, Submit(env.queueUp))), Step(d, Flush(env.flushed)))
  }

  lemma FinishedDeliveryIsServed(s: System, d: nat, queueUp: bool, flushed: bool)
    requires d in s.deliveries && (s.deliveries[d].phase.Finished? || s.deliveries[d].phase.AsyncDeclared?)
    ensures var p := s.deliveries[d].phase;
            var event := if p.Finished? then Some(p.event) else None;
            Leaves(s, d, Served(s.tasks, false, false, if queueUp then event else None,
                                ServedFallback(s.deliveries[d].request, event, queueUp, flushed)),
                   Next(Next(s, Step(d, Submit(queueUp))), Step(d, Flush(flushed))))
  {
  }

  lemma ReadyDeliveryIsServed(s: System, d: nat, env: Environment, monitored: bool)
    requires d in s.deliveries && s.deliveries[d].phase.Ready?
    ensures var r := s.deliveries[d].request;
            var event := EventOf(r, env.taskExists, env.handler);
            Leaves(s, d, Served(s.tasks, monitored, env.taskExists, if env.queueUp then event else None,
                                ServedFallback(r, event, env.queueUp, env.flushed)), LastSteps(s, d, env))
  {
    var s1 := Next(Next(s, Step(d, Begin(env.taskExists))), Step(d, End(env.handler)));
    FinishedDeliveryIsServed(s1, d, env.queueUp, env.flushed);
  }

  lemma EndedDeliveryStays(s: System, d: nat, env: Environment)
    requires d in s.deliveries && Rank(s.deliveries[d].phase) < 2
    ensures LastSteps(s, d, env) == s
  {
  }

  /** Where the first steps take a delivery: claimed and ready, or as served already. */
  lemma FirstStepsServe(s: System, d: nat, env: Environment)
    requires d in s.deliveries && s.deliveries[d].phase.Received?
    ensures var s1, r := FirstSteps(s, d, env), s.deliveries[d].request;
            if env.storeUp && !IsClaimed(s.tasks, AttemptOf(r)) && (r.heartbeatSeconds.None? || env.timerUp) then
              && d in s1.deliveries && s1.deliveries[d].phase.Ready? && s1.deliveries[d].request == r
              && s1.tasks == WithClaim(s.tasks, AttemptOf(r)) && s1.runs == s.runs && s1.queue == s.queue
            else
              Leaves(s, d, Serve(s.tasks, r, env), s1) && Rank(s1.deliveries[d].phase) < 2
  {
  }

  /** An invocation that is not interrupted is these steps of its delivery, in this order. */
  lemma InvocationIsItsSteps(s: System, d: nat, env: Environment)
    requires d in s.deliveries && s.deliveries[d].phase.Received?
    ensures Leaves(s, d, Serve(s.tasks, s.deliveries[d].request, env), LastSteps(FirstSteps(s, d, env), d, env))
  {
    var s1, r := FirstSteps(s, d, env), s.deliveries[d].request;
    FirstStepsServe(s, d, env);
    if env.storeUp && !IsClaimed(s.tasks, AttemptOf(r)) && (r.heartbeatSeconds.None? || env.timerUp) {
      ReadyDeliveryIsServed(s1, d, env, r.heartbeatSeconds.Some?);
    } else {
      EndedDeliveryStays(s1, d, env);
    }
  }

  // ---------------------------------------------------------------- a lost completion

  lemma RunAppend(steps: seq<Step>, step: Step)
    ensures Run(steps + [step]) == Next(Run(steps), step)
  {
    assert (steps + [step])[..|steps|] == steps;
  }

  /** After such a crash the attempt stays claimed, and nothing ever reaches the workflow. */
  lemma JsonCrashLosesTask(r: Request)
    requires r.heartbeatSeconds.None?
    ensures var s := Run([Step(0, Deliver(r))] + [Step(0, Claim(true))] + [Step(0, Crash(false))] + [Step(0, Fallback)]);
            IsClaimed(s.tasks, AttemptOf(r)) && s.queue == [] && s.deliveries == map[0 := Delivery(r, Dropped, Won, false)]
  {
    var s1 := [Step(0, Deliver(r))];
    var s2 := s1 + [Step(0, Claim(true))];
    var s3 := s2 + [Step(0, Crash(false))];
    RunAppend([], Step(0, Deliver(r)));
    assert [] + s1 == s1;
    RunAppend(s1, Step(0, Claim(true)));
    assert Run(s2).deliveries == map[0 := Delivery(r, Ready, Won, false)];
    ClaimTakesOneAttempt(map[], AttemptOf(r), AttemptOf(r));
    RunAppend(s2, Step(0, Crash(false)));
    RunAppend(s3, Step(0, Fallback));
  }
}
