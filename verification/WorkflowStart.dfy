/**
 Starting a workflow under a chosen name: the execution record is created conditionally, and a caller
 who finds it there is told that the execution is already running if the hash of its input agrees.
 */
module WorkflowStart {
  import opened Options
  import opened HashCode

  // ---------------------------------------------------------------- the execution record

  datatype Status = InProgress | Succeeded | Failed

  /** The input is JSON text, as UTF-16 code units. */
  datatype Request = Request(input: Option<seq<CodeUnit>>, startTime: int)

  /** What the start event carries. */
  datatype StartEvent = StartEvent(input: Option<seq<CodeUnit>>, timestamp: int)

  /** `origin` stands for the attributes that only `create` writes: id, workflow name and start time. */
  datatype Record = Record(
    origin: Option<int>, inputHash: Option<int>, insertEvent: Option<StartEvent>,
    status: Status, endTime: Option<int>, result: Option<string>, error: Option<string>)

  datatype Update = Succeed(endTime: int, result: Option<string>) | Fail(endTime: int, error: string)

  function InputHash(input: Option<seq<CodeUnit>>): Option<int> {
    if input.Some? then Some(ToInt32(Polynomial(input.value))) else None
  }

  function Created(r: Request): Record {
    Record(Some(r.startTime), InputHash(r.input), Some(StartEvent(r.input, r.startTime)), InProgress, None, None, None)
  }

  const BLANK := Record(None, None, None, InProgress, None, None, None)

  /** An update creates the record if need be, and keeps an end time that is there. */
  function Updated(before: Option<Record>, u: Update): Record {
    var record := if before.Some? then before.value else BLANK;
    var ended := record.(insertEvent := None, endTime := if record.endTime.Some? then record.endTime else Some(u.endTime));
    match u
    case Succeed(_, result) => ended.(status := Succeeded, result := if result.Some? then result else record.result)
    case Fail(_, error) => ended.(status := Failed, error := Some(error))
  }

  /** Reading a record that was never created throws: it has no id. */
  predicate IsReadable(record: Option<Record>) {
    record.None? || record.value.origin.Some?
  }

  class ExecutionStore {
    var records: map<string, Record>

    constructor ()
      ensures records == map[]
    {
      records := map[];
    }

    ghost function At(id: string): Option<Record>
      reads this
    {
      if id in records then Some(records[id]) else None
    }

    method Create(id: string, r: Request) returns (ok: bool)
      modifies this
      ensures ok == (id !in old(records))
      ensures records == if ok then old(records)[id := Created(r)] else old(records)
      ensures ok ==> var record := records[id];
                     && record.origin == Some(r.startTime) && record.status.InProgress? && record.endTime.None?
                     && record.insertEvent == Some(StartEvent(r.input, r.startTime))
    {
      ok := id !in records;
      if ok {
        records := records[id := Created(r)];
      }
    }

    method Update(id: string, u: Update) returns (record: Option<Record>)
      modifies this
      ensures records == old(records)[id := Updated(old(At(id)), u)]
      ensures record == if IsReadable(Some(records[id])) then Some(records[id]) else None
      ensures var before, after := old(At(id)), records[id];
              && (after.status.Succeeded? <==> u.Succeed?) && (after.status.Failed? <==> u.Fail?)
              && (u.Succeed? && u.result.Some? ==> after.result == u.result)
              && (u.Fail? ==> after.error == Some(u.error))
              && (before.Some? && before.value.endTime.Some? ==> after.endTime == before.value.endTime)
              && (before.None? || before.value.endTime.None? ==> after.endTime == Some(u.endTime))
              && after.insertEvent.None?
              && (before.Some? ==> after.origin == before.value.origin && after.inputHash == before.value.inputHash)
    {
      var before := if id in records then records[id] else BLANK;
      var endTime := if before.endTime.Some? then before.endTime else Some(u.endTime);
      var after := before.(insertEvent := None, endTime := endTime);
      match u {
        case Succeed(_, result) =>
          after := after.(status := Succeeded);
          if result.Some? {
            after := after.(result := result);
          }
        case Fail(_, error) =>
          after := after.(status := Failed, error := Some(error));
      }
      records := records[id := after];
      record := if after.origin.Some? then Some(after) else None;
    }
  }

  // ---------------------------------------------------------------- one call

  /** A request to the table is answered, or fails before or after it was applied. */
  datatype Delivery = Answered | NotApplied | AnswerLost

  datatype Environment = Environment(logReady: bool, create: Delivery, getUp: bool, logWritten: bool)

  datatype Outcome = Started | AlreadyRunning | Error

  function RecordAfter(before: Option<Record>, r: Request, env: Environment): Option<Record> {
    if env.logReady && !env.create.NotApplied? && before.None? then Some(Created(r)) else before
  }

  function OutcomeOf(before: Option<Record>, r: Request, env: Environment): Outcome {
    if !env.logReady || !env.create.Answered? then Error
    else if before.None? then (if env.logWritten then Started else Error)
    else if env.getUp && IsReadable(before) && before.value.inputHash == InputHash(r.input) then AlreadyRunning
    else Error
  }

  class WorkflowClient {
    const store: ExecutionStore

    constructor (store: ExecutionStore)
      ensures this.store == store
    {
      this.store := store;
    }

    /**
     `startExecution` when nobody interferes: the record is created or left alone, and an ordinary
     return tells whether this very call created it.
     */
    method StartExecution(id: string, r: Request, env: Environment) returns (outcome: Outcome)
      modifies store
      ensures var before := old(store.At(id));
              && store.At(id) == RecordAfter(before, r, env)
              && (forall other :: other != id ==> store.At(other) == old(store.At(other)))
              && outcome == OutcomeOf(before, r, env)
      ensures var before, after := old(store.At(id)), store.At(id);
              var answered := env.logReady && env.create.Answered?;
              && (outcome.Started? <==> answered && env.logWritten && before.None?)
              && (outcome.AlreadyRunning? <==>
                    && answered && env.getUp && before.Some? && before.value.origin.Some?
                    && match r.input
                       case None => before.value.inputHash.None?
                       case Some(text) => before.value.inputHash == Some(ToInt32(Polynomial(text))))
              && (before.Some? ==> after == before)
              && (outcome.Started? ==>
                    && after.Some? && after.value.insertEvent == Some(StartEvent(r.input, r.startTime))
                    && match r.input
                       case None => after.value.inputHash.None?
                       case Some(text) => after.value.inputHash == Some(ToInt32(Polynomial(text))))
    {
      var inputHash: Option<int> := None;
      if r.input.Some? {
        var hash := Hash(r.input.value);
        inputHash := Some(hash);
      }
      if !env.logReady || env.create.NotApplied? {
        return Error;
      }
      var created := store.Create(id, r);
      if env.create.AnswerLost? {
        return Error;
      }
      if !created {
        if env.getUp && store.records[id].origin.Some? && store.records[id].inputHash == inputHash {
          return AlreadyRunning;
        }
        return Error;
      }
      outcome := if env.logWritten then Started else Error;
    }
  }

  // ---------------------------------------------------------------- all calls for one execution id

  datatype Phase = Called | LogReady | Inserted | Conflicted | Done(outcome: Outcome)

  datatype Caller = Caller(request: Request, phase: Phase)

  /** `creator` is the call whose insertion made the record; `startEvents` are the insertions with an event. */
  datatype System = System(
    record: Option<Record>, creator: Option<nat>, startEvents: seq<StartEvent>, callers: map<nat, Caller>)

  const IDLE := System(None, None, [], map[])

  datatype Action =
    | Call(request: Request)
    | InitLog(up: bool)
    | Create(delivery: Delivery)
    | Get(up: bool)
    | PutLog(up: bool)

  datatype Step = Step(caller: nat, action: Action) | Complete(update: Update)

  predicate Enabled(s: System, step: Step) {
    step.Complete? ||
    match step.action
    case Call(_) => step.caller !in s.callers
    case InitLog(_) => step.caller in s.callers && s.callers[step.caller].phase.Called?
    case Create(_) => step.caller in s.callers && s.callers[step.caller].phase.LogReady?
    case Get(_) => step.caller in s.callers && s.callers[step.caller].phase.Conflicted?
    case PutLog(_) => step.caller in s.callers && s.callers[step.caller].phase.Inserted?
  }

  /** Where a caller stands after its step. */
  function PhaseAfter(s: System, step: Step): Phase
    requires step.Step? && Enabled(s, step)
  {
    match step.action
    case Call(_) => Called
    case InitLog(up) => if up then LogReady else Done(Error)
    case Create(delivery) =>
      if !delivery.Answered? then Done(Error) else if s.record.None? then Inserted else Conflicted
    case Get(up) =>
      var same := s.record.Some? && s.record.value.inputHash == InputHash(s.callers[step.caller].request.input);
      Done(if up && IsReadable(s.record) && same then AlreadyRunning else Error)
    case PutLog(up) => Done(if up then Started else Error)
  }

  function Next(s: System, step: Step): System {
    if !Enabled(s, step) then s
    else if step.Complete? then s.(record := Some(Updated(s.record, step.update)))
    else
      var c := step.caller;
      var r := if step.action.Call? then step.action.request else s.callers[c].request;
      var callers := s.callers[c := Caller(r, PhaseAfter(s, step))];
      if step.action.Create? && !step.action.delivery.NotApplied? && s.record.None? then
        System(Some(Created(r)), Some(c), s.startEvents + [Created(r).insertEvent.value], callers)
      else s.(callers := callers)
  }

  function Run(steps: seq<Step>): System {
    if steps == [] then IDLE else Next(Run(steps[..|steps| - 1]), steps[|steps| - 1])
  }

  /** The record is the creator's, or was put there by an update. */
  predicate CreatorOk(s: System) {
    match s.creator
    case None => s.startEvents == [] && (s.record.Some? ==> s.record.value.origin.None?)
    case Some(c) =>
      && c in s.callers && s.record.Some?
      && var r := s.callers[c].request;
         && s.startEvents == [StartEvent(r.input, r.startTime)]
         && s.record.value.origin == Some(r.startTime) && s.record.value.inputHash == InputHash(r.input)
  }

  predicate CallerOk(s: System, c: nat)
    requires c in s.callers
  {
    var caller := s.callers[c];
    && (caller.phase in {Inserted, Done(Started)} ==> s.creator == Some(c))
    && (caller.phase.Conflicted? ==> s.record.Some?)
    && (caller.phase == Done(AlreadyRunning) ==>
          && s.creator.Some? && s.creator.value in s.callers
          && InputHash(s.callers[s.creator.value].request.input) == InputHash(caller.request.input))
  }

  ghost predicate CallersOk(s: System) {
    forall c :: c in s.callers ==> CallerOk(s, c)
  }

  lemma StepKeepsCreator(s: System, step: Step)
    requires CreatorOk(s)
    ensures CreatorOk(Next(s, step))
    ensures s.creator.Some? ==> Next(s, step).creator == s.creator
  {
  }

  lemma StepKeepsCallers(s: System, step: Step)
    requires CreatorOk(s) && CallersOk(s)
    ensures CallersOk(Next(s, step))
  {
    var s' := Next(s, step);
    StepKeepsCreator(s, step);
    forall c | c in s'.callers ensures CallerOk(s', c) {
      if c in s.callers {
        assert CallerOk(s, c);
      }
    }
  }

  lemma {:induction false} RunInvariant(steps: seq<Step>)
    ensures CreatorOk(Run(steps)) && CallersOk(Run(steps))
  {
    if steps != [] {
      RunInvariant(steps[..|steps| - 1]);
      StepKeepsCreator(Run(steps[..|steps| - 1]), steps[|steps| - 1]);
      StepKeepsCallers(Run(steps[..|steps| - 1]), steps[|steps| - 1]);
    }
  }

  predicate Told(s: System, c: nat, outcome: Outcome) {
    c in s.callers && s.callers[c].phase == Done(outcome)
  }

  /**
   However the calls interleave: the start event goes out at most once, at most one caller is told that
   it started the execution, and its event is the one that went out.
   */
  lemma StartsAtMostOnce(steps: seq<Step>)
    ensures |Run(steps).startEvents| <= 1
    ensures forall c, d :: Told(Run(steps), c, Started) && Told(Run(steps), d, Started) ==> c == d
    ensures forall c :: Told(Run(steps), c, Started) ==>
              var r := Run(steps).callers[c].request;
              Run(steps).startEvents == [StartEvent(r.input, r.startTime)]
  {
    RunInvariant(steps);
    assert forall c :: Told(Run(steps), c, Started) ==> CallerOk(Run(steps), c);
  }

  /**
   A caller told that the execution is already running brought no input, and neither did the one who
   started it; or both did, and their texts have one hash.
   */
  lemma AlreadyRunningHasSameHash(steps: seq<Step>, c: nat)
    requires Told(Run(steps), c, AlreadyRunning)
    ensures var s := Run(steps);
            && |s.startEvents| == 1
            && match (s.startEvents[0].input, s.callers[c].request.input)
               case (None, None) => true
               case (Some(text), Some(mine)) => ToInt32(Polynomial(text)) == ToInt32(Polynomial(mine))
               case _ => false
  {
    RunInvariant(steps);
    assert CallerOk(Run(steps), c);
  }

  /** A call that nobody interferes with is these five steps. */
  function CallSteps(c: nat, r: Request, env: Environment): seq<Step> {
    [Step(c, Call(r))] + [Step(c, InitLog(env.logReady))] + [Step(c, Create(env.create))] + [Step(c, Get(env.getUp))]
    + [Step(c, PutLog(env.logWritten))]
  }

  function AfterCall(s: System, c: nat, r: Request, env: Environment): System {
    var s1 := Next(Next(Next(s, Step(c, Call(r))), Step(c, InitLog(env.logReady))), Step(c, Create(env.create)));
    Next(Next(s1, Step(c, Get(env.getUp))), Step(c, PutLog(env.logWritten)))
  }

  lemma CallIsFiveSteps(s: System, c: nat, r: Request, env: Environment)
    requires c !in s.callers
    ensures var s' := AfterCall(s, c, r, env);
            && s'.record == RecordAfter(s.record, r, env)
            && s'.callers == s.callers[c := Caller(r, Done(OutcomeOf(s.record, r, env)))]
  {
  }

  lemma RunAppend(steps: seq<Step>, step: Step)
    ensures Run(steps + [step]) == Next(Run(steps), step)
  {
    assert (steps + [step])[..|steps|] == steps;
  }

  lemma CallRuns(steps: seq<Step>, c: nat, r: Request, env: Environment)
    ensures Run(steps + CallSteps(c, r, env)) == AfterCall(Run(steps), c, r, env)
  {
    var s1 := steps + [Step(c, Call(r))];
    var s2 := s1 + [Step(c, InitLog(env.logReady))];
    var s3 := s2 + [Step(c, Create(env.create))];
    var s4 := s3 + [Step(c, Get(env.getUp))];
    RunAppend(steps, Step(c, Call(r)));
    RunAppend(s1, Step(c, InitLog(env.logReady)));
    RunAppend(s2, Step(c, Create(env.create)));
    RunAppend(s3, Step(c, Get(env.getUp)));
    RunAppend(s4, Step(c, PutLog(env.logWritten)));
    assert steps + CallSteps(c, r, env) == s4 + [Step(c, PutLog(env.logWritten))];
  }

  // ---------------------------------------------------------------- nothing is overwritten

  /** The end time of the first update. */
  function FirstEndTime(steps: seq<Step>): Option<int> {
    if steps == [] then None
    else
      var earlier, last := FirstEndTime(steps[..|steps| - 1]), steps[|steps| - 1];
      if earlier.Some? then earlier else if last.Complete? then Some(last.update.endTime) else None
  }

  /** Once set the end time never changes: it is that of the first completion, whatever follows. */
  lemma {:induction false} EndTimeIsFirst(steps: seq<Step>)
    ensures (if Run(steps).record.Some? then Run(steps).record.value.endTime else None) == FirstEndTime(steps)
  {
    if steps != [] {
      EndTimeIsFirst(steps[..|steps| - 1]);
    }
  }

  /** The last update. */
  function LastUpdate(steps: seq<Step>): Option<Update> {
    if steps == [] then None
    else if steps[|steps| - 1].Complete? then Some(steps[|steps| - 1].update)
    else LastUpdate(steps[..|steps| - 1])
  }

  /** The status, unlike the end time, is that of the last completion. */
  lemma {:induction false} StatusIsLast(steps: seq<Step>)
    requires Run(steps).record.Some?
    ensures match LastUpdate(steps)
            case None => Run(steps).record.value.status.InProgress?
            case Some(Succeed(_, _)) => Run(steps).record.value.status.Succeeded?
            case Some(Fail(_, error)) =>
              Run(steps).record.value.status.Failed? && Run(steps).record.value.error == Some(error)
  {
    var earlier, last := steps[..|steps| - 1], steps[|steps| - 1];
    if Run(earlier).record.Some? {
      StatusIsLast(earlier);
    } else {
      NoRecordNoUpdate(earlier);
    }
  }

  lemma {:induction false} NoRecordNoUpdate(steps: seq<Step>)
    requires Run(steps).record.None?
    ensures LastUpdate(steps).None?
  {
    if steps != [] {
      NoRecordNoUpdate(steps[..|steps| - 1]);
    }
  }

  /** What a record keeps for ever. */
  predicate Keeps(before: Option<Record>, after: Option<Record>) {
    before.Some? ==>
      && after.Some?
      && after.value.origin == before.value.origin
      && after.value.inputHash == before.value.inputHash
      && (before.value.endTime.Some? ==> after.value.endTime == before.value.endTime)
      && (after.value.insertEvent == before.value.insertEvent || after.value.insertEvent.None?)
  }

  lemma {:induction false} RecordIsNeverOverwritten(steps: seq<Step>, n: nat)
    requires n <= |steps|
    ensures Keeps(Run(steps[..n]).record, Run(steps).record)
  {
    if n == |steps| {
      assert steps[..n] == steps;
    } else {
      RecordIsNeverOverwritten(steps[..|steps| - 1], n);
      assert steps[..|steps| - 1][..n] == steps[..n];
    }
  }

  // ---------------------------------------------------------------- two limits of the code

  /** The record was first written by an update. */
  predicate CompletedFirst(steps: seq<Step>) {
    steps != [] &&
    var earlier, last := steps[..|steps| - 1], steps[|steps| - 1];
    CompletedFirst(earlier) || (last.Complete? && Run(earlier).record.None?)
  }

  /** The record that is there was made by a start, and its event went out, unless an update came first. */
  lemma RecordHasStartEventIff(steps: seq<Step>)
    requires Run(steps).record.Some?
    ensures |Run(steps).startEvents| == 1 <==> !CompletedFirst(steps)
  {
    RunInvariant(steps);
    CompletedFirstHasNoCreator(steps);
  }

  lemma {:induction false} CompletedFirstHasNoCreator(steps: seq<Step>)
    ensures CompletedFirst(steps) <==> Run(steps).record.Some? && Run(steps).creator.None?
  {
    if steps != [] {
      RunInvariant(steps[..|steps| - 1]);
      CompletedFirstHasNoCreator(steps[..|steps| - 1]);
    }
  }

  /** After such an update no call ever starts the execution, nor finds it running. */
  lemma CompletedFirstBlocksStarts(steps: seq<Step>, c: nat)
    requires CompletedFirst(steps)
    ensures !Told(Run(steps), c, Started) && !Told(Run(steps), c, AlreadyRunning)
  {
    RunInvariant(steps);
    CompletedFirstHasNoCreator(steps);
    assert c in Run(steps).callers ==> CallerOk(Run(steps), c);
  }

  const ALL_UP := Environment(true, Answered, true, true)

  /**
   Only hashes are compared. Of two calls, one after the other, the second is told that its execution is
   already running if neither brought an input, or both did and the hashes of their texts agree; in every
   other case it ends in an error.
   */
  lemma SecondCallIsAlreadyRunningIff(a: Request, b: Request)
    ensures var s := Run(CallSteps(0, a, ALL_UP) + CallSteps(1, b, ALL_UP));
            var same := match (a.input, b.input)
                        case (None, None) => true
                        case (Some(text), Some(mine)) => ToInt32(Polynomial(text)) == ToInt32(Polynomial(mine))
                        case _ => false;
            s.callers == map[0 := Caller(a, Done(Started)), 1 := Caller(b, Done(if same then AlreadyRunning else Error))]
  {
    var first := CallSteps(0, a, ALL_UP);
    assert [] + first == first;
    CallRuns([], 0, a, ALL_UP);
    CallIsFiveSteps(IDLE, 0, a, ALL_UP);
    CallRuns(first, 1, b, ALL_UP);
    CallIsFiveSteps(Run(first), 1, b, ALL_UP);
  }

  /** And different inputs can have one hash: these two are the texts "Aa" and "BB", quoted. */
  lemma DifferentInputsMayCollide()
    ensures var a, b := Request(Some([0x22, 0x41, 0x61, 0x22]), 0), Request(Some([0x22, 0x42, 0x42, 0x22]), 1);
            && a.input != b.input
            && var s := Run(CallSteps(0, a, ALL_UP) + CallSteps(1, b, ALL_UP));
               Told(s, 0, Started) && Told(s, 1, AlreadyRunning)
  {
    var a: seq<CodeUnit>, b: seq<CodeUnit> := [0x22, 0x41, 0x61, 0x22], [0x22, 0x42, 0x42, 0x22];
    assert a[1] != b[1];
    QuotedCollision();
    SecondCallIsAlreadyRunningIff(Request(Some(a), 0), Request(Some(b), 1));
  }

  lemma QuotedCollision()
    ensures Polynomial([0x22, 0x41, 0x61, 0x22]) == Polynomial([0x22, 0x42, 0x42, 0x22])
  {
    assert Polynomial([0x41, 0x61]) == 0x41 * 31 + 0x61 == Polynomial([0x42, 0x42]);
    assert [0x22, 0x41, 0x61, 0x22] == [0x22] + [0x41, 0x61] + [0x22];
    assert [0x22, 0x42, 0x42, 0x22] == [0x22] + [0x42, 0x42] + [0x22];
    PolynomialConcat([0x22], [0x41, 0x61]);
    PolynomialConcat([0x22] + [0x41, 0x61], [0x22]);
    PolynomialConcat([0x22], [0x42, 0x42]);
    PolynomialConcat([0x22] + [0x42, 0x42], [0x22]);
  }
}
