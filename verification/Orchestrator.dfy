/**
 A batch of workflow messages: `runExecutions` groups them by execution and orchestrates each execution
 once, and the queue handler reports the messages of the executions that failed. What orchestrating an
 execution does is left to an arbitrary executor.
 */
module Orchestrator {
  import opened Options
  import opened Sequences
  import opened GroupedItems

  /** Events come as objects or as JSON text. */
  datatype InputEvent<E> = Object(event: E) | Text(json: string)

  datatype WorkflowTask<E> = WorkflowTask(executionId: string, events: seq<InputEvent<E>>)

  /** `None` where JSON.parse throws. */
  type Parser<!E> = string -> Option<E>

  function Parsed<E>(event: InputEvent<E>, parse: Parser<E>): Option<E> {
    if event.Object? then Some(event.event) else parse(event.json)
  }

  predicate IsWellFormed<E>(tasks: seq<WorkflowTask<E>>, parse: Parser<E>) {
    forall p :: 0 <= p < |tasks| ==> TaskParses(tasks[p], parse)
  }

  predicate TaskParses<E>(task: WorkflowTask<E>, parse: Parser<E>) {
    forall i :: 0 <= i < |task.events| ==> Parsed(task.events[i], parse).Some?
  }

  function EventsIn<E>(task: WorkflowTask<E>, parse: Parser<E>): seq<E>
    requires TaskParses(task, parse)
  {
    seq(|task.events|, i requires 0 <= i < |task.events| => Parsed(task.events[i], parse).value)
  }

  /** All events, message after message. */
  function FlatEvents<E>(tasks: seq<WorkflowTask<E>>, parse: Parser<E>): seq<E>
    requires IsWellFormed(tasks, parse)
  {
    if tasks == [] then [] else FlatEvents(tasks[..|tasks| - 1], parse) + EventsIn(tasks[|tasks| - 1], parse)
  }

  /** The events of one execution in message order, read off the whole batch. */
  function EventsOf<E>(tasks: seq<WorkflowTask<E>>, executionId: string, parse: Parser<E>): seq<E>
    requires IsWellFormed(tasks, parse)
  {
    if tasks == [] then []
    else
      var last := tasks[|tasks| - 1];
      EventsOf(tasks[..|tasks| - 1], executionId, parse) +
      if last.executionId == executionId then EventsIn(last, parse) else []
  }

  function ExecutionIdOf<E>(task: WorkflowTask<E>): string {
    task.executionId
  }

  /** Grouping the messages keeps the order of their events. */
  lemma {:induction false} GroupKeepsEvents<E>(tasks: seq<WorkflowTask<E>>, executionId: string, parse: Parser<E>)
    requires IsWellFormed(tasks, parse)
    ensures var group := Members(tasks, ExecutionIdOf, executionId);
            IsWellFormed(group, parse) && FlatEvents(group, parse) == EventsOf(tasks, executionId, parse)
  {
    if tasks != [] {
      var n := |tasks| - 1;
      GroupKeepsEvents(tasks[..n], executionId, parse);
      var earlier := Members(tasks[..n], ExecutionIdOf, executionId);
      if tasks[n].executionId == executionId {
        var group := earlier + [tasks[n]];
        assert group[..|group| - 1] == earlier;
        assert Members(tasks, ExecutionIdOf, executionId) == group;
      } else {
        assert Members(tasks, ExecutionIdOf, executionId) == earlier;
      }
    }
  }

  /**
   Event i of message p stands in the events of its execution right after those of the earlier messages,
   as it is if it came as an object, and parsed if it came as text; messages of others add nothing.
   */
  lemma {:induction false} EventStandsAt<E>(tasks: seq<WorkflowTask<E>>, executionId: string, parse: Parser<E>, p: nat)
    requires IsWellFormed(tasks, parse) && p < |tasks|
    ensures var all, before := EventsOf(tasks, executionId, parse), EventsOf(tasks[..p], executionId, parse);
            var upTo := EventsOf(tasks[..p + 1], executionId, parse);
            && before <= upTo <= all
            && |upTo| == |before| + (if tasks[p].executionId == executionId then |tasks[p].events| else 0)
            && (tasks[p].executionId == executionId ==>
                  forall i :: 0 <= i < |tasks[p].events| ==>
                    match tasks[p].events[i]
                    case Object(event) => all[|before| + i] == event
                    case Text(json) => Some(all[|before| + i]) == parse(json))
  {
    var n := |tasks| - 1;
    assert TaskParses(tasks[p], parse);
    if p < n {
      assert tasks[..n][..p] == tasks[..p] && tasks[..n][..p + 1] == tasks[..p + 1];
      EventStandsAt(tasks[..n], executionId, parse, p);
    } else {
      assert tasks[..p + 1] == tasks;
    }
  }

  // ---------------------------------------------------------------- execution ids

  const SLASH := '/'

  function FirstSlash(id: string): (i: nat)
    ensures i <= |id| && SLASH !in id[..i]
    ensures i < |id| ==> id[i] == SLASH
  {
    if id == "" || id[0] == SLASH then 0 else 1 + FirstSlash(id[1..])
  }

  /** `isExecutionId`: splitting at slashes gives two parts. */
  predicate IsExecutionId(id: string) {
    var i := FirstSlash(id);
    i < |id| && SLASH !in id[i + 1..]
  }

  function WorkflowNameOf(id: string): string {
    id[..FirstSlash(id)]
  }

  /** An execution id is a workflow name, one slash and the rest; it is one exactly if it can be read so. */
  lemma ExecutionIdHasTwoParts(id: string)
    requires IsExecutionId(id)
    ensures var name, rest := WorkflowNameOf(id), id[FirstSlash(id) + 1..];
            id == name + [SLASH] + rest && SLASH !in name && SLASH !in rest
  {
  }

  lemma {:induction false} FirstSlashIs(name: string, rest: string)
    requires SLASH !in name
    ensures FirstSlash(name + [SLASH] + rest) == |name|
  {
    var id := name + [SLASH] + rest;
    if name != "" {
      assert id[1..] == name[1..] + [SLASH] + rest;
      FirstSlashIs(name[1..], rest);
    }
  }

  lemma TwoPartsAreExecutionId(name: string, rest: string)
    requires SLASH !in name && SLASH !in rest
    ensures IsExecutionId(name + [SLASH] + rest) && WorkflowNameOf(name + [SLASH] + rest) == name
  {
    var id := name + [SLASH] + rest;
    FirstSlashIs(name, rest);
    assert id[|name| + 1..] == rest && id[..|name|] == name;
  }

  // ---------------------------------------------------------------- running the batch

  datatype Execution<E> = Execution(workflowName: string, executionId: string, events: seq<E>, ok: bool)

  class Executor<E> {
    /** Every orchestration, with whether it succeeded. */
    var runs: seq<Execution<E>>

    constructor ()
      ensures runs == []
    {
      runs := [];
    }

    method Orchestrate(workflowName: string, executionId: string, events: seq<E>) returns (ok: bool)
      modifies this
      ensures runs == old(runs) + [Execution(workflowName, executionId, events, ok)]
    {
      ok := *;
      runs := runs + [Execution(workflowName, executionId, events, ok)];
    }
  }

  predicate IsOrchestrated<E>(runs: seq<Execution<E>>, executionId: string, ok: bool) {
    exists i :: 0 <= i < |runs| && runs[i].executionId == executionId && runs[i].ok == ok
  }

  predicate Distinct<T(==)>(s: seq<T>) {
    forall i, j :: 0 <= i < j < |s| ==> s[i] != s[j]
  }

  /**
   The executions in `handled` are dealt with: each valid one was orchestrated exactly once, with all its
   events in order, and is in exactly one of succeeded and failed, by its own outcome alone.
   */
  ghost predicate Conserved<E(!new)>(
    tasks: seq<WorkflowTask<E>>, parse: Parser<E>, handled: set<string>, runs: seq<Execution<E>>,
    succeeded: seq<string>, failed: seq<string>)
    requires IsWellFormed(tasks, parse)
  {
    RunOnce(tasks, parse, handled, runs) && InOneList(handled, runs, succeeded, failed)
  }

  ghost predicate RunOnce<E(!new)>(
    tasks: seq<WorkflowTask<E>>, parse: Parser<E>, handled: set<string>, runs: seq<Execution<E>>)
    requires IsWellFormed(tasks, parse)
  {
    && (forall i :: 0 <= i < |runs| ==>
          && runs[i].executionId in handled && IsExecutionId(runs[i].executionId)
          && runs[i].workflowName == WorkflowNameOf(runs[i].executionId)
          && runs[i].events == EventsOf(tasks, runs[i].executionId, parse))
    && (forall i, j :: 0 <= i < j < |runs| ==> runs[i].executionId != runs[j].executionId)
  }

  /** Each handled execution is in one of the two lists, once. */
  ghost predicate InOneList<E(!new)>(
    handled: set<string>, runs: seq<Execution<E>>, succeeded: seq<string>, failed: seq<string>)
  {
    && Distinct(succeeded) && Distinct(failed)
    && (forall id :: id in succeeded <==> id in handled && IsOrchestrated(runs, id, true))
    && (forall id :: id in failed <==> id in handled && (!IsExecutionId(id) || IsOrchestrated(runs, id, false)))
    && (forall id :: id in handled ==> (id in succeeded <==> id !in failed))
  }

  lemma RunExtends<E(!new)>(runs: seq<Execution<E>>, run: Execution<E>, id: string, ok: bool)
    ensures IsOrchestrated(runs + [run], id, ok) <==> IsOrchestrated(runs, id, ok) || (run.executionId == id && run.ok == ok)
  {
    if i :| 0 <= i < |runs| && runs[i].executionId == id && runs[i].ok == ok {
      assert (runs + [run])[i] == runs[i];
    }
    if run.executionId == id && run.ok == ok {
      assert (runs + [run])[|runs|] == run;
    }
  }

  lemma RunSorts<E(!new)>(
    handled: set<string>, runs: seq<Execution<E>>, succeeded: seq<string>, failed: seq<string>, run: Execution<E>)
    requires InOneList(handled, runs, succeeded, failed)
    requires run.executionId !in handled && IsExecutionId(run.executionId)
    requires forall i :: 0 <= i < |runs| ==> runs[i].executionId in handled
    ensures InOneList(handled + {run.executionId}, runs + [run],
                   if run.ok then succeeded + [run.executionId] else succeeded,
                   if run.ok then failed else failed + [run.executionId])
  {
    forall id, ok
      ensures IsOrchestrated(runs + [run], id, ok) <==>
                IsOrchestrated(runs, id, ok) || (run.executionId == id && run.ok == ok)
    {
      RunExtends(runs, run, id, ok);
    }
    assert !IsOrchestrated(runs, run.executionId, true) && !IsOrchestrated(runs, run.executionId, false);
  }

  lemma RunConserves<E(!new)>(
    tasks: seq<WorkflowTask<E>>, parse: Parser<E>, handled: set<string>, runs: seq<Execution<E>>,
    succeeded: seq<string>, failed: seq<string>, run: Execution<E>)
    requires IsWellFormed(tasks, parse) && Conserved(tasks, parse, handled, runs, succeeded, failed)
    requires run.executionId !in handled && IsExecutionId(run.executionId)
    requires run.workflowName == WorkflowNameOf(run.executionId)
    requires run.events == EventsOf(tasks, run.executionId, parse)
    ensures Conserved(tasks, parse, handled + {run.executionId}, runs + [run],
                      if run.ok then succeeded + [run.executionId] else succeeded,
                      if run.ok then failed else failed + [run.executionId])
  {
    RunSorts(handled, runs, succeeded, failed, run);
  }

  lemma InvalidConserves<E(!new)>(
    tasks: seq<WorkflowTask<E>>, parse: Parser<E>, handled: set<string>, runs: seq<Execution<E>>,
    succeeded: seq<string>, failed: seq<string>, id: string)
    requires IsWellFormed(tasks, parse) && Conserved(tasks, parse, handled, runs, succeeded, failed)
    requires id !in handled && !IsExecutionId(id)
    ensures Conserved(tasks, parse, handled + {id}, runs, succeeded, failed + [id])
  {
    assert !IsOrchestrated(runs, id, true);
  }

  lemma NothingHandled<E(!new)>(tasks: seq<WorkflowTask<E>>, parse: Parser<E>)
    requires IsWellFormed(tasks, parse)
    ensures Conserved(tasks, parse, {}, [], [], [])
  {
  }

  function Added<T>(before: seq<T>, after: seq<T>): seq<T> {
    if |before| <= |after| then after[|before|..] else []
  }

  lemma AddedTwice<T>(a: seq<T>, b: seq<T>, c: seq<T>)
    requires a <= b && b <= c
    ensures a <= c && Added(a, b) + Added(b, c) == Added(a, c)
  {
  }

  lemma OneHandled(all: set<string>, remaining: set<string>, id: string)
    requires id in remaining && remaining <= all
    ensures all - remaining + {id} == all - (remaining - {id})
  {
  }

  function ExecutionIds<E>(tasks: seq<WorkflowTask<E>>): set<string> {
    set p | 0 <= p < |tasks| :: tasks[p].executionId
  }

  /** The `try` of one execution. */
  method TryExecution<E(!new)>(
    tasks: seq<WorkflowTask<E>>, parse: Parser<E>, executor: Executor<E>, id: string, group: seq<WorkflowTask<E>>,
    ghost handled: set<string>, ghost runs: seq<Execution<E>>, ghost succeeded: seq<string>, ghost failed: seq<string>)
    returns (ok: bool, ghost newRuns: seq<Execution<E>>)
    requires IsWellFormed(tasks, parse) && Conserved(tasks, parse, handled, runs, succeeded, failed)
    requires id !in handled && group == Members(tasks, ExecutionIdOf, id)
    modifies executor
    ensures newRuns == runs + Added(old(executor.runs), executor.runs) && old(executor.runs) <= executor.runs
    ensures Conserved(tasks, parse, handled + {id}, newRuns,
                      if ok then succeeded + [id] else succeeded, if ok then failed else failed + [id])
  {
    if !IsExecutionId(id) {
      InvalidConserves(tasks, parse, handled, runs, succeeded, failed, id);
      return false, runs;
    }
    GroupKeepsEvents(tasks, id, parse);
    var events := FlatEvents(group, parse);
    ok := executor.Orchestrate(WorkflowNameOf(id), id, events);
    ghost var run := Execution(WorkflowNameOf(id), id, events, ok);
    RunConserves(tasks, parse, handled, runs, succeeded, failed, run);
    newRuns := runs + [run];
  }

  /** `runExecutions`. An event that does not parse throws before anything is orchestrated. */
  method RunExecutions<E(!new)>(tasks: seq<WorkflowTask<E>>, parse: Parser<E>, executor: Executor<E>)
    returns (ok: bool, succeeded: seq<string>, failed: seq<string>, ghost runs: seq<Execution<E>>)
    modifies executor
    ensures old(executor.runs) <= executor.runs && runs == Added(old(executor.runs), executor.runs)
    ensures ok == IsWellFormed(tasks, parse)
    ensures if ok then Conserved(tasks, parse, ExecutionIds(tasks), runs, succeeded, failed)
            else runs == []
  {
    succeeded, failed, runs := [], [], [];
    ok := IsWellFormed(tasks, parse);
    if !ok {
      return;
    }
    var groups := GroupBy(tasks, ExecutionIdOf);
    GroupByGroups(tasks, ExecutionIdOf);
    var remaining := groups.Keys;
    NothingHandled(tasks, parse);
    assert groups.Keys - remaining == {};
    while remaining != {}
      invariant remaining <= groups.Keys
      invariant old(executor.runs) <= executor.runs && runs == Added(old(executor.runs), executor.runs)
      invariant Conserved(tasks, parse, groups.Keys - remaining, runs, succeeded, failed)
      decreases |remaining|
    {
      var id :| id in remaining;
      ghost var before := executor.runs;
      var won;
      won, runs := TryExecution(tasks, parse, executor, id, groups[id], groups.Keys - remaining, runs, succeeded, failed);
      AddedTwice(old(executor.runs), before, executor.runs);
      if won {
        succeeded := succeeded + [id];
      } else {
        failed := failed + [id];
      }
      OneHandled(groups.Keys, remaining, id);
      remaining := remaining - {id};
    }
    GroupedIds(tasks, groups.Keys);
  }

  lemma GroupedIds<E(!new)>(tasks: seq<WorkflowTask<E>>, ids: set<string>)
    requires forall id :: id in ids <==> HasKey(tasks, ExecutionIdOf, id)
    ensures ids == ExecutionIds(tasks)
  {
    forall id ensures id in ids <==> id in ExecutionIds(tasks) {
      if id in ids {
        var p :| 0 <= p < |tasks| && ExecutionIdOf(tasks[p]) == id;
        assert tasks[p].executionId == id;
      }
      if p :| 0 <= p < |tasks| && tasks[p].executionId == id {
        assert ExecutionIdOf(tasks[p]) == id;
      }
    }
  }

  // ---------------------------------------------------------------- the queue handler

  datatype Message<E> = Message(messageId: string, groupId: Option<string>, task: WorkflowTask<E>)

  function MessageIdsOfGroup<E>(records: seq<Message<E>>, group: string): seq<string> {
    if records == [] then []
    else
      var n := |records| - 1;
      MessageIdsOfGroup(records[..n], group) + if records[n].groupId == Some(group) then [records[n].messageId] else []
  }

  function FailedMessageIds<E>(records: seq<Message<E>>, failed: seq<string>): seq<string> {
    if failed == [] then []
    else FailedMessageIds(records, failed[..|failed| - 1]) + MessageIdsOfGroup(records, failed[|failed| - 1])
  }

  /** How many messages have this id and a group among the failed. */
  function CountFailed<E>(records: seq<Message<E>>, failed: seq<string>, id: string): nat {
    if records == [] then 0
    else
      var last := records[|records| - 1];
      CountFailed(records[..|records| - 1], failed, id) +
      if last.messageId == id && last.groupId.Some? && last.groupId.value in failed then 1 else 0
  }

  /** One more failed group adds its own messages, and counts none twice. */
  lemma {:induction false} GroupAddsItsMessages<E>(records: seq<Message<E>>, failed: seq<string>, group: string, id: string)
    requires group !in failed
    ensures CountFailed(records, failed + [group], id) ==
            CountFailed(records, failed, id) + Count(MessageIdsOfGroup(records, group), id)
  {
    if records != [] {
      var n := |records| - 1;
      GroupAddsItsMessages(records[..n], failed, group, id);
      CountConcat(MessageIdsOfGroup(records[..n], group),
                  if records[n].groupId == Some(group) then [records[n].messageId] else [], id);
    }
  }

  lemma {:induction false} NothingFailed<E>(records: seq<Message<E>>, id: string)
    ensures CountFailed(records, [], id) == 0
  {
    if records != [] {
      NothingFailed(records[..|records| - 1], id);
    }
  }

  /** Every message of a failed group is reported, as often as it is in the batch, and no other. */
  lemma {:induction false} FailedMessagesAreReported<E>(records: seq<Message<E>>, failed: seq<string>, id: string)
    requires Distinct(failed)
    ensures Count(FailedMessageIds(records, failed), id) == CountFailed(records, failed, id)
  {
    if failed == [] {
      NothingFailed(records, id);
    } else {
      var n := |failed| - 1;
      FailedMessagesAreReported(records, failed[..n], id);
      CountConcat(FailedMessageIds(records, failed[..n]), MessageIdsOfGroup(records, failed[n]), id);
      GroupAddsItsMessages(records, failed[..n], failed[n], id);
      assert failed[..n] + [failed[n]] == failed;
    }
  }

  function Tasks<E>(records: seq<Message<E>>): seq<WorkflowTask<E>> {
    seq(|records|, i requires 0 <= i < |records| => records[i].task)
  }

  /** The queue client sends every task in the message group of its execution. */
  predicate GroupedByExecution<E>(records: seq<Message<E>>) {
    forall p :: 0 <= p < |records| ==> records[p].groupId == Some(records[p].task.executionId)
  }

  /** How many messages have this id and belong to an execution that is invalid or whose run failed. */
  function CountUnsuccessful<E>(records: seq<Message<E>>, runs: seq<Execution<E>>, id: string): nat {
    if records == [] then 0
    else
      var last := records[|records| - 1];
      var executionId := last.task.executionId;
      CountUnsuccessful(records[..|records| - 1], runs, id) +
      if last.messageId == id && (!IsExecutionId(executionId) || IsOrchestrated(runs, executionId, false)) then 1 else 0
  }

  lemma {:induction false} FailedMessagesAreUnsuccessful<E(!new)>(
    records: seq<Message<E>>, runs: seq<Execution<E>>, failed: seq<string>, id: string)
    requires GroupedByExecution(records)
    requires forall p :: 0 <= p < |records| ==>
               var executionId := records[p].task.executionId;
               (executionId in failed <==> !IsExecutionId(executionId) || IsOrchestrated(runs, executionId, false))
    ensures CountFailed(records, failed, id) == CountUnsuccessful(records, runs, id)
  {
    if records != [] {
      FailedMessagesAreUnsuccessful(records[..|records| - 1], runs, failed, id);
    }
  }

  /**
   The queue handler. Nothing returned means that it threw, and the whole batch will come again; an
   ordinary return reports exactly the messages of executions that are invalid or failed.
   */
  method HandleBatch<E(!new)>(records: seq<Message<E>>, parse: Parser<E>, executor: Executor<E>, flushed: bool)
    returns (failures: Option<seq<string>>, ghost runs: seq<Execution<E>>)
    modifies executor
    ensures old(executor.runs) <= executor.runs && runs == Added(old(executor.runs), executor.runs)
    ensures failures.Some? <==>
              && flushed && IsWellFormed(Tasks(records), parse)
              && forall p :: 0 <= p < |records| ==> records[p].groupId.Some? && records[p].groupId.value != ""
    ensures failures.Some? && GroupedByExecution(records) ==>
              forall id :: Count(failures.value, id) == CountUnsuccessful(records, runs, id)
  {
    if exists p :: 0 <= p < |records| && (records[p].groupId.None? || records[p].groupId.value == "") {
      return None, [];
    }
    var ok, succeeded, failed;
    ok, succeeded, failed, runs := RunExecutions(Tasks(records), parse, executor);
    if !ok || !flushed {
      return None, runs;
    }
    failures := Some(FailedMessageIds(records, failed));
    if GroupedByExecution(records) {
      forall id ensures Count(failures.value, id) == CountUnsuccessful(records, runs, id) {
        FailedMessagesAreReported(records, failed, id);
        assert forall p :: 0 <= p < |records| ==> Tasks(records)[p] == records[p].task;
        FailedMessagesAreUnsuccessful(records, runs, failed, id);
      }
    }
  }
}
