/**
 Many transactions and plain writers interleaving on one entity table. Every call of every
 transaction body is its own step, and a read may return any version of the key that was ever
 committed, so reads may be stale and mutually inconsistent. Only commit looks at the present.
 */
module Serializability {
  import opened Options
  import opened Keys
  import opened EntityStore
  import opened Transactions

  /** A transaction in flight. `observed` records what its first read of each key returned. */
  datatype Running = Running(
    body: Body, replies: seq<Reply>, attempt: Attempt, observed: map<Key, Option<Record>>)

  /** What was committed, in commit order. */
  datatype Entry =
    | Transaction(body: Body, output: Output, effects: seq<Effect>, items: seq<Item>)
    | Plain(item: Item)

  /** `history` holds the store before the first commit and after each one. */
  datatype System = System(history: seq<Store>, running: map<nat, Running>, log: seq<Entry>)

  datatype Step =
    | Begin(tid: nat, body: Body)
    | CallNext(tid: nat, from: nat) // a first read of a key sees history[from]
    | Commit(tid: nat)
    | Abandon(tid: nat)             // conflict, error, crash or retry: nothing was applied
    | Write(item: Item)             // a put or delete outside any transaction

  function Current(s: System): Store
    requires s.history != []
  {
    s.history[|s.history| - 1]
  }

  predicate Enabled(s: System, step: Step)
    requires s.history != []
  {
    match step
    case Begin(tid, _) => tid !in s.running
    case CallNext(tid, from) =>
      tid in s.running && from < |s.history| && s.running[tid].body(s.running[tid].replies).Invoke?
    case Commit(tid) =>
      && tid in s.running
      && s.running[tid].body(s.running[tid].replies).Return?
      && AllHold(Current(s), Items(s.running[tid].attempt))
    case Abandon(tid) => tid in s.running
    case Write(item) => Holds(Current(s), item)
  }

  function ReadOf(call: Call, past: Store): Option<Record> {
    if call.EntityCall? then Lookup(past, call.op.key) else None
  }

  function Advance(r: Running, past: Store): Running
    requires r.body(r.replies).Invoke?
  {
    var call := r.body(r.replies).call;
    var read := ReadOf(call, past);
    var (attempt, reply) := Execute(r.attempt, call, read);
    Running(r.body, r.replies + [reply], attempt,
            if call.EntityCall? && call.op.key !in r.attempt.retrieved
            then r.observed[call.op.key := read] else r.observed)
  }

  /** A step that is not enabled leaves the system as it is. */
  function Next(s: System, step: Step): (s': System)
    requires s.history != []
    ensures s'.history != []
  {
    if !Enabled(s, step) then s
    else match step
      case Begin(tid, body) => s.(running := s.running[tid := Running(body, [], EMPTY_ATTEMPT, map[])])
      case CallNext(tid, from) => s.(running := s.running[tid := Advance(s.running[tid], s.history[from])])
      case Abandon(tid) => s.(running := s.running - {tid})
      case Write(item) => s.(history := s.history + [Apply(Current(s), item)], log := s.log + [Plain(item)])
      case Commit(tid) =>
        var r := s.running[tid];
        var items := Items(r.attempt);
        System(s.history + [ApplyAll(Current(s), items)], s.running - {tid},
               s.log + [Transaction(r.body, r.body(r.replies).output, r.attempt.buffered, items)])
  }

  function Run(initial: Store, steps: seq<Step>): (s: System)
    ensures s.history != []
  {
    if steps == [] then System([initial], map[], [])
    else Next(Run(initial, steps[..|steps| - 1]), steps[|steps| - 1])
  }

  // ---------------------------------------------------------------- the serial reference

  /** What a body run alone returns, what it has buffered by then, and the store it leaves. */
  datatype Lone = Lone(output: Output, effects: seq<Effect>, store: Store)

  predicate ReturnsAfter(body: Body, s: Store, n: nat) {
    body(DirectRun(body, s, n).0).Return?
  }

  function LoneAfter(body: Body, s: Store, n: nat): Lone
    requires ReturnsAfter(body, s, n)
  {
    var (replies, p) := DirectRun(body, s, n);
    Lone(body(replies).output, p.buffered, p.work)
  }

  /** The body run alone on `s` until it returns; `None` if it never does. */
  ghost function Alone(body: Body, s: Store): Option<Lone> {
    if exists n: nat :: ReturnsAfter(body, s, n) then
      var n: nat :| ReturnsAfter(body, s, n);
      Some(LoneAfter(body, s, n))
    else None
  }

  lemma {:induction false} ReturnIsFinal(body: Body, s: Store, m: nat, n: nat)
    requires m <= n && ReturnsAfter(body, s, m)
    ensures DirectRun(body, s, n) == DirectRun(body, s, m)
  {
    if m < n {
      ReturnIsFinal(body, s, m, n - 1);
    }
  }

  /** It does not matter when one looks: a body that has returned stays returned. */
  lemma AloneIs(body: Body, s: Store, n: nat)
    requires ReturnsAfter(body, s, n)
    ensures Alone(body, s) == Some(LoneAfter(body, s, n))
  {
    forall m: nat | ReturnsAfter(body, s, m) ensures LoneAfter(body, s, m) == LoneAfter(body, s, n) {
      if m <= n {
        ReturnIsFinal(body, s, m, n);
      } else {
        ReturnIsFinal(body, s, n, m);
      }
    }
  }

  ghost predicate YieldsAlone(body: Body, s: Store, output: Output, effects: seq<Effect>) {
    var lone := Alone(body, s);
    lone.Some? && lone.value.output == output && lone.value.effects == effects
  }

  /**
   The committed entries one at a time, each body run alone on the store the entry before it left.
   `None` if some body would then have returned or buffered something else.
   */
  ghost function Serial(initial: Store, log: seq<Entry>): Option<Store> {
    if log == [] then Some(initial)
    else
      var before := Serial(initial, log[..|log| - 1]);
      if before.None? then None
      else match log[|log| - 1]
        case Plain(item) => if Holds(before.value, item) then Some(Apply(before.value, item)) else None
        case Transaction(body, output, effects, _) =>
          if YieldsAlone(body, before.value, output, effects) then Some(Alone(body, before.value).value.store)
          else None
  }

  // ---------------------------------------------------------------- versions

  /** An old read that still has the current version is the current record. */
  predicate StillCurrent(past: Option<Record>, s: Store, k: Key) {
    RecordVersion(past) == Version(s, k) ==> past == Lookup(s, k)
  }

  ghost predicate Identifies(past: Store, s: Store) {
    forall k :: StillCurrent(Lookup(past, k), s, k)
  }

  /** In this history a version (0 for absent) of a key names one record. */
  ghost predicate VersionsIdentify(h: seq<Store>) {
    forall i, j :: 0 <= i <= j < |h| ==> Identifies(h[i], h[j])
  }

  /** A key is never present, then absent, then present again. */
  ghost predicate NoRecreation(h: seq<Store>) {
    forall i, m, j, k :: 0 <= i < m < j < |h| && k in h[i] && k in h[j] ==> k in h[m]
  }

  function Result(s: Store, e: Entry): Store {
    if e.Plain? then Apply(s, e.item) else ApplyAll(s, e.items)
  }

  ghost predicate EntryIncrements(e: Entry) {
    if e.Plain? then e.item.operation.Put? ==> e.item.operation.increment
    else DistinctKeys(e.items) && AllIncrement(e.items)
  }

  /** `log` leads from each store of the history to the next. */
  ghost predicate Linked(h: seq<Store>, log: seq<Entry>) {
    |h| == |log| + 1 && forall i :: 0 <= i < |log| ==> h[i + 1] == Result(h[i], log[i])
  }

  ghost predicate LogIncrements(log: seq<Entry>) {
    forall i :: 0 <= i < |log| ==> EntryIncrements(log[i])
  }

  /** One commit leaves a key alone, removes it, or puts it with its version raised by exactly one. */
  lemma CommitRaisesByOne(s: Store, e: Entry, k: Key)
    requires EntryIncrements(e)
    ensures var after := Lookup(Result(s, e), k);
            after == Lookup(s, k) || after == None || after.value.version == Version(s, k) + 1
  {
    if e.Transaction? {
      if i :| 0 <= i < |e.items| && e.items[i].key == k {
        ApplyAllAt(s, e.items, i);
      } else {
        ApplyAllElsewhere(s, e.items, k);
      }
    }
  }

  lemma {:induction false} VersionsStayPositive(h: seq<Store>, log: seq<Entry>, i: nat)
    requires Linked(h, log) && LogIncrements(log) && PositiveVersions(h[0]) && i < |h|
    ensures PositiveVersions(h[i])
  {
    if i > 0 {
      VersionsStayPositive(h, log, i - 1);
      forall k | k in h[i] ensures h[i][k].version >= 1 {
        CommitRaisesByOne(h[i - 1], log[i - 1], k);
        assert Lookup(h[i], k) == Some(h[i][k]);
        if k in h[i - 1] { assert h[i - 1][k].version >= 1; }
      }
    }
  }

  lemma {:induction false} VersionsGrow(h: seq<Store>, log: seq<Entry>, i: nat, j: nat, k: Key)
    requires Linked(h, log) && LogIncrements(log) && NoRecreation(h)
    requires i <= j < |h| && k in h[i] && k in h[j]
    ensures h[i][k] == h[j][k] || h[i][k].version < h[j][k].version
  {
    if i < j {
      assert k in h[j - 1];
      VersionsGrow(h, log, i, j - 1, k);
      CommitRaisesByOne(h[j - 1], log[j - 1], k);
      assert Lookup(h[j], k) == Some(h[j][k]) && Lookup(h[j - 1], k) == Some(h[j - 1][k]);
    }
  }

  /** Version identity: where puts increment and keys are not re-created, a version names one record. */
  lemma VersionNamesOneRecord(h: seq<Store>, log: seq<Entry>)
    requires Linked(h, log) && LogIncrements(log) && NoRecreation(h) && PositiveVersions(h[0])
    ensures VersionsIdentify(h)
  {
    forall i, j, k | 0 <= i <= j < |h|
      ensures StillCurrent(Lookup(h[i], k), h[j], k)
    {
      VersionsStayPositive(h, log, i);
      VersionsStayPositive(h, log, j);
      if k in h[i] { assert h[i][k].version >= 1; }
      if k in h[j] { assert h[j][k].version >= 1; }
      if k in h[i] && k in h[j] {
        VersionsGrow(h, log, i, j, k);
      }
    }
  }

  // ---------------------------------------------------------------- the invariant

  ghost predicate AgreesWith(observed: map<Key, Option<Record>>, s: Store) {
    forall k :: k in observed ==> observed[k] == Lookup(s, k)
  }

  /** Alone on a store that agrees with its reads, the body would by now be exactly where it is. */
  ghost predicate SameAlone(r: Running, s: Store) {
    var (replies, p) := DirectRun(r.body, s, |r.replies|);
    replies == r.replies && p.start == s && Mirrors(r.attempt, p)
  }

  ghost predicate FromHistory(past: Option<Record>, h: seq<Store>, k: Key) {
    exists i :: 0 <= i < |h| && past == Lookup(h[i], k)
  }

  ghost predicate ReadRecorded(r: Running, h: seq<Store>, k: Key)
    requires k in r.observed && k in r.attempt.retrieved
  {
    r.attempt.retrieved[k].originalVersion == RecordVersion(r.observed[k]) && FromHistory(r.observed[k], h, k)
  }

  ghost predicate ReadsRecorded(r: Running, h: seq<Store>) {
    r.attempt.retrieved.Keys == r.observed.Keys && forall k :: k in r.observed ==> ReadRecorded(r, h, k)
  }

  ghost predicate RunningOk(r: Running, h: seq<Store>) {
    && WellFormed(r.attempt)
    && ReadsRecorded(r, h)
    && forall s: Store :: AgreesWith(r.observed, s) ==> SameAlone(r, s)
  }

  lemma BeginOk(body: Body, h: seq<Store>)
    ensures RunningOk(Running(body, [], EMPTY_ATTEMPT, map[]), h)
  {
    var r := Running(body, [], EMPTY_ATTEMPT, map[]);
    forall s: Store ensures SameAlone(r, s) {
      forall k ensures KeyRefines(EMPTY_ATTEMPT, Private(s, s, []), k) {}
    }
  }

  lemma AdvanceKeys(r: Running, past: Store)
    requires r.attempt.retrieved.Keys == r.observed.Keys && r.body(r.replies).Invoke?
    ensures Advance(r, past).attempt.retrieved.Keys == Advance(r, past).observed.Keys
  {
    var call := r.body(r.replies).call;
    forall k: Key ensures k in Advance(r, past).attempt.retrieved <==> k in Advance(r, past).observed {
      ExecuteAt(r.attempt, call, ReadOf(call, past), k);
    }
  }

  lemma AdvanceRecord(r: Running, h: seq<Store>, from: nat, k: Key)
    requires ReadsRecorded(r, h) && from < |h| && r.body(r.replies).Invoke?
    requires k in Advance(r, h[from]).observed && k in Advance(r, h[from]).attempt.retrieved
    ensures ReadRecorded(Advance(r, h[from]), h, k)
  {
    var call := r.body(r.replies).call;
    ExecuteAt(r.attempt, call, ReadOf(call, h[from]), k);
    if k in r.observed {
      assert ReadRecorded(r, h, k);
    } else {
      assert FromHistory(Lookup(h[from], k), h, k);
    }
  }

  lemma AdvanceRecords(r: Running, h: seq<Store>, from: nat)
    requires ReadsRecorded(r, h) && from < |h| && r.body(r.replies).Invoke?
    ensures ReadsRecorded(Advance(r, h[from]), h)
  {
    AdvanceKeys(r, h[from]);
    forall k | k in Advance(r, h[from]).observed ensures ReadRecorded(Advance(r, h[from]), h, k) {
      AdvanceRecord(r, h, from, k);
    }
  }

  lemma AdvanceAlone(r: Running, past: Store, s: Store)
    requires r.attempt.retrieved.Keys == r.observed.Keys && r.body(r.replies).Invoke?
    requires AgreesWith(r.observed, s) ==> SameAlone(r, s)
    requires AgreesWith(Advance(r, past).observed, s)
    ensures SameAlone(Advance(r, past), s)
  {
    var call := r.body(r.replies).call;
    var read := ReadOf(call, past);
    var r' := Advance(r, past);
    forall k | k in r.observed ensures r.observed[k] == Lookup(s, k) { assert r'.observed[k] == r.observed[k]; }
    StepMirrors(r.attempt, DirectRun(r.body, s, |r.replies|).1, call, read);
  }

  lemma AdvanceOk(r: Running, h: seq<Store>, from: nat)
    requires RunningOk(r, h) && from < |h| && r.body(r.replies).Invoke?
    ensures RunningOk(Advance(r, h[from]), h)
  {
    var call := r.body(r.replies).call;
    ExecuteWellFormed(r.attempt, call, ReadOf(call, h[from]));
    AdvanceRecords(r, h, from);
    forall s: Store | AgreesWith(Advance(r, h[from]).observed, s) ensures SameAlone(Advance(r, h[from]), s) {
      AdvanceAlone(r, h[from], s);
    }
  }

  /** An item that passes its condition proves, by version, that the read behind it is still current. */
  lemma PassingItemConfirmsRead(r: Running, h: seq<Store>, s: Store, k: Key)
    requires WellFormed(r.attempt) && ReadsRecorded(r, h) && AllHold(s, Items(r.attempt)) && k in r.observed
    requires forall i :: 0 <= i < |h| ==> Identifies(h[i], s)
    ensures r.observed[k] == Lookup(s, k)
  {
    PassingItemsShowVersions(r.attempt, s, k);
    var j :| 0 <= j < |h| && r.observed[k] == Lookup(h[j], k);
    assert Identifies(h[j], s);
    assert StillCurrent(Lookup(h[j], k), s, k);
  }

  ghost predicate AllRunningOk(s: System) {
    forall t :: t in s.running ==> RunningOk(s.running[t], s.history)
  }

  ghost predicate LogDistinct(s: System) {
    forall i :: 0 <= i < |s.log| && s.log[i].Transaction? ==> DistinctKeys(s.log[i].items)
  }

  ghost predicate SerialSoFar(s: System)
    requires s.history != []
  {
    VersionsIdentify(s.history) && LogIncrements(s.log) ==> Serial(s.history[0], s.log) == Some(Current(s))
  }

  ghost predicate Invariant(s: System) {
    Linked(s.history, s.log) && AllRunningOk(s) && LogDistinct(s) && SerialSoFar(s)
  }

  lemma HistoryPrefix(s: System, s': System)
    requires s'.history != [] && s.history == s'.history[..|s'.history| - 1]
    requires s'.log != [] && s.log == s'.log[..|s'.log| - 1]
    requires VersionsIdentify(s'.history) && LogIncrements(s'.log)
    ensures VersionsIdentify(s.history) && LogIncrements(s.log)
    ensures forall i :: 0 <= i < |s.history| ==> Identifies(s.history[i], s'.history[|s.history|])
  {
    forall i, j | 0 <= i <= j < |s.history| ensures Identifies(s.history[i], s.history[j]) {
      assert Identifies(s'.history[i], s'.history[j]);
    }
    forall i | 0 <= i < |s.history| ensures Identifies(s.history[i], s'.history[|s.history|]) {
      assert Identifies(s'.history[i], s'.history[|s.history|]);
    }
    forall i | 0 <= i < |s.log| ensures EntryIncrements(s.log[i]) {
      assert EntryIncrements(s'.log[i]);
    }
  }

  /** The heart of the matter: a commit that passes its checks is the body run alone on the present. */
  lemma CommitIsAtomic(r: Running, h: seq<Store>, s: Store)
    requires RunningOk(r, h) && r.body(r.replies).Return? && AllHold(s, Items(r.attempt))
    requires AllIncrement(Items(r.attempt))
    requires forall i :: 0 <= i < |h| ==> Identifies(h[i], s)
    ensures Alone(r.body, s) ==
            Some(Lone(r.body(r.replies).output, r.attempt.buffered, ApplyAll(s, Items(r.attempt))))
  {
    forall k | k in r.observed ensures r.observed[k] == Lookup(s, k) {
      PassingItemConfirmsRead(r, h, s, k);
    }
    assert SameAlone(r, s);
    ItemsProducePrivateCopyIff(r.attempt, DirectRun(r.body, s, |r.replies|).1);
    AloneIs(r.body, s, |r.replies|);
  }

  lemma SerialAppend(initial: Store, log: seq<Entry>, s: Store, e: Entry)
    requires Serial(initial, log) == Some(s)
    ensures e.Plain? && Holds(s, e.item) ==> Serial(initial, log + [e]) == Some(Apply(s, e.item))
    ensures e.Transaction? && YieldsAlone(e.body, s, e.output, e.effects) ==>
              Serial(initial, log + [e]) == Some(Alone(e.body, s).value.store)
    ensures e.Transaction? && !YieldsAlone(e.body, s, e.output, e.effects) ==> Serial(initial, log + [e]) == None
  {
    assert (log + [e])[..|log|] == log;
  }

  function EntryOf(r: Running): Entry
    requires r.body(r.replies).Return?
  {
    Transaction(r.body, r.body(r.replies).output, r.attempt.buffered, Items(r.attempt))
  }

  lemma CommitAppendsSerial(r: Running, h: seq<Store>, initial: Store, log: seq<Entry>, s: Store)
    requires RunningOk(r, h) && r.body(r.replies).Return? && AllHold(s, Items(r.attempt))
    requires AllIncrement(Items(r.attempt))
    requires forall i :: 0 <= i < |h| ==> Identifies(h[i], s)
    requires Serial(initial, log) == Some(s)
    ensures Serial(initial, log + [EntryOf(r)]) == Some(ApplyAll(s, Items(r.attempt)))
  {
    CommitIsAtomic(r, h, s);
    SerialAppend(initial, log, s, EntryOf(r));
  }

  lemma CommitStaysSerial(s: System, s': System, r: Running)
    requires s.history != [] && SerialSoFar(s) && RunningOk(r, s.history)
    requires r.body(r.replies).Return? && AllHold(Current(s), Items(r.attempt))
    requires s'.history == s.history + [ApplyAll(Current(s), Items(r.attempt))] && s'.log == s.log + [EntryOf(r)]
    ensures SerialSoFar(s')
  {
    assert s'.history[0] == s.history[0];
    if VersionsIdentify(s'.history) && LogIncrements(s'.log) {
      HistoryPrefix(s, s');
      assert EntryIncrements(s'.log[|s.log|]);
      forall i | 0 <= i < |s.history| ensures Identifies(s.history[i], Current(s)) {
        assert Identifies(s.history[i], s.history[|s.history| - 1]);
      }
      CommitAppendsSerial(r, s.history, s.history[0], s.log, Current(s));
    }
  }

  lemma RunningGrows(r: Running, h: seq<Store>, h': seq<Store>)
    requires RunningOk(r, h) && h <= h'
    ensures RunningOk(r, h')
  {
    forall k | k in r.observed ensures FromHistory(r.observed[k], h', k) {
      var i :| 0 <= i < |h| && r.observed[k] == Lookup(h[i], k);
      assert h'[i] == h[i];
    }
  }

  lemma RunningOkGrows(s: System, s': System)
    requires s.history <= s'.history && AllRunningOk(s)
    requires forall t :: t in s'.running ==> t in s.running && s'.running[t] == s.running[t]
    ensures AllRunningOk(s')
  {
    forall t | t in s'.running ensures RunningOk(s'.running[t], s'.history) {
      RunningGrows(s.running[t], s.history, s'.history);
    }
  }

  lemma AppendLinks(s: System, s': System, e: Entry)
    requires s.history != [] && s'.history == s.history + [Result(Current(s), e)] && s'.log == s.log + [e]
    requires Linked(s.history, s.log) && LogDistinct(s) && (e.Transaction? ==> DistinctKeys(e.items))
    ensures Linked(s'.history, s'.log) && LogDistinct(s')
  {
    forall i | 0 <= i < |s'.log| ensures s'.history[i + 1] == Result(s'.history[i], s'.log[i]) {
      if i < |s.log| {
        assert s'.history[i + 1] == s.history[i + 1] && s'.history[i] == s.history[i];
      }
    }
  }

  lemma CommitKeepsInvariant(s: System, tid: nat)
    requires Invariant(s) && Enabled(s, Commit(tid))
    ensures Invariant(Next(s, Commit(tid)))
  {
    var s' := Next(s, Commit(tid));
    RunningOkGrows(s, s');
    CommitStaysSerial(s, s', s.running[tid]);
    DistinctItems(s.running[tid].attempt);
    AppendLinks(s, s', s'.log[|s.log|]);
  }

  lemma WriteStaysSerial(s: System, item: Item)
    requires Invariant(s) && Enabled(s, Write(item))
    requires VersionsIdentify(Next(s, Write(item)).history) && LogIncrements(Next(s, Write(item)).log)
    ensures Serial(s.history[0], Next(s, Write(item)).log) == Some(Current(Next(s, Write(item))))
  {
    HistoryPrefix(s, Next(s, Write(item)));
    SerialAppend(s.history[0], s.log, Current(s), Plain(item));
  }

  lemma WriteKeepsInvariant(s: System, item: Item)
    requires Invariant(s) && Enabled(s, Write(item))
    ensures Invariant(Next(s, Write(item)))
  {
    var s' := Next(s, Write(item));
    RunningOkGrows(s, s');
    assert s'.history[0] == s.history[0];
    assert SerialSoFar(s') by {
      if VersionsIdentify(s'.history) && LogIncrements(s'.log) {
        WriteStaysSerial(s, item);
      }
    }
    AppendLinks(s, s', Plain(item));
  }

  lemma StepKeepsInvariant(s: System, step: Step)
    requires Invariant(s)
    ensures Invariant(Next(s, step))
  {
    if Enabled(s, step) {
      match step
      case Begin(tid, body) => BeginOk(body, s.history);
      case CallNext(tid, from) => AdvanceOk(s.running[tid], s.history, from);
      case Abandon(tid) =>
      case Commit(tid) => CommitKeepsInvariant(s, tid);
      case Write(item) => WriteKeepsInvariant(s, item);
    }
  }

  lemma {:induction false} RunKeepsInvariant(initial: Store, steps: seq<Step>)
    ensures Invariant(Run(initial, steps)) && Run(initial, steps).history[0] == initial
  {
    if steps != [] {
      var earlier := steps[..|steps| - 1];
      RunKeepsInvariant(initial, earlier);
      StepKeepsInvariant(Run(initial, earlier), steps[|steps| - 1]);
    } else {
      assert Linked([initial], []);
    }
  }

  // ---------------------------------------------------------------- the theorems

  ghost predicate PutsIncrement(log: seq<Entry>) {
    forall i :: 0 <= i < |log| ==>
      if log[i].Plain? then log[i].item.operation.Put? ==> log[i].item.operation.increment
      else AllIncrement(log[i].items)
  }

  /**
   Serializability: however transactions and plain writes interleave and however stale the reads
   are, the store, the outputs and the buffered effects are those of the committed entries run one
   at a time, in commit order.
   */
  lemma Serializable(initial: Store, steps: seq<Step>)
    requires PositiveVersions(initial)
    requires NoRecreation(Run(initial, steps).history)
    requires PutsIncrement(Run(initial, steps).log)
    ensures Serial(initial, Run(initial, steps).log) == Some(Current(Run(initial, steps)))
  {
    var s := Run(initial, steps);
    RunKeepsInvariant(initial, steps);
    assert LogIncrements(s.log);
    VersionNamesOneRecord(s.history, s.log);
  }

  // ---------------------------------------------------------------- the exact condition

  ghost predicate SeenIn(seen: Key -> Option<Record>, h: seq<Store>) {
    forall k :: FromHistory(seen(k), h, k)
  }

  /** If the attempt may commit on `s`, it has done what its body does alone on `s`. */
  ghost predicate Faithful(body: Body, seen: Key -> Option<Record>, n: nat, s: Store) {
    var (replies, a) := CachedRun(body, seen, n);
    body(replies).Return? && AllHold(s, Items(a)) ==>
      YieldsAlone(body, s, body(replies).output, a.buffered)
  }

  lemma IdentifiedReadsAgree(h: seq<Store>, s: Store, body: Body, seen: Key -> Option<Record>, n: nat)
    requires forall i :: 0 <= i < |h| ==> Identifies(h[i], s)
    requires SeenIn(seen, h) && AllHold(s, Items(CachedRun(body, seen, n).1))
    ensures Agrees(seen, CachedRun(body, seen, n).1, s)
  {
    var a := CachedRun(body, seen, n).1;
    CachedRunWellFormed(body, seen, n);
    forall k | k in a.retrieved ensures seen(k) == Lookup(s, k) {
      PassingItemsShowVersions(a, s, k);
      CacheHoldsUsedKeys(body, seen, n, k);
      assert FromHistory(seen(k), h, k);
      var i :| 0 <= i < |h| && seen(k) == Lookup(h[i], k);
      assert Identifies(h[i], s);
      assert StillCurrent(Lookup(h[i], k), s, k);
    }
  }

  lemma IdentifiedCommitIsFaithful(h: seq<Store>, s: Store, body: Body, seen: Key -> Option<Record>, n: nat)
    requires forall i :: 0 <= i < |h| ==> Identifies(h[i], s)
    requires SeenIn(seen, h)
    ensures Faithful(body, seen, n, s)
  {
    if AllHold(s, Items(CachedRun(body, seen, n).1)) {
      IdentifiedReadsAgree(h, s, body, seen, n);
      CacheRefinesPrivateCopy(body, seen, s, n);
      if ReturnsAfter(body, s, n) {
        AloneIs(body, s, n);
      }
    }
  }

  /** Reads one key, deletes it if `remove`, and reports whether it read `past`. */
  function Probe(k: Key, past: Option<Record>, remove: bool): Body {
    (replies: seq<Reply>) =>
      if |replies| == 0 then Invoke(EntityCall(GetWithMetadataOp(k)))
      else if |replies| == 1 && remove then Invoke(EntityCall(DeleteOp(k, None)))
      else Return(if replies[0] == FoundWithMetadata(past) then "past" else "present")
  }

  /** Every read comes from the same past store. */
  function Snapshot(past: Store): Key -> Option<Record> {
    (k: Key) => Lookup(past, k)
  }

  lemma ProbeCached(k: Key, past: Store, remove: bool)
    ensures var (replies, a) := CachedRun(Probe(k, Lookup(past, k), remove), Snapshot(past), if remove then 2 else 1);
            && |replies| == (if remove then 2 else 1)
            && replies[0] == FoundWithMetadata(Lookup(past, k))
            && Items(a) == [Item(k, if remove then Delete else Check, Some(Version(past, k)))]
  {
    var body, seen, read := Probe(k, Lookup(past, k), remove), Snapshot(past), Lookup(past, k);
    var get := EntityCall(GetWithMetadataOp(k));
    assert CachedRun(body, seen, 0) == ([], EMPTY_ATTEMPT) && body([]) == Invoke(get);
    var (a1, reply1) := Execute(EMPTY_ATTEMPT, get, read);
    assert [] + [reply1] == [reply1];
    assert CachedRun(body, seen, 1) == ([reply1], a1) && a1.order == [k];
    if remove {
      assert body([reply1]) == Invoke(EntityCall(DeleteOp(k, None)));
      assert CachedRun(body, seen, 2).1.order == [k];
    }
  }

  lemma ProbeDirect(k: Key, past: Option<Record>, remove: bool, s: Store)
    ensures var replies := DirectRun(Probe(k, past, remove), s, if remove then 2 else 1).0;
            |replies| == (if remove then 2 else 1) && replies[0] == FoundWithMetadata(Lookup(s, k))
  {
    var body := Probe(k, past, remove);
    assert DirectRun(body, s, 0).0 == [] && body([]) == Invoke(EntityCall(GetWithMetadataOp(k)));
    var replies := DirectRun(body, s, 1).0;
    assert replies == [FoundWithMetadata(Lookup(s, k))];
    if remove {
      assert body(replies) == Invoke(EntityCall(DeleteOp(k, None)));
    }
  }

  /** A read that is stale but still has the current version slips through the checks. */
  lemma StaleReadSlipsThrough(past: Store, s: Store, k: Key) returns (body: Body, n: nat)
    requires !StillCurrent(Lookup(past, k), s, k)
    ensures !Faithful(body, Snapshot(past), n, s)
  {
    body, n := Probe(k, Lookup(past, k), k in s), if k in s then 2 else 1;
    ProbeCached(k, past, k in s);
    ProbeDirect(k, Lookup(past, k), k in s, s);
    AloneIs(body, s, n);
  }

  /**
   Version checks make every attempt that passes them faithful, whatever its body and however
   stale its reads, if and only if no past record shares its version with a different present one.
   */
  lemma EveryCommitIsFaithfulIff(h: seq<Store>, s: Store)
    ensures (forall body, seen, n :: SeenIn(seen, h) ==> Faithful(body, seen, n, s)) <==>
            (forall i :: 0 <= i < |h| ==> Identifies(h[i], s))
  {
    if forall i :: 0 <= i < |h| ==> Identifies(h[i], s) {
      forall body, seen, n | SeenIn(seen, h) ensures Faithful(body, seen, n, s) {
        IdentifiedCommitIsFaithful(h, s, body, seen, n);
      }
    } else {
      var i :| 0 <= i < |h| && !Identifies(h[i], s);
      var k :| !StillCurrent(Lookup(h[i], k), s, k);
      var body, n := StaleReadSlipsThrough(h[i], s, k);
      forall l ensures FromHistory(Snapshot(h[i])(l), h, l) {}
      assert SeenIn(Snapshot(h[i]), h);
    }
  }

  // ---------------------------------------------------------------- runs that are not serializable

  lemma RunAppend(initial: Store, steps: seq<Step>, step: Step)
    ensures Run(initial, steps + [step]) == Next(Run(initial, steps), step)
  {
    assert (steps + [step])[..|steps|] == steps;
  }

  /** The probe, after reading k at its first store. */
  function Probing(k: Key, initial: Store): Running {
    Advance(Running(Probe(k, Lookup(initial, k), false), [], EMPTY_ATTEMPT, map[]), initial)
  }

  lemma ProbeIsProbing(k: Key, initial: Store)
    ensures var r := Probing(k, initial);
            && r.replies == [FoundWithMetadata(Lookup(initial, k))] && r.body(r.replies) == Return("past")
            && Items(r.attempt) == [Item(k, Check, Some(Version(initial, k)))]
  {
    var body, get := Probe(k, Lookup(initial, k), false), EntityCall(GetWithMetadataOp(k));
    assert body([]) == Invoke(get);
    var (a, reply) := Execute(EMPTY_ATTEMPT, get, Lookup(initial, k));
    assert [] + [reply] == [reply] && a.order == [k];
  }

  function ProbeSteps(k: Key, initial: Store): seq<Step> {
    [Begin(0, Probe(k, Lookup(initial, k), false))] + [CallNext(0, 0)]
  }

  lemma BeginRuns(initial: Store, body: Body)
    ensures Run(initial, [Begin(0, body)]) == System([initial], map[0 := Running(body, [], EMPTY_ATTEMPT, map[])], [])
  {
    RunAppend(initial, [], Begin(0, body));
    assert [] + [Begin(0, body)] == [Begin(0, body)];
  }

  lemma ProbeRuns(k: Key, initial: Store)
    ensures Run(initial, ProbeSteps(k, initial)) == System([initial], map[0 := Probing(k, initial)], [])
  {
    var body := Probe(k, Lookup(initial, k), false);
    BeginRuns(initial, body);
    RunAppend(initial, [Begin(0, body)], CallNext(0, 0));
    assert body([]).Invoke?;
  }

  function WriteSteps(base: seq<Step>, writes: seq<Item>): seq<Step> {
    if writes == [] then base else WriteSteps(base, writes[..|writes| - 1]) + [Write(writes[|writes| - 1])]
  }

  /** A probe reads, then come plain writes, and then the probe commits. */
  function StaleSteps(k: Key, initial: Store, writes: seq<Item>): seq<Step> {
    WriteSteps(ProbeSteps(k, initial), writes) + [Commit(0)]
  }

  function Plains(writes: seq<Item>): seq<Entry> {
    if writes == [] then [] else Plains(writes[..|writes| - 1]) + [Plain(writes[|writes| - 1])]
  }

  function Stores(initial: Store, writes: seq<Item>): seq<Store> {
    if writes == [] then [initial]
    else Stores(initial, writes[..|writes| - 1]) + [ApplyAll(initial, writes)]
  }

  predicate Unconditional(writes: seq<Item>) {
    forall i :: 0 <= i < |writes| ==> writes[i].expectedVersion.None?
  }

  lemma {:induction false} PlainsSerial(initial: Store, writes: seq<Item>)
    requires Unconditional(writes)
    ensures Serial(initial, Plains(writes)) == Some(ApplyAll(initial, writes))
  {
    if writes != [] {
      var n := |writes| - 1;
      PlainsSerial(initial, writes[..n]);
      SerialAppend(initial, Plains(writes[..n]), ApplyAll(initial, writes[..n]), Plain(writes[n]));
    }
  }

  lemma WriteStep(s: System, item: Item)
    requires s.history != [] && item.expectedVersion.None?
    ensures Next(s, Write(item)) == System(s.history + [Apply(Current(s), item)], s.running, s.log + [Plain(item)])
  {
  }

  lemma {:induction false} StoresEnd(initial: Store, writes: seq<Item>)
    ensures Stores(initial, writes) != [] && Stores(initial, writes)[0] == initial
    ensures Stores(initial, writes)[|Stores(initial, writes)| - 1] == ApplyAll(initial, writes)
  {
    if writes != [] {
      StoresEnd(initial, writes[..|writes| - 1]);
    }
  }

  /** Plain writes without conditions only add to history and log. */
  lemma {:induction false} WritesRun(initial: Store, base: seq<Step>, running: map<nat, Running>, writes: seq<Item>)
    requires Unconditional(writes) && Run(initial, base) == System([initial], running, [])
    ensures Run(initial, WriteSteps(base, writes)) == System(Stores(initial, writes), running, Plains(writes))
  {
    if writes != [] {
      var n := |writes| - 1;
      var earlier, s := writes[..n], System(Stores(initial, writes[..n]), running, Plains(writes[..n]));
      StoresEnd(initial, earlier);
      assert Run(initial, WriteSteps(base, earlier)) == s by {
        WritesRun(initial, base, running, earlier);
      }
      assert Run(initial, WriteSteps(base, writes)) == Next(s, Write(writes[n])) by {
        RunAppend(initial, WriteSteps(base, earlier), Write(writes[n]));
      }
      WriteStep(s, writes[n]);
    }
  }

  lemma CommitStep(s: System, tid: nat)
    requires s.history != [] && Enabled(s, Commit(tid))
    ensures var r := s.running[tid];
            Next(s, Commit(tid)) ==
            System(s.history + [ApplyAll(Current(s), Items(r.attempt))], s.running - {tid}, s.log + [EntryOf(r)])
  {
  }

  /** Alone on a store with another record there, the probe returns something else. */
  lemma ProbeAloneDiffers(k: Key, initial: Store, s: Store)
    requires Lookup(initial, k) != Lookup(s, k)
    ensures !YieldsAlone(Probing(k, initial).body, s, "past", Probing(k, initial).attempt.buffered)
  {
    ProbeDirect(k, Lookup(initial, k), false, s);
    AloneIs(Probing(k, initial).body, s, 1);
  }

  lemma CheckChangesNothing(s: Store, item: Item)
    requires item.operation.Check?
    ensures ApplyAll(s, [item]) == s && (AllHold(s, [item]) <==> Holds(s, item))
  {
    assert [item][..0] == [];
    assert AllHold(s, [item]) ==> Holds(s, [item][0]);
  }

  /** A commit of the probe that passes although the record behind its read is no longer there. */
  lemma ProbeCommitsStale(k: Key, initial: Store, s: System)
    requires s.history != [] && s.running == map[0 := Probing(k, initial)]
    requires !StillCurrent(Lookup(initial, k), Current(s), k) && Holds(Current(s), Item(k, Check, Some(Version(initial, k))))
    requires Serial(initial, s.log) == Some(Current(s))
    ensures var s', r := Next(s, Commit(0)), Probing(k, initial);
            && r.body(r.replies).Return? && s'.log == s.log + [EntryOf(r)]
            && EntryOf(r).items == [Item(k, Check, Some(Version(initial, k)))]
            && s'.history == s.history + [Current(s)]
            && Serial(initial, s'.log) == None
  {
    var r := Probing(k, initial);
    ProbeIsProbing(k, initial);
    CheckChangesNothing(Current(s), Item(k, Check, Some(Version(initial, k))));
    assert Enabled(s, Commit(0));
    CommitStep(s, 0);
    ProbeAloneDiffers(k, initial, Current(s));
    SerialAppend(initial, s.log, Current(s), EntryOf(r));
  }

  /** Whenever plain writes leave another record at the version a probe read, the run has no serial equivalent. */
  lemma StaleRunIsNotSerial(k: Key, initial: Store, writes: seq<Item>)
    requires Unconditional(writes)
    requires !StillCurrent(Lookup(initial, k), ApplyAll(initial, writes), k)
    requires Holds(ApplyAll(initial, writes), Item(k, Check, Some(Version(initial, k))))
    ensures var s := Run(initial, StaleSteps(k, initial, writes));
            && Serial(initial, s.log) == None
            && |s.log| == |Plains(writes)| + 1 && Plains(writes) <= s.log
            && s.log[|Plains(writes)|].Transaction?
            && s.log[|Plains(writes)|].items == [Item(k, Check, Some(Version(initial, k)))]
            && s.history == Stores(initial, writes) + [ApplyAll(initial, writes)]
            && !VersionsIdentify(s.history)
  {
    var base := ProbeSteps(k, initial);
    ProbeRuns(k, initial);
    WritesRun(initial, base, map[0 := Probing(k, initial)], writes);
    StoresEnd(initial, writes);
    PlainsSerial(initial, writes);
    RunAppend(initial, WriteSteps(base, writes), Commit(0));
    ProbeCommitsStale(k, initial, Run(initial, WriteSteps(base, writes)));
    NotIdentified(Stores(initial, writes) + [ApplyAll(initial, writes)], k);
  }

  lemma NotIdentified(h: seq<Store>, k: Key)
    requires h != [] && !StillCurrent(Lookup(h[0], k), h[|h| - 1], k)
    ensures !VersionsIdentify(h)
  {
    assert !Identifies(h[0], h[|h| - 1]);
  }

  /** A key deleted and put again, and a key put without raising its version. */
  function Recreating(k: Key, value: Value): seq<Item> {
    [Item(k, Delete, None)] + [Item(k, Put(value, true), None)]
  }

  function Unraising(k: Key, value: Value): seq<Item> {
    [Item(k, Put(value, false), None)]
  }

  lemma AppliedBoth(initial: Store, k: Key, value: Value)
    ensures ApplyAll(initial, Recreating(k, value)) == initial[k := Record(value, 1)]
    ensures Plains(Recreating(k, value)) == [Plain(Item(k, Delete, None)), Plain(Item(k, Put(value, true), None))]
    ensures ApplyAll(initial, Unraising(k, value)) == initial[k := Record(value, Version(initial, k))]
    ensures Stores(initial, Unraising(k, value)) == [initial, initial[k := Record(value, Version(initial, k))]]
  {
    var first, writes := [Item(k, Delete, None)], Recreating(k, value);
    assert writes[..1] == first && first[..0] == [];
    assert Plains(first) == [Plain(first[0])];
    assert ApplyAll(initial, first) == initial - {k};
    var put := Unraising(k, value);
    assert put[..0] == [];
    assert ApplyAll(initial, put) == Apply(ApplyAll(initial, []), put[0]);
  }

  lemma RecreatingIncrements(k: Key, value: Value, log: seq<Entry>, version: nat)
    requires |log| == 3 && log[0] == Plain(Item(k, Delete, None)) && log[1] == Plain(Item(k, Put(value, true), None))
    requires log[2].Transaction? && log[2].items == [Item(k, Check, Some(version))]
    ensures PutsIncrement(log)
  {
  }

  /** Any key at version 1 that is deleted and put again between read and commit breaks serializability. */
  lemma RecreationBreaksSerializability(initial: Store, k: Key, value: Value)
    requires k in initial && initial[k].version == 1 && initial[k].value != value
    ensures var s := Run(initial, StaleSteps(k, initial, Recreating(k, value)));
            PutsIncrement(s.log) && !VersionsIdentify(s.history) && Serial(initial, s.log) == None
  {
    var writes := Recreating(k, value);
    AppliedBoth(initial, k, value);
    StaleRunIsNotSerial(k, initial, writes);
    var log := Run(initial, StaleSteps(k, initial, writes)).log;
    assert log[0] == Plains(writes)[0] && log[1] == Plains(writes)[1];
    RecreatingIncrements(k, value, log, Version(initial, k));
  }

  lemma UnraisingKeepsKeys(initial: Store, k: Key, value: Value, h: seq<Store>)
    requires k in initial
    requires h == Stores(initial, Unraising(k, value)) + [ApplyAll(initial, Unraising(k, value))]
    ensures NoRecreation(h)
  {
    AppliedBoth(initial, k, value);
    assert h[0] == initial && h[1] == h[2] == initial[k := Record(value, Version(initial, k))];
    assert h[1].Keys == initial.Keys;
    SameKeysNeverRecreated(h, initial.Keys);
  }

  /** Any key that is put with its version not raised between read and commit does so too. */
  lemma UnraisedVersionBreaksSerializability(initial: Store, k: Key, value: Value)
    requires PositiveVersions(initial) && k in initial && initial[k].value != value
    ensures var s := Run(initial, StaleSteps(k, initial, Unraising(k, value)));
            NoRecreation(s.history) && !VersionsIdentify(s.history) && Serial(initial, s.log) == None
  {
    AppliedBoth(initial, k, value);
    assert initial[k].version >= 1;
    StaleRunIsNotSerial(k, initial, Unraising(k, value));
    UnraisingKeepsKeys(initial, k, value, Run(initial, StaleSteps(k, initial, Unraising(k, value))).history);
  }

  lemma SameKeysNeverRecreated(h: seq<Store>, keys: set<Key>)
    requires forall i :: 0 <= i < |h| ==> h[i].Keys == keys
    ensures NoRecreation(h)
  {
    forall i, m, j, l | 0 <= i < m < j < |h| && l in h[i] && l in h[j] ensures l in h[m] {
      assert h[m].Keys == keys;
    }
  }
}
