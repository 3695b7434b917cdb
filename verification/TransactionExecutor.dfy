/**
 `createTransactionExecutor`: the mutable attempt, the commit with its deferred calls, and the
 retry loop. What the rest of the world does meanwhile is a parameter: per attempt, what its
 first reads return, the store its commit finds, and whether the service itself fails.
 */
module TransactionExecutor {
  import opened Options
  import opened Keys
  import opened EntityStore
  import opened Transactions
  import opened Serializability

  /** A map indexed by serialized key stands for a map indexed by key. */
  ghost predicate Indexes<T>(strings: map<string, T>, model: map<Key, T>) {
    forall k: Key :: if k in model then Serialize(k) in strings && strings[Serialize(k)] == model[k]
                     else Serialize(k) !in strings
  }

  lemma IndexesUpdate<T>(strings: map<string, T>, model: map<Key, T>, k: Key, value: T)
    requires Indexes(strings, model)
    ensures Indexes(strings[Serialize(k) := value], model[k := value])
  {
    forall l: Key | Serialize(l) == Serialize(k) ensures l == k { EncodingInjective(l, k); }
  }

  /** The maps of `executeTransactionOnce`, indexed by serialized key as in the source. */
  class TransactionAttempt {
    var entityCalls: map<string, EntityOp>
    var eventCalls: seq<Effect>
    var retrievedEntities: map<string, EntityState>
    var retrievedOrder: seq<string> // the insertion order of `retrievedEntities`
    ghost var model: Attempt

    ghost predicate Valid()
      reads this
    {
      && WellFormed(model)
      && eventCalls == model.buffered
      && |retrievedOrder| == |model.order|
      && (forall i :: 0 <= i < |retrievedOrder| ==> retrievedOrder[i] == Serialize(model.order[i]))
      && Indexes(retrievedEntities, model.retrieved)
      && Indexes(entityCalls, model.mutations)
    }

    constructor ()
      ensures Valid() && model == EMPTY_ATTEMPT
    {
      entityCalls, eventCalls := map[], [];
      retrievedEntities, retrievedOrder := map[], [];
      model := EMPTY_ATTEMPT;
    }

    /** `resolveEntity`. */
    method ResolveEntity(k: Key, read: Option<Record>) returns (state: EntityState)
      requires Valid()
      modifies this
      ensures Valid() && model == Resolve(old(model), k, read)
      ensures k in model.retrieved && state == model.retrieved[k]
    {
      var s := Serialize(k);
      ResolveWellFormed(model, k, read);
      if s in retrievedEntities {
        return retrievedEntities[s];
      }
      var value := if read.Some? then Some(read.value.value) else None;
      var version := RecordVersion(read);
      state := EntityState(k, version, version, value);
      IndexesUpdate(retrievedEntities, model.retrieved, k, state);
      retrievedEntities := retrievedEntities[s := state];
      retrievedOrder := retrievedOrder + [s];
      model := Resolve(model, k, read);
    }

    /** Records a mutation and what it makes the key look like from now on. */
    method Mutate(op: EntityOp, state: EntityState)
      requires Valid() && (op.PutOp? || op.DeleteOp?) && op.key in model.retrieved && state.key == op.key
      modifies this
      ensures Valid()
      ensures model == RecordMutation(old(model), op, state)
    {
      var s := Serialize(op.key);
      MutationWellFormed(model, op, state);
      IndexesUpdate(entityCalls, model.mutations, op.key, op);
      IndexesUpdate(retrievedEntities, model.retrieved, op.key, state);
      entityCalls := entityCalls[s := op];
      retrievedEntities := retrievedEntities[s := state];
      model := RecordMutation(model, op, state);
    }

    method ExecuteMutation(op: EntityOp, read: Option<Record>) returns (reply: Reply)
      requires Valid() && (op.PutOp? || op.DeleteOp?)
      modifies this
      ensures Valid() && (model, reply) == Execute(old(model), EntityCall(op), read)
    {
      var state := ResolveEntity(op.key, read);
      if VersionRefused(op.expectedVersion, state.originalVersion) {
        return UnexpectedVersion;
      }
      match op
      case PutOp(k, value, _, _) =>
        var version := state.originalVersion + 1;
        Mutate(op, EntityState(k, state.originalVersion, version, Some(value)));
        reply := Stored(version);
      case DeleteOp(k, _) =>
        Mutate(op, EntityState(k, state.originalVersion, 0, None));
        reply := Done;
    }

    /** The call hook. The class computes what the specification computes, through its string maps. */
    method ExecuteCall(call: Call, read: Option<Record>) returns (reply: Reply)
      requires Valid()
      modifies this
      ensures Valid() && (model, reply) == Execute(old(model), call, read)
    {
      match call
      case Buffered(effect) =>
        eventCalls := eventCalls + [effect];
        model := model.(buffered := model.buffered + [effect]);
        reply := Done;
      case Unsupported =>
        reply := UnsupportedCall;
      case EntityCall(op) =>
        if op.PutOp? || op.DeleteOp? {
          reply := ExecuteMutation(op, read);
        } else {
          var state := ResolveEntity(op.key, read);
          reply := if op.GetOp? then Found(state.currentValue)
                   else FoundWithMetadata(if state.currentValue.Some?
                                          then Some(Record(state.currentValue.value, state.currentVersion)) else None);
        }
    }

    method TransactionItems() returns (items: seq<Item>)
      requires Valid()
      ensures items == Items(model)
    {
      items := [];
      for i := 0 to |retrievedOrder|
        invariant items == Items(model)[..i]
      {
        assert model.order[i] in model.order;
        var s := retrievedOrder[i];
        var state := retrievedEntities[s];
        var expected := Some(state.originalVersion);
        var item :=
          if s !in entityCalls then Item(state.key, Check, expected)
          else match entityCalls[s]
            case PutOp(_, value, _, increment) => Item(state.key, Put(value, increment), expected)
            case _ => Item(state.key, Delete, expected);
        assert item == Items(model)[i];
        items := items + [item];
      }
    }
  }

  // ---------------------------------------------------------------- attempts and retries

  /** What the rest of the world shows one attempt. */
  datatype World = World(seen: Key -> Option<Record>, found: Store, fault: Fault)

  datatype Outcome = Completed(output: Output) | CanRetry | CannotRetry | Threw(error: Error)

  datatype Result = Resolved(output: Output) | Failed(error: Error)

  datatype Event = AttemptStarted | ItemsWritten(items: seq<Item>) | EffectRun(effect: Effect)

  /** How an attempt ends whose body has stopped after n calls. */
  function OutcomeOf(body: Body, w: World, n: nat): Outcome {
    var (replies, a) := CachedRun(body, w.seen, n);
    match body(replies)
    case Throw(error) => Threw(error)
    case Invoke(_) => CannotRetry
    case Return(output) =>
      if Items(a) == [] then Completed(output)
      else match w.fault
        case CancelFault => CanRetry
        case ConflictFault => CanRetry
        case OtherFault => CannotRetry
        case NoFault => if AllHold(w.found, Items(a)) then Completed(output) else CanRetry
  }

  function Effects(effects: seq<Effect>): seq<Event> {
    seq(|effects|, i requires 0 <= i < |effects| => EffectRun(effects[i]))
  }

  /**
   A completed attempt is its body run alone on the store its commit found, provided no version it
   may have read (from the history h) has since come to name another record.
   */
  lemma CompletedAttemptIsAtomic(body: Body, w: World, n: nat, h: seq<Store>)
    requires OutcomeOf(body, w, n).Completed?
    requires SeenIn(w.seen, h) && forall i :: 0 <= i < |h| ==> Identifies(h[i], w.found)
    requires AllIncrement(Items(CachedRun(body, w.seen, n).1))
    ensures var a := CachedRun(body, w.seen, n).1;
            Alone(body, w.found) ==
            Some(Lone(OutcomeOf(body, w, n).output, a.buffered, ApplyAll(w.found, Items(a))))
  {
    var (_, a) := CachedRun(body, w.seen, n);
    CachedRunWellFormed(body, w.seen, n);
    IdentifiedCommitIsFaithful(h, w.found, body, w.seen, n);
    IdentifiedReadsAgree(h, w.found, body, w.seen, n);
    CacheRefinesPrivateCopy(body, w.seen, w.found, n);
    ItemsProducePrivateCopyIff(a, DirectRun(body, w.found, n).1);
    AloneIs(body, w.found, n);
  }

  /** The attempt's body has stopped after n calls, and the attempt ended so. */
  ghost predicate Ends(body: Body, w: World, n: nat, outcome: Outcome) {
    Stops(body, w, n) && outcome == OutcomeOf(body, w, n)
  }

  function ResultOf(last: Outcome): Result {
    match last
    case Completed(output) => Resolved(output)
    case Threw(error) => Failed(error)
    case _ => Failed("Failed after too many retires.")
  }

  /** What a completed attempt adds to the trace: its one write, then each buffered call once. */
  function CommitTrace(trace: seq<Event>, body: Body, w: World, n: nat): seq<Event> {
    var a := CachedRun(body, w.seen, n).1;
    WriteItems(trace, Items(a)) + Effects(a.buffered)
  }

  function WriteItems(trace: seq<Event>, items: seq<Item>): seq<Event> {
    if items == [] then trace else trace + [ItemsWritten(items)]
  }

  /** What a completed attempt adds to the writes applied to the table. */
  function Applied(applied: seq<seq<Item>>, items: seq<Item>): seq<seq<Item>> {
    if items == [] then applied else applied + [items]
  }

  /** A trace with n more attempts that did nothing else. */
  function Start(trace: seq<Event>, n: nat): seq<Event> {
    if n == 0 then trace else Start(trace, n - 1) + [AttemptStarted]
  }

  // ---------------------------------------------------------------- what an execution did

  /** The body's own last action, and the items and buffered calls of the attempt, after n calls. */
  function LastAction(body: Body, w: World, n: nat): Action {
    body(CachedRun(body, w.seen, n).0)
  }

  function ItemsOf(body: Body, w: World, n: nat): seq<Item> {
    Items(CachedRun(body, w.seen, n).1)
  }

  function BufferedOf(body: Body, w: World, n: nat): seq<Effect> {
    CachedRun(body, w.seen, n).1.buffered
  }

  /** With these first reads the body has stopped after n calls. */
  predicate Stops(body: Body, w: World, n: nat) {
    !body(CachedRun(body, w.seen, n).0).Invoke?
  }

  lemma OutcomeSpelledOut(body: Body, w: World, n: nat, outcome: Outcome)
    requires Ends(body, w, n, outcome)
    ensures var action, items := LastAction(body, w, n), ItemsOf(body, w, n);
            var commits := items == [] || (w.fault.NoFault? && AllHold(w.found, items));
            && !action.Invoke?
            && (forall o :: outcome == Completed(o) <==> action == Return(o) && commits)
            && (forall e :: outcome == Threw(e) <==> action == Throw(e))
            && (outcome.CanRetry? <==> action.Return? && !commits && !w.fault.OtherFault?)
            && (outcome.CannotRetry? <==> action.Return? && !commits && w.fault.OtherFault?)
  {
  }

  lemma {:induction false} StartsSpelledOut(trace: seq<Event>, n: nat)
    ensures |Start(trace, n)| == |trace| + n && trace <= Start(trace, n)
    ensures forall i :: |trace| <= i < |trace| + n ==> Start(trace, n)[i] == AttemptStarted
  {
    if n > 0 {
      StartsSpelledOut(trace, n - 1);
    }
  }

  lemma CommitSpelledOut(trace: seq<Event>, body: Body, w: World, n: nat)
    ensures var items, buffered, after := ItemsOf(body, w, n), BufferedOf(body, w, n), CommitTrace(trace, body, w, n);
            var written := if items == [] then |trace| else |trace| + 1;
            && |after| == written + |buffered| && trace <= after
            && (items != [] ==> after[|trace|] == ItemsWritten(items))
            && (forall j :: 0 <= j < |buffered| ==> after[written + j] == EffectRun(buffered[j]))
  {
  }

  class Executor {
    const table: EntityTable
    var trace: seq<Event>

    constructor (table: EntityTable)
      ensures this.table == table && trace == []
    {
      this.table := table;
      trace := [];
    }

    /** Runs the user function to its end against a fresh attempt. */
    method RunBody(body: Body, w: World, ghost bound: nat)
      returns (replies: seq<Reply>, attempt: TransactionAttempt)
      requires Stops(body, w, bound)
      ensures fresh(attempt) && attempt.Valid()
      ensures CachedRun(body, w.seen, |replies|) == (replies, attempt.model) && Stops(body, w, |replies|)
    {
      attempt := new TransactionAttempt();
      replies := [];
      while body(replies).Invoke?
        invariant fresh(attempt) && attempt.Valid() && |replies| <= bound
        invariant CachedRun(body, w.seen, |replies|) == (replies, attempt.model)
        decreases bound - |replies|
      {
        var call := body(replies).call;
        var reply := attempt.ExecuteCall(call, ReadFor(call, w.seen));
        replies := replies + [reply];
      }
    }

    /** Runs every buffered call, in order; a call that fails does not stop the others. */
    method RunEffects(effects: seq<Effect>)
      modifies this`trace
      ensures trace == old(trace) + Effects(effects)
      ensures |trace| == |old(trace)| + |effects|
      ensures forall j :: 0 <= j < |effects| ==> trace[|old(trace)| + j] == EffectRun(effects[j])
    {
      for i := 0 to |effects|
        invariant trace == old(trace) + Effects(effects)[..i]
      {
        trace := trace + [EffectRun(effects[i])];
      }
    }

    /** No items, no request. Otherwise the items meet the store as it then is. */
    method CommitItems(items: seq<Item>, found: Store, fault: Fault) returns (written: bool, canRetry: bool)
      requires DistinctKeys(items)
      modifies this`trace, table
      ensures written <==> items == [] || (fault.NoFault? && AllHold(found, items))
      ensures canRetry <==> !written && !fault.OtherFault?
      ensures trace == if written then WriteItems(old(trace), items) else old(trace)
      ensures table.applied == if written then Applied(old(table.applied), items) else old(table.applied)
      ensures written && items != [] ==> table.records == ApplyAll(found, items)
    {
      if |items| == 0 {
        return true, false;
      }
      table.records := found;
      var r := table.TransactWrite(items, fault);
      if r.Written? {
        trace := trace + [ItemsWritten(items)];
      }
      written, canRetry := r.Written?, r.Cancelled? || r.Conflict?;
    }

    method ExecuteTransactionOnce(body: Body, w: World, ghost bound: nat)
      returns (outcome: Outcome, ghost calls: nat)
      requires Stops(body, w, bound)
      modifies this`trace, table
      ensures Ends(body, w, calls, outcome)
      ensures var started, items := old(trace) + [AttemptStarted], Items(CachedRun(body, w.seen, calls).1);
              if outcome.Completed?
              then && trace == CommitTrace(started, body, w, calls)
                   && table.applied == Applied(old(table.applied), items)
                   && (items != [] ==> table.records == ApplyAll(w.found, items))
              else trace == started && table.applied == old(table.applied)
    {
      trace := trace + [AttemptStarted];
      var replies, attempt := RunBody(body, w, bound);
      calls := |replies|;
      if body(replies).Throw? {
        return Threw(body(replies).error), calls;
      }
      var items := attempt.TransactionItems();
      DistinctItems(attempt.model);
      var written, canRetry := CommitItems(items, w.found, w.fault);
      if !written {
        return if canRetry then CanRetry else CannotRetry, calls;
      }
      RunEffects(attempt.eventCalls);
      return Completed(body(replies).output), calls;
    }

    /** The loop, told by the outcomes of its attempts. */
    method RetryUntilDone(body: Body, retries: nat, worlds: seq<World>, ghost bounds: seq<nat>)
      returns (result: Result, ghost calls: seq<nat>, ghost outcomes: seq<Outcome>)
      requires |worlds| == |bounds| == retries + 1
      requires forall i :: 0 <= i <= retries ==> Stops(body, worlds[i], bounds[i])
      modifies this`trace, table
      ensures 1 <= |calls| == |outcomes| <= retries + 1
      ensures forall i :: 0 <= i < |calls| ==> Ends(body, worlds[i], calls[i], outcomes[i])
      ensures forall i :: 0 <= i < |calls| - 1 ==> outcomes[i].CanRetry?
      ensures var m := |calls| - 1;
              && (outcomes[m].CanRetry? ==> m == retries)
              && result == ResultOf(outcomes[m])
              && (if outcomes[m].Completed?
                  then && trace == CommitTrace(Start(old(trace), m + 1), body, worlds[m], calls[m])
                       && (ItemsOf(body, worlds[m], calls[m]) != [] ==>
                             table.records == ApplyAll(worlds[m].found, ItemsOf(body, worlds[m], calls[m])))
                       && table.applied == Applied(old(table.applied), Items(CachedRun(body, worlds[m].seen, calls[m]).1))
                  else trace == Start(old(trace), m + 1) && table.applied == old(table.applied))
    {
      var remaining := retries;
      calls, outcomes := [], [];
      while true
        invariant |calls| + remaining == retries && |outcomes| == |calls|
        invariant forall i :: 0 <= i < |calls| ==> Ends(body, worlds[i], calls[i], outcomes[i])
        invariant forall i :: 0 <= i < |calls| ==> outcomes[i].CanRetry?
        invariant trace == Start(old(trace), |calls|) && table.applied == old(table.applied)
        decreases remaining
      {
        var outcome, n := ExecuteTransactionOnce(body, worlds[retries - remaining], bounds[retries - remaining]);
        calls, outcomes := calls + [n], outcomes + [outcome];
        if !outcome.CanRetry? || remaining == 0 {
          return ResultOf(outcome), calls, outcomes;
        }
        remaining := remaining - 1;
      }
    }

    /**
     All or nothing across retries. Of the attempts made, at most `retries + 1`, every one but the last
     returned and met a conflict, a cancellation or a failed condition; the last one did so only if no
     retries were left. The result is resolved, with the body's output, exactly if the last attempt
     returned and had nothing to write or could write it. Then its items were written once, and each
     buffered call ran once, in order, after that write. Otherwise nothing was written and none ran.
     */
    method Execute(body: Body, retries: nat, worlds: seq<World>, ghost bounds: seq<nat>)
      returns (result: Result, ghost calls: seq<nat>)
      requires |worlds| == |bounds| == retries + 1
      requires forall i :: 0 <= i <= retries ==> Stops(body, worlds[i], bounds[i])
      modifies this`trace, table
      ensures 1 <= |calls| <= retries + 1
      ensures forall i :: 0 <= i < |calls| ==> !LastAction(body, worlds[i], calls[i]).Invoke?
      ensures forall i :: 0 <= i < |calls| - 1 ==>
                && LastAction(body, worlds[i], calls[i]).Return? && ItemsOf(body, worlds[i], calls[i]) != []
                && !worlds[i].fault.OtherFault?
                && (worlds[i].fault.NoFault? ==> !AllHold(worlds[i].found, ItemsOf(body, worlds[i], calls[i])))
      ensures var m := |calls| - 1;
              var w, action, items := worlds[m], LastAction(body, worlds[m], calls[m]), ItemsOf(body, worlds[m], calls[m]);
              && (forall o :: result == Resolved(o) <==>
                    action == Return(o) && (items == [] || (w.fault.NoFault? && AllHold(w.found, items))))
              && (forall e :: action == Throw(e) ==> result == Failed(e))
              && (action.Return? && result.Failed? ==> result.error == "Failed after too many retires.")
              && (action.Return? && result.Failed? && !w.fault.OtherFault? ==> m == retries)
      ensures var m := |calls| - 1;
              var items, buffered := ItemsOf(body, worlds[m], calls[m]), BufferedOf(body, worlds[m], calls[m]);
              var started := |old(trace)| + m + 1;
              var written := if items == [] then started else started + 1;
              && |trace| == (if result.Resolved? then written + |buffered| else started)
              && old(trace) <= trace
              && (forall i :: |old(trace)| <= i < started ==> trace[i] == AttemptStarted)
              && (result.Resolved? ==>
                    && (items != [] ==> trace[started] == ItemsWritten(items))
                    && (forall j :: 0 <= j < |buffered| ==> trace[written + j] == EffectRun(buffered[j])))
      ensures var items := ItemsOf(body, worlds[|calls| - 1], calls[|calls| - 1]);
              table.applied == if result.Resolved? && items != [] then old(table.applied) + [items]
                               else old(table.applied)
      ensures var m := |calls| - 1;
              result.Resolved? && ItemsOf(body, worlds[m], calls[m]) != [] ==>
                table.records == ApplyAll(worlds[m].found, ItemsOf(body, worlds[m], calls[m]))
    {
      ghost var outcomes;
      result, calls, outcomes := RetryUntilDone(body, retries, worlds, bounds);
      ghost var m := |calls| - 1;
      forall i | 0 <= i < m
        ensures LastAction(body, worlds[i], calls[i]).Return? && ItemsOf(body, worlds[i], calls[i]) != []
        ensures !worlds[i].fault.OtherFault?
        ensures worlds[i].fault.NoFault? ==> !AllHold(worlds[i].found, ItemsOf(body, worlds[i], calls[i]))
      {
        OutcomeSpelledOut(body, worlds[i], calls[i], outcomes[i]);
      }
      OutcomeSpelledOut(body, worlds[m], calls[m], outcomes[m]);
      StartsSpelledOut(old(trace), m + 1);
      if outcomes[m].Completed? {
        CommitSpelledOut(Start(old(trace), m + 1), body, worlds[m], calls[m]);
      }
    }
  }
}
