/**
 One attempt of a transaction (`executeTransactionOnce`): the user function runs against
 a read cache and a write set, which are then turned into conditional items.

 The user function is any deterministic program that awaits each call before the next:
 a map from the replies so far to its next action.
 */
module Transactions {
  import opened Options
  import opened Keys
  import opened EntityStore

  type Output = string
  type Error = string
  /** A buffered call: an emitted event, a signal or a socket message. */
  type Effect = string

  datatype EntityOp =
    | GetOp(key: Key)
    | GetWithMetadataOp(key: Key)
    | PutOp(key: Key, value: Value, expectedVersion: Option<nat>, increment: bool)
    | DeleteOp(key: Key, expectedVersion: Option<nat>)

  datatype Call =
    | EntityCall(op: EntityOp)
    | Buffered(effect: Effect)
    | Unsupported // queries, scans, nested transactions, tasks and so on

  datatype Reply =
    | Found(value: Option<Value>)
    | FoundWithMetadata(entity: Option<Record>)
    | Stored(version: nat)
    | Done
    | UnexpectedVersion // thrown into the body, which may catch it
    | UnsupportedCall   // likewise

  datatype Action = Invoke(call: Call) | Return(output: Output) | Throw(error: Error)

  type Body = seq<Reply> -> Action

  // ---------------------------------------------------------------- the cached attempt

  datatype EntityState = EntityState(
    key: Key, originalVersion: nat, currentVersion: nat, currentValue: Option<Value>)

  /** `order` is the insertion order of the `retrieved` map, which fixes the order of the items. */
  datatype Attempt = Attempt(
    order: seq<Key>, retrieved: map<Key, EntityState>, mutations: map<Key, EntityOp>, buffered: seq<Effect>)

  const EMPTY_ATTEMPT := Attempt([], map[], map[], [])

  /** `resolveEntity`: only the first use of a key reads the store. */
  function Resolve(a: Attempt, k: Key, read: Option<Record>): Attempt {
    if k in a.retrieved then a
    else
      var value := if read.Some? then Some(read.value.value) else None;
      var v := RecordVersion(read);
      a.(order := a.order + [k], retrieved := a.retrieved[k := EntityState(k, v, v, value)])
  }

  predicate VersionRefused(expected: Option<nat>, original: nat) {
    expected.Some? && expected.value != 0 && expected.value != original
  }

  function RecordMutation(a: Attempt, op: EntityOp, state: EntityState): Attempt {
    a.(mutations := a.mutations[op.key := op], retrieved := a.retrieved[op.key := state])
  }

  /** One call against the cache; `read` is what the store would answer for the key. */
  function Execute(a: Attempt, call: Call, read: Option<Record>): (Attempt, Reply) {
    match call
    case Buffered(effect) => (a.(buffered := a.buffered + [effect]), Done)
    case Unsupported => (a, UnsupportedCall)
    case EntityCall(op) =>
      var k := op.key;
      var b := Resolve(a, k, read);
      var state := b.retrieved[k];
      match op
      case GetOp(_) => (b, Found(state.currentValue))
      case GetWithMetadataOp(_) =>
        (b, FoundWithMetadata(if state.currentValue.Some?
                              then Some(Record(state.currentValue.value, state.currentVersion)) else None))
      case PutOp(_, value, expected, _) =>
        if VersionRefused(expected, state.originalVersion) then (b, UnexpectedVersion)
        else
          var v := state.originalVersion + 1;
          (RecordMutation(b, op, EntityState(k, state.originalVersion, v, Some(value))), Stored(v))
      case DeleteOp(_, expected) =>
        if VersionRefused(expected, state.originalVersion) then (b, UnexpectedVersion)
        else (RecordMutation(b, op, EntityState(k, state.originalVersion, 0, None)), Done)
  }

  /** The first n calls of the body, each first read of a key answered by `seen`. */
  function CachedRun(body: Body, seen: Key -> Option<Record>, n: nat): (seq<Reply>, Attempt) {
    if n == 0 then ([], EMPTY_ATTEMPT)
    else
      var (replies, a) := CachedRun(body, seen, n - 1);
      match body(replies)
      case Invoke(call) =>
        var (b, reply) := Execute(a, call, ReadFor(call, seen));
        (replies + [reply], b)
      case _ => (replies, a)
  }

  function ReadFor(call: Call, seen: Key -> Option<Record>): Option<Record> {
    if call.EntityCall? then seen(call.op.key) else None
  }

  /** The keys, each listed once. */
  ghost predicate Lists(order: seq<Key>, keys: set<Key>) {
    && (forall i, j :: 0 <= i < j < |order| ==> order[i] != order[j])
    && (forall k :: k in order <==> k in keys)
  }

  ghost predicate WellFormed(a: Attempt) {
    && Lists(a.order, a.retrieved.Keys)
    && (forall k :: k in a.retrieved ==> a.retrieved[k].key == k)
    && (forall k :: k in a.mutations ==>
          k in a.retrieved && a.mutations[k].key == k && (a.mutations[k].PutOp? || a.mutations[k].DeleteOp?))
  }

  lemma ListsOneMore(order: seq<Key>, keys: set<Key>, k: Key)
    requires Lists(order, keys) && k !in keys
    ensures Lists(order + [k], keys + {k})
  {
    forall i, j | 0 <= i < j < |order + [k]| ensures (order + [k])[i] != (order + [k])[j] {
      assert order[i] in order;
    }
  }

  lemma ResolveWellFormed(a: Attempt, k: Key, read: Option<Record>)
    requires WellFormed(a)
    ensures WellFormed(Resolve(a, k, read)) && k in Resolve(a, k, read).retrieved
  {
    if k !in a.retrieved {
      ListsOneMore(a.order, a.retrieved.Keys, k);
      assert Resolve(a, k, read).retrieved.Keys == a.retrieved.Keys + {k};
    }
  }

  lemma MutationWellFormed(a: Attempt, op: EntityOp, state: EntityState)
    requires WellFormed(a) && op.key in a.retrieved && state.key == op.key && (op.PutOp? || op.DeleteOp?)
    ensures WellFormed(RecordMutation(a, op, state))
  {
    assert RecordMutation(a, op, state).retrieved.Keys == a.retrieved.Keys;
  }

  lemma ExecuteWellFormed(a: Attempt, call: Call, read: Option<Record>)
    requires WellFormed(a)
    ensures WellFormed(Execute(a, call, read).0)
  {
    var c := Execute(a, call, read).0;
    if call.EntityCall? {
      var op, b := call.op, Resolve(a, call.op.key, read);
      ResolveWellFormed(a, op.key, read);
      if c != b {
        var state := c.retrieved[op.key];
        assert c == RecordMutation(b, op, state);
        MutationWellFormed(b, op, state);
      }
    }
  }

  /** The mutation of a key, or a bare check, conditioned on the version the key was first read at. */
  function ItemFor(a: Attempt, k: Key): Item {
    var expected := if k in a.retrieved then Some(a.retrieved[k].originalVersion) else None;
    if k !in a.mutations then Item(k, Check, expected)
    else match a.mutations[k]
      case PutOp(_, value, _, increment) => Item(k, Put(value, increment), expected)
      case _ => Item(k, Delete, expected)
  }

  /** One conditional item per retrieved key, in insertion order. */
  function Items(a: Attempt): (items: seq<Item>)
    ensures |items| == |a.order|
    ensures forall i :: 0 <= i < |items| ==> items[i] == ItemFor(a, a.order[i])
  {
    seq(|a.order|, i requires 0 <= i < |a.order| => ItemFor(a, a.order[i]))
  }

  // ---------------------------------------------------------------- the reference run

  /** The body alone on a private copy of the store: what it started from and what it has made of it. */
  datatype Private = Private(start: Store, work: Store, buffered: seq<Effect>)

  /**
   One call made directly on the private copy. A whole transaction raises the version of a key
   it puts by one, however often it puts it; an expected version is against the start.
   */
  function Direct(p: Private, call: Call): (Private, Reply) {
    match call
    case Buffered(effect) => (p.(buffered := p.buffered + [effect]), Done)
    case Unsupported => (p, UnsupportedCall)
    case EntityCall(GetOp(k)) =>
      (p, Found(if k in p.work then Some(p.work[k].value) else None))
    case EntityCall(GetWithMetadataOp(k)) => (p, FoundWithMetadata(Lookup(p.work, k)))
    case EntityCall(PutOp(k, value, expected, _)) =>
      if VersionRefused(expected, Version(p.start, k)) then (p, UnexpectedVersion)
      else
        var v := Version(p.start, k) + 1;
        (p.(work := p.work[k := Record(value, v)]), Stored(v))
    case EntityCall(DeleteOp(k, expected)) =>
      if VersionRefused(expected, Version(p.start, k)) then (p, UnexpectedVersion)
      else (p.(work := p.work - {k}), Done)
  }

  function DirectRun(body: Body, s: Store, n: nat): (seq<Reply>, Private) {
    if n == 0 then ([], Private(s, s, []))
    else
      var (replies, p) := DirectRun(body, s, n - 1);
      match body(replies)
      case Invoke(call) =>
        var (q, reply) := Direct(p, call);
        (replies + [reply], q)
      case _ => (replies, p)
  }

  // ---------------------------------------------------------------- cache refinement

  /** What one key looks like in the cache, given what it was and is in the private copy. */
  predicate KeyRefines(a: Attempt, p: Private, k: Key) {
    if k !in a.retrieved then
      k !in a.mutations && Lookup(p.work, k) == Lookup(p.start, k)
    else
      && a.retrieved[k].originalVersion == Version(p.start, k)
      && a.retrieved[k].currentVersion == Version(p.work, k)
      && a.retrieved[k].currentValue == (if k in p.work then Some(p.work[k].value) else None)
      && (if k !in a.mutations then Lookup(p.work, k) == Lookup(p.start, k)
          else if a.mutations[k].PutOp? then
            Lookup(p.work, k) == Some(Record(a.mutations[k].value, Version(p.start, k) + 1))
          else k !in p.work)
  }

  ghost predicate Mirrors(a: Attempt, p: Private) {
    a.buffered == p.buffered && forall k :: KeyRefines(a, p, k)
  }

  ghost predicate Refines(a: Attempt, p: Private) {
    WellFormed(a) && Mirrors(a, p)
  }

  lemma ResolveMirrors(a: Attempt, p: Private, k: Key, read: Option<Record>)
    requires Mirrors(a, p)
    requires k !in a.retrieved ==> read == Lookup(p.start, k)
    ensures Mirrors(Resolve(a, k, read), p)
  {
    assert KeyRefines(a, p, k);
    forall l ensures KeyRefines(Resolve(a, k, read), p, l) { assert KeyRefines(a, p, l); }
  }

  lemma PutMirrors(a: Attempt, p: Private, op: EntityOp)
    requires Mirrors(a, p) && op.PutOp? && op.key in a.retrieved
    ensures var original := a.retrieved[op.key].originalVersion;
            Mirrors(RecordMutation(a, op, EntityState(op.key, original, original + 1, Some(op.value))),
                    p.(work := p.work[op.key := Record(op.value, original + 1)]))
  {
    assert KeyRefines(a, p, op.key);
    var original := a.retrieved[op.key].originalVersion;
    var a' := RecordMutation(a, op, EntityState(op.key, original, original + 1, Some(op.value)));
    var p' := p.(work := p.work[op.key := Record(op.value, original + 1)]);
    forall k ensures KeyRefines(a', p', k) { assert KeyRefines(a, p, k); }
  }

  lemma DeleteMirrors(a: Attempt, p: Private, op: EntityOp)
    requires Mirrors(a, p) && op.DeleteOp? && op.key in a.retrieved
    ensures var original := a.retrieved[op.key].originalVersion;
            Mirrors(RecordMutation(a, op, EntityState(op.key, original, 0, None)), p.(work := p.work - {op.key}))
  {
    assert KeyRefines(a, p, op.key);
    var a' := RecordMutation(a, op, EntityState(op.key, a.retrieved[op.key].originalVersion, 0, None));
    var p' := p.(work := p.work - {op.key});
    forall k ensures KeyRefines(a', p', k) { assert KeyRefines(a, p, k); }
  }

  lemma BufferMirrors(a: Attempt, p: Private, buffered: seq<Effect>)
    requires Mirrors(a, p)
    ensures Mirrors(a.(buffered := buffered), p.(buffered := buffered))
  {
    forall k ensures KeyRefines(a.(buffered := buffered), p.(buffered := buffered), k) { assert KeyRefines(a, p, k); }
  }

  /** The simulation step: same reply, and the cache still mirrors the private copy. */
  lemma StepMirrors(a: Attempt, p: Private, call: Call, read: Option<Record>)
    requires Mirrors(a, p)
    requires call.EntityCall? && call.op.key !in a.retrieved ==> read == Lookup(p.start, call.op.key)
    ensures Execute(a, call, read).1 == Direct(p, call).1
    ensures Mirrors(Execute(a, call, read).0, Direct(p, call).0)
  {
    if call.EntityCall? {
      var b := Resolve(a, call.op.key, read);
      ResolveMirrors(a, p, call.op.key, read);
      assert KeyRefines(b, p, call.op.key);
      if call.op.PutOp? {
        PutMirrors(b, p, call.op);
      } else if call.op.DeleteOp? {
        DeleteMirrors(b, p, call.op);
      }
    } else if call.Buffered? {
      BufferMirrors(a, p, a.buffered + [call.effect]);
    }
  }

  ghost predicate Agrees(seen: Key -> Option<Record>, a: Attempt, s: Store) {
    forall k :: k in a.retrieved ==> seen(k) == Lookup(s, k)
  }

  lemma CachedRunGrows(body: Body, seen: Key -> Option<Record>, n: nat)
    requires n > 0
    ensures CachedRun(body, seen, n - 1).1.retrieved.Keys <= CachedRun(body, seen, n).1.retrieved.Keys
  {
  }

  /**
   Cache refinement: if the store answered every first read with its content in `s`, the cached
   attempt hands the body the same replies as a run on a private copy of `s`, and mirrors it.
   */
  lemma {:induction false} CacheRefinesPrivateCopy(body: Body, seen: Key -> Option<Record>, s: Store, n: nat)
    requires Agrees(seen, CachedRun(body, seen, n).1, s)
    ensures CachedRun(body, seen, n).0 == DirectRun(body, s, n).0
    ensures Refines(CachedRun(body, seen, n).1, DirectRun(body, s, n).1)
    ensures DirectRun(body, s, n).1.start == s
  {
    if n > 0 {
      CachedRunGrows(body, seen, n);
      CacheRefinesPrivateCopy(body, seen, s, n - 1);
      var (replies, a) := CachedRun(body, seen, n - 1);
      var (_, p) := DirectRun(body, s, n - 1);
      if body(replies).Invoke? {
        var call := body(replies).call;
        if call.EntityCall? {
          assert call.op.key in Execute(a, call, ReadFor(call, seen)).0.retrieved;
        }
        ExecuteWellFormed(a, call, ReadFor(call, seen));
        StepMirrors(a, p, call, ReadFor(call, seen));
      }
    }
  }

  ghost predicate AllIncrement(items: seq<Item>) {
    forall i :: 0 <= i < |items| && items[i].operation.Put? ==> items[i].operation.increment
  }

  predicate RaisesVersion(a: Attempt, k: Key) {
    k in a.mutations && a.mutations[k].PutOp? ==> a.mutations[k].increment
  }

  lemma AllIncrementIff(a: Attempt)
    requires WellFormed(a)
    ensures AllIncrement(Items(a)) <==> forall k :: RaisesVersion(a, k)
  {
    var items := Items(a);
    if AllIncrement(items) {
      forall k ensures RaisesVersion(a, k) {
        if k in a.mutations {
          var i := ItemOf(a, k);
        }
      }
    } else {
      var i :| 0 <= i < |items| && items[i].operation.Put? && !items[i].operation.increment;
      assert !RaisesVersion(a, a.order[i]);
    }
  }

  lemma DistinctItems(a: Attempt)
    requires WellFormed(a)
    ensures DistinctKeys(Items(a))
  {
    assert forall i :: 0 <= i < |a.order| ==> Items(a)[i].key == a.order[i];
  }

  lemma ItemOf(a: Attempt, k: Key) returns (i: nat)
    requires WellFormed(a) && k in a.retrieved
    ensures i < |a.order| && a.order[i] == k && Items(a)[i] == ItemFor(a, k)
  {
    assert k in a.order;
    i :| 0 <= i < |a.order| && a.order[i] == k;
  }

  /** What committing the items makes of one key. */
  lemma ItemsAt(a: Attempt, s: Store, k: Key)
    requires WellFormed(a)
    ensures Lookup(ApplyAll(s, Items(a)), k) ==
            if k in a.retrieved then Lookup(Apply(s, ItemFor(a, k)), k) else Lookup(s, k)
  {
    var items := Items(a);
    DistinctItems(a);
    if k in a.retrieved {
      var i := ItemOf(a, k);
      ApplyAllAt(s, items, i);
    } else {
      forall i | 0 <= i < |items| ensures items[i].key != k { assert a.order[i] in a.order; }
      ApplyAllElsewhere(s, items, k);
    }
  }

  /** Items that pass their conditions show every retrieved key still at its first-read version. */
  lemma PassingItemsShowVersions(a: Attempt, s: Store, k: Key)
    requires WellFormed(a) && AllHold(s, Items(a)) && k in a.retrieved
    ensures Version(s, k) == a.retrieved[k].originalVersion
  {
    var i := ItemOf(a, k);
    assert Holds(s, Items(a)[i]);
  }

  lemma ItemProducesKeyIff(a: Attempt, p: Private, k: Key)
    requires WellFormed(a) && KeyRefines(a, p, k) && k in a.retrieved
    ensures Lookup(Apply(p.start, ItemFor(a, k)), k) == Lookup(p.work, k) <==> RaisesVersion(a, k)
  {
  }

  lemma KeyProducedIff(a: Attempt, p: Private, k: Key)
    requires Refines(a, p)
    ensures Lookup(ApplyAll(p.start, Items(a)), k) == Lookup(p.work, k) <==> RaisesVersion(a, k)
  {
    ItemsAt(a, p.start, k);
    assert KeyRefines(a, p, k);
    if k in a.retrieved {
      ItemProducesKeyIff(a, p, k);
    }
  }

  /**
   Committing the items on the store the attempt ran on turns that store into the private copy,
   if and only if every surviving put raises its version.
   */
  lemma ItemsProducePrivateCopyIff(a: Attempt, p: Private)
    requires Refines(a, p)
    ensures ApplyAll(p.start, Items(a)) == p.work <==> AllIncrement(Items(a))
  {
    AllIncrementIff(a);
    var after := ApplyAll(p.start, Items(a));
    forall k ensures Lookup(after, k) == Lookup(p.work, k) <==> RaisesVersion(a, k) {
      KeyProducedIff(a, p, k);
    }
    if forall k :: RaisesVersion(a, k) {
      forall k ensures Lookup(after, k) == Lookup(p.work, k) { assert RaisesVersion(a, k); }
      SameLookups(after, p.work);
    }
  }

  lemma SameLookups(s: Store, t: Store)
    requires forall k :: Lookup(s, k) == Lookup(t, k)
    ensures s == t
  {
    forall k ensures k in s <==> k in t { assert Lookup(s, k) == Lookup(t, k); }
    forall k | k in s ensures s[k] == t[k] { assert Lookup(s, k) == Lookup(t, k); }
  }

  // ---------------------------------------------------------------- what the items carry

  /** The call that got reply number i. */
  function CallAt(body: Body, replies: seq<Reply>, i: nat): Option<Call>
    requires i < |replies|
  {
    match body(replies[..i])
    case Invoke(call) => Some(call)
    case _ => None
  }

  predicate Uses(body: Body, replies: seq<Reply>, i: nat, k: Key)
    requires i < |replies|
  {
    var call := CallAt(body, replies, i);
    call.Some? && call.value.EntityCall? && call.value.op.key == k
  }

  /** The last put or delete of a key that was not refused. */
  function LastMutation(body: Body, replies: seq<Reply>, k: Key): Option<EntityOp> {
    if replies == [] then None
    else
      var i := |replies| - 1;
      if Uses(body, replies, i, k) && replies[i] != UnexpectedVersion
         && (CallAt(body, replies, i).value.op.PutOp? || CallAt(body, replies, i).value.op.DeleteOp?)
      then Some(CallAt(body, replies, i).value.op)
      else LastMutation(body, replies[..i], k)
  }

  lemma UsesPrefix(body: Body, replies: seq<Reply>, reply: Reply, k: Key)
    ensures forall i :: 0 <= i < |replies| ==>
              Uses(body, replies + [reply], i, k) == Uses(body, replies, i, k)
  {
    forall i | 0 <= i < |replies|
      ensures Uses(body, replies + [reply], i, k) == Uses(body, replies, i, k)
    {
      assert (replies + [reply])[..i] == replies[..i];
    }
  }

  predicate Mutates(call: Call, reply: Reply, k: Key) {
    call.EntityCall? && (call.op.PutOp? || call.op.DeleteOp?) && call.op.key == k && reply != UnexpectedVersion
  }

  /** What one call changes about one key of the cache. */
  lemma ExecuteAt(a: Attempt, call: Call, read: Option<Record>, k: Key)
    ensures var (b, reply) := Execute(a, call, read);
            && (k in b.retrieved <==> k in a.retrieved || (call.EntityCall? && call.op.key == k))
            && (k in a.retrieved ==> b.retrieved[k].originalVersion == a.retrieved[k].originalVersion)
            && (k in b.retrieved && k !in a.retrieved ==> b.retrieved[k].originalVersion == RecordVersion(read))
            && (if Mutates(call, reply, k) then k in b.mutations && b.mutations[k] == call.op
                else (k in b.mutations <==> k in a.mutations) && (k in a.mutations ==> b.mutations[k] == a.mutations[k]))
  {
  }

  lemma {:induction false} CachedRunWellFormed(body: Body, seen: Key -> Option<Record>, n: nat)
    ensures WellFormed(CachedRun(body, seen, n).1)
  {
    if n > 0 {
      CachedRunWellFormed(body, seen, n - 1);
      var (replies, a) := CachedRun(body, seen, n - 1);
      if body(replies).Invoke? {
        ExecuteWellFormed(a, body(replies).call, ReadFor(body(replies).call, seen));
      }
    }
  }

  ghost predicate UsesKey(body: Body, replies: seq<Reply>, k: Key) {
    exists i :: 0 <= i < |replies| && Uses(body, replies, i, k)
  }

  /** The cache holds exactly the keys the body used, each with the version of its first read. */
  lemma {:induction false} CacheHoldsUsedKeys(body: Body, seen: Key -> Option<Record>, n: nat, k: Key)
    ensures var (replies, a) := CachedRun(body, seen, n);
            && (k in a.retrieved <==> UsesKey(body, replies, k))
            && (k in a.retrieved ==> a.retrieved[k].originalVersion == RecordVersion(seen(k)))
  {
    if n > 0 {
      CacheHoldsUsedKeys(body, seen, n - 1, k);
      var (replies, a) := CachedRun(body, seen, n - 1);
      if body(replies).Invoke? {
        var call := body(replies).call;
        var reply := Execute(a, call, ReadFor(call, seen)).1;
        ExecuteAt(a, call, ReadFor(call, seen), k);
        UsesPrefix(body, replies, reply, k);
        var replies' := replies + [reply];
        assert replies'[..|replies|] == replies;
        assert Uses(body, replies', |replies|, k) <==> call.EntityCall? && call.op.key == k;
      }
    }
  }

  lemma {:induction false} CacheHoldsLastMutation(body: Body, seen: Key -> Option<Record>, n: nat, k: Key)
    ensures var (replies, a) := CachedRun(body, seen, n);
            LastMutation(body, replies, k) == (if k in a.mutations then Some(a.mutations[k]) else None)
  {
    if n > 0 {
      CacheHoldsLastMutation(body, seen, n - 1, k);
      var (replies, a) := CachedRun(body, seen, n - 1);
      if body(replies).Invoke? {
        var call := body(replies).call;
        var reply := Execute(a, call, ReadFor(call, seen)).1;
        ExecuteAt(a, call, ReadFor(call, seen), k);
        assert (replies + [reply])[..|replies|] == replies;
      }
    }
  }

  /** The operation an item carries for what was last done to its key. */
  function OperationOf(mutation: Option<EntityOp>): Operation {
    match mutation
    case Some(PutOp(_, value, _, increment)) => Put(value, increment)
    case Some(DeleteOp(_, _)) => Delete
    case _ => Check
  }

  predicate HasItem(items: seq<Item>, k: Key) {
    exists i :: 0 <= i < |items| && items[i].key == k
  }

  /**
   The items are one per distinct key the body used; each is conditioned on the version of the key's
   first read and carries its last mutation that was not refused, or a bare check.
   */
  lemma ItemsCarryLastMutations(body: Body, seen: Key -> Option<Record>, n: nat)
    ensures var (replies, a) := CachedRun(body, seen, n);
            && DistinctKeys(Items(a))
            && (forall k: Key :: UsesKey(body, replies, k) <==> HasItem(Items(a), k))
            && (forall j :: 0 <= j < |Items(a)| ==>
                  var k := Items(a)[j].key;
                  Items(a)[j] == Item(k, OperationOf(LastMutation(body, replies, k)), Some(RecordVersion(seen(k)))))
  {
    var (replies, a) := CachedRun(body, seen, n);
    CachedRunWellFormed(body, seen, n);
    DistinctItems(a);
    forall k: Key ensures UsesKey(body, replies, k) <==> HasItem(Items(a), k) {
      CacheHoldsUsedKeys(body, seen, n, k);
      if k in a.retrieved {
        var i := ItemOf(a, k);
        assert Items(a)[i].key == k;
      }
      if j :| 0 <= j < |Items(a)| && Items(a)[j].key == k {
        assert a.order[j] in a.order;
      }
    }
    forall j | 0 <= j < |Items(a)|
      ensures var k := Items(a)[j].key;
              Items(a)[j] == Item(k, OperationOf(LastMutation(body, replies, k)), Some(RecordVersion(seen(k))))
    {
      assert a.order[j] in a.order;
      CacheHoldsUsedKeys(body, seen, n, a.order[j]);
      CacheHoldsLastMutation(body, seen, n, a.order[j]);
    }
  }

  /** Reply i told the body the version of a put of k. */
  predicate ReportsPut(body: Body, replies: seq<Reply>, i: nat, k: Key) {
    i < |replies| && Uses(body, replies, i, k) && replies[i].Stored?
  }

  lemma {:induction false} StoredReply(body: Body, seen: Key -> Option<Record>, n: nat, i: nat, k: Key)
    requires ReportsPut(body, CachedRun(body, seen, n).0, i, k)
    ensures CachedRun(body, seen, n).0[i] == Stored(RecordVersion(seen(k)) + 1)
  {
    var (replies, a) := CachedRun(body, seen, n - 1);
    if body(replies).Invoke? {
      var call := body(replies).call;
      var reply := Execute(a, call, ReadFor(call, seen)).1;
      UsesPrefix(body, replies, reply, k);
      assert (replies + [reply])[..|replies|] == replies;
      if i < |replies| {
        StoredReply(body, seen, n - 1, i, k);
      } else {
        CacheHoldsUsedKeys(body, seen, n - 1, k);
      }
    } else {
      StoredReply(body, seen, n - 1, i, k);
    }
  }

  predicate SurvivingPut(a: Attempt, k: Key) {
    k in a.mutations && a.mutations[k].PutOp?
  }

  /**
   Whenever the items commit, on whatever store, a version reported to the body for a put of a
   key whose last mutation is a put is the version then stored, if and only if that last put
   raises the version.
   */
  lemma ReportedVersionIsStoredIff(body: Body, seen: Key -> Option<Record>, n: nat, i: nat, k: Key, s: Store)
    ensures var (replies, a) := CachedRun(body, seen, n);
            ReportsPut(body, replies, i, k) && SurvivingPut(a, k) && AllHold(s, Items(a)) ==>
              && k in ApplyAll(s, Items(a))
              && (ApplyAll(s, Items(a))[k].version == replies[i].version <==> a.mutations[k].increment)
  {
    var (replies, a) := CachedRun(body, seen, n);
    if ReportsPut(body, replies, i, k) && SurvivingPut(a, k) && AllHold(s, Items(a)) {
      CachedRunWellFormed(body, seen, n);
      StoredReply(body, seen, n, i, k);
      CacheHoldsUsedKeys(body, seen, n, k);
      ItemsAt(a, s, k);
      PassingItemsShowVersions(a, s, k);
    }
  }

  // ---------------------------------------------------------------- refused mutations

  predicate IsMutation(call: Option<Call>, k: Key) {
    call.Some? && call.value.EntityCall? && call.value.op.key == k && (call.value.op.PutOp? || call.value.op.DeleteOp?)
  }

  lemma {:induction false} ReplyOfStep(body: Body, seen: Key -> Option<Record>, n: nat, i: nat)
    requires i < |CachedRun(body, seen, n).0|
    ensures i < n && |CachedRun(body, seen, i).0| == i && body(CachedRun(body, seen, i).0).Invoke?
    ensures var (replies, a) := CachedRun(body, seen, i);
            var call := body(replies).call;
            && CachedRun(body, seen, n).0[..i] == replies
            && CachedRun(body, seen, n).0[i] == Execute(a, call, ReadFor(call, seen)).1
  {
    var (replies, a) := CachedRun(body, seen, n - 1);
    RepliesGrow(body, seen, n - 1);
    if i < |replies| {
      ReplyOfStep(body, seen, n - 1, i);
      assert CachedRun(body, seen, n).0[..i] == replies[..i];
    }
  }

  /** A body that goes on has had a reply to each of its calls. */
  lemma {:induction false} RepliesGrow(body: Body, seen: Key -> Option<Record>, n: nat)
    ensures |CachedRun(body, seen, n).0| <= n
    ensures body(CachedRun(body, seen, n).0).Invoke? ==> |CachedRun(body, seen, n).0| == n
  {
    if n > 0 {
      RepliesGrow(body, seen, n - 1);
    }
  }

  /** What a key looks like to the body after these replies: its last mutation, or else its first read. */
  function RecordNow(body: Body, seen: Key -> Option<Record>, replies: seq<Reply>, k: Key): Option<Record> {
    match LastMutation(body, replies, k)
    case Some(PutOp(_, value, _, _)) => Some(Record(value, RecordVersion(seen(k)) + 1))
    case Some(_) => None
    case None => seen(k)
  }

  predicate Shows(state: EntityState, record: Option<Record>) {
    match record
    case None => state.currentValue == None
    case Some(Record(value, version)) => state.currentValue == Some(value) && state.currentVersion == version
  }

  /** The state a key would have if it were used now. */
  function StateNow(a: Attempt, k: Key, read: Option<Record>): EntityState {
    var b := Resolve(a, k, read);
    b.retrieved[k]
  }

  lemma RecordNowAfter(body: Body, seen: Key -> Option<Record>, replies: seq<Reply>, reply: Reply, k: Key)
    requires body(replies).Invoke?
    ensures var call := body(replies).call;
            RecordNow(body, seen, replies + [reply], k) ==
            if !Mutates(call, reply, k) then RecordNow(body, seen, replies, k)
            else if call.op.PutOp? then Some(Record(call.op.value, RecordVersion(seen(k)) + 1))
            else None
  {
    assert (replies + [reply])[..|replies|] == replies;
  }

  /** One call keeps the state of a key that of its last mutation. */
  lemma ExecuteShows(a: Attempt, call: Call, read: Option<Record>, k: Key, first: Option<Record>, now: Option<Record>)
    requires call.EntityCall? && call.op.key == k ==> read == first
    requires k in a.retrieved ==> a.retrieved[k].originalVersion == RecordVersion(first)
    requires Shows(StateNow(a, k, first), now)
    ensures var (b, reply) := Execute(a, call, read);
            Shows(StateNow(b, k, first), if !Mutates(call, reply, k) then now
                                         else if call.op.PutOp? then Some(Record(call.op.value, RecordVersion(first) + 1))
                                         else None)
  {
  }

  lemma {:induction false} CacheShowsRecordNow(body: Body, seen: Key -> Option<Record>, n: nat, k: Key)
    ensures var (replies, a) := CachedRun(body, seen, n);
            Shows(StateNow(a, k, seen(k)), RecordNow(body, seen, replies, k))
  {
    if n > 0 {
      CacheShowsRecordNow(body, seen, n - 1, k);
      var (replies, a) := CachedRun(body, seen, n - 1);
      if body(replies).Invoke? {
        var call := body(replies).call;
        CacheHoldsUsedKeys(body, seen, n - 1, k);
        ExecuteShows(a, call, ReadFor(call, seen), k, seen(k), RecordNow(body, seen, replies, k));
        RecordNowAfter(body, seen, replies, Execute(a, call, ReadFor(call, seen)).1, k);
      }
    }
  }

  /** What a call should be answered, given the first read of its key and what the key looks like now. */
  function ReplyFor(call: Call, first: Option<Record>, now: Option<Record>): Reply {
    match call
    case Buffered(_) => Done
    case Unsupported => UnsupportedCall
    case EntityCall(GetOp(_)) => Found(if now.Some? then Some(now.value.value) else None)
    case EntityCall(GetWithMetadataOp(_)) => FoundWithMetadata(now)
    case EntityCall(PutOp(_, _, e, _)) =>
      if Expects(e) && e.value != RecordVersion(first) then UnexpectedVersion else Stored(RecordVersion(first) + 1)
    case EntityCall(DeleteOp(_, e)) =>
      if Expects(e) && e.value != RecordVersion(first) then UnexpectedVersion else Done
  }

  /** An expected version is given, and is not 0. */
  predicate Expects(expected: Option<nat>) {
    expected.Some? && expected.value != 0
  }

  lemma ExecuteReplies(a: Attempt, call: Call, first: Option<Record>, now: Option<Record>)
    requires call.EntityCall? && call.op.key in a.retrieved ==>
               a.retrieved[call.op.key].originalVersion == RecordVersion(first)
    requires call.EntityCall? ==> Shows(StateNow(a, call.op.key, first), now)
    ensures Execute(a, call, if call.EntityCall? then first else None).1 == ReplyFor(call, first, now)
  {
  }

  /**
   Every reply of every attempt: reads show the key's last mutation, or else its first read; a mutation is
   refused exactly if it expects a version other than 0 and other than that of the first read; an accepted
   put reports the version after it.
   */
  lemma RepliesAre(body: Body, seen: Key -> Option<Record>, n: nat, i: nat, k: Key)
    requires i < |CachedRun(body, seen, n).0|
    ensures var replies := CachedRun(body, seen, n).0;
            var call := CallAt(body, replies, i);
            && call.Some?
            && ((call.value.EntityCall? ==> call.value.op.key == k) ==>
                  replies[i] == ReplyFor(call.value, seen(k), RecordNow(body, seen, replies[..i], k)))
  {
    ReplyOfStep(body, seen, n, i);
    var (replies, a) := CachedRun(body, seen, i);
    var call := body(replies).call;
    if call.EntityCall? && call.op.key == k {
      CacheHoldsUsedKeys(body, seen, i, k);
      CacheShowsRecordNow(body, seen, i, k);
      ExecuteReplies(a, call, seen(k), RecordNow(body, seen, replies, k));
    }
  }

  /** A put or delete is refused exactly if it expects a version other than 0 and than that of the first read. */
  lemma MutationRefusedIff(body: Body, seen: Key -> Option<Record>, n: nat, i: nat, k: Key)
    requires i < |CachedRun(body, seen, n).0| && IsMutation(CallAt(body, CachedRun(body, seen, n).0, i), k)
    ensures var replies := CachedRun(body, seen, n).0;
            var e := CallAt(body, replies, i).value.op.expectedVersion;
            replies[i] == UnexpectedVersion <==> e.Some? && e.value != 0 && e.value != RecordVersion(seen(k))
  {
    RepliesAre(body, seen, n, i, k);
  }

  /** In an attempt that may commit on `s`, every accepted mutation expected 0, or nothing, or the version on `s`. */
  lemma AcceptedMutationsExpectedCurrent(body: Body, seen: Key -> Option<Record>, n: nat, i: nat, k: Key, s: Store)
    requires i < |CachedRun(body, seen, n).0| && IsMutation(CallAt(body, CachedRun(body, seen, n).0, i), k)
    requires AllHold(s, Items(CachedRun(body, seen, n).1)) && CachedRun(body, seen, n).0[i] != UnexpectedVersion
    ensures var e := CallAt(body, CachedRun(body, seen, n).0, i).value.op.expectedVersion;
            e.None? || e.value == 0 || e.value == Version(s, k)
  {
    var (replies, a) := CachedRun(body, seen, n);
    MutationRefusedIff(body, seen, n, i, k);
    CachedRunWellFormed(body, seen, n);
    assert Uses(body, replies, i, k);
    CacheHoldsUsedKeys(body, seen, n, k);
    PassingItemsShowVersions(a, s, k);
  }

  // ---------------------------------------------------------------- buffered calls

  predicate IsBuffered(call: Option<Call>) {
    call.Some? && call.value.Buffered?
  }

  /** How many of the calls so far were buffered. */
  function BufferedCalls(body: Body, replies: seq<Reply>): nat {
    if replies == [] then 0
    else
      var i := |replies| - 1;
      BufferedCalls(body, replies[..i]) + if IsBuffered(CallAt(body, replies, i)) then 1 else 0
  }

  /** The buffer holds every buffered call, each at its place among the buffered calls, and nothing else. */
  lemma {:induction false} BufferHoldsBufferedCalls(body: Body, seen: Key -> Option<Record>, n: nat, i: nat)
    requires i < |CachedRun(body, seen, n).0| && IsBuffered(CallAt(body, CachedRun(body, seen, n).0, i))
    ensures var (replies, a) := CachedRun(body, seen, n);
            var place := BufferedCalls(body, replies[..i]);
            place < |a.buffered| && a.buffered[place] == CallAt(body, replies, i).value.effect
    ensures |CachedRun(body, seen, n).1.buffered| == BufferedCalls(body, CachedRun(body, seen, n).0)
  {
    ReplyOfStep(body, seen, n, i);
    BufferSize(body, seen, i);
    BufferSize(body, seen, n);
    BufferGrows(body, seen, i + 1, n);
    var (replies, a) := CachedRun(body, seen, i);
    assert CachedRun(body, seen, i + 1).1.buffered == a.buffered + [body(replies).call.effect];
  }

  lemma {:induction false} BufferGrows(body: Body, seen: Key -> Option<Record>, m: nat, n: nat)
    requires m <= n
    ensures CachedRun(body, seen, m).1.buffered <= CachedRun(body, seen, n).1.buffered
  {
    if m < n {
      BufferGrows(body, seen, m, n - 1);
      OneBuffers(body, seen, n - 1);
    }
  }

  lemma OneBuffers(body: Body, seen: Key -> Option<Record>, n: nat)
    ensures CachedRun(body, seen, n).1.buffered <= CachedRun(body, seen, n + 1).1.buffered
  {
  }

  lemma {:induction false} BufferSize(body: Body, seen: Key -> Option<Record>, n: nat)
    ensures |CachedRun(body, seen, n).1.buffered| == BufferedCalls(body, CachedRun(body, seen, n).0)
  {
    if n > 0 {
      BufferSize(body, seen, n - 1);
      var replies := CachedRun(body, seen, n - 1).0;
      if body(replies).Invoke? {
        assert CachedRun(body, seen, n).0[..|replies|] == replies;
      }
    }
  }
}
