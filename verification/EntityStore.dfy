/**
 The versioned entity table behind `AWSEntityStore`. A version of 0 stands for an
 absent record, a put raises the version by one, and every conditional request is
 a comparison with the stored version. DynamoDB itself is replaced by these
 conditional updates on a map.
 */
module EntityStore {
  import opened Options
  import opened Keys

  type Value = string

  datatype Record = Record(value: Value, version: nat)

  type Store = map<Key, Record>

  function Lookup(s: Store, k: Key): Option<Record> {
    if k in s then Some(s[k]) else None
  }

  function RecordVersion(r: Option<Record>): nat {
    if r.Some? then r.value.version else 0
  }

  /** The version of a key, absent counting as 0. */
  function Version(s: Store, k: Key): nat {
    RecordVersion(Lookup(s, k))
  }

  datatype Operation =
    | Put(value: Value, increment: bool)
    | Delete
    | Check

  /** One item of a transactional write, or a plain write on its own. */
  datatype Item = Item(key: Key, operation: Operation, expectedVersion: Option<nat>)

  datatype Condition =
    | Always
    | NotExists              // attribute_not_exists(#version)
    | VersionIs(version: nat) // #version = :expectedVersion

  /** The condition expression each request carries. Only a delete compares with 0 literally. */
  function ConditionOf(item: Item): Condition {
    if item.expectedVersion.None? then Always
    else if item.expectedVersion.value == 0 && !item.operation.Delete? then NotExists
    else VersionIs(item.expectedVersion.value)
  }

  predicate ConditionHolds(s: Store, k: Key, c: Condition) {
    match c
    case Always => true
    case NotExists => k !in s
    case VersionIs(v) => k in s && s[k].version == v
  }

  predicate Holds(s: Store, item: Item) {
    ConditionHolds(s, item.key, ConditionOf(item))
  }

  predicate AllHold(s: Store, items: seq<Item>) {
    forall i :: 0 <= i < |items| ==> Holds(s, items[i])
  }

  function Apply(s: Store, item: Item): Store {
    match item.operation
    case Put(value, increment) =>
      s[item.key := Record(value, Version(s, item.key) + if increment then 1 else 0)]
    case Delete => s - {item.key}
    case Check => s
  }

  function ApplyAll(s: Store, items: seq<Item>): Store {
    if items == [] then s else Apply(ApplyAll(s, items[..|items| - 1]), items[|items| - 1])
  }

  predicate DistinctKeys(items: seq<Item>) {
    forall i, j :: 0 <= i < j < |items| ==> items[i].key != items[j].key
  }

  lemma {:induction false} ApplyAllElsewhere(s: Store, items: seq<Item>, k: Key)
    requires forall i :: 0 <= i < |items| ==> items[i].key != k
    ensures Lookup(ApplyAll(s, items), k) == Lookup(s, k)
  {
    if items != [] {
      ApplyAllElsewhere(s, items[..|items| - 1], k);
    }
  }

  /** Items on distinct keys do not see each other: each acts on the store it was checked against. */
  lemma {:induction false} ApplyAllAt(s: Store, items: seq<Item>, i: nat)
    requires DistinctKeys(items) && i < |items|
    ensures Lookup(ApplyAll(s, items), items[i].key) == Lookup(Apply(s, items[i]), items[i].key)
  {
    var n := |items| - 1;
    var before := ApplyAll(s, items[..n]);
    if i == n {
      ApplyAllElsewhere(s, items[..n], items[n].key);
    } else {
      ApplyAllAt(s, items[..n], i);
      assert items[n].key != items[i].key;
    }
  }

  predicate PositiveVersions(s: Store) {
    forall k :: k in s ==> s[k].version >= 1
  }

  /**
   On a store without version-0 records, the condition of a put or a check says exactly "the
   current version is the expected one", absent counting as 0. A delete says that too, except
   that it never passes on an absent record.
   */
  lemma ConditionComparesVersions(s: Store, item: Item)
    requires item.expectedVersion.Some? && PositiveVersions(s)
    ensures !item.operation.Delete? ==> (Holds(s, item) <==> Version(s, item.key) == item.expectedVersion.value)
    ensures item.operation.Delete? ==>
              (Holds(s, item) <==> item.key in s && Version(s, item.key) == item.expectedVersion.value)
  {
    if item.key in s { assert s[item.key].version >= 1; }
  }

  datatype WriteResult =
    | Written
    | Cancelled // TransactionCancelled
    | Conflict  // TransactionConflict
    | Rejected  // any other error

  /**
   How the service itself misbehaves on one request: a cancellation or conflict that is not about the
   conditions, or any other error. A transactional write that throws was not applied.
   */
  datatype Fault = NoFault | CancelFault | ConflictFault | OtherFault

  class EntityTable {
    var records: Store
    /** Every transactional write that was applied, in order. */
    ghost var applied: seq<seq<Item>>

    constructor ()
      ensures records == map[] && applied == []
    {
      records := map[];
      applied := [];
    }

    /** `_put`: returns the new version, or `None` for an unexpected version. */
    method Put(k: Key, value: Value, expectedVersion: Option<nat>, increment: bool) returns (version: Option<nat>)
      modifies this`records
      ensures var item := Item(k, Operation.Put(value, increment), expectedVersion);
              if Holds(old(records), item)
              then records == Apply(old(records), item) && version == Some(records[k].version)
              else records == old(records) && version == None
      ensures version.Some? ==>
                && k in records && records[k].value == value && records[k].version == version.value
                && version.value == Version(old(records), k) + (if increment then 1 else 0)
                && forall other: Key :: other != k ==> Lookup(records, other) == Lookup(old(records), other)
    {
      var item := Item(k, Operation.Put(value, increment), expectedVersion);
      if !Holds(records, item) {
        return None;
      }
      records := Apply(records, item);
      version := Some(records[k].version);
    }

    /**
     `_delete`: only a failed condition is thrown; any other error of the service is swallowed, and the
     call returns as if it had deleted. So an ordinary return means that the key is gone exactly if the
     service was up or the key was not there.
     */
    method Remove(k: Key, expectedVersion: Option<nat>, serviceUp: bool) returns (ok: bool)
      modifies this`records
      ensures var passes := Holds(old(records), Item(k, Delete, expectedVersion));
              && ok == (!serviceUp || passes)
              && records == if serviceUp && passes then old(records) - {k} else old(records)
      ensures ok ==> (k !in records <==> serviceUp || k !in old(records))
    {
      if !serviceUp {
        return true;
      }
      ok := Holds(records, Item(k, Delete, expectedVersion));
      if ok {
        records := records - {k};
      }
    }

    /** `_transactWrite`: all conditions are checked against one state, then all items apply, or none does. */
    method TransactWrite(items: seq<Item>, fault: Fault) returns (r: WriteResult)
      modifies this
      ensures r.Written? <==> fault.NoFault? && DistinctKeys(items) && AllHold(old(records), items)
      ensures r.Written? ==> records == ApplyAll(old(records), items) && applied == old(applied) + [items]
      ensures !r.Written? ==> records == old(records) && applied == old(applied)
      ensures r.Conflict? <==> fault.ConflictFault?
      ensures r.Cancelled? <==>
                fault.CancelFault? || (fault.NoFault? && DistinctKeys(items) && !AllHold(old(records), items))
      ensures r.Rejected? <==> fault.OtherFault? || (fault.NoFault? && !DistinctKeys(items))
    {
      match fault
      case CancelFault => return Cancelled;
      case ConflictFault => return Conflict;
      case OtherFault => return Rejected;
      case NoFault =>
        if !DistinctKeys(items) {
          return Rejected;
        }
        if !AllHold(records, items) {
          return Cancelled;
        }
        records := ApplyAll(records, items);
        applied := applied + [items];
        return Written;
    }
  }
}
