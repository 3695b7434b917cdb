/**
 Structural equality of JSON-like trees, and the canonical form it compares: objects are maps without
 their undefined entries.
 */
module DeepEqual {
  datatype Json =
    | Undefined
    | Null
    | Bool(b: bool)
    | Num(n: int)
    | Str(s: string)
    | Arr(items: seq<Json>)
    | Obj(entries: seq<Entry>)

  datatype Entry = Entry(key: string, value: Json)

  /** The keys of an object are distinct. */
  predicate DistinctKeys(entries: seq<Entry>) {
    forall i, j :: 0 <= i < j < |entries| ==> entries[i].key != entries[j].key
  }

  predicate IsTree(a: Json) {
    match a
    case Arr(items) => forall i :: 0 <= i < |items| ==> IsTree(items[i])
    case Obj(entries) => DistinctKeys(entries) && forall i :: 0 <= i < |entries| ==> IsTree(entries[i].value)
    case _ => true
  }

  /** A value as JavaScript can hold it. */
  type Tree = a: Json | IsTree(a) witness Null

  /** How many entries have a value other than undefined. */
  function CountDefined(entries: seq<Entry>): nat {
    if entries == [] then 0
    else
      var n := |entries| - 1;
      CountDefined(entries[..n]) + if entries[n].value.Undefined? then 0 else 1
  }

  /** The position of a key, or the number of entries if it is absent. */
  function IndexOf(entries: seq<Entry>, key: string): (i: nat)
    ensures i <= |entries|
    ensures i < |entries| ==> entries[i].key == key
    ensures forall j :: 0 <= j < i ==> entries[j].key != key
  {
    if entries == [] then 0
    else
      var n := |entries| - 1;
      var i := IndexOf(entries[..n], key);
      if i < n then i else if entries[n].key == key then n else n + 1
  }

  predicate HasDefined(entries: seq<Entry>, key: string) {
    var i := IndexOf(entries, key);
    i < |entries| && !entries[i].value.Undefined?
  }

  predicate DeepEqual(a: Json, b: Json) {
    match (a, b)
    case (Arr(xs), Arr(ys)) => |xs| == |ys| && forall i :: 0 <= i < |xs| ==> DeepEqual(xs[i], ys[i])
    case (Obj(xs), Obj(ys)) =>
      && CountDefined(xs) == CountDefined(ys)
      && forall i :: 0 <= i < |xs| && !xs[i].value.Undefined? ==>
           HasDefined(ys, xs[i].key) && DeepEqual(xs[i].value, ys[IndexOf(ys, xs[i].key)].value)
    case _ => a == b
  }

  // ---------------------------------------------------------------- the canonical form

  datatype Canonical = Leaf(value: Json) | Items(items: seq<Canonical>) | Fields(fields: map<string, Canonical>)

  function Canon(a: Json): Canonical {
    match a
    case Arr(items) => Items(seq(|items|, i requires 0 <= i < |items| => Canon(items[i])))
    case Obj(entries) => Fields(CanonFields(entries))
    case _ => Leaf(a)
  }

  function CanonFields(entries: seq<Entry>): map<string, Canonical> {
    if entries == [] then map[]
    else
      var n := |entries| - 1;
      if entries[n].value.Undefined? then CanonFields(entries[..n])
      else CanonFields(entries[..n])[entries[n].key := Canon(entries[n].value)]
  }

  lemma {:induction false} FieldAt(entries: seq<Entry>, key: string)
    requires DistinctKeys(entries)
    ensures key in CanonFields(entries) <==> HasDefined(entries, key)
    ensures HasDefined(entries, key) ==> CanonFields(entries)[key] == Canon(entries[IndexOf(entries, key)].value)
  {
    if entries != [] {
      FieldAt(entries[..|entries| - 1], key);
    }
  }

  lemma {:induction false} FieldsCounted(entries: seq<Entry>)
    requires DistinctKeys(entries)
    ensures |CanonFields(entries)| == CountDefined(entries)
  {
    if entries != [] {
      var n := |entries| - 1;
      FieldsCounted(entries[..n]);
      FieldAt(entries[..n], entries[n].key);
      assert IndexOf(entries[..n], entries[n].key) == n;
    }
  }

  lemma DefinedEntry(entries: seq<Entry>, i: nat)
    requires DistinctKeys(entries) && i < |entries|
    ensures IndexOf(entries, entries[i].key) == i
  {
  }

  lemma SubsetOfSameSize(a: set<string>, b: set<string>)
    requires a <= b && |a| == |b|
    ensures a == b
  {
    assert |b - a| == |b| - |a|;
  }

  lemma {:induction false} EqualObjects(xs: seq<Entry>, ys: seq<Entry>)
    requires IsTree(Obj(xs)) && IsTree(Obj(ys))
    ensures DeepEqual(Obj(xs), Obj(ys)) <==> CanonFields(xs) == CanonFields(ys)
    decreases xs
  {
    FieldsCounted(xs);
    FieldsCounted(ys);
    if DeepEqual(Obj(xs), Obj(ys)) {
      forall key | key in CanonFields(xs) ensures key in CanonFields(ys) && CanonFields(ys)[key] == CanonFields(xs)[key] {
        FieldAt(xs, key);
        FieldAt(ys, key);
        var i := IndexOf(xs, key);
        EqualIffSameCanon(xs[i].value, ys[IndexOf(ys, key)].value);
      }
      assert |CanonFields(xs).Keys| == |CanonFields(xs)| && |CanonFields(ys).Keys| == |CanonFields(ys)|;
      SubsetOfSameSize(CanonFields(xs).Keys, CanonFields(ys).Keys);
    }
    if CanonFields(xs) == CanonFields(ys) {
      forall i | 0 <= i < |xs| && !xs[i].value.Undefined?
        ensures HasDefined(ys, xs[i].key) && DeepEqual(xs[i].value, ys[IndexOf(ys, xs[i].key)].value)
      {
        DefinedEntry(xs, i);
        FieldAt(xs, xs[i].key);
        FieldAt(ys, xs[i].key);
        EqualIffSameCanon(xs[i].value, ys[IndexOf(ys, xs[i].key)].value);
      }
    }
  }

  /** Equality is identity of the canonical forms, at every depth. */
  lemma {:induction false} EqualIffSameCanon(a: Tree, b: Tree)
    ensures DeepEqual(a, b) <==> Canon(a) == Canon(b)
    decreases a
  {
    match (a, b)
    case (Arr(xs), Arr(ys)) =>
      if |xs| == |ys| {
        forall i | 0 <= i < |xs| ensures DeepEqual(xs[i], ys[i]) <==> Canon(xs[i]) == Canon(ys[i]) {
          EqualIffSameCanon(xs[i], ys[i]);
        }
        forall i | 0 <= i < |xs| ensures Canon(a).items[i] == Canon(xs[i]) && Canon(b).items[i] == Canon(ys[i]) {}
      } else {
        assert |Canon(a).items| == |xs| && |Canon(b).items| == |ys|;
      }
    case (Obj(xs), Obj(ys)) => EqualObjects(xs, ys);
    case _ =>
  }

  lemma EqualityIsAnEquivalence(a: Tree, b: Tree, c: Tree)
    ensures DeepEqual(a, a)
    ensures DeepEqual(a, b) <==> DeepEqual(b, a)
    ensures DeepEqual(a, b) && DeepEqual(b, c) ==> DeepEqual(a, c)
  {
    EqualIffSameCanon(a, a);
    EqualIffSameCanon(a, b);
    EqualIffSameCanon(b, a);
    EqualIffSameCanon(b, c);
    EqualIffSameCanon(a, c);
  }
}
