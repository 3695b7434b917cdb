/**
 Composite entity keys and the string form used to index the transaction cache
 (`serializeCompositeKey` and `deserializeCompositeKey`).
 */
module Keys {
  import opened Options

  datatype CompositeKey = CompositeKey(entityName: string, partition: string, sort: Option<string>)

  /** What decoding yields. A part the string does not have is `None`. */
  datatype DecodedKey = DecodedKey(entityName: string, parts: seq<Option<string>>)

  const SEPARATOR := '|'

  function Serialize(k: CompositeKey): string {
    k.entityName + [SEPARATOR] + k.partition + [SEPARATOR] + if k.sort.Some? then k.sort.value else ""
  }

  /** Splitting at every separator, as `String.split("|")` does: n separators give n + 1 parts. */
  function Split(s: string): (parts: seq<string>)
    ensures |parts| >= 1
  {
    if s == "" then [""]
    else
      var rest := Split(s[1..]);
      if s[0] == SEPARATOR then [""] + rest else [[s[0]] + rest[0]] + rest[1..]
  }

  function Deserialize(s: string): DecodedKey {
    var parts := Split(s);
    var partition := if |parts| > 1 then Some(parts[1]) else None;
    DecodedKey(parts[0],
               if |parts| > 2 && parts[2] != "" then [partition, Some(parts[2])] else [partition])
  }

  /** The name and key tuple that a caller of `Deserialize` hopes to see again. */
  function Tuple(k: CompositeKey): DecodedKey {
    DecodedKey(k.entityName, if k.sort.Some? then [Some(k.partition), k.sort] else [Some(k.partition)])
  }

  predicate Clean(k: CompositeKey) {
    && SEPARATOR !in k.entityName
    && SEPARATOR !in k.partition
    && (k.sort.Some? ==> k.sort.value != "" && SEPARATOR !in k.sort.value)
  }

  /** The keys for which the string index of the transaction cache is sound. */
  type Key = k: CompositeKey | Clean(k) witness CompositeKey("", "", None)

  lemma {:induction false} PartsHaveNoSeparator(s: string)
    ensures forall p :: p in Split(s) ==> SEPARATOR !in p
  {
    if s != "" {
      PartsHaveNoSeparator(s[1..]);
      var rest := Split(s[1..]);
      assert rest[0] in rest;
      assert forall p :: p in rest[1..] ==> p in rest;
    }
  }

  lemma {:induction false} SplitFirst(a: string, rest: string)
    requires SEPARATOR !in a
    ensures Split(a + [SEPARATOR] + rest) == [a] + Split(rest)
  {
    var s := a + [SEPARATOR] + rest;
    if a == "" {
      assert s[1..] == rest;
    } else {
      assert s[1..] == a[1..] + [SEPARATOR] + rest;
      SplitFirst(a[1..], rest);
      assert [a[0]] + a[1..] == a;
    }
  }

  lemma {:induction false} SplitNone(a: string)
    requires SEPARATOR !in a
    ensures Split(a) == [a]
  {
    if a != "" {
      SplitNone(a[1..]);
      assert [a[0]] + a[1..] == a;
    }
  }

  /** Decoding gives back exactly what was encoded if and only if the key is clean. */
  lemma DecodeInvertsEncodeIff(k: CompositeKey)
    ensures Deserialize(Serialize(k)) == Tuple(k) <==> Clean(k)
  {
    var s := Serialize(k);
    var tail := if k.sort.Some? then k.sort.value else "";
    if Clean(k) {
      assert s == k.entityName + [SEPARATOR] + (k.partition + [SEPARATOR] + tail);
      SplitFirst(k.entityName, k.partition + [SEPARATOR] + tail);
      SplitFirst(k.partition, tail);
      SplitNone(tail);
    }
    if Deserialize(s) == Tuple(k) {
      PartsHaveNoSeparator(s);
      var parts := Split(s);
      assert parts[0] in parts;
      assert Deserialize(s).parts[0] == Some(k.partition);
      if k.sort.Some? {
        assert Deserialize(s).parts[1] == k.sort;
      }
    }
  }

  /** Hence two clean keys never share a cache entry. */
  lemma EncodingInjective(a: Key, b: Key)
    requires Serialize(a) == Serialize(b)
    ensures a == b
  {
    DecodeInvertsEncodeIff(a);
    DecodeInvertsEncodeIff(b);
    assert Tuple(a).parts == Tuple(b).parts;
    assert Tuple(a).parts[0] == Tuple(b).parts[0];
    if a.sort.Some? { assert Tuple(a).parts[1] == Tuple(b).parts[1]; }
  }

  /** Without that hypothesis two keys of one entity can collide, so the cache would confuse them. */
  lemma UncleanKeysCollide()
    ensures var a, b := CompositeKey("e", "a|b", Some("c")), CompositeKey("e", "a", Some("b|c"));
            a != b && Serialize(a) == Serialize(b)
  {
    assert Serialize(CompositeKey("e", "a|b", Some("c"))) == "e|a|b|c";
  }
}
