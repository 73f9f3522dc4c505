/**
 A JavaScript object used as a dictionary with string keys, modelled as the
 sequence of its (key, value) properties in insertion order, which is the order
 `Object.entries` reports them in. Assigning to an existing property keeps its
 position; assigning to a new one appends it.
 */
module OrderedMap {

  type Entries<V> = seq<(string, V)>

  /** The property names, in order. */
  function Keys<V>(m: Entries<V>): (ks: seq<string>)
    ensures |ks| == |m|
    ensures forall i :: 0 <= i < |m| ==> ks[i] == m[i].0
  {
    if m == [] then [] else [m[0].0] + Keys(m[1..])
  }

  /** No property name occurs twice: true of every JavaScript object. */
  predicate NoDuplicates(ks: seq<string>)
  {
    forall i, j :: 0 <= i < j < |ks| ==> ks[i] != ks[j]
  }

  predicate DistinctKeys<V>(m: Entries<V>)
  {
    NoDuplicates(Keys(m))
  }

  /** The dictionary the object denotes; where a key repeats, its first occurrence is the one a lookup finds. */
  function ToMap<V>(m: Entries<V>): (d: map<string, V>)
  {
    if m == [] then map[] else ToMap(m[1..])[m[0].0 := m[0].1]
  }

  /** The dictionary has exactly the object's property names as keys. */
  lemma {:induction false} ToMapKeys<V>(m: Entries<V>, k: string)
    ensures k in ToMap(m) <==> k in Keys(m)
  {
    if m != [] {
      ToMapKeys(m[1..], k);
      assert Keys(m) == [m[0].0] + Keys(m[1..]);
    }
  }

  /**
   `obj[k] = v`: the property `k` gets the value `v` where it already stands,
   or is appended when `k` is new.
   */
  function Put<V>(m: Entries<V>, k: string, v: V): (r: Entries<V>)
    ensures ToMap(r) == ToMap(m)[k := v]
    ensures Keys(r) == if k in Keys(m) then Keys(m) else Keys(m) + [k]
  {
    if m == [] then [(k, v)]
    else if m[0].0 == k then
      var r := [(k, v)] + m[1..];
      assert r[1..] == m[1..];
      assert ToMap(r) == ToMap(m[1..])[k := v];
      r
    else
      var tail := Put(m[1..], k, v);
      var r := [m[0]] + tail;
      assert r[1..] == tail;
      assert Keys(m) == [m[0].0] + Keys(m[1..]);
      assert ToMap(r) == ToMap(tail)[m[0].0 := m[0].1];
      assert ToMap(tail)[m[0].0 := m[0].1] == ToMap(m[1..])[m[0].0 := m[0].1][k := v];
      r
  }

  /** Assignment keeps a JavaScript object's keys distinct. */
  lemma PutDistinct<V>(m: Entries<V>, k: string, v: V)
    requires DistinctKeys(m)
    ensures DistinctKeys(Put(m, k, v))
    ensures |Put(m, k, v)| == if k in Keys(m) then |m| else |m| + 1
  {
    assert |Keys(Put(m, k, v))| == |Put(m, k, v)|;
  }

  /** With distinct keys the object has exactly as many properties as its dictionary has keys. */
  lemma {:induction false} DistinctSize<V>(m: Entries<V>)
    requires DistinctKeys(m)
    ensures |ToMap(m)| == |m|
  {
    if m != [] {
      assert Keys(m[1..]) == Keys(m)[1..];
      DistinctSize(m[1..]);
      assert m[0].0 !in Keys(m[1..]);
      ToMapKeys(m[1..], m[0].0);
      assert ToMap(m).Keys == ToMap(m[1..]).Keys + {m[0].0};
    }
  }

  /** Assigning to an existing key keeps the number of keys; a new key adds one. */
  lemma PutCount<V>(m: Entries<V>, k: string, v: V)
    requires DistinctKeys(m)
    ensures |ToMap(Put(m, k, v))| == if k in ToMap(m) then |ToMap(m)| else |ToMap(m)| + 1
  {
    PutDistinct(m, k, v);
    ToMapKeys(m, k);
    DistinctSize(m);
    DistinctSize(Put(m, k, v));
  }
}
