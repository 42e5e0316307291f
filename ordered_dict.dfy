/** Python's insertion-ordered `dict` (and `Counter`) as a sequence of
    key/value pairs: assigning to a present key keeps its position, a new
    key goes to the end. */
module OrderedDict {
  import opened Basics

  type Dict<K, V> = seq<(K, V)>

  /** The keys in iteration order. */
  function Keys<K, V>(d: Dict<K, V>): (ks: seq<K>)
    ensures |ks| == |d|
  {
    if d == [] then [] else [d[0].0] + Keys(d[1..])
  }

  /** The values in iteration order. */
  function Values<K, V>(d: Dict<K, V>): (vs: seq<V>)
    ensures |vs| == |d|
  {
    if d == [] then [] else [d[0].1] + Values(d[1..])
  }

  /** No key twice, as in every Python dict. */
  predicate Valid<K(==), V>(d: Dict<K, V>) {
    Distinct(Keys(d))
  }

  /** `d.get(k, default)`. */
  function Get<K(==), V>(d: Dict<K, V>, k: K, default: V): V {
    if d == [] then default
    else if d[0].0 == k then d[0].1
    else Get(d[1..], k, default)
  }

  /** `d[k] = v`. */
  function Put<K(==), V>(d: Dict<K, V>, k: K, v: V): Dict<K, V> {
    if d == [] then [(k, v)]
    else if d[0].0 == k then [(k, v)] + d[1..]
    else [d[0]] + Put(d[1..], k, v)
  }

  /** The dict as a plain map, for lookups. */
  function ToMap<K(==), V>(d: Dict<K, V>): map<K, V> {
    if d == [] then map[] else ToMap(d[1..])[d[0].0 := d[0].1]
  }

  /** The map has the dict's keys, and the value a lookup finds. */
  lemma {:induction false} ToMapGet<K, V>(d: Dict<K, V>, k: K, default: V)
    ensures k in ToMap(d) <==> k in Keys(d)
    ensures k in ToMap(d) ==> ToMap(d)[k] == Get(d, k, default)
  {
    if d != [] {
      ToMapGet(d[1..], k, default);
    }
  }

  /** Assignment keeps the key order, appending a key it did not have. */
  lemma {:induction false} PutKeys<K, V>(d: Dict<K, V>, k: K, v: V)
    ensures Keys(Put(d, k, v)) == if k in Keys(d) then Keys(d) else Keys(d) + [k]
  {
    if d != [] && d[0].0 != k {
      PutKeys(d[1..], k, v);
    }
  }

  /** Assignment keeps a dict free of repeated keys. */
  lemma PutValid<K, V>(d: Dict<K, V>, k: K, v: V)
    requires Valid(d)
    ensures Valid(Put(d, k, v))
  {
    PutKeys(d, k, v);
  }

  /** Reading back: the assigned key has the new value, every other key
      keeps its old one. */
  lemma {:induction false} PutGet<K, V>(d: Dict<K, V>, k: K, v: V, k': K, default: V)
    ensures Get(Put(d, k, v), k', default) == if k' == k then v else Get(d, k', default)
  {
    if d != [] && d[0].0 != k {
      PutGet(d[1..], k, v, k', default);
    }
  }

  /** Assignment leaves every other entry as it was and adds only `(k, v)`. */
  lemma {:induction false} PutEntries<K, V>(d: Dict<K, V>, k: K, v: V)
    ensures forall e :: e in Put(d, k, v) ==> e in d || e == (k, v)
  {
    if d != [] && d[0].0 != k {
      PutEntries(d[1..], k, v);
    }
  }
}
