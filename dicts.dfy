/**
 * A Python dict, kept as its entries in insertion order. Iterating over a dict (`.items()`)
 * visits the entries in this order; assigning to a key that is already present replaces its
 * value where it stands, and assigning to a new key appends an entry.
 */
module Dicts {
  import opened Wrappers

  type Dict<K, V> = seq<(K, V)>

  function Keys<K(==), V>(d: Dict<K, V>): set<K>
  {
    if d == [] then {} else {d[0].0} + Keys(d[1..])
  }

  /** No key is stored twice: this is what makes a sequence of entries a dict. */
  predicate DistinctKeys<K(==), V>(d: Dict<K, V>)
  {
    d == [] || (d[0].0 !in Keys(d[1..]) && DistinctKeys(d[1..]))
  }

  /** `d.get(k)` */
  function Get<K(==), V>(d: Dict<K, V>, k: K): (r: Option<V>)
    ensures r.Some? <==> k in Keys(d)
    ensures r.Some? ==> (k, r.value) in d
  {
    if d == [] then None
    else if d[0].0 == k then Some(d[0].1)
    else Get(d[1..], k)
  }

  /** `d[k] = v` */
  function Put<K(==,!new), V>(d: Dict<K, V>, k: K, v: V): (r: Dict<K, V>)
    ensures Get(r, k) == Some(v)
    ensures Keys(r) == Keys(d) + {k}
    ensures k !in Keys(d) ==> r == d + [(k, v)]
  {
    if d == [] then [(k, v)]
    else if d[0].0 == k then [(k, v)] + d[1..]
    else
      var rest := Put(d[1..], k, v);
      assert ([d[0]] + rest)[1..] == rest;
      [d[0]] + rest
  }

  /** `d[k] = v` leaves every other key's value as it was. */
  lemma {:induction false} PutGetOther<K(!new), V>(d: Dict<K, V>, k: K, v: V, k': K)
    requires k' != k
    ensures Get(Put(d, k, v), k') == Get(d, k')
  {
    if d != [] && d[0].0 != k {
      var rest := Put(d[1..], k, v);
      assert ([d[0]] + rest)[1..] == rest;
      PutGetOther(d[1..], k, v, k');
    }
  }

  /** Assigning to a key that is present replaces its value where it stands: the keys keep their order. */
  lemma {:induction false} PutInPlace<K(!new), V>(d: Dict<K, V>, k: K, v: V)
    requires k in Keys(d)
    ensures var r := Put(d, k, v);
      |r| == |d| && forall i :: 0 <= i < |d| ==> r[i].0 == d[i].0
  {
    if d[0].0 != k {
      PutInPlace(d[1..], k, v);
      var rest := Put(d[1..], k, v);
      assert forall i :: 0 < i < |d| ==> ([d[0]] + rest)[i] == rest[i - 1];
    }
  }

  /** `d[k] = v` stores no key twice. */
  lemma {:induction false} PutDistinct<K(!new), V>(d: Dict<K, V>, k: K, v: V)
    requires DistinctKeys(d)
    ensures DistinctKeys(Put(d, k, v))
  {
    if d != [] && d[0].0 != k {
      PutDistinct(d[1..], k, v);
      var rest := Put(d[1..], k, v);
      assert ([d[0]] + rest)[1..] == rest;
    }
  }

  /** The key of every entry is among the keys. */
  lemma {:induction false} EntryKeyInKeys<K, V>(d: Dict<K, V>, e: (K, V))
    requires e in d
    ensures e.0 in Keys(d)
  {
    if d[0] != e {
      EntryKeyInKeys(d[1..], e);
    }
  }

  /** In a dict, an entry is present exactly when looking its key up gives its value. */
  lemma {:induction false} GetIffEntry<K, V>(d: Dict<K, V>, k: K, v: V)
    requires DistinctKeys(d)
    ensures Get(d, k) == Some(v) <==> (k, v) in d
  {
    if d == [] {
    } else if d[0].0 != k {
      GetIffEntry(d[1..], k, v);
    } else if (k, v) in d[1..] {
      EntryKeyInKeys(d[1..], (k, v));
    }
  }

  /** Every entry after `d[k] = v` is the new entry or an old one. */
  lemma {:induction false} PutEntries<K(!new), V>(d: Dict<K, V>, k: K, v: V, e: (K, V))
    requires e in Put(d, k, v)
    ensures e == (k, v) || e in d
  {
    if d != [] && d[0].0 != k && e != d[0] {
      assert e in Put(d[1..], k, v);
      PutEntries(d[1..], k, v, e);
    }
  }
}
