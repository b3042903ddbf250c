/** Python dictionaries as the scripts use them: entries kept in the order
    their keys were first inserted, assignment to an existing key replacing
    its value in place, and `defaultdict`-style accumulation. */
module Dict {
  import opened Wrappers

  type Dict<K, V> = seq<(K, V)>

  function Keys<K, V>(d: Dict<K, V>): (ks: seq<K>)
    ensures |ks| == |d|
    ensures forall i :: 0 <= i < |d| ==> ks[i] == d[i].0
  {
    if d == [] then [] else [d[0].0] + Keys(d[1..])
  }

  function Values<K, V>(d: Dict<K, V>): (vs: seq<V>)
    ensures |vs| == |d|
    ensures forall i :: 0 <= i < |d| ==> vs[i] == d[i].1
  {
    if d == [] then [] else [d[0].1] + Values(d[1..])
  }

  /** No key occurs twice: every dictionary built by the scripts has this shape. */
  ghost predicate Distinct<K, V>(d: Dict<K, V>) {
    var ks := Keys(d);
    forall i, j :: 0 <= i < j < |ks| ==> ks[i] != ks[j]
  }

  /** `d.get(k)`: the value stored under `k`, if any. */
  function Get<K(==,!new), V>(d: Dict<K, V>, k: K): (r: Option<V>)
    ensures r.None? <==> k !in Keys(d)
  {
    if d == [] then None
    else if d[0].0 == k then
      assert Keys(d)[0] == k;
      Some(d[0].1)
    else
      assert Keys(d) == [d[0].0] + Keys(d[1..]);
      Get(d[1..], k)
  }

  /** `d[k] = v`: overwrite in place when `k` is present, append otherwise. */
  function Put<K(==,!new), V>(d: Dict<K, V>, k: K, v: V): (r: Dict<K, V>)
    ensures k in Keys(d) ==> Keys(r) == Keys(d)
    ensures k !in Keys(d) ==> Keys(r) == Keys(d) + [k]
    ensures Get(r, k) == Some(v)
    ensures forall k' :: k' != k ==> Get(r, k') == Get(d, k')
  {
    if d == [] then [(k, v)]
    else if d[0].0 == k then [(k, v)] + d[1..]
    else [d[0]] + Put(d[1..], k, v)
  }

  /** Looking up after an assignment: the assigned key finds the new value,
      every other key what it found before. */
  lemma GetPut<K(!new), V>(d: Dict<K, V>, k: K, v: V, k': K)
    ensures Get(Put(d, k, v), k') == if k == k' then Some(v) else Get(d, k')
  {
  }

  /** Looking up in a dictionary with one more entry in front. */
  lemma GetCons<K(!new), V>(e: (K, V), rest: Dict<K, V>, k: K)
    ensures Get([e] + rest, k) == if e.0 == k then Some(e.1) else Get(rest, k)
  {
    assert ([e] + rest)[1..] == rest;
  }

  /** Assignment never repeats a key. */
  lemma PutDistinct<K(!new), V>(d: Dict<K, V>, k: K, v: V)
    requires Distinct(d)
    ensures Distinct(Put(d, k, v))
  {
    var ks := Keys(d);
    if k !in ks {
      assert Keys(Put(d, k, v)) == ks + [k];
    }
  }

  /** Every entry after an assignment is either the assigned one or was
      already there. */
  lemma {:induction false} PutEntries<K(!new), V>(d: Dict<K, V>, k: K, v: V)
    ensures forall i :: 0 <= i < |Put(d, k, v)| ==> Put(d, k, v)[i] == (k, v) || Put(d, k, v)[i] in d
  {
    if d != [] && d[0].0 != k {
      PutEntries(d[1..], k, v);
      var r := Put(d, k, v);
      forall i | 0 <= i < |r|
        ensures r[i] == (k, v) || r[i] in d
      {
        if i > 0 {
          assert r[i] == Put(d[1..], k, v)[i - 1];
        }
      }
    }
  }

  /** Assignment to a key already present keeps the keys as they were. */
  lemma PutExisting<K(!new), V>(d: Dict<K, V>, k: K, v: V)
    requires Distinct(d)
    requires k in Keys(d)
    ensures Keys(Put(d, k, v)) == Keys(d)
    ensures Distinct(Put(d, k, v))
  {
  }

  /** A dictionary with one more entry in front is without repeats exactly
      when its tail is and the new key is not among the tail's keys. */
  lemma DistinctCons<K, V>(e: (K, V), d: Dict<K, V>)
    ensures Distinct([e] + d) <==> Distinct(d) && e.0 !in Keys(d)
  {
    assert Keys([e] + d) == [e.0] + Keys(d);
  }

  /** A value found by `Get` is stored in the dictionary under that key. */
  lemma GetStored<K(!new), V>(d: Dict<K, V>, k: K)
    requires k in Keys(d)
    ensures (k, Get(d, k).value) in d
  {
    if d[0].0 != k {
      assert Keys(d) == [d[0].0] + Keys(d[1..]);
      GetStored(d[1..], k);
    }
  }

  /** In a dictionary without repeated keys, looking up the key of an entry finds that entry. */
  lemma GetEntry<K(!new), V>(d: Dict<K, V>, i: int)
    requires Distinct(d)
    requires 0 <= i < |d|
    ensures Get(d, d[i].0) == Some(d[i].1)
  {
    if i > 0 {
      var ks := Keys(d);
      assert Keys(d[1..]) == ks[1..];
      assert ks[0] != ks[i];
      assert d[1..][i - 1] == d[i];
      GetEntry(d[1..], i - 1);
    }
  }

  /** The keys of two dictionaries laid end to end. */
  lemma KeysAppend<K, V>(a: Dict<K, V>, b: Dict<K, V>)
    ensures Keys(a + b) == Keys(a) + Keys(b)
  {
    assert forall i :: 0 <= i < |a + b| ==> Keys(a + b)[i] == (Keys(a) + Keys(b))[i];
  }
}
