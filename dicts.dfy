/** Python's insertion-ordered dictionary, as far as the scans use it: a
    dictionary built by a comprehension `{key(x): value(x) for x in xs}`. It is
    represented as a sequence of (key, value) entries. Assigning to a key that
    is present keeps its position and replaces its value; a new key goes last. */
module Dicts {
  import opened Common

  function Keys<K, V>(d: seq<(K, V)>): seq<K> {
    if d == [] then [] else [d[0].0] + Keys(d[1..])
  }

  /** `d[k] = v` */
  function Put<K(==), V>(d: seq<(K, V)>, k: K, v: V): seq<(K, V)> {
    if d == [] then [(k, v)]
    else if d[0].0 == k then [(k, v)] + d[1..]
    else [d[0]] + Put(d[1..], k, v)
  }

  /** `d.get(k)` */
  function Lookup<K(==), V>(d: seq<(K, V)>, k: K): Option<V> {
    if d == [] then None
    else if d[0].0 == k then Some(d[0].1)
    else Lookup(d[1..], k)
  }

  /** The dictionary a comprehension over `pairs` builds, assigning them in order. */
  function FromPairs<K(==), V>(pairs: seq<(K, V)>): seq<(K, V)> {
    if pairs == [] then []
    else Put(FromPairs(pairs[..|pairs| - 1]), pairs[|pairs| - 1].0, pairs[|pairs| - 1].1)
  }

  /** Reference definition: the value of the last pair whose key is k. */
  function LastValue<K(==), V>(pairs: seq<(K, V)>, k: K): Option<V> {
    if pairs == [] then None
    else if pairs[|pairs| - 1].0 == k then Some(pairs[|pairs| - 1].1)
    else LastValue(pairs[..|pairs| - 1], k)
  }

  lemma {:induction false} KeysAppend<K, V>(a: seq<(K, V)>, b: seq<(K, V)>)
    ensures Keys(a + b) == Keys(a) + Keys(b)
  {
    if a == [] {
      assert a + b == b;
    } else {
      assert (a + b)[1..] == a[1..] + b;
      KeysAppend(a[1..], b);
    }
  }

  lemma {:induction false} KeysLength<K, V>(d: seq<(K, V)>)
    ensures |Keys(d)| == |d|
  {
    if d != [] {
      KeysLength(d[1..]);
    }
  }

  lemma {:induction false} KeysAt<K, V>(d: seq<(K, V)>, i: nat)
    requires i < |d|
    ensures |Keys(d)| == |d| && Keys(d)[i] == d[i].0
  {
    KeysLength(d);
    if i > 0 {
      KeysAt(d[1..], i - 1);
    }
  }

  /** Assignment keeps the key order, adding a new key at the end. */
  lemma {:induction false} PutKeys<K, V>(d: seq<(K, V)>, k: K, v: V)
    ensures Keys(Put(d, k, v)) == if k in Keys(d) then Keys(d) else Keys(d) + [k]
  {
    if d != [] && d[0].0 != k {
      PutKeys(d[1..], k, v);
    }
  }

  /** Assignment makes k map to v and leaves every other key's value alone. */
  lemma {:induction false} PutLookup<K, V>(d: seq<(K, V)>, k: K, v: V, k': K)
    ensures Lookup(Put(d, k, v), k') == if k' == k then Some(v) else Lookup(d, k')
  {
    if d != [] && d[0].0 != k {
      PutLookup(d[1..], k, v, k');
    }
  }

  /** Assigning a new key appends one entry. */
  lemma {:induction false} PutFresh<K, V>(d: seq<(K, V)>, k: K, v: V)
    requires k !in Keys(d)
    ensures Put(d, k, v) == d + [(k, v)]
  {
    if d != [] {
      PutFresh(d[1..], k, v);
    }
  }

  /** The dictionary's keys are distinct and are exactly the keys that occur
      in the pairs. */
  lemma {:induction false} FromPairsKeys<K, V>(pairs: seq<(K, V)>)
    ensures Distinct(Keys(FromPairs(pairs)))
    ensures forall k :: k in Keys(FromPairs(pairs)) <==> k in Keys(pairs)
  {
    if pairs != [] {
      var p, x := pairs[..|pairs| - 1], pairs[|pairs| - 1];
      LastSplit(pairs);
      FromPairsKeys(p);
      PutKeys(FromPairs(p), x.0, x.1);
      KeysAppend(p, [x]);
    }
  }

  /** Each key of the dictionary holds the value of its LAST pair. */
  lemma {:induction false} FromPairsLookup<K, V>(pairs: seq<(K, V)>, k: K)
    ensures Lookup(FromPairs(pairs), k) == LastValue(pairs, k)
  {
    if pairs != [] {
      var p, x := pairs[..|pairs| - 1], pairs[|pairs| - 1];
      FromPairsLookup(p, k);
      PutLookup(FromPairs(p), x.0, x.1, k);
    }
  }

  /** With distinct keys the comprehension changes nothing: one entry per
      pair, in the pairs' order. */
  lemma {:induction false} FromPairsDistinct<K, V>(pairs: seq<(K, V)>)
    requires Distinct(Keys(pairs))
    ensures FromPairs(pairs) == pairs
  {
    if pairs != [] {
      var p, x := pairs[..|pairs| - 1], pairs[|pairs| - 1];
      LastSplit(pairs);
      KeysAppend(p, [x]);
      KeysLength(pairs);
      forall i, j | 0 <= i < j < |Keys(p)|
        ensures Keys(p)[i] != Keys(p)[j]
      {
        assert Keys(p)[i] == Keys(pairs)[i] && Keys(p)[j] == Keys(pairs)[j];
      }
      FromPairsDistinct(p);
      assert x.0 == Keys(pairs)[|pairs| - 1];
      assert x.0 !in Keys(p) by {
        forall i | 0 <= i < |Keys(p)| ensures Keys(p)[i] != x.0 {
          assert Keys(p)[i] == Keys(pairs)[i];
        }
      }
      PutFresh(p, x.0, x.1);
    }
  }

  lemma {:induction false} LookupAppend<K, V>(d: seq<(K, V)>, x: (K, V), k: K)
    ensures Lookup(d + [x], k) ==
      if Lookup(d, k).Some? then Lookup(d, k) else if x.0 == k then Some(x.1) else None
  {
    if d == [] {
      assert d + [x] == [x];
    } else {
      assert (d + [x])[1..] == d[1..] + [x];
      LookupAppend(d[1..], x, k);
    }
  }

  lemma {:induction false} LookupAbsent<K, V>(d: seq<(K, V)>, k: K)
    requires k !in Keys(d)
    ensures Lookup(d, k) == None
  {
    if d != [] {
      LookupAbsent(d[1..], k);
    }
  }
}
