/** Python's `dict` as the source uses it for its accumulators: an insertion-ordered list of
    key/value pairs, where assigning to a present key overwrites its value in place and
    assigning to a new key appends it. */
module OrderedDict {
  import opened Wrappers
  import opened Seqs

  /** The keys in insertion order, as `d.keys()` yields them. */
  function Keys<K, V>(d: seq<(K, V)>): (ks: seq<K>)
    ensures |ks| == |d|
    ensures forall i :: 0 <= i < |d| ==> ks[i] == d[i].0
  {
    if d == [] then [] else [d[0].0] + Keys(d[1..])
  }

  /** `d.get(k)`. */
  function Lookup<K(==), V>(d: seq<(K, V)>, k: K): Option<V> {
    if d == [] then None
    else if d[0].0 == k then Some(d[0].1)
    else Lookup(d[1..], k)
  }

  /** `d.get(k)` finds a value exactly when `k` is a key. */
  lemma {:induction false} LookupIffKey<K, V>(d: seq<(K, V)>, k: K)
    ensures Lookup(d, k).Some? <==> k in Keys(d)
    decreases |d|
  {
    if d != [] && d[0].0 != k {
      LookupIffKey(d[1..], k);
      assert Keys(d) == [d[0].0] + Keys(d[1..]);
    }
  }

  /** `d[k] = v`. */
  function Put<K(==), V>(d: seq<(K, V)>, k: K, v: V): seq<(K, V)> {
    if d == [] then [(k, v)]
    else if d[0].0 == k then [(k, v)] + d[1..]
    else [d[0]] + Put(d[1..], k, v)
  }

  /** `d[k] = v` keeps the keys and their order, and appends `k` when it is new. */
  lemma {:induction false} PutKeys<K, V>(d: seq<(K, V)>, k: K, v: V)
    ensures Keys(Put(d, k, v)) == if k in Keys(d) then Keys(d) else Keys(d) + [k]
    decreases |d|
  {
    if d != [] && d[0].0 != k {
      PutKeys(d[1..], k, v);
      assert Keys(d) == [d[0].0] + Keys(d[1..]);
      assert Keys(Put(d, k, v)) == [d[0].0] + Keys(Put(d[1..], k, v));
    }
  }

  /** `d[k] = v` leaves the value of every other key alone. */
  lemma {:induction false} PutOther<K, V>(d: seq<(K, V)>, k: K, v: V, k': K)
    requires k' != k
    ensures Lookup(Put(d, k, v), k') == Lookup(d, k')
    decreases |d|
  {
    if d != [] && d[0].0 != k {
      PutOther(d[1..], k, v, k');
    }
  }

  lemma PutOtherAll<K, V>(d: seq<(K, V)>, k: K, v: V)
    ensures forall k' :: k' != k ==> Lookup(Put(d, k, v), k') == Lookup(d, k')
  {
    forall k' | k' != k ensures Lookup(Put(d, k, v), k') == Lookup(d, k') {
      PutOther(d, k, v, k');
    }
  }

  /** After `d[k] = v`, `d.get(k)` is `v`. */
  lemma {:induction false} PutLookup<K, V>(d: seq<(K, V)>, k: K, v: V)
    ensures Lookup(Put(d, k, v), k) == Some(v)
    decreases |d|
  {
    if d != [] && d[0].0 != k {
      PutLookup(d[1..], k, v);
    }
  }

  /** A second assignment to the same key replaces the first, in the same place. */
  lemma {:induction false} PutPut<K, V>(d: seq<(K, V)>, k: K, v: V, w: V)
    ensures Put(Put(d, k, v), k, w) == Put(d, k, w)
    decreases |d|
  {
    if d != [] && d[0].0 != k {
      PutPut(d[1..], k, v, w);
      assert Put(d, k, v)[1..] == Put(d[1..], k, v);
    }
  }

  /** With distinct keys, every stored pair is what a lookup of its key returns. */
  lemma {:induction false} LookupAt<K, V>(d: seq<(K, V)>, i: nat)
    requires Distinct(Keys(d)) && i < |d|
    ensures Lookup(d, d[i].0) == Some(d[i].1)
    decreases i
  {
    if i > 0 {
      var ks := Keys(d);
      assert ks[0] != ks[i];
      assert Keys(d[1..]) == ks[1..];
      LookupAt(d[1..], i - 1);
    }
  }

  /** Assigning to a new key appends the pair at the end. */
  lemma {:induction false} PutAppendsNew<K, V>(d: seq<(K, V)>, k: K, v: V)
    requires k !in Keys(d)
    ensures Put(d, k, v) == d + [(k, v)]
    decreases |d|
  {
    if d != [] {
      assert k != Keys(d)[0];
      assert Keys(d[1..]) == Keys(d)[1..];
      PutAppendsNew(d[1..], k, v);
      assert [d[0]] + d[1..] == d;
    }
  }

  /** Assigning keeps the keys distinct. */
  lemma PutKeepsDistinct<K, V>(d: seq<(K, V)>, k: K, v: V)
    requires Distinct(Keys(d))
    ensures Distinct(Keys(Put(d, k, v)))
  {
    PutKeys(d, k, v);
    if k !in Keys(d) {
      DistinctSnoc(Keys(d), k);
    }
  }

  /** Appending a pair appends its key. */
  lemma KeysSnoc<K, V>(d: seq<(K, V)>, p: (K, V))
    ensures Keys(d + [p]) == Keys(d) + [p.0]
  {
  }

  /** The keys of a prefix are keys of the whole. */
  lemma KeysOfPrefix<K, V>(d: seq<(K, V)>, r: seq<(K, V)>)
    requires |d| <= |r| && r[..|d|] == d
    ensures forall k :: k in Keys(d) ==> k in Keys(r)
  {
    forall k | k in Keys(d) ensures k in Keys(r) {
      var i :| 0 <= i < |d| && Keys(d)[i] == k;
      assert r[i] == d[i];
      assert Keys(r)[i] == k;
    }
  }

  /** `d.get(k, 0)` on a dict of counts. */
  function CountOf<K(==)>(d: seq<(K, nat)>, k: K): nat {
    match Lookup(d, k)
    case Some(c) => c
    case None => 0
  }

  /** `d[k] = d.get(k, 0) + 1`: one more occurrence of `k`. */
  function Tally<K(==,!new)>(d: seq<(K, nat)>, k: K): (r: seq<(K, nat)>)
    ensures Keys(r) == if k in Keys(d) then Keys(d) else Keys(d) + [k]
    ensures CountOf(r, k) == CountOf(d, k) + 1
    ensures forall k' :: k' != k ==> CountOf(r, k') == CountOf(d, k')
  {
    PutKeys<K, nat>(d, k, CountOf(d, k) + 1);
    PutLookup<K, nat>(d, k, CountOf(d, k) + 1);
    PutOtherAll<K, nat>(d, k, CountOf(d, k) + 1);
    Put<K, nat>(d, k, CountOf(d, k) + 1)
  }

  /** The sum of the stored counts. */
  function Total<K>(d: seq<(K, nat)>): nat
    decreases |d|
  {
    if d == [] then 0 else d[0].1 + Total(d[1..])
  }

  lemma {:induction false} TotalPut<K>(d: seq<(K, nat)>, k: K, v: nat)
    ensures Total(Put(d, k, v)) + CountOf(d, k) == Total(d) + v
    decreases |d|
  {
    if d != [] && d[0].0 != k {
      TotalPut(d[1..], k, v);
    }
  }

  /** A tally adds exactly one to the total. */
  lemma TallyTotal<K(!new)>(d: seq<(K, nat)>, k: K)
    ensures Total(Tally(d, k)) == Total(d) + 1
  {
    TotalPut(d, k, CountOf(d, k) + 1);
  }
}
