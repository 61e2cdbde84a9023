/** Facts about sequences shared by the validators and the metrics. */
module Seqs {

  /** No element occurs twice. */
  predicate Distinct<T(==)>(s: seq<T>) {
    forall i, j :: 0 <= i < j < |s| ==> s[i] != s[j]
  }

  /** Python's `set(s)`. */
  function Elems<T>(s: seq<T>): set<T> {
    set x | x in s
  }

  /** `a` is `b` with some elements dropped and the rest kept in order. */
  predicate IsSubsequence<T(==)>(a: seq<T>, b: seq<T>)
    decreases |b|
  {
    if a == [] then true
    else if b == [] then false
    else if a[|a| - 1] == b[|b| - 1] then IsSubsequence(a[..|a| - 1], b[..|b| - 1])
    else IsSubsequence(a, b[..|b| - 1])
  }

  lemma {:induction false} ElemsOfSnoc<T>(s: seq<T>, x: T)
    ensures Elems(s + [x]) == Elems(s) + {x}
  {
    assert forall y :: y in s + [x] <==> y in s || y == x;
  }

  /** A sequence is duplicate-free exactly when its set is as large as the sequence
      (the `len(ids) != len(set(ids))` test). */
  lemma {:induction false} DistinctIffSameCardinality<T>(s: seq<T>)
    ensures |Elems(s)| <= |s|
    ensures Distinct(s) <==> |Elems(s)| == |s|
    decreases |s|
  {
    if s == [] {
      assert Elems(s) == {};
    } else {
      var init, x := s[..|s| - 1], s[|s| - 1];
      assert s == init + [x];
      DistinctIffSameCardinality(init);
      ElemsOfSnoc(init, x);
      if x in init {
        assert Elems(s) == Elems(init);
        var k :| 0 <= k < |init| && init[k] == x;
        assert s[k] == s[|s| - 1];
        assert !Distinct(s);
      } else {
        assert x !in Elems(init);
        assert |Elems(s)| == |Elems(init)| + 1;
        if Distinct(init) {
          forall i, j | 0 <= i < j < |s| ensures s[i] != s[j] {
            if j == |s| - 1 {
              assert s[i] == init[i];
            } else {
              assert s[i] == init[i] && s[j] == init[j];
            }
          }
        } else {
          var i, j :| 0 <= i < j < |init| && init[i] == init[j];
          assert s[i] == s[j];
        }
      }
    }
  }

  lemma DistinctSnoc<T>(s: seq<T>, x: T)
    ensures Distinct(s + [x]) <==> Distinct(s) && x !in s
  {
    var t := s + [x];
    if x in s {
      var k :| 0 <= k < |s| && s[k] == x;
      assert t[k] == t[|s|];
    }
    if Distinct(t) {
      forall i, j | 0 <= i < j < |s| ensures s[i] != s[j] {
        assert t[i] == s[i] && t[j] == s[j];
      }
    }
    if Distinct(s) && x !in s {
      forall i, j | 0 <= i < j < |t| ensures t[i] != t[j] {
        if j == |s| { assert t[i] == s[i]; } else { assert t[i] == s[i] && t[j] == s[j]; }
      }
    }
  }

  /** A prefix one longer is the prefix and the next element. */
  lemma SliceSnoc<T>(s: seq<T>, i: nat)
    requires i < |s|
    ensures s[..i + 1] == s[..i] + [s[i]]
  {
  }

  /** The blocks `f(xs[0])`, ..., `f(xs[|xs| - 1])` one after the other. */
  function Concat<A, T>(xs: seq<A>, f: A -> seq<T>): seq<T>
    decreases |xs|
  {
    if xs == [] then [] else Concat(xs[..|xs| - 1], f) + f(xs[|xs| - 1])
  }

  /** Block `k` sits right after the blocks before it. */
  lemma {:induction false} ConcatBlock<A, T>(xs: seq<A>, f: A -> seq<T>, k: nat)
    requires k < |xs|
    ensures var lo := |Concat(xs[..k], f)|;
            lo + |f(xs[k])| <= |Concat(xs, f)| && Concat(xs, f)[lo..lo + |f(xs[k])|] == f(xs[k])
    decreases |xs|
  {
    var n := |xs| - 1;
    var lo := |Concat(xs[..k], f)|;
    var hi := lo + |f(xs[k])|;
    if k < n {
      ConcatBlock(xs[..n], f, k);
      assert xs[..n][..k] == xs[..k];
      assert xs[..n][k] == xs[k];
      assert (Concat(xs[..n], f) + f(xs[n]))[lo..hi] == Concat(xs[..n], f)[lo..hi];
    } else {
      assert xs[..k] == xs[..n];
      assert (Concat(xs[..n], f) + f(xs[n]))[lo..hi] == f(xs[n]);
    }
  }
}
