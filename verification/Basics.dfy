/** Small value types and sums shared by the queue modules. */
module Basics {

  datatype Option<+T> = None | Some(value: T)

  predicate Distinct<T(==)>(s: seq<T>) {
    forall i, j :: 0 <= i < j < |s| ==> s[i] != s[j]
  }

  /** The sum of a weight over the values of a finite map. */
  ghost function Sum<K(!new), V(!new)>(m: map<K, V>, w: V -> nat): nat {
    if m == map[] then 0 else
      var k :| k in m;
      w(m[k]) + Sum(m - {k}, w)
  }

  /** Any key may be taken out first. */
  lemma {:induction false} SumRemove<K(!new), V(!new)>(m: map<K, V>, w: V -> nat, k: K)
    requires k in m
    ensures Sum(m, w) == w(m[k]) + Sum(m - {k}, w)
    decreases |m|
  {
    assert m != map[];
    var j :| j in m && Sum(m, w) == w(m[j]) + Sum(m - {j}, w);
    if j != k {
      SumRemove(m - {j}, w, k);
      SumRemove(m - {k}, w, j);
      assert m - {j} - {k} == m - {k} - {j};
    }
  }

  lemma SumUpdate<K(!new), V(!new)>(m: map<K, V>, w: V -> nat, k: K, v: V)
    ensures k in m ==> Sum(m[k := v], w) + w(m[k]) == Sum(m, w) + w(v)
    ensures k !in m ==> Sum(m[k := v], w) == Sum(m, w) + w(v)
  {
    SumRemove(m[k := v], w, k);
    if k in m {
      SumRemove(m, w, k);
      assert m[k := v] - {k} == m - {k};
    } else {
      assert m[k := v] - {k} == m;
    }
  }

  /** Weights that add up pointwise have sums that add up. */
  lemma {:induction false} SumSplit<K(!new), V(!new)>(m: map<K, V>, a: V -> nat, b: V -> nat, c: V -> nat)
    requires forall v :: c(v) == a(v) + b(v)
    ensures Sum(m, c) == Sum(m, a) + Sum(m, b)
    decreases |m|
  {
    if m == map[] {
    } else {
      var k :| k in m;
      SumRemove(m, a, k);
      SumRemove(m, b, k);
      SumRemove(m, c, k);
      SumSplit(m - {k}, a, b, c);
    }
  }

  lemma SizeRemove<K, V>(m: map<K, V>, k: K)
    requires k in m
    ensures |m| == |m - {k}| + 1
  {
    assert (m - {k}).Keys == m.Keys - {k};
  }

  /** Counting every key gives the size. */
  lemma {:induction false} SumOnes<K(!new), V(!new)>(m: map<K, V>, w: V -> nat)
    requires forall v :: w(v) == 1
    ensures Sum(m, w) == |m|
    decreases |m|
  {
    if m == map[] {
    } else {
      var k :| k in m;
      SumRemove(m, w, k);
      SizeRemove(m, k);
      SumOnes(m - {k}, w);
    }
  }

  /** A weight of at most `n` per stored value sums to at most `n` times the size. */
  lemma {:induction false} SumBound<K(!new), V(!new)>(m: map<K, V>, w: V -> nat, n: nat)
    requires forall k :: k in m ==> w(m[k]) <= n
    ensures Sum(m, w) <= n * |m|
    decreases |m|
  {
    if m == map[] {
    } else {
      var k :| k in m;
      SumRemove(m, w, k);
      SizeRemove(m, k);
      SumBound(m - {k}, w, n);
      OneMore(n, |m - {k}|);
    }
  }

  lemma OneMore(n: nat, c: nat)
    ensures n * (c + 1) == n * c + n
  {
  }
}
