/**
 * Summing values by key with the keys kept in first-seen order: a Python
 * dict filled with `setdefault(k, 0.0)` then `+=`, or a JavaScript object or
 * Map filled with `m[k] = (m[k] || 0) + v`. The table is laid out as its
 * keys in insertion order and the aligned values.
 */
module Grouping {
  import opened Collections

  /** The keys of the pairs, in order, with repeats. */
  function Firsts<K>(pairs: seq<(K, real)>): (r: seq<K>)
    ensures |r| == |pairs|
  {
    seq(|pairs|, i requires 0 <= i < |pairs| => pairs[i].0)
  }

  /** The sum of the values filed under k. */
  function GroupSum<K(==)>(pairs: seq<(K, real)>, k: K): real {
    if pairs == [] then 0.0
    else GroupSum(pairs[..|pairs| - 1], k) + (if pairs[|pairs| - 1].0 == k then pairs[|pairs| - 1].1 else 0.0)
  }

  /** A key nothing is filed under sums to 0. */
  lemma {:induction false} GroupSumAbsent<K>(pairs: seq<(K, real)>, k: K)
    requires k !in Firsts(pairs)
    ensures GroupSum(pairs, k) == 0.0
  {
    if pairs != [] {
      assert Firsts(pairs)[|pairs| - 1] == pairs[|pairs| - 1].0;
      assert Firsts(pairs[..|pairs| - 1]) == Firsts(pairs)[..|pairs| - 1];
      GroupSumAbsent(pairs[..|pairs| - 1], k);
    }
  }

  /** After the pairs done: the keys seen so far, in order, each holding the sum of its values. */
  predicate Grouped<K(==)>(done: seq<(K, real)>, keys: seq<K>, values: seq<real>) {
    && keys == DistinctInOrder(Firsts(done))
    && |values| == |keys|
    && forall i | 0 <= i < |keys| :: values[i] == GroupSum(done, keys[i])
  }

  lemma GroupKeysStep<K>(done: seq<(K, real)>, p: (K, real))
    ensures DistinctInOrder(Firsts(done + [p])) ==
      var d := DistinctInOrder(Firsts(done)); if p.0 in d then d else d + [p.0]
  {
    assert Firsts(done + [p]) == Firsts(done) + [p.0];
    DistinctInOrderSnoc(Firsts(done), p.0);
  }

  lemma GroupSumStep<K>(done: seq<(K, real)>, p: (K, real), k: K)
    ensures GroupSum(done + [p], k) == GroupSum(done, k) + (if p.0 == k then p.1 else 0.0)
  {
    assert (done + [p])[..|done|] == done;
  }

  /** A pair under a key not seen before appends that key, holding the pair's value added to 0. */
  lemma GroupNew<K>(done: seq<(K, real)>, p: (K, real), keys: seq<K>, values: seq<real>)
    requires Grouped(done, keys, values) && p.0 !in keys
    ensures Grouped(done + [p], keys + [p.0], values + [0.0 + p.1])
  {
    assert keys + [p.0] == DistinctInOrder(Firsts(done + [p])) by {
      GroupKeysStep(done, p);
    }
    assert p.0 !in Firsts(done) by {
      DistinctInOrderMembers(Firsts(done));
    }
    GroupSumAbsent(done, p.0);
    var keys', values' := keys + [p.0], values + [0.0 + p.1];
    assert |values'| == |keys'|;
    forall i | 0 <= i < |keys'| ensures values'[i] == GroupSum(done + [p], keys'[i]) {
      GroupSumStep(done, p, keys'[i]);
    }
  }

  /** A pair under a key already seen adds its value to that key alone. */
  lemma GroupSeen<K>(done: seq<(K, real)>, p: (K, real), keys: seq<K>, values: seq<real>, idx: nat)
    requires Grouped(done, keys, values)
    requires idx < |keys| && keys[idx] == p.0
    ensures Grouped(done + [p], keys, values[idx := values[idx] + p.1])
  {
    assert keys == DistinctInOrder(Firsts(done + [p])) by {
      GroupKeysStep(done, p);
    }
    var values' := values[idx := values[idx] + p.1];
    forall i | 0 <= i < |keys| ensures values'[i] == GroupSum(done + [p], keys[i]) {
      GroupSumStep(done, p, keys[i]);
      if i != idx {
        assert keys[i] != keys[idx] by {
          assert NoDuplicates(keys);
        }
      }
    }
  }

  /**
   * The accumulation loop: a key is added with 0 the first time it is seen
   * and each value is added to its key's entry.
   */
  method GroupSums<K(==)>(pairs: seq<(K, real)>) returns (keys: seq<K>, values: seq<real>)
    ensures keys == DistinctInOrder(Firsts(pairs))
    ensures |values| == |keys|
    ensures forall i | 0 <= i < |keys| :: values[i] == GroupSum(pairs, keys[i])
  {
    keys, values := [], [];
    for j := 0 to |pairs|
      invariant Grouped(pairs[..j], keys, values)
    {
      var done, p := pairs[..j], pairs[j];
      assert pairs[..j + 1] == done + [p];
      var idx := IndexOf(keys, p.0);
      if idx < 0 {
        GroupNew(done, p, keys, values);
        keys := keys + [p.0];
        values := values + [0.0 + p.1];
      } else {
        GroupSeen(done, p, keys, values, idx);
        values := values[idx := values[idx] + p.1];
      }
    }
    assert pairs[..|pairs|] == pairs;
  }

  /** `m[k] || 0`: the value stored under k, 0 when k is absent. */
  function ValueOr0<K(==)>(keys: seq<K>, values: seq<real>, k: K): real
    requires |values| == |keys|
  {
    var i := IndexOf(keys, k);
    if i < 0 then 0.0 else values[i]
  }

  /** Reading a finished table: every key, stored or not, reads as the sum of its values. */
  lemma ValueOr0IsGroupSum<K>(pairs: seq<(K, real)>, keys: seq<K>, values: seq<real>, k: K)
    requires Grouped(pairs, keys, values)
    ensures ValueOr0(keys, values, k) == GroupSum(pairs, k)
  {
    if k !in keys {
      DistinctInOrderMembers(Firsts(pairs));
      GroupSumAbsent(pairs, k);
    }
  }

  /** The sum of the groups ks. */
  function GroupTotal<K(==)>(pairs: seq<(K, real)>, ks: seq<K>): real {
    if ks == [] then 0.0 else GroupTotal(pairs, ks[..|ks| - 1]) + GroupSum(pairs, ks[|ks| - 1])
  }

  /** The sum of all values. */
  function PairsTotal<K>(pairs: seq<(K, real)>): real {
    if pairs == [] then 0.0 else PairsTotal(pairs[..|pairs| - 1]) + pairs[|pairs| - 1].1
  }

  /** Over distinct keys, one more pair adds its value once if its key is among them, else not at all. */
  lemma {:induction false} GroupTotalStep<K>(done: seq<(K, real)>, p: (K, real), ks: seq<K>)
    requires NoDuplicates(ks)
    ensures GroupTotal(done + [p], ks) == GroupTotal(done, ks) + (if p.0 in ks then p.1 else 0.0)
  {
    if ks != [] {
      var init, last := ks[..|ks| - 1], ks[|ks| - 1];
      assert ks == init + [last];
      GroupTotalStep(done, p, init);
      GroupSumStep(done, p, last);
      if p.0 == last {
        assert p.0 !in init;
      }
    }
  }

  /** No value is lost or counted twice: the groups add up to the total of the values. */
  lemma {:induction false} GroupTotalConserves<K>(pairs: seq<(K, real)>)
    ensures GroupTotal(pairs, DistinctInOrder(Firsts(pairs))) == PairsTotal(pairs)
  {
    if pairs != [] {
      var done, p := pairs[..|pairs| - 1], pairs[|pairs| - 1];
      assert pairs == done + [p];
      GroupTotalConserves(done);
      GroupKeysStep(done, p);
      var d := DistinctInOrder(Firsts(done));
      GroupTotalStep(done, p, d);
      if p.0 !in d {
        assert (d + [p.0])[..|d|] == d;
        GroupSumStep(done, p, p.0);
        DistinctInOrderMembers(Firsts(done));
        GroupSumAbsent(done, p.0);
      }
    }
  }

  /** The sum of the groups is the sum of GroupSum over the keys, so it does not depend on their order. */
  lemma {:induction false} GroupTotalIsSumBy<K>(pairs: seq<(K, real)>, ks: seq<K>)
    ensures GroupTotal(pairs, ks) == SumBy(ks, k => GroupSum(pairs, k))
  {
    if ks != [] {
      GroupTotalIsSumBy(pairs, ks[..|ks| - 1]);
    }
  }

  lemma GroupTotalReorder<K>(pairs: seq<(K, real)>, a: seq<K>, b: seq<K>)
    requires multiset(a) == multiset(b)
    ensures GroupTotal(pairs, a) == GroupTotal(pairs, b)
  {
    GroupTotalIsSumBy(pairs, a);
    GroupTotalIsSumBy(pairs, b);
    SumByPermutation(a, b, k => GroupSum(pairs, k));
  }

  /** With non-negative values, no group exceeds the total. */
  lemma {:induction false} GroupSumBounds<K>(pairs: seq<(K, real)>, k: K)
    requires forall i | 0 <= i < |pairs| :: pairs[i].1 >= 0.0
    ensures 0.0 <= GroupSum(pairs, k) <= PairsTotal(pairs)
  {
    if pairs != [] {
      GroupSumBounds(pairs[..|pairs| - 1], k);
    }
  }
}
