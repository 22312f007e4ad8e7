/**
 * Sequence operations the charts and routers are built from:
 * `Array.from(new Set(xs))` (distinct values in first-seen order),
 * `Array.from(new Set(xs)).sort()` for numbers and strings,
 * `indexOf`, and a stable sort by a numeric key in descending order
 * (`arr.sort((a, b) => key(b) - key(a))`, Python's `list.sort(key, reverse=True)`).
 */
module Collections {
  import opened Text

  // ------------------------------------------------------------ tabulate

  /** The sequence f(0), ..., f(n - 1), built one element at a time. */
  function Tabulate<T>(n: nat, f: nat --> T): (r: seq<T>)
    requires forall i | 0 <= i < n :: f.requires(i)
    ensures |r| == n
  {
    if n == 0 then [] else Tabulate(n - 1, f) + [f(n - 1)]
  }

  lemma {:induction false} TabulateAt<T>(n: nat, f: nat --> T)
    requires forall i | 0 <= i < n :: f.requires(i)
    ensures forall i | 0 <= i < n :: Tabulate(n, f)[i] == f(i)
  {
    if n > 0 {
      TabulateAt(n - 1, f);
    }
  }

  // ------------------------------------------------------ distinct values

  predicate NoDuplicates<T(==)>(s: seq<T>) {
    forall i, j | 0 <= i < j < |s| :: s[i] != s[j]
  }

  /** `Array.from(new Set(xs))`: each value once, in the order it is first met. */
  function DistinctInOrder<T(==)>(xs: seq<T>): (r: seq<T>)
    ensures NoDuplicates(r)
    ensures |r| <= |xs|
  {
    if xs == [] then []
    else
      var d := DistinctInOrder(xs[..|xs| - 1]);
      if xs[|xs| - 1] in d then d else d + [xs[|xs| - 1]]
  }

  /** The distinct values are exactly the values of xs. */
  lemma {:induction false} DistinctInOrderMembers<T>(xs: seq<T>)
    ensures forall x :: x in DistinctInOrder(xs) <==> x in xs
  {
    if xs != [] {
      var init := xs[..|xs| - 1];
      DistinctInOrderMembers(init);
      assert xs == init + [xs[|xs| - 1]];
    }
  }

  /** A prefix that already holds no duplicates survives deduplication unchanged. */
  lemma {:induction false} DistinctInOrderKeepsPrefix<T>(p: seq<T>, xs: seq<T>)
    requires NoDuplicates(p)
    ensures |DistinctInOrder(p + xs)| >= |p|
    ensures DistinctInOrder(p + xs)[..|p|] == p
  {
    if xs == [] {
      DistinctOfDistinct(p);
      assert p + xs == p;
    } else {
      var ys := p + xs;
      assert ys[..|ys| - 1] == p + xs[..|xs| - 1];
      DistinctInOrderKeepsPrefix(p, xs[..|xs| - 1]);
      var d := DistinctInOrder(ys[..|ys| - 1]);
      var last := ys[|ys| - 1];
      assert DistinctInOrder(ys) == if last in d then d else d + [last];
      PrefixOfAppend(d, [last], |p|);
    }
  }

  lemma PrefixOfAppend<T>(a: seq<T>, b: seq<T>, k: nat)
    requires k <= |a|
    ensures (a + b)[..k] == a[..k]
  {
  }

  /** One more element joins the distinct elements only when it is new. */
  lemma DistinctInOrderSnoc<T>(xs: seq<T>, x: T)
    ensures DistinctInOrder(xs + [x]) == if x in DistinctInOrder(xs) then DistinctInOrder(xs) else DistinctInOrder(xs) + [x]
  {
    assert (xs + [x])[..|xs|] == xs;
  }

  lemma {:induction false} DistinctOfDistinct<T>(p: seq<T>)
    requires NoDuplicates(p)
    ensures DistinctInOrder(p) == p
  {
    if p != [] {
      DistinctOfDistinct(p[..|p| - 1]);
      assert p == p[..|p| - 1] + [p[|p| - 1]];
    }
  }

  // --------------------------------------------------- sorted, distinct ints

  /** Taking position k out of a duplicate-free sequence removes exactly the value there. */
  lemma RemoveAt<T>(b: seq<T>, k: nat)
    requires NoDuplicates(b) && k < |b|
    ensures NoDuplicates(b[..k] + b[k + 1..])
    ensures forall y :: y in b[..k] + b[k + 1..] <==> y in b && y != b[k]
  {
    var b' := b[..k] + b[k + 1..];
    forall i | 0 <= i < |b'| ensures b'[i] == b[if i < k then i else i + 1] {
    }
    forall y ensures y in b' <==> y in b && y != b[k] {
      if y in b {
        var j :| 0 <= j < |b| && b[j] == y;
        if j < k { assert b'[j] == y; } else if j > k { assert b'[j - 1] == y; }
      }
    }
  }

  /** Two duplicate-free sequences with the same members are permutations of each other. */
  lemma {:induction false} SameMembersPermutation<T>(a: seq<T>, b: seq<T>)
    requires NoDuplicates(a) && NoDuplicates(b)
    requires forall x :: x in a <==> x in b
    ensures multiset(a) == multiset(b)
  {
    assert |b| == 0 || b[0] in a;
    if a != [] {
      var x := a[|a| - 1];
      assert x in b;
      var k :| 0 <= k < |b| && b[k] == x;
      DropShared(a, b, k);
      SameMembersPermutation(a[..|a| - 1], b[..k] + b[k + 1..]);
    }
  }

  /** Removing a shared element, the last of a and the k-th of b, leaves two duplicate-free sequences with the same members. */
  lemma DropShared<T>(a: seq<T>, b: seq<T>, k: nat)
    requires NoDuplicates(a) && NoDuplicates(b)
    requires forall x :: x in a <==> x in b
    requires a != [] && k < |b| && b[k] == a[|a| - 1]
    ensures var a', b' := a[..|a| - 1], b[..k] + b[k + 1..];
      && NoDuplicates(a') && NoDuplicates(b')
      && (forall y :: y in a' <==> y in b')
      && multiset(a) == multiset(a') + multiset{a[|a| - 1]}
      && multiset(b) == multiset(b') + multiset{b[k]}
  {
    var x := a[|a| - 1];
    var a', b' := a[..|a| - 1], b[..k] + b[k + 1..];
    assert a == a' + [x];
    assert b == b[..k] + [x] + b[k + 1..];
    RemoveAt(a, |a| - 1);
    assert a[..|a| - 1] + a[|a|..] == a';
    RemoveAt(b, k);
    forall y ensures y in a' <==> y in b' {
      assert y in a <==> y in b;
    }
  }

  predicate StrictlyIncreasing(s: seq<int>) {
    forall i, j | 0 <= i < j < |s| :: s[i] < s[j]
  }

  function InsertInt(x: int, s: seq<int>): (r: seq<int>)
    requires StrictlyIncreasing(s)
    ensures StrictlyIncreasing(r)
    ensures forall y :: y in r <==> y in s || y == x
  {
    if s == [] then [x]
    else if x == s[0] then s
    else if x < s[0] then [x] + s
    else
      var r := [s[0]] + InsertInt(x, s[1..]);
      assert StrictlyIncreasing(r) by {
        forall j | 1 <= j < |r| ensures r[0] < r[j] {
          assert r[j] in s[1..] || r[j] == x;
        }
      }
      r
  }

  /** `Array.from(new Set(xs)).sort((a, b) => a - b)`: the distinct values, ascending. */
  function SortedDistinctInts(xs: seq<int>): (r: seq<int>)
    ensures StrictlyIncreasing(r)
    ensures forall y :: y in r <==> y in xs
  {
    if xs == [] then [] else InsertInt(xs[|xs| - 1], SortedDistinctInts(xs[..|xs| - 1]))
  }

  // ------------------------------------------------ sorted, distinct strings

  predicate StrictlyIncreasingText(s: seq<string>) {
    forall i, j | 0 <= i < j < |s| :: LexLess(s[i], s[j])
  }

  function InsertText(x: string, s: seq<string>): (r: seq<string>)
    requires StrictlyIncreasingText(s)
    ensures StrictlyIncreasingText(r)
    ensures forall y :: y in r <==> y in s || y == x
  {
    if s == [] then [x]
    else if x == s[0] then s
    else if LexLess(x, s[0]) then
      assert StrictlyIncreasingText([x] + s) by {
        forall k | 0 <= k < |s| ensures LexLess(x, s[k]) {
          if k > 0 { LexLessTransitive(x, s[0], s[k]); }
        }
      }
      [x] + s
    else
      LexLessTotal(x, s[0]);
      var r := [s[0]] + InsertText(x, s[1..]);
      assert StrictlyIncreasingText(r) by {
        forall j | 1 <= j < |r| ensures LexLess(r[0], r[j]) {
          assert r[j] in s[1..] || r[j] == x;
        }
      }
      r
  }

  lemma StrictlyIncreasingTextDistinct(s: seq<string>)
    requires StrictlyIncreasingText(s)
    ensures NoDuplicates(s)
  {
    forall i, j | 0 <= i < j < |s| ensures s[i] != s[j] {
      if s[i] == s[j] {
        LexLessIrreflexive(s[i]);
      }
    }
  }

  /** `Array.from(new Set(xs)).sort()` on strings: the distinct values, ascending. */
  function SortedDistinctText(xs: seq<string>): (r: seq<string>)
    ensures StrictlyIncreasingText(r)
    ensures forall y :: y in r <==> y in xs
  {
    if xs == [] then [] else InsertText(xs[|xs| - 1], SortedDistinctText(xs[..|xs| - 1]))
  }

  /** Sorting the distinct strings depends only on which names occur. */
  lemma {:induction false} SortedDistinctSameMembers(a: seq<string>, b: seq<string>)
    requires forall x :: x in a <==> x in b
    ensures SortedDistinctText(a) == SortedDistinctText(b)
  {
    var ra, rb := SortedDistinctText(a), SortedDistinctText(b);
    StrictlyIncreasingTextDistinct(ra);
    StrictlyIncreasingTextDistinct(rb);
    StrictlyIncreasingTextUnique(ra, rb);
  }

  /** A strictly increasing sequence of strings is determined by its members. */
  lemma {:induction false} StrictlyIncreasingTextUnique(a: seq<string>, b: seq<string>)
    requires StrictlyIncreasingText(a) && StrictlyIncreasingText(b)
    requires forall x :: x in a <==> x in b
    ensures a == b
  {
    assert a == [] <==> b == [] by {
      if a != [] { assert a[0] in b; }
      if b != [] { assert b[0] in a; }
    }
    if a != [] {
      assert a[0] == b[0] by {
        if a[0] != b[0] {
          assert a[0] in b && b[0] in a;
          var i :| 0 <= i < |b| && b[i] == a[0];
          var j :| 0 <= j < |a| && a[j] == b[0];
          assert i > 0 && j > 0;
          assert LexLess(b[0], a[0]) && LexLess(a[0], b[0]);
          LexLessAsymmetric(a[0], b[0]);
        }
      }
      forall x ensures x in a[1..] <==> x in b[1..] {
        if x in a[1..] {
          var i :| 0 <= i < |a[1..]| && a[1..][i] == x;
          assert a[i + 1] == x && LexLess(a[0], x);
          LexLessIrreflexive(x);
          assert x in b;
          var j :| 0 <= j < |b| && b[j] == x;
          assert j != 0;
          assert b[1..][j - 1] == x;
        }
        if x in b[1..] {
          var i :| 0 <= i < |b[1..]| && b[1..][i] == x;
          assert b[i + 1] == x && LexLess(b[0], x);
          LexLessIrreflexive(x);
          assert x in a;
          var j :| 0 <= j < |a| && a[j] == x;
          assert j != 0;
          assert a[1..][j - 1] == x;
        }
      }
      StrictlyIncreasingTextUnique(a[1..], b[1..]);
      assert a == [a[0]] + a[1..] && b == [b[0]] + b[1..];
    }
  }

  // ------------------------------------------------------------- indexOf

  /** `s.indexOf(x)`: the first position holding x, or -1. */
  function IndexOf<T(==)>(s: seq<T>, x: T): (r: int)
    ensures -1 <= r < |s|
    ensures r == -1 <==> x !in s
    ensures r >= 0 ==> s[r] == x && forall j | 0 <= j < r :: s[j] != x
  {
    if s == [] then -1
    else if s[0] == x then 0
    else var k := IndexOf(s[1..], x); if k == -1 then -1 else k + 1
  }

  /** `s.find(p)` / `next((x for x in s if p(x)), None)`, as the index found or -1. */
  function FirstMatch<T>(s: seq<T>, p: T -> bool): (k: int)
    ensures -1 <= k < |s|
    ensures k == -1 <==> forall i | 0 <= i < |s| :: !p(s[i])
    ensures k >= 0 ==> p(s[k]) && forall j | 0 <= j < k :: !p(s[j])
  {
    if s == [] then -1
    else if p(s[0]) then 0
    else var k := FirstMatch(s[1..], p); if k == -1 then -1 else k + 1
  }

  // ------------------------------------------------- stable descending sort

  predicate NonIncreasingBy<T>(s: seq<T>, key: T -> real) {
    forall i, j | 0 <= i < j < |s| :: key(s[i]) >= key(s[j])
  }

  /** The elements whose key is v, in their order in s. */
  function WithKey<T>(s: seq<T>, key: T -> real, v: real): seq<T> {
    if s == [] then []
    else (if key(s[0]) == v then [s[0]] else []) + WithKey(s[1..], key, v)
  }

  lemma WithKeySingle<T>(a: T, key: T -> real, v: real)
    ensures WithKey([a], key, v) == if key(a) == v then [a] else []
  {
    assert [a][1..] == [];
    assert WithKey([a][1..], key, v) == [];
  }

  lemma {:induction false} WithKeyAppend<T>(a: seq<T>, b: seq<T>, key: T -> real, v: real)
    ensures WithKey(a + b, key, v) == WithKey(a, key, v) + WithKey(b, key, v)
  {
    if a != [] {
      assert (a + b)[0] == a[0];
      assert (a + b)[1..] == a[1..] + b;
      WithKeyAppend(a[1..], b, key, v);
      calc {
        WithKey(a + b, key, v);
        (if key(a[0]) == v then [a[0]] else []) + WithKey(a[1..] + b, key, v);
        (if key(a[0]) == v then [a[0]] else []) + (WithKey(a[1..], key, v) + WithKey(b, key, v));
      }
    } else {
      assert a + b == b;
    }
  }

  /** Inserts x before the first element whose key is not larger than x's. */
  function InsertDesc<T(==)>(x: T, s: seq<T>, key: T -> real): (r: seq<T>)
    requires NonIncreasingBy(s, key)
    ensures NonIncreasingBy(r, key)
    ensures multiset(r) == multiset(s) + multiset{x}
  {
    if s == [] || key(s[0]) <= key(x) then
      [x] + s
    else
      var t := InsertDesc(x, s[1..], key);
      InsertDescBelow(x, s, t, key);
      ConsNonIncreasing(s[0], t, key);
      assert s == [s[0]] + s[1..];
      [s[0]] + t
  }

  /** Every element of the insertion into the tail has a key at most the head's. */
  lemma InsertDescBelow<T>(x: T, s: seq<T>, t: seq<T>, key: T -> real)
    requires s != [] && NonIncreasingBy(s, key) && key(x) < key(s[0])
    requires multiset(t) == multiset(s[1..]) + multiset{x}
    ensures forall j | 0 <= j < |t| :: key(t[j]) <= key(s[0])
  {
    forall j | 0 <= j < |t| ensures key(t[j]) <= key(s[0]) {
      assert t[j] in multiset(t);
      if t[j] != x {
        assert t[j] in multiset(s[1..]);
        var k :| 0 <= k < |s[1..]| && s[1..][k] == t[j];
        assert s[k + 1] == t[j];
      }
    }
  }

  lemma ConsNonIncreasing<T>(a: T, t: seq<T>, key: T -> real)
    requires NonIncreasingBy(t, key)
    requires forall j | 0 <= j < |t| :: key(t[j]) <= key(a)
    ensures NonIncreasingBy([a] + t, key)
  {
    var r := [a] + t;
    forall i, j | 0 <= i < j < |r| ensures key(r[i]) >= key(r[j]) {
      if i > 0 {
        assert r[i] == t[i - 1] && r[j] == t[j - 1];
      } else {
        assert r[j] == t[j - 1];
      }
    }
  }

  /** Inserting x puts it before every element that has the same key. */
  lemma {:induction false} InsertDescStable<T>(x: T, s: seq<T>, key: T -> real, v: real)
    requires NonIncreasingBy(s, key)
    ensures WithKey(InsertDesc(x, s, key), key, v) == (if key(x) == v then [x] else []) + WithKey(s, key, v)
  {
    if s == [] || key(s[0]) <= key(x) {
      WithKeyAppend([x], s, key, v);
    } else {
      var t := InsertDesc(x, s[1..], key);
      InsertDescStable(x, s[1..], key, v);
      PrependLarger(s[0], x, t, s[1..], key, v);
      assert s == [s[0]] + s[1..];
      assert InsertDesc(x, s, key) == [s[0]] + t;
    }
  }

  /** Putting an element with a larger key than x in front keeps x's place among the elements of key v. */
  lemma PrependLarger<T>(a: T, x: T, t: seq<T>, r: seq<T>, key: T -> real, v: real)
    requires key(x) < key(a)
    requires WithKey(t, key, v) == (if key(x) == v then [x] else []) + WithKey(r, key, v)
    ensures WithKey([a] + t, key, v) == (if key(x) == v then [x] else []) + WithKey([a] + r, key, v)
  {
    WithKeySingle(a, key, v);
    WithKeyAppend([a], t, key, v);
    WithKeyAppend([a], r, key, v);
  }

  /**
   * A stable sort by descending key: the result is ordered by non-increasing
   * key and is a permutation of the input (SortDescStable: elements with equal
   * keys keep their input order).
   */
  function SortDesc<T(==)>(s: seq<T>, key: T -> real): (r: seq<T>)
    ensures NonIncreasingBy(r, key)
    ensures multiset(r) == multiset(s)
    ensures |r| == |s|
  {
    if s == [] then []
    else
      assert s == [s[0]] + s[1..];
      InsertDesc(s[0], SortDesc(s[1..], key), key)
  }

  lemma {:induction false} SortDescStable<T>(s: seq<T>, key: T -> real, v: real)
    ensures WithKey(SortDesc(s, key), key, v) == WithKey(s, key, v)
  {
    if s != [] {
      SortDescStable(s[1..], key, v);
      InsertDescStable(s[0], SortDesc(s[1..], key), key, v);
      WithKeyAppend([s[0]], s[1..], key, v);
      assert s == [s[0]] + s[1..];
    }
  }
  // ------------------------------------------------------------- summing

  /** `sum(key(x) for x in s)`, added left to right from 0. */
  function SumBy<T>(s: seq<T>, key: T -> real): real {
    if s == [] then 0.0 else SumBy(s[..|s| - 1], key) + key(s[|s| - 1])
  }

  lemma {:induction false} SumByAppend<T>(a: seq<T>, b: seq<T>, key: T -> real)
    ensures SumBy(a + b, key) == SumBy(a, key) + SumBy(b, key)
  {
    if b == [] {
      assert a + b == a;
    } else {
      assert (a + b)[..|a + b| - 1] == a + b[..|b| - 1];
      SumByAppend(a, b[..|b| - 1], key);
    }
  }

  lemma SumBySnoc<T>(s: seq<T>, x: T, key: T -> real)
    ensures SumBy(s + [x], key) == SumBy(s, key) + key(x)
  {
    assert (s + [x])[..|s|] == s;
  }

  lemma PrefixSnoc<T>(s: seq<T>, k: nat)
    requires k < |s|
    ensures s[..k + 1] == s[..k] + [s[k]]
  {
  }

  lemma SumBySingle<T>(x: T, key: T -> real)
    ensures SumBy([x], key) == key(x)
  {
    assert [x][..0] == [];
  }

  /** Taking out one element takes its key out of the sum. */
  lemma SumByRemove<T>(s: seq<T>, k: nat, key: T -> real)
    requires k < |s|
    ensures SumBy(s, key) == SumBy(s[..k] + s[k + 1..], key) + key(s[k])
  {
    var p, x, q := s[..k], s[k], s[k + 1..];
    assert SumBy(s, key) == SumBy(p + [x], key) + SumBy(q, key) by {
      assert s == (p + [x]) + q;
      SumByAppend(p + [x], q, key);
    }
    assert SumBy(p + [x], key) == SumBy(p, key) + key(x) by {
      SumBySnoc(p, x, key);
    }
    assert SumBy(p + q, key) == SumBy(p, key) + SumBy(q, key) by {
      SumByAppend(p, q, key);
    }
  }

  /** Reordering does not change a sum: sorting keeps the total. */
  lemma {:induction false} SumByPermutation<T>(a: seq<T>, b: seq<T>, key: T -> real)
    requires multiset(a) == multiset(b)
    ensures SumBy(a, key) == SumBy(b, key)
  {
    if a == [] {
      assert |b| == |multiset(b)| == 0;
    } else {
      var x := a[|a| - 1];
      assert x in multiset(b) by {
        assert x in multiset(a);
      }
      var k :| 0 <= k < |b| && b[k] == x;
      var a', b' := a[..|a| - 1], b[..k] + b[k + 1..];
      DropMatched(a, b, k);
      SumByPermutation(a', b', key);
      assert SumBy(a, key) == SumBy(a', key) + key(x) by {
        assert a == a' + [x];
        SumBySnoc(a', x, key);
      }
      SumByRemove(b, k, key);
    }
  }

  /** Taking the last of a and an equal element of b out of two permutations leaves two permutations. */
  lemma DropMatched<T>(a: seq<T>, b: seq<T>, k: nat)
    requires multiset(a) == multiset(b) && a != [] && k < |b| && b[k] == a[|a| - 1]
    ensures multiset(a[..|a| - 1]) == multiset(b[..k] + b[k + 1..])
  {
    var x, a', b' := a[|a| - 1], a[..|a| - 1], b[..k] + b[k + 1..];
    assert a == a' + [x];
    assert multiset(a) == multiset(a') + multiset{x};
    assert b == b[..k] + [x] + b[k + 1..];
    assert multiset(b) == multiset(b[..k]) + multiset{x} + multiset(b[k + 1..]);
    assert multiset(b') == multiset(b[..k]) + multiset(b[k + 1..]);
    assert multiset(b') == multiset(b) - multiset{x};
  }
}
