/**
  Sequence helpers for `Array.prototype.filter` and for ordered listings:
  the database's `order(column)` and JavaScript's `sort` with a numeric
  comparator.
*/
module Seqs {

  /** `xs.filter(p)`: the elements satisfying `p`, in their original order. */
  function Filter<T>(xs: seq<T>, p: T -> bool): (r: seq<T>)
    ensures |r| <= |xs|
    ensures forall k :: 0 <= k < |r| ==> r[k] in xs && p(r[k])
    ensures forall k :: 0 <= k < |xs| && p(xs[k]) ==> xs[k] in r
    decreases |xs|
  {
    if |xs| == 0 then []
    else
      var rest := Filter(xs[1..], p);
      assert xs == [xs[0]] + xs[1..];
      if p(xs[0]) then [xs[0]] + rest else rest
  }

  /** Two tests that agree on every element keep the same elements. */
  lemma {:induction false} FilterCongruent<T>(xs: seq<T>, p: T -> bool, q: T -> bool)
    requires forall k :: 0 <= k < |xs| ==> p(xs[k]) == q(xs[k])
    ensures Filter(xs, p) == Filter(xs, q)
    decreases |xs|
  {
    if |xs| > 0 {
      FilterCongruent(xs[1..], p, q);
    }
  }

  /** Filtering a sequence with one more element at the end. */
  lemma {:induction false} FilterSnoc<T>(xs: seq<T>, x: T, p: T -> bool)
    ensures Filter(xs + [x], p) == Filter(xs, p) + (if p(x) then [x] else [])
  {
    FilterConcat(xs, [x], p);
    assert Filter([x], p) == (if p(x) then [x] else []) by {
      assert [x][1..] == [];
    }
  }

  /** Filtering a concatenation filters each part. */
  lemma {:induction false} FilterConcat<T>(xs: seq<T>, ys: seq<T>, p: T -> bool)
    ensures Filter(xs + ys, p) == Filter(xs, p) + Filter(ys, p)
    decreases |xs|
  {
    if |xs| == 0 {
      assert xs + ys == ys;
    } else {
      var zs := xs + ys;
      assert zs[0] == xs[0] && zs[1..] == xs[1..] + ys;
      FilterConcat(xs[1..], ys, p);
      FilterUnfold(zs, p);
      FilterUnfold(xs, p);
    }
  }

  lemma FilterUnfold<T>(xs: seq<T>, p: T -> bool)
    requires |xs| > 0
    ensures Filter(xs, p) == (if p(xs[0]) then [xs[0]] else []) + Filter(xs[1..], p)
  {
  }

  /** `xs.map(f)`. */
  function Map<T, U>(xs: seq<T>, f: T -> U): (r: seq<U>)
    ensures |r| == |xs|
    ensures forall k :: 0 <= k < |xs| ==> r[k] == f(xs[k])
  {
    seq(|xs|, k requires 0 <= k < |xs| => f(xs[k]))
  }

  /** `xs.map(x => p(x) ? f(x) : x)`: the elements satisfying `p` replaced by their image, the rest kept. */
  function Update<T>(xs: seq<T>, p: T -> bool, f: T -> T): (r: seq<T>)
    ensures |r| == |xs|
    ensures forall k :: 0 <= k < |xs| ==> r[k] == if p(xs[k]) then f(xs[k]) else xs[k]
  {
    Map(xs, (x: T) => if p(x) then f(x) else x)
  }

  /** When `f` keeps `p`, the updated elements satisfying `p` are the images of the original ones. */
  lemma {:induction false} FilterUpdate<T>(xs: seq<T>, p: T -> bool, f: T -> T)
    requires forall k :: 0 <= k < |xs| && p(xs[k]) ==> p(f(xs[k]))
    ensures Filter(Update(xs, p, f), p) == Map(Filter(xs, p), f)
    decreases |xs|
  {
    if |xs| > 0 {
      var u := Update(xs, p, f);
      assert u[1..] == Update(xs[1..], p, f);
      FilterUpdate(xs[1..], p, f);
      FilterUnfold(u, p);
      FilterUnfold(xs, p);
      if p(xs[0]) {
        assert u[0] == f(xs[0]);
        MapCons(xs[0], Filter(xs[1..], p), f);
      } else {
        assert u[0] == xs[0];
      }
    }
  }

  lemma MapCons<T, U>(x: T, xs: seq<T>, f: T -> U)
    ensures Map([x] + xs, f) == [f(x)] + Map(xs, f)
  {
  }

  /** Two sequences with the same elements have the same members. */
  lemma PermutationMembers<T>(xs: seq<T>, ys: seq<T>)
    requires multiset(xs) == multiset(ys)
    ensures forall k :: 0 <= k < |xs| ==> xs[k] in ys
  {
    forall k | 0 <= k < |xs| ensures xs[k] in ys {
      assert xs[k] in multiset(xs);
    }
  }

  /** Sorting a sequence whose last element has a strictly larger key than all others leaves that element last. */
  lemma LargestKeySortsLast<T>(xs: seq<T>, x: T, key: T -> int)
    requires forall k :: 0 <= k < |xs| ==> key(xs[k]) < key(x)
    ensures SortBy(xs + [x], key)[|xs|] == x
  {
    var ys := xs + [x];
    var r := SortBy(ys, key);
    assert ys[|xs|] == x;
    assert x in multiset(r);
    var i :| 0 <= i < |r| && r[i] == x;
    NoSmallerAfter(r, key, i);
    var last := r[|xs|];
    assert last in multiset(ys);
    OnlyLargestReachesKey(xs, x, key, last);
  }

  lemma NoSmallerAfter<T>(r: seq<T>, key: T -> int, i: int)
    requires SortedBy(r, key)
    requires 0 <= i < |r|
    ensures key(r[i]) <= key(r[|r| - 1])
  {
    if i < |r| - 1 {
      assert key(r[i]) <= key(r[|r| - 1]);
    }
  }

  lemma OnlyLargestReachesKey<T>(xs: seq<T>, x: T, key: T -> int, y: T)
    requires forall k :: 0 <= k < |xs| ==> key(xs[k]) < key(x)
    requires key(x) <= key(y)
    requires y in xs + [x]
    ensures y == x
  {
    assert y !in xs;
  }

  /** Keeping nothing leaves nothing. */
  lemma {:induction false} FilterNone<T>(xs: seq<T>, p: T -> bool)
    requires forall k :: 0 <= k < |xs| ==> !p(xs[k])
    ensures Filter(xs, p) == []
    decreases |xs|
  {
    if |xs| > 0 {
      FilterNone(xs[1..], p);
    }
  }

  /** When exactly one element satisfies `p`, filtering keeps just that element. */
  lemma {:induction false} FilterUnique<T>(xs: seq<T>, p: T -> bool, j: int)
    requires 0 <= j < |xs| && p(xs[j])
    requires forall k :: 0 <= k < |xs| && k != j ==> !p(xs[k])
    ensures Filter(xs, p) == [xs[j]]
  {
    var before, after := xs[..j], xs[j + 1..];
    assert xs == before + ([xs[j]] + after);
    FilterConcat(before, [xs[j]] + after, p);
    FilterConcat([xs[j]], after, p);
    FilterNone(before, p);
    FilterNone(after, p);
    assert Filter([xs[j]], p) == [xs[j]] by {
      assert [xs[j]][1..] == [];
    }
  }

  /** Keeping everything leaves the sequence as it is. */
  lemma {:induction false} FilterAll<T>(xs: seq<T>, p: T -> bool)
    requires forall k :: 0 <= k < |xs| ==> p(xs[k])
    ensures Filter(xs, p) == xs
    decreases |xs|
  {
    if |xs| > 0 {
      FilterAll(xs[1..], p);
      assert xs == [xs[0]] + xs[1..];
    }
  }

  /** Filtering only drops elements. */
  lemma {:induction false} FilterSubMultiset<T>(xs: seq<T>, p: T -> bool)
    ensures multiset(Filter(xs, p)) <= multiset(xs)
    decreases |xs|
  {
    if |xs| > 0 {
      FilterSubMultiset(xs[1..], p);
      assert xs == [xs[0]] + xs[1..];
    }
  }

  /** The elements satisfying `p` are counted in the result exactly as in the input. */
  lemma {:induction false} FilterCount<T>(xs: seq<T>, p: T -> bool, x: T)
    ensures multiset(Filter(xs, p))[x] == if p(x) then multiset(xs)[x] else 0
    decreases |xs|
  {
    if |xs| > 0 {
      FilterCount(xs[1..], p, x);
      assert xs == [xs[0]] + xs[1..];
    }
  }

  /** Ascending by `key`. */
  ghost predicate SortedBy<T>(xs: seq<T>, key: T -> int) {
    forall i, j :: 0 <= i < j < |xs| ==> key(xs[i]) <= key(xs[j])
  }

  /** Places `x` before the first element whose key is not smaller than its own. */
  function Insert<T>(x: T, xs: seq<T>, key: T -> int): (r: seq<T>)
    requires SortedBy(xs, key)
    ensures SortedBy(r, key)
    ensures multiset(r) == multiset(xs) + multiset{x}
    ensures r[0] == x || (|xs| > 0 && r[0] == xs[0])
    decreases |xs|
  {
    if |xs| == 0 || key(x) <= key(xs[0]) then
      ConsSorted(x, xs, key);
      [x] + xs
    else
      var rest := Insert(x, xs[1..], key);
      assert xs == [xs[0]] + xs[1..];
      ConsSorted(xs[0], rest, key);
      [xs[0]] + rest
  }

  /** A sorted sequence stays sorted under a new head no larger than its first element. */
  lemma {:induction false} ConsSorted<T>(h: T, xs: seq<T>, key: T -> int)
    requires SortedBy(xs, key)
    requires |xs| > 0 ==> key(h) <= key(xs[0])
    ensures SortedBy([h] + xs, key)
  {
    var r := [h] + xs;
    forall i, j | 0 <= i < j < |r| ensures key(r[i]) <= key(r[j]) {
      if i == 0 {
        assert r[j] == xs[j - 1];
        assert key(xs[0]) <= key(xs[j - 1]);
      } else {
        assert r[i] == xs[i - 1] && r[j] == xs[j - 1];
      }
    }
  }

  /** A stable ascending sort by `key`: a permutation of the input that is ordered by `key`. */
  function SortBy<T>(xs: seq<T>, key: T -> int): (r: seq<T>)
    ensures SortedBy(r, key)
    ensures multiset(r) == multiset(xs)
    ensures |r| == |xs|
    decreases |xs|
  {
    if |xs| == 0 then []
    else
      var r := Insert(xs[0], SortBy(xs[1..], key), key);
      assert xs == [xs[0]] + xs[1..];
      assert |r| == |multiset(r)|;
      r
  }

  /** Descending by `key`, through the ascending sort on the negated key. */
  function SortByDescending<T>(xs: seq<T>, key: T -> int): (r: seq<T>)
    ensures forall i, j :: 0 <= i < j < |r| ==> key(r[i]) >= key(r[j])
    ensures multiset(r) == multiset(xs)
    ensures |r| == |xs|
  {
    var r := SortBy(xs, x => -key(x));
    assert forall i, j :: 0 <= i < j < |r| ==> -key(r[i]) <= -key(r[j]);
    r
  }

  /** The number of `true` entries. */
  function CountTrue(bs: seq<bool>): nat
    decreases |bs|
  {
    if |bs| == 0 then 0 else CountTrue(bs[..|bs| - 1]) + (if bs[|bs| - 1] then 1 else 0)
  }

  /** A row of `n` flags whose entry `i` is set iff `i < r`: the shape of a star or scale row. */
  function LitRow(n: nat, r: int): (row: seq<bool>)
    ensures |row| == n
    ensures forall i :: 0 <= i < n ==> (row[i] <==> i < r)
  {
    seq(n, i requires 0 <= i < n => i < r)
  }

  /** Such a row has exactly `r` entries set, clamped to the range 0..n. */
  lemma {:induction false} LitRowCount(n: nat, r: int)
    ensures CountTrue(LitRow(n, r)) == if r <= 0 then 0 else if r >= n then n else r
    decreases n
  {
    if n > 0 {
      LitRowCount(n - 1, r);
      assert LitRow(n, r)[..n - 1] == LitRow(n - 1, r);
    }
  }
}
