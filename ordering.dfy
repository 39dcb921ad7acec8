/**
 * The list operations the dashboard services lean on: `Array.prototype.sort` with a
 * comparator `(a, b) => key(b) - key(a)` (a stable sort into non-increasing key order),
 * `slice(0, n)`, `reverse()` and summation of one numeric field.
 */
module Ordering {

  predicate NonIncreasing<T>(s: seq<T>, key: T -> int)
  {
    forall i, j :: 0 <= i < j < |s| ==> key(s[i]) >= key(s[j])
  }

  predicate NonDecreasing<T>(s: seq<T>, key: T -> int)
  {
    forall i, j :: 0 <= i < j < |s| ==> key(s[i]) <= key(s[j])
  }

  /**
   * Inserts `x` into a list sorted by non-increasing key, after every element whose key
   * is at least `key(x)`: elements with equal keys keep the order in which they arrived.
   */
  function InsertDesc<T>(x: T, s: seq<T>, key: T -> int): (r: seq<T>)
    ensures multiset(r) == multiset(s) + multiset{x}
    ensures |r| == |s| + 1
  {
    if s == [] then [x]
    else if key(s[0]) >= key(x) then
      assert s == [s[0]] + s[1..];
      [s[0]] + InsertDesc(x, s[1..], key)
    else [x] + s
  }

  /** A head whose key bounds every key of a sorted list can be put in front of it. */
  lemma ConsSorted<T>(h: T, s: seq<T>, key: T -> int)
    requires NonIncreasing(s, key)
    requires forall j :: 0 <= j < |s| ==> key(h) >= key(s[j])
    ensures NonIncreasing([h] + s, key)
  {
    var r := [h] + s;
    forall i, j | 0 <= i < j < |r|
      ensures key(r[i]) >= key(r[j])
    {
      assert r[j] == s[j - 1];
      if i > 0 {
        assert r[i] == s[i - 1];
      }
    }
  }

  /** The key of the first element of a sorted list bounds every key of an insertion into its tail. */
  lemma HeadBoundsInsertion<T>(x: T, s: seq<T>, key: T -> int)
    requires NonIncreasing(s, key) && s != [] && key(s[0]) >= key(x)
    ensures forall j :: 0 <= j < |s| ==> key(s[0]) >= key(InsertDesc(x, s[1..], key)[j])
  {
    var rest := InsertDesc(x, s[1..], key);
    forall j | 0 <= j < |rest|
      ensures key(s[0]) >= key(rest[j])
    {
      assert rest[j] in multiset(rest);
      if rest[j] != x {
        assert rest[j] in multiset(s[1..]);
        var k :| 0 <= k < |s[1..]| && s[1..][k] == rest[j];
        assert s[k + 1] == rest[j];
      }
    }
  }

  /** Inserting into a sorted list keeps it sorted. */
  lemma {:induction false} InsertDescSorted<T>(x: T, s: seq<T>, key: T -> int)
    requires NonIncreasing(s, key)
    ensures NonIncreasing(InsertDesc(x, s, key), key)
    decreases |s|
  {
    if s != [] && key(s[0]) >= key(x) {
      InsertDescSorted(x, s[1..], key);
      HeadBoundsInsertion(x, s, key);
      ConsSorted(s[0], InsertDesc(x, s[1..], key), key);
    } else if s != [] {
      ConsSorted(x, s, key);
    }
  }

  /**
   * `xs.sort((a, b) => key(b) - key(a))`: a stable insertion sort into non-increasing
   * key order, taking the elements in listing order.
   */
  function SortDesc<T>(xs: seq<T>, key: T -> int): (r: seq<T>)
    ensures multiset(r) == multiset(xs)
    ensures |r| == |xs|
    ensures NonIncreasing(r, key)
  {
    if xs == [] then []
    else
      var n := |xs| - 1;
      assert xs == xs[..n] + [xs[n]];
      InsertDescSorted(xs[n], SortDesc(xs[..n], key), key);
      InsertDesc(xs[n], SortDesc(xs[..n], key), key)
  }

  /** `s.slice(0, n)` for a non-negative `n`: the first `n` elements, or all when there are fewer. */
  function Take<T>(s: seq<T>, n: nat): (r: seq<T>)
    ensures |r| == if n < |s| then n else |s|
    ensures r <= s
  {
    if n < |s| then s[..n] else s
  }

  /** `s.reverse()`. */
  function Reverse<T>(s: seq<T>): (r: seq<T>)
    ensures |r| == |s|
    ensures forall i :: 0 <= i < |s| ==> r[i] == s[|s| - 1 - i]
  {
    if s == [] then [] else [s[|s| - 1]] + Reverse(s[..|s| - 1])
  }

  lemma {:induction false} ReverseKeepsElements<T>(s: seq<T>)
    ensures multiset(Reverse(s)) == multiset(s)
  {
    if s != [] {
      var n := |s| - 1;
      ReverseKeepsElements(s[..n]);
      assert s == s[..n] + [s[n]];
      assert Reverse(s) == [s[n]] + Reverse(s[..n]);
    }
  }

  /** Reversing a list in non-increasing order gives one in non-decreasing order. */
  lemma ReverseOfNonIncreasing<T>(s: seq<T>, key: T -> int)
    requires NonIncreasing(s, key)
    ensures NonDecreasing(Reverse(s), key)
  {
    var r := Reverse(s);
    forall i, j | 0 <= i < j < |r|
      ensures key(r[i]) <= key(r[j])
    {
      assert r[i] == s[|s| - 1 - i] && r[j] == s[|s| - 1 - j];
    }
  }

  /** The sum of one numeric field over a list, as the `+=` of a `forEach` computes it. */
  function SumOf<T>(xs: seq<T>, f: T -> int): int
  {
    if xs == [] then 0 else SumOf(xs[..|xs| - 1], f) + f(xs[|xs| - 1])
  }

  lemma {:induction false} SumOfAppend<T>(xs: seq<T>, ys: seq<T>, f: T -> int)
    ensures SumOf(xs + ys, f) == SumOf(xs, f) + SumOf(ys, f)
    decreases |ys|
  {
    if ys != [] {
      var m := |ys| - 1;
      assert (xs + ys)[..|xs + ys| - 1] == xs + ys[..m];
      SumOfAppend(xs, ys[..m], f);
    } else {
      assert xs + ys == xs;
    }
  }

  lemma SplitAt<T>(ys: seq<T>, i: nat)
    requires i < |ys|
    ensures ys == ys[..i] + [ys[i]] + ys[i + 1..]
  {
  }

  /**
   * In a permutation of a non-empty list, the last element sits at some position; taking it
   * out leaves a permutation of the rest.
   */
  lemma MatchLast<T>(xs: seq<T>, ys: seq<T>) returns (i: nat)
    requires multiset(xs) == multiset(ys) && xs != []
    ensures i < |ys| && ys[i] == xs[|xs| - 1]
    ensures multiset(ys[..i] + ys[i + 1..]) == multiset(xs[..|xs| - 1])
  {
    var n := |xs| - 1;
    var x := xs[n];
    assert x in multiset(ys) by {
      assert x in multiset(xs);
    }
    i :| 0 <= i < |ys| && ys[i] == x;
    var rest := ys[..i] + ys[i + 1..];
    SplitAt(ys, i);
    assert xs == xs[..n] + [x];
    assert multiset(ys) == multiset(ys[..i]) + multiset{x} + multiset(ys[i + 1..]);
    assert multiset(xs) == multiset(xs[..n]) + multiset{x};
    forall y
      ensures multiset(rest)[y] == multiset(xs[..n])[y]
    {
      assert (multiset(rest) + multiset{x})[y] == (multiset(xs[..n]) + multiset{x})[y];
    }
  }

  /** Taking one term out of a sum. */
  lemma SumOfRemove<T>(ys: seq<T>, i: nat, f: T -> int)
    requires i < |ys|
    ensures SumOf(ys, f) == SumOf(ys[..i] + ys[i + 1..], f) + f(ys[i])
  {
    var left, x, right := ys[..i], ys[i], ys[i + 1..];
    SplitAt(ys, i);
    SumOfAppend(left + [x], right, f);
    SumOfAppend(left, [x], f);
    SumOfAppend(left, right, f);
    assert SumOf([x], f) == f(x) by {
      assert [x][..0] == [];
    }
  }

  /** A sum does not depend on the order of its terms. */
  lemma {:induction false} SumOfPermutation<T>(xs: seq<T>, ys: seq<T>, f: T -> int)
    requires multiset(xs) == multiset(ys)
    ensures SumOf(xs, f) == SumOf(ys, f)
    decreases |xs|
  {
    if xs == [] {
      assert |ys| == |multiset(ys)| == 0;
    } else {
      var i := MatchLast(xs, ys);
      SumOfPermutation(xs[..|xs| - 1], ys[..i] + ys[i + 1..], f);
      SumOfRemove(ys, i, f);
    }
  }
}
