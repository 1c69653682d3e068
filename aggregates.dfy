/** The rating aggregates. Averages are never stored: every read path reduces
    the current rating values of a store (or of all of an owner's stores) with
    the same rule — no value at all when there are no ratings, otherwise the
    sum divided by the count. Averages are exact rationals here; the source's
    floating-point division is not modelled. */
module Aggregates {
  import opened Common

  /** `values.reduce((a, v) => a + v, 0)`: a left fold. */
  function Sum(vs: seq<int>): int
  {
    if |vs| == 0 then 0 else Sum(vs[..|vs| - 1]) + vs[|vs| - 1]
  }

  /** `values.length ? sum / values.length : null`. */
  function Average(vs: seq<int>): (avg: Option<real>)
    ensures avg.None? <==> |vs| == 0
    ensures avg.Some? ==> avg.value * (|vs| as real) == Sum(vs) as real
  {
    if |vs| == 0 then None else Some((Sum(vs) as real) / (|vs| as real))
  }

  predicate AllWithin(vs: seq<int>, lo: int, hi: int)
  {
    forall i | 0 <= i < |vs| :: lo <= vs[i] <= hi
  }

  lemma {:induction false} SumAppend(a: seq<int>, b: seq<int>)
    ensures Sum(a + b) == Sum(a) + Sum(b)
  {
    if |b| == 0 {
      assert a + b == a;
    } else {
      assert (a + b)[..|a + b| - 1] == a + b[..|b| - 1];
      SumAppend(a, b[..|b| - 1]);
    }
  }

  lemma {:induction false} SumWithin(vs: seq<int>, lo: int, hi: int)
    requires AllWithin(vs, lo, hi)
    ensures lo * |vs| <= Sum(vs) <= hi * |vs|
  {
    if |vs| > 0 {
      var n := |vs|;
      SumWithin(vs[..n - 1], lo, hi);
      assert lo * n == lo * (n - 1) + lo;
      assert hi * n == hi * (n - 1) + hi;
    }
  }

  lemma IntProductAsReal(a: int, b: int)
    ensures (a * b) as real == (a as real) * (b as real)
  {
  }

  lemma QuotientAtLeast(total: real, n: real, lo: real)
    requires n > 0.0 && lo * n <= total
    ensures lo <= total / n
  {
  }

  lemma QuotientAtMost(total: real, n: real, hi: real)
    requires n > 0.0 && total <= hi * n
    ensures total / n <= hi
  {
  }

  /** When every value lies in [lo, hi], so does their average: with ratings of
      1 to 5 every average is between 1 and 5. */
  lemma AverageWithin(vs: seq<int>, lo: int, hi: int)
    requires |vs| > 0 && AllWithin(vs, lo, hi)
    ensures Average(vs).Some? && lo as real <= Average(vs).value <= hi as real
  {
    var n, total := |vs|, Sum(vs);
    SumWithin(vs, lo, hi);
    IntProductAsReal(lo, n);
    IntProductAsReal(hi, n);
    assert (lo as real) * (n as real) <= total as real;
    assert total as real <= (hi as real) * (n as real);
    QuotientAtLeast(total as real, n as real, lo as real);
    QuotientAtMost(total as real, n as real, hi as real);
    assert Average(vs) == Some((total as real) / (n as real));
  }

  /** Taking one value out of a list takes it out of the sum. */
  lemma {:induction false} SumRemove(b: seq<int>, k: int)
    requires 0 <= k < |b|
    ensures Sum(b) == Sum(b[..k] + b[k + 1..]) + b[k]
    decreases |b|
  {
    var n := |b|;
    var init, last := b[..n - 1], b[n - 1];
    if k == n - 1 {
      assert b[..k] + b[k + 1..] == init;
    } else {
      SumRemove(init, k);
      var shorter := init[..k] + init[k + 1..];
      assert b[..k] + b[k + 1..] == shorter + [last];
      assert (shorter + [last])[..|shorter|] == shorter;
    }
  }

  /** Removing the same value from two permutations of each other leaves permutations of each other. */
  lemma MultisetRemove(a: seq<int>, b: seq<int>, k: int)
    requires multiset(a) == multiset(b) && |a| > 0
    requires 0 <= k < |b| && b[k] == a[|a| - 1]
    ensures multiset(a[..|a| - 1]) == multiset(b[..k] + b[k + 1..])
  {
    var x, front, back := a[|a| - 1], b[..k], b[k + 1..];
    assert a == a[..|a| - 1] + [x];
    assert multiset(a) == multiset(a[..|a| - 1]) + multiset{x};
    assert b == front + ([x] + back);
    assert multiset(b) == multiset(front) + multiset([x] + back);
    assert multiset([x] + back) == multiset{x} + multiset(back);
    assert multiset(front + back) == multiset(front) + multiset(back);
    var rest, others := multiset(a[..|a| - 1]), multiset(front + back);
    assert rest + multiset{x} == others + multiset{x};
    forall y ensures rest[y] == others[y] {
      assert (rest + multiset{x})[y] == (others + multiset{x})[y];
    }
  }

  /** The order in which the database returns a store's ratings is unspecified;
      the sum, and hence the average, does not depend on it. */
  lemma {:induction false} SumOfPermutation(a: seq<int>, b: seq<int>)
    requires multiset(a) == multiset(b)
    ensures Sum(a) == Sum(b)
    decreases |a|
  {
    if |a| > 0 {
      var x := a[|a| - 1];
      assert x in multiset(b);
      var k :| 0 <= k < |b| && b[k] == x;
      MultisetRemove(a, b, k);
      SumOfPermutation(a[..|a| - 1], b[..k] + b[k + 1..]);
      SumRemove(b, k);
    } else {
      assert |b| == |multiset(b)| == 0;
    }
  }

  lemma AverageOfPermutation(a: seq<int>, b: seq<int>)
    requires multiset(a) == multiset(b)
    ensures Average(a) == Average(b)
  {
    assert |a| == |multiset(a)| == |b|;
    SumOfPermutation(a, b);
  }

  /** `lists.flatMap(l => l)`: the lists concatenated in order. */
  function Flatten(xss: seq<seq<int>>): (r: seq<int>)
    ensures |r| == CountEach(xss)
  {
    if |xss| == 0 then [] else xss[0] + Flatten(xss[1..])
  }

  function SumEach(xss: seq<seq<int>>): int
  {
    if |xss| == 0 then 0 else Sum(xss[0]) + SumEach(xss[1..])
  }

  function CountEach(xss: seq<seq<int>>): nat
  {
    if |xss| == 0 then 0 else |xss[0]| + CountEach(xss[1..])
  }

  /** The flattened list holds the values of all the lists: as many of them, with the same total. */
  lemma {:induction false} FlattenTotals(xss: seq<seq<int>>)
    ensures |Flatten(xss)| == CountEach(xss)
    ensures Sum(Flatten(xss)) == SumEach(xss)
  {
    if |xss| > 0 {
      FlattenTotals(xss[1..]);
      SumAppend(xss[0], Flatten(xss[1..]));
    }
  }

  lemma {:induction false} CountEachZero(xss: seq<seq<int>>)
    ensures CountEach(xss) == 0 <==> forall i | 0 <= i < |xss| :: xss[i] == []
  {
    if |xss| > 0 {
      CountEachZero(xss[1..]);
      assert forall i | 1 <= i < |xss| :: xss[i] == xss[1..][i - 1];
    }
  }

  lemma {:induction false} FlattenWithin(xss: seq<seq<int>>, lo: int, hi: int)
    requires forall i | 0 <= i < |xss| :: AllWithin(xss[i], lo, hi)
    ensures AllWithin(Flatten(xss), lo, hi)
  {
    if |xss| > 0 {
      assert forall i | 1 <= i < |xss| :: xss[1..][i - 1] == xss[i];
      FlattenWithin(xss[1..], lo, hi);
      var tail := Flatten(xss[1..]);
      forall k | 0 <= k < |Flatten(xss)| ensures lo <= Flatten(xss)[k] <= hi {
        if k >= |xss[0]| {
          assert Flatten(xss)[k] == tail[k - |xss[0]|];
        }
      }
    }
  }

  /** The average over several lists flattened together is null exactly when
      every list is empty, and otherwise the total of all values over the total
      count: each list weighs in proportion to its length. */
  lemma AverageOfFlatten(xss: seq<seq<int>>)
    ensures Average(Flatten(xss)).None? <==> forall i | 0 <= i < |xss| :: xss[i] == []
    ensures CountEach(xss) > 0 ==>
      Average(Flatten(xss)) == Some((SumEach(xss) as real) / (CountEach(xss) as real))
  {
    FlattenTotals(xss);
    CountEachZero(xss);
  }

  /** With ratings of 1 to 5 in every list, the combined average is between 1 and 5. */
  lemma AverageOfFlattenWithin(xss: seq<seq<int>>, lo: int, hi: int)
    requires forall i | 0 <= i < |xss| :: AllWithin(xss[i], lo, hi)
    requires exists i | 0 <= i < |xss| :: xss[i] != []
    ensures Average(Flatten(xss)).Some?
    ensures lo as real <= Average(Flatten(xss)).value <= hi as real
  {
    AverageOfFlatten(xss);
    FlattenWithin(xss, lo, hi);
    AverageWithin(Flatten(xss), lo, hi);
  }
}
