/** Sums over the values of an abstract map, and the key-wise sum of two maps:
    the arithmetic behind `sumOfCounts`, `plus` and `dot`. */
module MapSums {
  import opened Bounds
  import opened Entries

  /** The sum of all values of `m` (taken in ascending key order). */
  function SumValues(m: map<int, int>): int
    decreases |m|
  {
    if m == map[] then 0
    else
      var k := First(m, ByLeftElementAscending).key;
      CardRemove(m, k);
      m[k] + SumValues(m - {k})
  }

  /** The value under `k`, or 0 when `k` is absent. */
  function ValueOr0(m: map<int, int>, k: int): int {
    if k in m then m[k] else 0
  }

  /** Any present key can be split off a sum, whichever key the sum took first. */
  lemma {:induction false} SumValuesRemove(m: map<int, int>, k: int)
    requires k in m
    ensures SumValues(m) == m[k] + SumValues(m - {k})
    decreases |m|
  {
    var j := First(m, ByLeftElementAscending).key;
    if j != k {
      CardRemove(m, j);
      CardRemove(m, k);
      SumValuesRemove(m - {j}, k);
      SumValuesRemove(m - {k}, j);
      assert m - {j} - {k} == m - {k} - {j};
    }
  }

  /** Storing `v` under `k` moves the sum by `v` minus what `k` held before. */
  lemma SumValuesUpdate(m: map<int, int>, k: int, v: int)
    ensures SumValues(m[k := v]) == SumValues(m) - ValueOr0(m, k) + v
  {
    SumValuesRemove(m[k := v], k);
    assert m[k := v] - {k} == m - {k};
    if k in m {
      SumValuesRemove(m, k);
    } else {
      assert m - {k} == m;
    }
  }

  /** Key-wise sum: keys of either map, values added where both have the key. */
  function AddMaps(a: map<int, int>, b: map<int, int>): (r: map<int, int>)
    ensures r.Keys == a.Keys + b.Keys
    ensures forall k :: k in r ==> r[k] == ValueOr0(a, k) + ValueOr0(b, k)
  {
    map k | k in a.Keys + b.Keys :: ValueOr0(a, k) + ValueOr0(b, k)
  }

  /** Merging two maps adds their sums, whether or not their keys overlap. */
  lemma {:induction false} SumValuesAddMaps(a: map<int, int>, b: map<int, int>)
    ensures SumValues(AddMaps(a, b)) == SumValues(a) + SumValues(b)
    decreases |a|
  {
    if a == map[] {
      assert AddMaps(a, b) == b;
    } else {
      var k := First(a, ByLeftElementAscending).key;
      CardRemove(a, k);
      SumValuesAddMaps(a - {k}, b);
      SumValuesRemove(a, k);
      AddMapsRemove(a, b, k);
    }
  }

  /** Taking `k` out of the left operand of a merge. */
  lemma AddMapsRemove(a: map<int, int>, b: map<int, int>, k: int)
    requires k in a
    ensures SumValues(AddMaps(a - {k}, b)) == SumValues(AddMaps(a, b)) - a[k]
  {
    var r := AddMaps(a, b);
    if k in b {
      assert AddMaps(a - {k}, b) == r[k := b[k]];
      SumValuesUpdate(r, k, b[k]);
    } else {
      assert AddMaps(a - {k}, b) == r - {k};
      SumValuesRemove(r, k);
    }
  }

  /** A sum of values drawn from [lo, hi] lies between |m|*lo and |m|*hi. */
  lemma {:induction false} SumValuesBounds(m: map<int, int>, lo: int, hi: int)
    requires forall k :: k in m ==> lo <= m[k] <= hi
    ensures |m| * lo <= SumValues(m) <= |m| * hi
    decreases |m|
  {
    if m != map[] {
      var k := First(m, ByLeftElementAscending).key;
      CardRemove(m, k);
      SumValuesBounds(m - {k}, lo, hi);
      BoundsStep(|m| - 1, lo, hi, m[k], SumValues(m - {k}));
    }
  }

  /** Adding one value from [lo, hi] to a sum of `n` such values. */
  lemma BoundsStep(n: int, lo: int, hi: int, v: int, rest: int)
    requires n * lo <= rest <= n * hi && lo <= v <= hi
    ensures (n + 1) * lo <= v + rest <= (n + 1) * hi
  {
    assert (n + 1) * lo == n * lo + lo;
    assert (n + 1) * hi == n * hi + hi;
  }

  /** A value of a map with non-negative values never exceeds the sum. */
  lemma ValueAtMostSum(m: map<int, int>, k: int)
    requires forall j :: j in m ==> m[j] >= 0
    requires k in m
    ensures m[k] <= SumValues(m)
  {
    SumValuesRemove(m, k);
    SumValuesNonNegative(m - {k});
  }

  lemma {:induction false} SumValuesNonNegative(m: map<int, int>)
    requires forall j :: j in m ==> m[j] >= 0
    ensures SumValues(m) >= 0
    decreases |m|
  {
    if m != map[] {
      var k := First(m, ByLeftElementAscending).key;
      CardRemove(m, k);
      SumValuesNonNegative(m - {k});
    }
  }

  /** The integers in [lo, hi). */
  function Interval(lo: int, hi: int): (s: set<int>)
    requires lo <= hi
    ensures |s| == hi - lo
    ensures forall x :: x in s <==> lo <= x < hi
    decreases hi - lo
  {
    if lo == hi then {} else Interval(lo, hi - 1) + {hi - 1}
  }

  /** A map keyed by Java `int`s holds at most 2^32 entries. */
  lemma Int32KeyCount(m: map<int, int>)
    requires forall k :: k in m ==> InInt32(k)
    ensures |m| <= TwoTo32
  {
    var all := Interval(Int32Min, Int32Max + 1);
    assert all == m.Keys + (all - m.Keys);
    assert |all| == |m.Keys| + |all - m.Keys|;
  }
}
