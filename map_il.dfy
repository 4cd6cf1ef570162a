/** `HMapIL`: a hash map from Java `int` keys to Java `long` values. Only the
    abstract contents (a map) are modelled; hashing, probing and resizing are not
    visible to callers and are not part of this model. */
module MapIL {
  import opened Bounds
  import opened Wrappers
  import opened Entries
  import opened MapSums

  /** Every key is an `int` and every value a `long`. */
  ghost predicate ValidEntries(m: map<int, int>) {
    forall k :: k in m ==> InInt32(k) && InInt64(m[k])
  }

  /** The contents after `plus`: keys of either map, values added in `long`
      arithmetic where both maps hold the key. */
  function PlusMaps(a: map<int, int>, b: map<int, int>): (r: map<int, int>)
  {
    var sum := AddMaps(a, b);
    map k | k in sum :: Wrap64(sum[k])
  }

  /** Keys present only in one operand keep their value, shared keys get the
      wrapped sum, and the result has as many keys as the union of the two. */
  lemma PlusMapsContents(a: map<int, int>, b: map<int, int>)
    requires ValidEntries(a) && ValidEntries(b)
    ensures ValidEntries(PlusMaps(a, b))
    ensures PlusMaps(a, b).Keys == a.Keys + b.Keys
    ensures |PlusMaps(a, b)| == |a.Keys + b.Keys|
    ensures forall k :: k in a && k !in b ==> PlusMaps(a, b)[k] == a[k]
    ensures forall k :: k !in a && k in b ==> PlusMaps(a, b)[k] == b[k]
    ensures forall k :: k in a && k in b ==> PlusMaps(a, b)[k] == Wrap64(a[k] + b[k])
  {
  }

  /** No shared key's sum leaves the `long` range. */
  predicate NoOverflow(a: map<int, int>, b: map<int, int>) {
    forall k :: k in a && k in b ==> InInt64(a[k] + b[k])
  }

  /** Without overflow `plus` is the exact key-wise sum, so the total of all
      values is the total of both operands. */
  lemma PlusMapsExact(a: map<int, int>, b: map<int, int>)
    requires ValidEntries(a) && ValidEntries(b) && NoOverflow(a, b)
    ensures PlusMaps(a, b) == AddMaps(a, b)
    ensures SumValues(PlusMaps(a, b)) == SumValues(a) + SumValues(b)
  {
    SumValuesAddMaps(a, b);
  }

  /** The products `a[k] * b[k]` over the keys the two maps share. */
  function Products(a: map<int, int>, b: map<int, int>): map<int, int> {
    map k | k in a.Keys * b.Keys :: a[k] * b[k]
  }

  /** The exact sparse inner product. */
  function InnerProduct(a: map<int, int>, b: map<int, int>): int {
    SumValues(Products(a, b))
  }

  /** `dot`: the inner product accumulated in `long` arithmetic. */
  function DotProduct(a: map<int, int>, b: map<int, int>): (r: int)
    ensures InInt64(r)
    ensures InInt64(InnerProduct(a, b)) ==> r == InnerProduct(a, b)
  {
    Wrap64(InnerProduct(a, b))
  }

  /** A shared key contributes its product to the inner product. */
  lemma InnerProductShared(a: map<int, int>, b: map<int, int>, k: int)
    requires k in a && k in b
    ensures InnerProduct(a, b) == a[k] * b[k] + InnerProduct(a - {k}, b)
  {
    SumValuesRemove(Products(a, b), k);
    assert Products(a, b) - {k} == Products(a - {k}, b);
  }

  /** A key of only one map contributes nothing. */
  lemma InnerProductUnshared(a: map<int, int>, b: map<int, int>, k: int)
    requires k in a && k !in b
    ensures InnerProduct(a, b) == InnerProduct(a - {k}, b)
  {
    assert Products(a, b) == Products(a - {k}, b);
  }

  /** Maps with no key in common have inner product 0. */
  lemma InnerProductDisjoint(a: map<int, int>, b: map<int, int>)
    requires a.Keys !! b.Keys
    ensures InnerProduct(a, b) == 0
  {
    assert Products(a, b) == map[];
  }

  /** `a.dot(b) == b.dot(a)`. */
  lemma DotSymmetric(a: map<int, int>, b: map<int, int>)
    ensures InnerProduct(a, b) == InnerProduct(b, a)
    ensures DotProduct(a, b) == DotProduct(b, a)
  {
    assert Products(a, b) == Products(b, a);
  }

  /** The inner product distributes over the exact merge of `plus`. */
  lemma InnerProductDistributes(a: map<int, int>, b: map<int, int>, c: map<int, int>)
    ensures InnerProduct(a, AddMaps(b, c)) == InnerProduct(a, b) + InnerProduct(a, c)
  {
    var l := Products(a, AddMaps(b, c));
    var r := AddMaps(Products(a, b), Products(a, c));
    forall k | k in l ensures k in r && l[k] == r[k] {
      assert l[k] == a[k] * (ValueOr0(b, k) + ValueOr0(c, k));
      assert a[k] * (ValueOr0(b, k) + ValueOr0(c, k)) == a[k] * ValueOr0(b, k) + a[k] * ValueOr0(c, k);
    }
    assert l == r;
    SumValuesAddMaps(Products(a, b), Products(a, c));
  }

  /** The maps of the `testPlus` case: shared keys are added, the others
      copied, and four keys result. */
  lemma PlusExample(a: map<int, int>, b: map<int, int>)
    requires a == map[1 := Int32Max + 5, 2 := Int32Max + 22, Int32Max := Int32Max]
    requires b == map[1 := 4, 3 := Int32Max + 5, Int32Max := Int32Max]
    ensures PlusMaps(a, b) == map[1 := Int32Max + 9, 2 := Int32Max + 22, 3 := Int32Max + 5, Int32Max := 2 * Int32Max]
    ensures |PlusMaps(a, b)| == 4
  {
    PlusMapsExact(a, b);
    AddMapsExample(a, b);
    FourKeys(PlusMaps(a, b));
  }

  lemma FourKeys(m: map<int, int>)
    requires m == map[1 := Int32Max + 9, 2 := Int32Max + 22, 3 := Int32Max + 5, Int32Max := 2 * Int32Max]
    ensures |m| == 4
  {
  }

  lemma AddMapsExample(a: map<int, int>, b: map<int, int>)
    requires a == map[1 := Int32Max + 5, 2 := Int32Max + 22, Int32Max := Int32Max]
    requires b == map[1 := 4, 3 := Int32Max + 5, Int32Max := Int32Max]
    ensures AddMaps(a, b) == map[1 := Int32Max + 9, 2 := Int32Max + 22, 3 := Int32Max + 5, Int32Max := 2 * Int32Max]
  {
    assert AddMaps(a, b).Keys == {1, 2, 3, Int32Max};
  }


  /** The map of the `testDot` case: with `Integer.MAX_VALUE` under a shared key
      the product exceeds the `int` range but the sum stays within `long`. */
  lemma DotExample()
    ensures DotProduct(map[1 := 2, 2 := 1, 3 := 3, Int32Max := Int32Max],
                       map[1 := 1, 2 := 4, 4 := 5, Int32Max := Int32Max])
            == Int32Max * Int32Max + 6
  {
    var a := map[1 := 2, 2 := 1, 3 := 3, Int32Max := Int32Max];
    var b := map[1 := 1, 2 := 4, 4 := 5, Int32Max := Int32Max];
    InnerProductShared(a, b, 1);
    var a1 := a - {1};
    InnerProductShared(a1, b, 2);
    var a2 := a1 - {2};
    InnerProductShared(a2, b, Int32Max);
    var a3 := a2 - {Int32Max};
    assert a3 == map[3 := 3];
    InnerProductDisjoint(a3, b);
  }

  /** The value-descending, key-ascending view of `testSortedEntries1`. */
  lemma SortedByValueExample()
    ensures SortedEntries(map[1 := 5, 2 := 2, 3 := 3, 4 := 3, 5 := 1], ByRightElementDescending)
            == [Entry(1, 5), Entry(3, 3), Entry(4, 3), Entry(2, 2), Entry(5, 1)]
  {
    assert AdjacentSorted([Entry(1, 5), Entry(3, 3), Entry(4, 3), Entry(2, 2), Entry(5, 1)], ByRightElementDescending);
    assert DistinctKeys([Entry(1, 5), Entry(3, 3), Entry(4, 3), Entry(2, 2), Entry(5, 1)]);
    assert ToMap([Entry(1, 5), Entry(3, 3), Entry(4, 3), Entry(2, 2), Entry(5, 1)]) == map[1 := 5, 2 := 2, 3 := 3, 4 := 3, 5 := 1];
    ListedInOrder([Entry(1, 5), Entry(3, 3), Entry(4, 3), Entry(2, 2), Entry(5, 1)], ByRightElementDescending);
  }

  /** `getEntriesSortedByValue(2)` of `testSortedEntries2`: the first two
      entries of the value-descending view. */
  lemma TopByValueExample()
    ensures TopEntries(map[1 := 5, 2 := 2, 3 := 3, 4 := 3, 5 := 1], ByRightElementDescending, 2)
            == [Entry(1, 5), Entry(3, 3)]
  {
    SortedByValueExample();
  }

  /** `getEntriesSortedByValue(5)` of `testSortedEntries3`: a cap above the size
      yields every entry. */
  lemma TopByValueBeyondSizeExample()
    ensures TopEntries(map[1 := 5, 2 := 2], ByRightElementDescending, 5) == [Entry(1, 5), Entry(2, 2)]
  {
    assert AdjacentSorted([Entry(1, 5), Entry(2, 2)], ByRightElementDescending);
    assert DistinctKeys([Entry(1, 5), Entry(2, 2)]);
    assert ToMap([Entry(1, 5), Entry(2, 2)]) == map[1 := 5, 2 := 2];
    ListedInOrder([Entry(1, 5), Entry(2, 2)], ByRightElementDescending);
  }

  class HMapIL {
    var entries: map<int, int>

    ghost predicate Valid()
      reads this
    {
      ValidEntries(entries)
    }

    constructor ()
      ensures Valid() && entries == map[]
    {
      entries := map[];
    }

    /** `size()`: the number of keys. */
    function Size(): (n: nat)
      reads this
      ensures n == |entries.Keys|
      ensures n == 0 <==> entries == map[]
    {
      |entries|
    }

    /** `containsKey(key)`: holds exactly for a present key. */
    function ContainsKey(key: int): (present: bool)
      reads this
      ensures present <==> key in entries.Keys
    {
      key in entries
    }

    /** The stored value, or 0 for an absent key (absence is not an error). */
    function Get(key: int): (v: int)
      reads this
      requires Valid()
      ensures InInt64(v)
      ensures v != 0 ==> ContainsKey(key)
      ensures ContainsKey(key) ==> v == entries[key]
    {
      ValueOr0(entries, key)
    }

    /** Inserts or overwrites; the size grows only for a new key. */
    method Put(key: int, value: int)
      requires Valid() && InInt32(key) && InInt64(value)
      modifies this
      ensures Valid() && entries == old(entries)[key := value]
      ensures Get(key) == value && ContainsKey(key)
      ensures Size() == old(Size()) + (if old(ContainsKey(key)) then 0 else 1)
    {
      entries := entries[key := value];
    }

    /** Deletes `key` and returns what it held (0 when absent); other keys keep
        their values and the size drops by one exactly when `key` was present. */
    method Remove(key: int) returns (previous: int)
      requires Valid()
      modifies this
      ensures Valid() && entries == old(entries) - {key}
      ensures previous == old(Get(key)) && !ContainsKey(key)
      ensures Size() == old(Size()) - (if old(ContainsKey(key)) then 1 else 0)
      ensures forall k :: k != key ==> Get(k) == old(Get(k))
    {
      previous := Get(key);
      if key in entries {
        CardRemove(entries, key);
      } else {
        assert entries - {key} == entries;
      }
      entries := entries - {key};
    }

    /** Adds `delta` (possibly zero or negative) to the value, counting from 0
        for an absent key; the result is stored even when it is 0. */
    method Increment(key: int, delta: int)
      requires Valid() && InInt32(key) && InInt64(delta)
      modifies this
      ensures Valid()
      ensures entries == old(entries)[key := Wrap64(old(Get(key)) + delta)]
      ensures InInt64(old(Get(key)) + delta) ==> Get(key) == old(Get(key)) + delta
    {
      entries := entries[key := Wrap64(Get(key) + delta)];
    }

    /** `increment(key)`: adds 1. */
    method IncrementByOne(key: int)
      requires Valid() && InInt32(key)
      modifies this
      ensures Valid()
      ensures entries == old(entries)[key := Wrap64(old(Get(key)) + 1)]
    {
      Increment(key, 1);
    }

    /** Merges `other` into this map (`other` may be this map itself). */
    method Plus(other: HMapIL)
      requires Valid() && other.Valid()
      modifies this
      ensures Valid()
      ensures entries == PlusMaps(old(entries), old(other.entries))
      ensures entries.Keys == old(entries.Keys) + old(other.entries.Keys)
      ensures Size() == |old(entries.Keys) + old(other.entries.Keys)|
      ensures forall k :: k in old(entries) && k !in old(other.entries) ==> entries[k] == old(entries[k])
      ensures forall k :: k !in old(entries) && k in old(other.entries) ==> entries[k] == old(other.entries[k])
      ensures forall k :: k in old(entries) && k in old(other.entries) ==> entries[k] == Wrap64(old(entries[k]) + old(other.entries[k]))
    {
      var a, b := entries, other.entries;
      PlusMapsContents(a, b);
      entries := PlusMaps(a, b);
    }

    /** The sparse inner product in `long` arithmetic. */
    function Dot(other: HMapIL): (r: int)
      reads this, other
      ensures InInt64(r)
      ensures InInt64(InnerProduct(entries, other.entries)) ==> r == InnerProduct(entries, other.entries)
    {
      DotProduct(entries, other.entries)
    }

    /** All entries by value descending, ties by ascending key; `None` (Java's
        `null`) for an empty map. */
    function GetEntriesSortedByValue(): (r: Option<seq<Entry>>)
      reads this
      ensures r.None? <==> entries == map[]
      ensures r.Some? ==> Enumerates(r.value, entries) && StrictlySorted(r.value, ByRightElementDescending)
    {
      if entries == map[] then None else Some(SortedEntries(entries, ByRightElementDescending))
    }

    /** The first `n` entries of that order (all of them when there are fewer);
        `None` for an empty map. */
    function GetTopEntriesSortedByValue(n: nat): (r: Option<seq<Entry>>)
      reads this
      ensures r.None? <==> entries == map[]
      ensures r.Some? ==> r.value == GetEntriesSortedByValue().value[..Min(n, |entries|)]
      ensures r.Some? ==> |r.value| == Min(n, Size())
    {
      if entries == map[] then None else Some(TopEntries(entries, ByRightElementDescending, n))
    }
  }

  /** The fill loop of `testRandomInsert`: key `i` gets `values[i]`; afterwards
      every key reads back its value. */
  method FillSequential(values: seq<int>) returns (m: HMapIL)
    requires |values| <= Int32Max + 1
    requires forall i :: 0 <= i < |values| ==> InInt64(values[i])
    ensures fresh(m) && m.Valid()
    ensures m.Size() == |values|
    ensures forall k :: m.ContainsKey(k) <==> 0 <= k < |values|
    ensures forall i :: 0 <= i < |values| ==> m.Get(i) == values[i]
  {
    m := new HMapIL();
    var i := 0;
    while i < |values|
      invariant 0 <= i <= |values|
      invariant fresh(m) && m.Valid()
      invariant forall k :: k in m.entries <==> 0 <= k < i
      invariant forall k :: 0 <= k < i ==> m.entries[k] == values[k]
      invariant m.Size() == i
    {
      m.Put(i, values[i]);
      i := i + 1;
    }
  }

  /** The second loop of `testRandomUpdate`: overwriting every key with a new
      value leaves the size unchanged. */
  method OverwriteSequential(m: HMapIL, values: seq<int>)
    requires m.Valid() && |values| == m.Size()
    requires forall i :: 0 <= i < |values| ==> InInt64(values[i])
    requires forall k :: m.ContainsKey(k) <==> 0 <= k < |values|
    modifies m
    ensures m.Valid() && m.Size() == |values|
    ensures forall i :: 0 <= i < |values| ==> m.ContainsKey(i) && m.Get(i) == values[i]
  {
    assert forall k :: m.ContainsKey(k) <==> k in m.entries;
    var i := 0;
    while i < |values|
      invariant 0 <= i <= |values|
      invariant m.Valid() && m.Size() == |values|
      invariant forall k :: k in m.entries <==> 0 <= k < |values|
      invariant forall k :: 0 <= k < i ==> m.entries[k] == values[k]
    {
      m.Put(i, values[i]);
      i := i + 1;
    }
  }

  /** `testRandomInsert` replayed on the model for any draws `ks` of
      `nextInt(size)`: the stored value is `k * Integer.MAX_VALUE` evaluated in
      `int` arithmetic, as the case writes it, and every key reads it back. */
  method TestRandomInsert(ks: seq<int>)
    requires |ks| <= 100000 && forall i :: 0 <= i < |ks| ==> 0 <= ks[i] < 100000
  {
    var values := seq(|ks|, i requires 0 <= i < |ks| => Wrap32(ks[i] * Int32Max));
    var m := FillSequential(values);
    assert forall i :: 0 <= i < |ks| ==> m.Get(i) == Wrap32(ks[i] * Int32Max) && m.ContainsKey(i);
  }

  /** `testRandomUpdate` replayed on the model for any draws `ks`: filling,
      then overwriting every key, keeps the size at the number of keys, and
      every key reads back its second value. */
  method TestRandomUpdate(ks: seq<int>)
    requires |ks| <= 100000 && forall i :: 0 <= i < |ks| ==> 0 <= ks[i] < 100000
  {
    var values := seq(|ks|, i requires 0 <= i < |ks| => ks[i] + Int32Max);
    var m := FillSequential(values);
    assert m.Size() == |ks|;
    var again := seq(|ks|, i requires 0 <= i < |ks| => values[i] + Int32Max);
    OverwriteSequential(m, again);
    assert m.Size() == |ks|;
    assert forall i :: 0 <= i < |ks| ==> m.Get(i) == ks[i] + 2 * Int32Max && m.ContainsKey(i);
  }

  /** `testBasic` replayed on the model. */
  method TestBasic() {
    var m := new HMapIL();
    m.Put(1, Int32Max + 5);
    m.Put(2, Int32Max + 22);
    assert m.Size() == 2 && m.Get(1) == Int32Max + 5;
    var _ := m.Remove(1);
    assert m.Size() == 1 && m.Get(2) == Int32Max + 22;
  }

  /** `testPlus` replayed on the model. */
  method TestPlus() {
    var m1 := new HMapIL();
    m1.Put(1, Int32Max + 5);
    m1.Put(2, Int32Max + 22);
    m1.Put(Int32Max, Int32Max);
    var m2 := new HMapIL();
    m2.Put(1, 4);
    m2.Put(3, Int32Max + 5);
    m2.Put(Int32Max, Int32Max);
    TestPlusMerge(m1, m2);
  }

  /** The merge of `testPlus`: shared keys are added, the others copied. */
  method TestPlusMerge(m1: HMapIL, m2: HMapIL)
    requires m1.Valid() && m1.entries == map[1 := Int32Max + 5, 2 := Int32Max + 22, Int32Max := Int32Max]
    requires m2.Valid() && m2.entries == map[1 := 4, 3 := Int32Max + 5, Int32Max := Int32Max]
    modifies m1
  {
    PlusExample(m1.entries, m2.entries);
    m1.Plus(m2);
    assert m1.Size() == 4;
    assert m1.Get(1) == Int32Max + 9 && m1.Get(2) == Int32Max + 22;
    assert m1.Get(3) == Int32Max + 5 && m1.Get(Int32Max) == 2 * Int32Max;
  }

  /** `testIncrement` replayed on the model. */
  method TestIncrement() {
    var c := new HMapIL();
    assert c.Get(1) == 0;
    c.Increment(1, 1);
    assert c.Get(1) == 1;
    c.Increment(1, 1);
    c.Increment(2, 0);
    c.Increment(3, -1);
    assert c.Get(1) == 2 && c.Get(2) == 0 && c.Get(3) == -1;
    c.Increment(Int32Max, Int32Max);
    assert c.Get(Int32Max) == Int32Max;
    c.IncrementByOne(Int32Max);
    assert c.Get(Int32Max) == Int32Max + 1;
  }

  /** `testDot` replayed on the model. */
  method TestDot() {
    var m1 := new HMapIL();
    m1.Put(1, 2);
    m1.Put(2, 1);
    m1.Put(3, 3);
    m1.Put(Int32Max, Int32Max);
    var m2 := new HMapIL();
    m2.Put(1, 1);
    m2.Put(2, 4);
    m2.Put(4, 5);
    m2.Put(Int32Max, Int32Max);
    DotExample();
    var s := m1.Dot(m2);
    assert s > Int32Max;
    assert s == Int32Max * Int32Max + 6;
  }

  /** `testSortedEntries1` replayed on the model. */
  method TestSortedEntries1() {
    var m := new HMapIL();
    m.Put(1, 5);
    m.Put(2, 2);
    m.Put(3, 3);
    m.Put(4, 3);
    m.Put(5, 1);
    SortedByValueExample();
    var e := m.GetEntriesSortedByValue();
    assert e == Some([Entry(1, 5), Entry(3, 3), Entry(4, 3), Entry(2, 2), Entry(5, 1)]);
    assert |e.value| == 5;
  }

  /** `testSortedEntries2` replayed on the model. */
  method TestSortedEntries2() {
    var m := new HMapIL();
    m.Put(1, 5);
    m.Put(2, 2);
    m.Put(3, 3);
    m.Put(4, 3);
    m.Put(5, 1);
    TopByValueExample();
    var e := m.GetTopEntriesSortedByValue(2);
    assert e == Some([Entry(1, 5), Entry(3, 3)]);
  }

  /** `testSortedEntries3` replayed on the model. */
  method TestSortedEntries3() {
    var m := new HMapIL();
    m.Put(1, 5);
    m.Put(2, 2);
    TopByValueBeyondSizeExample();
    var e := m.GetTopEntriesSortedByValue(5);
    assert e == Some([Entry(1, 5), Entry(2, 2)]);
  }

  /** `testSortedEntries4`: an empty map has no sorted view. */
  method TestSortedEntries4() {
    var e := new HMapIL();
    assert e.GetEntriesSortedByValue() == None;
  }
}
