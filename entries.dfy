/** (key, value) entries reported by both containers, the four total orders a
    caller may ask them in, and the ordered views built from an abstract map. */
module Entries {

  /** One (key, value) observation; a snapshot, not a live reference into a map.
      The frequency distribution's `PairOfInts` calls these left and right. */
  datatype Entry = Entry(key: int, value: int)

  /** The ordering selector: by key (left element) or by value (right element),
      ascending or descending. */
  datatype Order =
    | ByLeftElementAscending
    | ByLeftElementDescending
    | ByRightElementAscending
    | ByRightElementDescending

  /** `x` comes strictly before `y` under `o`; the value-based orders break ties
      by ascending key. */
  predicate Before(o: Order, x: Entry, y: Entry) {
    match o
    case ByLeftElementAscending => x.key < y.key
    case ByLeftElementDescending => x.key > y.key
    case ByRightElementAscending => x.value < y.value || (x.value == y.value && x.key < y.key)
    case ByRightElementDescending => x.value > y.value || (x.value == y.value && x.key < y.key)
  }

  /** On entries with distinct keys each order is a strict total order. */
  lemma BeforeIsStrictTotalOrder(o: Order, x: Entry, y: Entry, z: Entry)
    ensures !Before(o, x, x)
    ensures Before(o, x, y) ==> !Before(o, y, x)
    ensures Before(o, x, y) && Before(o, y, z) ==> Before(o, x, z)
    ensures x.key != y.key ==> Before(o, x, y) || Before(o, y, x)
  {
  }

  /** The entry of `m` under key `k`. */
  function At(m: map<int, int>, k: int): Entry
    requires k in m
  {
    Entry(k, m[k])
  }

  /** Key `k` of `m` comes before every other key of `m` under `o`. */
  predicate IsFirst(m: map<int, int>, o: Order, k: int) {
    k in m && forall j :: j in m && j != k ==> Before(o, At(m, k), At(m, j))
  }

  lemma {:induction false} FirstExists(m: map<int, int>, o: Order)
    requires m != map[]
    ensures exists k :: IsFirst(m, o, k)
    decreases |m|
  {
    HasKey(m);
    var k0 :| k0 in m;
    var rest := m - {k0};
    if rest == map[] {
      assert forall j :: j in m ==> j == k0 by {
        forall j | j in m ensures j == k0 {
          assert j !in rest;
        }
      }
      assert IsFirst(m, o, k0);
    } else {
      CardRemove(m, k0);
      FirstExists(rest, o);
      var k1 :| IsFirst(rest, o, k1);
      assert At(rest, k1) == At(m, k1);
      BeforeIsStrictTotalOrder(o, At(m, k0), At(m, k1), At(m, k0));
      if Before(o, At(m, k0), At(m, k1)) {
        forall j | j in m && j != k0 ensures Before(o, At(m, k0), At(m, j)) {
          if j != k1 {
            assert j in rest && At(rest, j) == At(m, j);
            BeforeIsStrictTotalOrder(o, At(m, k0), At(m, k1), At(m, j));
          }
        }
        assert IsFirst(m, o, k0);
      } else {
        forall j | j in m && j != k1 ensures Before(o, At(m, k1), At(m, j)) {
          if j != k0 {
            assert j in rest && At(rest, j) == At(m, j);
          }
        }
        assert IsFirst(m, o, k1);
      }
    }
  }

  lemma HasKey(m: map<int, int>)
    requires m != map[]
    ensures exists k :: k in m
  {
    if forall k :: k !in m {
      assert false;
    }
  }

  /** Removing a present key shrinks a map by exactly one. */
  lemma CardRemove(m: map<int, int>, k: int)
    requires k in m
    ensures |m - {k}| == |m| - 1
  {
    assert (m - {k}).Keys == m.Keys - {k};
    assert m.Keys == (m.Keys - {k}) + {k};
  }

  /** The entry of a non-empty `m` that comes first under `o`. */
  function First(m: map<int, int>, o: Order): (e: Entry)
    requires m != map[]
    ensures IsFirst(m, o, e.key) && e == At(m, e.key)
  {
    FirstExists(m, o);
    var k :| IsFirst(m, o, k);
    At(m, k)
  }

  /** `s` lists every entry of `m` exactly once, in any order. */
  ghost predicate Enumerates(s: seq<Entry>, m: map<int, int>) {
    && |s| == |m|
    && (forall i :: 0 <= i < |s| ==> s[i].key in m && s[i] == At(m, s[i].key))
    && (forall i, j :: 0 <= i < j < |s| ==> s[i].key != s[j].key)
    && (forall k :: k in m ==> At(m, k) in s)
  }

  /** Every entry of `s` comes strictly before every later one under `o`. */
  ghost predicate StrictlySorted(s: seq<Entry>, o: Order) {
    forall i, j :: 0 <= i < j < |s| ==> Before(o, s[i], s[j])
  }

  /** All entries of `m`, ordered by `o`. */
  function SortedEntries(m: map<int, int>, o: Order): (s: seq<Entry>)
    ensures Enumerates(s, m)
    ensures StrictlySorted(s, o)
    decreases |m|
  {
    if m == map[] then []
    else
      var e := First(m, o);
      CardRemove(m, e.key);
      var rest := SortedEntries(m - {e.key}, o);
      ConsEnumerates(e, rest, m);
      [e] + rest
  }

  lemma ConsEnumerates(e: Entry, rest: seq<Entry>, m: map<int, int>)
    requires e.key in m && e == At(m, e.key)
    requires Enumerates(rest, m - {e.key})
    ensures Enumerates([e] + rest, m)
  {
    var s := [e] + rest;
    CardRemove(m, e.key);
    forall i | 0 <= i < |s| ensures s[i].key in m && s[i] == At(m, s[i].key) {
      if i > 0 { assert s[i] == rest[i - 1]; }
    }
    forall i, j | 0 <= i < j < |s| ensures s[i].key != s[j].key {
      assert s[j] == rest[j - 1];
      if i > 0 { assert s[i] == rest[i - 1]; }
    }
    forall k | k in m ensures At(m, k) in s {
      if k != e.key {
        assert k in m - {e.key};
        assert At(m - {e.key}, k) in rest;
      }
    }
  }

  /** The head of a sorted enumeration comes first in the map. */
  lemma HeadIsFirst(s: seq<Entry>, m: map<int, int>, o: Order)
    requires Enumerates(s, m) && StrictlySorted(s, o) && |s| > 0
    ensures IsFirst(m, o, s[0].key)
  {
    forall j | j in m && j != s[0].key ensures Before(o, At(m, s[0].key), At(m, j)) {
      var i :| 0 <= i < |s| && s[i] == At(m, j);
      assert i != 0;
    }
  }

  /** Dropping the head of an enumeration enumerates the rest of the map. */
  lemma TailEnumerates(s: seq<Entry>, m: map<int, int>)
    requires Enumerates(s, m) && |s| > 0
    ensures Enumerates(s[1..], m - {s[0].key})
  {
    var m' := m - {s[0].key};
    var tail := s[1..];
    CardRemove(m, s[0].key);
    forall k | k in m' ensures At(m', k) in tail {
      var i :| 0 <= i < |s| && s[i] == At(m, k);
      assert i != 0;
      assert tail[i - 1] == At(m', k);
    }
    forall i | 0 <= i < |tail| ensures tail[i].key in m' && tail[i] == At(m', tail[i].key) {
      assert tail[i] == s[i + 1];
    }
  }

  /** Extending a sorted list at the front with an entry that precedes its head. */
  lemma ConsSorted(e: Entry, s: seq<Entry>, o: Order)
    requires StrictlySorted(s, o)
    requires |s| > 0 ==> Before(o, e, s[0])
    ensures StrictlySorted([e] + s, o)
  {
    var t := [e] + s;
    forall i, j | 0 <= i < j < |t| ensures Before(o, t[i], t[j]) {
      if i == 0 && j > 1 {
        BeforeIsStrictTotalOrder(o, e, s[0], s[j - 1]);
      }
    }
  }

  /** Extending an enumeration at the front with the entry of a new key. */
  lemma ConsEnumeratesNew(e: Entry, s: seq<Entry>, m: map<int, int>)
    requires Enumerates(s, m) && e.key !in m
    ensures Enumerates([e] + s, m[e.key := e.value])
  {
    var m' := m[e.key := e.value];
    assert m' - {e.key} == m;
    ConsEnumerates(e, s, m');
  }

  /** Each entry comes before the next one: the form in which sortedness of a
      concrete list is checked. */
  predicate AdjacentSorted(s: seq<Entry>, o: Order) {
    |s| < 2 || (Before(o, s[0], s[1]) && AdjacentSorted(s[1..], o))
  }

  lemma {:induction false} AdjacentSortedIsSorted(s: seq<Entry>, o: Order)
    requires AdjacentSorted(s, o)
    ensures StrictlySorted(s, o)
  {
    if |s| > 0 {
      AdjacentSortedIsSorted(s[1..], o);
      ConsSorted(s[0], s[1..], o);
      assert s == [s[0]] + s[1..];
    }
  }

  /** The map whose entries are listed by `s` (a later key never repeats an
      earlier one in the lists this is applied to). */
  function ToMap(s: seq<Entry>): map<int, int> {
    if s == [] then map[] else ToMap(s[1..])[s[0].key := s[0].value]
  }

  /** No key repeats in `s`. */
  predicate DistinctKeys(s: seq<Entry>) {
    s == [] || (s[0].key !in ToMap(s[1..]) && DistinctKeys(s[1..]))
  }

  lemma {:induction false} DistinctKeysEnumerate(s: seq<Entry>)
    requires DistinctKeys(s)
    ensures Enumerates(s, ToMap(s))
  {
    if s == [] {
      assert ToMap(s) == map[];
    } else {
      DistinctKeysEnumerate(s[1..]);
      ConsEnumeratesNew(s[0], s[1..], ToMap(s[1..]));
      assert s == [s[0]] + s[1..];
    }
  }

  /** A list that enumerates `m` and is strictly sorted by `o` is exactly the
      sorted view: the four orders leave no freedom in the result. */
  lemma {:induction false} SortedEntriesUnique(s: seq<Entry>, m: map<int, int>, o: Order)
    requires Enumerates(s, m) && StrictlySorted(s, o)
    ensures s == SortedEntries(m, o)
    decreases |m|
  {
    if m != map[] {
      var e := First(m, o);
      HeadIsFirst(s, m, o);
      if s[0].key != e.key {
        BeforeIsStrictTotalOrder(o, e, s[0], e);
        assert false;
      }
      TailEnumerates(s, m);
      TailSorted(s, o);
      SortedEntriesUnique(s[1..], m - {e.key}, o);
      assert s == [e] + s[1..];
    }
  }

  lemma TailSorted(s: seq<Entry>, o: Order)
    requires StrictlySorted(s, o) && |s| > 0
    ensures StrictlySorted(s[1..], o)
  {
    forall i, j | 0 <= i < j < |s| - 1 ensures Before(o, s[1..][i], s[1..][j]) {
      assert s[1..][i] == s[i + 1] && s[1..][j] == s[j + 1];
    }
  }

  /** A list with distinct keys, each entry before the next under `o`, is the
      sorted view of the map it lists: the form in which a concrete expected
      list is matched against `SortedEntries`. */
  lemma ListedInOrder(s: seq<Entry>, o: Order)
    requires AdjacentSorted(s, o) && DistinctKeys(s)
    ensures SortedEntries(ToMap(s), o) == s
  {
    AdjacentSortedIsSorted(s, o);
    DistinctKeysEnumerate(s);
    SortedEntriesUnique(s, ToMap(s), o);
  }

  /** How often an enumeration of `m` holds `x`: once for an entry of `m`,
      never otherwise. */
  lemma {:induction false} EnumerationCount(s: seq<Entry>, m: map<int, int>, x: Entry)
    requires Enumerates(s, m)
    ensures multiset(s)[x] == if x.key in m && x == At(m, x.key) then 1 else 0
    decreases |s|
  {
    if s != [] {
      TailEnumerates(s, m);
      EnumerationCount(s[1..], m - {s[0].key}, x);
      assert s == [s[0]] + s[1..];
    }
  }

  /** Any two enumerations of the same map are permutations of each other; in
      particular every sorted view is a permutation of any iteration order. */
  lemma EnumerationsArePermutations(s: seq<Entry>, t: seq<Entry>, m: map<int, int>)
    requires Enumerates(s, m) && Enumerates(t, m)
    ensures multiset(s) == multiset(t)
  {
    forall x ensures multiset(s)[x] == multiset(t)[x] {
      EnumerationCount(s, m, x);
      EnumerationCount(t, m, x);
    }
  }

  function Min(a: int, b: int): int {
    if a <= b then a else b
  }

  /** The first `k` entries of `m` under `o` (all of them when `m` has fewer):
      they are sorted, and every entry of `m` left out comes after each of them. */
  function TopEntries(m: map<int, int>, o: Order, k: nat): (r: seq<Entry>)
    ensures |r| == Min(k, |m|)
    ensures StrictlySorted(r, o)
    ensures forall i :: 0 <= i < |r| ==> r[i].key in m && r[i] == At(m, r[i].key)
    ensures forall i, j :: 0 <= i < |r| && j in m && At(m, j) !in r ==> Before(o, r[i], At(m, j))
  {
    var s := SortedEntries(m, o);
    var r := s[..Min(k, |m|)];
    forall i, j | 0 <= i < |r| && j in m && At(m, j) !in r ensures Before(o, r[i], At(m, j)) {
      var n :| 0 <= n < |s| && s[n] == At(m, j);
      assert n >= |r|;
    }
    r
  }
}
