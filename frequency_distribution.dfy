/** `Int2IntFrequencyDistribution`: an event -> count accumulator over Java
    `int`s that keeps two aggregates, the number of distinct events and the
    (`long`) sum of all counts, in step with the counts. */
module FrequencyDistribution {
  import opened Bounds
  import opened Wrappers
  import opened Entries
  import opened MapSums
  import opened FrequencyCodec

  class Int2IntFrequencyDistribution {
    var counts: map<int, int>
    var numberOfEvents: int
    var sumOfCounts: int

    /** Every stored count is positive (an event with count 0 is absent), and
        both aggregates agree with the counts. */
    ghost predicate Valid()
      reads this
    {
      && ValidCounts(counts)
      && numberOfEvents == |counts|
      && sumOfCounts == SumValues(counts)
    }

    constructor ()
      ensures Valid() && counts == map[]
    {
      counts := map[];
      numberOfEvents := 0;
      sumOfCounts := 0;
    }

    /** The count of `event`, 0 when it has not been seen. */
    function Get(event: int): (c: int)
      reads this
      requires Valid()
      ensures 0 <= c <= Int32Max
      ensures c == 0 <==> event !in counts
      ensures c > 0 ==> c == counts[event]
    {
      ValueOr0(counts, event)
    }

    /** The number of distinct events with a positive count. */
    function GetNumberOfEvents(): (n: int)
      reads this
      requires Valid()
      ensures n == |counts|
    {
      numberOfEvents
    }

    /** The total of all counts; it always fits in a `long`, and it lies
        between the number of events and that number times the largest `int`. */
    function GetSumOfCounts(): (s: int)
      reads this
      requires Valid()
      ensures s == SumValues(counts)
      ensures |counts| <= s <= |counts| * Int32Max
      ensures InInt64(s)
    {
      Int32KeyCount(counts);
      SumValuesBounds(counts, 1, Int32Max);
      MulMono(|counts|, TwoTo32, Int32Max);
      sumOfCounts
    }

    /** `count / sumOfCounts` as an exact rational (floating point is not
        modelled): a fraction in [0, 1] that is 0 exactly for an absent event. */
    function ComputeRelativeFrequency(event: int): (f: real)
      reads this
      requires Valid() && sumOfCounts > 0
      ensures 0.0 <= f <= 1.0
      ensures f == 0.0 <==> event !in counts
    {
      assert Get(event) <= sumOfCounts by {
        if event in counts {
          ValueAtMostSum(counts, event);
        }
      }
      FractionAtMostOne(Get(event) as real, sumOfCounts as real);
      Get(event) as real / sumOfCounts as real
    }

    /** `set(event, count)`: a count of 0 removes the event; a negative count is
        refused and nothing changes. The sum moves by the new count minus the
        old one, and the number of events by the change in membership. */
    method Set(event: int, count: int) returns (ok: bool)
      requires Valid() && InInt32(event) && InInt32(count)
      modifies this
      ensures Valid()
      ensures ok <==> count >= 0
      ensures ok ==> counts == if count == 0 then old(counts) - {event} else old(counts)[event := count]
      ensures ok ==> Get(event) == count
      ensures ok ==> sumOfCounts == old(sumOfCounts) - old(Get(event)) + count
      ensures ok ==> numberOfEvents == old(numberOfEvents)
                                         + (if count > 0 && event !in old(counts) then 1 else 0)
                                         - (if count == 0 && event in old(counts) then 1 else 0)
      ensures !ok ==> counts == old(counts) && numberOfEvents == old(numberOfEvents) && sumOfCounts == old(sumOfCounts)
    {
      if count < 0 {
        return false;
      }
      var previous := Get(event);
      if count == 0 {
        if event in counts {
          SumValuesRemove(counts, event);
          CardRemove(counts, event);
          counts := counts - {event};
          numberOfEvents := numberOfEvents - 1;
          sumOfCounts := sumOfCounts - previous;
        } else {
          assert counts - {event} == counts;
        }
      } else {
        SumValuesUpdate(counts, event, count);
        if event !in counts {
          numberOfEvents := numberOfEvents + 1;
        }
        counts := counts[event := count];
        sumOfCounts := sumOfCounts - previous + count;
      }
      return true;
    }

    /** `increment(event, delta)`: the count becomes `get(event) + delta`, with
        the same rules as `Set` for a result of 0 or below 0. */
    method IncrementBy(event: int, delta: int) returns (ok: bool)
      requires Valid() && InInt32(event) && InInt32(delta)
      requires Get(event) + delta <= Int32Max
      modifies this
      ensures Valid()
      ensures ok <==> old(Get(event)) + delta >= 0
      ensures ok ==> counts == if old(Get(event)) + delta == 0 then old(counts) - {event}
                               else old(counts)[event := old(Get(event)) + delta]
      ensures ok ==> Get(event) == old(Get(event)) + delta
      ensures ok ==> sumOfCounts == old(sumOfCounts) + delta
      ensures ok ==> numberOfEvents == old(numberOfEvents)
                                         + (if event !in old(counts) && delta > 0 then 1 else 0)
                                         - (if event in old(counts) && old(Get(event)) + delta == 0 then 1 else 0)
      ensures !ok ==> counts == old(counts) && numberOfEvents == old(numberOfEvents) && sumOfCounts == old(sumOfCounts)
    {
      ok := Set(event, Get(event) + delta);
    }

    /** `increment(event)`: one more occurrence; a new event is added with count 1. */
    method Increment(event: int)
      requires Valid() && InInt32(event) && Get(event) < Int32Max
      modifies this
      ensures Valid()
      ensures counts == old(counts)[event := old(Get(event)) + 1]
      ensures sumOfCounts == old(sumOfCounts) + 1
      ensures numberOfEvents == old(numberOfEvents) + (if event in old(counts) then 0 else 1)
    {
      var _ := Set(event, Get(event) + 1);
    }

    /** `decrement(event, delta)`: fails, changing nothing, when the event is
        absent or `delta` exceeds its count; otherwise lowers the count and the
        sum by `delta`, removing the event exactly when its count reaches 0. */
    method DecrementBy(event: int, delta: int) returns (ok: bool)
      requires Valid() && 0 <= delta <= Int32Max
      modifies this
      ensures Valid()
      ensures ok <==> event in old(counts) && delta <= old(counts[event])
      ensures ok ==> counts == if delta == old(Get(event)) then old(counts) - {event}
                               else old(counts)[event := old(Get(event)) - delta]
      ensures ok ==> Get(event) == old(Get(event)) - delta
      ensures ok ==> sumOfCounts == old(sumOfCounts) - delta
      ensures ok ==> numberOfEvents == old(numberOfEvents) - (if delta == old(Get(event)) then 1 else 0)
      ensures !ok ==> counts == old(counts) && numberOfEvents == old(numberOfEvents) && sumOfCounts == old(sumOfCounts)
    {
      if event !in counts || counts[event] < delta {
        return false;
      }
      ok := Set(event, counts[event] - delta);
    }

    /** `decrement(event)`: `DecrementBy(event, 1)`. */
    method Decrement(event: int) returns (ok: bool)
      requires Valid()
      modifies this
      ensures Valid()
      ensures ok <==> event in old(counts)
      ensures ok ==> counts == if old(Get(event)) == 1 then old(counts) - {event}
                               else old(counts)[event := old(Get(event)) - 1]
      ensures ok ==> Get(event) == old(Get(event)) - 1
      ensures ok ==> sumOfCounts == old(sumOfCounts) - 1
      ensures ok ==> numberOfEvents == old(numberOfEvents) - (if old(Get(event)) == 1 then 1 else 0)
      ensures !ok ==> counts == old(counts) && numberOfEvents == old(numberOfEvents) && sumOfCounts == old(sumOfCounts)
    {
      ok := DecrementBy(event, 1);
    }

    /** Forgets every event. */
    method Clear()
      modifies this
      ensures Valid() && counts == map[]
      ensures numberOfEvents == 0 && sumOfCounts == 0
    {
      counts := map[];
      numberOfEvents := 0;
      sumOfCounts := 0;
    }

    /** `getEntries(order)`: every (event, count) pair once, sorted by `o`. */
    function GetEntries(o: Order): (r: seq<Entry>)
      reads this
      requires Valid()
      ensures Enumerates(r, counts) && StrictlySorted(r, o)
      ensures |r| == numberOfEvents
    {
      SortedEntries(counts, o)
    }

    /** `getEntries(order, k)`: the first `k` pairs of that list. */
    function GetTopEntries(o: Order, k: nat): (r: seq<Entry>)
      reads this
      requires Valid()
      ensures |r| == Min(k, numberOfEvents)
      ensures r == GetEntries(o)[..|r|]
    {
      TopEntries(counts, o, k)
    }

    /** Unordered iteration (`for (PairOfInts pair : fd)`), collecting the pairs:
        which event comes next is left open, yet each present pair is visited
        exactly once. */
    method Iterate() returns (s: seq<Entry>)
      requires Valid()
      ensures Enumerates(s, counts)
    {
      s := [];
      var remaining := counts;
      while remaining != map[]
        invariant remaining.Keys <= counts.Keys
        invariant forall k :: k in remaining ==> remaining[k] == counts[k]
        invariant Enumerates(s, counts - remaining.Keys)
        decreases |remaining|
      {
        HasKey(remaining);
        var k :| k in remaining;
        VisitOne(counts, remaining, k);
        ConsEnumeratesNew(Entry(k, counts[k]), s, counts - remaining.Keys);
        CardRemove(remaining, k);
        s := [Entry(k, counts[k])] + s;
        remaining := remaining - {k};
      }
      assert counts - remaining.Keys == counts;
    }

    /** `write`: the words that the codec's reader turns back into these counts. */
    function Write(): (words: seq<int>)
      reads this
      requires Valid()
      ensures |words| == 1 + 2 * numberOfEvents && words[0] == numberOfEvents
      ensures numberOfEvents <= Int32Max ==> Decode(words) == Some(counts)
    {
      assert |counts| <= Int32Max ==> Decode(Encode(counts)) == Some(counts) by {
        if |counts| <= Int32Max {
          RoundTrip(counts);
        }
      }
      Encode(counts)
    }

    /** `readFields`: reads the count word, then that many (event, count) pairs.
        On success the distribution holds exactly the decoded counts; on a
        malformed or short stream it reports failure and is left as it was. */
    method ReadFields(words: seq<int>) returns (ok: bool)
      requires Valid()
      modifies this
      ensures Valid()
      ensures ok <==> Decode(words).Some?
      ensures ok ==> counts == Decode(words).value
      ensures !ok ==> counts == old(counts) && numberOfEvents == old(numberOfEvents) && sumOfCounts == old(sumOfCounts)
    {
      var read, events, sum := ReadCounts(words);
      if read.None? {
        return false;
      }
      counts, numberOfEvents, sumOfCounts := read.value, events, sum;
      return true;
    }
  }

  /** The reading loop of `readFields`: the count word, then one (event, count)
      pair per turn, totting up the events and the sum on the way; it stops at
      the first short or malformed pair. */
  method ReadCounts(words: seq<int>) returns (read: Option<map<int, int>>, events: int, sum: int)
    ensures read == Decode(words)
    ensures read.Some? ==> events == |read.value| && sum == SumValues(read.value)
  {
    events, sum := 0, 0;
    if |words| == 0 || !(0 <= words[0] <= Int32Max) {
      return None, events, sum;
    }
    var left: nat, rest := words[0], words[1..];
    var acc: map<int, int> := map[];
    ghost var decoded := Decode(words);
    while left > 0
      invariant Reading(decoded, rest, left, acc, events, sum)
    {
      if |rest| < 2 || !ValidPair(rest[0], rest[1], acc) {
        DecodeEntriesStep(rest, left, acc);
        return None, events, sum;
      }
      ReadPair(decoded, rest, left, acc, events, sum);
      acc, sum := acc[rest[0] := rest[1]], sum + rest[1];
      rest, left := rest[2..], left - 1;
      events := events + 1;
    }
    return Some(acc), events, sum;
  }

  /** The state of the reader part-way: what is still to be read from `rest`
      completes `acc` to the decoded counts, and `events` and `sum` describe `acc`. */
  ghost predicate Reading(decoded: Option<map<int, int>>, rest: seq<int>, left: nat, acc: map<int, int>, events: int, sum: int) {
    decoded == DecodeEntries(rest, left, acc) && ValidCounts(acc) && |acc| == events && sum == SumValues(acc)
  }

  /** Reading one good pair adds a new event to the counts and its count to the sum. */
  lemma ReadPair(decoded: Option<map<int, int>>, rest: seq<int>, left: nat, acc: map<int, int>, events: int, sum: int)
    requires Reading(decoded, rest, left, acc, events, sum)
    requires left > 0 && |rest| >= 2 && ValidPair(rest[0], rest[1], acc)
    ensures Reading(decoded, rest[2..], left - 1, acc[rest[0] := rest[1]], events + 1, sum + rest[1])
  {
    DecodeEntriesStep(rest, left, acc);
    SumValuesUpdate(acc, rest[0], rest[1]);
  }

  /** `getEntries(ByRightElementDescending)` in `testGetFrequencySortedEvents`:
      equal counts are listed by ascending event. */
  lemma CountDescendingExample()
    ensures SortedEntries(map[1 := 5, 4 := 2, 2 := 5, 5 := 2, 6 := 1, 3 := 5], ByRightElementDescending)
            == [Entry(1, 5), Entry(2, 5), Entry(3, 5), Entry(4, 2), Entry(5, 2), Entry(6, 1)]
  {
    assert AdjacentSorted([Entry(1, 5), Entry(2, 5), Entry(3, 5), Entry(4, 2), Entry(5, 2), Entry(6, 1)], ByRightElementDescending);
    assert DistinctKeys([Entry(1, 5), Entry(2, 5), Entry(3, 5), Entry(4, 2), Entry(5, 2), Entry(6, 1)]);
    assert ToMap([Entry(1, 5), Entry(2, 5), Entry(3, 5), Entry(4, 2), Entry(5, 2), Entry(6, 1)])
           == map[1 := 5, 4 := 2, 2 := 5, 5 := 2, 6 := 1, 3 := 5];
    ListedInOrder([Entry(1, 5), Entry(2, 5), Entry(3, 5), Entry(4, 2), Entry(5, 2), Entry(6, 1)], ByRightElementDescending);
  }

  /** `getEntries(ByRightElementAscending)` in `testGetFrequencySortedEvents`:
      equal counts are still listed by ascending event. */
  lemma CountAscendingExample()
    ensures SortedEntries(map[1 := 5, 4 := 2, 2 := 5, 5 := 2, 6 := 1, 3 := 5], ByRightElementAscending)
            == [Entry(6, 1), Entry(4, 2), Entry(5, 2), Entry(1, 5), Entry(2, 5), Entry(3, 5)]
  {
    assert AdjacentSorted([Entry(6, 1), Entry(4, 2), Entry(5, 2), Entry(1, 5), Entry(2, 5), Entry(3, 5)], ByRightElementAscending);
    assert DistinctKeys([Entry(6, 1), Entry(4, 2), Entry(5, 2), Entry(1, 5), Entry(2, 5), Entry(3, 5)]);
    assert ToMap([Entry(6, 1), Entry(4, 2), Entry(5, 2), Entry(1, 5), Entry(2, 5), Entry(3, 5)])
           == map[1 := 5, 4 := 2, 2 := 5, 5 := 2, 6 := 1, 3 := 5];
    ListedInOrder([Entry(6, 1), Entry(4, 2), Entry(5, 2), Entry(1, 5), Entry(2, 5), Entry(3, 5)], ByRightElementAscending);
  }

  /** `getEntries(ByLeftElementAscending)` in `testGetSortedEvents`. */
  lemma EventAscendingExample()
    ensures SortedEntries(map[1 := 1, 4 := 3, 2 := 4, 5 := 7, 6 := 9, 3 := 2], ByLeftElementAscending)
            == [Entry(1, 1), Entry(2, 4), Entry(3, 2), Entry(4, 3), Entry(5, 7), Entry(6, 9)]
  {
    assert AdjacentSorted([Entry(1, 1), Entry(2, 4), Entry(3, 2), Entry(4, 3), Entry(5, 7), Entry(6, 9)], ByLeftElementAscending);
    assert DistinctKeys([Entry(1, 1), Entry(2, 4), Entry(3, 2), Entry(4, 3), Entry(5, 7), Entry(6, 9)]);
    assert ToMap([Entry(1, 1), Entry(2, 4), Entry(3, 2), Entry(4, 3), Entry(5, 7), Entry(6, 9)])
           == map[1 := 1, 4 := 3, 2 := 4, 5 := 7, 6 := 9, 3 := 2];
    ListedInOrder([Entry(1, 1), Entry(2, 4), Entry(3, 2), Entry(4, 3), Entry(5, 7), Entry(6, 9)], ByLeftElementAscending);
  }

  /** `getEntries(ByLeftElementDescending)` in `testGetSortedEvents`. */
  lemma EventDescendingExample()
    ensures SortedEntries(map[1 := 1, 4 := 3, 2 := 4, 5 := 7, 6 := 9, 3 := 2], ByLeftElementDescending)
            == [Entry(6, 9), Entry(5, 7), Entry(4, 3), Entry(3, 2), Entry(2, 4), Entry(1, 1)]
  {
    assert AdjacentSorted([Entry(6, 9), Entry(5, 7), Entry(4, 3), Entry(3, 2), Entry(2, 4), Entry(1, 1)], ByLeftElementDescending);
    assert DistinctKeys([Entry(6, 9), Entry(5, 7), Entry(4, 3), Entry(3, 2), Entry(2, 4), Entry(1, 1)]);
    assert ToMap([Entry(6, 9), Entry(5, 7), Entry(4, 3), Entry(3, 2), Entry(2, 4), Entry(1, 1)])
           == map[1 := 1, 4 := 3, 2 := 4, 5 := 7, 6 := 9, 3 := 2];
    ListedInOrder([Entry(6, 9), Entry(5, 7), Entry(4, 3), Entry(3, 2), Entry(2, 4), Entry(1, 1)], ByLeftElementDescending);
  }

  /** `test1Common` replayed on the model, relative frequencies as rationals:
      the increments. */
  method Test1() {
    var fd := new Int2IntFrequencyDistribution();
    assert fd.Get(1) == 0;
    fd.Increment(1);
    fd.Increment(2);
    fd.Increment(3);
    fd.Increment(2);
    fd.Increment(3);
    fd.Increment(3);
    assert fd.GetNumberOfEvents() == 3 && fd.GetSumOfCounts() == 6;
    assert fd.Get(1) == 1 && fd.Get(2) == 2 && fd.Get(3) == 3;
    Test1Frequencies(fd);
    Test1Decrements(fd);
  }

  /** The counts and relative frequencies after the increments of `test1Common`. */
  method Test1Frequencies(fd: Int2IntFrequencyDistribution)
    requires fd.Valid() && fd.Get(1) == 1 && fd.Get(2) == 2 && fd.Get(3) == 3 && fd.sumOfCounts == 6
  {
    assert fd.ComputeRelativeFrequency(1) == 1.0 / 6.0;
    assert fd.ComputeRelativeFrequency(2) == 2.0 / 6.0;
    assert fd.ComputeRelativeFrequency(3) == 3.0 / 6.0;
  }

  /** The first decrement of `test1Common` and the frequencies after it. */
  method Test1Decrements(fd: Int2IntFrequencyDistribution)
    requires fd.Valid() && fd.Get(1) == 1 && fd.Get(2) == 2 && fd.Get(3) == 3
    requires fd.numberOfEvents == 3 && fd.sumOfCounts == 6
    modifies fd
  {
    var ok := fd.Decrement(3);
    assert ok;
    assert fd.GetNumberOfEvents() == 3 && fd.GetSumOfCounts() == 5;
    assert fd.Get(1) == 1 && fd.Get(2) == 2 && fd.Get(3) == 2;
    assert fd.ComputeRelativeFrequency(1) == 1.0 / 5.0;
    assert fd.ComputeRelativeFrequency(2) == 2.0 / 5.0;
    assert fd.ComputeRelativeFrequency(3) == 2.0 / 5.0;
    Test1LastDecrement(fd);
  }

  /** The second decrement of `test1Common`: it removes event 1. */
  method Test1LastDecrement(fd: Int2IntFrequencyDistribution)
    requires fd.Valid() && fd.Get(1) == 1 && fd.Get(2) == 2 && fd.Get(3) == 2
    requires fd.numberOfEvents == 3 && fd.sumOfCounts == 5
    modifies fd
  {
    var ok := fd.Decrement(1);
    assert ok;
    assert fd.GetNumberOfEvents() == 2 && fd.GetSumOfCounts() == 4;
    assert fd.Get(1) == 0 && fd.Get(2) == 2 && fd.Get(3) == 2;
    assert fd.ComputeRelativeFrequency(2) == 2.0 / 4.0;
    assert fd.ComputeRelativeFrequency(3) == 2.0 / 4.0;
  }

  /** `test2Common` replayed on the model: the increments. */
  method Test2() {
    var fd := new Int2IntFrequencyDistribution();
    fd.Increment(1);
    fd.Increment(1);
    fd.Increment(2);
    fd.Increment(3);
    assert fd.GetNumberOfEvents() == 3 && fd.GetSumOfCounts() == 4;
    assert fd.Get(1) == 2 && fd.Get(2) == 1 && fd.Get(3) == 1 && fd.Get(4) == 0;
    Test2NewEvent(fd);
  }

  /** The `set` of a new event in `test2Common`: one more event, and the sum
      grows by its count. */
  method Test2NewEvent(fd: Int2IntFrequencyDistribution)
    requires fd.Valid() && fd.Get(1) == 2 && fd.Get(2) == 1 && fd.Get(3) == 1 && fd.Get(4) == 0
    requires fd.numberOfEvents == 3 && fd.sumOfCounts == 4
    modifies fd
  {
    var ok := fd.Set(4, 5);
    assert fd.GetNumberOfEvents() == 4 && fd.GetSumOfCounts() == 9;
    assert fd.Get(1) == 2 && fd.Get(2) == 1 && fd.Get(3) == 1 && fd.Get(4) == 5;
    Test2Overwrites(fd);
  }

  /** The rest of `test2Common`: `set` of present events moves the sum only. */
  method Test2Overwrites(fd: Int2IntFrequencyDistribution)
    requires fd.Valid() && fd.Get(1) == 2 && fd.Get(2) == 1 && fd.Get(3) == 1 && fd.Get(4) == 5
    requires fd.numberOfEvents == 4 && fd.sumOfCounts == 9
    modifies fd
  {
    var ok := fd.Set(1, 5);
    assert fd.GetNumberOfEvents() == 4 && fd.GetSumOfCounts() == 12;
    assert fd.Get(1) == 5 && fd.Get(2) == 1 && fd.Get(3) == 1 && fd.Get(4) == 5;
    fd.Increment(3);
    fd.Increment(3);
    fd.Increment(3);
    assert fd.GetNumberOfEvents() == 4 && fd.GetSumOfCounts() == 15;
    assert fd.Get(1) == 5 && fd.Get(2) == 1 && fd.Get(3) == 4 && fd.Get(4) == 5;
    Test2Lower(fd);
  }

  /** The last step of `test2Common`: lowering a count with `set`. */
  method Test2Lower(fd: Int2IntFrequencyDistribution)
    requires fd.Valid() && fd.Get(1) == 5 && fd.Get(2) == 1 && fd.Get(3) == 4 && fd.Get(4) == 5
    requires fd.numberOfEvents == 4 && fd.sumOfCounts == 15
    modifies fd
  {
    var ok := fd.Set(3, 1);
    assert fd.GetNumberOfEvents() == 4 && fd.GetSumOfCounts() == 12;
    assert fd.Get(1) == 5 && fd.Get(2) == 1 && fd.Get(3) == 1 && fd.Get(4) == 5;
  }

  /** `test3Common` replayed on the model. */
  method Test3() {
    var fd := new Int2IntFrequencyDistribution();
    fd.Increment(1);
    fd.Increment(1);
    fd.Increment(2);
    fd.Increment(3);
    assert fd.GetNumberOfEvents() == 3 && fd.GetSumOfCounts() == 4;
    assert fd.Get(1) == 2 && fd.Get(2) == 1 && fd.Get(3) == 1;
    fd.Clear();
    assert fd.GetNumberOfEvents() == 0 && fd.GetSumOfCounts() == 0;
  }

  /** `testFailedDecrement1Common`: decrementing an event no longer present fails. */
  method TestFailedDecrement1() {
    var fd := new Int2IntFrequencyDistribution();
    fd.Increment(1);
    assert fd.GetNumberOfEvents() == 1 && fd.GetSumOfCounts() == 1 && fd.Get(1) == 1;
    var ok := fd.Decrement(1);
    assert ok;
    assert fd.GetNumberOfEvents() == 0 && fd.GetSumOfCounts() == 0 && fd.Get(1) == 0;
    ok := fd.Decrement(1);
    assert !ok;
  }

  /** `testFailedDecrement2Common`: decrementing past zero fails. */
  method TestFailedDecrement2() {
    var fd := new Int2IntFrequencyDistribution();
    var ok := fd.IncrementBy(1, 1000);
    assert fd.GetNumberOfEvents() == 1 && fd.GetSumOfCounts() == 1000 && fd.Get(1) == 1000;
    ok := fd.DecrementBy(1, 997);
    assert fd.GetNumberOfEvents() == 1 && fd.GetSumOfCounts() == 3 && fd.Get(1) == 3;
    ok := fd.DecrementBy(1, 3);
    assert fd.GetNumberOfEvents() == 0 && fd.GetSumOfCounts() == 0 && fd.Get(1) == 0;
    ok := fd.IncrementBy(1, 3);
    ok := fd.DecrementBy(1, 4);
    assert !ok;
  }

  /** `testMultiIncrementDecrementCommon` replayed on the model. */
  method TestMultiIncrementDecrement() {
    var fd := new Int2IntFrequencyDistribution();
    var ok := fd.IncrementBy(1, 2);
    ok := fd.IncrementBy(2, 3);
    ok := fd.IncrementBy(3, 4);
    assert fd.GetNumberOfEvents() == 3 && fd.GetSumOfCounts() == 9;
    assert fd.Get(1) == 2 && fd.Get(2) == 3 && fd.Get(3) == 4;
    ok := fd.DecrementBy(2, 2);
    assert fd.GetNumberOfEvents() == 3 && fd.GetSumOfCounts() == 7;
    assert fd.Get(1) == 2 && fd.Get(2) == 1 && fd.Get(3) == 4;
  }

  /** Fills a distribution by the six `set` calls that the sorted-view,
      iteration and serialisation cases start from. */
  method SetSix(a: int, b: int, c: int, d: int, e: int, f: int) returns (fd: Int2IntFrequencyDistribution)
    requires 0 < a <= 9 && 0 < b <= 9 && 0 < c <= 9 && 0 < d <= 9 && 0 < e <= 9 && 0 < f <= 9
    ensures fresh(fd) && fd.Valid()
    ensures fd.counts == map[1 := a, 4 := b, 2 := c, 5 := d, 6 := e, 3 := f]
    ensures fd.numberOfEvents == 6 && fd.sumOfCounts == a + b + c + d + e + f
  {
    fd := new Int2IntFrequencyDistribution();
    var ok := fd.Set(1, a);
    ok := fd.Set(4, b);
    ok := fd.Set(2, c);
    ok := fd.Set(5, d);
    ok := fd.Set(6, e);
    ok := fd.Set(3, f);
  }

  /** `testGetFrequencySortedEventsCommon` replayed on the model: the
      count-descending view and its first four entries. */
  method TestGetFrequencySortedEvents() {
    var fd := SetSix(5, 2, 5, 2, 1, 5);
    assert fd.GetNumberOfEvents() == 6 && fd.GetSumOfCounts() == 20;
    CountDescendingExample();
    assert fd.GetEntries(ByRightElementDescending)
           == [Entry(1, 5), Entry(2, 5), Entry(3, 5), Entry(4, 2), Entry(5, 2), Entry(6, 1)];
    assert fd.GetTopEntries(ByRightElementDescending, 4) == [Entry(1, 5), Entry(2, 5), Entry(3, 5), Entry(4, 2)];
  }

  /** The count-ascending half of `testGetFrequencySortedEventsCommon`. */
  method TestGetFrequencySortedEventsAscending() {
    var fd := SetSix(5, 2, 5, 2, 1, 5);
    CountAscendingExample();
    assert fd.GetEntries(ByRightElementAscending)
           == [Entry(6, 1), Entry(4, 2), Entry(5, 2), Entry(1, 5), Entry(2, 5), Entry(3, 5)];
    assert fd.GetTopEntries(ByRightElementAscending, 4) == [Entry(6, 1), Entry(4, 2), Entry(5, 2), Entry(1, 5)];
  }

  /** `testGetSortedEventsCommon` replayed on the model: the event-ascending
      view and its first four entries. */
  method TestGetSortedEvents() {
    var fd := SetSix(1, 3, 4, 7, 9, 2);
    assert fd.GetNumberOfEvents() == 6 && fd.GetSumOfCounts() == 26;
    EventAscendingExample();
    assert fd.GetEntries(ByLeftElementAscending)
           == [Entry(1, 1), Entry(2, 4), Entry(3, 2), Entry(4, 3), Entry(5, 7), Entry(6, 9)];
    assert fd.GetTopEntries(ByLeftElementAscending, 4) == [Entry(1, 1), Entry(2, 4), Entry(3, 2), Entry(4, 3)];
  }

  /** The event-descending half of `testGetSortedEventsCommon`. */
  method TestGetSortedEventsDescending() {
    var fd := SetSix(1, 3, 4, 7, 9, 2);
    EventDescendingExample();
    assert fd.GetEntries(ByLeftElementDescending)
           == [Entry(6, 9), Entry(5, 7), Entry(4, 3), Entry(3, 2), Entry(2, 4), Entry(1, 1)];
    assert fd.GetTopEntries(ByLeftElementDescending, 4) == [Entry(6, 9), Entry(5, 7), Entry(4, 3), Entry(3, 2)];
  }

  /** `testIterableCommon`: whatever order the iteration takes, it yields the
      same pairs as the event-ordered view, which is the order the `TreeSet`
      of the case puts them in. */
  method TestIterable() {
    var fd := SetSix(1, 3, 4, 7, 9, 2);
    assert fd.GetNumberOfEvents() == 6 && fd.GetSumOfCounts() == 26;
    var pairs := fd.Iterate();
    assert |pairs| == 6;
    EventAscendingExample();
    var sorted := fd.GetEntries(ByLeftElementAscending);
    assert sorted == [Entry(1, 1), Entry(2, 4), Entry(3, 2), Entry(4, 3), Entry(5, 7), Entry(6, 9)];
    EnumerationsArePermutations(pairs, sorted, fd.counts);
    assert multiset(pairs) == multiset([Entry(1, 1), Entry(2, 4), Entry(3, 2), Entry(4, 3), Entry(5, 7), Entry(6, 9)]);
  }

  /** `testSerialization`: a fresh distribution that reads what another wrote
      reports the same counts and aggregates. */
  method TestSerialization() {
    var fd := SetSix(1, 3, 4, 7, 9, 2);
    assert fd.GetNumberOfEvents() == 6 && fd.GetSumOfCounts() == 26;
    var words := fd.Write();
    var reconstructed := new Int2IntFrequencyDistribution();
    var ok := reconstructed.ReadFields(words);
    assert ok && fd != reconstructed;
    assert forall e :: reconstructed.Get(e) == fd.Get(e);
    assert reconstructed.counts == map[1 := 1, 4 := 3, 2 := 4, 5 := 7, 6 := 9, 3 := 2];
    assert reconstructed.GetNumberOfEvents() == 6 && reconstructed.GetSumOfCounts() == 26;
  }

  /** Moving `k` from the keys still to visit to the visited part of `counts`. */
  lemma VisitOne(counts: map<int, int>, remaining: map<int, int>, k: int)
    requires k in remaining && remaining.Keys <= counts.Keys
    ensures k !in counts - remaining.Keys
    ensures (counts - remaining.Keys)[k := counts[k]] == counts - (remaining - {k}).Keys
  {
    var before, after := counts - remaining.Keys, counts - (remaining - {k}).Keys;
    assert before[k := counts[k]].Keys == after.Keys;
  }

  lemma FractionAtMostOne(c: real, s: real)
    requires 0.0 <= c <= s && s > 0.0
    ensures 0.0 <= c / s <= 1.0
  {
    assert (s - c) / s >= 0.0;
    assert c / s + (s - c) / s == s / s == 1.0;
  }

  lemma MulMono(a: int, b: int, c: int)
    requires a <= b && c >= 0
    ensures a * c <= b * c
  {
  }
}
