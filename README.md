# Integer-keyed counting containers of lintools-datatypes

This project models two containers of the `lintools-datatypes` library, as
their JUnit suites pin them down:

- `HMapIL`: a hash map from a Java `int` key to a Java `long` value. The
  operations are `put`, `get`, `containsKey`, `size`, `remove`, `increment`
  (with and without a delta), `plus` (merge in place), `dot` (sparse inner
  product) and `getEntriesSortedByValue` (optionally capped).
- `Int2IntFrequencyDistribution`: an event → count accumulator. It keeps the
  number of distinct events and the sum of all counts in step with the counts.
  The operations are `get`, `increment`, `decrement`, `set`, `clear`,
  `getNumberOfEvents`, `getSumOfCounts`, `computeRelativeFrequency`,
  `getEntries(order[, k])`, unordered iteration and `write` / `readFields`.

Both classes are Dafny classes whose abstract state is a `map<int, int>`.
Hashing and probing are invisible to callers, so no contract mentions them.
The frequency distribution also keeps the fields `numberOfEvents` and
`sumOfCounts`. Its `Valid()` invariant says three things:

- every count is a positive `int`;
- `numberOfEvents` is the number of keys;
- `sumOfCounts` is the sum of the counts.

Every mutating method keeps this invariant.

Modules:

- `Bounds`: the Java `int` and `long` ranges, and `Wrap32` and `Wrap64`, the
  two's-complement wrap-around of `int` and `long` arithmetic.
- `Entries`: (key, value) entries and the four orders of `SortableEntries.Order`
  (value orders break ties by ascending key). It also has the sorted view of a
  map, its uniqueness, the capped view, and the fact that any two enumerations
  of a map are permutations of each other.
- `MapSums`: the sum of a map's values, and the key-wise merge of two maps.
- `MapIL`: the class `HMapIL`, the map-level `plus` and `dot`, and the cases of
  `HMapILTest`.
- `FrequencyCodec`: the serialised form as a sequence of words. It has the
  entry count, then one (event, count) pair per entry, with its reader and the
  round trip.
- `FrequencyDistribution`: the class `Int2IntFrequencyDistribution`, the
  reading loop of `readFields`, and the cases of the shared test bodies.

Each JUnit case of the two suites is replayed as a Dafny method (`TestBasic`,
`TestPlus`, `TestDot`, `TestSortedEntries1`, `Test1`, `TestFailedDecrement2`,
`TestSerialization`, …). The method performs the case's calls on the classes
and asserts its expected values, so the verifier checks each of them against
the contracts. There are three exceptions:

- The two random cases, `TestRandomInsert` and `TestRandomUpdate`, take the
  drawn numbers as a parameter, so they hold for every draw.
- Relative frequencies are compared exactly rather than within a float
  tolerance.
- The logarithms of `computeLogRelativeFrequency` are not replayed.

A failing `decrement`, where the Java call throws, is asserted as a `false`
result. Long cases are split into consecutive methods whose preconditions
carry the state over.

## Model

| member | source | states |
|---|---|---|
| Bounds.Wrap32 | lintools-datatypes/src/test/java/tl/lin/data/map/HMapILTest.java:38-40 | The `int` that `k * Integer.MAX_VALUE` yields in Java: in the `int` range, congruent to the exact product modulo 2^32, and equal to it when it fits. |
| Entries.BeforeIsStrictTotalOrder | lintools-datatypes/src/test/java/tl/lin/data/fd/Int2IntFrequencyDistributionTestBase.java:239-298 | Each of the four orders, value ties broken by ascending key, is irreflexive, asymmetric and transitive, and total on entries with distinct keys. |
| Entries.SortedEntries | lintools-datatypes/src/test/java/tl/lin/data/fd/Int2IntFrequencyDistributionTestBase.java:239-271 | The sorted view lists every entry of the map exactly once and is strictly sorted by the chosen order. |
| Entries.SortedEntriesUnique | lintools-datatypes/src/test/java/tl/lin/data/fd/Int2IntFrequencyDistributionTestBase.java:311-343 | A strictly sorted enumeration of a map is the sorted view, so the expected lists of the cases are the only possible answers. |
| Entries.ListedInOrder | lintools-datatypes/src/test/java/tl/lin/data/map/HMapILTest.java:179-195 | A list with distinct keys, each entry before the next, is the sorted view of the map it lists. |
| Entries.EnumerationsArePermutations | lintools-datatypes/src/test/java/tl/lin/data/fd/Int2IntFrequencyDistributionTestBase.java:383-410 | Two enumerations of the same map hold the same entries with the same multiplicities, whatever their order. |
| Entries.TopEntries | lintools-datatypes/src/test/java/tl/lin/data/map/HMapILTest.java:199-235 | The capped view has min(k, size) entries, each an entry of the map, strictly sorted, and each before every entry it leaves out. |
| MapSums.SumValuesRemove | lintools-datatypes/src/test/java/tl/lin/data/fd/Int2IntFrequencyDistributionTestBase.java:77-80 | Removing an event lowers the sum by exactly its count, whichever key the sum takes first. |
| MapSums.SumValuesUpdate | lintools-datatypes/src/test/java/tl/lin/data/fd/Int2IntFrequencyDistributionTestBase.java:106-146 | Storing a count moves the sum by the new count minus the old one, which is 0 for a new event. |
| MapSums.SumValuesAddMaps | lintools-datatypes/src/test/java/tl/lin/data/map/HMapILTest.java:102-122 | The sum of a key-wise merge is the sum of both operands, whether their keys overlap or not. |
| MapSums.SumValuesBounds | lintools-datatypes/src/test/java/tl/lin/data/fd/Int2IntFrequencyDistributionTestBase.java:45-46 | A sum of n values from [lo, hi] lies in [n*lo, n*hi]. This bounds `sumOfCounts`. |
| MapSums.ValueAtMostSum | lintools-datatypes/src/test/java/tl/lin/data/fd/Int2IntFrequencyDistributionTestBase.java:52-54 | No count exceeds the sum of counts, so a relative frequency is at most 1. |
| MapSums.Int32KeyCount | lintools-datatypes/src/test/java/tl/lin/data/fd/Int2IntFrequencyDistributionTestBase.java:45 | A map keyed by Java `int`s has at most 2^32 events. |
| MapIL.PlusMapsContents | lintools-datatypes/src/test/java/tl/lin/data/map/HMapILTest.java:102-122 | After `plus`: keys of only one map keep their value, shared keys get the `long` sum, the keys are the union, and the result is a valid `int`→`long` map. |
| MapIL.PlusMapsExact | lintools-datatypes/src/test/java/tl/lin/data/map/HMapILTest.java:115-121 | Without `long` overflow, `plus` is the exact key-wise sum and preserves the total of all values. |
| MapIL.PlusExample | lintools-datatypes/src/test/java/tl/lin/data/map/HMapILTest.java:103-121 | The maps of `testPlus` merge into four keys with the expected values, including 2·`Integer.MAX_VALUE` under `Integer.MAX_VALUE`. |
| MapIL.DotProduct | lintools-datatypes/src/test/java/tl/lin/data/map/HMapILTest.java:140-143 | `dot` is a `long`, equal to the exact sum of products over shared keys whenever that sum fits in a `long`. |
| MapIL.InnerProductShared | lintools-datatypes/src/test/java/tl/lin/data/map/HMapILTest.java:125-144 | A shared key contributes exactly its product to the inner product. |
| MapIL.InnerProductUnshared | lintools-datatypes/src/test/java/tl/lin/data/map/HMapILTest.java:125-144 | A key in only one map contributes nothing. |
| MapIL.InnerProductDisjoint | lintools-datatypes/src/test/java/tl/lin/data/map/HMapILTest.java:125-144 | Maps with no common key have inner product 0. |
| MapIL.DotSymmetric | lintools-datatypes/src/test/java/tl/lin/data/map/HMapILTest.java:140 | `a.dot(b) == b.dot(a)`, both exactly and in `long` arithmetic. |
| MapIL.InnerProductDistributes | lintools-datatypes/src/test/java/tl/lin/data/map/HMapILTest.java:115-143 | The inner product distributes over the exact merge of `plus`. |
| MapIL.DotExample | lintools-datatypes/src/test/java/tl/lin/data/map/HMapILTest.java:125-144 | The maps of `testDot` have dot product `Integer.MAX_VALUE`² + 6, which exceeds `Integer.MAX_VALUE`. |
| MapIL.SortedByValueExample | lintools-datatypes/src/test/java/tl/lin/data/map/HMapILTest.java:170-196 | The value-descending view of `testSortedEntries1` is (1,5),(3,3),(4,3),(2,2),(5,1): key 3 comes before key 4 at value 3. |
| MapIL.TopByValueExample | lintools-datatypes/src/test/java/tl/lin/data/map/HMapILTest.java:199-217 | The first two entries of that view are (1,5),(3,3). |
| MapIL.TopByValueBeyondSizeExample | lintools-datatypes/src/test/java/tl/lin/data/map/HMapILTest.java:219-235 | A cap of 5 on a two-entry map yields both entries, (1,5),(2,2). |
| MapIL.HMapIL.constructor | lintools-datatypes/src/test/java/tl/lin/data/map/HMapILTest.java:82 | A new map is empty. |
| MapIL.HMapIL.Size | lintools-datatypes/src/test/java/tl/lin/data/map/HMapILTest.java:64-70 | `size()` is the number of keys, and 0 exactly for an empty map. |
| MapIL.HMapIL.ContainsKey | lintools-datatypes/src/test/java/tl/lin/data/map/HMapILTest.java:43-48 | `containsKey(k)` holds exactly when k is a present key. |
| MapIL.HMapIL.Get | lintools-datatypes/src/test/java/tl/lin/data/map/HMapILTest.java:147-149 | `get` returns a `long`: the stored value for a present key, and 0 for an absent one. |
| MapIL.HMapIL.Put | lintools-datatypes/src/test/java/tl/lin/data/map/HMapILTest.java:52-78 | `put` stores or overwrites the key. Afterwards `get` returns the value and `containsKey` holds. The size grows by one only for a new key. |
| MapIL.HMapIL.Remove | lintools-datatypes/src/test/java/tl/lin/data/map/HMapILTest.java:81-99 | `remove` returns the old value (0 if absent) and deletes the key. The size drops by one exactly when the key was present, and every other key keeps its value. |
| MapIL.HMapIL.Increment | lintools-datatypes/src/test/java/tl/lin/data/map/HMapILTest.java:147-164 | `increment(k, d)` stores `get(k) + d` in `long` arithmetic, counting from 0 for an absent key. Zero and negative results are stored. |
| MapIL.HMapIL.IncrementByOne | lintools-datatypes/src/test/java/tl/lin/data/map/HMapILTest.java:165-166 | `increment(k)` stores `get(k) + 1`. |
| MapIL.HMapIL.Plus | lintools-datatypes/src/test/java/tl/lin/data/map/HMapILTest.java:102-122 | The merge as `PlusMaps` of the old contents. The keys become the union, the size is the union's size, and each value follows the three cases. |
| MapIL.HMapIL.Dot | lintools-datatypes/src/test/java/tl/lin/data/map/HMapILTest.java:125-144 | `dot` is a `long`, exact whenever the inner product fits in a `long`. |
| MapIL.HMapIL.GetEntriesSortedByValue | lintools-datatypes/src/test/java/tl/lin/data/map/HMapILTest.java:170-243 | `null` exactly for an empty map. Otherwise every entry once, value descending, ties by ascending key. |
| MapIL.HMapIL.GetTopEntriesSortedByValue | lintools-datatypes/src/test/java/tl/lin/data/map/HMapILTest.java:199-235 | `null` exactly for an empty map. Otherwise the first min(n, size) entries of the full sorted view. |
| MapIL.FillSequential | lintools-datatypes/src/test/java/tl/lin/data/map/HMapILTest.java:31-49 | After putting `values[i]` under each key `i`, the keys are exactly 0 .. n-1, each reads back its own value, and the size is the number of puts. |
| MapIL.OverwriteSequential | lintools-datatypes/src/test/java/tl/lin/data/map/HMapILTest.java:52-78 | Overwriting every key leaves the size unchanged, and every key reads back its new value. |
| FrequencyCodec.Encode | lintools-datatypes/src/test/java/tl/lin/data/fd/Int2IntFrequencyDistributionTestBase.java:426 | The written form is the entry count followed by two words per entry. |
| FrequencyCodec.DecodeEntries | lintools-datatypes/src/test/java/tl/lin/data/fd/Int2IntFrequencyDistributionTestBase.java:429 | Reading n pairs adds n new events with valid counts, and fails on a stream shorter than 2n words. |
| FrequencyCodec.Decode | lintools-datatypes/src/test/java/tl/lin/data/fd/Int2IntFrequencyDistributionTestBase.java:429 | A successful read yields valid counts with as many events as the count word says. A stream shorter than declared fails. |
| FrequencyCodec.DecodeAnyOrder | lintools-datatypes/src/test/java/tl/lin/data/fd/Int2IntFrequencyDistributionTestBase.java:424-429 | Reading the pairs of any enumeration of the counts, after their count, reproduces the counts. |
| FrequencyCodec.RoundTrip | lintools-datatypes/src/test/java/tl/lin/data/fd/Int2IntFrequencyDistributionTestBase.java:412-441 | `Decode(Encode(m)) == Some(m)` for every valid distribution with at most `Integer.MAX_VALUE` events. |
| FrequencyDistribution.Int2IntFrequencyDistribution.constructor | lintools-datatypes/src/test/java/tl/lin/data/fd/Int2IntFrequencyDistributionTestBase.java:428 | A new distribution is valid and empty. |
| FrequencyDistribution.Int2IntFrequencyDistribution.Get | lintools-datatypes/src/test/java/tl/lin/data/fd/Int2IntFrequencyDistributionTestBase.java:36 | `get` is 0 exactly for an absent event, and otherwise its positive `int` count. |
| FrequencyDistribution.Int2IntFrequencyDistribution.GetNumberOfEvents | lintools-datatypes/src/test/java/tl/lin/data/fd/Int2IntFrequencyDistributionTestBase.java:45 | The number of events is the number of distinct present events. |
| FrequencyDistribution.Int2IntFrequencyDistribution.GetSumOfCounts | lintools-datatypes/src/test/java/tl/lin/data/fd/Int2IntFrequencyDistributionTestBase.java:46 | The sum of counts is the total of all counts. It lies between the number of events and that number times `Integer.MAX_VALUE`, and never overflows a `long`. |
| FrequencyDistribution.Int2IntFrequencyDistribution.ComputeRelativeFrequency | lintools-datatypes/src/test/java/tl/lin/data/fd/Int2IntFrequencyDistributionTestBase.java:52-54 | count / sumOfCounts is a fraction in [0, 1], and 0 exactly for an absent event. |
| FrequencyDistribution.Int2IntFrequencyDistribution.Set | lintools-datatypes/src/test/java/tl/lin/data/fd/Int2IntFrequencyDistributionTestBase.java:106-146 | `set` stores the count (0 removes the event). The sum moves by new minus old. The number of events moves by the membership change. Other events are unchanged. The invariant is kept. |
| FrequencyDistribution.Int2IntFrequencyDistribution.IncrementBy | lintools-datatypes/src/test/java/tl/lin/data/fd/Int2IntFrequencyDistributionTestBase.java:184-188 | `increment(e, d)` adds d to the count and to the sum, and adds a new event when needed. Other events are unchanged and the invariant is kept. |
| FrequencyDistribution.Int2IntFrequencyDistribution.Increment | lintools-datatypes/src/test/java/tl/lin/data/fd/Int2IntFrequencyDistributionTestBase.java:38-50 | `increment(e)` adds one to the count (a new event gets 1) and one to the sum. The number of events grows only for a new event. |
| FrequencyDistribution.Int2IntFrequencyDistribution.DecrementBy | lintools-datatypes/src/test/java/tl/lin/data/fd/Int2IntFrequencyDistributionTestBase.java:183-226 | `decrement(e, d)` fails, changing nothing, exactly when e is absent or d exceeds its count. Otherwise it lowers the count and the sum by d, and removes the event (one event fewer) exactly when the count reaches 0. |
| FrequencyDistribution.Int2IntFrequencyDistribution.Decrement | lintools-datatypes/src/test/java/tl/lin/data/fd/Int2IntFrequencyDistributionTestBase.java:167-181 | `decrement(e)` fails exactly for an absent event. Otherwise it lowers the count and the sum by one, and removes an event whose count was 1. |
| FrequencyDistribution.Int2IntFrequencyDistribution.Clear | lintools-datatypes/src/test/java/tl/lin/data/fd/Int2IntFrequencyDistributionTestBase.java:162-164 | `clear` empties the counts and zeroes both aggregates. |
| FrequencyDistribution.Int2IntFrequencyDistribution.GetEntries | lintools-datatypes/src/test/java/tl/lin/data/fd/Int2IntFrequencyDistributionTestBase.java:239-271 | `getEntries(order)` lists every (event, count) pair once, `numberOfEvents` of them, strictly sorted by the order. |
| FrequencyDistribution.Int2IntFrequencyDistribution.GetTopEntries | lintools-datatypes/src/test/java/tl/lin/data/fd/Int2IntFrequencyDistributionTestBase.java:273-298 | `getEntries(order, k)` is the prefix of length min(k, numberOfEvents) of `getEntries(order)`. |
| FrequencyDistribution.Int2IntFrequencyDistribution.Iterate | lintools-datatypes/src/test/java/tl/lin/data/fd/Int2IntFrequencyDistributionTestBase.java:383-389 | Iteration in an unspecified order visits each present (event, count) pair exactly once. |
| FrequencyDistribution.Int2IntFrequencyDistribution.Write | lintools-datatypes/src/test/java/tl/lin/data/fd/Int2IntFrequencyDistributionTestBase.java:424-426 | `write` emits the event count, then the pairs, and the reader turns the result back into exactly these counts. |
| FrequencyDistribution.Int2IntFrequencyDistribution.ReadFields | lintools-datatypes/src/test/java/tl/lin/data/fd/Int2IntFrequencyDistributionTestBase.java:428-440 | `readFields` succeeds exactly when the words decode. It then holds exactly the decoded counts with consistent aggregates; on failure nothing changes. |
| FrequencyDistribution.ReadCounts | lintools-datatypes/src/test/java/tl/lin/data/fd/Int2IntFrequencyDistributionTestBase.java:429 | The reading loop computes `Decode(words)`, and with it the number of events and the sum of the counts read. |
| FrequencyDistribution.ReadPair | lintools-datatypes/src/test/java/tl/lin/data/fd/Int2IntFrequencyDistributionTestBase.java:429 | One good pair extends the counts read so far by a new event, adds one event, and adds its count to the sum. |
| FrequencyDistribution.CountDescendingExample | lintools-datatypes/src/test/java/tl/lin/data/fd/Int2IntFrequencyDistributionTestBase.java:239-254 | The count-descending view of the case is events 1,2,3,4,5,6 with counts 5,5,5,2,2,1. |
| FrequencyDistribution.CountAscendingExample | lintools-datatypes/src/test/java/tl/lin/data/fd/Int2IntFrequencyDistributionTestBase.java:256-271 | The count-ascending view is events 6,4,5,1,2,3: equal counts still go by ascending event. |
| FrequencyDistribution.EventAscendingExample | lintools-datatypes/src/test/java/tl/lin/data/fd/Int2IntFrequencyDistributionTestBase.java:311-326 | The event-ascending view is events 1..6 with counts 1,4,2,3,7,9. |
| FrequencyDistribution.EventDescendingExample | lintools-datatypes/src/test/java/tl/lin/data/fd/Int2IntFrequencyDistributionTestBase.java:328-343 | The event-descending view is events 6..1 with counts 9,7,3,2,4,1. |

## Left out

- Hashing, probing, capacity, load factor and resizing: callers cannot see them, so every contract is about the abstract map only.
- `computeLogRelativeFrequency` and floating point: there is no `Math.log`. The relative frequency is an exact rational, and the float tolerances of the cases are not modelled.
- ComputeRelativeFrequency: requires a positive sum of counts. For an empty distribution the result is left undefined.
- `PairOfWritablesTest`: its serialisation belongs to Hadoop `Writable` classes that are not part of this model.
- The byte level of `DataOutputStream` / `DataInputStream`: each Java `int` written is one element of a `seq<int>`. Big-endian bytes and stream I/O are not modelled.
- Random test data (`java.util.Random`): the drawn numbers are a parameter of `TestRandomInsert` and `TestRandomUpdate`. The `k * Integer.MAX_VALUE` product of `testRandomInsert` wraps in 32-bit arithmetic before it is widened; `Wrap32` writes that wrap out.
- The concrete iteration order: it is left open (any remaining key may come next). The case itself sorts the pairs through a `TreeSet`.
- Serialisation of `HMapIL`: no case of the suite exercises it.
- Plus: overflow of a shared key's sum is modelled as Java's `long` wrap-around, not as a reported failure. `PlusMapsExact` gives the exact sum when there is no overflow.
- Dot: overflow is modelled as Java's `long` wrap-around, not as a reported failure. The result equals the exact inner product whenever that fits in a `long`.
- GetTopEntriesSortedByValue: the cap is a `nat`, so a negative cap is not modelled.
- Set: a negative count is refused (`ok == false`, nothing changes), so that every stored count stays positive. The `int` range of the count is a precondition.
- IncrementBy: requires that the new count does not exceed `Integer.MAX_VALUE`, since the cases never overflow an `int` count. A result below 0 is refused, as in `Set`.
- Increment: requires the count to be below `Integer.MAX_VALUE`, for the same reason.
- DecrementBy: a negative `delta` is not modelled. The cases never pass one, and what the implementation does with it (refuse it, or raise the count) is not visible in the suite. A `delta` of 0 is allowed and leaves a present event unchanged. The failure the Java code signals by an exception is a `false` result with the state unchanged.
- Decrement: the Java exception for an absent event is a `false` result with the state unchanged.
- Write: the round-trip promise is stated for at most `Integer.MAX_VALUE` events, because the count word is an `int`.
- RoundTrip: stated for at most `Integer.MAX_VALUE` events, for the same reason.
- Decode: besides an empty stream, a count word outside [0, `Integer.MAX_VALUE`] and a stream shorter than the count word declares, the reader refuses three more kinds of stream: an event outside the `int` range, an event that repeats an earlier one (for example `[2, 1, 5, 1, 3]`), and a count that is 0 or negative (for example `[1, 7, 0]`). The suite never shows these streams. They are refused because storing them would break the distribution's invariant: every count positive, and `numberOfEvents` equal to the number of distinct events.
- GetTopEntries: the cap is a `nat`, so a negative cap is not modelled.
- Encode: writes the entries in ascending event order rather than table order. `DecodeAnyOrder` shows that the reader accepts the entries in any order.
- The JUnit cases (`TestBasic`, `Test1`, `TestSerialization`, …) are replayed as methods without contracts of their own. What they check are the assertions in their bodies.
