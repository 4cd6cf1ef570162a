/** The serialised form of a frequency distribution (`write` / `readFields`):
    the entry count followed by one (event, count) pair per entry. Each Java
    `int` written to the stream is one element of the word sequence; the byte
    level (four big-endian bytes per word) is not modelled. */
module FrequencyCodec {
  import opened Bounds
  import opened Wrappers
  import opened Entries

  /** The counts a distribution may hold: `int` events with positive `int` counts. */
  ghost predicate ValidCounts(m: map<int, int>) {
    forall k :: k in m ==> InInt32(k) && 0 < m[k] <= Int32Max
  }

  /** A readable pair: an `int` event not read before, with a positive `int` count. */
  predicate ValidPair(key: int, count: int, seen: map<int, int>) {
    InInt32(key) && key !in seen && 0 < count <= Int32Max
  }

  /** The (event, count) pairs of `es`, one after the other. */
  function Flatten(es: seq<Entry>): (words: seq<int>)
    ensures |words| == 2 * |es|
    ensures forall i :: 0 <= i < |es| ==> words[2 * i] == es[i].key && words[2 * i + 1] == es[i].value
  {
    if es == [] then []
    else
      var rest := Flatten(es[1..]);
      FlattenCons(es[0], es[1..], rest);
      [es[0].key, es[0].value] + rest
  }

  lemma FlattenCons(e: Entry, es: seq<Entry>, rest: seq<int>)
    requires |rest| == 2 * |es|
    requires forall i :: 0 <= i < |es| ==> rest[2 * i] == es[i].key && rest[2 * i + 1] == es[i].value
    ensures var words, all := [e.key, e.value] + rest, [e] + es;
      forall i :: 0 <= i < |all| ==> words[2 * i] == all[i].key && words[2 * i + 1] == all[i].value
  {
    var words, all := [e.key, e.value] + rest, [e] + es;
    forall i | 0 <= i < |all| ensures words[2 * i] == all[i].key && words[2 * i + 1] == all[i].value {
      if i > 0 {
        assert words[2 * i] == rest[2 * (i - 1)] && words[2 * i + 1] == rest[2 * (i - 1) + 1];
        assert all[i] == es[i - 1];
      }
    }
  }

  /** `write`: the entry count, then every entry (here in ascending event order;
      `DecodeAnyOrder` shows the order does not matter to the reader). */
  function Encode(m: map<int, int>): (words: seq<int>)
    ensures |words| == 1 + 2 * |m| && words[0] == |m|
  {
    [|m|] + Flatten(SortedEntries(m, ByLeftElementAscending))
  }

  /** Reads `n` pairs from `words` into `acc`; fails when the words run out or
      a pair is malformed. */
  function DecodeEntries(words: seq<int>, n: nat, acc: map<int, int>): (r: Option<map<int, int>>)
    ensures r.Some? && ValidCounts(acc) ==> ValidCounts(r.value)
    ensures r.Some? ==> |r.value| == |acc| + n && acc.Keys <= r.value.Keys
    ensures |words| < 2 * n ==> r == None
    decreases n
  {
    if n == 0 then Some(acc)
    else if |words| < 2 then None
    else if !ValidPair(words[0], words[1], acc) then None
    else DecodeEntries(words[2..], n - 1, acc[words[0] := words[1]])
  }

  /** One step of the reader: with `n > 0` pairs still to read, a short stream or
      a malformed first pair fails, and a good pair is added before the rest is
      read. */
  lemma DecodeEntriesStep(words: seq<int>, n: nat, acc: map<int, int>)
    requires n > 0
    ensures |words| < 2 ==> DecodeEntries(words, n, acc) == None
    ensures |words| >= 2 && !ValidPair(words[0], words[1], acc) ==> DecodeEntries(words, n, acc) == None
    ensures |words| >= 2 && ValidPair(words[0], words[1], acc) ==>
      DecodeEntries(words, n, acc) == DecodeEntries(words[2..], n - 1, acc[words[0] := words[1]])
  {
  }

  /** `readFields`: the count word, then that many pairs. Fails on an empty
      stream, a count outside [0, Integer.MAX_VALUE], a stream shorter than the
      count declares, or a malformed pair; words after the last pair are not read. */
  function Decode(words: seq<int>): (r: Option<map<int, int>>)
    ensures r.Some? ==> |words| >= 1 && ValidCounts(r.value) && |r.value| == words[0]
    ensures |words| >= 1 && words[0] >= 0 && |words| < 1 + 2 * words[0] ==> r == None
  {
    if |words| == 0 || !(0 <= words[0] <= Int32Max) then None
    else DecodeEntries(words[1..], words[0], map[])
  }

  /** Reading the pairs of any list of distinct entries of `m` into a map that
      already holds the rest of `m` yields `m`. */
  lemma {:induction false} DecodeEntriesOf(es: seq<Entry>, m: map<int, int>, acc: map<int, int>)
    requires ValidCounts(m)
    requires forall i :: 0 <= i < |es| ==> es[i].key in m && es[i] == At(m, es[i].key) && es[i].key !in acc
    requires forall i, j :: 0 <= i < j < |es| ==> es[i].key != es[j].key
    requires forall k :: k in acc ==> k in m && acc[k] == m[k]
    requires forall k :: k in m && k !in acc ==> At(m, k) in es
    ensures DecodeEntries(Flatten(es), |es|, acc) == Some(m)
    decreases |es|
  {
    if es == [] {
      forall k | k in m ensures k in acc {
        assert At(m, k) !in es;
      }
      SameEntries(acc, m);
    } else {
      var e := es[0];
      var words := Flatten(es);
      assert words[0] == e.key && words[1] == e.value;
      assert words[2..] == Flatten(es[1..]);
      var acc' := acc[e.key := e.value];
      ReadOneMore(es, m, acc);
      DecodeEntriesOf(es[1..], m, acc');
      assert DecodeEntries(words, |es|, acc) == DecodeEntries(words[2..], |es| - 1, acc');
    }
  }

  /** After the first pair of `es` is read, the rest of `es` still fits the
      conditions of `DecodeEntriesOf`. */
  lemma ReadOneMore(es: seq<Entry>, m: map<int, int>, acc: map<int, int>)
    requires |es| > 0
    requires forall i :: 0 <= i < |es| ==> es[i].key in m && es[i] == At(m, es[i].key) && es[i].key !in acc
    requires forall i, j :: 0 <= i < j < |es| ==> es[i].key != es[j].key
    requires forall k :: k in acc ==> k in m && acc[k] == m[k]
    requires forall k :: k in m && k !in acc ==> At(m, k) in es
    ensures var rest, acc' := es[1..], acc[es[0].key := es[0].value];
      && (forall i :: 0 <= i < |rest| ==> rest[i].key in m && rest[i] == At(m, rest[i].key) && rest[i].key !in acc')
      && (forall i, j :: 0 <= i < j < |rest| ==> rest[i].key != rest[j].key)
      && (forall k :: k in acc' ==> k in m && acc'[k] == m[k])
      && (forall k :: k in m && k !in acc' ==> At(m, k) in rest)
  {
    var rest, acc' := es[1..], acc[es[0].key := es[0].value];
    forall k | k in m && k !in acc' ensures At(m, k) in rest {
      var i :| 0 <= i < |es| && es[i] == At(m, k);
      assert i != 0;
      assert rest[i - 1] == es[i];
    }
    forall i | 0 <= i < |rest| ensures rest[i].key in m && rest[i] == At(m, rest[i].key) && rest[i].key !in acc' {
      assert rest[i] == es[i + 1];
    }
  }

  lemma SameEntries(a: map<int, int>, b: map<int, int>)
    requires forall k :: k in a ==> k in b && a[k] == b[k]
    requires forall k :: k in b ==> k in a
    ensures a == b
  {
    forall k | k in b.Keys ensures k in a.Keys { }
    forall k | k in a ensures k in b && a[k] == b[k] { }
    assert a.Keys == b.Keys;
  }

  /** The reader reconstructs `m` from its entries written in any order. */
  lemma DecodeAnyOrder(es: seq<Entry>, m: map<int, int>)
    requires ValidCounts(m) && |m| <= Int32Max
    requires Enumerates(es, m)
    ensures Decode([|m|] + Flatten(es)) == Some(m)
  {
    var words := [|m|] + Flatten(es);
    assert words[1..] == Flatten(es);
    DecodeEntriesOf(es, m, map[]);
  }

  /** Round trip: reading what was written reproduces every count (so also the
      number of events and the sum of counts). A stream's count word is an
      `int`, hence the bound on the number of events. */
  lemma RoundTrip(m: map<int, int>)
    requires ValidCounts(m) && |m| <= Int32Max
    ensures Decode(Encode(m)) == Some(m)
  {
    DecodeAnyOrder(SortedEntries(m, ByLeftElementAscending), m);
  }
}
