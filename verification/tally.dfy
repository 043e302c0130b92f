/** The category tally built by `reduce` into a plain object and read back
    with `Object.entries` / `Object.values`. A JavaScript object enumerates
    non-index string keys in insertion order, so the accumulator is an
    ordered association list with distinct keys. */
module Tally {
  import Seqs

  /** One property of the accumulator object. */
  datatype Entry = Entry(key: string, count: nat)

  /** `Object.keys`. */
  function Keys(acc: seq<Entry>): (ks: seq<string>)
    ensures |ks| == |acc|
    decreases |acc|
  {
    if |acc| == 0 then [] else [acc[0].key] + Keys(acc[1..])
  }

  /** `Object.values`. */
  function Values(acc: seq<Entry>): (vs: seq<nat>)
    ensures |vs| == |acc|
    decreases |acc|
  {
    if |acc| == 0 then [] else [acc[0].count] + Values(acc[1..])
  }

  lemma {:induction false} KeysAt(acc: seq<Entry>)
    ensures forall k :: 0 <= k < |acc| ==> Keys(acc)[k] == acc[k].key && Values(acc)[k] == acc[k].count
    decreases |acc|
  {
    if |acc| > 0 {
      KeysAt(acc[1..]);
    }
  }

  /** `acc[key] = (acc[key] || 0) + 1`. */
  function Bump(acc: seq<Entry>, key: string): (r: seq<Entry>)
    ensures Keys(r) == Seqs.Insert(Keys(acc), key)
    decreases |acc|
  {
    if |acc| == 0 then [Entry(key, 1)]
    else if acc[0].key == key then
      [Entry(key, acc[0].count + 1)] + acc[1..]
    else
      var rest := Bump(acc[1..], key);
      assert ([acc[0]] + rest)[1..] == rest;
      [acc[0]] + rest
  }

  /** With distinct keys, bumping raises exactly the count of `key`, by one,
      keeping every entry in place; an absent key is appended with count 1. */
  lemma {:induction false} BumpEntries(acc: seq<Entry>, key: string)
    requires Seqs.Distinct(Keys(acc))
    ensures key in Keys(acc) ==> |Bump(acc, key)| == |acc|
    ensures key in Keys(acc) ==> forall k :: 0 <= k < |acc| ==>
      Bump(acc, key)[k] == Entry(acc[k].key, if acc[k].key == key then acc[k].count + 1 else acc[k].count)
    ensures key !in Keys(acc) ==> Bump(acc, key) == acc + [Entry(key, 1)]
    decreases |acc|
  {
    if key in Keys(acc) {
      BumpPresent(acc, key);
    } else {
      BumpAbsent(acc, key);
    }
  }

  lemma {:induction false} BumpAbsent(acc: seq<Entry>, key: string)
    requires key !in Keys(acc)
    ensures Bump(acc, key) == acc + [Entry(key, 1)]
    decreases |acc|
  {
    if |acc| > 0 {
      assert acc[0].key != key && key !in Keys(acc[1..]) by {
        assert Keys(acc) == [acc[0].key] + Keys(acc[1..]);
      }
      BumpAbsent(acc[1..], key);
      assert Bump(acc, key) == [acc[0]] + Bump(acc[1..], key);
      assert acc + [Entry(key, 1)] == [acc[0]] + (acc[1..] + [Entry(key, 1)]);
    }
  }

  lemma {:induction false} BumpPresent(acc: seq<Entry>, key: string)
    requires Seqs.Distinct(Keys(acc)) && key in Keys(acc)
    ensures |Bump(acc, key)| == |acc|
    ensures forall k :: 0 <= k < |acc| ==>
      Bump(acc, key)[k] == Entry(acc[k].key, if acc[k].key == key then acc[k].count + 1 else acc[k].count)
    decreases |acc|
  {
    KeysAt(acc);
    var r := Bump(acc, key);
    if acc[0].key == key {
      forall k | 1 <= k < |acc|
        ensures acc[k].key != key
      {
        assert Keys(acc)[0] != Keys(acc)[k];
      }
    } else {
      var tail := acc[1..];
      assert Keys(acc) == [acc[0].key] + Keys(tail);
      assert Keys(tail) == Keys(acc)[1..];
      assert Seqs.Distinct(Keys(tail));
      BumpPresent(tail, key);
      assert r == [acc[0]] + Bump(tail, key);
      forall k | 1 <= k < |acc|
        ensures r[k] == Entry(acc[k].key, if acc[k].key == key then acc[k].count + 1 else acc[k].count)
      {
        assert r[k] == Bump(tail, key)[k - 1];
        assert tail[k - 1] == acc[k];
      }
    }
  }

  /** Bumping adds one to the total of the counts. */
  lemma {:induction false} BumpSum(acc: seq<Entry>, key: string)
    ensures Seqs.Sum(Values(Bump(acc, key))) == Seqs.Sum(Values(acc)) + 1
    decreases |acc|
  {
    if |acc| > 0 {
      if acc[0].key == key {
        assert ([Entry(key, acc[0].count + 1)] + acc[1..])[1..] == acc[1..];
      } else {
        BumpSum(acc[1..], key);
        assert ([acc[0]] + Bump(acc[1..], key))[1..] == Bump(acc[1..], key);
      }
    }
  }

  /** Bumping the tally of `xs` by `key` gives the tally of `xs + [key]`. */
  lemma BumpCounts(acc: seq<Entry>, xs: seq<string>, key: string)
    requires Seqs.Distinct(Keys(acc))
    requires forall k :: 0 <= k < |acc| ==> acc[k].count == multiset(xs)[acc[k].key] && acc[k].count >= 1
    requires forall k :: 0 <= k < |xs| ==> xs[k] in Keys(acc)
    ensures forall k :: 0 <= k < |Bump(acc, key)| ==>
      Bump(acc, key)[k].count == multiset(xs + [key])[Bump(acc, key)[k].key] && Bump(acc, key)[k].count >= 1
  {
    KeysAt(acc);
    var r := Bump(acc, key);
    if key in Keys(acc) {
      BumpPresent(acc, key);
      forall k | 0 <= k < |r|
        ensures r[k].count == multiset(xs + [key])[r[k].key] && r[k].count >= 1
      {
        AppendCount(xs, key, acc[k].key);
      }
    } else {
      BumpAbsent(acc, key);
      forall k | 0 <= k < |r|
        ensures r[k].count == multiset(xs + [key])[r[k].key] && r[k].count >= 1
      {
        if k < |acc| {
          assert r[k] == acc[k];
          AppendCount(xs, key, acc[k].key);
        } else {
          AppendCount(xs, key, key);
          assert key !in multiset(xs);
        }
      }
    }
  }

  lemma AppendCount(xs: seq<string>, key: string, x: string)
    ensures multiset(xs + [key])[x] == multiset(xs)[x] + (if x == key then 1 else 0)
  {
    assert multiset(xs + [key]) == multiset(xs) + multiset{key};
  }

  /** `xs.reduce((acc, x) => bump(acc, x), {})`: every distinct value with
      the number of times it occurs. Keys are the first-seen order of the
      values, each count is the multiplicity, so every count is at least 1,
      and the counts add up to the length of the input. */
  function CountBy(xs: seq<string>): (r: seq<Entry>)
    ensures Keys(r) == Seqs.Dedup(xs)
    ensures forall k :: 0 <= k < |r| ==> r[k].count == multiset(xs)[r[k].key] && r[k].count >= 1
    ensures Seqs.Sum(Values(r)) == |xs|
    decreases |xs|
  {
    if |xs| == 0 then []
    else
      var init := xs[..|xs| - 1];
      var last := xs[|xs| - 1];
      assert xs == init + [last];
      var acc := CountBy(init);
      BumpCounts(acc, init, last);
      BumpSum(acc, last);
      Bump(acc, last)
  }

  /** Where a key sits in the tally, it carries that key's multiplicity;
      the keys are exactly the values that occur. */
  lemma CountOfKey(xs: seq<string>, key: string)
    ensures key in xs <==> key in Keys(CountBy(xs))
    ensures forall k :: 0 <= k < |CountBy(xs)| && CountBy(xs)[k].key == key ==>
      CountBy(xs)[k].count == multiset(xs)[key]
  {
    var d := Seqs.Dedup(xs);
    if key in xs {
      var j :| 0 <= j < |xs| && xs[j] == key;
      assert xs[j] in d;
    }
  }
}
