/** Sequence helpers shared by the pages: the order-preserving filter of
    `Array.prototype.filter`, the insertion-ordered de-duplication of
    `Array.from(new Set(xs))`, and the `join`/split pair on one separator. */
module Seqs {

  /** No element occurs twice. */
  predicate Distinct<T(==)>(xs: seq<T>) {
    forall i, j :: 0 <= i < j < |xs| ==> xs[i] != xs[j]
  }

  /** `a` is obtained from `b` by deleting elements, keeping the order of the rest. */
  ghost predicate IsSubsequence<T>(a: seq<T>, b: seq<T>)
    decreases |b|
  {
    if |a| == 0 then true
    else if |b| == 0 then false
    else (a[0] == b[0] && IsSubsequence(a[1..], b[1..])) || IsSubsequence(a, b[1..])
  }

  /** `xs.filter(p)`: the elements satisfying `p`, in their original order. */
  function Filter<T>(p: T -> bool, xs: seq<T>): (r: seq<T>)
    ensures |r| <= |xs|
    ensures forall k :: 0 <= k < |r| ==> r[k] in xs && p(r[k])
    ensures forall k :: 0 <= k < |xs| && p(xs[k]) ==> xs[k] in r
    decreases |xs|
  {
    if |xs| == 0 then []
    else if p(xs[0]) then [xs[0]] + Filter(p, xs[1..])
    else Filter(p, xs[1..])
  }

  lemma {:induction false} FilterIsSubsequence<T>(p: T -> bool, xs: seq<T>)
    ensures IsSubsequence(Filter(p, xs), xs)
    decreases |xs|
  {
    if |xs| > 0 {
      FilterIsSubsequence(p, xs[1..]);
      if !p(xs[0]) {
        var r := Filter(p, xs[1..]);
        if |r| > 0 {
          assert IsSubsequence(r, xs[1..]);
        }
      }
    }
  }

  /** A filter whose predicate always holds returns its input unchanged. */
  lemma {:induction false} FilterAll<T>(p: T -> bool, xs: seq<T>)
    requires forall x :: x in xs ==> p(x)
    ensures Filter(p, xs) == xs
    decreases |xs|
  {
    if |xs| > 0 {
      assert xs[0] in xs;
      assert forall x :: x in xs[1..] ==> x in xs;
      FilterAll(p, xs[1..]);
      assert [xs[0]] + xs[1..] == xs;
    }
  }

  /** Filtering by a conjunction is filtering by each conjunct in turn. */
  lemma {:induction false} FilterConjunction<T>(pq: T -> bool, p: T -> bool, q: T -> bool, xs: seq<T>)
    requires forall x :: pq(x) == (p(x) && q(x))
    ensures Filter(pq, xs) == Filter(q, Filter(p, xs))
    decreases |xs|
  {
    if |xs| > 0 {
      FilterConjunction(pq, p, q, xs[1..]);
      if p(xs[0]) {
        var rest := Filter(p, xs[1..]);
        assert Filter(p, xs) == [xs[0]] + rest;
        assert ([xs[0]] + rest)[1..] == rest;
      }
    }
  }

  /** A filter keeps as many elements as the input holds elements satisfying `p`. */
  function CountWhere<T>(p: T -> bool, xs: seq<T>): (n: nat)
    decreases |xs|
  {
    if |xs| == 0 then 0
    else (if p(xs[0]) then 1 else 0) + CountWhere(p, xs[1..])
  }

  lemma {:induction false} FilterLength<T>(p: T -> bool, xs: seq<T>)
    ensures |Filter(p, xs)| == CountWhere(p, xs)
    decreases |xs|
  {
    if |xs| > 0 {
      FilterLength(p, xs[1..]);
    }
  }

  /** The index of the first occurrence of `x` in `xs`. */
  function FirstIndex<T(==)>(xs: seq<T>, x: T): (k: nat)
    requires x in xs
    ensures k < |xs| && xs[k] == x
    ensures x !in xs[..k]
    decreases |xs|
  {
    if xs[0] == x then 0
    else
      var k := 1 + FirstIndex(xs[1..], x);
      assert xs[..k] == [xs[0]] + xs[1..][..k - 1];
      k
  }

  /** Appending elements does not move a first occurrence. */
  lemma FirstIndexAppend<T>(xs: seq<T>, ys: seq<T>, x: T)
    requires x in xs
    ensures x in xs + ys
    ensures FirstIndex(xs + ys, x) == FirstIndex(xs, x)
  {
    var k := FirstIndex(xs, x);
    var k' := FirstIndex(xs + ys, x);
    assert (xs + ys)[k] == x;
  }

  /** Adds `x` at the end unless already present: `Set.prototype.add`. */
  function Insert<T(==)>(acc: seq<T>, x: T): (r: seq<T>)
    ensures x in r
  {
    if x in acc then acc else acc + [x]
  }

  /** `Array.from(new Set(xs))`: each distinct element once, in first-seen order. */
  function Dedup<T(==)>(xs: seq<T>): (r: seq<T>)
    ensures Distinct(r)
    ensures forall k :: 0 <= k < |r| ==> r[k] in xs
    ensures forall k :: 0 <= k < |xs| ==> xs[k] in r
    ensures |r| <= |xs|
    decreases |xs|
  {
    if |xs| == 0 then []
    else
      var init := xs[..|xs| - 1];
      assert xs == init + [xs[|xs| - 1]];
      Insert(Dedup(init), xs[|xs| - 1])
  }

  /** The de-duplicated sequence lists elements in the order of their first occurrence. */
  lemma {:induction false} DedupFirstSeenOrder<T>(xs: seq<T>)
    ensures forall i, j :: 0 <= i < j < |Dedup(xs)| ==>
      FirstIndex(xs, Dedup(xs)[i]) < FirstIndex(xs, Dedup(xs)[j])
    decreases |xs|
  {
    if |xs| > 0 {
      var init := xs[..|xs| - 1];
      var last := xs[|xs| - 1];
      assert xs == init + [last];
      DedupFirstSeenOrder(init);
      var d := Dedup(init);
      forall x | x in d
        ensures FirstIndex(xs, x) == FirstIndex(init, x)
      {
        FirstIndexAppend(init, [last], x);
      }
      if last !in d {
        assert FirstIndex(xs, last) == |init| by {
          assert last !in init;
          assert xs[..|init|] == init;
        }
        forall i, j | 0 <= i < j < |Dedup(xs)|
          ensures FirstIndex(xs, Dedup(xs)[i]) < FirstIndex(xs, Dedup(xs)[j])
        {
          assert Dedup(xs) == d + [last];
          if j < |d| {
            assert Dedup(xs)[i] == d[i] && Dedup(xs)[j] == d[j];
          } else {
            assert Dedup(xs)[i] == d[i];
          }
        }
      }
    }
  }

  /** A sequence without repetitions is its own de-duplication. */
  lemma {:induction false} DedupOfDistinct<T>(xs: seq<T>)
    requires Distinct(xs)
    ensures Dedup(xs) == xs
    decreases |xs|
  {
    if |xs| > 0 {
      var init := xs[..|xs| - 1];
      DedupOfDistinct(init);
      assert xs[|xs| - 1] !in init;
      assert xs == init + [xs[|xs| - 1]];
    }
  }

  /** `parts.join(sep)` for a one-character separator. */
  function Join(parts: seq<string>, sep: char): string
    decreases |parts|
  {
    if |parts| == 0 then ""
    else if |parts| == 1 then parts[0]
    else parts[0] + [sep] + Join(parts[1..], sep)
  }

  /** `s.split(sep)` for a one-character separator: the pieces between separators. */
  function Split(s: string, sep: char): (parts: seq<string>)
    ensures |parts| >= 1
    ensures forall k :: 0 <= k < |parts| ==> sep !in parts[k]
    decreases |s|
  {
    if |s| == 0 then [""]
    else
      var rest := Split(s[1..], sep);
      if s[0] == sep then [""] + rest
      else [[s[0]] + rest[0]] + rest[1..]
  }

  lemma {:induction false} JoinSplit(s: string, sep: char)
    ensures Join(Split(s, sep), sep) == s
    decreases |s|
  {
    if |s| > 0 {
      JoinSplit(s[1..], sep);
      var rest := Split(s[1..], sep);
      if s[0] == sep {
        assert Split(s, sep)[1..] == rest;
        assert [s[0]] + s[1..] == s;
      } else if |rest| > 1 {
        assert Split(s, sep)[1..] == rest[1..];
        assert Join(rest, sep) == rest[0] + [sep] + Join(rest[1..], sep);
        assert [s[0]] + s[1..] == s;
      } else {
        assert [s[0]] + s[1..] == s;
      }
    }
  }

  /** Splitting a piece free of the separator followed by more text. */
  lemma {:induction false} SplitPrefix(a: string, sep: char, b: string)
    requires sep !in a
    ensures Split(a + [sep] + b, sep) == [a] + Split(b, sep)
    decreases |a|
  {
    if |a| == 0 {
      assert a + [sep] + b == [sep] + b;
      assert ([sep] + b)[1..] == b;
    } else {
      var t := a + [sep] + b;
      assert t[1..] == a[1..] + [sep] + b;
      SplitPrefix(a[1..], sep, b);
      assert [a[0]] + a[1..] == a;
    }
  }

  lemma {:induction false} SplitNoSeparator(a: string, sep: char)
    requires sep !in a
    ensures Split(a, sep) == [a]
    decreases |a|
  {
    if |a| > 0 {
      SplitNoSeparator(a[1..], sep);
      assert [a[0]] + a[1..] == a;
    }
  }

  /** Joining pieces free of the separator and splitting again gives the pieces back. */
  lemma {:induction false} SplitJoin(parts: seq<string>, sep: char)
    requires |parts| >= 1
    requires forall k :: 0 <= k < |parts| ==> sep !in parts[k]
    ensures Split(Join(parts, sep), sep) == parts
    decreases |parts|
  {
    if |parts| == 1 {
      SplitNoSeparator(parts[0], sep);
    } else {
      SplitJoin(parts[1..], sep);
      SplitPrefix(parts[0], sep, Join(parts[1..], sep));
      assert [parts[0]] + parts[1..] == parts;
    }
  }

  /** A joined text contains a character only if a piece does or it is the separator. */
  lemma {:induction false} JoinChars(parts: seq<string>, sep: char, c: char)
    requires c != sep
    requires forall k :: 0 <= k < |parts| ==> c !in parts[k]
    ensures c !in Join(parts, sep)
    decreases |parts|
  {
    if |parts| > 1 {
      JoinChars(parts[1..], sep, c);
    }
  }

  /** The sum of a sequence of counts. */
  function Sum(xs: seq<nat>): nat
    decreases |xs|
  {
    if |xs| == 0 then 0 else xs[0] + Sum(xs[1..])
  }

  lemma {:induction false} SumAppend(xs: seq<nat>, ys: seq<nat>)
    ensures Sum(xs + ys) == Sum(xs) + Sum(ys)
    decreases |xs|
  {
    if |xs| == 0 {
      assert xs + ys == ys;
    } else {
      assert (xs + ys)[1..] == xs[1..] + ys;
      SumAppend(xs[1..], ys);
    }
  }
}
