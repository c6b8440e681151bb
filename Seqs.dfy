/** Generic sequence operations shared by the filters of the model:
    Array.prototype.filter, order-preserving subsequences and the
    first-occurrence de-duplication that `[...new Set(xs)]` performs. */
module Seqs {

  /** `xs.filter(keep)`: the elements that pass, in their original order. */
  function Filter<T>(xs: seq<T>, keep: T -> bool): (r: seq<T>)
    ensures |r| <= |xs|
    ensures forall i :: 0 <= i < |r| ==> keep(r[i]) && r[i] in xs
    ensures forall i :: 0 <= i < |xs| && keep(xs[i]) ==> xs[i] in r
  {
    if xs == [] then []
    else if keep(xs[0]) then [xs[0]] + Filter(xs[1..], keep)
    else Filter(xs[1..], keep)
  }

  /** A map is determined by its values at each index. */
  lemma MapPointwise<T, U>(xs: seq<T>, f: T -> U, ys: seq<U>)
    requires |xs| == |ys|
    requires forall i :: 0 <= i < |xs| ==> f(xs[i]) == ys[i]
    ensures Map(xs, f) == ys
  {
  }

  lemma TakeDrop<T>(s: seq<T>, i: nat)
    requires i <= |s|
    ensures s[..i] + s[i..] == s
  {
  }

  lemma SliceSplit<T>(s: seq<T>, i: nat, e: nat)
    requires i <= e <= |s|
    ensures s[i..] == s[i..e] + s[e..]
  {
  }

  /** A slice holds only elements of the sequence it is cut from. */
  lemma SliceElements<T>(s: seq<T>, a: nat, b: nat)
    requires a <= b <= |s|
    ensures forall x :: x in s[a..b] ==> x in s
  {
    forall x | x in s[a..b] ensures x in s {
      var k :| 0 <= k < b - a && s[a..b][k] == x;
      assert s[a + k] == x;
    }
  }

  lemma SliceThree<T>(s: seq<T>, i: nat, e: nat)
    requires i <= e <= |s|
    ensures s == s[..i] + s[i..e] + s[e..]
  {
  }

  /** A subset is no larger than its superset. */
  lemma SubsetCard<T>(a: set<T>, b: set<T>)
    requires a <= b
    ensures |a| <= |b|
  {
    assert b == a + (b - a);
  }

  lemma AppendAssoc<T>(a: seq<T>, b: seq<T>, c: seq<T>)
    ensures (a + b) + c == a + (b + c)
  {
  }

  /** `sub` can be obtained from `xs` by deleting elements, keeping the order. */
  predicate IsSubsequence<T(==)>(sub: seq<T>, xs: seq<T>)
  {
    if sub == [] then true
    else if xs == [] then false
    else if sub[0] == xs[0] then IsSubsequence(sub[1..], xs[1..])
    else IsSubsequence(sub, xs[1..])
  }

  /** The number of positions of `xs` whose element passes `keep`. */
  function CountWhere<T>(xs: seq<T>, keep: T -> bool): nat
  {
    if xs == [] then 0 else (if keep(xs[0]) then 1 else 0) + CountWhere(xs[1..], keep)
  }

  lemma {:induction false} SubsequenceOfTail<T>(sub: seq<T>, xs: seq<T>)
    requires xs != [] && IsSubsequence(sub, xs[1..])
    ensures IsSubsequence(sub, xs)
    decreases 2 * |xs|
  {
    if sub != [] && sub[0] == xs[0] {
      SubsequenceDropHead(sub, xs[1..]);
    }
  }

  lemma {:induction false} SubsequenceDropHead<T>(sub: seq<T>, xs: seq<T>)
    requires sub != [] && IsSubsequence(sub, xs)
    ensures IsSubsequence(sub[1..], xs)
    decreases 2 * |xs| + 1
  {
    if sub[1..] != [] {
      assert xs != [];
      if sub[0] == xs[0] {
        SubsequenceOfTail(sub[1..], xs);
      } else {
        SubsequenceDropHead(sub, xs[1..]);
        SubsequenceOfTail(sub[1..], xs);
      }
    }
  }

  /** The filter keeps exactly the passing positions, in order: it is a
      subsequence of its input, and it is as long as the number of passing
      positions (so no passing element is lost, duplicates included). */
  lemma {:induction false} FilterIsOrderedSelection<T>(xs: seq<T>, keep: T -> bool)
    ensures IsSubsequence(Filter(xs, keep), xs)
    ensures |Filter(xs, keep)| == CountWhere(xs, keep)
  {
    if xs != [] {
      FilterIsOrderedSelection(xs[1..], keep);
      if keep(xs[0]) {
        assert Filter(xs, keep)[1..] == Filter(xs[1..], keep);
      } else {
        SubsequenceOfTail(Filter(xs, keep), xs);
      }
    }
  }

  /** A filter that rejects nothing returns its input unchanged. */
  lemma {:induction false} FilterKeepAll<T>(xs: seq<T>, keep: T -> bool)
    requires forall i :: 0 <= i < |xs| ==> keep(xs[i])
    ensures Filter(xs, keep) == xs
  {
    if xs != [] {
      FilterKeepAll(xs[1..], keep);
    }
  }

  /** `[...new Set(xs)]`: the distinct elements in first-occurrence order. */
  function Distinct<T(==)>(xs: seq<T>): (r: seq<T>)
  {
    DistinctAfter(xs, [])
  }

  /** Elements of `xs` not already in `seen`, each once, in first-occurrence order. */
  function DistinctAfter<T(==)>(xs: seq<T>, seen: seq<T>): (r: seq<T>)
  {
    if xs == [] then []
    else if xs[0] in seen then DistinctAfter(xs[1..], seen)
    else [xs[0]] + DistinctAfter(xs[1..], seen + [xs[0]])
  }

  predicate NoDuplicates<T(==)>(xs: seq<T>)
  {
    forall i, j :: 0 <= i < j < |xs| ==> xs[i] != xs[j]
  }

  lemma {:induction false} DistinctAfterFacts<T>(xs: seq<T>, seen: seq<T>)
    ensures NoDuplicates(DistinctAfter(xs, seen))
    ensures forall x :: x in DistinctAfter(xs, seen) <==> x in xs && x !in seen
    ensures IsSubsequence(DistinctAfter(xs, seen), xs)
  {
    if xs != [] {
      var r := DistinctAfter(xs, seen);
      if xs[0] in seen {
        DistinctAfterFacts(xs[1..], seen);
        SubsequenceOfTail(r, xs);
      } else {
        DistinctAfterFacts(xs[1..], seen + [xs[0]]);
        var tail := DistinctAfter(xs[1..], seen + [xs[0]]);
        assert r == [xs[0]] + tail;
        assert r[1..] == tail;
        assert xs[0] !in tail;
        forall i, j | 0 <= i < j < |r| ensures r[i] != r[j] {
          if i > 0 {
            assert r[i] == tail[i - 1] && r[j] == tail[j - 1];
          } else {
            assert r[j] == tail[j - 1];
          }
        }
      }
    }
  }

  /** The position of the first occurrence of `x` in `xs`. */
  function FirstIndex<T(==)>(xs: seq<T>, x: T): (k: nat)
    requires x in xs
    ensures k < |xs| && xs[k] == x
    ensures forall j :: 0 <= j < k ==> xs[j] != x
  {
    if xs[0] == x then 0 else 1 + FirstIndex(xs[1..], x)
  }

  /** Every element of `r` occurs in `xs`, and `r` lists them in the order
      in which they first occur in `xs`. */
  predicate InFirstOccurrenceOrder<T(==)>(r: seq<T>, xs: seq<T>)
  {
    (forall x :: x in r ==> x in xs) &&
    forall i, j :: 0 <= i < j < |r| ==> FirstIndex(xs, r[i]) < FirstIndex(xs, r[j])
  }

  lemma {:induction false} DistinctAfterOrder<T>(xs: seq<T>, seen: seq<T>)
    ensures InFirstOccurrenceOrder(DistinctAfter(xs, seen), xs)
  {
    if xs != [] {
      var r := DistinctAfter(xs, seen);
      if xs[0] in seen {
        DistinctAfterFacts(xs[1..], seen);
        DistinctAfterOrder(xs[1..], seen);
        forall i | 0 <= i < |r|
          ensures r[i] in xs && FirstIndex(xs, r[i]) == 1 + FirstIndex(xs[1..], r[i])
        {
          assert r[i] in r;
        }
      } else {
        var tail := DistinctAfter(xs[1..], seen + [xs[0]]);
        DistinctAfterFacts(xs[1..], seen + [xs[0]]);
        DistinctAfterOrder(xs[1..], seen + [xs[0]]);
        assert r == [xs[0]] + tail;
        forall i | 0 <= i < |tail|
          ensures tail[i] in xs && FirstIndex(xs, tail[i]) == 1 + FirstIndex(xs[1..], tail[i])
        {
          assert tail[i] in tail;
        }
        forall i, j | 0 <= i < j < |r|
          ensures FirstIndex(xs, r[i]) < FirstIndex(xs, r[j])
        {
          assert r[j] == tail[j - 1];
          if i > 0 {
            assert r[i] == tail[i - 1];
          }
        }
      }
    }
  }

  /** The de-duplicated sequence has no repeats, the same elements, and keeps
      the relative order of the first occurrences. */
  lemma DistinctFacts<T>(xs: seq<T>)
    ensures NoDuplicates(Distinct(xs))
    ensures forall x :: x in Distinct(xs) <==> x in xs
    ensures IsSubsequence(Distinct(xs), xs)
    ensures InFirstOccurrenceOrder(Distinct(xs), xs)
  {
    DistinctAfterFacts(xs, []);
    DistinctAfterOrder(xs, []);
  }

  /** `xs.map(f)`. */
  function Map<T, U>(xs: seq<T>, f: T -> U): (r: seq<U>)
    ensures |r| == |xs|
    ensures forall i :: 0 <= i < |xs| ==> r[i] == f(xs[i])
  {
    seq(|xs|, i requires 0 <= i < |xs| => f(xs[i]))
  }
}
