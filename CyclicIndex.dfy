/** The JavaScript `%` operator and the wrap-around index arithmetic that the
    carousels use: `(i + 1) % n` and `(i - 1 + n) % n`. */
module CyclicIndex {

  /** `a % b` in JavaScript for a positive divisor: truncating division, so
      the remainder takes the sign of the dividend. */
  function JsRem(a: int, b: int): (r: int)
    requires b > 0
    ensures -b < r < b
    ensures a >= 0 ==> r >= 0
    ensures a <= 0 ==> r <= 0
  {
    if a >= 0 then a % b else -((-a) % b)
  }

  function Max(a: int, b: int): int
  {
    if a >= b then a else b
  }

  predicate InRange(i: int, n: int)
  {
    0 <= i < n
  }

  /** The next index. */
  function NextIndex(i: int, n: int): int
    requires n > 0
  {
    JsRem(i + 1, n)
  }

  /** The previous index. */
  function PrevIndex(i: int, n: int): int
    requires n > 0
  {
    JsRem(i - 1 + n, n)
  }

  /** Both steps keep an index in `[0, n)`. */
  lemma StepsStayInRange(i: int, n: int)
    requires n > 0 && InRange(i, n)
    ensures InRange(NextIndex(i, n), n) && InRange(PrevIndex(i, n), n)
  {
  }

  /** Next wraps from the last index to 0 and otherwise adds one; previous
      wraps from 0 to the last index and otherwise subtracts one. */
  lemma StepsWrap(i: int, n: int)
    requires n > 0 && InRange(i, n)
    ensures NextIndex(i, n) == if i == n - 1 then 0 else i + 1
    ensures PrevIndex(i, n) == if i == 0 then n - 1 else i - 1
  {
    if i == n - 1 {
      ModSelf(n);
    } else {
      ModOfSmall(i + 1, n);
    }
    if i == 0 {
      ModOfSmall(n - 1, n);
    } else {
      ModOfSmallPlus(i - 1, n);
    }
  }

  lemma ModOfSmall(a: int, n: int)
    requires 0 <= a < n
    ensures a % n == a
  {
  }

  lemma ModSelf(n: int)
    requires n > 0
    ensures n % n == 0
  {
  }

  lemma ModOfSmallPlus(a: int, n: int)
    requires 0 <= a < n
    ensures (a + n) % n == a
  {
  }

  /** Previous and next undo each other. */
  lemma StepsAreInverse(i: int, n: int)
    requires n > 0 && InRange(i, n)
    ensures PrevIndex(NextIndex(i, n), n) == i
    ensures NextIndex(PrevIndex(i, n), n) == i
  {
    StepsWrap(i, n);
    StepsStayInRange(i, n);
    StepsWrap(NextIndex(i, n), n);
    StepsWrap(PrevIndex(i, n), n);
  }

  /** `k` next steps from `i`. */
  function Advance(i: int, n: int, k: nat): int
    requires n > 0
  {
    if k == 0 then i else NextIndex(Advance(i, n, k - 1), n)
  }

  /** Up to `n` next steps rotate the index by `k`, wrapping past `n - 1`. */
  lemma {:induction false} AdvanceRotates(i: int, n: int, k: nat)
    requires n > 0 && InRange(i, n) && k <= n
    ensures Advance(i, n, k) == if i + k < n then i + k else i + k - n
  {
    if k > 0 {
      AdvanceRotates(i, n, k - 1);
      var prev := Advance(i, n, k - 1);
      StepsWrap(prev, n);
    }
  }

  /** `n` next steps return to the start. */
  lemma FullCycle(i: int, n: int)
    requires n > 0 && InRange(i, n)
    ensures Advance(i, n, n) == i
  {
    AdvanceRotates(i, n, n);
  }
}
