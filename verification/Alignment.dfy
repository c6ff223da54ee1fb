/** RT_ALIGN and RT_ALIGN_DOWN (rt-thread/include/rtdef.h), for any alignment. */
module Alignment {

  function Times(k: int, m: int): int { k * m }

  ghost predicate Multiple(x: int, m: int) {
    exists k :: Times(k, m) == x
  }

  function AlignDown(n: int, m: nat): int
    requires m > 0
  {
    Times(n / m, m)
  }

  function AlignUp(n: int, m: nat): int
    requires m > 0
  {
    Times((n + m - 1) / m, m)
  }

  lemma MultipleSum(x: int, y: int, m: int)
    requires Multiple(x, m) && Multiple(y, m)
    ensures Multiple(x + y, m) && Multiple(x - y, m)
  {
    var a :| Times(a, m) == x;
    var b :| Times(b, m) == y;
    assert Times(a + b, m) == x + y && Times(a - b, m) == x - y;
  }

  lemma TimesMonotone(a: int, b: int, m: nat)
    requires a < b
    ensures Times(a, m) + m <= Times(b, m)
  {
    assert b * m - (a * m + m) == (b - a - 1) * m;
    assert (b - a - 1) * m >= 0;
  }

  /** AlignUp is the least multiple from n on. */
  lemma AlignUpIsLeast(n: int, m: nat, k: int)
    requires m > 0
    ensures Multiple(AlignUp(n, m), m) && n <= AlignUp(n, m) < n + m
    ensures Multiple(k, m) && n <= k ==> AlignUp(n, m) <= k
  {
    var q := (n + m - 1) / m;
    assert q * m <= n + m - 1 < q * m + m;
    if Multiple(k, m) && n <= k {
      var j :| Times(j, m) == k;
      if j < q { TimesMonotone(j, q, m); }
      if j > q { TimesMonotone(q, j, m); }
    }
  }
}
