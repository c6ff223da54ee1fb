/** The size classes of the slab allocator (zoneindex in rt-thread/src/slab.c). */
module ZoneIndex {

  const ZONES: nat := 72           // RT_SLAB_NZONES
  const LIMIT: nat := 16384        // ZALLOC_ZONE_LIMIT

  /** (n + m - 1) & ~(m - 1), for a power of two m. */
  function RoundUp(n: nat, m: nat): nat
    requires m > 0
  {
    (n + m - 1) / m * m
  }

  /** The zone a request of n bytes belongs to, and the bytes it gets. */
  function Class(n: nat): (nat, nat)
    requires 0 < n < LIMIT
  {
    if n < 128 then var b := RoundUp(n, 8); (b / 8 - 1, b)
    else if n < 256 then var b := RoundUp(n, 16); (b / 16 + 7, b)
    else if n < 512 then var b := RoundUp(n, 32); (b / 32 + 15, b)
    else if n < 1024 then var b := RoundUp(n, 64); (b / 64 + 23, b)
    else if n < 2048 then var b := RoundUp(n, 128); (b / 128 + 31, b)
    else if n < 4096 then var b := RoundUp(n, 256); (b / 256 + 39, b)
    else if n < 8192 then var b := RoundUp(n, 512); (b / 512 + 47, b)
    else var b := RoundUp(n, 1024); (b / 1024 + 55, b)
  }

  /** The chunk size of a zone index. */
  function ChunkSize(i: nat): (b: nat)
    requires i < ZONES
    ensures b > 0
  {
    if i < 16 then 8 * (i + 1)
    else if i < 24 then 16 * (i - 7)
    else if i < 32 then 32 * (i - 15)
    else if i < 40 then 64 * (i - 23)
    else if i < 48 then 128 * (i - 31)
    else if i < 56 then 256 * (i - 39)
    else if i < 64 then 512 * (i - 47)
    else 1024 * (i - 55)
  }

  lemma {:induction false} SizesGrow(i: nat, j: nat)
    requires i < j < ZONES
    ensures ChunkSize(i) < ChunkSize(j)
    decreases j
  {
    if i + 1 < j { SizesGrow(i, j - 1); }
  }

  lemma ClassFits(n: nat)
    requires 0 < n < LIMIT
    ensures var (i, b) := Class(n); i < ZONES && b == ChunkSize(i) && n <= b && (i > 0 ==> ChunkSize(i - 1) < n)
  {
    if n < 1024 { LowClassFits(n); } else { HighClassFits(n); }
  }

  lemma LowClassFits(n: nat)
    requires 0 < n < 1024
    ensures var (i, b) := Class(n); i < ZONES && b == ChunkSize(i) && n <= b && (i > 0 ==> ChunkSize(i - 1) < n)
  {
    hide RoundUp;
    if n < 128 { Rounded(n, 8); }
    else if n < 256 { Rounded(n, 16); }
    else if n < 512 { Rounded(n, 32); }
    else { Rounded(n, 64); }
  }

  lemma HighClassFits(n: nat)
    requires 1024 <= n < LIMIT
    ensures var (i, b) := Class(n); i < ZONES && b == ChunkSize(i) && n <= b && ChunkSize(i - 1) < n
  {
    hide RoundUp;
    if n < 2048 { Rounded(n, 128); }
    else if n < 4096 { Rounded(n, 256); }
    else if n < 8192 { Rounded(n, 512); }
    else { Rounded(n, 1024); }
  }

  lemma Rounded(n: nat, m: nat)
    requires m > 0
    ensures var q := (n + m - 1) / m; RoundUp(n, m) == q * m && RoundUp(n, m) / m == q && n <= q * m < n + m
  {
    var q := (n + m - 1) / m;
    assert q * m <= n + m - 1 < q * m + m;
    DivExact(q, m);
  }

  lemma DivExact(q: nat, m: nat)
    requires m > 0
    ensures q * m / m == q
  {
    var p := q * m;
    var d := p / m;
    assert d * m <= p < d * m + m;
    SmallMultiple(q - d, m);
  }

  lemma SmallMultiple(k: int, m: nat)
    requires 0 <= k * m < m
    ensures k == 0
  {
    assert k * m == (k - 1) * m + m && k * m == (k + 1) * m - m;
    assert (k >= 1 ==> (k - 1) * m >= 0) && (k <= -1 ==> (k + 1) * m <= 0);
  }

  /** A request gets the smallest chunk size that holds it. */
  lemma ClassIsSmallest(n: nat)
    requires 0 < n < LIMIT
    ensures var (i, b) := Class(n);
            && i < ZONES && b == ChunkSize(i) && n <= b
            && forall j :: 0 <= j < ZONES && n <= ChunkSize(j) ==> i <= j
  {
    hide Class, ChunkSize;
    ClassFits(n);
    var i := Class(n).0;
    forall j | 0 <= j < i ensures ChunkSize(j) < n {
      if j < i - 1 { SizesGrow(j, i - 1); }
    }
  }

  /** Chunk sizes and indices correspond one to one, and every index is used. */
  lemma ClassOfChunk(i: nat)
    requires i < ZONES
    ensures ChunkSize(i) < LIMIT ==> Class(ChunkSize(i)) == (i, ChunkSize(i))
    ensures 0 < ChunkSize(i) - 1 < LIMIT && Class(ChunkSize(i) - 1) == (i, ChunkSize(i))
  {
    ChunkRange(i);
    hide Class, ChunkSize;
    ClassIs(ChunkSize(i) - 1, i);
    if ChunkSize(i) < LIMIT { ClassIs(ChunkSize(i), i); }
  }

  lemma ChunkRange(i: nat)
    requires i < ZONES
    ensures 8 <= ChunkSize(i) <= LIMIT && (i > 0 ==> ChunkSize(i - 1) < ChunkSize(i) - 1)
  {
  }

  lemma ClassIs(n: nat, i: nat)
    requires 0 < n < LIMIT && i < ZONES && n <= ChunkSize(i) && (i > 0 ==> ChunkSize(i - 1) < n)
    ensures Class(n) == (i, ChunkSize(i))
  {
    hide Class, ChunkSize;
    ClassIsSmallest(n);
    var j := Class(n).0;
    if j < i - 1 { SizesGrow(j, i - 1); }
  }

  /** Less than one part in eight is wasted, but for the smallest requests. */
  lemma Waste(n: nat)
    requires 0 < n < LIMIT
    ensures var (i, b) := Class(n); if n >= 128 then 8 * (b - n) < n else b - n < 8
  {
  }
}
