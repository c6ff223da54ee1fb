/** When the slab allocator takes pages and gives them back, when it refuses, and that no page is
    lost (rt-thread/src/slab.c). */
module SlabLaws {
  import opened Lists
  import opened PageRuns
  import opened ZoneIndex
  import opened SlabSpec
  import opened SlabCalls

  // -------------------------------------------------------------------------------------
  // No page is lost
  // -------------------------------------------------------------------------------------

  ghost predicate Owned(ext: Extents, x: int) { exists a :: a in ext && a <= x < a + ext[a] }

  /** Page x is free or somebody's. */
  ghost predicate Covered(s: State, x: int) { Holds(s.runs, x) || Owned(s.ext, x) }

  ghost predicate SamePages(s: State, s': State) { forall x: int :: Covered(s', x) <==> Covered(s, x) }

  lemma TakenCovered(s: State, s': State, n: nat)
    requires Territory(s.ext, s.runs) && n > 0 && Find(s.runs, n) < |s.runs|
    requires var k := Find(s.runs, n); s'.runs == Take(s.runs, k, n) && s'.ext == s.ext[s.runs[k].start := n]
    ensures SamePages(s, s')
  {
    hide Take, Find, Territory;
    var k := Find(s.runs, n);
    var a := s.runs[k].start;
    ReservePages(s.ext, s.runs, n);
    TakenPages(s, n);
    forall x: int ensures Covered(s', x) <==> Covered(s, x) {
      if Owned(s.ext, x) {
        var b :| b in s.ext && b <= x < b + s.ext[b];
        assert b in s'.ext && s'.ext[b] == s.ext[b];
      }
      if a <= x < a + n { assert a in s'.ext && s'.ext[a] == n; }
    }
  }

  lemma TakenPages(s: State, n: nat)
    requires Territory(s.ext, s.runs) && n > 0 && Find(s.runs, n) < |s.runs|
    ensures var k := Find(s.runs, n); var a := s.runs[k].start;
            && (forall x :: Holds(Take(s.runs, k, n), x) <==> Holds(s.runs, x) && !(a <= x < a + n))
            && (forall x :: a <= x < a + n ==> Holds(s.runs, x))
  {
    var k := Find(s.runs, n);
    TakePages(s.runs, k, n);
    FindIsLowest(s.runs, n);
  }

  lemma GivenCovered(s: State, s': State, a: nat)
    requires Territory(s.ext, s.runs) && a in s.ext && s'.runs == Give(s.runs, a, s.ext[a]) && s'.ext == s.ext - {a}
    ensures SamePages(s, s') && forall x :: Holds(s'.runs, x) <==> Holds(s.runs, x) || a <= x < a + s.ext[a]
  {
    hide Give;
    assert Unfree(s.runs, a, s.ext[a]);
    GivePages(s.runs, a, s.ext[a]);
    forall x: int ensures Covered(s', x) <==> Covered(s, x) {
      if Owned(s.ext, x) {
        var b :| b in s.ext && b <= x < b + s.ext[b];
        assert b != a ==> b in s'.ext && s'.ext[b] == s.ext[b];
      }
    }
  }

  lemma SameTerritory(s: State, s': State)
    requires s'.runs == s.runs && s'.ext == s.ext
    ensures SamePages(s, s')
  {
  }

  lemma SamePagesThen(s: State, s1: State, s2: State)
    requires SamePages(s, s1) && SamePages(s1, s2)
    ensures SamePages(s, s2)
  {
  }

  // -------------------------------------------------------------------------------------
  // rt_slab_alloc
  // -------------------------------------------------------------------------------------

  /** Some n consecutive pages are free. */
  ghost predicate PagesFor(s: State, n: nat) { exists a: int :: FreeFrom(s.runs, a, n) }

  /** Some zone of chunks of b bytes has a free one. */
  ghost predicate ZoneWithRoom(s: State, b: nat) { exists z :: z in s.zones && s.zones[z].size == b && s.zones[z].nfree > 0 }

  lemma FindsPages(s: State, S: Shape, n: nat)
    requires Inv(s, S) && n > 0
    ensures Find(s.runs, n) < |s.runs| <==> PagesFor(s, n)
  {
    hide Kinds, TableOk, ArrayOk, ZonesOk, Weights, Find;
    FindIsLowest(s.runs, n);
  }

  lemma FindsZone(s: State, S: Shape, i: nat)
    requires Inv(s, S) && i < ZONES
    ensures |s.avail| == ZONES && (s.avail[i] != [] <==> ZoneWithRoom(s, ChunkSize(i)))
  {
    hide Territory, Kinds, TableOk, Weights, ChunkSize;
    if s.avail[i] != [] {
      var z := s.avail[i][0];
      assert z in s.avail[i] && ZoneOk(s.zones[z], S);
    }
    if ZoneWithRoom(s, ChunkSize(i)) {
      var z :| z in s.zones && s.zones[z].size == ChunkSize(i) && s.zones[z].nfree > 0;
      assert ZoneOk(s.zones[z], S);
      SameIndex(s.zones[z].index, i);
    }
  }

  lemma SameIndex(i: nat, j: nat)
    requires i < ZONES && j < ZONES && ChunkSize(i) == ChunkSize(j)
    ensures i == j
  {
    hide ChunkSize;
    if i < j { SizesGrow(i, j); }
    if j < i { SizesGrow(j, i); }
  }

  /** A request is refused exactly if it asks for nothing; or is large and there are not enough free
      pages in a row; or is small, no zone of its chunk size has a free chunk, none is in reserve and
      there are not enough free pages in a row for a new one. */
  lemma RefusedIff(s: State, S: Shape, n: nat)
    requires Inv(s, S) && Bounded(s)
    ensures S.limit <= LIMIT
    ensures Alloc(s, S, n).1 == Null <==>
              n == 0 || if n >= S.limit then !PagesFor(s, Pages(n)) else !ZoneWithRoom(s, Class(n).1) && s.spare == [] && !PagesFor(s, S.zonePages)
  {
    hide Inv, Find, Class, PagesFor, ZoneWithRoom, ChunkSize, Alloc;
    AllocOk(s, S, n);
    Parts(s, S);
    if n >= S.limit {
      RoundedPages(n);
      FindsPages(s, S, Pages(n));
    } else if n > 0 {
      ClassFits(n);
      FindsZone(s, S, Class(n).0);
      FindsPages(s, S, S.zonePages);
    }
  }

  /** Pages are taken only for a large piece, or for a small one when no zone has room and none is in
      reserve: the lowest pages that are free in a row. */
  lemma AllocPages(s: State, S: Shape, n: nat)
    requires Inv(s, S) && Bounded(s) && Alloc(s, S, n).1.Given?
    ensures var (s', r) := Alloc(s, S, n); n > 0 && S.limit <= LIMIT && SamePages(s, s')
    ensures var (s', r) := Alloc(s, S, n);
            n < S.limit && (ZoneWithRoom(s, Class(n).1) || s.spare != []) ==>
              s'.runs == s.runs && s'.ext == s.ext && s'.spare == if ZoneWithRoom(s, Class(n).1) then s.spare else s.spare[1..]
    ensures var (s', r) := Alloc(s, S, n);
            n >= S.limit || (!ZoneWithRoom(s, Class(n).1) && s.spare == []) ==>
              var m, a := if n >= S.limit then Pages(n) else S.zonePages, Extent(r.piece);
              && FreeFrom(s.runs, a, m) && (forall b :: FreeFrom(s.runs, b, m) ==> a <= b)
              && (forall x :: Holds(s'.runs, x) <==> Holds(s.runs, x) && !(a <= x < a + m))
              && s'.ext == s.ext[a := m] && s'.spare == s.spare
  {
    hide Inv, Find, Take, Class, ChunkSize, Alloc, PagesFor, ZoneWithRoom;
    RefusedIff(s, S, n);
    TerritoryOf(s, S);
    if n >= S.limit {
      LargePages(s, S, n);
    } else {
      ClassFits(n);
      FindsZone(s, S, Class(n).0);
      FindsPages(s, S, S.zonePages);
      if s.avail[Class(n).0] == [] && s.spare == [] { NewPages(s, S, n); } else { NoPages(s, S, n); }
    }
  }

  lemma LargePages(s: State, S: Shape, n: nat)
    requires Inv(s, S) && n > 0 && S.limit <= n && Alloc(s, S, n).1.Given?
    ensures var (s', r) := Alloc(s, S, n); var m, a := Pages(n), Extent(r.piece);
            && SamePages(s, s') && FreeFrom(s.runs, a, m) && (forall b :: FreeFrom(s.runs, b, m) ==> a <= b)
            && (forall x :: Holds(s'.runs, x) <==> Holds(s.runs, x) && !(a <= x < a + m))
            && s'.ext == s.ext[a := m] && s'.spare == s.spare
  {
    hide Inv, Find, Take, Class;
    Parts(s, S);
    TerritoryOf(s, S);
    RoundedPages(n);
    Lowest(s, S, Pages(n));
    TakenCovered(s, Alloc(s, S, n).0, Pages(n));
    TakenPages(s, Pages(n));
  }

  lemma NewPages(s: State, S: Shape, n: nat)
    requires Inv(s, S) && 0 < n < S.limit && n < LIMIT && Class(n).0 < |s.avail| && s.avail[Class(n).0] == [] && s.spare == []
    requires Alloc(s, S, n).1.Given?
    ensures var (s', r) := Alloc(s, S, n); var m, a := S.zonePages, Extent(r.piece);
            && SamePages(s, s') && FreeFrom(s.runs, a, m) && (forall b :: FreeFrom(s.runs, b, m) ==> a <= b)
            && (forall x :: Holds(s'.runs, x) <==> Holds(s.runs, x) && !(a <= x < a + m))
            && s'.ext == s.ext[a := m] && s'.spare == []
  {
    hide Inv, Find, Take, Class, ChunkSize, Marked, NewZone;
    Parts(s, S);
    TerritoryOf(s, S);
    Lowest(s, S, S.zonePages);
    TakenCovered(s, Alloc(s, S, n).0, S.zonePages);
    TakenPages(s, S.zonePages);
  }

  lemma NoPages(s: State, S: Shape, n: nat)
    requires Inv(s, S) && 0 < n < S.limit && n < LIMIT && Class(n).0 < |s.avail| && (s.avail[Class(n).0] != [] || s.spare != [])
    ensures var s' := Alloc(s, S, n).0;
            && s'.runs == s.runs && s'.ext == s.ext && SamePages(s, s')
            && s'.spare == if s.avail[Class(n).0] != [] then s.spare else s.spare[1..]
  {
    hide Inv, Find, Take, Class, ChunkSize, Marked, NewZone, TakeChunk;
    Parts(s, S);
    SameTerritory(s, Alloc(s, S, n).0);
  }

  lemma TerritoryOf(s: State, S: Shape)
    requires Inv(s, S)
    ensures Territory(s.ext, s.runs) && S.zonePages > 0
  {
  }

  lemma Lowest(s: State, S: Shape, n: nat)
    requires Inv(s, S) && n > 0 && Find(s.runs, n) < |s.runs|
    ensures var a := s.runs[Find(s.runs, n)].start; FreeFrom(s.runs, a, n) && forall b :: FreeFrom(s.runs, b, n) ==> a <= b
  {
    hide Kinds, TableOk, ArrayOk, ZonesOk, Weights, Find;
    FindIsLowest(s.runs, n);
  }

  /** A zone is cut into as many chunks as fit behind its header; chunks whose size is a power of two
      are aligned to it in the zone, others to eight bytes. */
  lemma ZoneIsFull(n: nat, S: Shape)
    requires S.Valid() && 0 < n < S.limit
    ensures n < LIMIT && Class(n).1 > 0
    ensures var b := Class(n).1; var z := NewZone(Class(n).0, b, S);
            && z.size == b && S.header <= z.off && z.off + z.nmax * b <= S.ZoneSize() < z.off + z.nmax * b + b
            && (if PowerOfTwo(b) then z.off % b == 0 && z.off < S.header + b else z.off % 8 == 0 && z.off < S.header + 8)
  {
    hide Class, ChunkSize, RoundUp, PowerOfTwo;
    NewZoneOk(n, S);
    var b := Class(n).1;
    var m := if PowerOfTwo(b) then b else 8;
    Rounded(S.header, m);
    var q := (S.header + m - 1) / m;
    NoRemainder(q, m);
    Filled(S.ZoneSize() - NewZone(Class(n).0, b, S).off, b);
  }

  lemma NoRemainder(q: nat, m: nat)
    requires m > 0
    ensures q * m % m == 0
  {
    var p := q * m;
    DivExact(q, m);
    assert p % m == p - p / m * m;
  }

  lemma Filled(room: int, b: nat)
    requires b > 0
    ensures room >= 0 ==> Quotient(room, b) * b <= room < Quotient(room, b) * b + b
  {
  }

  /** Chunks that were never used come first, in order; after that the chunk freed last. */
  lemma ChunkOrder(z: Zone, S: Shape)
    requires ZoneOk(z, S)
    ensures z.uindex + 1 < z.nmax ==> z.nfree > 0 && TakeChunk(z).1 == z.uindex + 1 && TakeChunk(z).0.free == z.free
    ensures z.uindex + 1 == z.nmax ==> forall c: nat :: TakeChunk(PutChunk(z, c)) == (z, c)
  {
    forall c: nat ensures z.uindex + 1 == z.nmax ==> TakeChunk(PutChunk(z, c)) == (z, c) {
      assert ([c] + z.free)[1..] == z.free;
    }
  }

  // -------------------------------------------------------------------------------------
  // rt_slab_free
  // -------------------------------------------------------------------------------------

  /** After the last chunk of a zone is given back, and another zone of its list has room, the zone
      is in reserve; if two are already, its pages are free again.  Else the zone stays in use. */
  lemma FreedZone(s: State, S: Shape, z: nat, c: nat)
    requires Inv(s, S) && Bounded(s) && Out(s, Chunk(z, c))
    ensures var s', zone := Free(s, S, Chunk(z, c)), s.zones[z];
            var last := zone.nmax == zone.nfree + 1;
            var more := exists y :: y != z && y in s.zones && s.zones[y].size == zone.size && s.zones[y].nfree > 0;
            && SamePages(s, s') && s'.large == s.large && (last && more ==> s'.zones == s.zones - {z})
            && (!(last && more) ==> z in s'.zones && s'.zones == s.zones[z := s'.zones[z]] && s'.zones[z].nfree == zone.nfree + 1 && s'.spare == s.spare && s'.runs == s.runs)
            && (last && more && |s.spare| < RELEASE ==> s'.spare == [z] + s.spare && s'.runs == s.runs)
            && (last && more && |s.spare| == RELEASE ==>
                  && s'.spare == s.spare && (forall x :: Holds(s'.runs, x) <==> Holds(s.runs, x) || z <= x < z + S.zonePages)
                  && forall x :: z <= x < z + S.zonePages ==> x in s'.usage && s'.usage[x] == FreePage)
  {
    hide Inv, Give, Cleared, Live, ChunkSize;
    var zone := s.zones[z];
    FreeOk(s, S, Chunk(z, c));
    ZonePart(s, S, z);
    FreeChunkOk(s, S, z, c);
    var t := FreeChunk(s, z, c);
    ZonePart(t, S, z);
    TerritoryOf(s, S);
    AloneIff(s, S, z, c);
    if zone.nmax == zone.nfree + 1 && t.avail[zone.index] != [z] {
      var u := Retire(t, z);
      RetireOk(t, S, z);
      ExtentOf(s, S, z);
      assert (s.zones[z := PutChunk(zone, c)]) - {z} == s.zones - {z};
      ClearedAll(u.usage, z, S.zonePages);
      if |u.spare| > RELEASE { GivenCovered(s, Release(u, S), z); } else { SameTerritory(s, u); }
    } else {
      SameTerritory(s, t);
    }
  }

  lemma {:induction false} ClearedAll(usage: Table, z: nat, n: nat)
    ensures forall x :: z <= x < z + n ==> x in Cleared(usage, z, n) && Cleared(usage, z, n)[x] == FreePage
  {
    if n > 0 { ClearedAll(usage, z, n - 1); }
  }

  lemma ExtentOf(s: State, S: Shape, z: nat)
    requires Inv(s, S) && z in s.zones
    ensures z in s.ext && s.ext[z] == S.zonePages
  {
    hide Territory, TableOk, ArrayOk, ZonesOk, Weights;
  }

  /** The list of the zone holds it alone exactly if no other zone of its chunk size has room. */
  lemma AloneIff(s: State, S: Shape, z: nat, c: nat)
    requires Inv(s, S) && Out(s, Chunk(z, c)) && s.zones[z].index < |s.avail|
    ensures FreeChunk(s, z, c).avail[s.zones[z].index] != [z] <==>
              exists y :: y != z && y in s.zones && s.zones[y].size == s.zones[z].size && s.zones[y].nfree > 0
  {
    hide Inv, Live;
    if y :| y != z && y in s.zones && s.zones[y].size == s.zones[z].size && s.zones[y].nfree > 0 {
      WithOther(s, S, z, c, y);
    }
    if FreeChunk(s, z, c).avail[s.zones[z].index] != [z] { var _ := OtherInList(s, S, z, c); }
  }

  lemma WithOther(s: State, S: Shape, z: nat, c: nat, y: nat)
    requires Inv(s, S) && Out(s, Chunk(z, c)) && s.zones[z].index < |s.avail|
    requires y != z && y in s.zones && s.zones[y].size == s.zones[z].size && s.zones[y].nfree > 0
    ensures FreeChunk(s, z, c).avail[s.zones[z].index] != [z]
  {
    hide Territory, Kinds, TableOk, Weights, Live, ChunkSize;
    assert ZoneOk(s.zones[z], S) && ZoneOk(s.zones[y], S);
    SameIndex(s.zones[y].index, s.zones[z].index);
    assert y in s.avail[s.zones[z].index];
    assert y in FreeChunk(s, z, c).avail[s.zones[z].index];
  }

  lemma OtherInList(s: State, S: Shape, z: nat, c: nat) returns (y: nat)
    requires Inv(s, S) && Out(s, Chunk(z, c)) && s.zones[z].index < |s.avail|
    requires FreeChunk(s, z, c).avail[s.zones[z].index] != [z]
    ensures y != z && y in s.zones && s.zones[y].size == s.zones[z].size && s.zones[y].nfree > 0
  {
    FreeChunkOk(s, S, z, c);
    var t := FreeChunk(s, z, c);
    var row := t.avail[s.zones[z].index];
    ListOf(t, S, z);
    y := Another(row, z);
    ListedZone(t, S, s.zones[z].index, y);
    ZonePart(s, S, z);
  }

  lemma ListOf(t: State, S: Shape, z: nat)
    requires Inv(t, S) && z in t.zones && t.zones[z].nfree > 0 && t.zones[z].index < |t.avail|
    ensures Distinct(t.avail[t.zones[z].index]) && z in t.avail[t.zones[z].index]
  {
    hide Territory, Kinds, TableOk, Weights, ZonesOk;
  }

  lemma ListedZone(t: State, S: Shape, i: nat, y: nat)
    requires Inv(t, S) && i < |t.avail| && y in t.avail[i]
    ensures i < ZONES && y in t.zones && t.zones[y].nfree > 0 && t.zones[y].size == ChunkSize(i)
  {
    hide Territory, Kinds, TableOk, Weights, ChunkSize;
    assert ZoneOk(t.zones[y], S);
  }

  lemma Another(row: seq<nat>, z: nat) returns (y: nat)
    requires Distinct(row) && z in row && row != [z]
    ensures y in row && y != z
  {
    y := if row[0] == z then row[1] else row[0];
  }

  /** A large piece gives its pages back. */
  lemma FreedPages(s: State, S: Shape, p: nat)
    requires Inv(s, S) && Bounded(s) && Out(s, Block(p))
    ensures var s' := Free(s, S, Block(p));
            && SamePages(s, s') && s'.zones == s.zones && s'.spare == s.spare && s'.large == s.large - {p}
            && forall x :: Holds(s'.runs, x) <==> Holds(s.runs, x) || p <= x < p + s.large[p]
  {
    hide Inv, Give;
    TerritoryOf(s, S);
    LargeOf(s, S, p);
    GivenCovered(s, FreeLarge(s, p), p);
  }

  lemma LargeOf(s: State, S: Shape, p: nat)
    requires Inv(s, S) && p in s.large
    ensures p in s.ext && s.ext[p] == s.large[p]
  {
    hide Territory, TableOk, ArrayOk, ZonesOk, Weights;
  }

  lemma FreePagesKept(s: State, S: Shape, x: Piece)
    requires Inv(s, S) && Bounded(s) && Out(s, x)
    ensures SamePages(s, Free(s, S, x))
  {
    hide Inv, Bounded, Free, SamePages, Live;
    match x
    case Block(p) => FreedPages(s, S, p);
    case Chunk(z, c) => FreedZone(s, S, z, c);
  }

  // -------------------------------------------------------------------------------------
  // Runs
  // -------------------------------------------------------------------------------------

  lemma AllocPagesKept(s: State, S: Shape, n: nat)
    requires Inv(s, S) && Bounded(s)
    ensures SamePages(s, Alloc(s, S, n).0)
  {
    hide Inv, Bounded, Alloc;
    AllocOk(s, S, n);
    if Alloc(s, S, n).1.Given? { AllocPages(s, S, n); }
  }

  lemma ReplacePagesKept(s: State, S: Shape, x: Piece, n: nat)
    requires Inv(s, S) && Bounded(s) && Out(s, x)
    ensures SamePages(s, Replace(s, S, x, n).0)
  {
    hide Inv, Bounded, Alloc, Free, Out, Start, Size, SamePages;
    AllocOk(s, S, n);
    AllocPagesKept(s, S, n);
    var (s1, r) := Alloc(s, S, n);
    if r.Given? {
      FreePagesKept(s1, S, x);
      SamePagesThen(s, s1, Free(s1, S, x));
    } else {
      SameTerritory(s, s);
    }
  }

  lemma StepPagesKept(s: State, S: Shape, c: Call, s': State)
    requires Inv(s, S) && Bounded(s) && Step(s, S, c, s')
    ensures SamePages(s, s')
  {
    hide Inv, Bounded, Alloc, Free, Replace, Out, SamePages;
    match c
    case CallAlloc(n) => AllocPagesKept(s, S, n);
    case CallFree(x) => FreePagesKept(s, S, x);
    case CallRealloc(x, n) =>
      if n == 0 {
        FreePagesKept(s, S, x);
      } else if x.Block? {
        ReplacePagesKept(s, S, x, n);
      } else if Realloc(s, S, x, n) == (s, Given(x)) {
        SameTerritory(s, s);
      } else {
        ReplacePagesKept(s, S, x, Adjusted(n));
      }
  }

  /** In every state of every run each page of the memory is free or somebody's, and no other page is. */
  lemma {:induction false} RunKeepsPages(states: seq<State>, calls: seq<Call>, start: nat, npages: nat, header: nat, k: nat)
    requires start > 0 && npages > 0 && 0 < header <= 8192 && header % 8 == 0
    requires |states| == |calls| + 1 && states[0] == Init(start, npages) && k <= |calls|
    requires forall i, j :: 0 <= i < |calls| && j == i + 1 ==> Step(states[i], ShapeFor(npages, header), calls[i], states[j])
    ensures forall x :: Covered(states[k], x) <==> start + Pages(npages * ENTRY) <= x < start + npages
  {
    hide Inv, Bounded, Step, Init, Covered;
    if k == 0 {
      InitPages(start, npages);
    } else {
      RunKeepsPages(states, calls, start, npages, header, k - 1);
      RunOk(states, calls, start, npages, header, k - 1);
      StepPagesKept(states[k - 1], ShapeFor(npages, header), calls[k - 1], states[k]);
    }
  }

  lemma InitPages(start: nat, npages: nat)
    requires start > 0 && npages > 0
    ensures forall x :: Covered(Init(start, npages), x) <==> start + Pages(npages * ENTRY) <= x < start + npages
  {
    hide Pages;
    TableFits(npages);
    TakePages([Run(start, npages)], 0, Pages(npages * ENTRY));
    assert forall x :: Holds([Run(start, npages)], x) <==> start <= x < start + npages;
  }
}
