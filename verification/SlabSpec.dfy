/** Zones of the slab allocator (rt-thread/src/slab.c): pieces of memory cut into chunks of one
    size, the lists they are in, the page table and the count of used bytes. */
module SlabSpec {
  import opened Lists
  import opened MapSums
  import opened PageRuns
  import opened ZoneIndex

  const PAGE: nat := 4096          // RT_MM_PAGE_SIZE
  const RELEASE: nat := 2          // ZONE_RELEASE_THRESH

  /** zone_page_cnt, the aligned size of a zone header, and zone_limit. */
  datatype Shape = Shape(zonePages: nat, header: nat, limit: nat) {
    ghost predicate Valid() {
      && (limit == 8192 || limit == 16384) && 4 * limit <= zonePages * PAGE && 0 < header <= limit && header % 8 == 0
    }

    function ZoneSize(): nat { zonePages * PAGE }
  }

  // -------------------------------------------------------------------------------------
  // One zone
  // -------------------------------------------------------------------------------------

  /** struct rt_slab_zone; chunks are numbered from z_baseptr on, which lies `off` bytes into it. */
  datatype Zone = Zone(index: nat, size: nat, off: nat, nmax: nat, uindex: nat, nfree: nat, free: seq<nat>)

  /** A chunk that was handed out and not freed since. */
  predicate Live(z: Zone, c: nat) { c <= z.uindex && c !in z.free }

  ghost predicate ZoneOk(z: Zone, S: Shape) {
    && z.index < ZONES && z.size == ChunkSize(z.index) && z.off + z.nmax * z.size <= S.ZoneSize()
    && z.uindex < z.nmax && z.nmax >= 2
    && Distinct(z.free) && (forall c :: c in z.free ==> c <= z.uindex)
    && z.nfree == z.nmax - 1 - z.uindex + |z.free|
  }

  function LiveChunks(z: Zone): (r: set<nat>)
    ensures forall c :: c in r <==> Live(z, c)
  {
    (set c: nat | c in Range(z.uindex) :: c) + {0} - Nodes(z.free)
  }

  /** z_nfree tells how many chunks are live. */
  lemma LiveCount(z: Zone, S: Shape)
    requires ZoneOk(z, S)
    ensures |LiveChunks(z)| == z.nmax - z.nfree && z.nfree <= z.nmax
  {
    CountWithout(z.uindex, z.free);
    assert LiveChunks(z) == Range(z.uindex) + {0} - Nodes(z.free);
  }

  lemma CountWithout(u: nat, free: seq<nat>)
    requires Distinct(free) && forall c :: c in free ==> c <= u
    ensures |Range(u) + {0} - Nodes(free)| == u + 1 - |free| >= 0
  {
    hide Range, Nodes, Distinct;
    DistinctSize(free);
    var all := Range(u) + {0};
    assert Nodes(free) <= all;
    SetMinus(all, Nodes(free));
  }

  lemma SetMinus(a: set<nat>, b: set<nat>)
    requires b <= a
    ensures |a - b| == |a| - |b|
  {
    assert a == (a - b) + b;
  }

  predicate PowerOfTwo(n: nat) { n == 1 || (n > 0 && n % 2 == 0 && PowerOfTwo(n / 2)) }

  /** A new zone of chunks of b bytes, with its first chunk handed out. */
  function NewZone(i: nat, b: nat, S: Shape): Zone
    requires b > 0
  {
    var off := if PowerOfTwo(b) then RoundUp(S.header, b) else RoundUp(S.header, 8);
    var nmax := Quotient(S.ZoneSize() - off, b);
    Zone(i, b, off, nmax, 0, if nmax > 0 then nmax - 1 else 0, [])
  }

  /** How many chunks of b bytes fit. */
  function Quotient(room: int, b: nat): nat
    requires b > 0
  {
    if room <= 0 then 0 else room / b
  }

  lemma NewZoneOk(n: nat, S: Shape)
    requires S.Valid() && 0 < n < S.limit
    ensures n < LIMIT && Class(n).1 > 0
    ensures var z := NewZone(Class(n).0, Class(n).1, S); ZoneOk(z, S) && forall c :: Live(z, c) <==> c == 0
  {
    hide Class, ChunkSize, RoundUp, PowerOfTwo, Quotient;
    ClassFits(n);
    ClassWithin(n, S);
    var (i, b) := Class(n);
    Rounded(S.header, b);
    Rounded(S.header, 8);
    var z := NewZone(i, b, S);
    DivBounds(S.ZoneSize() - z.off, b);
  }

  lemma DivBounds(room: nat, b: nat)
    requires b > 0 && room >= 2 * b
    ensures 2 <= Quotient(room, b) && Quotient(room, b) * b <= room
  {
    var q := room / b;
    assert q * b <= room < q * b + b;
    assert q <= 1 ==> q * b <= b;
  }

  lemma ClassWithin(n: nat, S: Shape)
    requires S.Valid() && 0 < n < S.limit
    ensures Class(n).1 <= S.limit
  {
    ClassIsSmallest(n);
    var i := if S.limit == 8192 then 63 else 71;
    assert ChunkSize(i) == S.limit;
    if Class(n).0 < i { SizesGrow(Class(n).0, i); }
  }

  /** A chunk from a zone that has one: never used ones first, then the free list. */
  function TakeChunk(z: Zone): (Zone, nat)
    requires z.nfree > 0
  {
    if z.uindex + 1 != z.nmax then (z.(nfree := z.nfree - 1, uindex := z.uindex + 1), z.uindex + 1)
    else if z.free != [] then (z.(nfree := z.nfree - 1, free := z.free[1..]), z.free[0])
    else (z, 0)
  }

  /** The chunk was not live, and is now; the others stay as they are. */
  lemma TakeChunkOk(z: Zone, S: Shape)
    requires ZoneOk(z, S) && z.nfree > 0
    ensures var (z', c) := TakeChunk(z);
            ZoneOk(z', S) && !Live(z, c) && c < z.nmax && forall x :: Live(z', x) <==> Live(z, x) || x == c
  {
    if z.uindex + 1 == z.nmax {
      DistinctTail(z.free);
      forall x: nat ensures x in z.free <==> x == z.free[0] || x in z.free[1..] {
        assert z.free == [z.free[0]] + z.free[1..];
      }
    }
  }

  function PutChunk(z: Zone, c: nat): Zone { z.(nfree := z.nfree + 1, free := [c] + z.free) }

  lemma PutChunkOk(z: Zone, S: Shape, c: nat)
    requires ZoneOk(z, S) && Live(z, c)
    ensures ZoneOk(PutChunk(z, c), S) && forall x :: Live(PutChunk(z, c), x) <==> Live(z, x) && x != c
  {
    DistinctCons(c, z.free);
  }

  // -------------------------------------------------------------------------------------
  // Pieces of memory
  // -------------------------------------------------------------------------------------

  /** Who has pages: start and number. */
  type Extents = map<nat, nat>

  ghost predicate Apart(a: nat, m: nat, b: nat, n: nat) { a + m <= b || b + n <= a }

  ghost predicate Unfree(runs: seq<Run>, a: nat, n: nat) {
    forall x :: a <= x < a + n ==> !Holds(runs, x)
  }

  /** The pieces do not overlap each other or the free pages. */
  ghost predicate Territory(ext: Extents, runs: seq<Run>) {
    && Canonical(runs)
    && (forall a :: a in ext ==> a > 0 && ext[a] > 0 && Unfree(runs, a, ext[a]))
    && (forall a, b :: a in ext && b in ext && a != b ==> Apart(a, ext[a], b, ext[b]))
  }

  ghost predicate ApartFrom(ext: Extents, a: nat, n: nat) { forall b :: b in ext ==> ext[b] > 0 && Apart(a, n, b, ext[b]) }

  /** Pages taken from the page allocator belong to nobody else. */
  lemma ReservePages(ext: Extents, runs: seq<Run>, n: nat)
    requires Territory(ext, runs) && n > 0 && Find(runs, n) < |runs|
    ensures var k := Find(runs, n); var a := runs[k].start;
            Territory(ext[a := n], Take(runs, k, n)) && a !in ext && ApartFrom(ext, a, n)
  {
    var k := Find(runs, n);
    var a, r := runs[k].start, Take(runs, k, n);
    FindIsLowest(runs, n);
    TakePages(runs, k, n);
    StartPositive(runs, k);
    forall b | b in ext ensures b != a && Apart(a, n, b, ext[b]) && Unfree(r, b, ext[b]) {
      assert Holds(runs, a);
      if b <= a { assert !(a < b + ext[b]); } else { assert b < a + n ==> Holds(runs, b); }
      forall x | b <= x < b + ext[b] ensures !Holds(r, x) { assert !Holds(runs, x); }
    }
    assert Unfree(r, a, n);
  }

  /** Pages given back. */
  lemma ReleasePages(ext: Extents, runs: seq<Run>, a: nat)
    requires Territory(ext, runs) && a in ext
    ensures Territory(ext - {a}, Give(runs, a, ext[a]))
  {
    var r := Give(runs, a, ext[a]);
    assert Unfree(runs, a, ext[a]);
    GivePages(runs, a, ext[a]);
    forall b | b in ext - {a} ensures Unfree(r, b, ext[b]) {
      assert Apart(a, ext[a], b, ext[b]) && Unfree(runs, b, ext[b]);
    }
  }

  // -------------------------------------------------------------------------------------
  // The allocator
  // -------------------------------------------------------------------------------------

  /** A memusage entry. */
  datatype Usage = FreePage | Small(offset: nat) | Large(pages: nat)

  type Table = map<nat, Usage>

  /** Zones and large pieces are named by their first page.  `avail` is zone_array, `spare` the
      zone_free list; `ext` collects who has pages. */
  datatype State = State(zones: map<nat, Zone>, avail: seq<seq<nat>>, spare: seq<nat>, large: map<nat, nat>,
                         usage: Table, runs: seq<Run>, ext: Extents, used: int, max: int)

  /** Pages belong to a zone in use, a spare zone or a large piece. */
  ghost predicate Kinds(zs: set<nat>, spare: seq<nat>, large: map<nat, nat>, ext: Extents, n: nat) {
    && Distinct(spare)
    && (forall a :: a in ext <==> a in zs || a in spare || a in large)
    && (forall z :: z in zs ==> z !in spare && z !in large && ext[z] == n)
    && (forall z :: z in spare ==> z !in large && ext[z] == n)
    && (forall p :: p in large ==> ext[p] == large[p])
  }

  /** The page table leads from every page of a zone to its first. */
  ghost predicate Tabled(usage: Table, z: nat, n: nat) {
    forall x :: z <= x < z + n ==> x in usage && usage[x] == Small(x - z)
  }

  ghost predicate TableOk(zs: set<nat>, spare: seq<nat>, large: map<nat, nat>, usage: Table, n: nat) {
    && (forall z :: z in zs || z in spare ==> Tabled(usage, z, n))
    && (forall p :: p in large ==> p in usage && usage[p] == Large(large[p]))
  }

  /** A zone is in the list of its index exactly once if it has a free chunk, and else in none. */
  ghost predicate ArrayOk(zones: map<nat, Zone>, avail: seq<seq<nat>>) {
    && ZONES == |avail|
    && (forall i :: 0 <= i < ZONES ==> Distinct(avail[i]))
    && (forall i, z :: 0 <= i < ZONES && z in avail[i] ==> z in zones && zones[z].index == i && zones[z].nfree > 0)
    && (forall z :: z in zones && zones[z].nfree > 0 ==> zones[z].index < ZONES && z in avail[zones[z].index])
  }

  ghost predicate ZonesOk(zones: map<nat, Zone>, S: Shape) { forall z :: z in zones ==> ZoneOk(zones[z], S) }

  /** The live bytes of a zone. */
  function Bytes(z: Zone): nat { if z.nfree <= z.nmax then z.size * (z.nmax - z.nfree) else 0 }

  function Weights(zones: map<nat, Zone>, large: map<nat, nat>): map<nat, nat> {
    map k | k in zones.Keys + large.Keys :: if k in zones then Bytes(zones[k]) else large[k] * PAGE
  }

  function Max(a: int, b: int): int { if a < b then b else a }

  /** What every operation keeps; `used` is the live chunks and large pieces, in bytes. */
  ghost predicate Inv(s: State, S: Shape) {
    && S.Valid() && Territory(s.ext, s.runs) && Kinds(s.zones.Keys, s.spare, s.large, s.ext, S.zonePages)
    && TableOk(s.zones.Keys, s.spare, s.large, s.usage, S.zonePages)
    && ArrayOk(s.zones, s.avail) && ZonesOk(s.zones, S) && s.used == Sum(Weights(s.zones, s.large)) <= s.max
  }

  // Moves between the kinds

  lemma KindsUse(zs: set<nat>, spare: seq<nat>, large: map<nat, nat>, ext: Extents, n: nat)
    requires Kinds(zs, spare, large, ext, n) && spare != []
    ensures Kinds(zs + {spare[0]}, spare[1..], large, ext, n) && spare[0] !in zs && spare[0] !in large && spare[0] in ext
  {
    hide Distinct;
    DistinctTail(spare);
    assert spare == [spare[0]] + spare[1..];
  }

  lemma KindsRetire(zs: set<nat>, spare: seq<nat>, large: map<nat, nat>, ext: Extents, n: nat, z: nat)
    requires Kinds(zs, spare, large, ext, n) && z in zs
    ensures Kinds(zs - {z}, [z] + spare, large, ext, n)
  {
    hide Distinct;
    DistinctCons(z, spare);
  }

  lemma KindsFetch(zs: set<nat>, spare: seq<nat>, large: map<nat, nat>, ext: Extents, n: nat, a: nat)
    requires Kinds(zs, spare, large, ext, n) && a !in ext
    ensures Kinds(zs, [a] + spare, large, ext[a := n], n)
  {
    hide Distinct;
    DistinctCons(a, spare);
  }

  lemma KindsRelease(zs: set<nat>, spare: seq<nat>, large: map<nat, nat>, ext: Extents, n: nat)
    requires Kinds(zs, spare, large, ext, n) && spare != []
    ensures Kinds(zs, spare[1..], large, ext - {spare[0]}, n) && spare[0] in ext && ext[spare[0]] == n
  {
    hide Distinct;
    DistinctTail(spare);
    assert spare == [spare[0]] + spare[1..];
  }

  lemma KindsLarge(zs: set<nat>, spare: seq<nat>, large: map<nat, nat>, ext: Extents, n: nat, p: nat, m: nat)
    requires Kinds(zs, spare, large, ext, n) && p !in ext
    ensures Kinds(zs, spare, large[p := m], ext[p := m], n) && p !in large && p !in zs
  {
    hide Distinct;
  }

  lemma KindsUnlarge(zs: set<nat>, spare: seq<nat>, large: map<nat, nat>, ext: Extents, n: nat, p: nat)
    requires Kinds(zs, spare, large, ext, n) && p in large
    ensures Kinds(zs, spare, large - {p}, ext - {p}, n) && p in ext && ext[p] == large[p] && p !in zs
  {
    hide Distinct;
  }

  // The page table

  function Marked(usage: Table, z: nat, n: nat): (r: Table)
    ensures Tabled(r, z, n) && forall x :: x in usage && !(z <= x < z + n) ==> x in r && r[x] == usage[x]
  {
    if n == 0 then usage else Marked(usage, z, n - 1)[z + n - 1 := Small(n - 1)]
  }

  function Cleared(usage: Table, z: nat, n: nat): (r: Table)
    ensures forall x :: x in usage && !(z <= x < z + n) ==> x in r && r[x] == usage[x]
  {
    if n == 0 then usage else Cleared(usage, z, n - 1)[z + n - 1 := FreePage]
  }

  /** Writing the entries of pages that are in nobody's extent. */
  ghost predicate OutsideOnly(usage: Table, usage': Table, a: nat, n: nat) {
    forall x :: x in usage && !(a <= x < a + n) ==> x in usage' && usage'[x] == usage[x]
  }

  lemma TableKept(zs: set<nat>, spare: seq<nat>, large: map<nat, nat>, ext: Extents, n: nat, usage: Table, usage': Table, a: nat, k: nat)
    requires TableOk(zs, spare, large, usage, n) && Kinds(zs, spare, large, ext, n) && ApartFrom(ext, a, k) && OutsideOnly(usage, usage', a, k)
    ensures TableOk(zs, spare, large, usage', n)
  {
    hide Distinct;
    forall z | z in zs || z in spare ensures Tabled(usage', z, n) {
      assert z in ext && ext[z] == n && Tabled(usage, z, n);
    }
    forall p | p in large ensures p in usage' && usage'[p] == Large(large[p]) {
      assert p in ext;
    }
  }

  lemma TableFewer(zs: set<nat>, spare: seq<nat>, large: map<nat, nat>, usage: Table, n: nat, zs': set<nat>, spare': seq<nat>, large': map<nat, nat>)
    requires TableOk(zs, spare, large, usage, n)
    requires forall z :: z in zs' || z in spare' ==> z in zs || z in spare
    requires forall p :: p in large' ==> p in large && large[p] == large'[p]
    ensures TableOk(zs', spare', large', usage, n)
  {
  }

  lemma Others(ext: Extents, runs: seq<Run>, a: nat)
    requires Territory(ext, runs) && a in ext
    ensures ApartFrom(ext - {a}, a, ext[a])
  {
  }

  // The lists of zones with free chunks

  lemma ArrayHead(zones: map<nat, Zone>, avail: seq<seq<nat>>, i: nat)
    requires ArrayOk(zones, avail) && i < ZONES && avail[i] != []
    ensures var z := avail[i][0]; z in zones && zones[z].index == i && zones[z].nfree > 0
  {
    assert avail[i][0] in avail[i];
  }

  /** A chunk was taken from the first zone. */
  lemma ArrayTake(zones: map<nat, Zone>, avail: seq<seq<nat>>, i: nat, zone: Zone)
    requires ArrayOk(zones, avail) && i < ZONES && avail[i] != [] && avail[i][0] in zones
    requires zone.index == i && zone.nfree == zones[avail[i][0]].nfree - 1
    ensures ArrayOk(zones[avail[i][0] := zone], if zone.nfree == 0 then avail[i := avail[i][1..]] else avail)
  {
    ArrayHead(zones, avail, i);
    DistinctTail(avail[i]);
    assert avail[i] == [avail[i][0]] + avail[i][1..];
  }

  /** A zone that has free chunks now and was in no list. */
  lemma ArrayAdd(zones: map<nat, Zone>, avail: seq<seq<nat>>, z: nat, zone: Zone)
    requires ArrayOk(zones, avail) && (z in zones ==> zones[z].nfree == 0) && zone.index < ZONES && zone.nfree > 0
    ensures ArrayOk(zones[z := zone], avail[zone.index := [z] + avail[zone.index]])
  {
    DistinctCons(z, avail[zone.index]);
  }

  /** More free chunks in a zone that is in its list. */
  lemma ArrayMore(zones: map<nat, Zone>, avail: seq<seq<nat>>, z: nat, zone: Zone)
    requires ArrayOk(zones, avail) && z in zones && zones[z].nfree > 0 && zone.index == zones[z].index && zone.nfree > 0
    ensures ArrayOk(zones[z := zone], avail)
  {
  }

  lemma ArrayDrop(zones: map<nat, Zone>, avail: seq<seq<nat>>, z: nat)
    requires ArrayOk(zones, avail) && z in zones && zones[z].nfree > 0 && zones[z].index < ZONES
    ensures ArrayOk(zones - {z}, avail[zones[z].index := Without(avail[zones[z].index], z)])
  {
    hide Distinct, Without;
    WithoutDistinct(avail[zones[z].index], z);
  }

  // The used bytes

  lemma WeighZone(zones: map<nat, Zone>, large: map<nat, nat>, z: nat, zone: Zone)
    requires z !in large
    ensures Sum(Weights(zones[z := zone], large)) == Sum(Weights(zones, large)) + Bytes(zone) - (if z in zones then Bytes(zones[z]) else 0)
  {
    hide Sum, Bytes;
    assert Weights(zones[z := zone], large) == Weights(zones, large)[z := Bytes(zone)];
    SumPut(Weights(zones, large), z, Bytes(zone));
  }

  lemma WeighDrop(zones: map<nat, Zone>, large: map<nat, nat>, z: nat)
    requires z in zones && z !in large
    ensures Sum(Weights(zones - {z}, large)) == Sum(Weights(zones, large)) - Bytes(zones[z])
  {
    hide Sum, Bytes;
    assert Weights(zones - {z}, large) == Weights(zones, large) - {z};
    SumTake(Weights(zones, large), z);
  }

  lemma WeighLarge(zones: map<nat, Zone>, large: map<nat, nat>, p: nat, m: nat)
    requires p !in zones && p !in large
    ensures Sum(Weights(zones, large[p := m])) == Sum(Weights(zones, large)) + m * PAGE
  {
    hide Sum, Bytes;
    assert Weights(zones, large[p := m]) == Weights(zones, large)[p := m * PAGE];
    SumPut(Weights(zones, large), p, m * PAGE);
  }

  lemma WeighUnlarge(zones: map<nat, Zone>, large: map<nat, nat>, p: nat)
    requires p !in zones && p in large
    ensures Sum(Weights(zones, large - {p})) == Sum(Weights(zones, large)) - large[p] * PAGE
  {
    hide Sum, Bytes;
    assert Weights(zones, large - {p}) == Weights(zones, large) - {p};
    SumTake(Weights(zones, large), p);
  }

  // -------------------------------------------------------------------------------------
  // Steps of rt_slab_alloc
  // -------------------------------------------------------------------------------------

  /** A chunk of the first zone in the list of index i. */
  function AllocChunk(s: State, i: nat): (State, nat)
    requires i < |s.avail| && s.avail[i] != [] && s.avail[i][0] in s.zones && s.zones[s.avail[i][0]].nfree > 0
  {
    var z := s.avail[i][0];
    var (zone, c) := TakeChunk(s.zones[z]);
    (s.(zones := s.zones[z := zone], avail := if zone.nfree == 0 then s.avail[i := s.avail[i][1..]] else s.avail,
        used := s.used + zone.size, max := Max(s.max, s.used + zone.size)), c)
  }

  lemma AllocChunkOk(s: State, S: Shape, i: nat)
    requires Inv(s, S) && i < ZONES == |s.avail| && s.avail[i] != []
    requires s.avail[i][0] in s.zones && s.zones[s.avail[i][0]].nfree > 0 && s.zones[s.avail[i][0]].index == i
    ensures Inv(AllocChunk(s, i).0, S)
  {
    hide Territory, Kinds, TableOk, ArrayOk, Distinct, ZoneOk, TakeChunk, Sum, Bytes, Weights;
    var z := s.avail[i][0];
    var t := TakeChunk(s.zones[z]).0;
    TakeChunkOk(s.zones[z], S);
    TakeShape(s.zones[z], S);
    BytesTaken(s.zones[z], S);
    OneKind(s.zones.Keys, s.spare, s.large, s.ext, S.zonePages, z);
    WeighZone(s.zones, s.large, z, t);
    ArrayTake(s.zones, s.avail, i, t);
    assert s.zones[z := t].Keys == s.zones.Keys;
  }

  lemma OneKind(zs: set<nat>, spare: seq<nat>, large: map<nat, nat>, ext: Extents, n: nat, z: nat)
    requires Kinds(zs, spare, large, ext, n) && z in zs
    ensures z !in large && z !in spare && z in ext && ext[z] == n
  {
  }

  lemma TakeShape(z: Zone, S: Shape)
    requires ZoneOk(z, S) && z.nfree > 0
    ensures var t := TakeChunk(z).0; t.nfree == z.nfree - 1 && t.index == z.index && t.size == z.size && t.nmax == z.nmax && z.nfree <= z.nmax
  {
    LiveCount(z, S);
  }

  lemma BytesTaken(z: Zone, S: Shape)
    requires ZoneOk(z, S) && z.nfree > 0
    ensures Bytes(TakeChunk(z).0) == Bytes(z) + z.size
  {
    hide ZoneOk, TakeChunk;
    TakeShape(z, S);
    assert z.size * (z.nmax - z.nfree + 1) == z.size * (z.nmax - z.nfree) + z.size;
  }

  /** Pages for a zone, put in front of the spare zones. */
  function FetchZone(s: State, S: Shape): State
    requires S.zonePages > 0 && Find(s.runs, S.zonePages) < |s.runs|
  {
    var k := Find(s.runs, S.zonePages);
    var z := s.runs[k].start;
    s.(runs := Take(s.runs, k, S.zonePages), usage := Marked(s.usage, z, S.zonePages), spare := [z] + s.spare,
       ext := s.ext[z := S.zonePages])
  }

  lemma FetchZoneOk(s: State, S: Shape)
    requires Inv(s, S) && Find(s.runs, S.zonePages) < |s.runs|
    ensures Inv(FetchZone(s, S), S)
  {
    hide Territory, Kinds, TableOk, ArrayOk, ZonesOk, Sum, Weights, Find, Take, Marked;
    var n := S.zonePages;
    var z := s.runs[Find(s.runs, n)].start;
    ReservePages(s.ext, s.runs, n);
    KindsFetch(s.zones.Keys, s.spare, s.large, s.ext, n, z);
    MarkedOk(s.usage, z, n);
    TableKept(s.zones.Keys, s.spare, s.large, s.ext, n, s.usage, Marked(s.usage, z, n), z, n);
    TableMore(s.zones.Keys, s.spare, s.large, Marked(s.usage, z, n), n, z);
  }

  lemma MarkedOk(usage: Table, z: nat, n: nat)
    ensures Tabled(Marked(usage, z, n), z, n) && OutsideOnly(usage, Marked(usage, z, n), z, n)
    ensures OutsideOnly(usage, Cleared(usage, z, n), z, n)
  {
  }

  lemma TableMore(zs: set<nat>, spare: seq<nat>, large: map<nat, nat>, usage: Table, n: nat, z: nat)
    requires TableOk(zs, spare, large, usage, n) && Tabled(usage, z, n)
    ensures TableOk(zs, [z] + spare, large, usage, n)
  {
  }

  /** The first spare zone is cut into chunks of index i, and gives its first one. */
  function UseZone(s: State, S: Shape, i: nat, b: nat): State
    requires i < |s.avail| && s.spare != [] && b > 0
  {
    var z := s.spare[0];
    s.(zones := s.zones[z := NewZone(i, b, S)], spare := s.spare[1..], avail := s.avail[i := [z] + s.avail[i]], used := s.used + b,
       max := Max(s.max, s.used + b))
  }

  lemma UseZoneOk(s: State, S: Shape, n: nat)
    requires Inv(s, S) && 0 < n < S.limit && s.spare != []
    ensures n < LIMIT && Class(n).1 > 0 && Class(n).0 < |s.avail|
    ensures Inv(UseZone(s, S, Class(n).0, Class(n).1), S)
  {
    hide Territory, Kinds, TableOk, ArrayOk, ZoneOk, Sum, Weights, Class, NewZone, Bytes;
    NewZoneOk(n, S);
    var (i, b) := Class(n);
    var z, zone := s.spare[0], NewZone(i, b, S);
    NewZoneShape(n, S);
    KindsUse(s.zones.Keys, s.spare, s.large, s.ext, S.zonePages);
    ArrayLength(s.zones, s.avail);
    ArrayAdd(s.zones, s.avail, z, zone);
    WeighZone(s.zones, s.large, z, zone);
    TableFewer(s.zones.Keys, s.spare, s.large, s.usage, S.zonePages, s.zones.Keys + {z}, s.spare[1..], s.large);
    assert s.zones[z := zone].Keys == s.zones.Keys + {z};
  }

  lemma ArrayLength(zones: map<nat, Zone>, avail: seq<seq<nat>>)
    requires ArrayOk(zones, avail)
    ensures |avail| == ZONES
  {
  }

  lemma NewZoneShape(n: nat, S: Shape)
    requires S.Valid() && 0 < n < S.limit && n < LIMIT && Class(n).1 > 0
    ensures Class(n).0 < ZONES
    ensures var z := NewZone(Class(n).0, Class(n).1, S); z.index == Class(n).0 && z.size == Class(n).1 && z.nfree > 0 && Bytes(z) == Class(n).1
  {
    hide Class, ChunkSize, RoundUp, PowerOfTwo, Quotient;
    NewZoneOk(n, S);
    assert Class(n).1 * 1 == Class(n).1;
  }

  /** Pages for a large piece. */
  function AllocLarge(s: State, n: nat): State
    requires n > 0 && Find(s.runs, n) < |s.runs|
  {
    var k := Find(s.runs, n);
    var p := s.runs[k].start;
    s.(runs := Take(s.runs, k, n), usage := s.usage[p := Large(n)], large := s.large[p := n], ext := s.ext[p := n],
       used := s.used + n * PAGE, max := Max(s.max, s.used + n * PAGE))
  }

  lemma AllocLargeOk(s: State, S: Shape, n: nat)
    requires Inv(s, S) && n > 0 && Find(s.runs, n) < |s.runs|
    ensures Inv(AllocLarge(s, n), S)
  {
    hide Territory, Kinds, TableOk, ArrayOk, ZonesOk, Sum, Weights, Find, Take;
    var p := s.runs[Find(s.runs, n)].start;
    ReservePages(s.ext, s.runs, n);
    KindsLarge(s.zones.Keys, s.spare, s.large, s.ext, S.zonePages, p, n);
    TableKept(s.zones.Keys, s.spare, s.large, s.ext, S.zonePages, s.usage, s.usage[p := Large(n)], p, n);
    TableLarge(s.zones.Keys, s.spare, s.large, s.usage[p := Large(n)], S.zonePages, p, n);
    WeighLarge(s.zones, s.large, p, n);
  }

  lemma TableLarge(zs: set<nat>, spare: seq<nat>, large: map<nat, nat>, usage: Table, n: nat, p: nat, m: nat)
    requires TableOk(zs, spare, large, usage, n) && p in usage && usage[p] == Large(m)
    ensures TableOk(zs, spare, large[p := m], usage, n)
  {
  }

  // -------------------------------------------------------------------------------------
  // Steps of rt_slab_free
  // -------------------------------------------------------------------------------------

  function FreeChunk(s: State, z: nat, c: nat): State
    requires z in s.zones && s.zones[z].index < |s.avail|
  {
    var zone := PutChunk(s.zones[z], c);
    s.(zones := s.zones[z := zone], used := s.used - zone.size,
       avail := if s.zones[z].nfree == 0 then s.avail[zone.index := [z] + s.avail[zone.index]] else s.avail)
  }

  lemma FreeChunkOk(s: State, S: Shape, z: nat, c: nat)
    requires Inv(s, S) && z in s.zones && Live(s.zones[z], c) && s.zones[z].index < |s.avail|
    ensures Inv(FreeChunk(s, z, c), S)
  {
    hide Territory, Kinds, TableOk, ArrayOk, Distinct, ZoneOk, Sum, Bytes, Weights, Live;
    var t := PutChunk(s.zones[z], c);
    PutChunkOk(s.zones[z], S, c);
    BytesPut(s.zones[z], S, c);
    OneKind(s.zones.Keys, s.spare, s.large, s.ext, S.zonePages, z);
    WeighZone(s.zones, s.large, z, t);
    ArrayLength(s.zones, s.avail);
    if s.zones[z].nfree == 0 { ArrayAdd(s.zones, s.avail, z, t); } else { ArrayMore(s.zones, s.avail, z, t); }
    assert s.zones[z := t].Keys == s.zones.Keys;
  }

  lemma BytesPut(z: Zone, S: Shape, c: nat)
    requires ZoneOk(z, S) && Live(z, c)
    ensures Bytes(PutChunk(z, c)) == Bytes(z) - z.size && z.nfree < z.nmax
  {
    hide ZoneOk, Live;
    PutChunkOk(z, S, c);
    LiveCount(PutChunk(z, c), S);
    assert z.size * (z.nmax - z.nfree - 1) == z.size * (z.nmax - z.nfree) - z.size;
  }

  /** A zone without live chunks becomes a spare one. */
  function Retire(s: State, z: nat): State
    requires z in s.zones && s.zones[z].index < |s.avail|
  {
    var i := s.zones[z].index;
    s.(zones := s.zones - {z}, avail := s.avail[i := Without(s.avail[i], z)], spare := [z] + s.spare)
  }

  lemma RetireOk(s: State, S: Shape, z: nat)
    requires Inv(s, S) && z in s.zones && s.zones[z].index < |s.avail| && s.zones[z].nfree == s.zones[z].nmax > 0
    ensures Inv(Retire(s, z), S)
  {
    hide Territory, Kinds, TableOk, ArrayOk, ZoneOk, Sum, Weights, Without;
    ArrayLength(s.zones, s.avail);
    ArrayDrop(s.zones, s.avail, z);
    KindsRetire(s.zones.Keys, s.spare, s.large, s.ext, S.zonePages, z);
    OneKind(s.zones.Keys, s.spare, s.large, s.ext, S.zonePages, z);
    WeighDrop(s.zones, s.large, z);
    assert s.zones[z].size * 0 == 0;
    TableFewer(s.zones.Keys, s.spare, s.large, s.usage, S.zonePages, s.zones.Keys - {z}, [z] + s.spare, s.large);
    assert (s.zones - {z}).Keys == s.zones.Keys - {z};
  }

  /** The first spare zone gives its pages back. */
  function Release(s: State, S: Shape): State
    requires s.spare != []
  {
    var z := s.spare[0];
    s.(spare := s.spare[1..], usage := Cleared(s.usage, z, S.zonePages), runs := Give(s.runs, z, S.zonePages), ext := s.ext - {z})
  }

  lemma ReleaseOk(s: State, S: Shape)
    requires Inv(s, S) && s.spare != []
    ensures Inv(Release(s, S), S)
  {
    hide Territory, Kinds, TableOk, ArrayOk, ZonesOk, Sum, Weights, Cleared, Give;
    var z, n := s.spare[0], S.zonePages;
    KindsRelease(s.zones.Keys, s.spare, s.large, s.ext, n);
    ReleasePages(s.ext, s.runs, z);
    Others(s.ext, s.runs, z);
    TableFewer(s.zones.Keys, s.spare, s.large, s.usage, n, s.zones.Keys, s.spare[1..], s.large);
    MarkedOk(s.usage, z, n);
    TableKept(s.zones.Keys, s.spare[1..], s.large, s.ext - {z}, n, s.usage, Cleared(s.usage, z, n), z, n);
  }

  function FreeLarge(s: State, p: nat): State
    requires p in s.large
  {
    var n := s.large[p];
    s.(usage := s.usage[p := Large(0)], used := s.used - n * PAGE, large := s.large - {p}, ext := s.ext - {p}, runs := Give(s.runs, p, n))
  }

  lemma FreeLargeOk(s: State, S: Shape, p: nat)
    requires Inv(s, S) && p in s.large
    ensures Inv(FreeLarge(s, p), S)
  {
    hide Territory, Kinds, TableOk, ArrayOk, ZonesOk, Sum, Weights, Give;
    var m, n := s.large[p], S.zonePages;
    KindsUnlarge(s.zones.Keys, s.spare, s.large, s.ext, n, p);
    ReleasePages(s.ext, s.runs, p);
    Others(s.ext, s.runs, p);
    Pieces(s.ext, s.runs, p);
    TableFewer(s.zones.Keys, s.spare, s.large, s.usage, n, s.zones.Keys, s.spare, s.large - {p});
    TableKept(s.zones.Keys, s.spare, s.large - {p}, s.ext - {p}, n, s.usage, s.usage[p := Large(0)], p, m);
    WeighUnlarge(s.zones, s.large, p);
  }

  lemma Pieces(ext: Extents, runs: seq<Run>, a: nat)
    requires Territory(ext, runs) && a in ext
    ensures a > 0 && ext[a] > 0
  {
  }
}
