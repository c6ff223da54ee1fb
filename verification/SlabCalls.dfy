/** The calls of the slab allocator (rt-thread/src/slab.c) and the pieces of memory they hand out. */
module SlabCalls {
  import opened Lists
  import opened PageRuns
  import opened ZoneIndex
  import opened SlabSpec

  datatype Piece = Chunk(zone: nat, number: nat) | Block(page: nat)

  datatype Answer = Null | Given(piece: Piece)

  /** The pieces that are handed out. */
  predicate Out(s: State, x: Piece) {
    match x
    case Chunk(z, c) => z in s.zones && Live(s.zones[z], c)
    case Block(p) => p in s.large
  }

  function ChunkAt(z: nat, zone: Zone, c: nat): nat { z * PAGE + zone.off + c * zone.size }

  /** The pointer to a piece. */
  function Start(s: State, x: Piece): nat
    requires Out(s, x)
  {
    match x
    case Chunk(z, c) => ChunkAt(z, s.zones[z], c)
    case Block(p) => p * PAGE
  }

  function Size(s: State, x: Piece): nat
    requires Out(s, x)
  {
    match x
    case Chunk(z, c) => s.zones[z].size
    case Block(p) => s.large[p] * PAGE
  }

  /** One more piece; the others stay where and as large as they are. */
  ghost predicate Gains(s: State, s': State, x: Piece) {
    && !Out(s, x) && Out(s', x)
    && forall y :: y != x ==> (Out(s', y) <==> Out(s, y)) && (Out(s, y) ==> Start(s', y) == Start(s, y) && Size(s', y) == Size(s, y))
  }

  ghost predicate Same(s: State, s': State) { s'.zones == s.zones && s'.large == s.large }

  // -------------------------------------------------------------------------------------
  // Where pieces are
  // -------------------------------------------------------------------------------------

  function Extent(x: Piece): nat { if x.Block? then x.page else x.zone }

  /** A piece lies in the pages of its zone, or is the whole of its pages. */
  lemma Inside(s: State, S: Shape, x: Piece)
    requires Inv(s, S) && Out(s, x)
    ensures var a := Extent(x);
            a in s.ext && a > 0 && a * PAGE <= Start(s, x) && Start(s, x) + Size(s, x) <= (a + s.ext[a]) * PAGE && Size(s, x) > 0
  {
    hide Territory, Kinds, TableOk, ArrayOk, ZoneOk, Live, Weights;
    match x
    case Block(p) =>
      KindsUnlarge(s.zones.Keys, s.spare, s.large, s.ext, S.zonePages, p);
      Pieces(s.ext, s.runs, p);
    case Chunk(z, c) =>
      OneKind(s.zones.Keys, s.spare, s.large, s.ext, S.zonePages, z);
      Pieces(s.ext, s.runs, z);
      LiveInside(s.zones[z], S, c);
  }

  lemma LiveInside(z: Zone, S: Shape, c: nat)
    requires ZoneOk(z, S) && Live(z, c)
    ensures z.off + c * z.size + z.size <= S.zonePages * PAGE && z.size > 0
  {
    hide ChunkSize, Distinct;
    NextChunk(c, z.nmax, z.size);
  }

  lemma NextChunk(c: nat, n: nat, b: nat)
    requires c < n
    ensures c * b + b <= n * b
  {
    var d := n - c - 1;
    NoLess(d, b);
    assert (d + c + 1) * b == d * b + c * b + b;
  }

  lemma NoLess(d: nat, b: nat)
    ensures d * b >= 0
  {
  }

  /** No two pieces overlap. */
  lemma Disjoint(s: State, S: Shape, x: Piece, y: Piece)
    requires Inv(s, S) && Out(s, x) && Out(s, y) && x != y
    ensures Start(s, x) + Size(s, x) <= Start(s, y) || Start(s, y) + Size(s, y) <= Start(s, x)
  {
    hide Inv, Out, Size, Start;
    Inside(s, S, x);
    Inside(s, S, y);
    var a, b := Extent(x), Extent(y);
    if a != b {
      ExtentsApart(s, S, a, b);
    } else {
      SameExtent(s, S, x, y);
    }
  }

  lemma ExtentsApart(s: State, S: Shape, a: nat, b: nat)
    requires Inv(s, S) && a in s.ext && b in s.ext && a != b
    ensures (a + s.ext[a]) * PAGE <= b * PAGE || (b + s.ext[b]) * PAGE <= a * PAGE
  {
    assert Apart(a, s.ext[a], b, s.ext[b]);
  }

  lemma SameExtent(s: State, S: Shape, x: Piece, y: Piece)
    requires Inv(s, S) && Out(s, x) && Out(s, y) && x != y
    requires Extent(x) == Extent(y)
    ensures Start(s, x) + Size(s, x) <= Start(s, y) || Start(s, y) + Size(s, y) <= Start(s, x)
  {
    hide Live, Territory, TableOk, ArrayOk, ZonesOk;
    var a := Extent(x);
    assert a in s.zones ==> a !in s.large;
    assert x.Chunk? && y.Chunk? && x.number != y.number;
    var d, n := y.number - x.number, s.zones[a].size;
    assert y.number * n == x.number * n + d * n;
    assert (d >= 1 ==> d * n >= n) && (d <= -1 ==> d * n <= -n);
  }

  /** What rt_slab_free finds at a pointer. */
  function Found(s: State, p: nat): Answer {
    var page := p / PAGE;
    if page !in s.usage then Null
    else match s.usage[page]
      case FreePage => Null
      case Large(_) => Given(Block(page))
      case Small(o) =>
        var z := page - o;
        if z >= 0 && z in s.zones && p >= z * PAGE + s.zones[z].off && s.zones[z].size > 0 then
          Given(Chunk(z, (p - z * PAGE - s.zones[z].off) / s.zones[z].size))
        else Null
  }

  /** A pointer leads through the page table back to its own piece. */
  lemma PointerFound(s: State, S: Shape, x: Piece)
    requires Inv(s, S) && Out(s, x)
    ensures Found(s, Start(s, x)) == Given(x) && Start(s, x) > 0
    ensures x.Block? ==> s.usage[x.page] == Large(s.large[x.page]) && Start(s, x) == x.page * PAGE
  {
    hide Inv, Live;
    Inside(s, S, x);
    Marks(s, S, x);
    match x
    case Block(q) =>
      OnPage(q * PAGE, q, 0);
    case Chunk(z, c) =>
      var zone := s.zones[z];
      PageBetween(Start(s, x), z, z + S.zonePages);
      ChunkNumber(z * PAGE + zone.off, c, zone.size);
  }

  /** The page table entries under a piece. */
  lemma Marks(s: State, S: Shape, x: Piece)
    requires Inv(s, S) && Out(s, x)
    ensures x.Block? ==> x.page in s.usage && s.usage[x.page] == Large(s.large[x.page])
    ensures x.Chunk? ==> x.zone in s.ext && s.ext[x.zone] == S.zonePages && Tabled(s.usage, x.zone, S.zonePages)
  {
    hide Live, Territory, ArrayOk, ZonesOk, Weights;
  }

  lemma ChunkNumber(base: nat, c: nat, b: nat)
    requires b > 0
    ensures (base + c * b - base) / b == c
  {
    DivExact(c, b);
  }

  lemma OnPage(p: nat, q: nat, o: nat)
    requires p == q * PAGE + o && o < PAGE
    ensures p / PAGE == q
  {
  }

  lemma PageBetween(p: nat, a: nat, b: nat)
    requires a * PAGE <= p < b * PAGE
    ensures a <= p / PAGE < b
  {
  }

  // -------------------------------------------------------------------------------------
  // rt_slab_alloc
  // -------------------------------------------------------------------------------------

  function Pages(n: nat): nat { RoundUp(n, PAGE) / PAGE }

  /** The bytes a request is given. */
  function Grant(S: Shape, n: nat): nat
    requires S.Valid() && n > 0
  {
    if n >= S.limit then Pages(n) * PAGE else Class(n).1
  }

  ghost predicate Bounded(s: State) { |s.spare| <= RELEASE }

  /** There is no memory for a request. */
  predicate NoRoom(s: State, S: Shape, n: nat)
    requires S.limit <= LIMIT
  {
    n == 0 || if n >= S.limit then Find(s.runs, Pages(n)) == |s.runs|
    else var i := Class(n).0; (i < |s.avail| ==> s.avail[i] == []) && s.spare == [] && Find(s.runs, S.zonePages) == |s.runs|
  }

  ghost function Alloc(s: State, S: Shape, n: nat): (State, Answer)
    requires Inv(s, S)
  {
    if NoRoom(s, S, n) then (s, Null)
    else if n >= S.limit then
      RoundedPages(n);
      (AllocLarge(s, Pages(n)), Given(Block(s.runs[Find(s.runs, Pages(n))].start)))
    else
      ClassFits(n);
      var (i, b) := Class(n);
      ArrayLength(s.zones, s.avail);
      if s.avail[i] != [] then
        ArrayHead(s.zones, s.avail, i);
        var (s', c) := AllocChunk(s, i);
        (s', Given(Chunk(s.avail[i][0], c)))
      else
        var t := if s.spare != [] then s else FetchZone(s, S);
        (UseZone(t, S, i, b), Given(Chunk(t.spare[0], 0)))
  }

  lemma RoundedPages(n: nat)
    requires n > 0
    ensures Pages(n) > 0 && n <= Pages(n) * PAGE < n + PAGE
  {
    Rounded(n, PAGE);
  }

  /** A request is refused exactly if there is no room, and then changes nothing; else it gets a
      new piece that is large enough. */
  lemma AllocOk(s: State, S: Shape, n: nat)
    requires Inv(s, S) && Bounded(s)
    ensures var (s', r) := Alloc(s, S, n);
            && Inv(s', S) && Bounded(s')
            && (r == Null <==> NoRoom(s, S, n)) && (r == Null ==> s' == s)
            && (r.Given? ==> Gains(s, s', r.piece) && Size(s', r.piece) == Grant(S, n) >= n && s'.used == s.used + Grant(S, n))
  {
    hide Inv, Gains, Find, NoRoom;
    Parts(s, S);
    RoomPositive(s, S, n);
    if !NoRoom(s, S, n) {
      if n >= S.limit {
        RoundedPages(n);
        LargeRoom(s, S, n);
        AllocLargeOk(s, S, Pages(n));
        LargeGains(s, S, Pages(n));
      } else {
        SmallRequest(s, S, n);
      }
    }
  }

  lemma RoomPositive(s: State, S: Shape, n: nat)
    requires S.Valid()
    ensures n == 0 ==> NoRoom(s, S, n)
  {
  }

  lemma LargeRoom(s: State, S: Shape, n: nat)
    requires S.Valid() && n > 0 && n >= S.limit && !NoRoom(s, S, n)
    ensures Find(s.runs, Pages(n)) < |s.runs|
  {
  }

  lemma LargeGains(s: State, S: Shape, m: nat)
    requires Inv(s, S) && m > 0 && Find(s.runs, m) < |s.runs|
    ensures var p := s.runs[Find(s.runs, m)].start; Gains(s, AllocLarge(s, m), Block(p)) && Size(AllocLarge(s, m), Block(p)) == m * PAGE
  {
    hide Territory, Kinds, TableOk, ArrayOk, ZonesOk, Find, Take, Live;
    ReservePages(s.ext, s.runs, m);
    KindsLarge(s.zones.Keys, s.spare, s.large, s.ext, S.zonePages, s.runs[Find(s.runs, m)].start, m);
  }

  lemma SmallRequest(s: State, S: Shape, n: nat)
    requires Inv(s, S) && Bounded(s) && 0 < n < S.limit && !NoRoom(s, S, n)
    ensures var (s', r) := Alloc(s, S, n);
            && Inv(s', S) && Bounded(s') && r.Given?
            && Gains(s, s', r.piece) && Size(s', r.piece) == Grant(S, n) >= n && s'.used == s.used + Grant(S, n)
  {
    hide Inv, Gains, Find, AllocChunk, FetchZone, UseZone, Class, ChunkSize, Out, Size;
    Parts(s, S);
    ClassFits(n);
    var (i, b) := Class(n);
    if s.avail[i] != [] {
      ArrayHead(s.zones, s.avail, i);
      ZonePart(s, S, s.avail[i][0]);
      AllocChunkOk(s, S, i);
      ChunkGains(s, S, i);
    } else {
      if s.spare == [] { FetchZoneOk(s, S); FetchSame(s, S); }
      var t := if s.spare != [] then s else FetchZone(s, S);
      UseZoneOk(t, S, n);
      ZoneGains(t, S, n);
      GainsSame(s, t, UseZone(t, S, i, b), Chunk(t.spare[0], 0));
    }
  }

  lemma Parts(s: State, S: Shape)
    requires Inv(s, S)
    ensures S.Valid() && ArrayOk(s.zones, s.avail) && |s.avail| == ZONES
  {
  }

  lemma FetchSame(s: State, S: Shape)
    requires S.zonePages > 0 && Find(s.runs, S.zonePages) < |s.runs|
    ensures var t := FetchZone(s, S); Same(s, t) && t.used == s.used && t.avail == s.avail && |t.spare| == |s.spare| + 1
  {
  }

  lemma GainsSame(s: State, t: State, u: State, x: Piece)
    requires Same(s, t) && Gains(t, u, x)
    ensures Gains(s, u, x)
  {
    hide Live;
    forall y ensures Out(s, y) <==> Out(t, y) {}
    forall y | Out(s, y) ensures Start(s, y) == Start(t, y) && Size(s, y) == Size(t, y) {}
  }

  lemma ChunkGains(s: State, S: Shape, i: nat)
    requires Inv(s, S) && i < |s.avail| && s.avail[i] != [] && s.avail[i][0] in s.zones && s.zones[s.avail[i][0]].nfree > 0
    ensures var (s', c) := AllocChunk(s, i); var x := Chunk(s.avail[i][0], c);
            && Gains(s, s', x) && Size(s', x) == s.zones[x.zone].size && s'.used == s.used + Size(s', x) && s'.spare == s.spare
  {
    hide Territory, Kinds, TableOk, ArrayOk, ZoneOk, Live, TakeChunk;
    var z := s.avail[i][0];
    TakeChunkOk(s.zones[z], S);
    TakeShape(s.zones[z], S);
    TakeBase(s.zones[z]);
  }

  lemma TakeBase(z: Zone)
    requires z.nfree > 0
    ensures TakeChunk(z).0.off == z.off
  {
  }

  lemma ZoneGains(s: State, S: Shape, n: nat)
    requires Inv(s, S) && 0 < n < S.limit && s.spare != [] && n < LIMIT && Class(n).1 > 0 && Class(n).0 < |s.avail|
    ensures var (i, b) := Class(n); var s' := UseZone(s, S, i, b); var x := Chunk(s.spare[0], 0);
            && Gains(s, s', x) && Size(s', x) == b && s'.used == s.used + b && |s'.spare| == |s.spare| - 1
  {
    hide Territory, Kinds, TableOk, ArrayOk, ZonesOk, Live, Class, NewZone;
    NewZoneOk(n, S);
    NewZoneShape(n, S);
    KindsUse(s.zones.Keys, s.spare, s.large, s.ext, S.zonePages);
  }

  // -------------------------------------------------------------------------------------
  // rt_slab_free
  // -------------------------------------------------------------------------------------

  /** A chunk goes back; an empty zone retires unless it is the only one of its list, and a third
      spare zone gives its pages back. */
  ghost function PutBack(s: State, S: Shape, z: nat, c: nat): State
    requires Inv(s, S) && z in s.zones
  {
    ZonePart(s, S, z);
    var t := FreeChunk(s, z, c);
    var zone := t.zones[z];
    if zone.nfree == zone.nmax && t.avail[zone.index] != [z] then
      var u := Retire(t, z);
      if |u.spare| > RELEASE then Release(u, S) else u
    else t
  }

  lemma ZonePart(s: State, S: Shape, z: nat)
    requires Inv(s, S) && z in s.zones
    ensures ZoneOk(s.zones[z], S) && s.zones[z].index < |s.avail| == ZONES && s.zones[z].nmax > 0
    ensures s.zones[z].size == ChunkSize(s.zones[z].index)
  {
  }

  ghost function Free(s: State, S: Shape, x: Piece): State
    requires Inv(s, S) && Out(s, x)
  {
    match x
    case Block(p) => FreeLarge(s, p)
    case Chunk(z, c) => PutBack(s, S, z, c)
  }

  /** Exactly the piece is gone, and no more than two zones are kept in reserve. */
  lemma FreeOk(s: State, S: Shape, x: Piece)
    requires Inv(s, S) && Bounded(s) && Out(s, x)
    ensures var s' := Free(s, S, x); Inv(s', S) && Bounded(s') && Gains(s', s, x) && s'.used == s.used - Size(s, x)
  {
    hide Inv, Gains, Live;
    match x
    case Block(p) =>
      FreeLargeOk(s, S, p);
      LargeLost(s, S, p);
    case Chunk(z, c) =>
      PutBackOk(s, S, z, c);
  }

  lemma LargeLost(s: State, S: Shape, p: nat)
    requires p in s.large
    ensures Gains(FreeLarge(s, p), s, Block(p))
  {
    hide Give, Live;
  }

  lemma PutBackOk(s: State, S: Shape, z: nat, c: nat)
    requires Inv(s, S) && Bounded(s) && z in s.zones && Live(s.zones[z], c)
    ensures var s' := PutBack(s, S, z, c);
            Inv(s', S) && Bounded(s') && Gains(s', s, Chunk(z, c)) && s'.used == s.used - s.zones[z].size
  {
    hide Inv, Gains, Live, FreeChunk, Retire, Release;
    ZonePart(s, S, z);
    FreeChunkOk(s, S, z, c);
    ChunkLost(s, S, z, c);
    var t := FreeChunk(s, z, c);
    ZonePart(t, S, z);
    var zone := t.zones[z];
    if zone.nfree == zone.nmax && t.avail[zone.index] != [z] {
      RetireOk(t, S, z);
      RetireKeeps(t, S, z, s, Chunk(z, c));
      var u := Retire(t, z);
      if |u.spare| > RELEASE {
        ReleaseOk(u, S);
        ReleaseKeeps(u, S, s, Chunk(z, c));
      }
    }
  }

  lemma ChunkLost(s: State, S: Shape, z: nat, c: nat)
    requires Inv(s, S) && z in s.zones && Live(s.zones[z], c) && s.zones[z].index < |s.avail|
    ensures var t := FreeChunk(s, z, c);
            Gains(t, s, Chunk(z, c)) && z in t.zones && t.used == s.used - s.zones[z].size && t.spare == s.spare
  {
    hide Territory, Kinds, TableOk, ArrayOk, ZoneOk, Live;
    PutChunkOk(s.zones[z], S, c);
  }

  lemma RetireKeeps(t: State, S: Shape, z: nat, s: State, x: Piece)
    requires Inv(t, S) && z in t.zones && t.zones[z].index < |t.avail| && t.zones[z].nfree == t.zones[z].nmax && Gains(t, s, x)
    ensures var u := Retire(t, z); Gains(u, s, x) && u.used == t.used && u.spare == [z] + t.spare
  {
    hide Territory, Kinds, TableOk, ArrayOk, Live, Without;
    NoneLive(t.zones[z], S);
    var u := Retire(t, z);
    forall y ensures Out(u, y) <==> Out(t, y) {}
    forall y | Out(u, y) ensures Start(u, y) == Start(t, y) && Size(u, y) == Size(t, y) {}
  }

  lemma NoneLive(z: Zone, S: Shape)
    requires ZoneOk(z, S) && z.nfree == z.nmax
    ensures forall c :: !Live(z, c)
  {
    hide ZoneOk, Live;
    LiveCount(z, S);
    assert LiveChunks(z) == {};
    forall c ensures !Live(z, c) { assert c !in LiveChunks(z); }
  }

  lemma ReleaseKeeps(t: State, S: Shape, s: State, x: Piece)
    requires t.spare != [] && Gains(t, s, x)
    ensures var u := Release(t, S); Gains(u, s, x) && u.used == t.used && |u.spare| == |t.spare| - 1
  {
    hide Give, Cleared, Live;
    var u := Release(t, S);
    forall y ensures Out(u, y) <==> Out(t, y) {}
    forall y | Out(u, y) ensures Start(u, y) == Start(t, y) && Size(u, y) == Size(t, y) {}
  }

  // -------------------------------------------------------------------------------------
  // rt_slab_realloc
  // -------------------------------------------------------------------------------------

  /** What zoneindex makes of a request. */
  function Adjusted(n: nat): nat
    requires n > 0
  {
    if n < LIMIT then Class(n).1 else n
  }

  /** A new piece for the old one. */
  ghost function Replace(s: State, S: Shape, x: Piece, n: nat): (State, Answer)
    requires Inv(s, S) && Bounded(s) && Out(s, x)
  {
    AllocOk(s, S, n);
    var (s', r) := Alloc(s, S, n);
    if r == Null then (s, Null) else (Free(s', S, x), r)
  }

  ghost function Realloc(s: State, S: Shape, x: Piece, n: nat): (State, Answer)
    requires Inv(s, S) && Bounded(s) && Out(s, x)
  {
    if n == 0 then (Free(s, S, x), Null)
    else if x.Block? then Replace(s, S, x, n)
    else if s.zones[x.zone].size == Adjusted(n) then (s, Given(x))
    else Replace(s, S, x, Adjusted(n))
  }

  /** One piece for another; the rest stay where and as large as they are. */
  ghost predicate Swaps(s: State, s': State, x: Piece, y: Piece) {
    && Out(s', y)
    && forall w :: w != y ==> (Out(s', w) <==> Out(s, w) && w != x) && (Out(s', w) ==> Start(s', w) == Start(s, w) && Size(s', w) == Size(s, w))
  }

  /** The answer is large enough, and a refusal keeps the old piece. */
  lemma ReallocOk(s: State, S: Shape, x: Piece, n: nat)
    requires Inv(s, S) && Bounded(s) && Out(s, x)
    ensures var (s', r) := Realloc(s, S, x, n);
            && Inv(s', S) && Bounded(s')
            && (n == 0 ==> r == Null && Gains(s', s, x))
            && (n > 0 && r == Null ==> s' == s)
            && (r.Given? ==> Swaps(s, s', x, r.piece) && Size(s', r.piece) >= n && s'.used == s.used - Size(s, x) + Size(s', r.piece))
  {
    hide Inv, Gains, Class, Replace, Swaps, Bounded, Live, Alloc;
    if n == 0 {
      FreeOk(s, S, x);
    } else {
      AdjustedOk(n);
      if x.Chunk? && s.zones[x.zone].size == Adjusted(n) {
        SwapsSelf(s, x);
      } else {
        ReplaceOk(s, S, x, if x.Block? then n else Adjusted(n));
      }
    }
  }

  lemma AdjustedOk(n: nat)
    requires n > 0
    ensures n <= Adjusted(n)
  {
    hide Class;
    if n < LIMIT { ClassFits(n); }
  }

  lemma SwapsSelf(s: State, x: Piece)
    requires Out(s, x)
    ensures Swaps(s, s, x, x)
  {
  }

  lemma ReplaceOk(s: State, S: Shape, x: Piece, n: nat)
    requires Inv(s, S) && Bounded(s) && Out(s, x)
    ensures var (s', r) := Replace(s, S, x, n);
            && Inv(s', S) && Bounded(s') && (r == Null ==> s' == s)
            && (r.Given? ==> Swaps(s, s', x, r.piece) && Size(s', r.piece) >= n && s'.used == s.used - Size(s, x) + Size(s', r.piece))
  {
    hide Inv, Bounded, Alloc, Free, Out, Size, Start, NoRoom, Grant;
    AllocOk(s, S, n);
    var (s1, r) := Alloc(s, S, n);
    if r.Given? { FreeOk(s1, S, x); }
  }

  /** A chunk is replaced by whole pages exactly if its new size, rounded up to a chunk size, is not
      below the limit, although an allocation goes by the size as it was asked for. */
  lemma PagesForChunkIff(s: State, S: Shape, x: Piece, n: nat)
    requires Inv(s, S) && Bounded(s) && Out(s, x) && x.Chunk? && n > 0
    ensures var r := Realloc(s, S, x, n).1; r.Given? ==> (r.piece.Block? <==> Size(s, x) != Adjusted(n) && Adjusted(n) >= S.limit)
    ensures var r := Alloc(s, S, n).1; r.Given? ==> (r.piece.Block? <==> n >= S.limit)
  {
    hide Inv, Bounded, Free, Class, Live;
    AdjustedOk(n);
    KindGiven(s, S, n);
    KindGiven(s, S, Adjusted(n));
  }

  lemma KindGiven(s: State, S: Shape, n: nat)
    requires Inv(s, S)
    ensures var r := Alloc(s, S, n).1; r.Given? ==> (r.piece.Block? <==> n >= S.limit)
  {
  }

  /** The sizes for which the two differ: up to a sixteenth below the limit. */
  lemma RoundedToLimit(S: Shape, n: nat)
    requires S.Valid() && 0 < n < S.limit
    ensures Adjusted(n) >= S.limit <==> n > S.limit - S.limit / 16
  {
    hide RoundUp;
    if n >= 8192 { Rounded(n, 1024); } else if n >= 4096 { Rounded(n, 512); }
    else { ClassFits(n); }
  }

  // -------------------------------------------------------------------------------------
  // rt_slab_init, and runs
  // -------------------------------------------------------------------------------------

  /** The zone size doubles up to 128 kB while it is small for the memory. */
  function Grown(size: nat, bound: nat): nat
    requires size > 0
    decreases 131072 - size
  {
    if size < 131072 && size * 2 < bound then Grown(size * 2, bound) else size
  }

  function ShapeFor(npages: nat, header: nat): Shape {
    var size := Grown(32768, npages * PAGE / 1024);
    Shape(size / PAGE, header, if size / 4 > LIMIT then LIMIT else size / 4)
  }

  const ENTRY: nat := 4            // sizeof(struct rt_slab_memusage)

  /** All pages are free but the ones of the page table. */
  function Init(start: nat, npages: nat): State
    requires npages > 0
  {
    TableFits(npages);
    State(map[], seq(ZONES, _ => []), [], map[], map[], Take([Run(start, npages)], 0, Pages(npages * ENTRY)), map[], 0, 0)
  }

  lemma TableFits(npages: nat)
    requires npages > 0
    ensures 0 < Pages(npages * ENTRY) <= npages
  {
    RoundedPages(npages * ENTRY);
  }

  lemma InitOk(start: nat, npages: nat, header: nat)
    requires start > 0 && npages > 0 && 0 < header <= 8192 && header % 8 == 0
    ensures Inv(Init(start, npages), ShapeFor(npages, header)) && Bounded(Init(start, npages)) && forall x :: !Out(Init(start, npages), x)
  {
    hide Pages;
    TableFits(npages);
    GrownIs(npages * PAGE / 1024);
    TakePages([Run(start, npages)], 0, Pages(npages * ENTRY));
    assert Weights(map[], map[]) == map[];
  }

  lemma GrownIs(bound: nat)
    ensures Grown(32768, bound) == 32768 || Grown(32768, bound) == 65536 || Grown(32768, bound) == 131072
  {
    assert Grown(65536, bound) == 65536 || Grown(65536, bound) == Grown(131072, bound);
  }

  datatype Call = CallAlloc(size: nat) | CallFree(piece: Piece) | CallRealloc(piece: Piece, size: nat)

  predicate Legal(s: State, c: Call) { !c.CallAlloc? ==> Out(s, c.piece) }

  ghost function Do(s: State, S: Shape, c: Call): State
    requires Inv(s, S) && Bounded(s) && Legal(s, c)
  {
    match c
    case CallAlloc(n) => Alloc(s, S, n).0
    case CallFree(x) => Free(s, S, x)
    case CallRealloc(x, n) => Realloc(s, S, x, n).0
  }

  ghost predicate Step(s: State, S: Shape, c: Call, s': State) {
    Inv(s, S) && Bounded(s) ==> Legal(s, c) && s' == Do(s, S, c)
  }

  lemma StepOk(s: State, S: Shape, c: Call, s': State)
    requires Inv(s, S) && Bounded(s) && Step(s, S, c, s')
    ensures Inv(s', S) && Bounded(s')
  {
    hide Inv, Bounded, Out, Alloc, Free, Realloc, Gains, Swaps;
    match c
    case CallAlloc(n) => AllocOk(s, S, n);
    case CallFree(x) => FreeOk(s, S, x);
    case CallRealloc(x, n) => ReallocOk(s, S, x, n);
  }

  /** Every state of every run of legal calls keeps the invariant and at most two spare zones. */
  lemma {:induction false} RunOk(states: seq<State>, calls: seq<Call>, start: nat, npages: nat, header: nat, k: nat)
    requires start > 0 && npages > 0 && 0 < header <= 8192 && header % 8 == 0
    requires |states| == |calls| + 1 && states[0] == Init(start, npages) && k <= |calls|
    requires forall i, j :: 0 <= i < |calls| && j == i + 1 ==> Step(states[i], ShapeFor(npages, header), calls[i], states[j])
    ensures Inv(states[k], ShapeFor(npages, header)) && Bounded(states[k])
  {
    hide Inv, Bounded, Step, Init, ShapeFor;
    if k == 0 {
      InitOk(start, npages, header);
    } else {
      RunOk(states, calls, start, npages, header, k - 1);
      StepOk(states[k - 1], ShapeFor(npages, header), calls[k - 1], states[k]);
    }
  }
}
