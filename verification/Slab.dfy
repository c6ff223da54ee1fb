/** The slab allocator (rt-thread/src/slab.c) as an object.
    Zone headers are records in a map from the first page of a zone; the zone lists are
    sequences; free pages are a PageList.  Every method ends in the state that the
    specification in SlabCalls.dfy gives for its call. */
module Slab {
  import opened Lists
  import opened PageRuns
  import opened ZoneIndex
  import opened SlabSpec
  import opened SlabCalls
  import B = BlockEdits
  import P = PageList

  const NULL: nat := 0

  class Slab {
    const shape: Shape               // zone_page_cnt, zone_limit
    const pages: P.PageList          // page_list
    var usage: Table                 // memusage
    var zones: map<nat, Zone>        // the headers of zones in use
    var avail: seq<seq<nat>>         // zone_array
    var spare: seq<nat>              // zone_free
    var spareCnt: nat                // zone_free_cnt
    var used: int
    var max: int
    var bytes: int -> int            // contents of the pieces handed out
    ghost var large: map<nat, nat>
    ghost var ext: Extents

    ghost function Abs(): State
      reads this, pages
    {
      State(zones, avail, spare, large, usage, pages.runs, ext, used, max)
    }

    ghost predicate Valid()
      reads this, pages
    {
      pages.Valid() && Inv(Abs(), shape) && Bounded(Abs()) && spareCnt == |spare|
    }

    /** rt_slab_init: `start` is the first whole page, `header` the size of a zone header. */
    constructor (start: nat, npages: nat, header: nat)
      requires start > 0 && npages > 0 && 0 < header <= 8192 && header % 8 == 0
      ensures Valid() && fresh(pages) && Abs() == Init(start, npages) && shape == ShapeFor(npages, header)
    {
      var size := 32768;
      while size < 131072 && size * 2 < npages * PAGE / 1024
        invariant size > 0 && Grown(size, npages * PAGE / 1024) == Grown(32768, npages * PAGE / 1024)
        decreases 131072 - size
      {
        size := size * 2;
      }
      shape := Shape(size / PAGE, header, if size / 4 > LIMIT then LIMIT else size / 4);
      var list := new P.PageList(start, npages);
      TableFits(npages);
      InitOk(start, npages, header);
      var table := list.Alloc(Pages(npages * ENTRY));
      pages := list;
      usage, zones, avail, spare, spareCnt, used, max := map[], map[], seq(ZONES, _ => []), [], 0, 0, 0;
      large, ext, bytes := map[], map[], _ => 0;
      new;
      assert avail == Init(start, npages).avail;
    }

    method Charge(bytes: nat)
      modifies `used, `max
      ensures used == old(used) + bytes && max == Max(old(max), used)
    {
      used := used + bytes;
      if used > max { max := used; }
    }

    /** rt_slab_alloc. */
    method Alloc(request: nat) returns (p: nat, ghost answer: Answer)
      requires Valid()
      modifies this, pages
      ensures bytes == old(bytes)
      ensures Valid() && (Abs(), answer) == SlabCalls.Alloc(old(Abs()), shape, request)
      ensures if answer == Null then p == NULL else Out(Abs(), answer.piece) && p == Start(Abs(), answer.piece) > 0
    {
      hide Inv, Find, AllocChunk, Gains, Class, Bounded;
      AllocOk(Abs(), shape, request);
      Parts(Abs(), shape);
      if request == 0 {
        return NULL, Null;
      }
      if request >= shape.limit {
        p, answer := LargePiece(request);
      } else {
        ClassFits(request);
        var (zi, size) := Class(request);
        if avail[zi] != [] {
          ArrayHead(zones, avail, zi);
          p, answer := ChunkOf(zi, size);
        } else {
          p, answer := ChunkOfNew(request, zi, size);
        }
      }
      if answer.Given? { PointerFound(Abs(), shape, answer.piece); }
    }

    /** A request of zone_limit bytes or more. */
    method LargePiece(request: nat) returns (p: nat, ghost answer: Answer)
      requires Valid() && request >= shape.limit
      modifies this, pages
      ensures bytes == old(bytes)
      ensures pages.Valid() && spareCnt == |spare| && (Abs(), answer) == SlabCalls.Alloc(old(Abs()), shape, request)
      ensures if answer == Null then p == NULL else Out(Abs(), answer.piece) && p == Start(Abs(), answer.piece)
    {
      hide Territory, Kinds, TableOk, ArrayOk, ZonesOk, Find, Take, Weights;
      RoundedPages(request);
      var n := Pages(request);
      ghost var k := Find(pages.runs, n);
      if k < |pages.runs| { RunPositive(pages.runs, k); }
      var page := pages.Alloc(n);
      if page == NULL {
        return NULL, Null;
      }
      usage := usage[page := Large(n)];
      large := large[page := n];
      ext := ext[page := n];
      Charge(n * PAGE);
      return page * PAGE, Given(Block(page));
    }

    /** A chunk of the first zone with room. */
    method ChunkOf(zi: nat, size: nat) returns (p: nat, ghost answer: Answer)
      requires Valid() && zi < |avail| && avail[zi] != [] && size == ChunkSize(zi)
      requires avail[zi][0] in zones && zones[avail[zi][0]].nfree > 0 && zones[avail[zi][0]].index == zi
      modifies `zones, `avail, `used, `max
      ensures var (s, c) := AllocChunk(old(Abs()), zi);
              Abs() == s && answer == Given(Chunk(old(avail[zi][0]), c)) && Out(s, answer.piece) && p == Start(s, answer.piece)
    {
      hide Inv, Gains, TakeChunk, ChunkSize;
      var z := avail[zi][0];
      ZonePart(Abs(), shape, z);
      HasChunk(zones[z], shape);
      ChunkGains(Abs(), shape, zi);
      TakeShape(zones[z], shape);
      TakeBase(zones[z]);
      ChunkIsOut(Abs(), AllocChunk(Abs(), zi).0, Chunk(z, TakeChunk(zones[z]).1));
      var zone, c := TakeOne(zones[z]);
      if zone.nfree == 0 {
        avail := avail[zi := avail[zi][1..]];
      }
      zones := zones[z := zone];
      Charge(zone.size);
      return z * PAGE + zone.off + c * size, Given(Chunk(z, c));
    }

    /** The first chunk of a spare zone, or of one made of new pages. */
    method ChunkOfNew(ghost request: nat, zi: nat, size: nat) returns (p: nat, ghost answer: Answer)
      requires Valid() && 0 < request < shape.limit && request < LIMIT && Class(request) == (zi, size) && zi < |avail| && avail[zi] == [] && size > 0
      modifies this, pages
      ensures bytes == old(bytes)
      ensures pages.Valid() && spareCnt == |spare| && (Abs(), answer) == SlabCalls.Alloc(old(Abs()), shape, request)
      ensures if answer == Null then p == NULL else Out(Abs(), answer.piece) && p == Start(Abs(), answer.piece)
    {
      hide Inv, Bounded, Find, Take, Class, NewZone, Marked, Live, FetchZone, UseZone, SlabCalls.Alloc, Out, Start, WithSpare, NoZone, Territory;
      Parts(Abs(), shape);
      FreshChunk(Abs(), shape, request, zi, size);
      ghost var t := WithSpare(Abs(), shape);
      var z := ZonePages();
      if z == NULL {
        return NULL, Null;
      }
      var zone := Cut(request, zi, size, shape);
      zones := zones[z := zone];
      avail := avail[zi := [z] + avail[zi]];
      Charge(size);
      SameState(Abs(), t, shape, zi, size, z);
      return z * PAGE + zone.off, Given(Chunk(z, 0));
    }

    /** The pages of a zone: a spare one, or new pages. */
    method ZonePages() returns (z: nat)
      requires Valid()
      modifies pages, `usage, `ext, `spare, `spareCnt
      ensures pages.Valid() && spareCnt == |spare|
      ensures if old(NoZone(Abs(), shape)) then z == NULL && Abs() == old(Abs())
              else var t := WithSpare(old(Abs()), shape); z > 0 && t.spare == [z] + spare && Abs() == t.(spare := spare)
    {
      hide Inv, Bounded, Find, Take, Marked, Canonical;
      Parts(Abs(), shape);
      FetchKeeps(Abs(), shape);
      if spare != [] {
        SparePositive(Abs(), shape);
        z := spare[0];
        spare := spare[1..];
        spareCnt := spareCnt - 1;
      } else {
        z := FetchPages();
      }
    }

    /** Pages for a zone, entered in the page table. */
    method FetchPages() returns (z: nat)
      requires Valid()
      modifies pages, `usage, `ext
      ensures pages.Valid()
      ensures if Find(old(pages.runs), shape.zonePages) == |old(pages.runs)| then
                z == NULL && usage == old(usage) && ext == old(ext) && pages.runs == old(pages.runs)
              else
                var t := FetchZone(old(Abs()), shape);
                z == t.spare[0] > 0 && usage == t.usage && ext == t.ext && pages.runs == t.runs
    {
      hide Inv, Find, Take, Marked;
      Parts(Abs(), shape);
      ghost var k := Find(pages.runs, shape.zonePages);
      if k < |pages.runs| { RunPositive(pages.runs, k); }
      DivExact(shape.zonePages, PAGE);
      z := pages.Alloc(shape.ZoneSize() / PAGE);
      if z != NULL {
        ghost var was := usage;
        MarkNext(was, z, 0);
        for off := 0 to shape.zonePages
          invariant usage == Marked(was, z, off)
          modifies `usage
        {
          MarkNext(was, z, off);
          usage := usage[z + off := Small(off)];
        }
        ext := ext[z := shape.zonePages];
      }
    }

    /** rt_slab_free: `x` is the piece the pointer was given out for. */
    method Free(p: nat, ghost x: Piece)
      requires Valid() && (p != NULL ==> Out(Abs(), x) && p == Start(Abs(), x))
      modifies this, pages
      ensures bytes == old(bytes)
      ensures Valid() && Abs() == if p == NULL then old(Abs()) else SlabCalls.Free(old(Abs()), shape, x)
    {
      hide Inv, Bounded, Gains, FreeLarge, PutBack, Out, Start, Live, Canonical;
      if p == NULL {
        return;
      }
      FreeOk(Abs(), shape, x);
      PointerFound(Abs(), shape, x);
      ChunkShape(Abs(), x);
      var page := p / PAGE;
      var kup := usage[page];
      if kup.Large? {
        FreePages(page, kup.pages);
      } else {
        var z := page - kup.offset;
        FreeAt(z, (p - z * PAGE - zones[z].off) / zones[z].size);
      }
    }

    method FreePages(page: nat, n: nat)
      requires Valid() && page in large && large[page] == n
      modifies this, pages
      ensures bytes == old(bytes)
      ensures pages.Valid() && spareCnt == |spare| && page in old(large) && Abs() == FreeLarge(old(Abs()), page)
    {
      hide Inv, Canonical;
      LargeExtent(Abs(), shape, page);
      OwnedPages(Abs(), shape, page);
      usage := usage[page := Large(0)];
      used := used - n * PAGE;
      large := large - {page};
      ext := ext - {page};
      pages.Free(page, n);
    }

    /** A chunk goes back to its zone. */
    method FreeAt(z: nat, c: nat)
      requires Valid() && z in zones && Live(zones[z], c)
      modifies this, pages
      ensures bytes == old(bytes)
      ensures pages.Valid() && spareCnt == |spare| && z in old(zones) && Abs() == PutBack(old(Abs()), shape, z, c)
    {
      hide Inv, Bounded, Release, Live, Canonical;
      ZonePart(Abs(), shape, z);
      FreeChunkOk(Abs(), shape, z, c);
      var zone := zones[z];
      var i := zone.index;
      zone := zone.(free := [c] + zone.free);
      used := used - zone.size;
      if zone.nfree == 0 {
        avail := avail[i := [z] + avail[i]];
      }
      zone := zone.(nfree := zone.nfree + 1);
      zones := zones[z := zone];
      assert Abs() == FreeChunk(old(Abs()), z, c);
      if zone.nfree == zone.nmax && avail[i] != [z] {
        RetireOk(Abs(), shape, z);
        avail := avail[i := Without(avail[i], z)];
        zones := zones - {z};
        spare := [z] + spare;
        spareCnt := spareCnt + 1;
        if spareCnt > RELEASE {
          ReleaseZone();
        }
      }
    }

    /** The first spare zone goes back to the page allocator. */
    method ReleaseZone()
      requires pages.Valid() && Inv(Abs(), shape) && spare != [] && spareCnt == |spare|
      modifies this, pages
      ensures bytes == old(bytes)
      ensures pages.Valid() && spareCnt == |spare| && old(spare) != [] && Abs() == Release(old(Abs()), shape)
    {
      hide Inv, Canonical;
      SpareExtent(Abs(), shape);
      OwnedPages(Abs(), shape, spare[0]);
      var z := spare[0];
      spare := spare[1..];
      spareCnt := spareCnt - 1;
      ghost var was := usage;
      ClearNext(was, z, 0);
      for i := 0 to shape.zonePages
        invariant usage == Cleared(was, z, i)
        modifies `usage
      {
        ClearNext(was, z, i);
        usage := usage[z + i := FreePage];
      }
      ext := ext - {z};
      pages.Free(z, shape.zonePages);
    }

    /** rt_slab_realloc: as many bytes as fit go along, and no other piece changes. */
    method Realloc(p: nat, request: nat, ghost x: Piece) returns (q: nat, ghost answer: Answer)
      requires Valid() && (p != NULL ==> Out(Abs(), x) && p == Start(Abs(), x))
      modifies this, pages
      ensures Valid()
      ensures (Abs(), answer) == if p == NULL then SlabCalls.Alloc(old(Abs()), shape, request) else SlabCalls.Realloc(old(Abs()), shape, x, request)
      ensures if answer == Null then q == NULL else Out(Abs(), answer.piece) && q == Start(Abs(), answer.piece) > 0
      ensures p == NULL || answer == Null ==> bytes == old(bytes)
      ensures p != NULL ==> OthersKept(old(Abs()), x, old(bytes), bytes)
      ensures p != NULL && answer.Given? ==> Carried(p, q, Least(request, Size(old(Abs()), x)), old(bytes), bytes)
    {
      hide Inv, Bounded, Gains, Swaps, Out, Start, Size, SlabCalls.Alloc, Replace, SlabCalls.Free, Canonical, Class, OthersKept, Carried;
      if p == NULL {
        q, answer := Alloc(request);
        return;
      }
      NothingMoved(Abs(), x, p, Size(Abs(), x), bytes);
      if request == 0 {
        Free(p, x);
        return NULL, Null;
      }
      PointerFound(Abs(), shape, x);
      ChunkShape(Abs(), x);
      var kup := usage[p / PAGE];
      if kup.Large? {
        q, answer := MoveTo(p, request, kup.pages * PAGE, x);
      } else {
        var zone := zones[p / PAGE - kup.offset];
        var size := Adjusted(request);
        AdjustedOk(request);
        if zone.size == size {
          return p, Given(x);
        }
        q, answer := MoveTo(p, size, zone.size, x);
        if answer.Given? { CarriedPart(p, q, Least(request, zone.size), Least(size, zone.size), old(bytes), bytes); }
      }
    }

    method MoveTo(p: nat, request: nat, had: nat, ghost x: Piece) returns (q: nat, ghost answer: Answer)
      requires Valid() && p != NULL && Out(Abs(), x) && p == Start(Abs(), x) && had == Size(Abs(), x)
      modifies this, pages
      ensures Valid()
      ensures (Abs(), answer) == Replace(old(Abs()), shape, x, request)
      ensures if answer == Null then q == NULL else Out(Abs(), answer.piece) && q == Start(Abs(), answer.piece) > 0
      ensures OthersKept(old(Abs()), x, old(bytes), bytes) && (answer == Null ==> bytes == old(bytes))
      ensures answer.Given? ==> Carried(p, q, Least(request, had), old(bytes), bytes)
    {
      hide Inv, Bounded, Swaps, Out, Start, Size, SlabCalls.Alloc, SlabCalls.Free, Canonical, NoRoom, Grant, OthersKept, Carried;
      NothingMoved(Abs(), x, p, had, bytes);
      AllocOk(Abs(), shape, request);
      ghost var was := Abs();
      q, answer := Alloc(request);
      if q != NULL {
        StillOut(was, Abs(), answer.piece, x);
        Disjoint(Abs(), shape, answer.piece, x);
        Copy(q, p, if request > had then had else request);
        CopyIntoNew(was, Abs(), shape, x, answer.piece, Least(request, had), old(bytes), bytes);
        FreeOk(Abs(), shape, x);
        Free(p, x);
      }
    }

    /** rt_memcpy. */
    method Copy(dst: int, src: int, n: int)
      requires dst + n <= src || src + n <= dst
      modifies `bytes
      ensures B.Copied(dst, src, n, old(bytes), bytes)
    {
      B.CopyCopies(dst, src, n, bytes);
      bytes := B.CopiedTo(dst, src, n, bytes);
    }
  }

  function Least(a: nat, b: nat): nat { if a < b then a else b }

  /** The bytes of the pieces other than x are as they were. */
  ghost predicate OthersKept(s: State, x: Piece, was: int -> int, now: int -> int) {
    forall w, a :: w != x && Out(s, w) && Start(s, w) <= a < Start(s, w) + Size(s, w) ==> now(a) == was(a)
  }

  /** The n bytes from p on are now the n bytes from q on. */
  ghost predicate Carried(p: int, q: int, n: int, was: int -> int, now: int -> int) {
    forall a, b :: p <= a < p + n && b == a - p + q ==> now(b) == was(a)
  }

  lemma NothingMoved(s: State, x: Piece, p: int, n: int, bytes: int -> int)
    ensures OthersKept(s, x, bytes, bytes) && forall m :: Carried(p, p, m, bytes, bytes)
  {
  }

  lemma CarriedPart(p: int, q: int, m: int, n: int, was: int -> int, now: int -> int)
    requires Carried(p, q, n, was, now) && m <= n
    ensures Carried(p, q, m, was, now)
  {
  }

  lemma StillOut(s: State, s': State, y: Piece, x: Piece)
    requires Gains(s, s', y) && Out(s, x)
    ensures Out(s', y) && Out(s', x) && x != y && Start(s', x) == Start(s, x) && Size(s', x) == Size(s, x)
  {
  }

  /** A copy into a new piece leaves all older pieces alone. */
  lemma CopyIntoNew(s: State, s': State, S: Shape, x: Piece, y: Piece, n: nat, was: int -> int, now: int -> int)
    requires Gains(s, s', y) && Inv(s', S) && n <= Size(s', y)
    requires Out(s, x) && B.Copied(Start(s', y), Start(s, x), n, was, now)
    ensures OthersKept(s, x, was, now) && Carried(Start(s, x), Start(s', y), n, was, now)
  {
    hide Inv, Gains, Out, Start, Size;
    forall w, a | w != x && Out(s, w) && Start(s, w) <= a < Start(s, w) + Size(s, w) ensures now(a) == was(a) {
      StillOut(s, s', y, w);
      Disjoint(s', S, y, w);
    }
  }

  /** The pages of an extent are not free. */
  lemma OwnedPages(s: State, S: Shape, a: nat)
    requires Inv(s, S) && a in s.ext
    ensures a > 0 && s.ext[a] > 0 && forall x :: a <= x < a + s.ext[a] ==> !Holds(s.runs, x)
  {
    hide Kinds, TableOk, ArrayOk, ZonesOk, Weights, Canonical;
  }

  lemma LargeExtent(s: State, S: Shape, p: nat)
    requires Inv(s, S) && p in s.large
    ensures p in s.ext && s.ext[p] == s.large[p]
  {
    hide Territory, TableOk, ArrayOk, ZonesOk, Weights;
  }

  lemma SpareExtent(s: State, S: Shape)
    requires Inv(s, S) && s.spare != []
    ensures s.spare[0] in s.ext && s.ext[s.spare[0]] == S.zonePages
  {
    hide Territory, TableOk, ArrayOk, ZonesOk, Weights;
    KindsRelease(s.zones.Keys, s.spare, s.large, s.ext, S.zonePages);
  }

  lemma ChunkShape(s: State, x: Piece)
    requires Out(s, x)
    ensures if x.Chunk? then x.zone in s.zones && Live(s.zones[x.zone], x.number) else x.page in s.large
    ensures Size(s, x) == if x.Chunk? then s.zones[x.zone].size else s.large[x.page] * PAGE
  {
  }

  lemma ClearNext(usage: Table, z: nat, n: nat)
    ensures Cleared(usage, z, 0) == usage
    ensures Cleared(usage, z, n + 1) == Cleared(usage, z, n)[z + n := FreePage]
  {
  }

  /** The header of a new zone, for a request of a class. */
  method Cut(ghost request: nat, zi: nat, size: nat, shape: Shape) returns (zone: Zone)
    requires shape.Valid() && 0 < request < shape.limit && request < LIMIT && Class(request) == (zi, size) && size > 0
    ensures zone == NewZone(zi, size, shape)
  {
    hide Class, RoundUp, PowerOfTwo, ChunkSize, Live;
    NewZoneOk(request, shape);
    var off := if PowerOfTwo(size) then RoundUp(shape.header, size) else RoundUp(shape.header, 8);
    var nmax := (shape.ZoneSize() - off) / size;
    zone := Zone(zi, size, off, nmax, 0, nmax - 1, []);
  }

  /** No pages for a zone. */
  ghost predicate NoZone(s: State, S: Shape) { s.spare == [] && Find(s.runs, S.zonePages) == |s.runs| }

  /** With a zone in reserve. */
  ghost function WithSpare(s: State, S: Shape): State {
    if s.spare == [] && S.zonePages > 0 && Find(s.runs, S.zonePages) < |s.runs| then FetchZone(s, S) else s
  }

  /** What rt_slab_alloc does when no zone of the class has room. */
  lemma FreshChunk(s: State, S: Shape, n: nat, i: nat, b: nat)
    requires Inv(s, S) && 0 < n < S.limit && n < LIMIT && Class(n) == (i, b) && i < |s.avail| && s.avail[i] == [] && b > 0
    ensures var z := NewZone(i, b, S); Live(z, 0) && z.size == b
    ensures var t := WithSpare(s, S);
            && t.zones == s.zones && t.avail == s.avail
            && (if NoZone(s, S) then SlabCalls.Alloc(s, S, n) == (s, Null)
               else t.spare != [] && SlabCalls.Alloc(s, S, n) == (UseZone(t, S, i, b), Given(Chunk(t.spare[0], 0))))
  {
    hide Inv, ArrayOk, Find, Take, Class, NewZone, Marked, Live, UseZone;
    Parts(s, S);
    FirstLive(n, i, b, S);
  }

  /** The fields after the steps are those of the specification. */
  lemma SameState(s: State, t: State, S: Shape, i: nat, b: nat, z: nat)
    requires t.spare != [] && i < |t.avail| && b > 0 && t.spare == [z] + s.spare && Live(NewZone(i, b, S), 0)
    requires s == t.(spare := s.spare, zones := t.zones[z := NewZone(i, b, S)], avail := t.avail[i := [z] + t.avail[i]],
      used := t.used + b, max := Max(t.max, t.used + b))
    ensures s == UseZone(t, S, i, b) && Out(s, Chunk(t.spare[0], 0))
    ensures Start(s, Chunk(t.spare[0], 0)) == z * PAGE + NewZone(i, b, S).off && t.spare[0] == z
  {
    hide NewZone, Live;
    assert t.spare[1..] == s.spare;
  }

  lemma SparePositive(s: State, S: Shape)
    requires Inv(s, S) && s.spare != []
    ensures s.spare[0] > 0
  {
    hide Distinct, TableOk, ArrayOk, ZonesOk, Weights;
    Pieces(s.ext, s.runs, s.spare[0]);
  }

  lemma FetchKeeps(s: State, S: Shape)
    requires S.zonePages > 0
    ensures Find(s.runs, S.zonePages) < |s.runs| ==>
      var t := FetchZone(s, S);
      && Same(s, t) && t.used == s.used && t.max == s.max && t.avail == s.avail && |t.spare| == |s.spare| + 1 && t.spare[1..] == s.spare
  {
    hide Find, Take, Marked;
  }

  lemma FirstLive(n: nat, i: nat, b: nat, S: Shape)
    requires S.Valid() && 0 < n < S.limit && n < LIMIT && Class(n) == (i, b) && b > 0
    ensures var z := NewZone(i, b, S); Live(z, 0) && z.size == b
  {
    hide Class, RoundUp, PowerOfTwo, ChunkSize, Live;
    NewZoneOk(n, S);
  }

  /** A chunk that was never used, or the first one of the free list. */
  method TakeOne(z: Zone) returns (zone: Zone, c: nat)
    requires z.nfree > 0 && (z.uindex + 1 == z.nmax ==> z.free != [])
    ensures (zone, c) == TakeChunk(z)
  {
    zone := z.(nfree := z.nfree - 1);
    if zone.uindex + 1 != zone.nmax {
      zone := zone.(uindex := zone.uindex + 1);
      c := zone.uindex;
    } else {
      c := zone.free[0];
      zone := zone.(free := zone.free[1..]);
    }
  }

  lemma HasChunk(z: Zone, S: Shape)
    requires ZoneOk(z, S) && z.nfree > 0
    ensures z.uindex + 1 == z.nmax ==> z.free != []
  {
  }

  lemma ChunkIsOut(s: State, t: State, x: Piece)
    requires Gains(s, t, x)
    ensures Out(t, x)
  {
  }

  lemma MarkNext(usage: Table, z: nat, n: nat)
    ensures Marked(usage, z, 0) == usage
    ensures Marked(usage, z, n + 1) == Marked(usage, z, n)[z + n := Small(n)]
  {
  }

  lemma RunPositive(rs: seq<Run>, k: nat)
    requires Canonical(rs) && k < |rs|
    ensures rs[k].start > 0
  {
    StartPositive(rs, k);
  }
}
