/** Several memory heaps behind one allocation call (_memheap_alloc and _memheap_realloc in
    rt-thread/src/memheap.c, with automatic binding). */
module SystemHeap {
  import opened Lists
  import opened Tiling
  import opened BlockEdits
  import opened HeapSpec
  import M = MemHeap

  /** A heap and its bytes at one moment. */
  datatype Snapshot = Snapshot(h: Heap, bytes: int -> int)

  ghost function Snap(heaps: seq<M.MemHeap>): (s: seq<Snapshot>)
    reads heaps
    ensures |s| == |heaps| && forall i :: 0 <= i < |s| ==> s[i] == Snapshot(heaps[i].h, heaps[i].bytes)
  {
    seq(|heaps|, i requires 0 <= i < |heaps| reads heaps => Snapshot(heaps[i].h, heaps[i].bytes))
  }

  ghost predicate AllValid(heaps: seq<M.MemHeap>)
    reads heaps
  {
    Distinct(heaps) && forall i :: 0 <= i < |heaps| ==> heaps[i].Valid()
  }

  ghost predicate Refuses(s: Snapshot, L: Layout, size: nat) {
    L.align > 0 && HeapSpec.Alloc(s.h, L, size) == (s.h, None)
  }

  /** A heap serves a request: no live byte of it changes. */
  ghost predicate Granted(s: Snapshot, s': Snapshot, L: Layout, size: nat, a: int) {
    L.align > 0 && HeapSpec.Alloc(s.h, L, size) == (s'.h, Some(a)) && LiveKept(s.h.blocks, L, s.bytes, s'.bytes)
  }

  method TryOne(heap: M.MemHeap, size: nat) returns (r: Option<int>)
    requires heap.Valid()
    modifies heap
    ensures heap.Valid()
    ensures r == None ==> heap.h == old(heap.h) && heap.bytes == old(heap.bytes) && Refuses(Snapshot(heap.h, heap.bytes), heap.L, size)
    ensures r.Some? ==> Granted(old(Snapshot(heap.h, heap.bytes)), Snapshot(heap.h, heap.bytes), heap.L, size, r.value)
  {
    hide HeapOk, HeapSpec.Alloc, LiveKept;
    AlignPositive(heap.h, heap.L);
    AllocFailsIff(heap.h, heap.L, size);
    r := heap.Alloc(size);
  }

  method TryHeap(heaps: seq<M.MemHeap>, i: nat, size: nat) returns (r: Option<int>)
    requires AllValid(heaps) && i < |heaps|
    modifies heaps[i]
    ensures AllValid(heaps)
    ensures r == None ==> Snap(heaps) == old(Snap(heaps)) && Refuses(Snap(heaps)[i], heaps[i].L, size)
    ensures r.Some? ==> Snap(heaps) == old(Snap(heaps))[i := Snap(heaps)[i]] && Granted(old(Snap(heaps))[i], Snap(heaps)[i], heaps[i].L, size, r.value)
  {
    hide HeapOk, Refuses, Granted, M.MemHeap.Valid;
    OthersDiffer(heaps, i);
    r := TryOne(heaps[i], size);
  }

  lemma OthersDiffer(heaps: seq<M.MemHeap>, i: nat)
    requires Distinct(heaps) && i < |heaps|
    ensures forall j :: 0 <= j < |heaps| && j != i ==> heaps[j] != heaps[i]
  {
  }

  lemma AlignPositive(h: Heap, L: Layout)
    requires HeapOk(h, L)
    ensures L.Valid() && L.align > 0
  {
  }

  /** The request is served by heap d, or else by the first other heap in the list that can. */
  ghost predicate Served(heaps: seq<M.MemHeap>, was: seq<Snapshot>, now: seq<Snapshot>, d: nat, size: nat, k: nat, r: Option<int>)
    requires |was| == |now| == |heaps|
  {
    && (r == None ==> now == was && forall i :: 0 <= i < |heaps| ==> Refuses(was[i], heaps[i].L, size))
    && (r.Some? ==>
          && k < |heaps| && now == was[k := now[k]] && Granted(was[k], now[k], heaps[k].L, size, r.value)
          && forall i :: 0 <= i < |heaps| && i != k && (i == d || (k != d && i < k)) ==> Refuses(was[i], heaps[i].L, size))
  }

  /** _memheap_alloc: the request is tried in heap d, then in the others in list order. */
  method AllocAny(heaps: seq<M.MemHeap>, d: nat, size: nat) returns (k: nat, r: Option<int>)
    requires AllValid(heaps) && d < |heaps|
    modifies heaps
    ensures AllValid(heaps) && Served(heaps, old(Snap(heaps)), Snap(heaps), d, size, k, r)
  {
    hide AllValid, Refuses, Granted;
    k := d;
    r := TryHeap(heaps, d, size);
    if r == None {
      k := 0;
      while k < |heaps|
        invariant k <= |heaps| && AllValid(heaps) && Snap(heaps) == old(Snap(heaps)) && r == None
        invariant forall i :: 0 <= i < |heaps| && (i == d || i < k) ==> Refuses(old(Snap(heaps))[i], heaps[i].L, size)
      {
        if k != d {
          r := TryHeap(heaps, k, size);
          if r != None {
            return;
          }
        }
        k := k + 1;
      }
    }
  }

  /** A block went from one heap to another with its contents, up to the smaller size; nothing
      else that is live changed in either. */
  ghost predicate Moved(s: Snapshot, s': Snapshot, L: Layout, i: nat, t: Snapshot, t': Snapshot, M: Layout, size: nat, a: int) {
    && HeapOk(s.h, L) && Freeable(s.h.blocks, i) && M.align > 0
    && s' == Snapshot(HeapSpec.Free(s.h, L, i), s.bytes)
    && HeapSpec.Alloc(t.h, M, size) == (t'.h, Some(a)) && LiveKept(t.h.blocks, M, t.bytes, t'.bytes)
    && Transferred(s.h.blocks[i].addr + L.header, a + M.header, if size < Size(s.h.blocks, L.header, i) then size else Size(s.h.blocks, L.header, i), s.bytes, t'.bytes)
  }

  ghost predicate Transferred(src: int, dst: int, n: int, from: int -> int, to: int -> int) {
    forall x, y :: dst <= y < dst + n && x == y - dst + src ==> to(y) == from(x)
  }

  /** The block was resized in its own heap. */
  ghost predicate ResizedIn(s: Snapshot, s': Snapshot, L: Layout, i: nat, size: nat, a: int) {
    && HeapOk(s.h, L) && Freeable(s.h.blocks, i) && HeapSpec.Realloc(s.h, L, i, size) == (s'.h, Some(a))
    && OthersKept(s.h.blocks, L, s.h.blocks[i].addr, s.bytes, s'.bytes) && ContentsKept(s.h.blocks, L, i, L.Round(size), a, s.bytes, s'.bytes)
  }

  method ResizeOne(heap: M.MemHeap, block: int, size: nat, ghost i: nat) returns (r: Option<int>)
    requires heap.Valid() && Freeable(heap.h.blocks, i) && heap.h.blocks[i].addr == block && size > 0
    modifies heap
    ensures heap.Valid()
    ensures r == None ==> heap.h == old(heap.h) && heap.bytes == old(heap.bytes) && Refuses(Snapshot(heap.h, heap.bytes), heap.L, size)
    ensures r.Some? ==> ResizedIn(old(Snapshot(heap.h, heap.bytes)), Snapshot(heap.h, heap.bytes), heap.L, i, size, r.value)
  {
    hide HeapOk, HeapSpec.Realloc, HeapSpec.Alloc, OthersKept, ContentsKept, IndexOf;
    BlockIndex(heap.h, heap.L, i);
    ReallocRefused(heap.h, heap.L, i, size);
    r := heap.Realloc(Some(block), size);
  }

  lemma BlockIndex(h: Heap, L: Layout, i: nat)
    requires HeapOk(h, L) && Freeable(h.blocks, i)
    ensures IndexOf(h.blocks, h.blocks[i].addr) == i
  {
    hide HeapOk, BlocksOk, IndexOf, Spaced;
    HeapSpaced(h, L);
    var j := IndexOf(h.blocks, h.blocks[i].addr);
    IndexUnique(h.blocks, L.header, i, if j < |h.blocks| then j else i);
  }

  /** A reallocation fails exactly where the block cannot grow and an allocation of as many bytes fails. */
  lemma ReallocRefused(h: Heap, L: Layout, i: nat, size: nat)
    requires HeapOk(h, L) && Freeable(h.blocks, i) && size > 0
    ensures L.align > 0
    ensures HeapSpec.Realloc(h, L, i, size).1 == None <==>
              && L.Round(size) > Size(h.blocks, L.header, i) && !Grows(h, L, i, L.Round(size)) && HeapSpec.Alloc(h, L, size) == (h, None)
    ensures HeapSpec.Realloc(h, L, i, size).1 == None ==> HeapSpec.Realloc(h, L, i, size) == (h, None)
  {
    hide HeapOk, HeapSpec.Realloc, HeapSpec.Alloc, Grows, FirstFit;
    AlignPositive(h, L);
    AllocFailsIff(h, L, size);
    ReallocFailsIff(h, L, i, size);
  }

  /** rt_memcpy between heaps. */
  method CopyAcross(to: M.MemHeap, from: M.MemHeap, dst: int, src: int, n: int)
    requires to.Valid() && to != from
    modifies to`bytes
    ensures to.Valid() && Transferred(src, dst, n, from.bytes, to.bytes)
    ensures forall y :: y < dst || dst + n <= y ==> to.bytes(y) == old(to.bytes)(y)
  {
    hide HeapOk;
    var was, other := to.bytes, from.bytes;
    to.bytes := (x: int) => if dst <= x < dst + n then other(x - dst + src) else was(x);
  }

  /** The bytes of a block that was free are no live bytes. */
  lemma FreshApart(h: Heap, L: Layout, size: nat, n: int, was: int -> int, mid: int -> int, now: int -> int)
    requires HeapOk(h, L) && HeapSpec.Alloc(h, L, size).1.Some? && n <= size && LiveKept(h.blocks, L, was, mid)
    requires var a := HeapSpec.Alloc(h, L, size).1.value + L.header; forall y :: y < a || a + n <= y ==> now(y) == mid(y)
    ensures LiveKept(h.blocks, L, was, now)
  {
    hide BlocksOk, HeapSpec.Alloc, Items, InOther;
    var t := M.MoveTarget(h, L, size);
    forall x | InLive(Items(h.blocks, L.header), L.header, x) ensures now(x) == was(x) {
      LiveApart(h.blocks, L, t, x);
    }
  }

  lemma LiveApart(bs: seq<Block>, L: Layout, t: nat, x: int)
    requires BlocksOk(bs, L) && t + 1 < |bs| && !bs[t].used && InLive(Items(bs, L.header), L.header, x)
    ensures x < bs[t].addr || bs[t + 1].addr <= x
  {
    hide BlocksOk, Items;
    var it :| it in Items(bs, L.header) && it.used && it.addr + L.header <= x < it.addr + L.header + it.size;
    OtherApart(bs, L, t, it.addr + 1, x);
  }

  /** The block of heap o was resized there, or moved to the first other heap that can hold it
      if o cannot, or every heap refuses and nothing has changed. */
  ghost predicate Resized(heaps: seq<M.MemHeap>, was: seq<Snapshot>, now: seq<Snapshot>, d: nat, o: nat, i: nat, size: nat, k: nat, r: Option<int>)
    requires |was| == |now| == |heaps| && o < |heaps|
  {
    if r == None then now == was && forall j :: 0 <= j < |heaps| ==> Refuses(was[j], heaps[j].L, size)
    else
      && k < |heaps| && now == was[o := now[o]][k := now[k]]
      && if k == o then ResizedIn(was[o], now[o], heaps[o].L, i, size, r.value)
         else
           && Moved(was[o], now[o], heaps[o].L, i, was[k], now[k], heaps[k].L, size, r.value) && Refuses(was[o], heaps[o].L, size)
           && forall j :: 0 <= j < |heaps| && j != k && (j == d || (k != d && j < k)) ==> Refuses(was[j], heaps[j].L, size)
  }

  /** A block of heap o, its header's pool_ptr, is resized there or moved elsewhere. */
  method ResizeAny(heaps: seq<M.MemHeap>, d: nat, o: nat, block: int, size: nat, ghost i: nat) returns (k: nat, r: Option<int>)
    requires AllValid(heaps) && d < |heaps| && o < |heaps| && size > 0
    requires Freeable(heaps[o].h.blocks, i) && heaps[o].h.blocks[i].addr == block
    modifies heaps
    ensures AllValid(heaps)
    ensures Resized(heaps, old(Snap(heaps)), Snap(heaps), d, o, i, size, k, r)
  {
    hide HeapOk, Refuses, Granted, M.MemHeap.Valid, ResizedIn, Moved, Freeable;
    OthersDiffer(heaps, o);
    AllInOrder(heaps);
    ghost var was := Snap(heaps);
    k := o;
    r := ResizeOne(heaps[o], block, size, i);
    if r == None {
      assert Snap(heaps) == was;
      k, r := AllocAny(heaps, d, size);
      if r != None {
        RefusedNotServed(was[o], was[k], Snap(heaps)[k], heaps[o].L, size, r.value);
        assert Snap(heaps)[o] == was[o];
        OthersDiffer(heaps, k);
        Transfer(heaps[o], heaps[k], block, size, i, was[k], r.value);
      }
    }
  }

  /** The block is freed in its own heap. */
  ghost predicate FreedIn(s: Snapshot, s': Snapshot, L: Layout, i: nat) {
    HeapOk(s.h, L) && Freeable(s.h.blocks, i) && s' == Snapshot(HeapSpec.Free(s.h, L, i), s.bytes)
  }

  /** _memheap_realloc: the null pointer asks for a new block, size 0 frees the old one. */
  method ReallocAny(heaps: seq<M.MemHeap>, d: nat, o: nat, p: Option<int>, size: nat, ghost i: nat) returns (k: nat, r: Option<int>)
    requires AllValid(heaps) && d < |heaps|
    requires p.Some? ==> o < |heaps| && Freeable(heaps[o].h.blocks, i) && heaps[o].h.blocks[i].addr == p.value
    modifies heaps
    ensures AllValid(heaps)
    ensures p == None ==> Served(heaps, old(Snap(heaps)), Snap(heaps), d, size, k, r)
    ensures p.Some? && size == 0 ==>
              r == None && Snap(heaps) == old(Snap(heaps))[o := Snap(heaps)[o]] && FreedIn(old(Snap(heaps))[o], Snap(heaps)[o], heaps[o].L, i)
    ensures p.Some? && size > 0 ==> Resized(heaps, old(Snap(heaps)), Snap(heaps), d, o, i, size, k, r)
  {
    hide AllValid, Refuses, Granted, ResizedIn, Moved, FreedIn, Freeable;
    if p == None {
      k, r := AllocAny(heaps, d, size);
    } else if size == 0 {
      FreeIn(heaps, o, p.value, i);
      k, r := 0, None;
    } else {
      k, r := ResizeAny(heaps, d, o, p.value, size, i);
    }
  }

  method FreeIn(heaps: seq<M.MemHeap>, o: nat, block: int, ghost i: nat)
    requires AllValid(heaps) && o < |heaps| && Freeable(heaps[o].h.blocks, i) && heaps[o].h.blocks[i].addr == block
    modifies heaps[o]
    ensures AllValid(heaps)
    ensures Snap(heaps) == old(Snap(heaps))[o := Snap(heaps)[o]] && FreedIn(old(Snap(heaps))[o], Snap(heaps)[o], heaps[o].L, i)
  {
    hide HeapOk, HeapSpec.Free, IndexOf, M.MemHeap.Valid, FreedIn;
    OthersDiffer(heaps, o);
    FreeOne(heaps[o], block, i);
  }

  method FreeOne(heap: M.MemHeap, block: int, ghost i: nat)
    requires heap.Valid() && Freeable(heap.h.blocks, i) && heap.h.blocks[i].addr == block
    modifies heap
    ensures heap.Valid() && FreedIn(old(Snapshot(heap.h, heap.bytes)), Snapshot(heap.h, heap.bytes), heap.L, i)
  {
    hide HeapOk, HeapSpec.Free, IndexOf;
    BlockIndex(heap.h, heap.L, i);
    heap.Free(Some(block));
  }

  lemma AllInOrder(heaps: seq<M.MemHeap>)
    requires AllValid(heaps)
    ensures forall i :: 0 <= i < |heaps| ==> HeapOk(Snap(heaps)[i].h, heaps[i].L)
  {
    hide HeapOk;
  }

  lemma RefusedNotServed(s: Snapshot, t: Snapshot, t': Snapshot, L: Layout, size: nat, a: int)
    requires Refuses(s, L, size)
    ensures s == t ==> !Granted(t, t', L, size, a)
  {
  }

  /** The new block in heap `to` takes over the contents, and the old one is freed. */
  method Transfer(from: M.MemHeap, to: M.MemHeap, block: int, size: nat, ghost i: nat, ghost t: Snapshot, a: int)
    requires from != to && from.Valid() && to.Valid() && Freeable(from.h.blocks, i) && from.h.blocks[i].addr == block
    requires HeapOk(t.h, to.L) && Granted(t, Snapshot(to.h, to.bytes), to.L, size, a)
    modifies from, to`bytes
    ensures from.Valid() && to.Valid() && to.h == old(to.h)
    ensures Moved(old(Snapshot(from.h, from.bytes)), Snapshot(from.h, from.bytes), from.L, i, t, Snapshot(to.h, to.bytes), to.L, size, a)
  {
    hide HeapOk, HeapSpec.Alloc, HeapSpec.Free, LiveKept, IndexOf;
    BlockIndex(from.h, from.L, i);
    from.LinksHere(i);
    var oldsize := from.next[block] - block - from.L.header;
    var n := if size > oldsize then oldsize else size;
    ghost var mid := to.bytes;
    CopyAcross(to, from, a + to.L.header, block + from.L.header, n);
    FreshApart(t.h, to.L, size, n, t.bytes, mid, to.bytes);
    from.Free(Some(block));
  }
}
