/** What memheap's operations do to the tiling of a pool, its free list and its counters
    (rt-thread/src/memheap.c).  The linked headers are in MemHeap.dfy. */
module HeapSpec {
  import opened Alignment
  import opened BlockEdits
  import opened Lists
  import opened Tiling

  /** `end` is the address of the tail stub; `free` the free ring without its list head. */
  datatype Heap = Heap(start: int, end: int, pool: int, blocks: seq<Block>, free: seq<int>, available: int, maxUsed: int) {
    /** Moving the counter of free bytes, and the high-water mark with it. */
    function Spend(n: int): Heap {
      this.(available := available - n,
            maxUsed := if pool - (available - n) > maxUsed then pool - (available - n) else maxUsed)
    }
  }

  ghost predicate FreeListed(free: seq<int>, items: set<Item>) {
    && Distinct(free)
    && (forall a :: a in free ==> exists it :: it in items && it.addr == a && !it.used)
    && (forall it :: it in items && !it.used ==> it.addr in free)
  }

  /** The blocks tile the pool, no two neighbours are free, the free list holds exactly the
      free blocks, and the counters are exact. */
  ghost predicate HeapOk(h: Heap, L: Layout) {
    && BlocksOk(h.blocks, L) && h.blocks[0].addr == h.start && h.blocks[|h.blocks| - 1].addr == h.end
    && h.pool == h.end + L.header - h.start
    && FreeListed(h.free, Items(h.blocks, L.header))
    && h.available == FreeSum(h.blocks, L.header)
    && h.pool - h.available <= h.maxUsed
  }

  /** rt_memheap_init on an aligned start. */
  function Init(L: Layout, start: int, size: nat): Heap
    requires L.align > 0
  {
    var pool := AlignDown(size, L.align);
    var end := start + pool - L.header;
    Heap(start, end, pool, [Block(start, false), Block(end, true)], [start], pool - 2 * L.header, 2 * L.header)
  }

  lemma InitOk(L: Layout, start: int, size: nat)
    requires L.Valid() && Multiple(start, L.align) && AlignDown(size, L.align) >= 2 * L.header
    ensures HeapOk(Init(L, start, size), L)
  {
    var h := Init(L, start, size);
    var pool := AlignDown(size, L.align);
    assert Multiple(pool, L.align);
    MultipleSum(start, pool, L.align);
    MultipleSum(start + pool, L.header, L.align);
    assert h.blocks[1..] == [Block(h.end, true)];
    assert Items(h.blocks, L.header) == {Item(start, h.available, false)};
  }

  // -------------------------------------------------------------------------------------
  // Editing a heap
  // -------------------------------------------------------------------------------------

  /** The general step: the blocks from i to j are replaced by mid; the free list and the
      counters follow. */
  lemma EditOk(h: Heap, L: Layout, i: nat, j: nat, mid: seq<Block>, h': Heap)
    requires HeapOk(h, L) && Replaces(h.blocks, L, i, j, mid)
    requires h' == h.(blocks := Edit(h.blocks, i, j, mid), free := h'.free, available := h'.available, maxUsed := h'.maxUsed)
    requires var e := h.blocks[j + 1];
             && h'.available == h.available + FreeSum(mid + [e], L.header) - FreeSum(Window(h.blocks, i, j), L.header)
             && h'.pool - h'.available <= h'.maxUsed
             && FreeListed(h'.free, Outside(h.blocks, L.header, i, j) + Items(mid + [e], L.header))
    ensures HeapOk(h', L)
  {
    EditBlocksOk(h.blocks, L, i, j, mid);
    EditSums(h.blocks, L.header, i, j, mid);
  }

  lemma HeapSpaced(h: Heap, L: Layout)
    requires HeapOk(h, L)
    ensures BlocksOk(h.blocks, L) && L.Valid() && Spaced(h.blocks, L.header) && h.pool - h.available <= h.maxUsed
    ensures FreeListed(h.free, Items(h.blocks, L.header)) && h.available == FreeSum(h.blocks, L.header)
  {
  }

  lemma NextTo(h: Heap, L: Layout, i: nat)
    requires HeapOk(h, L) && i + 1 < |h.blocks|
    ensures h.blocks[i].addr + L.header <= h.blocks[i + 1].addr
    ensures h.blocks[|h.blocks| - 1].used && (h.blocks[i].used || h.blocks[i + 1].used)
  {
  }

  lemma DropFree(free: seq<int>, rest: set<Item>, it: Item)
    requires FreeListed(free, rest + {it}) && !it.used && forall r :: r in rest ==> r.addr != it.addr
    ensures FreeListed(Without(free, it.addr), rest)
  {
    WithoutDistinct(free, it.addr);
  }

  lemma AddFree(free: seq<int>, rest: set<Item>, it: Item)
    requires FreeListed(free, rest) && !it.used && forall r :: r in rest ==> r.addr != it.addr
    ensures FreeListed([it.addr] + free, rest + {it})
  {
    DistinctCons(it.addr, free);
    assert it in rest + {it};
  }

  lemma AddUsed(free: seq<int>, rest: set<Item>, it: Item)
    requires FreeListed(free, rest) && it.used
    ensures FreeListed(free, rest + {it})
  {
  }

  /** A free block of a heap is in the free list at its index, and the other way round. */
  lemma FreeBlock(h: Heap, L: Layout, i: nat)
    requires HeapOk(h, L) && i + 1 < |h.blocks|
    ensures h.blocks[i].addr in h.free <==> !h.blocks[i].used
  {
    ItemAt(h.blocks, L.header, i);
    if h.blocks[i].addr in h.free {
      var it :| it in Items(h.blocks, L.header) && it.addr == h.blocks[i].addr && !it.used;
      var k := ItemIndex(h.blocks, L.header, it);
      IndexUnique(h.blocks, L.header, i, k);
    }
  }

  // -------------------------------------------------------------------------------------
  // rt_memheap_alloc
  // -------------------------------------------------------------------------------------

  /** MEMITEM_SIZE of the block at an address. */
  function SizeAt(bs: seq<Block>, header: nat, a: int): int {
    var i := IndexOf(bs, a);
    if i + 1 < |bs| then Size(bs, header, i) else -1
  }

  /** The search of the free list: the position of the first block that is large enough. */
  function FirstFit(bs: seq<Block>, header: nat, free: seq<int>, size: int): (k: nat)
    ensures k <= |free|
    ensures forall m :: 0 <= m < k ==> SizeAt(bs, header, free[m]) < size
    ensures k < |free| ==> SizeAt(bs, header, free[k]) >= size
  {
    if free == [] then 0
    else if SizeAt(bs, header, free[0]) >= size then 0
    else 1 + FirstFit(bs, header, free[1..], size)
  }

  /** The free block i goes to the caller, its tail end back to the free list if it is worth a
      block of its own. */
  function TakeBlock(h: Heap, L: Layout, i: nat, size: int): Heap
    requires i + 1 < |h.blocks|
  {
    var a, n := h.blocks[i].addr, Size(h.blocks, L.header, i);
    if Splits(L, n, size) then
      var b := a + size + L.header;
      h.(blocks := Edit(h.blocks, i, i, [Block(a, true), Block(b, false)]), free := [b] + Without(h.free, a))
       .Spend(size + L.header)
    else
      h.(blocks := Edit(h.blocks, i, i, [Block(a, true)]), free := Without(h.free, a)).Spend(n)
  }

  /** The address is that of the block's header. */
  function Alloc(h: Heap, L: Layout, request: nat): (Heap, Option<int>)
    requires L.align > 0
  {
    var size := L.Round(request);
    if size < h.available then
      var k := FirstFit(h.blocks, L.header, h.free, size);
      if k < |h.free| then
        var i := IndexOf(h.blocks, h.free[k]);
        if i + 1 < |h.blocks| then (TakeBlock(h, L, i, size), Some(h.free[k])) else (h, None)
      else (h, None)
    else (h, None)
  }

  lemma AllocRounded(h: Heap, L: Layout, n: nat)
    requires L.Valid()
    ensures Alloc(h, L, L.Round(n)) == Alloc(h, L, n)
  {
    hide FirstFit, TakeBlock, IndexOf;
    RoundTwice(L, n);
  }

  /** h' is h with `size` bytes or the whole of block i given to a caller: the only part of
      the pool that changed hands, so no other payload is touched. */
  ghost predicate Took(h: Heap, h': Heap, L: Layout, i: nat, size: int) {
    && i + 1 < |h.blocks| && size <= Size(h.blocks, L.header, i)
    && var a, n, rest := h.blocks[i].addr, Size(h.blocks, L.header, i), Outside(h.blocks, L.header, i, i);
       && Items(h.blocks, L.header) == rest + {Item(a, n, false)}
       && Items(h'.blocks, L.header) ==
            if Splits(L, n, size) then rest + {Item(a, size, true), Item(a + size + L.header, n - size - L.header, false)}
            else rest + {Item(a, n, true)}
  }

  /** Allocating from a block that fits keeps the heap in order. */
  lemma TakeBlockOk(h: Heap, L: Layout, i: nat, size: int)
    requires HeapOk(h, L) && i + 1 < |h.blocks| && !h.blocks[i].used
    requires 0 < size <= Size(h.blocks, L.header, i) && Multiple(size, L.align)
    ensures HeapOk(TakeBlock(h, L, i, size), L) && Took(h, TakeBlock(h, L, i, size), L, i, size)
  {
    hide HeapOk, BlocksOk, Multiple, TakeBlock, Items, Outside;
    if Splits(L, Size(h.blocks, L.header, i), size) {
      SplitSums(h, L, i, size);
      TakeSplit(h, L, i, size);
    } else {
      TakeWhole(h, L, i, size);
    }
  }

  lemma SplitSums(h: Heap, L: Layout, i: nat, size: int)
    requires i + 1 < |h.blocks| && !h.blocks[i].used && Splits(L, Size(h.blocks, L.header, i), size)
    ensures var h' := TakeBlock(h, L, i, size); var a, n := h.blocks[i].addr, Size(h.blocks, L.header, i);
            var rest := Outside(h.blocks, L.header, i, i);
            && Items(h.blocks, L.header) == rest + {Item(a, n, false)}
            && Items(h'.blocks, L.header) == rest + {Item(a, size, true), Item(a + size + L.header, n - size - L.header, false)}
  {
    var a := h.blocks[i].addr;
    var mid := [Block(a, true), Block(a + size + L.header, false)];
    OneWindow(h.blocks, L.header, i);
    TwoWindow(mid[0], mid[1], h.blocks[i + 1], L.header);
    EditSums(h.blocks, L.header, i, i, mid);
  }

  lemma TakeSplit(h: Heap, L: Layout, i: nat, size: int)
    requires HeapOk(h, L) && i + 1 < |h.blocks| && !h.blocks[i].used
    requires 0 < size && Splits(L, Size(h.blocks, L.header, i), size) && Multiple(size, L.align)
    ensures HeapOk(TakeBlock(h, L, i, size), L)
  {
    hide HeapOk, BlocksOk, FreeListed, FreeSum, Items, Outside, Replaces, Window, Edit, Spaced, Multiple;
    HeapSpaced(h, L);
    var a := h.blocks[i].addr;
    var mid := [Block(a, true), Block(a + size + L.header, false)];
    OneWindow(h.blocks, L.header, i);
    TwoWindow(mid[0], mid[1], h.blocks[i + 1], L.header);
    SplitFits(h.blocks, L, i, size);
    SplitFree(h, L, i, size);
    EditOk(h, L, i, i, mid, TakeBlock(h, L, i, size));
  }

  lemma SplitPair(bs: seq<Block>, L: Layout, i: nat, size: int)
    requires i + 1 < |bs|
    ensures var a := bs[i].addr; var b := a + size + L.header;
            Items([Block(a, true), Block(b, false)] + [bs[i + 1]], L.header)
            == {Item(a, size, true), Item(b, Size(bs, L.header, i) - size - L.header, false)}
  {
    var a := bs[i].addr;
    TwoWindow(Block(a, true), Block(a + size + L.header, false), bs[i + 1], L.header);
  }

  lemma SplitFree(h: Heap, L: Layout, i: nat, size: int)
    requires FreeListed(h.free, Items(h.blocks, L.header)) && Spaced(h.blocks, L.header) && L.header > 0
    requires i + 1 < |h.blocks| && !h.blocks[i].used
    requires 0 < size && Splits(L, Size(h.blocks, L.header, i), size)
    ensures var a := h.blocks[i].addr; var b := a + size + L.header;
            FreeListed([b] + Without(h.free, a),
                       Outside(h.blocks, L.header, i, i) + Items([Block(a, true), Block(b, false)] + [h.blocks[i + 1]], L.header))
  {
    hide Spaced, FreeListed, Items, Outside, FreeSum, Edit, Window, TakeBlock;
    var a, n, rest := h.blocks[i].addr, Size(h.blocks, L.header, i), Outside(h.blocks, L.header, i, i);
    SplitSums(h, L, i, size);
    OutsideElsewhere(h.blocks, L.header, i, i, a);
    OutsideElsewhere(h.blocks, L.header, i, i, a + size + L.header);
    SplitPair(h.blocks, L, i, size);
    ReplaceFree(h.free, rest, Item(a, n, false), Item(a, size, true), Item(a + size + L.header, n - size - L.header, false));
  }

  /** A free block gives way to a used one and a new free one at the front of the list. */
  lemma ReplaceFree(free: seq<int>, rest: set<Item>, was: Item, used: Item, spare: Item)
    requires FreeListed(free, rest + {was}) && !was.used && used.used && !spare.used && used.addr != spare.addr
    requires forall r :: r in rest ==> r.addr != was.addr && r.addr != spare.addr
    ensures FreeListed([spare.addr] + Without(free, was.addr), rest + {used, spare})
  {
    DropFree(free, rest, was);
    AddUsed(Without(free, was.addr), rest, used);
    AddFree(Without(free, was.addr), rest + {used}, spare);
    assert rest + {used} + {spare} == rest + {used, spare};
  }

  lemma TakeWhole(h: Heap, L: Layout, i: nat, size: int)
    requires HeapOk(h, L) && i + 1 < |h.blocks| && !h.blocks[i].used
    requires !Splits(L, Size(h.blocks, L.header, i), size)
    ensures HeapOk(TakeBlock(h, L, i, size), L)
    ensures var h' := TakeBlock(h, L, i, size); var a, n := h.blocks[i].addr, Size(h.blocks, L.header, i);
            var rest := Outside(h.blocks, L.header, i, i);
            && Items(h.blocks, L.header) == rest + {Item(a, n, false)}
            && Items(h'.blocks, L.header) == rest + {Item(a, n, true)}
  {
    hide HeapOk, BlocksOk, FreeListed, FreeSum, Items, Multiple, Outside, Replaces, Edit, Spaced, Window;
    var a, n := h.blocks[i].addr, Size(h.blocks, L.header, i);
    var rest, e := Outside(h.blocks, L.header, i, i), h.blocks[i + 1];
    var mid := [Block(a, true)];
    HeapSpaced(h, L);
    NextTo(h, L, i);
    UsedFits(h.blocks, L, i);
    OneWindow(h.blocks, L.header, i);
    EditSums(h.blocks, L.header, i, i, mid);
    OnePair(mid[0], e, L.header);
    OutsideElsewhere(h.blocks, L.header, i, i, a);
    DropFree(h.free, rest, Item(a, n, false));
    AddUsed(Without(h.free, a), rest, Item(a, n, true));
    EditOk(h, L, i, i, mid, TakeBlock(h, L, i, size));
  }

  /** The blocks that can serve a request of `size` bytes. */
  ghost predicate Serves(it: Item, size: int) { !it.used && it.size >= size }

  lemma SizeAtItem(h: Heap, L: Layout, a: int) returns (i: nat)
    requires HeapOk(h, L) && a in h.free
    ensures i + 1 < |h.blocks| && h.blocks[i] == Block(a, false) && IndexOf(h.blocks, a) == i
    ensures SizeAt(h.blocks, L.header, a) == Size(h.blocks, L.header, i)
    ensures Item(a, Size(h.blocks, L.header, i), false) in Items(h.blocks, L.header)
  {
    var it :| it in Items(h.blocks, L.header) && it.addr == a && !it.used;
    i := ItemIndex(h.blocks, L.header, it);
    IndexUnique(h.blocks, L.header, i, IndexOf(h.blocks, a));
  }

  /** The block an allocation that succeeds takes. */
  lemma AllocPicks(h: Heap, L: Layout, request: nat) returns (i: nat)
    requires HeapOk(h, L) && Alloc(h, L, request).1.Some?
    ensures i + 1 < |h.blocks| && !h.blocks[i].used && L.Round(request) <= Size(h.blocks, L.header, i)
    ensures Alloc(h, L, request) == (TakeBlock(h, L, i, L.Round(request)), Some(h.blocks[i].addr))
  {
    var k := FirstFit(h.blocks, L.header, h.free, L.Round(request));
    assert h.free[k] in h.free;
    i := SizeAtItem(h, L, h.free[k]);
  }

  /** What an allocation that succeeds does: the heap stays in order, and the caller's block
      is the only part of the pool that changed hands. */
  lemma AllocTakes(h: Heap, L: Layout, request: nat) returns (i: nat)
    requires HeapOk(h, L) && Alloc(h, L, request).1.Some?
    ensures var (h', r) := Alloc(h, L, request);
            HeapOk(h', L) && Took(h, h', L, i, L.Round(request)) && r.value == h.blocks[i].addr
  {
    i := AllocPicks(h, L, request);
    RoundIsLeast(L, request, 0);
    hide HeapOk, BlocksOk, Took, Alloc, TakeBlock, Multiple, AlignUp;
    TakeBlockOk(h, L, i, L.Round(request));
  }

  /** An allocation fails exactly when the rounded size is not below the free total or no free
      block is large enough. */
  lemma AllocFailsIff(h: Heap, L: Layout, request: nat)
    requires HeapOk(h, L)
    ensures var (h', r) := Alloc(h, L, request); var size := L.Round(request);
            && (r == None <==> size >= h.available || forall it :: it in Items(h.blocks, L.header) ==> !Serves(it, size))
            && (r == None ==> h' == h)
  {
    var size := L.Round(request);
    if size < h.available {
      var k := FirstFit(h.blocks, L.header, h.free, size);
      if k < |h.free| {
        assert h.free[k] in h.free;
        var i := SizeAtItem(h, L, h.free[k]);
        assert Serves(Item(h.free[k], Size(h.blocks, L.header, i), false), size);
      } else {
        NothingServes(h, L, size);
      }
    }
  }

  lemma NothingServes(h: Heap, L: Layout, size: int)
    requires HeapOk(h, L) && FirstFit(h.blocks, L.header, h.free, size) == |h.free|
    ensures forall it :: it in Items(h.blocks, L.header) ==> !Serves(it, size)
  {
    forall it | it in Items(h.blocks, L.header) ensures !Serves(it, size) {
      if !it.used {
        var i := SizeAtItem(h, L, it.addr);
        var j := ItemIndex(h.blocks, L.header, it);
        IndexUnique(h.blocks, L.header, i, j);
        var m :| 0 <= m < |h.free| && h.free[m] == it.addr;
        assert SizeAt(h.blocks, L.header, h.free[m]) < size;
      }
    }
  }

  // -------------------------------------------------------------------------------------
  // rt_memheap_free
  // -------------------------------------------------------------------------------------

  /** Block i is given back, joined with its free neighbours. */
  function Free(h: Heap, L: Layout, i: nat): Heap
    requires Freeable(h.blocks, i)
  {
    var bs, lo, hi := h.blocks, Lo(h.blocks, i), Hi(h.blocks, i);
    var f := if hi > i then Without(h.free, bs[hi].addr) else h.free;
    h.(blocks := Edit(bs, lo, hi, [Block(bs[lo].addr, false)]),
       free := if lo < i then f else [bs[i].addr] + f,
       available := h.available + Size(bs, L.header, i) + (if lo < i then L.header else 0) + (if hi > i then L.header else 0))
  }

  /** The free block that comes of it. */
  function Merged(bs: seq<Block>, header: nat, i: nat): Item
    requires Freeable(bs, i)
  {
    var lo, hi := Lo(bs, i), Hi(bs, i);
    Item(bs[lo].addr, bs[hi + 1].addr - bs[lo].addr - header, false)
  }

  function LeftItem(bs: seq<Block>, header: nat, i: nat): set<Item>
    requires Freeable(bs, i)
  {
    var lo := Lo(bs, i);
    if lo < i then {Item(bs[lo].addr, Size(bs, header, lo), false)} else {}
  }

  function RightItem(bs: seq<Block>, header: nat, i: nat): set<Item>
    requires Freeable(bs, i)
  {
    var hi := Hi(bs, i);
    if hi > i then {Item(bs[hi].addr, Size(bs, header, hi), false)} else {}
  }

  lemma DropUsed(free: seq<int>, rest: set<Item>, it: Item)
    requires FreeListed(free, rest + {it}) && it.used
    ensures FreeListed(free, rest)
  {
    assert forall r :: r in rest ==> r in rest + {it};
  }

  lemma ResizeFree(free: seq<int>, rest: set<Item>, it: Item, size: int)
    requires FreeListed(free, rest + {it}) && !it.used
    ensures FreeListed(free, rest + {it.(size := size)})
  {
    assert it in rest + {it};
    forall a | a in free ensures exists r :: r in rest + {it.(size := size)} && r.addr == a && !r.used {
      var r :| r in rest + {it} && r.addr == a && !r.used;
      if r == it { assert it.(size := size) in rest + {it.(size := size)}; }
    }
  }

  /** The items and free bytes of the stretch a free replaces. */
  lemma FreeWindow(bs: seq<Block>, header: nat, i: nat)
    requires Freeable(bs, i)
    ensures var w := Window(bs, Lo(bs, i), Hi(bs, i));
            && Items(w, header) == LeftItem(bs, header, i) + {Item(bs[i].addr, Size(bs, header, i), true)} + RightItem(bs, header, i)
            && FreeSum(w, header) == (if Lo(bs, i) < i then Size(bs, header, i - 1) else 0)
                                     + (if Hi(bs, i) > i then Size(bs, header, i + 1) else 0)
  {
    hide Window, Items, FreeSum;
    var lo, hi := Lo(bs, i), Hi(bs, i);
    if lo < i && hi > i {
      ThreeBlocks(bs, i - 1);
      ThreeWindow(bs[i - 1], bs[i], bs[i + 1], bs[i + 2], header);
    } else if lo < i {
      TwoBlocks(bs, i - 1);
      TwoWindow(bs[i - 1], bs[i], bs[i + 1], header);
    } else if hi > i {
      TwoBlocks(bs, i);
      TwoWindow(bs[i], bs[i + 1], bs[i + 2], header);
    } else {
      OneWindow(bs, header, i);
    }
  }

  /** The free list after a free: the merged right neighbour is gone, and the block is entered
      unless its left neighbour, already listed, swallowed it. */
  lemma FreeFreeList(h: Heap, L: Layout, i: nat)
    requires FreeListed(h.free, Items(h.blocks, L.header)) && Spaced(h.blocks, L.header) && L.header > 0
    requires Freeable(h.blocks, i)
    ensures FreeListed(Free(h, L, i).free,
                       Outside(h.blocks, L.header, Lo(h.blocks, i), Hi(h.blocks, i)) + {Merged(h.blocks, L.header, i)})
  {
    hide FreeListed, Items, Outside, Window, FreeSum, Edit, Spaced;
    var bs, lo, hi := h.blocks, Lo(h.blocks, i), Hi(h.blocks, i);
    FreeWindow(bs, L.header, i);
    EditSums(bs, L.header, lo, hi, [bs[lo]]);
    var rest := Outside(bs, L.header, lo, hi);
    FreeApart(bs, L.header, i);
    FreeListMerge(h.free, rest, Item(bs[i].addr, Size(bs, L.header, i), true),
                  LeftItem(bs, L.header, i), RightItem(bs, L.header, i), Merged(bs, L.header, i));
  }

  lemma FreeApart(bs: seq<Block>, header: nat, i: nat)
    requires Spaced(bs, header) && header > 0 && Freeable(bs, i)
    ensures var lo, hi := Lo(bs, i), Hi(bs, i); bs[lo].addr <= bs[hi].addr && (lo < hi ==> bs[lo].addr < bs[hi].addr)
    ensures var lo, hi := Lo(bs, i), Hi(bs, i); forall r :: r in Outside(bs, header, lo, hi) ==> r.addr != bs[lo].addr && r.addr != bs[hi].addr
  {
    var lo, hi := Lo(bs, i), Hi(bs, i);
    assert bs[lo].addr < bs[lo + 1].addr;
    if lo + 1 < hi { assert bs[lo + 1].addr < bs[lo + 2].addr; }
    assert bs[hi].addr < bs[hi + 1].addr;
    OutsideElsewhere(bs, header, lo, hi, bs[lo].addr);
    OutsideElsewhere(bs, header, lo, hi, bs[hi].addr);
  }

  /** The same on items: `left` and `right` hold the free neighbours, if any. */
  lemma FreeListMerge(free: seq<int>, rest: set<Item>, a: Item, left: set<Item>, right: set<Item>, merged: Item)
    requires FreeListed(free, rest + (left + {a} + right)) && a.used && !merged.used
    requires left == {} || exists n :: left == {Item(merged.addr, n, false)}
    requires left == {} ==> merged.addr == a.addr
    requires right == {} || exists x, n :: right == {Item(x, n, false)} && x != merged.addr && (forall r :: r in rest ==> r.addr != x)
    requires forall r :: r in rest ==> r.addr != merged.addr
    ensures right == {} ==> FreeListed(if left == {} then [a.addr] + free else free, rest + {merged})
    ensures forall x, n :: right == {Item(x, n, false)} ==>
              FreeListed(if left == {} then [a.addr] + Without(free, x) else Without(free, x), rest + {merged})
  {
    var all := rest + left + right;
    assert rest + (left + {a} + right) == all + {a};
    DropUsed(free, all, a);
    if right == {} {
      assert all == rest + left;
      EnterMerged(free, rest, a.addr, left, merged);
    } else {
      var x, n :| right == {Item(x, n, false)};
      assert all == (rest + left) + {Item(x, n, false)};
      DropFree(free, rest + left, Item(x, n, false));
      EnterMerged(Without(free, x), rest, a.addr, left, merged);
    }
  }

  lemma EnterMerged(free: seq<int>, rest: set<Item>, a: int, left: set<Item>, merged: Item)
    requires FreeListed(free, rest + left) && !merged.used
    requires left == {} || exists n :: left == {Item(merged.addr, n, false)}
    requires left == {} ==> merged.addr == a
    requires forall r :: r in rest ==> r.addr != merged.addr
    ensures FreeListed(if left == {} then [a] + free else free, rest + {merged})
  {
    if left == {} {
      assert rest + left == rest;
      AddFree(free, rest, merged);
    } else {
      var n :| left == {Item(merged.addr, n, false)};
      ResizeFree(free, rest, Item(merged.addr, n, false), merged.size);
    }
  }

  /** Freeing changes the block set only in the freed block and its free neighbours, which
      become one free block. */
  lemma FreeItems(h: Heap, L: Layout, i: nat)
    requires Freeable(h.blocks, i)
    ensures var bs := h.blocks; var rest := Outside(bs, L.header, Lo(bs, i), Hi(bs, i));
            && Items(bs, L.header) == rest + (LeftItem(bs, L.header, i) + {Item(bs[i].addr, Size(bs, L.header, i), true)} + RightItem(bs, L.header, i))
            && Items(Free(h, L, i).blocks, L.header) == rest + {Merged(bs, L.header, i)}
  {
    hide FreeSum, Items, Outside, Window, Edit, LeftItem, RightItem;
    var bs, lo, hi := h.blocks, Lo(h.blocks, i), Hi(h.blocks, i);
    FreeWindow(bs, L.header, i);
    EditSums(bs, L.header, lo, hi, [Block(bs[lo].addr, false)]);
    OnePair(Block(bs[lo].addr, false), bs[hi + 1], L.header);
  }

  /** Freeing keeps the heap in order. */
  lemma FreeOk(h: Heap, L: Layout, i: nat)
    requires HeapOk(h, L) && Freeable(h.blocks, i)
    ensures HeapOk(Free(h, L, i), L)
  {
    hide HeapOk, BlocksOk, FreeListed, FreeSum, Items, Outside, Replaces, Window, Edit, LeftItem, RightItem, Spaced;
    var bs, lo, hi := h.blocks, Lo(h.blocks, i), Hi(h.blocks, i);
    HeapSpaced(h, L);
    NextTo(h, L, i);
    FreeWindow(bs, L.header, i);
    FreeBlocks(h.blocks, L, i);
    FreeFreeList(h, L, i);
    OnePair(Block(bs[lo].addr, false), bs[hi + 1], L.header);
    EditOk(h, L, lo, hi, [Block(bs[lo].addr, false)], Free(h, L, i));
  }

  // -------------------------------------------------------------------------------------
  // rt_memheap_realloc, in place
  // -------------------------------------------------------------------------------------

  /** Block i gets `size` bytes; what is left of it and of its free right neighbour is the new
      free block.  Serves both growing into the neighbour and shrinking next to one. */
  function ResizeIntoNext(h: Heap, L: Layout, i: nat, size: int): Heap
    requires i + 2 < |h.blocks|
  {
    var a, had, next := h.blocks[i].addr, Size(h.blocks, L.header, i), h.blocks[i + 1].addr;
    var b := a + size + L.header;
    h.(blocks := Edit(h.blocks, i, i + 1, [Block(a, true), Block(b, false)]), free := [b] + Without(h.free, next))
     .Spend(size - had)
  }

  /** Block i is cut to `size` bytes and its tail freed. */
  function ShrinkAlone(h: Heap, L: Layout, i: nat, size: int): Heap
    requires i + 1 < |h.blocks|
  {
    var a, had := h.blocks[i].addr, Size(h.blocks, L.header, i);
    var b := a + size + L.header;
    h.(blocks := Edit(h.blocks, i, i, [Block(a, true), Block(b, false)]), free := [b] + h.free,
       available := h.available + (had - size - L.header))
  }

  /** Block i has `size` bytes now, the rest up to the block after j is one free block, and no
      other block changed. */
  ghost predicate Resized(h: Heap, h': Heap, L: Layout, i: nat, j: nat, size: int) {
    && i <= j < |h.blocks| - 1
    && var a, rest := h.blocks[i].addr, Outside(h.blocks, L.header, i, j);
       && Items(h.blocks, L.header) == rest + Items(Window(h.blocks, i, j), L.header)
       && Items(h'.blocks, L.header) ==
            rest + {Item(a, size, true), Item(a + size + L.header, h.blocks[j + 1].addr - a - size - 2 * L.header, false)}
  }

  lemma ResizeItems(h: Heap, h': Heap, L: Layout, i: nat, j: nat, size: int)
    requires i <= j < |h.blocks| - 1
    requires h'.blocks == Edit(h.blocks, i, j, [Block(h.blocks[i].addr, true), Block(h.blocks[i].addr + size + L.header, false)])
    ensures Resized(h, h', L, i, j, size)
  {
    hide Outside, Window, Edit, FreeSum, Items;
    var a := h.blocks[i].addr;
    EditSums(h.blocks, L.header, i, j, [Block(a, true), Block(a + size + L.header, false)]);
    TwoWindow(Block(a, true), Block(a + size + L.header, false), h.blocks[j + 1], L.header);
  }

  lemma ResizePair(a: int, size: int, e: Block, header: nat)
    ensures var w := [Block(a, true), Block(a + size + header, false)] + [e];
            && Items(w, header) == {Item(a, size, true), Item(a + size + header, e.addr - a - size - 2 * header, false)}
            && FreeSum(w, header) == e.addr - a - size - 2 * header
  {
    TwoWindow(Block(a, true), Block(a + size + header, false), e, header);
  }

  lemma ShrinkAloneFree(h: Heap, L: Layout, i: nat, size: int)
    requires FreeListed(h.free, Items(h.blocks, L.header)) && Spaced(h.blocks, L.header) && L.header > 0
    requires i + 1 < |h.blocks| && h.blocks[i].used && 0 < size < Size(h.blocks, L.header, i) - L.header
    ensures FreeListed(ShrinkAlone(h, L, i, size).free,
                       Outside(h.blocks, L.header, i, i) + {Item(h.blocks[i].addr, size, true),
                         Item(h.blocks[i].addr + size + L.header, h.blocks[i + 1].addr - h.blocks[i].addr - size - 2 * L.header, false)})
  {
    hide Spaced, FreeListed, Items, Outside, FreeSum, Edit, Window;
    var a, rest := h.blocks[i].addr, Outside(h.blocks, L.header, i, i);
    var used, spare := Item(a, size, true), Item(a + size + L.header, h.blocks[i + 1].addr - a - size - 2 * L.header, false);
    EditSums(h.blocks, L.header, i, i, [h.blocks[i]]);
    OneWindow(h.blocks, L.header, i);
    OutsideElsewhere(h.blocks, L.header, i, i, spare.addr);
    DropUsed(h.free, rest, Item(a, Size(h.blocks, L.header, i), true));
    AddUsed(h.free, rest, used);
    AddFree(h.free, rest + {used}, spare);
    assert rest + {used} + {spare} == rest + {used, spare};
  }

  lemma ResizeIntoNextFree(h: Heap, L: Layout, i: nat, size: int)
    requires FreeListed(h.free, Items(h.blocks, L.header)) && Spaced(h.blocks, L.header) && L.header > 0
    requires i + 2 < |h.blocks| && h.blocks[i].used && !h.blocks[i + 1].used && 0 < size
    requires h.blocks[i].addr + size + 2 * L.header <= h.blocks[i + 2].addr
    ensures FreeListed(ResizeIntoNext(h, L, i, size).free,
                       Outside(h.blocks, L.header, i, i + 1) + {Item(h.blocks[i].addr, size, true),
                         Item(h.blocks[i].addr + size + L.header, h.blocks[i + 2].addr - h.blocks[i].addr - size - 2 * L.header, false)})
  {
    hide FreeListed, Items, Outside, FreeSum, Edit;
    var a, next, rest := h.blocks[i].addr, h.blocks[i + 1].addr, Outside(h.blocks, L.header, i, i + 1);
    assert a < next < h.blocks[i + 2].addr;
    hide Spaced;
    var used, spare := Item(a, size, true), Item(a + size + L.header, h.blocks[i + 2].addr - a - size - 2 * L.header, false);
    OutsideElsewhere(h.blocks, L.header, i, i + 1, spare.addr);
    OutsideElsewhere(h.blocks, L.header, i, i + 1, next);
    var was, gone := Item(a, Size(h.blocks, L.header, i), true), Item(next, Size(h.blocks, L.header, i + 1), false);
    PairItems(h.blocks, L.header, i);
    assert rest + {was, gone} == (rest + {gone}) + {was};
    DropUsed(h.free, rest + {gone}, was);
    ReplaceFree(h.free, rest, gone, used, spare);
  }

  lemma PairSum(bs: seq<Block>, header: nat, i: nat)
    requires i + 2 < |bs|
    ensures FreeSum(Window(bs, i, i + 1), header) ==
            (if bs[i].used then 0 else Size(bs, header, i)) + (if bs[i + 1].used then 0 else Size(bs, header, i + 1))
  {
    TwoBlocks(bs, i);
    TwoWindow(bs[i], bs[i + 1], bs[i + 2], header);
  }

  /** A resize within the blocks from i to j keeps the heap in order: what is asked of the
      counters and of the free list. */
  lemma ResizeOk(h: Heap, L: Layout, i: nat, j: nat, size: int, h': Heap)
    requires HeapOk(h, L) && ResizeRoom(h.blocks, L, i, j, size)
    requires var a := h.blocks[i].addr;
             h' == h.(blocks := Edit(h.blocks, i, j, [Block(a, true), Block(a + size + L.header, false)]),
                      free := h'.free, available := h'.available, maxUsed := h'.maxUsed)
    requires var left := h.blocks[j + 1].addr - h.blocks[i].addr - size - 2 * L.header;
             && h'.available == h.available + left - FreeSum(Window(h.blocks, i, j), L.header)
             && h'.pool - h'.available <= h'.maxUsed
             && FreeListed(h'.free, Outside(h.blocks, L.header, i, j)
                  + {Item(h.blocks[i].addr, size, true), Item(h.blocks[i].addr + size + L.header, left, false)})
    ensures HeapOk(h', L)
  {
    hide HeapOk, BlocksOk, FreeListed, Items, Outside, FreeSum, Edit, Window, Spaced, Replaces, Multiple;
    var a := h.blocks[i].addr;
    HeapSpaced(h, L);
    ResizeFits(h.blocks, L, i, j, size);
    ResizePair(a, size, h.blocks[j + 1], L.header);
    EditOk(h, L, i, j, [Block(a, true), Block(a + size + L.header, false)], h');
  }

  lemma ShrinkAloneOk(h: Heap, L: Layout, i: nat, size: int)
    requires HeapOk(h, L) && Freeable(h.blocks, i) && h.blocks[i + 1].used
    requires 0 < size < Size(h.blocks, L.header, i) - L.header && Multiple(size, L.align)
    ensures HeapOk(ShrinkAlone(h, L, i, size), L)
  {
    hide HeapOk, BlocksOk, FreeListed, Items, Outside, FreeSum, Edit, Window, Spaced, Multiple;
    HeapSpaced(h, L);
    ShrinkAloneFree(h, L, i, size);
    OneWindow(h.blocks, L.header, i);
    ResizeOk(h, L, i, i, size, ShrinkAlone(h, L, i, size));
  }

  lemma ResizeIntoNextOk(h: Heap, L: Layout, i: nat, size: int)
    requires HeapOk(h, L) && ResizeRoom(h.blocks, L, i, i + 1, size) && h.blocks[i].used && !h.blocks[i + 1].used
    ensures HeapOk(ResizeIntoNext(h, L, i, size), L)
  {
    hide HeapOk, BlocksOk, FreeListed, Items, Outside, FreeSum, Edit, Spaced, Multiple, Window;
    HeapSpaced(h, L);
    PairSum(h.blocks, L.header, i);
    ResizeIntoNextFree(h, L, i, size);
    ResizeOk(h, L, i, i + 1, size, ResizeIntoNext(h, L, i, size));
  }

  // -------------------------------------------------------------------------------------
  // rt_memheap_realloc
  // -------------------------------------------------------------------------------------

  /** Whether block i can grow in place, into a free right neighbour. */
  predicate Grows(h: Heap, L: Layout, i: nat, size: int)
    requires Freeable(h.blocks, i)
  {
    !h.blocks[i + 1].used && i + 2 < |h.blocks| && Size(h.blocks, L.header, i + 1) + Size(h.blocks, L.header, i) > size + L.mini
  }

  /** Reallocating block i; the result is the address of the header of the block that holds
      the contents now. */
  function Realloc(h: Heap, L: Layout, i: nat, request: nat): (Heap, Option<int>)
    requires HeapOk(h, L) && Freeable(h.blocks, i)
  {
    var a, had, size := h.blocks[i].addr, Size(h.blocks, L.header, i), L.Round(request);
    if request == 0 then (Free(h, L, i), None)
    else if size > had then
      if Grows(h, L, i, size) then (ResizeIntoNext(h, L, i, size), Some(a)) else Move(h, L, i, size)
    else if size + L.header + L.mini >= had then (h, Some(a))
    else if !h.blocks[i + 1].used then (ResizeIntoNext(h, L, i, size), Some(a))
    else (ShrinkAlone(h, L, i, size), Some(a))
  }

  /** A new block is taken and the old one freed. */
  function Move(h: Heap, L: Layout, i: nat, size: nat): (Heap, Option<int>)
    requires HeapOk(h, L) && Freeable(h.blocks, i)
  {
    var (h1, r) := Alloc(h, L, size);
    if r == None then (h, None)
    else
      OldBlockStays(h, L, i, size);
      (Free(h1, L, IndexOf(h1.blocks, h.blocks[i].addr)), r)
  }

  /** Allocating moves a used block in the list at most, and leaves its size. */
  lemma OldBlockStays(h: Heap, L: Layout, i: nat, request: nat)
    requires HeapOk(h, L) && Freeable(h.blocks, i) && Alloc(h, L, request).1.Some?
    ensures var (h1, r) := Alloc(h, L, request); var i1 := IndexOf(h1.blocks, h.blocks[i].addr);
            HeapOk(h1, L) && Freeable(h1.blocks, i1) && Size(h1.blocks, L.header, i1) == Size(h.blocks, L.header, i)
    ensures Alloc(h, L, request).1.value != h.blocks[i].addr
  {
    HeapSpaced(h, L);
    hide HeapOk, BlocksOk, Alloc, Items, Spaced, Outside;
    var (h1, r) := Alloc(h, L, request);
    var t := AllocTakes(h, L, request);
    var it := Item(h.blocks[i].addr, Size(h.blocks, L.header, i), true);
    ItemAt(h.blocks, L.header, i);
    StaysIndexed(h, h1, L, t, L.Round(request), it);
    if r.value == h.blocks[i].addr {
      IndexUnique(h.blocks, L.header, t, i);
      TookFree(h, h1, L, t, L.Round(request));
    }
  }

  lemma TookFree(h: Heap, h1: Heap, L: Layout, t: nat, size: int)
    requires HeapOk(h, L) && Took(h, h1, L, t, size)
    ensures !h.blocks[t].used
  {
    var it := Item(h.blocks[t].addr, Size(h.blocks, L.header, t), false);
    assert it in Items(h.blocks, L.header);
    var j := ItemIndex(h.blocks, L.header, it);
    IndexUnique(h.blocks, L.header, t, j);
  }

  lemma StaysIndexed(h: Heap, h1: Heap, L: Layout, t: nat, size: int, it: Item)
    requires HeapOk(h1, L) && Took(h, h1, L, t, size) && it in Items(h.blocks, L.header) && it.used
    ensures var i1 := IndexOf(h1.blocks, it.addr);
            Freeable(h1.blocks, i1) && Size(h1.blocks, L.header, i1) == it.size
  {
    assert it in Items(h1.blocks, L.header);
    var j := ItemIndex(h1.blocks, L.header, it);
    IndexUnique(h1.blocks, L.header, j, IndexOf(h1.blocks, it.addr));
  }

  lemma GrowRoom(h: Heap, L: Layout, i: nat, size: int)
    requires HeapOk(h, L) && Freeable(h.blocks, i) && !h.blocks[i + 1].used && Multiple(size, L.align) && 0 < size
    requires size <= Size(h.blocks, L.header, i) || Grows(h, L, i, size)
    ensures ResizeRoom(h.blocks, L, i, i + 1, size)
  {
    assert h.blocks[i + 1].used || h.blocks[i + 2].used;
    assert h.blocks[i + 1].addr + L.header <= h.blocks[i + 2].addr;
  }

  /** A reallocation fails exactly if it asks for nothing, or for more than the block has while the
      next block does not give enough and there is no memory for a new one. */
  lemma ReallocFailsIff(h: Heap, L: Layout, i: nat, request: nat)
    requires HeapOk(h, L) && Freeable(h.blocks, i)
    ensures L.align > 0
    ensures var (h', r) := Realloc(h, L, i, request);
            var size := L.Round(request);
            && (r == None <==>
                  || request == 0
                  || (size > Size(h.blocks, L.header, i) && !Grows(h, L, i, size)
                      && (size >= h.available || forall it :: it in Items(h.blocks, L.header) ==> !Serves(it, size))))
            && (r == None && request > 0 ==> h' == h)
  {
    hide HeapOk, BlocksOk, Alloc, ResizeIntoNext, ShrinkAlone, Free, Items;
    HeapSpaced(h, L);
    AllocRounded(h, L, request);
    AllocFailsIff(h, L, request);
  }

  /** Reallocating keeps the heap in order. */
  lemma ReallocOk(h: Heap, L: Layout, i: nat, request: nat)
    requires HeapOk(h, L) && Freeable(h.blocks, i)
    ensures HeapOk(Realloc(h, L, i, request).0, L)
  {
    var had, size := Size(h.blocks, L.header, i), L.Round(request);
    RoundIsLeast(L, request, 0);
    hide HeapOk, BlocksOk, Spaced, FreeListed, Items, Outside, ResizeRoom, ResizeIntoNext, ShrinkAlone, Free, Multiple, Alloc;
    if request == 0 {
      FreeOk(h, L, i);
    } else if size > had && !Grows(h, L, i, size) {
      if Alloc(h, L, size).1.Some? {
        OldBlockStays(h, L, i, size);
        var h1 := Alloc(h, L, size).0;
        FreeOk(h1, L, IndexOf(h1.blocks, h.blocks[i].addr));
      }
    } else if !h.blocks[i + 1].used {
      GrowRoom(h, L, i, size);
      ResizeIntoNextOk(h, L, i, size);
    } else if size + L.header + L.mini < had {
      ShrinkAloneOk(h, L, i, size);
    }
  }

  /** Freeing leaves every other used block as it is. */
  lemma FreeOthers(h: Heap, L: Layout, i: nat, it: Item)
    requires HeapOk(h, L) && Freeable(h.blocks, i) && it in Items(h.blocks, L.header) && it.used && it.addr != h.blocks[i].addr
    ensures it in Items(Free(h, L, i).blocks, L.header)
  {
    hide HeapOk, BlocksOk, Items, Outside, Free;
    FreeItems(h, L, i);
  }

  lemma ResizeIntoNextOthers(h: Heap, L: Layout, i: nat, size: int, it: Item)
    requires i + 2 < |h.blocks| && !h.blocks[i + 1].used && it in Items(h.blocks, L.header) && it.used && it.addr != h.blocks[i].addr
    ensures it in Items(ResizeIntoNext(h, L, i, size).blocks, L.header)
    ensures Item(h.blocks[i].addr, size, true) in Items(ResizeIntoNext(h, L, i, size).blocks, L.header)
  {
    hide Items, Outside, Edit, Window;
    PairItems(h.blocks, L.header, i);
    ResizeItems(h, ResizeIntoNext(h, L, i, size), L, i, i + 1, size);
  }

  lemma ShrinkAloneOthers(h: Heap, L: Layout, i: nat, size: int, it: Item)
    requires i + 1 < |h.blocks| && it in Items(h.blocks, L.header) && it.addr != h.blocks[i].addr
    ensures it in Items(ShrinkAlone(h, L, i, size).blocks, L.header)
  {
    hide Items, Outside, Edit, Window;
    WindowItems(h.blocks, L.header, i, i);
    OneWindow(h.blocks, L.header, i);
    ResizeItems(h, ShrinkAlone(h, L, i, size), L, i, i, size);
  }

  lemma MoveOthers(h: Heap, L: Layout, i: nat, size: nat, it: Item)
    requires HeapOk(h, L) && Freeable(h.blocks, i) && it in Items(h.blocks, L.header) && it.used && it.addr != h.blocks[i].addr
    ensures it in Items(Move(h, L, i, size).0.blocks, L.header)
  {
    hide HeapOk, BlocksOk, Items, Outside, Free, Alloc;
    HeapSpaced(h, L);
    if Alloc(h, L, size).1.Some? {
      OldBlockStays(h, L, i, size);
      var t := AllocTakes(h, L, size);
      var h1 := Alloc(h, L, size).0;
      FreeOthers(h1, L, IndexOf(h1.blocks, h.blocks[i].addr), it);
    }
  }

  /** Reallocating leaves every other used block as it is. */
  lemma ReallocOthers(h: Heap, L: Layout, i: nat, request: nat, it: Item)
    requires HeapOk(h, L) && Freeable(h.blocks, i) && it in Items(h.blocks, L.header) && it.used && it.addr != h.blocks[i].addr
    ensures it in Items(Realloc(h, L, i, request).0.blocks, L.header)
  {
    hide HeapOk, BlocksOk, Items, ResizeIntoNext, ShrinkAlone, Free, Move, AlignUp;
    HeapSpaced(h, L);
    var had, size := Size(h.blocks, L.header, i), L.Round(request);
    if request == 0 {
      FreeOthers(h, L, i, it);
    } else if size > had && !Grows(h, L, i, size) {
      MoveOthers(h, L, i, size, it);
    } else if !h.blocks[i + 1].used {
      NextTo(h, L, i + 1);
      ResizeIntoNextOthers(h, L, i, size, it);
    } else {
      ShrinkAloneOthers(h, L, i, size, it);
    }
  }

  // -------------------------------------------------------------------------------------
  // Round trips and runs
  // -------------------------------------------------------------------------------------

  /** Allocating and then freeing the result restores the blocks and the count of free bytes. */
  lemma AllocThenFree(h: Heap, L: Layout, request: nat)
    requires HeapOk(h, L) && Alloc(h, L, request).1.Some?
    ensures var (h1, r) := Alloc(h, L, request); var i := IndexOf(h1.blocks, r.value);
            && Freeable(h1.blocks, i)
            && Free(h1, L, i).blocks == h.blocks && Free(h1, L, i).available == h.available
  {
    var (h1, r) := Alloc(h, L, request);
    var size := L.Round(request);
    var i := AllocPicks(h, L, request);
    TakeBlockThenFree(h, L, i, size);
    var _ := AllocTakes(h, L, request);
    IndexUnique(h1.blocks, L.header, i, IndexOf(h1.blocks, r.value));
  }

  lemma TakeBlockThenFree(h: Heap, L: Layout, i: nat, size: int)
    requires Coalesced(h.blocks) && i + 1 < |h.blocks| && !h.blocks[i].used && h.blocks[|h.blocks| - 1].used
    ensures var h1 := TakeBlock(h, L, i, size);
            && Freeable(h1.blocks, i) && h1.blocks[i].addr == h.blocks[i].addr
            && Free(h1, L, i).blocks == h.blocks && Free(h1, L, i).available == h.available
  {
    var bs, a, h1 := h.blocks, h.blocks[i].addr, TakeBlock(h, L, i, size);
    assert bs[i + 1].used && (i > 0 ==> bs[i - 1].used);
    hide Edit, Coalesced, Without, Free, Freeable;
    if Splits(L, Size(bs, L.header, i), size) {
      FreeEdited(h1, L, bs, i, [Block(a, true), Block(a + size + L.header, false)]);
    } else {
      FreeEdited(h1, L, bs, i, [Block(a, true)]);
    }
  }

  lemma FreeEdited(h1: Heap, L: Layout, bs: seq<Block>, i: nat, mid: seq<Block>)
    requires i + 1 < |bs| && !bs[i].used && bs[i + 1].used && (i > 0 ==> bs[i - 1].used) && bs[|bs| - 1].used
    requires h1.blocks == Edit(bs, i, i, mid) && 1 <= |mid| <= 2 && mid[0] == Block(bs[i].addr, true) && (|mid| == 2 ==> !mid[1].used)
    ensures Freeable(h1.blocks, i) && h1.blocks[i] == mid[0] && Free(h1, L, i).blocks == bs
    ensures Free(h1, L, i).available == h1.available - bs[i].addr
              + (if |mid| == 2 then mid[1].addr else bs[i + 1].addr - L.header)
  {
    EditBack(bs, i, mid);
    hide Edit, Without;
    assert h1.blocks[i] == mid[0] && h1.blocks[i + |mid|] == bs[i + 1];
    assert |mid| == 2 ==> h1.blocks[i + 1] == mid[1];
    assert Lo(h1.blocks, i) == i && Hi(h1.blocks, i) == i + |mid| - 1;
    assert Block(bs[i].addr, false) == bs[i];
  }

  /** One call of the allocator; blocks are named by their address. */
  datatype Call = CallAlloc(size: nat) | CallFree(block: int) | CallRealloc(block: int, size: nat)

  /** The calls a client may make: it frees and reallocates blocks it holds. */
  ghost predicate Legal(h: Heap, c: Call) {
    !c.CallAlloc? ==> Freeable(h.blocks, IndexOf(h.blocks, c.block))
  }

  function Do(h: Heap, L: Layout, c: Call): Heap
    requires HeapOk(h, L) && Legal(h, c)
  {
    match c
    case CallAlloc(n) => Alloc(h, L, n).0
    case CallFree(a) => Free(h, L, IndexOf(h.blocks, a))
    case CallRealloc(a, n) => Realloc(h, L, IndexOf(h.blocks, a), n).0
  }

  lemma DoOk(h: Heap, L: Layout, c: Call)
    requires HeapOk(h, L) && Legal(h, c)
    ensures HeapOk(Do(h, L, c), L)
  {
    match c
    case CallAlloc(n) =>
      if Alloc(h, L, n).1.Some? {
        var _ := AllocTakes(h, L, n);
      } else {
        AllocFailsIff(h, L, n);
      }
    case CallFree(a) => FreeOk(h, L, IndexOf(h.blocks, a));
    case CallRealloc(a, n) => ReallocOk(h, L, IndexOf(h.blocks, a), n);
  }

  ghost predicate Step(h: Heap, L: Layout, c: Call, h': Heap) {
    HeapOk(h, L) ==> Legal(h, c) && h' == Do(h, L, c)
  }

  /** The states of a run of legal calls from a fresh heap. */
  ghost predicate Run(states: seq<Heap>, calls: seq<Call>, L: Layout, start: int, size: nat)
    requires L.align > 0
  {
    && |states| == |calls| + 1 && states[0] == Init(L, start, size)
    && forall k, k' :: 0 <= k < |calls| && k' == k + 1 ==> Step(states[k], L, calls[k], states[k'])
  }

  /** Every state of every run is in order. */
  lemma {:induction false} RunOk(states: seq<Heap>, calls: seq<Call>, L: Layout, start: int, size: nat, k: nat)
    requires L.Valid() && Multiple(start, L.align) && AlignDown(size, L.align) >= 2 * L.header
    requires Run(states, calls, L, start, size) && k <= |calls|
    ensures HeapOk(states[k], L)
  {
    if k == 0 {
      InitOk(L, start, size);
    } else {
      RunOk(states, calls, L, start, size, k - 1);
      hide HeapOk, BlocksOk, Legal, Do, Init;
      assert Step(states[k - 1], L, calls[k - 1], states[k]);
      DoOk(states[k - 1], L, calls[k - 1]);
    }
  }
}
