/** What the small-memory allocator does to the tiling of its heap and to its counters
    (rt-thread/src/mem.c).  Addresses are offsets from heap_ptr. */
module SmallSpec {
  import opened Alignment
  import opened BlockEdits
  import opened Lists
  import opened Tiling

  /** `total` is mem_size_aligned; the end stub is at total + header. */
  datatype Small = Small(total: int, blocks: seq<Block>, lfree: int, used: int, max: int) {
    function Charge(n: int): Small {
      this.(used := used + n, max := if max < used + n then used + n else max)
    }
  }

  /** Bytes in used blocks with their headers, the end stub left out. */
  function UsedSum(bs: seq<Block>): int {
    if |bs| < 2 then 0 else (if bs[0].used then bs[1].addr - bs[0].addr else 0) + UsedSum(bs[1..])
  }

  /** The first free block, or the end stub. */
  function FirstFree(bs: seq<Block>): (i: nat)
    requires bs != []
    ensures i < |bs| && (forall k :: 0 <= k < i ==> bs[k].used) && (i + 1 < |bs| ==> !bs[i].used)
  {
    if |bs| == 1 || !bs[0].used then 0 else
      assert forall k :: 1 <= k < |bs| ==> bs[k] == bs[1..][k - 1];
      1 + FirstFree(bs[1..])
  }

  /** The blocks tile the heap, the lowest-free pointer is the lowest free block or the end,
      and the count of used bytes is exact. */
  ghost predicate SmallOk(s: Small, L: Layout) {
    && BlocksOk(s.blocks, L) && s.blocks[0].addr == 0 && s.blocks[|s.blocks| - 1].addr == s.total + L.header
    && s.lfree == s.blocks[FirstFree(s.blocks)].addr
    && s.used == UsedSum(s.blocks) && s.used <= s.max
  }

  lemma FirstFreeUnique(bs: seq<Block>, i: nat)
    requires i < |bs| && (forall k :: 0 <= k < i ==> bs[k].used) && (i + 1 < |bs| ==> !bs[i].used)
    ensures FirstFree(bs) == i
  {
  }

  // -------------------------------------------------------------------------------------
  // Used bytes across an edit
  // -------------------------------------------------------------------------------------

  lemma {:induction false} UsedSplit(bs: seq<Block>, k: nat)
    requires k < |bs|
    ensures UsedSum(bs) == UsedSum(bs[..k + 1]) + UsedSum(bs[k..])
  {
    if k == 0 {
      assert bs[0..] == bs;
    } else {
      UsedSplit(bs[1..], k - 1);
      assert bs[1..][..k] == bs[..k + 1][1..];
      assert bs[1..][k - 1..] == bs[k..];
    }
  }

  lemma {:induction false} UsedLast(bs: seq<Block>, b: Block)
    requires bs != [] && b.addr == bs[|bs| - 1].addr
    ensures UsedSum(bs[|bs| - 1 := b]) == UsedSum(bs)
  {
    if |bs| >= 2 {
      UsedLast(bs[1..], b);
      assert bs[|bs| - 1 := b][1..] == bs[1..][|bs| - 2 := b];
    }
  }

  lemma EditUsed(bs: seq<Block>, i: nat, j: nat, mid: seq<Block>)
    requires i <= j < |bs| - 1 && mid != [] && mid[0].addr == bs[i].addr
    ensures UsedSum(Edit(bs, i, j, mid)) - UsedSum(mid + [bs[j + 1]]) == UsedSum(bs) - UsedSum(Window(bs, i, j))
  {
    hide Edit, Window, UsedSum;
    EditSlices(bs, i, j, mid);
    var bs' := Edit(bs, i, j, mid);
    UsedSplit(bs, i);
    UsedSplit(bs[i..], j + 1 - i);
    UsedSplit(bs', i);
    UsedSplit(bs'[i..], |mid|);
    UsedLast(bs[..i + 1], mid[0]);
  }

  lemma UsedOne(a: Block, e: Block)
    ensures UsedSum([a] + [e]) == if a.used then e.addr - a.addr else 0
  {
    assert ([a] + [e])[1..] == [e];
  }

  lemma UsedTwo(a: Block, b: Block, e: Block)
    ensures UsedSum([a, b] + [e]) == (if a.used then b.addr - a.addr else 0) + (if b.used then e.addr - b.addr else 0)
  {
    assert ([a, b] + [e])[1..] == [b] + [e];
    UsedOne(b, e);
  }

  lemma UsedThree(a: Block, b: Block, c: Block, e: Block)
    ensures UsedSum([a, b, c] + [e]) == (if a.used then b.addr - a.addr else 0) + (if b.used then c.addr - b.addr else 0)
                                        + (if c.used then e.addr - c.addr else 0)
  {
    assert ([a, b, c] + [e])[1..] == [b, c] + [e];
    UsedTwo(b, c, e);
  }

  // -------------------------------------------------------------------------------------
  // rt_smem_alloc
  // -------------------------------------------------------------------------------------

  predicate Fits(bs: seq<Block>, header: nat, i: nat, size: int)
    requires i + 1 < |bs|
  {
    !bs[i].used && Size(bs, header, i) >= size
  }

  /** First fit from the start of the heap; |bs| - 1 if nothing fits. */
  function FirstFit(bs: seq<Block>, header: nat, size: int): (i: nat)
    requires bs != []
    ensures i < |bs| && (i + 1 < |bs| ==> Fits(bs, header, i, size)) && forall k :: 0 <= k < i ==> !Fits(bs, header, k, size)
  {
    if |bs| == 1 || Fits(bs, header, 0, size) then 0 else
      assert forall k :: 1 <= k < |bs| - 1 ==> Fits(bs, header, k, size) == Fits(bs[1..], header, k - 1, size);
      1 + FirstFit(bs[1..], header, size)
  }

  function Relisted(s: Small): Small
    requires s.blocks != []
  {
    s.(lfree := s.blocks[FirstFree(s.blocks)].addr)
  }

  function TakeBlock(s: Small, L: Layout, i: nat, size: int): Small
    requires i + 1 < |s.blocks|
  {
    var a, n := s.blocks[i].addr, Size(s.blocks, L.header, i);
    var split := Splits(L, n, size);
    var mid := if split then [Block(a, true), Block(a + size + L.header, false)] else [Block(a, true)];
    Relisted(s.(blocks := Edit(s.blocks, i, i, mid)).Charge((if split then size else n) + L.header))
  }

  function Alloc(s: Small, L: Layout, request: nat): (Small, Option<int>)
    requires L.align > 0 && s.blocks != []
  {
    var size := L.Round(request);
    if request == 0 || size > s.total then (s, None) else
      var i := FirstFit(s.blocks, L.header, size);
      if i + 1 < |s.blocks| then (TakeBlock(s, L, i, size), Some(s.blocks[i].addr)) else (s, None)
  }

  lemma AllocAligned(s: Small, L: Layout, n: nat)
    requires L.Valid() && s.blocks != []
    ensures 0 <= AlignUp(n, L.align) && (AlignUp(n, L.align) == 0 <==> n == 0)
    ensures Alloc(s, L, AlignUp(n, L.align)) == Alloc(s, L, n)
  {
    hide Alloc, AlignUp, Multiple;
    RoundTwice(L, n);
    AlignUpIsLeast(n, L.align, 0);
    Zero(L.align);
    SameRequest(s, L, AlignUp(n, L.align), n);
  }

  lemma Zero(m: nat)
    requires m > 0
    ensures Multiple(0, m)
  {
    assert Times(0, m) == 0;
  }

  lemma SameRequest(s: Small, L: Layout, m: nat, n: nat)
    requires L.align > 0 && s.blocks != [] && L.Round(m) == L.Round(n) && (m == 0 <==> n == 0)
    ensures Alloc(s, L, m) == Alloc(s, L, n)
  {
    hide FirstFit, TakeBlock;
  }

  /** What an edit asks of the counter. */
  lemma SmallEditOk(s: Small, L: Layout, i: nat, j: nat, mid: seq<Block>, s': Small)
    requires SmallOk(s, L) && Replaces(s.blocks, L, i, j, mid)
    requires s' == Relisted(s.(blocks := Edit(s.blocks, i, j, mid), used := s'.used, max := s'.max))
    requires s'.used == s.used + UsedSum(mid + [s.blocks[j + 1]]) - UsedSum(Window(s.blocks, i, j)) && s'.used <= s'.max
    ensures SmallOk(s', L)
  {
    EditBlocksOk(s.blocks, L, i, j, mid);
    EditUsed(s.blocks, i, j, mid);
  }

  lemma SmallFacts(s: Small, L: Layout)
    requires SmallOk(s, L)
    ensures BlocksOk(s.blocks, L) && L.Valid() && |s.blocks| >= 2 && s.blocks[0].addr == 0 && Spaced(s.blocks, L.header)
    ensures s.blocks[|s.blocks| - 1] == Block(s.total + L.header, true)
    ensures s.used <= s.max && s.lfree == s.blocks[FirstFree(s.blocks)].addr
  {
  }

  lemma UsedWindow(bs: seq<Block>, i: nat)
    requires i + 1 < |bs|
    ensures UsedSum(Window(bs, i, i)) == if bs[i].used then bs[i + 1].addr - bs[i].addr else 0
  {
    assert Window(bs, i, i) == [bs[i]] + [bs[i + 1]];
    UsedOne(bs[i], bs[i + 1]);
  }

  /** Taking a block that fits keeps the heap in order. */
  lemma TakeOk(s: Small, L: Layout, i: nat, size: int)
    requires SmallOk(s, L) && i + 1 < |s.blocks| && Fits(s.blocks, L.header, i, size) && 0 < size && Multiple(size, L.align)
    ensures SmallOk(TakeBlock(s, L, i, size), L)
  {
    hide SmallOk, BlocksOk, UsedSum, Edit, Window, Spaced, Multiple, Replaces, FirstFree;
    SmallFacts(s, L);
    var a, e := s.blocks[i].addr, s.blocks[i + 1];
    UsedWindow(s.blocks, i);
    if Splits(L, Size(s.blocks, L.header, i), size) {
      SplitFits(s.blocks, L, i, size);
      UsedTwo(Block(a, true), Block(a + size + L.header, false), e);
      SmallEditOk(s, L, i, i, [Block(a, true), Block(a + size + L.header, false)], TakeBlock(s, L, i, size));
    } else {
      UsedFits(s.blocks, L, i);
      UsedOne(Block(a, true), e);
      SmallEditOk(s, L, i, i, [Block(a, true)], TakeBlock(s, L, i, size));
    }
  }

  /** Allocating keeps the heap in order, the lowest-free pointer and the counter included. */
  lemma AllocOk(s: Small, L: Layout, request: nat)
    requires SmallOk(s, L)
    ensures SmallOk(Alloc(s, L, request).0, L)
  {
    hide SmallOk, BlocksOk, Spaced, Multiple, TakeBlock, AlignUp;
    SmallFacts(s, L);
    RoundIsLeast(L, request, 0);
    var i, size := FirstFit(s.blocks, L.header, L.Round(request)), L.Round(request);
    if request > 0 && size <= s.total && i + 1 < |s.blocks| {
      TakeOk(s, L, i, size);
    }
  }

  /** An allocation fails exactly when it asks for nothing or no free block is large enough. */
  lemma AllocFailsIff(s: Small, L: Layout, request: nat)
    requires SmallOk(s, L)
    ensures var (s', r) := Alloc(s, L, request);
            && (r == None <==> request == 0 || forall k :: 0 <= k < |s.blocks| - 1 ==> !Fits(s.blocks, L.header, k, L.Round(request)))
            && (r == None ==> s' == s)
  {
    hide SmallOk, BlocksOk, Spaced, FirstFree, AlignUp, TakeBlock, Edit;
    SmallFacts(s, L);
    var bs, i := s.blocks, FirstFit(s.blocks, L.header, L.Round(request));
    if i + 1 < |bs| {
      InOrder(bs, L.header, 0, i);
      InOrder(bs, L.header, i + 1, |bs| - 1);
    }
  }

  // -------------------------------------------------------------------------------------
  // rt_smem_free
  // -------------------------------------------------------------------------------------

  function Free(s: Small, L: Layout, i: nat): Small
    requires Freeable(s.blocks, i)
  {
    var bs, lo, hi := s.blocks, Lo(s.blocks, i), Hi(s.blocks, i);
    Relisted(s.(blocks := Edit(bs, lo, hi, [Block(bs[lo].addr, false)]), used := s.used - (bs[i + 1].addr - bs[i].addr)))
  }

  lemma FreeUsed(bs: seq<Block>, i: nat)
    requires Freeable(bs, i)
    ensures UsedSum(Window(bs, Lo(bs, i), Hi(bs, i))) == bs[i + 1].addr - bs[i].addr
  {
    hide UsedSum, Window;
    var lo, hi := Lo(bs, i), Hi(bs, i);
    if lo < i && hi > i {
      ThreeBlocks(bs, i - 1);
      UsedThree(bs[i - 1], bs[i], bs[i + 1], bs[i + 2]);
    } else if lo < i {
      TwoBlocks(bs, i - 1);
      UsedTwo(bs[i - 1], bs[i], bs[i + 1]);
    } else if hi > i {
      TwoBlocks(bs, i);
      UsedTwo(bs[i], bs[i + 1], bs[i + 2]);
    } else {
      UsedWindow(bs, i);
    }
  }

  /** Freeing keeps the heap in order. */
  lemma FreeOk(s: Small, L: Layout, i: nat)
    requires SmallOk(s, L) && Freeable(s.blocks, i)
    ensures SmallOk(Free(s, L, i), L)
  {
    hide SmallOk, BlocksOk, UsedSum, Edit, Window, Spaced, Replaces, FirstFree;
    SmallFacts(s, L);
    var bs, lo, hi := s.blocks, Lo(s.blocks, i), Hi(s.blocks, i);
    InOrder(bs, L.header, i, i + 1);
    FreeUsed(bs, i);
    FreeBlocks(bs, L, i);
    UsedOne(Block(bs[lo].addr, false), bs[hi + 1]);
    SmallEditOk(s, L, lo, hi, [Block(bs[lo].addr, false)], Free(s, L, i));
  }

  // -------------------------------------------------------------------------------------
  // rt_smem_realloc
  // -------------------------------------------------------------------------------------

  /** Block i keeps `size` bytes; its end becomes a free block, joined with a free one after it. */
  function Trim(s: Small, L: Layout, i: nat, size: int): Small
    requires Freeable(s.blocks, i)
  {
    var bs, a, j := s.blocks, s.blocks[i].addr, Hi(s.blocks, i);
    Relisted(s.(blocks := Edit(bs, i, j, [Block(a, true), Block(a + size + L.header, false)]),
                used := s.used - (Size(bs, L.header, i) - size)))
  }

  lemma TrimOk(s: Small, L: Layout, i: nat, size: int)
    requires SmallOk(s, L) && Freeable(s.blocks, i)
    requires 0 < size && Multiple(size, L.align) && size + L.header < Size(s.blocks, L.header, i)
    ensures SmallOk(Trim(s, L, i, size), L)
  {
    hide SmallOk, BlocksOk, UsedSum, Edit, Window, Spaced, Replaces, FirstFree, Multiple;
    SmallFacts(s, L);
    var bs, a, j := s.blocks, s.blocks[i].addr, Hi(s.blocks, i);
    InOrder(bs, L.header, i + 1, j + 1);
    if j > i {
      FreeNeighbours(bs, L, i + 1);
      TwoBlocks(bs, i);
      UsedTwo(bs[i], bs[i + 1], bs[i + 2]);
    } else {
      UsedWindow(bs, i);
    }
    ResizeFits(bs, L, i, j, size);
    UsedTwo(Block(a, true), Block(a + size + L.header, false), bs[j + 1]);
    SmallEditOk(s, L, i, j, [Block(a, true), Block(a + size + L.header, false)], Trim(s, L, i, size));
  }

  /** Reallocating block i; `least` is MIN_SIZE, before alignment. */
  function Realloc(s: Small, L: Layout, least: nat, i: nat, request: nat): (Small, Option<int>)
    requires SmallOk(s, L) && Freeable(s.blocks, i)
  {
    var a, had, size := s.blocks[i].addr, Size(s.blocks, L.header, i), AlignUp(request, L.align);
    if size > s.total then (s, None)
    else if size == 0 then (Free(s, L, i), None)
    else if size == had then (s, Some(a))
    else if size + L.header + least < had then (Trim(s, L, i, size), Some(a))
    else
      AlignUpIsLeast(request, L.align, 0);
      Move(s, L, i, size)
  }

  function Move(s: Small, L: Layout, i: nat, size: nat): (Small, Option<int>)
    requires SmallOk(s, L) && Freeable(s.blocks, i)
  {
    var (s1, r) := Alloc(s, L, size);
    if r == None then (s, None)
    else
      OldBlockStays(s, L, i, size);
      (Free(s1, L, IndexOf(s1.blocks, s.blocks[i].addr)), r)
  }

  /** Allocating leaves every used block as it is, and takes a block that was free. */
  lemma AllocOthers(s: Small, L: Layout, request: nat, it: Item)
    requires SmallOk(s, L) && it in Items(s.blocks, L.header) && it.used
    ensures it in Items(Alloc(s, L, request).0.blocks, L.header)
  {
    hide SmallOk, BlocksOk, Items, Edit, Spaced, AlignUp;
    SmallFacts(s, L);
    var size, i := L.Round(request), FirstFit(s.blocks, L.header, L.Round(request));
    if request > 0 && size <= s.total && i + 1 < |s.blocks| {
      var a := s.blocks[i].addr;
      StaysInEdit(s.blocks, L.header, i, [Block(a, true)], it);
      StaysInEdit(s.blocks, L.header, i, [Block(a, true), Block(a + size + L.header, false)], it);
    }
  }

  lemma OldBlockStays(s: Small, L: Layout, i: nat, request: nat)
    requires SmallOk(s, L) && Freeable(s.blocks, i)
    ensures var s1 := Alloc(s, L, request).0; var i1 := IndexOf(s1.blocks, s.blocks[i].addr);
            SmallOk(s1, L) && Freeable(s1.blocks, i1) && Size(s1.blocks, L.header, i1) == Size(s.blocks, L.header, i)
    ensures Alloc(s, L, request).1 != Some(s.blocks[i].addr)
  {
    hide SmallOk, BlocksOk, Items, Spaced, TakeBlock, AlignUp;
    SmallFacts(s, L);
    AllocOk(s, L, request);
    var s1 := Alloc(s, L, request).0;
    SmallFacts(s1, L);
    ItemAt(s.blocks, L.header, i);
    var it := Item(s.blocks[i].addr, Size(s.blocks, L.header, i), true);
    AllocOthers(s, L, request, it);
    IndexedItem(s1.blocks, L, it);
    var t := FirstFit(s.blocks, L.header, L.Round(request));
    if s.blocks[t].addr == s.blocks[i].addr { IndexUnique(s.blocks, L.header, t, i); }
  }

  /** Reallocating keeps the heap in order. */
  lemma ReallocOk(s: Small, L: Layout, least: nat, i: nat, request: nat)
    requires SmallOk(s, L) && Freeable(s.blocks, i)
    ensures SmallOk(Realloc(s, L, least, i, request).0, L)
  {
    hide SmallOk, BlocksOk, Spaced, Alloc, Free, Trim, AlignUp, Multiple;
    SmallFacts(s, L);
    var had, size := Size(s.blocks, L.header, i), AlignUp(request, L.align);
    AlignUpIsLeast(request, L.align, 0);
    if size > s.total {
    } else if size == 0 {
      FreeOk(s, L, i);
    } else if size + L.header + least < had {
      TrimOk(s, L, i, size);
    } else if size != had {
      OldBlockStays(s, L, i, size);
      var s1 := Alloc(s, L, size).0;
      FreeOk(s1, L, IndexOf(s1.blocks, s.blocks[i].addr));
    }
  }

  /** A reallocation fails exactly if it asks for nothing, or the old block neither has the very
      size nor enough to spare to be cut, and no free block is large enough: a smaller size may
      be refused although the old block would hold it. */
  lemma ReallocFailsIff(s: Small, L: Layout, least: nat, i: nat, request: nat)
    requires SmallOk(s, L) && Freeable(s.blocks, i)
    ensures var size, had := AlignUp(request, L.align), Size(s.blocks, L.header, i);
            var (s', r) := Realloc(s, L, least, i, request);
            && (r == None <==>
                  || request == 0
                  || (size != had && had <= size + L.header + least
                      && forall k :: 0 <= k < |s.blocks| - 1 ==> !Fits(s.blocks, L.header, k, L.Round(request))))
            && (r == None && request > 0 ==> s' == s)
  {
    hide SmallOk, BlocksOk, Spaced, Alloc, Free, Trim, AlignUp, Multiple;
    SmallFacts(s, L);
    AllocAligned(s, L, request);
    RoundTwice(L, request);
    AlignUpIsLeast(request, L.align, 0);
    SizesBelow(s, L);
    AllocFailsIff(s, L, request);
  }

  /** No block has more bytes than the whole heap. */
  lemma SizesBelow(s: Small, L: Layout)
    requires SmallOk(s, L)
    ensures forall k :: 0 <= k < |s.blocks| - 1 ==> Size(s.blocks, L.header, k) <= s.total
  {
    hide SmallOk, BlocksOk, Spaced, FirstFree;
    SmallFacts(s, L);
    var bs := s.blocks;
    forall k | 0 <= k < |bs| - 1 ensures Size(bs, L.header, k) <= s.total {
      InOrder(bs, L.header, 0, k);
      InOrder(bs, L.header, k + 1, |bs| - 1);
    }
  }

  /** With 32-bit words: a heap of 32 bytes all given out refuses to make the block smaller. */
  lemma ShrinkRefused()
    ensures var L := Layout(16, 16, 8);
            && L.align > 0 && var (s, r) := Alloc(Init(L, 32), L, 32);
               && r == Some(0) && SmallOk(s, L) && Freeable(s.blocks, 0) && Size(s.blocks, L.header, 0) == 32
               && Realloc(s, L, 12, 0, 24) == (s, None)
  {
    hide SmallOk, Multiple, Alloc, Realloc, AlignUp;
    var L := Layout(16, 16, 8);
    SmallLayout();
    InitOk(L, 32);
    AllocOk(Init(L, 32), L, 32);
    AllGiven();
    ReallocFailsIff(Alloc(Init(L, 32), L, 32).0, L, 12, 0, 24);
  }

  lemma SmallLayout()
    ensures Layout(16, 16, 8).Valid() && Multiple(32, 8)
    ensures AlignUp(32, 8) == 32 && AlignUp(24, 8) == 24
  {
    assert Times(2, 8) == 16 && Times(4, 8) == 32 && Times(3, 8) == 24;
  }

  lemma AllGiven()
    ensures var L := Layout(16, 16, 8); Alloc(Init(L, 32), L, 32) == (Small(32, [Block(0, true), Block(48, true)], 48, 48, 48), Some(0))
  {
    hide AlignUp, Multiple;
    SmallLayout();
    var L := Layout(16, 16, 8);
    var bs := Init(L, 32).blocks;
    assert FirstFit(bs, 16, 32) == 0;
    assert Edit(bs, 0, 0, [Block(0, true)]) == [Block(0, true), Block(48, true)];
    assert FirstFree([Block(0, true), Block(48, true)]) == 1;
  }

  // -------------------------------------------------------------------------------------
  // Round trip and runs
  // -------------------------------------------------------------------------------------

  /** Allocating and then freeing the result restores the whole heap but its high-water mark. */
  lemma AllocThenFree(s: Small, L: Layout, request: nat)
    requires SmallOk(s, L) && Alloc(s, L, request).1.Some?
    ensures var (s1, r) := Alloc(s, L, request); var i := IndexOf(s1.blocks, r.value);
            Freeable(s1.blocks, i) && Free(s1, L, i) == s.(max := s1.max)
  {
    hide SmallOk, BlocksOk, Spaced, Edit, Window, AlignUp, Coalesced;
    SmallFacts(s, L);
    AllocOk(s, L, request);
    var (s1, r) := Alloc(s, L, request);
    SmallFacts(s1, L);
    var i, size := FirstFit(s.blocks, L.header, L.Round(request)), L.Round(request);
    var a := r.value;
    FreeNeighbours(s.blocks, L, i);
    if Splits(L, Size(s.blocks, L.header, i), size) {
      BackAgain(s, s1, L, i, [Block(a, true), Block(a + size + L.header, false)]);
    } else {
      BackAgain(s, s1, L, i, [Block(a, true)]);
    }
    IndexUnique(s1.blocks, L.header, i, IndexOf(s1.blocks, a));
  }

  lemma FreeNeighbours(bs: seq<Block>, L: Layout, i: nat)
    requires BlocksOk(bs, L) && i + 1 < |bs| && !bs[i].used
    ensures bs[i + 1].used && (i > 0 ==> bs[i - 1].used)
  {
  }

  lemma BackAgain(s: Small, s1: Small, L: Layout, i: nat, mid: seq<Block>)
    requires i + 1 < |s.blocks| && !s.blocks[i].used && s.blocks[i + 1].used && (i > 0 ==> s.blocks[i - 1].used)
    requires s.blocks[|s.blocks| - 1].used && s.lfree == s.blocks[FirstFree(s.blocks)].addr
    requires 1 <= |mid| <= 2 && mid[0] == Block(s.blocks[i].addr, true) && (|mid| == 2 ==> !mid[1].used)
    requires s1.blocks == Edit(s.blocks, i, i, mid) && s1.total == s.total
    requires s1.used == s.used + (if |mid| == 2 then mid[1].addr else s.blocks[i + 1].addr) - s.blocks[i].addr
    ensures Freeable(s1.blocks, i) && s1.blocks[i].addr == s.blocks[i].addr && Free(s1, L, i) == s.(max := s1.max)
  {
    hide Edit, FirstFree;
    EditBack(s.blocks, i, mid);
    assert s1.blocks[i] == mid[0] && s1.blocks[i + |mid|] == s.blocks[i + 1];
    assert |mid| == 2 ==> s1.blocks[i + 1] == mid[1];
    assert Lo(s1.blocks, i) == i && Hi(s1.blocks, i) == i + |mid| - 1;
    assert Block(s.blocks[i].addr, false) == s.blocks[i];
  }

  /** rt_smem_init on an aligned start: one free block. */
  function Init(L: Layout, total: nat): Small {
    Small(total, [Block(0, false), Block(total + L.header, true)], 0, 0, 0)
  }

  lemma InitOk(L: Layout, total: nat)
    requires L.Valid() && Multiple(total, L.align)
    ensures SmallOk(Init(L, total), L)
  {
    MultipleSum(total, L.header, L.align);
    assert Times(0, L.align) == 0;
    UsedOne(Block(0, false), Block(total + L.header, true));
    assert Init(L, total).blocks == [Block(0, false)] + [Block(total + L.header, true)];
  }

  datatype Call = CallAlloc(size: nat) | CallFree(block: int) | CallRealloc(block: int, size: nat)

  ghost predicate Legal(s: Small, c: Call) {
    !c.CallAlloc? ==> Freeable(s.blocks, IndexOf(s.blocks, c.block))
  }

  function Do(s: Small, L: Layout, least: nat, c: Call): Small
    requires SmallOk(s, L) && Legal(s, c)
  {
    match c
    case CallAlloc(n) => Alloc(s, L, n).0
    case CallFree(a) => Free(s, L, IndexOf(s.blocks, a))
    case CallRealloc(a, n) => Realloc(s, L, least, IndexOf(s.blocks, a), n).0
  }

  ghost predicate Step(s: Small, L: Layout, least: nat, c: Call, s': Small) {
    SmallOk(s, L) ==> Legal(s, c) && s' == Do(s, L, least, c)
  }

  lemma StepOk(s: Small, L: Layout, least: nat, c: Call, s': Small)
    requires SmallOk(s, L) && Step(s, L, least, c, s')
    ensures SmallOk(s', L)
  {
    hide SmallOk, Alloc, Free, Realloc;
    match c
    case CallAlloc(n) => AllocOk(s, L, n);
    case CallFree(a) => FreeOk(s, L, IndexOf(s.blocks, a));
    case CallRealloc(a, n) => ReallocOk(s, L, least, IndexOf(s.blocks, a), n);
  }

  /** Every state of every run of legal calls from a fresh heap is in order. */
  lemma {:induction false} RunOk(states: seq<Small>, calls: seq<Call>, L: Layout, least: nat, total: nat, k: nat)
    requires L.Valid() && Multiple(total, L.align) && |states| == |calls| + 1 && states[0] == Init(L, total) && k <= |calls|
    requires forall i, j :: 0 <= i < |calls| && j == i + 1 ==> Step(states[i], L, least, calls[i], states[j])
    ensures SmallOk(states[k], L)
  {
    hide SmallOk, Step, Init;
    if k == 0 {
      InitOk(L, total);
    } else {
      RunOk(states, calls, L, least, total, k - 1);
      StepOk(states[k - 1], L, least, calls[k - 1], states[k]);
    }
  }
}
