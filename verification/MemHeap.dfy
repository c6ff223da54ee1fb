/** rt-thread/src/memheap.c: block headers tied into two rings, edited in place.
    One ring goes through all blocks in address order, the other through the free ones.  The
    header fields are maps from header addresses; the payload bytes are kept beside them.
    Every method ends in the state that the specification in HeapSpec.dfy gives for its call. */
module MemHeap {
  import opened Alignment
  import opened BlockEdits
  import opened HeapSpec
  import opened Lists
  import opened Ring
  import opened Tiling

  /** Unlinking the k-th node of the free ring takes it out of the list. */
  lemma {:induction false} CutIsWithout(free: seq<int>, k: nat)
    requires Distinct(free) && k < |free|
    ensures Cut(free, k) == Without(free, free[k])
  {
    if k > 0 {
      DistinctTail(free);
      CutIsWithout(free[1..], k - 1);
      assert Cut(free, k) == [free[0]] + Cut(free[1..], k - 1);
    }
  }

  lemma FreeUnlinked(next: Links, prev: Links, head: int, free: seq<int>, a: int)
    requires IsRing(next, prev, [head] + free) && a in free
    ensures a in next && a in prev && IsRing(next[prev[a] := next[a]], prev[next[a] := prev[a]], [head] + Without(free, a))
  {
    var k := FreeAt(head, free, a);
    hide *;
    UnlinkKeepsRing(next, prev, [head] + free, k + 1);
  }

  /** Where a node of the free ring stands. */
  lemma FreeAt(head: int, free: seq<int>, a: int) returns (k: nat)
    requires Distinct([head] + free) && a in free
    ensures k < |free| && ([head] + free)[k + 1] == a && Cut([head] + free, k + 1) == [head] + Without(free, a)
  {
    k :| 0 <= k < |free| && free[k] == a;
    DistinctTail([head] + free);
    assert ([head] + free)[1..] == free;
    CutIsWithout(free, k);
    assert Cut([head] + free, k + 1) == [head] + Cut(free, k);
  }

  /** Following the free ring from the head. */
  lemma FreeStep(next: Links, prev: Links, head: int, free: seq<int>, k: nat)
    requires IsRing(next, prev, [head] + free) && k <= |free|
    ensures var a := if k == 0 then head else free[k - 1]; a in next && next[a] == if k < |free| then free[k] else head
  {
    assert ([head] + free)[k] == if k == 0 then head else free[k - 1];
  }

  /** What the search of the free ring reads of it. */
  ghost predicate Walkable(next: Links, nextFree: Links, head: int, header: nat, bs: seq<Block>, free: seq<int>) {
    && head in nextFree && nextFree[head] == (if free == [] then head else free[0])
    && forall k :: 0 <= k < |free| ==> WalkStep(next, nextFree, head, header, bs, free, k)
  }

  ghost predicate WalkStep(next: Links, nextFree: Links, head: int, header: nat, bs: seq<Block>, free: seq<int>, k: nat)
    requires k < |free|
  {
    var a := free[k];
    && a != head && a in next && next[a] - a - header == SizeAt(bs, header, a)
    && a in nextFree && nextFree[a] == if k + 1 < |free| then free[k + 1] else head
  }

  /** The search stops at the first block that is large enough. */
  lemma {:induction false} FirstFitAt(bs: seq<Block>, header: nat, free: seq<int>, size: int, k: nat)
    requires k <= |free| && (forall m :: 0 <= m < k ==> SizeAt(bs, header, free[m]) < size)
    requires k < |free| ==> SizeAt(bs, header, free[k]) >= size
    ensures FirstFit(bs, header, free, size) == k
  {
    if k > 0 { FirstFitAt(bs, header, free[1..], size, k - 1); }
  }

  /** The free block i at address a can be split for `size` bytes. */
  ghost predicate CanSplit(h: Heap, L: Layout, i: nat, a: int, size: int) {
    && CanTake(h, L, i, a, size) && Splits(L, Size(h.blocks, L.header, i), size)
  }

  ghost predicate CanTake(h: Heap, L: Layout, i: nat, a: int, size: int) {
    && HeapOk(h, L) && i + 1 < |h.blocks| && h.blocks[i] == Block(a, false) && a in h.free && 0 < size
    && HeapOk(TakeBlock(h, L, i, size), L)
  }

  /** The block made free by an edit is new to the free list and lies in the pool. */
  lemma SpareIsNew(h: Heap, L: Layout)
    requires HeapOk(h, L) && h.free != []
    ensures h.free[0] !in h.free[1..] && h.start <= h.free[0] <= h.end
  {
    DistinctTail(h.free);
    assert h.free[0] in h.free;
    var it :| it in Items(h.blocks, L.header) && it.addr == h.free[0] && !it.used;
    ItemBounds(h.blocks, L.header, it);
  }

  /** A split may write its new header and list it. */
  lemma SplitReady(h: Heap, L: Layout, i: nat, a: int, size: int)
    requires CanSplit(h, L, i, a, size)
    ensures i + 1 < |h.blocks| && h.blocks[i].addr == a && a in h.free
    ensures var b := a + size + L.header;
            && b !in Addrs(h.blocks) && b !in Without(h.free, a) && h.start <= b <= h.end
            && forall x :: InLive(Items(h.blocks, L.header), L.header, x) ==> x < b || b + L.header <= x
  {
    hide HeapOk, BlocksOk, Spaced, Items, InLive, Addrs, Edit;
    var b := a + size + L.header;
    HeapSpaced(h, L);
    NewBetween(h.blocks, L.header, i, b);
    HeaderInFree(h.blocks, L.header, i, b);
    NewSpare(TakeBlock(h, L, i, size), L, b, Without(h.free, a));
  }

  lemma NewSpare(h: Heap, L: Layout, b: int, free: seq<int>)
    requires HeapOk(h, L) && h.free == [b] + free
    ensures b !in free && h.start <= b <= h.end
  {
    SpareIsNew(h, L);
    assert h.free[1..] == free;
  }

  /** The steps of a split add up. */
  lemma SplitSteps(h: Heap, L: Layout, i: nat, a: int, size: int, h': Heap)
    requires CanSplit(h, L, i, a, size)
    requires var b := a + size + L.header;
             h' == h.(blocks := Inserted(h.blocks, i, Block(b, false))[i := Block(a, true)], free := [b] + Without(h.free, a)).Spend(size + L.header)
    ensures h' == TakeBlock(h, L, i, size) && HeapOk(h', L)
  {
    hide HeapOk, BlocksOk, Inserted, Without, Edit;
    SplitEdit(h.blocks, i, Block(a + size + L.header, false));
  }

  /** What rt_memheap_free finds and may do at its merges and its insertion. */
  lemma FreeReady(h: Heap, L: Layout, i: nat)
    requires HeapOk(h, L) && Freeable(h.blocks, i)
    ensures Hi(h.blocks, i) > i ==> h.blocks[i + 1].addr in h.free
    ensures h.blocks[i].addr !in h.free && h.start <= h.blocks[i].addr <= h.end
  {
    var bs, lo, hi := h.blocks, Lo(h.blocks, i), Hi(h.blocks, i);
    if hi > i { FreeBlock(h, L, hi); }
    ItemAt(bs, L.header, i);
    ItemBounds(bs, L.header, Item(bs[i].addr, Size(bs, L.header, i), true));
    FreeBlock(h, L, i);
  }

  /** The steps of a free add up. */
  lemma FreeSteps(h: Heap, L: Layout, i: nat, h': Heap)
    requires Freeable(h.blocks, i)
    requires var bs, lo, hi := h.blocks, Lo(h.blocks, i), Hi(h.blocks, i);
             var f := if hi > i then Without(h.free, bs[hi].addr) else h.free;
             h' == h.(blocks := Freed(bs, i), free := if lo < i then f else [bs[i].addr] + f,
                      available := h.available + Size(bs, L.header, i) + (if lo < i then L.header else 0) + (if hi > i then L.header else 0))
    ensures h' == HeapSpec.Free(h, L, i)
  {
    hide Freed, Edit, Without;
    FreedIsEdit(h.blocks, i);
  }

  lemma RingAt(next: Links, prev: Links, s: seq<int>, i: nat)
    requires IsRing(next, prev, s) && i + 1 < |s|
    ensures s[i] in next && next[s[i]] == s[i + 1]
    ensures s[i] in prev && prev[s[i]] == if i == 0 then s[|s| - 1] else s[i - 1]
  {
    var p := if i == 0 then |s| - 1 else i - 1;
    assert Succ(s, p) == s[i] && Succ(s, i) == s[i + 1];
  }

  lemma BlockFacts(h: Heap, L: Layout, i: nat)
    requires HeapOk(h, L) && Freeable(h.blocks, i)
    ensures i + 1 < |h.blocks| && h.blocks[i].used
    ensures !h.blocks[i + 1].used ==> i + 2 < |h.blocks| && h.blocks[i + 2].used
  {
  }

  /** The used block i at address a and the free one after it can hold `size` bytes and a free block. */
  ghost predicate CanResize(h: Heap, L: Layout, i: nat, a: int, size: int) {
    && HeapOk(h, L) && ResizeRoom(h.blocks, L, i, i + 1, size) && h.blocks[i] == Block(a, true) && !h.blocks[i + 1].used
  }

  lemma ResizeFacts(h: Heap, L: Layout, i: nat, a: int, b: int, size: int)
    requires CanResize(h, L, i, a, size) && b == a + size + L.header
    ensures i + 2 < |h.blocks| && h.blocks[i].addr == a && h.blocks[i + 1].addr in h.free
    ensures && b !in Without(h.free, h.blocks[i + 1].addr) && h.start <= b <= h.end
            && b !in Addrs(Absorbed(h.blocks, i)) && Absorbed(h.blocks, i)[i].addr == a && i + 1 < |Absorbed(h.blocks, i)|
            && HeaderClear(h.blocks, L, i, a, b)
  {
    hide HeapOk, BlocksOk, Spaced, Addrs, Absorbed, Without, HeaderClear, Edit;
    HeapSpaced(h, L);
    FreeBlock(h, L, i + 1);
    ResizeIntoNextOk(h, L, i, size);
    NewSpare(ResizeIntoNext(h, L, i, size), L, b, Without(h.free, h.blocks[i + 1].addr));
    AbsorbedSpaced(h.blocks, L.header, i);
    AbsorbedAddrs(h.blocks, i);
    NewBetween(Absorbed(h.blocks, i), L.header, i, b);
    ResizeClear(h.blocks, L, i, a, b);
  }

  /** The steps of growing into the next block add up. */
  lemma GrowSteps(h: Heap, L: Layout, i: nat, a: int, b: int, size: int, h': Heap)
    requires CanResize(h, L, i, a, size) && b == a + size + L.header
    requires h' == h.Spend(size - Size(h.blocks, L.header, i))
                    .(blocks := Inserted(Absorbed(h.blocks, i), i, Block(b, false)), free := [b] + Without(h.free, h.blocks[i + 1].addr))
    ensures h' == ResizeIntoNext(h, L, i, size) && HeapOk(h', L) && h'.start == h.start && h'.end == h.end
  {
    hide HeapOk, BlocksOk, Without, Multiple;
    ResizeIntoNextOk(h, L, i, size);
    GrowBlocks(h.blocks, i, Block(b, false));
  }

  lemma GrowBlocks(bs: seq<Block>, i: nat, b: Block)
    requires i + 2 < |bs| && bs[i].used
    ensures Inserted(Absorbed(bs, i), i, b) == Edit(bs, i, i + 1, [Block(bs[i].addr, true), b])
  {
    assert Absorbed(bs, i)[..i] == bs[..i] && Absorbed(bs, i)[i + 1..] == bs[i + 2..];
  }

  ghost predicate CanShrink(h: Heap, L: Layout, i: nat, a: int, size: int) {
    && HeapOk(h, L) && Freeable(h.blocks, i) && h.blocks[i].addr == a && 0 < size && Multiple(size, L.align)
    && size + L.header + L.mini < Size(h.blocks, L.header, i)
  }

  function Shrunk(h: Heap, L: Layout, i: nat, size: int): Heap
    requires Freeable(h.blocks, i)
  {
    if !h.blocks[i + 1].used then ResizeIntoNext(h, L, i, size) else ShrinkAlone(h, L, i, size)
  }

  /** The new block i taking in a free block after it. */
  function Joined(h: Heap, header: nat, i: nat): Heap
    requires i + 1 < |h.blocks| && (!h.blocks[i + 1].used ==> i + 2 < |h.blocks|)
  {
    if h.blocks[i + 1].used then h else
      h.(blocks := Absorbed(h.blocks, i), free := Without(h.free, h.blocks[i + 1].addr),
         available := h.available - Size(h.blocks, header, i + 1))
  }

  lemma ShrinkFacts(h: Heap, L: Layout, i: nat, a: int, b: int, size: int)
    requires CanShrink(h, L, i, a, size) && b == a + size + L.header
    ensures i + 1 < |h.blocks| && h.blocks[i].addr == a
    ensures && h.start <= b <= h.end && b !in Addrs(h.blocks) && HeaderClear(h.blocks, L, i, a, b)
            && var r := Inserted(h.blocks, i, Block(b, false));
               && i + 2 < |r| && r[i + 1].addr == b && (!r[i + 2].used ==> i + 3 < |r| && r[i + 2].addr in h.free)
               && var q := Joined(h.(blocks := r), L.header, i + 1);
                  i + 2 < |q.blocks| && q.blocks[i + 1].addr == b && b !in q.free
  {
    hide HeapOk, BlocksOk, Spaced, Addrs, Inserted, Absorbed, Without, HeaderClear, Edit, Multiple;
    HeapSpaced(h, L);
    BlockFacts(h, L, i);
    InsertedAddrs(h.blocks, i, Block(b, false));
    NewBetween(h.blocks, L.header, i, b);
    if h.blocks[i + 1].used {
      ShrinkAloneOk(h, L, i, size);
      NewSpare(ShrinkAlone(h, L, i, size), L, b, h.free);
      AloneClear(h.blocks, L, i, a, b);
    } else {
      FreeBlock(h, L, i + 1);
      GrowRoom(h, L, i, size);
      ResizeIntoNextOk(h, L, i, size);
      NewSpare(ResizeIntoNext(h, L, i, size), L, b, Without(h.free, h.blocks[i + 1].addr));
      NextTo(h, L, i + 1);
      AbsorbedAddrs(Inserted(h.blocks, i, Block(b, false)), i + 1);
      ResizeClear(h.blocks, L, i, a, b);
    }
  }

  /** What the steps of shrinking lead to. */
  ghost predicate Stepped(h: Heap, header: nat, i: nat, b: int, h': Heap)
    requires i + 1 < |h.blocks|
  {
    var r := Inserted(h.blocks, i, Block(b, false));
    && i + 2 < |r| && (!r[i + 2].used ==> i + 3 < |r|)
    && var q := Joined(h.(blocks := r), header, i + 1);
       i + 2 < |q.blocks| && h' == q.(free := [b] + q.free, available := q.available + (q.blocks[i + 2].addr - b - header))
  }

  /** The steps of shrinking add up. */
  lemma ShrinkSteps(h: Heap, L: Layout, i: nat, a: int, b: int, size: int, h': Heap)
    requires CanShrink(h, L, i, a, size) && b == a + size + L.header && i + 1 < |h.blocks| && Stepped(h, L.header, i, b, h')
    ensures h' == Shrunk(h, L, i, size) && HeapOk(h', L) && h'.start == h.start && h'.end == h.end
  {
    hide HeapOk, BlocksOk, Edit, Multiple, Stepped, Spaced;
    HeapSpaced(h, L);
    BlockFacts(h, L, i);
    if h.blocks[i + 1].used {
      AloneSteps(h, L, i, b, size, h');
      ShrinkAloneOk(h, L, i, size);
    } else {
      GrowRoom(h, L, i, size);
      JoinedSteps(h, L, i, b, size, h');
      ResizeIntoNextOk(h, L, i, size);
    }
  }

  lemma AloneSteps(h: Heap, L: Layout, i: nat, b: int, size: int, h': Heap)
    requires i + 1 < |h.blocks| && h.blocks[i].used && h.blocks[i + 1].used && b == h.blocks[i].addr + size + L.header && Stepped(h, L.header, i, b, h')
    ensures h' == ShrinkAlone(h, L, i, size)
  {
    hide Edit, Inserted;
    InsertedAddrs(h.blocks, i, Block(b, false));
    InsertedIsEdit(h.blocks, i, Block(b, false));
  }

  lemma JoinedSteps(h: Heap, L: Layout, i: nat, b: int, size: int, h': Heap)
    requires i + 2 < |h.blocks| && h.blocks[i].used && !h.blocks[i + 1].used && b == h.blocks[i].addr + size + L.header
    requires Stepped(h, L.header, i, b, h') && h.pool - h.available <= h.maxUsed && size <= Size(h.blocks, L.header, i)
    ensures h' == ResizeIntoNext(h, L, i, size)
  {
    hide Without, Edit, Inserted, Absorbed;
    var r := Inserted(h.blocks, i, Block(b, false));
    InsertedAddrs(h.blocks, i, Block(b, false));
    assert r[i + 1] == Block(b, false) && r[i + 2] == h.blocks[i + 1] && r[i + 3] == h.blocks[i + 2];
    AbsorbedAddrs(r, i + 1);
    assert Absorbed(r, i + 1)[i + 2] == r[i + 3];
    AbsorbedSplit(h.blocks, i, Block(b, false));
  }

  /** The block an allocation takes was free and is large enough. */
  lemma MoveTarget(h: Heap, L: Layout, size: nat) returns (t: nat)
    requires HeapOk(h, L) && Alloc(h, L, size).1.Some?
    ensures t + 1 < |h.blocks| && !h.blocks[t].used && h.blocks[t].addr == Alloc(h, L, size).1.value
    ensures size <= Size(h.blocks, L.header, t)
  {
    hide HeapOk, BlocksOk, Items, Outside, Alloc, AlignUp, Multiple;
    HeapSpaced(h, L);
    RoundIsLeast(L, size, 0);
    t := AllocPicks(h, L, size);
  }

  class MemHeap {
    const L: Layout
    const start: int
    const end: int
    const pool: int
    const head: int                  // &free_header

    var next: Links
    var prev: Links
    var nextFree: Links
    var prevFree: Links
    var used: map<int, bool>         // magic
    var available: int
    var maxUsed: int
    var bytes: int -> int            // the pool's contents
    ghost var h: Heap                // what the links and marks stand for

    ghost predicate Rings()
      reads `next, `prev, `nextFree, `prevFree, `used, `available, `maxUsed, `h
    {
      && IsRing(next, prev, Addrs(h.blocks)) && IsRing(nextFree, prevFree, [head] + h.free) && Marks(used, h.blocks)
      && start == h.start && end == h.end && pool == h.pool && available == h.available && maxUsed == h.maxUsed
    }

    ghost predicate Valid()
      reads this
    {
      && Rings() && HeapOk(h, L) && !(h.start <= head <= h.end)
    }

    /** rt_memheap_init; the list head is in the heap object, outside the pool. */
    constructor (L: Layout, start: int, size: nat, head: int)
      requires L.Valid() && Multiple(start, L.align) && AlignDown(size, L.align) >= 2 * L.header
      requires !(start <= head < start + AlignDown(size, L.align))
      ensures this.L == L && Valid() && h == Init(L, start, size)
    {
      var poolSize := AlignDown(size, L.align);
      var free := poolSize - 2 * L.header;
      var stub := start + free + L.header;
      this.L, this.start, this.end, this.pool, this.head := L, start, stub, poolSize, head;
      next, prev := map[start := stub, stub := start], map[start := stub, stub := start];
      nextFree, prevFree := map[head := start, start := head], map[head := start, start := head];
      used := map[start := false, stub := true];
      available, maxUsed := free, 2 * L.header;
      bytes := (x: int) => 0;
      h := Init(L, start, size);
      new;
      InitOk(L, start, size);
      assert Addrs(h.blocks) == [start, stub] && [head] + h.free == [head, start];
    }

    // ---- the edits of the two rings ------------------------------------------------------

    /** A header is written at b, after that of block a. */
    method SplitAfter(a: int, b: int, ghost i: nat)
      requires Rings() && i + 1 < |h.blocks| && h.blocks[i].addr == a && b !in Addrs(h.blocks)
      modifies this
      ensures Rings() && h == old(h).(blocks := Inserted(old(h).blocks, i, Block(b, false)))
      ensures WrittenIn(b, b + L.header, old(bytes), bytes)
    {
      hide Addrs, IsRing, Marks, Inserted, Put;
      ghost var s := Addrs(h.blocks);
      InsertedAddrs(h.blocks, i, Block(b, false));
      MarksInserted(used, h.blocks, i, b);
      RingAt(next, prev, s, i);
      LinkKeepsRing(next, prev, s, i, b);
      var junk: int := *;
      var was, header := bytes, L.header;
      bytes := (x: int) => if b <= x < b + header then junk else was(x);
      used := used[b := false];
      prev := prev[b := a][next[a] := b];
      next := next[b := next[a]][a := b];
      h := h.(blocks := Inserted(h.blocks, i, Block(b, false)));
    }

    /** The block after a is taken out of the block ring. */
    method AbsorbNext(a: int, ghost i: nat)
      requires Rings() && i + 2 < |h.blocks| && h.blocks[i].addr == a
      modifies `next, `prev, `h
      ensures Rings() && h == old(h).(blocks := Absorbed(old(h).blocks, i))
    {
      ghost var s := Addrs(h.blocks);
      AbsorbedAddrs(h.blocks, i);
      MarksAbsorbed(used, h.blocks, i);
      UnlinkKeepsRing(next, prev, s, i + 1);
      assert s[i] == a && Succ(s, i) == s[i + 1] && |s| > 1;
      assert s[i] in next && next[s[i]] == s[i + 1] && prev[s[i + 1]] == s[i];
      hide Addrs, IsRing, Marks, Absorbed, Cut, Distinct;
      var n := next[a];
      var after := next[n];
      prev := prev[after := a];
      next := next[a := after];
      h := h.(blocks := Absorbed(h.blocks, i));
    }

    method UnlinkFree(a: int)
      requires Rings() && a in h.free
      modifies `nextFree, `prevFree, `h
      ensures Rings() && h == old(h).(free := Without(old(h).free, a))
    {
      FreeUnlinked(nextFree, prevFree, head, h.free, a);
      hide IsRing, Marks, Without;
      var n, p := nextFree[a], prevFree[a];
      prevFree := prevFree[n := p];
      nextFree := nextFree[p := n];
      h := h.(free := Without(h.free, a));
    }

    method PushFree(b: int)
      requires Rings() && b !in h.free && b != head
      modifies `nextFree, `prevFree, `h
      ensures Rings() && h == old(h).(free := [b] + old(h).free)
    {
      ghost var s := [head] + h.free;
      assert s[0] == head && head in nextFree;
      assert Put(s, 0, b) == [head] + ([b] + h.free);
      hide IsRing, Marks, Put;
      LinkKeepsRing(nextFree, prevFree, s, 0, b);
      prevFree := prevFree[b := head][nextFree[head] := b];
      nextFree := nextFree[b := nextFree[head]][head := b];
      h := h.(free := [b] + h.free);
    }

    method Mark(a: int, u: bool, ghost i: nat)
      requires Rings() && i < |h.blocks| && h.blocks[i].addr == a
      modifies `used, `h
      ensures Rings() && h == old(h).(blocks := old(h).blocks[i := Block(a, u)])
    {
      assert Distinct(Addrs(h.blocks));
      MarksMarked(used, h.blocks, i, u);
      hide IsRing, Marks, Addrs;
      used := used[a := u];
      h := h.(blocks := h.blocks[i := Block(a, u)]);
    }

    method Spend(n: int)
      requires Rings()
      modifies `available, `maxUsed, `h
      ensures Rings() && h == old(h).Spend(n)
    {
      hide IsRing, Marks;
      available := available - n;
      if pool - available > maxUsed { maxUsed := pool - available; }
      h := h.Spend(n);
    }

    // ---- rt_memheap_alloc ------------------------------------------------------------------

    /** The walk of the free ring. */
    method Search(size: int) returns (a: int, n: int)
      requires Valid() && 0 < size
      ensures var k := FirstFit(h.blocks, L.header, h.free, size);
              if k < |h.free| then a == h.free[k] && n == SizeAt(h.blocks, L.header, a) && n >= size else n < size
    {
      WalkableHere();
      a, n := Walk(next, nextFree, head, L.header, size, h.blocks, h.free);
    }

    static method Walk(next: Links, nextFree: Links, head: int, header: nat, size: int, ghost bs: seq<Block>, ghost free: seq<int>)
      returns (a: int, n: int)
      requires Walkable(next, nextFree, head, header, bs, free) && 0 < size
      ensures var k := FirstFit(bs, header, free, size);
              if k < |free| then a == free[k] && n == SizeAt(bs, header, a) && n >= size else n < size
    {
      hide FirstFit, SizeAt;
      ghost var k := 0;
      a, n := nextFree[head], 0;
      while a != head && n < size
        invariant 0 <= k <= |free| && a == if k < |free| then free[k] else head
        invariant forall m :: 0 <= m < k ==> SizeAt(bs, header, free[m]) < size
        invariant n >= size ==> k < |free| && n == SizeAt(bs, header, free[k])
        decreases |free| - k, if n < size then 1 else 0
      {
        assert WalkStep(next, nextFree, head, header, bs, free, k);
        n := next[a] - a - header;
        if n < size {
          a := nextFree[a];
          k := k + 1;
        }
      }
      FirstFitAt(bs, header, free, size, k);
    }

    lemma WalkableHere()
      requires Valid()
      ensures Walkable(next, nextFree, head, L.header, h.blocks, h.free)
    {
      FreeStep(nextFree, prevFree, head, h.free, 0);
      forall k | 0 <= k < |h.free| ensures WalkStep(next, nextFree, head, L.header, h.blocks, h.free, k) {
        FreeStep(nextFree, prevFree, head, h.free, k + 1);
        SizeHere(h.free[k]);
      }
    }

    /** MEMITEM_SIZE of a free block. */
    lemma SizeHere(a: int)
      requires Valid() && a in h.free
      ensures a != head && a in next && next[a] - a - L.header == SizeAt(h.blocks, L.header, a)
    {
      var i := SizeAtItem(h, L, a);
      ItemAt(h.blocks, L.header, i);
      ItemBounds(h.blocks, L.header, Item(a, Size(h.blocks, L.header, i), false));
      assert Addrs(h.blocks)[i] == a;
    }

    /** The result is the address of the block's header; RT_MEMHEAP_SIZE is added for the client. */
    method Alloc(request: nat) returns (r: Option<int>)
      requires Valid()
      modifies this
      ensures Valid() && (h, r) == HeapSpec.Alloc(old(h), L, request)
      ensures LiveKept(old(h).blocks, L, old(bytes), bytes) && (r == None ==> bytes == old(bytes))
    {
      var size := L.Round(request);
      RoundIsLeast(L, request, 0);
      r := None;
      if size < available {
        var a, n := Search(size);
        if n >= size {
          ghost var i := SizeAtItem(h, L, a);
          Take(a, n, size, i);
          r := Some(a);
        }
      }
    }

    /** The found block is split if its rest is worth a block, and marked used. */
    method Take(a: int, n: int, size: int, ghost i: nat)
      requires Valid() && i + 1 < |h.blocks| && h.blocks[i] == Block(a, false) && n == Size(h.blocks, L.header, i)
      requires 0 < size <= n && Multiple(size, L.align)
      modifies this
      ensures Valid() && h == TakeBlock(old(h), L, i, size)
      ensures LiveKept(old(h).blocks, L, old(bytes), bytes)
    {
      TakeBlockOk(h, L, i, size);
      FreeBlock(h, L, i);
      hide *;
      if n >= size + L.header + L.mini {
        TakeSplit(a, size, i);
      } else {
        TakeWhole(a, n, size, i);
      }
    }

    method TakeSplit(a: int, size: int, ghost i: nat)
      requires Valid() && CanSplit(h, L, i, a, size)
      modifies this
      ensures Valid() && h == TakeBlock(old(h), L, i, size)
      ensures LiveKept(old(h).blocks, L, old(bytes), bytes)
    {
      hide Rings, HeapOk, BlocksOk, Items, InLive, CanSplit, Inserted, Without, Addrs, TakeBlock;
      ghost var was := h;
      SplitReady(h, L, i, a, size);
      InsertedAddrs(h.blocks, i, Block(a + size + L.header, false));
      var b := a + size + L.header;
      SplitAfter(a, b, i);
      UnlinkFree(a);
      PushFree(b);
      Spend(size + L.header);
      Mark(a, true, i);
      SplitSteps(was, L, i, a, size, h);
    }

    method TakeWhole(a: int, n: int, size: int, ghost i: nat)
      requires Valid() && CanTake(h, L, i, a, size) && n == Size(h.blocks, L.header, i) && !Splits(L, n, size)
      modifies this
      ensures Valid() && h == TakeBlock(old(h), L, i, size) && bytes == old(bytes)
    {
      hide Rings, HeapOk, BlocksOk, Edit, Without;
      ghost var was := h;
      Spend(n);
      UnlinkFree(a);
      Mark(a, true, i);
      MarkEdit(was.blocks, i, true);
    }

    // ---- rt_memheap_free -------------------------------------------------------------------

    lemma LinksHere(i: nat)
      requires Rings() && i + 1 < |h.blocks|
      ensures var bs := h.blocks; var a, n := bs[i].addr, |bs|;
              && a in next && next[a] == bs[i + 1].addr && bs[i + 1].addr in used && used[bs[i + 1].addr] == bs[i + 1].used
              && a in prev && prev[a] == (if i == 0 then bs[n - 1].addr else bs[i - 1].addr)
              && prev[a] in used && used[prev[a]] == (if i == 0 then bs[n - 1].used else bs[i - 1].used)
    {
      hide IsRing, Addrs;
      RingAt(next, prev, Addrs(h.blocks), i);
    }

    method Refund(n: int)
      requires Rings()
      modifies `available, `h
      ensures Rings() && h == old(h).(available := old(h).available + n)
    {
      hide IsRing, Marks;
      available := available + n;
      h := h.(available := h.available + n);
    }

    /** rt_memheap_free. */
    method Free(p: Option<int>)
      requires Valid() && (p.Some? ==> Freeable(h.blocks, IndexOf(h.blocks, p.value)))
      modifies this
      ensures Valid() && bytes == old(bytes)
      ensures h == if p == None then old(h) else HeapSpec.Free(old(h), L, IndexOf(old(h).blocks, p.value))
    {
      hide Rings, HeapOk, HeapSpec.Free, IndexOf;
      if p.Some? { FreeUsed(p.value); }
    }

    method FreeUsed(block: int)
      requires Valid() && Freeable(h.blocks, IndexOf(h.blocks, block))
      modifies this
      ensures Valid() && h == HeapSpec.Free(old(h), L, IndexOf(old(h).blocks, block)) && bytes == old(bytes)
    {
      hide Rings, HeapOk, BlocksOk, Absorbed, Edit, Without, HeapSpec.Free, IndexOf;
      ghost var was, i := h, IndexOf(h.blocks, block);
      FreeOk(h, L, i);
      FreeReady(h, L, i);
      var a, insert := block, true;
      LinksHere(i);
      Mark(a, false, i);
      Refund(next[a] - a - L.header);
      LinksHere(i);
      if !used[prev[a]] {
        Refund(L.header);
        a := prev[a];
        AbsorbNext(a, i - 1);
        insert := false;
      }
      ghost var lo := Lo(was.blocks, i);
      assert h.blocks == LeftFreed(was.blocks, i);
      LinksHere(lo);
      if !used[next[a]] {
        Refund(L.header);
        var n := next[a];
        AbsorbNext(a, lo);
        UnlinkFree(n);
      }
      if insert {
        PushFree(a);
      }
      FreeSteps(was, L, i, h);
    }

    // ---- rt_memheap_realloc ----------------------------------------------------------------

    /** In place, into the free block after it. */
    method Grow(a: int, had: int, size: int, ghost i: nat)
      requires Valid() && CanResize(h, L, i, a, size) && had == Size(h.blocks, L.header, i) < size
      modifies this
      ensures Valid() && h == ResizeIntoNext(old(h), L, i, size)
      ensures OthersKept(old(h).blocks, L, a, old(bytes), bytes) && ContentsKept(old(h).blocks, L, i, size, a, old(bytes), bytes)
    {
      hide Rings, HeapOk, BlocksOk, Absorbed, Inserted, Edit, Without, Addrs, CanResize, ResizeIntoNext, OthersKept, ContentsKept, HeaderClear, WrittenIn;
      ghost var was, bytes0 := h, bytes;
      var b := a + size + L.header;
      ResizeFacts(h, L, i, a, b, size);
      LinksHere(i);
      Spend(size - had);
      var n := next[a];
      UnlinkFree(n);
      AbsorbNext(a, i);
      SplitAfter(a, b, i);
      PushFree(b);
      GrowSteps(was, L, i, a, b, size, h);
      InPlaceKept(was.blocks, L, i, size, a, b, bytes0, bytes);
    }

    /** In place, giving back the end of the block. */
    method Shrink(a: int, size: int, ghost i: nat)
      requires Valid() && CanShrink(h, L, i, a, size)
      modifies this
      ensures Valid() && h == Shrunk(old(h), L, i, size)
      ensures OthersKept(old(h).blocks, L, a, old(bytes), bytes) && ContentsKept(old(h).blocks, L, i, size, a, old(bytes), bytes)
    {
      hide Rings, HeapOk, BlocksOk, Absorbed, Inserted, Edit, Without, Addrs, CanShrink, Shrunk, Joined, OthersKept, ContentsKept, HeaderClear, WrittenIn;
      ghost var was, bytes0 := h, bytes;
      var b := a + size + L.header;
      ShrinkFacts(h, L, i, a, b, size);
      SplitAfter(a, b, i);
      JoinNext(b, i + 1);
      PushFree(b);
      LinksHere(i + 1);
      Refund(next[b] - b - L.header);
      assert Stepped(was, L.header, i, b, h);
      ShrinkSteps(was, L, i, a, b, size, h);
      InPlaceKept(was.blocks, L, i, size, a, b, bytes0, bytes);
    }

    /** The new free block b takes in a free block after it. */
    method JoinNext(b: int, ghost i: nat)
      requires Rings() && i + 1 < |h.blocks| && h.blocks[i].addr == b
      requires !h.blocks[i + 1].used ==> i + 2 < |h.blocks| && h.blocks[i + 1].addr in h.free
      modifies `next, `prev, `nextFree, `prevFree, `available, `h
      ensures Rings() && h == Joined(old(h), L.header, i)
    {
      hide Rings, Absorbed, Without, Addrs;
      LinksHere(i);
      var n := next[b];
      if !used[n] {
        LinksHere(i + 1);
        Refund(-(next[n] - n - L.header));
        AbsorbedAddrs(h.blocks, i);
        AbsorbNext(b, i);
        UnlinkFree(n);
      }
    }

    /** rt_memcpy. */
    method Copy(dst: int, src: int, n: int)
      requires dst + n <= src || src + n <= dst
      modifies `bytes
      ensures old(Rings()) ==> Rings()
      ensures Copied(dst, src, n, old(bytes), bytes)
    {
      hide Rings, Copied, CopiedTo;
      CopyCopies(dst, src, n, bytes);
      bytes := CopiedTo(dst, src, n, bytes);
    }

    /** Into a new block elsewhere. */
    method MoveTo(a: int, had: int, size: nat, ghost i: nat) returns (r: Option<int>)
      requires Valid() && Freeable(h.blocks, i) && i == IndexOf(h.blocks, a) && had == Size(h.blocks, L.header, i) < size
      modifies this
      ensures Valid() && (h, r) == Move(old(h), L, i, size)
      ensures OthersKept(old(h).blocks, L, a, old(bytes), bytes) && (r == None ==> bytes == old(bytes))
      ensures r.Some? ==> ContentsKept(old(h).blocks, L, i, size, r.value, old(bytes), bytes)
    {
      hide Rings, HeapOk, BlocksOk, IndexOf, HeapSpec.Free, HeapSpec.Alloc, LiveKept, ContentsKept, Copied, Spaced;
      ghost var was, bytes0 := h, bytes;
      r := Alloc(size);
      if r == None {
        AllocFailsIff(was, L, size);
        SameKept(was.blocks, L, a, bytes);
      } else {
        OldBlockStays(was, L, i, size);
        ghost var bytes1 := bytes;
        ghost var t := MoveTarget(was, L, size);
        HeapSpaced(was, L);
        PayloadsApart(was.blocks, L.header, i, t);
        Copy(r.value + L.header, a + L.header, had);
        CopyKept(was.blocks, L, i, t, size, had, bytes0, bytes1, bytes);
        FreeUsed(a);
      }
    }

    /** rt_memheap_realloc: the null pointer asks for a new block. */
    method Realloc(p: Option<int>, request: nat) returns (r: Option<int>)
      requires Valid() && (p.Some? ==> Freeable(h.blocks, IndexOf(h.blocks, p.value)))
      modifies this
      ensures Valid() && (r == None ==> bytes == old(bytes))
      ensures p == None ==>
                && (h, r) == (if request == 0 then (old(h), None) else HeapSpec.Alloc(old(h), L, request))
                && LiveKept(old(h).blocks, L, old(bytes), bytes)
      ensures p.Some? ==>
                && (h, r) == HeapSpec.Realloc(old(h), L, IndexOf(old(h).blocks, p.value), request)
                && OthersKept(old(h).blocks, L, p.value, old(bytes), bytes)
      ensures p.Some? && r.Some? ==> ContentsKept(old(h).blocks, L, IndexOf(old(h).blocks, p.value), L.Round(request), r.value, old(bytes), bytes)
    {
      hide Rings, HeapOk, BlocksOk, IndexOf, ResizeIntoNext, ShrinkAlone, HeapSpec.Free, Move, OthersKept, ContentsKept, LiveKept, HeapSpec.Alloc;
      HeapSpaced(h, L);
      if p.Some? { SameKept(h.blocks, L, p.value, bytes); }
      SameLive(h.blocks, L, bytes);
      if request == 0 {
        Free(p);
        return None;
      }
      if p == None {
        AllocRounded(h, L, request);
        r := Alloc(L.Round(request));
      } else {
        r := Resize(p.value, request);
      }
    }

    method Resize(block: int, request: nat) returns (r: Option<int>)
      requires Valid() && Freeable(h.blocks, IndexOf(h.blocks, block)) && request > 0
      modifies this
      ensures Valid() && (h, r) == HeapSpec.Realloc(old(h), L, IndexOf(old(h).blocks, block), request)
      ensures OthersKept(old(h).blocks, L, block, old(bytes), bytes) && (r == None ==> bytes == old(bytes))
      ensures r.Some? ==> ContentsKept(old(h).blocks, L, IndexOf(old(h).blocks, block), L.Round(request), r.value, old(bytes), bytes)
    {
      hide Rings, HeapOk, BlocksOk, IndexOf, ResizeIntoNext, ShrinkAlone, HeapSpec.Free, Move, AlignUp, Multiple, OthersKept;
      ghost var i := IndexOf(h.blocks, block);
      HeapSpaced(h, L);
      BlockFacts(h, L, i);
      SameKept(h.blocks, L, block, bytes);
      var size := L.Round(request);
      RoundIsLeast(L, request, 0);
      LinksHere(i);
      var n := next[block];
      var had := n - block - L.header;
      if size > had {
        if !used[n] {
          LinksHere(i + 1);
          if next[n] - n - L.header + had > size + L.mini {
            GrowRoom(h, L, i, size);
            Grow(block, had, size, i);
            return Some(block);
          }
        }
        r := MoveTo(block, had, size, i);
      } else {
        if size + L.header + L.mini < had {
          Shrink(block, size, i);
        }
        r := Some(block);
      }
    }
  }
}
