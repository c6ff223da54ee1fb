/** What the calls of rt-thread/src/memheap.c give and take, told in used blocks and bytes. */
module HeapLaws {
  import opened Alignment
  import opened BlockEdits
  import opened HeapSpec
  import opened Lists
  import opened Tiling
  import opened UsedBlocks

  lemma HeapTail(h: Heap, L: Layout)
    requires HeapOk(h, L)
    ensures Tail(h.blocks, L.header) && |h.blocks| >= 2 && h.blocks[0].addr == h.start && h.blocks[|h.blocks| - 1] == Block(h.end, true)
    ensures L.Valid() && Spaced(h.blocks, L.header) && h.pool - h.available <= h.maxUsed
  {
  }

  /** Of two heaps over the same memory with the same used blocks all blocks are the same, and the
      free bytes. */
  lemma UsedDecide(h: Heap, g: Heap, L: Layout)
    requires HeapOk(h, L) && HeapOk(g, L) && h.start == g.start && h.end == g.end && Used(h.blocks, L.header) == Used(g.blocks, L.header)
    ensures h.blocks == g.blocks && h.available == g.available
  {
    hide HeapOk, Used;
    HeapTail(h, L);
    HeapTail(g, L);
    UsedDetermine(h.blocks, g.blocks, L.header);
    HeapSpaced(h, L);
    HeapSpaced(g, L);
  }

  // -------------------------------------------------------------------------------------
  // Allocating
  // -------------------------------------------------------------------------------------

  /** A free block of f bytes serves a request of `size` and hands out n of them: all, or just the
      size if a header and the least payload would be left. */
  predicate Portion(L: Layout, f: int, size: int, n: int) {
    size <= f && n == if f < size + L.header + L.mini then f else size
  }

  /** A success adds exactly one used block.  It starts where a free one did, has at least the rounded
      size and less than a block more, and what it and its header take is gone from the free bytes. */
  lemma AllocGives(h: Heap, L: Layout, request: nat) returns (f: int, n: int)
    requires HeapOk(h, L) && Alloc(h, L, request).1.Some?
    ensures var (h', r) := Alloc(h, L, request); var size := L.Round(request);
            && HeapOk(h', L) && h'.start == h.start && h'.end == h.end
            && Item(r.value, f, false) in Items(h.blocks, L.header) && Portion(L, f, size, n)
            && request <= size <= n < size + L.header + L.mini
            && Used(h'.blocks, L.header) == Used(h.blocks, L.header) + {Item(r.value, n, true)}
            && h'.available == h.available - n - (if n < f then L.header else 0)
            && h'.maxUsed == if h.maxUsed < h.pool - h'.available then h.pool - h'.available else h.maxUsed
  {
    hide HeapOk, BlocksOk, Alloc, Items, Edit;
    HeapTail(h, L);
    var size := L.Round(request);
    RoundIsLeast(L, request, 0);
    var i := AllocPicks(h, L, request);
    var t := AllocTakes(h, L, request);
    var a := h.blocks[i].addr;
    f := Size(h.blocks, L.header, i);
    ItemAt(h.blocks, L.header, i);
    if f < size + L.header + L.mini {
      n := f;
      TakeUsed(h.blocks, L.header, i, [Block(a, true)]);
    } else {
      n := size;
      TakeUsed(h.blocks, L.header, i, [Block(a, true), Block(a + size + L.header, false)]);
    }
  }

  /** The block taken is the first in the free list that is large enough; the rest of it, if any, is
      the first one now, and the others keep their order. */
  lemma AllocFirstFit(h: Heap, L: Layout, request: nat) returns (k: nat, f: int)
    requires HeapOk(h, L) && Alloc(h, L, request).1.Some?
    ensures var (h', r) := Alloc(h, L, request); var size := L.Round(request);
            && k < |h.free| && h.free[k] == r.value
            && (forall j, n :: 0 <= j < k && Item(h.free[j], n, false) in Items(h.blocks, L.header) ==> n < size)
            && Item(r.value, f, false) in Items(h.blocks, L.header)
            && h'.free == (if f < size + L.header + L.mini then [] else [r.value + size + L.header]) + Without(h.free, r.value)
  {
    hide HeapOk, BlocksOk, Items, Edit, IndexOf;
    HeapTail(h, L);
    var size := L.Round(request);
    var i := AllocPicks(h, L, request);
    k := FirstFit(h.blocks, L.header, h.free, size);
    f := Size(h.blocks, L.header, i);
    ItemAt(h.blocks, L.header, i);
    forall j, n | 0 <= j < k && Item(h.free[j], n, false) in Items(h.blocks, L.header) ensures n < size {
      FreeSizeAt(h, L, Item(h.free[j], n, false));
    }
  }

  lemma FreeSizeAt(h: Heap, L: Layout, it: Item)
    requires HeapOk(h, L) && it in Items(h.blocks, L.header)
    ensures SizeAt(h.blocks, L.header, it.addr) == it.size
  {
    hide HeapOk, BlocksOk, Items, IndexOf;
    HeapTail(h, L);
    var i := ItemIndex(h.blocks, L.header, it);
    var j := IndexOf(h.blocks, it.addr);
    IndexUnique(h.blocks, L.header, i, if j < |h.blocks| then j else i);
  }

  // -------------------------------------------------------------------------------------
  // Freeing
  // -------------------------------------------------------------------------------------

  /** Exactly the freed block is no longer used; with `UsedDecide` this says what all blocks are. */
  lemma FreeGives(h: Heap, L: Layout, i: nat)
    requires HeapOk(h, L) && Freeable(h.blocks, i)
    ensures var h' := Free(h, L, i);
            && HeapOk(h', L) && h'.start == h.start && h'.end == h.end && h'.maxUsed == h.maxUsed
            && Used(h'.blocks, L.header) == Used(h.blocks, L.header) - {Item(h.blocks[i].addr, Size(h.blocks, L.header, i), true)}
  {
    hide HeapOk, BlocksOk, Used, Edit;
    HeapTail(h, L);
    FreeOk(h, L, i);
    FreeUsedItems(h.blocks, L.header, i);
  }

  /** A freed block is the first to be tried again: it serves the next request it is large enough
      for, if nothing before it was free and the free bytes suffice. */
  lemma FreedServesNext(h: Heap, L: Layout, i: nat, request: nat)
    requires HeapOk(h, L) && Freeable(h.blocks, i) && (i == 0 || h.blocks[i - 1].used)
    requires L.align > 0 && L.Round(request) <= Size(h.blocks, L.header, i) && L.Round(request) < Free(h, L, i).available
    ensures Alloc(Free(h, L, i), L, request).1 == Some(h.blocks[i].addr)
  {
    hide HeapOk, BlocksOk, Items, IndexOf, Edit, Free;
    HeapTail(h, L);
    FreeOk(h, L, i);
    var h', a := Free(h, L, i), h.blocks[i].addr;
    FreedFirst(h, L, i);
    var m := FreedItem(h, L, i);
    FreeSizeAt(h', L, Item(a, m, false));
    FitsHere(h', L, a, L.Round(request));
  }

  lemma FreedFirst(h: Heap, L: Layout, i: nat)
    requires Freeable(h.blocks, i) && (i == 0 || h.blocks[i - 1].used)
    ensures Free(h, L, i).free != [] && Free(h, L, i).free[0] == h.blocks[i].addr
  {
  }

  lemma FreedItem(h: Heap, L: Layout, i: nat) returns (m: int)
    requires HeapOk(h, L) && Freeable(h.blocks, i) && (i == 0 || h.blocks[i - 1].used)
    ensures Item(h.blocks[i].addr, m, false) in Items(Free(h, L, i).blocks, L.header) && m >= Size(h.blocks, L.header, i)
  {
    hide HeapOk, BlocksOk, Items, Free;
    HeapTail(h, L);
    FreeItems(h, L, i);
    var hi := Hi(h.blocks, i);
    m := Merged(h.blocks, L.header, i).size;
    Between(h.blocks, L.header, i, i, hi + 1);
    InOrder(h.blocks, L.header, i + 1, hi + 1);
  }

  lemma FitsHere(h: Heap, L: Layout, a: int, size: int)
    requires HeapOk(h, L) && h.free != [] && h.free[0] == a && SizeAt(h.blocks, L.header, a) >= size
    ensures FirstFit(h.blocks, L.header, h.free, size) == 0 && IndexOf(h.blocks, a) + 1 < |h.blocks|
  {
    hide HeapOk, BlocksOk, Items;
    assert a in h.free;
    var i := SizeAtItem(h, L, a);
  }

  // -------------------------------------------------------------------------------------
  // Reallocating
  // -------------------------------------------------------------------------------------

  /** The old block makes way for the one at b, of n bytes; every other used block stays. */
  ghost predicate Replaced(h: Heap, h': Heap, L: Layout, i: nat, b: int, n: int)
    requires i + 1 < |h.blocks|
  {
    && HeapOk(h', L) && h'.start == h.start && h'.end == h.end
    && Used(h'.blocks, L.header) == Used(h.blocks, L.header) - {Item(h.blocks[i].addr, Size(h.blocks, L.header, i), true)} + {Item(b, n, true)}
  }

  /** A block that is answered has at least the rounded size and at most a header and the least
      payload more; every other used block stays as it is, and every byte that is not in use is free
      (`UsedDecide`).  A block that stayed in place has just the rounded size if that was more than
      it had, or so much less that the rest makes a block. */
  lemma ReallocGives(h: Heap, L: Layout, i: nat, request: nat) returns (n: int)
    requires HeapOk(h, L) && Freeable(h.blocks, i) && Realloc(h, L, i, request).1.Some?
    ensures var (h', r) := Realloc(h, L, i, request); var size, had := L.Round(request), Size(h.blocks, L.header, i);
            && Replaced(h, h', L, i, r.value, n) && request <= size <= n <= size + L.header + L.mini
            && (r.value == h.blocks[i].addr ==> n == if size > had || size + L.header + L.mini < had then size else had)
            && (r.value != h.blocks[i].addr ==> size > had && r == Alloc(h, L, request).1)
  {
    hide HeapOk, BlocksOk, Used, Edit, Free, Move, ResizeIntoNext, ShrinkAlone, Alloc;
    HeapTail(h, L);
    RoundIsLeast(L, request, 0);
    ReallocOk(h, L, i, request);
    var size, had := L.Round(request), Size(h.blocks, L.header, i);
    KeptUsed(h.blocks, L.header, i);
    if size > had && !Grows(h, L, i, size) {
      n := MoveGives(h, L, i, size);
      RoundTwice(L, request);
      AllocRounded(h, L, request);
    } else if size <= had && size + L.header + L.mini >= had {
      n := had;
    } else if !h.blocks[i + 1].used {
      n := size;
      IntoNextGives(h, L, i, size);
    } else {
      n := size;
      AloneGives(h, L, i, size);
    }
  }

  lemma IntoNextGives(h: Heap, L: Layout, i: nat, size: int)
    requires HeapOk(h, L) && Freeable(h.blocks, i) && i + 2 < |h.blocks| && !h.blocks[i + 1].used
    ensures var h' := ResizeIntoNext(h, L, i, size);
            && h'.start == h.start && h'.end == h.end
            && Used(h'.blocks, L.header) ==
                 Used(h.blocks, L.header) - {Item(h.blocks[i].addr, Size(h.blocks, L.header, i), true)} + {Item(h.blocks[i].addr, size, true)}
  {
    hide HeapOk, BlocksOk, Used, Edit;
    HeapTail(h, L);
    ResizeUsed(h.blocks, L.header, i, i + 1, h.blocks[i].addr + size + L.header);
  }

  lemma AloneGives(h: Heap, L: Layout, i: nat, size: int)
    requires HeapOk(h, L) && Freeable(h.blocks, i)
    ensures var h' := ShrinkAlone(h, L, i, size);
            && h'.start == h.start && h'.end == h.end
            && Used(h'.blocks, L.header) ==
                 Used(h.blocks, L.header) - {Item(h.blocks[i].addr, Size(h.blocks, L.header, i), true)} + {Item(h.blocks[i].addr, size, true)}
  {
    hide HeapOk, BlocksOk, Used, Edit;
    HeapTail(h, L);
    ResizeUsed(h.blocks, L.header, i, i, h.blocks[i].addr + size + L.header);
  }

  lemma MoveGives(h: Heap, L: Layout, i: nat, size: nat) returns (n: int)
    requires HeapOk(h, L) && Freeable(h.blocks, i) && Move(h, L, i, size).1.Some?
    ensures var (h', r) := Move(h, L, i, size);
            && h'.start == h.start && h'.end == h.end && L.align > 0 && L.Round(size) <= n < L.Round(size) + L.header + L.mini
            && r.value != h.blocks[i].addr && r == Alloc(h, L, size).1
            && Used(h'.blocks, L.header) ==
                 Used(h.blocks, L.header) - {Item(h.blocks[i].addr, Size(h.blocks, L.header, i), true)} + {Item(r.value, n, true)}
  {
    hide HeapOk, BlocksOk, Used, Free, Alloc, Items, Portion;
    HeapTail(h, L);
    OldBlockStays(h, L, i, size);
    var f;
    f, n := AllocGives(h, L, size);
    var (h1, r) := Alloc(h, L, size);
    var i1 := IndexOf(h1.blocks, h.blocks[i].addr);
    FreeGives(h1, L, i1);
    assert Item(r.value, n, true) != Item(h.blocks[i].addr, Size(h.blocks, L.header, i), true);
  }

  /** Reallocating in place, the free bytes change by what the block gained or gave: a header more
      goes when the end of a block before a used one becomes a block. */
  lemma ReallocInPlace(h: Heap, L: Layout, i: nat, request: nat)
    requires HeapOk(h, L) && Freeable(h.blocks, i) && Realloc(h, L, i, request).1 == Some(h.blocks[i].addr)
    ensures var h' := Realloc(h, L, i, request).0; var size, had := L.Round(request), Size(h.blocks, L.header, i);
            h'.available == h.available +
              if size > had then had - size
              else if size + L.header + L.mini >= had then 0
              else had - size - (if h.blocks[i + 1].used then L.header else 0)
    ensures var h' := Realloc(h, L, i, request).0; h'.maxUsed == if h.maxUsed < h.pool - h'.available then h.pool - h'.available else h.maxUsed
  {
    hide HeapOk, BlocksOk, Edit, Free, Alloc;
    HeapTail(h, L);
    if request > 0 && L.Round(request) > Size(h.blocks, L.header, i) && !Grows(h, L, i, L.Round(request)) { OldBlockStays(h, L, i, L.Round(request)); }
  }

  /** A block grows in place exactly if the next one is free and both together have more than the
      rounded size and the least payload. */
  lemma StaysIff(h: Heap, L: Layout, i: nat, request: nat)
    requires HeapOk(h, L) && Freeable(h.blocks, i) && request > 0 && L.align > 0 && L.Round(request) > Size(h.blocks, L.header, i)
    ensures Realloc(h, L, i, request).1 == Some(h.blocks[i].addr) <==>
              !h.blocks[i + 1].used && h.blocks[i + 2].addr - h.blocks[i].addr - 2 * L.header > L.Round(request) + L.mini
  {
    hide HeapOk, BlocksOk, Edit, Free, Alloc;
    HeapTail(h, L);
    if !Grows(h, L, i, L.Round(request)) && Alloc(h, L, L.Round(request)).1.Some? { OldBlockStays(h, L, i, L.Round(request)); }
  }

  /** Asked for no bytes, a reallocation is a free. */
  lemma ReallocToNothing(h: Heap, L: Layout, i: nat)
    requires HeapOk(h, L) && Freeable(h.blocks, i)
    ensures var (h', r) := Realloc(h, L, i, 0);
            && r == None && HeapOk(h', L)
            && Used(h'.blocks, L.header) == Used(h.blocks, L.header) - {Item(h.blocks[i].addr, Size(h.blocks, L.header, i), true)}
  {
    hide HeapOk, Free, Used;
    FreeGives(h, L, i);
  }

  // -------------------------------------------------------------------------------------
  // What callers hold
  // -------------------------------------------------------------------------------------

  /** The blocks a caller holds after a call: it is given one, gives one back, or has one exchanged. */
  function Held(h: Heap, L: Layout, c: Call, held: set<int>): set<int>
    requires HeapOk(h, L) && Legal(h, c) && L.align > 0
  {
    match c
    case CallAlloc(n) => var r := Alloc(h, L, n).1; if r.Some? then held + {r.value} else held
    case CallFree(a) => held - {a}
    case CallRealloc(a, n) =>
      var r := Realloc(h, L, IndexOf(h.blocks, a), n).1;
      if r.Some? then held - {a} + {r.value} else if n == 0 then held - {a} else held
  }

  lemma StepHeld(h: Heap, L: Layout, c: Call, h': Heap, held: set<int>)
    requires HeapOk(h, L) && Step(h, L, c, h') && held == Addresses(Used(h.blocks, L.header))
    ensures L.align > 0 && Legal(h, c) && Addresses(Used(h'.blocks, L.header)) == Held(h, L, c, held)
  {
    hide HeapOk, BlocksOk, Used, Alloc, Free, Realloc, Portion, IndexOf;
    HeapTail(h, L);
    match c
    case CallAlloc(n) =>
      if Alloc(h, L, n).1.Some? { var _, _ := AllocGives(h, L, n); } else { AllocFailsIff(h, L, n); }
    case CallFree(a) =>
      var i := IndexOf(h.blocks, a);
      FreeGives(h, L, i);
      OneLess(h.blocks, L.header, i);
    case CallRealloc(a, n) =>
      var i := IndexOf(h.blocks, a);
      OneLess(h.blocks, L.header, i);
      if n == 0 {
        ReallocToNothing(h, L, i);
      } else if Realloc(h, L, i, n).1.Some? {
        var _ := ReallocGives(h, L, i, n);
      } else {
        ReallocFailsIff(h, L, i, n);
      }
  }

  /** What callers hold after each call of a run. */
  ghost predicate Ledger(states: seq<Heap>, calls: seq<Call>, L: Layout, held: seq<set<int>>)
    requires L.align > 0
  {
    && |states| == |calls| + 1 == |held| && held[0] == {}
    && forall k, k' :: 0 <= k < |calls| && k' == k + 1 ==>
         HeapOk(states[k], L) && Legal(states[k], calls[k]) ==> held[k'] == Held(states[k], L, calls[k], held[k])
  }

  /** In every state of every run the used blocks are exactly those that callers hold. */
  lemma {:induction false} RunHeld(states: seq<Heap>, calls: seq<Call>, L: Layout, start: int, size: nat, held: seq<set<int>>, k: nat)
    requires L.Valid() && Multiple(start, L.align) && AlignDown(size, L.align) >= 2 * L.header
    requires Run(states, calls, L, start, size) && Ledger(states, calls, L, held) && k <= |calls|
    ensures Addresses(Used(states[k].blocks, L.header)) == held[k]
  {
    hide HeapOk, Init, Legal, Held, Used, Multiple, AlignDown;
    if k == 0 {
      NothingUsed(L, start, size);
    } else {
      RunHeld(states, calls, L, start, size, held, k - 1);
      RunOk(states, calls, L, start, size, k - 1);
      assert Step(states[k - 1], L, calls[k - 1], states[k]);
      StepHeld(states[k - 1], L, calls[k - 1], states[k], held[k - 1]);
    }
  }

  lemma NothingUsed(L: Layout, start: int, size: nat)
    requires L.align > 0
    ensures Used(Init(L, start, size).blocks, L.header) == {}
  {
    hide AlignDown, Multiple, Used;
    var bs := Init(L, start, size).blocks;
    OneFree(bs[0], bs[1], L.header);
    assert bs == [bs[0], bs[1]];
  }
}
