/** What the calls of rt-thread/src/mem.c give and take, told in used blocks and bytes. */
module SmallLaws {
  import opened Alignment
  import opened BlockEdits
  import opened Lists
  import opened SmallSpec
  import opened Tiling
  import opened UsedBlocks

  lemma SmallTail(s: Small, L: Layout)
    requires SmallOk(s, L)
    ensures Tail(s.blocks, L.header) && |s.blocks| >= 2 && s.blocks[0].addr == 0 && s.blocks[|s.blocks| - 1] == Block(s.total + L.header, true)
    ensures L.Valid() && Spaced(s.blocks, L.header) && s.used <= s.max
  {
  }

  /** Of two heaps of one size with the same used blocks all blocks are the same, the lowest free one
      and the used bytes too. */
  lemma UsedDecide(s: Small, g: Small, L: Layout)
    requires SmallOk(s, L) && SmallOk(g, L) && s.total == g.total && Used(s.blocks, L.header) == Used(g.blocks, L.header)
    ensures s.blocks == g.blocks && s.lfree == g.lfree && s.used == g.used
  {
    hide BlocksOk, Used, UsedSum, FirstFree;
    SmallTail(s, L);
    SmallTail(g, L);
    UsedDetermine(s.blocks, g.blocks, L.header);
  }

  /** A success adds exactly one used block: at the lowest address of a free block that is large
      enough, of at least the rounded size and less than a block more. */
  lemma AllocGives(s: Small, L: Layout, request: nat) returns (f: int, n: int)
    requires SmallOk(s, L) && Alloc(s, L, request).1.Some?
    ensures var (s', r) := Alloc(s, L, request); var size := L.Round(request);
            && SmallOk(s', L) && s'.total == s.total
            && Item(r.value, f, false) in Items(s.blocks, L.header)
            && (forall it :: it in Items(s.blocks, L.header) && !it.used && it.size >= size ==> r.value <= it.addr)
            && request <= size <= n < size + L.header + L.mini && n <= f
            && n == (if f < size + L.header + L.mini then f else size)
            && Used(s'.blocks, L.header) == Used(s.blocks, L.header) + {Item(r.value, n, true)}
            && s'.used == s.used + n + L.header && s'.max == if s.max < s'.used then s'.used else s.max
  {
    hide SmallOk, BlocksOk, Items, Edit, FirstFree, UsedSum, AlignUp;
    SmallTail(s, L);
    var size, bs := L.Round(request), s.blocks;
    RoundIsLeast(L, request, 0);
    AllocOk(s, L, request);
    var i := FirstFit(bs, L.header, size);
    f := Size(bs, L.header, i);
    ItemAt(bs, L.header, i);
    forall it | it in Items(bs, L.header) && !it.used && it.size >= size ensures bs[i].addr <= it.addr {
      var j := ItemIndex(bs, L.header, it);
      assert Fits(bs, L.header, j, size);
      InOrder(bs, L.header, i, j);
    }
    if f < size + L.header + L.mini {
      n := f;
      TakeUsed(bs, L.header, i, [Block(bs[i].addr, true)]);
    } else {
      n := size;
      TakeUsed(bs, L.header, i, [Block(bs[i].addr, true), Block(bs[i].addr + size + L.header, false)]);
    }
  }

  /** Exactly the freed block is no longer used; with `UsedDecide` this says what all blocks are. */
  lemma FreeGives(s: Small, L: Layout, i: nat)
    requires SmallOk(s, L) && Freeable(s.blocks, i)
    ensures var s' := Free(s, L, i);
            && SmallOk(s', L) && s'.total == s.total && s'.max == s.max
            && s'.used == s.used - Size(s.blocks, L.header, i) - L.header
            && Used(s'.blocks, L.header) == Used(s.blocks, L.header) - {Item(s.blocks[i].addr, Size(s.blocks, L.header, i), true)}
  {
    hide SmallOk, BlocksOk, Used, Edit, FirstFree, UsedSum;
    SmallTail(s, L);
    FreeOk(s, L, i);
    FreeUsedItems(s.blocks, L.header, i);
  }

  /** The old block makes way for the one at b, of n bytes; every other used block stays. */
  ghost predicate Replaced(s: Small, s': Small, L: Layout, i: nat, b: int, n: int)
    requires i + 1 < |s.blocks|
  {
    && SmallOk(s', L) && s'.total == s.total && s'.used == s.used + n - Size(s.blocks, L.header, i)
    && Used(s'.blocks, L.header) == Used(s.blocks, L.header) - {Item(s.blocks[i].addr, Size(s.blocks, L.header, i), true)} + {Item(b, n, true)}
  }

  /** A block that is answered has at least the aligned size.  One that stayed in place has exactly
      that: it had it before, or its end was cut off to be a block.  A new one is where an allocation
      of the size would be, and less than a block larger than its rounded size. */
  lemma ReallocGives(s: Small, L: Layout, least: nat, i: nat, request: nat) returns (n: int)
    requires SmallOk(s, L) && Freeable(s.blocks, i) && Realloc(s, L, least, i, request).1.Some?
    ensures L.align > 0
    ensures var (s', r) := Realloc(s, L, least, i, request); var size, had := AlignUp(request, L.align), Size(s.blocks, L.header, i);
            && Replaced(s, s', L, i, r.value, n) && request <= size <= n
            && (r.value == s.blocks[i].addr <==> size == had || size + L.header + least < had)
            && (r.value == s.blocks[i].addr ==> n == size && s'.max == s.max)
            && (r.value != s.blocks[i].addr ==>
                  r == Alloc(s, L, request).1 && L.Round(request) <= n < L.Round(request) + L.header + L.mini)
  {
    hide SmallOk, BlocksOk, Used, Edit, Free, Move, Trim, Alloc, AlignUp, Multiple;
    SmallTail(s, L);
    AlignUpIsLeast(request, L.align, 0);
    ReallocOk(s, L, least, i, request);
    var size, had := AlignUp(request, L.align), Size(s.blocks, L.header, i);
    if size == had {
      n := had;
      KeptUsed(s.blocks, L.header, i);
    } else if size + L.header + least < had {
      n := size;
      TrimGives(s, L, i, size);
    } else {
      n := MoveGives(s, L, i, size);
      RoundTwice(L, request);
      AllocAligned(s, L, request);
    }
  }

  lemma TrimGives(s: Small, L: Layout, i: nat, size: int)
    requires SmallOk(s, L) && Freeable(s.blocks, i)
    ensures var s' := Trim(s, L, i, size);
            && s'.total == s.total && s'.used == s.used + size - Size(s.blocks, L.header, i) && s'.max == s.max
            && Used(s'.blocks, L.header) ==
                 Used(s.blocks, L.header) - {Item(s.blocks[i].addr, Size(s.blocks, L.header, i), true)} + {Item(s.blocks[i].addr, size, true)}
  {
    hide SmallOk, BlocksOk, Used, Edit, FirstFree, UsedSum;
    SmallTail(s, L);
    ResizeUsed(s.blocks, L.header, i, Hi(s.blocks, i), s.blocks[i].addr + size + L.header);
  }

  lemma MoveGives(s: Small, L: Layout, i: nat, size: nat) returns (n: int)
    requires SmallOk(s, L) && Freeable(s.blocks, i) && Move(s, L, i, size).1.Some?
    ensures var (s', r) := Move(s, L, i, size);
            && s'.total == s.total && L.align > 0 && L.Round(size) <= n < L.Round(size) + L.header + L.mini
            && s'.used == s.used + n - Size(s.blocks, L.header, i)
            && r.value != s.blocks[i].addr && r == Alloc(s, L, size).1
            && Used(s'.blocks, L.header) ==
                 Used(s.blocks, L.header) - {Item(s.blocks[i].addr, Size(s.blocks, L.header, i), true)} + {Item(r.value, n, true)}
  {
    hide SmallOk, BlocksOk, Used, Free, Alloc, Items;
    SmallTail(s, L);
    OldBlockStays(s, L, i, size);
    var f;
    f, n := AllocGives(s, L, size);
    var (s1, r) := Alloc(s, L, size);
    var i1 := IndexOf(s1.blocks, s.blocks[i].addr);
    FreeGives(s1, L, i1);
    assert Item(r.value, n, true) != Item(s.blocks[i].addr, Size(s.blocks, L.header, i), true);
  }

  /** Asked for no bytes, a reallocation is a free. */
  lemma ReallocToNothing(s: Small, L: Layout, least: nat, i: nat)
    requires SmallOk(s, L) && Freeable(s.blocks, i) && s.total >= 0
    ensures var (s', r) := Realloc(s, L, least, i, 0);
            && r == None && SmallOk(s', L) && s'.total == s.total
            && Used(s'.blocks, L.header) == Used(s.blocks, L.header) - {Item(s.blocks[i].addr, Size(s.blocks, L.header, i), true)}
  {
    hide SmallOk, Free, Used, AlignUp, Multiple;
    SmallTail(s, L);
    AllocAligned(s, L, 0);
    FreeGives(s, L, i);
  }

  // -------------------------------------------------------------------------------------
  // What callers hold
  // -------------------------------------------------------------------------------------

  /** The blocks a caller holds after a call: it is given one, gives one back, or has one exchanged. */
  function Held(s: Small, L: Layout, least: nat, c: Call, held: set<int>): set<int>
    requires SmallOk(s, L) && Legal(s, c) && L.align > 0
  {
    match c
    case CallAlloc(n) => var r := Alloc(s, L, n).1; if r.Some? then held + {r.value} else held
    case CallFree(a) => held - {a}
    case CallRealloc(a, n) =>
      var r := Realloc(s, L, least, IndexOf(s.blocks, a), n).1;
      if r.Some? then held - {a} + {r.value} else if n == 0 then held - {a} else held
  }

  lemma StepHeld(s: Small, L: Layout, least: nat, c: Call, s': Small, held: set<int>)
    requires SmallOk(s, L) && s.total >= 0 && Step(s, L, least, c, s') && held == Addresses(Used(s.blocks, L.header))
    ensures L.align > 0 && Legal(s, c) && Addresses(Used(s'.blocks, L.header)) == Held(s, L, least, c, held) && s'.total == s.total
  {
    hide SmallOk, BlocksOk, Used, Alloc, Free, Realloc, IndexOf, AlignUp, Multiple;
    SmallTail(s, L);
    match c
    case CallAlloc(n) =>
      if Alloc(s, L, n).1.Some? { var _, _ := AllocGives(s, L, n); } else { AllocFailsIff(s, L, n); }
    case CallFree(a) =>
      var i := IndexOf(s.blocks, a);
      FreeGives(s, L, i);
      OneLess(s.blocks, L.header, i);
    case CallRealloc(a, n) =>
      var i := IndexOf(s.blocks, a);
      OneLess(s.blocks, L.header, i);
      if n == 0 {
        ReallocToNothing(s, L, least, i);
      } else if Realloc(s, L, least, i, n).1.Some? {
        var _ := ReallocGives(s, L, least, i, n);
      } else {
        ReallocFailsIff(s, L, least, i, n);
      }
  }

  /** What callers hold after each call of a run. */
  ghost predicate Ledger(states: seq<Small>, calls: seq<Call>, L: Layout, least: nat, held: seq<set<int>>)
    requires L.align > 0
  {
    && |states| == |calls| + 1 == |held| && held[0] == {}
    && forall k, k' :: 0 <= k < |calls| && k' == k + 1 ==>
         SmallOk(states[k], L) && Legal(states[k], calls[k]) ==> held[k'] == Held(states[k], L, least, calls[k], held[k])
  }

  /** In every state of every run the used blocks are exactly those that callers hold. */
  lemma {:induction false} RunHeld(states: seq<Small>, calls: seq<Call>, L: Layout, least: nat, total: nat, held: seq<set<int>>, k: nat)
    requires L.Valid() && Multiple(total, L.align) && states != [] && states[0] == Init(L, total) && Ledger(states, calls, L, least, held)
    requires k <= |calls| && forall i, j :: 0 <= i < |calls| && j == i + 1 ==> Step(states[i], L, least, calls[i], states[j])
    ensures Addresses(Used(states[k].blocks, L.header)) == held[k] && states[k].total == total
  {
    hide SmallOk, Init, Legal, Held, Used, Multiple, Step;
    if k == 0 {
      NothingUsed(L, total);
    } else {
      RunHeld(states, calls, L, least, total, held, k - 1);
      RunOk(states, calls, L, least, total, k - 1);
      StepHeld(states[k - 1], L, least, calls[k - 1], states[k], held[k - 1]);
    }
  }

  lemma NothingUsed(L: Layout, total: nat)
    ensures Used(Init(L, total).blocks, L.header) == {} && Init(L, total).total == total
  {
    hide Used;
    OneFree(Block(0, false), Block(total + L.header, true), L.header);
  }
}
