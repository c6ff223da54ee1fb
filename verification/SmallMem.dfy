/** rt-thread/src/mem.c: block headers chained by offsets, edited in place.
    The header fields next, prev and the in-use mark are maps from header offsets; the payload
    bytes are kept beside them.  Every method ends in the state that the specification in
    SmallSpec.dfy gives for its call. */
module SmallMem {
  import opened Alignment
  import opened BlockEdits
  import opened SmallSpec
  import opened Tiling

  ghost predicate NextIs(next: map<int, int>, bs: seq<Block>, i: nat)
    requires i < |bs|
  {
    bs[i].addr in next && next[bs[i].addr] == bs[if i + 1 == |bs| then i else i + 1].addr
  }

  ghost predicate PrevIs(prev: map<int, int>, bs: seq<Block>, i: nat)
    requires i < |bs|
  {
    bs[i].addr in prev && prev[bs[i].addr] == bs[if i == 0 then 0 else i - 1].addr
  }

  /** next and prev chain the blocks; the first block's prev and the end stub's next are their
      own offsets, and the stub's prev may be stale. */
  ghost predicate Linked(next: map<int, int>, prev: map<int, int>, bs: seq<Block>) {
    && (forall i :: 0 <= i < |bs| ==> NextIs(next, bs, i))
    && (forall i :: 0 <= i < |bs| - 1 ==> PrevIs(prev, bs, i))
  }

  lemma AddrsApart(bs: seq<Block>, header: nat)
    requires Spaced(bs, header) && header > 0
    ensures forall i, j :: 0 <= i < |bs| && 0 <= j < |bs| && i != j ==> bs[i].addr != bs[j].addr
  {
    hide Spaced;
    AddrsDistinct(bs, header);
    assert forall k :: 0 <= k < |bs| ==> Addrs(bs)[k] == bs[k].addr;
  }

  lemma LinkedInserted(next: map<int, int>, prev: map<int, int>, bs: seq<Block>, header: nat, i: nat, b: int)
    requires Linked(next, prev, bs) && Spaced(bs, header) && header > 0 && i + 1 < |bs| && b !in Addrs(bs)
    ensures var n := bs[i + 1].addr; var p := prev[b := bs[i].addr];
            Linked(next[b := n][bs[i].addr := b], if i + 2 < |bs| then p[n := b] else p, Inserted(bs, i, Block(b, false)))
  {
    hide Spaced, Inserted, Addrs;
    AddrsApart(bs, header);
    InsertedAddrs(bs, i, Block(b, false));
    var n, r := bs[i + 1].addr, Inserted(bs, i, Block(b, false));
    var next' := next[b := n][bs[i].addr := b];
    var prev' := if i + 2 < |bs| then prev[b := bs[i].addr][n := b] else prev[b := bs[i].addr];
    forall k | 0 <= k < |bs| ensures bs[k].addr != b {
      assert Addrs(bs)[k] == bs[k].addr;
    }
    forall k | 0 <= k < |r| ensures NextIs(next', r, k) {
      if k != i + 1 { assert NextIs(next, bs, if k <= i then k else k - 1); }
    }
    forall k | 0 <= k < |r| - 1 ensures PrevIs(prev', r, k) {
      if k != i + 1 { assert PrevIs(prev, bs, if k <= i then k else k - 1); }
    }
  }

  lemma LinkedAbsorbed(next: map<int, int>, prev: map<int, int>, bs: seq<Block>, header: nat, i: nat)
    requires Linked(next, prev, bs) && Spaced(bs, header) && header > 0 && i + 2 < |bs|
    ensures var n := bs[i + 2].addr; Linked(next[bs[i].addr := n], prev[n := bs[i].addr], Absorbed(bs, i))
  {
    hide Spaced, Absorbed, Addrs;
    AddrsApart(bs, header);
    AbsorbedAddrs(bs, i);
    var n, r := bs[i + 2].addr, Absorbed(bs, i);
    var next', prev' := next[bs[i].addr := n], prev[n := bs[i].addr];
    forall k | 0 <= k < |r| ensures NextIs(next', r, k) {
      assert NextIs(next, bs, if k <= i then k else k + 1);
    }
    forall k | 0 <= k < |r| - 1 ensures PrevIs(prev', r, k) {
      assert PrevIs(prev, bs, if k <= i then k else k + 1);
    }
  }

  lemma Strictly(bs: seq<Block>, header: nat, i: nat, j: nat)
    requires Spaced(bs, header) && header > 0 && i < |bs| && j < |bs|
    ensures bs[i].addr < bs[j].addr <==> i < j
    ensures bs[i].addr == bs[j].addr <==> i == j
  {
    hide Spaced;
    if i < j { InOrder(bs, header, i, j); IndexApart(bs, header, i, j); }
    if j < i { InOrder(bs, header, j, i); IndexApart(bs, header, j, i); }
  }

  lemma IndexApart(bs: seq<Block>, header: nat, i: nat, j: nat)
    requires Spaced(bs, header) && header > 0 && i < j < |bs|
    ensures bs[i].addr != bs[j].addr
  {
    if bs[i].addr == bs[j].addr { IndexUnique(bs, header, i, j); }
  }

  // -------------------------------------------------------------------------------------
  // plug_holes
  // -------------------------------------------------------------------------------------

  /** The free block i takes in a free block after it. */
  function PlugForward(s: Small, i: nat): Small
    requires i + 1 < |s.blocks| && s.blocks[|s.blocks| - 1].used
  {
    var bs := s.blocks;
    if !bs[i + 1].used then
      s.(blocks := Absorbed(bs, i), lfree := if s.lfree == bs[i + 1].addr then bs[i].addr else s.lfree)
    else s
  }

  /** And is taken in by a free block before it. */
  function PlugBackward(s: Small, i: nat): Small
    requires i + 1 < |s.blocks|
  {
    var bs := s.blocks;
    if i > 0 && !bs[i - 1].used then
      s.(blocks := Absorbed(bs, i - 1), lfree := if s.lfree == bs[i].addr then bs[i - 1].addr else s.lfree)
    else s
  }

  lemma PlugForwardShape(s: Small, i: nat)
    requires i + 1 < |s.blocks| && s.blocks[|s.blocks| - 1].used
    ensures var bs := PlugForward(s, i).blocks;
            i + 1 < |bs| && (forall k :: 0 <= k <= i ==> bs[k] == s.blocks[k]) && bs[|bs| - 1] == s.blocks[|s.blocks| - 1]
  {
    if !s.blocks[i + 1].used { AbsorbedParts(s.blocks, i); }
  }

  function Plug(s: Small, i: nat): Small
    requires i + 1 < |s.blocks| && s.blocks[|s.blocks| - 1].used
  {
    PlugForwardShape(s, i);
    PlugBackward(PlugForward(s, i), i)
  }

  /** The state in which rt_smem_free calls plug_holes. */
  function Marked(s: Small, i: nat): Small
    requires i + 1 < |s.blocks|
  {
    var a := s.blocks[i].addr;
    s.(blocks := s.blocks[i := Block(a, false)], lfree := if a < s.lfree then a else s.lfree,
       used := s.used - (s.blocks[i + 1].addr - a))
  }

  /** The lowest-free pointer after a free. */
  lemma FreeLowest(bs: seq<Block>, i: nat)
    requires Freeable(bs, i)
    ensures var f := FirstFree(bs); var r := Edit(bs, Lo(bs, i), Hi(bs, i), [Block(bs[Lo(bs, i)].addr, false)]);
            f != i && r != [] && r[FirstFree(r)].addr == bs[if i < f then i else f].addr && (i < f ==> Lo(bs, i) == i)
  {
    var f, lo := FirstFree(bs), Lo(bs, i);
    var r := Edit(bs, lo, Hi(bs, i), [Block(bs[lo].addr, false)]);
    assert r[..lo] == bs[..lo];
    var g := if i < f then i else f;
    assert forall k :: 0 <= k < lo ==> r[k] == bs[k];
    FirstFreeUnique(r, g);
  }

  /** Marking the block free, lowering the pointer and plugging the holes is what Free says. */
  lemma FreeSteps(s: Small, L: Layout, i: nat)
    requires SmallOk(s, L) && Freeable(s.blocks, i)
    ensures Plug(Marked(s, i), i) == Free(s, L, i)
  {
    hide SmallOk, BlocksOk, Spaced, Absorbed, Edit, FirstFree, Freed, Plug;
    SmallFacts(s, L);
    var bs := s.blocks;
    FreeLowest(bs, i);
    PlugLowest(s, L, i);
    PlugIsFreed(s, i);
    FreedIsEdit(bs, i);
  }

  /** Once the pointer is lowered to a freed block below it, plugging the holes cannot move it. */
  lemma PlugLowest(s: Small, L: Layout, i: nat)
    requires SmallOk(s, L) && Freeable(s.blocks, i) && FirstFree(s.blocks) != i
    requires i < FirstFree(s.blocks) ==> Lo(s.blocks, i) == i
    ensures var f := FirstFree(s.blocks);
            Plug(Marked(s, i), i) == Marked(s, i).(blocks := Plug(Marked(s, i), i).blocks, lfree := s.blocks[if i < f then i else f].addr)
  {
    hide SmallOk, BlocksOk, Spaced, Absorbed, FirstFree;
    PlugForwardShape(Marked(s, i), i);
    SmallFacts(s, L);
    var bs, f := s.blocks, FirstFree(s.blocks);
    Strictly(bs, L.header, i, f);
    Strictly(bs, L.header, f, i + 1);
    Strictly(bs, L.header, i, i + 1);
  }

  lemma PlugIsFreed(s: Small, i: nat)
    requires Freeable(s.blocks, i)
    ensures Plug(Marked(s, i), i).blocks == Freed(s.blocks, i)
  {
    hide Absorbed;
    PlugForwardShape(Marked(s, i), i);
    if i > 0 && !s.blocks[i - 1].used && !s.blocks[i + 1].used {
      AbsorbTwice(s.blocks[i := Block(s.blocks[i].addr, false)], i);
    }
  }

  /** Absorbing the next block and then being absorbed, in either order. */
  lemma AbsorbTwice(bs: seq<Block>, i: nat)
    requires 0 < i && i + 2 < |bs|
    ensures |Absorbed(bs, i)| == |Absorbed(bs, i - 1)| == |bs| - 1
    ensures Absorbed(Absorbed(bs, i), i - 1) == Absorbed(Absorbed(bs, i - 1), i - 1)
  {
    hide Absorbed;
    AbsorbedParts(bs, i);
    AbsorbedParts(bs, i - 1);
    var c, d := Absorbed(bs, i), Absorbed(bs, i - 1);
    AbsorbedParts(c, i - 1);
    AbsorbedParts(d, i - 1);
    assert c[..i - 1] == d[..i - 1] && c[i + 1..] == bs[i + 2..] && d[i + 1..] == bs[i + 2..];
  }

  // -------------------------------------------------------------------------------------
  // Shrinking, and the pointer after an allocation
  // -------------------------------------------------------------------------------------

  /** The state in which rt_smem_realloc calls plug_holes: a free block b behind block i. */
  function Cut(s: Small, L: Layout, i: nat, size: int): Small
    requires i + 1 < |s.blocks|
  {
    var b := s.blocks[i].addr + size + L.header;
    s.(blocks := Inserted(s.blocks, i, Block(b, false)), lfree := if b < s.lfree then b else s.lfree,
       used := s.used - (Size(s.blocks, L.header, i) - size))
  }

  ghost predicate CanTrim(s: Small, L: Layout, i: nat, size: int) {
    && SmallOk(s, L) && Freeable(s.blocks, i) && 0 < size && Multiple(size, L.align) && size + L.header < Size(s.blocks, L.header, i)
  }

  lemma TrimSteps(s: Small, L: Layout, i: nat, size: int)
    requires CanTrim(s, L, i, size)
    ensures var c := Cut(s, L, i, size);
            i + 2 < |c.blocks| && c.blocks[|c.blocks| - 1].used && Plug(c, i + 1) == Trim(s, L, i, size)
  {
    hide SmallOk, BlocksOk, Spaced, Absorbed, Inserted, Edit, FirstFree, Plug, Multiple;
    SmallFacts(s, L);
    var bs, b := s.blocks, s.blocks[i].addr + size + L.header;
    InsertedShape(bs, i, Block(b, false));
    TrimLowest(bs, L.header, i, b);
    PlugOnce(Cut(s, L, i, size), i);
    if bs[i + 1].used {
      InsertedIsEdit(bs, i, Block(b, false));
    } else {
      AbsorbedSplit(bs, i, Block(b, false));
    }
  }

  lemma CutShape(s: Small, L: Layout, i: nat, size: int, b: int)
    requires i + 1 < |s.blocks| && b == s.blocks[i].addr + size + L.header
    ensures i + 2 < |Cut(s, L, i, size).blocks| && Cut(s, L, i, size).blocks[i + 1].addr == b
  {
    InsertedShape(s.blocks, i, Block(b, false));
  }

  lemma InsertedShape(bs: seq<Block>, i: nat, b: Block)
    requires i + 1 < |bs|
    ensures var r := Inserted(bs, i, b);
            && |r| == |bs| + 1 && r[i] == bs[i] && r[i + 1] == b && r[i + 2] == bs[i + 1] && r[|r| - 1] == bs[|bs| - 1]
  {
    InsertedAddrs(bs, i, b);
  }

  /** Plugging behind a used block, the pointer being below the block behind. */
  lemma PlugOnce(c: Small, i: nat)
    requires i + 2 < |c.blocks| && c.blocks[|c.blocks| - 1].used && c.blocks[i].used && c.lfree != c.blocks[i + 2].addr
    ensures Plug(c, i + 1) == if c.blocks[i + 2].used then c else c.(blocks := Absorbed(c.blocks, i + 1))
  {
    PlugForwardShape(c, i + 1);
  }

  lemma TrimLowest(bs: seq<Block>, header: nat, i: nat, b: int)
    requires Freeable(bs, i) && Spaced(bs, header) && header > 0 && bs[i].addr < b < bs[i + 1].addr
    ensures var low := bs[FirstFree(bs)].addr; var r := Edit(bs, i, Hi(bs, i), [Block(bs[i].addr, true), Block(b, false)]);
            r != [] && r[FirstFree(r)].addr == (if b < low then b else low) && low != bs[i].addr
            && (b < low || low < b) && (b < low ==> low >= bs[i + 1].addr)
  {
    hide Spaced;
    var f, j := FirstFree(bs), Hi(bs, i);
    var r := Edit(bs, i, j, [Block(bs[i].addr, true), Block(b, false)]);
    assert r[..i] == bs[..i] && r[i] == Block(bs[i].addr, true) && r[i + 1] == Block(b, false);
    assert forall k :: 0 <= k < i ==> r[k] == bs[k];
    Strictly(bs, header, f, i);
    if f < i {
      FirstFreeUnique(r, f);
    } else {
      InOrder(bs, header, i + 1, f);
      FirstFreeUnique(r, i + 1);
    }
  }

  /** Taking a free block other than the lowest leaves the lowest-free pointer right. */
  lemma TakeLowest(s: Small, L: Layout, t: nat, size: int)
    requires SmallOk(s, L) && t + 1 < |s.blocks| && !s.blocks[t].used
    ensures FirstFree(s.blocks) <= t
    ensures FirstFree(s.blocks) != t ==> TakeBlock(s, L, t, size).lfree == s.lfree
  {
    var f := FirstFree(s.blocks);
    if f < t {
      var r := TakeBlock(s, L, t, size).blocks;
      assert r[..t] == s.blocks[..t];
      assert forall k :: 0 <= k < t ==> r[k] == s.blocks[k];
      FirstFreeUnique(r, f);
    }
  }

  // -------------------------------------------------------------------------------------
  // The allocator
  // -------------------------------------------------------------------------------------

  class SmallMem {
    const L: Layout
    const least: nat                 // MIN_SIZE
    const total: int                 // mem_size_aligned

    var next: map<int, int>
    var prev: map<int, int>
    var inUse: map<int, bool>        // the low bit of pool_ptr
    var lfree: int
    var used: int
    var max: int
    var bytes: int -> int
    ghost var s: Small               // what the headers and counters stand for

    ghost predicate Chained()
      reads `next, `prev, `inUse, `lfree, `used, `max, `s
    {
      && Linked(next, prev, s.blocks) && Marks(inUse, s.blocks) && Spaced(s.blocks, L.header) && L.header > 0
      && |s.blocks| >= 2 && s.blocks[|s.blocks| - 1] == Block(total + L.header, true)
      && total == s.total && lfree == s.lfree && used == s.used && max == s.max
    }

    ghost predicate Valid()
      reads this
    {
      Chained() && SmallOk(s, L)
    }

    /** rt_smem_init; `total` is the aligned size of the heap without its two end headers. */
    constructor (L: Layout, least: nat, total: nat)
      requires L.Valid() && Multiple(total, L.align)
      ensures this.L == L && this.least == least && Valid() && s == Init(L, total)
    {
      this.L, this.least, this.total := L, least, total;
      var end := total + L.header;
      next, prev := map[0 := end, end := end], map[0 := 0, end := end];
      inUse := map[0 := false, end := true];
      lfree, used, max := 0, 0, 0;
      bytes := (x: int) => 0;
      s := Init(L, total);
      new;
      InitOk(L, total);
    }

    lemma LinksHere(i: nat)
      requires Chained() && i + 1 < |s.blocks|
      ensures var bs := s.blocks; var a, n := bs[i].addr, bs[i + 1].addr;
              && a in next && next[a] == n && n in inUse && inUse[n] == bs[i + 1].used && a in inUse && inUse[a] == bs[i].used
              && a in prev && prev[a] in inUse && prev[a] == bs[if i == 0 then 0 else i - 1].addr && inUse[prev[a]] == bs[if i == 0 then 0 else i - 1].used
    {
      assert NextIs(next, s.blocks, i) && PrevIs(prev, s.blocks, i);
    }

    /** A header is written at b, behind that of block a. */
    method SplitAfter(a: int, b: int, ghost i: nat)
      requires Chained() && i + 1 < |s.blocks| && s.blocks[i].addr == a
      requires a + L.header <= b && b + L.header <= s.blocks[i + 1].addr
      modifies `next, `prev, `inUse, `bytes, `s
      ensures Chained() && s == old(s).(blocks := Inserted(old(s).blocks, i, Block(b, false)))
      ensures WrittenIn(b, b + L.header, old(bytes), bytes)
    {
      hide Spaced, Marks, Linked, Inserted, Addrs;
      ghost var bs := s.blocks;
      LinksHere(i);
      NewBetween(bs, L.header, i, b);
      LinkedInserted(next, prev, bs, L.header, i, b);
      MarksInserted(inUse, bs, i, b);
      InsertedAddrs(bs, i, Block(b, false));
      InsertedSpaced(bs, L.header, i, b);
      LastApart(bs, L.header, i + 1);
      var junk: int := *;
      var was, header := bytes, L.header;
      bytes := (x: int) => if b <= x < b + header then junk else was(x);
      inUse := inUse[b := false];
      var n := next[a];
      next := next[b := n];
      prev := prev[b := a];
      next := next[a := b];
      if n != total + L.header {
        prev := prev[n := b];
      }
      s := s.(blocks := Inserted(bs, i, Block(b, false)));
    }

    /** The block behind a is absorbed. */
    method Absorb(a: int, ghost i: nat)
      requires Chained() && i + 2 < |s.blocks| && s.blocks[i].addr == a
      modifies `next, `prev, `s
      ensures Chained() && s == old(s).(blocks := Absorbed(old(s).blocks, i))
    {
      hide Spaced, Marks, Linked, Absorbed, Addrs;
      ghost var bs := s.blocks;
      LinksHere(i);
      LinksHere(i + 1);
      LinkedAbsorbed(next, prev, bs, L.header, i);
      MarksAbsorbed(inUse, bs, i);
      AbsorbedAddrs(bs, i);
      AbsorbedSpaced(bs, L.header, i);
      var n := next[next[a]];
      next := next[a := n];
      prev := prev[n := a];
      s := s.(blocks := Absorbed(bs, i));
    }

    method Mark(a: int, u: bool, ghost i: nat)
      requires Chained() && i + 1 < |s.blocks| && s.blocks[i].addr == a
      modifies `inUse, `s
      ensures Chained() && s == old(s).(blocks := old(s).blocks[i := Block(a, u)])
    {
      hide Spaced, Marks, Linked, Addrs;
      AddrsDistinct(s.blocks, L.header);
      MarksMarked(inUse, s.blocks, i, u);
      SameAddrs(next, prev, s.blocks, L.header, i, u);
      inUse := inUse[a := u];
      s := s.(blocks := s.blocks[i := Block(a, u)]);
    }

    method Charge(n: int)
      requires Chained()
      modifies `used, `max, `s
      ensures Chained() && s == old(s).Charge(n)
    {
      hide Spaced, Marks, Linked;
      used := used + n;
      if max < used { max := used; }
      s := s.Charge(n);
    }

    method Refund(n: int)
      requires Chained()
      modifies `used, `s
      ensures Chained() && s == old(s).(used := old(s).used - n)
    {
      hide Spaced, Marks, Linked;
      used := used - n;
      s := s.(used := used);
    }

    method SetLowest(a: int)
      requires Chained()
      modifies `lfree, `s
      ensures Chained() && s == old(s).(lfree := a)
    {
      hide Spaced, Marks, Linked;
      lfree := a;
      s := s.(lfree := a);
    }

    /** plug_holes. */
    method PlugHoles(a: int, ghost i: nat)
      requires Chained() && i + 1 < |s.blocks| && s.blocks[i].addr == a
      modifies `next, `prev, `lfree, `s
      ensures Chained() && s == Plug(old(s), i)
    {
      hide Chained, Absorbed;
      ChainFacts();
      ghost var was := s;
      PlugForwardShape(s, i);
      LinksHere(i);
      var n := next[a];
      if a != n && !inUse[n] && n != total + L.header {
        if lfree == n {
          SetLowest(a);
        }
        Absorb(a, i);
      }
      assert s == PlugForward(was, i);
      LinksHere(i);
      ChainFacts();
      var p := prev[a];
      if p != a && !inUse[p] {
        if lfree == a {
          SetLowest(p);
        }
        Absorb(p, i - 1);
      }
    }

    lemma ChainFacts()
      requires Chained()
      ensures L.header > 0 && |s.blocks| >= 2 && s.blocks[|s.blocks| - 1] == Block(total + L.header, true) && lfree == s.lfree
      ensures forall i :: 0 <= i < |s.blocks| - 1 ==> s.blocks[i].addr != total + L.header && s.blocks[i].addr != s.blocks[i + 1].addr
      ensures forall i :: 0 < i < |s.blocks| ==> s.blocks[i - 1].addr != s.blocks[i].addr
    {
      AddrsApart(s.blocks, L.header);
    }

    // ---- rt_smem_free ----------------------------------------------------------------------

    /** A pointer is the address of a header, or null. */
    method Free(p: Option<int>)
      requires Valid() && (p.Some? ==> Freeable(s.blocks, IndexOf(s.blocks, p.value)))
      modifies this
      ensures Valid() && bytes == old(bytes)
      ensures s == if p == None then old(s) else SmallSpec.Free(old(s), L, IndexOf(old(s).blocks, p.value))
    {
      hide Chained, SmallOk, SmallSpec.Free, IndexOf;
      if p.Some? { FreeUsed(p.value); }
    }

    method FreeUsed(block: int)
      requires Valid() && Freeable(s.blocks, IndexOf(s.blocks, block))
      modifies this
      ensures Valid() && s == SmallSpec.Free(old(s), L, IndexOf(old(s).blocks, block)) && bytes == old(bytes)
    {
      hide Chained, SmallOk, Plug, SmallSpec.Free, IndexOf;
      ghost var was, i := s, IndexOf(s.blocks, block);
      FreeOk(s, L, i);
      FreeSteps(s, L, i);
      ChainFacts();
      Mark(block, false, i);
      if block < lfree {
        SetLowest(block);
      }
      LinksHere(i);
      Refund(next[block] - block);
      PlugHoles(block, i);
    }

    // ---- rt_smem_alloc ---------------------------------------------------------------------

    /** The scan from the lowest free block, cut off where nothing can fit any more. */
    static method Scan(next: map<int, int>, inUse: map<int, bool>, from: int, limit: int, size: int, header: nat,
                       ghost bs: seq<Block>, ghost prev: map<int, int>, ghost k0: nat)
      returns (a: int, found: bool)
      requires Linked(next, prev, bs) && Marks(inUse, bs) && Spaced(bs, header) && header > 0 && size > 0
      requires k0 < |bs| && from == bs[k0].addr && (forall k :: 0 <= k < k0 ==> bs[k].used)
      requires |bs| >= 2 && bs[|bs| - 1] == Block(limit + size + header, true)
      ensures var t := FirstFit(bs, header, size);
              if t + 1 < |bs| then found && a == bs[t].addr else !found
    {
      hide Spaced, Linked, Marks, FirstFit;
      ghost var k := k0;
      a, found := from, false;
      while a <= limit
        invariant k < |bs| && a == bs[k].addr && !found
        invariant forall j :: 0 <= j < k && j + 1 < |bs| ==> !Fits(bs, header, j, size)
        decreases |bs| - k
      {
        assert k + 1 < |bs|;
        NextHere(next, prev, inUse, bs, k);
        if !inUse[a] && next[a] - (a + header) >= size {
          found := true;
          FirstFitUnique(bs, header, size, k);
          return;
        }
        a := next[a];
        k := k + 1;
      }
      NoneAbove(bs, header, size, limit, k);
    }

    /** The lowest-free pointer moves on over used blocks. */
    static method SkipUsed(next: map<int, int>, inUse: map<int, bool>, from: int, end: int,
                           ghost bs: seq<Block>, ghost prev: map<int, int>, ghost k0: nat) returns (a: int)
      requires Linked(next, prev, bs) && Marks(inUse, bs) && |bs| >= 2 && bs[|bs| - 1] == Block(end, true)
      requires k0 < |bs| && from == bs[k0].addr && (forall k :: 0 <= k < k0 ==> bs[k].used)
      requires forall k :: 0 <= k < |bs| - 1 ==> bs[k].addr != end
      ensures a == bs[FirstFree(bs)].addr
    {
      hide Linked, Marks, FirstFree;
      ghost var k := k0;
      a := from;
      MarkHere(inUse, bs, k);
      while inUse[a] && a != end
        invariant k < |bs| && a == bs[k].addr && a in inUse && inUse[a] == bs[k].used
        invariant forall j :: 0 <= j < k ==> bs[j].used
        decreases |bs| - k
      {
        NextHere(next, prev, inUse, bs, k);
        MarkHere(inUse, bs, k + 1);
        a := next[a];
        k := k + 1;
      }
      FirstFreeUnique(bs, k);
    }

    /** The result is the address of the block's header. */
    method Alloc(request: nat) returns (r: Option<int>)
      requires Valid()
      modifies this
      ensures Valid() && (s, r) == SmallSpec.Alloc(old(s), L, request)
      ensures LiveKept(old(s).blocks, L, old(bytes), bytes) && (r == None ==> bytes == old(bytes))
    {
      r := None;
      if request == 0 {
        return;
      }
      hide SmallOk, FirstFit, FirstFree, TakeBlock, AlignUp, Multiple;
      SmallFacts(s, L);
      RoundIsLeast(L, request, 0);
      var size := L.Round(request);
      if size > total {
        return;
      }
      var a, found := Scan(next, inUse, lfree, total - size, size, L.header, s.blocks, prev, FirstFree(s.blocks));
      if found {
        Take(a, size, FirstFit(s.blocks, L.header, size));
        r := Some(a);
      }
    }

    method Take(a: int, size: int, ghost t: nat)
      requires Valid() && t + 1 < |s.blocks| && s.blocks[t].addr == a && Fits(s.blocks, L.header, t, size)
      requires 0 < size && Multiple(size, L.align)
      modifies this
      ensures Valid() && s == TakeBlock(old(s), L, t, size) && LiveKept(old(s).blocks, L, old(bytes), bytes)
    {
      hide Chained, SmallOk, FirstFree, TakeBlock, Multiple, LiveKept, Carved;
      ghost var was := s;
      TakeOk(s, L, t, size);
      TakeLowest(s, L, t, size);
      SmallFacts(s, L);
      Carve(a, size, t);
      TakenIsCarved(was, L, t, size);
      ChainedFacts();
      if a == lfree {
        Strictly(was.blocks, L.header, t, FirstFree(was.blocks));
        var low := SkipUsed(next, inUse, lfree, total + L.header, s.blocks, prev, t);
        SetLowest(low);
      }
    }

    /** The split and the marking. */
    method Carve(a: int, size: int, ghost t: nat)
      requires Valid() && t + 1 < |s.blocks| && s.blocks[t].addr == a && Fits(s.blocks, L.header, t, size)
      requires 0 < size
      modifies this
      ensures Chained() && s == Carved(old(s), L, t, size) && LiveKept(old(s).blocks, L, old(bytes), bytes)
    {
      hide Chained, SmallOk, LiveKept, WrittenIn, Inserted, InLive, Items, Spaced;
      ghost var was, bytes0 := s, bytes;
      SmallFacts(s, L);
      LinksHere(t);
      var n := next[a] - (a + L.header);
      if n >= size + L.header + L.mini {
        var b := a + size + L.header;
        InsertedShape(s.blocks, t, Block(b, false));
        HeaderInFree(s.blocks, L.header, t, b);
        SplitAfter(a, b, t);
        KeptOutside(was.blocks, L, b, bytes0, bytes);
        Charge(size + L.header);
      } else {
        SameLive(s.blocks, L, bytes);
        Charge(next[a] - a);
      }
      Mark(a, true, t);
    }

    lemma ChainedFacts()
      requires Chained()
      ensures Linked(next, prev, s.blocks) && Marks(inUse, s.blocks) && |s.blocks| >= 2
      ensures s.blocks[|s.blocks| - 1] == Block(total + L.header, true) && lfree == s.lfree
      ensures forall k :: 0 <= k < |s.blocks| - 1 ==> s.blocks[k].addr != total + L.header
    {
      ChainFacts();
    }

    // ---- rt_smem_realloc -------------------------------------------------------------------

    /** In place, giving back the end of the block. */
    method Shrink(a: int, size: int, ghost i: nat)
      requires Valid() && CanTrim(s, L, i, size) && s.blocks[i].addr == a
      modifies this
      ensures Valid() && s == Trim(old(s), L, i, size)
      ensures OthersKept(old(s).blocks, L, a, old(bytes), bytes) && ContentsKept(old(s).blocks, L, i, size, a, old(bytes), bytes)
    {
      hide Chained, SmallOk, Plug, Trim, Cut, OthersKept, ContentsKept, HeaderClear, WrittenIn, Multiple;
      ghost var was, bytes0 := s, bytes;
      var b := a + size + L.header;
      TrimSteps(s, L, i, size);
      TrimClear(s, L, i, size);
      TrimOk(s, L, i, size);
      CutShape(s, L, i, size, b);
      CutOff(a, b, size, i);
      PlugHoles(b, i + 1);
      InPlaceKept(was.blocks, L, i, size, a, b, bytes0, bytes);
    }

    /** The header of the new free block. */
    method CutOff(a: int, b: int, size: int, ghost i: nat)
      requires Chained() && i + 1 < |s.blocks| && s.blocks[i].addr == a && 0 < size
      requires b == a + size + L.header && b + L.header <= s.blocks[i + 1].addr
      modifies this
      ensures Chained() && s == Cut(old(s), L, i, size) && WrittenIn(b, b + L.header, old(bytes), bytes)
    {
      hide Chained, WrittenIn, Inserted;
      ChainFacts();
      LinksHere(i);
      Refund(next[a] - a - L.header - size);
      SplitAfter(a, b, i);
      ChainFacts();
      if b < lfree {
        SetLowest(b);
      }
    }

    method Copy(dst: int, src: int, n: int)
      requires dst + n <= src || src + n <= dst
      modifies `bytes
      ensures old(Chained()) ==> Chained()
      ensures Copied(dst, src, n, old(bytes), bytes)
    {
      hide Chained, Copied, CopiedTo;
      CopyCopies(dst, src, n, bytes);
      bytes := CopiedTo(dst, src, n, bytes);
    }

    /** Into a new block elsewhere, larger or smaller. */
    method MoveTo(a: int, had: int, size: nat, ghost i: nat) returns (r: Option<int>)
      requires Valid() && Freeable(s.blocks, i) && i == IndexOf(s.blocks, a) && had == Size(s.blocks, L.header, i) && size > 0
      modifies this
      ensures Valid() && (s, r) == Move(old(s), L, i, size)
      ensures OthersKept(old(s).blocks, L, a, old(bytes), bytes) && (r == None ==> bytes == old(bytes))
      ensures r.Some? ==> ContentsKept(old(s).blocks, L, i, size, r.value, old(bytes), bytes)
    {
      hide Chained, SmallOk, BlocksOk, Spaced, IndexOf, SmallSpec.Free, LiveKept, OthersKept, ContentsKept, Copied, TakeBlock, FirstFit, AlignUp, Multiple;
      ghost var was, bytes0 := s, bytes;
      SmallFacts(was, L);
      RoundIsLeast(L, size, 0);
      r := Alloc(size);
      SameKept(was.blocks, L, a, bytes);
      if r != None {
        OldBlockStays(was, L, i, size);
        ghost var t, bytes1 := FirstFit(was.blocks, L.header, L.Round(size)), bytes;
        PayloadsApart(was.blocks, L.header, i, t);
        var n := if had < size then had else size;
        Copy(r.value + L.header, a + L.header, n);
        CopyKept(was.blocks, L, i, t, size, n, bytes0, bytes1, bytes);
        FreeUsed(a);
      }
    }

    /** rt_smem_realloc: the null pointer asks for a new block. */
    method Realloc(p: Option<int>, request: nat) returns (r: Option<int>)
      requires Valid() && (p.Some? ==> Freeable(s.blocks, IndexOf(s.blocks, p.value)))
      modifies this
      ensures Valid() && (r == None ==> bytes == old(bytes))
      ensures p == None ==> (s, r) == SmallSpec.Alloc(old(s), L, request) && LiveKept(old(s).blocks, L, old(bytes), bytes)
      ensures p.Some? ==>
                && (s, r) == SmallSpec.Realloc(old(s), L, least, IndexOf(old(s).blocks, p.value), request)
                && OthersKept(old(s).blocks, L, p.value, old(bytes), bytes)
      ensures p.Some? && r.Some? ==>
                ContentsKept(old(s).blocks, L, IndexOf(old(s).blocks, p.value), AlignUp(request, L.align), r.value, old(bytes), bytes)
    {
      hide Chained, SmallOk, IndexOf, SmallSpec.Free, Trim, Move, AlignUp, Multiple, OthersKept, ContentsKept, LiveKept, TakeBlock, FirstFit;
      SmallFacts(s, L);
      if p.Some? { SameKept(s.blocks, L, p.value, bytes); }
      SameLive(s.blocks, L, bytes);
      TotalHere();
      AllocAligned(s, L, request);
      var size := AlignUp(request, L.align);
      if size > total {
        AboveTotal(s, L, request);
        return None;
      } else if size == 0 {
        Free(p);
        return None;
      }
      if p == None {
        r := Alloc(size);
      } else {
        r := Resize(p.value, size, request);
      }
    }

    method Resize(block: int, size: nat, ghost request: nat) returns (r: Option<int>)
      requires Valid() && Freeable(s.blocks, IndexOf(s.blocks, block)) && 0 < size == AlignUp(request, L.align) <= s.total
      modifies this
      ensures Valid() && (s, r) == SmallSpec.Realloc(old(s), L, least, IndexOf(old(s).blocks, block), request)
      ensures OthersKept(old(s).blocks, L, block, old(bytes), bytes) && (r == None ==> bytes == old(bytes))
      ensures r.Some? ==> ContentsKept(old(s).blocks, L, IndexOf(old(s).blocks, block), AlignUp(request, L.align), r.value, old(bytes), bytes)
    {
      hide Chained, SmallOk, IndexOf, SmallSpec.Free, Trim, Move, AlignUp, Multiple, OthersKept;
      ghost var i := IndexOf(s.blocks, block);
      SmallFacts(s, L);
      AlignUpIsLeast(request, L.align, 0);
      SameKept(s.blocks, L, block, bytes);
      LinksHere(i);
      var had := next[block] - block - L.header;
      if had == size {
        return Some(block);
      }
      if size + L.header + least < had {
        Shrink(block, size, i);
        return Some(block);
      }
      r := MoveTo(block, had, size, i);
    }

    lemma TotalHere()
      requires Chained()
      ensures total == s.total
    {
    }
  }

  lemma AboveTotal(s: Small, L: Layout, n: nat)
    requires L.Valid() && s.blocks != [] && AlignUp(n, L.align) > s.total
    ensures SmallSpec.Alloc(s, L, n) == (s, None)
  {
  }

  /** The new header is clear of the other live payloads. */
  lemma TrimClear(s: Small, L: Layout, i: nat, size: int)
    requires CanTrim(s, L, i, size)
    ensures HeaderClear(s.blocks, L, i, s.blocks[i].addr, s.blocks[i].addr + size + L.header)
    ensures s.blocks[i].addr + size + 2 * L.header <= s.blocks[i + 1].addr
  {
    hide SmallOk, BlocksOk, Spaced, Multiple, HeaderClear;
    SmallFacts(s, L);
    var bs, a, b := s.blocks, s.blocks[i].addr, s.blocks[i].addr + size + L.header;
    if bs[i + 1].used {
      AloneClear(bs, L, i, a, b);
    } else {
      InOrder(bs, L.header, i + 1, i + 2);
      ResizeClear(bs, L, i, a, b);
    }
  }

  lemma NextHere(next: map<int, int>, prev: map<int, int>, inUse: map<int, bool>, bs: seq<Block>, i: nat)
    requires Linked(next, prev, bs) && Marks(inUse, bs) && i + 1 < |bs|
    ensures bs[i].addr in next && next[bs[i].addr] == bs[i + 1].addr
    ensures bs[i].addr in inUse && inUse[bs[i].addr] == bs[i].used
  {
    assert NextIs(next, bs, i);
  }

  lemma MarkHere(inUse: map<int, bool>, bs: seq<Block>, i: nat)
    requires Marks(inUse, bs) && i < |bs|
    ensures bs[i].addr in inUse && inUse[bs[i].addr] == bs[i].used
  {
  }

  lemma FirstFitUnique(bs: seq<Block>, header: nat, size: int, k: nat)
    requires k + 1 < |bs| && Fits(bs, header, k, size) && forall j :: 0 <= j < k ==> !Fits(bs, header, j, size)
    ensures FirstFit(bs, header, size) == k
  {
  }

  /** Nothing at or behind a block beyond the limit can hold `size` bytes. */
  lemma NoneAbove(bs: seq<Block>, header: nat, size: int, limit: int, k: nat)
    requires Spaced(bs, header) && k < |bs| && bs[k].addr > limit && bs[|bs| - 1].addr == limit + size + header
    requires forall j :: 0 <= j < k && j + 1 < |bs| ==> !Fits(bs, header, j, size)
    ensures FirstFit(bs, header, size) == |bs| - 1
  {
    hide Spaced;
    var t := FirstFit(bs, header, size);
    if t + 1 < |bs| {
      InOrder(bs, header, k, t);
      InOrder(bs, header, t + 1, |bs| - 1);
    }
  }

  lemma KeptOutside(bs: seq<Block>, L: Layout, b: int, was: int -> int, now: int -> int)
    requires (forall x :: InLive(Items(bs, L.header), L.header, x) ==> x < b || b + L.header <= x) && WrittenIn(b, b + L.header, was, now)
    ensures LiveKept(bs, L, was, now)
  {
  }

  /** Block t taken, before the lowest-free pointer moves on. */
  function Carved(s: Small, L: Layout, t: nat, size: int): Small
    requires t + 1 < |s.blocks|
  {
    var bs, a, n := s.blocks, s.blocks[t].addr, Size(s.blocks, L.header, t);
    if Splits(L, n, size) then
      s.(blocks := Inserted(bs, t, Block(a + size + L.header, false))[t := Block(a, true)]).Charge(size + L.header)
    else
      s.(blocks := bs[t := Block(a, true)]).Charge(n + L.header)
  }

  lemma TakenIsCarved(s: Small, L: Layout, t: nat, size: int)
    requires t + 1 < |s.blocks| && (forall k :: 0 <= k < FirstFree(s.blocks) ==> s.blocks[k].used) && !s.blocks[t].used
    ensures Carved(s, L, t, size).blocks != [] && TakeBlock(s, L, t, size) == Relisted(Carved(s, L, t, size))
    ensures t < |Carved(s, L, t, size).blocks| && Carved(s, L, t, size).blocks[t].addr == s.blocks[t].addr
    ensures Carved(s, L, t, size).lfree == s.lfree
    ensures FirstFree(s.blocks) == t ==> forall k :: 0 <= k < t ==> Carved(s, L, t, size).blocks[k].used
  {
    hide FirstFree;
    var a := s.blocks[t].addr;
    SplitEdit(s.blocks, t, Block(a + size + L.header, false));
    MarkEdit(s.blocks, t, true);
    InsertedAddrs(s.blocks, t, Block(a + size + L.header, false));
  }

  lemma SameAddrs(next: map<int, int>, prev: map<int, int>, bs: seq<Block>, header: nat, i: nat, u: bool)
    requires Linked(next, prev, bs) && Spaced(bs, header) && i + 1 < |bs|
    ensures var r := bs[i := Block(bs[i].addr, u)]; Linked(next, prev, r) && Spaced(r, header)
  {
    var r := bs[i := Block(bs[i].addr, u)];
    forall k | 0 <= k < |r| ensures NextIs(next, r, k) {
      assert NextIs(next, bs, k);
    }
    forall k | 0 <= k < |r| - 1 ensures PrevIs(prev, r, k) {
      assert PrevIs(prev, bs, k);
    }
  }

  lemma InsertedSpaced(bs: seq<Block>, header: nat, i: nat, b: int)
    requires Spaced(bs, header) && i + 1 < |bs| && bs[i].addr + header <= b && b + header <= bs[i + 1].addr
    ensures Spaced(Inserted(bs, i, Block(b, false)), header)
  {
    InsertedAddrs(bs, i, Block(b, false));
    hide Inserted;
  }

  lemma LastApart(bs: seq<Block>, header: nat, i: nat)
    requires Spaced(bs, header) && header > 0 && i < |bs|
    ensures bs[i].addr == bs[|bs| - 1].addr <==> i == |bs| - 1
  {
    Strictly(bs, header, i, |bs| - 1);
  }
}
