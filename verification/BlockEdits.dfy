/** Operations on a tiling that the allocators share: replacing, splitting and merging blocks.
    An edit replaces a stretch of blocks by others that tile the same stretch; what it does to
    sums, items and the free neighbours follows from that stretch alone.  The second half says
    what a header written into a freed stretch, or a copied payload, leaves alone. */
module BlockEdits {
  import opened Alignment
  import opened Lists
  import opened Ring
  import opened Tiling

  datatype Option<T> = None | Some(value: T)

  /** The aligned header size, the least payload worth a block, and RT_ALIGN_SIZE. */
  datatype Layout = Layout(header: nat, mini: nat, align: nat) {
    ghost predicate Valid() {
      header > 0 && mini > 0 && align > 0 && Multiple(header, align) && Multiple(mini, align)
    }

    /** RT_ALIGN, and at least the minimum. */
    function Round(n: nat): nat
      requires align > 0
    {
      var up := AlignUp(n, align);
      if up < mini then mini else up
    }
  }

  ghost predicate Aligned(bs: seq<Block>, align: nat)
  {
    forall i :: 0 <= i < |bs| ==> Multiple(bs[i].addr, align)
  }

  /** Rounding gives the least aligned size that is at least the request and the minimum. */
  lemma RoundIsLeast(L: Layout, n: nat, k: nat)
    requires L.Valid()
    ensures Multiple(L.Round(n), L.align) && n <= L.Round(n) && L.mini <= L.Round(n)
    ensures Multiple(k, L.align) && n <= k && L.mini <= k ==> L.Round(n) <= k
  {
    AlignUpIsLeast(n, L.align, k);
  }

  /** Aligning or rounding a request beforehand changes nothing. */
  lemma RoundTwice(L: Layout, n: nat)
    requires L.Valid()
    ensures 0 <= AlignUp(n, L.align) && L.Round(AlignUp(n, L.align)) == L.Round(n) == L.Round(L.Round(n))
  {
    hide AlignUp, Multiple;
    var up := AlignUp(n, L.align);
    AlignUpIsLeast(n, L.align, up);
    AlignUpIsLeast(up, L.align, up);
    RoundIsLeast(L, n, 0);
    AlignUpIsLeast(L.Round(n), L.align, L.Round(n));
  }

  /** The blocks tile their memory, no two neighbours are free, and every header is aligned. */
  ghost predicate BlocksOk(bs: seq<Block>, L: Layout) {
    && L.Valid() && |bs| >= 2 && Tiles(bs, L.header, bs[0].addr, bs[|bs| - 1].addr) && Coalesced(bs) && Aligned(bs, L.align)
  }

  lemma BlocksSpaced(bs: seq<Block>, L: Layout)
    requires BlocksOk(bs, L)
    ensures L.Valid() && |bs| >= 2 && Spaced(bs, L.header) && bs[|bs| - 1].used
  {
  }

  /** A stretch of blocks that can stand for the blocks from i to j: it starts where they do,
      tiles the same stretch, and keeps free blocks apart. */
  ghost predicate Replaces(bs: seq<Block>, L: Layout, i: nat, j: nat, mid: seq<Block>) {
    && i <= j < |bs| - 1 && mid != [] && mid[0].addr == bs[i].addr
    && (i > 0 ==> bs[i - 1].used || mid[0].used)
    && var w := mid + [bs[j + 1]];
       Spaced(w, L.header) && Coalesced(w) && Aligned(w, L.align)
  }

  lemma EditBlocksOk(bs: seq<Block>, L: Layout, i: nat, j: nat, mid: seq<Block>)
    requires BlocksOk(bs, L) && Replaces(bs, L, i, j, mid)
    ensures var bs' := Edit(bs, i, j, mid);
            BlocksOk(bs', L) && bs'[0].addr == bs[0].addr && bs'[|bs'| - 1] == bs[|bs| - 1]
  {
    EditTiles(bs, L.header, bs[0].addr, bs[|bs| - 1].addr, i, j, mid);
    EditCoalesced(bs, i, j, mid);
    EditAligned(bs, i, j, mid, L.align);
  }

  lemma EditAligned(bs: seq<Block>, i: nat, j: nat, mid: seq<Block>, align: nat)
    requires Aligned(bs, align) && i <= j < |bs| - 1 && Aligned(mid + [bs[j + 1]], align)
    ensures Aligned(Edit(bs, i, j, mid), align)
  {
    var w, bs' := mid + [bs[j + 1]], Edit(bs, i, j, mid);
    forall k | 0 <= k < |bs'| ensures Multiple(bs'[k].addr, align) {
      if i <= k < i + |mid| {
        assert bs'[k] == w[k - i];
      }
    }
  }

  predicate Splits(L: Layout, n: int, size: int) { n >= size + L.header + L.mini }

  lemma UsedFits(bs: seq<Block>, L: Layout, i: nat)
    requires BlocksOk(bs, L) && i + 1 < |bs|
    ensures Replaces(bs, L, i, i, [Block(bs[i].addr, true)])
  {
  }

  lemma OnePair(a: Block, e: Block, header: nat)
    ensures Items([a] + [e], header) == {Item(a.addr, e.addr - a.addr - header, a.used)}
    ensures FreeSum([a] + [e], header) == if a.used then 0 else e.addr - a.addr - header
  {
    assert ([a] + [e])[1..] == [e];
    assert Items([e], header) == {} && FreeSum([e], header) == 0;
  }

  lemma OneWindow(bs: seq<Block>, header: nat, i: nat)
    requires i + 1 < |bs|
    ensures Items(Window(bs, i, i), header) == {Item(bs[i].addr, Size(bs, header, i), bs[i].used)}
    ensures FreeSum(Window(bs, i, i), header) == if bs[i].used then 0 else Size(bs, header, i)
  {
    assert Window(bs, i, i) == [bs[i]] + [bs[i + 1]];
    OnePair(bs[i], bs[i + 1], header);
  }

  lemma TwoBlocks(bs: seq<Block>, i: nat)
    requires i + 2 < |bs|
    ensures Window(bs, i, i + 1) == [bs[i], bs[i + 1]] + [bs[i + 2]]
  {
  }

  lemma ThreeBlocks(bs: seq<Block>, i: nat)
    requires i + 3 < |bs|
    ensures Window(bs, i, i + 2) == [bs[i], bs[i + 1], bs[i + 2]] + [bs[i + 3]]
  {
  }

  lemma TwoWindow(a: Block, b: Block, e: Block, header: nat)
    ensures Items([a, b] + [e], header) ==
            {Item(a.addr, b.addr - a.addr - header, a.used), Item(b.addr, e.addr - b.addr - header, b.used)}
    ensures FreeSum([a, b] + [e], header) ==
            (if a.used then 0 else b.addr - a.addr - header) + (if b.used then 0 else e.addr - b.addr - header)
  {
    assert ([a, b] + [e])[1..] == [b] + [e];
    OnePair(b, e, header);
  }

  lemma ThreeWindow(a: Block, b: Block, c: Block, e: Block, header: nat)
    ensures Items([a, b, c] + [e], header) ==
            {Item(a.addr, b.addr - a.addr - header, a.used)} + {Item(b.addr, c.addr - b.addr - header, b.used)}
            + {Item(c.addr, e.addr - c.addr - header, c.used)}
    ensures FreeSum([a, b, c] + [e], header) ==
            (if a.used then 0 else b.addr - a.addr - header) + (if b.used then 0 else c.addr - b.addr - header)
            + (if c.used then 0 else e.addr - c.addr - header)
  {
    assert ([a, b, c] + [e])[1..] == [b, c] + [e];
    TwoWindow(b, c, e, header);
  }

  /** The block a merge to the left starts at. */
  function Lo(bs: seq<Block>, i: nat): (lo: nat)
    requires i < |bs|
    ensures lo == i || (lo == i - 1 && !bs[lo].used)
    ensures lo == i && i > 0 ==> bs[i - 1].used
  {
    if i > 0 && !bs[i - 1].used then i - 1 else i
  }

  /** The block a merge to the right ends at; the stub is never free. */
  function Hi(bs: seq<Block>, i: nat): (hi: nat)
    requires i + 1 < |bs| && bs[|bs| - 1].used
    ensures hi + 1 < |bs| && (hi == i || (hi == i + 1 && !bs[hi].used))
    ensures hi == i ==> bs[i + 1].used
  {
    if !bs[i + 1].used then i + 1 else i
  }

  ghost predicate Freeable(bs: seq<Block>, i: nat) {
    i + 1 < |bs| && bs[i].used && bs[|bs| - 1].used
  }

  lemma FreeBlocks(bs: seq<Block>, L: Layout, i: nat)
    requires BlocksOk(bs, L) && Freeable(bs, i)
    ensures Replaces(bs, L, Lo(bs, i), Hi(bs, i), [Block(bs[Lo(bs, i)].addr, false)])
  {
    var lo, hi := Lo(bs, i), Hi(bs, i);
    assert bs[hi + 1].used;
    assert bs[lo].addr + L.header <= bs[lo + 1].addr;
    if lo + 1 < hi + 1 { assert bs[lo + 1].addr <= bs[lo + 2].addr; }
    if lo + 2 < hi + 1 { assert bs[lo + 2].addr <= bs[lo + 3].addr; }
    assert lo > 0 ==> bs[lo - 1].used;
  }

  /** The window of a split. */
  lemma SplitFits(bs: seq<Block>, L: Layout, i: nat, size: int)
    requires BlocksOk(bs, L) && i + 1 < |bs| && !bs[i].used
    requires 0 < size && Splits(L, Size(bs, L.header, i), size) && Multiple(size, L.align)
    ensures Replaces(bs, L, i, i, [Block(bs[i].addr, true), Block(bs[i].addr + size + L.header, false)])
  {
    MultipleSum(bs[i].addr, size, L.align);
    MultipleSum(bs[i].addr + size, L.header, L.align);
  }

  /** The blocks from i to j, with a used block after them, hold `size` bytes and a free block. */
  ghost predicate ResizeRoom(bs: seq<Block>, L: Layout, i: nat, j: nat, size: int) {
    && i <= j < |bs| - 1 && bs[j + 1].used && 0 < size && Multiple(size, L.align)
    && bs[i].addr + size + 2 * L.header <= bs[j + 1].addr
  }

  /** The window of a resize. */
  lemma ResizeFits(bs: seq<Block>, L: Layout, i: nat, j: nat, size: int)
    requires BlocksOk(bs, L) && ResizeRoom(bs, L, i, j, size)
    ensures Replaces(bs, L, i, j, [Block(bs[i].addr, true), Block(bs[i].addr + size + L.header, false)])
  {
    MultipleSum(bs[i].addr, size, L.align);
    MultipleSum(bs[i].addr + size, L.header, L.align);
  }

  /** Replacing block i and then what stands for it by block i again. */
  lemma EditBack(bs: seq<Block>, i: nat, mid: seq<Block>)
    requires i + 1 < |bs| && mid != []
    ensures var bs' := Edit(bs, i, i, mid);
            && |bs'| == |bs| + |mid| - 1 && Edit(bs', i, i + |mid| - 1, [bs[i]]) == bs
            && (forall k :: 0 <= k < i ==> bs'[k] == bs[k]) && (forall k :: 0 <= k < |mid| ==> bs'[i + k] == mid[k])
            && bs'[i + |mid|] == bs[i + 1] && bs'[|bs'| - 1] == bs[|bs| - 1]
  {
    var bs' := Edit(bs, i, i, mid);
    assert bs'[..i] == bs[..i] && bs'[i + |mid|..] == bs[i + 1..];
  }

  lemma PairItems(bs: seq<Block>, header: nat, i: nat)
    requires i + 2 < |bs|
    ensures Items(bs, header) == Outside(bs, header, i, i + 1) + {Item(bs[i].addr, Size(bs, header, i), bs[i].used),
                                                                  Item(bs[i + 1].addr, Size(bs, header, i + 1), bs[i + 1].used)}
  {
    TwoBlocks(bs, i);
    hide *;
    WindowItems(bs, header, i, i + 1);
    TwoWindow(bs[i], bs[i + 1], bs[i + 2], header);
  }

  lemma OutsideElsewhere(bs: seq<Block>, header: nat, i: nat, j: nat, a: int)
    requires Spaced(bs, header) && header > 0 && i <= j < |bs| - 1 && bs[i].addr <= a < bs[j + 1].addr
    ensures forall r :: r in Outside(bs, header, i, j) ==> r.addr != a
  {
    forall r | r in Outside(bs, header, i, j) ensures r.addr != a {
      OutsideApart(bs, header, i, j, r);
    }
  }

  function Addrs(bs: seq<Block>): (r: seq<int>)
    ensures |r| == |bs| && forall k :: 0 <= k < |bs| ==> r[k] == bs[k].addr
  {
    seq(|bs|, k requires 0 <= k < |bs| => bs[k].addr)
  }

  /** The magic words tell used blocks from free ones. */
  ghost predicate Marks(used: map<int, bool>, bs: seq<Block>) {
    forall k :: 0 <= k < |bs| ==> bs[k].addr in used && used[bs[k].addr] == bs[k].used
  }

  lemma AddrsDistinct(bs: seq<Block>, header: nat)
    requires Spaced(bs, header) && header > 0
    ensures Distinct(Addrs(bs))
  {
    forall i, j | 0 <= i < j < |bs| ensures Addrs(bs)[i] != Addrs(bs)[j] {
      if bs[i].addr == bs[j].addr { IndexUnique(bs, header, i, j); }
    }
  }

  /** The blocks with a new one after block i. */
  function Inserted(bs: seq<Block>, i: nat, b: Block): seq<Block>
    requires i + 1 < |bs|
  {
    Edit(bs, i, i, [bs[i], b])
  }

  /** The blocks with block i + 1 absorbed by block i. */
  function Absorbed(bs: seq<Block>, i: nat): seq<Block>
    requires i + 2 < |bs|
  {
    Edit(bs, i, i + 1, [bs[i]])
  }

  lemma InsertedAddrs(bs: seq<Block>, i: nat, b: Block)
    requires i + 1 < |bs|
    ensures Addrs(Inserted(bs, i, b)) == Put(Addrs(bs), i, b.addr)
    ensures var r := Inserted(bs, i, b);
            && |r| == |bs| + 1
            && forall k :: 0 <= k < |r| ==> r[k] == if k <= i then bs[k] else if k == i + 1 then b else bs[k - 1]
  {
    hide Addrs;
    var r := Inserted(bs, i, b);
    assert forall k :: 0 <= k < |r| ==> r[k] == if k <= i then bs[k] else if k == i + 1 then b else bs[k - 1];
    assert Put(Addrs(bs), i, b.addr) == Addrs(r);
  }

  lemma AbsorbedAddrs(bs: seq<Block>, i: nat)
    requires i + 2 < |bs|
    ensures Addrs(Absorbed(bs, i)) == Cut(Addrs(bs), i + 1)
    ensures var r := Absorbed(bs, i); |r| == |bs| - 1 && forall k :: 0 <= k < |r| ==> r[k] == if k <= i then bs[k] else bs[k + 1]
  {
    hide Addrs;
    var r := Absorbed(bs, i);
    assert forall k :: 0 <= k < |r| ==> r[k] == if k <= i then bs[k] else bs[k + 1];
    assert Cut(Addrs(bs), i + 1) == Addrs(r);
  }

  lemma MarksAbsorbed(used: map<int, bool>, bs: seq<Block>, i: nat)
    requires Marks(used, bs) && i + 2 < |bs|
    ensures Marks(used, Absorbed(bs, i))
  {
    AbsorbedAddrs(bs, i);
    hide Absorbed, Addrs;
  }

  lemma MarksInserted(used: map<int, bool>, bs: seq<Block>, i: nat, b: int)
    requires Marks(used, bs) && i + 1 < |bs| && b !in Addrs(bs)
    ensures Marks(used[b := false], Inserted(bs, i, Block(b, false)))
  {
    InsertedAddrs(bs, i, Block(b, false));
    hide Inserted, Addrs;
    forall k | 0 <= k < |bs| ensures bs[k].addr != b {
      assert Addrs(bs)[k] == bs[k].addr;
    }
  }

  lemma NewBetween(bs: seq<Block>, header: nat, i: nat, b: int)
    requires Spaced(bs, header) && header > 0 && i + 1 < |bs| && bs[i].addr < b < bs[i + 1].addr
    ensures b !in Addrs(bs)
  {
    hide Addrs, Spaced;
    forall k | 0 <= k < |bs| ensures bs[k].addr != b {
      if k <= i { InOrder(bs, header, k, i); } else { InOrder(bs, header, i + 1, k); }
    }
  }

  lemma InOrder(bs: seq<Block>, header: nat, i: nat, j: nat)
    requires Spaced(bs, header) && i <= j < |bs|
    ensures bs[i].addr <= bs[j].addr
  {
    Ascending(bs, header, i, j);
  }

  lemma MarksMarked(used: map<int, bool>, bs: seq<Block>, i: nat, u: bool)
    requires Marks(used, bs) && i < |bs| && Distinct(Addrs(bs))
    ensures var b := Block(bs[i].addr, u); Marks(used[b.addr := u], bs[i := b]) && Addrs(bs[i := b]) == Addrs(bs)
  {
    var b := Block(bs[i].addr, u);
    forall k | 0 <= k < |bs| && k != i ensures bs[k].addr != b.addr {
      assert Addrs(bs)[k] != Addrs(bs)[i];
    }
  }

  /** Whether x lies in the payload of a used block. */
  ghost predicate InLive(items: set<Item>, header: nat, x: int) {
    exists it :: it in items && it.used && it.addr + header <= x < it.addr + header + it.size
  }

  /** The payloads of the used blocks are as they were. */
  ghost predicate LiveKept(bs: seq<Block>, L: Layout, was: int -> int, now: int -> int) {
    forall x :: InLive(Items(bs, L.header), L.header, x) ==> now(x) == was(x)
  }

  /** The new contents of memory differ from the old ones from b to e only. */
  ghost predicate WrittenIn(b: int, e: int, was: int -> int, now: int -> int) {
    forall x :: x < b || e <= x ==> now(x) == was(x)
  }

  /** A header written where the blocks from i to j stood leaves other live payloads alone. */
  lemma HeaderApart(bs: seq<Block>, header: nat, i: nat, j: nat, b: int, x: int)
    requires Spaced(bs, header) && header > 0 && i <= j < |bs| - 1 && bs[i].addr <= b && b + header <= bs[j + 1].addr
    requires InLive(Outside(bs, header, i, j), header, x)
    ensures x < b || b + header <= x
  {
    var it :| it in Outside(bs, header, i, j) && it.used && it.addr + header <= x < it.addr + header + it.size;
    OutsideApart(bs, header, i, j, it);
  }

  lemma InLiveWithout(items: set<Item>, rest: set<Item>, it: Item, header: nat, x: int)
    requires items == rest + {it} && !it.used && InLive(items, header, x)
    ensures InLive(rest, header, x)
  {
  }

  lemma SplitEdit(bs: seq<Block>, i: nat, b: Block)
    requires i + 1 < |bs|
    ensures Inserted(bs, i, b)[i := Block(bs[i].addr, true)] == Edit(bs, i, i, [Block(bs[i].addr, true), b])
  {
  }

  lemma MarkEdit(bs: seq<Block>, i: nat, u: bool)
    requires i + 1 < |bs|
    ensures bs[i := Block(bs[i].addr, u)] == Edit(bs, i, i, [Block(bs[i].addr, u)])
  {
  }

  /** A header written inside a free block. */
  lemma HeaderInFree(bs: seq<Block>, header: nat, i: nat, b: int)
    requires Spaced(bs, header) && header > 0 && i + 1 < |bs| && !bs[i].used && bs[i].addr <= b && b + header <= bs[i + 1].addr
    ensures forall x :: InLive(Items(bs, header), header, x) ==> x < b || b + header <= x
  {
    WindowItems(bs, header, i, i);
    OneWindow(bs, header, i);
    var rest, it := Outside(bs, header, i, i), Item(bs[i].addr, Size(bs, header, i), false);
    forall x | InLive(Items(bs, header), header, x) ensures x < b || b + header <= x {
      InLiveWithout(Items(bs, header), rest, it, header, x);
      HeaderApart(bs, header, i, i, b, x);
    }
  }

  /** The blocks along rt_memheap_free. */
  function Freed(bs: seq<Block>, i: nat): seq<Block>
    requires Freeable(bs, i)
  {
    var b2 := LeftFreed(bs, i);
    if Hi(bs, i) > i then Absorbed(b2, Lo(bs, i)) else b2
  }

  function LeftFreed(bs: seq<Block>, i: nat): (r: seq<Block>)
    requires Freeable(bs, i)
    ensures var lo := Lo(bs, i);
            && |r| == |bs| - (i - lo) && r[lo] == Block(bs[lo].addr, false) && lo + 1 < |r|
            && r[..lo] == bs[..lo] && r[lo + 1..] == bs[i + 1..]
  {
    var b1 := bs[i := Block(bs[i].addr, false)];
    if Lo(bs, i) < i then AbsorbedAddrs(b1, i - 1); Absorbed(b1, i - 1) else b1
  }

  lemma FreedIsEdit(bs: seq<Block>, i: nat)
    requires Freeable(bs, i)
    ensures Freed(bs, i) == Edit(bs, Lo(bs, i), Hi(bs, i), [Block(bs[Lo(bs, i)].addr, false)])
  {
    hide Absorbed, LeftFreed;
    var lo, hi, b2 := Lo(bs, i), Hi(bs, i), LeftFreed(bs, i);
    assert [b2[lo]] == [Block(bs[lo].addr, false)];
    if hi > i {
      AbsorbedParts(b2, lo);
      assert b2[lo + 2..] == b2[lo + 1..][1..] && bs[hi + 1..] == bs[i + 1..][1..];
    } else {
      assert b2 == b2[..lo] + [b2[lo]] + b2[lo + 1..];
    }
  }

  lemma AbsorbedParts(bs: seq<Block>, i: nat)
    requires i + 2 < |bs|
    ensures Absorbed(bs, i) == bs[..i] + [bs[i]] + bs[i + 2..]
  {
  }

  /** Whether x lies in the payload of a used block other than that at a. */
  ghost predicate InOther(items: set<Item>, header: nat, a: int, x: int) {
    exists it :: it in items && it.used && it.addr != a && it.addr + header <= x < it.addr + header + it.size
  }

  /** The payloads of the used blocks other than that at a are as they were. */
  ghost predicate OthersKept(bs: seq<Block>, L: Layout, a: int, was: int -> int, now: int -> int) {
    forall x :: InOther(Items(bs, L.header), L.header, a, x) ==> now(x) == was(x)
  }

  /** The block at `to` holds what block i held, up to the smaller of its size and `size`. */
  ghost predicate ContentsKept(bs: seq<Block>, L: Layout, i: nat, size: int, to: int, was: int -> int, now: int -> int)
    requires i + 1 < |bs|
  {
    var from := bs[i].addr;
    forall x, y :: y - x == to - from && 0 <= x - from - L.header < size && x - from - L.header < Size(bs, L.header, i) ==> now(y) == was(x)
  }

  lemma AbsorbedSpaced(bs: seq<Block>, header: nat, i: nat)
    requires Spaced(bs, header) && i + 2 < |bs|
    ensures Spaced(Absorbed(bs, i), header)
  {
    AbsorbedAddrs(bs, i);
    hide Absorbed, Addrs;
    assert bs[i].addr + header <= bs[i + 1].addr && bs[i + 1].addr + header <= bs[i + 2].addr;
  }

  /** A header at b touches no live payload but that of block i, at a. */
  ghost predicate HeaderClear(bs: seq<Block>, L: Layout, i: nat, a: int, b: int) {
    forall x :: InOther(Items(bs, L.header), L.header, a, x) ==> x < b || b + L.header <= x
  }

  lemma ResizeClear(bs: seq<Block>, L: Layout, i: nat, a: int, b: int)
    requires BlocksOk(bs, L) && i + 2 < |bs| && bs[i] == Block(a, true) && !bs[i + 1].used
    requires a <= b && b + L.header <= bs[i + 2].addr
    ensures HeaderClear(bs, L, i, a, b)
  {
    hide BlocksOk, Items, Outside, Spaced;
    BlocksSpaced(bs, L);
    PairItems(bs, L.header, i);
    forall x | InOther(Items(bs, L.header), L.header, a, x) ensures x < b || b + L.header <= x {
      HeaderApart(bs, L.header, i, i + 1, b, x);
    }
  }

  /** A header written right after the first `size` bytes of block i, and clear of the others. */
  lemma InPlaceKept(bs: seq<Block>, L: Layout, i: nat, size: int, a: int, b: int, was: int -> int, now: int -> int)
    requires i + 1 < |bs| && bs[i].addr == a && b == a + size + L.header
    requires HeaderClear(bs, L, i, a, b) && WrittenIn(b, b + L.header, was, now)
    ensures OthersKept(bs, L, a, was, now) && ContentsKept(bs, L, i, size, a, was, now)
  {
    hide Items, InOther;
  }

  lemma AloneClear(bs: seq<Block>, L: Layout, i: nat, a: int, b: int)
    requires BlocksOk(bs, L) && i + 1 < |bs| && bs[i] == Block(a, true) && a <= b && b + L.header <= bs[i + 1].addr
    ensures HeaderClear(bs, L, i, a, b)
  {
    hide BlocksOk, Items, Outside, Spaced, Window;
    BlocksSpaced(bs, L);
    WindowItems(bs, L.header, i, i);
    OneWindow(bs, L.header, i);
    forall x | InOther(Items(bs, L.header), L.header, a, x) ensures x < b || b + L.header <= x {
      HeaderApart(bs, L.header, i, i, b, x);
    }
  }

  lemma InsertedIsEdit(bs: seq<Block>, i: nat, b: Block)
    requires i + 1 < |bs| && bs[i].used
    ensures Inserted(bs, i, b) == Edit(bs, i, i, [Block(bs[i].addr, true), b])
  {
  }

  lemma AbsorbedSplit(bs: seq<Block>, i: nat, b: Block)
    requires i + 2 < |bs| && bs[i].used
    ensures |Inserted(bs, i, b)| == |bs| + 1
    ensures Absorbed(Inserted(bs, i, b), i + 1) == Edit(bs, i, i + 1, [Block(bs[i].addr, true), b])
  {
    InsertedAddrs(bs, i, b);
    AbsorbedAddrs(Inserted(bs, i, b), i + 1);
    var r := Edit(bs, i, i + 1, [Block(bs[i].addr, true), b]);
    assert forall k :: 0 <= k < |r| ==> r[k] == if k <= i then bs[k] else if k == i + 1 then b else bs[k];
    hide Inserted, Absorbed, Edit, Addrs;
    assert Absorbed(Inserted(bs, i, b), i + 1) == r;
  }

  ghost predicate Copied(dst: int, src: int, n: int, was: int -> int, now: int -> int) {
    && (forall x, y :: dst <= y < dst + n && x == y - dst + src ==> now(y) == was(x))
    && (forall y :: y < dst || dst + n <= y ==> now(y) == was(y))
  }

  function CopiedTo(dst: int, src: int, n: int, was: int -> int): int -> int {
    (x: int) => if dst <= x < dst + n then was(x - dst + src) else was(x)
  }

  lemma CopyCopies(dst: int, src: int, n: int, was: int -> int)
    ensures Copied(dst, src, n, was, CopiedTo(dst, src, n, was))
  {
  }

  lemma SameLive(bs: seq<Block>, L: Layout, bytes: int -> int)
    ensures LiveKept(bs, L, bytes, bytes)
  {
  }

  lemma SameKept(bs: seq<Block>, L: Layout, a: int, bytes: int -> int)
    ensures OthersKept(bs, L, a, bytes, bytes)
  {
  }

  /** A used block outlives the replacement of a free one. */
  lemma StaysInEdit(bs: seq<Block>, header: nat, t: nat, mid: seq<Block>, it: Item)
    requires t + 1 < |bs| && !bs[t].used && mid != [] && mid[0].addr == bs[t].addr
    requires it in Items(bs, header) && it.used
    ensures it in Items(Edit(bs, t, t, mid), header)
  {
    hide Items, Outside, FreeSum, Edit, Window;
    OneWindow(bs, header, t);
    EditSums(bs, header, t, t, mid);
  }

  /** Where the block of an item stands. */
  lemma IndexedItem(bs: seq<Block>, L: Layout, it: Item)
    requires BlocksOk(bs, L) && it in Items(bs, L.header) && it.used
    ensures var i := IndexOf(bs, it.addr);
            Freeable(bs, i) && Size(bs, L.header, i) == it.size
  {
    hide BlocksOk, Items, Spaced;
    BlocksSpaced(bs, L);
    var j := ItemIndex(bs, L.header, it);
    IndexUnique(bs, L.header, j, IndexOf(bs, it.addr));
  }

  /** Whether x lies in the payload of block i: a live block is one that is used. */
  lemma InBlock(bs: seq<Block>, header: nat, i: nat, x: int)
    requires i + 1 < |bs| && bs[i].used && bs[i].addr + header <= x < bs[i + 1].addr
    ensures InLive(Items(bs, header), header, x)
  {
    ItemAt(bs, header, i);
    assert Item(bs[i].addr, Size(bs, header, i), true) in Items(bs, header);
  }

  /** The payloads of different blocks do not overlap. */
  lemma PayloadsApart(bs: seq<Block>, header: nat, i: nat, t: nat)
    requires Spaced(bs, header) && header > 0 && i + 1 < |bs| && t + 1 < |bs| && i != t
    ensures bs[i + 1].addr <= bs[t].addr || bs[t + 1].addr <= bs[i].addr
  {
    if i < t { InOrder(bs, header, i + 1, t); } else { InOrder(bs, header, t + 1, i); }
  }

  lemma OtherApart(bs: seq<Block>, L: Layout, t: nat, a: int, x: int)
    requires BlocksOk(bs, L) && t + 1 < |bs| && !bs[t].used && InOther(Items(bs, L.header), L.header, a, x)
    ensures x < bs[t].addr || bs[t + 1].addr <= x
    ensures InLive(Items(bs, L.header), L.header, x)
  {
    hide BlocksOk, Items, Spaced;
    BlocksSpaced(bs, L);
    var it :| it in Items(bs, L.header) && it.used && it.addr != a && it.addr + L.header <= x < it.addr + L.header + it.size;
    var j := ItemIndex(bs, L.header, it);
    PayloadsApart(bs, L.header, j, t);
  }

  /** Copying block i into block t, which was free, keeps its contents and touches no other
      used block. */
  lemma CopyKept(bs: seq<Block>, L: Layout, i: nat, t: nat, size: int, n: int, was: int -> int, mid: int -> int, now: int -> int)
    requires BlocksOk(bs, L) && i + 1 < |bs| && t + 1 < |bs| && bs[i].used && !bs[t].used && size <= Size(bs, L.header, t)
    requires n == if size < Size(bs, L.header, i) then size else Size(bs, L.header, i)
    requires LiveKept(bs, L, was, mid) && Copied(bs[t].addr + L.header, bs[i].addr + L.header, n, mid, now)
    ensures OthersKept(bs, L, bs[i].addr, was, now) && ContentsKept(bs, L, i, size, bs[t].addr, was, now)
  {
    hide BlocksOk, Items, Spaced, InOther, InLive;
    forall x | InOther(Items(bs, L.header), L.header, bs[i].addr, x) ensures now(x) == was(x) {
      OtherApart(bs, L, t, bs[i].addr, x);
    }
    forall x | bs[i].addr + L.header <= x < bs[i].addr + L.header + n ensures mid(x) == was(x) {
      InBlock(bs, L.header, i, x);
    }
  }
}
