/** The used blocks of a tiled memory: what taking, freeing and resizing a block does to them, and
    that they determine all other blocks.  Shared by the laws of both heaps. */
module UsedBlocks {
  import opened BlockEdits
  import opened Tiling

  function UsedOf(items: set<Item>): set<Item> { set it | it in items && it.used }

  function Used(bs: seq<Block>, header: nat): set<Item> { UsedOf(Items(bs, header)) }

  // -------------------------------------------------------------------------------------
  // Edits
  // -------------------------------------------------------------------------------------

  lemma EditUsedItems(bs: seq<Block>, header: nat, i: nat, j: nat, mid: seq<Block>)
    requires i <= j < |bs| - 1 && mid != [] && mid[0].addr == bs[i].addr
    ensures var rest := UsedOf(Outside(bs, header, i, j));
            && Used(bs, header) == rest + UsedOf(Items(Window(bs, i, j), header))
            && Used(Edit(bs, i, j, mid), header) == rest + UsedOf(Items(mid + [bs[j + 1]], header))
  {
    hide Items, Edit, Window, Outside;
    EditSums(bs, header, i, j, mid);
  }

  /** The rest of a heap holds no block that starts inside an edited stretch. */
  lemma RestApart(bs: seq<Block>, header: nat, i: nat, j: nat, it: Item)
    requires Spaced(bs, header) && header > 0 && i <= j < |bs| - 1 && bs[i].addr <= it.addr < bs[j + 1].addr
    ensures it !in UsedOf(Outside(bs, header, i, j))
  {
    hide Outside, Spaced;
    OutsideElsewhere(bs, header, i, j, it.addr);
  }

  /** A free block that is taken, in full or but for its tail, is the one more used block. */
  lemma TakeUsed(bs: seq<Block>, header: nat, i: nat, mid: seq<Block>)
    requires i + 1 < |bs| && !bs[i].used && 1 <= |mid| <= 2 && mid[0] == Block(bs[i].addr, true) && (|mid| == 2 ==> !mid[1].used)
    ensures var n := (if |mid| == 2 then mid[1].addr else bs[i + 1].addr) - bs[i].addr - header;
            Used(Edit(bs, i, i, mid), header) == Used(bs, header) + {Item(bs[i].addr, n, true)}
  {
    hide Items, Edit, Window, Outside;
    EditUsedItems(bs, header, i, i, mid);
    OneWindow(bs, header, i);
    if |mid| == 2 {
      TwoWindow(mid[0], mid[1], bs[i + 1], header);
      assert mid == [mid[0], mid[1]];
    } else {
      OnePair(mid[0], bs[i + 1], header);
      assert mid == [mid[0]];
    }
  }

  /** The blocks that become one free block. */
  lemma FreeUsedItems(bs: seq<Block>, header: nat, i: nat)
    requires Freeable(bs, i) && Spaced(bs, header) && header > 0
    ensures var lo, hi := Lo(bs, i), Hi(bs, i);
            Used(Edit(bs, lo, hi, [Block(bs[lo].addr, false)]), header) == Used(bs, header) - {Item(bs[i].addr, Size(bs, header, i), true)}
  {
    hide Items, Edit, Window, Outside, Spaced;
    var lo, hi := Lo(bs, i), Hi(bs, i);
    var it := Item(bs[i].addr, Size(bs, header, i), true);
    EditUsedItems(bs, header, lo, hi, [Block(bs[lo].addr, false)]);
    OnePair(Block(bs[lo].addr, false), bs[hi + 1], header);
    StretchUsed(bs, header, i);
    Between(bs, header, lo, i, hi + 1);
    RestApart(bs, header, lo, hi, it);
  }

  lemma Between(bs: seq<Block>, header: nat, lo: nat, i: nat, hi: nat)
    requires Spaced(bs, header) && header > 0 && lo <= i < hi < |bs|
    ensures bs[lo].addr <= bs[i].addr < bs[hi].addr
  {
    hide Spaced;
    InOrder(bs, header, lo, i);
    InOrder(bs, header, i + 1, hi);
    NextApart(bs, header, i);
  }

  lemma NextApart(bs: seq<Block>, header: nat, i: nat)
    requires Spaced(bs, header) && i + 1 < |bs|
    ensures bs[i].addr + header <= bs[i + 1].addr
  {
  }

  lemma StretchUsed(bs: seq<Block>, header: nat, i: nat)
    requires Freeable(bs, i)
    ensures UsedOf(Items(Window(bs, Lo(bs, i), Hi(bs, i)), header)) == {Item(bs[i].addr, Size(bs, header, i), true)}
  {
    hide Items, Window;
    var lo, hi := Lo(bs, i), Hi(bs, i);
    if lo < i && hi > i {
      ThreeBlocks(bs, i - 1);
      ThreeWindow(bs[i - 1], bs[i], bs[i + 1], bs[i + 2], header);
    } else if lo < i {
      TwoBlocks(bs, i - 1);
      TwoWindow(bs[i - 1], bs[i], bs[i + 1], header);
    } else if hi > i {
      TwoBlocks(bs, i);
      TwoWindow(bs[i], bs[i + 1], bs[i + 2], header);
    } else {
      OneWindow(bs, header, i);
    }
  }

  /** A used block is given another size, at the cost of a free one behind it or not. */
  lemma ResizeUsed(bs: seq<Block>, header: nat, i: nat, j: nat, b: int)
    requires Freeable(bs, i) && Spaced(bs, header) && header > 0 && j < |bs| - 1 && (j == i || (j == i + 1 && !bs[j].used))
    ensures Used(Edit(bs, i, j, [Block(bs[i].addr, true), Block(b, false)]), header) ==
            Used(bs, header) - {Item(bs[i].addr, Size(bs, header, i), true)} + {Item(bs[i].addr, b - bs[i].addr - header, true)}
  {
    hide Items, Edit, Window, Outside, Spaced;
    var it := Item(bs[i].addr, Size(bs, header, i), true);
    EditUsedItems(bs, header, i, j, [Block(bs[i].addr, true), Block(b, false)]);
    TwoWindow(Block(bs[i].addr, true), Block(b, false), bs[j + 1], header);
    if j == i {
      OneWindow(bs, header, i);
    } else {
      TwoBlocks(bs, i);
      TwoWindow(bs[i], bs[i + 1], bs[i + 2], header);
    }
    Between(bs, header, i, i, j + 1);
    RestApart(bs, header, i, j, it);
    RestApart(bs, header, i, j, Item(bs[i].addr, b - bs[i].addr - header, true));
  }

  lemma KeptUsed(bs: seq<Block>, header: nat, i: nat)
    requires i + 1 < |bs| && bs[i].used
    ensures var it := Item(bs[i].addr, Size(bs, header, i), true); Used(bs, header) == Used(bs, header) - {it} + {it}
  {
    hide Items;
    ItemAt(bs, header, i);
  }

  // -------------------------------------------------------------------------------------
  // Used blocks determine the heap
  // -------------------------------------------------------------------------------------

  /** A tail of a tiling without free neighbours. */
  ghost predicate Tail(bs: seq<Block>, header: nat) {
    bs != [] && header > 0 && Spaced(bs, header) && Coalesced(bs) && bs[|bs| - 1].used
  }

  lemma TailNext(bs: seq<Block>, header: nat)
    requires Tail(bs, header) && |bs| > 1
    ensures Tail(bs[1..], header) && bs[0].addr + header <= bs[1].addr && bs[1].addr <= bs[|bs| - 1].addr
    ensures Used(bs, header) == Used(bs[1..], header) + if bs[0].used then {Item(bs[0].addr, Size(bs, header, 0), true)} else {}
    ensures forall it :: it in Used(bs[1..], header) ==> bs[1].addr <= it.addr < bs[|bs| - 1].addr
    ensures !bs[0].used ==> bs[1].used
  {
    InOrder(bs, header, 1, |bs| - 1);
    var tail := bs[1..];
    assert forall k :: 0 <= k < |tail| ==> tail[k] == bs[k + 1];
    forall it | it in Used(tail, header) ensures bs[1].addr <= it.addr < bs[|bs| - 1].addr {
      ItemBounds(tail, header, it);
    }
  }

  /** Both lists go on with the same block. */
  lemma SameNext(bs: seq<Block>, cs: seq<Block>, header: nat)
    requires Tail(bs, header) && Tail(cs, header) && bs[0].addr == cs[0].addr && bs[|bs| - 1] == cs[|cs| - 1]
    requires |bs| > 1 && |cs| > 1 && Used(bs, header) == Used(cs, header)
    ensures bs[0].used == cs[0].used && bs[1].addr == cs[1].addr && Used(bs[1..], header) == Used(cs[1..], header)
  {
    hide Tail, Used, Spaced, Coalesced;
    TailNext(bs, header);
    TailNext(cs, header);
    HeadUsed(bs, cs, header);
    HeadUsed(cs, bs, header);
    if !bs[0].used {
      FirstUsed(bs, cs, header);
      FirstUsed(cs, bs, header);
    }
  }

  lemma HeadUsed(bs: seq<Block>, cs: seq<Block>, header: nat)
    requires Tail(bs, header) && Tail(cs, header) && bs[0].addr == cs[0].addr && |bs| > 1 && |cs| > 1
    requires Used(bs, header) == Used(cs, header)
    ensures bs[0].used ==> cs[0].used && bs[1].addr == cs[1].addr
  {
    hide Tail, Used, Spaced, Coalesced;
    TailNext(bs, header);
    TailNext(cs, header);
    assert bs[0].used ==> Item(bs[0].addr, Size(bs, header, 0), true) in Used(cs, header);
  }

  /** After a free block comes the lowest used one, or the end. */
  lemma FirstUsed(bs: seq<Block>, cs: seq<Block>, header: nat)
    requires Tail(bs, header) && Tail(cs, header) && bs[|bs| - 1] == cs[|cs| - 1] && |bs| > 1 && |cs| > 1
    requires !bs[0].used && !cs[0].used && Used(bs, header) == Used(cs, header)
    ensures bs[1].addr <= cs[1].addr
  {
    hide Used, Spaced, Coalesced;
    TailNext(bs, header);
    TailNext(cs, header);
    if |cs| > 2 {
      TailNext(cs[1..], header);
      assert cs[1..][0].used;
      assert Item(cs[1].addr, Size(cs[1..], header, 0), true) in Used(cs[1..], header);
    }
  }

  /** Two tilings of the same memory without free neighbours are equal if their used blocks are. */
  lemma {:induction false} UsedDetermine(bs: seq<Block>, cs: seq<Block>, header: nat)
    requires Tail(bs, header) && Tail(cs, header) && bs[0].addr == cs[0].addr && bs[|bs| - 1] == cs[|cs| - 1]
    requires Used(bs, header) == Used(cs, header)
    ensures bs == cs
    decreases |bs|
  {
    hide Tail, Used, Spaced, Coalesced;
    Ends(bs, header);
    Ends(cs, header);
    if |bs| > 1 && |cs| > 1 {
      SameNext(bs, cs, header);
      TailNext(bs, header);
      TailNext(cs, header);
      UsedDetermine(bs[1..], cs[1..], header);
      assert bs == [bs[0]] + bs[1..] && cs == [cs[0]] + cs[1..];
    } else {
      assert bs == [bs[0]] && cs == [cs[0]];
    }
  }

  lemma Ends(bs: seq<Block>, header: nat)
    requires Tail(bs, header)
    ensures bs != [] && (|bs| == 1 <==> bs[0].addr == bs[|bs| - 1].addr)
  {
    if |bs| > 1 { TailNext(bs, header); }
  }

  /** One free block and the end. */
  lemma OneFree(a: Block, e: Block, header: nat)
    requires !a.used
    ensures Used([a, e], header) == {}
  {
    hide Items;
    OnePair(a, e, header);
    assert [a, e] == [a] + [e];
  }

  // -------------------------------------------------------------------------------------
  // Addresses
  // -------------------------------------------------------------------------------------

  function Addresses(items: set<Item>): set<int> { set it | it in items :: it.addr }

  /** The blocks start at different addresses. */
  lemma AddressOnce(bs: seq<Block>, header: nat, a: Item, b: Item)
    requires Spaced(bs, header) && header > 0 && a in Used(bs, header) && b in Used(bs, header) && a.addr == b.addr
    ensures a == b
  {
    hide Spaced, Items;
    var i := ItemIndex(bs, header, a);
    var j := ItemIndex(bs, header, b);
    IndexUnique(bs, header, i, j);
  }

  /** One block less is one address less. */
  lemma OneLess(bs: seq<Block>, header: nat, i: nat)
    requires Spaced(bs, header) && header > 0 && i + 1 < |bs| && bs[i].used
    ensures var it := Item(bs[i].addr, Size(bs, header, i), true);
            it in Used(bs, header) && Addresses(Used(bs, header) - {it}) == Addresses(Used(bs, header)) - {it.addr}
  {
    hide Spaced, Items;
    ItemAt(bs, header, i);
    var it, us := Item(bs[i].addr, Size(bs, header, i), true), Used(bs, header);
    forall x | x in us && x.addr == it.addr ensures x == it { AddressOnce(bs, header, x, it); }
  }
}
