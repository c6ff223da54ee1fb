/** Memory cut into blocks: each block is a header at an address and the payload up to the
    next header.  The last block is a stub that marks the end.  Shared by the models of
    rt-thread/src/memheap.c and rt-thread/src/mem.c, whose sums and sets of blocks it
    splits at an edit. */
module Tiling {

  datatype Block = Block(addr: int, used: bool)

  /** A block with its payload size. */
  datatype Item = Item(addr: int, size: int, used: bool)

  ghost predicate Spaced(bs: seq<Block>, header: nat) {
    forall i, j :: 0 <= i < j < |bs| && j == i + 1 ==> bs[i].addr + header <= bs[j].addr
  }

  /** The blocks fill [start, end) without gap or overlap and end in a used stub. */
  ghost predicate Tiles(bs: seq<Block>, header: nat, start: int, end: int) {
    && |bs| >= 2 && header > 0 && bs[0].addr == start && bs[|bs| - 1] == Block(end, true)
    && Spaced(bs, header)
  }

  ghost predicate Coalesced(bs: seq<Block>) {
    forall i, j :: 0 <= i < j < |bs| && j == i + 1 ==> bs[i].used || bs[j].used
  }

  function Size(bs: seq<Block>, header: nat, i: nat): int
    requires i + 1 < |bs|
  {
    bs[i + 1].addr - bs[i].addr - header
  }

  function FreeSum(bs: seq<Block>, header: nat): int {
    if |bs| < 2 then 0 else (if bs[0].used then 0 else Size(bs, header, 0)) + FreeSum(bs[1..], header)
  }

  /** All blocks but the last. */
  function Items(bs: seq<Block>, header: nat): set<Item> {
    if |bs| < 2 then {} else {Item(bs[0].addr, Size(bs, header, 0), bs[0].used)} + Items(bs[1..], header)
  }

  lemma {:induction false} SumSplit(bs: seq<Block>, header: nat, k: nat)
    requires k < |bs|
    ensures FreeSum(bs, header) == FreeSum(bs[..k + 1], header) + FreeSum(bs[k..], header)
    ensures Items(bs, header) == Items(bs[..k + 1], header) + Items(bs[k..], header)
  {
    if k == 0 {
      assert bs[0..] == bs;
    } else {
      SumSplit(bs[1..], header, k - 1);
      assert bs[1..][..k] == bs[..k + 1][1..];
      assert bs[1..][k - 1..] == bs[k..];
    }
  }

  /** Sums over all blocks but the last do not depend on what the last one holds. */
  lemma {:induction false} LastUncounted(bs: seq<Block>, header: nat, b: Block)
    requires bs != [] && b.addr == bs[|bs| - 1].addr
    ensures FreeSum(bs[|bs| - 1 := b], header) == FreeSum(bs, header)
    ensures Items(bs[|bs| - 1 := b], header) == Items(bs, header)
  {
    if |bs| >= 2 {
      LastUncounted(bs[1..], header, b);
      assert bs[|bs| - 1 := b][1..] == bs[1..][|bs| - 2 := b];
    }
  }

  /** The blocks with those from i to j replaced. */
  function Edit(bs: seq<Block>, i: nat, j: nat, mid: seq<Block>): seq<Block>
    requires i <= j < |bs|
  {
    bs[..i] + mid + bs[j + 1..]
  }

  /** The replaced stretch up to and including the block after it, whose address ends it. */
  function Window(bs: seq<Block>, i: nat, j: nat): seq<Block>
    requires i <= j < |bs| - 1
  {
    bs[i..j + 2]
  }

  /** An edit that keeps the first address changes the sums by its window only. */
  lemma EditSums(bs: seq<Block>, header: nat, i: nat, j: nat, mid: seq<Block>)
    requires i <= j < |bs| - 1 && mid != [] && mid[0].addr == bs[i].addr
    ensures var bs' := Edit(bs, i, j, mid);
            FreeSum(bs', header) - FreeSum(mid + [bs[j + 1]], header) == FreeSum(bs, header) - FreeSum(Window(bs, i, j), header)
    ensures var bs' := Edit(bs, i, j, mid); var rest := Outside(bs, header, i, j);
            && Items(bs, header) == rest + Items(Window(bs, i, j), header)
            && Items(bs', header) == rest + Items(mid + [bs[j + 1]], header)
  {
    hide Edit, Window, FreeSum, Items;
    EditSlices(bs, i, j, mid);
    var bs' := Edit(bs, i, j, mid);
    SumSplit(bs, header, i);
    SumSplit(bs[i..], header, j + 1 - i);
    SumSplit(bs', header, i);
    SumSplit(bs'[i..], header, |mid|);
    LastUncounted(bs[..i + 1], header, mid[0]);
  }

  /** The parts of the blocks before and after an edit. */
  lemma EditSlices(bs: seq<Block>, i: nat, j: nat, mid: seq<Block>)
    requires i <= j < |bs| - 1 && mid != []
    ensures bs[i..][..j + 2 - i] == Window(bs, i, j) && bs[i..][j + 1 - i..] == bs[j + 1..]
    ensures var bs' := Edit(bs, i, j, mid);
            && |bs'| == |bs| - (j + 1 - i) + |mid| && bs'[..i + 1] == bs[..i + 1][i := mid[0]]
            && bs'[i..][..|mid| + 1] == mid + [bs[j + 1]] && bs'[i..][|mid|..] == bs[j + 1..]
  {
  }

  lemma WindowItems(bs: seq<Block>, header: nat, i: nat, j: nat)
    requires i <= j < |bs| - 1
    ensures Items(bs, header) == Outside(bs, header, i, j) + Items(Window(bs, i, j), header)
  {
    hide Items, FreeSum;
    EditSums(bs, header, i, j, [bs[i]]);
  }

  function Outside(bs: seq<Block>, header: nat, i: nat, j: nat): set<Item>
    requires i <= j < |bs| - 1
  {
    Items(bs[..i + 1], header) + Items(bs[j + 1..], header)
  }

  lemma {:induction false} ItemBounds(bs: seq<Block>, header: nat, it: Item)
    requires Spaced(bs, header) && header > 0 && it in Items(bs, header)
    ensures |bs| >= 2 && bs[0].addr <= it.addr && it.addr + header + it.size <= bs[|bs| - 1].addr && it.size >= 0
  {
    if it == Item(bs[0].addr, Size(bs, header, 0), bs[0].used) {
      Ascending(bs, header, 1, |bs| - 1);
    } else {
      assert forall i :: 0 <= i < |bs[1..]| ==> bs[1..][i] == bs[i + 1];
      ItemBounds(bs[1..], header, it);
    }
  }

  lemma {:induction false} Ascending(bs: seq<Block>, header: nat, i: nat, j: nat)
    requires Spaced(bs, header) && i <= j < |bs|
    ensures bs[i].addr + (j - i) * header <= bs[j].addr
    decreases j - i
  {
    if i < j {
      Ascending(bs, header, i + 1, j);
    }
  }

  /** Blocks outside an edit lie before its start or from its end on. */
  lemma OutsideApart(bs: seq<Block>, header: nat, i: nat, j: nat, it: Item)
    requires Spaced(bs, header) && header > 0 && i <= j < |bs| - 1 && it in Outside(bs, header, i, j)
    ensures it.size >= 0 && (it.addr + header + it.size <= bs[i].addr || bs[j + 1].addr <= it.addr)
  {
    var tail := bs[j + 1..];
    assert forall k :: 0 <= k < |tail| ==> tail[k] == bs[k + j + 1];
    if it in Items(bs[..i + 1], header) {
      ItemBounds(bs[..i + 1], header, it);
    } else {
      ItemBounds(bs[j + 1..], header, it);
    }
  }

  lemma {:induction false} ItemAt(bs: seq<Block>, header: nat, i: nat)
    requires i + 1 < |bs|
    ensures Item(bs[i].addr, Size(bs, header, i), bs[i].used) in Items(bs, header)
  {
    if i > 0 { ItemAt(bs[1..], header, i - 1); }
  }

  lemma {:induction false} ItemIndex(bs: seq<Block>, header: nat, it: Item) returns (i: nat)
    requires it in Items(bs, header)
    ensures i + 1 < |bs| && it == Item(bs[i].addr, Size(bs, header, i), bs[i].used)
  {
    if it == Item(bs[0].addr, Size(bs, header, 0), bs[0].used) {
      i := 0;
    } else {
      i := ItemIndex(bs[1..], header, it);
      i := i + 1;
    }
  }

  /** An edit whose window fits keeps the tiling. */
  lemma EditTiles(bs: seq<Block>, header: nat, start: int, end: int, i: nat, j: nat, mid: seq<Block>)
    requires Tiles(bs, header, start, end) && i <= j < |bs| - 1 && mid != [] && mid[0].addr == bs[i].addr
    requires Spaced(mid + [bs[j + 1]], header)
    ensures Tiles(Edit(bs, i, j, mid), header, start, end)
  {
    var bs' := Edit(bs, i, j, mid);
    var w := mid + [bs[j + 1]];
    forall k | 0 <= k < |bs'| - 1 ensures bs'[k].addr + header <= bs'[k + 1].addr {
      if k < i {
        assert bs'[k] == bs[k] && bs'[k + 1].addr == bs[k + 1].addr;
      } else if k < i + |mid| {
        assert bs'[k] == w[k - i] && bs'[k + 1] == w[k - i + 1];
      } else {
        var k' := k - |mid| + j + 1 - i;
        assert bs'[k] == bs[k'] && bs'[k + 1] == bs[k' + 1];
      }
    }
  }

  /** An edit keeps free blocks apart when its window and its two borders do. */
  lemma EditCoalesced(bs: seq<Block>, i: nat, j: nat, mid: seq<Block>)
    requires Coalesced(bs) && i <= j < |bs| - 1 && mid != []
    requires Coalesced(mid + [bs[j + 1]]) && (i > 0 ==> bs[i - 1].used || mid[0].used)
    ensures Coalesced(Edit(bs, i, j, mid))
  {
    var bs' := Edit(bs, i, j, mid);
    var w := mid + [bs[j + 1]];
    forall k | 0 <= k < |bs'| - 1 ensures bs'[k].used || bs'[k + 1].used {
      if k + 1 < i {
        assert bs'[k] == bs[k] && bs'[k + 1] == bs[k + 1];
      } else if k + 1 == i {
        assert bs'[k] == bs[i - 1] && bs'[k + 1] == mid[0];
      } else if k < i + |mid| {
        assert bs'[k] == w[k - i] && bs'[k + 1] == w[k - i + 1];
      } else {
        var k' := k - |mid| + j + 1 - i;
        assert bs'[k] == bs[k'] && bs'[k + 1] == bs[k' + 1];
      }
    }
  }

  /** The index of the block at an address, |bs| if there is none. */
  function IndexOf(bs: seq<Block>, a: int): (i: nat)
    ensures i <= |bs| && (i < |bs| ==> bs[i].addr == a) && (i == |bs| ==> forall k :: 0 <= k < |bs| ==> bs[k].addr != a)
  {
    if bs == [] then 0 else if bs[0].addr == a then 0
    else
      assert forall k :: 1 <= k < |bs| ==> bs[k] == bs[1..][k - 1];
      1 + IndexOf(bs[1..], a)
  }

  lemma IndexUnique(bs: seq<Block>, header: nat, i: nat, j: nat)
    requires Spaced(bs, header) && header > 0 && i < |bs| && j < |bs| && bs[i].addr == bs[j].addr
    ensures i == j
  {
    if i < j { Ascending(bs, header, i, j); Positive(j - i, header); }
    if j < i { Ascending(bs, header, j, i); Positive(i - j, header); }
  }

  lemma Positive(a: nat, b: nat)
    requires a > 0 && b > 0
    ensures a * b > 0
  {
  }
}
