/** The page allocator of rt-thread/src/slab.c: a list whose nodes are kept in the first page of
    each run, edited through the link that leads to a node.  Taking and giving back pages is
    proved to edit the list at one place, and that edit to be the one on runs that
    PageRuns.dfy defines. */
module PageList {
  import opened Lists
  import opened PageRuns
  import opened SinglyLinked

  function Starts(rs: seq<Run>): (s: seq<nat>)
    ensures |s| == |rs| && forall k :: 0 <= k < |rs| ==> s[k] == rs[k].start
  {
    seq(|rs|, k requires 0 <= k < |rs| => rs[k].start)
  }

  /** The page counts in the nodes. */
  ghost predicate Counted(page: map<nat, nat>, rs: seq<Run>) {
    forall k :: 0 <= k < |rs| ==> rs[k].start in page && page[rs[k].start] == rs[k].len
  }

  lemma StartsDistinct(rs: seq<Run>)
    requires Canonical(rs)
    ensures Distinct(Starts(rs))
  {
    forall i, j | 0 <= i < j < |rs| ensures Starts(rs)[i] != Starts(rs)[j] { Ordered(rs, i, j); }
  }

  ghost predicate Rings(next: Nexts, head: nat, page: map<nat, nat>, rs: seq<Run>) {
    IsList(next, head, Starts(rs)) && Counted(page, rs)
  }

  lemma HeadOf(next: Nexts, head: nat, page: map<nat, nat>, rs: seq<Run>)
    requires Rings(next, head, page, rs)
    ensures head == (if rs == [] then NULL else rs[0].start) && (head == NULL <==> rs == [])
  {
  }

  /** The node at place k. */
  lemma RingAt(next: Nexts, head: nat, page: map<nat, nat>, rs: seq<Run>, k: nat)
    requires Rings(next, head, page, rs) && k < |rs|
    ensures var b := rs[k].start;
            && b > 0 && b in next && b in page && page[b] == rs[k].len
            && (k + 1 < |rs| ==> next[b] == rs[k + 1].start > 0 && next[b] in next && next[b] in page && page[next[b]] == rs[k + 1].len)
            && (k + 1 == |rs| ==> next[b] == NULL)
  {
    ListAt(next, head, Starts(rs), k);
    if k + 1 < |rs| { ListAt(next, head, Starts(rs), k + 1); }
  }

  /** A node that is none of the list's. */
  lemma NewNode(rs: seq<Run>, k: nat, m: nat)
    requires Canonical(rs) && k < |rs| && rs[k].start < m < rs[k].start + rs[k].len
    ensures m !in Starts(rs) && forall i :: 0 <= i < |rs| ==> rs[i].start != m
  {
    forall i | 0 <= i < |rs| ensures rs[i].start != m {
      if i < k { Ordered(rs, i, k); } else if i > k { Ordered(rs, k, i); }
    }
  }

  /** Taking the front of run k: its node moves up. */
  lemma SplitRings(next: Nexts, head: nat, page: map<nat, nat>, rs: seq<Run>, k: nat, n: nat)
    requires Rings(next, head, page, rs) && Canonical(rs) && k < |rs| && 0 < n < rs[k].len
    ensures rs[k].start in next
    ensures var b := rs[k].start; var m := b + n;
            var next' := next[m := next[b]]; var page' := page[m := rs[k].len - n];
            if k == 0 then Rings(next', m, page', Take(rs, k, n)) else Rings(next'[rs[k - 1].start := m], head, page', Take(rs, k, n))
  {
    hide Canonical, IsList;
    var m := rs[k].start + n;
    StartsDistinct(rs);
    NewNode(rs, k, m);
    ListReplace(next, head, Starts(rs), k, m);
    ReplacedStarts(rs, k, Run(m, rs[k].len - n));
    CountedReplaced(page, rs, k, Run(m, rs[k].len - n));
  }

  lemma ReplacedStarts(rs: seq<Run>, k: nat, r: Run)
    requires k < |rs|
    ensures Starts(rs[k := r]) == Starts(rs)[k := r.start]
  {
  }

  lemma CountedReplaced(page: map<nat, nat>, rs: seq<Run>, k: nat, r: Run)
    requires Counted(page, rs) && k < |rs| && forall i :: 0 <= i < |rs| && i != k ==> rs[i].start != r.start
    ensures Counted(page[r.start := r.len], rs[k := r])
  {
  }

  function Dropped<T>(s: seq<T>, k: nat): (r: seq<T>)
    requires k < |s|
    ensures |r| == |s| - 1 && forall i {:trigger r[i]} :: 0 <= i < |r| ==> r[i] == if i < k then s[i] else s[i + 1]
  {
    s[..k] + s[k + 1..]
  }

  lemma DropRings(next: Nexts, head: nat, page: map<nat, nat>, rs: seq<Run>, k: nat)
    requires Rings(next, head, page, rs) && Distinct(Starts(rs)) && k < |rs|
    ensures rs[k].start in next
    ensures var b := rs[k].start;
            if k == 0 then Rings(next, next[b], page, Dropped(rs, k)) else Rings(next[rs[k - 1].start := next[b]], head, page, Dropped(rs, k))
  {
    hide Canonical, IsList, Dropped;
    HeadOf(next, head, page, rs);
    ListDrop(next, head, Starts(rs), k);
    DroppedStarts(rs, k);
  }

  lemma DroppedStarts(rs: seq<Run>, k: nat)
    requires k < |rs|
    ensures Starts(Dropped(rs, k)) == Starts(rs)[..k] + Starts(rs)[k + 1..]
    ensures k == 0 ==> Starts(Dropped(rs, k)) == Starts(rs)[1..]
  {
  }

  // -------------------------------------------------------------------------------------
  // Where freed pages go
  // -------------------------------------------------------------------------------------

  /** The walk of rt_slab_page_free ends at this run: the pages touch it, or lie before it. */
  predicate Stops(r: Run, a: nat, n: nat) {
    r.start + r.len == a || r.start == a + n || r.start > a + n
  }

  function Stop(rs: seq<Run>, a: nat, n: nat): (k: nat)
    ensures k <= |rs| && (forall i :: 0 <= i < k ==> !Stops(rs[i], a, n)) && (k < |rs| ==> Stops(rs[k], a, n))
  {
    if rs == [] || Stops(rs[0], a, n) then 0 else 1 + Stop(rs[1..], a, n)
  }

  lemma StopUnique(rs: seq<Run>, a: nat, n: nat, k: nat)
    requires k <= |rs| && (forall i :: 0 <= i < k ==> !Stops(rs[i], a, n)) && (k < |rs| ==> Stops(rs[k], a, n))
    ensures Stop(rs, a, n) == k
  {
  }

  /** Run k takes in the run behind it. */
  function Joined(rs: seq<Run>, k: nat): seq<Run>
    requires k + 1 < |rs|
  {
    Dropped(rs[k := Run(rs[k].start, rs[k].len + rs[k + 1].len)], k + 1)
  }

  /** The result of rt_slab_page_free as an edit at one place of the list. */
  function Placed(rs: seq<Run>, k: nat, a: nat, n: nat): seq<Run>
    requires k <= |rs|
  {
    if k < |rs| && rs[k].start + rs[k].len == a then
      var grown := rs[k := Run(rs[k].start, rs[k].len + n)];
      if k + 1 < |rs| && a + n == rs[k + 1].start then Joined(grown, k) else grown
    else if k < |rs| && rs[k].start == a + n then rs[k := Run(a, n + rs[k].len)]
    else InsertAt(rs, k, Run(a, n))
  }

  lemma {:induction false} GiveIsPlaced(rs: seq<Run>, a: nat, n: nat)
    ensures Give(rs, a, n) == Placed(rs, Stop(rs, a, n), a, n)
  {
    var k := Stop(rs, a, n);
    if k > 0 {
      GiveIsPlaced(rs[1..], a, n);
      PlacedTail(rs, k, a, n);
    } else if rs != [] && rs[0].start + rs[0].len == a && |rs| > 1 && a + n == rs[1].start {
      assert Placed(rs, 0, a, n) == [Run(rs[0].start, rs[0].len + n + rs[1].len)] + rs[2..];
    }
  }

  lemma PlacedTail(rs: seq<Run>, k: nat, a: nat, n: nat)
    requires 0 < k <= |rs|
    ensures Placed(rs, k, a, n) == [rs[0]] + Placed(rs[1..], k - 1, a, n)
  {
    var t := rs[1..];
    if k < |rs| {
      var x, y := Run(rs[k].start, rs[k].len + n), Run(a, n + rs[k].len);
      assert rs[k := x] == [rs[0]] + t[k - 1 := x] && rs[k := y] == [rs[0]] + t[k - 1 := y];
      if k + 1 < |rs| { JoinedTail(rs[k := x], t[k - 1 := x], k); }
    }
    assert InsertAt(rs, k, Run(a, n)) == [rs[0]] + InsertAt(t, k - 1, Run(a, n));
  }

  lemma JoinedTail(rs: seq<Run>, t: seq<Run>, k: nat)
    requires 0 < k && k + 1 < |rs| && rs == [rs[0]] + t
    ensures Joined(rs, k) == [rs[0]] + Joined(t, k - 1)
  {
  }

  /** What pages outside the list make sure of. */
  lemma OutsideList(rs: seq<Run>, a: nat, n: nat)
    requires Canonical(rs) && n > 0 && forall x :: a <= x < a + n ==> !Holds(rs, x)
    ensures Distinct(Starts(rs)) && a !in Starts(rs) && forall i :: 0 <= i < |rs| ==> rs[i].start != a
  {
    StartsDistinct(rs);
    forall i | 0 <= i < |rs| ensures rs[i].start != a {
      StartPositive(rs, i);
      RunHolds(rs, i, rs[i].start);
    }
  }

  lemma GrowRings(next: Nexts, head: nat, page: map<nat, nat>, rs: seq<Run>, k: nat, len: nat)
    requires Rings(next, head, page, rs) && Distinct(Starts(rs)) && k < |rs|
    ensures var r := rs[k := Run(rs[k].start, len)];
            Rings(next, head, page[rs[k].start := len], r) && Starts(r) == Starts(rs)
  {
    hide IsList, Distinct;
    ReplacedStarts(rs, k, Run(rs[k].start, len));
    assert Starts(rs)[k := rs[k].start] == Starts(rs);
    StartsApart(rs);
    CountedReplaced(page, rs, k, Run(rs[k].start, len));
  }

  lemma StartsApart(rs: seq<Run>)
    requires Distinct(Starts(rs))
    ensures forall i, j :: 0 <= i < |rs| && 0 <= j < |rs| && i != j ==> rs[i].start != rs[j].start
  {
    assert forall k :: 0 <= k < |rs| ==> Starts(rs)[k] == rs[k].start;
  }

  lemma JoinRings(next: Nexts, head: nat, page: map<nat, nat>, rs: seq<Run>, k: nat)
    requires Rings(next, head, page, rs) && Distinct(Starts(rs)) && k + 1 < |rs|
    ensures var b, n := rs[k].start, rs[k + 1].start;
            n in next && Rings(next[b := next[n]], head, page[b := rs[k].len + rs[k + 1].len], Joined(rs, k))
  {
    hide IsList, Distinct, Rings, Dropped;
    var len := rs[k].len + rs[k + 1].len;
    GrowRings(next, head, page, rs, k, len);
    DropRings(next, head, page[rs[k].start := len], rs[k := Run(rs[k].start, len)], k + 1);
  }

  lemma FrontRings(next: Nexts, head: nat, page: map<nat, nat>, rs: seq<Run>, k: nat, a: nat, len: nat)
    requires Rings(next, head, page, rs) && Distinct(Starts(rs)) && k < |rs| && a > 0 && a !in Starts(rs)
    requires forall i :: 0 <= i < |rs| ==> rs[i].start != a
    ensures rs[k].start in next
    ensures var next' := next[a := next[rs[k].start]]; var page' := page[a := len]; var r := rs[k := Run(a, len)];
            if k == 0 then Rings(next', a, page', r) else Rings(next'[rs[k - 1].start := a], head, page', r)
  {
    hide IsList;
    ListReplace(next, head, Starts(rs), k, a);
    ReplacedStarts(rs, k, Run(a, len));
    CountedReplaced(page, rs, k, Run(a, len));
  }

  lemma NewRings(next: Nexts, head: nat, page: map<nat, nat>, rs: seq<Run>, k: nat, a: nat, n: nat)
    requires Rings(next, head, page, rs) && Distinct(Starts(rs)) && k <= |rs| && a > 0 && a !in Starts(rs)
    requires forall i :: 0 <= i < |rs| ==> rs[i].start != a
    ensures var next' := next[a := if k < |rs| then rs[k].start else NULL]; var page' := page[a := n]; var r := InsertAt(rs, k, Run(a, n));
            if k == 0 then Rings(next', a, page', r) else Rings(next'[rs[k - 1].start := a], head, page', r)
  {
    hide IsList, InsertAt;
    ListInsert(next, head, Starts(rs), k, a);
    InsertedStarts(rs, k, Run(a, n));
    InsertedAt(rs, k, Run(a, n));
  }

  lemma InsertedStarts(rs: seq<Run>, k: nat, r: Run)
    requires k <= |rs|
    ensures Starts(InsertAt(rs, k, r)) == InsertAt(Starts(rs), k, r.start)
  {
  }

  class PageList {
    var head: nat                    // page_list
    var next: Nexts
    var page: map<nat, nat>
    ghost var runs: seq<Run>

    ghost predicate Valid()
      reads this
    {
      Canonical(runs) && Rings(next, head, page, runs)
    }

    /** rt_slab_page_init. */
    constructor (addr: nat, npages: nat)
      requires addr > 0 && npages > 0
      ensures Valid() && runs == [Run(addr, npages)]
    {
      head, next, page, runs := NULL, map[], map[], [];
      new;
      Free(addr, npages);
    }

    method SetLink(prev: nat, node: nat)
      modifies `head, `next
      ensures if prev == NULL then head == node && next == old(next) else head == old(head) && next == old(next)[prev := node]
    {
      if prev == NULL { head := node; } else { next := next[prev := node]; }
    }

    /** rt_slab_page_alloc. */
    method Alloc(npages: nat) returns (b: nat)
      requires Valid()
      modifies this
      ensures Valid()
      ensures if npages > 0 && Find(old(runs), npages) < |old(runs)| then
                b == old(runs)[Find(old(runs), npages)].start && runs == Take(old(runs), Find(old(runs), npages), npages)
              else b == NULL && runs == old(runs)
    {
      if npages == 0 {
        return NULL;
      }
      hide Canonical, IsList, Counted, Rings;
      ghost var k := Find(runs, npages);
      if k < |runs| { FoundPositive(runs, k); }
      var prev;
      prev, b := Search(npages);
      if b != NULL {
        TakePages(runs, k, npages);
        RingAt(next, head, page, runs, k);
        if page[b] > npages {
          SplitRings(next, head, page, runs, k, npages);
          var n := b + npages;
          next := next[n := next[b]];
          page := page[n := page[b] - npages];
          SetLink(prev, n);
        } else {
          StartsDistinct(runs);
          DropRings(next, head, page, runs, k);
          SetLink(prev, next[b]);
        }
        runs := Take(runs, k, npages);
      }
    }

    /** The walk to the first run that is large enough. */
    method Search(npages: nat) returns (prev: nat, b: nat)
      requires Valid()
      ensures var k := Find(runs, npages);
              && b == (if k < |runs| then runs[k].start else NULL) && prev == if k == 0 then NULL else runs[k - 1].start
    {
      hide Canonical, IsList, Counted, Rings, Find;
      ghost var k := 0;
      HeadOf(next, head, page, runs);
      prev, b := NULL, head;
      while b != NULL
        invariant k <= |runs| && b == (if k < |runs| then runs[k].start else NULL) && prev == (if k == 0 then NULL else runs[k - 1].start)
        invariant forall i :: 0 <= i < k ==> runs[i].len < npages
        decreases |runs| - k
      {
        RingAt(next, head, page, runs, k);
        if page[b] >= npages {
          FindAt(runs, npages, k);
          return;
        }
        prev := b;
        b := next[b];
        k := k + 1;
      }
      if k < |runs| { FoundPositive(runs, k); }
      FindNone(runs, npages, k);
    }

    /** rt_slab_page_free. */
    method Free(a: nat, npages: nat)
      requires Valid() && a > 0 && npages > 0 && forall x :: a <= x < a + npages ==> !Holds(runs, x)
      modifies this
      ensures Valid() && runs == Give(old(runs), a, npages)
    {
      hide Canonical, IsList, Counted, Rings, Holds, Give, Dropped, Joined, InsertAt, Distinct, Stop;
      GivePages(runs, a, npages);
      GiveIsPlaced(runs, a, npages);
      OutsideList(runs, a, npages);
      ghost var k := Stop(runs, a, npages);
      var prev, b := Spot(a, npages);
      if k > 0 {
        StartPositive(runs, k - 1);
      }
      if k < |runs| {
        RingAt(next, head, page, runs, k);
      }
      if b != NULL && b + page[b] == a {
        GrowInto(b, npages, k);
      } else if b != NULL && b == a + npages {
        FrontRings(next, head, page, runs, k, a, npages + page[b]);
        page := page[a := page[b] + npages];
        next := next[a := next[b]];
        SetLink(prev, a);
        runs := runs[k := Run(a, npages + runs[k].len)];
      } else {
        NewRings(next, head, page, runs, k, a, npages);
        page := page[a := npages];
        next := next[a := b];
        SetLink(prev, a);
        runs := InsertAt(runs, k, Run(a, npages));
      }
    }

    /** The run at b grows at its end, and may reach the next one. */
    method GrowInto(b: nat, npages: nat, ghost k: nat)
      requires Rings(next, head, page, runs) && Distinct(Starts(runs)) && k < |runs| && runs[k].start == b
      modifies `page, `next, `runs
      ensures Rings(next, head, page, runs) && runs == Placed(old(runs), k, b + old(runs)[k].len, npages)
    {
      hide IsList, Counted, Rings, Dropped, Distinct, Joined;
      RingAt(next, head, page, runs, k);
      GrowRings(next, head, page, runs, k, page[b] + npages);
      page := page[b := page[b] + npages];
      runs := runs[k := Run(b, runs[k].len + npages)];
      RingAt(next, head, page, runs, k);
      if b + page[b] == next[b] {
        JoinRings(next, head, page, runs, k);
        var n := next[b];
        page := page[b := page[b] + page[n]];
        next := next[b := next[n]];
        runs := Joined(runs, k);
      }
    }

    /** The walk to the first run that the pages touch or lie before. */
    method Spot(a: nat, npages: nat) returns (prev: nat, b: nat)
      requires Valid()
      ensures var k := Stop(runs, a, npages);
              && b == (if k < |runs| then runs[k].start else NULL) && prev == if k == 0 then NULL else runs[k - 1].start
    {
      hide Canonical, IsList, Counted, Rings, Stop;
      ghost var k := 0;
      HeadOf(next, head, page, runs);
      prev, b := NULL, head;
      while b != NULL
        invariant k <= |runs| && b == (if k < |runs| then runs[k].start else NULL) && prev == (if k == 0 then NULL else runs[k - 1].start)
        invariant forall i :: 0 <= i < k ==> !Stops(runs[i], a, npages)
        decreases |runs| - k
      {
        RingAt(next, head, page, runs, k);
        if b + page[b] == a || b == a + npages || b > a + npages {
          break;
        }
        prev := b;
        b := next[b];
        k := k + 1;
      }
      if k < |runs| { FoundPositive(runs, k); }
      StopUnique(runs, a, npages, k);
    }
  }

  lemma FoundPositive(rs: seq<Run>, k: nat)
    requires Canonical(rs) && k < |rs|
    ensures rs[k].start > 0 && (k > 0 ==> rs[k - 1].start > 0)
  {
    StartPositive(rs, k);
    if k > 0 { StartPositive(rs, k - 1); }
  }

  lemma FindAt(rs: seq<Run>, n: nat, k: nat)
    requires k < |rs| && rs[k].len >= n && forall i :: 0 <= i < k ==> rs[i].len < n
    ensures Find(rs, n) == k
  {
  }

  lemma FindNone(rs: seq<Run>, n: nat, k: nat)
    requires k == |rs| && forall i :: 0 <= i < k ==> rs[i].len < n
    ensures Find(rs, n) == k
  {
  }
}
