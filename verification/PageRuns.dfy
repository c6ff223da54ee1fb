/** The free pages of the slab allocator (rt-thread/src/slab.c) as a canonical form for a set of pages. */
module PageRuns {

  datatype Run = Run(start: nat, len: nat)

  /** Sorted, without empty runs, and with a page between any two. */
  ghost predicate Canonical(rs: seq<Run>) {
    rs != [] ==>
      && rs[0].start > 0 && rs[0].len > 0 && Canonical(rs[1..])
      && (|rs| > 1 ==> rs[0].start + rs[0].len < rs[1].start)
  }

  /** Whether a page is free. */
  predicate Holds(rs: seq<Run>, x: int) {
    rs != [] && (rs[0].start <= x < rs[0].start + rs[0].len || Holds(rs[1..], x))
  }

  /** Free pages of a canonical list lie at or behind its first run. */
  lemma {:induction false} HoldsFrom(rs: seq<Run>, x: int)
    requires Canonical(rs) && Holds(rs, x)
    ensures rs[0].start <= x && (x < rs[0].start + rs[0].len || (|rs| > 1 && rs[1].start <= x))
  {
    if !(rs[0].start <= x < rs[0].start + rs[0].len) { HoldsFrom(rs[1..], x); }
  }

  /** The list is determined by the set of its pages. */
  lemma {:induction false} Unique(a: seq<Run>, b: seq<Run>)
    requires Canonical(a) && Canonical(b) && forall x :: Holds(a, x) <==> Holds(b, x)
    ensures a == b
  {
    if a == [] {
      if b != [] { assert Holds(b, b[0].start); }
    } else if b == [] {
      assert Holds(a, a[0].start);
    } else {
      FirstAgrees(a, b);
      FirstAgrees(b, a);
      forall x ensures Holds(a[1..], x) <==> Holds(b[1..], x) {
        TailHolds(a, x);
        TailHolds(b, x);
      }
      Unique(a[1..], b[1..]);
      assert a == [a[0]] + a[1..] && b == [b[0]] + b[1..];
    }
  }

  /** The first run starts no later, and if they start together is no longer. */
  lemma FirstAgrees(a: seq<Run>, b: seq<Run>)
    requires Canonical(a) && Canonical(b) && a != [] && b != [] && forall x :: Holds(a, x) <==> Holds(b, x)
    ensures a[0].start == b[0].start && a[0].len <= b[0].len
  {
    assert Holds(a, a[0].start) && Holds(b, b[0].start);
    HoldsFrom(b, a[0].start);
    HoldsFrom(a, b[0].start);
    if a[0].len > b[0].len {
      var x := b[0].start + b[0].len;
      assert Holds(a, x);
      HoldsFrom(b, x);
    }
  }

  lemma TailHolds(rs: seq<Run>, x: int)
    requires Canonical(rs) && rs != []
    ensures Holds(rs[1..], x) <==> Holds(rs, x) && x >= rs[0].start + rs[0].len
  {
    if Holds(rs[1..], x) { HoldsFrom(rs[1..], x); }
  }

  // -------------------------------------------------------------------------------------
  // rt_slab_page_alloc
  // -------------------------------------------------------------------------------------

  /** The first run of at least n pages; |rs| if there is none. */
  function Find(rs: seq<Run>, n: nat): (k: nat)
    ensures k <= |rs| && (forall i :: 0 <= i < k ==> rs[i].len < n) && (k < |rs| ==> rs[k].len >= n)
  {
    if rs == [] || rs[0].len >= n then 0 else 1 + Find(rs[1..], n)
  }

  /** The first n pages of run k are taken. */
  function Take(rs: seq<Run>, k: nat, n: nat): seq<Run>
    requires k < |rs| && 0 < n <= rs[k].len
  {
    var b := rs[k];
    if b.len > n then rs[k := Run(b.start + n, b.len - n)] else rs[..k] + rs[k + 1..]
  }

  lemma {:induction false} TakePages(rs: seq<Run>, k: nat, n: nat)
    requires Canonical(rs) && k < |rs| && 0 < n <= rs[k].len
    ensures Canonical(Take(rs, k, n)) && forall x :: Holds(Take(rs, k, n), x) <==> Holds(rs, x) && !(rs[k].start <= x < rs[k].start + n)
    ensures Take(rs, k, n) != [] && k > 0 ==> Take(rs, k, n)[0] == rs[0]
    ensures Take(rs, k, n) != [] ==> Take(rs, k, n)[0].start >= rs[0].start
  {
    var r := Take(rs, k, n);
    if k == 0 {
      if rs[0].len > n {
        assert r[1..] == rs[1..];
      } else {
        assert r == rs[1..];
      }
      forall x ensures Holds(r, x) <==> Holds(rs, x) && !(rs[k].start <= x < rs[k].start + n) {
        TailHolds(rs, x);
      }
    } else {
      TakePages(rs[1..], k - 1, n);
      assert r[1..] == Take(rs[1..], k - 1, n);
      forall x ensures Holds(r, x) <==> Holds(rs, x) && !(rs[k].start <= x < rs[k].start + n) {
        RunBehind(rs, k);
      }
    }
  }

  lemma {:induction false} RunBehind(rs: seq<Run>, k: nat)
    requires Canonical(rs) && 0 < k < |rs|
    ensures rs[0].start + rs[0].len < rs[k].start
  {
    if k > 1 { RunBehind(rs[1..], k - 1); }
  }

  ghost predicate FreeFrom(rs: seq<Run>, s: int, n: nat) {
    forall x :: s <= x < s + n ==> Holds(rs, x)
  }

  /** n consecutive free pages lie in one run. */
  lemma {:induction false} InOneRun(rs: seq<Run>, s: int, n: nat) returns (k: nat)
    requires Canonical(rs) && n > 0 && FreeFrom(rs, s, n)
    ensures k < |rs| && rs[k].start <= s && s + n <= rs[k].start + rs[k].len
  {
    assert Holds(rs, s);
    HoldsFrom(rs, s);
    if s < rs[0].start + rs[0].len {
      k := 0;
      var e := rs[0].start + rs[0].len;
      if s + n > e {
        assert Holds(rs, e);
        HoldsFrom(rs, e);
      }
    } else {
      forall x | s <= x < s + n ensures Holds(rs[1..], x) {
        assert Holds(rs, x);
      }
      k := InOneRun(rs[1..], s, n);
      k := k + 1;
    }
  }

  lemma {:induction false} RunHolds(rs: seq<Run>, k: nat, x: int)
    requires k < |rs| && rs[k].start <= x < rs[k].start + rs[k].len
    ensures Holds(rs, x)
  {
    if k > 0 { RunHolds(rs[1..], k - 1, x); }
  }

  lemma {:induction false} Ordered(rs: seq<Run>, i: nat, j: nat)
    requires Canonical(rs) && i < j < |rs|
    ensures rs[i].start + rs[i].len < rs[j].start
  {
    if i == 0 { RunBehind(rs, j); } else { Ordered(rs[1..], i - 1, j - 1); }
  }

  /** The pages taken are the lowest n consecutive free ones, and the search fails exactly if there
      are none. */
  lemma FindIsLowest(rs: seq<Run>, n: nat)
    requires Canonical(rs) && n > 0
    ensures var k := Find(rs, n);
            if k < |rs| then FreeFrom(rs, rs[k].start, n) && forall s :: FreeFrom(rs, s, n) ==> rs[k].start <= s
            else forall s :: !FreeFrom(rs, s, n)
  {
    var k := Find(rs, n);
    forall s | FreeFrom(rs, s, n) ensures k < |rs| && rs[k].start <= s {
      var j := InOneRun(rs, s, n);
      if j > k { Ordered(rs, k, j); }
    }
    if k < |rs| {
      forall x | rs[k].start <= x < rs[k].start + n ensures Holds(rs, x) { RunHolds(rs, k, x); }
    }
  }

  // -------------------------------------------------------------------------------------
  // rt_slab_page_free
  // -------------------------------------------------------------------------------------

  /** n pages from a are put back, joined with the runs they touch. */
  function Give(rs: seq<Run>, a: nat, n: nat): seq<Run> {
    if rs == [] then [Run(a, n)]
    else
      var b := rs[0];
      if b.start + b.len == a then
        if |rs| > 1 && a + n == rs[1].start then [Run(b.start, b.len + n + rs[1].len)] + rs[2..]
        else [Run(b.start, b.len + n)] + rs[1..]
      else if b.start == a + n then [Run(a, n + b.len)] + rs[1..]
      else if b.start > a + n then [Run(a, n)] + rs
      else [b] + Give(rs[1..], a, n)
  }

  lemma {:induction false} GivePages(rs: seq<Run>, a: nat, n: nat)
    requires Canonical(rs) && a > 0 && n > 0 && forall x :: a <= x < a + n ==> !Holds(rs, x)
    ensures Canonical(Give(rs, a, n)) && forall x :: Holds(Give(rs, a, n), x) <==> Holds(rs, x) || a <= x < a + n
    ensures Give(rs, a, n)[0].start == if rs == [] || a < rs[0].start then a else rs[0].start
  {
    var r := Give(rs, a, n);
    if rs == [] {
      assert r[1..] == [];
    } else {
      var b := rs[0];
      assert Holds(rs, b.start);
      if b.start + b.len == a {
        if |rs| > 1 {
          assert rs[1..][1..] == rs[2..];
          assert Holds(rs[1..], rs[1].start) && Holds(rs, rs[1].start);
        }
        if |rs| > 1 && a + n == rs[1].start { assert r[1..] == rs[2..]; } else { assert r[1..] == rs[1..]; }
      } else if b.start == a + n {
        assert r[1..] == rs[1..];
      } else if b.start > a + n {
        assert r[1..] == rs;
      } else {
        assert r[1..] == Give(rs[1..], a, n);
        var w := if a < b.start then b.start else a;
        assert b.start <= w < b.start + b.len ==> Holds(rs, w);
        forall x | a <= x < a + n ensures !Holds(rs[1..], x) { assert !Holds(rs, x); }
        GivePages(rs[1..], a, n);
      }
    }
  }

  /** Taking pages and giving them back leaves the very same list. */
  lemma TakeThenGive(rs: seq<Run>, n: nat)
    requires Canonical(rs) && n > 0 && Find(rs, n) < |rs|
    ensures var k := Find(rs, n); Give(Take(rs, k, n), rs[k].start, n) == rs
  {
    var k := Find(rs, n);
    var a, t := rs[k].start, Take(rs, k, n);
    TakePages(rs, k, n);
    StartPositive(rs, k);
    GivePages(t, a, n);
    FindIsLowest(rs, n);
    Unique(Give(t, a, n), rs);
  }

  lemma {:induction false} StartPositive(rs: seq<Run>, k: nat)
    requires Canonical(rs) && k < |rs|
    ensures rs[k].start > 0 && rs[k].len > 0
  {
    if k > 0 { StartPositive(rs[1..], k - 1); }
  }
}
