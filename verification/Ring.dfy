/** Doubly linked rings (rt_list of rt-thread/include/rtservice.h, and the block and free rings
    of rt-thread/src/memheap.c).  The links are two maps from a node to its neighbour. */
module Ring {
  import opened Lists

  type Links = map<int, int>

  /** The element after the i-th, going round. */
  function Succ(s: seq<int>, i: nat): int
    requires i < |s|
  {
    if i + 1 == |s| then s[0] else s[i + 1]
  }

  /** next and prev tie the nodes of s, in that order, into one ring. */
  ghost predicate IsRing(next: Links, prev: Links, s: seq<int>) {
    && |s| > 0 && Distinct(s)
    && (forall i :: 0 <= i < |s| ==> s[i] in next && next[s[i]] == Succ(s, i))
    && (forall i :: 0 <= i < |s| ==> Succ(s, i) in prev && prev[Succ(s, i)] == s[i])
  }

  function Cut(s: seq<int>, k: nat): seq<int>
    requires k < |s|
  {
    s[..k] + s[k + 1..]
  }

  function Put(s: seq<int>, k: nat, y: int): seq<int>
    requires k < |s|
  {
    s[..k + 1] + [y] + s[k + 1..]
  }

  lemma CutDistinct(s: seq<int>, k: nat)
    requires Distinct(s) && k < |s|
    ensures Distinct(Cut(s, k)) && s[k] !in Cut(s, k)
    ensures forall i :: 0 <= i < |s| - 1 ==> Cut(s, k)[i] == if i < k then s[i] else s[i + 1]
  {
    var r := Cut(s, k);
    assert forall i :: 0 <= i < |r| ==> r[i] == if i < k then s[i] else s[i + 1];
  }

  lemma PutDistinct(s: seq<int>, k: nat, y: int)
    requires Distinct(s) && k < |s| && y !in s
    ensures Distinct(Put(s, k, y))
    ensures forall i :: 0 <= i <= |s| ==> Put(s, k, y)[i] == if i <= k then s[i] else if i == k + 1 then y else s[i - 1]
  {
    var r := Put(s, k, y);
    assert forall i :: 0 <= i < |r| ==> r[i] == if i <= k then s[i] else if i == k + 1 then y else s[i - 1];
  }

  /** Where the nodes of a ring are told apart, so are their successors. */
  lemma SuccInjective(s: seq<int>, i: nat, j: nat)
    requires Distinct(s) && i < |s| && j < |s| && Succ(s, i) == Succ(s, j)
    ensures i == j
  {
  }

  /** rt_list_remove: the node's neighbours are joined. */
  lemma UnlinkKeepsRing(next: Links, prev: Links, s: seq<int>, k: nat)
    requires IsRing(next, prev, s) && k < |s| && |s| > 1
    ensures var x := s[k];
            x in prev && x in next && IsRing(next[prev[x] := next[x]], prev[next[x] := prev[x]], Cut(s, k))
  {
    var x, r := s[k], Cut(s, k);
    var p := if k == 0 then |s| - 1 else k - 1;
    assert Succ(s, p) == x;
    CutDistinct(s, k);
    var next', prev' := next[prev[x] := next[x]], prev[next[x] := prev[x]];
    forall i | 0 <= i < |r|
      ensures r[i] in next' && next'[r[i]] == Succ(r, i) && Succ(r, i) in prev' && prev'[Succ(r, i)] == r[i]
    {
      var j := if i < k then i else i + 1;
      assert r[i] == s[j] && j != k;
      if j == p {
        assert Succ(r, i) == Succ(s, k);
      } else {
        assert Succ(r, i) == Succ(s, j) && s[j] != s[p];
        if Succ(s, j) == Succ(s, k) { SuccInjective(s, j, k); }
      }
    }
  }

  /** rt_list_insert_after: y goes between s[k] and its successor. */
  lemma LinkKeepsRing(next: Links, prev: Links, s: seq<int>, k: nat, y: int)
    requires IsRing(next, prev, s) && k < |s| && y !in s
    ensures var x := s[k];
            x in next && IsRing(next[y := next[x]][x := y], prev[y := x][next[x] := y], Put(s, k, y))
  {
    var x, r := s[k], Put(s, k, y);
    PutDistinct(s, k, y);
    var next', prev' := next[y := next[x]][x := y], prev[y := x][next[x] := y];
    forall i | 0 <= i < |r|
      ensures r[i] in next' && next'[r[i]] == Succ(r, i) && Succ(r, i) in prev' && prev'[Succ(r, i)] == r[i]
    {
      if i == k {
        assert Succ(r, i) == y && y != Succ(s, k);
      } else if i == k + 1 {
        assert Succ(r, i) == Succ(s, k);
      } else {
        var j := if i < k then i else i - 1;
        assert r[i] == s[j] && j != k && s[j] != s[k] && Succ(r, i) == Succ(s, j) && Succ(s, j) in s;
        if Succ(s, j) == Succ(s, k) { SuccInjective(s, j, k); }
      }
    }
  }
}
