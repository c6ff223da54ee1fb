/** Singly linked lists whose links are a map from a node to the next, and edits in place. */
module SinglyLinked {
  import opened Lists

  const NULL: nat := 0

  type Nexts = map<nat, nat>

  ghost predicate IsList(next: Nexts, head: nat, s: seq<nat>)
    decreases |s|
  {
    if s == [] then head == NULL
    else head == s[0] && head != NULL && head in next && IsList(next, next[head], s[1..])
  }

  /** Writing the link of a node outside the list. */
  lemma {:induction false} ListFrame(next: Nexts, head: nat, s: seq<nat>, n: nat, x: nat)
    requires IsList(next, head, s) && n !in s
    ensures IsList(next[n := x], head, s)
    decreases |s|
  {
    if s != [] { ListFrame(next, next[head], s[1..], n, x); }
  }

  /** The node at a place of the list. */
  lemma {:induction false} ListAt(next: Nexts, head: nat, s: seq<nat>, k: nat)
    requires IsList(next, head, s) && k < |s|
    ensures s[k] != NULL && s[k] in next && next[s[k]] == if k + 1 < |s| then s[k + 1] else NULL
    decreases |s|
  {
    if k > 0 { ListAt(next, next[head], s[1..], k - 1); }
  }

  function InsertAt<T>(s: seq<T>, k: nat, x: T): seq<T>
    requires k <= |s|
  {
    s[..k] + [x] + s[k..]
  }

  /** Linking m in front of the node at place k, or behind the last. */
  lemma {:induction false} ListInsert(next: Nexts, head: nat, s: seq<nat>, k: nat, m: nat)
    requires IsList(next, head, s) && Distinct(s) && k <= |s| && m !in s && m != NULL
    ensures var next' := next[m := if k < |s| then s[k] else NULL];
            if k == 0 then IsList(next', m, InsertAt(s, 0, m))
            else IsList(next'[s[k - 1] := m], head, InsertAt(s, k, m))
    decreases |s|
  {
    var x := if k < |s| then s[k] else NULL;
    if k == 0 {
      ListFrame(next, head, s, m, x);
      assert InsertAt(s, 0, m)[1..] == s;
    } else {
      DistinctTail(s);
      var t := s[1..];
      assert InsertAt(s, k, m)[1..] == InsertAt(t, k - 1, m);
      ListInsert(next, next[head], t, k - 1, m);
      if k == 1 {
        ListFrame(next[m := x], m, InsertAt(t, 0, m), head, m);
      }
    }
  }

  lemma InsertedAt<T>(s: seq<T>, k: nat, x: T)
    requires k <= |s|
    ensures var r := InsertAt(s, k, x);
            && |r| == |s| + 1
            && forall i {:trigger r[i]} :: 0 <= i < |r| ==> r[i] == if i < k then s[i] else if i == k then x else s[i - 1]
  {
  }

  lemma InsertFirst<T>(s: seq<T>, x: T)
    ensures InsertAt(s, 0, x) == [x] + s
  {
  }

  lemma InsertLast<T>(s: seq<T>, x: T)
    ensures InsertAt(s, |s|, x) == s + [x]
  {
  }

  /** Unlinking the node at place k. */
  lemma {:induction false} ListDrop(next: Nexts, head: nat, s: seq<nat>, k: nat)
    requires IsList(next, head, s) && Distinct(s) && k < |s|
    ensures s[k] in next
    ensures if k == 0 then IsList(next, next[head], s[1..])
            else IsList(next[s[k - 1] := next[s[k]]], head, s[..k] + s[k + 1..])
    decreases |s|
  {
    if k > 0 {
      DistinctTail(s);
      var t := s[1..];
      assert (s[..k] + s[k + 1..])[1..] == t[..k - 1] + t[k..];
      ListDrop(next, next[head], t, k - 1);
      if k == 1 {
        assert t[..0] + t[1..] == t[1..];
        ListFrame(next, next[t[0]], t[1..], head, next[t[0]]);
      }
    }
  }

  /** Putting m in the place of the node at place k. */
  lemma {:induction false} ListReplace(next: Nexts, head: nat, s: seq<nat>, k: nat, m: nat)
    requires IsList(next, head, s) && Distinct(s) && k < |s| && m !in s && m != NULL
    ensures s[k] in next
    ensures var next' := next[m := next[s[k]]];
            if k == 0 then IsList(next', m, s[0 := m]) else IsList(next'[s[k - 1] := m], head, s[k := m])
    decreases |s|
  {
    if k == 0 {
      assert s[0 := m][1..] == s[1..];
      ListFrame(next, next[head], s[1..], m, next[head]);
    } else {
      DistinctTail(s);
      var t := s[1..];
      assert s[k := m][1..] == t[k - 1 := m];
      ListReplace(next, next[head], t, k - 1, m);
      if k == 1 {
        ListFrame(next[m := next[t[0]]], m, t[0 := m], head, m);
      }
    }
  }
}
