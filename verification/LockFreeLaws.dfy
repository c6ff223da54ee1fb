/** Each call on the lock-free list takes effect exactly once, between its start and its end
    (rt-thread/include/rtatomic.h). */
module LockFreeLaws {
  import opened LockFreeList

  /** A dequeue in flight. */
  predicate Dequeues(pc: Pc) { pc.DeqTest? || pc.DeqNext? || pc.DeqSwap? }

  /** A dequeue that has found the list empty and will return so. */
  predicate FoundEmpty(pc: Pc) { pc == DeqTest(NULL) }

  /** An enqueue pushes its node at the step that ends it and does nothing before; a dequeue pops the
      node it returns at the step that ends it, or finds the list empty at the step after which it only
      returns. */
  lemma StepEffect(s: State, t: nat, a: Action)
    requires Possible(s, t, a) && (a.Go? && s.pcs[t].DeqNext? ==> s.pcs[t].exp != NULL)
    ensures var (s', e) := Next(s, t, a); var pc, pc' := s.pcs[t], s'.pcs[t];
            && s'.pcs == s.pcs[t := pc']
            && (a.Enqueue? ==> Enqueues(pc', a.node) && e == Silent)
            && (a.Dequeue? ==> Dequeues(pc') && e == if FoundEmpty(pc') then PopEmpty else Silent)
            && (a.Go? ==> forall n :: Enqueues(pc, n) ==> (e == Push(n) && pc' == Idle) || (e == Silent && Enqueues(pc', n)))
            && (a.Go? && Dequeues(pc) ==>
                  if FoundEmpty(pc) then e == Silent && pc' == Idle
                  else if pc' == Idle then e == Pop(s.head) && pc == DeqSwap(s.head, s'.head)
                  else Dequeues(pc') && e == if FoundEmpty(pc') then PopEmpty else Silent)
  {
  }

  /** What thread t did to the list in steps i to j - 1. */
  function Effects(cs: seq<Choice>, es: seq<Event>, t: nat, i: nat, j: nat): seq<Event>
    requires i <= j <= |cs| == |es|
    decreases j
  {
    if i == j then []
    else Effects(cs, es, t, i, j - 1) + if cs[j - 1].thread == t && es[j - 1] != Silent then [es[j - 1]] else []
  }

  /** Thread t is in one call from step i on: it is idle at no state strictly between i and j. */
  ghost predicate InCall(states: seq<State>, t: nat, i: nat, j: nat)
    requires i < j < |states|
  {
    forall m :: i < m < j ==> t in states[m].pcs && states[m].pcs[t] != Idle
  }

  /** An enqueue has no effect while it is in flight, and has pushed its node, once, when it returns. */
  lemma {:induction false} EnqueueTakesEffectOnce(states: seq<State>, cs: seq<Choice>, es: seq<Event>, t: nat, n: nat, i: nat, j: nat)
    requires FreeRun(states, cs, es) && i < j <= |cs| && cs[i] == Choice(t, Enqueue(n)) && InCall(states, t, i, j)
    ensures t in states[j].pcs
    ensures if states[j].pcs[t] == Idle then Effects(cs, es, t, i, j) == [Push(n)]
            else Enqueues(states[j].pcs[t], n) && Effects(cs, es, t, i, j) == []
    decreases j
  {
    assert FreeTransition(states[j - 1], cs[j - 1], es[j - 1], states[j]);
    if j == i + 1 {
      assert Effects(cs, es, t, i, i) == [];
    } else {
      EnqueueTakesEffectOnce(states, cs, es, t, n, i, j - 1);
      OtherOrGo(states[j - 1], cs[j - 1], es[j - 1], states[j], t);
    }
  }

  lemma OtherOrGo(s: State, c: Choice, e: Event, s': State, t: nat)
    requires FreeTransition(s, c, e, s') && t in s.pcs && s.pcs[t] != Idle
    ensures t in s'.pcs && (c.thread != t ==> s'.pcs[t] == s.pcs[t]) && (c.thread == t ==> c.action == Go)
  {
  }

  /** No dequeue in flight reads the link of NULL. */
  ghost predicate Loaded(s: State) {
    forall t :: t in s.pcs && s.pcs[t].DeqNext? ==> s.pcs[t].exp != NULL
  }

  lemma {:induction false} StaysLoaded(states: seq<State>, cs: seq<Choice>, es: seq<Event>, k: nat)
    requires FreeRun(states, cs, es) && k <= |cs| && Loaded(states[0])
    ensures Loaded(states[k])
  {
    if k > 0 {
      StaysLoaded(states, cs, es, k - 1);
      assert FreeTransition(states[k - 1], cs[k - 1], es[k - 1], states[k]);
    }
  }

  /** A dequeue has no effect until it pops one node, at the step that ends it, or finds the list
      empty; and it has exactly one of the two when it returns. */
  lemma {:induction false} DequeueTakesEffectOnce(states: seq<State>, cs: seq<Choice>, es: seq<Event>, t: nat, i: nat, j: nat)
    requires FreeRun(states, cs, es) && Loaded(states[0]) && i < j <= |cs| && cs[i] == Choice(t, Dequeue) && InCall(states, t, i, j)
    ensures t in states[j].pcs
    ensures var did := Effects(cs, es, t, i, j);
            if states[j].pcs[t] == Idle then did == [PopEmpty] || (|did| == 1 && did[0].Pop?)
            else Dequeues(states[j].pcs[t]) && did == if FoundEmpty(states[j].pcs[t]) then [PopEmpty] else []
    decreases j
  {
    assert FreeTransition(states[j - 1], cs[j - 1], es[j - 1], states[j]);
    StaysLoaded(states, cs, es, j - 1);
    if j == i + 1 {
      assert Effects(cs, es, t, i, i) == [];
    } else {
      DequeueTakesEffectOnce(states, cs, es, t, i, j - 1);
      OtherOrGo(states[j - 1], cs[j - 1], es[j - 1], states[j], t);
    }
  }
}
