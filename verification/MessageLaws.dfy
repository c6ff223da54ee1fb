/** What each section of the message queue answers and whom it makes wait or run
    (rt-thread/src/ipc.c). */
module MessageLaws {
  import opened Lists
  import opened MessageSteps
  import opened SinglyLinked
  import opened WaitLists

  /** t's section has run: it is not counted as woken any more; the list is as it was. */
  ghost predicate HasRun(w: Waits, w': Waits, t: nat) {
    w'.list == w.list && forall u :: u in w'.woken <==> u in w.woken && u != t
  }

  /** t waits at its place; the others keep their order. */
  ghost predicate NowWaits(w: Waits, w': Waits, t: nat, at: nat)
    requires at <= |w.list|
  {
    && |w'.list| == |w.list| + 1 && w'.list[..at] == w.list[..at] && w'.list[at] == t && w'.list[at + 1..] == w.list[at..]
    && forall u :: u in w'.woken <==> u in w.woken && u != t
  }

  /** The first waiter, if there is one, is woken and no other. */
  ghost predicate FirstWoken(w: Waits, w': Waits) {
    if w.list == [] then w' == w
    else w.list == [w.list[0]] + w'.list && forall u :: u in w'.woken <==> u in w.woken || u == w.list[0]
  }

  lemma WaitsMove(w: Waits, t: nat, at: nat)
    requires at <= |w.list|
    ensures HasRun(w, w.Ran(t), t) && NowWaits(w, w.Suspend(t, at), t, at) && FirstWoken(w, w.Wake())
  {
  }

  /** A sender gets a node exactly if one is free; it was free and is now this thread's to fill.
      Without one the sender waits if it may, and is refused if not. */
  lemma TakeFreeAnswers(s: State, n: nat, t: nat, wait: bool, at: nat)
    requires Inv(s, n) && t !in s.senders.list && at <= |s.senders.list|
    ensures var (s', r, x) := TakeFree(s, t, wait, at);
            && (r == Done <==> s.free != []) && (r == Suspended <==> s.free == [] && wait) && (r == Refused <==> s.free == [] && !wait)
            && s'.queue == s.queue && s'.msgs == s.msgs && s'.receivers == s.receivers
            && (r == Done ==> x in s.free && x !in s.hands && s'.hands == s.hands[x := Empty] && multiset(s'.free) == multiset(s.free) - multiset{x})
            && (r != Done ==> x == NULL && s'.hands == s.hands && s'.free == s.free)
            && if r == Suspended then NowWaits(s.senders, s'.senders, t, at) else HasRun(s.senders, s'.senders, t)
  {
    hide WaitOk, NoneLost;
    WaitsMove(s.senders, t, at);
    if s.free != [] {
      FreePlaced(s.free, s.queue, s.hands.Keys, n);
      assert s.free == [s.free[0]] + s.free[1..];
    }
  }

  /** A receiver gets the first message exactly if there is one; without one it waits if it may, and is
      refused if not. */
  lemma TakeFirstAnswers(s: State, n: nat, t: nat, wait: bool, at: nat)
    requires Inv(s, n) && t !in s.receivers.list && at <= |s.receivers.list|
    ensures var (s', r, x) := TakeFirst(s, t, wait, at);
            && (r == Done <==> s.queue != []) && (r == Suspended <==> s.queue == [] && wait) && (r == Refused <==> s.queue == [] && !wait)
            && s'.free == s.free && s'.msgs == s.msgs && s'.senders == s.senders
            && (r == Done ==> s.queue == [x] + s'.queue && x !in s.hands && s'.hands == s.hands[x := Out])
            && (r != Done ==> x == NULL && s'.hands == s.hands && s'.queue == s.queue)
            && if r == Suspended then NowWaits(s.receivers, s'.receivers, t, at) else HasRun(s.receivers, s'.receivers, t)
  {
    hide WaitOk, NoneLost;
    WaitsMove(s.receivers, t, at);
    if s.queue != [] { QueuePlaced(s.free, s.queue, s.hands.Keys, n); }
  }

  /** Linking wakes the first waiting receiver, and takes the node out of the sender's hands. */
  lemma LinkWakes(s: State, n: nat, x: nat, prio: int, byPriority: bool)
    requires Inv(s, n) && x in s.hands && s.hands[x] == Full
    ensures var s' := Link(s, x, prio, byPriority);
            && FirstWoken(s.receivers, s'.receivers) && s'.senders == s.senders && s'.free == s.free
            && x in s'.queue && x !in s'.hands && (forall y :: y in s.hands && y != x ==> y in s'.hands && s'.hands[y] == s.hands[y])
    ensures var s' := LinkFirst(s, x);
            && FirstWoken(s.receivers, s'.receivers) && s'.senders == s.senders && s'.free == s.free && s'.msgs == s.msgs
            && s'.queue == [x] + s.queue && x !in s'.hands && (forall y :: y in s.hands && y != x ==> y in s'.hands && s'.hands[y] == s.hands[y])
  {
    hide WaitOk, NoneLost, Placed, PrioPlace, Contents;
    WaitsMove(s.receivers, 0, 0);
  }

  /** A message linked by priority has that priority, and goes behind all that are as urgent and before
      all that are less. */
  lemma LinkPlaces(s: State, n: nat, x: nat, prio: int) returns (k: nat)
    requires Inv(s, n) && x in s.hands && s.hands[x] == Full && Descending(Contents(s.queue, s.msgs))
    ensures var s' := Link(s, x, prio, true);
            && k <= |s.queue| && s'.queue == s.queue[..k] + [x] + s.queue[k..]
            && x in s'.msgs && s'.msgs[x] == Message(prio, s.msgs[x].data)
            && (forall i :: 0 <= i < k ==> s.queue[i] in s.msgs && s.msgs[s.queue[i]].prio >= prio)
            && (forall i :: k <= i < |s.queue| ==> s.queue[i] in s.msgs && s.msgs[s.queue[i]].prio < prio)
  {
    hide WaitOk, NoneLost, Placed, PrioPlace, Descending;
    k := PrioPlace(Contents(s.queue, s.msgs), prio);
    PrioSplit(Contents(s.queue, s.msgs), prio);
  }

  /** A node given back can be taken again, and the first waiting sender is woken. */
  lemma GiveWakes(s: State, n: nat, x: nat)
    requires Inv(s, n) && x in s.hands && s.hands[x] == Out
    ensures var s' := GiveBack(s, x);
            && FirstWoken(s.senders, s'.senders) && s'.receivers == s.receivers && s'.queue == s.queue && s'.msgs == s.msgs
            && x !in s'.hands && (forall y :: y in s.hands && y != x ==> y in s'.hands && s'.hands[y] == s.hands[y])
            && multiset(s'.free) == multiset(s.free) + multiset{x}
  {
    hide WaitOk, NoneLost, Placed;
    WaitsMove(s.senders, 0, 0);
  }

  /** A reset frees every queued node and lets everybody go; nodes in a thread's hands stay there. */
  lemma ResetFrees(s: State, n: nat)
    requires Inv(s, n)
    ensures var s' := Reset(s);
            && s'.queue == [] && multiset(s'.free) == multiset(s.free) + multiset(s.queue) && s'.hands == s.hands && s'.msgs == s.msgs
            && s'.receivers.list == [] && s'.senders.list == []
  {
    hide WaitOk, NoneLost, Placed;
    PushedAll(s.queue, s.free);
  }

  lemma {:induction false} PushedAll(queue: seq<nat>, free: seq<nat>)
    ensures multiset(Pushed(queue, free)) == multiset(free) + multiset(queue)
    decreases |queue|
  {
    if queue != [] {
      PushedAll(queue[1..], [queue[0]] + free);
      assert queue == [queue[0]] + queue[1..];
    }
  }

  /** The list without t; the others keep their order, and nobody is woken by it. */
  ghost predicate Left(w: Waits, w': Waits, t: nat) {
    w'.woken == w.woken && exists k :: 0 <= k < |w.list| && w.list[k] == t && w'.list == w.list[..k] + w.list[k + 1..]
  }

  /** A thread whose time runs out leaves its list, and nothing else happens. */
  lemma TimeoutLeaves(s: State, n: nat, t: nat, byPriority: bool)
    requires Inv(s, n)
    ensures t in s.receivers.list ==>
      var s' := Do(s, ReceiverTimeout(t), byPriority);
      s' == s.(receivers := s'.receivers) && Left(s.receivers, s'.receivers, t) && t !in s'.receivers.list
    ensures t in s.senders.list ==>
      var s' := Do(s, SenderTimeout(t), byPriority);
      s' == s.(senders := s'.senders) && Left(s.senders, s'.senders, t) && t !in s'.senders.list
  {
    hide Placed;
    if t in s.receivers.list {
      WithoutDistinct(s.receivers.list, t);
      var _ := WithoutAt(s.receivers.list, t);
    }
    if t in s.senders.list {
      WithoutDistinct(s.senders.list, t);
      var _ := WithoutAt(s.senders.list, t);
    }
  }

  lemma {:induction false} WithoutAt(list: seq<nat>, t: nat) returns (k: nat)
    requires t in list
    ensures k < |list| && list[k] == t && Without(list, t) == list[..k] + list[k + 1..]
  {
    if list[0] == t {
      k := 0;
    } else {
      k := WithoutAt(list[1..], t);
      k := k + 1;
      assert list[..k] == [list[0]] + list[1..][..k - 1];
    }
  }
}
