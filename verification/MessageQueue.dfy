/** The message queue code of rt-thread/src/ipc.c on nodes linked in place.  Each method is one
    lock-protected section, or the copy between two sections, and is proved to be the step that
    MessageSteps.dfy defines. */
module MessageQueue {
  import opened Lists
  import opened MessageSteps
  import opened SinglyLinked
  import opened WaitLists

  ghost predicate ListsOk(next: Nexts, msgs: map<nat, Message>, head: nat, tail: nat, freeHead: nat, entry: nat,
                          free: seq<nat>, queue: seq<nat>, held: set<nat>, n: nat) {
    && IsList(next, head, queue) && IsList(next, freeHead, free) && tail == Last(queue) && entry == |queue|
    && Placed(free, queue, held, n) && (forall x :: x in queue ==> x in msgs)
  }

  /** Linking a held node in front. */
  lemma LinkedFirst(next: Nexts, msgs: map<nat, Message>, head: nat, tail: nat, freeHead: nat, entry: nat,
                    free: seq<nat>, queue: seq<nat>, held: set<nat>, n: nat, msg: nat)
    requires ListsOk(next, msgs, head, tail, freeHead, entry, free, queue, held, n) && msg in held && msg in msgs
    ensures forall x :: x in queue || x == msg ==> x in msgs
    ensures ListsOk(next[msg := head], msgs, msg, if tail == NULL then msg else tail, freeHead, entry + 1,
                    free, [msg] + queue, held - {msg}, n)
    ensures Contents([msg] + queue, msgs) == [msgs[msg]] + Contents(queue, msgs)
  {
    hide IsList, Contents, Placed, InsertAt;
    QueueReady(next, freeHead, head, free, queue, held, n, 0, msg);
    ContentsInsert(queue, msgs, 0, msg);
    InsertFirst(queue, msg);
    InsertFirst(Contents(queue, msgs), msgs[msg]);
    HeadIs(next, head, queue);
  }

  /** A node that was written is ready to be linked. */
  ghost predicate Ready(next: Nexts, hands: map<nat, Hand>) {
    forall x :: x in hands && hands[x] == Full ==> x in next && next[x] == NULL
  }

  /** Linking a written node: it leaves its holder's hands. */
  lemma ReadyLinked(next: Nexts, hands: map<nat, Hand>, msg: nat, x: nat)
    requires Ready(next, hands)
    ensures Ready(next[msg := x], hands - {msg})
  {
  }

  /** Behind node q, which nobody holds. */
  lemma ReadyBehind(next: Nexts, hands: map<nat, Hand>, msg: nat, q: nat, x: nat)
    requires Ready(next, hands) && q !in hands
    ensures Ready(next[q := msg][msg := x], hands - {msg}) && Ready(next[q := msg], hands - {msg})
  {
  }

  lemma KeysLess(hands: map<nat, Hand>, msg: nat)
    ensures (hands - {msg}).Keys == hands.Keys - {msg}
  {
  }

  lemma FullLink(next: Nexts, hands: map<nat, Hand>, msg: nat)
    requires Ready(next, hands) && msg in hands && hands[msg] == Full
    ensures msg in next && next[msg := NULL] == next
  {
  }

  lemma NoQueue(next: Nexts)
    ensures IsList(next, NULL, [])
  {
  }

  class MessageQueue {
    const maxMsgs: nat
    const byPriority: bool           // RT_USING_MESSAGEQUEUE_PRIORITY
    var next: Nexts
    var msgs: map<nat, Message>      // the prio, length and bytes of each node
    var head: nat                    // msg_queue_head
    var tail: nat                    // msg_queue_tail
    var freeHead: nat                // msg_queue_free
    var entry: nat
    var receivers: seq<nat>          // parent.suspend_thread
    var senders: seq<nat>            // suspend_sender_thread
    ghost var free: seq<nat>
    ghost var queue: seq<nat>
    ghost var hands: map<nat, Hand>  // nodes that threads are copying into or out of
    ghost var wokenReceivers: set<nat>
    ghost var wokenSenders: set<nat>

    ghost function Abs(): State
      reads this
    {
      State(free, queue, hands, msgs, Waits(receivers, wokenReceivers), Waits(senders, wokenSenders))
    }

    ghost predicate Lists()
      reads `next, `msgs, `head, `tail, `freeHead, `entry, `free, `queue, `hands
    {
      ListsOk(next, msgs, head, tail, freeHead, entry, free, queue, hands.Keys, maxMsgs) && Ready(next, hands)
    }

    ghost predicate Valid()
      reads this
    {
      Lists() && Inv(Abs(), maxMsgs)
    }

    /** rt_mq_init with room for n messages. */
    constructor (n: nat, byPriority: bool)
      requires n > 0
      ensures maxMsgs == n && this.byPriority == byPriority && Valid() && Abs() == Start(n)
    {
      maxMsgs, this.byPriority := n, byPriority;
      var links, first := FreeList(n);
      next, msgs, head, tail, freeHead, entry := links, map[], NULL, NULL, first, 0;
      receivers, senders := [], [];
      free, queue, hands, wokenReceivers, wokenSenders := AllFree(n), [], map[], {}, {};
      new;
      hide IsList, Placed, WaitOk, NoneLost, AllFree;
      StartOk(n);
      NoQueue(next);
    }

    /** The loop of rt_mq_init: every node is pushed on the free list. */
    static method FreeList(n: nat) returns (next: Nexts, freeHead: nat)
      ensures IsList(next, freeHead, AllFree(n))
    {
      hide Placed;
      next, freeHead := map[], NULL;
      for temp := 0 to n
        invariant IsList(next, freeHead, AllFree(temp))
      {
        var node := temp + 1;
        AllFreePlaced(temp);
        NodeAdded(next, freeHead, AllFree(temp), temp, node);
        next := next[node := freeHead];
        freeHead := node;
      }
    }

    /** The first section of _rt_mq_send_wait and rt_mq_urgent, for thread t, new or woken: a free
        node is taken. */
    method TakeFree(t: nat, wait: bool, at: nat) returns (r: Status, msg: nat)
      requires Valid() && t !in senders && at <= |senders|
      modifies `freeHead, `free, `hands, `senders, `wokenSenders
      ensures Valid() && (Abs(), r, msg) == MessageSteps.TakeFree(old(Abs()), t, wait, at)
    {
      hide Inv, IsList, Placed, Enqueued;
      TakeFreeKeeps(Abs(), maxMsgs, t, wait, at);
      FreeFirst(next, freeHead, free, queue, hands.Keys, maxMsgs);
      wokenSenders := wokenSenders - {t};
      msg := freeHead;
      if msg == NULL {
        if !wait {
          r := Refused;
          return;
        }
        senders := Enqueued(senders, t, at);
        r := Suspended;
        return;
      }
      freeHead := next[msg];
      free := free[1..];
      hands := hands[msg := Empty];
      assert hands.Keys == old(hands).Keys + {msg};
      r := Done;
    }

    /** The copy into a node, outside the lock. */
    method Fill(msg: nat, data: seq<bv8>)
      requires Valid() && msg in hands
      modifies `next, `msgs, `hands
      ensures Valid() && Abs() == MessageSteps.Fill(old(Abs()), msg, data)
    {
      hide Inv, IsList;
      FillKeeps(Abs(), maxMsgs, msg, data);
      HeldElsewhere(free, queue, hands.Keys, maxMsgs, msg);
      ListFrame(next, head, queue, msg, NULL);
      ListFrame(next, freeHead, free, msg, NULL);
      next := next[msg := NULL];
      msgs := msgs[msg := Message(if msg in msgs then msgs[msg].prio else 0, data)];
      hands := hands[msg := Full];
      assert hands.Keys == old(hands).Keys;
    }

    method WakeReceiver()
      modifies `receivers, `wokenReceivers
      ensures Waits(receivers, wokenReceivers) == old(Waits(receivers, wokenReceivers)).Wake()
    {
      if receivers != [] {
        wokenReceivers := wokenReceivers + {receivers[0]};
        receivers := receivers[1..];
      }
    }

    method WakeSender()
      modifies `senders, `wokenSenders
      ensures Waits(senders, wokenSenders) == old(Waits(senders, wokenSenders)).Wake()
    {
      if senders != [] {
        wokenSenders := wokenSenders + {senders[0]};
        senders := senders[1..];
      }
    }

    /** rt_mq_urgent's second section: the node is queued first. */
    method LinkFirst(msg: nat)
      requires Valid() && msg in hands && hands[msg] == Full
      modifies `next, `head, `tail, `entry, `queue, `hands, `receivers, `wokenReceivers
      ensures Valid() && Abs() == MessageSteps.LinkFirst(old(Abs()), msg)
    {
      hide ListsOk, Inv, Ready;
      LinkFirstKeeps(Abs(), maxMsgs, msg);
      FullWritten(Abs(), maxMsgs, msg);
      LinkFront(msg);
      WakeReceiver();
    }

    method LinkFront(msg: nat)
      requires Lists() && msg in hands && hands[msg] == Full && msg in msgs
      modifies `next, `head, `tail, `entry, `queue, `hands
      ensures Lists() && queue == [msg] + old(queue) && hands == old(hands) - {msg}
    {
      hide ListsOk, Ready;
      LinkedFirst(next, msgs, head, tail, freeHead, entry, free, queue, hands.Keys, maxMsgs, msg);
      ReadyLinked(next, hands, msg, head);
      next := next[msg := head];
      head := msg;
      if tail == NULL { tail := msg; }
      entry := entry + 1;
      queue, hands := [msg] + queue, hands - {msg};
      assert hands.Keys == old(hands).Keys - {msg};
    }

    /** The second section of _rt_mq_send_wait: the node is queued last, or by its priority. */
    method Link(msg: nat, prio: int)
      requires Valid() && msg in hands && hands[msg] == Full
      modifies `next, `msgs, `head, `tail, `entry, `queue, `hands, `receivers, `wokenReceivers
      ensures Valid() && old(Written(Abs()) && msg in msgs) && Abs() == MessageSteps.Link(old(Abs()), msg, prio, byPriority)
    {
      hide ListsOk, Inv, Contents, PrioPlace, InsertAt, Ready;
      LinkKeeps(Abs(), maxMsgs, msg, prio, byPriority);
      FullWritten(Abs(), maxMsgs, msg);
      if byPriority {
        LinkByPriority(msg, prio);
      } else {
        LinkLast(msg);
      }
      WakeReceiver();
    }

    method LinkLast(msg: nat)
      requires Lists() && msg in hands && hands[msg] == Full && msg in msgs
      modifies `next, `head, `tail, `entry, `queue, `hands
      ensures Lists() && queue == old(queue) + [msg] && hands == old(hands) - {msg}
    {
      hide ListsOk, Contents, InsertAt, Ready;
      LinkedAt(next, msgs, head, tail, freeHead, entry, free, queue, hands.Keys, maxMsgs, |queue|, msg);
      InsertLast(queue, msg);
      QueueEnds(next, msgs, head, tail, freeHead, entry, free, queue, hands.Keys, maxMsgs);
      FullLink(next, hands, msg);
      ReadyLinked(next, hands, msg, NULL);
      if tail != NULL {
        ReadyBehind(next, hands, msg, tail, NULL);
        next := next[tail := msg];
      }
      tail := msg;
      if head == NULL {
        head := msg;
      }
      entry := entry + 1;
      queue, hands := queue + [msg], hands - {msg};
      assert hands.Keys == old(hands).Keys - {msg};
    }

    /** The walk to the first message of lower priority. */
    method LinkByPriority(msg: nat, prio: int)
      requires Lists() && msg in hands && hands[msg] == Full && msg in msgs && forall x :: x in queue ==> x in msgs
      modifies `next, `msgs, `head, `tail, `entry, `queue, `hands
      ensures Lists() && hands == old(hands) - {msg} && msgs == old(msgs)[msg := old(msgs)[msg].(prio := prio)]
      ensures queue == InsertAt(old(queue), PrioPlace(Contents(old(queue), old(msgs)), prio), msg)
    {
      hide ListsOk, IsList, Contents, PrioPlace, InsertAt, Ready, Last;
      KeysLess(hands, msg);
      PrioWritten(next, msgs, head, tail, freeHead, entry, free, queue, hands.Keys, maxMsgs, msg, prio);
      msgs := msgs[msg := msgs[msg].(prio := prio)];
      ghost var k := PrioPlace(Contents(queue, msgs), prio);
      LinkedAt(next, msgs, head, tail, freeHead, entry, free, queue, hands.Keys, maxMsgs, k, msg);
      QueueEnds(next, msgs, head, tail, freeHead, entry, free, queue, hands.Keys, maxMsgs);
      FullLink(next, hands, msg);
      var node, prev, before := FindPlace(next, msgs, head, msg, prio, queue);
      if before {
        InsertBefore(msg, node, prev, k);
      } else {
        InsertBehind(msg, node);
      }
      entry := entry + 1;
      queue, hands := InsertAt(queue, k, msg), hands - {msg};
    }

    /** The links of a node that goes behind the last one, if any. */
    method InsertBehind(msg: nat, node: nat)
      requires Ready(next, hands) && msg in hands && hands[msg] == Full && node == Last(queue) && (node == NULL <==> queue == [])
      requires forall x :: x in queue ==> x !in hands
      modifies `next, `head, `tail
      ensures Ready(next, hands - {msg}) && tail == msg && head == (if queue == [] then msg else old(head))
      ensures var next' := old(next)[msg := NULL]; next == if queue == [] then next' else next'[queue[|queue| - 1] := msg]
    {
      hide Ready;
      FullLink(next, hands, msg);
      ReadyLinked(next, hands, msg, NULL);
      if node == NULL {
        head := msg;
      } else {
        ReadyBehind(next, hands, msg, node, NULL);
        next := next[node := msg];
      }
      tail := msg;
    }

    /** The links of a node that goes in front of `node`. */
    method InsertBefore(msg: nat, node: nat, prev: nat, ghost k: nat)
      requires Ready(next, hands) && k < |queue| && node == queue[k] && prev == (if k == 0 then NULL else queue[k - 1])
      requires msg in hands && (forall x :: x in queue ==> x != NULL && x !in hands)
      modifies `next, `head
      ensures Ready(next, hands - {msg})
      ensures head == (if k == 0 then msg else old(head))
      ensures var next' := old(next)[msg := queue[k]]; next == if k == 0 then next' else next'[queue[k - 1] := msg]
    {
      hide Ready;
      assert k > 0 ==> queue[k - 1] in queue;
      if prev == NULL {
        ReadyLinked(next, hands, msg, node);
        head := msg;
      } else {
        ReadyBehind(next, hands, msg, prev, node);
        next := next[prev := msg];
      }
      next := next[msg := node];
    }

    /** The first section of _rt_mq_recv, for thread t, new or woken: the first node is taken. */
    method TakeFirst(t: nat, wait: bool, at: nat) returns (r: Status, msg: nat)
      requires Valid() && t !in receivers && at <= |receivers|
      modifies `head, `tail, `entry, `queue, `hands, `receivers, `wokenReceivers
      ensures Valid() && (Abs(), r, msg) == MessageSteps.TakeFirst(old(Abs()), t, wait, at)
    {
      hide ListsOk, Inv, Enqueued;
      TakeFirstKeeps(Abs(), maxMsgs, t, wait, at);
      wokenReceivers := wokenReceivers - {t};
      EntryIs(next, msgs, head, tail, freeHead, entry, free, queue, hands.Keys, maxMsgs);
      msg := NULL;
      if entry == 0 {
        if !wait {
          r := Refused;
          return;
        }
        receivers := Enqueued(receivers, t, at);
        r := Suspended;
        return;
      }
      msg := Unlink();
      entry := entry - 1;
      r := Done;
    }

    /** The head of the queue is taken off; the entry count is the caller's. */
    method Unlink() returns (msg: nat)
      requires Queued() && queue != []
      modifies `head, `tail, `queue, `hands
      ensures Queued() && msg == old(queue)[0] && queue == old(queue)[1..] && msg !in old(hands) && hands == old(hands)[msg := Out]
    {
      hide ListsOk, IsList, Contents;
      FirstTaken(next, msgs, head, tail, freeHead, |queue|, free, queue, hands.Keys, maxMsgs);
      msg := head;
      head := next[msg];
      if tail == msg {
        tail := NULL;
      }
      queue, hands := queue[1..], hands[msg := Out];
      assert hands.Keys == old(hands).Keys + {msg};
    }

    /** The lists are in order, whatever the entry count. */
    ghost predicate Queued()
      reads `next, `msgs, `head, `tail, `freeHead, `free, `queue, `hands
    {
      ListsOk(next, msgs, head, tail, freeHead, |queue|, free, queue, hands.Keys, maxMsgs) && Ready(next, hands)
    }

    method Free(msg: nat)
      requires Queued() && msg in hands
      modifies `next, `freeHead, `free, `hands
      ensures Queued() && hands == old(hands) - {msg} && free == [msg] + old(free)
    {
      hide ListsOk, IsList;
      GivenBack(next, msgs, head, tail, freeHead, |queue|, free, queue, hands.Keys, maxMsgs, msg);
      next := next[msg := freeHead];
      freeHead := msg;
      free, hands := [msg] + free, hands - {msg};
      assert hands.Keys == old(hands).Keys - {msg};
    }

    /** The copy out of a node, outside the lock: at most `size` bytes. */
    method Read(msg: nat, size: nat) returns (data: seq<bv8>)
      requires msg in msgs
      ensures data == msgs[msg].data[..if |msgs[msg].data| < size then |msgs[msg].data| else size]
    {
      var m := msgs[msg];
      var len := |m.data|;
      if len > size { len := size; }
      data := m.data[..len];
    }

    /** The second section of _rt_mq_recv: the node is free again. */
    method GiveBack(msg: nat)
      requires Valid() && msg in hands
      modifies `next, `freeHead, `free, `hands, `senders, `wokenSenders
      ensures Valid() && Abs() == MessageSteps.GiveBack(old(Abs()), msg)
    {
      hide ListsOk, Inv;
      GiveBackKeeps(Abs(), maxMsgs, msg);
      EntryIs(next, msgs, head, tail, freeHead, entry, free, queue, hands.Keys, maxMsgs);
      Free(msg);
      WakeSender();
    }

    /** The timer of a suspended receiver runs out: it leaves the list. */
    method ReceiverTimesOut(t: nat)
      requires Valid() && t in receivers
      modifies `receivers
      ensures Valid() && Abs() == old(Abs()).(receivers := old(Abs()).receivers.TimedOut(t))
    {
      hide ListsOk, Placed;
      TimedOutOk(Abs().receivers, t, |queue|);
      receivers := Without(receivers, t);
    }

    method SenderTimesOut(t: nat)
      requires Valid() && t in senders
      modifies `senders
      ensures Valid() && Abs() == old(Abs()).(senders := old(Abs()).senders.TimedOut(t))
    {
      hide ListsOk, Placed;
      TimedOutOk(Abs().senders, t, |free|);
      senders := Without(senders, t);
    }

    /** rt_mq_control's reset: every waiter is made ready with an error, and the queued nodes go
        back to the free list; nodes being copied stay with their threads. */
    method Reset()
      requires Valid()
      modifies `next, `head, `tail, `freeHead, `entry, `free, `queue, `hands, `receivers, `senders
      ensures Valid() && Abs() == MessageSteps.Reset(old(Abs()))
    {
      hide ListsOk, Inv;
      ResetKeeps(Abs(), maxMsgs);
      EntryIs(next, msgs, head, tail, freeHead, entry, free, queue, hands.Keys, maxMsgs);
      receivers, senders := [], [];
      QueueEnds(next, msgs, head, tail, freeHead, |queue|, free, queue, hands.Keys, maxMsgs);
      while head != NULL
        invariant Queued() && hands == old(hands) && receivers == [] && senders == []
        invariant Pushed(queue, free) == Pushed(old(queue), old(free)) && (head == NULL <==> queue == [])
        decreases |queue|
      {
        var msg := Unlink();
        Free(msg);
        assert hands == old(hands);
        QueueEnds(next, msgs, head, tail, freeHead, |queue|, free, queue, hands.Keys, maxMsgs);
      }
      entry := 0;
    }
  }

  lemma FullWritten(s: State, n: nat, x: nat)
    requires Inv(s, n) && x in s.hands && s.hands[x] == Full
    ensures x in s.msgs && Written(s) && forall y :: y in s.queue ==> y in s.msgs
  {
  }

  lemma EntryIs(next: Nexts, msgs: map<nat, Message>, head: nat, tail: nat, freeHead: nat, entry: nat,
                free: seq<nat>, queue: seq<nat>, held: set<nat>, n: nat)
    requires ListsOk(next, msgs, head, tail, freeHead, entry, free, queue, held, n)
    ensures entry == |queue|
  {
  }

  /** Taking the first node. */
  lemma FirstTaken(next: Nexts, msgs: map<nat, Message>, head: nat, tail: nat, freeHead: nat, entry: nat,
                   free: seq<nat>, queue: seq<nat>, held: set<nat>, n: nat)
    requires ListsOk(next, msgs, head, tail, freeHead, entry, free, queue, held, n) && queue != []
    ensures head == queue[0] && head in next && head in msgs && head !in held
    ensures forall x :: x in queue[1..] ==> x in msgs
    ensures forall x :: x in queue ==> x in msgs
    ensures ListsOk(next, msgs, next[head], if tail == head then NULL else tail, freeHead, entry - 1, free, queue[1..], held + {head}, n)
    ensures Contents(queue, msgs) == [msgs[head]] + Contents(queue[1..], msgs)
  {
    hide Placed;
    QueuePlaced(free, queue, held, n);
    HeadIs(next, head, queue);
    HeadIs(next, next[head], queue[1..]);
    LastOfTail(queue);
    ContentsTail(queue, msgs);
  }

  lemma LastOfTail(queue: seq<nat>)
    requires queue != [] && queue[0] !in queue[1..]
    ensures Last(queue[1..]) == if Last(queue) == queue[0] then NULL else Last(queue)
  {
  }

  /** Freeing a held node. */
  lemma GivenBack(next: Nexts, msgs: map<nat, Message>, head: nat, tail: nat, freeHead: nat, entry: nat,
                  free: seq<nat>, queue: seq<nat>, held: set<nat>, n: nat, msg: nat)
    requires ListsOk(next, msgs, head, tail, freeHead, entry, free, queue, held, n) && msg in held
    ensures ListsOk(next[msg := freeHead], msgs, head, tail, msg, entry, [msg] + free, queue, held - {msg}, n)
  {
    HeldElsewhere(free, queue, held, n, msg);
    ListFrame(next, head, queue, msg, freeHead);
    ListFrame(next, freeHead, free, msg, freeHead);
    DistinctCons(msg, free);
  }

  /** The loop of the priority insertion: the node to insert before and its predecessor, or the
      last node, NULL in an empty queue, to append to. */
  method FindPlace(next: Nexts, msgs: map<nat, Message>, head: nat, msg: nat, prio: int, ghost queue: seq<nat>)
    returns (node: nat, prev: nat, before: bool)
    requires IsList(next, head, queue) && forall x :: x in queue ==> x in msgs
    ensures var k := PrioPlace(Contents(queue, msgs), prio);
            && before == (k < |queue|) && (before ==> node == queue[k] && prev == if k == 0 then NULL else queue[k - 1])
            && (!before ==> node == Last(queue))
  {
    hide PrioPlace, IsList;
    HeadIs(next, head, queue);
    ghost var k := 0;
    node, prev, before := head, NULL, false;
    if node == NULL {
      return;
    }
    ListAt(next, head, queue, 0);
    while true
      invariant k < |queue| && node == queue[k] && prev == (if k == 0 then NULL else queue[k - 1]) && !before
      invariant node in next && next[node] == if k + 1 < |queue| then queue[k + 1] else NULL
      invariant forall i :: 0 <= i < k ==> msgs[queue[i]].prio >= prio
      decreases |queue| - k
    {
      if msgs[node].prio < prio {
        before := true;
        PrioPlaceUnique(Contents(queue, msgs), prio, k);
        return;
      }
      if next[node] == NULL {
        break;
      }
      ListAt(next, head, queue, k + 1);
      prev := node;
      node := next[node];
      k := k + 1;
    }
    if k + 1 < |queue| { ListAt(next, head, queue, k + 1); }
    PrioPlaceUnique(Contents(queue, msgs), prio, k + 1);
  }

  lemma QueueEnds(next: Nexts, msgs: map<nat, Message>, head: nat, tail: nat, freeHead: nat, entry: nat,
                  free: seq<nat>, queue: seq<nat>, held: set<nat>, n: nat)
    requires ListsOk(next, msgs, head, tail, freeHead, entry, free, queue, held, n)
    ensures head == (if queue == [] then NULL else queue[0]) && tail == Last(queue) && (tail == NULL <==> queue == [])
    ensures IsList(next, head, queue) && forall x :: x in queue ==> x in msgs && x != NULL && x !in held
    ensures queue != [] ==> tail in queue
    ensures forall i :: 0 <= i < |queue| - 1 ==> queue[i] != queue[|queue| - 1]
  {
    HeadIs(next, head, queue);
  }

  /** Linking a held node at place k. */
  lemma LinkedAt(next: Nexts, msgs: map<nat, Message>, head: nat, tail: nat, freeHead: nat, entry: nat,
                 free: seq<nat>, queue: seq<nat>, held: set<nat>, n: nat, k: nat, msg: nat)
    requires ListsOk(next, msgs, head, tail, freeHead, entry, free, queue, held, n) && msg in held && msg in msgs && k <= |queue|
    ensures forall x :: x in queue || x == msg ==> x in msgs
    ensures forall x :: x in InsertAt(queue, k, msg) ==> x in msgs
    ensures var next' := next[msg := if k < |queue| then queue[k] else NULL];
            ListsOk(if k == 0 then next' else next'[queue[k - 1] := msg], msgs, if k == 0 then msg else head,
                    if k == |queue| then msg else tail, freeHead, entry + 1, free, InsertAt(queue, k, msg), held - {msg}, n)
    ensures Contents(InsertAt(queue, k, msg), msgs) == InsertAt(Contents(queue, msgs), k, msgs[msg])
    ensures msg !in queue && |InsertAt(queue, k, msg)| == |queue| + 1
  {
    hide IsList, Contents, Placed;
    QueueReady(next, freeHead, head, free, queue, held, n, k, msg);
    ContentsInsert(queue, msgs, k, msg);
    InsertedAt(queue, k, msg);
    HeldElsewhere(free, queue, held, n, msg);
  }

  /** Setting the priority of a held node. */
  lemma PrioWritten(next: Nexts, msgs: map<nat, Message>, head: nat, tail: nat, freeHead: nat, entry: nat,
                    free: seq<nat>, queue: seq<nat>, held: set<nat>, n: nat, msg: nat, prio: int)
    requires ListsOk(next, msgs, head, tail, freeHead, entry, free, queue, held, n) && msg in held && msg in msgs
    ensures var msgs' := msgs[msg := msgs[msg].(prio := prio)];
            ListsOk(next, msgs', head, tail, freeHead, entry, free, queue, held, n)
    ensures var msgs' := msgs[msg := msgs[msg].(prio := prio)];
            (forall x :: x in queue ==> x in msgs && x in msgs') && Contents(queue, msgs') == Contents(queue, msgs)
  {
    HeldElsewhere(free, queue, held, n, msg);
    ContentsFrame(queue, msgs, msg, msgs[msg].(prio := prio));
  }

  lemma NodeAdded(next: Nexts, freeHead: nat, free: seq<nat>, n: nat, node: nat)
    requires IsList(next, freeHead, free) && Placed(free, [], {}, n) && node == n + 1
    ensures IsList(next[node := freeHead], node, [node] + free) && Placed([node] + free, [], {}, node)
  {
    assert node !in free;
    ListFrame(next, freeHead, free, node, freeHead);
    DistinctCons(node, free);
  }

  /** A held node may be queued at any place. */
  lemma QueueReady(next: Nexts, freeHead: nat, head: nat, free: seq<nat>, queue: seq<nat>, held: set<nat>, n: nat, k: nat, msg: nat)
    requires IsList(next, freeHead, free) && IsList(next, head, queue) && Placed(free, queue, held, n) && msg in held && k <= |queue|
    ensures msg != NULL && Placed(free, InsertAt(queue, k, msg), held - {msg}, n)
    ensures var next' := next[msg := if k < |queue| then queue[k] else NULL];
            if k == 0 then IsList(next', msg, InsertAt(queue, 0, msg)) && IsList(next', freeHead, free)
            else IsList(next'[queue[k - 1] := msg], head, InsertAt(queue, k, msg)) && IsList(next'[queue[k - 1] := msg], freeHead, free)
  {
    var x := if k < |queue| then queue[k] else NULL;
    ListInsert(next, head, queue, k, msg);
    ListFrame(next, freeHead, free, msg, x);
    if k > 0 {
      assert queue[k - 1] in queue;
      ListFrame(next[msg := x], freeHead, free, queue[k - 1], msg);
    }
    InsertPlaced(free, queue, held, n, k, msg);
  }

  lemma HeadIs(next: Nexts, head: nat, s: seq<nat>)
    requires IsList(next, head, s)
    ensures head == (if s == [] then NULL else s[0]) && (head == NULL <==> s == [])
    ensures Last(s) == NULL <==> s == []
  {
    if s != [] { ListAt(next, head, s, |s| - 1); }
  }

  function Last(s: seq<nat>): nat { if s == [] then NULL else s[|s| - 1] }

  lemma FreeFirst(next: Nexts, freeHead: nat, free: seq<nat>, queue: seq<nat>, held: set<nat>, n: nat)
    requires IsList(next, freeHead, free) && Placed(free, queue, held, n)
    ensures freeHead == NULL <==> free == []
    ensures free != [] ==> freeHead == free[0] && freeHead in next && IsList(next, next[freeHead], free[1..])
    ensures free != [] ==> Placed(free[1..], queue, held + {freeHead}, n)
  {
    hide Placed;
    if free != [] { FreePlaced(free, queue, held, n); }
  }
}
