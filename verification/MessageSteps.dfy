/** The message queue (rt-thread/src/ipc.c) as interleaved steps of senders and receivers: each step
    is one lock-protected section, or a copy that a thread makes between two sections. */
module MessageSteps {
  import opened Lists
  import opened SinglyLinked
  import opened WaitLists

  datatype Message = Message(prio: int, data: seq<bv8>)

  // -------------------------------------------------------------------------------------
  // Messages by priority
  // -------------------------------------------------------------------------------------

  /** Behind every message of at least that priority that comes first. */
  function PrioPlace(ms: seq<Message>, p: int): (k: nat)
    ensures k <= |ms| && (forall i :: 0 <= i < k ==> ms[i].prio >= p) && (k < |ms| ==> ms[k].prio < p)
  {
    if ms == [] || ms[0].prio < p then 0 else 1 + PrioPlace(ms[1..], p)
  }

  ghost predicate Descending(ms: seq<Message>) {
    forall i, j :: 0 <= i < j < |ms| ==> ms[i].prio >= ms[j].prio
  }

  /** Insertion by priority is stable: the queue stays in descending order, and the new message
      goes behind all of its own priority. */
  lemma PrioInsertStable(ms: seq<Message>, m: Message)
    requires Descending(ms)
    ensures var k := PrioPlace(ms, m.prio);
            && Descending(InsertAt(ms, k, m))
            && (forall i :: 0 <= i < k ==> ms[i].prio >= m.prio) && (forall i :: k <= i < |ms| ==> ms[i].prio < m.prio)
  {
    PrioSplit(ms, m.prio);
    InsertedAt(ms, PrioPlace(ms, m.prio), m);
    InsertDescending(ms, PrioPlace(ms, m.prio), m, InsertAt(ms, PrioPlace(ms, m.prio), m));
  }

  lemma PrioSplit(ms: seq<Message>, p: int)
    requires Descending(ms)
    ensures forall i :: PrioPlace(ms, p) <= i < |ms| ==> ms[i].prio < p
  {
    hide PrioPlace;
    var k := PrioPlace(ms, p);
    forall i | k <= i < |ms| ensures ms[i].prio < p {
      assert ms[k].prio >= ms[i].prio;
    }
  }

  lemma InsertDescending(ms: seq<Message>, k: nat, m: Message, r: seq<Message>)
    requires Descending(ms) && k <= |ms| && |r| == |ms| + 1
    requires forall i {:trigger r[i]} :: 0 <= i < |r| ==> r[i] == if i < k then ms[i] else if i == k then m else ms[i - 1]
    requires (forall i :: 0 <= i < k ==> ms[i].prio >= m.prio) && (forall i :: k <= i < |ms| ==> ms[i].prio < m.prio)
    ensures Descending(r)
  {
    forall i, j | 0 <= i < j < |r| ensures r[i].prio >= r[j].prio {
      var a, b := if i < k then i else i - 1, if j < k then j else j - 1;
      if i == k {
        assert ms[b].prio < m.prio;
      } else if j != k {
        assert ms[a].prio >= ms[b].prio;
      }
    }
  }

  lemma PrioPlaceUnique(ms: seq<Message>, p: int, k: nat)
    requires k <= |ms| && (forall i :: 0 <= i < k ==> ms[i].prio >= p) && (k < |ms| ==> ms[k].prio < p)
    ensures PrioPlace(ms, p) == k
  {
  }

  // -------------------------------------------------------------------------------------
  // Where the nodes are
  // -------------------------------------------------------------------------------------

  /** Each of the nodes 1..n is in exactly one place: the free list, the queue, or the hands of a
      thread that is copying. */
  ghost predicate Placed(free: seq<nat>, queue: seq<nat>, held: set<nat>, n: nat) {
    && Distinct(free) && Distinct(queue)
    && (forall x :: x in free ==> x !in queue && x !in held && 1 <= x <= n)
    && (forall x :: x in queue ==> x !in held && 1 <= x <= n)
    && (forall x :: x in held ==> 1 <= x <= n)
    && (forall x :: 1 <= x <= n ==> x in free || x in queue || x in held)
  }

  /** No node is lost: the three counts add up. */
  lemma NodesAddUp(free: seq<nat>, queue: seq<nat>, held: set<nat>, n: nat)
    requires Placed(free, queue, held, n)
    ensures |free| + |queue| + |held| == n
  {
    hide Nodes, Range, Distinct;
    DistinctSize(free);
    DistinctSize(queue);
    assert Range(n) == Nodes(free) + Nodes(queue) + held;
    assert Nodes(free) !! Nodes(queue) && (Nodes(free) + Nodes(queue)) !! held;
  }

  /** The contents of the queued nodes, in order. */
  function Contents(queue: seq<nat>, msgs: map<nat, Message>): (r: seq<Message>)
    requires forall x :: x in queue ==> x in msgs
    ensures |r| == |queue| && forall i :: 0 <= i < |queue| ==> r[i] == msgs[queue[i]]
  {
    seq(|queue|, i requires 0 <= i < |queue| => msgs[queue[i]])
  }

  /** Queueing node m at place k queues its message there. */
  lemma ContentsInsert(queue: seq<nat>, msgs: map<nat, Message>, k: nat, m: nat)
    requires (forall x :: x in queue ==> x in msgs) && k <= |queue| && m in msgs
    ensures (forall x :: x in InsertAt(queue, k, m) ==> x in msgs)
    ensures Contents(InsertAt(queue, k, m), msgs) == InsertAt(Contents(queue, msgs), k, msgs[m])
  {
  }

  /** Writing a node outside the queue changes no queued message. */
  lemma ContentsFrame(queue: seq<nat>, msgs: map<nat, Message>, n: nat, m: Message)
    requires (forall x :: x in queue ==> x in msgs) && n !in queue
    ensures Contents(queue, msgs[n := m]) == Contents(queue, msgs)
  {
  }

  lemma HeldElsewhere(free: seq<nat>, queue: seq<nat>, held: set<nat>, n: nat, msg: nat)
    requires Placed(free, queue, held, n) && msg in held
    ensures msg !in free && msg !in queue && msg != NULL
  {
  }

  lemma InsertPlaced(free: seq<nat>, queue: seq<nat>, held: set<nat>, n: nat, k: nat, msg: nat)
    requires Placed(free, queue, held, n) && msg in held && k <= |queue|
    ensures Placed(free, InsertAt(queue, k, msg), held - {msg}, n)
  {
    var r := InsertAt(queue, k, msg);
    InsertedAt(queue, k, msg);
    forall x | x in queue ensures x in r {
      var i :| 0 <= i < |queue| && queue[i] == x;
      assert r[if i < k then i else i + 1] == x;
    }
    assert r[k] == msg;
  }

  lemma InHeadOrTail(s: seq<nat>, x: nat)
    requires s != []
    ensures x in s <==> x == s[0] || x in s[1..]
  {
    assert s == [s[0]] + s[1..];
  }

  lemma FreePlaced(free: seq<nat>, queue: seq<nat>, held: set<nat>, n: nat)
    requires Placed(free, queue, held, n) && free != []
    ensures Placed(free[1..], queue, held + {free[0]}, n)
  {
    DistinctTail(free);
    forall x: nat ensures x in free <==> x == free[0] || x in free[1..] { InHeadOrTail(free, x); }
  }

  lemma QueuePlaced(free: seq<nat>, queue: seq<nat>, held: set<nat>, n: nat)
    requires Placed(free, queue, held, n) && queue != []
    ensures Placed(free, queue[1..], held + {queue[0]}, n) && queue[0] !in held && queue[0] !in queue[1..]
  {
    DistinctTail(queue);
    forall x: nat ensures x in queue <==> x == queue[0] || x in queue[1..] { InHeadOrTail(queue, x); }
  }

  lemma ContentsTail(queue: seq<nat>, msgs: map<nat, Message>)
    requires queue != [] && forall x :: x in queue ==> x in msgs
    ensures (forall x :: x in queue[1..] ==> x in msgs) && Contents(queue, msgs) == [msgs[queue[0]]] + Contents(queue[1..], msgs)
  {
  }

  lemma GivenPlaced(free: seq<nat>, queue: seq<nat>, held: set<nat>, n: nat, x: nat)
    requires Placed(free, queue, held, n) && x in held
    ensures Placed([x] + free, queue, held - {x}, n)
  {
    DistinctCons(x, free);
  }

  // -------------------------------------------------------------------------------------
  // The steps
  // -------------------------------------------------------------------------------------

  /** How far a thread is with a node: taken and not yet written, written and not yet linked, or
      received and being read. */
  datatype Hand = Empty | Full | Out

  /** `msgs` is the memory of the nodes, shared by all threads. */
  datatype State = State(free: seq<nat>, queue: seq<nat>, hands: map<nat, Hand>, msgs: map<nat, Message>,
                         receivers: Waits, senders: Waits)

  ghost predicate Written(s: State) {
    && (forall x :: x in s.queue ==> x in s.msgs)
    && (forall x :: x in s.hands && s.hands[x] != Empty ==> x in s.msgs)
  }

  /** What every step keeps. */
  ghost predicate Inv(s: State, n: nat) {
    && Placed(s.free, s.queue, s.hands.Keys, n) && Written(s)
    && s.receivers.Ok(|s.queue|) && s.senders.Ok(|s.free|)
  }

  /** The first section of _rt_mq_send_wait and rt_mq_urgent for thread t; NULL if it got no node. */
  function TakeFree(s: State, t: nat, wait: bool, at: nat): (State, Status, nat)
    requires at <= |s.senders.list|
  {
    if s.free != [] then
      (s.(free := s.free[1..], hands := s.hands[s.free[0] := Empty], senders := s.senders.Ran(t)), Done, s.free[0])
    else if wait then (s.(senders := s.senders.Suspend(t, at)), Suspended, NULL)
    else (s.(senders := s.senders.Ran(t)), Refused, NULL)
  }

  /** The copy into a node; its priority field keeps an old value. */
  function Fill(s: State, x: nat, data: seq<bv8>): State {
    s.(hands := s.hands[x := Full], msgs := s.msgs[x := Message(if x in s.msgs then s.msgs[x].prio else 0, data)])
  }

  /** The second section of _rt_mq_send_wait. */
  function Link(s: State, x: nat, prio: int, byPriority: bool): State
    requires x in s.msgs && forall y :: y in s.queue ==> y in s.msgs
  {
    if byPriority then
      s.(queue := InsertAt(s.queue, PrioPlace(Contents(s.queue, s.msgs), prio), x), hands := s.hands - {x},
         msgs := s.msgs[x := s.msgs[x].(prio := prio)], receivers := s.receivers.Wake())
    else s.(queue := s.queue + [x], hands := s.hands - {x}, receivers := s.receivers.Wake())
  }

  /** The second section of rt_mq_urgent. */
  function LinkFirst(s: State, x: nat): State {
    s.(queue := [x] + s.queue, hands := s.hands - {x}, receivers := s.receivers.Wake())
  }

  /** The first section of _rt_mq_recv for thread t. */
  function TakeFirst(s: State, t: nat, wait: bool, at: nat): (State, Status, nat)
    requires at <= |s.receivers.list|
  {
    if s.queue != [] then
      (s.(queue := s.queue[1..], hands := s.hands[s.queue[0] := Out], receivers := s.receivers.Ran(t)), Done, s.queue[0])
    else if wait then (s.(receivers := s.receivers.Suspend(t, at)), Suspended, NULL)
    else (s.(receivers := s.receivers.Ran(t)), Refused, NULL)
  }

  /** The second section of _rt_mq_recv. */
  function GiveBack(s: State, x: nat): State {
    s.(free := [x] + s.free, hands := s.hands - {x}, senders := s.senders.Wake())
  }

  /** The nodes of a queue pushed one by one on the free list. */
  function Pushed(queue: seq<nat>, free: seq<nat>): (r: seq<nat>)
    ensures |r| == |queue| + |free|
  {
    if queue == [] then free else Pushed(queue[1..], [queue[0]] + free)
  }

  /** rt_mq_control with RT_IPC_CMD_RESET. */
  function Reset(s: State): State {
    s.(free := Pushed(s.queue, s.free), queue := [], receivers := s.receivers.Emptied(), senders := s.senders.Emptied())
  }

  lemma TakeFreeKeeps(s: State, n: nat, t: nat, wait: bool, at: nat)
    requires Inv(s, n) && t !in s.senders.list && at <= |s.senders.list|
    ensures Inv(TakeFree(s, t, wait, at).0, n)
  {
    hide Placed, WaitOk, NoneLost;
    RanOk(s.senders, t, |s.free|);
    if s.free != [] {
      FreePlaced(s.free, s.queue, s.hands.Keys, n);
      assert s.hands[s.free[0] := Empty].Keys == s.hands.Keys + {s.free[0]};
    } else if wait {
      SuspendOk(s.senders, t, at);
    }
  }

  lemma FillKeeps(s: State, n: nat, x: nat, data: seq<bv8>)
    requires Inv(s, n) && x in s.hands
    ensures Inv(Fill(s, x, data), n)
  {
    hide Placed, WaitOk, NoneLost;
    assert s.hands[x := Full].Keys == s.hands.Keys;
  }

  lemma LinkKeeps(s: State, n: nat, x: nat, prio: int, byPriority: bool)
    requires Inv(s, n) && x in s.hands && s.hands[x] == Full
    ensures Inv(Link(s, x, prio, byPriority), n)
  {
    hide Placed, WaitOk, NoneLost, PrioPlace, InsertAt, Contents;
    var k := if byPriority then PrioPlace(Contents(s.queue, s.msgs), prio) else |s.queue|;
    InsertPlaced(s.free, s.queue, s.hands.Keys, n, k, x);
    ContentsInsert(s.queue, s.msgs, k, x);
    InsertLast(s.queue, x);
    InsertedAt(s.queue, k, x);
    WakesOk(s.receivers, |s.queue|);
    assert (s.hands - {x}).Keys == s.hands.Keys - {x};
  }

  lemma LinkFirstKeeps(s: State, n: nat, x: nat)
    requires Inv(s, n) && x in s.hands && s.hands[x] == Full
    ensures Inv(LinkFirst(s, x), n)
  {
    hide Placed, WaitOk, NoneLost, InsertAt;
    InsertPlaced(s.free, s.queue, s.hands.Keys, n, 0, x);
    InsertFirst(s.queue, x);
    WakesOk(s.receivers, |s.queue|);
    assert (s.hands - {x}).Keys == s.hands.Keys - {x};
  }

  lemma TakeFirstKeeps(s: State, n: nat, t: nat, wait: bool, at: nat)
    requires Inv(s, n) && t !in s.receivers.list && at <= |s.receivers.list|
    ensures Inv(TakeFirst(s, t, wait, at).0, n)
  {
    hide Placed, WaitOk, NoneLost;
    RanOk(s.receivers, t, |s.queue|);
    if s.queue != [] {
      QueuePlaced(s.free, s.queue, s.hands.Keys, n);
      assert s.hands[s.queue[0] := Out].Keys == s.hands.Keys + {s.queue[0]};
    } else if wait {
      SuspendOk(s.receivers, t, at);
    }
  }

  lemma GiveBackKeeps(s: State, n: nat, x: nat)
    requires Inv(s, n) && x in s.hands
    ensures Inv(GiveBack(s, x), n)
  {
    hide Placed, WaitOk, NoneLost;
    GivenPlaced(s.free, s.queue, s.hands.Keys, n, x);
    WakesOk(s.senders, |s.free|);
    assert (s.hands - {x}).Keys == s.hands.Keys - {x};
  }

  lemma {:induction false} PushedPlaced(queue: seq<nat>, free: seq<nat>, held: set<nat>, n: nat)
    requires Placed(free, queue, held, n)
    ensures Placed(Pushed(queue, free), [], held, n)
    decreases |queue|
  {
    hide Placed;
    if queue != [] {
      QueuePlaced(free, queue, held, n);
      GivenPlaced(free, queue[1..], held + {queue[0]}, n, queue[0]);
      assert held + {queue[0]} - {queue[0]} == held;
      PushedPlaced(queue[1..], [queue[0]] + free, held, n);
    }
  }

  lemma ResetKeeps(s: State, n: nat)
    requires Inv(s, n)
    ensures Inv(Reset(s), n)
  {
    hide Placed;
    PushedPlaced(s.queue, s.free, s.hands.Keys, n);
  }

  // -------------------------------------------------------------------------------------
  // Runs
  // -------------------------------------------------------------------------------------

  /** A step of any thread. */
  datatype Step =
    | TakeStep(t: nat, wait: bool, at: nat)
    | FillStep(x: nat, data: seq<bv8>)
    | LinkStep(x: nat, prio: int)
    | UrgentStep(x: nat)
    | ReceiveStep(t: nat, wait: bool, at: nat)
    | GiveStep(x: nat)
    | ResetStep
    | ReceiverTimeout(t: nat)
    | SenderTimeout(t: nat)

  /** The order of the sections of one call; nothing else is asked of the interleaving. */
  predicate Possible(s: State, step: Step) {
    match step
    case TakeStep(t, _, at) => t !in s.senders.list && at <= |s.senders.list|
    case FillStep(x, _) => x in s.hands && s.hands[x] == Empty
    case LinkStep(x, _) => x in s.hands && s.hands[x] == Full
    case UrgentStep(x) => x in s.hands && s.hands[x] == Full
    case ReceiveStep(t, _, at) => t !in s.receivers.list && at <= |s.receivers.list|
    case GiveStep(x) => x in s.hands && s.hands[x] == Out
    case ResetStep => true
    case ReceiverTimeout(t) => t in s.receivers.list
    case SenderTimeout(t) => t in s.senders.list
  }

  function Do(s: State, step: Step, byPriority: bool): State
    requires Written(s) && Possible(s, step)
  {
    match step
    case TakeStep(t, wait, at) => TakeFree(s, t, wait, at).0
    case FillStep(x, data) => Fill(s, x, data)
    case LinkStep(x, prio) => Link(s, x, prio, byPriority)
    case UrgentStep(x) => LinkFirst(s, x)
    case ReceiveStep(t, wait, at) => TakeFirst(s, t, wait, at).0
    case GiveStep(x) => GiveBack(s, x)
    case ResetStep => Reset(s)
    case ReceiverTimeout(t) => s.(receivers := s.receivers.TimedOut(t))
    case SenderTimeout(t) => s.(senders := s.senders.TimedOut(t))
  }

  lemma DoKeeps(s: State, n: nat, step: Step, byPriority: bool)
    requires Inv(s, n) && Possible(s, step)
    ensures Inv(Do(s, step, byPriority), n)
  {
    hide Placed, WaitOk, NoneLost, TakeFree, Fill, Link, LinkFirst, TakeFirst, GiveBack, Reset;
    match step
    case TakeStep(t, wait, at) => TakeFreeKeeps(s, n, t, wait, at);
    case FillStep(x, data) => FillKeeps(s, n, x, data);
    case LinkStep(x, prio) => LinkKeeps(s, n, x, prio, byPriority);
    case UrgentStep(x) => LinkFirstKeeps(s, n, x);
    case ReceiveStep(t, wait, at) => TakeFirstKeeps(s, n, t, wait, at);
    case GiveStep(x) => GiveBackKeeps(s, n, x);
    case ResetStep => ResetKeeps(s, n);
    case ReceiverTimeout(t) => TimedOutOk(s.receivers, t, |s.queue|);
    case SenderTimeout(t) => TimedOutOk(s.senders, t, |s.free|);
  }

  type Bytes = seq<bv8>

  /** A run so far: what was last copied into each node, and the messages that were linked, handed
      to a receiver, and dropped by a reset. */
  datatype World = World(s: State, filled: map<nat, Bytes>, linked: seq<Bytes>, received: seq<Bytes>, dropped: multiset<Bytes>)

  /** The memory of a node that is linked, waits in the queue or is being read holds what its
      sender copied into it last. */
  ghost predicate Intact(w: World) {
    && (forall x :: x in w.s.queue ==> Holds(w, x))
    && (forall x :: x in w.s.hands && w.s.hands[x] != Empty ==> Holds(w, x))
  }

  ghost predicate Holds(w: World, x: nat) {
    x in w.s.msgs && x in w.filled && w.s.msgs[x].data == w.filled[x]
  }

  function Advance(w: World, step: Step, byPriority: bool): World
    requires Written(w.s) && Possible(w.s, step)
  {
    var w' := w.(s := Do(w.s, step, byPriority));
    match step
    case FillStep(x, data) => w'.(filled := w.filled[x := data])
    case LinkStep(x, _) => w'.(linked := w.linked + [w.s.msgs[x].data])
    case UrgentStep(x) => w'.(linked := w.linked + [w.s.msgs[x].data])
    case ReceiveStep(_, _, _) => if w.s.queue == [] then w' else w'.(received := w.received + [w.s.msgs[w.s.queue[0]].data])
    case ResetStep => w'.(dropped := w.dropped + multiset(Data(w.s)))
    case _ => w'
  }

  /** The bytes of the queued messages, in order. */
  function Data(s: State): (r: seq<Bytes>)
    requires forall x :: x in s.queue ==> x in s.msgs
    ensures |r| == |s.queue| && forall i :: 0 <= i < |s.queue| ==> r[i] == s.msgs[s.queue[i]].data
  {
    seq(|s.queue|, i requires 0 <= i < |s.queue| => s.msgs[s.queue[i]].data)
  }

  /** No message is lost, made up or received twice. */
  ghost predicate Conserved(w: World)
    requires Written(w.s)
  {
    multiset(w.linked) == multiset(w.received) + multiset(Data(w.s)) + w.dropped
  }

  ghost predicate WorldOk(w: World, n: nat) {
    Inv(w.s, n) && Intact(w) && Conserved(w)
  }

  /** What a step does to the queued bytes. */
  ghost predicate DataMoves(s: State, step: Step, s': State)
    requires Written(s) && Written(s') && Possible(s, step)
  {
    match step
    case LinkStep(x, _) => exists k :: 0 <= k <= |Data(s)| && Data(s') == InsertAt(Data(s), k, s.msgs[x].data)
    case UrgentStep(x) => Data(s') == [s.msgs[x].data] + Data(s)
    case ReceiveStep(_, _, _) => Data(s) == (if s.queue == [] then [] else [s.msgs[s.queue[0]].data]) + Data(s')
    case ResetStep => Data(s') == []
    case _ => Data(s') == Data(s)
  }

  lemma DoMoves(s: State, n: nat, step: Step, byPriority: bool)
    requires Inv(s, n) && Possible(s, step)
    ensures Inv(Do(s, step, byPriority), n) && DataMoves(s, step, Do(s, step, byPriority))
  {
    hide Placed, WaitOk, NoneLost, PrioPlace, InsertAt, Contents, TakeFree, Fill, Link, LinkFirst, TakeFirst, GiveBack, Reset;
    DoKeeps(s, n, step, byPriority);
    match step
    case TakeStep(t, wait, at) => TakeMoves(s, t, wait, at);
    case FillStep(x, data) => FillMoves(s, n, x, data);
    case LinkStep(x, prio) => LinkMoves(s, n, x, prio, byPriority);
    case UrgentStep(x) => UrgentMoves(s, x);
    case ReceiveStep(t, wait, at) => ReceiveMoves(s, t, wait, at);
    case GiveStep(x) => assert Data(GiveBack(s, x)) == Data(s) by { GiveMoves(s, x); }
    case ResetStep => ResetMoves(s);
    case _ =>
  }

  lemma TakeMoves(s: State, t: nat, wait: bool, at: nat)
    requires Written(s) && at <= |s.senders.list| && Written(TakeFree(s, t, wait, at).0)
    ensures Data(TakeFree(s, t, wait, at).0) == Data(s)
  {
  }

  lemma FillMoves(s: State, n: nat, x: nat, data: Bytes)
    requires Inv(s, n) && x in s.hands && Written(Fill(s, x, data))
    ensures Data(Fill(s, x, data)) == Data(s)
  {
    hide WaitOk, NoneLost;
    HeldElsewhere(s.free, s.queue, s.hands.Keys, n, x);
  }

  lemma LinkMoves(s: State, n: nat, x: nat, prio: int, byPriority: bool)
    requires Inv(s, n) && x in s.hands && x in s.msgs && Written(Link(s, x, prio, byPriority))
    ensures byPriority ==> Data(Link(s, x, prio, byPriority)) == InsertAt(Data(s), PrioPlace(Contents(s.queue, s.msgs), prio), s.msgs[x].data)
    ensures !byPriority ==> Data(Link(s, x, prio, byPriority)) == Data(s) + [s.msgs[x].data] == InsertAt(Data(s), |Data(s)|, s.msgs[x].data)
  {
    hide WaitOk, NoneLost, PrioPlace;
    HeldElsewhere(s.free, s.queue, s.hands.Keys, n, x);
    if byPriority { DataInsert(s, PrioPlace(Contents(s.queue, s.msgs), prio), x, prio); }
  }

  lemma DataInsert(s: State, k: nat, x: nat, prio: int)
    requires Written(s) && x in s.msgs && x !in s.queue && k <= |s.queue|
    ensures forall y :: y in InsertAt(s.queue, k, x) ==> y in s.msgs
    ensures var msgs := s.msgs[x := s.msgs[x].(prio := prio)];
            Data(s.(queue := InsertAt(s.queue, k, x), msgs := msgs)) == InsertAt(Data(s), k, s.msgs[x].data)
  {
  }

  lemma UrgentMoves(s: State, x: nat)
    requires Written(s) && x in s.msgs && Written(LinkFirst(s, x))
    ensures Data(LinkFirst(s, x)) == [s.msgs[x].data] + Data(s)
  {
  }

  lemma ReceiveMoves(s: State, t: nat, wait: bool, at: nat)
    requires Written(s) && at <= |s.receivers.list| && Written(TakeFirst(s, t, wait, at).0)
    ensures Data(s) == (if s.queue == [] then [] else [s.msgs[s.queue[0]].data]) + Data(TakeFirst(s, t, wait, at).0)
  {
  }

  lemma GiveMoves(s: State, x: nat)
    requires Written(s) && Written(GiveBack(s, x))
    ensures Data(GiveBack(s, x)) == Data(s)
  {
  }

  lemma ResetMoves(s: State)
    requires Written(Reset(s))
    ensures Data(Reset(s)) == []
  {
  }

  ghost predicate InUse(s: State, x: nat) { x in s.queue || (x in s.hands && s.hands[x] != Empty) }

  lemma IntactKept(w: World, n: nat, step: Step, byPriority: bool)
    requires Inv(w.s, n) && Intact(w) && Possible(w.s, step)
    ensures Intact(Advance(w, step, byPriority))
  {
    hide Inv, Do, Data;
    InvWritten(w.s, n);
    BytesKept(w.s, n, step, byPriority);
    var w' := Advance(w, step, byPriority);
    forall y | InUse(w'.s, y) ensures Holds(w', y) {
      if !step.FillStep? || y != step.x { assert Holds(w, y); }
    }
  }

  /** A step uses no node that was not in use, but for the one it fills, and writes the bytes of
      that one only. */
  lemma BytesKept(s: State, n: nat, step: Step, byPriority: bool)
    requires Inv(s, n) && Possible(s, step)
    ensures var s' := Do(s, step, byPriority);
            && (forall y :: InUse(s', y) ==> InUse(s, y) || (step.FillStep? && y == step.x))
            && (forall y :: y in s.msgs && !(step.FillStep? && y == step.x) ==> y in s'.msgs && s'.msgs[y].data == s.msgs[y].data)
            && (step.FillStep? ==> step.x in s'.msgs && s'.msgs[step.x].data == step.data)
  {
    hide Placed, WaitOk, NoneLost, Link, LinkFirst, TakeFirst, TakeFree, Pushed;
    match step
    case LinkStep(x, prio) => LinkWrites(s, x, prio, byPriority);
    case UrgentStep(x) => UrgentWrites(s, x);
    case ReceiveStep(t, wait, at) => ReceiveWrites(s, t, wait, at);
    case TakeStep(t, wait, at) => TakeWrites(s, t, wait, at);
    case _ =>
  }

  lemma UrgentWrites(s: State, x: nat)
    requires InUse(s, x)
    ensures var s' := LinkFirst(s, x); s'.msgs == s.msgs && forall y :: InUse(s', y) ==> InUse(s, y)
  {
  }

  lemma ReceiveWrites(s: State, t: nat, wait: bool, at: nat)
    requires at <= |s.receivers.list|
    ensures var s' := TakeFirst(s, t, wait, at).0; s'.msgs == s.msgs && forall y :: InUse(s', y) ==> InUse(s, y)
  {
  }

  lemma TakeWrites(s: State, t: nat, wait: bool, at: nat)
    requires at <= |s.senders.list|
    ensures var s' := TakeFree(s, t, wait, at).0; s'.msgs == s.msgs && forall y :: InUse(s', y) ==> InUse(s, y)
  {
  }

  /** Linking keeps the bytes of every node. */
  lemma LinkWrites(s: State, x: nat, prio: int, byPriority: bool)
    requires Written(s) && x in s.msgs
    ensures var s' := Link(s, x, prio, byPriority);
            && s'.hands == s.hands - {x} && (forall y :: y in s'.queue ==> y in s.queue || y == x)
            && forall y :: y in s.msgs ==> y in s'.msgs && s'.msgs[y].data == s.msgs[y].data
  {
    hide PrioPlace, Contents;
  }

  lemma ConservedKept(w: World, n: nat, step: Step, byPriority: bool)
    requires Inv(w.s, n) && Conserved(w) && Possible(w.s, step)
    ensures Inv(Advance(w, step, byPriority).s, n) && Conserved(Advance(w, step, byPriority))
  {
    hide Inv, Data, Do, InsertAt, Written;
    InvWritten(w.s, n);
    DoMoves(w.s, n, step, byPriority);
    var s' := Do(w.s, step, byPriority);
    InvWritten(s', n);
    Balance(w.s, step, s', w.linked, w.received, w.dropped);
  }

  /** The books balance after a step if they did before. */
  lemma Balance(s: State, step: Step, s': State, linked: seq<Bytes>, received: seq<Bytes>, dropped: multiset<Bytes>)
    requires Written(s) && Written(s') && Possible(s, step) && DataMoves(s, step, s')
    requires multiset(linked) == multiset(received) + multiset(Data(s)) + dropped
    ensures step.LinkStep? || step.UrgentStep? ==>
      multiset(linked + [s.msgs[step.x].data]) == multiset(received) + multiset(Data(s')) + dropped
    ensures step.ReceiveStep? && s.queue != [] ==>
      multiset(linked) == multiset(received + [s.msgs[s.queue[0]].data]) + multiset(Data(s')) + dropped
    ensures step.ResetStep? ==> multiset(linked) == multiset(received) + multiset(Data(s')) + (dropped + multiset(Data(s)))
  {
    hide InsertAt, Data;
    if step.LinkStep? {
      var d := s.msgs[step.x].data;
      var k :| 0 <= k <= |Data(s)| && Data(s') == InsertAt(Data(s), k, d);
      InsertCounts(Data(s), k, d);
      LinkBalance(linked, received, dropped, Data(s), Data(s'), d);
    } else if step.UrgentStep? {
      LinkBalance(linked, received, dropped, Data(s), Data(s'), s.msgs[step.x].data);
    } else if step.ReceiveStep? && s.queue != [] {
      ReceiveBalance(linked, received, dropped, Data(s), Data(s'), s.msgs[s.queue[0]].data);
    }
  }

  lemma LinkBalance(linked: seq<Bytes>, received: seq<Bytes>, dropped: multiset<Bytes>, a: seq<Bytes>, b: seq<Bytes>, d: Bytes)
    requires multiset(linked) == multiset(received) + multiset(a) + dropped && multiset(b) == multiset(a) + multiset{d}
    ensures multiset(linked + [d]) == multiset(received) + multiset(b) + dropped
  {
  }

  lemma ReceiveBalance(linked: seq<Bytes>, received: seq<Bytes>, dropped: multiset<Bytes>, a: seq<Bytes>, b: seq<Bytes>, d: Bytes)
    requires multiset(linked) == multiset(received) + multiset(a) + dropped && a == [d] + b
    ensures multiset(linked) == multiset(received + [d]) + multiset(b) + dropped
  {
  }

  lemma InvWritten(s: State, n: nat)
    requires Inv(s, n)
    ensures Written(s)
  {
  }

  lemma InsertCounts(a: seq<Bytes>, k: nat, d: Bytes)
    requires k <= |a|
    ensures multiset(InsertAt(a, k, d)) == multiset(a) + multiset{d}
  {
    assert a == a[..k] + a[k..];
  }

  /** First in, first out: what was linked is what was received and then what is queued. */
  ghost predicate Fifo(w: World)
    requires Written(w.s)
  {
    w.linked == w.received + Data(w.s)
  }

  lemma FifoKept(w: World, n: nat, step: Step)
    requires Inv(w.s, n) && Fifo(w) && Possible(w.s, step) && !step.UrgentStep? && !step.ResetStep?
    ensures Written(Advance(w, step, false).s) && Fifo(Advance(w, step, false))
  {
    hide Inv, Data, Do;
    InvWritten(w.s, n);
    DoMoves(w.s, n, step, false);
    var s' := Do(w.s, step, false);
    InvWritten(s', n);
    if step.LinkStep? {
      AppendMoves(w.s, n, step, s');
      AppendLast(w.received, Data(w.s), w.s.msgs[step.x].data);
    } else if step.ReceiveStep? && w.s.queue != [] {
      AppendFirst(w.received, w.s.msgs[w.s.queue[0]].data, Data(s'));
    } else {
      assert Data(s') == Data(w.s) by { SameData(w.s, step, s'); }
    }
  }

  lemma AppendMoves(s: State, n: nat, step: Step, s': State)
    requires Inv(s, n) && step.LinkStep? && Possible(s, step) && s' == Do(s, step, false)
    ensures Written(s') && Data(s') == Data(s) + [s.msgs[step.x].data]
  {
    hide Data, Link;
    DoKeeps(s, n, step, false);
    LinkMoves(s, n, step.x, step.prio, false);
  }

  lemma SameData(s: State, step: Step, s': State)
    requires Written(s) && Written(s') && Possible(s, step) && DataMoves(s, step, s')
    requires !step.LinkStep? && !step.UrgentStep? && !step.ResetStep? && (step.ReceiveStep? ==> s.queue == [])
    ensures Data(s') == Data(s)
  {
  }

  lemma AppendLast(a: seq<Bytes>, b: seq<Bytes>, d: Bytes)
    ensures (a + b) + [d] == a + (b + [d])
  {
  }

  lemma AppendFirst(a: seq<Bytes>, d: Bytes, b: seq<Bytes>)
    ensures a + ([d] + b) == (a + [d]) + b
  {
  }

  /** Without urgent messages a queue ordered by priority stays so. */
  lemma DescendingKept(s: State, n: nat, step: Step)
    requires Inv(s, n) && Descending(Contents(s.queue, s.msgs)) && Possible(s, step) && !step.UrgentStep?
    ensures Written(Do(s, step, true)) && Descending(Contents(Do(s, step, true).queue, Do(s, step, true).msgs))
  {
    hide Placed, WaitOk, NoneLost, PrioPlace, InsertAt, Descending, Pushed;
    DoKeeps(s, n, step, true);
    match step
    case FillStep(x, data) =>
      HeldElsewhere(s.free, s.queue, s.hands.Keys, n, x);
      ContentsFrame(s.queue, s.msgs, x, Fill(s, x, data).msgs[x]);
    case LinkStep(x, prio) =>
      HeldElsewhere(s.free, s.queue, s.hands.Keys, n, x);
      var m := s.msgs[x].(prio := prio);
      ContentsFrame(s.queue, s.msgs, x, m);
      ContentsInsert(s.queue, s.msgs[x := m], PrioPlace(Contents(s.queue, s.msgs), prio), x);
      PrioInsertStable(Contents(s.queue, s.msgs), m);
    case ReceiveStep(t, wait, at) =>
      if s.queue != [] {
        ContentsTail(s.queue, s.msgs);
        DescendingTail(Contents(s.queue, s.msgs), Contents(s.queue[1..], s.msgs));
      }
    case ResetStep =>
      DescendingNone(s.msgs);
    case _ =>
  }

  lemma DescendingTail(ms: seq<Message>, rest: seq<Message>)
    requires Descending(ms) && ms != [] && ms == [ms[0]] + rest
    ensures Descending(rest)
  {
    assert forall i :: 0 <= i < |rest| ==> rest[i] == ms[i + 1];
  }

  lemma DescendingNone(msgs: map<nat, Message>)
    ensures Descending(Contents([], msgs))
  {
  }

  /** The free list rt_mq_init leaves. */
  function AllFree(n: nat): seq<nat> { if n == 0 then [] else [n] + AllFree(n - 1) }

  function Start(n: nat): State { State(AllFree(n), [], map[], map[], Waits([], {}), Waits([], {})) }

  lemma {:induction false} AllFreePlaced(n: nat)
    ensures Placed(AllFree(n), [], {}, n)
  {
    if n > 0 {
      AllFreePlaced(n - 1);
      DistinctCons(n, AllFree(n - 1));
    }
  }

  lemma StartOk(n: nat)
    ensures WorldOk(World(Start(n), map[], [], [], multiset{}), n)
  {
    AllFreePlaced(n);
  }

  ghost predicate Advances(w: World, step: Step, byPriority: bool, w': World) {
    Written(w.s) ==> Possible(w.s, step) && w' == Advance(w, step, byPriority)
  }

  ghost predicate Execution(worlds: seq<World>, steps: seq<Step>, n: nat, byPriority: bool) {
    && |worlds| == |steps| + 1 && worlds[0] == World(Start(n), map[], [], [], multiset{})
    && forall i, j :: 0 <= i < |steps| && j == i + 1 ==> Advances(worlds[i], steps[i], byPriority, worlds[j])
  }

  /** Over every interleaving: each node is in exactly one place, no wake-up is lost, a node holds
      what its sender copied into it until its receiver has read it, and no message is lost, made
      up or received twice. */
  lemma {:induction false} RunOk(worlds: seq<World>, steps: seq<Step>, n: nat, byPriority: bool, k: nat)
    requires Execution(worlds, steps, n, byPriority) && k <= |steps|
    ensures WorldOk(worlds[k], n)
  {
    hide Inv, Intact, Conserved, Possible, Advance, Start, Written;
    if k == 0 {
      StartOk(n);
    } else {
      RunOk(worlds, steps, n, byPriority, k - 1);
      assert Advances(worlds[k - 1], steps[k - 1], byPriority, worlds[k]);
      InvWritten(worlds[k - 1].s, n);
      IntactKept(worlds[k - 1], n, steps[k - 1], byPriority);
      ConservedKept(worlds[k - 1], n, steps[k - 1], byPriority);
    }
  }

  /** Messages are received in the order they were linked, if none is urgent and the queue is not
      ordered by priority or reset. */
  lemma {:induction false} RunIsFifo(worlds: seq<World>, steps: seq<Step>, n: nat, k: nat)
    requires Execution(worlds, steps, n, false) && k <= |steps|
    requires forall i :: 0 <= i < k ==> !steps[i].UrgentStep? && !steps[i].ResetStep?
    ensures Written(worlds[k].s) && worlds[k].received <= worlds[k].linked
    ensures worlds[k].linked == worlds[k].received + Data(worlds[k].s)
  {
    hide Inv, Intact, Conserved, Possible, Advance, Written, Data;
    if k == 0 {
      StartOk(n);
      InvWritten(worlds[0].s, n);
      NoData(worlds[0].s);
    } else {
      RunIsFifo(worlds, steps, n, k - 1);
      RunOk(worlds, steps, n, false, k - 1);
      assert Advances(worlds[k - 1], steps[k - 1], false, worlds[k]);
      FifoKept(worlds[k - 1], n, steps[k - 1]);
    }
  }

  lemma NoData(s: State)
    requires s.queue == []
    ensures Data(s) == []
  {
  }

  /** A queue ordered by priority is in descending order in every state of every run without urgent
      messages. */
  lemma {:induction false} RunIsDescending(worlds: seq<World>, steps: seq<Step>, n: nat, k: nat)
    requires Execution(worlds, steps, n, true) && k <= |steps|
    requires forall i :: 0 <= i < k ==> !steps[i].UrgentStep?
    ensures Written(worlds[k].s) && Descending(Contents(worlds[k].s.queue, worlds[k].s.msgs))
  {
    hide Inv, Intact, Conserved, Possible, Do, Written, Contents, Descending;
    if k == 0 {
      StartOk(n);
      InvWritten(worlds[0].s, n);
      DescendingNone(map[]);
    } else {
      RunIsDescending(worlds, steps, n, k - 1);
      RunOk(worlds, steps, n, true, k - 1);
      assert Advances(worlds[k - 1], steps[k - 1], true, worlds[k]);
      DescendingKept(worlds[k - 1].s, n, steps[k - 1]);
    }
  }

  /** Once every woken thread has run, nobody waits for a message or a node that is there. */
  lemma NobodyForgotten(s: State, n: nat)
    requires Inv(s, n)
    ensures s.receivers.woken == {} && s.queue != [] ==> s.receivers.list == []
    ensures s.senders.woken == {} && s.free != [] ==> s.senders.list == []
  {
  }
}
