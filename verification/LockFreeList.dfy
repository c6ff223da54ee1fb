/** The lock-free single list of rt-thread/include/rtatomic.h: any number of threads run the
    enqueue and dequeue loops, interleaved at every load, store and compare-exchange. */
module LockFreeList {

  const NULL: nat := 0

  /** Where a thread stands.  `exp` is what it last saw in l->next. */
  datatype Pc =
    | Idle
    | EnqStore(node: nat, exp: nat)     // about to write n->next
    | EnqSwap(node: nat, exp: nat)      // about to compare-exchange
    | DeqTest(exp: nat)                 // about to test head
    | DeqNext(exp: nat)                 // about to load head->next
    | DeqSwap(exp: nat, next: nat)      // about to compare-exchange

  /** `stack` is what the list is meant to hold; no step reads it. */
  datatype State = State(head: nat, next: map<nat, nat>, pcs: map<nat, Pc>, stack: seq<nat>)

  /** What a step amounts to for the callers: where an operation takes effect. */
  datatype Event = Push(node: nat) | Pop(node: nat) | PopEmpty | Silent

  datatype Action = Enqueue(node: nat) | Dequeue | Go

  /** The list reads as the stack from the head on. */
  ghost predicate Chain(head: nat, next: map<nat, nat>, stack: seq<nat>)
    decreases |stack|
  {
    if stack == [] then head == NULL
    else head == stack[0] && head != NULL && head in next && head !in stack[1..] && Chain(next[head], next, stack[1..])
  }

  /** The node a dequeue has seen at the head and may yet take. */
  predicate Holds(pc: Pc, n: nat) {
    (pc.DeqTest? || pc.DeqNext? || pc.DeqSwap?) && pc.exp == n
  }

  predicate Enqueues(pc: Pc, n: nat) {
    (pc.EnqStore? || pc.EnqSwap?) && pc.node == n
  }

  /** A caller owns a node that is not in the list and in nobody's enqueue. */
  ghost predicate Owned(s: State, n: nat) {
    n != NULL && n !in s.stack && forall t :: t in s.pcs ==> !Enqueues(s.pcs[t], n)
  }

  /** No dequeue that has seen the node is still in flight. */
  ghost predicate Unseen(s: State, n: nat) {
    forall t :: t in s.pcs ==> !Holds(s.pcs[t], n)
  }

  ghost predicate Possible(s: State, t: nat, a: Action) {
    && t in s.pcs
    && match a
       case Enqueue(n) => s.pcs[t] == Idle && Owned(s, n)
       case Dequeue => s.pcs[t] == Idle
       case Go => s.pcs[t] != Idle && (s.pcs[t].DeqNext? ==> s.pcs[t].exp in s.next)
  }

  function At(s: State, t: nat, pc: Pc): State { s.(pcs := s.pcs[t := pc]) }

  /** A dequeue has loaded the head, first or by a compare-exchange that failed. */
  function Load(s: State, t: nat): (State, Event) {
    (At(s, t, DeqTest(s.head)), if s.head == NULL then PopEmpty else Silent)
  }

  function Next(s: State, t: nat, a: Action): (State, Event)
    requires Possible(s, t, a)
  {
    match a
    case Enqueue(n) => (At(s, t, EnqStore(n, s.head)), Silent)
    case Dequeue => Load(s, t)
    case Go =>
      match s.pcs[t]
      case EnqStore(n, exp) => (At(s, t, EnqSwap(n, exp)).(next := s.next[n := exp]), Silent)
      case EnqSwap(n, exp) =>
        if s.head == exp then (At(s, t, Idle).(head := n, stack := [n] + s.stack), Push(n))
        else (At(s, t, EnqStore(n, s.head)), Silent)
      case DeqTest(exp) => (At(s, t, if exp == NULL then Idle else DeqNext(exp)), Silent)
      case DeqNext(exp) => (At(s, t, DeqSwap(exp, s.next[exp])), Silent)
      case DeqSwap(exp, nx) =>
        if s.head == exp then (At(s, t, Idle).(head := nx, stack := if s.stack == [] then [] else s.stack[1..]), Pop(exp))
        else Load(s, t)
  }

  /** A link that an operation in flight has written or read is still there. */
  ghost predicate PcOk(s: State, t: nat)
    requires t in s.pcs
  {
    match s.pcs[t]
    case Idle => true
    case EnqStore(n, _) => n != NULL && n !in s.stack
    case EnqSwap(n, exp) => n != NULL && n !in s.stack && n in s.next && s.next[n] == exp
    case DeqTest(exp) => exp != NULL ==> exp in s.next
    case DeqNext(exp) => exp != NULL && exp in s.next
    case DeqSwap(exp, nx) => exp != NULL && exp in s.next && s.next[exp] == nx
  }

  ghost predicate Apart(s: State, t: nat, u: nat)
    requires t in s.pcs && u in s.pcs
  {
    forall n :: n != NULL && t != u && Enqueues(s.pcs[t], n) ==> !Enqueues(s.pcs[u], n) && !Holds(s.pcs[u], n)
  }

  ghost predicate Inv(s: State) {
    && Chain(s.head, s.next, s.stack)
    && (forall t :: t in s.pcs ==> PcOk(s, t))
    && (forall t, u :: t in s.pcs && u in s.pcs ==> Apart(s, t, u))
  }

  /** The effect of an operation on the stack, at the step where it takes effect. */
  ghost predicate Linearizes(was: seq<nat>, e: Event, now: seq<nat>) {
    match e
    case Push(n) => now == [n] + was
    case Pop(n) => was != [] && n == was[0] && now == was[1..]
    case PopEmpty => was == [] && now == []
    case Silent => now == was
  }

  /** Writing the link of a node outside the list does not change the list. */
  lemma {:induction false} ChainFrame(head: nat, next: map<nat, nat>, stack: seq<nat>, n: nat, x: nat)
    requires Chain(head, next, stack) && n !in stack
    ensures Chain(head, next[n := x], stack)
    decreases |stack|
  {
    if stack != [] { ChainFrame(next[head], next, stack[1..], n, x); }
  }

  // -------------------------------------------------------------------------------------
  // Exactly when a step is right
  // -------------------------------------------------------------------------------------

  /** What holds without any condition on the reuse of nodes: a link that a dequeue has read may
      have changed since. */
  ghost predicate LinkOk(s: State, t: nat)
    requires t in s.pcs
  {
    match s.pcs[t]
    case Idle => true
    case EnqStore(n, _) => n != NULL && n !in s.stack
    case EnqSwap(n, exp) => n != NULL && n !in s.stack && n in s.next && s.next[n] == exp
    case DeqTest(exp) => exp != NULL ==> exp in s.next
    case DeqNext(exp) => exp != NULL && exp in s.next
    case DeqSwap(exp, _) => exp != NULL && exp in s.next
  }

  ghost predicate NodesApart(s: State, t: nat, u: nat)
    requires t in s.pcs && u in s.pcs
  {
    forall n :: n != NULL && t != u && Enqueues(s.pcs[t], n) ==> !Enqueues(s.pcs[u], n)
  }

  ghost predicate InOrder(s: State) {
    && Chain(s.head, s.next, s.stack)
    && (forall t :: t in s.pcs ==> LinkOk(s, t))
    && (forall t, u :: t in s.pcs && u in s.pcs ==> NodesApart(s, t, u))
  }

  /** A compare-exchange of a dequeue that succeeds although the link it read has changed. */
  ghost predicate Stale(s: State, t: nat, a: Action) {
    && t in s.pcs && a.Go? && s.pcs[t].DeqSwap? && s.head == s.pcs[t].exp && s.head in s.next
    && s.next[s.head] != s.pcs[t].next
  }

  /** A step keeps the list in order and acts on it as on a stack if and only if it is no
      compare-exchange that succeeds on a stale link. */
  lemma StepExactIff(s: State, t: nat, a: Action)
    requires InOrder(s) && Possible(s, t, a)
    ensures var (s', e) := Next(s, t, a); InOrder(s') && Linearizes(s.stack, e, s'.stack) <==> !Stale(s, t, a)
  {
    hide InOrder, Chain, LinkOk, NodesApart;
    OrderParts(s, t);
    if Stale(s, t, a) {
      SwapExactIff(s, t);
      NotInOrder(Next(s, t, a).0);
    } else {
      StepChain(s, t, a);
      StepLinks(s, t, a);
      StepNodes(s, t, a);
      OrderOf(Next(s, t, a).0);
    }
  }

  lemma OrderParts(s: State, t: nat)
    requires InOrder(s) && t in s.pcs
    ensures Chain(s.head, s.next, s.stack) && LinkOk(s, t)
    ensures s.pcs[t].DeqSwap? ==> s.pcs[t].exp != NULL
  {
  }

  lemma NotInOrder(s: State)
    requires !Chain(s.head, s.next, s.stack)
    ensures !InOrder(s)
  {
  }

  lemma OrderOf(s: State)
    requires Chain(s.head, s.next, s.stack) && (forall t :: t in s.pcs ==> LinkOk(s, t))
    requires forall t, u :: t in s.pcs && u in s.pcs ==> NodesApart(s, t, u)
    ensures InOrder(s)
  {
  }

  lemma StepChain(s: State, t: nat, a: Action)
    requires InOrder(s) && Possible(s, t, a) && !Stale(s, t, a)
    ensures var (s', e) := Next(s, t, a); Chain(s'.head, s'.next, s'.stack) && Linearizes(s.stack, e, s'.stack)
  {
    assert LinkOk(s, t);
    if a.Go? && s.pcs[t].EnqStore? {
      ChainFrame(s.head, s.next, s.stack, s.pcs[t].node, s.pcs[t].exp);
    }
  }

  lemma StepLinks(s: State, t: nat, a: Action)
    requires InOrder(s) && Possible(s, t, a)
    ensures var s' := Next(s, t, a).0; forall u :: u in s'.pcs ==> LinkOk(s', u)
  {
    var s' := Next(s, t, a).0;
    assert LinkOk(s, t);
    forall u | u in s'.pcs ensures LinkOk(s', u) {
      assert LinkOk(s, u) && NodesApart(s, t, u);
      assert s.pcs[t].EnqStore? || s.pcs[t].EnqSwap? ==> Enqueues(s.pcs[t], s.pcs[t].node);
    }
  }

  lemma StepNodes(s: State, t: nat, a: Action)
    requires InOrder(s) && Possible(s, t, a)
    ensures var s' := Next(s, t, a).0; forall u, v :: u in s'.pcs && v in s'.pcs ==> NodesApart(s', u, v)
  {
    var s' := Next(s, t, a).0;
    forall u, v | u in s'.pcs && v in s'.pcs ensures NodesApart(s', u, v) {
      assert NodesApart(s, u, v);
    }
  }

  // -------------------------------------------------------------------------------------
  // With the condition on reuse
  // -------------------------------------------------------------------------------------

  /** The condition rules stale links out. */
  lemma NeverStale(s: State, t: nat, a: Action)
    requires Inv(s)
    ensures InOrder(s) && !Stale(s, t, a)
  {
    forall u | u in s.pcs ensures LinkOk(s, u) { assert PcOk(s, u); }
    forall u, v | u in s.pcs && v in s.pcs ensures NodesApart(s, u, v) { assert Apart(s, u, v); }
  }

  /** No other thread has the node a thread is enqueueing. */
  lemma NodeApart(s: State, t: nat, u: nat)
    requires Inv(s) && t in s.pcs && u in s.pcs && t != u && (s.pcs[t].EnqStore? || s.pcs[t].EnqSwap?)
    ensures s.pcs[t].node != NULL && !Enqueues(s.pcs[u], s.pcs[t].node) && !Holds(s.pcs[u], s.pcs[t].node)
  {
    assert PcOk(s, t) && Apart(s, t, u) && Enqueues(s.pcs[t], s.pcs[t].node);
  }

  lemma StepPcs(s: State, t: nat, a: Action)
    requires Inv(s) && Possible(s, t, a) && (a.Enqueue? ==> Unseen(s, a.node))
    ensures var s' := Next(s, t, a).0; forall u :: u in s'.pcs ==> PcOk(s', u)
  {
    var s' := Next(s, t, a).0;
    assert PcOk(s, t);
    forall u | u in s'.pcs ensures PcOk(s', u) {
      assert PcOk(s, u);
      if u != t && (s.pcs[t].EnqStore? || s.pcs[t].EnqSwap?) { NodeApart(s, t, u); }
    }
  }

  lemma StepApart(s: State, t: nat, a: Action)
    requires Inv(s) && Possible(s, t, a) && (a.Enqueue? ==> Unseen(s, a.node))
    ensures var s' := Next(s, t, a).0; forall u, v :: u in s'.pcs && v in s'.pcs ==> Apart(s', u, v)
  {
    var s' := Next(s, t, a).0;
    assert PcOk(s, t);
    forall u, v | u in s'.pcs && v in s'.pcs ensures Apart(s', u, v) {
      assert PcOk(s, u) && PcOk(s, v) && Apart(s, u, v);
    }
  }

  /** If no node is enqueued again while a dequeue that has seen it is in flight, every step of
      every interleaving keeps the list in order and acts on it as on a stack. */
  lemma StepOk(s: State, t: nat, a: Action)
    requires Inv(s) && Possible(s, t, a) && (a.Enqueue? ==> Unseen(s, a.node))
    ensures var (s', e) := Next(s, t, a); Inv(s') && Linearizes(s.stack, e, s'.stack)
  {
    hide Inv, Chain, PcOk, Apart, Stale;
    NeverStale(s, t, a);
    StepExactIff(s, t, a);
    OrderChain(Next(s, t, a).0);
    StepPcs(s, t, a);
    StepApart(s, t, a);
    InvOf(Next(s, t, a).0);
  }

  lemma OrderChain(s: State)
    requires InOrder(s)
    ensures Chain(s.head, s.next, s.stack)
  {
  }

  lemma InvOf(s: State)
    requires Chain(s.head, s.next, s.stack) && (forall t :: t in s.pcs ==> PcOk(s, t))
    requires forall t, u :: t in s.pcs && u in s.pcs ==> Apart(s, t, u)
    ensures Inv(s)
  {
  }

  // -------------------------------------------------------------------------------------
  // Runs
  // -------------------------------------------------------------------------------------

  datatype Choice = Choice(thread: nat, action: Action)

  /** The condition on callers that makes reuse of nodes safe. */
  ghost predicate Disciplined(s: State, c: Choice) {
    Possible(s, c.thread, c.action) && (c.action.Enqueue? ==> Unseen(s, c.action.node))
  }

  ghost predicate Execution(states: seq<State>, cs: seq<Choice>, es: seq<Event>) {
    && |states| == |cs| + 1 && |es| == |cs|
    && forall i, j :: 0 <= i < |cs| && j == i + 1 ==>
         Transition(states[i], cs[i], es[i], states[j])
  }

  ghost predicate Transition(s: State, c: Choice, e: Event, s': State) {
    Disciplined(s, c) && (s', e) == Next(s, c.thread, c.action)
  }

  /** What a sequential stack holds after the operations, in the order they take effect; None
      if one of the results would be wrong. */
  datatype Outcome = Wrong | Holding(stack: seq<nat>)

  function Replay(es: seq<Event>, start: seq<nat>): Outcome {
    if es == [] then Holding(start) else
      var n := |es| - 1;
      match Replay(es[..n], start)
      case Wrong => Wrong
      case Holding(st) =>
        match es[n]
        case Push(x) => Holding([x] + st)
        case Pop(x) => if st != [] && st[0] == x then Holding(st[1..]) else Wrong
        case PopEmpty => if st == [] then Holding(st) else Wrong
        case Silent => Holding(st)
  }

  /** Every interleaving is linearizable to a stack: replaying the operations one at a time in the
      order they take effect gives every result they returned and the list they left. */
  lemma {:induction false} RunIsStack(states: seq<State>, cs: seq<Choice>, es: seq<Event>, k: nat)
    requires Execution(states, cs, es) && Inv(states[0]) && k <= |cs|
    ensures Inv(states[k]) && Replay(es[..k], states[0].stack) == Holding(states[k].stack)
  {
    hide Inv;
    if k > 0 {
      RunIsStack(states, cs, es, k - 1);
      assert Transition(states[k - 1], cs[k - 1], es[k - 1], states[k]);
      StepOk(states[k - 1], cs[k - 1].thread, cs[k - 1].action);
      assert es[..k][..k - 1] == es[..k - 1];
    }
  }

  function Fresh(threads: set<nat>): State { State(NULL, map[], map t | t in threads :: Idle, []) }

  lemma EmptyInv(threads: set<nat>)
    ensures Inv(Fresh(threads)) && InOrder(Fresh(threads))
  {
  }

  /** A run under no condition on reuse. */
  ghost predicate FreeRun(states: seq<State>, cs: seq<Choice>, es: seq<Event>) {
    && |states| == |cs| + 1 && |es| == |cs|
    && forall i, j :: 0 <= i < |cs| && j == i + 1 ==> FreeTransition(states[i], cs[i], es[i], states[j])
  }

  ghost predicate FreeTransition(s: State, c: Choice, e: Event, s': State) {
    Possible(s, c.thread, c.action) && (s', e) == Next(s, c.thread, c.action)
  }

  ghost predicate StaleAt(states: seq<State>, cs: seq<Choice>, i: nat)
    requires i < |cs| && |states| == |cs| + 1
  {
    Stale(states[i], cs[i].thread, cs[i].action)
  }

  /** Up to step k the list is in order and replaying the operations on a stack gives every result. */
  ghost predicate StackUpTo(states: seq<State>, es: seq<Event>, k: nat)
    requires k <= |es| && |states| == |es| + 1
  {
    forall j :: 0 <= j <= k ==> StackAt(states, es, j)
  }

  ghost predicate StackAt(states: seq<State>, es: seq<Event>, j: nat)
    requires j <= |es| && |states| == |es| + 1
  {
    InOrder(states[j]) && Replay(es[..j], states[0].stack) == Holding(states[j].stack)
  }

  /** A run of any interleaving is a run of a stack exactly as long as no compare-exchange succeeds
      on a stale link. */
  lemma {:induction false} RunExactIff(states: seq<State>, cs: seq<Choice>, es: seq<Event>, k: nat)
    requires FreeRun(states, cs, es) && InOrder(states[0]) && k <= |cs|
    ensures StackUpTo(states, es, k) <==> forall i :: 0 <= i < k ==> !StaleAt(states, cs, i)
  {
    hide InOrder, Stale;
    if k == 0 {
      assert StackAt(states, es, 0);
    } else {
      RunExactIff(states, cs, es, k - 1);
      assert FreeTransition(states[k - 1], cs[k - 1], es[k - 1], states[k]);
      if StackUpTo(states, es, k - 1) {
        assert StackAt(states, es, k - 1);
        StepExactIff(states[k - 1], cs[k - 1].thread, cs[k - 1].action);
        assert es[..k][..k - 1] == es[..k - 1];
        ReplayStep(states, cs, es, k);
        assert StackAt(states, es, k) <==> !StaleAt(states, cs, k - 1);
      } else {
        assert !StackUpTo(states, es, k);
      }
    }
  }

  /** Where the next state is in order and its step acts as on a stack, the replay goes on. */
  lemma ReplayStep(states: seq<State>, cs: seq<Choice>, es: seq<Event>, k: nat)
    requires FreeRun(states, cs, es) && 0 < k <= |cs| && StackAt(states, es, k - 1)
    ensures InOrder(states[k]) && Linearizes(states[k - 1].stack, es[k - 1], states[k].stack) <==> StackAt(states, es, k)
  {
    hide InOrder;
    assert es[..k][..k - 1] == es[..k - 1];
    assert FreeTransition(states[k - 1], cs[k - 1], es[k - 1], states[k]);
    assert StackAt(states, es, k) ==> Replay(es[..k], states[0].stack) == Holding(states[k].stack);
  }

  // -------------------------------------------------------------------------------------
  // The condition on reuse
  // -------------------------------------------------------------------------------------

  /** Only thread c dequeues, so what it has seen stays in the list until it takes it. */
  ghost predicate OneConsumer(s: State, c: nat) {
    forall t :: t in s.pcs ==> Settled(s, c, t)
  }

  ghost predicate Settled(s: State, c: nat, t: nat)
    requires t in s.pcs
  {
    forall n :: n != NULL && Holds(s.pcs[t], n) ==> t == c && n in s.stack
  }

  lemma OneConsumerSafe(s: State, c: nat, n: nat)
    requires OneConsumer(s, c) && Owned(s, n)
    ensures Unseen(s, n)
  {
    forall t | t in s.pcs ensures !Holds(s.pcs[t], n) {
      assert Settled(s, c, t);
    }
  }

  /** With a single consumer the condition on reuse holds of itself. */
  lemma OneConsumerStep(s: State, c: nat, t: nat, a: Action)
    requires Inv(s) && OneConsumer(s, c) && Possible(s, t, a) && (a.Dequeue? ==> t == c)
    ensures Disciplined(s, Choice(t, a)) && OneConsumer(Next(s, t, a).0, c)
  {
    if a.Enqueue? { OneConsumerSafe(s, c, a.node); }
    assert PcOk(s, t);
    HeadListed(s);
    if a.Go? && s.pcs[t].DeqSwap? { HolderIs(s, c, t, s.pcs[t].exp); }
    var s' := Next(s, t, a).0;
    forall u | u in s'.pcs ensures Settled(s', c, u) {
      assert Settled(s, c, u);
    }
  }

  lemma HolderIs(s: State, c: nat, t: nat, n: nat)
    requires OneConsumer(s, c) && t in s.pcs && n != NULL && Holds(s.pcs[t], n)
    ensures t == c
  {
    assert Settled(s, c, t);
  }

  lemma HeadListed(s: State)
    requires Inv(s)
    ensures s.head != NULL ==> s.stack != [] && s.head == s.stack[0]
  {
  }

  lemma {:induction false} ChainHead(head: nat, next: map<nat, nat>, other: nat, stack: seq<nat>)
    requires Chain(head, next, stack) && Chain(other, next, stack)
    ensures head == other
  {
  }

  /** A dequeue's compare-exchange that succeeds leaves the list in order exactly when the link it
      read is still the one in the node. */
  lemma SwapExactIff(s: State, t: nat)
    requires Chain(s.head, s.next, s.stack) && Possible(s, t, Go) && s.pcs[t].DeqSwap? && s.head == s.pcs[t].exp != NULL
    ensures var s' := Next(s, t, Go).0; Chain(s'.head, s'.next, s'.stack) <==> s.next[s.head] == s.pcs[t].next
  {
    var s' := Next(s, t, Go).0;
    if Chain(s'.head, s'.next, s'.stack) { ChainHead(s'.head, s.next, s.next[s.head], s.stack[1..]); }
  }

  /** A run that leads from one state to another under no condition on reuse. */
  ghost predicate Leads(s: State, cs: seq<Choice>, s': State)
    decreases |cs|
  {
    if cs == [] then s == s'
    else Possible(s, cs[0].thread, cs[0].action) && Leads(Next(s, cs[0].thread, cs[0].action).0, cs[1..], s')
  }

  lemma Then(s: State, c: Choice, mid: State, cs: seq<Choice>, s': State)
    requires Possible(s, c.thread, c.action) && Next(s, c.thread, c.action).0 == mid && Leads(mid, cs, s')
    ensures Leads(s, [c] + cs, s')
  {
    assert ([c] + cs)[1..] == cs;
  }

  function Linked(): State { State(1, map[1 := 2, 2 := 0], map[0 := Idle, 1 := Idle], [1, 2]) }

  function FirstSeen(): State { State(1, map[1 := 2, 2 := 0], map[0 := DeqSwap(1, 2), 1 := Idle], [1, 2]) }

  function OneTaken(): State { State(2, map[1 := 2, 2 := 0], map[0 := DeqSwap(1, 2), 1 := Idle], [2]) }

  /** Thread 0 is about to take node 1, whose link to node 2 it has read; meanwhile both were
      taken by thread 1. */
  function BeforeReuse(): State { State(0, map[1 := 2, 2 := 0], map[0 := DeqSwap(1, 2), 1 := Idle], []) }

  function Reused(): State { State(1, map[1 := 0, 2 := 0], map[0 := DeqSwap(1, 2), 1 := Idle], [1]) }

  /** Thread 1 enqueues node 2 and then node 1. */
  lemma LinkedReached() returns (cs: seq<Choice>)
    ensures Leads(Fresh({0, 1}), cs, Linked())
  {
    assert Fresh({0, 1}) == State(0, map[], map[0 := Idle, 1 := Idle], []);
    cs := [];
    Then(State(2, map[1 := 2, 2 := 0], map[0 := Idle, 1 := EnqSwap(1, 2)], [2]), Choice(1, Go), State(1, map[1 := 2, 2 := 0], map[0 := Idle, 1 := Idle], [1, 2]), cs, Linked());
    cs := [Choice(1, Go)] + cs;
    Then(State(2, map[2 := 0], map[0 := Idle, 1 := EnqStore(1, 2)], [2]), Choice(1, Go), State(2, map[1 := 2, 2 := 0], map[0 := Idle, 1 := EnqSwap(1, 2)], [2]), cs, Linked());
    cs := [Choice(1, Go)] + cs;
    Then(State(2, map[2 := 0], map[0 := Idle, 1 := Idle], [2]), Choice(1, Enqueue(1)), State(2, map[2 := 0], map[0 := Idle, 1 := EnqStore(1, 2)], [2]), cs, Linked());
    cs := [Choice(1, Enqueue(1))] + cs;
    Then(State(0, map[2 := 0], map[0 := Idle, 1 := EnqSwap(2, 0)], []), Choice(1, Go), State(2, map[2 := 0], map[0 := Idle, 1 := Idle], [2]), cs, Linked());
    cs := [Choice(1, Go)] + cs;
    Then(State(0, map[], map[0 := Idle, 1 := EnqStore(2, 0)], []), Choice(1, Go), State(0, map[2 := 0], map[0 := Idle, 1 := EnqSwap(2, 0)], []), cs, Linked());
    cs := [Choice(1, Go)] + cs;
    Then(State(0, map[], map[0 := Idle, 1 := Idle], []), Choice(1, Enqueue(2)), State(0, map[], map[0 := Idle, 1 := EnqStore(2, 0)], []), cs, Linked());
    cs := [Choice(1, Enqueue(2))] + cs;
  }

  /** Thread 0 reads the head and its link. */
  lemma FirstSeenReached() returns (cs: seq<Choice>)
    ensures Leads(Linked(), cs, FirstSeen())
  {
    cs := [];
    Then(State(1, map[1 := 2, 2 := 0], map[0 := DeqNext(1), 1 := Idle], [1, 2]), Choice(0, Go), State(1, map[1 := 2, 2 := 0], map[0 := DeqSwap(1, 2), 1 := Idle], [1, 2]), cs, FirstSeen());
    cs := [Choice(0, Go)] + cs;
    Then(State(1, map[1 := 2, 2 := 0], map[0 := DeqTest(1), 1 := Idle], [1, 2]), Choice(0, Go), State(1, map[1 := 2, 2 := 0], map[0 := DeqNext(1), 1 := Idle], [1, 2]), cs, FirstSeen());
    cs := [Choice(0, Go)] + cs;
    Then(State(1, map[1 := 2, 2 := 0], map[0 := Idle, 1 := Idle], [1, 2]), Choice(0, Dequeue), State(1, map[1 := 2, 2 := 0], map[0 := DeqTest(1), 1 := Idle], [1, 2]), cs, FirstSeen());
    cs := [Choice(0, Dequeue)] + cs;
  }

  /** Thread 1 dequeues node 1. */
  lemma OneTakenReached() returns (cs: seq<Choice>)
    ensures Leads(FirstSeen(), cs, OneTaken())
  {
    cs := [];
    Then(State(1, map[1 := 2, 2 := 0], map[0 := DeqSwap(1, 2), 1 := DeqSwap(1, 2)], [1, 2]), Choice(1, Go), State(2, map[1 := 2, 2 := 0], map[0 := DeqSwap(1, 2), 1 := Idle], [2]), cs, OneTaken());
    cs := [Choice(1, Go)] + cs;
    Then(State(1, map[1 := 2, 2 := 0], map[0 := DeqSwap(1, 2), 1 := DeqNext(1)], [1, 2]), Choice(1, Go), State(1, map[1 := 2, 2 := 0], map[0 := DeqSwap(1, 2), 1 := DeqSwap(1, 2)], [1, 2]), cs, OneTaken());
    cs := [Choice(1, Go)] + cs;
    Then(State(1, map[1 := 2, 2 := 0], map[0 := DeqSwap(1, 2), 1 := DeqTest(1)], [1, 2]), Choice(1, Go), State(1, map[1 := 2, 2 := 0], map[0 := DeqSwap(1, 2), 1 := DeqNext(1)], [1, 2]), cs, OneTaken());
    cs := [Choice(1, Go)] + cs;
    Then(State(1, map[1 := 2, 2 := 0], map[0 := DeqSwap(1, 2), 1 := Idle], [1, 2]), Choice(1, Dequeue), State(1, map[1 := 2, 2 := 0], map[0 := DeqSwap(1, 2), 1 := DeqTest(1)], [1, 2]), cs, OneTaken());
    cs := [Choice(1, Dequeue)] + cs;
  }

  /** Thread 1 dequeues node 2. */
  lemma BeforeReuseReached() returns (cs: seq<Choice>)
    ensures Leads(OneTaken(), cs, BeforeReuse())
  {
    cs := [];
    Then(State(2, map[1 := 2, 2 := 0], map[0 := DeqSwap(1, 2), 1 := DeqSwap(2, 0)], [2]), Choice(1, Go), State(0, map[1 := 2, 2 := 0], map[0 := DeqSwap(1, 2), 1 := Idle], []), cs, BeforeReuse());
    cs := [Choice(1, Go)] + cs;
    Then(State(2, map[1 := 2, 2 := 0], map[0 := DeqSwap(1, 2), 1 := DeqNext(2)], [2]), Choice(1, Go), State(2, map[1 := 2, 2 := 0], map[0 := DeqSwap(1, 2), 1 := DeqSwap(2, 0)], [2]), cs, BeforeReuse());
    cs := [Choice(1, Go)] + cs;
    Then(State(2, map[1 := 2, 2 := 0], map[0 := DeqSwap(1, 2), 1 := DeqTest(2)], [2]), Choice(1, Go), State(2, map[1 := 2, 2 := 0], map[0 := DeqSwap(1, 2), 1 := DeqNext(2)], [2]), cs, BeforeReuse());
    cs := [Choice(1, Go)] + cs;
    Then(State(2, map[1 := 2, 2 := 0], map[0 := DeqSwap(1, 2), 1 := Idle], [2]), Choice(1, Dequeue), State(2, map[1 := 2, 2 := 0], map[0 := DeqSwap(1, 2), 1 := DeqTest(2)], [2]), cs, BeforeReuse());
    cs := [Choice(1, Dequeue)] + cs;
  }

  /** Thread 1 enqueues node 1 again. */
  lemma ReusedReached() returns (cs: seq<Choice>)
    ensures Leads(BeforeReuse(), cs, Reused())
  {
    cs := [];
    Then(State(0, map[1 := 0, 2 := 0], map[0 := DeqSwap(1, 2), 1 := EnqSwap(1, 0)], []), Choice(1, Go), State(1, map[1 := 0, 2 := 0], map[0 := DeqSwap(1, 2), 1 := Idle], [1]), cs, Reused());
    cs := [Choice(1, Go)] + cs;
    Then(State(0, map[1 := 2, 2 := 0], map[0 := DeqSwap(1, 2), 1 := EnqStore(1, 0)], []), Choice(1, Go), State(0, map[1 := 0, 2 := 0], map[0 := DeqSwap(1, 2), 1 := EnqSwap(1, 0)], []), cs, Reused());
    cs := [Choice(1, Go)] + cs;
    Then(State(0, map[1 := 2, 2 := 0], map[0 := DeqSwap(1, 2), 1 := Idle], []), Choice(1, Enqueue(1)), State(0, map[1 := 2, 2 := 0], map[0 := DeqSwap(1, 2), 1 := EnqStore(1, 0)], []), cs, Reused());
    cs := [Choice(1, Enqueue(1))] + cs;
  }

  /** From the empty list two consumers come to a state in which thread 0 takes node 1 on a link that
      has changed: node 2, which nobody has enqueued, is left in the list. */
  lemma ReuseBreaks() returns (cs: seq<Choice>, end: State)
    ensures Leads(Fresh({0, 1}), cs, Reused()) && Possible(Reused(), 0, Go) && Stale(Reused(), 0, Go)
    ensures (end, Pop(1)) == Next(Reused(), 0, Go) && end.head == 2 && end.stack == [] && !InOrder(end)
  {
    hide Leads, Fresh, Linked, FirstSeen, OneTaken, BeforeReuse, Reused, InOrder;
    cs := LinkedReached();
    var next := FirstSeenReached();
    Joins(Fresh({0, 1}), cs, Linked(), next, FirstSeen());
    cs := cs + next;
    next := OneTakenReached();
    Joins(Fresh({0, 1}), cs, FirstSeen(), next, OneTaken());
    cs := cs + next;
    next := BeforeReuseReached();
    Joins(Fresh({0, 1}), cs, OneTaken(), next, BeforeReuse());
    cs := cs + next;
    next := ReusedReached();
    Joins(Fresh({0, 1}), cs, BeforeReuse(), next, Reused());
    cs := cs + next;
    end := LastSwap();
  }

  lemma LastSwap() returns (end: State)
    ensures Possible(Reused(), 0, Go) && Stale(Reused(), 0, Go)
    ensures (end, Pop(1)) == Next(Reused(), 0, Go) && end.head == 2 && end.stack == [] && !InOrder(end)
  {
    end := Next(Reused(), 0, Go).0;
    assert [1][1..] == [];
  }

  lemma {:induction false} Joins(s: State, a: seq<Choice>, mid: State, b: seq<Choice>, s': State)
    requires Leads(s, a, mid) && Leads(mid, b, s')
    ensures Leads(s, a + b, s')
    decreases |a|
  {
    if a == [] {
      assert a + b == b;
    } else {
      assert (a + b)[1..] == a[1..] + b;
      Joins(Next(s, a[0].thread, a[0].action).0, a[1..], mid, b, s');
    }
  }
}
