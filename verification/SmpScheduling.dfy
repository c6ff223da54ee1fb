/** The multi-core scheduler (rt-thread/src/scheduler_mp.c, scheduler_comm.c, thread.c) as a protocol:
    each step is one section under the scheduler lock, and a run interleaves the steps of all CPUs. */
module SmpScheduling {
  import opened Lists
  import opened ReadyIndex

  datatype Stat = Init | Suspended | Ready | Running | Closed

  /** The scheduling part of struct rt_thread. */
  class Tcb {
    var stat: Stat
    var yielded: bool          // RT_THREAD_STAT_YIELD
    var oncpu: nat             // RT_CPU_DETACHED is the number of CPUs
    var bindCpu: nat           // the number of CPUs means not bound
    var priority: nat
    const initTick: nat
    var remainingTick: nat

    constructor (priority: nat, tick: nat, cpus: nat)
      ensures stat == Init && !yielded && oncpu == bindCpu == cpus && this.priority == priority
      ensures initTick == remainingTick == tick
    {
      stat, yielded, oncpu, bindCpu := Init, false, cpus, cpus;
      this.priority, initTick, remainingTick := priority, tick, tick;
    }
  }

  datatype Rec = Rec(stat: Stat, yielded: bool, oncpu: nat, bind: nat, prio: nat, initTick: nat, remaining: nat)

  /** A priority table and its bitmap: one per CPU, and the global one last. */
  datatype Queue = Queue(table: seq<seq<Tcb>>, index: Index)

  datatype State = State(thr: map<Tcb, Rec>, queues: seq<Queue>, current: seq<Tcb?>) {
    function Cpus(): nat { |current| }

    ghost function WithRec(t: Tcb, r: Rec): State { this.(thr := thr[t := r]) }

    ghost function WithList(q: nat, p: nat, list: seq<Tcb>, index: Index): State
      requires q < |queues| && p < |queues[q].table|
    {
      this.(queues := queues[q := Queue(queues[q].table[p := list], index)])
    }
  }

  // -------------------------------------------------------------------------------------
  // Invariant
  // -------------------------------------------------------------------------------------

  ghost predicate QueueOk(q: Queue, levels: nat) {
    && q.index.Valid() && q.index.Levels() == levels == |q.table|
    && (forall p :: 0 <= p < levels ==> Distinct(q.table[p]) && (q.index.Has(p) <==> q.table[p] != []))
  }

  ghost predicate RecOk(s: State, r: Rec, levels: nat) {
    && r.prio < levels && r.bind <= s.Cpus() && r.oncpu <= s.Cpus()
  }

  ghost predicate Shaped(s: State, levels: nat) {
    && |s.queues| == s.Cpus() + 1
    && (forall q :: 0 <= q < |s.queues| ==> QueueOk(s.queues[q], levels))
    && (forall t :: t in s.thr ==> RecOk(s, s.thr[t], levels))
  }

  /** A thread is on a CPU iff it is that CPU's current thread. */
  ghost predicate OnCpuAgrees(s: State) {
    && (forall c :: 0 <= c < s.Cpus() && s.current[c] != null ==> s.current[c] in s.thr && s.thr[s.current[c]].oncpu == c)
    && (forall t :: t in s.thr && s.thr[t].oncpu < s.Cpus() ==> s.current[s.thr[t].oncpu] == t)
  }

  /** The lists hold exactly the ready threads, each where its binding and priority say; x,
      which a step has in hand, is in none. */
  ghost predicate QueuedBut(s: State, x: Tcb?, levels: nat)
    requires Shaped(s, levels)
  {
    && (forall q, p :: 0 <= q < |s.queues| && 0 <= p < levels ==> forall t :: t in s.queues[q].table[p] ==> t in s.thr)
    && (forall t, q, p :: t in s.thr && 0 <= q < |s.queues| && 0 <= p < levels ==>
          (t in s.queues[q].table[p] <==> t != x && s.thr[t].stat == Ready && s.thr[t].bind == q && s.thr[t].prio == p))
  }

  ghost predicate StatsBut(s: State, x: Tcb?) {
    forall t :: t in s.thr && t != x ==>
      && (s.thr[t].stat == Ready ==> s.thr[t].oncpu == s.Cpus())
      && (s.thr[t].stat == Running ==> s.thr[t].oncpu < s.Cpus())
  }

  ghost predicate InvBut(s: State, x: Tcb?, levels: nat) {
    Shaped(s, levels) && OnCpuAgrees(s) && QueuedBut(s, x, levels) && StatsBut(s, x)
  }

  ghost predicate Inv(s: State, levels: nat) { InvBut(s, null, levels) }

  // -------------------------------------------------------------------------------------
  // _sched_insert_thread_locked and _sched_remove_thread_locked
  // -------------------------------------------------------------------------------------

  /** A thread without time left goes to the back of its list, any other to the front. */
  ghost function Insert(s: State, t: Tcb, levels: nat): State
    requires Shaped(s, levels) && t in s.thr
  {
    var r := s.thr[t];
    if r.stat == Ready then s
    else if r.oncpu != s.Cpus() then s.WithRec(t, r.(stat := Running))
    else
      assert RecOk(s, r, levels) && QueueOk(s.queues[r.bind], levels);
      var q := s.queues[r.bind];
      var list := q.table[r.prio];
      s.WithRec(t, r.(stat := Ready)).WithList(r.bind, r.prio, if r.yielded then list + [t] else [t] + list, q.index.Mark(r.prio))
  }

  ghost function Remove(s: State, t: Tcb, levels: nat): State
    requires Shaped(s, levels) && t in s.thr
  {
    var r := s.thr[t];
    assert RecOk(s, r, levels) && QueueOk(s.queues[r.bind], levels);
    var q := s.queues[r.bind];
    var list := Without(q.table[r.prio], t);
    s.WithList(r.bind, r.prio, list, if list == [] then q.index.Unmark(r.prio) else q.index)
  }

  lemma WithListShaped(s: State, q: nat, p: nat, list: seq<Tcb>, index: Index, levels: nat)
    requires Shaped(s, levels) && q < |s.queues| && p < levels && Distinct(list)
    requires index.Valid() && index.Levels() == levels
    requires forall k :: 0 <= k < levels ==> (index.Has(k) <==> if k == p then list != [] else s.queues[q].index.Has(k))
    ensures Shaped(s.WithList(q, p, list, index), levels)
  {
    var s1 := s.WithList(q, p, list, index);
    assert QueueOk(s.queues[q], levels);
    forall k | 0 <= k < |s1.queues| ensures QueueOk(s1.queues[k], levels) {
      assert QueueOk(s.queues[k], levels);
    }
    forall t | t in s1.thr ensures RecOk(s1, s1.thr[t], levels) {
      assert RecOk(s, s.thr[t], levels);
    }
  }

  /** A thread in hand may be given any record that stays on its CPU. */
  lemma WithRecKeeps(s: State, t: Tcb, r: Rec, levels: nat)
    requires InvBut(s, t, levels) && t in s.thr && RecOk(s, r, levels) && r.oncpu == s.thr[t].oncpu
    ensures InvBut(s.WithRec(t, r), t, levels)
  {
    var s1 := s.WithRec(t, r);
    forall u | u in s1.thr ensures RecOk(s1, s1.thr[u], levels) {
      assert RecOk(s, s.thr[u], levels);
    }
  }

  /** A thread that is in no list can be taken in hand, and put down again when its state
      belongs to no list. */
  lemma PutDown(s: State, t: Tcb, levels: nat)
    requires t in s.thr && s.thr[t].stat != Ready && (s.thr[t].stat == Running ==> s.thr[t].oncpu < s.Cpus())
    ensures InvBut(s, t, levels) <==> Inv(s, levels)
  {
  }

  /** Putting a thread in hand into the list it belongs to, or taking it out, and nothing else. */
  lemma WithListQueued(s: State, t: Tcb, list: seq<Tcb>, index: Index, levels: nat, x: Tcb?, x': Tcb?)
    requires Shaped(s, levels) && t in s.thr && QueuedBut(s, x, levels) && RecOk(s, s.thr[t], levels)
    requires var r := s.thr[t]; Shaped(s.WithList(r.bind, r.prio, list, index), levels)
    requires var r := s.thr[t]; var was := s.queues[r.bind].table[r.prio];
             && (forall u :: u in was && u != t ==> u in list)
             && (forall u :: u in list && u != t ==> u in was)
    requires x == x' || (x == null && x' == t) || (x == t && x' == null)
    requires t in list <==> x' != t && s.thr[t].stat == Ready
    ensures var r := s.thr[t]; QueuedBut(s.WithList(r.bind, r.prio, list, index), x', levels)
  {
    hide Distinct;
    var r := s.thr[t];
    var s1 := s.WithList(r.bind, r.prio, list, index);
    forall u, k, p | u in s1.thr && 0 <= k < |s1.queues| && 0 <= p < levels
      ensures u in s1.queues[k].table[p] <==> u != x' && s1.thr[u].stat == Ready && s1.thr[u].bind == k && s1.thr[u].prio == p
    {
      assert u in s.queues[k].table[p] <==> u != x && s.thr[u].stat == Ready && s.thr[u].bind == k && s.thr[u].prio == p;
    }
  }

  lemma RemoveTakesInHand(s: State, t: Tcb, levels: nat)
    requires Inv(s, levels) && t in s.thr
    ensures InvBut(Remove(s, t, levels), t, levels)
  {
    var r := s.thr[t];
    assert RecOk(s, r, levels) && QueueOk(s.queues[r.bind], levels);
    var q := s.queues[r.bind];
    var list := Without(q.table[r.prio], t);
    WithoutDistinct(q.table[r.prio], t);
    assert q.table[r.prio] == [] ==> list == [];
    WithListShaped(s, r.bind, r.prio, list, if list == [] then q.index.Unmark(r.prio) else q.index, levels);
    hide QueueOk, Distinct, QueuedBut;
    WithListQueued(s, t, list, if list == [] then q.index.Unmark(r.prio) else q.index, levels, null, t);
  }

  lemma InsertPutsDown(s: State, t: Tcb, levels: nat)
    requires InvBut(s, t, levels) && t in s.thr && s.thr[t].stat != Ready
    ensures Inv(Insert(s, t, levels), levels)
  {
    var r := s.thr[t];
    assert RecOk(s, r, levels) && QueueOk(s.queues[r.bind], levels);
    if r.oncpu != s.Cpus() {
      WithRecKeeps(s, t, r.(stat := Running), levels);
    } else {
      var s1 := s.WithRec(t, r.(stat := Ready));
      WithRecKeeps(s, t, r.(stat := Ready), levels);
      EnqueuePutsDown(s1, t, levels);
    }
  }

  lemma EnqueuePutsDown(s: State, t: Tcb, levels: nat)
    requires InvBut(s, t, levels) && t in s.thr && s.thr[t].stat == Ready && s.thr[t].oncpu == s.Cpus()
    ensures var r := s.thr[t];
            && r.bind < |s.queues| && r.prio < |s.queues[r.bind].table| && QueueOk(s.queues[r.bind], levels)
            && var list := s.queues[r.bind].table[r.prio];
               Inv(s.WithList(r.bind, r.prio, if r.yielded then list + [t] else [t] + list, s.queues[r.bind].index.Mark(r.prio)), levels)
  {
    var r := s.thr[t];
    assert RecOk(s, r, levels) && QueueOk(s.queues[r.bind], levels);
    var q := s.queues[r.bind];
    var list := q.table[r.prio];
    var list' := if r.yielded then list + [t] else [t] + list;
    assert t !in list && Distinct(list);
    assert Distinct(list');
    WithListShaped(s, r.bind, r.prio, list', q.index.Mark(r.prio), levels);
    hide QueueOk, Distinct, QueuedBut;
    WithListQueued(s, t, list', q.index.Mark(r.prio), levels, t, null);
  }

  // -------------------------------------------------------------------------------------
  // Steps on one thread
  // -------------------------------------------------------------------------------------

  /** rt_sched_remove_thread: out of the queue, and all state flags gone. */
  ghost function Unqueue(s: State, t: Tcb, levels: nat): State
    requires Shaped(s, levels) && t in s.thr
  {
    Remove(s, t, levels).WithRec(t, s.thr[t].(stat := Suspended, yielded := false))
  }

  lemma UnqueueTakesInHand(s: State, t: Tcb, levels: nat)
    requires Inv(s, levels) && t in s.thr
    ensures InvBut(Unqueue(s, t, levels), t, levels)
  {
    RemoveTakesInHand(s, t, levels);
    assert RecOk(s, s.thr[t], levels);
    WithRecKeeps(Remove(s, t, levels), t, s.thr[t].(stat := Suspended, yielded := false), levels);
  }

  /** rt_sched_thread_ready: only a suspended thread is made ready. */
  ghost function Wake(s: State, t: Tcb, levels: nat): (State, bool)
    requires Shaped(s, levels) && t in s.thr
  {
    if s.thr[t].stat == Suspended then (Insert(s, t, levels), true) else (s, false)
  }

  /** rt_thread_suspend_to_list by the thread itself. */
  ghost function Suspend(s: State, t: Tcb, levels: nat): (State, bool)
    requires Shaped(s, levels) && t in s.thr
  {
    if s.thr[t].stat == Ready || s.thr[t].stat == Running then (Unqueue(s, t, levels), true) else (s, false)
  }

  /** rt_thread_close. */
  ghost function Close(s: State, t: Tcb, levels: nat): State
    requires Shaped(s, levels) && t in s.thr
  {
    if s.thr[t].stat == Closed then s
    else
      var s1 := if s.thr[t].stat != Init then Unqueue(s, t, levels) else s;
      s1.WithRec(t, s1.thr[t].(stat := Closed, yielded := false))
  }

  /** rt_sched_thread_startup, before the thread is resumed. */
  ghost function Startup(s: State, t: Tcb): State
    requires t in s.thr
  {
    s.WithRec(t, s.thr[t].(stat := Suspended, yielded := false))
  }

  /** rt_sched_thread_yield. */
  function YieldRec(r: Rec): Rec { r.(remaining := r.initTick, yielded := true) }

  /** rt_sched_tick_increase. */
  function TickRec(r: Rec, tick: nat): Rec {
    var left := if r.remaining > tick then r.remaining - tick else 0;
    if left != 0 then r.(remaining := left) else YieldRec(r)
  }

  /** rt_sched_thread_bind_cpu, without the rescheduling it asks for. */
  ghost function Bind(s: State, t: Tcb, cpu: nat, levels: nat): State
    requires Shaped(s, levels) && t in s.thr && (s.thr[t].stat == Ready ==> Shaped(BindInHand(s, t, cpu, levels), levels))
  {
    var c := if cpu >= s.Cpus() then s.Cpus() else cpu;
    if s.thr[t].stat == Ready then Insert(BindInHand(s, t, cpu, levels), t, levels)
    else s.WithRec(t, s.thr[t].(bind := c))
  }

  ghost function BindInHand(s: State, t: Tcb, cpu: nat, levels: nat): State
    requires Shaped(s, levels) && t in s.thr
  {
    var s1 := Unqueue(s, t, levels);
    s1.WithRec(t, s1.thr[t].(bind := if cpu >= s.Cpus() then s.Cpus() else cpu))
  }

  /** rt_sched_thread_change_priority. */
  ghost function ChangePriority(s: State, t: Tcb, p: nat, levels: nat): State
    requires Shaped(s, levels) && t in s.thr && (s.thr[t].stat == Ready ==> Shaped(PriorityInHand(s, t, p, levels), levels))
  {
    if s.thr[t].stat == Ready then Insert(PriorityInHand(s, t, p, levels), t, levels)
    else s.WithRec(t, s.thr[t].(prio := p))
  }

  ghost function PriorityInHand(s: State, t: Tcb, p: nat, levels: nat): State
    requires Shaped(s, levels) && t in s.thr
  {
    var s1 := Unqueue(s, t, levels);
    s1.WithRec(t, s1.thr[t].(prio := p, stat := Init, yielded := false))
  }

  lemma WakeKeepsInv(s: State, t: Tcb, levels: nat)
    requires Inv(s, levels) && t in s.thr
    ensures Inv(Wake(s, t, levels).0, levels)
  {
    if s.thr[t].stat == Suspended {
      PutDown(s, t, levels);
      InsertPutsDown(s, t, levels);
    }
  }

  lemma SuspendKeepsInv(s: State, t: Tcb, levels: nat)
    requires Inv(s, levels) && t in s.thr
    ensures Inv(Suspend(s, t, levels).0, levels)
  {
    if s.thr[t].stat == Ready || s.thr[t].stat == Running {
      UnqueueTakesInHand(s, t, levels);
      PutDown(Unqueue(s, t, levels), t, levels);
    }
  }

  /** Replacing the record of a thread that is not ready by one that is not either. */
  lemma WithRecKeepsInv(s: State, t: Tcb, r: Rec, levels: nat)
    requires Inv(s, levels) && t in s.thr && RecOk(s, r, levels) && r.oncpu == s.thr[t].oncpu
    requires s.thr[t].stat != Ready && r.stat != Ready && (r.stat == Running ==> s.thr[t].stat == Running)
    ensures Inv(s.WithRec(t, r), levels)
  {
    PutDown(s, t, levels);
    WithRecKeeps(s, t, r, levels);
    PutDown(s.WithRec(t, r), t, levels);
  }

  lemma CloseKeepsInv(s: State, t: Tcb, levels: nat)
    requires Inv(s, levels) && t in s.thr
    ensures Inv(Close(s, t, levels), levels)
  {
    if s.thr[t].stat != Closed {
      assert RecOk(s, s.thr[t], levels);
      if s.thr[t].stat != Init {
        UnqueueTakesInHand(s, t, levels);
        var s1 := Unqueue(s, t, levels);
        PutDown(s1, t, levels);
        WithRecKeepsInv(s1, t, s1.thr[t].(stat := Closed, yielded := false), levels);
      } else {
        WithRecKeepsInv(s, t, s.thr[t].(stat := Closed, yielded := false), levels);
      }
    }
  }

  lemma BindKeepsInv(s: State, t: Tcb, cpu: nat, levels: nat)
    requires Inv(s, levels) && t in s.thr
    ensures Shaped(BindInHand(s, t, cpu, levels), levels) && Inv(Bind(s, t, cpu, levels), levels)
  {
    assert RecOk(s, s.thr[t], levels);
    UnqueueTakesInHand(s, t, levels);
    var s1 := Unqueue(s, t, levels);
    var c := if cpu >= s.Cpus() then s.Cpus() else cpu;
    WithRecKeeps(s1, t, s1.thr[t].(bind := c), levels);
    if s.thr[t].stat == Ready {
      InsertPutsDown(BindInHand(s, t, cpu, levels), t, levels);
    } else {
      WithRecKeepsInv(s, t, s.thr[t].(bind := c), levels);
    }
  }

  lemma ChangePriorityKeepsInv(s: State, t: Tcb, p: nat, levels: nat)
    requires Inv(s, levels) && t in s.thr && p < levels
    ensures Shaped(PriorityInHand(s, t, p, levels), levels) && Inv(ChangePriority(s, t, p, levels), levels)
  {
    assert RecOk(s, s.thr[t], levels);
    UnqueueTakesInHand(s, t, levels);
    var s1 := Unqueue(s, t, levels);
    WithRecKeeps(s1, t, s1.thr[t].(prio := p, stat := Init, yielded := false), levels);
    if s.thr[t].stat == Ready {
      InsertPutsDown(PriorityInHand(s, t, p, levels), t, levels);
    } else {
      WithRecKeepsInv(s, t, s.thr[t].(prio := p), levels);
    }
  }

  // -------------------------------------------------------------------------------------
  // _prepare_context_switch_locked
  // -------------------------------------------------------------------------------------

  /** _scheduler_get_highest_priority_thread on CPU c: the head of the more urgent of the
      global and c's own best list, the own one on a tie; `levels` stands for no thread. */
  ghost function Pick(s: State, c: nat, levels: nat): (Tcb?, nat)
    requires Shaped(s, levels) && c < s.Cpus()
  {
    var global, local := s.queues[s.Cpus()], s.queues[c];
    assert QueueOk(global, levels) && QueueOk(local, levels);
    var g, l := global.index.Highest(), local.index.Highest();
    if g < l then (global.table[g][0], g)
    else if l < levels then (local.table[l][0], l) else (null, levels)
  }

  ghost function Detach(s: State, c: nat): State
    requires c < s.Cpus() && s.current[c] in s.thr
  {
    var t := s.current[c];
    State(s.thr[t := s.thr[t].(oncpu := s.Cpus())], s.queues, s.current[c := null])
  }

  ghost function Attach(s: State, t: Tcb, c: nat): State
    requires c < s.Cpus() && t in s.thr
  {
    State(s.thr[t := s.thr[t].(oncpu := c, stat := Running)], s.queues, s.current[c := t])
  }

  /** Whether the current thread keeps CPU c against a best ready priority of p. */
  predicate Stays(r: Rec, c: nat, cpus: nat, p: nat) {
    && r.stat == Running && (r.bind == cpus || r.bind == c)
    && (r.prio < p || (r.prio == p && !r.yielded))
  }

  /** A thread that leaves its core: ready again if it can still run, its yield request used up. */
  function GivenOut(r: Rec, cpus: nat): Rec {
    if r.stat == Running then r.(oncpu := cpus, stat := Ready, yielded := false) else r.(oncpu := cpus)
  }

  /** The current thread is put back if it can still run, its yield request used up. */
  ghost function GiveOut(s: State, c: nat, levels: nat): State
    requires Shaped(s, levels) && c < s.Cpus() && s.current[c] in s.thr && Shaped(Detach(s, c), levels)
  {
    var t := s.current[c];
    var s1 := Detach(s, c);
    if s.thr[t].stat == Running then
      var s2 := Insert(s1, t, levels);
      s2.WithRec(t, s2.thr[t].(yielded := false))
    else s1
  }

  ghost function Schedule(s: State, c: nat, levels: nat): State
    requires Inv(s, levels) && c < s.Cpus() && s.current[c] != null
  {
    var cur := s.current[c];
    var (to, p) := Pick(s, c, levels);
    if to == null then s
    else if Stays(s.thr[cur], c, s.Cpus(), p) then s.WithRec(cur, s.thr[cur].(yielded := false))
    else
      GiveOutKeeps(s, c, levels);
      PickIsReady(s, c, levels);
      Attach(Remove(GiveOut(s, c, levels), to, levels), to, c)
  }

  lemma PickIsReady(s: State, c: nat, levels: nat)
    requires Inv(s, levels) && c < s.Cpus()
    ensures var (to, p) := Pick(s, c, levels);
            && (to != null ==> to in s.thr && s.thr[to].stat == Ready && s.thr[to].prio == p
                               && (s.thr[to].bind == s.Cpus() || s.thr[to].bind == c))
            && (to == null ==> p == levels)
            && forall t :: t in s.thr && s.thr[t].stat == Ready && (s.thr[t].bind == s.Cpus() || s.thr[t].bind == c) ==>
                 p <= s.thr[t].prio
  {
    var global, local := s.queues[s.Cpus()], s.queues[c];
    assert QueueOk(global, levels) && QueueOk(local, levels);
    var (to, p) := Pick(s, c, levels);
    if to != null {
      var q := if global.index.Highest() < local.index.Highest() then s.Cpus() else c;
      assert to == s.queues[q].table[p][0] && to in s.queues[q].table[p];
    }
    forall t | t in s.thr && s.thr[t].stat == Ready && (s.thr[t].bind == s.Cpus() || s.thr[t].bind == c)
      ensures p <= s.thr[t].prio
    {
      assert RecOk(s, s.thr[t], levels);
      assert t in s.queues[s.thr[t].bind].table[s.thr[t].prio];
      assert s.queues[s.thr[t].bind].index.Has(s.thr[t].prio);
    }
  }

  lemma DetachKeeps(s: State, c: nat, levels: nat)
    requires Inv(s, levels) && c < s.Cpus() && s.current[c] != null
    ensures s.current[c] in s.thr && InvBut(Detach(s, c), s.current[c], levels)
  {
    var t := s.current[c];
    var s1 := Detach(s, c);
    forall u | u in s1.thr ensures RecOk(s1, s1.thr[u], levels) {
      assert RecOk(s, s.thr[u], levels);
    }
    assert s.thr[t].oncpu == c;
  }

  lemma AttachKeeps(s: State, t: Tcb, c: nat, levels: nat)
    requires InvBut(s, t, levels) && t in s.thr && c < s.Cpus() && s.current[c] == null && s.thr[t].oncpu == s.Cpus()
    ensures Inv(Attach(s, t, c), levels)
  {
    var s1 := Attach(s, t, c);
    forall u | u in s1.thr ensures RecOk(s1, s1.thr[u], levels) {
      assert RecOk(s, s.thr[u], levels);
    }
  }

  /** After the current thread is given out it is either ready in a list of its own binding,
      or suspended or closed; nobody runs on c; all other threads are as they were. */
  lemma GiveOutKeeps(s: State, c: nat, levels: nat)
    requires Inv(s, levels) && c < s.Cpus() && s.current[c] != null
    ensures s.current[c] in s.thr && Shaped(Detach(s, c), levels)
    ensures var s1 := GiveOut(s, c, levels); var cur := s.current[c];
            && Inv(s1, levels) && s1.current == s.current[c := null] && s1.thr.Keys == s.thr.Keys
            && (forall t :: t in s.thr && t != cur ==> s1.thr[t] == s.thr[t])
            && s1.thr[cur] == GivenOut(s.thr[cur], s.Cpus())
  {
    var t := s.current[c];
    DetachKeeps(s, c, levels);
    var s1 := Detach(s, c);
    assert s.thr[t].stat != Ready;
    if s.thr[t].stat == Running {
      InsertPutsDown(s1, t, levels);
      var s2 := Insert(s1, t, levels);
      YieldFlagIrrelevant(s2, t, levels);
    } else {
      PutDown(s1, t, levels);
    }
  }

  /** The yield flag of a queued thread is not part of where it is queued. */
  lemma YieldFlagIrrelevant(s: State, t: Tcb, levels: nat)
    requires Inv(s, levels) && t in s.thr
    ensures Inv(s.WithRec(t, s.thr[t].(yielded := false)), levels)
  {
    var s1 := s.WithRec(t, s.thr[t].(yielded := false));
    forall u | u in s1.thr ensures RecOk(s1, s1.thr[u], levels) {
      assert RecOk(s, s.thr[u], levels);
    }
  }

  lemma ScheduleKeepsInv(s: State, c: nat, levels: nat)
    requires Inv(s, levels) && c < s.Cpus() && s.current[c] != null
    ensures Inv(Schedule(s, c, levels), levels)
  {
    var cur := s.current[c];
    var (to, p) := Pick(s, c, levels);
    PickIsReady(s, c, levels);
    if to != null {
      if Stays(s.thr[cur], c, s.Cpus(), p) {
        YieldFlagIrrelevant(s, cur, levels);
      } else {
        GiveOutKeeps(s, c, levels);
        var s1 := GiveOut(s, c, levels);
        RemoveTakesInHand(s1, to, levels);
        AttachKeeps(Remove(s1, to, levels), to, c, levels);
      }
    }
  }

  lemma RemoveOnlyQueues(s: State, t: Tcb, levels: nat)
    requires Shaped(s, levels) && t in s.thr
    ensures var s1 := Remove(s, t, levels); s1.thr == s.thr && s1.current == s.current
  {
  }

  /** When the core passes to another thread, that one and the one before are all that changes. */
  lemma SwitchChanges(s: State, c: nat, levels: nat)
    requires Inv(s, levels) && c < s.Cpus() && s.current[c] != null
    requires Pick(s, c, levels).0 != null && !Stays(s.thr[s.current[c]], c, s.Cpus(), Pick(s, c, levels).1)
    ensures var s1 := Schedule(s, c, levels); var cur := s.current[c]; var to := Pick(s, c, levels).0;
            && s1.current == s.current[c := to] && s1.thr.Keys == s.thr.Keys && to != cur && cur in s.thr && to in s.thr
            && (forall t :: t in s.thr && t != cur && t != to ==> s1.thr[t] == s.thr[t])
            && s1.thr[to] == s.thr[to].(oncpu := c, stat := Running)
            && s1.thr[cur] == GivenOut(s.thr[cur], s.Cpus())
  {
    hide Shaped, OnCpuAgrees, QueuedBut, StatsBut, Pick, GiveOut, Remove, Detach;
    var to := Pick(s, c, levels).0;
    PickIsReady(s, c, levels);
    CurrentOk(s, c, levels);
    GiveOutKeeps(s, c, levels);
    RemoveOnlyQueues(GiveOut(s, c, levels), to, levels);
  }

  /** CPU c's idle thread: bound to c and always able to run. */
  ghost predicate IdleOk(s: State, c: nat, idle: Tcb) {
    && c < s.Cpus() && idle in s.thr && s.thr[idle].bind == c
    && (s.thr[idle].stat == Ready || (s.thr[idle].stat == Running && s.current[c] == idle))
  }

  lemma BelowLevels(s: State, t: Tcb, levels: nat)
    requires Inv(s, levels) && t in s.thr
    ensures s.thr[t].prio < levels && s.thr[t].bind <= s.Cpus()
  {
    assert RecOk(s, s.thr[t], levels);
  }

  /** After scheduling on c, its thread is running and allowed there, and no ready thread that
      could run there is strictly more urgent. */
  lemma ScheduleRunsTheMostUrgent(s: State, c: nat, idle: Tcb, levels: nat)
    requires Inv(s, levels) && c < s.Cpus() && s.current[c] != null && IdleOk(s, c, idle)
    ensures var s1 := Schedule(s, c, levels); var now := s1.current[c];
            && now in s1.thr && s1.thr[now].stat == Running && s1.thr[now].oncpu == c
            && (s1.thr[now].bind == s.Cpus() || s1.thr[now].bind == c)
            && forall t :: t in s1.thr && s1.thr[t].stat == Ready && (s1.thr[t].bind == s.Cpus() || s1.thr[t].bind == c) ==>
                 s1.thr[now].prio <= s1.thr[t].prio
  {
    hide Shaped, OnCpuAgrees, QueuedBut, Pick;
    var cur := s.current[c];
    var (to, p) := Pick(s, c, levels);
    PickIsReady(s, c, levels);
    CurrentOk(s, c, levels);
    BelowLevels(s, idle, levels);
    if to != null && !Stays(s.thr[cur], c, s.Cpus(), p) {
      hide Schedule;
      SwitchChanges(s, c, levels);
    }
  }

  /** Thread t is ready for CPU c, and c's current thread has no claim to the core against it. */
  ghost predicate Displaces(s: State, t: Tcb, c: nat)
    requires t in s.thr && c < s.Cpus() && s.current[c] in s.thr
  {
    var r, cur := s.thr[t], s.thr[s.current[c]];
    && r.stat == Ready && (r.bind == s.Cpus() || r.bind == c)
    && (cur.stat != Running || (cur.bind != s.Cpus() && cur.bind != c) || r.prio < cur.prio || (r.prio == cur.prio && cur.yielded))
  }

  /** The core passes on if and only if some ready thread displaces the current one: the current
      one cannot run, is bound elsewhere, is less urgent, or as urgent and has yielded. */
  lemma ScheduleSwitchesIff(s: State, c: nat, levels: nat)
    requires Inv(s, levels) && c < s.Cpus() && s.current[c] != null
    ensures s.current[c] in s.thr
    ensures Schedule(s, c, levels).current[c] != s.current[c] <==> exists t :: t in s.thr && Displaces(s, t, c)
  {
    hide Shaped, OnCpuAgrees, QueuedBut, StatsBut, Pick;
    CurrentOk(s, c, levels);
    PickIsReady(s, c, levels);
    var (to, p) := Pick(s, c, levels);
    BelowAll(s, levels);
    if to != null && !Stays(s.thr[s.current[c]], c, s.Cpus(), p) {
      SwitchChanges(s, c, levels);
      assert Displaces(s, to, c);
    }
  }

  lemma BelowAll(s: State, levels: nat)
    requires Inv(s, levels)
    ensures forall t :: t in s.thr ==> s.thr[t].prio < levels
  {
    hide QueuedBut, StatsBut, OnCpuAgrees;
    forall t | t in s.thr ensures s.thr[t].prio < levels { assert RecOk(s, s.thr[t], levels); }
  }

  // -------------------------------------------------------------------------------------
  // Runs
  // -------------------------------------------------------------------------------------

  /** rt_system_scheduler_start on CPU c. */
  ghost function Start(s: State, c: nat, levels: nat): State
    requires Inv(s, levels) && c < s.Cpus()
  {
    var (to, p) := Pick(s, c, levels);
    if to == null then s
    else
      PickIsReady(s, c, levels);
      var s1 := Remove(s, to, levels);
      Attach(s1.WithRec(to, s1.thr[to].(yielded := false)), to, c)
  }

  lemma StartKeepsInv(s: State, c: nat, levels: nat)
    requires Inv(s, levels) && c < s.Cpus() && s.current[c] == null
    ensures Inv(Start(s, c, levels), levels)
  {
    var to := Pick(s, c, levels).0;
    PickIsReady(s, c, levels);
    if to != null {
      RemoveTakesInHand(s, to, levels);
      var s1 := Remove(s, to, levels);
      assert RecOk(s, s.thr[to], levels);
      WithRecKeeps(s1, to, s1.thr[to].(yielded := false), levels);
      AttachKeeps(s1.WithRec(to, s1.thr[to].(yielded := false)), to, c, levels);
    }
  }

  ghost function Create(s: State, t: Tcb, prio: nat, tick: nat): State {
    s.WithRec(t, Rec(Init, false, s.Cpus(), s.Cpus(), prio, tick, tick))
  }

  lemma CreateKeepsInv(s: State, t: Tcb, prio: nat, tick: nat, levels: nat)
    requires Inv(s, levels) && t !in s.thr && prio < levels
    ensures Inv(Create(s, t, prio, tick), levels)
  {
    var s1 := Create(s, t, prio, tick);
    forall u | u in s1.thr ensures RecOk(s1, s1.thr[u], levels) {
      assert u in s.thr ==> RecOk(s, s.thr[u], levels);
    }
  }

  datatype Step =
    | CreateStep(t: Tcb, prio: nat, tick: nat)
    | StartupStep(t: Tcb)
    | WakeStep(t: Tcb)
    | SuspendStep(c: nat)               // by the thread CPU c is running
    | CloseStep(t: Tcb)
    | TickStep(c: nat, tick: nat)
    | YieldStep(c: nat)
    | BindStep(t: Tcb, cpu: nat)
    | PriorityStep(t: Tcb, p: nat)
    | ScheduleStep(c: nat)
    | StartStep(c: nat)

  ghost predicate Enabled(s: State, step: Step, levels: nat) {
    match step
    case CreateStep(t, prio, _) => t !in s.thr && prio < levels
    case StartupStep(t) => t in s.thr && s.thr[t].stat == Init
    case WakeStep(t) => t in s.thr
    case SuspendStep(c) => c < s.Cpus() && s.current[c] != null
    case CloseStep(t) => t in s.thr
    case TickStep(c, _) => c < s.Cpus() && s.current[c] != null
    case YieldStep(c) => c < s.Cpus() && s.current[c] != null
    case BindStep(t, _) => t in s.thr
    case PriorityStep(t, p) => t in s.thr && p < levels
    case ScheduleStep(c) => c < s.Cpus() && s.current[c] != null
    case StartStep(c) => c < s.Cpus() && s.current[c] == null
  }

  ghost function Next(s: State, step: Step, levels: nat): State
    requires Inv(s, levels) && Enabled(s, step, levels)
  {
    match step
    case CreateStep(t, prio, tick) => Create(s, t, prio, tick)
    case StartupStep(t) => Startup(s, t)
    case WakeStep(t) => Wake(s, t, levels).0
    case SuspendStep(c) => Suspend(s, s.current[c], levels).0
    case CloseStep(t) => Close(s, t, levels)
    case TickStep(c, tick) => s.WithRec(s.current[c], TickRec(s.thr[s.current[c]], tick))
    case YieldStep(c) => s.WithRec(s.current[c], YieldRec(s.thr[s.current[c]]))
    case BindStep(t, cpu) => BindKeepsInv(s, t, cpu, levels); Bind(s, t, cpu, levels)
    case PriorityStep(t, p) => ChangePriorityKeepsInv(s, t, p, levels); ChangePriority(s, t, p, levels)
    case ScheduleStep(c) => Schedule(s, c, levels)
    case StartStep(c) => Start(s, c, levels)
  }

  /** A current thread is on its CPU and not in any list. */
  lemma CurrentOk(s: State, c: nat, levels: nat)
    requires Inv(s, levels) && c < s.Cpus() && s.current[c] != null
    ensures var t := s.current[c];
            t in s.thr && s.thr[t].oncpu == c && s.thr[t].stat != Ready && RecOk(s, s.thr[t], levels)
  {
  }

  lemma NextKeepsInv(s: State, step: Step, levels: nat)
    requires Inv(s, levels) && Enabled(s, step, levels)
    ensures Inv(Next(s, step, levels), levels)
  {
    hide Shaped, OnCpuAgrees, QueuedBut, StatsBut, Insert, Unqueue, Schedule, Start, Close, Bind, ChangePriority;
    match step
    case CreateStep(t, prio, tick) => CreateKeepsInv(s, t, prio, tick, levels);
    case StartupStep(t) => StartupKeepsInv(s, t, levels);
    case WakeStep(t) => WakeKeepsInv(s, t, levels);
    case SuspendStep(c) => CurrentOk(s, c, levels); SuspendKeepsInv(s, s.current[c], levels);
    case CloseStep(t) => CloseKeepsInv(s, t, levels);
    case TickStep(c, tick) =>
      CurrentOk(s, c, levels);
      WithRecKeepsInv(s, s.current[c], TickRec(s.thr[s.current[c]], tick), levels);
    case YieldStep(c) =>
      CurrentOk(s, c, levels);
      WithRecKeepsInv(s, s.current[c], YieldRec(s.thr[s.current[c]]), levels);
    case BindStep(t, cpu) => BindKeepsInv(s, t, cpu, levels);
    case PriorityStep(t, p) => ChangePriorityKeepsInv(s, t, p, levels);
    case ScheduleStep(c) => ScheduleKeepsInv(s, c, levels);
    case StartStep(c) => StartKeepsInv(s, c, levels);
  }

  lemma StartupKeepsInv(s: State, t: Tcb, levels: nat)
    requires Inv(s, levels) && t in s.thr && s.thr[t].stat == Init
    ensures Inv(Startup(s, t), levels)
  {
    assert RecOk(s, s.thr[t], levels);
    WithRecKeepsInv(s, t, s.thr[t].(stat := Suspended, yielded := false), levels);
  }

  /** Steps that leave the idle threads able to run on their CPUs. */
  ghost predicate SparesIdle(s: State, step: Step, idle: seq<Tcb>, levels: nat)
    requires Enabled(s, step, levels)
  {
    match step
    case SuspendStep(c) => s.current[c] !in idle
    case CloseStep(t) => t !in idle
    case BindStep(t, _) => t !in idle
    case _ => true
  }

  ghost predicate AllIdleOk(s: State, idle: seq<Tcb>) {
    |idle| == s.Cpus() && forall c :: 0 <= c < |idle| ==> IdleOk(s, c, idle[c])
  }

  /** A run of steps from s to s' under which every idle thread stays available. */
  ghost predicate Run(s: State, steps: seq<Step>, s': State, idle: seq<Tcb>, levels: nat)
    requires Inv(s, levels)
    decreases |steps|
  {
    if steps == [] then s' == s
    else
      && Enabled(s, steps[0], levels) && SparesIdle(s, steps[0], idle, levels)
      && (NextKeepsInv(s, steps[0], levels); Run(Next(s, steps[0], levels), steps[1..], s', idle, levels))
  }

  lemma NextKeepsIdle(s: State, step: Step, idle: seq<Tcb>, levels: nat)
    requires Inv(s, levels) && AllIdleOk(s, idle) && Enabled(s, step, levels) && SparesIdle(s, step, idle, levels)
    ensures AllIdleOk(Next(s, step, levels), idle)
  {
    hide IdleOk, Inv, Next, Enabled, SparesIdle;
    forall c | 0 <= c < |idle| ensures IdleOk(Next(s, step, levels), c, idle[c]) {
      NextKeepsOneIdle(s, step, c, idle[c], idle, levels);
    }
    NextKeepsCpus(s, step, levels);
  }

  lemma NextKeepsCpus(s: State, step: Step, levels: nat)
    requires Inv(s, levels) && Enabled(s, step, levels)
    ensures Next(s, step, levels).Cpus() == s.Cpus()
  {
    hide QueueOk, QueuedBut, StatsBut, OnCpuAgrees, RecOk;
  }

  lemma NextKeepsOneIdle(s: State, step: Step, c: nat, i: Tcb, idle: seq<Tcb>, levels: nat)
    requires Inv(s, levels) && IdleOk(s, c, i) && i in idle && Enabled(s, step, levels) && SparesIdle(s, step, idle, levels)
    ensures IdleOk(Next(s, step, levels), c, i)
  {
    hide IdleOk, Inv, Schedule, Start, Insert, Unqueue, Close, Bind, ChangePriority;
    match step
    case ScheduleStep(d) => ScheduleKeepsIdle(s, d, c, i, levels);
    case StartStep(d) => StartKeepsIdle(s, d, c, i, levels);
    case BindStep(t, cpu) => MoveKeepsIdle(s, step, t, c, i, levels);
    case PriorityStep(t, p) => MoveKeepsIdle(s, step, t, c, i, levels);
    case _ => OtherKeepsIdle(s, step, c, i, idle, levels);
  }

  lemma OtherKeepsIdle(s: State, step: Step, c: nat, i: Tcb, idle: seq<Tcb>, levels: nat)
    requires Inv(s, levels) && IdleOk(s, c, i) && i in idle
    requires Enabled(s, step, levels) && SparesIdle(s, step, idle, levels)
    requires !step.ScheduleStep? && !step.StartStep? && !step.BindStep? && !step.PriorityStep?
    ensures IdleOk(Next(s, step, levels), c, i)
  {
    hide QueueOk, QueuedBut, StatsBut;
    if step.TickStep? || step.YieldStep? || step.SuspendStep? { CurrentOk(s, step.c, levels); }
  }

  lemma MoveKeepsIdle(s: State, step: Step, t: Tcb, c: nat, i: Tcb, levels: nat)
    requires Inv(s, levels) && IdleOk(s, c, i) && Enabled(s, step, levels)
    requires match step case BindStep(u, _) => u == t && t != i case PriorityStep(u, _) => u == t case _ => false
    ensures IdleOk(Next(s, step, levels), c, i)
  {
    if step.BindStep? {
      BindKeepsInv(s, t, step.cpu, levels);
    } else {
      ChangePriorityKeepsInv(s, t, step.p, levels);
    }
    assert s.thr[t].stat == Ready ==> s.thr[t].oncpu == s.Cpus();
    hide QueueOk, QueuedBut, StatsBut, OnCpuAgrees;
  }

  lemma ScheduleKeepsIdle(s: State, d: nat, c: nat, idle: Tcb, levels: nat)
    requires Inv(s, levels) && d < s.Cpus() && s.current[d] != null && IdleOk(s, c, idle)
    ensures IdleOk(Schedule(s, d, levels), c, idle)
  {
    hide Shaped, OnCpuAgrees, QueuedBut, StatsBut, Pick;
    var cur := s.current[d];
    var (to, p) := Pick(s, d, levels);
    PickIsReady(s, d, levels);
    CurrentOk(s, d, levels);
    if c != d && idle == s.current[c] { CurrentOk(s, c, levels); }
    if to != null && !Stays(s.thr[cur], d, s.Cpus(), p) {
      hide Schedule;
      SwitchChanges(s, d, levels);
    }
  }

  lemma StartKeepsIdle(s: State, d: nat, c: nat, idle: Tcb, levels: nat)
    requires Inv(s, levels) && d < s.Cpus() && s.current[d] == null && IdleOk(s, c, idle)
    ensures IdleOk(Start(s, d, levels), c, idle)
  {
    PickIsReady(s, d, levels);
  }

  /** Over every interleaving: no thread on two CPUs, every ready thread in exactly the list
      its binding and priority name, every bitmap exact, and every idle thread available, so
      that ScheduleRunsTheMostUrgent applies after each schedule step. */
  lemma {:induction false} RunKeepsInv(s: State, steps: seq<Step>, s': State, idle: seq<Tcb>, levels: nat)
    requires Inv(s, levels) && AllIdleOk(s, idle) && Run(s, steps, s', idle, levels)
    ensures Inv(s', levels) && AllIdleOk(s', idle)
    decreases |steps|
  {
    if steps != [] {
      NextKeepsInv(s, steps[0], levels);
      NextKeepsIdle(s, steps[0], idle, levels);
      RunKeepsInv(Next(s, steps[0], levels), steps[1..], s', idle, levels);
    }
  }

  /** So in every state of a run a thread is on at most one CPU, the one it names, and in
      exactly one list, the one its binding and priority name, iff it is ready. */
  lemma ThreadIsInOnePlace(s: State, steps: seq<Step>, s': State, idle: seq<Tcb>, levels: nat, t: Tcb)
    requires Inv(s, levels) && AllIdleOk(s, idle) && Run(s, steps, s', idle, levels) && t in s'.thr
    ensures |s'.queues| == s'.Cpus() + 1 && forall q :: 0 <= q < |s'.queues| ==> |s'.queues[q].table| == levels
    ensures forall c :: 0 <= c < s'.Cpus() ==> (s'.current[c] == t <==> s'.thr[t].oncpu == c)
    ensures forall q, p :: 0 <= q < |s'.queues| && 0 <= p < levels ==>
              (t in s'.queues[q].table[p] <==> s'.thr[t].stat == Ready && q == s'.thr[t].bind && p == s'.thr[t].prio)
  {
    RunKeepsInv(s, steps, s', idle, levels);
    assert forall q :: 0 <= q < |s'.queues| ==> QueueOk(s'.queues[q], levels);
  }

  // -------------------------------------------------------------------------------------
  // From the empty tables
  // -------------------------------------------------------------------------------------

  /** The tables rt_system_scheduler_init leaves, and threads that were initialised and no more. */
  ghost predicate Initial(s: State, levels: nat) {
    && |s.queues| == s.Cpus() + 1 && (forall c :: 0 <= c < s.Cpus() ==> s.current[c] == null)
    && (forall q :: 0 <= q < |s.queues| ==>
          && s.queues[q].index.Valid() && s.queues[q].index.Levels() == levels == |s.queues[q].table|
          && forall p :: 0 <= p < levels ==> s.queues[q].table[p] == [] && !s.queues[q].index.Has(p))
    && (forall t :: t in s.thr ==>
          s.thr[t].stat == Init && s.thr[t].oncpu == s.thr[t].bind == s.Cpus() && s.thr[t].prio < levels)
  }

  lemma InitialInv(s: State, levels: nat)
    requires Initial(s, levels)
    ensures Inv(s, levels)
  {
  }

  /** rt_thread_idle_init for one CPU: the thread is bound, started up and resumed. */
  function BootSteps(t: Tcb, c: nat): seq<Step> { [BindStep(t, c), StartupStep(t), WakeStep(t)] }

  /** A thread that was initialised is ready on its CPU then, and no other changed. */
  lemma BootOne(s: State, t: Tcb, c: nat, levels: nat) returns (s': State)
    requires Inv(s, levels) && t in s.thr && s.thr[t].stat == Init && s.thr[t].oncpu == s.Cpus() && c < s.Cpus()
    ensures Inv(s', levels) && Steps(s, BootSteps(t, c), s', levels)
    ensures s'.thr.Keys == s.thr.Keys && s'.current == s.current && (forall u :: u in s.thr && u != t ==> s'.thr[u] == s.thr[u])
    ensures s'.thr[t].stat == Ready && s'.thr[t].bind == c
  {
    hide Inv, Insert, Shaped, Remove;
    var bind, start, wake := BindStep(t, c), StartupStep(t), WakeStep(t);
    BootBind(s, t, c, levels);
    var s1 := Next(s, bind, levels);
    NextKeepsInv(s1, start, levels);
    var s2 := Next(s1, start, levels);
    NextKeepsInv(s2, wake, levels);
    BootWake(s2, t, levels);
    s' := Next(s2, wake, levels);
    assert Steps(s', [], s', levels);
    assert Steps(s2, [wake], s', levels) by { assert [wake][1..] == []; }
    assert Steps(s1, [start, wake], s', levels) by { assert [start, wake][1..] == [wake]; }
    assert BootSteps(t, c)[1..] == [start, wake];
  }

  lemma BootBind(s: State, t: Tcb, c: nat, levels: nat)
    requires Inv(s, levels) && t in s.thr && s.thr[t].stat == Init && c < s.Cpus()
    ensures var s1 := Next(s, BindStep(t, c), levels); Inv(s1, levels) && s1 == s.WithRec(t, s.thr[t].(bind := c))
  {
    NextKeepsInv(s, BindStep(t, c), levels);
  }

  lemma BootWake(s: State, t: Tcb, levels: nat)
    requires Inv(s, levels) && t in s.thr && s.thr[t].stat == Suspended && s.thr[t].oncpu == s.Cpus()
    ensures var s1 := Next(s, WakeStep(t), levels);
            s1.thr == s.thr[t := s.thr[t].(stat := Ready)] && s1.current == s.current
  {
  }

  /** Steps that are possible one after the other. */
  ghost predicate Steps(s: State, steps: seq<Step>, s': State, levels: nat)
    requires Inv(s, levels)
    decreases |steps|
  {
    if steps == [] then s' == s
    else Enabled(s, steps[0], levels) && (NextKeepsInv(s, steps[0], levels); Steps(Next(s, steps[0], levels), steps[1..], s', levels))
  }

  lemma {:induction false} StepsJoin(s: State, a: seq<Step>, mid: State, b: seq<Step>, s': State, levels: nat)
    requires Inv(s, levels) && Steps(s, a, mid, levels) && Inv(mid, levels) && Steps(mid, b, s', levels)
    ensures Steps(s, a + b, s', levels)
    decreases |a|
  {
    hide Inv, Enabled, Next;
    if a == [] {
      assert a + b == b;
    } else {
      NextKeepsInv(s, a[0], levels);
      assert (a + b)[1..] == a[1..] + b;
      StepsJoin(Next(s, a[0], levels), a[1..], mid, b, s', levels);
    }
  }

  /** The idle threads of the first k CPUs are started. */
  lemma {:induction false} BootIdle(s: State, idle: seq<Tcb>, k: nat, levels: nat) returns (steps: seq<Step>, s': State)
    requires Initial(s, levels) && Distinct(idle) && |idle| == s.Cpus() && (forall t :: t in idle ==> t in s.thr) && k <= |idle|
    ensures Inv(s, levels) && Inv(s', levels) && Steps(s, steps, s', levels)
    ensures s'.thr.Keys == s.thr.Keys && s'.current == s.current
    ensures forall t :: t in s.thr && t !in idle[..k] ==> s'.thr[t] == s.thr[t]
    ensures forall c :: 0 <= c < k ==> s'.thr[idle[c]].stat == Ready && s'.thr[idle[c]].bind == c
    decreases k
  {
    hide Inv, Initial, Steps, Distinct, BootSteps;
    InitialInv(s, levels);
    if k == 0 {
      steps, s' := [], s;
      NoSteps(s, levels);
    } else {
      var mid;
      steps, mid := BootIdle(s, idle, k - 1, levels);
      var t := idle[k - 1];
      NotBefore(idle, k);
      InitialAt(s, t, levels);
      s' := BootOne(mid, t, k - 1, levels);
      StepsJoin(s, steps, mid, BootSteps(t, k - 1), s', levels);
      steps := steps + BootSteps(t, k - 1);
    }
  }

  lemma NoSteps(s: State, levels: nat)
    requires Inv(s, levels)
    ensures Steps(s, [], s, levels)
  {
  }

  lemma NotBefore(idle: seq<Tcb>, k: nat)
    requires Distinct(idle) && 0 < k <= |idle|
    ensures idle[k - 1] in idle && idle[k - 1] !in idle[..k - 1] && idle[..k] == idle[..k - 1] + [idle[k - 1]]
    ensures forall c :: 0 <= c < k - 1 ==> idle[c] != idle[k - 1] && idle[c] in idle
  {
  }

  lemma InitialAt(s: State, t: Tcb, levels: nat)
    requires Initial(s, levels) && t in s.thr
    ensures s.thr[t].stat == Init && s.thr[t].oncpu == s.Cpus()
  {
  }

  /** From the empty tables, once the idle threads are started: in every state of every run that
      leaves them available, no thread is on two CPUs or in two lists, and so on as in RunKeepsInv. */
  lemma RunFromBoot(s: State, idle: seq<Tcb>, levels: nat) returns (boot: seq<Step>, s1: State)
    requires Initial(s, levels) && Distinct(idle) && |idle| == s.Cpus() && forall t :: t in idle ==> t in s.thr
    ensures Inv(s, levels) && Steps(s, boot, s1, levels) && Inv(s1, levels) && AllIdleOk(s1, idle)
    ensures forall steps, s' :: Run(s1, steps, s', idle, levels) ==> Inv(s', levels) && AllIdleOk(s', idle)
  {
    hide Inv, Initial, Steps, Run;
    boot, s1 := BootIdle(s, idle, |idle|, levels);
    forall c | 0 <= c < |idle| ensures IdleOk(s1, c, idle[c]) { assert idle[c] in idle; }
    forall steps, s' | Run(s1, steps, s', idle, levels) ensures Inv(s', levels) && AllIdleOk(s', idle) {
      RunKeepsInv(s1, steps, s', idle, levels);
    }
  }
}
