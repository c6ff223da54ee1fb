/** What the steps of the multi-core scheduler do to threads and to the order of the ready lists,
    and time slicing on one CPU (rt-thread/src/scheduler_mp.c, scheduler_comm.c, thread.c). */
module SmpLaws {
  import opened Lists
  import opened ReadyIndex
  import opened SmpScheduling

  /** The list of priority p in queue q. */
  function Row(s: State, q: nat, p: nat): seq<Tcb> {
    if q < |s.queues| && p < |s.queues[q].table| then s.queues[q].table[p] else []
  }

  /** All lists but that one are as they were. */
  ghost predicate RowsBut(s: State, s': State, b: nat, p: nat) {
    |s'.queues| == |s.queues| && forall q: nat, i: nat :: q != b || i != p ==> Row(s', q, i) == Row(s, q, i)
  }

  ghost predicate SameRows(s: State, s': State) {
    |s'.queues| == |s.queues| && forall q: nat, i: nat :: Row(s', q, i) == Row(s, q, i)
  }

  /** Only t's record has changed, and to r. */
  ghost predicate OnlyThread(s: State, s': State, t: Tcb, r: Rec) {
    s'.thr == s.thr[t := r] && s'.current == s.current
  }

  lemma InsertRows(s: State, t: Tcb, levels: nat)
    requires Shaped(s, levels) && t in s.thr && s.thr[t].stat != Ready && s.thr[t].oncpu == s.Cpus()
    ensures var s', r := Insert(s, t, levels), s.thr[t]; var was := Row(s, r.bind, r.prio);
            && OnlyThread(s, s', t, r.(stat := Ready)) && RowsBut(s, s', r.bind, r.prio)
            && Row(s', r.bind, r.prio) == if r.yielded then was + [t] else [t] + was
  {
    assert RecOk(s, s.thr[t], levels) && QueueOk(s.queues[s.thr[t].bind], levels);
  }

  lemma RemoveRows(s: State, t: Tcb, levels: nat)
    requires Shaped(s, levels) && t in s.thr
    ensures var s', r := Remove(s, t, levels), s.thr[t];
            && s'.thr == s.thr && s'.current == s.current && RowsBut(s, s', r.bind, r.prio)
            && Row(s', r.bind, r.prio) == Without(Row(s, r.bind, r.prio), t)
  {
    assert RecOk(s, s.thr[t], levels) && QueueOk(s.queues[s.thr[t].bind], levels);
  }

  /** A thread that is not ready is in no list. */
  lemma NotQueued(s: State, t: Tcb, levels: nat)
    requires Inv(s, levels) && t in s.thr && s.thr[t].stat != Ready
    ensures t !in Row(s, s.thr[t].bind, s.thr[t].prio)
  {
    assert RecOk(s, s.thr[t], levels) && QueueOk(s.queues[s.thr[t].bind], levels);
  }

  // -------------------------------------------------------------------------------------
  // Steps on one thread
  // -------------------------------------------------------------------------------------

  /** A suspended thread becomes ready, last in its list if it has yielded and else first; if it is
      still on a CPU it runs on and is in no list.  Any other thread is left alone. */
  lemma WakeMoves(s: State, t: Tcb, levels: nat)
    requires Inv(s, levels) && t in s.thr
    ensures var (s', ok) := Wake(s, t, levels); var r := s.thr[t];
            && (ok <==> r.stat == Suspended) && (!ok ==> s' == s)
            && (ok && r.oncpu < s.Cpus() ==> OnlyThread(s, s', t, r.(stat := Running)) && SameRows(s, s'))
            && (ok && r.oncpu == s.Cpus() ==>
                  && OnlyThread(s, s', t, r.(stat := Ready)) && RowsBut(s, s', r.bind, r.prio)
                  && Row(s', r.bind, r.prio) == if r.yielded then Row(s, r.bind, r.prio) + [t] else [t] + Row(s, r.bind, r.prio))
  {
    assert RecOk(s, s.thr[t], levels);
    if s.thr[t].stat == Suspended && s.thr[t].oncpu == s.Cpus() { InsertRows(s, t, levels); }
  }

  /** A ready or running thread is suspended and leaves its list, which keeps its order. */
  lemma SuspendMoves(s: State, t: Tcb, levels: nat)
    requires Inv(s, levels) && t in s.thr
    ensures var (s', ok) := Suspend(s, t, levels); var r := s.thr[t];
            && (ok <==> r.stat == Ready || r.stat == Running) && (!ok ==> s' == s)
            && (ok ==> OnlyThread(s, s', t, r.(stat := Suspended, yielded := false)) && RowsBut(s, s', r.bind, r.prio)
                       && Row(s', r.bind, r.prio) == Without(Row(s, r.bind, r.prio), t))
  {
    RemoveRows(s, t, levels);
  }

  /** A closed thread is in no list; the others keep their order. */
  lemma CloseMoves(s: State, t: Tcb, levels: nat)
    requires Inv(s, levels) && t in s.thr
    ensures var s', r := Close(s, t, levels), s.thr[t];
            && s'.thr == s.thr[t := r.(stat := Closed, yielded := if r.stat == Closed then r.yielded else false)] && s'.current == s.current
            && RowsBut(s, s', r.bind, r.prio) && Row(s', r.bind, r.prio) == Without(Row(s, r.bind, r.prio), t)
  {
    hide Inv, Shaped, Remove;
    ShapedOf(s, levels);
    RemoveRows(s, t, levels);
    var r, s' := s.thr[t], Close(s, t, levels);
    if r.stat == Closed || r.stat == Init {
      NotQueued(s, t, levels);
      SameQueues(s, s');
    } else {
      SameQueues(Remove(s, t, levels), s');
    }
  }

  /** t has left its list and is first in the one of queue b and priority p; all else keeps its order. */
  ghost predicate MovedFirst(s: State, s': State, t: Tcb, b: nat, p: nat)
    requires t in s.thr
  {
    var r := s.thr[t];
    && |s'.queues| == |s.queues|
    && forall q: nat, i: nat :: Row(s', q, i) ==
         var rest := if q == r.bind && i == r.prio then Without(Row(s, q, i), t) else Row(s, q, i);
         if q == b && i == p then [t] + rest else rest
  }

  lemma MovedRows(s: State, u: State, s': State, t: Tcb, b: nat, p: nat)
    requires t in s.thr && RowsBut(s, u, s.thr[t].bind, s.thr[t].prio)
    requires Row(u, s.thr[t].bind, s.thr[t].prio) == Without(Row(s, s.thr[t].bind, s.thr[t].prio), t)
    requires RowsBut(u, s', b, p) && Row(s', b, p) == [t] + Row(u, b, p)
    ensures MovedFirst(s, s', t, b, p)
  {
  }

  /** A thread in hand goes first into the list its record names. */
  lemma InHandMoves(s: State, t: Tcb, r: Rec, levels: nat)
    requires Inv(s, levels) && t in s.thr && s.thr[t].stat == Ready && r.stat != Ready && r.oncpu == s.Cpus() && !r.yielded
    requires Shaped(s, levels) && var u := Remove(s, t, levels).WithRec(t, r); Shaped(u, levels)
    ensures var u := Remove(s, t, levels).WithRec(t, r); var s' := Insert(u, t, levels);
            OnlyThread(s, s', t, r.(stat := Ready)) && MovedFirst(s, s', t, r.bind, r.prio)
  {
    hide Inv, Remove, Insert, Shaped, MovedFirst;
    RemoveRows(s, t, levels);
    var v := Remove(s, t, levels);
    var u := v.WithRec(t, r);
    SameQueues(v, u);
    InsertRows(u, t, levels);
    MovedRows(s, u, Insert(u, t, levels), t, r.bind, r.prio);
  }

  lemma SameQueues(s: State, s': State)
    requires s'.queues == s.queues
    ensures SameRows(s, s')
  {
  }

  lemma Detached(s: State, t: Tcb, levels: nat)
    requires Inv(s, levels) && t in s.thr && s.thr[t].stat == Ready
    ensures Shaped(s, levels) && s.thr[t].oncpu == s.Cpus()
  {
  }

  /** A ready thread goes from its list to the front of the one of its new priority; any other only
      gets the priority. */
  lemma PriorityMoves(s: State, t: Tcb, p: nat, levels: nat)
    requires Inv(s, levels) && t in s.thr && p < levels
    ensures Shaped(PriorityInHand(s, t, p, levels), levels)
    ensures var s', r := ChangePriority(s, t, p, levels), s.thr[t];
            && (r.stat != Ready ==> OnlyThread(s, s', t, r.(prio := p)) && SameRows(s, s'))
            && (r.stat == Ready ==> OnlyThread(s, s', t, r.(prio := p, yielded := false)) && MovedFirst(s, s', t, r.bind, p))
  {
    hide Inv, Shaped, Remove, Insert, MovedFirst;
    ShapedOf(s, levels);
    ChangePriorityKeepsInv(s, t, p, levels);
    if s.thr[t].stat == Ready {
      Detached(s, t, levels);
      InHandIs(s, t, s.thr[t].(prio := p, stat := Init, yielded := false), levels);
      InHandMoves(s, t, s.thr[t].(prio := p, stat := Init, yielded := false), levels);
    } else {
      SameQueues(s, ChangePriority(s, t, p, levels));
    }
  }

  lemma InHandIs(s: State, t: Tcb, r: Rec, levels: nat)
    requires Shaped(s, levels) && t in s.thr
    ensures Unqueue(s, t, levels).WithRec(t, r) == Remove(s, t, levels).WithRec(t, r)
    ensures Unqueue(s, t, levels).thr[t] == s.thr[t].(stat := Suspended, yielded := false)
  {
    RemoveRows(s, t, levels);
    assert Unqueue(s, t, levels).WithRec(t, r).thr == s.thr[t := r];
  }

  /** A ready thread goes from its list to the front of the one of its new binding; any other only
      gets the binding.  A number that is no CPU's means none. */
  lemma BindMoves(s: State, t: Tcb, cpu: nat, levels: nat)
    requires Inv(s, levels) && t in s.thr
    ensures Shaped(BindInHand(s, t, cpu, levels), levels)
    ensures var s', r := Bind(s, t, cpu, levels), s.thr[t]; var b := if cpu < s.Cpus() then cpu else s.Cpus();
            && (r.stat != Ready ==> OnlyThread(s, s', t, r.(bind := b)) && SameRows(s, s'))
            && (r.stat == Ready ==> OnlyThread(s, s', t, r.(bind := b, yielded := false)) && MovedFirst(s, s', t, b, r.prio))
  {
    hide Inv, Shaped, Remove, Insert, MovedFirst;
    ShapedOf(s, levels);
    BindKeepsInv(s, t, cpu, levels);
    CpusKept(s, t, levels);
    var b := if cpu < s.Cpus() then cpu else s.Cpus();
    if s.thr[t].stat == Ready {
      Detached(s, t, levels);
      InHandIs(s, t, s.thr[t].(bind := b, stat := Suspended, yielded := false), levels);
      InHandMoves(s, t, s.thr[t].(bind := b, stat := Suspended, yielded := false), levels);
    } else {
      SameQueues(s, Bind(s, t, cpu, levels));
    }
  }

  lemma CpusKept(s: State, t: Tcb, levels: nat)
    requires Shaped(s, levels) && t in s.thr
    ensures Unqueue(s, t, levels).Cpus() == s.Cpus()
  {
  }

  // -------------------------------------------------------------------------------------
  // Switching
  // -------------------------------------------------------------------------------------

  /** The picked thread is the first of its list, and one of the global queue is picked only if the
      CPU's own lists of its priority and above are empty. */
  lemma PickIsFirst(s: State, c: nat, levels: nat)
    requires Inv(s, levels) && c < s.Cpus()
    ensures var (to, p) := Pick(s, c, levels);
            && (to != null ==> to in s.thr && p == s.thr[to].prio && Row(s, s.thr[to].bind, p) != [] && Row(s, s.thr[to].bind, p)[0] == to)
            && (to != null && s.thr[to].bind == s.Cpus() ==> forall i :: 0 <= i <= p ==> Row(s, c, i) == [])
  {
    PickIsReady(s, c, levels);
    var global, local := s.queues[s.Cpus()], s.queues[c];
    assert QueueOk(global, levels) && QueueOk(local, levels);
    var (to, p) := Pick(s, c, levels);
    if to != null {
      var q := if global.index.Highest() < local.index.Highest() then s.Cpus() else c;
      assert to == s.queues[q].table[p][0] && to in s.queues[q].table[p];
      if q == s.Cpus() {
        forall i | 0 <= i <= p ensures Row(s, c, i) == [] { assert !local.index.Has(i); }
      }
    }
  }

  /** The lists after CPU c went from one thread to another: the new one was first and is gone; the
      old one, if it can run, is last in its list when it has yielded and first when it has not; all
      else keeps its order. */
  ghost predicate SwitchedRows(s: State, s': State, cur: Tcb, to: Tcb)
    requires cur in s.thr && to in s.thr
  {
    var r, x := s.thr[cur], s.thr[to];
    && |s'.queues| == |s.queues|
    && Row(s, x.bind, x.prio) != [] && Row(s, x.bind, x.prio)[0] == to
    && (forall q: nat, i: nat :: Row(s', q, i) ==
          var rest := if q == x.bind && i == x.prio then Row(s, q, i)[1..] else Row(s, q, i);
          if r.stat == Running && q == r.bind && i == r.prio then (if r.yielded then rest + [cur] else [cur] + rest) else rest)
  }

  lemma GiveOutRows(s: State, c: nat, levels: nat)
    requires Inv(s, levels) && c < s.Cpus() && s.current[c] != null
    ensures var cur := s.current[c]; cur in s.thr && Shaped(Detach(s, c), levels)
    ensures var s1, cur, r := GiveOut(s, c, levels), s.current[c], s.thr[s.current[c]];
            && (r.stat != Running ==> SameRows(s, s1))
            && (r.stat == Running ==>
                  && RowsBut(s, s1, r.bind, r.prio)
                  && Row(s1, r.bind, r.prio) == if r.yielded then Row(s, r.bind, r.prio) + [cur] else [cur] + Row(s, r.bind, r.prio))
  {
    hide Inv, Shaped, Insert;
    ShapedOf(s, levels);
    CurrentOk(s, c, levels);
    DetachKeeps(s, c, levels);
    ShapedBut(Detach(s, c), s.current[c], levels);
    SameQueues(s, Detach(s, c));
    if s.thr[s.current[c]].stat == Running {
      InsertRows(Detach(s, c), s.current[c], levels);
      SameQueues(Insert(Detach(s, c), s.current[c], levels), GiveOut(s, c, levels));
    }
  }

  lemma ShapedBut(s: State, x: Tcb, levels: nat)
    requires InvBut(s, x, levels)
    ensures Shaped(s, levels)
  {
  }

  /** If the core passes on, the lists change as said; if not, they do not change. */
  lemma ScheduleRows(s: State, c: nat, levels: nat)
    requires Inv(s, levels) && c < s.Cpus() && s.current[c] != null
    ensures var s', cur := Schedule(s, c, levels), s.current[c];
            && |s'.current| == s.Cpus() && (s'.current[c] == cur ==> SameRows(s, s') && s'.current == s.current)
            && (s'.current[c] != cur ==> cur in s.thr && s'.current[c] in s.thr && SwitchedRows(s, s', cur, s'.current[c])
                                         && s'.current == s.current[c := s'.current[c]])
  {
    hide Inv, Shaped, GiveOut, Remove, Pick, SwitchedRows, OnlyThread;
    ShapedOf(s, levels);
    CurrentOk(s, c, levels);
    PickIsFirst(s, c, levels);
    PickIsReady(s, c, levels);
    var (to, p) := Pick(s, c, levels);
    if to != null && !Stays(s.thr[s.current[c]], c, s.Cpus(), p) {
      SwitchChanges(s, c, levels);
      GiveOutKeeps(s, c, levels);
      GiveOutRows(s, c, levels);
      var s1 := GiveOut(s, c, levels);
      ShapedOf(s1, levels);
      RemoveRows(s1, to, levels);
      HeadGone(s, s1, s.current[c], to);
      RowsJoin(s, s1, Remove(s1, to, levels), s.current[c], to);
      SwitchSame(s, Remove(s1, to, levels), Schedule(s, c, levels), s.current[c], to);
    } else {
      SameQueues(s, Schedule(s, c, levels));
    }
  }

  lemma SwitchSame(s: State, u: State, s': State, cur: Tcb, to: Tcb)
    requires cur in s.thr && to in s.thr && SwitchedRows(s, u, cur, to) && s'.queues == u.queues
    ensures SwitchedRows(s, s', cur, to)
  {
  }

  lemma RowsJoin(s: State, s1: State, s2: State, cur: Tcb, to: Tcb)
    requires cur in s.thr && to in s.thr
    requires var x := s.thr[to];
             && Row(s, x.bind, x.prio) != [] && Row(s, x.bind, x.prio)[0] == to && RowsBut(s1, s2, x.bind, x.prio)
    requires var x, r := s.thr[to], s.thr[cur]; var was := Row(s, x.bind, x.prio);
             Row(s2, x.bind, x.prio) ==
               if r.stat == Running && x.bind == r.bind && x.prio == r.prio then (if r.yielded then was[1..] + [cur] else [cur] + was[1..]) else was[1..]
    requires var r := s.thr[cur];
             && (r.stat != Running ==> SameRows(s, s1))
             && (r.stat == Running ==>
                   && RowsBut(s, s1, r.bind, r.prio)
                   && Row(s1, r.bind, r.prio) == if r.yielded then Row(s, r.bind, r.prio) + [cur] else [cur] + Row(s, r.bind, r.prio))
    ensures SwitchedRows(s, s2, cur, to)
  {
  }

  lemma ShapedOf(s: State, levels: nat)
    requires Inv(s, levels)
    ensures Shaped(s, levels)
  {
  }

  /** Taking the first of a list out once the old thread is in. */
  lemma HeadGone(s: State, s1: State, cur: Tcb, to: Tcb)
    requires cur in s.thr && to in s.thr && to in s1.thr && s1.thr[to].bind == s.thr[to].bind && s1.thr[to].prio == s.thr[to].prio && cur != to
    requires var x := s.thr[to]; Row(s, x.bind, x.prio) != [] && Row(s, x.bind, x.prio)[0] == to
    requires var r := s.thr[cur];
             && (r.stat != Running ==> SameRows(s, s1))
             && (r.stat == Running ==>
                   && RowsBut(s, s1, r.bind, r.prio)
                   && Row(s1, r.bind, r.prio) == if r.yielded then Row(s, r.bind, r.prio) + [cur] else [cur] + Row(s, r.bind, r.prio))
    ensures var x, r := s.thr[to], s.thr[cur]; var was := Row(s, x.bind, x.prio);
            Without(Row(s1, x.bind, x.prio), to) ==
              if r.stat == Running && x.bind == r.bind && x.prio == r.prio then (if r.yielded then was[1..] + [cur] else [cur] + was[1..]) else was[1..]
  {
    var x, r := s.thr[to], s.thr[cur];
    var was := Row(s, x.bind, x.prio);
    assert Without(was, to) == was[1..];
    assert (was + [cur])[1..] == was[1..] + [cur];
    assert ([cur] + was)[1..] == was;
  }

  lemma OneRec(s: State, t: Tcb, r: Rec)
    requires t in s.thr
    ensures OnlyThread(s, s.WithRec(t, r), t, r) && SameRows(s, s.WithRec(t, r))
  {
    SameQueues(s, s.WithRec(t, r));
  }

  /** A thread that keeps the core against another one that is ready has used up its yield request;
      with none ready nothing changes at all. */
  lemma StayChanges(s: State, c: nat, levels: nat)
    requires Inv(s, levels) && c < s.Cpus() && s.current[c] != null && Schedule(s, c, levels).current[c] == s.current[c]
    ensures s.current[c] in s.thr
    ensures var rival := exists t :: t in s.thr && s.thr[t].stat == Ready && (s.thr[t].bind == s.Cpus() || s.thr[t].bind == c);
            Schedule(s, c, levels) == if rival then s.WithRec(s.current[c], s.thr[s.current[c]].(yielded := false)) else s
  {
    hide Shaped, OnCpuAgrees, QueuedBut, StatsBut, Pick;
    CurrentOk(s, c, levels);
    PickIsReady(s, c, levels);
    BelowAll(s, levels);
    var (to, p) := Pick(s, c, levels);
    if to != null && !Stays(s.thr[s.current[c]], c, s.Cpus(), p) { SwitchChanges(s, c, levels); }
  }

  /** The first thread of a CPU was first in its list and left it. */
  lemma StartMoves(s: State, c: nat, levels: nat)
    requires Inv(s, levels) && c < s.Cpus() && s.current[c] == null
    ensures var s', to := Start(s, c, levels), Pick(s, c, levels).0;
            && (to == null ==> s' == s)
            && (to != null ==>
                  && to in s.thr && s'.current == s.current[c := to]
                  && s'.thr == s.thr[to := s.thr[to].(yielded := false, oncpu := c, stat := Running)]
                  && RowsBut(s, s', s.thr[to].bind, s.thr[to].prio)
                  && Row(s, s.thr[to].bind, s.thr[to].prio) == [to] + Row(s', s.thr[to].bind, s.thr[to].prio))
  {
    hide Inv, Shaped, Remove, Pick;
    ShapedOf(s, levels);
    PickIsReady(s, c, levels);
    PickIsFirst(s, c, levels);
    var to := Pick(s, c, levels).0;
    if to != null {
      RemoveRows(s, to, levels);
      SameQueues(Remove(s, to, levels), Start(s, c, levels));
    }
  }

  // -------------------------------------------------------------------------------------
  // Round robin on one CPU
  // -------------------------------------------------------------------------------------

  /** One tick on CPU c, with the rescheduling it asks for when the slice is used up. */
  ghost function TickOn(s: State, c: nat, levels: nat): (r: State)
    requires Inv(s, levels) && c < s.Cpus() && s.current[c] != null
    ensures Inv(r, levels) && r.Cpus() == s.Cpus() && r.current[c] != null
  {
    hide Inv;
    CurrentOk(s, c, levels);
    NextKeepsInv(s, TickStep(c, 1), levels);
    var s1 := Next(s, TickStep(c, 1), levels);
    if s.thr[s.current[c]].remaining > 1 then s1 else
      NextKeepsInv(s1, ScheduleStep(c), levels);
      ScheduleRows(s1, c, levels);
      Next(s1, ScheduleStep(c), levels)
  }

  ghost function Ticks(s: State, c: nat, n: nat, levels: nat): (r: State)
    requires Inv(s, levels) && c < s.Cpus() && s.current[c] != null
    ensures Inv(r, levels) && r.Cpus() == s.Cpus() && r.current[c] != null
    decreases n
  {
    if n == 0 then s else Ticks(TickOn(s, c, levels), c, n - 1, levels)
  }

  lemma {:induction false} TicksAdd(s: State, c: nat, a: nat, b: nat, levels: nat)
    requires Inv(s, levels) && c < s.Cpus() && s.current[c] != null
    ensures Ticks(s, c, a + b, levels) == Ticks(Ticks(s, c, a, levels), c, b, levels)
    decreases a
  {
    hide Inv, TickOn;
    if a > 0 { TicksAdd(TickOn(s, c, levels), c, a - 1, b, levels); }
  }

  /** CPU c runs a thread no ready thread is more urgent than; if that thread is bound to no CPU,
      c's own list of its priority is empty. */
  ghost predicate OnTop(s: State, c: nat, levels: nat) {
    && Inv(s, levels) && c < s.Cpus() && s.current[c] != null && s.current[c] in s.thr
    && var r := s.thr[s.current[c]];
       && r.stat == Stat.Running && (r.bind == c || r.bind == s.Cpus())
       && (forall i :: 0 <= i < r.prio ==> Row(s, c, i) == [] && Row(s, s.Cpus(), i) == [])
       && (r.bind == s.Cpus() ==> Row(s, c, r.prio) == [])
  }

  /** The list the current thread of CPU c goes back to. */
  function Peers(s: State, c: nat): seq<Tcb>
    requires c < s.Cpus() && s.current[c] in s.thr
  {
    Row(s, s.thr[s.current[c]].bind, s.thr[s.current[c]].prio)
  }

  /** With no slice left a thread has one tick. */
  function Slice(r: Rec): nat { if r.remaining == 0 then 1 else r.remaining }

  function Slices(thr: map<Tcb, Rec>, q: seq<Tcb>, k: nat): nat
    requires k <= |q| && forall t :: t in q ==> t in thr
  {
    if k == 0 then 0 else Slice(thr[q[0]]) + Slices(thr, q[1..], k - 1)
  }

  /** n ticks at once leave the record that n single ticks leave, or those that end the slice. */
  lemma {:induction false} TickIsTicks(r: Rec, n: nat)
    requires n > 0
    ensures TickRec(r, n) == TickTimes(r, if n < Slice(r) then n else Slice(r))
    ensures n < Slice(r) ==> TickRec(r, n) == r.(remaining := r.remaining - n)
    ensures n >= Slice(r) ==> TickRec(r, n) == r.(remaining := r.initTick, yielded := true)
    decreases r.remaining
  {
    if r.remaining > 1 && n > 1 {
      TickIsTicks(TickRec(r, 1), n - 1);
    } else {
      assert TickTimes(TickRec(r, 1), 0) == TickRec(r, 1);
    }
  }

  function TickTimes(r: Rec, n: nat): Rec
    decreases n
  {
    if n == 0 then r else TickTimes(TickRec(r, 1), n - 1)
  }

  lemma {:induction false} Burn(s: State, c: nat, n: nat, levels: nat)
    requires Inv(s, levels) && c < s.Cpus() && s.current[c] != null && s.current[c] in s.thr && n < Slice(s.thr[s.current[c]])
    ensures var r := s.thr[s.current[c]]; Ticks(s, c, n, levels) == s.WithRec(s.current[c], r.(remaining := r.remaining - n))
    decreases n
  {
    hide Inv;
    if n > 0 {
      var s1 := TickOn(s, c, levels);
      Burn(s1, c, n - 1, levels);
      assert s1.thr[s.current[c] := s1.thr[s.current[c]].(remaining := s1.thr[s.current[c]].remaining - (n - 1))]
          == s.thr[s.current[c] := s.thr[s.current[c]].(remaining := s.thr[s.current[c]].remaining - n)];
    } else {
      var r := s.thr[s.current[c]];
      assert s.thr[s.current[c] := r.(remaining := r.remaining - 0)] == s.thr;
    }
  }

  /** The first of the peers runs, and the thread before it is last among them with a new slice. */
  ghost predicate Turned(s: State, s': State, c: nat)
    requires c < s.Cpus() && s.current[c] in s.thr
  {
    var cur, q := s.current[c], Peers(s, c);
    var r := s.thr[cur];
    && q != [] && q[0] in s.thr && q[0] != cur && s'.current == s.current[c := q[0]]
    && s'.thr == s.thr[cur := r.(oncpu := s.Cpus(), stat := Ready, yielded := false, remaining := r.initTick)]
                      [q[0] := s.thr[q[0]].(oncpu := c, stat := Stat.Running)]
    && RowsBut(s, s', r.bind, r.prio) && Row(s', r.bind, r.prio) == q[1..] + [cur]
  }

  lemma PeersKnown(s: State, c: nat, levels: nat)
    requires OnTop(s, c, levels)
    ensures var cur, q := s.current[c], Peers(s, c);
            && Distinct(q) && cur !in q
            && forall t :: t in q ==> t in s.thr && s.thr[t].stat == Ready && s.thr[t].bind == s.thr[cur].bind && s.thr[t].prio == s.thr[cur].prio
  {
    var r := s.thr[s.current[c]];
    assert RecOk(s, r, levels) && QueueOk(s.queues[r.bind], levels);
  }

  /** The picked thread is the first of the peers. */
  lemma PeerPicked(s: State, c: nat, levels: nat)
    requires OnTop(s, c, levels) && Peers(s, c) != []
    ensures Pick(s, c, levels) == (Peers(s, c)[0], s.thr[s.current[c]].prio)
  {
    PeersKnown(s, c, levels);
    hide Inv, Pick;
    PickIsFirst(s, c, levels);
    PickIsReady(s, c, levels);
    assert Peers(s, c)[0] in Peers(s, c);
    BelowAll(s, levels);
  }

  lemma YieldedOnTop(s: State, c: nat, r: Rec, levels: nat)
    requires OnTop(s, c, levels) && Inv(s.WithRec(s.current[c], r), levels)
    requires var x := s.thr[s.current[c]]; r == x.(remaining := r.remaining, yielded := r.yielded)
    ensures var s1 := s.WithRec(s.current[c], r); OnTop(s1, c, levels) && Peers(s1, c) == Peers(s, c)
  {
    hide Inv;
    OneRec(s, s.current[c], r);
  }

  /** The last tick of a slice. */
  lemma LastTick(s: State, c: nat, levels: nat)
    requires OnTop(s, c, levels) && Peers(s, c) != [] && s.thr[s.current[c]].remaining <= 1
    ensures Turned(s, TickOn(s, c, levels), c)
  {
    hide Inv, OnTop, Peers, Schedule, Row, Pick;
    TopFacts(s, c, levels);
    NextKeepsInv(s, TickStep(c, 1), levels);
    var cur := s.current[c];
    var s1 := Next(s, TickStep(c, 1), levels);
    assert s1 == s.WithRec(cur, YieldRec(s.thr[cur]));
    YieldedOnTop(s, c, YieldRec(s.thr[cur]), levels);
    OneRec(s, cur, YieldRec(s.thr[cur]));
    PeerPicked(s1, c, levels);
    SwitchChanges(s1, c, levels);
    ScheduleRows(s1, c, levels);
    TurnedBy(s, s1, Schedule(s1, c, levels), c, levels);
  }

  lemma TopFacts(s: State, c: nat, levels: nat)
    requires OnTop(s, c, levels)
    ensures Inv(s, levels) && c < s.Cpus() && s.current[c] != null && s.current[c] in s.thr && s.thr[s.current[c]].stat == Stat.Running
  {
  }

  lemma TurnedBy(s: State, s1: State, s': State, c: nat, levels: nat)
    requires OnTop(s, c, levels) && s1 == s.WithRec(s.current[c], YieldRec(s.thr[s.current[c]])) && Peers(s, c) != [] && SameRows(s, s1)
    requires var cur, to := s.current[c], Peers(s, c)[0];
             && to in s.thr && to != cur && s'.current == s.current[c := to] && SwitchedRows(s1, s', cur, to)
             && s'.thr.Keys == s1.thr.Keys && (forall t :: t in s1.thr && t != cur && t != to ==> s'.thr[t] == s1.thr[t])
             && s'.thr[to] == s1.thr[to].(oncpu := c, stat := Stat.Running) && s'.thr[cur] == GivenOut(s1.thr[cur], s.Cpus())
    ensures Turned(s, s', c)
  {
    PeersKnown(s, c, levels);
    var cur, to, r := s.current[c], Peers(s, c)[0], s.thr[s.current[c]];
    assert to in Peers(s, c);
    hide Inv;
    assert s'.thr == s.thr[cur := r.(oncpu := s.Cpus(), stat := Ready, yielded := false, remaining := r.initTick)]
                          [to := s.thr[to].(oncpu := c, stat := Stat.Running)];
  }

  lemma TurnedOnTop(s: State, s': State, c: nat, levels: nat)
    requires OnTop(s, c, levels) && Turned(s, s', c) && Inv(s', levels)
    ensures OnTop(s', c, levels) && Peers(s', c) == Peers(s, c)[1..] + [s.current[c]]
    ensures s'.thr[s'.current[c]].prio == s.thr[s.current[c]].prio && s'.thr[s'.current[c]].bind == s.thr[s.current[c]].bind
  {
    PeersKnown(s, c, levels);
    assert Peers(s, c)[0] in Peers(s, c);
    hide Inv;
  }

  /** The current thread runs to the end of its slice; then its peers turn by one. */
  lemma SliceEnds(s: State, c: nat, levels: nat)
    requires OnTop(s, c, levels) && Peers(s, c) != []
    ensures var n := Slice(s.thr[s.current[c]]);
            && (forall m :: 0 <= m < n ==> Ticks(s, c, m, levels).current[c] == s.current[c] && Ticks(s, c, m, levels).queues == s.queues)
            && Turned(s, Ticks(s, c, n, levels), c) && OnTop(Ticks(s, c, n, levels), c, levels)
  {
    hide Inv, OnTop, Peers, Ticks, TickOn, Turned;
    TopFacts(s, c, levels);
    var cur, r, n := s.current[c], s.thr[s.current[c]], Slice(s.thr[s.current[c]]);
    forall m | 0 <= m < n ensures Ticks(s, c, m, levels).current[c] == cur && Ticks(s, c, m, levels).queues == s.queues {
      Burn(s, c, m, levels);
    }
    Burn(s, c, n - 1, levels);
    TicksAdd(s, c, n - 1, 1, levels);
    var x := r.(remaining := r.remaining - (n - 1));
    var s1 := s.WithRec(cur, x);
    YieldedOnTop(s, c, x, levels);
    LastTick(s1, c, levels);
    OneTick(s1, c, levels);
    TurnedSame(s, s1, TickOn(s1, c, levels), c, x);
    TurnedOnTop(s, TickOn(s1, c, levels), c, levels);
  }

  lemma OneTick(s: State, c: nat, levels: nat)
    requires Inv(s, levels) && c < s.Cpus() && s.current[c] != null
    ensures Ticks(s, c, 1, levels) == TickOn(s, c, levels)
  {
    hide Inv, TickOn;
    assert Ticks(TickOn(s, c, levels), c, 0, levels) == TickOn(s, c, levels);
  }

  lemma TurnedSame(s: State, s1: State, s': State, c: nat, x: Rec)
    requires c < s.Cpus() && s.current[c] in s.thr && s1 == s.WithRec(s.current[c], x) && Turned(s1, s', c)
    requires var r := s.thr[s.current[c]]; x == r.(remaining := x.remaining)
    ensures Turned(s, s', c)
  {
    var cur, r := s.current[c], s.thr[s.current[c]];
    OneRec(s, cur, x);
    var y := r.(oncpu := s.Cpus(), stat := Ready, yielded := false, remaining := r.initTick);
    assert s1.thr[cur := y] == s.thr[cur := y];
  }

  /** The thread at place k of the current thread's list is current at every tick from the end of the
      slices before it to the end of its own, and the list has only turned. */
  lemma {:induction false} RoundRobin(s: State, c: nat, k: nat, levels: nat)
    requires OnTop(s, c, levels) && k < |Peers(s, c)|
    ensures var q, r := Peers(s, c), s.thr[s.current[c]];
            && (forall t :: t in q ==> t in s.thr)
            && var n := Slice(r) + Slices(s.thr, q, k);
               forall m :: n <= m < n + Slice(s.thr[q[k]]) ==>
                 && Ticks(s, c, m, levels).current[c] == q[k]
                 && Row(Ticks(s, c, m, levels), r.bind, r.prio) == q[k + 1..] + [s.current[c]] + q[..k]
    decreases k
  {
    hide Inv, OnTop, Peers, Ticks, TickOn, Slice, Row;
    TopFacts(s, c, levels);
    PeersKnown(s, c, levels);
    var cur, q, r := s.current[c], Peers(s, c), s.thr[s.current[c]];
    SliceEnds(s, c, levels);
    var a := Slice(r);
    var n := a + Slices(s.thr, q, k);
    var s1 := Ticks(s, c, a, levels);
    TurnedOnTop(s, s1, c, levels);
    TopFacts(s1, c, levels);
    var q' := q[1..] + [cur];
    TurnedSlices(s, s1, c, q, levels);
    if k == 0 {
      assert q[1..] + [cur] + q[..0] == q';
      forall m | n <= m < n + Slice(s.thr[q[k]])
        ensures Ticks(s, c, m, levels).current[c] == q[k] && Row(Ticks(s, c, m, levels), r.bind, r.prio) == q[k + 1..] + [cur] + q[..k]
      {
        TicksAdd(s, c, a, m - a, levels);
        Burn(s1, c, m - a, levels);
        PeersAre(s1, Ticks(s1, c, m - a, levels), c);
      }
    } else {
      RoundRobin(s1, c, k - 1, levels);
      SlicesTurn(s.thr, s1.thr, q, cur, k);
      TurnTwice(q, cur, k);
      forall m | n <= m < n + Slice(s.thr[q[k]])
        ensures Ticks(s, c, m, levels).current[c] == q[k] && Row(Ticks(s, c, m, levels), r.bind, r.prio) == q[k + 1..] + [cur] + q[..k]
      {
        TicksAdd(s, c, a, m - a, levels);
      }
    }
  }

  lemma PeersAre(s: State, s': State, c: nat)
    requires c < s.Cpus() && s.current[c] in s.thr && s'.queues == s.queues
    ensures Row(s', s.thr[s.current[c]].bind, s.thr[s.current[c]].prio) == Peers(s, c)
  {
  }

  lemma TurnedSlices(s: State, s1: State, c: nat, q: seq<Tcb>, levels: nat)
    requires OnTop(s, c, levels) && q == Peers(s, c) && Turned(s, s1, c)
    ensures s.current[c] in s1.thr && forall t :: t in q ==> t in s.thr && t in s1.thr && Slice(s1.thr[t]) == Slice(s.thr[t])
  {
    PeersKnown(s, c, levels);
    hide Inv;
  }

  lemma SlicesTurn(was: map<Tcb, Rec>, now: map<Tcb, Rec>, q: seq<Tcb>, cur: Tcb, k: nat)
    requires 0 < k < |q| && cur in now && forall t :: t in q ==> t in was && t in now && Slice(now[t]) == Slice(was[t])
    ensures forall t :: t in q[1..] + [cur] ==> t in now
    ensures Slices(was, q, k) == Slice(was[q[0]]) + Slices(now, q[1..] + [cur], k - 1)
  {
    SlicesSame(was, now, q[1..], q[1..] + [cur], k - 1);
  }

  lemma {:induction false} SlicesSame(was: map<Tcb, Rec>, now: map<Tcb, Rec>, q: seq<Tcb>, q': seq<Tcb>, k: nat)
    requires k <= |q| && k <= |q'| && (forall t :: t in q ==> t in was) && (forall t :: t in q' ==> t in now)
    requires forall i :: 0 <= i < k ==> q[i] == q'[i] && Slice(now[q[i]]) == Slice(was[q[i]])
    ensures Slices(was, q, k) == Slices(now, q', k)
  {
    if k > 0 {
      assert forall i :: 0 <= i < k - 1 ==> q[1..][i] == q[i + 1] && q'[1..][i] == q'[i + 1];
      SlicesSame(was, now, q[1..], q'[1..], k - 1);
    }
  }

  lemma TurnTwice(q: seq<Tcb>, cur: Tcb, k: nat)
    requires 0 < k < |q|
    ensures var q' := q[1..] + [cur]; q'[k..] + [q[0]] + q'[..k - 1] == q[k + 1..] + [cur] + q[..k] && q'[k - 1] == q[k]
  {
    var q' := q[1..] + [cur];
    assert q'[k..] == q[k + 1..] + [cur];
    assert [q[0]] + q'[..k - 1] == q[..k];
  }

  /** Among threads as urgent, those bound to a CPU and waiting in its own list keep it from all
      others for as long as nothing else happens: an unbound one never gets its turn there. */
  lemma {:induction false} OwnListFirst(s: State, c: nat, n: nat, levels: nat)
    requires OnTop(s, c, levels) && s.thr[s.current[c]].bind == c && Peers(s, c) != []
    ensures var s', q := Ticks(s, c, n, levels), Peers(s, c);
            && (s'.current[c] == s.current[c] || s'.current[c] in q)
            && s'.current[c] in s'.thr && s'.thr[s'.current[c]].bind == c
    decreases n
  {
    hide Inv, OnTop, Peers, Ticks, TickOn, Turned, Slice;
    TopFacts(s, c, levels);
    var a := Slice(s.thr[s.current[c]]);
    SliceEnds(s, c, levels);
    if n < a {
      Burn(s, c, n, levels);
    } else {
      var s1 := Ticks(s, c, a, levels);
      TurnedOnTop(s, s1, c, levels);
      TurnedFirst(s, s1, c);
      PositiveSlice(s.thr[s.current[c]]);
      OwnListFirst(s1, c, n - a, levels);
      TicksAdd(s, c, a, n - a, levels);
    }
  }

  lemma TurnedFirst(s: State, s1: State, c: nat)
    requires c < s.Cpus() && s.current[c] in s.thr && Turned(s, s1, c)
    ensures c < s1.Cpus() && s1.current[c] in Peers(s, c)
  {
  }

  lemma PositiveSlice(r: Rec)
    ensures Slice(r) > 0
  {
  }

  // -------------------------------------------------------------------------------------
  // Steps of runs
  // -------------------------------------------------------------------------------------

  /** The steps of a run are the calls these laws are about. */
  lemma StepsAreCalls(s: State, step: Step, levels: nat)
    requires Inv(s, levels) && Enabled(s, step, levels)
    ensures var s' := Next(s, step, levels);
            match step
            case CreateStep(t, prio, tick) => OnlyThread(s, s', t, Rec(Init, false, s.Cpus(), s.Cpus(), prio, tick, tick)) && SameRows(s, s')
            case StartupStep(t) => OnlyThread(s, s', t, s.thr[t].(stat := Suspended, yielded := false)) && SameRows(s, s')
            case WakeStep(t) => s' == Wake(s, t, levels).0
            case SuspendStep(c) => s.current[c] in s.thr && s' == Suspend(s, s.current[c], levels).0
            case CloseStep(t) => s' == Close(s, t, levels)
            case TickStep(c, tick) =>
              s.current[c] in s.thr && OnlyThread(s, s', s.current[c], TickRec(s.thr[s.current[c]], tick)) && SameRows(s, s')
            case YieldStep(c) =>
              s.current[c] in s.thr && SameRows(s, s')
              && OnlyThread(s, s', s.current[c], s.thr[s.current[c]].(remaining := s.thr[s.current[c]].initTick, yielded := true))
            case BindStep(t, cpu) => Shaped(BindInHand(s, t, cpu, levels), levels) && s' == Bind(s, t, cpu, levels)
            case PriorityStep(t, p) => Shaped(PriorityInHand(s, t, p, levels), levels) && s' == ChangePriority(s, t, p, levels)
            case ScheduleStep(c) => s' == Schedule(s, c, levels)
            case StartStep(c) => s' == Start(s, c, levels)
  {
    hide Inv, Shaped, Insert, Remove, Unqueue, Close, Schedule, Start, SameRows;
    match step
    case TickStep(c, _) =>
      CurrentOk(s, c, levels);
      SameQueues(s, Next(s, step, levels));
    case YieldStep(c) =>
      CurrentOk(s, c, levels);
      SameQueues(s, Next(s, step, levels));
    case SuspendStep(c) => CurrentOk(s, c, levels);
    case BindStep(t, cpu) => BindKeepsInv(s, t, cpu, levels);
    case PriorityStep(t, p) => ChangePriorityKeepsInv(s, t, p, levels);
    case CreateStep(_, _, _) => SameQueues(s, Next(s, step, levels));
    case StartupStep(_) => SameQueues(s, Next(s, step, levels));
    case _ =>
  }
}
