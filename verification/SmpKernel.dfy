/** The multi-core scheduler code on threads and per-CPU tables updated in place, proved equal
    to the steps of SmpScheduling.dfy.  Each method is the body of one locked section. */
module SmpKernel {
  import opened Lists
  import opened ReadyIndex
  import opened SmpScheduling

  ghost function TcbAbs(t: Tcb): Rec
    reads t
  {
    Rec(t.stat, t.yielded, t.oncpu, t.bindCpu, t.priority, t.initTick, t.remainingTick)
  }

  class Scheduler {
    ghost const threads: set<Tcb>
    ghost const levels: nat
    var queues: seq<Queue>        // per-CPU tables, then rt_thread_priority_table
    var current: seq<Tcb?>        // pcpu->current_thread

    ghost function Abs(): State
      reads this, threads
    {
      State(map t | t in threads :: TcbAbs(t), queues, current)
    }

    ghost predicate Valid()
      reads this, threads
    {
      Inv(Abs(), levels)
    }

    /** rt_system_scheduler_init: no thread is queued or running anywhere. */
    constructor (ghost ts: set<Tcb>, cpus: nat, index: Index)
      requires index.Valid() && forall p :: 0 <= p < index.Levels() ==> !index.Has(p)
      requires forall t :: t in ts ==> t.stat == Init && t.oncpu == t.bindCpu == cpus && t.priority < index.Levels()
      ensures Valid() && Initial(Abs(), levels) && threads == ts && levels == index.Levels()
      ensures |current| == cpus && forall c :: 0 <= c < cpus ==> current[c] == null
    {
      threads, levels := ts, index.Levels();
      queues := seq(cpus + 1, _ => Queue(seq(index.Levels(), _ => []), index));
      current := seq(cpus, _ => null);
      new;
      ghost var s := Abs();
      assert s.queues == queues && s.current == current;
      hide Abs;
      InitialInv(s, levels);
    }

    lemma AbsAt(t: Tcb)
      requires t in threads
      ensures t in Abs().thr && Abs().thr[t] == TcbAbs(t)
    {
    }

    lemma AbsFields()
      ensures Abs().queues == queues && Abs().current == current
    {
    }

    lemma AbsKeys()
      ensures Abs().thr.Keys == threads
    {
    }

    method SetThread(t: Tcb, stat: Stat, yielded: bool)
      requires t in threads
      modifies t`stat, t`yielded
      ensures var s := old(Abs()); Abs() == s.WithRec(t, s.thr[t].(stat := stat, yielded := yielded))
    {
      t.stat, t.yielded := stat, yielded;
      assert Abs().thr == old(Abs()).thr[t := TcbAbs(t)];
    }

    method SetBind(t: Tcb, cpu: nat)
      requires t in threads
      modifies t`bindCpu
      ensures var s := old(Abs()); Abs() == s.WithRec(t, s.thr[t].(bind := cpu))
    {
      t.bindCpu := cpu;
      assert Abs().thr == old(Abs()).thr[t := TcbAbs(t)];
    }

    method SetPriority(t: Tcb, priority: nat)
      requires t in threads
      modifies t`priority
      ensures var s := old(Abs()); Abs() == s.WithRec(t, s.thr[t].(prio := priority))
    {
      t.priority := priority;
      assert Abs().thr == old(Abs()).thr[t := TcbAbs(t)];
    }

    method ResetAtPriority(t: Tcb, priority: nat)
      requires t in threads
      modifies t`priority, t`stat, t`yielded
      ensures var s := old(Abs()); Abs() == s.WithRec(t, s.thr[t].(prio := priority, stat := Init, yielded := false))
    {
      t.priority := priority;
      t.stat, t.yielded := Init, false;
      assert Abs().thr == old(Abs()).thr[t := TcbAbs(t)];
    }

    method SetOnCpu(t: Tcb, cpu: nat)
      requires t in threads
      modifies t`oncpu
      ensures var s := old(Abs()); Abs() == s.WithRec(t, s.thr[t].(oncpu := cpu))
    {
      t.oncpu := cpu;
      assert Abs().thr == old(Abs()).thr[t := TcbAbs(t)];
    }

    /** _sched_insert_thread_locked. */
    method InsertThreadLocked(t: Tcb)
      requires Shaped(Abs(), levels) && t in threads
      modifies t`stat, this`queues
      ensures Abs() == Insert(old(Abs()), t, levels)
    {
      ghost var s := Abs();
      AbsAt(t);
      assert RecOk(s, s.thr[t], levels) && QueueOk(s.queues[t.bindCpu], levels);
      if t.stat == Ready {
        return;
      } else if t.oncpu != |current| {
        t.stat := Running;
        assert Abs().thr == s.thr[t := TcbAbs(t)];
        return;
      }
      t.stat := Ready;
      var q := queues[t.bindCpu];
      var list := q.table[t.priority];
      var index := q.index.Mark(t.priority);
      if t.yielded {
        queues := queues[t.bindCpu := Queue(q.table[t.priority := list + [t]], index)];
      } else {
        queues := queues[t.bindCpu := Queue(q.table[t.priority := [t] + list], index)];
      }
      assert Abs().thr == s.thr[t := TcbAbs(t)];
    }

    /** _sched_remove_thread_locked. */
    method RemoveThreadLocked(t: Tcb)
      requires Shaped(Abs(), levels) && t in threads
      modifies this`queues
      ensures Abs() == Remove(old(Abs()), t, levels)
    {
      ghost var s := Abs();
      AbsAt(t);
      assert RecOk(s, s.thr[t], levels) && QueueOk(s.queues[t.bindCpu], levels);
      var q := queues[t.bindCpu];
      var list := Without(q.table[t.priority], t);
      var index := if list == [] then q.index.Unmark(t.priority) else q.index;
      queues := queues[t.bindCpu := Queue(q.table[t.priority := list], index)];
      assert Abs().thr == s.thr;
    }

    /** rt_sched_remove_thread. */
    method RemoveThread(t: Tcb)
      requires Shaped(Abs(), levels) && t in threads
      modifies this`queues, t`stat, t`yielded
      ensures Abs() == Unqueue(old(Abs()), t, levels)
    {
      AbsAt(t);
      RemoveThreadLocked(t);
      SetThread(t, Suspended, false);
    }

    /** rt_sched_thread_ready; false stands for -RT_EINVAL. */
    method ThreadReady(t: Tcb) returns (ok: bool)
      requires Valid() && t in threads
      modifies t`stat, this`queues
      ensures Valid() && (Abs(), ok) == Wake(old(Abs()), t, levels)
    {
      WakeKeepsInv(Abs(), t, levels);
      AbsAt(t);
      if t.stat != Suspended {
        return false;
      }
      InsertThreadLocked(t);
      ok := true;
    }

    /** rt_thread_suspend_to_list, by the thread itself; false stands for -RT_ERROR. */
    method ThreadSuspend(t: Tcb) returns (ok: bool)
      requires Valid() && t in threads
      modifies t`stat, t`yielded, this`queues
      ensures Valid() && (Abs(), ok) == Suspend(old(Abs()), t, levels)
    {
      SuspendKeepsInv(Abs(), t, levels);
      AbsAt(t);
      if t.stat != Ready && t.stat != Running {
        return false;
      }
      RemoveThread(t);
      ok := true;
    }

    /** rt_thread_close. */
    method ThreadClose(t: Tcb)
      requires Valid() && t in threads
      modifies t`stat, t`yielded, this`queues
      ensures Valid() && Abs() == Close(old(Abs()), t, levels)
    {
      CloseKeepsInv(Abs(), t, levels);
      AbsAt(t);
      if t.stat != Closed {
        if t.stat != Init {
          RemoveThread(t);
        }
        SetThread(t, Closed, false);
      }
    }

    /** rt_sched_thread_yield. */
    method ThreadYield(t: Tcb)
      requires t in threads
      modifies t`remainingTick, t`yielded
      ensures var s := old(Abs()); Abs() == s.WithRec(t, YieldRec(s.thr[t]))
    {
      t.remainingTick := t.initTick;
      t.yielded := true;
      assert Abs().thr == old(Abs()).thr[t := TcbAbs(t)];
    }

    /** rt_sched_tick_increase for the given thread, up to the rescheduling. */
    method ThreadTick(t: Tcb, tick: nat) returns (resched: bool)
      requires t in threads
      modifies t`remainingTick, t`yielded
      ensures var s := old(Abs()); Abs() == s.WithRec(t, TickRec(s.thr[t], tick))
      ensures resched <==> old(t.remainingTick) <= tick
    {
      ghost var s := Abs();
      if t.remainingTick > tick {
        t.remainingTick := t.remainingTick - tick;
      } else {
        t.remainingTick := 0;
      }
      assert Abs().thr == s.thr[t := TcbAbs(t)];
      resched := t.remainingTick == 0;
      if resched {
        ThreadYield(t);
      }
    }

    /** The tick of CPU c. */
    method TickIncrease(c: nat, tick: nat) returns (resched: bool)
      requires Valid() && c < |current| && current[c] != null
      modifies current[c]
      ensures Valid() && var s := old(Abs()); Abs() == s.WithRec(s.current[c], TickRec(s.thr[s.current[c]], tick))
      ensures resched <==> old(current[c].remainingTick) <= tick
    {
      ghost var s := Abs();
      var t := current[c];
      CurrentOk(s, c, levels);
      WithRecKeepsInv(s, t, TickRec(s.thr[t], tick), levels);
      hide Inv;
      resched := ThreadTick(t, tick);
    }

    /** rt_sched_thread_bind_cpu, up to the rescheduling. */
    method ThreadBindCpu(t: Tcb, cpu: nat)
      requires Valid() && t in threads
      modifies t, this`queues
      ensures Valid() && Shaped(BindInHand(old(Abs()), t, cpu, levels), levels)
      ensures Abs() == Bind(old(Abs()), t, cpu, levels)
    {
      var target := if cpu >= |current| then |current| else cpu;
      BindKeepsInv(Abs(), t, cpu, levels);
      AbsAt(t);
      if t.stat == Ready {
        RemoveThread(t);
        SetBind(t, target);
        InsertThreadLocked(t);
      } else {
        SetBind(t, target);
      }
    }

    /** rt_sched_thread_change_priority. */
    method ThreadChangePriority(t: Tcb, priority: nat)
      requires Valid() && t in threads && priority < levels
      modifies t, this`queues
      ensures Valid() && Shaped(PriorityInHand(old(Abs()), t, priority, levels), levels)
      ensures Abs() == ChangePriority(old(Abs()), t, priority, levels)
    {
      ChangePriorityKeepsInv(Abs(), t, priority, levels);
      AbsAt(t);
      if t.stat == Ready {
        RemoveThread(t);
        ResetAtPriority(t, priority);
        InsertThreadLocked(t);
      } else {
        SetPriority(t, priority);
      }
    }

    /** _scheduler_get_highest_priority_thread on CPU c. */
    method GetHighestPriorityThread(c: nat) returns (to: Tcb?, highest: nat)
      requires Valid() && c < |current|
      ensures (to, highest) == Pick(Abs(), c, levels)
    {
      var global, local := queues[|current|], queues[c];
      assert QueueOk(global, levels) && QueueOk(local, levels);
      var highestReady, localHighest := global.index.Highest(), local.index.Highest();
      if highestReady < localHighest {
        highest := highestReady;
        to := global.table[highestReady][0];
      } else {
        highest := localHighest;
        if localHighest != local.index.Levels() {
          to := local.table[localHighest][0];
        } else {
          to := null;
        }
      }
    }

    /** The current thread of c is detached; if it can still run and did not keep the core it
        is queued, its yield request used up. */
    method GiveOutCore(thread: Tcb, c: nat)
      requires Valid() && c < |current| && current[c] == thread
      modifies thread, this`queues
      ensures thread in threads && Shaped(Detach(old(Abs()), c), levels)
      ensures Abs() == GiveOut(old(Abs()), c, levels).(current := old(current))
    {
      ghost var s := Abs();
      CurrentOk(s, c, levels);
      GiveOutKeeps(s, c, levels);
      AbsAt(thread);
      SetOnCpu(thread, |current|);
      ghost var s1 := Abs();
      assert s1 == Detach(s, c).(current := s.current);
      AbsAt(thread);
      hide Abs;
      if thread.stat == Running {
        InsertIgnoresCurrent(Detach(s, c), thread, s.current, levels);
        InsertThreadLocked(thread);
        AbsAt(thread);
        SetThread(thread, thread.stat, false);
      }
    }

    /** to leaves its queue and becomes c's thread. */
    method SwitchIn(to: Tcb, c: nat)
      requires Shaped(Abs(), levels) && to in threads && c < |current|
      modifies to, this`queues, this`current
      ensures Abs() == Attach(Remove(old(Abs()), to, levels), to, c)
      ensures current == old(current)[c := to]
    {
      hide Abs, Shaped, Remove;
      AbsAt(to);
      AbsFields();
      RemoveOnlyQueues(Abs(), to, levels);
      RemoveThreadLocked(to);
      AbsAt(to);
      SetOnCpu(to, c);
      AbsAt(to);
      SetThread(to, Running, to.yielded);
      SetCurrent(to, c);
    }

    method SetCurrent(to: Tcb, c: nat)
      requires c < |current|
      modifies this`current
      ensures Abs() == old(Abs()).(current := old(current)[c := to]) && current == old(current)[c := to]
    {
      current := current[c := to];
      assert Abs().thr == old(Abs()).thr;
    }

    /** The core passes from c's current thread to the picked one. */
    method SwitchOver(to: Tcb, c: nat)
      requires Valid() && c < |current| && current[c] != null && Pick(Abs(), c, levels).0 == to
      requires !SmpScheduling.Stays(Abs().thr[current[c]], c, |current|, Pick(Abs(), c, levels).1)
      modifies threads, this`queues, this`current
      ensures Abs() == Schedule(old(Abs()), c, levels)
      ensures current == old(current)[c := to]
    {
      ghost var s := Abs();
      var thread := current[c];
      SwitchMatches(s, c, levels);
      PickIsReady(s, c, levels);
      CurrentOk(s, c, levels);
      AbsKeys();
      hide Shaped, QueuedBut, OnCpuAgrees, StatsBut, Pick, GiveOut, Remove, Attach, Detach, Schedule;
      GiveOutCore(thread, c);
      SwitchIn(to, c);
    }

    /** _prepare_context_switch_locked and rt_sched_post_ctx_switch: pick the most urgent
        thread for CPU c and make it c's current thread; null when the core is kept. */
    method PrepareContextSwitch(c: nat) returns (to: Tcb?)
      requires Valid() && c < |current| && current[c] != null
      modifies threads, this`queues, this`current
      ensures Valid() && Abs() == Schedule(old(Abs()), c, levels)
      ensures if to == null then current == old(current) else current == old(current)[c := to]
    {
      ghost var s := Abs();
      var thread := current[c];
      ScheduleKeepsInv(s, c, levels);
      CurrentOk(s, c, levels);
      AbsKeys();
      AbsAt(thread);
      assert s.current == current;
      var highest;
      to, highest := GetHighestPriorityThread(c);
      hide Abs, Inv, Pick, GiveOut, Remove, Attach;
      if to == null {
        return;
      }
      if && thread.stat == Running
         && (thread.bindCpu == |current| || thread.bindCpu == c)
         && (thread.priority < highest || (thread.priority == highest && !thread.yielded)) {
        SetThread(thread, thread.stat, false);
        to := null;
      } else {
        SwitchOver(to, c);
      }
    }
  }

  /** The order in which the code writes the fields of a switch does not matter. */
  lemma SwitchMatches(s: State, c: nat, levels: nat)
    requires Inv(s, levels) && c < s.Cpus() && s.current[c] != null
    requires var (to, p) := Pick(s, c, levels); to != null && !SmpScheduling.Stays(s.thr[s.current[c]], c, s.Cpus(), p)
    ensures var (to, p) := Pick(s, c, levels);
            && s.current[c] in s.thr && Shaped(Detach(s, c), levels)
            && Shaped(GiveOut(s, c, levels).(current := s.current), levels)
            && to in GiveOut(s, c, levels).thr
            && Schedule(s, c, levels) == Attach(Remove(GiveOut(s, c, levels).(current := s.current), to, levels), to, c)
  {
    PickIsReady(s, c, levels);
    GiveOutKeeps(s, c, levels);
    var to := Pick(s, c, levels).0;
    var s1 := GiveOut(s, c, levels);
    hide QueuedBut, StatsBut, OnCpuAgrees, GiveOut, Pick;
    RemoveIgnoresCurrent(s1, to, s.current, levels);
    assert Remove(s1, to, levels).current == s1.current;
  }

  /** Queues are not told apart by who is running. */
  lemma InsertIgnoresCurrent(s: State, t: Tcb, current: seq<Tcb?>, levels: nat)
    requires Shaped(s, levels) && t in s.thr && |current| == |s.current|
    ensures Shaped(s.(current := current), levels)
    ensures Insert(s.(current := current), t, levels) == Insert(s, t, levels).(current := current)
  {
    var s1 := s.(current := current);
    forall u | u in s1.thr ensures RecOk(s1, s1.thr[u], levels) {
      assert RecOk(s, s.thr[u], levels);
    }
  }

  lemma RemoveIgnoresCurrent(s: State, t: Tcb, current: seq<Tcb?>, levels: nat)
    requires Shaped(s, levels) && t in s.thr && |current| == |s.current|
    ensures Shaped(s.(current := current), levels)
    ensures Remove(s.(current := current), t, levels) == Remove(s, t, levels).(current := current)
  {
    var s1 := s.(current := current);
    forall u | u in s1.thr ensures RecOk(s1, s1.thr[u], levels) {
      assert RecOk(s, s.thr[u], levels);
    }
  }
}
