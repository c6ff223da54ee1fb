/** The code of the single-core scheduler (rt-thread/src/scheduler_up.c, scheduler_comm.c,
    thread.c), on the table of thread control blocks. */
module UpKernel {
  import opened Lists
  import opened ReadyIndex
  import opened UpScheduling

  class Scheduler {
    var index: Index                 // rt_thread_ready_priority_group, rt_thread_ready_table
    var table: seq<seq<nat>>         // rt_thread_priority_table
    var tcbs: Tcbs
    var current: nat                 // rt_current_thread
    var lockNest: nat                // rt_scheduler_lock_nest

    ghost function Abs(): State
      reads this
    {
      State(index, table, tcbs, current, lockNest)
    }

    constructor (boot: State)
      requires Booted(boot)
      ensures Abs() == Start(boot) && Inv(Abs())
    {
      index, table, tcbs, current, lockNest := boot.index, boot.table, boot.tcbs, boot.current, boot.lockNest;
      new;
      StartInv(boot);
      BootedTop(boot);
      current := table[index.Highest()][0];
      RemoveThread(current);
      tcbs := tcbs[current := tcbs[current].(stat := Running, yielded := false)];
    }

    ghost predicate Has(t: nat)
      reads this
    {
      t in tcbs && tcbs[t].prio < |table| == index.Levels() && index.Valid()
    }

    method InsertThread(t: nat)
      requires Has(t)
      modifies `index, `table, `tcbs
      ensures Abs() == Insert(old(Abs()), t)
    {
      if t == current {
        tcbs := tcbs[t := tcbs[t].(stat := Running)];
        return;
      }
      tcbs := tcbs[t := tcbs[t].(stat := Ready)];
      var p := tcbs[t].prio;
      if tcbs[t].yielded {
        table := table[p := table[p] + [t]];
      } else {
        table := table[p := [t] + table[p]];
      }
      index := index.Mark(p);
    }

    method RemoveThread(t: nat)
      requires Has(t)
      modifies `index, `table
      ensures Abs() == Remove(old(Abs()), t)
    {
      var p := tcbs[t].prio;
      table := table[p := Without(table[p], t)];
      if table[p] == [] {
        index := index.Unmark(p);
      }
    }

    method SetTcb(t: nat, c: Tcb)
      modifies `tcbs
      ensures Abs() == Put(old(Abs()), t, c)
    {
      tcbs := tcbs[t := c];
    }

    /** rt_sched_thread_ready; false if the thread was not suspended. */
    method ThreadReady(t: nat) returns (ok: bool)
      requires Inv(Abs()) && t in tcbs
      modifies this
      ensures Inv(Abs()) && Abs() == Wake(old(Abs()), t) && ok == (old(tcbs)[t].stat == Suspended)
    {
      hide Inv, Insert;
      InvFacts(Abs());
      WakeKeeps(Abs(), t);
      ok := tcbs[t].stat == Suspended;
      if ok {
        InsertThread(t);
      }
    }

    /** rt_thread_suspend_to_list by the current thread; false if it cannot be suspended. */
    method SuspendSelf() returns (ok: bool)
      requires Inv(Abs())
      modifies this
      ensures Inv(Abs()) && Abs() == Suspend(old(Abs())) && ok == (old(tcbs)[old(current)].stat == Running)
    {
      hide Inv, Remove;
      InvFacts(Abs());
      CurrentNotReady(Abs());
      SuspendKeeps(Abs());
      ok := tcbs[current].stat == Ready || tcbs[current].stat == Running;
      if ok {
        RemoveThread(current);
        RemoveTcbs(old(Abs()), current);
        SetTcb(current, tcbs[current].(stat := Suspended));
      }
    }

    /** rt_thread_close. */
    method Close(t: nat)
      requires Inv(Abs()) && t in tcbs
      modifies this
      ensures Inv(Abs()) && Abs() == CloseThread(old(Abs()), t)
    {
      hide Inv, Remove;
      InvFacts(Abs());
      CloseKeeps(Abs(), t);
      if tcbs[t].stat != Stat.Close {
        if tcbs[t].stat != Init {
          RemoveThread(t);
          RemoveTcbs(old(Abs()), t);
        }
        SetTcb(t, tcbs[t].(stat := Stat.Close, yielded := false));
      }
    }

    /** rt_sched_thread_yield. */
    method ThreadYield(t: nat)
      requires Inv(Abs()) && t in tcbs
      modifies `tcbs
      ensures Inv(Abs()) && Abs() == Yield(old(Abs()), t)
    {
      hide Inv;
      YieldKeeps(Abs(), t);
      SetTcb(t, tcbs[t].(remaining := tcbs[t].initTick, yielded := true));
    }

    /** rt_sched_thread_change_priority. */
    method NewPriority(t: nat, p: nat)
      requires Inv(Abs()) && t in tcbs && p < |table|
      modifies this
      ensures Inv(Abs()) && Abs() == ChangePriority(old(Abs()), t, p)
    {
      hide Inv, Remove, Insert;
      InvFacts(Abs());
      ChangePriorityKeeps(Abs(), t, p);
      if tcbs[t].stat == Ready {
        RemoveThread(t);
        RemoveTcbs(old(Abs()), t);
        SetTcb(t, tcbs[t].(prio := p, stat := Init, yielded := false));
        InsertThread(t);
      } else {
        SetTcb(t, tcbs[t].(prio := p));
      }
    }

    /** rt_schedule. */
    method Reschedule()
      requires Inv(Abs())
      modifies this
      ensures Inv(Abs()) && Abs() == Schedule(old(Abs()))
    {
      hide Inv, Remove, Insert, SwitchTo;
      InvFacts(Abs());
      ScheduleKeeps(Abs());
      if lockNest == 0 {
        var highest := index.Highest();
        if highest < index.Levels() {
          TopReady(Abs());
          var to := table[highest][0];
          var c := tcbs[current];
          if c.stat == Running && (c.prio < highest || (c.prio == highest && !c.yielded)) {
            to := current;
          }
          if to != current {
            Switch(to);
          } else {
            RemoveThread(current);
            RemoveTcbs(old(Abs()), current);
            SetTcb(current, tcbs[current].(stat := Running));
          }
        }
      }
    }

    method Switch(to: nat)
      requires Inv(Abs()) && to in tcbs && to != current
      modifies this
      ensures Abs() == SwitchTo(old(Abs()), to)
    {
      hide Inv, Remove, Insert;
      InvFacts(Abs());
      var from := current;
      var insert := tcbs[from].stat == Running;
      current := to;
      if insert {
        InsertThread(from);
        InsertTcbs(old(Abs()).(current := to), from);
      }
      assert !tcbs[from].yielded ==> tcbs[from := tcbs[from].(yielded := false)] == tcbs;
      if tcbs[from].yielded {
        SetTcb(from, tcbs[from].(yielded := false));
      }
      RemoveThread(to);
      SetTcb(to, tcbs[to].(stat := Running));
    }

    /** rt_sched_tick_increase. */
    method TickIncrease(n: nat)
      requires Inv(Abs())
      modifies this
      ensures Inv(Abs()) && Abs() == TickBy(old(Abs()), n)
    {
      hide Inv, Schedule;
      InvFacts(Abs());
      TickKeeps(Abs(), n);
      var t := current;
      var c := tcbs[t];
      c := c.(remaining := if c.remaining > n then c.remaining - n else 0);
      PutKeeps(Abs(), t, c);
      SetTcb(t, c);
      if c.remaining == 0 {
        ThreadYield(t);
        Reschedule();
      }
    }
  }

  lemma CurrentNotReady(s: State)
    requires Inv(s)
    ensures s.current in s.tcbs && s.tcbs[s.current].stat != Ready
  {
  }

  lemma RemoveTcbs(s: State, t: nat)
    requires t in s.tcbs && s.tcbs[t].prio < |s.table| == s.index.Levels() && s.index.Valid()
    ensures var r := Remove(s, t); r.tcbs == s.tcbs && |r.table| == |s.table| == r.index.Levels() && r.index.Valid() && r.current == s.current
  {
  }

  lemma InsertTcbs(s: State, t: nat)
    requires t in s.tcbs && s.tcbs[t].prio < |s.table| == s.index.Levels() && s.index.Valid()
    ensures var r := Insert(s, t);
            && |r.table| == |s.table| == r.index.Levels() && r.index.Valid() && r.tcbs.Keys == s.tcbs.Keys
            && forall u :: u in s.tcbs ==> r.tcbs[u].prio == s.tcbs[u].prio
  {
  }
}
