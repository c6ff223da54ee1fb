/** The mutex code of rt-thread/src/ipc.c on threads and mutexes updated in place.
    Every method is proved to take the objects exactly where the specification in
    PriorityInheritance.dfy says.  The small methods each write the fields of one object;
    the others are the functions of the source. */
module MutexKernel {
  import opened IpcObjects
  import opened Lists
  import opened MutexTimeouts
  import opened PriorityInheritance

  ghost function ThreadAbs(t: Thread): ThreadRec
    reads t
  {
    ThreadRec(t.initPriority, t.currPriority, t.taken, t.pending, t.suspended)
  }

  ghost function MutexAbs(m: Mutex): MutexRec
    reads m
  {
    MutexRec(m.owner, m.hold, m.priority, m.ceilingPriority, m.waiters)
  }

  /** Where a thread is inserted depends on priorities only. */
  lemma {:induction false} InsertPrioFrame(thr: map<Thread, ThreadRec>, thr': map<Thread, ThreadRec>, ws: seq<Thread>, t: Thread)
    requires t in thr && t in thr' && thr[t].curr == thr'[t].curr
    requires forall w :: w in ws ==> w in thr && w in thr' && thr[w].curr == thr'[w].curr
    ensures InsertPrio(thr, ws, t) == InsertPrio(thr', ws, t)
  {
    if ws != [] {
      assert ws[0] in ws;
      InsertPrioFrame(thr, thr', ws[1..], t);
    }
  }

  lemma WalkEnds(s: State, t: Thread, boost: bool)
    requires Walking(s, t, boost) && WaitsOn(s, t) == null
    ensures Walk(s, t, boost) == s
  {
  }

  lemma SpliceTail(ws: seq<Thread>, t: Thread, n: nat)
    requires 0 < n <= |ws|
    ensures ws[..n] + [t] + ws[n..] == [ws[0]] + (ws[1..][..n - 1] + [t] + ws[1..][n - 1..])
  {
    assert ws[..n] == [ws[0]] + ws[1..][..n - 1];
    assert ws[n..] == ws[1..][n - 1..];
  }

  /** Where the scan of rt_susp_list_enqueue stops is where the thread belongs. */
  lemma {:induction false} InsertPrioAt(thr: map<Thread, ThreadRec>, ws: seq<Thread>, t: Thread, n: nat)
    requires t in thr && n <= |ws| && forall w :: w in ws ==> w in thr
    requires forall i :: 0 <= i < n ==> thr[ws[i]].curr <= thr[t].curr
    requires n < |ws| ==> thr[t].curr < thr[ws[n]].curr
    ensures InsertPrio(thr, ws, t) == ws[..n] + [t] + ws[n..]
  {
    if n > 0 {
      InsertPrioAt(thr, ws[1..], t, n - 1);
      SpliceTail(ws, t, n);
    } else if ws != [] {
      assert [t] + ws[0..] == [t] + ws;
    }
  }

  /** What joining the wait list leaves as it is. */
  lemma EnqueuePrios(s: State, t: Thread, m: Mutex)
    requires t in s.thr && m in s.mtx && forall w :: w in s.mtx[m].waiters ==> w in s.thr
    ensures var s1 := Enqueue(s, t, m);
            && s1.mtx[m].owner == s.mtx[m].owner && s1.mtx[m].prio == Min(s.thr[t].curr, s.mtx[m].prio)
            && (forall u :: u in s.thr ==> u in s1.thr && s1.thr[u].curr == s.thr[u].curr)
  {
  }

  class Kernel {
    ghost const threads: set<Thread>
    ghost const mutexes: set<Mutex>

    ghost function Abs(): State
      reads threads, mutexes
    {
      State(map t | t in threads :: ThreadAbs(t), map m | m in mutexes :: MutexAbs(m))
    }

    lemma AbsKeys()
      ensures Abs().thr.Keys == threads && Abs().mtx.Keys == mutexes
    {
    }

    lemma AbsThread(t: Thread)
      requires t in threads
      ensures t in Abs().thr && Abs().thr[t] == ThreadAbs(t)
    {
    }

    lemma AbsMutex(m: Mutex)
      requires m in mutexes
      ensures m in Abs().mtx && Abs().mtx[m] == MutexAbs(m)
    {
    }

    constructor (ghost ts: set<Thread>, ghost ms: set<Mutex>)
      requires forall t :: t in ts ==> t.currPriority == t.initPriority <= NO_PRIO && t.taken == [] && t.pending == null
      requires forall m :: m in ms ==> m.owner == null && m.hold == 0 && m.priority == m.ceilingPriority == NO_PRIO && m.waiters == []
      ensures threads == ts && mutexes == ms && Inv(Abs())
    {
      threads, mutexes := ts, ms;
    }

    /** _mutex_update_priority. */
    method MutexUpdatePriority(m: Mutex)
      requires m in mutexes && forall w :: w in m.waiters ==> w in threads
      modifies m`priority
      ensures Abs() == old(Abs()).WithQueue(m, m.waiters, FirstPrio(old(Abs()), m.waiters))
    {
      ghost var s := Abs();
      if m.waiters != [] {
        assert m.waiters[0] in m.waiters;
        m.priority := m.waiters[0].currPriority;
      } else {
        m.priority := NO_PRIO;
      }
      assert Abs().thr == s.thr;
    }

    /** _thread_get_mutex_priority. */
    method ThreadGetMutexPriority(t: Thread) returns (priority: nat)
      requires t in threads && forall m :: m in t.taken ==> m in mutexes
      ensures priority == Eff(Abs(), t)
    {
      priority := t.initPriority;
      var i := 0;
      ghost var s := Abs();
      while i < |t.taken|
        invariant 0 <= i <= |t.taken|
        invariant EffFrom(s.mtx, t.taken[i..], priority) == EffFrom(s.mtx, t.taken, t.initPriority)
      {
        var m := t.taken[i];
        assert m in t.taken && t.taken[i..][0] == m && t.taken[i..][1..] == t.taken[i + 1..];
        var mutexPrio := if m.priority < m.ceilingPriority then m.priority else m.ceilingPriority;
        assert mutexPrio == Contribution(s.mtx[m]);
        if priority > mutexPrio {
          priority := mutexPrio;
        }
        i := i + 1;
      }
    }

    /** The scan for the first waiter that is less urgent than t. */
    method Scan(m: Mutex, t: Thread) returns (n: nat)
      requires m in mutexes && t in threads && forall w :: w in m.waiters ==> w in threads
      ensures n <= |m.waiters| && (forall i :: 0 <= i < n ==> m.waiters[i].currPriority <= t.currPriority)
      ensures n < |m.waiters| ==> t.currPriority < m.waiters[n].currPriority
    {
      n := 0;
      while n < |m.waiters| && !(t.currPriority < m.waiters[n].currPriority)
        invariant 0 <= n <= |m.waiters|
        invariant forall i :: 0 <= i < n ==> m.waiters[i].currPriority <= t.currPriority
      {
        n := n + 1;
      }
    }

    lemma WaitersAbs(ws: seq<Thread>)
      requires forall w :: w in ws ==> w in threads
      ensures forall w :: w in ws ==> w in Abs().thr && Abs().thr[w].curr == w.currPriority
    {
    }

    method SetWaiters(m: Mutex, waiters: seq<Thread>)
      requires m in mutexes
      modifies m`waiters
      ensures m.waiters == waiters && Abs() == old(Abs()).WithQueue(m, waiters, old(m.priority))
    {
      m.waiters := waiters;
      assert Abs().thr == old(Abs()).thr;
    }

    /** rt_susp_list_enqueue with RT_IPC_FLAG_PRIO on a mutex's wait list. */
    method SuspListEnqueue(m: Mutex, t: Thread)
      requires m in mutexes && t in threads && forall w :: w in m.waiters ==> w in threads
      modifies m`waiters
      ensures m.waiters == InsertPrio(old(Abs()).thr, old(m.waiters), t)
      ensures Abs() == old(Abs()).WithQueue(m, m.waiters, old(m.priority))
    {
      hide Abs, InsertPrio;
      AbsKeys();
      AbsThread(t);
      AbsMutex(m);
      var n := Scan(m, t);
      WaitersAbs(m.waiters);
      InsertPrioAt(Abs().thr, m.waiters, t, n);
      SetWaiters(m, m.waiters[..n] + [t] + m.waiters[n..]);
    }

    /** rt_list_remove of a thread's node from a mutex's wait list. */
    method SuspListRemove(m: Mutex, t: Thread)
      requires m in mutexes
      modifies m`waiters
      ensures m.waiters == Without(old(m.waiters), t)
      ensures Abs() == old(Abs()).WithQueue(m, m.waiters, old(m.priority))
    {
      ghost var s := Abs();
      m.waiters := Without(m.waiters, t);
      assert Abs().thr == s.thr;
    }

    /** rt_sched_thread_change_priority, as far as this model sees it. */
    method ChangePriority(t: Thread, priority: nat)
      requires t in threads
      modifies t`currPriority
      ensures Abs() == old(Abs()).WithCurr(t, priority)
    {
      ghost var s := Abs();
      t.currPriority := priority;
      assert Abs().mtx == s.mtx;
      assert Abs().thr == s.WithCurr(t, priority).thr;
    }

    /** One pass of the walk: t is taken out of m's wait list, put back by priority, and m's
        priority follows its first waiter. */
    method RequeueWaiter(t: Thread, m: Mutex)
      requires m in mutexes && t in threads && t in m.waiters && forall w :: w in m.waiters ==> w in threads
      modifies m`waiters, m`priority
      ensures var ws := InsertPrio(old(Abs()).thr, Without(old(m.waiters), t), t);
              Abs() == old(Abs()).WithQueue(m, ws, FirstPrio(old(Abs()), ws))
    {
      hide Abs, InsertPrio, Without, FirstPrio;
      ghost var s := Abs();
      AbsKeys();
      SuspListRemove(m, t);
      ghost var s1 := Abs();
      AbsKeys();
      SuspListEnqueue(m, t);
      ghost var s2 := Abs();
      AbsKeys();
      MutexUpdatePriority(m);
      FirstPrioFrame(s2, s, m.waiters);
    }

    /** The body of the walk's loop for a thread suspended on a mutex: either the walk is over
        (ok is false) or it goes on at the owner, whose priority was just set. */
    method WalkPass(thread: Thread, ghost boost: bool) returns (ok: bool, next: Thread)
      requires thread in threads && thread.suspended && thread.pending != null && Walking(Abs(), thread, boost)
      modifies threads, mutexes
      ensures next in threads
      ensures ok ==> && Walking(Abs(), next, boost) && Walk(Abs(), next, boost) == Walk(old(Abs()), thread, boost)
                     && Room(Abs(), boost) < Room(old(Abs()), boost)
      ensures !ok ==> Abs() == Walk(old(Abs()), thread, boost)
    {
      hide SortedBut, QueuesBut, ExactBut, InsertPrio, Without, EffFrom, FirstPrio;
      ghost var s := Abs();
      AbsKeys();
      AbsThread(thread);
      var m := thread.pending;
      WalkStep(s, thread, boost);
      AbsMutex(m);
      assert MutexOk(s, s.mtx[m]);
      hide Abs;
      RequeueWaiter(thread, m);
      ghost var s1 := Abs();
      assert s1 == Requeue(s, thread, m);
      AbsKeys();
      AbsMutex(m);
      next := m.owner;
      AbsThread(next);
      assert ThreadOk(s1, s1.thr[next]);
      hide Walking, Linked, Requeue;
      var mutexPriority := ThreadGetMutexPriority(next);
      ok := mutexPriority != next.currPriority;
      if ok {
        ChangePriority(next, mutexPriority);
      }
    }

    /** _thread_update_priority: the inheritance walk. */
    method ThreadUpdatePriority(t: Thread, priority: nat)
      requires t in threads
      requires t.suspended ==> Walking(Abs().WithCurr(t, priority), t, priority < t.currPriority)
      modifies threads, mutexes
      ensures Abs() == UpdatePriority(old(Abs()), t, priority)
    {
      hide Linked, QueuesBut, ExactBut, SortedBut, Requeue;
      ghost var s1 := Abs().WithCurr(t, priority);
      ghost var target := UpdatePriority(Abs(), t, priority);
      ghost var boost := priority < t.currPriority;
      var thread := t;
      AbsThread(t);
      ChangePriority(thread, priority);
      var ok := true;
      hide Walking, Abs, Walk, Room, UpdatePriority;
      assert Abs() == s1;
      while ok && thread.suspended
        invariant thread in threads
        invariant ok && thread.suspended ==> Walking(Abs(), thread, boost) && Walk(Abs(), thread, boost) == target
        invariant !ok || !thread.suspended ==> Abs() == target
        decreases ok, Room(Abs(), boost)
      {
        AbsThread(thread);
        if thread.pending != null {
          ok, thread := WalkPass(thread, boost);
          AbsThread(thread);
          if ok && !thread.suspended { WalkEnds(Abs(), thread, boost); }
        } else {
          WalkEnds(Abs(), thread, boost);
          ok := false;
        }
      }
    }

    method SetHold(m: Mutex, hold: nat)
      requires m in mutexes
      modifies m`hold
      ensures var s := old(Abs()); Abs() == s.(mtx := s.mtx[m := s.mtx[m].(hold := hold)])
    {
      m.hold := hold;
      assert Abs().thr == old(Abs()).thr;
    }

    method LowerPriority(m: Mutex, priority: nat)
      requires m in mutexes
      modifies m`priority
      ensures Abs() == old(Abs()).WithQueue(m, m.waiters, priority)
    {
      m.priority := priority;
      assert Abs().thr == old(Abs()).thr;
    }

    /** The thread half of suspending on a mutex: its state, and the link to the mutex. */
    method Suspend(thread: Thread, m: Mutex)
      requires thread in threads
      modifies thread`suspended, thread`pending
      ensures var s := old(Abs());
              Abs() == s.(thr := s.thr[thread := s.thr[thread].(suspended := true, pending := m)])
    {
      thread.suspended, thread.pending := true, m;
      assert Abs().mtx == old(Abs()).mtx;
    }

    method SetOwner(m: Mutex, thread: Thread)
      requires thread in threads && m in mutexes
      modifies m`owner, m`priority, m`hold
      ensures var s := old(Abs()); Abs() == s.(mtx := s.mtx[m := s.mtx[m].(owner := thread, prio := NO_PRIO, hold := 1)])
    {
      m.owner, m.priority, m.hold := thread, NO_PRIO, 1;
      assert Abs().thr == old(Abs()).thr;
    }

    /** rt_list_insert_after(&thread->taken_object_list, &mutex->taken_list). */
    method PushTaken(thread: Thread, m: Mutex)
      requires thread in threads && m in mutexes
      modifies thread`taken
      ensures var s := old(Abs()); Abs() == s.(thr := s.thr[thread := s.thr[thread].(taken := [m] + s.thr[thread].taken)])
    {
      thread.taken := [m] + thread.taken;
      assert Abs().mtx == old(Abs()).mtx;
    }

    /** The branch of _rt_mutex_take for a mutex nobody owns. */
    method TakeFree(thread: Thread, m: Mutex)
      requires thread in threads && m in mutexes && !thread.suspended
      modifies threads, mutexes
      ensures Abs() == Acquire(old(Abs()), thread, m)
    {
      AbsThread(thread);
      AbsMutex(m);
      hide Abs;
      SetOwner(m, thread);
      if m.ceilingPriority != NO_PRIO {
        if m.ceilingPriority < m.owner.currPriority {
          ThreadUpdatePriority(m.owner, m.ceilingPriority);
        }
      }
      PushTaken(thread, m);
    }

    /** The thread joins m's wait list, and m takes its priority if that is more urgent. */
    method EnqueueWaiter(thread: Thread, m: Mutex) returns (lowered: bool)
      requires thread in threads && m in mutexes && forall w :: w in m.waiters ==> w in threads
      modifies thread`suspended, thread`pending, m`waiters, m`priority
      ensures Abs() == Enqueue(old(Abs()), thread, m)
      ensures lowered == (thread.currPriority < old(m.priority))
    {
      ghost var s := Abs();
      AbsThread(thread);
      AbsMutex(m);
      Suspend(thread, m);
      ghost var s1 := Abs();
      hide Abs;
      SuspListEnqueue(m, thread);
      InsertPrioFrame(s.thr, s1.thr, s.mtx[m].waiters, thread);
      hide InsertPrio;
      lowered := thread.currPriority < m.priority;
      if lowered {
        LowerPriority(m, thread.currPriority);
      }
    }

    /** The branch of _rt_mutex_take that waits for the owner. */
    method TakeOwned(thread: Thread, m: Mutex)
      requires Inv(Abs()) && Running(Abs(), thread) && m in mutexes && m.owner != null && m.owner != thread
      modifies threads, mutexes
      ensures (Abs(), Blocked) == Take(old(Abs()), thread, m, true)
    {
      hide Abs, Inv, Linked, QueuesBut, ExactBut, Walking, InsertPrio, UpdatePriority, Enqueue;
      ghost var s := Abs();
      AbsKeys();
      AbsMutex(m);
      AbsThread(thread);
      EnqueueReady(s, thread, m);
      WaitersIn(s, m);
      EnqueuePrios(s, thread, m);
      var owner := m.owner;
      var lowered := EnqueueWaiter(thread, m);
      AbsKeys();
      AbsThread(owner);
      AbsThread(thread);
      AbsMutex(m);
      if lowered {
        if m.priority < owner.currPriority {
          ThreadUpdatePriority(owner, m.priority);
        }
      }
    }

    /** _rt_mutex_take.  On Blocked the caller has left the processor; a later release gives it the
        mutex, or its time runs out (ThreadTimeout) and it gives up (TakeGivesUp). */
    method MutexTake(thread: Thread, m: Mutex, wait: bool) returns (result: Result)
      requires Inv(Abs()) && Running(Abs(), thread) && m in mutexes
      modifies threads, mutexes
      ensures (Abs(), result) == Take(old(Abs()), thread, m, wait)
    {
      hide Abs, Inv, Acquire, Enqueue, UpdatePriority, Walking;
      AbsKeys();
      AbsThread(thread);
      AbsMutex(m);
      if m.owner == thread {
        if m.hold < HOLD_MAX {
          SetHold(m, m.hold + 1);
          result := Ok;
        } else {
          result := Full;
        }
      } else if m.owner == null {
        TakeFree(thread, m);
        result := Ok;
      } else if !wait {
        result := TimedOut;
      } else {
        TakeOwned(thread, m);
        result := Blocked;
      }
    }

    method UnlinkTaken(thread: Thread, m: Mutex)
      requires thread in threads
      modifies thread`taken
      ensures var s := old(Abs());
              Abs() == s.(thr := s.thr[thread := s.thr[thread].(taken := Without(s.thr[thread].taken, m))])
    {
      thread.taken := Without(thread.taken, m);
      assert Abs().mtx == old(Abs()).mtx;
    }

    /** rt_mutex_release after the last hold is gone: m leaves the list of its owner, and
        _check_and_update_prio decides whether the owner's priority is computed again. */
    method LeaveTaken(thread: Thread, m: Mutex)
      requires thread in threads && m in mutexes && forall k :: k in thread.taken ==> k in mutexes
      modifies thread`taken, thread`currPriority
      ensures var s := old(Abs()); Abs() == s.(thr := s.thr[thread := GiveUpHold(s, thread, m)])
    {
      hide Abs, EffFrom, Without;
      AbsKeys();
      AbsThread(thread);
      AbsMutex(m);
      UnlinkTaken(thread, m);
      AbsKeys();
      AbsThread(thread);
      if m.ceilingPriority != NO_PRIO || thread.currPriority == m.priority {
        var priority := ThreadGetMutexPriority(thread);
        ChangePriority(thread, priority);
      }
    }

    /** rt_sched_thread_ready on the first waiter, its link to m cleared, m entered in its list. */
    method WakeAsOwner(next: Thread, m: Mutex)
      requires next in threads
      modifies next`suspended, next`pending, next`taken
      ensures var s := old(Abs());
              Abs() == s.(thr := s.thr[next := s.thr[next].(suspended := false, pending := null, taken := [m] + s.thr[next].taken)])
    {
      next.suspended := false;
      next.taken := [m] + next.taken;
      next.pending := null;
      assert Abs().mtx == old(Abs()).mtx;
    }

    method SetOwnerAndQueue(m: Mutex, owner: Thread?, hold: nat, waiters: seq<Thread>)
      requires m in mutexes
      modifies m`owner, m`hold, m`waiters
      ensures var s := old(Abs()); Abs() == s.(mtx := s.mtx[m := s.mtx[m].(owner := owner, hold := hold, waiters := waiters)])
    {
      m.waiters := waiters;
      m.owner := owner;
      m.hold := hold;
      assert Abs().thr == old(Abs()).thr;
    }

    /** m passes to its first waiter. */
    method PassOn(m: Mutex)
      requires m in mutexes && m.waiters != [] && forall w :: w in m.waiters ==> w in threads
      modifies threads, m
      ensures Abs() == HandOver(old(Abs()), m)
    {
      hide Abs, FirstPrio;
      ghost var s := Abs();
      AbsKeys();
      AbsMutex(m);
      var next := m.waiters[0];
      var rest := m.waiters[1..];
      assert next in m.waiters && forall w :: w in rest ==> w in m.waiters;
      SetOwnerAndQueue(m, next, 1, rest);
      AbsKeys();
      AbsMutex(m);
      WakeAsOwner(next, m);
      ghost var s1 := Abs();
      AbsKeys();
      MutexUpdatePriority(m);
      FirstPrioFrame(s1, s, rest);
    }

    /** rt_mutex_release. */
    method MutexRelease(thread: Thread, m: Mutex) returns (result: Result)
      requires Inv(Abs()) && Running(Abs(), thread) && m in mutexes
      modifies threads, mutexes
      ensures (Abs(), result) == Release(old(Abs()), thread, m)
    {
      hide Abs, Inv, HandOver, GiveUpHold, EffFrom, Distinct, MutexOk, ThreadOk, WaitsOn;
      ghost var s := Abs();
      AbsKeys();
      AbsThread(thread);
      AbsMutex(m);
      if thread != m.owner {
        return NotOwner;
      }
      WaitersIn(s, m);
      TakenIn(s, thread);
      if m.hold > 1 {
        SetHold(m, m.hold - 1);
        return Ok;
      }
      LeaveTaken(thread, m);
      AbsKeys();
      AbsMutex(m);
      if m.waiters != [] {
        PassOn(m);
      } else {
        ghost var s1 := Abs();
        SetOwnerAndQueue(m, null, 0, []);
        AbsKeys();
        AbsMutex(m);
        LowerPriority(m, NO_PRIO);
        assert Abs().mtx == s.mtx[m := s.mtx[m].(owner := null, hold := 0, prio := NO_PRIO)];
        assert Abs().thr == s1.thr;
      }
      result := Ok;
    }

    /** rt_mutex_drop_thread, for a thread that has just been closed or that gives up waiting,
        up to clearing its link to the mutex. */
    method MutexDropThread(m: Mutex, thread: Thread)
      requires Inv(Abs()) && thread in threads && WaitsOn(Abs(), thread) == m
      modifies threads, mutexes
      ensures Abs() == Drop(old(Abs()), thread)
    {
      ghost var s := Abs();
      UnlinkReady(s, thread);
      AbsKeys();
      AbsThread(thread);
      AbsMutex(m);
      var owner := m.owner;
      AbsThread(owner);
      var needUpdate := owner.currPriority == thread.currPriority;
      hide Abs, QueuesBut, ExactBut, EffFrom, FirstPrio, Without, ThreadOk, MutexOk, OwnersAgree, WaitersAgree;
      UnlinkWaiter(m, thread);
      if needUpdate {
        ResettleOwner(owner);
      }
      ClearPendingObject(thread);
    }

    method ClearSuspended(thread: Thread)
      requires thread in threads
      modifies thread`suspended
      ensures Abs() == SetSuspended(old(Abs()), thread, false)
    {
      thread.suspended := false;
      assert Abs().mtx == old(Abs()).mtx;
    }

    method UnlinkWaiter(m: Mutex, thread: Thread)
      requires m in mutexes && thread in threads && forall w :: w in m.waiters ==> w in threads
      modifies thread`suspended, m`waiters, m`priority
      ensures Abs() == Unlink(old(Abs()), thread, m)
    {
      hide Abs, Without, FirstPrio;
      ghost var s := Abs();
      AbsKeys();
      AbsMutex(m);
      ClearSuspended(thread);
      AbsKeys();
      SuspListRemove(m, thread);
      ghost var s2 := Abs();
      AbsKeys();
      MutexUpdatePriority(m);
      FirstPrioFrame(s2, s, m.waiters);
    }

    /** _thread_timeout, for a thread whose take of m has a time limit. */
    method ThreadTimeout(thread: Thread, m: Mutex)
      requires thread in threads && m in mutexes
      modifies thread`suspended, m`waiters
      ensures Abs() == Expire(old(Abs()), thread, m)
    {
      hide Abs, Without;
      AbsKeys();
      AbsThread(thread);
      AbsMutex(m);
      SuspListRemove(m, thread);
      AbsKeys();
      ClearSuspended(thread);
    }

    /** The rest of _rt_mutex_take, once the thread runs again without the mutex. */
    method TakeGivesUp(thread: Thread, m: Mutex)
      requires Owing(Abs(), m) && thread in threads
      modifies threads, mutexes
      ensures Abs() == Withdraw(old(Abs()), thread, m)
    {
      ghost var s := Abs();
      CorrectedReady(s, m);
      AbsKeys();
      AbsThread(thread);
      AbsMutex(m);
      var owner := m.owner;
      if owner != null { AbsThread(owner); }
      var needUpdate := owner != null && owner.currPriority == thread.currPriority;
      hide Abs, Owing, Linked, QueuesBut, ExactBut, FirstPrio;
      MutexUpdatePriority(m);
      AbsKeys();
      if needUpdate {
        ResettleOwner(owner);
      }
      AbsKeys();
      ClearPendingObject(thread);
    }

    /** The owner's priority is computed again and, if it moved, handed on along the chain. */
    method ResettleOwner(owner: Thread)
      requires Linked(Abs()) && QueuesBut(Abs(), null) && owner in threads && ExactBut(Abs(), owner)
      modifies threads, mutexes
      ensures owner in old(Abs()).thr && Abs() == Resettle(old(Abs()), owner)
    {
      ghost var s := Abs();
      AbsKeys();
      AbsThread(owner);
      assert ThreadOk(s, s.thr[owner]);
      UpdateSettles(s, owner, Eff(s, owner));
      var priority := ThreadGetMutexPriority(owner);
      hide Abs, Linked, QueuesBut, ExactBut, EffFrom, Walking, UpdatePriority;
      if priority != owner.currPriority {
        ThreadUpdatePriority(owner, priority);
      }
    }

    method ClearPendingObject(thread: Thread)
      requires thread in threads
      modifies thread`pending
      ensures Abs() == ClearPending(old(Abs()), thread)
    {
      thread.pending := null;
      assert Abs().mtx == old(Abs()).mtx;
    }

    method SetCeilingField(m: Mutex, priority: nat)
      requires m in mutexes
      modifies m`ceilingPriority
      ensures Abs() == WithCeiling(old(Abs()), m, priority)
    {
      m.ceilingPriority := priority;
      assert Abs().thr == old(Abs()).thr;
    }

    /** rt_mutex_setprioceiling; the old ceiling is returned, or NO_PRIO for a priority that is
        out of range. */
    method MutexSetPrioCeiling(m: Mutex, priority: nat) returns (was: nat)
      requires Inv(Abs()) && m in mutexes
      modifies threads, mutexes
      ensures priority < PRIORITY_MAX ==> Abs() == SetCeiling(old(Abs()), m, priority) && was == old(m.ceilingPriority)
      ensures priority >= PRIORITY_MAX ==> Abs() == old(Abs()) && was == NO_PRIO
    {
      if priority >= PRIORITY_MAX {
        return NO_PRIO;
      }
      CeilingReady(Abs(), m, priority);
      AbsMutex(m);
      AbsKeys();
      hide QueuesBut, ExactBut, Resettle;
      was := m.ceilingPriority;
      SetCeilingField(m, priority);
      AbsMutex(m);
      if m.owner != null {
        ResettleOwner(m.owner);
      }
    }
  }
}
