/** A mutex take whose time runs out (rt-thread/src/thread.c, ipc.c): the timer takes the thread off
    the wait list, and priorities are put right only when the thread runs again. */
module MutexTimeouts {
  import opened IpcObjects
  import opened Lists
  import opened PriorityInheritance

  /** _thread_timeout: t is ready and off the list; m's priority and t's link to m stay. */
  ghost function Expire(s: State, t: Thread, m: Mutex): State
    requires t in s.thr && m in s.mtx
  {
    State(s.thr[t := s.thr[t].(suspended := false)], s.mtx[m := s.mtx[m].(waiters := Without(s.mtx[m].waiters, t))])
  }

  /** Everything is exact given the priorities of the mutexes, and these are right but for m's,
      which may be more urgent than its first waiter. */
  ghost predicate Owing(s: State, m: Mutex) {
    && Linked(s) && QueuesBut(s, m) && ExactBut(s, null)
    && m in s.mtx && (forall w :: w in s.mtx[m].waiters ==> w in s.thr)
    && SortedBut(s, s.mtx[m].waiters, null) && s.mtx[m].prio <= FirstPrio(s, s.mtx[m].waiters)
  }

  /** t, and only t, has yet to find out that it no longer waits. */
  ghost predicate Leaving(s: State, t: Thread, m: Mutex) {
    && t in s.thr && !s.thr[t].suspended && s.thr[t].pending == m
    && forall u :: u in s.thr && u != t && s.thr[u].pending != null ==> s.thr[u].suspended
  }

  lemma ExpireOwes(s: State, t: Thread)
    requires Inv(s) && t in s.thr && WaitsOn(s, t) != null
    ensures var m := WaitsOn(s, t); m in s.mtx && Owing(Expire(s, t, m), m) && Leaving(Expire(s, t, m), t, m)
  {
    hide Linked, QueuesBut, ExactBut, FirstPrio, SortedBut, Without;
    UnlinkReady(s, t);
    var m := WaitsOn(s, t);
    ExpireQueue(s, t, m);
    ExpireLinked(s, t, m);
    ExpireFrame(s, t, m);
  }

  lemma ExpireFrame(s: State, t: Thread, m: Mutex)
    requires Inv(s) && t in s.thr && m in s.mtx && Linked(Expire(s, t, m))
    ensures QueuesBut(Expire(s, t, m), m) && ExactBut(Expire(s, t, m), null)
  {
    hide Linked, QueuesBut, EffFrom, Without;
    QueuesFrame(s, Expire(s, t, m), m);
    ExactFrame(s, Expire(s, t, m), null, null);
  }

  lemma ExpireLinked(s: State, t: Thread, m: Mutex)
    requires m in s.mtx && (forall w :: w in s.mtx[m].waiters ==> w in s.thr) && t in s.thr && Linked(Unlink(s, t, m))
    ensures Linked(Expire(s, t, m))
  {
    var u := Unlink(s, t, m);
    assert MutexOk(u, u.mtx[m]);
    hide Linked, Without, FirstPrio;
    SetQueueLinked(u, m, u.mtx[m].waiters, s.mtx[m].prio);
    assert Expire(s, t, m).mtx == u.WithQueue(m, u.mtx[m].waiters, s.mtx[m].prio).mtx;
    assert Expire(s, t, m) == u.WithQueue(m, u.mtx[m].waiters, s.mtx[m].prio);
  }

  lemma ExpireQueue(s: State, t: Thread, m: Mutex)
    requires Inv(s) && t in s.thr && m in s.mtx && WaitsOn(s, t) == m
    ensures var s1 := Expire(s, t, m); var ws := s1.mtx[m].waiters;
            && (forall w :: w in ws ==> w in s1.thr) && SortedBut(s1, ws, null) && s1.mtx[m].prio <= FirstPrio(s1, ws)
  {
    var ws := s.mtx[m].waiters;
    var rest := Without(ws, t);
    QueueOf(s, m);
    assert MutexOk(s, s.mtx[m]);
    hide Distinct, OwnersAgree, WaitersAgree, ExactBut, EffFrom;
    SortedLeast(s, ws);
    WithoutSorted(s, ws, t);
    QueueFrame(s, Expire(s, t, m), rest);
    assert rest != [] ==> rest[0] in rest;
    PrioInRange(s, m);
  }

  lemma PrioInRange(s: State, m: Mutex)
    requires Linked(s) && m in s.mtx && forall w :: w in s.mtx[m].waiters ==> w in s.thr
    ensures FirstPrio(s, s.mtx[m].waiters) <= NO_PRIO
  {
    var ws := s.mtx[m].waiters;
    if ws != [] {
      assert ws[0] in ws && ThreadOk(s, s.thr[ws[0]]);
    }
  }

  /** m takes the priority of whoever is first now. */
  ghost function Corrected(s: State, m: Mutex): State
    requires m in s.mtx && forall w :: w in s.mtx[m].waiters ==> w in s.thr
  {
    s.WithQueue(m, s.mtx[m].waiters, FirstPrio(s, s.mtx[m].waiters))
  }

  /** The rest of _rt_mutex_take, run by the thread whose time was up. */
  ghost function Withdraw(s: State, t: Thread, m: Mutex): State
    requires Owing(s, m) && t in s.thr
  {
    CorrectedReady(s, m);
    var s1, o := Corrected(s, m), s.mtx[m].owner;
    ClearPending(if o != null && s.thr[o].curr == s.thr[t].curr then Resettle(s1, o) else s1, t)
  }

  /** With m's priority corrected only its owner can be off. */
  lemma CorrectedReady(s: State, m: Mutex)
    requires Owing(s, m)
    ensures var s1, o := Corrected(s, m), s.mtx[m].owner;
            Linked(s1) && QueuesBut(s1, null) && ExactBut(s1, o) && s1.thr == s.thr && (o != null ==> o in s.thr)
  {
    var ws := s.mtx[m].waiters;
    assert MutexOk(s, s.mtx[m]);
    SetQueueLinked(s, m, ws, FirstPrio(s, ws));
    CorrectedQueues(s, m);
    hide Distinct, EffFrom, SortedBut, FirstPrio, MutexOk, ThreadOk, WaitersAgree, QueuesBut;
    ExactFrame(s, Corrected(s, m), s.mtx[m].owner, null);
  }

  lemma CorrectedQueues(s: State, m: Mutex)
    requires Owing(s, m) && Linked(Corrected(s, m))
    ensures QueuesBut(Corrected(s, m), null)
  {
    var s1 := Corrected(s, m);
    hide Distinct, EffFrom, OwnersAgree, WaitersAgree, ThreadOk;
    forall k | k in s1.mtx ensures SortedBut(s1, s1.mtx[k].waiters, null) && s1.mtx[k].prio == FirstPrio(s1, s1.mtx[k].waiters) {
      assert MutexOk(s, s.mtx[k]);
      QueueFrame(s, s1, s.mtx[k].waiters);
    }
  }

  /** The owner's priority is computed afresh, or needs not be. */
  ghost predicate PutRight(s: State, t: Thread, m: Mutex)
    requires Owing(s, m) && t in s.thr
  {
    CorrectedReady(s, m);
    var o := s.mtx[m].owner;
    o == null || s.thr[o].curr == s.thr[t].curr || s.thr[o].curr == Eff(Corrected(s, m), o)
  }

  /** The late correction makes every priority exact again if and only if nobody owns the mutex, its
      owner runs at the very priority the thread has now, or is due its priority anyway. */
  lemma WithdrawKeepsInvIff(s: State, t: Thread, m: Mutex)
    requires Owing(s, m) && Leaving(s, t, m)
    ensures Inv(Withdraw(s, t, m)) <==> PutRight(s, t, m)
  {
    CorrectedReady(s, m);
    var s1, o := Corrected(s, m), s.mtx[m].owner;
    hide Linked, QueuesBut, Corrected, Resettle, OnlyPriorities;
    if o != null && s.thr[o].curr == s.thr[t].curr {
      ResettleSettles(s1, o);
      ResettledLeaving(s1, o, t, m);
      ClearPendingSettles(Resettle(s1, o), t);
    } else {
      CorrectedLeaving(s, t, m);
      ExactOr(s1, o);
      if PutRight(s, t, m) {
        ClearPendingSettles(s1, t);
      } else {
        ClearPendingKeepsEff(s1, t, o);
      }
    }
  }

  lemma CorrectedLeaving(s: State, t: Thread, m: Mutex)
    requires Owing(s, m) && Leaving(s, t, m)
    ensures Leaving(Corrected(s, m), t, m)
  {
  }

  lemma ExactOr(s: State, o: Thread?)
    requires Linked(s) && ExactBut(s, o)
    ensures ExactBut(s, null) <==> o == null || o !in s.thr || s.thr[o].curr == Eff(s, o)
  {
  }

  lemma ResettledLeaving(s: State, o: Thread, t: Thread, m: Mutex)
    requires Linked(s) && QueuesBut(s, null) && o in s.thr && ExactBut(s, o) && Leaving(s, t, m)
    ensures Leaving(Resettle(s, o), t, m)
  {
    hide Linked, QueuesBut, ExactBut, Resettle, Eff;
    ResettleSettles(s, o);
  }

  lemma ClearPendingKeepsEff(s: State, t: Thread, o: Thread)
    requires Linked(s) && t in s.thr && o in s.thr && !s.thr[t].suspended && s.thr[o].curr != Eff(s, o)
    ensures !Inv(ClearPending(s, t))
  {
    ClearPendingLinked(s, t);
    assert Eff(ClearPending(s, t), o) == Eff(s, o);
  }

  /** It does so whenever the thread still has the priority it gave m, or m's priority was that of
      its first waiter all the time. */
  lemma SamePriorityIsPutRight(s: State, t: Thread, m: Mutex)
    requires Owing(s, m) && t in s.thr
    requires s.mtx[m].prio == s.thr[t].curr || s.mtx[m].prio == FirstPrio(s, s.mtx[m].waiters)
    ensures PutRight(s, t, m)
  {
    CorrectedReady(s, m);
    var s1, o := Corrected(s, m), s.mtx[m].owner;
    if o != null && s.thr[o].curr != s.thr[t].curr {
      OwnerHolds(s, m);
      hide Linked, QueuesBut, ExactBut, SortedBut, FirstPrio, EffFrom;
      if s1.mtx[m].prio == s.mtx[m].prio {
        EffFrame(s.mtx, s1.mtx, s.thr[o].taken, s.thr[o].init);
      } else {
        EffAfterDeparture(s.mtx, s1.mtx, s.thr[o].taken, s.thr[o].init, m, s.mtx[m].prio);
      }
    }
  }

  lemma OwnerHolds(s: State, m: Mutex)
    requires Linked(s) && ExactBut(s, null) && m in s.mtx && s.mtx[m].owner != null
    ensures var o := s.mtx[m].owner;
            o in s.thr && m in s.thr[o].taken && (forall k :: k in s.thr[o].taken ==> k in s.mtx) && s.thr[o].curr == Eff(s, o)
  {
    assert MutexOk(s, s.mtx[m]) && ThreadOk(s, s.thr[s.mtx[m].owner]);
  }

  /** With nothing in between, the two halves are the drop of the waiter. */
  lemma AtOnceIsDrop(s: State, t: Thread)
    requires Inv(s) && t in s.thr && WaitsOn(s, t) != null
    ensures var m := WaitsOn(s, t);
            && m in s.mtx && Owing(Expire(s, t, m), m)
            && Withdraw(Expire(s, t, m), t, m) == Drop(s, t) && Inv(Drop(s, t))
  {
    var m := WaitsOn(s, t);
    ExpireOwes(s, t);
    DropKeepsInv(s, t);
    UnlinkReady(s, t);
    CorrectedReady(Expire(s, t, m), m);
    CorrectedIsUnlink(s, t, m);
    hide Inv, Linked, QueuesBut, ExactBut, Owing, Corrected, Unlink, Resettle;
  }

  lemma CorrectedIsUnlink(s: State, t: Thread, m: Mutex)
    requires t in s.thr && m in s.mtx && forall w :: w in s.mtx[m].waiters ==> w in s.thr
    ensures Corrected(Expire(s, t, m), m) == Unlink(s, t, m)
  {
    var s1 := Expire(s, t, m);
    FirstPrioFrame(s, s1, s1.mtx[m].waiters);
    assert Corrected(s1, m).mtx == Unlink(s, t, m).mtx;
  }

  // -------------------------------------------------------------------------------------
  // A boost that outlives its cause
  // -------------------------------------------------------------------------------------

  /** Threads a, b and c with priorities 10, 5 and 3, and mutexes m and k. */
  ghost function Five(a: Thread, b: Thread, c: Thread, m: Mutex, k: Mutex, ra: ThreadRec, rb: ThreadRec, rc: ThreadRec,
                      rm: MutexRec, rk: MutexRec): State
  {
    State(map[a := ra, b := rb, c := rc], map[m := rm, k := rk])
  }

  const FREE: MutexRec := MutexRec(null, 0, NO_PRIO, NO_PRIO, [])

  ghost function Created(a: Thread, b: Thread, c: Thread, m: Mutex, k: Mutex): State {
    Five(a, b, c, m, k, ThreadRec(10, 10, [], null, false), ThreadRec(5, 5, [], null, false), ThreadRec(3, 3, [], null, false), FREE, FREE)
  }

  /** a holds m. */
  ghost function FirstHeld(a: Thread, b: Thread, c: Thread, m: Mutex, k: Mutex): State {
    Five(a, b, c, m, k, ThreadRec(10, 10, [m], null, false), ThreadRec(5, 5, [], null, false), ThreadRec(3, 3, [], null, false),
         MutexRec(a, 1, NO_PRIO, NO_PRIO, []), FREE)
  }

  /** And b holds k. */
  ghost function BothHeld(a: Thread, b: Thread, c: Thread, m: Mutex, k: Mutex): State {
    Five(a, b, c, m, k, ThreadRec(10, 10, [m], null, false), ThreadRec(5, 5, [k], null, false), ThreadRec(3, 3, [], null, false),
         MutexRec(a, 1, NO_PRIO, NO_PRIO, []), MutexRec(b, 1, NO_PRIO, NO_PRIO, []))
  }

  /** And b waits for m, which has raised a from 10 to 5. */
  ghost function Waiting(a: Thread, b: Thread, c: Thread, m: Mutex, k: Mutex): State {
    Five(a, b, c, m, k, ThreadRec(10, 5, [m], null, false), ThreadRec(5, 5, [k], m, true), ThreadRec(3, 3, [], null, false),
         MutexRec(a, 1, 5, NO_PRIO, [b]), MutexRec(b, 1, NO_PRIO, NO_PRIO, []))
  }

  /** b's time is up, and before b runs c asks for k and raises b to 3. */
  ghost function Raised(a: Thread, b: Thread, c: Thread, m: Mutex, k: Mutex): State {
    Five(a, b, c, m, k, ThreadRec(10, 5, [m], null, false), ThreadRec(5, 3, [k], m, false), ThreadRec(3, 3, [], k, true),
         MutexRec(a, 1, 5, NO_PRIO, []), MutexRec(b, 1, 3, NO_PRIO, [c]))
  }

  /** a keeps priority 5 though nobody waits for its mutex any more. */
  lemma BoostOutlivesTimeout(a: Thread, b: Thread, c: Thread, m: Mutex, k: Mutex)
    requires a != b && b != c && a != c && m != k
    ensures var s, r := Waiting(a, b, c, m, k), Raised(a, b, c, m, k);
            && Inv(s) && WaitsOn(s, b) == m
            && var x := Expire(s, b, m);
               Running(x, c) && r == UpdatePriority(Enqueue(x, c, k), b, 3)
    ensures var r := Raised(a, b, c, m, k);
            && Owing(r, m) && Leaving(r, b, m) && !PutRight(r, b, m)
            && var e := Withdraw(r, b, m);
               !Inv(e) && e.mtx[m].waiters == [] && e.thr[a].curr == 5 && IsMin(e.mtx, [m], 10, 10)
  {
    hide Inv, Owing, Leaving, Withdraw, Corrected;
    WaitingInv(a, b, c, m, k);
    RaisedIs(a, b, c, m, k);
    RaisedOwes(a, b, c, m, k);
    var r := Raised(a, b, c, m, k);
    CorrectedReady(r, m);
    NobodyLeft(a, b, c, m, k);
    WithdrawKeepsInvIff(r, b, m);
    WithdrawnIs(a, b, c, m, k);
  }

  lemma RaisedIs(a: Thread, b: Thread, c: Thread, m: Mutex, k: Mutex)
    requires a != b && b != c && a != c && m != k
    ensures var x, r := Expire(Waiting(a, b, c, m, k), b, m), Raised(a, b, c, m, k);
            Running(x, c) && r == UpdatePriority(Enqueue(x, c, k), b, 3) && Leaving(r, b, m)
  {
    hide Walking;
    var x, r := Expire(Waiting(a, b, c, m, k), b, m), Raised(a, b, c, m, k);
    assert InsertPrio(x.thr, [], c) == [c] && Without([b], b) == [];
    var e := Enqueue(x, c, k);
    assert UpdatePriority(e, b, 3) == e.WithCurr(b, 3);
    assert e.WithCurr(b, 3).thr == r.thr;
    assert e.WithCurr(b, 3).mtx == r.mtx;
  }

  lemma WithdrawnIs(a: Thread, b: Thread, c: Thread, m: Mutex, k: Mutex)
    requires a != b && b != c && a != c && m != k && Owing(Raised(a, b, c, m, k), m)
    ensures var e := Withdraw(Raised(a, b, c, m, k), b, m);
            e.mtx == Corrected(Raised(a, b, c, m, k), m).mtx && e.mtx[m].waiters == [] && e.thr[a].curr == 5
  {
    hide Owing;
  }

  lemma WaitingInv(a: Thread, b: Thread, c: Thread, m: Mutex, k: Mutex)
    requires a != b && b != c && a != c && m != k
    ensures Inv(Waiting(a, b, c, m, k))
  {
    hide Inv, Enabled, Next, AddThread, AddMutex, Created, FirstHeld, BothHeld, Waiting;
    Create(a, b, c, m, k);
    Added(AddMutex(AddThread(AddThread(AddThread(EMPTY, a, 10), b, 5), c, 3), m), NewMutex(k));
    HoldFirst(a, b, c, m, k);
    HoldSecond(a, b, c, m, k);
    Wait(a, b, c, m, k);
  }

  lemma RaisedOwes(a: Thread, b: Thread, c: Thread, m: Mutex, k: Mutex)
    requires a != b && b != c && a != c && m != k
    ensures Owing(Raised(a, b, c, m, k), m)
  {
    var s := Raised(a, b, c, m, k);
    assert EffFrom(s.mtx, [], 5) == 5 && EffFrom(s.mtx, [m], 10) == 5;
    assert EffFrom(s.mtx, [], 3) == 3 && EffFrom(s.mtx, [k], 5) == 3;
  }

  lemma NobodyLeft(a: Thread, b: Thread, c: Thread, m: Mutex, k: Mutex)
    requires a != b && b != c && a != c && m != k
    ensures var e := Corrected(Raised(a, b, c, m, k), m);
            EffFrom(e.mtx, [m], 10) == 10 && IsMin(e.mtx, [m], 10, 10)
  {
    var e := Corrected(Raised(a, b, c, m, k), m);
    assert EffFrom(e.mtx, [m][1..], 10) == 10;
  }

  /** The state it starts from is reached from the empty system. */
  lemma WaitingReached(a: Thread, b: Thread, c: Thread, m: Mutex, k: Mutex) returns (steps: seq<Step>)
    requires a != b && b != c && a != c && m != k
    ensures Inv(EMPTY) && Run(EMPTY, steps, Waiting(a, b, c, m, k))
  {
    hide Inv, Run, Enabled, Next, AddThread, AddMutex, Created, FirstHeld, BothHeld, Waiting;
    EmptyInv();
    WaitingInv(a, b, c, m, k);
    var end := Waiting(a, b, c, m, k);
    RunNone(end);
    Create(a, b, c, m, k);
    Added(AddMutex(AddThread(AddThread(AddThread(EMPTY, a, 10), b, 5), c, 3), m), NewMutex(k));
    HoldFirst(a, b, c, m, k);
    HoldSecond(a, b, c, m, k);
    Wait(a, b, c, m, k);
    steps := [TakeStep(b, m, true)];
    RunThen(BothHeld(a, b, c, m, k), TakeStep(b, m, true), end, [], end);
    assert [TakeStep(b, m, true)] + [] == steps;
    RunThen(FirstHeld(a, b, c, m, k), TakeStep(b, k, true), BothHeld(a, b, c, m, k), steps, end);
    steps := [TakeStep(b, k, true)] + steps;
    RunThen(Created(a, b, c, m, k), TakeStep(a, m, true), FirstHeld(a, b, c, m, k), steps, end);
    steps := [TakeStep(a, m, true)] + steps;
    steps := FromEmpty(a, b, c, m, k, steps, end);
  }

  lemma FromEmpty(a: Thread, b: Thread, c: Thread, m: Mutex, k: Mutex, rest: seq<Step>, end: State) returns (steps: seq<Step>)
    requires a != b && b != c && a != c && m != k
    requires Inv(Created(a, b, c, m, k)) && Run(Created(a, b, c, m, k), rest, end)
    ensures Inv(EMPTY) && Run(EMPTY, steps, end)
  {
    hide Inv, Run, Enabled, Next, AddThread, AddMutex, Created;
    EmptyInv();
    var s1 := AddThread(EMPTY, a, 10);
    var s2 := AddThread(s1, b, 5);
    var s3 := AddThread(s2, c, 3);
    var s4 := AddMutex(s3, m);
    Create(a, b, c, m, k);
    Added(s4, NewMutex(k));
    RunThen(s4, NewMutex(k), Created(a, b, c, m, k), rest, end);
    steps := [NewMutex(k)] + rest;
    RunThen(s3, NewMutex(m), s4, steps, end);
    steps := [NewMutex(m)] + steps;
    RunThen(s2, NewThread(c, 3), s3, steps, end);
    steps := [NewThread(c, 3)] + steps;
    RunThen(s1, NewThread(b, 5), s2, steps, end);
    steps := [NewThread(b, 5)] + steps;
    RunThen(EMPTY, NewThread(a, 10), s1, steps, end);
    steps := [NewThread(a, 10)] + steps;
  }

  /** A step that creates something. */
  lemma Added(s: State, step: Step)
    requires Inv(s) && Enabled(s, step) && (step.NewThread? || step.NewMutex?)
    ensures Next(s, step) == (if step.NewThread? then AddThread(s, step.t, step.init) else AddMutex(s, step.m)) && Inv(Next(s, step))
  {
    hide Inv;
    NextKeepsInv(s, step);
  }

  lemma Create(a: Thread, b: Thread, c: Thread, m: Mutex, k: Mutex)
    requires a != b && b != c && a != c && m != k
    ensures var s1 := AddThread(EMPTY, a, 10); var s2 := AddThread(s1, b, 5); var s3 := AddThread(s2, c, 3); var s4 := AddMutex(s3, m);
            && Inv(EMPTY) && Enabled(EMPTY, NewThread(a, 10)) && Next(EMPTY, NewThread(a, 10)) == s1 && Inv(s1)
            && Enabled(s1, NewThread(b, 5)) && Next(s1, NewThread(b, 5)) == s2 && Inv(s2)
            && Enabled(s2, NewThread(c, 3)) && Next(s2, NewThread(c, 3)) == s3 && Inv(s3)
            && Enabled(s3, NewMutex(m)) && Next(s3, NewMutex(m)) == s4 && Inv(s4)
            && Enabled(s4, NewMutex(k)) && AddMutex(s4, k) == Created(a, b, c, m, k)
  {
    hide Inv, Next;
    EmptyInv();
    var s1 := AddThread(EMPTY, a, 10);
    var s2 := AddThread(s1, b, 5);
    var s3 := AddThread(s2, c, 3);
    var s4 := AddMutex(s3, m);
    Added(EMPTY, NewThread(a, 10));
    Added(s1, NewThread(b, 5));
    Added(s2, NewThread(c, 3));
    Added(s3, NewMutex(m));
    assert AddMutex(s4, k).thr == Created(a, b, c, m, k).thr;
    assert AddMutex(s4, k).mtx == Created(a, b, c, m, k).mtx;
  }

  lemma HoldFirst(a: Thread, b: Thread, c: Thread, m: Mutex, k: Mutex)
    requires a != b && b != c && a != c && m != k && Inv(Created(a, b, c, m, k))
    ensures var s, s' := Created(a, b, c, m, k), FirstHeld(a, b, c, m, k);
            Enabled(s, TakeStep(a, m, true)) && Next(s, TakeStep(a, m, true)) == s' && Inv(s')
  {
    hide Inv;
    var s, s' := Created(a, b, c, m, k), FirstHeld(a, b, c, m, k);
    NextKeepsInv(s, TakeStep(a, m, true));
    assert [m] + [] == [m];
    assert Acquire(s, a, m).thr == s'.thr;
    assert Acquire(s, a, m).mtx == s'.mtx;
  }

  lemma HoldSecond(a: Thread, b: Thread, c: Thread, m: Mutex, k: Mutex)
    requires a != b && b != c && a != c && m != k && Inv(FirstHeld(a, b, c, m, k))
    ensures var s, s' := FirstHeld(a, b, c, m, k), BothHeld(a, b, c, m, k);
            Enabled(s, TakeStep(b, k, true)) && Next(s, TakeStep(b, k, true)) == s' && Inv(s')
  {
    hide Inv;
    var s, s' := FirstHeld(a, b, c, m, k), BothHeld(a, b, c, m, k);
    NextKeepsInv(s, TakeStep(b, k, true));
    assert [k] + [] == [k];
    assert Acquire(s, b, k).thr == s'.thr;
    assert Acquire(s, b, k).mtx == s'.mtx;
  }

  lemma Wait(a: Thread, b: Thread, c: Thread, m: Mutex, k: Mutex)
    requires a != b && b != c && a != c && m != k && Inv(BothHeld(a, b, c, m, k))
    ensures var s, s' := BothHeld(a, b, c, m, k), Waiting(a, b, c, m, k);
            Enabled(s, TakeStep(b, m, true)) && Next(s, TakeStep(b, m, true)) == s' && Inv(s')
  {
    hide Inv, Walking;
    var s, s' := BothHeld(a, b, c, m, k), Waiting(a, b, c, m, k);
    NextKeepsInv(s, TakeStep(b, m, true));
    var e := Enqueue(s, b, m);
    assert InsertPrio(s.thr, [], b) == [b];
    assert UpdatePriority(e, a, 5) == e.WithCurr(a, 5);
    assert e.WithCurr(a, 5).thr == s'.thr;
    assert e.WithCurr(a, 5).mtx == s'.mtx;
  }
}
