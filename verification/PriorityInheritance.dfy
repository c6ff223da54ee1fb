/** What takes, releases, drops and ceiling changes of a mutex do to all threads and mutexes
    (rt-thread/src/ipc.c), and the proof that each keeps every priority exact. */
module PriorityInheritance {
  import opened IpcObjects
  import opened Lists

  const NO_PRIO: nat := 0xff       // priority of a mutex nobody waits for; also "no ceiling"
  const HOLD_MAX: nat := 0xff      // RT_MUTEX_HOLD_MAX
  const PRIORITY_MAX: nat := 32    // RT_THREAD_PRIORITY_MAX

  // -------------------------------------------------------------------------------------
  // State
  // -------------------------------------------------------------------------------------

  datatype ThreadRec = ThreadRec(
    init: nat,                 // init_priority
    curr: nat,                 // current_priority
    taken: seq<Mutex>,         // taken_object_list
    pending: Mutex?,           // pending_object
    suspended: bool)

  datatype MutexRec = MutexRec(
    owner: Thread?,
    hold: nat,
    prio: nat,                 // mutex->priority
    ceil: nat,                 // ceiling_priority
    waiters: seq<Thread>)      // parent.suspend_thread

  datatype State = State(thr: map<Thread, ThreadRec>, mtx: map<Mutex, MutexRec>) {
    ghost function WithCurr(t: Thread, p: nat): State
      requires t in thr
    {
      this.(thr := thr[t := thr[t].(curr := p)])
    }

    ghost function WithQueue(m: Mutex, ws: seq<Thread>, p: nat): State
      requires m in mtx
    {
      this.(mtx := mtx[m := mtx[m].(waiters := ws, prio := p)])
    }
  }

  function Min(a: nat, b: nat): nat { if a < b then a else b }

  /** What a held mutex contributes to its owner's priority. */
  function Contribution(r: MutexRec): nat { Min(r.prio, r.ceil) }

  /** _thread_get_mutex_priority: the loop over the taken list, started from p. */
  ghost function EffFrom(mtx: map<Mutex, MutexRec>, taken: seq<Mutex>, p: nat): nat
    requires forall m :: m in taken ==> m in mtx
  {
    if taken == [] then p else EffFrom(mtx, taken[1..], Min(p, Contribution(mtx[taken[0]])))
  }

  ghost function Eff(s: State, t: Thread): nat
    requires t in s.thr && forall m :: m in s.thr[t].taken ==> m in s.mtx
  {
    EffFrom(s.mtx, s.thr[t].taken, s.thr[t].init)
  }

  /** p is the minimum of `init` and the contributions of the mutexes in `taken`. */
  ghost predicate IsMin(mtx: map<Mutex, MutexRec>, taken: seq<Mutex>, init: nat, p: nat)
    requires forall m :: m in taken ==> m in mtx
  {
    && p <= init
    && (forall m :: m in taken ==> p <= Contribution(mtx[m]))
    && (p == init || exists m :: m in taken && p == Contribution(mtx[m]))
  }

  lemma {:induction false} EffIsMin(mtx: map<Mutex, MutexRec>, taken: seq<Mutex>, init: nat)
    requires forall m :: m in taken ==> m in mtx
    ensures IsMin(mtx, taken, init, EffFrom(mtx, taken, init))
  {
    if taken != [] {
      var p := Min(init, Contribution(mtx[taken[0]]));
      EffIsMin(mtx, taken[1..], p);
      var e := EffFrom(mtx, taken[1..], p);
      assert forall m :: m in taken ==> m == taken[0] || m in taken[1..];
      if e != p {
        var m :| m in taken[1..] && e == Contribution(mtx[m]);
        assert m in taken;
      } else if p != init {
        assert taken[0] in taken;
      }
    }
  }

  // -------------------------------------------------------------------------------------
  // Invariant
  // -------------------------------------------------------------------------------------

  /** The mutex t is suspended on, as the inheritance walk sees it. */
  ghost function WaitsOn(s: State, t: Thread): Mutex?
    requires t in s.thr
  {
    if s.thr[t].suspended then s.thr[t].pending else null
  }

  ghost predicate ThreadOk(s: State, r: ThreadRec) {
    && r.init <= NO_PRIO && r.curr <= NO_PRIO
    && Distinct(r.taken) && (forall m :: m in r.taken ==> m in s.mtx)
    && (r.pending != null ==> r.pending in s.mtx)
  }

  ghost predicate MutexOk(s: State, r: MutexRec) {
    && r.ceil <= NO_PRIO && r.hold <= HOLD_MAX
    && (r.owner != null ==> r.owner in s.thr)
    && (r.owner != null <==> r.hold > 0)
    && (r.owner == null ==> r.waiters == [])
    && Distinct(r.waiters) && (forall t :: t in r.waiters ==> t in s.thr)
  }

  /** Ownership and wait links agree in both directions. */
  ghost predicate Linked(s: State) {
    && (forall t :: t in s.thr ==> ThreadOk(s, s.thr[t]))
    && (forall m :: m in s.mtx ==> MutexOk(s, s.mtx[m]))
    && OwnersAgree(s)
    && WaitersAgree(s)
  }

  ghost predicate OwnersAgree(s: State) {
    forall t, m :: t in s.thr && m in s.mtx ==> (m in s.thr[t].taken <==> s.mtx[m].owner == t)
  }

  ghost predicate WaitersAgree(s: State) {
    forall t, m :: t in s.thr && m in s.mtx ==> (t in s.mtx[m].waiters <==> WaitsOn(s, t) == m)
  }

  /** A wait list ordered by priority, except for where x stands. */
  ghost predicate SortedBut(s: State, ws: seq<Thread>, x: Thread?) {
    forall i, j :: 0 <= i < j < |ws| && ws[i] in s.thr && ws[j] in s.thr && ws[i] != x && ws[j] != x ==>
      s.thr[ws[i]].curr <= s.thr[ws[j]].curr
  }

  ghost function FirstPrio(s: State, ws: seq<Thread>): nat
    requires forall t :: t in ws ==> t in s.thr
  {
    if ws == [] then NO_PRIO else s.thr[ws[0]].curr
  }

  /** Every wait list but that of `x` is sorted, and its mutex has the priority of its first waiter. */
  ghost predicate QueuesBut(s: State, x: Mutex?)
    requires Linked(s)
  {
    forall m :: m in s.mtx && m != x ==>
      SortedBut(s, s.mtx[m].waiters, null) && s.mtx[m].prio == FirstPrio(s, s.mtx[m].waiters)
  }

  ghost predicate ExactBut(s: State, x: Thread?)
    requires Linked(s)
  {
    forall t :: t in s.thr && t != x ==> s.thr[t].curr == Eff(s, t)
  }

  /** Wait lists are sorted, mutex priorities are those of the first waiters, and every
      thread's priority is the minimum over its own and its mutexes'. */
  ghost predicate Settled(s: State) {
    Linked(s) && QueuesBut(s, null) && ExactBut(s, null)
  }

  ghost predicate NoStale(s: State) {
    forall t :: t in s.thr && s.thr[t].pending != null ==> s.thr[t].suspended
  }

  /** What holds between kernel calls. */
  ghost predicate Inv(s: State) {
    Settled(s) && NoStale(s)
  }

  // -------------------------------------------------------------------------------------
  // rt_susp_list_enqueue with RT_IPC_FLAG_PRIO
  // -------------------------------------------------------------------------------------

  ghost function InsertPrio(thr: map<Thread, ThreadRec>, ws: seq<Thread>, t: Thread): (r: seq<Thread>)
    requires t in thr && forall w :: w in ws ==> w in thr
    ensures |r| == |ws| + 1
    ensures t in r && (forall w :: w in ws ==> w in r) && (forall w :: w in r ==> w in ws || w == t)
  {
    if ws == [] then [t]
    else if thr[t].curr < thr[ws[0]].curr then [t] + ws
    else [ws[0]] + InsertPrio(thr, ws[1..], t)
  }

  lemma SortedCons(s: State, x: Thread, ws: seq<Thread>)
    requires SortedBut(s, ws, null) && x in s.thr && forall w :: w in ws ==> w in s.thr && s.thr[x].curr <= s.thr[w].curr
    ensures SortedBut(s, [x] + ws, null)
  {
    var r := [x] + ws;
    forall i, j | 0 <= i < j < |r| && r[i] in s.thr && r[j] in s.thr ensures s.thr[r[i]].curr <= s.thr[r[j]].curr {
      assert r[j] == ws[j - 1] && ws[j - 1] in ws;
      assert i > 0 ==> r[i] == ws[i - 1];
    }
  }

  lemma SortedTail(s: State, ws: seq<Thread>, x: Thread?)
    requires ws != [] && SortedBut(s, ws, x)
    ensures SortedBut(s, ws[1..], x)
    ensures ws[0] != x && ws[0] in s.thr ==>
      forall w :: w in ws[1..] && w != x && w in s.thr ==> s.thr[ws[0]].curr <= s.thr[w].curr
  {
    var tail := ws[1..];
    forall i, j | 0 <= i < j < |tail| && tail[i] in s.thr && tail[j] in s.thr && tail[i] != x && tail[j] != x
      ensures s.thr[tail[i]].curr <= s.thr[tail[j]].curr
    {
      assert tail[i] == ws[i + 1] && tail[j] == ws[j + 1];
    }
    forall w | w in tail && w != x && w in s.thr && ws[0] != x && ws[0] in s.thr ensures s.thr[ws[0]].curr <= s.thr[w].curr {
      var k :| 0 <= k < |tail| && tail[k] == w;
      assert ws[k + 1] == w;
    }
  }

  lemma SortedEmpty(s: State)
    ensures SortedBut(s, [], null)
  {
  }

  lemma {:induction false} InsertPrioDistinct(thr: map<Thread, ThreadRec>, ws: seq<Thread>, t: Thread)
    requires t in thr && t !in ws && Distinct(ws) && forall w :: w in ws ==> w in thr
    ensures Distinct(InsertPrio(thr, ws, t))
  {
    hide Distinct;
    if ws == [] {
      assert Distinct([t]) by { DistinctOne(t); }
    } else if thr[t].curr < thr[ws[0]].curr {
      DistinctCons(t, ws);
    } else {
      DistinctTail(ws);
      InsertPrioDistinct(thr, ws[1..], t);
      DistinctCons(ws[0], InsertPrio(thr, ws[1..], t));
    }
  }

  lemma DistinctOne(t: Thread)
    ensures Distinct([t])
  {
  }

  lemma {:induction false} InsertPrioSorted(s: State, ws: seq<Thread>, t: Thread)
    requires t in s.thr && t !in ws && Distinct(ws) && forall w :: w in ws ==> w in s.thr
    requires SortedBut(s, ws, null)
    ensures var r := InsertPrio(s.thr, ws, t);
            && Distinct(r) && SortedBut(s, r, null)
            && FirstPrio(s, r) == Min(s.thr[t].curr, if ws == [] then s.thr[t].curr else s.thr[ws[0]].curr)
  {
    hide Distinct, SortedBut;
    InsertPrioDistinct(s.thr, ws, t);
    if ws == [] {
      SortedEmpty(s);
      SortedCons(s, t, []);
      assert [t] + [] == [t];
    } else {
      SortedTail(s, ws, null);
      if s.thr[t].curr < s.thr[ws[0]].curr {
        assert forall w :: w in ws ==> w == ws[0] || w in ws[1..];
        SortedCons(s, t, ws);
      } else {
        DistinctTail(ws);
        InsertPrioSorted(s, ws[1..], t);
        SortedCons(s, ws[0], InsertPrio(s.thr, ws[1..], t));
      }
    }
  }

  // -------------------------------------------------------------------------------------
  // _thread_update_priority
  // -------------------------------------------------------------------------------------

  /** One pass of the walk for a thread suspended on m: re-sort it in m's wait list and give
      m the priority of its first waiter. */
  ghost function Requeue(s: State, t: Thread, m: Mutex): State
    requires Linked(s) && t in s.thr && WaitsOn(s, t) == m
  {
    var ws := InsertPrio(s.thr, Without(s.mtx[m].waiters, t), t);
    s.WithQueue(m, ws, FirstPrio(s, ws))
  }

  /** The state inside the walk, just after t's priority was set: only the wait list t stands
      in may be out of order, and its mutex's priority is off in one direction only. */
  ghost predicate Walking(s: State, t: Thread, boost: bool) {
    && Linked(s) && ExactBut(s, null)
    && t in s.thr
    && QueuesBut(s, WaitsOn(s, t))
    && (WaitsOn(s, t) != null ==>
          var r := s.mtx[WaitsOn(s, t)];
          && SortedBut(s, r.waiters, t)
          && (boost ==> s.thr[r.waiters[0]].curr <= r.prio)
          && (!boost ==> forall w :: w in r.waiters ==> r.prio <= s.thr[w].curr))
  }

  /** Every (thread, level) pair a boost can still give away, or a de-boost still take. */
  ghost function Room(s: State, boost: bool): set<(Thread, nat)> {
    if boost then
      set t, k: nat | t in s.thr && 0 <= k <= NO_PRIO && k < s.thr[t].curr :: (t, k)
    else
      set t, k: nat | t in s.thr && 0 <= k <= NO_PRIO && s.thr[t].curr < k :: (t, k)
  }

  ghost predicate Better(boost: bool, p: nat, q: nat) { if boost then p < q else q < p }

  /** Taking t out of its wait list and inserting it again by priority. */
  lemma ReinsertSorts(s: State, ws: seq<Thread>, t: Thread)
    requires t in ws && Distinct(ws) && SortedBut(s, ws, t) && forall w :: w in ws ==> w in s.thr
    ensures var r := InsertPrio(s.thr, Without(ws, t), t);
            && Distinct(r) && SortedBut(s, r, null)
            && (forall w :: w in r ==> w in ws) && (forall w :: w in ws ==> w in r)
            && s.thr[r[0]].curr <= s.thr[ws[0]].curr
  {
    WithoutDistinct(ws, t);
    WithoutSorted(s, ws, t);
    InsertPrioSorted(s, Without(ws, t), t);
    var r := InsertPrio(s.thr, Without(ws, t), t);
    assert ws[0] in r;
    var i :| 0 <= i < |r| && r[i] == ws[0];
    assert r[0] in r;
  }

  lemma SetQueueLinked(s: State, m: Mutex, ws: seq<Thread>, p: nat)
    requires Linked(s) && m in s.mtx && Distinct(ws)
    requires (forall w :: w in ws ==> w in s.mtx[m].waiters) && (forall w :: w in s.mtx[m].waiters ==> w in ws)
    ensures Linked(s.WithQueue(m, ws, p))
  {
    var s' := s.WithQueue(m, ws, p);
    assert ws != [] ==> ws[0] in s.mtx[m].waiters;
    assert forall t :: t in s.thr ==> WaitsOn(s', t) == WaitsOn(s, t);
    forall t | t in s'.thr ensures ThreadOk(s', s'.thr[t]) {
      assert ThreadOk(s, s.thr[t]);
    }
    forall k | k in s'.mtx ensures MutexOk(s', s'.mtx[k]) {
      assert MutexOk(s, s.mtx[k]);
    }
  }

  /** A wait list is as it was when its threads' priorities are. */
  lemma QueueFrame(s: State, s': State, ws: seq<Thread>)
    requires forall w :: w in ws ==> w in s.thr && w in s'.thr && s.thr[w].curr == s'.thr[w].curr
    ensures SortedBut(s, ws, null) ==> SortedBut(s', ws, null)
    ensures FirstPrio(s, ws) == FirstPrio(s', ws)
  {
    if ws != [] { assert ws[0] in ws; }
    if SortedBut(s, ws, null) {
      forall i, j | 0 <= i < j < |ws| ensures s'.thr[ws[i]].curr <= s'.thr[ws[j]].curr {
        assert ws[i] in ws && ws[j] in ws;
      }
    }
  }

  lemma RequeueQueue(s: State, t: Thread, boost: bool)
    requires Walking(s, t, boost) && WaitsOn(s, t) != null
    ensures var m := WaitsOn(s, t); var s' := Requeue(s, t, m);
            && Linked(s') && QueuesBut(s', null)
            && (boost ==> s'.mtx[m].prio <= s.mtx[m].prio)
            && (!boost ==> s.mtx[m].prio <= s'.mtx[m].prio)
  {
    var m := WaitsOn(s, t);
    var ws := s.mtx[m].waiters;
    ReinsertSorts(s, ws, t);
    var r := InsertPrio(s.thr, Without(ws, t), t);
    SetQueueLinked(s, m, r, FirstPrio(s, r));
    var s' := Requeue(s, t, m);
    assert r[0] in r && r[0] in ws;
    forall k | k in s'.mtx
      ensures SortedBut(s', s'.mtx[k].waiters, null) && s'.mtx[k].prio == FirstPrio(s', s'.mtx[k].waiters)
    {
      QueueFrame(s, s', s'.mtx[k].waiters);
    }
  }

  lemma SortedNone(s: State, ws: seq<Thread>, x: Thread)
    requires SortedBut(s, ws, x) && x !in ws
    ensures SortedBut(s, ws, null)
  {
  }

  lemma {:induction false} WithoutSorted(s: State, ws: seq<Thread>, x: Thread)
    requires Distinct(ws) && SortedBut(s, ws, x) && forall w :: w in ws ==> w in s.thr
    ensures SortedBut(s, Without(ws, x), null)
    decreases ws
  {
    hide Distinct, SortedBut;
    if ws == [] {
      SortedEmpty(s);
    } else {
      SortedTail(s, ws, x);
      DistinctTail(ws);
      if ws[0] == x {
        SortedNone(s, ws[1..], x);
      } else {
        WithoutSorted(s, ws[1..], x);
        WithoutDistinct(ws[1..], x);
        SortedCons(s, ws[0], Without(ws[1..], x));
      }
    }
  }

  /** Eff of t depends only on t's own record and the mutexes t holds. */
  lemma {:induction false} EffFrame(mtx: map<Mutex, MutexRec>, mtx': map<Mutex, MutexRec>, taken: seq<Mutex>, p: nat)
    requires forall m :: m in taken ==> m in mtx && m in mtx' && Contribution(mtx[m]) == Contribution(mtx'[m])
    ensures EffFrom(mtx, taken, p) == EffFrom(mtx', taken, p)
  {
    if taken != [] {
      assert taken[0] in taken;
      EffFrame(mtx, mtx', taken[1..], Min(p, Contribution(mtx[taken[0]])));
    }
  }

  /** When one mutex's contribution changes, only its owner's Eff can, and in the same direction. */
  lemma EffShift(s: State, s': State, m: Mutex, boost: bool)
    requires Linked(s) && Linked(s') && s.thr == s'.thr && s.mtx.Keys == s'.mtx.Keys && m in s.mtx
    requires forall k :: k in s.mtx && k != m ==> s.mtx[k] == s'.mtx[k]
    requires s.mtx[m].owner == s'.mtx[m].owner && s.mtx[m].owner != null
    requires if boost then Contribution(s'.mtx[m]) <= Contribution(s.mtx[m])
                      else Contribution(s.mtx[m]) <= Contribution(s'.mtx[m])
    ensures forall t :: t in s.thr && t != s.mtx[m].owner ==> Eff(s, t) == Eff(s', t)
    ensures var o := s.mtx[m].owner;
            Eff(s', o) == Eff(s, o) || Better(boost, Eff(s', o), Eff(s, o))
  {
    forall t | t in s.thr && t != s.mtx[m].owner ensures Eff(s, t) == Eff(s', t) {
      EffFrame(s.mtx, s'.mtx, s.thr[t].taken, s.thr[t].init);
    }
    var o := s.mtx[m].owner;
    var r := s.thr[o];
    EffIsMin(s.mtx, r.taken, r.init);
    EffIsMin(s'.mtx, r.taken, r.init);
  }

  /** Eff does not read current priorities. */
  lemma EffIgnoresCurr(s: State, o: Thread, p: nat)
    requires Linked(s) && o in s.thr && p <= NO_PRIO
    ensures Linked(s.WithCurr(o, p))
    ensures forall t :: t in s.thr ==> Eff(s.WithCurr(o, p), t) == Eff(s, t)
  {
    var s' := s.WithCurr(o, p);
    forall t | t in s'.thr ensures ThreadOk(s', s'.thr[t]) && WaitsOn(s', t) == WaitsOn(s, t) && Eff(s', t) == Eff(s, t) {
      assert ThreadOk(s, s.thr[t]);
    }
    forall m | m in s'.mtx ensures MutexOk(s', s'.mtx[m]) {
      assert MutexOk(s, s.mtx[m]);
    }
  }

  /** Setting the priority of a thread whose wait list is in order leaves only that list to repair. */
  lemma SetCurrWalking(s: State, o: Thread, p: nat, boost: bool)
    requires Linked(s) && QueuesBut(s, null) && o in s.thr && ExactBut(s, o)
    requires p == Eff(s, o) && p <= NO_PRIO
    requires p == s.thr[o].curr || Better(boost, p, s.thr[o].curr)
    ensures Walking(s.WithCurr(o, p), o, boost)
  {
    var s' := s.WithCurr(o, p);
    EffIgnoresCurr(s, o, p);
    forall k | k in s'.mtx && k != WaitsOn(s', o)
      ensures SortedBut(s', s'.mtx[k].waiters, null) && s'.mtx[k].prio == FirstPrio(s', s'.mtx[k].waiters)
    {
      assert s.mtx[k] == s'.mtx[k] && o !in s.mtx[k].waiters;
      QueueFrame(s, s', s.mtx[k].waiters);
    }
    var m := WaitsOn(s, o);
    if m != null {
      assert o in s.mtx[m].waiters;
      SetCurrQueue(s, o, p, s.mtx[m].waiters, boost);
    }
  }

  lemma SetCurrQueue(s: State, o: Thread, p: nat, ws: seq<Thread>, boost: bool)
    requires o in ws && (forall w :: w in ws ==> w in s.thr) && SortedBut(s, ws, null)
    requires p == s.thr[o].curr || Better(boost, p, s.thr[o].curr)
    ensures var s' := s.WithCurr(o, p);
            && SortedBut(s', ws, o)
            && (boost ==> s'.thr[ws[0]].curr <= FirstPrio(s, ws))
            && (!boost ==> forall w :: w in ws ==> FirstPrio(s, ws) <= s'.thr[w].curr)
  {
    var s' := s.WithCurr(o, p);
    forall i, j | 0 <= i < j < |ws| && ws[i] != o && ws[j] != o
      ensures s'.thr[ws[i]].curr <= s'.thr[ws[j]].curr
    {
      assert ws[i] in ws && ws[j] in ws;
    }
    assert ws[0] in ws;
    forall w | w in ws && !boost ensures FirstPrio(s, ws) <= s'.thr[w].curr {
      var i :| 0 <= i < |ws| && ws[i] == w;
      assert s.thr[ws[0]].curr <= s.thr[ws[i]].curr;
    }
  }

  /** One pass either ends the walk with every priority exact, or moves it to the owner,
      whose priority number strictly moved in the walk's direction. */
  lemma WalkStep(s: State, t: Thread, boost: bool)
    requires Walking(s, t, boost) && WaitsOn(s, t) != null
    ensures var m := WaitsOn(s, t);
            var s1 := Requeue(s, t, m);
            var o := s.mtx[m].owner;
            && o != null && o in s.thr && Linked(s1)
            && var p := Eff(s1, o);
               if p == s.thr[o].curr then Settled(s1)
               else
                 && Better(boost, p, s.thr[o].curr)
                 && Walking(s1.WithCurr(o, p), o, boost)
                 && Room(s1.WithCurr(o, p), boost) < Room(s, boost)
  {
    var m := WaitsOn(s, t);
    var s1 := Requeue(s, t, m);
    var o := s.mtx[m].owner;
    RequeueQueue(s, t, boost);
    assert t in s.mtx[m].waiters;
    EffShift(s, s1, m, boost);
    assert s.thr[o].curr == Eff(s, o);
    assert forall u :: u in s.thr && u != o ==> s.thr[u].curr == Eff(s, u) == Eff(s1, u);
    var p := Eff(s1, o);
    if p != s.thr[o].curr {
      EffIsMin(s1.mtx, s1.thr[o].taken, s1.thr[o].init);
      SetCurrWalking(s1, o, p, boost);
      RoomShrinks(s1, o, p, boost);
    }
  }

  lemma RoomShrinks(s: State, o: Thread, p: nat, boost: bool)
    requires o in s.thr && s.thr[o].curr <= NO_PRIO && p <= NO_PRIO && Better(boost, p, s.thr[o].curr)
    ensures Room(s.WithCurr(o, p), boost) < Room(s, boost)
  {
    var s' := s.WithCurr(o, p);
    assert forall e :: e in Room(s', boost) ==> e in Room(s, boost);
    assert (o, p) in Room(s, boost) && (o, p) !in Room(s', boost);
  }

  /** The whole walk, for a thread whose priority has just been set. */
  ghost function Walk(s: State, t: Thread, boost: bool): (r: State)
    requires Walking(s, t, boost)
    ensures r.thr.Keys == s.thr.Keys && r.mtx.Keys == s.mtx.Keys
    decreases Room(s, boost)
  {
    if WaitsOn(s, t) != null then
      WalkStep(s, t, boost);
      var m := WaitsOn(s, t);
      var s1 := Requeue(s, t, m);
      var o := s.mtx[m].owner;
      var p := Eff(s1, o);
      if p != s1.thr[o].curr then Walk(s1.WithCurr(o, p), o, boost) else s1
    else s
  }

  /** s' differs from s only in current priorities, all moved one way, in the order of wait
      lists and in mutex priorities. */
  ghost predicate OnlyPriorities(s: State, s': State, boost: bool) {
    && s.thr.Keys == s'.thr.Keys && s.mtx.Keys == s'.mtx.Keys
    && (forall t :: t in s.thr ==>
          && s'.thr[t] == s.thr[t].(curr := s'.thr[t].curr)
          && (s'.thr[t].curr == s.thr[t].curr || Better(boost, s'.thr[t].curr, s.thr[t].curr)))
    && (forall m :: m in s.mtx ==>
          && s'.mtx[m] == s.mtx[m].(prio := s'.mtx[m].prio, waiters := s'.mtx[m].waiters)
          && (forall t :: t in s'.mtx[m].waiters ==> t in s.mtx[m].waiters)
          && (forall t :: t in s.mtx[m].waiters ==> t in s'.mtx[m].waiters))
  }

  lemma RequeueOnlyPriorities(s: State, t: Thread, boost: bool)
    requires Walking(s, t, boost) && WaitsOn(s, t) != null
    ensures OnlyPriorities(s, Requeue(s, t, WaitsOn(s, t)), boost)
  {
    var m := WaitsOn(s, t);
    assert t in s.mtx[m].waiters;
    ReinsertSorts(s, s.mtx[m].waiters, t);
  }

  lemma SetCurrOnlyPriorities(s: State, s1: State, o: Thread, p: nat, boost: bool)
    requires OnlyPriorities(s, s1, boost) && o in s.thr
    requires s1.thr[o].curr == s.thr[o].curr && Better(boost, p, s.thr[o].curr)
    ensures OnlyPriorities(s, s1.WithCurr(o, p), boost)
  {
  }

  lemma OnlyPrioritiesTrans(s: State, s1: State, s2: State, boost: bool)
    requires OnlyPriorities(s, s1, boost) && OnlyPriorities(s1, s2, boost)
    ensures OnlyPriorities(s, s2, boost)
  {
  }

  /** The inheritance walk ends (its decreases clause) with every priority exact, whatever
      the shape of the wait graph, and touches priorities only. */
  lemma {:induction false} WalkRestoresExactness(s: State, t: Thread, boost: bool)
    requires Walking(s, t, boost)
    ensures Settled(Walk(s, t, boost)) && OnlyPriorities(s, Walk(s, t, boost), boost)
    decreases Room(s, boost)
  {
    if WaitsOn(s, t) != null {
      var m := WaitsOn(s, t);
      var s1 := Requeue(s, t, m);
      var o := s.mtx[m].owner;
      WalkStep(s, t, boost);
      RequeueOnlyPriorities(s, t, boost);
      var p := Eff(s1, o);
      if p != s1.thr[o].curr {
        var s2 := s1.WithCurr(o, p);
        SetCurrOnlyPriorities(s, s1, o, p, boost);
        WalkRestoresExactness(s2, o, boost);
        OnlyPrioritiesTrans(s, s2, Walk(s2, o, boost), boost);
      }
    }
  }

  /** _thread_update_priority: set t's priority to p and, if t is suspended, walk. */
  ghost function UpdatePriority(s: State, t: Thread, p: nat): (r: State)
    requires t in s.thr
    requires s.thr[t].suspended ==> Walking(s.WithCurr(t, p), t, p < s.thr[t].curr)
    ensures r.thr.Keys == s.thr.Keys && r.mtx.Keys == s.mtx.Keys
  {
    if s.thr[t].suspended then Walk(s.WithCurr(t, p), t, p < s.thr[t].curr) else s.WithCurr(t, p)
  }

  /** Bringing the one thread that is off to its exact priority settles the whole state. */
  lemma UpdateSettles(s: State, o: Thread, p: nat)
    requires Linked(s) && QueuesBut(s, null) && o in s.thr && ExactBut(s, o)
    requires p == Eff(s, o)
    ensures Walking(s.WithCurr(o, p), o, p < s.thr[o].curr)
    ensures Settled(UpdatePriority(s, o, p)) && OnlyPriorities(s, UpdatePriority(s, o, p), p < s.thr[o].curr)
  {
    EffIsMin(s.mtx, s.thr[o].taken, s.thr[o].init);
    assert ThreadOk(s, s.thr[o]);
    var boost := p < s.thr[o].curr;
    SetCurrWalking(s, o, p, boost);
    var s1 := s.WithCurr(o, p);
    assert OnlyPriorities(s, s1, boost);
    if s.thr[o].suspended {
      WalkRestoresExactness(s1, o, boost);
      OnlyPrioritiesTrans(s, s1, Walk(s1, o, boost), boost);
    }
  }

  // -------------------------------------------------------------------------------------
  // rt_mutex_take
  // -------------------------------------------------------------------------------------

  datatype Result = Ok | Blocked | Full | TimedOut | NotOwner

  ghost predicate Running(s: State, t: Thread) {
    t in s.thr && !s.thr[t].suspended && s.thr[t].pending == null
  }

  /** An unowned mutex passes to t. */
  ghost function Acquire(s: State, t: Thread, m: Mutex): State
    requires t in s.thr && m in s.mtx
  {
    var r := s.mtx[m];
    State(
      s.thr[t := s.thr[t].(taken := [m] + s.thr[t].taken,
                           curr := if r.ceil != NO_PRIO && r.ceil < s.thr[t].curr then r.ceil else s.thr[t].curr)],
      s.mtx[m := r.(owner := t, prio := NO_PRIO, hold := 1)])
  }

  /** t suspends on m's wait list; m takes t's priority if that is more urgent. */
  ghost function Enqueue(s: State, t: Thread, m: Mutex): State
    requires t in s.thr && m in s.mtx && forall w :: w in s.mtx[m].waiters ==> w in s.thr
  {
    var r := s.mtx[m];
    State(
      s.thr[t := s.thr[t].(suspended := true, pending := m)],
      s.mtx[m := r.(waiters := InsertPrio(s.thr, r.waiters, t), prio := Min(s.thr[t].curr, r.prio))])
  }

  /** The whole of _rt_mutex_take up to the point where the caller gets its result or leaves
      the processor. */
  ghost function Take(s: State, t: Thread, m: Mutex, wait: bool): (State, Result)
    requires Inv(s) && Running(s, t) && m in s.mtx
  {
    var r := s.mtx[m];
    if r.owner == t then
      if r.hold < HOLD_MAX then (s.(mtx := s.mtx[m := r.(hold := r.hold + 1)]), Ok) else (s, Full)
    else if r.owner == null then (Acquire(s, t, m), Ok)
    else if !wait then (s, TimedOut)
    else
      var s1 := Enqueue(s, t, m);
      var p := s.thr[t].curr;
      if p < r.prio && p < s1.thr[r.owner].curr then
        EnqueueReady(s, t, m);
        (UpdatePriority(s1, r.owner, p), Blocked)
      else (s1, Blocked)
  }

  lemma EnqueueLinked(s: State, t: Thread, m: Mutex)
    requires Inv(s) && Running(s, t) && m in s.mtx
    requires s.mtx[m].owner != null && s.mtx[m].owner != t
    ensures Linked(Enqueue(s, t, m))
  {
    hide SortedBut, FirstPrio, QueuesBut, ExactBut, EffFrom, WaitersAgree, OwnersAgree, InsertPrio, Distinct;
    var s1 := Enqueue(s, t, m);
    RunningNotWaiting(s, t, m);
    InsertPrioDistinct(s.thr, s.mtx[m].waiters, t);
    forall u | u in s1.thr ensures ThreadOk(s1, s1.thr[u]) {
      assert ThreadOk(s, s.thr[u]);
    }
    forall k | k in s1.mtx ensures MutexOk(s1, s1.mtx[k]) {
      assert MutexOk(s, s.mtx[k]);
    }
    EnqueueAgrees(s, t, m);
  }

  lemma EnqueueAgrees(s: State, t: Thread, m: Mutex)
    requires OwnersAgree(s) && WaitersAgree(s)
    requires t in s.thr && m in s.mtx && WaitsOn(s, t) == null && forall w :: w in s.mtx[m].waiters ==> w in s.thr
    ensures OwnersAgree(Enqueue(s, t, m)) && WaitersAgree(Enqueue(s, t, m))
  {
    var s1 := Enqueue(s, t, m);
    forall u, k | u in s1.thr && k in s1.mtx
      ensures u in s1.mtx[k].waiters <==> WaitsOn(s1, u) == k
      ensures k in s1.thr[u].taken <==> s1.mtx[k].owner == u
    {
      assert u in s.mtx[k].waiters <==> WaitsOn(s, u) == k;
      assert k in s.thr[u].taken <==> s.mtx[k].owner == u;
    }
  }

  lemma EnqueueQueues(s: State, t: Thread, m: Mutex)
    requires Inv(s) && Running(s, t) && m in s.mtx
    requires s.mtx[m].owner != null && s.mtx[m].owner != t
    requires Linked(Enqueue(s, t, m))
    ensures QueuesBut(Enqueue(s, t, m), null)
  {
    var s1 := Enqueue(s, t, m);
    var r := s.mtx[m];
    assert MutexOk(s, r) && ThreadOk(s, s.thr[t]);
    assert SortedBut(s, r.waiters, null) && r.prio == FirstPrio(s, r.waiters);
    assert WaitsOn(s, t) == null && t !in r.waiters;
    InsertPrioSorted(s, r.waiters, t);
    forall k | k in s1.mtx
      ensures SortedBut(s1, s1.mtx[k].waiters, null) && s1.mtx[k].prio == FirstPrio(s1, s1.mtx[k].waiters)
    {
      if k == m {
        QueueFrame(s, s1, InsertPrio(s.thr, r.waiters, t));
      } else {
        assert SortedBut(s, s.mtx[k].waiters, null) && MutexOk(s, s.mtx[k]);
        QueueFrame(s, s1, s.mtx[k].waiters);
      }
    }
  }

  /** A waiter of priority p joining m changes its owner's minimum only if p undercuts both
      m's priority and that minimum. */
  lemma EffAfterArrival(mtx: map<Mutex, MutexRec>, mtx': map<Mutex, MutexRec>, taken: seq<Mutex>, init: nat,
                        m: Mutex, p: nat)
    requires forall k :: k in taken ==> k in mtx && k in mtx' && (k != m ==> mtx[k] == mtx'[k])
    requires m in taken && mtx'[m].prio == Min(p, mtx[m].prio) && mtx'[m].ceil == mtx[m].ceil
    ensures var e := EffFrom(mtx, taken, init);
            EffFrom(mtx', taken, init) == if p < mtx[m].prio && p < e then p else e
  {
    EffIsMin(mtx, taken, init);
    EffIsMin(mtx', taken, init);
  }

  /** After t joined the wait list, only the owner can be off, and by exactly t's priority. */
  lemma EnqueueReady(s: State, t: Thread, m: Mutex)
    requires Inv(s) && Running(s, t) && m in s.mtx
    requires s.mtx[m].owner != null && s.mtx[m].owner != t
    ensures var s1 := Enqueue(s, t, m); var o := s.mtx[m].owner; var p := s.thr[t].curr;
            && Linked(s1) && QueuesBut(s1, null) && o in s1.thr
            && (if p < s.mtx[m].prio && p < s1.thr[o].curr then
                  ExactBut(s1, o) && Eff(s1, o) == p && Walking(s1.WithCurr(o, p), o, true)
                else ExactBut(s1, null))
  {
    var s1 := Enqueue(s, t, m);
    var o := s.mtx[m].owner;
    var p := s.thr[t].curr;
    assert MutexOk(s, s.mtx[m]);
    EnqueueLinked(s, t, m);
    EnqueueQueues(s, t, m);
    forall u | u in s.thr && u != o ensures s1.thr[u].curr == Eff(s1, u) {
      assert ThreadOk(s, s.thr[u]);
      EffFrame(s.mtx, s1.mtx, s.thr[u].taken, s.thr[u].init);
    }
    assert ThreadOk(s, s.thr[o]) && m in s.thr[o].taken;
    EffAfterArrival(s.mtx, s1.mtx, s.thr[o].taken, s.thr[o].init, m, p);
    assert s.thr[o].curr == Eff(s, o);
    if p < s.mtx[m].prio && p < s1.thr[o].curr {
      UpdateSettles(s1, o, p);
    }
  }

  /** Wait lists other than x's are in order as long as waiting threads keep their priorities. */
  lemma QueuesFrame(s: State, s': State, x: Mutex?)
    requires Linked(s) && Linked(s') && QueuesBut(s, null) && s.thr.Keys <= s'.thr.Keys
    requires forall k :: k in s'.mtx && k != x ==>
               k in s.mtx && s'.mtx[k].waiters == s.mtx[k].waiters && s'.mtx[k].prio == s.mtx[k].prio
    requires forall u :: u in s.thr && WaitsOn(s, u) != null ==> s'.thr[u].curr == s.thr[u].curr
    ensures QueuesBut(s', x)
  {
    forall k | k in s'.mtx && k != x
      ensures SortedBut(s', s'.mtx[k].waiters, null) && s'.mtx[k].prio == FirstPrio(s', s'.mtx[k].waiters)
    {
      assert MutexOk(s, s.mtx[k]) && SortedBut(s, s.mtx[k].waiters, null);
      assert forall w :: w in s.mtx[k].waiters ==> WaitsOn(s, w) == k;
      QueueFrame(s, s', s.mtx[k].waiters);
    }
  }

  /** Threads whose own record and held mutexes did not change stay exact. */
  lemma ExactFrame(s: State, s': State, x: Thread?, y: Thread?)
    requires Linked(s) && Linked(s') && ExactBut(s, null) && s.mtx.Keys <= s'.mtx.Keys
    requires forall u :: u in s'.thr && u != x && u != y ==>
               u in s.thr && s'.thr[u].curr == s.thr[u].curr && s'.thr[u].init == s.thr[u].init && s'.thr[u].taken == s.thr[u].taken
    requires forall k :: k in s.mtx && s.mtx[k].owner != x && s.mtx[k].owner != y ==>
               Contribution(s'.mtx[k]) == Contribution(s.mtx[k])
    ensures forall u :: u in s'.thr && u != x && u != y ==> s'.thr[u].curr == Eff(s', u)
  {
    forall u | u in s'.thr && u != x && u != y ensures s'.thr[u].curr == Eff(s', u) {
      assert ThreadOk(s, s.thr[u]);
      assert forall k :: k in s.thr[u].taken ==> s.mtx[k].owner == u;
      EffFrame(s.mtx, s'.mtx, s.thr[u].taken, s.thr[u].init);
    }
  }

  /** A newly held mutex lowers its holder's minimum to its own contribution, if that is lower. */
  lemma IsMinCons(mtx: map<Mutex, MutexRec>, mtx': map<Mutex, MutexRec>, taken: seq<Mutex>, init: nat, m: Mutex)
    requires forall k :: k in taken ==> k in mtx && k in mtx' && k != m && mtx[k] == mtx'[k]
    requires m in mtx'
    ensures EffFrom(mtx', [m] + taken, init) == Min(EffFrom(mtx, taken, init), Contribution(mtx'[m]))
  {
    var e, c := EffFrom(mtx, taken, init), Contribution(mtx'[m]);
    var all := [m] + taken;
    EffIsMin(mtx, taken, init);
    EffIsMin(mtx', all, init);
    assert all[0] == m && m in all;
    assert forall k :: k in taken ==> k in all;
    assert forall k :: k in all ==> k == m || k in taken;
  }

  lemma AcquireLinked(s: State, t: Thread, m: Mutex)
    requires Inv(s) && Running(s, t) && m in s.mtx && s.mtx[m].owner == null
    ensures Linked(Acquire(s, t, m))
  {
    var s1 := Acquire(s, t, m);
    assert MutexOk(s, s.mtx[m]);
    assert m !in s.thr[t].taken;
    assert ThreadOk(s, s.thr[t]);
    DistinctCons(m, s.thr[t].taken);
    forall u | u in s1.thr ensures ThreadOk(s1, s1.thr[u]) {
      assert ThreadOk(s, s.thr[u]);
    }
    forall k | k in s1.mtx ensures MutexOk(s1, s1.mtx[k]) {
      assert MutexOk(s, s.mtx[k]);
    }
    forall u, k | u in s1.thr && k in s1.mtx
      ensures u in s1.mtx[k].waiters <==> WaitsOn(s1, u) == k
      ensures k in s1.thr[u].taken <==> s1.mtx[k].owner == u
    {
      assert u in s.mtx[k].waiters <==> WaitsOn(s, u) == k;
      assert k in s.thr[u].taken <==> s.mtx[k].owner == u;
    }
  }

  lemma AcquireKeepsInv(s: State, t: Thread, m: Mutex)
    requires Inv(s) && Running(s, t) && m in s.mtx && s.mtx[m].owner == null
    ensures Inv(Acquire(s, t, m))
  {
    var s1 := Acquire(s, t, m);
    AcquireLinked(s, t, m);
    assert MutexOk(s, s.mtx[m]) && ThreadOk(s, s.thr[t]);
    QueuesFrame(s, s1, m);
    ExactFrame(s, s1, t, null);
    assert m !in s.thr[t].taken;
    IsMinCons(s.mtx, s1.mtx, s.thr[t].taken, s.thr[t].init, m);
    assert s.thr[t].curr == Eff(s, t);
  }

  lemma HoldLinked(s: State, m: Mutex, h: nat)
    requires Linked(s) && m in s.mtx && s.mtx[m].owner != null && 0 < h <= HOLD_MAX
    ensures Linked(s.(mtx := s.mtx[m := s.mtx[m].(hold := h)]))
  {
    hide Distinct;
    var s1 := s.(mtx := s.mtx[m := s.mtx[m].(hold := h)]);
    assert forall u :: u in s.thr ==> WaitsOn(s1, u) == WaitsOn(s, u);
    forall u | u in s1.thr ensures ThreadOk(s1, s1.thr[u]) {
      assert ThreadOk(s, s.thr[u]);
    }
    forall k | k in s1.mtx ensures MutexOk(s1, s1.mtx[k]) {
      assert MutexOk(s, s.mtx[k]);
    }
  }

  lemma HoldFrame(s: State, m: Mutex, h: nat)
    requires Inv(s) && m in s.mtx && Linked(s.(mtx := s.mtx[m := s.mtx[m].(hold := h)]))
    ensures var s1 := s.(mtx := s.mtx[m := s.mtx[m].(hold := h)]); QueuesBut(s1, null) && ExactBut(s1, null)
  {
    hide Linked, QueuesBut, EffFrom;
    var s1 := s.(mtx := s.mtx[m := s.mtx[m].(hold := h)]);
    QueuesFrame(s, s1, null);
    ExactFrame(s, s1, null, null);
  }

  lemma HoldAgainKeepsInv(s: State, m: Mutex, h: nat)
    requires Inv(s) && m in s.mtx && s.mtx[m].owner != null && 0 < h <= HOLD_MAX
    ensures Inv(s.(mtx := s.mtx[m := s.mtx[m].(hold := h)]))
  {
    hide Linked, SortedBut, FirstPrio, EffFrom;
    HoldLinked(s, m, h);
    HoldFrame(s, m, h);
  }

  lemma RunningNotWaiting(s: State, t: Thread, m: Mutex)
    requires Linked(s) && Running(s, t) && m in s.mtx
    ensures t !in s.mtx[m].waiters && MutexOk(s, s.mtx[m]) && ThreadOk(s, s.thr[t])
  {
    assert WaitsOn(s, t) == null;
  }

  lemma OnlyPrioritiesNoStale(s: State, s': State, boost: bool)
    requires OnlyPriorities(s, s', boost) && NoStale(s)
    ensures NoStale(s')
  {
  }

  lemma WaitersIn(s: State, m: Mutex)
    requires Inv(s) && m in s.mtx
    ensures (forall w :: w in s.mtx[m].waiters ==> w in s.thr) && (s.mtx[m].owner != null ==> s.mtx[m].owner in s.thr)
  {
    assert MutexOk(s, s.mtx[m]);
  }

  lemma TakenLinked(s: State, t: Thread)
    requires Linked(s) && t in s.thr
    ensures forall k :: k in s.thr[t].taken ==> k in s.mtx
  {
    assert ThreadOk(s, s.thr[t]);
  }

  lemma TakenIn(s: State, t: Thread)
    requires Inv(s) && t in s.thr
    ensures forall k :: k in s.thr[t].taken ==> k in s.mtx
  {
    TakenLinked(s, t);
  }

  lemma EnqueueStale(s: State, t: Thread, m: Mutex)
    requires NoStale(s) && t in s.thr && m in s.mtx && forall w :: w in s.mtx[m].waiters ==> w in s.thr
    ensures NoStale(Enqueue(s, t, m))
  {
  }

  lemma BlockKeepsInv(s: State, t: Thread, m: Mutex)
    requires Inv(s) && Running(s, t) && m in s.mtx && s.mtx[m].owner != null && s.mtx[m].owner != t
    ensures Inv(Take(s, t, m, true).0)
  {
    hide Linked, QueuesBut, ExactBut, Walking, Walk, Enqueue, UpdatePriority, OnlyPriorities, NoStale;
    var r := s.mtx[m];
    EnqueueReady(s, t, m);
    WaitersIn(s, m);
    EnqueueStale(s, t, m);
    var s1 := Enqueue(s, t, m);
    var p := s.thr[t].curr;
    if p < r.prio && p < s1.thr[r.owner].curr {
      UpdateSettles(s1, r.owner, p);
      OnlyPrioritiesNoStale(s1, UpdatePriority(s1, r.owner, p), true);
    }
  }

  /** A take keeps every priority exact, in every outcome. */
  lemma TakeKeepsInv(s: State, t: Thread, m: Mutex, wait: bool)
    requires Inv(s) && Running(s, t) && m in s.mtx
    ensures Inv(Take(s, t, m, wait).0)
  {
    hide Linked, QueuesBut, ExactBut, Walk, Enqueue, InsertPrio, UpdatePriority;
    var r := s.mtx[m];
    if r.owner == t {
      if r.hold < HOLD_MAX { HoldAgainKeepsInv(s, m, r.hold + 1); }
    } else if r.owner == null {
      AcquireKeepsInv(s, t, m);
    } else if wait {
      BlockKeepsInv(s, t, m);
    }
  }

  // -------------------------------------------------------------------------------------
  // rt_mutex_release
  // -------------------------------------------------------------------------------------

  /** The last hold is given up: m leaves t's list and, when _check_and_update_prio's test
      says so, t's priority is computed afresh. */
  ghost function GiveUpHold(s: State, t: Thread, m: Mutex): ThreadRec
    requires t in s.thr && m in s.mtx && forall k :: k in s.thr[t].taken ==> k in s.mtx
  {
    var rest := Without(s.thr[t].taken, m);
    s.thr[t].(taken := rest,
              curr := if s.mtx[m].ceil != NO_PRIO || s.thr[t].curr == s.mtx[m].prio
                      then EffFrom(s.mtx, rest, s.thr[t].init) else s.thr[t].curr)
  }

  ghost function HandOver(s: State, m: Mutex): State
    requires m in s.mtx && s.mtx[m].waiters != [] && forall w :: w in s.mtx[m].waiters ==> w in s.thr
  {
    var r := s.mtx[m];
    var n, rest := r.waiters[0], r.waiters[1..];
    State(
      s.thr[n := s.thr[n].(suspended := false, pending := null, taken := [m] + s.thr[n].taken)],
      s.mtx[m := r.(owner := n, hold := 1, waiters := rest, prio := FirstPrio(s, rest))])
  }

  ghost function Release(s: State, t: Thread, m: Mutex): (State, Result)
    requires Inv(s) && Running(s, t) && m in s.mtx
  {
    var r := s.mtx[m];
    if r.owner != t then (s, NotOwner)
    else if r.hold > 1 then (s.(mtx := s.mtx[m := r.(hold := r.hold - 1)]), Ok)
    else
      assert MutexOk(s, r) && ThreadOk(s, s.thr[t]);
      var s1 := s.(thr := s.thr[t := GiveUpHold(s, t, m)]);
      if r.waiters == [] then (s1.(mtx := s.mtx[m := r.(owner := null, hold := 0, prio := NO_PRIO)]), Ok)
      else (HandOver(s1, m), Ok)
  }

  /** The equality test of _check_and_update_prio loses nothing: whether or not it recomputes,
      the releasing thread ends at the minimum over what it still holds. */
  lemma GiveUpHoldExact(s: State, t: Thread, m: Mutex)
    requires Inv(s) && t in s.thr && m in s.mtx && s.mtx[m].owner == t
    requires forall k :: k in s.thr[t].taken ==> k in s.mtx
    ensures GiveUpHold(s, t, m).curr == EffFrom(s.mtx, Without(s.thr[t].taken, m), s.thr[t].init)
  {
    var taken, init := s.thr[t].taken, s.thr[t].init;
    var rest := Without(taken, m);
    assert ThreadOk(s, s.thr[t]) && MutexOk(s, s.mtx[m]);
    WithoutDistinct(taken, m);
    assert s.thr[t].curr == Eff(s, t);
    EffIsMin(s.mtx, taken, init);
    EffIsMin(s.mtx, rest, init);
  }

  lemma ReleaseLinked(s: State, t: Thread, m: Mutex)
    requires Inv(s) && Running(s, t) && m in s.mtx && s.mtx[m].owner == t && s.mtx[m].hold <= 1
    ensures Linked(Release(s, t, m).0)
  {
    hide SortedBut, QueuesBut, ExactBut, EffFrom, OwnersAgree, WaitersAgree, GiveUpHold, FirstPrio, Distinct;
    var s1 := Release(s, t, m).0;
    var r := s.mtx[m];
    RunningNotWaiting(s, t, m);
    if r.waiters != [] {
      assert r.waiters[0] in r.waiters && forall w :: w in r.waiters[1..] ==> w in r.waiters;
      DistinctTail(r.waiters);
    }
    ReleaseThreads(s, t, m);
    forall k | k in s1.mtx ensures MutexOk(s1, s1.mtx[k]) {
      assert MutexOk(s, s.mtx[k]);
    }
    ReleaseAgrees(s, t, m);
  }

  lemma ReleaseThreads(s: State, t: Thread, m: Mutex)
    requires Inv(s) && Running(s, t) && m in s.mtx && s.mtx[m].owner == t && s.mtx[m].hold <= 1
    ensures var s1 := Release(s, t, m).0; forall u :: u in s1.thr ==> ThreadOk(s1, s1.thr[u])
  {
    hide SortedBut, QueuesBut, FirstPrio, WaitersAgree, ExactBut, EffFrom;
    var s1 := Release(s, t, m).0;
    var r := s.mtx[m];
    RunningNotWaiting(s, t, m);
    GiveUpHoldExact(s, t, m);
    WithoutDistinct(s.thr[t].taken, m);
    EffIsMin(s.mtx, Without(s.thr[t].taken, m), s.thr[t].init);
    if r.waiters != [] {
      var n := r.waiters[0];
      assert n in r.waiters && n != t;
      assert ThreadOk(s, s.thr[n]) && m !in s.thr[n].taken;
      DistinctCons(m, s.thr[n].taken);
    }
    forall u | u in s1.thr ensures ThreadOk(s1, s1.thr[u]) {
      assert ThreadOk(s, s.thr[u]);
    }
  }

  lemma ReleaseAgrees(s: State, t: Thread, m: Mutex)
    requires Inv(s) && Running(s, t) && m in s.mtx && s.mtx[m].owner == t && s.mtx[m].hold <= 1
    ensures OwnersAgree(Release(s, t, m).0) && WaitersAgree(Release(s, t, m).0)
  {
    hide SortedBut, QueuesBut, ExactBut, EffFrom, FirstPrio, Distinct, OwnersAgree, WaitersAgree;
    RunningNotWaiting(s, t, m);
    ReleaseOwners(s, t, m);
    ReleaseWaiters(s, t, m);
  }

  lemma ReleaseOwners(s: State, t: Thread, m: Mutex)
    requires Inv(s) && Running(s, t) && m in s.mtx && s.mtx[m].owner == t && s.mtx[m].hold <= 1
    ensures OwnersAgree(Release(s, t, m).0)
  {
    hide SortedBut, QueuesBut, ExactBut, EffFrom, FirstPrio, Distinct, WaitersAgree, WaitsOn;
    var s1 := Release(s, t, m).0;
    RunningNotWaiting(s, t, m);
    WithoutDistinct(s.thr[t].taken, m);
    assert s.mtx[m].waiters != [] ==> s.mtx[m].waiters[0] in s.mtx[m].waiters;
    forall u, k | u in s1.thr && k in s1.mtx ensures k in s1.thr[u].taken <==> s1.mtx[k].owner == u {
      assert k in s.thr[u].taken <==> s.mtx[k].owner == u;
    }
  }

  lemma ReleaseWaiters(s: State, t: Thread, m: Mutex)
    requires Inv(s) && Running(s, t) && m in s.mtx && s.mtx[m].owner == t && s.mtx[m].hold <= 1
    ensures WaitersAgree(Release(s, t, m).0)
  {
    hide SortedBut, QueuesBut, ExactBut, EffFrom, FirstPrio, Distinct, OwnersAgree;
    var s1 := Release(s, t, m).0;
    var ws := s.mtx[m].waiters;
    RunningNotWaiting(s, t, m);
    if ws != [] {
      DistinctTail(ws);
      assert ws == [ws[0]] + ws[1..] && ws[0] in ws;
    }
    forall u, k | u in s1.thr && k in s1.mtx ensures u in s1.mtx[k].waiters <==> WaitsOn(s1, u) == k {
      assert u in s.mtx[k].waiters <==> WaitsOn(s, u) == k;
    }
  }

  lemma QueueOf(s: State, m: Mutex)
    requires Settled(s) && m in s.mtx
    ensures (forall w :: w in s.mtx[m].waiters ==> w in s.thr)
    ensures SortedBut(s, s.mtx[m].waiters, null) && s.mtx[m].prio == FirstPrio(s, s.mtx[m].waiters)
  {
    hide SortedBut, FirstPrio, Distinct, OwnersAgree, WaitersAgree, ExactBut, ThreadOk;
    assert MutexOk(s, s.mtx[m]);
  }

  lemma QueuesJoin(s: State, m: Mutex)
    requires Linked(s) && QueuesBut(s, m) && m in s.mtx && forall w :: w in s.mtx[m].waiters ==> w in s.thr
    requires SortedBut(s, s.mtx[m].waiters, null) && s.mtx[m].prio == FirstPrio(s, s.mtx[m].waiters)
    ensures QueuesBut(s, null)
  {
  }

  lemma NoFirst(s: State)
    ensures FirstPrio(s, []) == NO_PRIO
  {
  }

  lemma FirstPrioFrame(s: State, s': State, ws: seq<Thread>)
    requires forall w :: w in ws ==> w in s.thr && w in s'.thr && s.thr[w].curr == s'.thr[w].curr
    ensures FirstPrio(s, ws) == FirstPrio(s', ws)
  {
    assert ws != [] ==> ws[0] in ws;
  }

  lemma ReleaseQueues(s: State, t: Thread, m: Mutex)
    requires Inv(s) && Running(s, t) && m in s.mtx && s.mtx[m].owner == t && s.mtx[m].hold <= 1
    requires Linked(Release(s, t, m).0)
    ensures QueuesBut(Release(s, t, m).0, null)
  {
    hide Distinct, OwnersAgree, WaitersAgree, QueuesBut, ExactBut, EffFrom, GiveUpHold, SortedBut, FirstPrio, MutexOk, ThreadOk;
    var s1 := Release(s, t, m).0;
    var r := s.mtx[m];
    RunningNotWaiting(s, t, m);
    MutexBasics(s, m);
    QueuesFrame(s, s1, m);
    QueueOf(s, m);
    if r.waiters == [] {
      SortedEmpty(s1);
      NoFirst(s1);
    } else {
      var rest := r.waiters[1..];
      SortedTail(s, r.waiters, null);
      assert forall w :: w in rest ==> w in r.waiters && w != t;
      QueueFrame(s, s1, rest);
      FirstPrioFrame(s.(thr := s.thr[t := GiveUpHold(s, t, m)]), s1, rest);
    }
    QueuesJoin(s1, m);
  }

  /** Releasing a mutex keeps every priority exact exactly when the mutex goes free or its
      ceiling does not demand more urgency than the new owner already has: the hand-over
      never applies the ceiling. */
  lemma ReleaseKeepsInvIff(s: State, t: Thread, m: Mutex)
    requires Inv(s) && Running(s, t) && m in s.mtx && s.mtx[m].owner == t && s.mtx[m].hold <= 1
    ensures Inv(Release(s, t, m).0) <==>
            (s.mtx[m].waiters == [] || s.thr[s.mtx[m].waiters[0]].curr <= s.mtx[m].ceil)
  {
    hide SortedBut, WaitersAgree, OwnersAgree, QueuesBut, FirstPrio, EffFrom, Distinct;
    var s1 := Release(s, t, m).0;
    var r := s.mtx[m];
    ReleaseLinked(s, t, m);
    ReleaseQueues(s, t, m);
    RunningNotWaiting(s, t, m);
    GiveUpHoldExact(s, t, m);
    WithoutDistinct(s.thr[t].taken, m);
    var n: Thread? := if r.waiters == [] then null else r.waiters[0];
    ExactFrame(s, s1, t, n);
    EffFrame(s.mtx, s1.mtx, s1.thr[t].taken, s.thr[t].init);
    if r.waiters != [] {
      NewOwnerExactIff(s, t, m);
    }
  }

  lemma FirstWaiter(s: State, t: Thread, m: Mutex)
    requires Inv(s) && Running(s, t) && m in s.mtx && s.mtx[m].owner == t && s.mtx[m].waiters != []
    ensures var n := s.mtx[m].waiters[0]; n in s.thr && ThreadOk(s, s.thr[n]) && m !in s.thr[n].taken && s.thr[n].curr == Eff(s, n)
  {
    hide SortedBut, FirstPrio, Distinct, EffFrom;
    var n := s.mtx[m].waiters[0];
    assert MutexOk(s, s.mtx[m]) && n in s.mtx[m].waiters && ThreadOk(s, s.thr[n]) && WaitsOn(s, n) == m;
    assert WaitsOn(s, t) == null;
  }

  lemma NewOwnerExactIff(s: State, t: Thread, m: Mutex)
    requires Inv(s) && Running(s, t) && m in s.mtx && s.mtx[m].owner == t && s.mtx[m].hold <= 1
    requires s.mtx[m].waiters != [] && Linked(Release(s, t, m).0)
    ensures var s1 := Release(s, t, m).0; var n := s.mtx[m].waiters[0];
            n in s1.thr && (s1.thr[n].curr == Eff(s1, n) <==> s.thr[n].curr <= s.mtx[m].ceil)
  {
    hide Distinct, OwnersAgree, WaitersAgree, QueuesBut, ExactBut, EffFrom, SortedBut, GiveUpHold;
    var s1 := Release(s, t, m).0;
    var r := s.mtx[m];
    var n := r.waiters[0];
    RunningNotWaiting(s, t, m);
    QueueOf(s, m);
    assert n in r.waiters && n != t;
    FirstWaiter(s, t, m);
    IsMinCons(s.mtx, s1.mtx, s.thr[n].taken, s.thr[n].init, m);
    SortedTail(s, r.waiters, null);
    assert r.waiters[1..] != [] ==> r.waiters[1..][0] in r.waiters[1..] && r.waiters[1..][0] in r.waiters;
  }

  /** a holds m, whose ceiling 3 has raised it from 10; b waits at priority 5. */
  ghost function CeilingExample(a: Thread, b: Thread, m: Mutex): State {
    State(map[a := ThreadRec(10, 3, [m], null, false), b := ThreadRec(5, 5, [], m, true)],
          map[m := MutexRec(a, 1, 5, 3, [b])])
  }

  /** The ceiling is lost when m is handed over: b keeps priority 5 as the holder of a mutex with ceiling 3. */
  lemma CeilingLostAtHandOver(a: Thread, b: Thread, m: Mutex)
    requires a != b
    ensures var s := CeilingExample(a, b, m);
            && Inv(s) && Running(s, a)
            && var s1 := Release(s, a, m).0;
               s1.mtx[m].owner == b && s1.thr[b].curr == 5 && !Inv(s1) && IsMin(s1.mtx, [m], s1.thr[b].init, 3)
  {
    var s := CeilingExample(a, b, m);
    assert EffFrom(s.mtx, [], 3) == 3 && EffFrom(s.mtx, [m], 10) == 3;
    ReleaseKeepsInvIff(s, a, m);
    var s1 := Release(s, a, m).0;
    assert m in [m] && Contribution(s1.mtx[m]) == 3;
  }

  // -------------------------------------------------------------------------------------
  // Leaving a wait list early, and changing a ceiling
  // -------------------------------------------------------------------------------------

  /** A waiting thread is taken off the list and no longer suspended; m takes the priority of
      whoever is first now. */
  ghost function Unlink(s: State, t: Thread, m: Mutex): State
    requires t in s.thr && m in s.mtx && forall w :: w in s.mtx[m].waiters ==> w in s.thr
  {
    var ws := Without(s.mtx[m].waiters, t);
    State(s.thr[t := s.thr[t].(suspended := false)],
          s.mtx[m := s.mtx[m].(waiters := ws, prio := FirstPrio(s, ws))])
  }

  ghost function ClearPending(s: State, t: Thread): State
    requires t in s.thr
  {
    s.(thr := s.thr[t := s.thr[t].(pending := null)])
  }

  /** o's priority is computed afresh and, if it is off, set and handed on along the chain. */
  ghost function Resettle(s: State, o: Thread): (r: State)
    requires Linked(s) && QueuesBut(s, null) && o in s.thr && ExactBut(s, o)
    ensures r.thr.Keys == s.thr.Keys && r.mtx.Keys == s.mtx.Keys
  {
    UpdateSettles(s, o, Eff(s, o));
    if Eff(s, o) != s.thr[o].curr then UpdatePriority(s, o, Eff(s, o)) else s
  }

  lemma ResettleSettles(s: State, o: Thread)
    requires Linked(s) && QueuesBut(s, null) && o in s.thr && ExactBut(s, o)
    ensures Settled(Resettle(s, o))
    ensures OnlyPriorities(s, Resettle(s, o), Eff(s, o) < s.thr[o].curr)
  {
    hide SortedBut, Walking, Walk, EffFrom, MutexOk, OwnersAgree, WaitersAgree;
    UpdateSettles(s, o, Eff(s, o));
  }

  /** rt_mutex_drop_thread on a thread that stops waiting, as one step. */
  ghost function Drop(s: State, t: Thread): State
    requires Inv(s) && t in s.thr && WaitsOn(s, t) != null
  {
    UnlinkReady(s, t);
    var m := WaitsOn(s, t);
    var s1 := Unlink(s, t, m);
    var o := s.mtx[m].owner;
    ClearPending(if s.thr[o].curr == s.thr[t].curr then Resettle(s1, o) else s1, t)
  }

  lemma UnlinkLinked(s: State, t: Thread, m: Mutex)
    requires Inv(s) && t in s.thr && m in s.mtx && WaitsOn(s, t) == m
    ensures forall w :: w in s.mtx[m].waiters ==> w in s.thr
    ensures Linked(Unlink(s, t, m))
  {
    assert MutexOk(s, s.mtx[m]) && t in s.mtx[m].waiters;
    WithoutDistinct(s.mtx[m].waiters, t);
    var s1 := Unlink(s, t, m);
    forall u | u in s1.thr ensures ThreadOk(s1, s1.thr[u]) {
      assert ThreadOk(s, s.thr[u]);
    }
    forall k | k in s1.mtx ensures MutexOk(s1, s1.mtx[k]) {
      assert MutexOk(s, s.mtx[k]);
    }
    UnlinkAgrees(s, t, m);
  }

  lemma UnlinkAgrees(s: State, t: Thread, m: Mutex)
    requires OwnersAgree(s) && WaitersAgree(s)
    requires t in s.thr && m in s.mtx && WaitsOn(s, t) == m
    requires Distinct(s.mtx[m].waiters) && forall w :: w in s.mtx[m].waiters ==> w in s.thr
    ensures OwnersAgree(Unlink(s, t, m)) && WaitersAgree(Unlink(s, t, m))
  {
    WithoutDistinct(s.mtx[m].waiters, t);
    var s1 := Unlink(s, t, m);
    hide Distinct;
    forall u, k | u in s1.thr && k in s1.mtx
      ensures u in s1.mtx[k].waiters <==> WaitsOn(s1, u) == k
      ensures k in s1.thr[u].taken <==> s1.mtx[k].owner == u
    {
      assert u in s.mtx[k].waiters <==> WaitsOn(s, u) == k;
      assert k in s.thr[u].taken <==> s.mtx[k].owner == u;
    }
  }

  lemma UnlinkQueues(s: State, t: Thread, m: Mutex)
    requires Inv(s) && t in s.thr && m in s.mtx && WaitsOn(s, t) == m
    requires forall w :: w in s.mtx[m].waiters ==> w in s.thr
    requires Linked(Unlink(s, t, m))
    ensures QueuesBut(Unlink(s, t, m), null)
    ensures s.thr[t].curr != s.mtx[m].prio ==> Unlink(s, t, m).mtx[m].prio == s.mtx[m].prio
    ensures s.mtx[m].prio <= Unlink(s, t, m).mtx[m].prio && s.mtx[m].prio <= s.thr[t].curr
  {
    var s1 := Unlink(s, t, m);
    var ws := s.mtx[m].waiters;
    assert MutexOk(s, s.mtx[m]) && t in ws && SortedBut(s, ws, null) && s.mtx[m].prio == FirstPrio(s, ws);
    var rest := Without(ws, t);
    hide Distinct, OwnersAgree, ExactBut, EffFrom;
    QueuesFrame(s, s1, m);
    assert MutexOk(s, s.mtx[m]);
    SortedLeast(s, ws);
    WithoutSorted(s, ws, t);
    QueueFrame(s, s1, rest);
  }

  lemma SortedLeast(s: State, ws: seq<Thread>)
    requires SortedBut(s, ws, null) && forall w :: w in ws ==> w in s.thr
    ensures forall w :: w in ws ==> FirstPrio(s, ws) <= s.thr[w].curr
  {
    forall w | w in ws ensures FirstPrio(s, ws) <= s.thr[w].curr {
      var i :| 0 <= i < |ws| && ws[i] == w;
      assert ws[0] in ws;
    }
  }

  /** A waiter leaving m changes its owner's minimum only if it stood at that minimum. */
  lemma EffAfterDeparture(mtx: map<Mutex, MutexRec>, mtx': map<Mutex, MutexRec>, taken: seq<Mutex>, init: nat,
                          m: Mutex, p: nat)
    requires forall k :: k in taken ==> k in mtx && k in mtx' && (k != m ==> mtx[k] == mtx'[k])
    requires m in taken && mtx'[m].ceil == mtx[m].ceil
    requires mtx[m].prio <= mtx'[m].prio && mtx[m].prio <= p && (p != mtx[m].prio ==> mtx'[m].prio == mtx[m].prio)
    requires EffFrom(mtx, taken, init) != p
    ensures EffFrom(mtx', taken, init) == EffFrom(mtx, taken, init)
  {
    EffIsMin(mtx, taken, init);
    EffIsMin(mtx', taken, init);
  }

  /** Once t is off the list only the owner can be off, and only if it ran at t's priority:
      the test that guards the recomputation is exact. */
  lemma UnlinkReady(s: State, t: Thread)
    requires Inv(s) && t in s.thr && WaitsOn(s, t) != null
    ensures var m := WaitsOn(s, t); m in s.mtx && (forall w :: w in s.mtx[m].waiters ==> w in s.thr)
    ensures var m := WaitsOn(s, t); var s1 := Unlink(s, t, m); var o := s.mtx[m].owner;
            && Linked(s1) && QueuesBut(s1, null) && o != null && o in s1.thr && ExactBut(s1, o)
            && s1.thr[o].curr == s.thr[o].curr
            && (s.thr[o].curr != s.thr[t].curr ==> s1.thr[o].curr == Eff(s1, o))
  {
    var m := WaitsOn(s, t);
    assert ThreadOk(s, s.thr[t]) && MutexOk(s, s.mtx[m]) && t in s.mtx[m].waiters;
    UnlinkLinked(s, t, m);
    UnlinkQueues(s, t, m);
    var s1 := Unlink(s, t, m);
    var o := s.mtx[m].owner;
    hide SortedBut, Distinct, Walking, EffFrom;
    ExactFrame(s, s1, o, null);
    assert ThreadOk(s, s.thr[o]) && m in s.thr[o].taken;
    assert s.thr[o].curr == Eff(s, o);
    if s.thr[o].curr != s.thr[t].curr {
      EffAfterDeparture(s.mtx, s1.mtx, s.thr[o].taken, s.thr[o].init, m, s.thr[t].curr);
    }
  }

  lemma ClearPendingLinked(s: State, t: Thread)
    requires Linked(s) && t in s.thr && !s.thr[t].suspended
    ensures Linked(ClearPending(s, t))
  {
    var s1 := ClearPending(s, t);
    forall u | u in s1.thr ensures ThreadOk(s1, s1.thr[u]) && WaitsOn(s1, u) == WaitsOn(s, u) {
      assert ThreadOk(s, s.thr[u]);
    }
    forall k | k in s1.mtx ensures MutexOk(s1, s1.mtx[k]) {
      assert MutexOk(s, s.mtx[k]);
    }
  }

  lemma ClearPendingSettles(s: State, t: Thread)
    requires Settled(s) && t in s.thr && !s.thr[t].suspended
    requires forall u :: u in s.thr && u != t && s.thr[u].pending != null ==> s.thr[u].suspended
    ensures Inv(ClearPending(s, t))
  {
    ClearPendingLinked(s, t);
    hide Distinct, EffFrom, SortedBut, FirstPrio, MutexOk, ThreadOk, OwnersAgree, WaitersAgree;
    QueuesFrame(s, ClearPending(s, t), null);
    ExactFrame(s, ClearPending(s, t), null, null);
  }

  /** Dropping a waiter keeps every priority exact, also when that lets a chain of owners
      fall back to less urgent priorities. */
  lemma DropKeepsInv(s: State, t: Thread)
    requires Inv(s) && t in s.thr && WaitsOn(s, t) != null
    ensures Inv(Drop(s, t))
  {
    var m := WaitsOn(s, t);
    UnlinkReady(s, t);
    var s1 := Unlink(s, t, m);
    var o := s.mtx[m].owner;
    assert !s1.thr[t].suspended;
    assert forall u :: u in s1.thr && u != t && s1.thr[u].pending != null ==> s1.thr[u].suspended;
    var s2 := if s.thr[o].curr == s.thr[t].curr then Resettle(s1, o) else s1;
    hide Linked, QueuesBut, Unlink, Resettle;
    if s.thr[o].curr == s.thr[t].curr {
      ResettleSettles(s1, o);
    }
    ClearPendingSettles(s2, t);
  }

  ghost function WithCeiling(s: State, m: Mutex, c: nat): State
    requires m in s.mtx
  {
    s.(mtx := s.mtx[m := s.mtx[m].(ceil := c)])
  }

  /** rt_mutex_setprioceiling. */
  ghost function SetCeiling(s: State, m: Mutex, c: nat): State
    requires Inv(s) && m in s.mtx && c < PRIORITY_MAX
  {
    CeilingReady(s, m, c);
    var s1 := WithCeiling(s, m, c);
    var o := s.mtx[m].owner;
    if o != null then Resettle(s1, o) else s1
  }

  lemma CeilingLinked(s: State, m: Mutex, c: nat)
    requires Linked(s) && m in s.mtx && c < PRIORITY_MAX
    ensures Linked(WithCeiling(s, m, c))
  {
    var s1 := WithCeiling(s, m, c);
    forall u | u in s1.thr ensures ThreadOk(s1, s1.thr[u]) && WaitsOn(s1, u) == WaitsOn(s, u) {
      assert ThreadOk(s, s.thr[u]);
    }
    forall k | k in s1.mtx ensures MutexOk(s1, s1.mtx[k]) {
      assert MutexOk(s, s.mtx[k]);
    }
  }

  lemma CeilingReady(s: State, m: Mutex, c: nat)
    requires Inv(s) && m in s.mtx && c < PRIORITY_MAX
    ensures var s1 := WithCeiling(s, m, c); var o := s.mtx[m].owner;
            && Linked(s1) && QueuesBut(s1, null) && ExactBut(s1, o) && (o != null ==> o in s1.thr)
  {
    var s1 := WithCeiling(s, m, c);
    assert MutexOk(s, s.mtx[m]);
    CeilingLinked(s, m, c);
    hide SortedBut, FirstPrio, Distinct, EffFrom, MutexOk, ThreadOk;
    QueuesFrame(s, s1, null);
    ExactFrame(s, s1, s.mtx[m].owner, null);
  }

  lemma SetCeilingKeepsInv(s: State, m: Mutex, c: nat)
    requires Inv(s) && m in s.mtx && c < PRIORITY_MAX
    ensures Inv(SetCeiling(s, m, c))
  {
    CeilingReady(s, m, c);
    var s1 := WithCeiling(s, m, c);
    var o := s.mtx[m].owner;
    assert NoStale(s1);
    hide Linked, QueuesBut, WithCeiling, Resettle, NoStale, OnlyPriorities;
    if o != null {
      ResettleSettles(s1, o);
      OnlyPrioritiesNoStale(s1, Resettle(s1, o), Eff(s1, o) < s1.thr[o].curr);
    }
  }

  // -------------------------------------------------------------------------------------
  // Runs
  // -------------------------------------------------------------------------------------

  datatype Step =
    | TakeStep(t: Thread, m: Mutex, wait: bool)
    | ReleaseStep(t: Thread, m: Mutex)
    | DropStep(t: Thread)                    // a waiter is closed, or gives up
    | CeilingStep(m: Mutex, c: nat)
    | SleepStep(t: Thread)                   // suspended on something other than a mutex
    | WakeStep(t: Thread)
    | NewThread(t: Thread, init: nat)
    | NewMutex(m: Mutex)

  /** When a step can happen.  A release that hands m over needs the new owner to be as
      urgent as m's ceiling asks (see ReleaseKeepsInvIff). */
  ghost predicate Enabled(s: State, step: Step) {
    match step
    case TakeStep(t, m, _) => Running(s, t) && m in s.mtx
    case ReleaseStep(t, m) => Running(s, t) && m in s.mtx && HandsOverWell(s, t, m)
    case DropStep(t) => t in s.thr && WaitsOn(s, t) != null
    case CeilingStep(m, c) => m in s.mtx && c < PRIORITY_MAX
    case SleepStep(t) => Running(s, t)
    case WakeStep(t) => t in s.thr && s.thr[t].suspended && s.thr[t].pending == null
    case NewThread(t, init) => t !in s.thr && init < PRIORITY_MAX
    case NewMutex(m) => m !in s.mtx
  }

  ghost predicate HandsOverWell(s: State, t: Thread, m: Mutex)
    requires m in s.mtx
  {
    var ws := s.mtx[m].waiters;
    s.mtx[m].owner == t && s.mtx[m].hold <= 1 && ws != [] && ws[0] in s.thr ==> s.thr[ws[0]].curr <= s.mtx[m].ceil
  }

  ghost function SetSuspended(s: State, t: Thread, b: bool): State
    requires t in s.thr
  {
    s.(thr := s.thr[t := s.thr[t].(suspended := b)])
  }

  ghost function AddThread(s: State, t: Thread, init: nat): State {
    s.(thr := s.thr[t := ThreadRec(init, init, [], null, false)])
  }

  ghost function AddMutex(s: State, m: Mutex): State {
    s.(mtx := s.mtx[m := MutexRec(null, 0, NO_PRIO, NO_PRIO, [])])
  }

  ghost function Next(s: State, step: Step): State
    requires Inv(s) && Enabled(s, step)
  {
    match step
    case TakeStep(t, m, wait) => Take(s, t, m, wait).0
    case ReleaseStep(t, m) => Release(s, t, m).0
    case DropStep(t) => Drop(s, t)
    case CeilingStep(m, c) => SetCeiling(s, m, c)
    case SleepStep(t) => SetSuspended(s, t, true)
    case WakeStep(t) => SetSuspended(s, t, false)
    case NewThread(t, init) => AddThread(s, t, init)
    case NewMutex(m) => AddMutex(s, m)
  }

  lemma SleepLinked(s: State, t: Thread, b: bool)
    requires Linked(s) && t in s.thr && s.thr[t].pending == null
    ensures Linked(SetSuspended(s, t, b))
  {
    var s1 := SetSuspended(s, t, b);
    forall u | u in s1.thr ensures ThreadOk(s1, s1.thr[u]) && WaitsOn(s1, u) == WaitsOn(s, u) {
      assert ThreadOk(s, s.thr[u]);
    }
    forall k | k in s1.mtx ensures MutexOk(s1, s1.mtx[k]) {
      assert MutexOk(s, s.mtx[k]);
    }
  }

  lemma SleepKeepsInv(s: State, t: Thread, b: bool)
    requires Inv(s) && t in s.thr && s.thr[t].pending == null
    ensures Inv(SetSuspended(s, t, b))
  {
    SleepLinked(s, t, b);
    hide Distinct, EffFrom, SortedBut, FirstPrio, MutexOk, ThreadOk, OwnersAgree, WaitersAgree;
    QueuesFrame(s, SetSuspended(s, t, b), null);
    ExactFrame(s, SetSuspended(s, t, b), null, null);
  }

  lemma AddThreadLinked(s: State, t: Thread, init: nat)
    requires Linked(s) && t !in s.thr && init <= NO_PRIO
    ensures Linked(AddThread(s, t, init))
  {
    var s1 := AddThread(s, t, init);
    forall u | u in s1.thr ensures ThreadOk(s1, s1.thr[u]) {
      assert u in s.thr ==> ThreadOk(s, s.thr[u]);
    }
    forall k | k in s1.mtx ensures MutexOk(s1, s1.mtx[k]) && s1.mtx[k].owner != t && t !in s1.mtx[k].waiters {
      assert MutexOk(s, s.mtx[k]);
    }
    assert forall u :: u in s.thr ==> WaitsOn(s1, u) == WaitsOn(s, u);
  }

  lemma AddThreadQueues(s: State, t: Thread, init: nat)
    requires Inv(s) && t !in s.thr && Linked(AddThread(s, t, init))
    ensures QueuesBut(AddThread(s, t, init), null)
  {
    hide Linked, QueuesBut, ExactBut;
    QueuesFrame(s, AddThread(s, t, init), null);
  }

  lemma AddThreadExact(s: State, t: Thread, init: nat)
    requires Inv(s) && t !in s.thr && Linked(AddThread(s, t, init))
    ensures ExactBut(AddThread(s, t, init), null)
  {
    hide Linked, QueuesBut, OwnersAgree, WaitersAgree;
    ExactFrame(s, AddThread(s, t, init), t, null);
  }

  lemma AddThreadKeepsInv(s: State, t: Thread, init: nat)
    requires Inv(s) && t !in s.thr && init <= NO_PRIO
    ensures Inv(AddThread(s, t, init))
  {
    hide Distinct, Linked, SortedBut, FirstPrio;
    AddThreadLinked(s, t, init);
    AddThreadQueues(s, t, init);
    AddThreadExact(s, t, init);
  }

  lemma AddMutexLinked(s: State, m: Mutex)
    requires Linked(s) && m !in s.mtx
    ensures Linked(AddMutex(s, m))
  {
    var s1 := AddMutex(s, m);
    forall u | u in s1.thr
      ensures ThreadOk(s1, s1.thr[u]) && m !in s1.thr[u].taken && WaitsOn(s1, u) == WaitsOn(s, u) && WaitsOn(s, u) != m
    {
      assert ThreadOk(s, s.thr[u]);
    }
    forall k | k in s1.mtx ensures MutexOk(s1, s1.mtx[k]) {
      assert k in s.mtx ==> MutexOk(s, s.mtx[k]);
    }
  }

  lemma AddMutexQueues(s: State, m: Mutex)
    requires Inv(s) && m !in s.mtx && Linked(AddMutex(s, m))
    ensures QueuesBut(AddMutex(s, m), null)
  {
    var s1 := AddMutex(s, m);
    assert SortedBut(s1, [], null) && FirstPrio(s1, []) == NO_PRIO;
    hide ExactBut, NoStale, SortedBut, FirstPrio, OwnersAgree, WaitersAgree, MutexOk, ThreadOk;
    QueuesFrame(s, s1, m);
  }

  lemma AddMutexKeepsInv(s: State, m: Mutex)
    requires Inv(s) && m !in s.mtx
    ensures Inv(AddMutex(s, m))
  {
    AddMutexLinked(s, m);
    AddMutexQueues(s, m);
    hide QueuesBut, OwnersAgree, WaitersAgree, MutexOk, ThreadOk, EffFrom;
    ExactFrame(s, AddMutex(s, m), null, null);
  }

  lemma NextKeepsInv(s: State, step: Step)
    requires Inv(s) && Enabled(s, step)
    ensures Inv(Next(s, step))
  {
    hide Linked, QueuesBut, ExactBut, NoStale, Take, Release, Drop, SetCeiling, SetSuspended, AddThread, AddMutex;
    match step
    case TakeStep(t, m, wait) => TakeKeepsInv(s, t, m, wait);
    case ReleaseStep(t, m) => ReleaseKeepsInv(s, t, m);
    case DropStep(t) => DropKeepsInv(s, t);
    case CeilingStep(m, c) => SetCeilingKeepsInv(s, m, c);
    case SleepStep(t) => SleepKeepsInv(s, t, true);
    case WakeStep(t) => SleepKeepsInv(s, t, false);
    case NewThread(t, init) => AddThreadKeepsInv(s, t, init);
    case NewMutex(m) => AddMutexKeepsInv(s, m);
  }

  lemma MutexBasics(s: State, m: Mutex)
    requires Inv(s) && m in s.mtx
    ensures s.mtx[m].hold <= HOLD_MAX && (s.mtx[m].waiters != [] ==> s.mtx[m].waiters[0] in s.thr)
  {
    hide SortedBut, Distinct, ExactBut, QueuesBut;
    assert MutexOk(s, s.mtx[m]);
    assert s.mtx[m].waiters != [] ==> s.mtx[m].waiters[0] in s.mtx[m].waiters;
  }

  lemma ReleaseKeepsInv(s: State, t: Thread, m: Mutex)
    requires Inv(s) && Running(s, t) && m in s.mtx && HandsOverWell(s, t, m)
    ensures Inv(Release(s, t, m).0)
  {
    hide Inv, Linked, HandOver, GiveUpHold, MutexOk, ThreadOk, WaitsOn;
    MutexBasics(s, m);
    if s.mtx[m].owner == t {
      if s.mtx[m].hold > 1 {
        HoldAgainKeepsInv(s, m, s.mtx[m].hold - 1);
      } else {
        ReleaseKeepsInvIff(s, t, m);
      }
    }
  }

  /** A run: the states reached from s by the given steps, each enabled where it happens. */
  ghost predicate Run(s: State, steps: seq<Step>, s': State)
    requires Inv(s)
    decreases |steps|
  {
    if steps == [] then s' == s
    else
      && Enabled(s, steps[0])
      && (NextKeepsInv(s, steps[0]); Run(Next(s, steps[0]), steps[1..], s'))
  }

  const EMPTY: State := State(map[], map[])

  /** Every priority is exact, every wait list sorted and every link mutual in every state
      of every run. */
  lemma {:induction false} RunKeepsInv(s: State, steps: seq<Step>, s': State)
    requires Inv(s) && Run(s, steps, s')
    ensures Inv(s')
    decreases |steps|
  {
    if steps != [] {
      NextKeepsInv(s, steps[0]);
      RunKeepsInv(Next(s, steps[0]), steps[1..], s');
    }
  }

  lemma EmptyInv()
    ensures Inv(EMPTY)
  {
  }

  lemma RunThen(s: State, step: Step, mid: State, steps: seq<Step>, s': State)
    requires Inv(s) && Enabled(s, step) && Inv(mid) && Next(s, step) == mid && Run(mid, steps, s')
    ensures Run(s, [step] + steps, s')
  {
    hide Inv, Enabled, Next;
    NextKeepsInv(s, step);
    assert ([step] + steps)[1..] == steps;
  }

  lemma RunNone(s: State)
    requires Inv(s)
    ensures Run(s, [], s)
  {
  }

  /** Two threads and a mutex with a ceiling. */
  ghost function Prepared(a: Thread, b: Thread, m: Mutex): State {
    State(map[a := ThreadRec(10, 10, [], null, false), b := ThreadRec(5, 5, [], null, false)],
          map[m := MutexRec(null, 0, NO_PRIO, 3, [])])
  }

  ghost function Taken(a: Thread, b: Thread, m: Mutex): State {
    State(map[a := ThreadRec(10, 3, [m], null, false), b := ThreadRec(5, 5, [], null, false)],
          map[m := MutexRec(a, 1, NO_PRIO, 3, [])])
  }

  /** The state of CeilingLostAtHandOver is reached from the empty system. */
  lemma CeilingExampleReached(a: Thread, b: Thread, m: Mutex) returns (steps: seq<Step>)
    requires a != b
    ensures Inv(EMPTY) && Run(EMPTY, steps, CeilingExample(a, b, m))
  {
    hide Inv, Run, Enabled, Next;
    EmptyInv();
    var s1, s2, s3 := AddThread(EMPTY, a, 10), AddThread(AddThread(EMPTY, a, 10), b, 5), AddMutex(AddThread(AddThread(EMPTY, a, 10), b, 5), m);
    var s4, s5, s6 := Prepared(a, b, m), Taken(a, b, m), CeilingExample(a, b, m);
    ExampleCreated(a, b, m);
    ExampleCeiling(a, b, m);
    ExampleTaken(a, b, m);
    ExampleWaits(a, b, m);
    RunNone(s6);
    RunThen(s5, TakeStep(b, m, true), s6, [], s6);
    RunThen(s4, TakeStep(a, m, true), s5, [TakeStep(b, m, true)] + [], s6);
    steps := [TakeStep(a, m, true)] + ([TakeStep(b, m, true)] + []);
    RunThen(s3, CeilingStep(m, 3), s4, steps, s6);
    steps := [CeilingStep(m, 3)] + steps;
    RunThen(s2, NewMutex(m), s3, steps, s6);
    steps := [NewMutex(m)] + steps;
    RunThen(s1, NewThread(b, 5), s2, steps, s6);
    steps := [NewThread(b, 5)] + steps;
    RunThen(EMPTY, NewThread(a, 10), s1, steps, s6);
    steps := [NewThread(a, 10)] + steps;
  }

  lemma ExampleCreated(a: Thread, b: Thread, m: Mutex)
    requires a != b && Inv(EMPTY)
    ensures var s1 := AddThread(EMPTY, a, 10); var s2 := AddThread(s1, b, 5); var s3 := AddMutex(s2, m);
            && Enabled(EMPTY, NewThread(a, 10)) && Next(EMPTY, NewThread(a, 10)) == s1 && Inv(s1)
            && Enabled(s1, NewThread(b, 5)) && Next(s1, NewThread(b, 5)) == s2 && Inv(s2)
            && Enabled(s2, NewMutex(m)) && Next(s2, NewMutex(m)) == s3 && Inv(s3)
  {
    hide Inv;
    var s1 := AddThread(EMPTY, a, 10);
    var s2 := AddThread(s1, b, 5);
    NextKeepsInv(EMPTY, NewThread(a, 10));
    NextKeepsInv(s1, NewThread(b, 5));
    NextKeepsInv(s2, NewMutex(m));
  }

  lemma ExampleCeiling(a: Thread, b: Thread, m: Mutex)
    requires a != b
    requires var s := AddMutex(AddThread(AddThread(EMPTY, a, 10), b, 5), m); Inv(s)
    ensures var s := AddMutex(AddThread(AddThread(EMPTY, a, 10), b, 5), m); var s' := Prepared(a, b, m);
            Enabled(s, CeilingStep(m, 3)) && Next(s, CeilingStep(m, 3)) == s' && Inv(s')
  {
    hide Inv;
    var s := AddMutex(AddThread(AddThread(EMPTY, a, 10), b, 5), m);
    NextKeepsInv(s, CeilingStep(m, 3));
    assert WithCeiling(s, m, 3).thr == Prepared(a, b, m).thr;
    assert WithCeiling(s, m, 3).mtx == Prepared(a, b, m).mtx;
  }

  lemma ExampleTaken(a: Thread, b: Thread, m: Mutex)
    requires a != b && Inv(Prepared(a, b, m))
    ensures var s := Prepared(a, b, m); var s' := Taken(a, b, m);
            Enabled(s, TakeStep(a, m, true)) && Next(s, TakeStep(a, m, true)) == s' && Inv(s')
  {
    hide Inv;
    var s := Prepared(a, b, m);
    NextKeepsInv(s, TakeStep(a, m, true));
    assert [m] + [] == [m];
    assert Acquire(s, a, m).thr == Taken(a, b, m).thr;
    assert Acquire(s, a, m).mtx == Taken(a, b, m).mtx;
  }

  lemma ExampleWaits(a: Thread, b: Thread, m: Mutex)
    requires a != b && Inv(Taken(a, b, m))
    ensures var s := Taken(a, b, m); var s' := CeilingExample(a, b, m);
            Enabled(s, TakeStep(b, m, true)) && Next(s, TakeStep(b, m, true)) == s' && Inv(s')
  {
    hide Inv;
    var s := Taken(a, b, m);
    NextKeepsInv(s, TakeStep(b, m, true));
    assert Enqueue(s, b, m).thr == CeilingExample(a, b, m).thr;
    assert Enqueue(s, b, m).mtx == CeilingExample(a, b, m).mtx;
  }

  ghost predicate NoCeilings(s: State) {
    forall m :: m in s.mtx ==> s.mtx[m].ceil == NO_PRIO
  }

  /** Steps of a system that sets no ceiling: nothing is asked of a release but its caller. */
  ghost predicate Possible(s: State, step: Step) {
    match step
    case ReleaseStep(t, m) => Running(s, t) && m in s.mtx
    case CeilingStep(_, _) => false
    case _ => Enabled(s, step)
  }

  lemma PossibleEnabled(s: State, step: Step)
    requires Inv(s) && NoCeilings(s) && Possible(s, step)
    ensures Enabled(s, step)
  {
    hide QueuesBut, ExactBut, OwnersAgree, WaitersAgree, NoStale;
    if step.ReleaseStep? && s.mtx[step.m].waiters != [] {
      MutexBasics(s, step.m);
      assert s.mtx[step.m].waiters[0] in s.thr && ThreadOk(s, s.thr[s.mtx[step.m].waiters[0]]);
    }
  }

  lemma KeepsNoCeilings(s: State, step: Step)
    requires Inv(s) && NoCeilings(s) && Enabled(s, step) && !step.CeilingStep?
    ensures NoCeilings(Next(s, step))
  {
    hide Linked, QueuesBut, ExactBut, NoStale, UpdatePriority, Walking, OnlyPriorities, Resettle;
    match step
    case TakeStep(t, m, wait) => TakeKeepsCeilings(s, t, m, wait);
    case ReleaseStep(t, m) =>
      MutexBasics(s, m);
      ReleaseKeepsCeilings(s, t, m);
    case DropStep(t) => DropKeepsCeilings(s, t);
    case _ =>
  }

  lemma CeilingsSame(s: State, s': State, boost: bool)
    requires OnlyPriorities(s, s', boost)
    ensures NoCeilings(s) ==> NoCeilings(s')
  {
  }

  lemma TakeKeepsCeilings(s: State, t: Thread, m: Mutex, wait: bool)
    requires Inv(s) && NoCeilings(s) && Running(s, t) && m in s.mtx
    ensures NoCeilings(Take(s, t, m, wait).0)
  {
    hide Linked, QueuesBut, ExactBut, NoStale, UpdatePriority, Walking, OnlyPriorities, InsertPrio;
    var r := s.mtx[m];
    WaitersIn(s, m);
    if r.owner != t && r.owner != null && wait {
      EnqueueReady(s, t, m);
      var s1 := Enqueue(s, t, m);
      var p := s.thr[t].curr;
      if p < r.prio && p < s1.thr[r.owner].curr {
        UpdateSettles(s1, r.owner, p);
        CeilingsSame(s1, UpdatePriority(s1, r.owner, p), true);
      }
    }
  }

  lemma ReleaseKeepsCeilings(s: State, t: Thread, m: Mutex)
    requires Inv(s) && NoCeilings(s) && Running(s, t) && m in s.mtx
    ensures NoCeilings(Release(s, t, m).0)
  {
    hide QueuesBut, ExactBut, NoStale, OwnersAgree, WaitersAgree, EffFrom, Distinct, FirstPrio;
  }

  lemma DropKeepsCeilings(s: State, t: Thread)
    requires Inv(s) && NoCeilings(s) && t in s.thr && WaitsOn(s, t) != null
    ensures NoCeilings(Drop(s, t))
  {
    hide Linked, QueuesBut, ExactBut, NoStale, Resettle, OnlyPriorities, Without, FirstPrio;
    UnlinkReady(s, t);
    var m := WaitsOn(s, t);
    var s1 := Unlink(s, t, m);
    var o := s.mtx[m].owner;
    if s.thr[o].curr == s.thr[t].curr {
      ResettleSettles(s1, o);
      TakenLinked(s1, o);
      CeilingsSame(s1, Resettle(s1, o), Eff(s1, o) < s1.thr[o].curr);
    }
  }

  ghost predicate FreeStep(s: State, step: Step, s': State) {
    Inv(s) && NoCeilings(s) ==> Possible(s, step) && (PossibleEnabled(s, step); s' == Next(s, step))
  }

  /** Without ceilings every priority is exact in every state of every run whatsoever. */
  lemma {:induction false} RunWithoutCeilings(states: seq<State>, steps: seq<Step>, k: nat)
    requires |states| == |steps| + 1 && k <= |steps| && states[0] == EMPTY
    requires forall i, j :: 0 <= i < |steps| && j == i + 1 ==> FreeStep(states[i], steps[i], states[j])
    ensures Inv(states[k]) && NoCeilings(states[k])
  {
    hide Settled, NoStale, NoCeilings, Next, Enabled, Possible;
    if k == 0 {
      EmptyInv();
      EmptyNoCeilings();
    } else {
      RunWithoutCeilings(states, steps, k - 1);
      assert FreeStep(states[k - 1], steps[k - 1], states[k]);
      PossibleEnabled(states[k - 1], steps[k - 1]);
      PossibleNoCeiling(states[k - 1], steps[k - 1]);
      NextKeepsInv(states[k - 1], steps[k - 1]);
      KeepsNoCeilings(states[k - 1], steps[k - 1]);
    }
  }

  lemma EmptyNoCeilings()
    ensures NoCeilings(EMPTY)
  {
  }

  lemma PossibleNoCeiling(s: State, step: Step)
    requires Possible(s, step)
    ensures !step.CeilingStep?
  {
  }

  // -------------------------------------------------------------------------------------
  // What exactness means for the wait graph
  // -------------------------------------------------------------------------------------

  /** u is blocked behind t through k mutexes. */
  ghost predicate Behind(s: State, u: Thread, t: Thread, k: nat)
    requires Linked(s) && u in s.thr && t in s.thr
    decreases k
  {
    if k == 0 then u == t
    else
      var m := WaitsOn(s, u);
      && m != null && m in s.mtx && s.mtx[m].owner != null && s.mtx[m].owner in s.thr
      && Behind(s, s.mtx[m].owner, t, k - 1)
  }

  /** An owner is at least as urgent as the waiters of its mutexes. */
  lemma OwnerUrgency(s: State, u: Thread)
    requires Inv(s) && u in s.thr && WaitsOn(s, u) != null
    ensures var m := WaitsOn(s, u); m in s.mtx && s.mtx[m].owner in s.thr && s.thr[s.mtx[m].owner].curr <= s.thr[u].curr
  {
    var m := WaitsOn(s, u);
    assert ThreadOk(s, s.thr[u]) && MutexOk(s, s.mtx[m]);
    assert u in s.mtx[m].waiters && SortedBut(s, s.mtx[m].waiters, null);
    var o := s.mtx[m].owner;
    SortedLeast(s, s.mtx[m].waiters);
    hide SortedBut, FirstPrio, Distinct, EffFrom, WaitersAgree, MutexOk;
    assert m in s.thr[o].taken && ThreadOk(s, s.thr[o]) && s.thr[o].curr == Eff(s, o);
    EffIsMin(s.mtx, s.thr[o].taken, s.thr[o].init);
  }

  lemma OwnClaims(s: State, u: Thread)
    requires Inv(s) && u in s.thr
    ensures s.thr[u].curr <= s.thr[u].init
    ensures forall m :: m in s.thr[u].taken && m in s.mtx ==> s.thr[u].curr <= s.mtx[m].ceil
  {
    assert ThreadOk(s, s.thr[u]) && s.thr[u].curr == Eff(s, u);
    EffIsMin(s.mtx, s.thr[u].taken, s.thr[u].init);
  }

  /** An owner is at least as urgent as every thread transitively blocked behind it, and as
      every ceiling of a mutex such a thread holds, cycles included. */
  lemma {:induction false} OwnerAsUrgent(s: State, u: Thread, t: Thread, k: nat)
    requires Inv(s) && u in s.thr && t in s.thr && Behind(s, u, t, k)
    ensures s.thr[t].curr <= s.thr[u].curr <= s.thr[u].init
    ensures forall m :: m in s.thr[u].taken && m in s.mtx ==> s.thr[t].curr <= s.mtx[m].ceil
    decreases k
  {
    hide Linked, QueuesBut, ExactBut, NoStale;
    OwnClaims(s, u);
    if k > 0 {
      OwnerUrgency(s, u);
      OwnerAsUrgent(s, s.mtx[WaitsOn(s, u)].owner, t, k - 1);
    }
  }

  /** No thread is blocked behind itself: ranks grow along every wait. */
  ghost predicate Acyclic(s: State, rank: map<Thread, nat>)
    requires Linked(s)
  {
    && s.thr.Keys <= rank.Keys
    && forall u :: u in s.thr && WaitsOn(s, u) != null ==>
         var m := WaitsOn(s, u);
         m in s.mtx && s.mtx[m].owner in s.thr && s.mtx[m].owner in rank && rank[u] < rank[s.mtx[m].owner]
  }

  /** p is the priority of u itself or the ceiling of a mutex u holds. */
  ghost predicate Claims(s: State, u: Thread, p: nat)
    requires u in s.thr
  {
    p == s.thr[u].init || exists m :: m in s.thr[u].taken && m in s.mtx && p == s.mtx[m].ceil
  }

  /** p is the most urgent claim among t and the threads blocked behind it: what a thread's
      priority should be, told from the wait graph alone. */
  ghost predicate MostUrgentClaim(s: State, t: Thread, p: nat)
    requires Linked(s) && t in s.thr
  {
    && (exists u, k: nat :: u in s.thr && Behind(s, u, t, k) && Claims(s, u, p))
    && (forall u, k: nat, q: nat :: u in s.thr && Behind(s, u, t, k) && Claims(s, u, q) ==> p <= q)
  }

  lemma {:induction false} BehindStep(s: State, u: Thread, o: Thread, k: nat, w: Thread)
    requires Linked(s) && u in s.thr && o in s.thr && w in s.thr && Behind(s, u, w, k)
    requires var m := WaitsOn(s, w); m != null && m in s.mtx && s.mtx[m].owner == o
    ensures Behind(s, u, o, k + 1)
    decreases k
  {
    if k > 0 {
      BehindStep(s, s.mtx[WaitsOn(s, u)].owner, o, k - 1, w);
    } else {
      assert Behind(s, o, o, 0);
    }
  }

  /** A priority that no claim of t accounts for comes from the first waiter of one of its mutexes. */
  lemma PrioritySource(s: State, t: Thread) returns (w: Thread)
    requires Inv(s) && t in s.thr && !Claims(s, t, s.thr[t].curr)
    ensures w in s.thr && s.thr[w].curr == s.thr[t].curr
    ensures var m := WaitsOn(s, w); m != null && m in s.mtx && s.mtx[m].owner == t
  {
    hide SortedBut, Distinct, EffFrom;
    var p := s.thr[t].curr;
    assert ThreadOk(s, s.thr[t]) && p == Eff(s, t);
    EffIsMin(s.mtx, s.thr[t].taken, s.thr[t].init);
    var m :| m in s.thr[t].taken && p == Contribution(s.mtx[m]);
    assert MutexOk(s, s.mtx[m]) && s.mtx[m].prio == FirstPrio(s, s.mtx[m].waiters);
    w := s.mtx[m].waiters[0];
    assert w in s.mtx[m].waiters;
  }

  lemma {:induction false} ClaimAttained(s: State, t: Thread, rank: map<Thread, nat>) returns (u: Thread, k: nat)
    requires Inv(s) && t in s.thr && Acyclic(s, rank)
    ensures u in s.thr && Behind(s, u, t, k) && Claims(s, u, s.thr[t].curr)
    decreases rank[t]
  {
    hide Linked, QueuesBut, ExactBut, Claims, NoStale;
    if Claims(s, t, s.thr[t].curr) {
      u, k := t, 0;
    } else {
      var w := PrioritySource(s, t);
      u, k := ClaimAttained(s, w, rank);
      BehindStep(s, u, t, k, w);
      k := k + 1;
    }
  }

  /** Without deadlock, the incrementally kept priority is the one the wait graph defines. */
  lemma PriorityIsMostUrgentClaim(s: State, t: Thread, rank: map<Thread, nat>, p: nat)
    requires Inv(s) && t in s.thr && Acyclic(s, rank)
    ensures MostUrgentClaim(s, t, p) <==> p == s.thr[t].curr
  {
    var u, k := ClaimAttained(s, t, rank);
    forall v, j: nat, q: nat | v in s.thr && Behind(s, v, t, j) && Claims(s, v, q)
      ensures s.thr[t].curr <= q
    {
      OwnerAsUrgent(s, v, t, j);
    }
    if MostUrgentClaim(s, t, p) {
      assert p <= s.thr[t].curr;
    }
  }
}
