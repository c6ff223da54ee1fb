/** The single-core scheduler (rt-thread/src/scheduler_up.c, with scheduler_comm.c and thread.c):
    a bitmap over lists of ready threads, one list a priority, and time slices. */
module UpScheduling {
  import opened Lists
  import opened ReadyIndex

  datatype Stat = Init | Close | Ready | Running | Suspended

  /** The scheduling fields of a thread; `yielded` is RT_THREAD_STAT_YIELD. */
  datatype Tcb = Tcb(stat: Stat, yielded: bool, prio: nat, initTick: nat, remaining: nat)

  type Tcbs = map<nat, Tcb>

  datatype State = State(index: Index, table: seq<seq<nat>>, tcbs: Tcbs, current: nat, lockNest: nat)

  ghost predicate Listed(s: State, t: nat)
    requires t in s.tcbs
  {
    s.tcbs[t].prio < |s.table| && t in s.table[s.tcbs[t].prio]
  }

  ghost predicate RowOk(s: State, p: nat)
    requires p < |s.table|
  {
    Distinct(s.table[p]) && forall t :: t in s.table[p] ==> t in s.tcbs && s.tcbs[t].prio == p && s.tcbs[t].stat == Ready
  }

  /** The lists hold ready threads of their priority, each once, and the bitmap tells which lists
      are not empty. */
  ghost predicate Rows(s: State) {
    && s.index.Valid() && |s.table| == s.index.Levels()
    && (forall p :: 0 <= p < |s.table| ==> (s.index.Has(p) <==> s.table[p] != []))
    && (forall p :: 0 <= p < |s.table| ==> RowOk(s, p))
    && (forall t :: t in s.tcbs ==> s.tcbs[t].prio < |s.table|)
  }

  /** Every ready thread but x is in the list of its priority. */
  ghost predicate ListedBut(s: State, x: nat) {
    forall t :: t in s.tcbs && s.tcbs[t].stat == Ready && t != x ==> Listed(s, t)
  }

  ghost predicate Nowhere(s: State, x: nat) {
    forall p :: 0 <= p < |s.table| ==> x !in s.table[p]
  }

  /** The current thread is in no list and not marked ready, and only it is marked running. */
  ghost predicate CurrentOk(s: State) {
    && s.current in s.tcbs && s.tcbs[s.current].stat != Ready && Nowhere(s, s.current)
    && (forall t :: t in s.tcbs && s.tcbs[t].stat == Running ==> t == s.current)
  }

  ghost predicate Inv(s: State) {
    Rows(s) && ListedBut(s, s.current) && CurrentOk(s)
  }

  function Put(s: State, t: nat, c: Tcb): State { s.(tcbs := s.tcbs[t := c]) }

  /** rt_sched_insert_thread: a thread with slice left goes first, one that yielded last. */
  function Insert(s: State, t: nat): State
    requires t in s.tcbs && s.tcbs[t].prio < |s.table| == s.index.Levels() && s.index.Valid()
  {
    var c := s.tcbs[t];
    if t == s.current then Put(s, t, c.(stat := Running)) else
      var row := s.table[c.prio];
      Put(s, t, c.(stat := Ready)).(table := s.table[c.prio := if c.yielded then row + [t] else [t] + row],
                                    index := s.index.Mark(c.prio))
  }

  /** rt_sched_remove_thread, for a thread in a ready list or in none. */
  function Remove(s: State, t: nat): State
    requires t in s.tcbs && s.tcbs[t].prio < |s.table| == s.index.Levels() && s.index.Valid()
  {
    var p := s.tcbs[t].prio;
    var row := Without(s.table[p], t);
    s.(table := s.table[p := row], index := if row == [] then s.index.Unmark(p) else s.index)
  }

  /** rt_sched_thread_ready. */
  function Wake(s: State, t: nat): State
    requires Inv(s) && t in s.tcbs
  {
    if s.tcbs[t].stat == Suspended then Insert(s, t) else s
  }

  /** rt_thread_suspend_to_list, of the current thread. */
  function Suspend(s: State): State
    requires Inv(s)
  {
    var t := s.current;
    if s.tcbs[t].stat == Running then
      var r := Remove(s, t);
      Put(r, t, r.tcbs[t].(stat := Suspended))
    else s
  }

  /** rt_thread_close. */
  function CloseThread(s: State, t: nat): State
    requires Inv(s) && t in s.tcbs
  {
    if s.tcbs[t].stat == Close then s else
      var r := if s.tcbs[t].stat == Init then s else Remove(s, t);
      Put(r, t, r.tcbs[t].(stat := Close, yielded := false))
  }

  /** rt_sched_thread_yield. */
  function Yield(s: State, t: nat): State
    requires t in s.tcbs
  {
    Put(s, t, s.tcbs[t].(remaining := s.tcbs[t].initTick, yielded := true))
  }

  /** rt_sched_thread_change_priority. */
  function ChangePriority(s: State, t: nat, p: nat): State
    requires Inv(s) && t in s.tcbs && p < |s.table|
  {
    if s.tcbs[t].stat == Ready then
      var r := Remove(s, t);
      Insert(Put(r, t, r.tcbs[t].(prio := p, stat := Init, yielded := false)), t)
    else Put(s, t, s.tcbs[t].(prio := p))
  }

  /** Whether the current thread goes on running, given the highest ready priority. */
  predicate Stays(c: Tcb, highest: nat) {
    c.stat == Running && (c.prio < highest || (c.prio == highest && !c.yielded))
  }

  /** rt_schedule. */
  function Schedule(s: State): State
    requires Inv(s)
  {
    var p := s.index.Highest();
    if s.lockNest > 0 || p == s.index.Levels() then s
    else if Stays(s.tcbs[s.current], p) then
      var r := Remove(s, s.current);
      Put(r, s.current, r.tcbs[s.current].(stat := Running))
    else
      TopReady(s);
      SwitchTo(s, s.table[p][0])
  }

  /** The first thread of the highest list that is not empty. */
  lemma TopReady(s: State)
    requires Inv(s) && s.index.Highest() < s.index.Levels()
    ensures var p := s.index.Highest();
            && s.table[p] != [] && (forall q :: 0 <= q < p ==> s.table[q] == [])
            && var t := s.table[p][0];
               t in s.tcbs && s.tcbs[t].stat == Ready && s.tcbs[t].prio == p && t != s.current
  {
    var p := s.index.Highest();
    assert s.index.Has(p) && RowOk(s, p) && s.table[p][0] in s.table[p];
  }

  /** The current thread goes back to its list if it can run, and `to` takes over. */
  function SwitchTo(s: State, to: nat): State
    requires Inv(s) && to in s.tcbs && to != s.current
  {
    var from := s.current;
    var s1 := s.(current := to);
    var s2 := if s.tcbs[from].stat == Running then Insert(s1, from) else s1;
    var s3 := Put(s2, from, s2.tcbs[from].(yielded := false));
    var s4 := Remove(s3, to);
    Put(s4, to, s4.tcbs[to].(stat := Running))
  }

  /** rt_sched_tick_increase. */
  function TickBy(s: State, n: nat): State
    requires Inv(s)
  {
    var c := s.tcbs[s.current];
    var left := if c.remaining > n then c.remaining - n else 0;
    var s1 := Put(s, s.current, c.(remaining := left));
    if left > 0 then s1
    else
      PutKeeps(s, s.current, c.(remaining := left));
      YieldKeeps(s1, s.current);
      Schedule(Yield(s1, s.current))
  }

  // -------------------------------------------------------------------------------------
  // Every step keeps the invariant
  // -------------------------------------------------------------------------------------

  lemma RemoveRows(s: State, t: nat)
    requires Rows(s) && t in s.tcbs
    ensures Rows(Remove(s, t)) && Nowhere(Remove(s, t), t)
    ensures forall x :: x == t || Nowhere(s, x) ==> Nowhere(Remove(s, t), x)
  {
    var r, p := Remove(s, t), s.tcbs[t].prio;
    WithoutDistinct(s.table[p], t) by { assert RowOk(s, p); }
    forall q | 0 <= q < |r.table| ensures RowOk(r, q) && t !in r.table[q] {
      assert RowOk(s, q);
    }
  }

  lemma RemoveListed(s: State, t: nat, x: nat)
    requires Rows(s) && t in s.tcbs && (x == t || s.tcbs[t].stat != Ready) && ListedBut(s, x)
    ensures ListedBut(Remove(s, t), x)
  {
    var r := Remove(s, t);
    forall u | u in r.tcbs && r.tcbs[u].stat == Ready && u != x ensures Listed(r, u) {
      assert Listed(s, u);
    }
  }

  /** A thread in no list may be changed in any way. */
  lemma PutRows(s: State, t: nat, c: Tcb)
    requires Rows(s) && Nowhere(s, t) && c.prio < |s.table|
    ensures Rows(Put(s, t, c)) && Nowhere(Put(s, t, c), t)
  {
    var r := Put(s, t, c);
    forall p | 0 <= p < |s.table| ensures RowOk(r, p) { assert RowOk(s, p); }
  }

  lemma PutListed(s: State, t: nat, c: Tcb, x: nat)
    requires ListedBut(s, x) && (c.stat != Ready || x == t || (t in s.tcbs && s.tcbs[t].stat == Ready && c.prio == s.tcbs[t].prio))
    ensures ListedBut(Put(s, t, c), x)
  {
    var r := Put(s, t, c);
    forall u | u in r.tcbs && r.tcbs[u].stat == Ready && u != x ensures Listed(r, u) {
      assert Listed(s, u);
    }
  }

  /** Fields the lists do not depend on. */
  lemma PutRowsSame(s: State, t: nat, c: Tcb)
    requires Rows(s) && t in s.tcbs && c.prio == s.tcbs[t].prio && c.stat == s.tcbs[t].stat
    ensures Rows(Put(s, t, c))
  {
    var r := Put(s, t, c);
    forall p | 0 <= p < |s.table| ensures RowOk(r, p) { assert RowOk(s, p); }
  }

  lemma InsertRows(s: State, t: nat)
    requires Rows(s) && t in s.tcbs && t != s.current && Nowhere(s, t)
    ensures Rows(Insert(s, t)) && forall x :: x != t && Nowhere(s, x) ==> Nowhere(Insert(s, t), x)
  {
    var r, c := Insert(s, t), s.tcbs[t];
    var row := s.table[c.prio];
    assert RowOk(s, c.prio);
    DistinctCons(t, row);
    DistinctSnoc(row, t);
    forall p | 0 <= p < |s.table| ensures RowOk(r, p) { assert RowOk(s, p); }
  }

  lemma DistinctSnoc(row: seq<nat>, t: nat)
    requires Distinct(row) && t !in row
    ensures Distinct(row + [t])
  {
  }

  lemma InsertListed(s: State, t: nat, x: nat)
    requires Rows(s) && t in s.tcbs && t != s.current && ListedBut(s, t)
    ensures ListedBut(Insert(s, t), x)
  {
    var r := Insert(s, t);
    forall u | u in r.tcbs && r.tcbs[u].stat == Ready && u != x ensures Listed(r, u) {
      if u != t { assert Listed(s, u); }
    }
  }

  lemma PutKeeps(s: State, t: nat, c: Tcb)
    requires Inv(s) && t in s.tcbs && c.prio == s.tcbs[t].prio && c.stat == s.tcbs[t].stat
    ensures Inv(Put(s, t, c))
  {
    hide Rows, ListedBut;
    PutRowsSame(s, t, c);
    PutListed(s, t, c, s.current);
  }

  lemma YieldKeeps(s: State, t: nat)
    requires Inv(s) && t in s.tcbs
    ensures Inv(Yield(s, t))
  {
    hide Inv;
    PutKeeps(s, t, s.tcbs[t].(remaining := s.tcbs[t].initTick, yielded := true));
  }

  lemma WakeKeeps(s: State, t: nat)
    requires Inv(s) && t in s.tcbs
    ensures Inv(Wake(s, t))
  {
    hide Rows, ListedBut;
    if s.tcbs[t].stat == Suspended {
      NotReadyNowhere(s, t);
      if t == s.current {
        PutRows(s, t, s.tcbs[t].(stat := Running));
        PutListed(s, t, s.tcbs[t].(stat := Running), s.current);
      } else {
        ListedButMore(s, t);
        InsertRows(s, t);
        InsertListed(s, t, s.current);
      }
    }
  }

  lemma NotReadyNowhere(s: State, t: nat)
    requires Inv(s) && t in s.tcbs && s.tcbs[t].stat != Ready
    ensures Nowhere(s, t)
    ensures s.tcbs[t].prio < |s.table| == s.index.Levels() && s.index.Valid()
  {
    forall p | 0 <= p < |s.table| ensures t !in s.table[p] { assert RowOk(s, p); }
  }

  lemma ListedButMore(s: State, t: nat)
    requires Inv(s)
    ensures ListedBut(s, t)
  {
  }

  /** Taking a thread in hand, whatever list it is in, to give it a state that is not ready. */
  lemma TakenKeeps(s: State, t: nat, c: Tcb)
    requires Inv(s) && t in s.tcbs && c.stat != Ready && c.prio < |s.table| && (c.stat == Running ==> t == s.current)
    ensures Inv(Put(Remove(s, t), t, c))
  {
    hide Rows, ListedBut;
    InvFacts(s);
    ListedButMore(s, t);
    RemoveRows(s, t);
    RemoveListed(s, t, t);
    var r := Remove(s, t);
    PutRows(r, t, c);
    PutListed(r, t, c, t);
    NotReadyListed(Put(r, t, c), t);
  }

  lemma InvFacts(s: State)
    requires Inv(s)
    ensures s.index.Valid() && |s.table| == s.index.Levels() && s.current in s.tcbs
    ensures forall t :: t in s.tcbs ==> s.tcbs[t].prio < |s.table|
  {
  }

  lemma NotReadyListed(s: State, t: nat)
    requires ListedBut(s, t) && t in s.tcbs && s.tcbs[t].stat != Ready
    ensures forall x :: ListedBut(s, x)
  {
  }

  lemma SuspendKeeps(s: State)
    requires Inv(s)
    ensures Inv(Suspend(s))
  {
    if s.tcbs[s.current].stat == Running {
      TakenKeeps(s, s.current, s.tcbs[s.current].(stat := Suspended));
    }
  }

  lemma CloseKeeps(s: State, t: nat)
    requires Inv(s) && t in s.tcbs
    ensures Inv(CloseThread(s, t))
  {
    hide Rows, ListedBut;
    var c := s.tcbs[t].(stat := Close, yielded := false);
    InvFacts(s);
    if s.tcbs[t].stat == Init {
      NotReadyNowhere(s, t);
      PutRows(s, t, c);
      PutListed(s, t, c, s.current);
    } else {
      TakenKeeps(s, t, c);
    }
  }

  lemma ChangePriorityKeeps(s: State, t: nat, p: nat)
    requires Inv(s) && t in s.tcbs && p < |s.table|
    ensures Inv(ChangePriority(s, t, p))
  {
    hide Rows, ListedBut;
    InvFacts(s);
    if s.tcbs[t].stat == Ready {
      var c := s.tcbs[t].(prio := p, stat := Init, yielded := false);
      TakenKeeps(s, t, c);
      var r := Put(Remove(s, t), t, c);
      NotReadyNowhere(r, t);
      ListedButMore(r, t);
      InsertRows(r, t);
      InsertListed(r, t, r.current);
    } else {
      NotReadyNowhere(s, t);
      PutRows(s, t, s.tcbs[t].(prio := p));
      PutListed(s, t, s.tcbs[t].(prio := p), s.current);
    }
  }

  lemma SwitchKeeps(s: State, to: nat)
    requires Inv(s) && to in s.tcbs && to != s.current && s.tcbs[to].stat == Ready
    ensures Inv(SwitchTo(s, to))
  {
    hide Rows, ListedBut;
    var from := s.current;
    var s1 := s.(current := to);
    NewCurrent(s, to);
    var s2 := if s.tcbs[from].stat == Running then Insert(s1, from) else s1;
    if s.tcbs[from].stat == Running {
      InsertRows(s1, from);
      InsertListed(s1, from, to);
    }
    var c := s2.tcbs[from].(yielded := false);
    var s3 := Put(s2, from, c);
    PutRowsSame(s2, from, c);
    PutListed(s2, from, c, to);
    RemoveRows(s3, to);
    RemoveListed(s3, to, to);
    var s4 := Remove(s3, to);
    PutRows(s4, to, s4.tcbs[to].(stat := Running));
    PutListed(s4, to, s4.tcbs[to].(stat := Running), to);
  }

  lemma NewCurrent(s: State, to: nat)
    requires Inv(s)
    ensures var s1 := s.(current := to);
            Rows(s1) && ListedBut(s1, s.current) && ListedBut(s1, to) && Nowhere(s1, s.current) && s.index.Valid()
              && |s.table| == s.index.Levels() && forall t :: t in s.tcbs ==> s.tcbs[t].prio < |s.table|
  {
    var s1 := s.(current := to);
    forall p | 0 <= p < |s.table| ensures RowOk(s1, p) { assert RowOk(s, p); }
    forall t | t in s.tcbs && s.tcbs[t].stat == Ready && t != s.current ensures Listed(s1, t) { assert Listed(s, t); }
  }

  lemma ScheduleKeeps(s: State)
    requires Inv(s)
    ensures Inv(Schedule(s))
  {
    hide Rows, ListedBut, CurrentOk;
    InvFacts(s);
    var p := s.index.Highest();
    if s.lockNest == 0 && p < s.index.Levels() {
      if Stays(s.tcbs[s.current], p) {
        TakenKeeps(s, s.current, s.tcbs[s.current].(stat := Running));
      } else {
        TopReady(s);
        SwitchKeeps(s, s.table[p][0]);
      }
    }
  }

  lemma TickKeeps(s: State, n: nat)
    requires Inv(s)
    ensures Inv(TickBy(s, n))
  {
    hide Inv, Schedule;
    InvFacts(s);
    var c := s.tcbs[s.current];
    var left := if c.remaining > n then c.remaining - n else 0;
    PutKeeps(s, s.current, c.(remaining := left));
    var s1 := Put(s, s.current, c.(remaining := left));
    if left == 0 {
      YieldKeeps(s1, s1.current);
      ScheduleKeeps(Yield(s1, s1.current));
    }
  }

  /** rt_system_scheduler_start: the most urgent of the ready threads is made current. */
  function Start(s: State): State
    requires Booted(s)
  {
    BootedTop(s);
    var to := s.table[s.index.Highest()][0];
    var r := Remove(s.(current := to), to);
    Put(r, to, r.tcbs[to].(stat := Running, yielded := false))
  }

  /** Threads were started up, nothing runs yet, and one of them is ready. */
  ghost predicate Booted(s: State) {
    && Rows(s) && s.current !in s.tcbs && ListedBut(s, s.current) && s.index.Highest() < s.index.Levels()
    && forall t :: t in s.tcbs ==> s.tcbs[t].stat != Running
  }

  lemma BootedTop(s: State)
    requires Booted(s)
    ensures var p := s.index.Highest(); p < |s.table| == s.index.Levels() && s.table[p] != [] && s.table[p][0] in s.tcbs
    ensures s.tcbs[s.table[s.index.Highest()][0]].prio < |s.table|
  {
    var p := s.index.Highest();
    assert s.index.Has(p) && RowOk(s, p) && s.table[p][0] in s.table[p];
  }

  lemma StartInv(s: State)
    requires Booted(s)
    ensures Inv(Start(s)) && Start(s).tcbs[Start(s).current].stat == Running
  {
    BootedTop(s);
    var to := s.table[s.index.Highest()][0];
    var s1 := s.(current := to);
    forall p | 0 <= p < |s.table| ensures RowOk(s1, p) { assert RowOk(s, p); }
    forall t | t in s1.tcbs && s1.tcbs[t].stat == Ready && t != to ensures Listed(s1, t) { assert Listed(s, t); }
    hide Rows, ListedBut;
    RowsSame(s, to);
    RemoveRows(s1, to);
    RemoveListed(s1, to, to);
    var r := Remove(s1, to);
    PutRows(r, to, r.tcbs[to].(stat := Running, yielded := false));
    PutListed(r, to, r.tcbs[to].(stat := Running, yielded := false), to);
  }

  lemma RowsSame(s: State, c: nat)
    requires Rows(s)
    ensures Rows(s.(current := c))
  {
    forall p | 0 <= p < |s.table| ensures RowOk(s.(current := c), p) { assert RowOk(s, p); }
  }

  datatype Event = Woken(thread: nat) | SuspendSelf | Closed(thread: nat) | Yielded | NewPriority(thread: nat, prio: nat)
                 | Ticked(ticks: nat) | Rescheduled | Locked | Unlocked

  ghost predicate Possible(s: State, e: Event) {
    match e
    case Woken(t) => t in s.tcbs
    case Closed(t) => t in s.tcbs
    case NewPriority(t, p) => t in s.tcbs && p < |s.table|
    case _ => true
  }

  function Handle(s: State, e: Event): State
    requires Inv(s) && Possible(s, e)
  {
    match e
    case Woken(t) => Wake(s, t)
    case SuspendSelf => Suspend(s)
    case Closed(t) => CloseThread(s, t)
    case Yielded => Yield(s, s.current)
    case NewPriority(t, p) => ChangePriority(s, t, p)
    case Ticked(n) => TickBy(s, n)
    case Rescheduled => Schedule(s)
    case Locked => s.(lockNest := s.lockNest + 1)
    case Unlocked => s.(lockNest := if s.lockNest > 0 then s.lockNest - 1 else 0)
  }

  lemma HandleKeeps(s: State, e: Event)
    requires Inv(s) && Possible(s, e)
    ensures Inv(Handle(s, e))
  {
    hide Rows, ListedBut, Wake, Suspend, CloseThread, Yield, ChangePriority, TickBy, Schedule;
    match e
    case Woken(t) => WakeKeeps(s, t);
    case SuspendSelf => SuspendKeeps(s);
    case Closed(t) => CloseKeeps(s, t);
    case Yielded => YieldKeeps(s, s.current);
    case NewPriority(t, p) => ChangePriorityKeeps(s, t, p);
    case Ticked(n) => TickKeeps(s, n);
    case Rescheduled => ScheduleKeeps(s);
    case _ => LockKeeps(s, Handle(s, e).lockNest);
  }

  lemma LockKeeps(s: State, n: nat)
    requires Inv(s)
    ensures Inv(s.(lockNest := n))
  {
    var r := s.(lockNest := n);
    forall p | 0 <= p < |s.table| ensures RowOk(r, p) { assert RowOk(s, p); }
    forall t | t in r.tcbs && r.tcbs[t].stat == Ready && t != r.current ensures Listed(r, t) { assert Listed(s, t); }
  }

  ghost predicate Transition(s: State, e: Event, s': State) {
    Inv(s) ==> Possible(s, e) && s' == Handle(s, e)
  }

  /** The invariant holds in every state of every run from the start. */
  lemma {:induction false} RunKeeps(states: seq<State>, es: seq<Event>, boot: State, k: nat)
    requires |states| == |es| + 1 && k <= |es| && Booted(boot) && states[0] == Start(boot)
    requires forall i, j :: 0 <= i < |es| && j == i + 1 ==> Transition(states[i], es[i], states[j])
    ensures Inv(states[k])
  {
    hide Inv, Booted, Start, Handle, Possible;
    if k == 0 {
      StartInv(boot);
    } else {
      RunKeeps(states, es, boot, k - 1);
      assert Transition(states[k - 1], es[k - 1], states[k]);
      HandleKeeps(states[k - 1], es[k - 1]);
    }
  }

  // -------------------------------------------------------------------------------------
  // What rt_schedule chooses
  // -------------------------------------------------------------------------------------

  /** No list of a priority above p (below it as a number) has a thread. */
  ghost predicate NoneAbove(s: State, p: nat) {
    forall q :: 0 <= q < p && q < |s.table| ==> s.table[q] == []
  }

  /** The lists a switch leaves. */
  lemma SwitchShape(s: State, to: nat)
    requires Inv(s) && to in s.tcbs && to != s.current && s.tcbs[to].stat == Ready
    ensures var r, from := SwitchTo(s, to), s.tcbs[s.current];
            && r.current == to && r.tcbs[to] == s.tcbs[to].(stat := Running) && r.lockNest == s.lockNest
            && |r.table| == |s.table|
            && (forall q :: 0 <= q < |s.table| && q != s.tcbs[to].prio ==>
                  r.table[q] == if from.stat == Running && q == from.prio
                                then (if from.yielded then s.table[q] + [s.current] else [s.current] + s.table[q]) else s.table[q])
  {
    InvFacts(s);
  }

  /** With the scheduler unlocked and a thread to run, the thread left running is marked so and no
      ready thread is strictly more urgent. */
  lemma ScheduleRunsMostUrgent(s: State)
    requires Inv(s) && s.lockNest == 0 && (s.tcbs[s.current].stat == Running || exists p :: 0 <= p < |s.table| && s.table[p] != [])
    ensures var r := Schedule(s); Inv(r) && r.tcbs[r.current].stat == Running && NoneAbove(r, r.tcbs[r.current].prio)
  {
    ScheduleKeeps(s);
    InvFacts(s);
    var p := s.index.Highest();
    if p == s.index.Levels() {
      NoReady(s);
    } else {
      TopReady(s);
      if Stays(s.tcbs[s.current], p) {
        TakenKeeps(s, s.current, s.tcbs[s.current].(stat := Running));
      } else {
        SwitchShape(s, s.table[p][0]);
      }
    }
  }

  lemma NoReady(s: State)
    requires Inv(s) && s.index.Highest() == s.index.Levels()
    ensures forall p :: 0 <= p < |s.table| ==> s.table[p] == []
  {
    forall p | 0 <= p < |s.table| ensures s.table[p] == [] { assert !s.index.Has(p); }
  }

  /** Thread t is ready, and the current thread has no claim to the core against it. */
  ghost predicate Displaces(s: State, t: nat)
    requires t in s.tcbs && s.current in s.tcbs
  {
    var r, cur := s.tcbs[t], s.tcbs[s.current];
    r.stat == Ready && (cur.stat != Running || r.prio < cur.prio || (r.prio == cur.prio && cur.yielded))
  }

  /** The current thread changes exactly if the scheduler is unlocked and some ready thread displaces
      it: it cannot run, is less urgent, or is as urgent and has yielded. */
  lemma ScheduleSwitchesIff(s: State)
    requires Inv(s)
    ensures s.current in s.tcbs
    ensures Schedule(s).current != s.current <==> s.lockNest == 0 && exists t :: t in s.tcbs && Displaces(s, t)
  {
    InvFacts(s);
    forall t | t in s.tcbs && s.tcbs[t].stat == Ready ensures Listed(s, t) {}
    if s.index.Highest() == s.index.Levels() {
      NoReady(s);
    } else {
      TopReady(s);
      assert Stays(s.tcbs[s.current], s.index.Highest()) || Displaces(s, s.table[s.index.Highest()][0]);
    }
  }

  /** Rescheduling clears the yield flag of the current thread exactly if it switches: one that stays
      is displaced later by a thread as urgent, without yielding again. */
  lemma YieldOutlives(s: State)
    requires Inv(s)
    ensures s.current in s.tcbs && s.current in Schedule(s).tcbs
    ensures Schedule(s).tcbs[s.current].yielded == (s.tcbs[s.current].yielded && Schedule(s).current == s.current)
  {
    InvFacts(s);
    if s.index.Highest() < s.index.Levels() { TopReady(s); }
  }

  // -------------------------------------------------------------------------------------
  // Round robin
  // -------------------------------------------------------------------------------------

  /** n ticks, one at a time. */
  function Ticks(s: State, n: nat): (r: State)
    requires Inv(s)
    ensures Inv(r)
    decreases n
  {
    if n == 0 then s else
      TickKeeps(s, 1);
      Ticks(TickBy(s, 1), n - 1)
  }

  lemma {:induction false} TicksAdd(s: State, a: nat, b: nat)
    requires Inv(s)
    ensures Ticks(s, a + b) == Ticks(Ticks(s, a), b)
    decreases a
  {
    hide Inv, TickBy;
    if a > 0 {
      TickKeeps(s, 1);
      TicksAdd(TickBy(s, 1), a - 1, b);
    }
  }

  /** The current thread runs at the top priority of all ready threads. */
  ghost predicate OnTop(s: State) {
    Inv(s) && s.lockNest == 0 && s.tcbs[s.current].stat == Running && NoneAbove(s, s.tcbs[s.current].prio)
  }

  /** How many ticks a thread runs on: with no slice left it yields at the next one. */
  function Slice(c: Tcb): nat { if c.remaining == 0 then 1 else c.remaining }

  /** The threads of the current thread's priority, in order. */
  function Queue(s: State): seq<nat>
    requires Inv(s)
  {
    InvFacts(s);
    s.table[s.tcbs[s.current].prio]
  }

  /** The slices left of the first k threads of a queue. */
  function Slices(tcbs: Tcbs, queue: seq<nat>, k: nat): nat
    requires k <= |queue| && forall t :: t in queue ==> t in tcbs
  {
    if k == 0 then 0 else Slice(tcbs[queue[0]]) + Slices(tcbs, queue[1..], k - 1)
  }

  /** While slice is left a tick only uses it up. */
  lemma {:induction false} Burn(s: State, n: nat)
    requires Inv(s) && n < Slice(s.tcbs[s.current])
    ensures Ticks(s, n) == Put(s, s.current, s.tcbs[s.current].(remaining := s.tcbs[s.current].remaining - n))
    decreases n
  {
    hide Inv;
    InvFacts(s);
    if n > 0 {
      TickKeeps(s, 1);
      Burn(TickBy(s, 1), n - 1);
    }
  }

  /** The first of the queue runs, and the current thread is last in it with a new slice. */
  function Turned(s: State): State
    requires Inv(s) && Queue(s) != []
  {
    FirstKnown(s);
    var c, q := s.tcbs[s.current], Queue(s);
    s.(current := q[0], table := s.table[c.prio := q[1..] + [s.current]],
       tcbs := s.tcbs[s.current := c.(stat := Ready, yielded := false, remaining := c.initTick)]
                     [q[0] := s.tcbs[q[0]].(stat := Running)])
  }

  lemma FirstKnown(s: State)
    requires Inv(s) && Queue(s) != []
    ensures s.current in s.tcbs && s.tcbs[s.current].prio < |s.table| && Queue(s)[0] in s.tcbs && Queue(s)[0] != s.current
    ensures s.tcbs[Queue(s)[0]].prio == s.tcbs[s.current].prio
  {
    InvFacts(s);
    assert RowOk(s, s.tcbs[s.current].prio) && Queue(s)[0] in Queue(s);
  }

  /** The last tick of a slice hands over to the first of the queue and puts the thread last. */
  lemma HandOver(s: State)
    requires OnTop(s) && s.tcbs[s.current].remaining <= 1 && Queue(s) != []
    ensures TickBy(s, 1) == Turned(s).(index := TickBy(s, 1).index)
  {
    InvFacts(s);
    FirstKnown(s);
    var c, p, q := s.tcbs[s.current], s.tcbs[s.current].prio, Queue(s);
    PutKeeps(s, s.current, c.(remaining := 0));
    var s1 := Put(s, s.current, c.(remaining := 0));
    YieldKeeps(s1, s.current);
    var y := Yield(s1, s.current);
    InvFacts(y);
    HighestIs(y, p);
    TopReady(y);
    FirstOnly(q, s.current);
  }

  lemma HighestIs(s: State, p: nat)
    requires Inv(s) && p < |s.table| && s.table[p] != [] && NoneAbove(s, p)
    ensures s.index.Highest() == p
  {
    assert s.index.Has(p);
    assert forall q :: 0 <= q < p ==> !s.index.Has(q);
  }

  lemma FirstOnly(q: seq<nat>, c: nat)
    requires q != []
    ensures Without(q + [c], q[0]) == q[1..] + [c]
  {
    assert (q + [c])[1..] == q[1..] + [c];
  }

  /** The current thread runs to the end of its slice; then the first of its queue runs, and the
      queue has turned. */
  lemma SliceEnds(s: State)
    requires OnTop(s) && Queue(s) != []
    ensures var n := Slice(s.tcbs[s.current]);
            && (forall m :: 0 <= m < n ==> Ticks(s, m).current == s.current && Ticks(s, m).table == s.table)
            && Ticks(s, n) == Turned(s).(index := Ticks(s, n).index) && OnTop(Ticks(s, n))
  {
    hide Ticks, TickBy, Inv, Turned, OnTop, Slice;
    OnTopFacts(s);
    var c, n := s.tcbs[s.current], Slice(s.tcbs[s.current]);
    forall m | 0 <= m < n ensures Ticks(s, m).current == s.current && Ticks(s, m).table == s.table { Burn(s, m); }
    LastTick(c);
    Burn(s, n - 1);
    TicksAdd(s, n - 1, 1);
    var left := c.remaining - (n - 1);
    var s1 := Put(s, s.current, c.(remaining := left));
    PutKeeps(s, s.current, c.(remaining := left));
    BurntOnTop(s, s1, left);
    HandOver(s1);
    OneTick(s1);
    TickKeeps(s1, 1);
    TurnedSame(s, s1, left);
    TurnedOnTop(s, TickBy(s1, 1));
  }

  lemma LastTick(c: Tcb)
    ensures 0 < Slice(c) && 0 <= c.remaining - (Slice(c) - 1) <= 1
  {
  }

  lemma OnTopFacts(s: State)
    requires OnTop(s)
    ensures Inv(s) && s.current in s.tcbs
  {
    InvFacts(s);
  }

  lemma TurnedSame(s: State, s1: State, left: nat)
    requires Inv(s) && Inv(s1) && s1 == Put(s, s.current, s.tcbs[s.current].(remaining := left)) && Queue(s1) == Queue(s) != []
    ensures Turned(s1) == Turned(s)
  {
    hide Inv;
    FirstKnown(s);
    var c, q := s.tcbs[s.current], Queue(s);
    var x := c.(stat := Ready, yielded := false, remaining := c.initTick);
    assert s1.tcbs[s.current := x] == s.tcbs[s.current := x];
  }

  lemma OneTick(s: State)
    requires Inv(s)
    ensures Ticks(s, 1) == TickBy(s, 1)
  {
    TickKeeps(s, 1);
    assert Ticks(TickBy(s, 1), 0) == TickBy(s, 1);
  }

  lemma BurntOnTop(s: State, s1: State, left: nat)
    requires OnTop(s) && Inv(s1) && s1 == Put(s, s.current, s.tcbs[s.current].(remaining := left))
    ensures OnTop(s1) && Queue(s1) == Queue(s)
  {
    InvFacts(s);
  }

  lemma TurnedOnTop(s: State, r: State)
    requires OnTop(s) && Queue(s) != [] && Inv(r) && r == Turned(s).(index := r.index)
    ensures OnTop(r)
  {
    InvFacts(s);
    FirstKnown(s);
    var p, q := s.tcbs[s.current].prio, Queue(s);
    assert RowOk(s, p) && q[0] in q;
    assert forall t :: t in q[1..] ==> t in q;
  }

  /** The thread at place k of the queue becomes current after exactly the slice left of the current
      thread and those of the k threads before it, and is current at every tick of its own slice;
      the queue only turns.  With `Burn` this tells the current thread at every tick of a round. */
  lemma {:induction false} RoundRobin(s: State, k: nat)
    requires OnTop(s) && k < |Queue(s)|
    ensures var q, p := Queue(s), s.tcbs[s.current].prio;
            && (forall t :: t in q ==> t in s.tcbs)
            && var n := Slice(s.tcbs[s.current]) + Slices(s.tcbs, q, k);
               forall m :: n <= m < n + Slice(s.tcbs[q[k]]) ==>
                 Ticks(s, m).current == q[k] && Ticks(s, m).table == s.table[p := q[k + 1..] + [s.current] + q[..k]]
    decreases k
  {
    hide Ticks, Inv, TickBy, Slice;
    FirstKnown(s);
    QueueFacts(s);
    var q, p, m := Queue(s), s.tcbs[s.current].prio, Slice(s.tcbs[s.current]);
    var n := m + Slices(s.tcbs, q, k);
    SliceEnds(s);
    var r := Ticks(s, m);
    var q' := q[1..] + [s.current];
    assert Queue(r) == q' && r.tcbs[r.current].prio == p && r.tcbs[q[0]].remaining == s.tcbs[q[0]].remaining;
    SliceSame(r.tcbs[q[0]], s.tcbs[q[0]]);
    if k == 0 {
      assert q[1..] + [s.current] + q[..0] == q';
      forall x | n <= x < n + Slice(s.tcbs[q[k]]) ensures Ticks(s, x).current == q[k] && Ticks(s, x).table == s.table[p := q'] {
        TicksAdd(s, m, x - m);
        Burn(r, x - m);
      }
    } else {
      RoundRobin(r, k - 1);
      SlicesTurn(s.tcbs, r.tcbs, q, s.current, k);
      TurnTwice(q, s.current, k);
      SliceSame(r.tcbs[q[k]], s.tcbs[q[k]]);
      var row := q[k + 1..] + [s.current] + q[..k];
      assert r.table[p := row] == s.table[p := row];
      forall x | n <= x < n + Slice(s.tcbs[q[k]]) ensures Ticks(s, x).current == q[k] && Ticks(s, x).table == s.table[p := row] {
        TicksAdd(s, m, x - m);
      }
    }
  }

  lemma SliceSame(a: Tcb, b: Tcb)
    requires a.remaining == b.remaining
    ensures Slice(a) == Slice(b)
  {
  }

  lemma QueueFacts(s: State)
    requires OnTop(s)
    ensures Distinct(Queue(s)) && s.current !in Queue(s) && forall t :: t in Queue(s) ==> t in s.tcbs
  {
    InvFacts(s);
    assert RowOk(s, s.tcbs[s.current].prio);
  }

  /** The slices ahead of place k, seen after the first thread of the queue has become current. */
  lemma SlicesTurn(was: Tcbs, now: Tcbs, q: seq<nat>, c: nat, k: nat)
    requires Distinct(q) && c !in q && 0 < k < |q| && (forall t :: t in q ==> t in was && t in now) && c in now
    requires forall t :: t in q ==> now[t].remaining == was[t].remaining
    ensures forall t :: t in q[1..] + [c] ==> t in now
    ensures Slices(was, q, k) == Slice(was[q[0]]) + Slices(now, q[1..] + [c], k - 1)
  {
    SlicesSame(was, now, q[1..], q[1..] + [c], k - 1);
  }

  lemma {:induction false} SlicesSame(was: Tcbs, now: Tcbs, q: seq<nat>, q': seq<nat>, k: nat)
    requires k <= |q| && k <= |q'| && (forall t :: t in q ==> t in was) && (forall t :: t in q' ==> t in now)
    requires forall i :: 0 <= i < k ==> q[i] == q'[i] && now[q[i]].remaining == was[q[i]].remaining
    ensures Slices(was, q, k) == Slices(now, q', k)
  {
    if k > 0 {
      assert forall i :: 0 <= i < k - 1 ==> q[1..][i] == q[i + 1] && q'[1..][i] == q'[i + 1];
      SlicesSame(was, now, q[1..], q'[1..], k - 1);
    }
  }

  lemma TurnTwice(q: seq<nat>, c: nat, k: nat)
    requires 0 < k < |q|
    ensures var q' := q[1..] + [c];
            q'[k..] + [q[0]] + q'[..k - 1] == q[k + 1..] + [c] + q[..k] && q'[k - 1] == q[k]
            && (k > 1 ==> q'[k - 2] == q[k - 1])
  {
    var q' := q[1..] + [c];
    assert q'[k..] == q[k + 1..] + [c];
    assert [q[0]] + q'[..k - 1] == q[..k];
  }
}
