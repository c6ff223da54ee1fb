/** What the calls of the single-core scheduler do to threads and to the order of the ready lists
    (rt-thread/src/scheduler_up.c, scheduler_comm.c, thread.c). */
module UpLaws {
  import opened Lists
  import opened ReadyIndex
  import opened UpScheduling

  /** Only t's record has changed, and to c. */
  ghost predicate OnlyThread(s: State, s': State, t: nat, c: Tcb) {
    s'.tcbs == s.tcbs[t := c] && s'.current == s.current && s'.lockNest == s.lockNest
  }

  /** t has left its list, if it was in it, and is in the one of priority p, first or last; all else
      keeps its order. */
  ghost predicate Moved(s: State, s': State, t: nat, p: nat, first: bool)
    requires t in s.tcbs
  {
    && |s'.table| == |s.table|
    && forall q :: 0 <= q < |s.table| ==>
         var rest := if q == s.tcbs[t].prio then Without(s.table[q], t) else s.table[q];
         s'.table[q] == if q != p then rest else if first then [t] + rest else rest + [t]
  }

  /** t has left its list, if it was in it; all else keeps its order. */
  ghost predicate Gone(s: State, s': State, t: nat)
    requires t in s.tcbs
  {
    |s'.table| == |s.table| && forall q :: 0 <= q < |s.table| ==> s'.table[q] == if q == s.tcbs[t].prio then Without(s.table[q], t) else s.table[q]
  }

  lemma NotListed(s: State, t: nat)
    requires Inv(s) && t in s.tcbs && s.tcbs[t].stat != Ready
    ensures s.tcbs[t].prio < |s.table| && t !in s.table[s.tcbs[t].prio]
  {
    assert RowOk(s, s.tcbs[t].prio);
  }

  /** A suspended thread becomes ready, last in its list if it has yielded and else first; the current
      one runs on.  Any other thread is left alone. */
  lemma WakeMoves(s: State, t: nat)
    requires Inv(s) && t in s.tcbs
    ensures var s', c := Wake(s, t), s.tcbs[t];
            && (c.stat != Suspended ==> s' == s)
            && (c.stat == Suspended && t == s.current ==> OnlyThread(s, s', t, c.(stat := Running)) && s'.table == s.table)
            && (c.stat == Suspended && t != s.current ==> OnlyThread(s, s', t, c.(stat := Ready)) && Moved(s, s', t, c.prio, !c.yielded))
  {
    InvFacts(s);
    if s.tcbs[t].stat == Suspended { NotListed(s, t); }
  }

  /** The current thread, if it is running, is suspended; the lists stay as they are. */
  lemma SuspendMoves(s: State)
    requires Inv(s)
    ensures var s', t := Suspend(s), s.current;
            && t in s.tcbs
            && if s.tcbs[t].stat == Running then OnlyThread(s, s', t, s.tcbs[t].(stat := Suspended)) && s'.table == s.table else s' == s
  {
    InvFacts(s);
    if s.tcbs[s.current].stat == Running {
      NotListed(s, s.current);
      assert s.table[s.tcbs[s.current].prio := s.table[s.tcbs[s.current].prio]] == s.table;
    }
  }

  /** A closed thread is in no list; the others keep their order. */
  lemma CloseMoves(s: State, t: nat)
    requires Inv(s) && t in s.tcbs
    ensures var s', c := CloseThread(s, t), s.tcbs[t];
            if c.stat == Close then s' == s else OnlyThread(s, s', t, c.(stat := Close, yielded := false)) && Gone(s, s', t)
  {
    InvFacts(s);
    if s.tcbs[t].stat == Init { NotListed(s, t); }
  }

  /** A ready thread goes to the front of the list of its new priority; any other only gets the
      priority. */
  lemma PriorityMoves(s: State, t: nat, p: nat)
    requires Inv(s) && t in s.tcbs && p < |s.table|
    ensures var s', c := ChangePriority(s, t, p), s.tcbs[t];
            if c.stat == Ready then OnlyThread(s, s', t, c.(prio := p, yielded := false)) && Moved(s, s', t, p, true)
            else OnlyThread(s, s', t, c.(prio := p)) && s'.table == s.table
  {
    InvFacts(s);
  }

  /** After a switch the new thread, which was first, has left its list; the old one, if it can run, is
      last in its list when it has yielded and first when it has not; all else keeps its order.
      Without one no list changes. */
  lemma ScheduleRows(s: State)
    requires Inv(s)
    ensures var s', from, to := Schedule(s), s.current, Schedule(s).current;
            && from in s.tcbs && to in s.tcbs && |s'.table| == |s.table|
            && (to == from ==> s'.table == s.table && s'.tcbs == s.tcbs)
            && (to != from ==>
                  var c, x := s.tcbs[from], s.tcbs[to];
                  && x.prio < |s.table| && s.table[x.prio] != [] && s.table[x.prio][0] == to
                  && s'.tcbs == s.tcbs[from := c.(stat := if c.stat == Running then Ready else c.stat, yielded := false)][to := x.(stat := Running)]
                  && forall q :: 0 <= q < |s.table| ==>
                       var rest := if q == x.prio then s.table[q][1..] else s.table[q];
                       s'.table[q] == if c.stat == Running && q == c.prio then (if c.yielded then rest + [from] else [from] + rest) else rest)
  {
    InvFacts(s);
    if s.index.Highest() < s.index.Levels() {
      TopReady(s);
      var p := s.index.Highest();
      var from, to := s.current, s.table[p][0];
      if s.lockNest == 0 && !Stays(s.tcbs[from], p) {
        HeadGone(s.table[p], from, to);
      } else if s.lockNest == 0 {
        StaysSame(s);
      }
    }
  }

  lemma HeadGone(row: seq<nat>, from: nat, to: nat)
    requires row != [] && row[0] == to && from != to
    ensures Without(row, to) == row[1..] && Without(row + [from], to) == row[1..] + [from] && Without([from] + row, to) == [from] + row[1..]
  {
    assert (row + [from])[1..] == row[1..] + [from];
    assert ([from] + row)[1..] == row;
  }

  lemma StaysSame(s: State)
    requires Inv(s) && s.lockNest == 0 && s.index.Highest() < s.index.Levels() && Stays(s.tcbs[s.current], s.index.Highest())
    ensures Schedule(s).table == s.table && Schedule(s).tcbs == s.tcbs && Schedule(s).current == s.current
  {
    InvFacts(s);
    NotListed(s, s.current);
    var p := s.tcbs[s.current].prio;
    assert s.table[p := s.table[p]] == s.table;
  }

  // -------------------------------------------------------------------------------------
  // Ticks and locks
  // -------------------------------------------------------------------------------------

  /** n ticks at once are n single ticks while slice is left, and from its end on the tick that ends it. */
  lemma TickByIsTicks(s: State, n: nat)
    requires Inv(s) && n > 0
    ensures s.current in s.tcbs
    ensures TickBy(s, n) == Ticks(s, if n < Slice(s.tcbs[s.current]) then n else Slice(s.tcbs[s.current]))
  {
    hide Inv, Ticks, TickBy;
    InvFacts(s);
    var c := s.tcbs[s.current];
    var k := Slice(c);
    if n < k {
      Burn(s, n);
      TickLeaves(s, n);
    } else {
      Burn(s, k - 1);
      TicksAdd(s, k - 1, 1);
      var s1 := Put(s, s.current, c.(remaining := c.remaining - (k - 1)));
      OneTick(s1);
      TickEnds(s, n);
      TickEnds(s1, 1);
      assert s1.tcbs[s.current := c.(remaining := 0)] == s.tcbs[s.current := c.(remaining := 0)];
    }
  }

  lemma TickLeaves(s: State, n: nat)
    requires Inv(s) && s.current in s.tcbs && n < s.tcbs[s.current].remaining
    ensures TickBy(s, n) == Put(s, s.current, s.tcbs[s.current].(remaining := s.tcbs[s.current].remaining - n))
  {
  }

  lemma TickEnds(s: State, n: nat)
    requires Inv(s) && s.current in s.tcbs && n >= s.tcbs[s.current].remaining
    ensures var s1 := Put(s, s.current, s.tcbs[s.current].(remaining := 0));
            Inv(Yield(s1, s.current)) && TickBy(s, n) == Schedule(Yield(s1, s.current))
  {
    InvFacts(s);
    PutKeeps(s, s.current, s.tcbs[s.current].(remaining := 0));
    YieldKeeps(Put(s, s.current, s.tcbs[s.current].(remaining := 0)), s.current);
  }

  /** Locks nest: no thread changes before the last of them is undone. */
  lemma {:induction false} LockedStays(s: State, n: nat, k: nat)
    requires Inv(s) && k < n
    ensures var r := UnlockTimes(LockTimes(s, n), k); Inv(r) && r.lockNest == s.lockNest + n - k && Schedule(r) == r
    ensures UnlockTimes(LockTimes(s, n), n) == s
  {
    hide Inv, Handle;
    LocksCount(s, n);
    UnlocksCount(LockTimes(s, n), k);
    UnlocksCount(LockTimes(s, n), n);
    StillLocked(UnlockTimes(LockTimes(s, n), k));
  }

  lemma StillLocked(s: State)
    requires Inv(s) && s.lockNest > 0
    ensures Schedule(s) == s
  {
  }

  ghost function LockTimes(s: State, n: nat): State
    requires Inv(s)
    ensures Inv(LockTimes(s, n))
    decreases n
  {
    if n == 0 then s else
      HandleKeeps(s, Locked);
      LockTimes(Handle(s, Locked), n - 1)
  }

  ghost function UnlockTimes(s: State, n: nat): State
    requires Inv(s)
    ensures Inv(UnlockTimes(s, n))
    decreases n
  {
    if n == 0 then s else
      HandleKeeps(s, Unlocked);
      UnlockTimes(Handle(s, Unlocked), n - 1)
  }

  lemma {:induction false} LocksCount(s: State, n: nat)
    requires Inv(s)
    ensures LockTimes(s, n) == s.(lockNest := s.lockNest + n)
    decreases n
  {
    hide Inv;
    if n > 0 {
      HandleKeeps(s, Locked);
      LocksCount(Handle(s, Locked), n - 1);
    }
  }

  lemma {:induction false} UnlocksCount(s: State, n: nat)
    requires Inv(s) && n <= s.lockNest
    ensures UnlockTimes(s, n) == s.(lockNest := s.lockNest - n)
    decreases n
  {
    hide Inv;
    if n > 0 {
      HandleKeeps(s, Unlocked);
      UnlocksCount(Handle(s, Unlocked), n - 1);
    }
  }

  /** The steps of a run are the calls these laws are about. */
  lemma StepsAreCalls(s: State, e: Event)
    requires Inv(s) && Possible(s, e)
    ensures s.current in s.tcbs
    ensures var s' := Handle(s, e);
            match e
            case Woken(t) => s' == Wake(s, t)
            case SuspendSelf => s' == Suspend(s)
            case Closed(t) => s' == CloseThread(s, t)
            case Yielded =>
              OnlyThread(s, s', s.current, s.tcbs[s.current].(remaining := s.tcbs[s.current].initTick, yielded := true)) && s'.table == s.table
            case NewPriority(t, p) => s' == ChangePriority(s, t, p)
            case Ticked(n) => s' == TickBy(s, n)
            case Rescheduled => s' == Schedule(s)
            case Locked => s' == s.(lockNest := s.lockNest + 1)
            case Unlocked => s' == s.(lockNest := s'.lockNest) && (s.lockNest > 0 ==> s'.lockNest + 1 == s.lockNest)
  {
    hide Rows, ListedBut, Wake, Suspend, CloseThread, ChangePriority, TickBy, Schedule;
    InvFacts(s);
  }
}
