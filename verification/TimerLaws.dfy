/** A timer fires at its deadline, no sooner and no later, if the list is checked at every tick
    (rt-thread/src/timer.c). */
module TimerLaws {
  import opened Lists
  import opened TimerQueue

  /** Nobody starts or stops t. */
  ghost predicate LeftAlone(es: seq<Event>, t: Timer) {
    forall e :: e in es ==> (e.Started? || e.Stopped?) ==> e.timer != t
  }

  /** How many ticks pass. */
  function TicksIn(es: seq<Event>): nat {
    if es == [] then 0 else (if es[0].Ticked? then 1 else 0) + TicksIn(es[1..])
  }

  /** t is queued, due at d. */
  ghost predicate Pending(w: World, t: Timer, d: nat) {
    t in w.queue.row && t in w.queue.due && w.queue.due[t] == d
  }

  ghost predicate Sound(w: World, per: Periods) {
    QueueOk(w.queue) && Ahead(w.queue, w.now, per) && FairPeriods(per)
  }

  /** A tick fires t exactly if t is queued and its deadline has come; a periodic timer is then due one
      period later, any other is no longer queued.  Time moves on by one. */
  lemma TickFires(w: World, per: Periods, t: Timer)
    requires Sound(w, per)
    ensures var w' := Handle(w, Ticked, per); Sound(w', per) && w'.now == w.now + 1
    ensures t in Fired(w.queue, w.now + 1) <==> t in w.queue.row && t in w.queue.due && w.queue.due[t] <= w.now + 1
    ensures var w' := Handle(w, Ticked, per);
            t in Fired(w.queue, w.now + 1) ==> if t in per then Pending(w', t, w.now + 1 + per[t]) else t !in w'.queue.row
    ensures var w' := Handle(w, Ticked, per);
            t !in Fired(w.queue, w.now + 1) ==>
              (t in w'.queue.row <==> t in w.queue.row) && (t in w.queue.row ==> Pending(w', t, w.queue.due[t]))
  {
    hide QueueOk, Ahead, FairPeriods, Checked, Fired, Restarted, Place;
    HandleKeepsAhead(w, Ticked, per);
    CheckOutcome(w.queue, w.now + 1, per);
    var fired := Fired(w.queue, w.now + 1);
    var rest :| w.queue.row == fired + rest && Distinct(fired + rest) && AllExpired(fired, w.queue.due, w.now + 1)
                && AllLater(rest, w.queue.due, w.now + 1)
                && Restarted(Queue(rest, w.queue.due), fired, w.now + 1, per, Checked(w.queue, w.now + 1, per));
    Outcome(w.queue, fired, rest, w.now + 1, per, Checked(w.queue, w.now + 1, per), t);
  }

  lemma Outcome(q: Queue, fired: seq<Timer>, rest: seq<Timer>, now: nat, per: Periods, r: Queue, t: Timer)
    requires q.row == fired + rest && Distinct(fired + rest) && AllExpired(fired, q.due, now) && AllLater(rest, q.due, now)
    requires Restarted(Queue(rest, q.due), fired, now, per, r)
    ensures t in fired <==> t in q.row && t in q.due && q.due[t] <= now
    ensures t in fired ==> if t in per then t in r.row && t in r.due && r.due[t] == now + per[t] else t !in r.row
    ensures t !in fired ==> (t in r.row <==> t in q.row) && (t in q.row ==> t in r.due && t in q.due && r.due[t] == q.due[t])
  {
    hide Distinct;
    assert t in q.row <==> t in fired || t in rest;
    HalvesApart(fired, rest, t);
  }

  lemma HalvesApart(a: seq<Timer>, b: seq<Timer>, t: Timer)
    requires Distinct(a + b)
    ensures t in a ==> t !in b
  {
    forall i, j | 0 <= i < |a| && 0 <= j < |b| ensures a[i] != b[j] {
      assert a[i] == (a + b)[i] && b[j] == (a + b)[|a| + j];
    }
  }

  /** A start queues the timer with its new deadline, a stop takes it out; every other timer stays
      queued and due as it was. */
  lemma CallsDo(w: World, e: Event, per: Periods, x: Timer)
    requires Sound(w, per) && Fair(e, per) && !e.Ticked?
    ensures var w' := Handle(w, e, per); Sound(w', per) && w'.now == w.now
    ensures e.Started? ==> Pending(Handle(w, e, per), e.timer, w.now + e.ticks)
    ensures e.Stopped? ==> e.timer !in Handle(w, e, per).queue.row
    ensures var w' := Handle(w, e, per);
            x != e.timer ==> (x in w'.queue.row <==> x in w.queue.row) && (x in w.queue.row ==> x in w.queue.due && Pending(w', x, w.queue.due[x]))
  {
    hide QueueOk, Ahead, FairPeriods, Start, Stop;
    HandleKeepsAhead(w, e, per);
    RowKnown(w.queue, x);
    match e
    case Started(t, n) =>
      StartOk(w.queue, t, w.now + n);
      StopOk(w.queue, t);
    case Stopped(t) =>
      StopOk(w.queue, t);
      StopDue(w.queue, t);
  }

  lemma RowKnown(q: Queue, x: Timer)
    requires QueueOk(q)
    ensures x in q.row ==> x in q.due
  {
  }

  lemma StopDue(q: Queue, t: Timer)
    ensures Stop(q, t).due == q.due
  {
  }

  /** A timer left alone stays queued with its deadline as long as that has not come. */
  lemma {:induction false} StaysUntilDue(w: World, es: seq<Event>, per: Periods, t: Timer, d: nat)
    requires Sound(w, per) && (forall e :: e in es ==> Fair(e, per)) && LeftAlone(es, t)
    requires Pending(w, t, d) && w.now + TicksIn(es) < d
    ensures Sound(Run(w, es, per), per) && Pending(Run(w, es, per), t, d) && Run(w, es, per).now == w.now + TicksIn(es)
    decreases |es|
  {
    hide QueueOk, Ahead, FairPeriods, Handle, Fired, Fair;
    if es != [] {
      HandleKeepsAhead(w, es[0], per);
      if es[0].Ticked? { TickFires(w, per, t); } else { CallsDo(w, es[0], per, t); }
      StaysUntilDue(Handle(w, es[0], per), es[1..], per, t, d);
    }
  }

  /** A timer started with n ticks and left alone is fired by the n-th tick from then on (the first one,
      if n is 0) and by none before. */
  lemma FiresOnTime(w: World, t: Timer, n: nat, es: seq<Event>, per: Periods)
    requires Sound(w, per) && Fair(Started(t, n), per) && (forall e :: e in es ==> Fair(e, per)) && LeftAlone(es, t)
    ensures var w1 := Handle(w, Started(t, n), per);
            && Sound(w1, per) && w1.now == w.now
            && var w2 := Run(w1, es, per);
               && Sound(w2, per) && w2.now == w.now + TicksIn(es)
               && (TicksIn(es) + 1 < n ==> t !in Fired(w2.queue, w2.now + 1) && Pending(w2, t, w.now + n))
               && (TicksIn(es) + 1 == n || (n == 0 && TicksIn(es) == 0) ==> t in Fired(w2.queue, w2.now + 1))
  {
    hide QueueOk, Ahead, FairPeriods, Handle, Fired;
    CallsDo(w, Started(t, n), per, t);
    var w1 := Handle(w, Started(t, n), per);
    RunStaysSound(w1, es, per);
    var w2 := Run(w1, es, per);
    TickFires(w2, per, t);
    if TicksIn(es) < n {
      StaysUntilDue(w1, es, per, t, w.now + n);
    } else if n == 0 && TicksIn(es) == 0 {
      NoTicks(w1, es, per, t, w.now);
    }
  }

  lemma {:induction false} RunStaysSound(w: World, es: seq<Event>, per: Periods)
    requires Sound(w, per) && forall e :: e in es ==> Fair(e, per)
    ensures Sound(Run(w, es, per), per) && Run(w, es, per).now == w.now + TicksIn(es)
    decreases |es|
  {
    hide QueueOk, Ahead, FairPeriods, Handle, Fair;
    if es != [] {
      HandleKeepsAhead(w, es[0], per);
      ClockMoves(w, es[0], per);
      RunStaysSound(Handle(w, es[0], per), es[1..], per);
    }
  }

  lemma ClockMoves(w: World, e: Event, per: Periods)
    requires QueueOk(w.queue)
    ensures Handle(w, e, per).now == w.now + if e.Ticked? then 1 else 0
  {
    hide Checked, Start, Stop;
  }

  /** Without ticks no time passes, and a timer left alone stays queued. */
  lemma {:induction false} NoTicks(w: World, es: seq<Event>, per: Periods, t: Timer, d: nat)
    requires Sound(w, per) && (forall e :: e in es ==> Fair(e, per)) && LeftAlone(es, t) && Pending(w, t, d) && TicksIn(es) == 0
    ensures Sound(Run(w, es, per), per) && Pending(Run(w, es, per), t, d) && Run(w, es, per).now == w.now
    decreases |es|
  {
    hide QueueOk, Ahead, FairPeriods, Handle, Fired, Fair;
    if es != [] {
      HandleKeepsAhead(w, es[0], per);
      CallsDo(w, es[0], per, t);
      NoTicks(Handle(w, es[0], per), es[1..], per, t, d);
    }
  }

  /** A timer that is not queued does not fire until it is started. */
  lemma {:induction false} SilentUntilStarted(w: World, es: seq<Event>, per: Periods, t: Timer)
    requires Sound(w, per) && (forall e :: e in es ==> Fair(e, per)) && LeftAlone(es, t) && t !in w.queue.row
    ensures var r := Run(w, es, per); Sound(r, per) && t !in r.queue.row && t !in Fired(r.queue, r.now + 1)
    decreases |es|
  {
    hide QueueOk, Ahead, FairPeriods, Handle, Fired, Fair;
    TickFires(w, per, t);
    if es != [] {
      HandleKeepsAhead(w, es[0], per);
      if !es[0].Ticked? { CallsDo(w, es[0], per, t); }
      SilentUntilStarted(Handle(w, es[0], per), es[1..], per, t);
    }
  }
}
