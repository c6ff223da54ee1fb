/** The timer list of rt-thread/src/timer.c seen with unbounded deadlines: a queue in deadline
    order, equal deadlines in start order.  The skip list that refines it is in SkipList.dfy. */
module TimerQueue {
  import opened Lists

  /** struct rt_timer. */
  class Timer {
    var initTick: nat
    var timeoutTick: nat           // 32 bits
    var periodic: bool
    var activated: bool

    constructor (ticks: nat, periodic: bool)
      ensures initTick == ticks && timeoutTick == 0 && this.periodic == periodic && !activated
    {
      initTick, timeoutTick, this.periodic, activated := ticks, 0, periodic, false;
    }
  }

  const WRAP: nat := 0x1_0000_0000
  const HALF: nat := 0x7fff_ffff   // RT_TICK_MAX / 2

  /** rt_tick_t subtraction. */
  function Minus(a: int, b: int): (r: nat)
    ensures r < WRAP
  {
    (a - b) % WRAP
  }

  function Tick(time: nat): nat { time % WRAP }

  ghost predicate InWindow(x: int, lo: int) { lo <= x < lo + HALF }

  /** The insertion's test for a timer that is due after the new one. */
  predicate IsLater(a: int, b: int) { Minus(a, b) != 0 && Minus(a, b) < HALF }

  /** The firing test. */
  predicate IsExpired(now: int, timeout: int) { Minus(now, timeout) < HALF }

  lemma MinusTicks(x: nat, y: nat)
    ensures Minus(Tick(x), Tick(y)) == (x - y) % WRAP
  {
    var q, p := x / WRAP, y / WRAP;
    assert Tick(x) - Tick(y) == (x - y) + WRAP * (p - q);
    ModShift(x - y, p - q);
  }

  lemma ModShift(x: int, k: int)
    ensures (x + WRAP * k) % WRAP == x % WRAP
  {
  }

  /** Wrapped comparison agrees with the order of the deadlines inside a window. */
  lemma LaterIff(x: nat, y: nat, lo: int)
    requires InWindow(x, lo) && InWindow(y, lo)
    ensures IsLater(Tick(x), Tick(y)) <==> x > y
    ensures Minus(Tick(x), Tick(y)) == 0 <==> x == y
  {
    MinusTicks(x, y);
    if x < y { ModShift(x - y, 1); }
  }

  /** The window cannot be any wider: half the tick range apart, the later timer reads as earlier. */
  lemma OrderLostAtHalf(y: nat)
    ensures !IsLater(Tick(y + HALF), Tick(y))
  {
    MinusTicks(y + HALF, y);
  }

  lemma ExpiredIff(now: nat, due: nat, lo: int)
    requires lo <= now && InWindow(due, lo) && now < due + HALF
    ensures IsExpired(Tick(now), Tick(due)) <==> due <= now
  {
    MinusTicks(now, due);
    if now < due { ModShift(now - due, 1); }
  }

  // -------------------------------------------------------------------------------------
  // Rows
  // -------------------------------------------------------------------------------------

  type Deadlines = map<Timer, nat>

  ghost predicate Known(row: seq<Timer>, due: Deadlines) {
    forall i :: 0 <= i < |row| ==> row[i] in due
  }

  ghost predicate Sorted(row: seq<Timer>, due: Deadlines)
    requires Known(row, due)
  {
    forall i, j :: 0 <= i < j < |row| ==> due[row[i]] <= due[row[j]]
  }

  /** Stable insertion: behind everything due no later. */
  function Insert(row: seq<Timer>, due: Deadlines, t: Timer, d: nat): seq<Timer>
    requires Known(row, due)
  {
    if row == [] || due[row[0]] > d then [t] + row else [row[0]] + Insert(row[1..], due, t, d)
  }

  /** How many timers of a row are due no later than d. */
  function Place(row: seq<Timer>, due: Deadlines, d: nat): (k: nat)
    requires Known(row, due)
    ensures k <= |row| && (forall i :: 0 <= i < k ==> due[row[i]] <= d) && (k < |row| ==> due[row[k]] > d)
  {
    if row == [] || due[row[0]] > d then 0 else 1 + Place(row[1..], due, d)
  }

  lemma {:induction false} InsertAt(row: seq<Timer>, due: Deadlines, t: Timer, d: nat)
    requires Known(row, due)
    ensures var k := Place(row, due, d); Insert(row, due, t, d) == row[..k] + [t] + row[k..]
  {
    if row != [] && due[row[0]] <= d {
      InsertAt(row[1..], due, t, d);
    }
  }

  /** In a sorted row the place of d is the only one with earlier timers before and later ones from it on. */
  lemma PlaceUnique(row: seq<Timer>, due: Deadlines, d: nat, k: nat)
    requires Known(row, due) && Sorted(row, due) && k <= |row|
    requires k > 0 ==> due[row[k - 1]] <= d
    requires k < |row| ==> due[row[k]] > d
    ensures k == Place(row, due, d)
  {
  }

  /** row' holds the timers of row and t. */
  ghost predicate Added(row: seq<Timer>, t: Timer, row': seq<Timer>) {
    (forall x :: x in row' ==> x in row || x == t) && (forall x :: x in row ==> x in row') && t in row'
  }

  /** row' holds the timers of row but t. */
  ghost predicate Dropped(row: seq<Timer>, t: Timer, row': seq<Timer>) {
    (forall x :: x in row' ==> x in row && x != t) && (forall x :: x in row ==> x == t || x in row')
  }

  lemma {:induction false} InsertContents(row: seq<Timer>, due: Deadlines, t: Timer, d: nat)
    requires Known(row, due)
    ensures Added(row, t, Insert(row, due, t, d))
    ensures Known(Insert(row, due, t, d), due[t := d])
  {
    if row != [] && due[row[0]] <= d {
      InsertContents(row[1..], due, t, d);
    }
  }

  lemma SortedTail(row: seq<Timer>, due: Deadlines)
    requires Known(row, due) && Sorted(row, due) && row != []
    ensures Known(row[1..], due) && Sorted(row[1..], due)
    ensures forall x :: x in row[1..] ==> due[row[0]] <= due[x]
  {
    var tail := row[1..];
    assert forall i :: 0 <= i < |tail| ==> tail[i] == row[i + 1];
  }

  lemma SortedCons(x: Timer, row: seq<Timer>, due: Deadlines)
    requires Known(row, due) && Sorted(row, due) && x in due && forall y :: y in row ==> due[x] <= due[y]
    ensures Known([x] + row, due) && Sorted([x] + row, due)
  {
    var r := [x] + row;
    assert forall i :: 0 < i < |r| ==> r[i] == row[i - 1] && r[i] in row;
  }

  lemma SortedUnder(row: seq<Timer>, due: Deadlines, due': Deadlines)
    requires Known(row, due) && Sorted(row, due) && forall x :: x in row ==> x in due' && due'[x] == due[x]
    ensures Known(row, due') && Sorted(row, due')
  {
  }

  lemma {:induction false} InsertSorted(row: seq<Timer>, due: Deadlines, t: Timer, d: nat)
    requires Known(row, due) && Sorted(row, due) && t !in row
    ensures var due' := due[t := d]; var row' := Insert(row, due, t, d);
            Known(row', due') && Sorted(row', due')
  {
    hide Sorted;
    var due' := due[t := d];
    SortedUnder(row, due, due');
    if row == [] {
      SortedCons(t, [], due');
    } else if due[row[0]] > d {
      SortedTail(row, due);
      SortedCons(t, row, due');
    } else {
      SortedTail(row, due);
      InsertSorted(row[1..], due, t, d);
      InsertContents(row[1..], due, t, d);
      SortedCons(row[0], Insert(row[1..], due, t, d), due');
    }
  }

  lemma InsertedShape(row: seq<Timer>, due: Deadlines, t: Timer, d: nat)
    requires Known(row, due)
    ensures var k, row' := Place(row, due, d), Insert(row, due, t, d);
            && |row'| == |row| + 1
            && forall i :: 0 <= i < |row'| ==> row'[i] == if i < k then row[i] else if i == k then t else row[i - 1]
  {
    InsertAt(row, due, t, d);
  }

  lemma {:induction false} InsertDistinct(row: seq<Timer>, due: Deadlines, t: Timer, d: nat)
    requires Known(row, due) && Distinct(row) && t !in row
    ensures Distinct(Insert(row, due, t, d))
  {
    if row == [] || due[row[0]] > d {
      DistinctCons(t, row);
    } else {
      DistinctTail(row);
      InsertDistinct(row[1..], due, t, d);
      InsertContents(row[1..], due, t, d);
      DistinctCons(row[0], Insert(row[1..], due, t, d));
    }
  }

  lemma InsertOk(q: Queue, t: Timer, d: nat)
    requires QueueOk(q) && t !in q.row
    ensures QueueOk(Queue(Insert(q.row, q.due, t, d), q.due[t := d]))
  {
    InsertSorted(q.row, q.due, t, d);
    InsertDistinct(q.row, q.due, t, d);
  }

  /** Stopping a timer right after its start restores the queue. */
  lemma {:induction false} RemoveInserted(row: seq<Timer>, due: Deadlines, t: Timer, d: nat)
    requires Known(row, due) && t !in row
    ensures Without(Insert(row, due, t, d), t) == row
  {
    if row != [] && due[row[0]] <= d {
      assert row[0] in row;
      RemoveInserted(row[1..], due, t, d);
    }
  }

  /** Deadlines of timers outside the row do not matter. */
  lemma {:induction false} InsertSame(row: seq<Timer>, due: Deadlines, due': Deadlines, t: Timer, d: nat)
    requires Known(row, due) && Known(row, due') && forall x :: x in row ==> due[x] == due'[x]
    ensures Insert(row, due, t, d) == Insert(row, due', t, d)
  {
    if row != [] && due[row[0]] <= d {
      assert row[0] in row;
      InsertSame(row[1..], due, due', t, d);
    }
  }

  lemma {:induction false} WithoutSorted(row: seq<Timer>, due: Deadlines, t: Timer)
    requires Known(row, due) && Sorted(row, due)
    ensures Known(Without(row, t), due) && Sorted(Without(row, t), due)
  {
    if row != [] && row[0] != t {
      WithoutSorted(row[1..], due, t);
      var tail := Without(row[1..], t);
      forall i | 0 <= i < |tail| ensures tail[i] in row && due[row[0]] <= due[tail[i]] {
        assert tail[i] in tail;
      }
    }
  }

  // -------------------------------------------------------------------------------------
  // Sublists
  // -------------------------------------------------------------------------------------

  /** a is b with some timers left out. */
  ghost predicate Sublist(a: seq<Timer>, b: seq<Timer>) {
    a == [] || (b != [] && if a[0] == b[0] then Sublist(a[1..], b[1..]) else Sublist(a, b[1..]))
  }

  lemma {:induction false} SublistIn(a: seq<Timer>, b: seq<Timer>, t: Timer)
    requires Sublist(a, b) && t in a
    ensures t in b
  {
    if a[0] == b[0] {
      if t != a[0] { SublistIn(a[1..], b[1..], t); }
    } else {
      SublistIn(a, b[1..], t);
    }
  }

  /** The new timer may be left out of the upper row. */
  lemma {:induction false} InsertBelow(a: seq<Timer>, b: seq<Timer>, due: Deadlines, t: Timer, d: nat)
    requires Sublist(a, b) && Known(b, due) && t !in a
    ensures Sublist(a, Insert(b, due, t, d))
  {
    if a != [] && due[b[0]] <= d {
      if a[0] == b[0] { InsertBelow(a[1..], b[1..], due, t, d); } else { InsertBelow(a, b[1..], due, t, d); }
    }
  }

  /** Or be in both. */
  lemma {:induction false} InsertBoth(a: seq<Timer>, b: seq<Timer>, due: Deadlines, t: Timer, d: nat)
    requires Sublist(a, b) && Known(a, due) && Known(b, due) && Sorted(b, due) && t !in b
    ensures Sublist(Insert(a, due, t, d), Insert(b, due, t, d))
  {
    if b == [] {
    } else if due[b[0]] > d {
      if a != [] {
        SublistIn(a, b, a[0]);
        assert due[a[0]] >= due[b[0]];
      }
    } else {
      assert b[0] in b;
      if a != [] && a[0] == b[0] {
        InsertBoth(a[1..], b[1..], due, t, d);
      } else {
        InsertBoth(a, b[1..], due, t, d);
        assert Insert(a, due, t, d)[0] != b[0];
      }
    }
  }

  lemma {:induction false} WithoutBoth(a: seq<Timer>, b: seq<Timer>, t: Timer)
    requires Sublist(a, b) && Distinct(b)
    ensures Sublist(Without(a, t), Without(b, t))
  {
    if a != [] {
      DistinctTail(b);
      if a[0] == b[0] {
        if a[0] != t { WithoutBoth(a[1..], b[1..], t); }
      } else if b[0] == t {
        if t in a { SublistIn(a, b[1..], t); }
      } else {
        WithoutBoth(a, b[1..], t);
        if a[0] == t && |a| > 1 { SublistIn(a, b[1..], a[1]); }
      }
    }
  }

  // -------------------------------------------------------------------------------------
  // Firing
  // -------------------------------------------------------------------------------------

  datatype Queue = Queue(row: seq<Timer>, due: Deadlines)

  ghost predicate QueueOk(q: Queue) {
    Distinct(q.row) && Known(q.row, q.due) && Sorted(q.row, q.due)
  }

  /** The periodic timers with their periods. */
  type Periods = map<Timer, nat>

  /** A fired timer is started again if it is periodic. */
  function Rearm(q: Queue, t: Timer, now: nat, per: Periods): (r: Queue)
    requires Known(q.row, q.due)
    ensures Known(r.row, r.due)
  {
    if t in per then
      var d := now + per[t];
      InsertContents(q.row, q.due, t, d);
      Queue(Insert(q.row, q.due, t, d), q.due[t := d])
    else q
  }

  function RearmAll(q: Queue, fired: seq<Timer>, now: nat, per: Periods): (r: Queue)
    requires Known(q.row, q.due)
    ensures Known(r.row, r.due)
  {
    if fired == [] then q else
      var n := |fired| - 1;
      Rearm(RearmAll(q, fired[..n], now, per), fired[n], now, per)
  }

  /** The timers rt_timer_check fires at `now`, in order. */
  function Fired(q: Queue, now: nat): seq<Timer>
    requires Known(q.row, q.due)
  {
    q.row[..Place(q.row, q.due, now)]
  }

  /** The queue once they have fired. */
  function Checked(q: Queue, now: nat, per: Periods): Queue
    requires Known(q.row, q.due)
  {
    var k := Place(q.row, q.due, now);
    RearmAll(Queue(q.row[k..], q.due), q.row[..k], now, per)
  }

  /** One round of the firing loop. */
  function Fire(q: Queue, now: nat, per: Periods): Queue
    requires Known(q.row, q.due) && q.row != []
  {
    Rearm(Queue(q.row[1..], q.due), q.row[0], now, per)
  }

  /** The loop after j rounds. */
  function AfterRounds(q: Queue, j: nat, now: nat, per: Periods): Queue
    requires Known(q.row, q.due) && j <= |q.row|
  {
    RearmAll(Queue(q.row[j..], q.due), q.row[..j], now, per)
  }

  /** Timers started again go behind those that are still to fire. */
  lemma {:induction false} RearmBehind(x: Timer, q: Queue, fired: seq<Timer>, now: nat, per: Periods)
    requires Known(q.row, q.due) && x in q.due && q.due[x] <= now && x !in fired
    ensures Known([x] + q.row, q.due)
    ensures var a, b := RearmAll(Queue([x] + q.row, q.due), fired, now, per), RearmAll(q, fired, now, per);
            a.row == [x] + b.row && a.due == b.due && x in b.due && b.due[x] == q.due[x]
  {
    if fired != [] {
      var n := |fired| - 1;
      RearmBehind(x, q, fired[..n], now, per);
      assert fired[n] in fired;
      var b := RearmAll(q, fired[..n], now, per);
      if fired[n] in per {
        assert ([x] + b.row)[1..] == b.row;
      }
    }
  }

  /** Each round pops the next expired timer of the queue the check found. */
  lemma NextRound(q: Queue, j: nat, now: nat, per: Periods)
    requires QueueOk(q) && j < Place(q.row, q.due, now)
    ensures var a := AfterRounds(q, j, now, per);
            a.row != [] && a.row[0] == q.row[j] && a.due[a.row[0]] == q.due[q.row[j]]
            && Fire(a, now, per) == AfterRounds(q, j + 1, now, per)
  {
    var x, rest, fired := q.row[j], q.row[j + 1..], q.row[..j];
    assert q.row[j..] == [x] + rest;
    assert forall i :: 0 <= i < j ==> fired[i] != x;
    RearmBehind(x, Queue(rest, q.due), fired, now, per);
    assert q.row[..j + 1][..j] == fired && q.row[..j + 1][j] == x;
    assert AfterRounds(q, j, now, per).row[1..] == RearmAll(Queue(rest, q.due), fired, now, per).row;
  }

  ghost predicate NoneExpired(q: Queue, now: nat)
    requires Known(q.row, q.due)
  {
    forall i :: 0 <= i < |q.row| ==> q.due[q.row[i]] > now
  }

  /** After the last round nothing queued is expired, if no period is zero. */
  lemma {:induction false} RearmedLater(q: Queue, fired: seq<Timer>, now: nat, per: Periods)
    requires Known(q.row, q.due) && NoneExpired(q, now)
    requires forall t :: t in fired && t in per ==> per[t] > 0
    ensures NoneExpired(RearmAll(q, fired, now, per), now)
  {
    if fired != [] {
      var n := |fired| - 1;
      RearmedLater(q, fired[..n], now, per);
      var b, t := RearmAll(q, fired[..n], now, per), fired[n];
      assert t in fired;
      hide NoneExpired, Insert;
      if t in per { InsertLater(b, t, now + per[t], now); }
    }
  }

  lemma InsertLater(q: Queue, t: Timer, d: nat, now: nat)
    requires Known(q.row, q.due) && NoneExpired(q, now) && d > now
    ensures var row' := Insert(q.row, q.due, t, d);
            Known(row', q.due[t := d]) && NoneExpired(Queue(row', q.due[t := d]), now)
  {
    hide Insert;
    InsertContents(q.row, q.due, t, d);
    var row' := Insert(q.row, q.due, t, d);
    forall i | 0 <= i < |row'| ensures q.due[t := d][row'[i]] > now {
      assert row'[i] in row';
    }
  }

  /** Which timers are queued after those in `fired` were started again, and when they are due. */
  ghost predicate Restarted(q: Queue, fired: seq<Timer>, now: nat, per: Periods, r: Queue) {
    && (forall x :: x in r.row ==> x in r.due && (x in q.row || (x in fired && x in per)))
    && (forall x :: x in q.row ==> x in r.row)
    && (forall x :: x in fired && x in per ==> x in r.row && x in r.due && r.due[x] == now + per[x])
    && (forall x :: x in q.due && !(x in fired && x in per) ==> x in r.due && r.due[x] == q.due[x])
  }

  lemma {:induction false} RearmedContents(q: Queue, fired: seq<Timer>, now: nat, per: Periods)
    requires QueueOk(q) && Distinct(fired) && forall t :: t in fired ==> t !in q.row
    ensures QueueOk(RearmAll(q, fired, now, per)) && Restarted(q, fired, now, per, RearmAll(q, fired, now, per))
  {
    if fired != [] {
      var n := |fired| - 1;
      var t, first := fired[n], fired[..n];
      assert fired == first + [t];
      assert forall i :: 0 <= i < n ==> first[i] != t;
      hide QueueOk, Insert, Distinct, Restarted, Rearm;
      RearmedContents(q, first, now, per);
      var b := RearmAll(q, first, now, per);
      NotYet(q, first, now, per, b, t);
      RestartOne(q, first, t, now, per, b);
    }
  }

  lemma NotYet(q: Queue, fired: seq<Timer>, now: nat, per: Periods, r: Queue, t: Timer)
    requires Restarted(q, fired, now, per, r) && t !in fired && t !in q.row
    ensures t !in r.row
  {
  }

  lemma RestartOne(q: Queue, fired: seq<Timer>, t: Timer, now: nat, per: Periods, r: Queue)
    requires Restarted(q, fired, now, per, r) && QueueOk(r) && t !in fired && t !in r.row
    ensures QueueOk(Rearm(r, t, now, per)) && Restarted(q, fired + [t], now, per, Rearm(r, t, now, per))
  {
    hide QueueOk, Insert, Distinct, Known;
    if t in per {
      InsertOk(r, t, now + per[t]);
      InsertContents(r.row, r.due, t, now + per[t]);
    }
  }

  /** A periodic timer of period zero that has expired is still expired and queued after its
      round, and after any other: the firing loop cannot come to an end. */
  lemma ZeroPeriodNeverLeaves(q: Queue, t: Timer, now: nat, per: Periods)
    requires QueueOk(q) && t in q.row && q.due[t] <= now && t in per && per[t] == 0
    ensures q.due[q.row[0]] <= now
    ensures var r := Fire(q, now, per); QueueOk(r) && t in r.row && r.due[t] <= now
  {
    hide Sorted, Distinct, Insert;
    var x := q.row[0];
    DistinctTail(q.row);
    SortedTail(q.row, q.due);
    assert q.row == [x] + q.row[1..];
    if x in per {
      InsertOk(Queue(q.row[1..], q.due), x, now + per[x]);
      InsertContents(q.row[1..], q.due, x, now + per[x]);
    }
  }

  /** The smallest such queue: a round of the loop leaves it exactly as it was. */
  lemma ZeroPeriodExample(t: Timer, now: nat)
    ensures var q, per := Queue([t], map[t := now]), map[t := 0];
            QueueOk(q) && q.due[q.row[0]] <= now && Fire(q, now, per) == q && !NoneExpired(Checked(q, now, per), now)
  {
    var q, per := Queue([t], map[t := now]), map[t := 0];
    assert q.row[1..] == [] && q.due[t := now] == q.due;
    NoneExpiredIff(q, now, per);
    assert t in q.row && per[t] == 0;
  }

  ghost predicate AllExpired(row: seq<Timer>, due: Deadlines, now: nat) {
    forall x :: x in row ==> x in due && due[x] <= now
  }

  ghost predicate AllLater(row: seq<Timer>, due: Deadlines, now: nat) {
    forall x :: x in row ==> x in due && due[x] > now
  }

  /** A check fires exactly the expired timers, each once, in deadline then start order; the
      others stay, and the periodic ones fired are due one period from now. */
  lemma CheckOutcome(q: Queue, now: nat, per: Periods)
    requires QueueOk(q)
    ensures exists rest :: q.row == Fired(q, now) + rest && Distinct(Fired(q, now) + rest)
              && AllExpired(Fired(q, now), q.due, now) && AllLater(rest, q.due, now)
              && QueueOk(Checked(q, now, per)) && Restarted(Queue(rest, q.due), Fired(q, now), now, per, Checked(q, now, per))
  {
    hide Distinct, RearmAll, Sorted, Place, Restarted;
    SplitAtPlace(q, now);
    var rest := q.row[Place(q.row, q.due, now)..];
    RearmedContents(Queue(rest, q.due), Fired(q, now), now, per);
  }

  /** No periodic timer that is due has period zero. */
  ghost predicate NoZeroExpired(q: Queue, now: nat, per: Periods)
    requires Known(q.row, q.due)
  {
    forall t :: t in q.row && q.due[t] <= now && t in per ==> per[t] > 0
  }

  /** Each expired timer fired once, nothing queued is expired exactly if no expired periodic
      timer has period zero. */
  lemma NoneExpiredIff(q: Queue, now: nat, per: Periods)
    requires QueueOk(q)
    ensures NoneExpired(Checked(q, now, per), now) <==> NoZeroExpired(q, now, per)
  {
    hide Distinct, RearmAll, Sorted, Place, Restarted;
    SplitAtPlace(q, now);
    var fired, rest := Fired(q, now), Queue(q.row[Place(q.row, q.due, now)..], q.due);
    assert forall x :: x in q.row ==> x in fired || x in rest.row;
    if NoZeroExpired(q, now, per) {
      RearmedLater(rest, fired, now, per);
    } else {
      var t :| t in q.row && q.due[t] <= now && t in per && per[t] == 0;
      RearmedContents(rest, fired, now, per);
      ZeroStays(rest, fired, now, per, Checked(q, now, per), t);
    }
  }

  lemma ZeroStays(q: Queue, fired: seq<Timer>, now: nat, per: Periods, r: Queue, t: Timer)
    requires Restarted(q, fired, now, per, r) && t in fired && t in per && per[t] == 0 && Known(r.row, r.due)
    ensures !NoneExpired(r, now)
  {
  }

  lemma SplitAtPlace(q: Queue, now: nat)
    requires QueueOk(q)
    ensures var fired, rest := Fired(q, now), q.row[Place(q.row, q.due, now)..];
            && q.row == fired + rest && Distinct(fired) && QueueOk(Queue(rest, q.due))
            && AllExpired(fired, q.due, now) && AllLater(rest, q.due, now) && (forall x :: x in fired ==> x !in rest)
  {
    hide Sorted, Distinct, Place, AllExpired, AllLater;
    var k := Place(q.row, q.due, now);
    SplitDeadlines(q, now);
    DistinctHalves(q.row, k);
    assert q.row == q.row[..k] + q.row[k..];
  }

  lemma SplitDeadlines(q: Queue, now: nat)
    requires QueueOk(q)
    ensures var k := Place(q.row, q.due, now);
            AllExpired(q.row[..k], q.due, now) && AllLater(q.row[k..], q.due, now) && Known(q.row[k..], q.due) && Sorted(q.row[k..], q.due)
  {
    hide Sorted, Distinct;
    SortedFrom(q.row, q.due, Place(q.row, q.due, now));
  }

  lemma DistinctHalves(row: seq<Timer>, k: nat)
    requires Distinct(row) && k <= |row|
    ensures Distinct(row[..k]) && Distinct(row[k..]) && forall x :: x in row[..k] ==> x !in row[k..]
  {
    assert forall i :: 0 <= i < |row| - k ==> row[k..][i] == row[k + i];
  }

  lemma SortedFrom(row: seq<Timer>, due: Deadlines, k: nat)
    requires Known(row, due) && Sorted(row, due) && k <= |row|
    ensures Known(row[k..], due) && Sorted(row[k..], due)
    ensures k < |row| ==> forall x :: x in row[k..] ==> due[row[k]] <= due[x]
  {
    assert forall i :: 0 <= i < |row| - k ==> row[k..][i] == row[k + i];
  }

  // -------------------------------------------------------------------------------------
  // Runs
  // -------------------------------------------------------------------------------------

  /** rt_timer_start. */
  function Start(q: Queue, t: Timer, d: nat): Queue
    requires QueueOk(q)
  {
    WithoutSorted(q.row, q.due, t);
    Queue(Insert(Without(q.row, t), q.due, t, d), q.due[t := d])
  }

  /** rt_timer_stop. */
  function Stop(q: Queue, t: Timer): Queue { Queue(Without(q.row, t), q.due) }

  lemma StartOk(q: Queue, t: Timer, d: nat)
    requires QueueOk(q)
    ensures QueueOk(Start(q, t, d)) && Start(q, t, d).due == q.due[t := d] && Added(q.row, t, Start(q, t, d).row)
  {
    StopOk(q, t);
    InsertOk(Stop(q, t), t, d);
    InsertContents(Without(q.row, t), q.due, t, d);
  }

  lemma StopOk(q: Queue, t: Timer)
    requires QueueOk(q)
    ensures QueueOk(Stop(q, t)) && Dropped(q.row, t, Stop(q, t).row)
  {
    WithoutSorted(q.row, q.due, t);
    WithoutDistinct(q.row, t);
  }

  /** Every pending timer is due less than half the tick range ahead, a periodic one after now. */
  ghost predicate Ahead(q: Queue, now: nat, per: Periods) {
    forall x :: x in q.row ==> x in q.due && now <= q.due[x] < now + HALF && (x in per ==> now < q.due[x])
  }

  datatype Event = Started(timer: Timer, ticks: nat) | Stopped(timer: Timer) | Ticked

  datatype World = World(queue: Queue, now: nat)

  function Handle(w: World, e: Event, per: Periods): World
    requires QueueOk(w.queue)
  {
    match e
    case Started(t, n) => w.(queue := Start(w.queue, t, w.now + n))
    case Stopped(t) => w.(queue := Stop(w.queue, t))
    case Ticked => World(Checked(w.queue, w.now + 1, per), w.now + 1)
  }

  /** rt_timer_init and rt_timer_control assert the upper bound. */
  ghost predicate Fair(e: Event, per: Periods) {
    e.Started? ==> e.ticks < HALF && (e.timer in per ==> 0 < e.ticks)
  }

  ghost predicate FairPeriods(per: Periods) { forall t :: t in per ==> 0 < per[t] < HALF }

  lemma HandleKeepsAhead(w: World, e: Event, per: Periods)
    requires QueueOk(w.queue) && Ahead(w.queue, w.now, per) && Fair(e, per) && FairPeriods(per)
    ensures QueueOk(Handle(w, e, per).queue) && Ahead(Handle(w, e, per).queue, Handle(w, e, per).now, per)
  {
    hide QueueOk, Checked, Fired, Start, Known;
    match e
    case Started(t, n) => StartKeepsAhead(w.queue, t, w.now, n, per);
    case Stopped(t) => StopOk(w.queue, t);
    case Ticked => CheckKeepsAhead(w.queue, w.now + 1, per);
  }

  lemma StartKeepsAhead(q: Queue, t: Timer, now: nat, ticks: nat, per: Periods)
    requires QueueOk(q) && Ahead(q, now, per) && ticks < HALF && (t in per ==> 0 < ticks)
    ensures QueueOk(Start(q, t, now + ticks)) && Ahead(Start(q, t, now + ticks), now, per)
  {
    hide QueueOk, Start, Known;
    StartOk(q, t, now + ticks);
  }

  lemma CheckKeepsAhead(q: Queue, now: nat, per: Periods)
    requires QueueOk(q) && now > 0 && Ahead(q, now - 1, per) && FairPeriods(per)
    ensures QueueOk(Checked(q, now, per)) && Ahead(Checked(q, now, per), now, per)
  {
    hide Checked, Fired, Distinct, Sorted;
    CheckOutcome(q, now, per);
    var fired := Fired(q, now);
    var rest :| q.row == fired + rest && AllExpired(fired, q.due, now) && AllLater(rest, q.due, now)
                && Restarted(Queue(rest, q.due), fired, now, per, Checked(q, now, per));
    assert forall x :: x in rest ==> x in q.row && x !in fired;
  }

  function Run(w: World, es: seq<Event>, per: Periods): World
    requires QueueOk(w.queue) && Ahead(w.queue, w.now, per) && FairPeriods(per) && forall e :: e in es ==> Fair(e, per)
    decreases |es|
  {
    if es == [] then w else
      HandleKeepsAhead(w, es[0], per);
      Run(Handle(w, es[0], per), es[1..], per)
  }

  /** If the list is checked at every tick, all deadlines compared stay in one window, so the
      wrapped comparisons are right at every moment of every run. */
  lemma {:induction false} RunStaysAhead(w: World, es: seq<Event>, per: Periods)
    requires QueueOk(w.queue) && Ahead(w.queue, w.now, per) && FairPeriods(per) && forall e :: e in es ==> Fair(e, per)
    ensures var r := Run(w, es, per); QueueOk(r.queue) && Ahead(r.queue, r.now, per) && r.now >= w.now
    decreases |es|
  {
    if es != [] {
      HandleKeepsAhead(w, es[0], per);
      RunStaysAhead(Handle(w, es[0], per), es[1..], per);
    }
  }
}
