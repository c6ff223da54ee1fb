/** rt-thread/src/timer.c: the timers in rows, each row a sublist of the one below it.
    The bottom row stands for the queue of TimerQueue.dfy; comparisons are made on wrapped
    ticks, as in the source, and the unbounded deadlines they stand for are ghost
    parameters. */
module SkipList {
  import opened Lists
  import opened TimerQueue

  /** RT_TIMER_SKIP_LIST_MASK + 1. */
  const GROUP: nat := 4

  ghost predicate RowOk(row: seq<Timer>, due: Deadlines) { QueueOk(Queue(row, due)) }

  /** Every row is in order and a sublist of the row below it; the last row is the lowest. */
  ghost predicate RowsOk(rows: seq<seq<Timer>>, due: Deadlines) {
    && (forall r :: 0 <= r < |rows| ==> RowOk(rows[r], due))
    && (forall r, s :: 0 <= r && s == r + 1 && s < |rows| ==> Sublist(rows[r], rows[s]))
  }

  /** The rows without a timer. */
  ghost predicate Removed(rows: seq<seq<Timer>>, t: Timer, rows': seq<seq<Timer>>) {
    |rows'| == |rows| && forall r :: 0 <= r < |rows| ==> rows'[r] == Without(rows[r], t)
  }

  /** The rows with t inserted into the rows from m down. */
  ghost predicate Inserted(rows: seq<seq<Timer>>, due: Deadlines, t: Timer, d: nat, m: nat, rows': seq<seq<Timer>>)
    requires RowsOk(rows, due)
  {
    && |rows'| == |rows|
    && forall r :: 0 <= r < |rows| ==>
         RowOk(rows[r], due) && rows'[r] == if r < m then rows[r] else Insert(rows[r], due, t, d)
  }

  ghost predicate NowhereIn(rows: seq<seq<Timer>>, t: Timer) {
    forall r :: 0 <= r < |rows| ==> t !in rows[r]
  }

  lemma RemovedOk(rows: seq<seq<Timer>>, due: Deadlines, t: Timer, rows': seq<seq<Timer>>)
    requires RowsOk(rows, due) && Removed(rows, t, rows')
    ensures RowsOk(rows', due) && NowhereIn(rows', t) && |rows'| == |rows|
    ensures |rows| > 0 ==> rows'[|rows| - 1] == Without(rows[|rows| - 1], t)
  {
    hide RowOk;
    forall r | 0 <= r < |rows| ensures RowOk(rows'[r], due) && t !in rows'[r] {
      RowRemoved(rows[r], due, t);
    }
    forall r, s | 0 <= r && s == r + 1 && s < |rows| ensures Sublist(rows'[r], rows'[s]) {
      assert RowOk(rows[s], due);
      RowDistinct(rows[s], due);
      WithoutBoth(rows[r], rows[s], t);
    }
  }

  lemma RowRemoved(row: seq<Timer>, due: Deadlines, t: Timer)
    requires RowOk(row, due)
    ensures RowOk(Without(row, t), due) && t !in Without(row, t)
  {
    StopOk(Queue(row, due), t);
  }

  lemma RowDistinct(row: seq<Timer>, due: Deadlines)
    requires RowOk(row, due)
    ensures Distinct(row) && Known(row, due) && Sorted(row, due)
  {
  }

  lemma RowInserted(row: seq<Timer>, due: Deadlines, t: Timer, d: nat)
    requires RowOk(row, due) && t !in row
    ensures Known(row, due) && RowOk(Insert(row, due, t, d), due[t := d]) && RowOk(row, due[t := d])
  {
    InsertOk(Queue(row, due), t, d);
    SortedUnder(row, due, due[t := d]);
  }

  /** Whatever the height the counter gives it, a new timer keeps the rows in order. */
  lemma InsertedOk(rows: seq<seq<Timer>>, due: Deadlines, t: Timer, d: nat, m: nat, rows': seq<seq<Timer>>)
    requires RowsOk(rows, due) && Inserted(rows, due, t, d, m, rows') && NowhereIn(rows, t)
    ensures RowsOk(rows', due[t := d]) && |rows'| == |rows|
    ensures m < |rows| ==> var b := |rows| - 1; RowOk(rows[b], due) && rows'[b] == Insert(rows[b], due, t, d)
  {
    hide RowOk, Insert;
    forall r | 0 <= r < |rows| ensures RowOk(rows'[r], due[t := d]) {
      RowInserted(rows[r], due, t, d);
    }
    forall r, s | 0 <= r && s == r + 1 && s < |rows| ensures Sublist(rows'[r], rows'[s]) {
      RowDistinct(rows[r], due);
      RowDistinct(rows[s], due);
      if s < m {
      } else if r < m {
        InsertBelow(rows[r], rows[s], due, t, d);
      } else {
        InsertBoth(rows[r], rows[s], due, t, d);
      }
    }
  }

  /** The place of a timer in a row. */
  function IndexIn(row: seq<Timer>, t: Timer): (k: nat)
    requires t in row
    ensures k < |row| && row[k] == t
  {
    if row[0] == t then 0 else 1 + IndexIn(row[1..], t)
  }

  /** A predecessor in an upper row is at or before the predecessor in the row below. */
  lemma NextRowStart(a: seq<Timer>, b: seq<Timer>, due: Deadlines, d: nat, p: nat)
    requires RowOk(a, due) && RowOk(b, due) && Sublist(a, b) && p == Place(a, due, d) && p > 0
    ensures a[p - 1] in b && due[b[IndexIn(b, a[p - 1])]] <= d
  {
    SublistIn(a, b, a[p - 1]);
  }

  /** The ticks in the timers stand for the deadlines, and all pending ones are in one window. */
  ghost predicate TicksOk(row: seq<Timer>, due: Deadlines)
    reads row`timeoutTick
  {
    forall x :: x in row ==> x in due && x.timeoutTick == Tick(due[x])
  }

  ghost predicate Activated(row: seq<Timer>)
    reads row`activated
  {
    forall x :: x in row ==> x.activated
  }

  ghost predicate RowInWindow(row: seq<Timer>, due: Deadlines, lo: int) {
    forall x :: x in row ==> x in due && InWindow(due[x], lo)
  }

  /** The search of one row, from position p; a position k is behind k timers. */
  method Scan(row: seq<Timer>, timeout: nat, p: nat, ghost due: Deadlines, ghost d: nat, ghost lo: int) returns (k: nat)
    requires RowOk(row, due) && TicksOk(row, due) && RowInWindow(row, due, lo) && InWindow(d, lo) && timeout == Tick(d)
    requires p <= |row| && (p > 0 ==> due[row[p - 1]] <= d)
    ensures k == Place(row, due, d)
  {
    k := p;
    while k != |row|
      invariant k <= |row| && (k > 0 ==> due[row[k - 1]] <= d)
    {
      var t := row[k];
      LaterIff(due[t], d, lo);
      var ahead := Minus(t.timeoutTick, timeout);
      if ahead == 0 {
        k := k + 1;
        continue;
      } else if ahead < HALF {
        break;
      }
      k := k + 1;
    }
    PlaceUnique(row, due, d, k);
  }

  /** Every timer in a row is in the lowest one. */
  lemma {:induction false} InLowest(rows: seq<seq<Timer>>, due: Deadlines, r: nat, x: Timer)
    requires RowsOk(rows, due) && r < |rows| && x in rows[r]
    ensures x in rows[|rows| - 1]
    decreases |rows| - r
  {
    if r + 1 < |rows| {
      SublistIn(rows[r], rows[r + 1], x);
      InLowest(rows, due, r + 1, x);
    }
  }

  lemma RowTicks(rows: seq<seq<Timer>>, due: Deadlines, r: nat, lo: int)
    requires RowsOk(rows, due) && r < |rows|
    requires TicksOk(rows[|rows| - 1], due) && RowInWindow(rows[|rows| - 1], due, lo)
    ensures TicksOk(rows[r], due) && RowInWindow(rows[r], due, lo)
  {
    forall x | x in rows[r] ensures x in rows[|rows| - 1] {
      InLowest(rows, due, r, x);
    }
  }

  /** The places of a deadline in the rows. */
  ghost predicate Placed(rows: seq<seq<Timer>>, due: Deadlines, d: nat, at: seq<nat>) {
    |at| == |rows| && forall r :: 0 <= r < |rows| ==> RowOk(rows[r], due) && at[r] == Place(rows[r], due, d)
  }

  /** Where the new timer goes in each row: the search of a row goes on where that of the row
      above it ended. */
  method Search(rows: seq<seq<Timer>>, timeout: nat, ghost due: Deadlines, ghost d: nat, ghost lo: int) returns (at: seq<nat>)
    requires |rows| > 0 && RowsOk(rows, due) && TicksOk(rows[|rows| - 1], due) && RowInWindow(rows[|rows| - 1], due, lo)
    requires InWindow(d, lo) && timeout == Tick(d)
    ensures Placed(rows, due, d, at)
  {
    hide Sorted, Distinct, TicksOk, RowInWindow, Sublist;
    at := [];
    var p: nat := 0;
    for r := 0 to |rows|
      invariant |at| == r && forall q :: 0 <= q < r ==> RowOk(rows[q], due) && at[q] == Place(rows[q], due, d)
      invariant r < |rows| ==> RowOk(rows[r], due) && p <= |rows[r]| && (p > 0 ==> due[rows[r][p - 1]] <= d)
    {
      RowTicks(rows, due, r, lo);
      p := Scan(rows[r], timeout, p, due, d, lo);
      at := at + [p];
      if r + 1 < |rows| {
        assert Sublist(rows[r], rows[r + 1]) && RowOk(rows[r + 1], due);
        if p > 0 {
          NextRowStart(rows[r], rows[r + 1], due, d, p);
          p := IndexIn(rows[r + 1], rows[r][p - 1]) + 1;
        }
      }
    }
  }

  function PutAt(row: seq<Timer>, k: nat, t: Timer): seq<Timer>
    requires k <= |row|
  {
    row[..k] + [t] + row[k..]
  }

  /** How often a group of zero bits fits below. */
  function Power(k: nat): (p: nat)
    ensures p > 0
  {
    if k == 0 then 1 else GROUP * Power(k - 1)
  }

  /** One more group of zero bits, or none. */
  lemma NextGroup(nr: nat, tst: nat, k: nat)
    requires nr == tst * Power(k)
    ensures tst % GROUP == 0 ==> nr == tst / GROUP * Power(k + 1)
    ensures tst % GROUP != 0 ==> nr % Power(k + 1) != 0
  {
    var p, q, r := Power(k), tst / GROUP, tst % GROUP;
    assert tst == q * GROUP + r;
    Distribute(q, GROUP, r, p);
    assert nr == q * Power(k + 1) + r * p;
    if r != 0 {
      Smaller(r, GROUP, p);
      RemainderIs(nr, q, Power(k + 1), r * p);
    }
  }

  lemma Distribute(q: nat, g: nat, r: nat, p: nat)
    ensures (q * g + r) * p == q * (g * p) + r * p
  {
    assert q * g * p == q * (g * p);
  }

  lemma Smaller(r: nat, g: nat, p: nat)
    requires 0 < r < g && p > 0
    ensures 0 < r * p < g * p
  {
    assert g * p == r * p + (g - r) * p;
  }

  lemma RemainderIs(n: nat, q: nat, m: nat, r: nat)
    requires m > 0 && n == q * m + r && r < m
    ensures n % m == r
  {
    var d := n / m - q;
    assert n == n / m * m + n % m;
    assert d * m == r - n % m;
    assert d >= 1 ==> d * m >= m;
    assert d <= -1 ==> d * m + m <= 0;
  }

  /** The timer goes into the lowest row, and into as many more as the counter has zero groups
      of bits. */
  method Link(rows: seq<seq<Timer>>, at: seq<nat>, t: Timer, nr: nat, ghost due: Deadlines, ghost d: nat)
    returns (rows': seq<seq<Timer>>, ghost m: nat)
    requires |rows| > 0 && RowsOk(rows, due)
    requires Placed(rows, due, d, at)
    ensures m < |rows| && Inserted(rows, due, t, d, m, rows')
    ensures nr % Power(|rows| - 1 - m) == 0 && (m > 0 ==> nr % Power(|rows| - m) != 0)
  {
    hide Sorted, Distinct, Sublist, Insert, Place, Power;
    var n, tst := |rows|, nr;
    InsertAt(rows[n - 1], due, t, d);
    rows' := rows[n - 1 := PutAt(rows[n - 1], at[n - 1], t)];
    var r: nat := n - 1;
    NoGroups(nr);
    while r > 0 && tst % GROUP == 0
      invariant r < n && Inserted(rows, due, t, d, r, rows')
      invariant nr == tst * Power(n - 1 - r)
    {
      r := r - 1;
      InsertAt(rows[r], due, t, d);
      rows' := rows'[r := PutAt(rows[r], at[r], t)];
      NextGroup(nr, tst, n - 2 - r);
      tst := tst / GROUP;
    }
    m := r;
    NextGroup(nr, tst, n - 1 - r);
    NoRest(tst, Power(n - 1 - r));
  }

  lemma NoGroups(nr: nat)
    ensures nr == nr * Power(0)
  {
  }

  lemma NoRest(q: nat, m: nat)
    requires m > 0
    ensures q * m % m == 0
  {
    RemainderIs(q * m, q, m, 0);
  }

  class TimerList {
    var rows: seq<seq<Timer>>
    var randomNr: nat
    ghost var due: Deadlines

    ghost predicate Valid()
      reads this, due.Keys
    {
      && |rows| > 0 && RowsOk(rows, due) && TicksOk(Bottom(), due) && Activated(Bottom())
    }

    ghost function Bottom(): seq<Timer>
      reads this
      requires |rows| > 0
    {
      rows[|rows| - 1]
    }

    ghost function Abs(): Queue
      reads this
      requires |rows| > 0
    {
      Queue(Bottom(), due)
    }

    /** The empty list of `levels` rows. */
    constructor (levels: nat)
      requires levels > 0
      ensures Valid() && Abs() == Queue([], map[]) && |rows| == levels
    {
      rows, randomNr, due := seq(levels, _ => []), 0, map[];
    }

    /** _timer_remove. */
    method Unlink(t: Timer)
      modifies `rows
      ensures Removed(old(rows), t, rows)
    {
      ghost var was := rows;
      for r := 0 to |rows|
        invariant |rows| == |was|
        invariant forall q :: 0 <= q < |was| ==> rows[q] == if q < r then Without(was[q], t) else was[q]
      {
        rows := rows[r := Without(rows[r], t)];
      }
    }

    /** _timer_start; `tick` is the current tick. */
    method Start(t: Timer, tick: nat, ghost now: nat, ghost lo: int)
      requires Valid() && tick == Tick(now)
      requires InWindow(now + t.initTick, lo) && RowInWindow(Without(Bottom(), t), due, lo)
      modifies this, t`timeoutTick, t`activated
      ensures Valid() && QueueOk(old(Abs())) && Abs() == TimerQueue.Start(old(Abs()), t, now + t.initTick)
    {
      hide RowsOk, RowInWindow, QueueOk, Sublist, TicksOk, Activated, Removed, TimerQueue.Start, Insert, Without, Known;
      ghost var was, d := rows, now + t.initTick;
      BottomOk(rows, due);
      Unlink(t);
      RemovedOk(was, due, t, rows);
      assert t !in Bottom();
      RowShrunk(was[|was| - 1], due, t);
      t.activated := false;
      t.timeoutTick := (tick + t.initTick) % WRAP;
      TickOfSum(now, t.initTick);
      ghost var rest := Bottom();
      Enter(t, d, lo);
      t.activated := true;
      ActivatedAdded(rest, t, Bottom());
      StartShape(was[|was| - 1], old(due), t, d);
    }


    /** The search and the linking of _timer_start. */
    method Enter(t: Timer, ghost d: nat, ghost lo: int)
      requires |rows| > 0 && RowsOk(rows, due) && TicksOk(Bottom(), due) && RowInWindow(Bottom(), due, lo)
      requires NowhereIn(rows, t) && t.timeoutTick == Tick(d) && InWindow(d, lo)
      modifies this
      ensures |rows| == |old(rows)| && RowsOk(rows, due) && TicksOk(Bottom(), due) && Added(old(Bottom()), t, Bottom())
      ensures RowOk(old(Bottom()), old(due)) && Bottom() == Insert(old(Bottom()), old(due), t, d) && due == old(due)[t := d]
    {
      hide RowsOk, RowInWindow, TicksOk, QueueOk, Sublist, NowhereIn, Inserted, Insert, Known, Placed, Added;
      BottomOk(rows, due);
      var at := Search(rows, t.timeoutTick, due, d, lo);
      randomNr := (randomNr + 1) % WRAP;
      ghost var before := rows;
      ghost var m;
      rows, m := Link(rows, at, t, randomNr, due, d);
      InsertedOk(before, due, t, d, m, rows);
      InsertContents(before[|before| - 1], due, t, d);
      TicksAdded(before[|before| - 1], due, t, d, Bottom());
      due := due[t := d];
    }

    /** rt_timer_stop. */
    method Stop(t: Timer) returns (ok: bool)
      requires Valid()
      modifies this, t`activated
      ensures Valid() && ok == old(t.activated) && Abs() == (if ok then TimerQueue.Stop(old(Abs()), t) else old(Abs()))
    {
      hide RowsOk, RowInWindow, QueueOk, Sublist, TicksOk, Activated, Removed, Without, NowhereIn;
      ok := t.activated;
      if ok {
        ghost var was := rows;
        Unlink(t);
        RemovedOk(was, due, t, rows);
        GoneFromBottom(rows, t);
        RowShrunk(was[|was| - 1], due, t);
        t.activated := false;
      }
    }

    /** One round of the firing loop, with a callback that touches no timer; `row` are the timers
        the check began with. */
    method FireFirst(tick: nat, ghost now: nat, ghost lo: int, ghost per: Periods, ghost row: seq<Timer>)
      requires Valid() && Bottom() != [] && Within(Bottom(), row) && tick == Tick(now) && lo <= now
      requires Configured(row, per) && RowInWindow(Bottom(), due, lo) && PeriodInWindow(Bottom()[0], per, now, lo)
      modifies this, row`timeoutTick, row`activated
      ensures Valid() && Known(old(Bottom()), old(due)) && Abs() == Fire(old(Abs()), now, per)
      ensures RowInWindow(Bottom(), due, lo) && Within(Bottom(), row)
    {
      hide RowsOk, RowInWindow, QueueOk, Sublist, TicksOk, Activated, Removed, TimerQueue.Start, Insert, NowhereIn, Fire, Configured;
      ghost var q := Abs();
      var t := rows[|rows| - 1][0];
      ghost var was := rows;
      BottomOk(rows, due);
      FirstConfigured(q.row, row, per);
      Unlink(t);
      RemovedOk(was, due, t, rows);
      GoneFromBottom(rows, t);
      RowShrunk(was[|was| - 1], due, t);
      WindowShrunk(q.row, due, t, lo);
      FireShape(q, now, per);
      if !t.periodic {
        t.activated := false;
      }
      if t.periodic && t.activated {
        t.activated := false;
        Start(t, tick, now, lo);
      }
      WindowFired(q, now, per, lo);
    }

    /** _timer_check at a tick that does not change meanwhile: the timers are fired in order. */
    method Check(tick: nat, ghost now: nat, ghost lo: int, ghost per: Periods) returns (fired: seq<Timer>)
      requires Valid() && tick == Tick(now) && InWindow(now, lo)
      requires Configured(Bottom(), per) && RowInWindow(Bottom(), due, lo)
      requires PeriodsReach(Abs(), now, per) && NoZeroExpired(Abs(), now, per)
      modifies this, Bottom()`timeoutTick, Bottom()`activated
      ensures Valid() && QueueOk(old(Abs())) && fired == Fired(old(Abs()), now) && Abs() == Checked(old(Abs()), now, per)
    {
      hide RowsOk, RowInWindow, QueueOk, Sublist, Activated, TicksOk, Configured, PeriodsReach, Within, AfterRounds, Fire, NoZeroExpired, IsExpired;
      ghost var q, j: nat, w := Abs(), 0, lo;
      BottomOk(rows, due);
      NoRounds(q, now, per);
      fired := [];
      while |rows[|rows| - 1]| > 0
        invariant Valid() && InWindow(now, w) && RowInWindow(Bottom(), due, w) && Within(Bottom(), q.row)
        invariant Configured(q.row, per)
        invariant j <= Place(q.row, q.due, now) && fired == q.row[..j] && Abs() == AfterRounds(q, j, now, per)
        decreases Place(q.row, q.due, now) - j
      {
        var t := rows[|rows| - 1][0];
        HeadTick(Bottom(), due);
        HeadExpired(q, j, now, per, tick, t, w);
        if !IsExpired(tick, t.timeoutTick) {
          break;
        }
        BottomOk(rows, due);
        WindowFromHead(q, j, now, per, Abs(), w);
        w := due[t];
        FireFirst(tick, now, w, per, q.row);
        fired := fired + [t];
        j := j + 1;
      }
      LastRound(q, j, now, per);
    }
  }

  /** The next deadline of an expired periodic timer is less than half the range after its last. */
  ghost predicate PeriodsReach(q: Queue, now: nat, per: Periods)
    requires Known(q.row, q.due)
  {
    forall t :: t in q.row && q.due[t] <= now && t in per ==> now + per[t] < q.due[t] + HALF
  }

  /** In a run that checks the list at every tick, every start and every check finds its
      deadlines in one window. */
  lemma RunMeetsWindow(q: Queue, now: nat, per: Periods, t: Timer, ticks: nat)
    requires QueueOk(q) && Ahead(q, now, per) && FairPeriods(per) && ticks < HALF
    ensures RowInWindow(Without(q.row, t), q.due, now) && InWindow(now + ticks, now)
    ensures RowInWindow(q.row, q.due, now) && InWindow(now + 1, now)
    ensures PeriodsReach(q, now + 1, per) && NoZeroExpired(q, now + 1, per)
  {
  }

  /** The window may be moved up to the deadline of the timer that fires next. */
  lemma WindowFromHead(q: Queue, j: nat, now: nat, per: Periods, a: Queue, w: int)
    requires QueueOk(q) && PeriodsReach(q, now, per) && j < Place(q.row, q.due, now) && a == AfterRounds(q, j, now, per)
    requires QueueOk(a) && a.row != [] && InWindow(now, w) && RowInWindow(a.row, a.due, w)
    ensures var lo := a.due[a.row[0]];
            InWindow(now, lo) && RowInWindow(a.row, a.due, lo) && PeriodInWindow(a.row[0], per, now, lo)
  {
    NextRound(q, j, now, per);
    assert q.row[j] in q.row;
  }

  lemma HeadTick(row: seq<Timer>, due: Deadlines)
    requires TicksOk(row, due) && row != []
    ensures row[0] in due && row[0].timeoutTick == Tick(due[row[0]])
  {
  }

  lemma NoRounds(q: Queue, now: nat, per: Periods)
    requires QueueOk(q)
    ensures Known(q.row, q.due) && AfterRounds(q, 0, now, per) == q && Within(q.row, q.row)
  {
    assert q.row[0..] == q.row;
  }

  /** The head of the queue is expired as long as rounds are left, and not after that. */
  lemma HeadExpired(q: Queue, j: nat, now: nat, per: Periods, tick: nat, t: Timer, lo: int)
    requires QueueOk(q) && j <= Place(q.row, q.due, now) && NoZeroExpired(q, now, per) && tick == Tick(now) && InWindow(now, lo)
    requires var a := AfterRounds(q, j, now, per);
             a.row != [] && a.row[0] == t && t.timeoutTick == Tick(a.due[t]) && RowInWindow(a.row, a.due, lo)
    ensures IsExpired(tick, t.timeoutTick) <==> j < Place(q.row, q.due, now)
    ensures j < Place(q.row, q.due, now) ==>
              t == q.row[j] && Fire(AfterRounds(q, j, now, per), now, per) == AfterRounds(q, j + 1, now, per)
  {
    var a := AfterRounds(q, j, now, per);
    ExpiredIff(now, a.due[t], lo);
    if j < Place(q.row, q.due, now) {
      NextRound(q, j, now, per);
    } else {
      NoneExpiredIff(q, now, per);
    }
  }

  lemma LastRound(q: Queue, j: nat, now: nat, per: Periods)
    requires QueueOk(q) && j <= Place(q.row, q.due, now)
    requires AfterRounds(q, j, now, per).row == [] || j == Place(q.row, q.due, now)
    ensures j == Place(q.row, q.due, now) && AfterRounds(q, j, now, per) == Checked(q, now, per)
  {
    if j < Place(q.row, q.due, now) { NextRound(q, j, now, per); }
  }

  ghost predicate Within(row: seq<Timer>, all: seq<Timer>) {
    forall x :: x in row ==> x in all
  }

  /** The flags and initial ticks of the timers say which are periodic, and how long. */
  ghost predicate Configured(row: seq<Timer>, per: Periods)
    reads row`periodic, row`initTick
  {
    forall x :: x in row ==> (x in per <==> x.periodic) && (x in per ==> per[x] == x.initTick)
  }

  ghost predicate PeriodInWindow(t: Timer, per: Periods, now: nat, lo: int) {
    t in per ==> InWindow(now + per[t], lo)
  }

  lemma FirstConfigured(bottom: seq<Timer>, row: seq<Timer>, per: Periods)
    requires Configured(row, per) && Within(bottom, row) && bottom != [] && Activated(bottom)
    ensures var t := bottom[0];
            t.activated && t in row && (t in per <==> t.periodic) && (t in per ==> per[t] == t.initTick)
  {
  }

  lemma GoneFromBottom(rows: seq<seq<Timer>>, t: Timer)
    requires NowhereIn(rows, t) && |rows| > 0
    ensures t !in rows[|rows| - 1]
  {
  }

  lemma WindowShrunk(row: seq<Timer>, due: Deadlines, t: Timer, lo: int)
    requires RowInWindow(row, due, lo)
    ensures RowInWindow(Without(row, t), due, lo) && RowInWindow(Without(Without(row, t), t), due, lo)
  {
  }

  /** A round in terms of removal and start. */
  lemma FireShape(q: Queue, now: nat, per: Periods)
    requires QueueOk(q) && q.row != []
    ensures var t, rest := q.row[0], Queue(Without(q.row, q.row[0]), q.due);
            QueueOk(rest) && Fire(q, now, per) == if t in per then TimerQueue.Start(rest, t, now + per[t]) else rest
  {
    StopOk(q, q.row[0]);
    DistinctTail(q.row);
    assert Without(q.row, q.row[0]) == q.row[1..];
  }

  lemma WindowFired(q: Queue, now: nat, per: Periods, lo: int)
    requires QueueOk(q) && q.row != [] && RowInWindow(q.row, q.due, lo) && (q.row[0] in per ==> InWindow(now + per[q.row[0]], lo))
    ensures RowInWindow(Fire(q, now, per).row, Fire(q, now, per).due, lo) && Within(Fire(q, now, per).row, q.row)
  {
    if q.row[0] in per { InsertContents(q.row[1..], q.due, q.row[0], now + per[q.row[0]]); }
    assert Within(q.row[1..], q.row);
  }

  lemma BottomOk(rows: seq<seq<Timer>>, due: Deadlines)
    requires RowsOk(rows, due) && |rows| > 0
    ensures RowOk(rows[|rows| - 1], due) && QueueOk(Queue(rows[|rows| - 1], due)) && Known(rows[|rows| - 1], due)
  {
  }

  lemma StartShape(row: seq<Timer>, due: Deadlines, t: Timer, d: nat)
    requires RowOk(row, due)
    ensures RowOk(Without(row, t), due)
    ensures TimerQueue.Start(Queue(row, due), t, d) == Queue(Insert(Without(row, t), due, t, d), due[t := d])
  {
    StopOk(Queue(row, due), t);
  }

  lemma RowShrunk(row: seq<Timer>, due: Deadlines, t: Timer)
    requires TicksOk(row, due) && Activated(row)
    ensures TicksOk(Without(row, t), due) && Activated(Without(row, t))
  {
  }

  lemma ActivatedAdded(row: seq<Timer>, t: Timer, row': seq<Timer>)
    requires Activated(row) && t.activated && Added(row, t, row')
    ensures Activated(row')
  {
  }

  lemma TicksAdded(row: seq<Timer>, due: Deadlines, t: Timer, d: nat, row': seq<Timer>)
    requires TicksOk(row, due) && t.timeoutTick == Tick(d) && Added(row, t, row')
    ensures TicksOk(row', due[t := d])
  {
  }

  lemma TickOfSum(now: nat, ticks: nat)
    ensures (Tick(now) + ticks) % WRAP == Tick(now + ticks)
  {
    var q := now / WRAP;
    assert Tick(now) + ticks == now + ticks + WRAP * -q;
    ModShift(now + ticks, -q);
  }
}
