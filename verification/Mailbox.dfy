/** Mailboxes (rt-thread/src/ipc.c): a ring of words with waiting senders and receivers.  Each
    method is one lock-protected section; a thread that was woken runs its section again. */
module Mailbox {
  import opened Lists
  import opened WaitLists

  /** The slot k places behind the out offset, going round. */
  function Slot(out: nat, k: nat, size: nat): (i: nat)
    requires out < size && k <= size
    ensures i < size
  {
    if out + k >= size then out + k - size else out + k
  }

  /** What a ring buffer of n mails holds, oldest first. */
  function Ring(pool: seq<int>, out: nat, n: nat): (m: seq<int>)
    requires out < |pool| && n <= |pool|
    ensures |m| == n && forall k :: 0 <= k < n ==> m[k] == pool[Slot(out, k, |pool|)]
  {
    seq(n, k requires 0 <= k < n => pool[Slot(out, k, |pool|)])
  }

  /** Storing at the in offset queues a mail last. */
  lemma PutLast(pool: seq<int>, out: nat, n: nat, v: int)
    requires out < |pool| && n < |pool|
    ensures Ring(pool[Slot(out, n, |pool|) := v], out, n + 1) == Ring(pool, out, n) + [v]
    ensures var i := Slot(out, n, |pool|); Slot(out, n + 1, |pool|) == if i + 1 >= |pool| then 0 else i + 1
  {
  }

  /** Stepping the out offset back and storing there queues a mail first. */
  lemma PutFirst(pool: seq<int>, out: nat, n: nat, v: int)
    requires out < |pool| && n < |pool|
    ensures var o := if out > 0 then out - 1 else |pool| - 1;
            && Ring(pool[o := v], o, n + 1) == [v] + Ring(pool, out, n)
            && Slot(o, n + 1, |pool|) == Slot(out, n, |pool|)
  {
    hide Ring;
    var o := if out > 0 then out - 1 else |pool| - 1;
    var r, rest := Ring(pool[o := v], o, n + 1), Ring(pool, out, n);
    forall k | 0 <= k < n ensures Shifted(r, rest, k) {
      PutFirstAt(pool, out, n, v, k);
    }
    Joined(r, v, rest);
  }

  lemma PutFirstAt(pool: seq<int>, out: nat, n: nat, v: int, k: nat)
    requires out < |pool| && k < n < |pool|
    ensures var o := if out > 0 then out - 1 else |pool| - 1; Shifted(Ring(pool[o := v], o, n + 1), Ring(pool, out, n), k)
  {
  }

  lemma Joined(r: seq<int>, v: int, rest: seq<int>)
    requires |r| == |rest| + 1 && r[0] == v && forall k :: 0 <= k < |rest| ==> Shifted(r, rest, k)
    ensures r == [v] + rest
  {
    var e := [v] + rest;
    forall k | 0 <= k < |e| ensures r[k] == e[k] {
      if k > 0 { assert Shifted(r, rest, k - 1); }
    }
  }

  /** Stepping the out offset on takes the oldest mail. */
  lemma TakeFirst(pool: seq<int>, out: nat, n: nat)
    requires out < |pool| && 0 < n <= |pool|
    ensures var o := if out + 1 >= |pool| then 0 else out + 1;
            && Ring(pool, out, n) == [pool[out]] + Ring(pool, o, n - 1)
            && Slot(o, n - 1, |pool|) == Slot(out, n, |pool|)
  {
    hide Ring;
    var o := if out + 1 >= |pool| then 0 else out + 1;
    var r, rest := Ring(pool, out, n), Ring(pool, o, n - 1);
    forall k | 0 <= k < n - 1 ensures Shifted(r, rest, k) {
      TakeFirstAt(pool, out, n, k);
    }
    Joined(r, pool[out], rest);
  }

  ghost predicate Shifted(r: seq<int>, rest: seq<int>, k: nat)
    requires k < |rest| && |r| == |rest| + 1
  {
    rest[k] == r[k + 1]
  }

  lemma TakeFirstAt(pool: seq<int>, out: nat, n: nat, k: nat)
    requires out < |pool| && k + 1 < n <= |pool|
    ensures var o := if out + 1 >= |pool| then 0 else out + 1; Shifted(Ring(pool, out, n), Ring(pool, o, n - 1), k)
  {
  }

  class Mailbox {
    const size: nat
    var pool: array<int>             // msg_pool
    var inOffset: nat
    var outOffset: nat
    var entry: nat
    var receivers: seq<nat>          // parent.suspend_thread
    var senders: seq<nat>            // suspend_sender_thread
    ghost var wokenReceivers: set<nat>
    ghost var wokenSenders: set<nat>

    ghost predicate Valid()
      reads this
    {
      && size > 0 && pool.Length == size && entry <= size && inOffset < size && outOffset < size
      && inOffset == Slot(outOffset, entry, size)
      && WaitOk(receivers, wokenReceivers) && WaitOk(senders, wokenSenders)
      && NoneLost(receivers, wokenReceivers, entry) && NoneLost(senders, wokenSenders, size - entry)
    }

    /** The queued mails, oldest first. */
    ghost function Mails(): seq<int>
      requires pool.Length == size && outOffset < size && entry <= size
      reads this, pool
    {
      Ring(pool[..], outOffset, entry)
    }

    ghost function Receivers(): Waits
      reads this
    {
      Waits(receivers, wokenReceivers)
    }

    ghost function Senders(): Waits
      reads this
    {
      Waits(senders, wokenSenders)
    }

    /** rt_mb_init. */
    constructor (size: nat)
      requires size > 0
      ensures this.size == size && Valid() && Mails() == [] && fresh(pool)
      ensures Receivers() == Senders() == Waits([], {})
    {
      this.size := size;
      pool := new int[size];
      inOffset, outOffset, entry := 0, 0, 0;
      receivers, senders, wokenReceivers, wokenSenders := [], [], {}, {};
    }

    /** A waiting receiver, if any, is made ready. */
    method WakeReceiver(ghost items: int)
      requires WaitOk(receivers, wokenReceivers) && NoneLost(receivers, wokenReceivers, items)
      modifies `receivers, `wokenReceivers
      ensures WaitOk(receivers, wokenReceivers) && NoneLost(receivers, wokenReceivers, items + 1)
      ensures Receivers() == old(Receivers()).Wake()
    {
      hide WaitOk, NoneLost;
      WokenOk(receivers, wokenReceivers, items);
      if receivers != [] {
        wokenReceivers := wokenReceivers + {receivers[0]};
        receivers := receivers[1..];
      }
    }

    method WakeSender(ghost items: int)
      requires WaitOk(senders, wokenSenders) && NoneLost(senders, wokenSenders, items)
      modifies `senders, `wokenSenders
      ensures WaitOk(senders, wokenSenders) && NoneLost(senders, wokenSenders, items + 1)
      ensures Senders() == old(Senders()).Wake()
    {
      hide WaitOk, NoneLost;
      WokenOk(senders, wokenSenders, items);
      if senders != [] {
        wokenSenders := wokenSenders + {senders[0]};
        senders := senders[1..];
      }
    }

    /** _rt_mb_send_wait, for thread t, new or woken; `wait` is false once no time is left. */
    method Send(t: nat, value: int, wait: bool, at: nat) returns (r: Status)
      requires Valid() && t !in senders && at <= |senders|
      modifies this, pool
      ensures Valid() && pool == old(pool)
      ensures r == if old(entry) < size then Done else if wait then Suspended else Refused
      ensures Mails() == if r == Done then old(Mails()) + [value] else old(Mails())
      ensures Senders() == if r == Suspended then old(Senders()).Suspend(t, at) else old(Senders()).Ran(t)
      ensures Receivers() == if r == Done then old(Receivers()).Wake() else old(Receivers())
    {
      hide Ring, Slot, Enqueued, WaitOk, NoneLost;
      WaitAgain(senders, wokenSenders, t, at);
      RunOk(senders, wokenSenders, t, size - entry);
      wokenSenders := wokenSenders - {t};
      if entry == size {
        if !wait {
          return Refused;
        }
        senders := Enqueued(senders, t, at);
        return Suspended;
      }
      PutLast(pool[..], outOffset, entry, value);
      pool[inOffset] := value;
      inOffset := inOffset + 1;
      if inOffset >= size { inOffset := 0; }
      entry := entry + 1;
      WakeReceiver(entry - 1);
      r := Done;
    }

    /** rt_mb_urgent. */
    method Urgent(value: int) returns (r: Status)
      requires Valid()
      modifies this, pool
      ensures Valid() && pool == old(pool) && Senders() == old(Senders())
      ensures r == if old(entry) < size then Done else Refused
      ensures Mails() == if r == Done then [value] + old(Mails()) else old(Mails())
      ensures Receivers() == if r == Done then old(Receivers()).Wake() else old(Receivers())
    {
      hide Ring, Slot, WaitOk;
      if entry == size {
        return Refused;
      }
      PutFirst(pool[..], outOffset, entry, value);
      if outOffset > 0 { outOffset := outOffset - 1; } else { outOffset := size - 1; }
      pool[outOffset] := value;
      entry := entry + 1;
      WakeReceiver(entry - 1);
      r := Done;
    }

    /** _rt_mb_recv, for thread t, new or woken. */
    method Recv(t: nat, wait: bool, at: nat) returns (r: Status, value: int)
      requires Valid() && t !in receivers && at <= |receivers|
      modifies this
      ensures Valid() && pool == old(pool)
      ensures r == if old(entry) > 0 then Done else if wait then Suspended else Refused
      ensures if r == Done then old(Mails()) == [value] + Mails() else Mails() == old(Mails())
      ensures Receivers() == if r == Suspended then old(Receivers()).Suspend(t, at) else old(Receivers()).Ran(t)
      ensures Senders() == if r == Done then old(Senders()).Wake() else old(Senders())
    {
      hide Ring, Slot, Enqueued, WaitOk, NoneLost;
      value := 0;
      WaitAgain(receivers, wokenReceivers, t, at);
      RunOk(receivers, wokenReceivers, t, entry);
      wokenReceivers := wokenReceivers - {t};
      if entry == 0 {
        if !wait {
          r := Refused;
          return;
        }
        receivers := Enqueued(receivers, t, at);
        r := Suspended;
        return;
      }
      TakeFirst(pool[..], outOffset, entry);
      value := pool[outOffset];
      outOffset := outOffset + 1;
      if outOffset >= size { outOffset := 0; }
      entry := entry - 1;
      WakeSender(size - entry - 1);
      r := Done;
    }

    /** The timer of a suspended receiver runs out: it leaves the list. */
    method ReceiverTimesOut(t: nat)
      requires Valid() && t in receivers
      modifies `receivers
      ensures Valid() && Receivers() == old(Receivers()).TimedOut(t)
      ensures Senders() == old(Senders()) && Mails() == old(Mails())
    {
      LeaveOk(receivers, wokenReceivers, t);
      receivers := Without(receivers, t);
    }

    method SenderTimesOut(t: nat)
      requires Valid() && t in senders
      modifies `senders
      ensures Valid() && Senders() == old(Senders()).TimedOut(t)
      ensures Receivers() == old(Receivers()) && Mails() == old(Mails())
    {
      LeaveOk(senders, wokenSenders, t);
      senders := Without(senders, t);
    }

    /** Once every woken thread has run, nobody waits for what is there. */
    lemma NobodyForgotten()
      requires Valid()
      ensures wokenReceivers == {} && entry > 0 ==> receivers == []
      ensures wokenSenders == {} && entry < size ==> senders == []
    {
    }
  }
}
