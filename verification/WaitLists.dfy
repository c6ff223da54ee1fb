/** Suspend lists of message queues and mailboxes (rt-thread/src/ipc.c), and the accounting that
    no wake-up is lost. */
module WaitLists {
  import opened Lists

  datatype Status = Done | Refused | Suspended

  /** rt_susp_list_enqueue puts a thread last or by priority; what is proved holds for any place. */
  function Enqueued(list: seq<nat>, t: nat, at: nat): seq<nat>
    requires at <= |list|
  {
    list[..at] + [t] + list[at..]
  }

  /** Threads in a suspend list, and threads taken from it that have not run since. */
  ghost predicate WaitOk(list: seq<nat>, woken: set<nat>) {
    Distinct(list) && forall t :: t in list ==> t !in woken
  }

  lemma EnqueueOk(list: seq<nat>, woken: set<nat>, t: nat, at: nat)
    requires WaitOk(list, woken) && t !in list && at <= |list|
    ensures WaitOk(Enqueued(list, t, at), woken - {t}) && |Enqueued(list, t, at)| == |list| + 1
  {
    var r := Enqueued(list, t, at);
    forall i, j | 0 <= i < j < |r| ensures r[i] != r[j] {
      assert r[i] == if i < at then list[i] else if i == at then t else list[i - 1];
      assert r[j] == if j < at then list[j] else if j == at then t else list[j - 1];
    }
  }

  /** Waking the first waiter. */
  lemma WakeOk(list: seq<nat>, woken: set<nat>)
    requires WaitOk(list, woken) && list != []
    ensures WaitOk(list[1..], woken + {list[0]}) && |woken + {list[0]}| == |woken| + 1
  {
    DistinctTail(list);
  }

  lemma LeaveOk(list: seq<nat>, woken: set<nat>, t: nat)
    requires WaitOk(list, woken)
    ensures WaitOk(list, woken - {t}) && |woken - {t}| >= |woken| - 1
    ensures WaitOk(Without(list, t), woken)
  {
    WithoutDistinct(list, t);
    if t in woken { assert woken == (woken - {t}) + {t}; } else { assert woken - {t} == woken; }
  }

  /** As long as someone waits for `items`, there are no more of them than threads woken for them. */
  ghost predicate NoneLost(list: seq<nat>, woken: set<nat>, items: int) {
    list != [] ==> items <= |woken|
  }

  /** A woken thread runs and may take one of the items. */
  lemma RunOk(list: seq<nat>, woken: set<nat>, t: nat, items: int)
    requires WaitOk(list, woken) && NoneLost(list, woken, items)
    ensures WaitOk(list, woken - {t}) && NoneLost(list, woken - {t}, items - 1)
  {
    LeaveOk(list, woken, t);
  }

  /** It finds none and waits again. */
  lemma WaitAgain(list: seq<nat>, woken: set<nat>, t: nat, at: nat)
    requires WaitOk(list, woken) && t !in list && at <= |list|
    ensures WaitOk(Enqueued(list, t, at), woken - {t}) && NoneLost(Enqueued(list, t, at), woken - {t}, 0)
    ensures WaitOk(list, woken - {t}) && NoneLost(list, woken - {t}, 0)
  {
    EnqueueOk(list, woken, t, at);
    LeaveOk(list, woken, t);
  }

  /** With one more item a waiter is woken, if there is one. */
  lemma WokenOk(list: seq<nat>, woken: set<nat>, items: int)
    requires WaitOk(list, woken) && NoneLost(list, woken, items)
    ensures list == [] ==> NoneLost(list, woken, items + 1)
    ensures list != [] ==> WaitOk(list[1..], woken + {list[0]}) && NoneLost(list[1..], woken + {list[0]}, items + 1)
  {
    if list != [] { WakeOk(list, woken); }
  }

  /** A suspend list with the threads woken from it, as one value. */
  datatype Waits = Waits(list: seq<nat>, woken: set<nat>) {
    ghost predicate Ok(items: int) { WaitOk(list, woken) && NoneLost(list, woken, items) }

    /** Thread t runs its section and does not wait again. */
    function Ran(t: nat): Waits { Waits(list, woken - {t}) }

    function Suspend(t: nat, at: nat): Waits
      requires at <= |list|
    {
      Waits(Enqueued(list, t, at), woken - {t})
    }

    /** rt_susp_list_dequeue, if anybody waits. */
    function Wake(): Waits { if list == [] then this else Waits(list[1..], woken + {list[0]}) }

    function TimedOut(t: nat): Waits { Waits(Without(list, t), woken) }

    /** rt_susp_list_resume_all with an error: nobody is left to be served. */
    function Emptied(): Waits { Waits([], woken) }
  }

  lemma RanOk(w: Waits, t: nat, items: int)
    requires w.Ok(items)
    ensures w.Ran(t).Ok(items - 1) && (items == 0 ==> w.Ran(t).Ok(0))
  {
    RunOk(w.list, w.woken, t, items);
    LeaveOk(w.list, w.woken, t);
  }

  lemma SuspendOk(w: Waits, t: nat, at: nat)
    requires w.Ok(0) && t !in w.list && at <= |w.list|
    ensures w.Suspend(t, at).Ok(0)
  {
    WaitAgain(w.list, w.woken, t, at);
  }

  lemma WakesOk(w: Waits, items: int)
    requires w.Ok(items)
    ensures w.Wake().Ok(items + 1)
  {
    WokenOk(w.list, w.woken, items);
  }

  lemma TimedOutOk(w: Waits, t: nat, items: int)
    requires w.Ok(items)
    ensures w.TimedOut(t).Ok(items)
  {
    LeaveOk(w.list, w.woken, t);
    assert w.TimedOut(t).list != [] ==> w.list != [];
  }
}
