/** Event objects (rt-thread/src/ipc.c): threads wait for all or for any of a set of flags. */
module EventFlags {
  import opened Lists
  import opened WaitLists

  // The operators on flag words, named so that most proofs need not look inside.
  function And(x: bv32, y: bv32): bv32 { x & y }

  function Or(x: bv32, y: bv32): bv32 { x | y }

  function Minus(x: bv32, y: bv32): bv32 { x & !y }

  lemma AndMinus(w: bv32, x: bv32, gone: bv32)
    ensures And(w, Minus(x, gone)) == w ==> And(w, x) == w
    ensures And(w, Minus(x, gone)) != 0 ==> And(w, x) != 0
  {
  }

  lemma AndOr(w: bv32, x: bv32, y: bv32)
    ensures And(w, Or(x, y)) != 0 <==> And(w, x) != 0 || And(w, y) != 0
  {
    assert w & (x | y) == (w & x) | (w & y);
    OrZero(w & x, w & y);
  }

  lemma OrZero(x: bv32, y: bv32)
    ensures x | y == 0 <==> x == 0 && y == 0
  {
  }

  lemma AndZero(w: bv32)
    ensures And(w, 0) == 0
  {
  }

  lemma SameAnd(x: bv32, y: bv32)
    ensures And(x, y) == And(y, x)
  {
  }

  lemma OrAssoc(x: bv32, y: bv32, z: bv32)
    ensures Or(Or(x, y), z) == Or(x, Or(y, z)) && Or(x, 0) == x && Or(0, x) == x && Minus(x, 0) == x
  {
  }

  /** thread->event_set and the RT_EVENT_FLAG_AND, OR and CLEAR bits of thread->event_info. */
  datatype Info = Info(flags: bv32, all: bool, any: bool, clear: bool) {
    predicate Valid() { all || any }
  }

  type Infos = map<nat, Info>

  /** The condition of a waiter; AND is looked at first. */
  predicate Met(i: Info, flags: bv32) {
    if i.all then And(i.flags, flags) == i.flags else i.any && And(i.flags, flags) != 0
  }

  /** The waiters that a set of flags satisfies. */
  function Woken(waiting: seq<nat>, infos: Infos, flags: bv32): seq<nat>
    requires forall t :: t in waiting ==> t in infos
  {
    if waiting == [] then [] else
      (if Met(infos[waiting[0]], flags) then [waiting[0]] else []) + Woken(waiting[1..], infos, flags)
  }

  function Kept(waiting: seq<nat>, infos: Infos, flags: bv32): seq<nat>
    requires forall t :: t in waiting ==> t in infos
  {
    if waiting == [] then [] else
      (if Met(infos[waiting[0]], flags) then [] else [waiting[0]]) + Kept(waiting[1..], infos, flags)
  }

  /** What a waiter takes with it. */
  function Gone(i: Info, flags: bv32): bv32 {
    if Met(i, flags) && i.clear then And(i.flags, flags) else 0
  }

  /** The flags that the waiters which are satisfied and ask for it receive. */
  function Cleared(waiting: seq<nat>, infos: Infos, flags: bv32): bv32
    requires forall t :: t in waiting ==> t in infos
  {
    if waiting == [] then 0 else
      Or(Gone(infos[waiting[0]], flags), Cleared(waiting[1..], infos, flags))
  }

  /** Nobody waits for what is there. */
  ghost predicate NoneMet(waiting: seq<nat>, infos: Infos, flags: bv32) {
    forall t :: t in waiting ==> t in infos && infos[t].Valid() && !Met(infos[t], flags)
  }

  lemma FewerFlagsMeetLess(i: Info, flags: bv32, gone: bv32)
    requires Met(i, Minus(flags, gone))
    ensures Met(i, flags)
  {
    hide And, Minus;
    AndMinus(i.flags, flags, gone);
  }

  /** A send wakes exactly the waiters its flags satisfy, all judged by the same flags, and the
      others stay in order. */
  lemma {:induction false} SplitByFlags(waiting: seq<nat>, infos: Infos, flags: bv32)
    requires Distinct(waiting) && forall t :: t in waiting ==> t in infos
    ensures forall t :: t in Woken(waiting, infos, flags) <==> t in waiting && Met(infos[t], flags)
    ensures forall t :: t in Kept(waiting, infos, flags) <==> t in waiting && !Met(infos[t], flags)
    ensures Distinct(Kept(waiting, infos, flags)) && |Woken(waiting, infos, flags)| + |Kept(waiting, infos, flags)| == |waiting|
  {
    if waiting != [] {
      DistinctTail(waiting);
      SplitByFlags(waiting[1..], infos, flags);
      if !Met(infos[waiting[0]], flags) { DistinctCons(waiting[0], Kept(waiting[1..], infos, flags)); }
    }
  }

  /** A waiter for all is satisfied if none of its flags is missing, one for any if one is there. */
  lemma MetMeans(i: Info, flags: bv32)
    requires i.Valid()
    ensures Met(i, flags) <==> if i.all then Minus(i.flags, flags) == 0 else And(i.flags, flags) != 0
  {
    hide And, Minus;
    NoneMissing(i.flags, flags);
  }

  lemma NoneMissing(x: bv32, y: bv32)
    ensures And(x, y) == x <==> Minus(x, y) == 0
  {
    hide And, Minus;
    Parts(x, y);
    if And(x, y) == x { WithoutItself(x, y); }
    if Minus(x, y) == 0 { OrAssoc(And(x, y), 0, 0); }
  }

  lemma Parts(x: bv32, y: bv32)
    ensures x == Or(And(x, y), Minus(x, y))
  {
  }

  lemma WithoutItself(x: bv32, y: bv32)
    ensures Minus(And(x, y), y) == 0
  {
  }

  /** A send goes along the list: woken and kept waiters are in the order in which they waited. */
  lemma InListOrder(a: seq<nat>, b: seq<nat>, infos: Infos, flags: bv32)
    requires forall t :: t in a + b ==> t in infos
    ensures (forall t :: t in a ==> t in infos) && (forall t :: t in b ==> t in infos)
    ensures Woken(a + b, infos, flags) == Woken(a, infos, flags) + Woken(b, infos, flags)
    ensures Kept(a + b, infos, flags) == Kept(a, infos, flags) + Kept(b, infos, flags)
  {
    assert forall t :: t in a || t in b ==> t in a + b;
    WokenJoins(a, b, infos, flags);
    KeptJoins(a, b, infos, flags);
  }

  lemma {:induction false} WokenJoins(a: seq<nat>, b: seq<nat>, infos: Infos, flags: bv32)
    requires (forall t :: t in a + b ==> t in infos) && (forall t :: t in a ==> t in infos) && (forall t :: t in b ==> t in infos)
    ensures Woken(a + b, infos, flags) == Woken(a, infos, flags) + Woken(b, infos, flags)
    decreases |a|
  {
    hide Met, Kept;
    if a == [] {
      assert a + b == b;
    } else {
      assert (a + b)[1..] == a[1..] + b;
      WokenJoins(a[1..], b, infos, flags);
    }
  }

  lemma {:induction false} KeptJoins(a: seq<nat>, b: seq<nat>, infos: Infos, flags: bv32)
    requires (forall t :: t in a + b ==> t in infos) && (forall t :: t in a ==> t in infos) && (forall t :: t in b ==> t in infos)
    ensures Kept(a + b, infos, flags) == Kept(a, infos, flags) + Kept(b, infos, flags)
    decreases |a|
  {
    hide Met, Woken;
    if a == [] {
      assert a + b == b;
    } else {
      assert (a + b)[1..] == a[1..] + b;
      KeptJoins(a[1..], b, infos, flags);
    }
  }

  /** Flags are cleared exactly if some woken waiter that asked for it received them. */
  lemma {:induction false} ClearedIff(waiting: seq<nat>, infos: Infos, flags: bv32, bits: bv32)
    requires forall t :: t in waiting ==> t in infos
    ensures And(bits, Cleared(waiting, infos, flags)) != 0 <==> exists t :: t in waiting && And(bits, Gone(infos[t], flags)) != 0
  {
    hide Gone, And, Or;
    if waiting != [] {
      ClearedIff(waiting[1..], infos, flags, bits);
      AndOr(bits, Gone(infos[waiting[0]], flags), Cleared(waiting[1..], infos, flags));
      assert waiting[0] in waiting;
    } else {
      AndZero(bits);
    }
  }

  class Event {
    var flags: bv32                  // set
    var waiting: seq<nat>            // parent.suspend_thread
    var infos: Infos                 // event_set and event_info of the threads

    ghost predicate Valid()
      reads this
    {
      Distinct(waiting) && NoneMet(waiting, infos, flags)
    }

    constructor ()
      ensures Valid() && flags == 0 && waiting == []
    {
      flags, waiting, infos := 0, [], map[];
    }

    /** _rt_event_recv up to the wait, for thread t; `wait` is false for a timeout of 0. */
    method Recv(t: nat, bits: bv32, all: bool, any: bool, clear: bool, wait: bool, at: nat) returns (r: Status, received: bv32)
      requires Valid() && t !in waiting && (all || any) && at <= |waiting|
      modifies this
      ensures Valid()
      ensures var i := Info(bits, all, any, clear); var now := old(flags);
              && r == (if bits == 0 then Refused else if Met(i, now) then Done else if wait then Suspended else Refused)
              && (r == Done ==> received == And(bits, now) && infos == old(infos)[t := i.(flags := received)])
              && (r == Suspended ==> infos == old(infos)[t := i]) && (r == Refused ==> infos == old(infos))
              && flags == (if r == Done && clear then Minus(now, bits) else now)
              && waiting == if r == Suspended then Enqueued(old(waiting), t, at) else old(waiting)
    {
      hide Enqueued, Met, Distinct, And, Minus, NoneMet;
      r, received := Refused, 0;
      if bits == 0 {
        return;
      }
      var i := Info(bits, all, any, clear);
      var met := Satisfied(i);
      if met {
        received := And(flags, bits);
        SameAnd(flags, bits);
        OthersNotMet(waiting, infos, flags, t, i.(flags := received));
        infos := infos[t := i.(flags := received)];
        if clear {
          ClearKeeps(waiting, infos, flags, bits);
          flags := Minus(flags, bits);
        }
        r := Done;
      } else if wait {
        EnqueueOk(waiting, {}, t, at);
        OthersNotMet(waiting, infos, flags, t, i);
        EnqueuedNotMet(waiting, infos[t := i], flags, t, at);
        infos := infos[t := i];
        waiting := Enqueued(waiting, t, at);
        r := Suspended;
      }
    }

    /** The timer of a suspended thread runs out: it leaves the list. */
    method TimesOut(t: nat)
      requires Valid() && t in waiting
      modifies `waiting
      ensures Valid() && waiting == Without(old(waiting), t) && t !in waiting
    {
      hide Met;
      WithoutDistinct(waiting, t);
      waiting := Without(waiting, t);
    }

    /** The test both sides make. */
    method Satisfied(i: Info) returns (met: bool)
      requires i.Valid()
      ensures met == Met(i, flags)
    {
      hide And;
      met := false;
      if i.all {
        if And(i.flags, flags) == i.flags { met := true; }
      } else if i.any {
        if And(i.flags, flags) != 0 { met := true; }
      }
    }

    /** One waiter's turn in rt_event_send: what it receives is written back for it. */
    method Judge(t: nat) returns (met: bool, taken: bv32)
      requires t in infos && infos[t].Valid()
      modifies `infos
      ensures met == Met(old(infos)[t], flags) && taken == Gone(old(infos)[t], flags)
      ensures infos == if met then old(infos)[t := Got(old(infos)[t], flags)] else old(infos)
    {
      hide And;
      var i := infos[t];
      taken := 0;
      met := Satisfied(i);
      if met {
        if !i.all { i := i.(flags := And(i.flags, flags)); }
        if i.clear { taken := i.flags; }
        infos := infos[t := i];
      }
    }

    /** rt_event_send; `woken` are the threads made ready, in list order. */
    method Send(bits: bv32) returns (ok: bool, woken: seq<nat>)
      requires Valid()
      modifies this
      ensures Valid() && ok == (bits != 0) && (!ok ==> woken == [] && flags == old(flags) && infos == old(infos) && waiting == old(waiting))
      ensures ok ==> var now := Or(old(flags), bits);
                && woken == Woken(old(waiting), old(infos), now) && waiting == Kept(old(waiting), old(infos), now)
                && flags == Minus(now, Cleared(old(waiting), old(infos), now))
                && Updated(old(infos), infos, woken, now)
    {
      hide Woken, Kept, Cleared, Met, Distinct, And, Or, Minus, Gone, NoneMet;
      woken := [];
      if bits == 0 {
        return false, [];
      }
      ok := true;
      ghost var was, start := waiting, infos;
      NoneMetKnown(waiting, infos, flags);
      flags := Or(flags, bits);
      var gone;
      woken, gone := Sweep();
      SplitByFlags(was, start, flags);
      SendKeeps(was, start, infos, flags, gone);
      flags := Minus(flags, gone);
    }

    /** The walk along the suspend list; woken threads leave it. */
    method Sweep() returns (woken: seq<nat>, gone: bv32)
      requires Distinct(waiting) && forall t :: t in waiting ==> t in infos && infos[t].Valid()
      modifies `waiting, `infos
      ensures woken == Woken(old(waiting), old(infos), flags) && waiting == Kept(old(waiting), old(infos), flags)
      ensures gone == Cleared(old(waiting), old(infos), flags) && Updated(old(infos), infos, woken, flags)
    {
      hide SweepAt, Met, And, Or, Gone, Woken, Kept, Cleared;
      ghost var was, start, j := waiting, infos, 0;
      woken, gone := [], 0;
      var n := 0;
      SweepStart(was, start, flags);
      while n < |waiting|
        invariant SweepAt(was, start, flags, j, n, waiting, woken, gone, infos)
        decreases |was| - j
      {
        SweepNext(was, start, flags, j, n, waiting, woken, gone, infos);
        var t := waiting[n];
        var met, taken := Judge(t);
        gone := Or(gone, taken);
        if met {
          waiting := waiting[..n] + waiting[n + 1..];
          woken := woken + [t];
        } else {
          n := n + 1;
        }
        j := j + 1;
      }
      SweepEnd(was, start, flags, j, n, waiting, woken, gone, infos);
    }
  }

  /** The walk has judged the first j waiters and stands at place n of what is left. */
  ghost predicate SweepAt(was: seq<nat>, start: Infos, flags: bv32, j: nat, n: nat,
                          waiting: seq<nat>, woken: seq<nat>, gone: bv32, infos: Infos) {
    && j <= |was| && Distinct(was) && (forall t :: t in was ==> t in start && start[t].Valid())
    && n == |Kept(was[..j], start, flags)| && waiting == Kept(was[..j], start, flags) + was[j..]
    && woken == Woken(was[..j], start, flags) && gone == Cleared(was[..j], start, flags)
    && Updated(start, infos, woken, flags) && (forall t :: t in woken ==> t in was[..j])
  }

  lemma SweepStart(was: seq<nat>, start: Infos, flags: bv32)
    requires Distinct(was) && forall t :: t in was ==> t in start && start[t].Valid()
    ensures SweepAt(was, start, flags, 0, 0, was, [], 0, start)
  {
    NoneYet(was, start, flags);
  }

  lemma SweepEnd(was: seq<nat>, start: Infos, flags: bv32, j: nat, n: nat,
                 waiting: seq<nat>, woken: seq<nat>, gone: bv32, infos: Infos)
    requires SweepAt(was, start, flags, j, n, waiting, woken, gone, infos) && n >= |waiting|
    ensures (forall t :: t in was ==> t in start) && Updated(start, infos, woken, flags)
    ensures woken == Woken(was, start, flags) && waiting == Kept(was, start, flags) && gone == Cleared(was, start, flags)
  {
    hide Woken, Kept, Cleared, Updated;
    assert was[..j] == was && was[j..] == [];
  }

  /** Where the walk stands after one more waiter. */
  lemma SweepNext(was: seq<nat>, start: Infos, flags: bv32, j: nat, n: nat,
                  waiting: seq<nat>, woken: seq<nat>, gone: bv32, infos: Infos)
    requires SweepAt(was, start, flags, j, n, waiting, woken, gone, infos) && n < |waiting|
    ensures var t := waiting[n];
            && j < |was| && t in infos && t in start && infos[t] == start[t] && start[t].Valid()
            && var taken := Gone(start[t], flags);
               if Met(start[t], flags) then
                 SweepAt(was, start, flags, j + 1, n, waiting[..n] + waiting[n + 1..], woken + [t], Or(gone, taken),
                         infos[t := Got(start[t], flags)])
               else
                 SweepAt(was, start, flags, j + 1, n + 1, waiting, woken, Or(gone, taken), infos)
  {
    hide Woken, Kept, Cleared, Met, Distinct, Or, Gone, Updated, Got;
    var t := waiting[n];
    assert waiting[n..] == was[j..];
    NextWaiter(was, j, t, waiting, n);
    Snoc(was[..j], start, flags, t);
    assert was[..j + 1] == was[..j] + [t];
    UpdatedAt(start, infos, woken, flags, t);
    assert waiting[..n] == Kept(was[..j], start, flags);
  }

  /** The event words after some waiters were woken. */
  ghost predicate Updated(was: Infos, now: Infos, woken: seq<nat>, flags: bv32) {
    && now.Keys == was.Keys
    && forall t :: t in now ==> now[t] == if t in woken then Got(was[t], flags) else was[t]
  }

  /** A woken thread's event_set: what an OR waiter received of what it asked for. */
  function Got(i: Info, flags: bv32): Info {
    if i.all then i else i.(flags := And(i.flags, flags))
  }

  /** A woken thread finds the flags it asked for that were set, and nothing else changes for it. */
  lemma GotMeans(i: Info, flags: bv32)
    requires i.Valid() && Met(i, flags)
    ensures Got(i, flags).flags == And(i.flags, flags) && Got(i, flags) == i.(flags := Got(i, flags).flags)
  {
    hide And;
  }

  lemma NoneMetKnown(waiting: seq<nat>, infos: Infos, flags: bv32)
    requires NoneMet(waiting, infos, flags)
    ensures forall t :: t in waiting ==> t in infos && infos[t].Valid()
  {
  }

  lemma UpdatedAt(was: Infos, now: Infos, woken: seq<nat>, flags: bv32, t: nat)
    requires Updated(was, now, woken, flags) && t in was && t !in woken
    ensures t in now && now[t] == was[t]
    ensures Updated(was, now[t := Got(was[t], flags)], woken + [t], flags)
  {
  }

  lemma NextWaiter(was: seq<nat>, j: nat, t: nat, waiting: seq<nat>, n: nat)
    requires Distinct(was) && j <= |was| && n < |waiting| && waiting[n..] == was[j..] && t == waiting[n]
    ensures j < |was| && t == was[j] && t in was && t !in was[..j]
    ensures waiting == waiting[..n] + [t] + waiting[n + 1..] && was[j..] == [t] + was[j + 1..]
    ensures waiting[n + 1..] == was[j + 1..]
  {
    assert waiting[n..][0] == t && waiting[n..][1..] == waiting[n + 1..];
    assert was[j..][1..] == was[j + 1..];
  }

  lemma NoneYet(was: seq<nat>, infos: Infos, flags: bv32)
    ensures was[..0] == [] && was[0..] == was
    ensures Woken([], infos, flags) == [] && Kept([], infos, flags) == [] && Cleared([], infos, flags) == 0
  {
  }

  /** One more waiter looked at. */
  lemma {:induction false} Snoc(list: seq<nat>, infos: Infos, flags: bv32, t: nat)
    requires t in infos && forall x :: x in list ==> x in infos
    ensures forall x :: x in list + [t] ==> x in infos
    ensures Woken(list + [t], infos, flags) == Woken(list, infos, flags) + (if Met(infos[t], flags) then [t] else [])
    ensures Kept(list + [t], infos, flags) == Kept(list, infos, flags) + (if Met(infos[t], flags) then [] else [t])
    ensures Cleared(list + [t], infos, flags) == Or(Cleared(list, infos, flags), Gone(infos[t], flags))
  {
    hide Or, Gone, Met, Cleared;
    SnocCleared(list, infos, flags, t);
    if list != [] {
      assert (list + [t])[1..] == list[1..] + [t];
      Snoc(list[1..], infos, flags, t);
    }
  }

  lemma {:induction false} SnocCleared(list: seq<nat>, infos: Infos, flags: bv32, t: nat)
    requires t in infos && forall x :: x in list ==> x in infos
    ensures forall x :: x in list + [t] ==> x in infos
    ensures Cleared(list + [t], infos, flags) == Or(Cleared(list, infos, flags), Gone(infos[t], flags))
  {
    hide Or, Gone, Met;
    OrAssoc(Gone(infos[t], flags), 0, 0);
    if list != [] {
      assert (list + [t])[1..] == list[1..] + [t];
      SnocCleared(list[1..], infos, flags, t);
      OrAssoc(Gone(infos[list[0]], flags), Cleared(list[1..], infos, flags), Gone(infos[t], flags));
    }
  }

  /** What a send leaves waiting is not satisfied by the flags it leaves. */
  lemma SendKeeps(was: seq<nat>, start: Infos, infos: Infos, flags: bv32, gone: bv32)
    requires Distinct(was) && (forall t :: t in was ==> t in start && start[t].Valid())
    requires Updated(start, infos, Woken(was, start, flags), flags)
    ensures NoneMet(Kept(was, start, flags), infos, Minus(flags, gone))
  {
    hide Met, Minus, Woken, Kept;
    SplitByFlags(was, start, flags);
    forall t | t in Kept(was, start, flags) ensures t in infos && infos[t].Valid() && !Met(infos[t], Minus(flags, gone)) {
      assert t in was && t !in Woken(was, start, flags);
      if Met(infos[t], Minus(flags, gone)) { FewerFlagsMeetLess(infos[t], flags, gone); }
    }
  }

  lemma OthersNotMet(waiting: seq<nat>, infos: Infos, flags: bv32, t: nat, i: Info)
    requires NoneMet(waiting, infos, flags) && t !in waiting
    ensures NoneMet(waiting, infos[t := i], flags)
  {
  }

  lemma EnqueuedNotMet(waiting: seq<nat>, infos: Infos, flags: bv32, t: nat, at: nat)
    requires NoneMet(waiting, infos, flags) && at <= |waiting| && t in infos && infos[t].Valid() && !Met(infos[t], flags)
    ensures NoneMet(Enqueued(waiting, t, at), infos, flags)
  {
    hide Met;
    forall x | x in Enqueued(waiting, t, at) ensures x in waiting || x == t {
    }
  }

  lemma ClearKeeps(waiting: seq<nat>, infos: Infos, flags: bv32, gone: bv32)
    requires NoneMet(waiting, infos, flags)
    ensures NoneMet(waiting, infos, Minus(flags, gone))
  {
    forall t | t in waiting ensures !Met(infos[t], Minus(flags, gone)) {
      if Met(infos[t], Minus(flags, gone)) { FewerFlagsMeetLess(infos[t], flags, gone); }
    }
  }
}
