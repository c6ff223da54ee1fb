/** What a take, a release, a drop and a ceiling change do, told in the fields of threads and
    mutexes, and the account of holds over whole runs (rt-thread/src/ipc.c). */
module MutexLaws {
  import opened IpcObjects
  import opened Lists
  import opened PriorityInheritance

  /** Thread t is as it was, but perhaps for its priority. */
  ghost predicate SameThread(s: State, s': State, t: Thread) {
    t in s.thr && t in s'.thr && s'.thr[t] == s.thr[t].(curr := s'.thr[t].curr)
  }

  ghost predicate SameMembers(a: seq<Thread>, b: seq<Thread>) {
    (forall t :: t in a ==> t in b) && (forall t :: t in b ==> t in a)
  }

  /** Mutex m is as it was, but perhaps for its priority and the order of its waiters. */
  ghost predicate SameMutex(s: State, s': State, m: Mutex) {
    && m in s.mtx && m in s'.mtx
    && s'.mtx[m] == s.mtx[m].(prio := s'.mtx[m].prio, waiters := s'.mtx[m].waiters) && SameMembers(s'.mtx[m].waiters, s.mtx[m].waiters)
  }

  /** No thread but t and no mutex but m has changed in more than priorities. */
  ghost predicate OthersSame(s: State, s': State, t: Thread?, m: Mutex?) {
    && s'.thr.Keys == s.thr.Keys && (forall u :: u in s.thr && u != t ==> SameThread(s, s', u))
    && s'.mtx.Keys == s.mtx.Keys && (forall k :: k in s.mtx && k != m ==> SameMutex(s, s', k))
  }

  lemma PrioritiesOnly(s: State, s': State, boost: bool)
    requires OnlyPriorities(s, s', boost)
    ensures OthersSame(s, s', null, null)
  {
  }

  lemma SameThen(s: State, s1: State, s2: State, t: Thread?, m: Mutex?)
    requires OthersSame(s, s1, t, m) && OthersSame(s1, s2, null, null)
    ensures OthersSame(s, s2, t, m)
  {
    forall u | u in s.thr && u != t ensures SameThread(s, s2, u) { assert SameThread(s, s1, u) && SameThread(s1, s2, u); }
    forall k | k in s.mtx && k != m ensures SameMutex(s, s2, k) { assert SameMutex(s, s1, k) && SameMutex(s1, s2, k); }
  }

  // -------------------------------------------------------------------------------------
  // rt_mutex_take
  // -------------------------------------------------------------------------------------

  /** The answer is determined by the owner and its holds; it is Ok exactly if the caller owns the
      mutex afterwards with one hold more than before, and a refusal changes nothing. */
  lemma TakeAnswer(s: State, t: Thread, m: Mutex, wait: bool)
    requires Inv(s) && Running(s, t) && m in s.mtx
    ensures var (s', r) := Take(s, t, m, wait); var was := s.mtx[m];
            && m in s'.mtx
            && (r == Ok <==> s'.mtx[m].owner == t && s'.mtx[m].hold == was.hold + 1)
            && (r == Ok <==> was.owner == null || (was.owner == t && was.hold < HOLD_MAX))
            && (r == Full <==> was.owner == t && was.hold == HOLD_MAX)
            && (r == TimedOut <==> was.owner != null && was.owner != t && !wait)
            && (r == Blocked <==> was.owner != null && was.owner != t && wait)
            && r != NotOwner
            && (r == Full || r == TimedOut ==> s' == s)
  {
    hide QueuesBut, ExactBut, OwnersAgree, WaitersAgree, NoStale;
    RunningNotWaiting(s, t, m);
    if s.mtx[m].owner != null && s.mtx[m].owner != t && wait { BlockedFields(s, t, m); }
  }

  /** A free mutex enters the caller's list; a nested take only counts; nothing else changes. */
  lemma TakeOk(s: State, t: Thread, m: Mutex, wait: bool)
    requires Inv(s) && Running(s, t) && m in s.mtx && Take(s, t, m, wait).1 == Ok
    ensures var s' := Take(s, t, m, wait).0; var was := s.mtx[m];
            && s'.thr.Keys == s.thr.Keys && s'.mtx.Keys == s.mtx.Keys
            && (forall u :: u in s.thr && u != t ==> s'.thr[u] == s.thr[u]) && (forall k :: k in s.mtx && k != m ==> s'.mtx[k] == s.mtx[k])
            && s'.mtx[m].ceil == was.ceil && s'.mtx[m].waiters == was.waiters
            && s'.thr[t] == s.thr[t].(curr := s'.thr[t].curr, taken := if was.owner == t then s.thr[t].taken else [m] + s.thr[t].taken)
            && (was.owner == t ==> s'.thr[t] == s.thr[t])
  {
    hide QueuesBut, ExactBut, OwnersAgree, WaitersAgree, NoStale;
  }

  /** A blocked caller is suspended and waits for m, where everyone else still waits; who owns what
      is as before. */
  lemma BlockedFields(s: State, t: Thread, m: Mutex)
    requires Inv(s) && Running(s, t) && m in s.mtx && s.mtx[m].owner != null && s.mtx[m].owner != t
    ensures var (s', r) := Take(s, t, m, true);
            && r == Blocked && OthersSame(s, s', t, m)
            && t in s'.thr && s'.thr[t] == s.thr[t].(curr := s'.thr[t].curr, suspended := true, pending := m)
            && m in s'.mtx && s'.mtx[m].owner == s.mtx[m].owner && s'.mtx[m].hold == s.mtx[m].hold && s'.mtx[m].ceil == s.mtx[m].ceil
            && SameMembers(s'.mtx[m].waiters, s.mtx[m].waiters + [t])
  {
    hide Linked, QueuesBut, ExactBut, Walking, Walk, UpdatePriority, OnlyPriorities, NoStale, InsertPrio, Enqueue, OthersSame;
    var r := s.mtx[m];
    EnqueueReady(s, t, m);
    WaitersIn(s, m);
    EnqueueFields(s, t, m);
    var s1 := Enqueue(s, t, m);
    var p := s.thr[t].curr;
    if p < r.prio && p < s1.thr[r.owner].curr {
      UpdateSettles(s1, r.owner, p);
      PrioritiesOnly(s1, UpdatePriority(s1, r.owner, p), true);
      Kept(s, s1, UpdatePriority(s1, r.owner, p), t, m);
    }
  }

  lemma Kept(s: State, s1: State, s2: State, t: Thread, m: Mutex)
    requires OthersSame(s, s1, t, m) && OthersSame(s1, s2, null, null) && t in s.thr && m in s.mtx
    ensures OthersSame(s, s2, t, m) && SameThread(s1, s2, t) && SameMutex(s1, s2, m)
  {
    SameThen(s, s1, s2, t, m);
  }

  lemma EnqueueFields(s: State, t: Thread, m: Mutex)
    requires t in s.thr && m in s.mtx && forall w :: w in s.mtx[m].waiters ==> w in s.thr
    ensures var s' := Enqueue(s, t, m);
            && OthersSame(s, s', t, m)
            && t in s'.thr && s'.thr[t] == s.thr[t].(curr := s'.thr[t].curr, suspended := true, pending := m)
            && m in s'.mtx && s'.mtx[m].owner == s.mtx[m].owner && s'.mtx[m].hold == s.mtx[m].hold && s'.mtx[m].ceil == s.mtx[m].ceil
            && SameMembers(s'.mtx[m].waiters, s.mtx[m].waiters + [t])
  {
  }

  // -------------------------------------------------------------------------------------
  // rt_mutex_release
  // -------------------------------------------------------------------------------------

  /** Only the owner may release.  A release that is not the last takes one hold and no more; the
      last one frees the mutex, or makes the first waiter its owner with one hold. */
  lemma ReleaseFields(s: State, t: Thread, m: Mutex)
    requires Inv(s) && Running(s, t) && m in s.mtx
    ensures var (s', r) := Release(s, t, m); var was := s.mtx[m];
            && (r == Ok || r == NotOwner) && (r == Ok <==> was.owner == t) && (r == NotOwner ==> s' == s)
            && s'.thr.Keys == s.thr.Keys && s'.mtx.Keys == s.mtx.Keys
            && (forall k :: k in s.mtx && k != m ==> s'.mtx[k] == s.mtx[k])
            && (r == Ok && was.hold > 1 ==> s'.thr == s.thr && s'.mtx[m] == was.(hold := was.hold - 1))
            && (r == Ok && was.hold == 1 ==>
                  && m !in s'.thr[t].taken && (forall k :: k in s.thr[t].taken && k != m ==> k in s'.thr[t].taken)
                  && s'.thr[t] == s.thr[t].(curr := s'.thr[t].curr, taken := s'.thr[t].taken)
                  && s'.mtx[m].ceil == was.ceil && s'.mtx[m].owner != t
                  && if was.waiters == [] then
                       && s'.mtx[m].owner == null && s'.mtx[m].hold == 0 && s'.mtx[m].waiters == []
                       && (forall u :: u in s.thr && u != t ==> s'.thr[u] == s.thr[u])
                     else
                       var n := was.waiters[0];
                       && n != t && n in s.thr && s'.mtx[m].owner == n && s'.mtx[m].hold == 1 && s'.mtx[m].waiters == was.waiters[1..]
                       && !s'.thr[n].suspended && s'.thr[n].pending == null && s'.thr[n].taken == [m] + s.thr[n].taken
                       && (forall u :: u in s.thr && u != t && u != n ==> s'.thr[u] == s.thr[u]))
  {
    hide QueuesBut, ExactBut, NoStale, OwnersAgree, EffFrom, FirstPrio;
    RunningNotWaiting(s, t, m);
    WithoutDistinct(s.thr[t].taken, m);
    if s.mtx[m].owner == t && s.mtx[m].waiters != [] {
      assert s.mtx[m].waiters[0] in s.mtx[m].waiters;
    }
  }

  // -------------------------------------------------------------------------------------
  // rt_mutex_drop_thread, rt_mutex_setprioceiling and timeouts
  // -------------------------------------------------------------------------------------

  /** A dropped waiter runs on, waits for nothing and is on no list any more. */
  lemma DropFields(s: State, t: Thread)
    requires Inv(s) && t in s.thr && WaitsOn(s, t) != null
    ensures var s', m := Drop(s, t), WaitsOn(s, t);
            && OthersSame(s, s', t, m)
            && t in s'.thr && s'.thr[t] == s.thr[t].(curr := s'.thr[t].curr, suspended := false, pending := null)
            && m in s.mtx && m in s'.mtx && s'.mtx[m].owner == s.mtx[m].owner && s'.mtx[m].hold == s.mtx[m].hold && s'.mtx[m].ceil == s.mtx[m].ceil
            && t !in s'.mtx[m].waiters && SameMembers(s'.mtx[m].waiters + [t], s.mtx[m].waiters)
  {
    hide Linked, QueuesBut, ExactBut, NoStale, Resettle, OnlyPriorities, OthersSame, Unlink;
    UnlinkReady(s, t);
    var m := WaitsOn(s, t);
    UnlinkFields(s, t, m);
    var s1 := Unlink(s, t, m);
    var o := s.mtx[m].owner;
    WaitersIn(s, m);
    if s.thr[o].curr == s.thr[t].curr {
      ResettleSame(s1, o);
      Kept(s, s1, Resettle(s1, o), t, m);
      PendingFields(s, Resettle(s1, o), t, m);
    } else {
      PendingFields(s, s1, t, m);
    }
  }

  lemma ResettleSame(s: State, o: Thread)
    requires Linked(s) && QueuesBut(s, null) && o in s.thr && ExactBut(s, o)
    ensures OthersSame(s, Resettle(s, o), null, null)
  {
    TakenLinked(s, o);
    hide Linked, QueuesBut, ExactBut, Resettle, OnlyPriorities, Eff;
    ResettleSettles(s, o);
    PrioritiesOnly(s, Resettle(s, o), Eff(s, o) < s.thr[o].curr);
  }

  lemma PendingFields(s: State, s1: State, t: Thread, m: Mutex)
    requires OthersSame(s, s1, t, m) && t in s.thr
    ensures t in s1.thr && OthersSame(s, ClearPending(s1, t), t, m)
  {
  }

  lemma UnlinkFields(s: State, t: Thread, m: Mutex)
    requires Inv(s) && t in s.thr && m in s.mtx && WaitsOn(s, t) == m && forall w :: w in s.mtx[m].waiters ==> w in s.thr
    ensures var s' := Unlink(s, t, m);
            && OthersSame(s, s', t, m) && s'.thr[t] == s.thr[t].(suspended := false)
            && s'.mtx[m].owner == s.mtx[m].owner && s'.mtx[m].hold == s.mtx[m].hold && s'.mtx[m].ceil == s.mtx[m].ceil
            && t !in s'.mtx[m].waiters && SameMembers(s'.mtx[m].waiters + [t], s.mtx[m].waiters)
  {
    hide QueuesBut, ExactBut, NoStale, OwnersAgree, FirstPrio;
    assert MutexOk(s, s.mtx[m]) && t in s.mtx[m].waiters;
    WithoutDistinct(s.mtx[m].waiters, t);
  }

  /** The mutex has the new ceiling; nothing but priorities has changed besides. */
  lemma CeilingFields(s: State, m: Mutex, c: nat)
    requires Inv(s) && m in s.mtx && c < PRIORITY_MAX
    ensures var s' := SetCeiling(s, m, c);
            && OthersSame(s, s', null, m)
            && m in s'.mtx && s'.mtx[m].ceil == c && s'.mtx[m].owner == s.mtx[m].owner && s'.mtx[m].hold == s.mtx[m].hold
            && SameMembers(s'.mtx[m].waiters, s.mtx[m].waiters)
  {
    hide Linked, QueuesBut, ExactBut, Resettle, OnlyPriorities;
    CeilingReady(s, m, c);
    var s1, o := WithCeiling(s, m, c), s.mtx[m].owner;
    if o != null {
      ResettleSame(s1, o);
      SameThen(s, s1, Resettle(s1, o), null, m);
      assert SameMutex(s1, Resettle(s1, o), m);
    }
  }

  // -------------------------------------------------------------------------------------
  // Holds over runs
  // -------------------------------------------------------------------------------------

  /** The holds of t on m. */
  function HeldBy(s: State, t: Thread, m: Mutex): nat {
    if m in s.mtx && s.mtx[m].owner == t then s.mtx[m].hold else 0
  }

  /** One for a take of m by t that is answered Ok, and for a release that hands m over to t. */
  ghost function Got(s: State, step: Step, t: Thread, m: Mutex): nat
    requires Inv(s) && Enabled(s, step)
  {
    match step
    case TakeStep(u, k, wait) => if u == t && k == m && Take(s, u, k, wait).1 == Ok then 1 else 0
    case ReleaseStep(u, k) =>
      if k == m && Release(s, u, k).1 == Ok && s.mtx[m].hold == 1 && s.mtx[m].waiters != [] && s.mtx[m].waiters[0] == t then 1 else 0
    case _ => 0
  }

  /** One for a release of m by t that is answered Ok. */
  ghost function Gave(s: State, step: Step, t: Thread, m: Mutex): nat
    requires Inv(s) && Enabled(s, step)
  {
    if step == ReleaseStep(t, m) && Release(s, t, m).1 == Ok then 1 else 0
  }

  lemma StepAccount(s: State, step: Step, t: Thread, m: Mutex)
    requires Inv(s) && Enabled(s, step)
    ensures HeldBy(Next(s, step), t, m) == HeldBy(s, t, m) + Got(s, step, t, m) - Gave(s, step, t, m)
  {
    hide Inv, Take, Release, Drop, SetCeiling, OthersSame;
    match step
    case TakeStep(u, k, wait) => TakeAccount(s, u, k, wait, t, m);
    case ReleaseStep(u, k) => ReleaseAccount(s, u, k, t, m);
    case DropStep(u) =>
      DropFields(s, u);
      OthersHold(s, Drop(s, u), u, WaitsOn(s, u), t, m);
    case CeilingStep(k, c) =>
      CeilingFields(s, k, c);
      OthersHold(s, SetCeiling(s, k, c), null, k, t, m);
    case _ =>
  }

  lemma OthersHold(s: State, s': State, u: Thread?, k: Mutex, t: Thread, m: Mutex)
    requires OthersSame(s, s', u, k) && k in s.mtx && k in s'.mtx && s'.mtx[k].owner == s.mtx[k].owner && s'.mtx[k].hold == s.mtx[k].hold
    ensures HeldBy(s', t, m) == HeldBy(s, t, m)
  {
    if m in s.mtx && m != k { assert SameMutex(s, s', m); }
  }

  lemma NoneWhenFree(s: State, m: Mutex)
    requires Inv(s) && m in s.mtx
    ensures (s.mtx[m].owner == null <==> s.mtx[m].hold == 0) && s.mtx[m].hold <= HOLD_MAX
  {
    assert MutexOk(s, s.mtx[m]);
  }

  lemma TakeAccount(s: State, u: Thread, k: Mutex, wait: bool, t: Thread, m: Mutex)
    requires Inv(s) && Running(s, u) && k in s.mtx
    ensures HeldBy(Take(s, u, k, wait).0, t, m) == HeldBy(s, t, m) + if u == t && k == m && Take(s, u, k, wait).1 == Ok then 1 else 0
  {
    hide Inv, Take, OthersSame;
    NoneWhenFree(s, k);
    TakeAnswer(s, u, k, wait);
    var (s', r) := Take(s, u, k, wait);
    if r == Ok {
      TakeOk(s, u, k, wait);
    } else if r == Blocked {
      BlockedFields(s, u, k);
      OthersHold(s, s', u, k, t, m);
    }
  }

  lemma ReleaseAccount(s: State, u: Thread, k: Mutex, t: Thread, m: Mutex)
    requires Inv(s) && Running(s, u) && k in s.mtx && Enabled(s, ReleaseStep(u, k))
    ensures HeldBy(Release(s, u, k).0, t, m) == HeldBy(s, t, m) + Got(s, ReleaseStep(u, k), t, m) - Gave(s, ReleaseStep(u, k), t, m)
  {
    hide Inv, Release;
    NoneWhenFree(s, k);
    ReleaseFields(s, u, k);
  }

  /** What is got and given in a run. */
  ghost function AllGot(s: State, steps: seq<Step>, s': State, t: Thread, m: Mutex): nat
    requires Inv(s) && Run(s, steps, s')
    decreases |steps|
  {
    if steps == [] then 0 else
      NextKeepsInv(s, steps[0]);
      Got(s, steps[0], t, m) + AllGot(Next(s, steps[0]), steps[1..], s', t, m)
  }

  ghost function AllGiven(s: State, steps: seq<Step>, s': State, t: Thread, m: Mutex): nat
    requires Inv(s) && Run(s, steps, s')
    decreases |steps|
  {
    if steps == [] then 0 else
      NextKeepsInv(s, steps[0]);
      Gave(s, steps[0], t, m) + AllGiven(Next(s, steps[0]), steps[1..], s', t, m)
  }

  /** In every run from the empty system, the holds a thread has on a mutex are the takes of it that
      succeeded and the hand-overs to it, less its releases. */
  lemma RunAccount(steps: seq<Step>, s': State, t: Thread, m: Mutex)
    requires Inv(EMPTY) && Run(EMPTY, steps, s')
    ensures HeldBy(s', t, m) == AllGot(EMPTY, steps, s', t, m) - AllGiven(EMPTY, steps, s', t, m)
  {
    AccountFrom(EMPTY, steps, s', t, m);
  }

  lemma {:induction false} AccountFrom(s: State, steps: seq<Step>, s': State, t: Thread, m: Mutex)
    requires Inv(s) && Run(s, steps, s')
    ensures HeldBy(s', t, m) == HeldBy(s, t, m) + AllGot(s, steps, s', t, m) - AllGiven(s, steps, s', t, m)
    decreases |steps|
  {
    hide Inv, Next, Enabled, Got, Gave, HeldBy;
    if steps != [] {
      NextKeepsInv(s, steps[0]);
      StepAccount(s, steps[0], t, m);
      AccountFrom(Next(s, steps[0]), steps[1..], s', t, m);
    }
  }

  // -------------------------------------------------------------------------------------
  // Nested takes
  // -------------------------------------------------------------------------------------

  /** n takes of m by t, and n releases. */
  ghost predicate Takes(s: State, t: Thread, m: Mutex, n: nat, s': State)
    decreases n
  {
    if n == 0 then s' == s
    else Inv(s) && Running(s, t) && m in s.mtx && Take(s, t, m, true).1 == Ok && Takes(Take(s, t, m, true).0, t, m, n - 1, s')
  }

  ghost predicate Releases(s: State, t: Thread, m: Mutex, n: nat, s': State)
    decreases n
  {
    if n == 0 then s' == s
    else Inv(s) && Running(s, t) && m in s.mtx && Release(s, t, m).1 == Ok && Releases(Release(s, t, m).0, t, m, n - 1, s')
  }

  /** After n takes of a free mutex the owner holds it n times, up to the limit. */
  lemma {:induction false} TakesCount(s: State, t: Thread, m: Mutex, n: nat, s': State)
    requires Inv(s) && Running(s, t) && m in s.mtx && (s.mtx[m].owner == null || s.mtx[m].owner == t) && Takes(s, t, m, n, s')
    ensures Inv(s') && Running(s', t) && m in s'.mtx && s'.mtx[m].waiters == s.mtx[m].waiters
    ensures s'.mtx[m].hold == s.mtx[m].hold + n <= HOLD_MAX && (n > 0 ==> s'.mtx[m].owner == t)
    decreases n
  {
    hide Inv, Take;
    NoneWhenFree(s, m);
    if n > 0 {
      TakeKeepsInv(s, t, m, true);
      TakeAnswer(s, t, m, true);
      TakeOk(s, t, m, true);
      TakesCount(Take(s, t, m, true).0, t, m, n - 1, s');
    }
  }

  /** A mutex taken n times, with nobody waiting, stays with its owner for n - 1 releases, and the
      n-th frees it. */
  lemma {:induction false} NestedTakes(s: State, t: Thread, m: Mutex, n: nat, taken: State, k: nat, s': State)
    requires Inv(s) && Running(s, t) && m in s.mtx && s.mtx[m].owner == null && Takes(s, t, m, n, taken)
    requires k <= n && Releases(taken, t, m, k, s')
    ensures m in s'.mtx && s'.mtx[m].hold == n - k && s'.mtx[m].owner == if k == n then null else t
  {
    hide Inv;
    NoneWhenFree(s, m);
    WaitersFree(s, m);
    TakesCount(s, t, m, n, taken);
    ReleasesCount(taken, t, m, k, s');
  }

  lemma WaitersFree(s: State, m: Mutex)
    requires Inv(s) && m in s.mtx && s.mtx[m].owner == null
    ensures s.mtx[m].waiters == []
  {
    assert MutexOk(s, s.mtx[m]);
  }

  lemma {:induction false} ReleasesCount(s: State, t: Thread, m: Mutex, k: nat, s': State)
    requires Inv(s) && m in s.mtx && s.mtx[m].waiters == [] && (s.mtx[m].hold > 0 ==> s.mtx[m].owner == t)
    requires k <= s.mtx[m].hold && Releases(s, t, m, k, s')
    ensures m in s'.mtx && s'.mtx[m].hold == s.mtx[m].hold - k && s'.mtx[m].owner == if s'.mtx[m].hold == 0 then null else t
    decreases k
  {
    hide Inv, Release;
    NoneWhenFree(s, m);
    if k > 0 {
      ReleaseFields(s, t, m);
      ReleaseWell(s, t, m);
      ReleasesCount(Release(s, t, m).0, t, m, k - 1, s');
    }
  }

  lemma ReleaseWell(s: State, t: Thread, m: Mutex)
    requires Inv(s) && Running(s, t) && m in s.mtx && s.mtx[m].waiters == []
    ensures Inv(Release(s, t, m).0)
  {
    hide Inv, Release;
    ReleaseKeepsInv(s, t, m);
  }

  /** The owner can take a mutex as often as the limit allows, and each take can be undone. */
  lemma {:induction false} CanNest(s: State, t: Thread, m: Mutex, n: nat) returns (taken: State)
    requires Inv(s) && Running(s, t) && m in s.mtx && (s.mtx[m].owner == null || s.mtx[m].owner == t) && s.mtx[m].hold + n <= HOLD_MAX
    ensures Takes(s, t, m, n, taken)
    decreases n
  {
    hide Inv, Take;
    NoneWhenFree(s, m);
    taken := s;
    if n > 0 {
      TakeKeepsInv(s, t, m, true);
      TakeAnswer(s, t, m, true);
      TakeOk(s, t, m, true);
      taken := CanNest(Take(s, t, m, true).0, t, m, n - 1);
    }
  }

  /** The steps of a run are the calls these laws are about. */
  lemma StepsAreCalls(s: State, step: Step)
    requires Inv(s) && Enabled(s, step)
    ensures var s' := Next(s, step);
            match step
            case TakeStep(t, m, wait) => s' == Take(s, t, m, wait).0
            case ReleaseStep(t, m) => s' == Release(s, t, m).0
            case DropStep(t) => s' == Drop(s, t)
            case CeilingStep(m, c) => s' == SetCeiling(s, m, c)
            case SleepStep(t) => s' == s.(thr := s.thr[t := s.thr[t].(suspended := true)])
            case WakeStep(t) => s' == s.(thr := s.thr[t := s.thr[t].(suspended := false)])
            case NewThread(t, init) => s' == s.(thr := s.thr[t := ThreadRec(init, init, [], null, false)])
            case NewMutex(m) => s' == s.(mtx := s.mtx[m := MutexRec(null, 0, NO_PRIO, NO_PRIO, [])])
  {
    hide Inv, Take, Release, Drop, SetCeiling;
  }
}
