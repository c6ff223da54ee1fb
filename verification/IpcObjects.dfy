/** The kernel objects that take part in priority inheritance, with the fields that do. */
module IpcObjects {

  /** struct rt_thread: its scheduling priorities and its mutex links. */
  class Thread {
    const initPriority: nat
    var currPriority: nat
    var taken: seq<Mutex>        // taken_object_list
    var pending: Mutex?          // pending_object
    var suspended: bool

    constructor (priority: nat)
      ensures initPriority == currPriority == priority && taken == [] && pending == null && !suspended
    {
      initPriority, currPriority, taken, pending, suspended := priority, priority, [], null, false;
    }
  }

  /** struct rt_mutex. */
  class Mutex {
    var owner: Thread?
    var hold: nat
    var priority: nat
    var ceilingPriority: nat
    var waiters: seq<Thread>     // parent.suspend_thread

    /** rt_mutex_init. */
    constructor ()
      ensures owner == null && hold == 0 && priority == 0xff && ceilingPriority == 0xff && waiters == []
    {
      owner, hold, priority, ceilingPriority, waiters := null, 0, 0xff, 0xff, [];
    }
  }
}
