/**
The data behind `rt_mutex_take` and `rt_mutex_release`: threads, mutexes and the
invariants that tie the cached priorities together.
*/
module MutexState {
  import opened Lists

  /** `mutex->priority` when nobody waits. Smaller numbers are more urgent. */
  const NO_PRIORITY: nat := 0xff
  /** RT_MUTEX_HOLD_MAX */
  const HOLD_MAX: nat := 0xff

  datatype Error = EOK | ETIMEOUT | ERROR

  /** Where a thread stands: outside, or past `rt_schedule` in a take of `mutex`. */
  datatype Call = Idle | InTake(mutex: nat)

  datatype Thread = Thread(
    init: nat,              // init_priority
    cur: nat,               // current_priority
    suspended: bool,        // RT_THREAD_SUSPEND_MASK
    pending: Option<nat>,   // pending_object, always a mutex
    taken: seq<nat>,        // taken_object_list
    error: Error,
    timer: bool,            // sched_flag_ttmr_set
    call: Call)

  datatype Mutex = Mutex(
    owner: Option<nat>,
    hold: nat,
    priority: nat,          // cached priority of the first waiter
    waiters: seq<nat>)      // parent.suspend_thread

  type Threads = seq<Thread>
  type Mutexes = seq<Mutex>

  /** The current priority of every thread. */
  function Priorities(ts: Threads): seq<nat> {
    seq(|ts|, i requires 0 <= i < |ts| => ts[i].cur)
  }

  // ---- structure -------------------------------------------------------------

  ghost predicate WaitersOk(ts: Threads, ms: Mutexes) {
    forall m :: 0 <= m < |ms| ==>
      && Distinct(ms[m].waiters)
      && forall w :: w in ms[m].waiters ==>
        w < |ts| && ts[w].suspended && ts[w].pending == Some(m) && ts[w].call == InTake(m)
  }

  ghost predicate OwnersOk(ts: Threads, ms: Mutexes) {
    forall m :: 0 <= m < |ms| ==>
      && ms[m].priority <= NO_PRIORITY
      && match ms[m].owner
         case None => ms[m].waiters == [] && ms[m].priority == NO_PRIORITY && ms[m].hold == 0
         case Some(t) => t < |ts| && m in ts[t].taken && 1 <= ms[m].hold <= HOLD_MAX
  }

  ghost predicate ThreadOk(ts: Threads, ms: Mutexes, t: nat)
    requires t < |ts|
  {
    var th := ts[t];
    && th.init <= NO_PRIORITY
    && Distinct(th.taken)
    && (forall m :: m in th.taken ==> m < |ms| && ms[m].owner == Some(t))
    && (th.timer ==> th.suspended)
    && match th.call
       case Idle => th.pending == None && !th.timer
       case InTake(m) =>
         && m < |ms|
         && if th.suspended
            then th.pending == Some(m) && t in ms[m].waiters && ms[m].owner != Some(t) && th.error == EOK
            else if th.error == EOK then th.pending == None && ms[m].owner == Some(t)
            else th.pending == Some(m) && ms[m].owner != Some(t) && th.error == ETIMEOUT
  }

  ghost predicate Struct(ts: Threads, ms: Mutexes) {
    && WaitersOk(ts, ms)
    && OwnersOk(ts, ms)
    && forall t :: 0 <= t < |ts| ==> ThreadOk(ts, ms, t)
  }

  /** Only current priorities, cached priorities and the order of waiters differ. */
  ghost predicate SameShape(ts: Threads, ms: Mutexes, ts': Threads, ms': Mutexes) {
    && |ts| == |ts'| && |ms| == |ms'|
    && (forall t :: 0 <= t < |ts| ==> ts'[t] == ts[t].(cur := ts'[t].cur))
    && (forall m :: 0 <= m < |ms| ==>
          ms'[m] == ms[m].(priority := ms'[m].priority, waiters := ms'[m].waiters))
    && (forall m :: 0 <= m < |ms| ==> SameWaiters(ms[m].waiters, ms'[m].waiters))
  }

  ghost predicate SameWaiters(w: seq<nat>, w': seq<nat>) {
    |w| == |w'| && (Distinct(w) ==> Distinct(w')) && forall x :: x in w' <==> x in w
  }

  lemma SameShapeRefl(ts: Threads, ms: Mutexes)
    ensures SameShape(ts, ms, ts, ms)
  {
  }

  lemma SameShapeTrans(ts: Threads, ms: Mutexes, ts': Threads, ms': Mutexes, ts'': Threads, ms'': Mutexes)
    requires SameShape(ts, ms, ts', ms') && SameShape(ts', ms', ts'', ms'')
    ensures SameShape(ts, ms, ts'', ms'')
  {
    forall m | 0 <= m < |ms| ensures SameWaiters(ms[m].waiters, ms''[m].waiters) {
      assert SameWaiters(ms[m].waiters, ms'[m].waiters) && SameWaiters(ms'[m].waiters, ms''[m].waiters);
    }
  }

  lemma SameShapeKeepsStruct(ts: Threads, ms: Mutexes, ts': Threads, ms': Mutexes)
    requires Struct(ts, ms) && SameShape(ts, ms, ts', ms')
    requires forall m :: 0 <= m < |ms'| ==> ms'[m].priority <= NO_PRIORITY
    requires forall m :: 0 <= m < |ms'| && ms[m].owner == None ==> ms'[m] == ms[m]
    ensures Struct(ts', ms')
  {
    forall m | 0 <= m < |ms'|
      ensures Distinct(ms'[m].waiters)
      ensures forall w :: w in ms'[m].waiters ==>
        w < |ts'| && ts'[w].suspended && ts'[w].pending == Some(m) && ts'[w].call == InTake(m)
    {
      assert SameWaiters(ms[m].waiters, ms'[m].waiters);
    }
    forall t | 0 <= t < |ts'| ensures ThreadOk(ts', ms', t) {
      assert ThreadOk(ts, ms, t);
      match ts'[t].call
      case Idle =>
      case InTake(m) => assert SameWaiters(ms[m].waiters, ms'[m].waiters);
    }
  }

  // ---- priorities ------------------------------------------------------------

  ghost predicate SortedBut(ts: Threads, w: seq<nat>, x: Option<nat>) {
    forall i, j :: 0 <= i < j < |w| && Some(w[i]) != x && Some(w[j]) != x && w[i] < |ts| && w[j] < |ts| ==>
      ts[w[i]].cur <= ts[w[j]].cur
  }

  /** The suspend list is sorted and the cached priority is no worse than any waiter. */
  ghost predicate QueueOk(ts: Threads, mu: Mutex) {
    && SortedBut(ts, mu.waiters, None)
    && forall w :: w in mu.waiters && w < |ts| ==> mu.priority <= ts[w].cur
  }

  ghost predicate QueueOkBut(ts: Threads, mu: Mutex, x: nat) {
    && SortedBut(ts, mu.waiters, Some(x))
    && forall w :: w in mu.waiters && w != x && w < |ts| ==> mu.priority <= ts[w].cur
  }

  /** `_mutex_update_priority` would change nothing. */
  ghost predicate CacheExact(ts: Threads, mu: Mutex) {
    if mu.waiters == [] then mu.priority == NO_PRIORITY
    else mu.waiters[0] < |ts| ==> mu.priority == ts[mu.waiters[0]].cur
  }

  /** `p` is no worse than the thread's own priority and that of every mutex it holds. */
  ghost predicate Covers(ts: Threads, ms: Mutexes, t: nat, p: nat)
    requires t < |ts|
  {
    p <= ts[t].init && forall m :: 0 <= m < |ms| && ms[m].owner == Some(t) ==> p <= ms[m].priority
  }

  ghost predicate Donates(ms: Mutexes, m: nat, t: nat, p: nat) {
    m < |ms| && ms[m].owner == Some(t) && ms[m].priority == p
  }

  /** `p` is the thread's own priority or comes from a mutex it holds. */
  ghost predicate Attained(ts: Threads, ms: Mutexes, t: nat, p: nat)
    requires t < |ts|
  {
    p == ts[t].init || exists m: nat :: Donates(ms, m, t, p)
  }

  ghost predicate QueuesOk(ts: Threads, ms: Mutexes) {
    forall m :: 0 <= m < |ms| ==> QueueOk(ts, ms[m])
  }

  ghost predicate AllCovered(ts: Threads, ms: Mutexes) {
    forall t :: 0 <= t < |ts| ==> Covers(ts, ms, t, ts[t].cur)
  }

  /** Holds in every reachable state, timeouts and late clean-ups included. */
  ghost predicate Inv(ts: Threads, ms: Mutexes) {
    Struct(ts, ms) && QueuesOk(ts, ms) && AllCovered(ts, ms)
  }

  /** Every cached priority is the value `_mutex_update_priority` and
      `_thread_get_mutex_priority` would compute now. */
  ghost predicate Exact(ts: Threads, ms: Mutexes) {
    && (forall m :: 0 <= m < |ms| ==> CacheExact(ts, ms[m]))
    && (forall t :: 0 <= t < |ts| ==> Attained(ts, ms, t, ts[t].cur))
  }

  // ---- measures for the inheritance loop ---------------------------------------

  ghost function CurSum(ts: Threads): (s: nat) {
    if ts == [] then 0 else CurSum(ts[..|ts| - 1]) + ts[|ts| - 1].cur
  }

  ghost function SlackSum(ts: Threads): (s: nat) {
    if ts == [] then 0 else
      var th := ts[|ts| - 1];
      SlackSum(ts[..|ts| - 1]) + if th.cur <= th.init then th.init - th.cur else 0
  }

  lemma {:induction false} SumsAfterChange(ts: Threads, t: nat, p: nat)
    requires t < |ts| && ts[t].cur <= ts[t].init && p <= ts[t].init
    ensures CurSum(ts[t := ts[t].(cur := p)]) == CurSum(ts) - ts[t].cur + p
    ensures SlackSum(ts[t := ts[t].(cur := p)]) == SlackSum(ts) + ts[t].cur - p
    decreases |ts|
  {
    var ts' := ts[t := ts[t].(cur := p)];
    var n := |ts| - 1;
    if t == n {
      assert ts'[..n] == ts[..n];
    } else {
      SumsAfterChange(ts[..n], t, p);
      assert ts'[..n] == ts[..n][t := ts[t].(cur := p)];
    }
  }
}
